/**
 * One step of an ADK run: what it leaves in its directory, and when its evidence can be
 * read back.
 */
module LedgerChain {
  import opened Common
  import opened PosixPath
  import opened DigestLedger
  import opened LedgerPublishing

  // ------------------------------------------------------ references to own names

  predicate Slashless(s: string) {
    '/' !in s && '\\' !in s
  }

  lemma ForwardSlashesKeeps(s: string)
    requires '\\' !in s
    ensures ForwardSlashes(s) == s
  {
  }

  lemma OneComponent(s: string)
    requires '/' !in s
    ensures Parts(s) == Kept(s)
  {
    PartsOfPiece(s, [], []);
    assert s + [] == s && [] + s == s;
  }

  lemma JoinOwnName(step: string, id: string)
    requires PlainPart(step) && Slashless(id)
    ensures JoinRef(step, TextRef(FileName(id))) == Ok(StepFile(step, FileName(id)))
  {
    var name := FileName(id);
    assert |name| == |id| + 5;
    ForwardSlashesKeeps(name);
    OneComponent(name);
  }

  lemma BaseOfManifest(step: string)
    requires PlainPart(step) && '\\' !in step
    ensures ParentBase(ForwardSlashes(ManifestFile(step))) == step
  {
    var name := "run_manifest.json";
    ForwardSlashesKeeps(ManifestFile(step));
    assert PlainParts([step, name]);
    assert ManifestFile(step) == JoinParts([step, name]);
    SplitJoined([step, name]);
    assert [step, name][..1] == [step];
  }

  // A reference never leads out of the run's root, and stays in its directory unless it
  // names one itself.
  lemma JoinedStaysInside(base: string, r: Ref)
    ensures JoinRef(base, r).Ok? <==>
      r.TextRef? && r.text != "" && r.text[0] != '/' && r.text[0] != '\\' && ".." !in Parts(ForwardSlashes(r.text))
    ensures JoinRef(base, r).Ok? ==>
      JoinRef(base, r).value ==
        if base == "" || '/' in r.text || '\\' in r.text then ForwardSlashes(r.text) else StepFile(base, r.text)
  {
  }

  // The keys of step manifests: a given beginning and a given end, which may overlap.
  lemma StepKeyExactly(id: string)
    ensures StepKey(id) <==> Begins(id, "step_") && Ends(id, "_run_manifest")
  {
    assert |"step_"| == 5 && |"_run_manifest"| == 13;
    if StepKey(id) {
      assert id == "step_" + id[5..] && id == id[..|id| - 13] + "_run_manifest";
    }
    if Begins(id, "step_") && Ends(id, "_run_manifest") {
      var rest :| id == "step_" + rest;
      var front :| id == front + "_run_manifest";
      assert id[|front|..] == "_run_manifest";
    }
  }

  ghost predicate Begins(id: string, part: string) {
    exists rest :: id == part + rest
  }

  ghost predicate Ends(id: string, part: string) {
    exists front :: id == front + part
  }

  lemma ManifestName()
    ensures FileName(MANIFEST) == "run_manifest.json"
  {
  }

  // A step id is one plain component.
  predicate StepId(step: string) {
    PlainPart(step) && '\\' !in step
  }

  lemma InputIdsAreSlashless()
    ensures Slashless("validated_input") && Slashless("case_input") && Slashless("deterministic_result")
  {
  }

  lemma OtherIdsAreSlashless()
    ensures Slashless("narrative_draft") && Slashless("constitution_check")
    ensures Slashless("review_packet") && Slashless("run_manifest")
  {
  }

  lemma ArtifactIdsAreSlashless()
    ensures forall id :: id in STEP_ARTIFACTS ==> Slashless(id)
  {
    InputIdsAreSlashless();
    OtherIdsAreSlashless();
  }

  // -------------------------------------------------------- what a step directory holds

  predicate Under(path: string, step: string) {
    step + ['/'] <= path
  }

  // Under the step's directory there are exactly the given documents.
  ghost predicate HoldsStep(files: Files, step: string, docs: map<string, Document>) {
    && (forall id :: id in docs ==>
          StepFile(step, FileName(id)) in files && files[StepFile(step, FileName(id))] == docs[id])
    && (forall path :: path in files && Under(path, step) ==>
          exists id :: id in docs && path == StepFile(step, FileName(id)))
  }

  lemma AddsHolds(before: Files, files: Files, step: string, docs: map<string, Document>)
    requires Fresh(before, step) && Adds(before, files, step, docs)
    ensures HoldsStep(files, step, docs)
  {
  }

  lemma StepFileUnder(step: string, name: string)
    ensures Under(StepFile(step, name), step)
  {
    assert StepFile(step, name) == (step + ['/']) + name;
  }

  // -------------------------------------------------------- a published step, read

  // The published manifest leads from `id` to the published artifact `k`: it names k's
  // file, and its digest for `id` is that of k's document.
  predicate LeadsTo(staged: Files, clean: Cleaner, id: string, k: string)
    requires FileName(MANIFEST) in staged
  {
    var (m, docs) := (PublishedManifest(staged, clean), PublishedStep(staged, clean));
    && InSome(m.paths, id) && InSome(m.digests, id) && k in docs
    && m.paths.value[id] == TextRef(FileName(k)) && m.digests.value[id] == Hex(Canonical(docs[k]))
  }

  // Read off the staged files alone: `id` is named by the file name of an artifact that is
  // published with an equal document.
  ghost predicate StagedReads(staged: Files, clean: Cleaner, id: string)
    requires FileName(MANIFEST) in staged
  {
    exists k :: LeadsTo(staged, clean, id, k)
  }

  // The name the published manifest gives.
  predicate NamedIn(staged: Files, clean: Cleaner, id: string, name: string)
    requires FileName(MANIFEST) in staged
  {
    var m := PublishedManifest(staged, clean);
    InSome(m.paths, id) && m.paths.value[id] == TextRef(name)
  }

  lemma NamesHaveNoSlash(path: string)
    ensures '/' !in Name(path)
  {
    PartsArePlain(path, []);
  }

  // A published manifest names every artifact by a file name.
  lemma PublishedNames(staged: Files, clean: Cleaner, id: string) returns (name: string)
    requires FileName(MANIFEST) in staged && InSome(PublishedManifest(staged, clean).paths, id)
    ensures NamedIn(staged, clean, id, name) && '/' !in name
  {
    var docs := PublishedDocs(staged, clean);
    var first := Sanitize(clean, MANIFEST, staged[FileName(MANIFEST)]);
    ArtifactIdsAreSlashless();
    ManifestName();
    if id == MANIFEST {
      name := "run_manifest.json";
    } else if id in OrEmpty(first.paths) {
      name := Name(RefText(staged[FileName(MANIFEST)].paths.value[id]));
      NamesHaveNoSlash(RefText(staged[FileName(MANIFEST)].paths.value[id]));
    } else {
      name := FileName(id);
      assert id in docs && OwnNames(docs.Keys)[id] == TextRef(FileName(id));
    }
  }

  lemma PublishedIds(staged: Files, clean: Cleaner, k: string)
    requires k in PublishedStep(staged, clean)
    ensures Slashless(k)
  {
    ArtifactIdsAreSlashless();
    ArtifactIds();
  }

  // Joining a plain name to a step gives a file of the step.
  lemma JoinName(step: string, name: string)
    requires PlainPart(step) && Slashless(name) && JoinRef(step, TextRef(name)).Ok?
    ensures JoinRef(step, TextRef(name)) == Ok(StepFile(step, name))
  {
    ForwardSlashesKeeps(name);
  }

  lemma LeadsReadsBack(files: Files, step: string, staged: Files, clean: Cleaner, id: string, k: string)
    requires PlainPart(step) && FileName(MANIFEST) in staged && LeadsTo(staged, clean, id, k)
    requires HoldsStep(files, step, PublishedStep(staged, clean))
    ensures ReadsBack(files, step, PublishedManifest(staged, clean), id)
  {
    PublishedIds(staged, clean, k);
    JoinOwnName(step, k);
  }

  /**
   * An input reads back through its published manifest exactly when the manifest names it
   * by the file of an artifact published with an equal document.  (A name with a backslash
   * leads out of the step's directory and is not decided by the step's own files.)
   */
  lemma StagedReadsBack(files: Files, step: string, staged: Files, clean: Cleaner, id: string, name: string)
    requires PlainPart(step) && FileName(MANIFEST) in staged
    requires HoldsStep(files, step, PublishedStep(staged, clean))
    requires NamedIn(staged, clean, id, name) && '\\' !in name
    ensures ReadsBack(files, step, PublishedManifest(staged, clean), id) <==> StagedReads(staged, clean, id)
  {
    var m := PublishedManifest(staged, clean);
    if StagedReads(staged, clean, id) {
      var k :| LeadsTo(staged, clean, id, k);
      LeadsReadsBack(files, step, staged, clean, id, k);
    }
    if ReadsBack(files, step, m, id) {
      var other := PublishedNames(staged, clean, id);
      JoinName(step, name);
      StepFileUnder(step, name);
      var docs := PublishedStep(staged, clean);
      var k :| k in docs && StepFile(step, name) == StepFile(step, FileName(k));
      StepFileInjective(step, name, step, FileName(k));
      assert LeadsTo(staged, clean, id, k);
    }
  }

  // ------------------------------------------------------------- steps stay sound

  predicate ReadsBack(files: Files, base: string, m: Document, id: string) {
    InSome(m.paths, id) && m.digests.Some? && ReadVerified(files, base, m, id).Ok?
  }

  // A manifest that offers replay evidence offers readable evidence.
  predicate ManifestSound(files: Files, base: string, m: Document) {
    Complete(m) ==>
      && ReadsBack(files, base, m, "validated_input")
      && ReadsBack(files, base, m, "case_input")
      && ReadsBack(files, base, m, "deterministic_result")
  }

  predicate StepSound(files: Files, step: string) {
    ManifestFile(step) in files ==> ManifestSound(files, step, files[ManifestFile(step)])
  }

  // What a step's staged files must satisfy for its evidence, if it offers any, to be read.
  ghost predicate Readable(staged: Files, clean: Cleaner) {
    FileName(MANIFEST) in staged && Complete(PublishedManifest(staged, clean)) ==>
      && StagedReads(staged, clean, "validated_input")
      && StagedReads(staged, clean, "case_input")
      && StagedReads(staged, clean, "deterministic_result")
  }

  // The worker's own text names no replay input with a backslash.
  predicate PlainName(staged: Files, clean: Cleaner, id: string) {
    FileName(MANIFEST) in staged && InSome(PublishedManifest(staged, clean).paths, id) ==>
      '\\' !in RefText(PublishedManifest(staged, clean).paths.value[id])
  }

  predicate PlainNames(staged: Files, clean: Cleaner) {
    PlainName(staged, clean, "validated_input") && PlainName(staged, clean, "case_input") &&
    PlainName(staged, clean, "deterministic_result")
  }

  lemma ManifestOfStep(files: Files, step: string, staged: Files, clean: Cleaner)
    requires PlainPart(step) && HoldsStep(files, step, PublishedStep(staged, clean))
    ensures ManifestFile(step) in files <==> FileName(MANIFEST) in staged
    ensures FileName(MANIFEST) in staged ==> files[ManifestFile(step)] == PublishedManifest(staged, clean)
  {
    ManifestName();
    StepFileUnder(step, "run_manifest.json");
    if FileName(MANIFEST) in staged {
      assert MANIFEST in PublishedStep(staged, clean);
    } else if ManifestFile(step) in files {
      var id :| id in PublishedStep(staged, clean) && ManifestFile(step) == StepFile(step, FileName(id));
      ArtifactFileInjective(step, MANIFEST, id);
    }
  }

  lemma ReadableInput(files: Files, step: string, staged: Files, clean: Cleaner, id: string)
    requires PlainPart(step) && FileName(MANIFEST) in staged
    requires HoldsStep(files, step, PublishedStep(staged, clean))
    requires InSome(PublishedManifest(staged, clean).paths, id)
    ensures StagedReads(staged, clean, id) ==> ReadsBack(files, step, PublishedManifest(staged, clean), id)
    ensures PlainName(staged, clean, id) ==>
      (ReadsBack(files, step, PublishedManifest(staged, clean), id) <==> StagedReads(staged, clean, id))
  {
    if StagedReads(staged, clean, id) {
      var k :| LeadsTo(staged, clean, id, k);
      LeadsReadsBack(files, step, staged, clean, id, k);
    }
    if PlainName(staged, clean, id) {
      var name := PublishedNames(staged, clean, id);
      StagedReadsBack(files, step, staged, clean, id, name);
    }
  }

  /** A published step is sound exactly when its staged files are readable. */
  lemma PublishedSound(files: Files, step: string, staged: Files, clean: Cleaner)
    requires PlainPart(step) && HoldsStep(files, step, PublishedStep(staged, clean))
    ensures Readable(staged, clean) ==> StepSound(files, step)
    ensures PlainNames(staged, clean) ==> (StepSound(files, step) <==> Readable(staged, clean))
  {
    ManifestOfStep(files, step, staged, clean);
    if FileName(MANIFEST) in staged && Complete(PublishedManifest(staged, clean)) {
      ReadableInput(files, step, staged, clean, "validated_input");
      ReadableInput(files, step, staged, clean, "case_input");
      ReadableInput(files, step, staged, clean, "deterministic_result");
    }
  }

  // An input that is staged, and that the worker names by its own file name or not at all.
  predicate NamesOwnFile(staged: Files, id: string)
    requires FileName(MANIFEST) in staged
  {
    var worker := staged[FileName(MANIFEST)];
    FileName(id) in staged && (InSome(worker.paths, id) ==> Name(RefText(worker.paths.value[id])) == FileName(id))
  }

  // Own names are always readable.
  lemma OwnNameReadable(staged: Files, clean: Cleaner, id: string)
    requires FileName(MANIFEST) in staged && id in STEP_ARTIFACTS && id != MANIFEST && NamesOwnFile(staged, id)
    ensures StagedReads(staged, clean, id)
  {
    var docs := PublishedDocs(staged, clean);
    var first := Sanitize(clean, MANIFEST, staged[FileName(MANIFEST)]);
    assert id in docs && OwnNames(docs.Keys)[id] == TextRef(FileName(id));
    LedgeredEnters(first, docs, id);
    assert LeadsTo(staged, clean, id, id);
  }

  // The ledger entry of a published document.
  predicate Enters(m: Document, id: string, d: Document) {
    InSome(m.paths, id) && InSome(m.digests, id) && m.digests.value[id] == Hex(Canonical(d))
  }

  lemma LedgeredEnters(first: Document, docs: map<string, Document>, id: string)
    requires id in docs && id != MANIFEST
    ensures Enters(Ledgered(first, docs), id, docs[id])
  {
  }

  // ---------------------------------------------------------------- a validation step

  // The manifest of a validation step; its run id is null.
  function ValidationManifest(
    caseId: string, input: Document, caseInput: Document, verdict: Document, body: Body): Document
  {
    Document(
      Text(caseId), Null, Absent, Absent, Absent, Absent, Absent,
      Some(map[
        "validated_input" := TextRef("validated_input.json"),
        "case_input" := TextRef("case_input.json"),
        "validation_result" := TextRef("validation_result.json"),
        MANIFEST := TextRef("run_manifest.json")]),
      Some(map[
        "validated_input" := Hex(Canonical(input)),
        "case_input" := Hex(Canonical(caseInput)),
        "validation_result" := Hex(Canonical(verdict))]),
      body)
  }

  function ValidationStep(
    caseId: string, input: Document, caseInput: Document, verdict: Document, body: Body): map<string, Document>
  {
    map[
      "validated_input" := input,
      "case_input" := caseInput,
      "validation_result" := verdict,
      MANIFEST := ValidationManifest(caseId, input, caseInput, verdict, body)]
  }

  method WriteValidationStep(
    root: PinnedRoot, step: string, caseId: string, input: Document, caseInput: Document, verdict: Document, body: Body)
    requires PlainPart(step) && Fresh(root.files, step)
    modifies root
    ensures Adds(old(root.files), root.files, step, ValidationStep(caseId, input, caseInput, verdict, body))
  {
    ghost var before := root.files;
    PublishOne(root, step, "validated_input", input, before, map[]);
    PublishOne(root, step, "case_input", caseInput, before, map["validated_input" := input]);
    PublishOne(root, step, "validation_result", verdict, before,
      map["validated_input" := input, "case_input" := caseInput]);
    PublishOne(root, step, MANIFEST, ValidationManifest(caseId, input, caseInput, verdict, body), before,
      map["validated_input" := input, "case_input" := caseInput, "validation_result" := verdict]);
  }

  lemma ValidationIdsDiffer()
    ensures |"validated_input"| == 15 && |"case_input"| == 10 && |"validation_result"| == 17 && |"run_manifest"| == 12
  {
  }

  lemma ValidationDocs(
    caseId: string, input: Document, caseInput: Document, verdict: Document, body: Body)
    ensures var docs := ValidationStep(caseId, input, caseInput, verdict, body);
      && docs.Keys == {"validated_input", "case_input", "validation_result", "run_manifest"}
      && docs["validated_input"] == input && docs["case_input"] == caseInput && docs["validation_result"] == verdict
      && docs["run_manifest"] == ValidationManifest(caseId, input, caseInput, verdict, body)
  {
    ValidationIdsDiffer();
  }

  /** A validation step leaves three documents, and a manifest that names and digests each. */
  lemma ValidationStepExactly(
    caseId: string, input: Document, caseInput: Document, verdict: Document, body: Body, m: Document)
    requires m == ValidationManifest(caseId, input, caseInput, verdict, body)
    ensures m.caseId == Text(caseId) && m.runId == Null && m.body == body && m.paths.Some? && m.digests.Some?
    ensures m.paths.value == map[
      "validated_input" := TextRef("validated_input.json"), "case_input" := TextRef("case_input.json"),
      "validation_result" := TextRef("validation_result.json"), "run_manifest" := TextRef("run_manifest.json")]
    ensures var docs := ValidationStep(caseId, input, caseInput, verdict, body);
      && docs.Keys == {"validated_input", "case_input", "validation_result", "run_manifest"}
      && docs["validated_input"] == input && docs["case_input"] == caseInput && docs["validation_result"] == verdict
      && docs["run_manifest"] == m && m.digests.value.Keys == docs.Keys - {"run_manifest"}
      && (forall id :: id in docs && id != "run_manifest" ==> m.digests.value[id] == Hex(Canonical(docs[id])))
  {
    ValidationIdsDiffer();
    ValidationDocs(caseId, input, caseInput, verdict, body);
  }

  // A validation step offers no replay evidence, and no reader of run manifests takes it.
  lemma ValidationRefused(
    files: Files, step: string, caseId: string, input: Document, caseInput: Document, verdict: Document, body: Body)
    requires HoldsStep(files, step, ValidationStep(caseId, input, caseInput, verdict, body))
    ensures ManifestFile(step) in files && StepSound(files, step)
    ensures files[ManifestFile(step)] == ValidationManifest(caseId, input, caseInput, verdict, body)
    ensures !Complete(files[ManifestFile(step)]) && !ManifestSchema(files[ManifestFile(step)])
  {
    ManifestName();
    var docs := ValidationStep(caseId, input, caseInput, verdict, body);
    var m := ValidationManifest(caseId, input, caseInput, verdict, body);
    assert docs[MANIFEST] == m && files[StepFile(step, FileName(MANIFEST))] == m;
    assert |"deterministic_result"| == 20 && |"validated_input"| == 15 && |"case_input"| == 10;
    assert |"validation_result"| == 17 && |"run_manifest"| == 12;
  }
}
