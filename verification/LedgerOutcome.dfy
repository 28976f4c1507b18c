/**
 * What the replay reader answers on the files of a finished ADK run, in terms of what its
 * steps staged.
 */
module LedgerOutcome {
  import opened Common
  import opened TextOrder
  import opened PosixPath
  import opened DigestLedger
  import opened LedgerPublishing
  import opened LedgerChain
  import opened LedgerReplay
  import opened LedgerRun

  // ------------------------------------------------------------ the steps' manifests

  // What a worker's manifest needs besides the paths, which publishing supplies.
  predicate WorkerSchema(m: Document) {
    && m.caseId.Text? && m.runId.Text?
    && (m.createdBy.Absent? || m.createdBy.Text?) && (m.status.Absent? || m.status.Text?)
    && (m.toolId.Absent? || m.toolId.Text?) && (m.workflowId.Absent? || m.workflowId.Text?)
    && (m.version.Absent? || m.version.Text? || m.version.Integer? || m.version.Boolean?)
  }

  predicate WellTyped(run: StepRun) {
    LeavesManifest(run) ==> run.Operate? && WorkerSchema(run.staged[FileName(MANIFEST)])
  }

  predicate AllWellTyped(runs: seq<StepRun>) {
    forall i :: 0 <= i < |runs| ==> WellTyped(runs[i])
  }

  // A manifest passes the schema exactly when an operator left it and typed it well.
  lemma WellTypedExactly(run: StepRun, setting: Setting)
    requires LeavesManifest(run)
    ensures ManifestSchema(ManifestOfRun(run, setting)) <==> WellTyped(run)
  {
  }

  // The run's own order of step manifests: that of their keys.
  predicate Earlier(a: StepRun, b: StepRun) {
    Before(StepKeyOf(a.step), StepKeyOf(b.step))
  }

  // The staged manifest names no other case or workflow than the entry's.
  predicate NamesEntry(entry: Entry, m: Document) {
    && (m.caseId == Text("") || m.caseId == Text(entry.caseId))
    && (m.workflowId == Absent || m.workflowId == Text("") || m.workflowId == Text(entry.workflowId))
  }

  // The input was staged, or the staged manifest names it.
  predicate StagedOffers(staged: Files, id: string) {
    FileName(id) in staged || (FileName(MANIFEST) in staged && InSome(staged[FileName(MANIFEST)].paths, id))
  }

  predicate StagedComplete(staged: Files) {
    StagedOffers(staged, "validated_input") && StagedOffers(staged, "case_input") &&
    StagedOffers(staged, "deterministic_result")
  }

  lemma InputIds()
    ensures forall id :: id in {"validated_input", "case_input", "deterministic_result"} ==>
              id in STEP_ARTIFACTS && id != MANIFEST
  {
    ArtifactIds();
    assert REPLAY_INPUTS[0] == "validated_input" && REPLAY_INPUTS[1] == "case_input";
    assert REPLAY_INPUTS[2] == "deterministic_result";
  }

  // Publishing neither adds nor hides an input, and leaves the case and the workflow alone.
  lemma InputOffered(staged: Files, clean: Cleaner, id: string)
    requires FileName(MANIFEST) in staged && id in STEP_ARTIFACTS && id != MANIFEST
    ensures InSome(PublishedManifest(staged, clean).paths, id) <==> StagedOffers(staged, id)
  {
    ManifestKept(staged, clean);
  }

  lemma OffersKept(staged: Files, clean: Cleaner)
    requires FileName(MANIFEST) in staged
    ensures Complete(PublishedManifest(staged, clean)) <==> StagedComplete(staged)
  {
    InputIds();
    InputOffered(staged, clean, "validated_input");
    InputOffered(staged, clean, "case_input");
    InputOffered(staged, clean, "deterministic_result");
  }

  lemma MatchingKept(entry: Entry, staged: Files, clean: Cleaner)
    requires FileName(MANIFEST) in staged
    ensures Matching(entry, PublishedManifest(staged, clean)) <==> Matching(entry, staged[FileName(MANIFEST)])
  {
    ManifestKept(staged, clean);
  }

  lemma NamesEntryExactly(entry: Entry, m: Document)
    requires WorkerSchema(m)
    ensures Matching(entry, m) <==> NamesEntry(entry, m)
  {
  }

  // The reader goes on after this step.
  predicate Passed(run: StepRun, entry: Entry) {
    run.Operate? && FileName(MANIFEST) in run.staged ==>
      NamesEntry(entry, run.staged[FileName(MANIFEST)]) && !StagedComplete(run.staged)
  }

  // The first step whose staged manifest the reader does not pass over.
  predicate RunSettles(runs: seq<StepRun>, entry: Entry, i: nat) {
    && i < |runs| && !Passed(runs[i], entry)
    && forall j :: 0 <= j < |runs| && Earlier(runs[j], runs[i]) ==> Passed(runs[j], entry)
  }

  lemma PassedExactly(run: StepRun, setting: Setting, entry: Entry)
    requires LeavesManifest(run) && WellTyped(run)
    ensures Passed(run, entry) <==> PassedOver(entry, ManifestOfRun(run, setting))
    ensures Offers(entry, ManifestOfRun(run, setting)) <==>
            NamesEntry(entry, run.staged[FileName(MANIFEST)]) && StagedComplete(run.staged)
  {
    OffersKept(run.staged, setting.clean);
    MatchingKept(entry, run.staged, setting.clean);
    NamesEntryExactly(entry, run.staged[FileName(MANIFEST)]);
  }

  // ------------------------------------------------------- from visits back to steps

  lemma LedRun(files: Files, runs: seq<StepRun>, setting: Setting, i: nat)
    requires Finished(files, runs, setting) && i < |runs| && LeavesManifest(runs[i])
    ensures LedCandidate(files, StepKeyOf(runs[i].step)) == Candidate(runs[i].step, ManifestOfRun(runs[i], setting))
  {
    assert ListsRun(files[ROOT], runs[i]) && Holds(files, runs[i], setting);
    RunManifest(files, runs[i], setting);
    BaseOfManifest(runs[i].step);
  }

  lemma VisitOf(files: Files, runs: seq<StepRun>, setting: Setting, order: seq<string>, i: nat) returns (n: nat)
    requires Finished(files, runs, setting) && Visits(files[ROOT], order) && i < |runs| && LeavesManifest(runs[i])
    ensures n < |order| && order[n] == StepKeyOf(runs[i].step)
  {
    assert ListsRun(files[ROOT], runs[i]);
    n :| n < |order| && order[n] == StepKeyOf(runs[i].step);
  }

  lemma RunOf(files: Files, runs: seq<StepRun>, setting: Setting, order: seq<string>, n: nat) returns (i: nat)
    requires Finished(files, runs, setting) && Visits(files[ROOT], order) && n < |order|
    ensures i < |runs| && LeavesManifest(runs[i]) && order[n] == StepKeyOf(runs[i].step)
  {
    assert KeyOfRun(runs, order[n]);
    i :| i < |runs| && LeavesManifest(runs[i]) && order[n] == StepKeyOf(runs[i].step);
  }

  lemma EarlierVisits(order: seq<string>, m: nat, n: nat)
    requires Ascending(order) && m < |order| && n < |order|
    ensures Before(order[m], order[n]) <==> m < n
  {
    BeforeTotal(order[m], order[n]);
  }

  lemma SchemaAcceptsExactly(files: Files, runs: seq<StepRun>, setting: Setting, order: seq<string>)
    requires Finished(files, runs, setting) && Visits(files[ROOT], order)
    ensures AllPass(files, order) <==> AllWellTyped(runs)
  {
    if AllPass(files, order) {
      forall i | 0 <= i < |runs|
        ensures WellTyped(runs[i])
      {
        if LeavesManifest(runs[i]) {
          var n := VisitOf(files, runs, setting, order, i);
          LedRun(files, runs, setting, i);
          WellTypedExactly(runs[i], setting);
        }
      }
    }
    if AllWellTyped(runs) {
      forall n | 0 <= n < |order|
        ensures ManifestSchema(Led(files, order[n]))
      {
        var i := RunOf(files, runs, setting, order, n);
        LedRun(files, runs, setting, i);
        WellTypedExactly(runs[i], setting);
      }
    }
  }

  lemma PassedAt(files: Files, runs: seq<StepRun>, setting: Setting, entry: Entry, i: nat)
    requires Finished(files, runs, setting) && i < |runs| && LeavesManifest(runs[i]) && WellTyped(runs[i])
    ensures PassedOver(entry, Led(files, StepKeyOf(runs[i].step))) <==> Passed(runs[i], entry)
  {
    LedRun(files, runs, setting, i);
    PassedExactly(runs[i], setting, entry);
  }

  lemma SettlesFirst(
    files: Files, runs: seq<StepRun>, setting: Setting, entry: Entry, order: seq<string>, n: nat, i: nat)
    requires Finished(files, runs, setting) && Visits(files[ROOT], order) && AllWellTyped(runs)
    requires i < |runs| && LeavesManifest(runs[i]) && n < |order| && order[n] == StepKeyOf(runs[i].step)
    ensures SettlesAt(files, entry, order, n) ==> RunSettles(runs, entry, i)
  {
    PassedAt(files, runs, setting, entry, i);
    if SettlesAt(files, entry, order, n) {
      forall j | 0 <= j < |runs| && Earlier(runs[j], runs[i])
        ensures Passed(runs[j], entry)
      {
        if LeavesManifest(runs[j]) {
          var m := VisitOf(files, runs, setting, order, j);
          PassedAt(files, runs, setting, entry, j);
          EarlierVisits(order, m, n);
        }
      }
    }
  }

  lemma SettlesAgree(
    files: Files, runs: seq<StepRun>, setting: Setting, entry: Entry, order: seq<string>, n: nat, i: nat)
    requires Finished(files, runs, setting) && Visits(files[ROOT], order) && AllWellTyped(runs)
    requires i < |runs| && LeavesManifest(runs[i]) && n < |order| && order[n] == StepKeyOf(runs[i].step)
    ensures SettlesAt(files, entry, order, n) <==> RunSettles(runs, entry, i)
  {
    SettlesFirst(files, runs, setting, entry, order, n, i);
    PassedAt(files, runs, setting, entry, i);
    if RunSettles(runs, entry, i) {
      forall m | 0 <= m < n
        ensures PassedOver(entry, Led(files, order[m]))
      {
        var j := RunOf(files, runs, setting, order, m);
        PassedAt(files, runs, setting, entry, j);
        EarlierVisits(order, m, n);
        assert Earlier(runs[j], runs[i]);
      }
    }
  }

  // ----------------------------------------------------------- what an input leads to

  // The candidate's manifest names, for `id`, the file of document `k` of step j, and
  // ledgers that document.
  predicate ReadsFrom(runs: seq<StepRun>, setting: Setting, c: Candidate, id: string, j: nat, k: string) {
    var m := c.manifest;
    && j < |runs| && k in DocsOf(runs[j], setting)
    && InSome(m.paths, id) && JoinRef(c.base, m.paths.value[id]) == Ok(StepFile(runs[j].step, FileName(k)))
    && InSome(m.digests, id) && m.digests.value[id] == Hex(Canonical(DocsOf(runs[j], setting)[k]))
  }

  // Read off what the steps staged: the manifest leads from `id` to the document `d`.
  ghost predicate ReadsDoc(runs: seq<StepRun>, setting: Setting, c: Candidate, id: string, d: Document) {
    exists j: nat, k :: ReadsFrom(runs, setting, c, id, j, k) && d == DocsOf(runs[j], setting)[k]
  }

  // The manifest leads from `id` to some published document.
  ghost predicate Reads(runs: seq<StepRun>, setting: Setting, c: Candidate, id: string) {
    exists d :: ReadsDoc(runs, setting, c, id, d)
  }

  // All three replay inputs lead somewhere.
  ghost predicate ReadsAll(runs: seq<StepRun>, setting: Setting, c: Candidate) {
    Reads(runs, setting, c, "validated_input") && Reads(runs, setting, c, "case_input") &&
    Reads(runs, setting, c, "deterministic_result")
  }

  lemma JoinedHasSlash(base: string, r: Ref)
    requires base != "" && JoinRef(base, r).Ok?
    ensures '/' in JoinRef(base, r).value
  {
    var normalized := ForwardSlashes(r.text);
    if '/' !in normalized {
      assert (base + ['/'] + normalized)[|base|] == '/';
    }
  }

  lemma FileOfStep(files: Files, runs: seq<StepRun>, setting: Setting, path: string) returns (j: nat, k: string)
    requires Finished(files, runs, setting) && path in files && '/' in path
    ensures j < |runs| && k in DocsOf(runs[j], setting) && path == StepFile(runs[j].step, FileName(k))
    ensures files[path] == DocsOf(runs[j], setting)[k]
  {
    assert InStep(runs, path);
    j :| j < |runs| && Under(path, runs[j].step);
    assert Holds(files, runs[j], setting);
    k :| k in DocsOf(runs[j], setting) && path == StepFile(runs[j].step, FileName(k));
  }

  predicate Readied(c: Candidate, id: string) {
    c.base != "" && InSome(c.manifest.paths, id) && c.manifest.digests.Some?
  }

  lemma ReadLeads(files: Files, runs: seq<StepRun>, setting: Setting, c: Candidate, id: string)
    requires Finished(files, runs, setting) && Readied(c, id)
    requires ReadVerified(files, c.base, c.manifest, id).Ok?
    ensures ReadsDoc(runs, setting, c, id, ReadVerified(files, c.base, c.manifest, id).value)
  {
    JoinedHasSlash(c.base, c.manifest.paths.value[id]);
    var j, k := FileOfStep(files, runs, setting, JoinRef(c.base, c.manifest.paths.value[id]).value);
    assert ReadsFrom(runs, setting, c, id, j, k);
  }

  lemma HeldFile(files: Files, runs: seq<StepRun>, setting: Setting, j: nat, k: string)
    requires Finished(files, runs, setting) && j < |runs| && k in DocsOf(runs[j], setting)
    ensures var path := StepFile(runs[j].step, FileName(k));
      path in files && files[path] == DocsOf(runs[j], setting)[k]
  {
    assert Holds(files, runs[j], setting);
  }

  lemma ReadAt(files: Files, c: Candidate, id: string, path: string)
    requires Readied(c, id) && JoinRef(c.base, c.manifest.paths.value[id]) == Ok(path) && path in files
    requires InSome(c.manifest.digests, id) && c.manifest.digests.value[id] == Hex(Canonical(files[path]))
    ensures ReadVerified(files, c.base, c.manifest, id) == Ok(files[path])
  {
  }

  lemma LeadIsRead(files: Files, runs: seq<StepRun>, setting: Setting, c: Candidate, id: string, d: Document)
    requires Finished(files, runs, setting) && Readied(c, id) && ReadsDoc(runs, setting, c, id, d)
    ensures ReadVerified(files, c.base, c.manifest, id) == Ok(d)
  {
    var j: nat, k :| ReadsFrom(runs, setting, c, id, j, k) && d == DocsOf(runs[j], setting)[k];
    HeldFile(files, runs, setting, j, k);
    ReadAt(files, c, id, StepFile(runs[j].step, FileName(k)));
  }

  lemma ReadsExactly(files: Files, runs: seq<StepRun>, setting: Setting, c: Candidate, id: string)
    requires Finished(files, runs, setting) && Readied(c, id)
    ensures ReadsBack(files, c.base, c.manifest, id) <==> Reads(runs, setting, c, id)
    ensures ReadsBack(files, c.base, c.manifest, id) ==>
              forall d :: ReadsDoc(runs, setting, c, id, d) <==> d == ReadOf(files, c, id)
  {
    if ReadsBack(files, c.base, c.manifest, id) {
      ReadLeads(files, runs, setting, c, id);
    }
    forall d | ReadsDoc(runs, setting, c, id, d)
      ensures ReadVerified(files, c.base, c.manifest, id) == Ok(d)
    {
      LeadIsRead(files, runs, setting, c, id, d);
    }
  }

  // A complete manifest with a ledger, in the directory of a step.
  predicate Whole(c: Candidate) {
    c.base != "" && Complete(c.manifest) && c.manifest.digests.Some?
  }

  lemma SoundExactly(files: Files, runs: seq<StepRun>, setting: Setting, c: Candidate)
    requires Finished(files, runs, setting) && Whole(c)
    ensures SoundCandidate(files, c) <==> ReadsAll(runs, setting, c)
  {
    ReadsExactly(files, runs, setting, c, "validated_input");
    ReadsExactly(files, runs, setting, c, "case_input");
    ReadsExactly(files, runs, setting, c, "deterministic_result");
  }

  // ------------------------------------------------------------------- the root's part

  // The root manifest of a finished run is refused on provenance, run and case alone.
  lemma RootErrorExactly(files: Files, runs: seq<StepRun>, setting: Setting, entry: Entry, checks: Checks)
    requires Finished(files, runs, setting)
    ensures RootError(entry, checks, files[ROOT]) ==
            if !checks.provenanceOk(files[ROOT]) then Some(ProvenanceMismatch)
            else if entry.runId != setting.runId then Some(RunMismatch)
            else if entry.caseId != setting.caseId then Some(RootCaseMismatch)
            else None
  {
  }

  // The entry is this run's, and every manifest it left can be read.
  predicate Admitted(root: Document, runs: seq<StepRun>, setting: Setting, entry: Entry, checks: Checks) {
    && checks.provenanceOk(root) && entry.runId == setting.runId && entry.caseId == setting.caseId
    && AllWellTyped(runs)
  }

  // -------------------------------------------------------------------- the answers

  // What the reader makes of a step that leaves a manifest.
  function CandidateOf(run: StepRun, setting: Setting): Candidate
    requires LeavesManifest(run)
  {
    Candidate(run.step, ManifestOfRun(run, setting))
  }

  // The settling step is the entry's and offers all three inputs.
  predicate SettlesWith(runs: seq<StepRun>, entry: Entry, i: nat) {
    RunSettles(runs, entry, i) && NamesEntry(entry, runs[i].staged[FileName(MANIFEST)]) && StagedComplete(runs[i].staged)
  }

  lemma SettlingLeaves(runs: seq<StepRun>, entry: Entry, i: nat)
    requires i < |runs| && !Passed(runs[i], entry)
    ensures LeavesManifest(runs[i]) && runs[i].Operate?
  {
  }

  ghost predicate BreaksAt(runs: seq<StepRun>, setting: Setting, entry: Entry, i: nat) {
    SettlesWith(runs, entry, i) && LeavesManifest(runs[i]) && !ReadsAll(runs, setting, CandidateOf(runs[i], setting))
  }

  // The documents a manifest leads to.
  ghost predicate LedEvidence(root: Document, runs: seq<StepRun>, setting: Setting, c: Candidate, e: Evidence) {
    && e.root == root && e.manifest == c.manifest
    && ReadsDoc(runs, setting, c, "validated_input", e.validatedInput)
    && ReadsDoc(runs, setting, c, "case_input", e.caseInput)
    && ReadsDoc(runs, setting, c, "deterministic_result", e.savedResult)
  }

  // The evidence the settling step's manifest leads to.
  ghost predicate EvidenceAt(
    root: Document, runs: seq<StepRun>, setting: Setting, entry: Entry, i: nat, e: Evidence)
  {
    SettlesWith(runs, entry, i) && LeavesManifest(runs[i]) && LedEvidence(root, runs, setting, CandidateOf(runs[i], setting), e)
  }

  lemma ManifestOfRunIsWhole(run: StepRun, setting: Setting)
    requires LeavesManifest(run) && StepId(run.step)
    ensures Complete(ManifestOfRun(run, setting)) ==> Whole(CandidateOf(run, setting))
  {
  }

  lemma ReachesAgree(
    files: Files, runs: seq<StepRun>, setting: Setting, entry: Entry, checks: Checks, order: seq<string>, n: nat, i: nat)
    requires Finished(files, runs, setting) && Visits(files[ROOT], order)
    requires i < |runs| && LeavesManifest(runs[i]) && n < |order| && order[n] == StepKeyOf(runs[i].step)
    ensures Reaches(files, entry, checks, order, n) <==>
            Admitted(files[ROOT], runs, setting, entry, checks) && RunSettles(runs, entry, i)
  {
    RootErrorExactly(files, runs, setting, entry, checks);
    SchemaAcceptsExactly(files, runs, setting, order);
    if AllWellTyped(runs) {
      SettlesAgree(files, runs, setting, entry, order, n, i);
    }
  }

  // What the reader makes of the settling step, in terms of what was staged.
  lemma OffersAgree(runs: seq<StepRun>, setting: Setting, entry: Entry, i: nat)
    requires i < |runs| && RunSettles(runs, entry, i) && AllWellTyped(runs) && StepId(runs[i].step)
    ensures LeavesManifest(runs[i])
    ensures Offers(entry, ManifestOfRun(runs[i], setting)) <==> SettlesWith(runs, entry, i)
    ensures SettlesWith(runs, entry, i) ==> Whole(CandidateOf(runs[i], setting))
  {
    assert WellTyped(runs[i]);
    SettlingLeaves(runs, entry, i);
    PassedExactly(runs[i], setting, entry);
    ManifestOfRunIsWhole(runs[i], setting);
  }

  lemma FailsAgree(
    files: Files, runs: seq<StepRun>, setting: Setting, entry: Entry, checks: Checks, order: seq<string>, n: nat, i: nat)
    requires Finished(files, runs, setting) && Visits(files[ROOT], order)
    requires i < |runs| && LeavesManifest(runs[i]) && n < |order| && order[n] == StepKeyOf(runs[i].step)
    ensures FailsAt(files, entry, checks, order, n) <==>
            Admitted(files[ROOT], runs, setting, entry, checks) && BreaksAt(runs, setting, entry, i)
  {
    ReachesAgree(files, runs, setting, entry, checks, order, n, i);
    LedRun(files, runs, setting, i);
    if AllWellTyped(runs) && RunSettles(runs, entry, i) {
      OffersAgree(runs, setting, entry, i);
      if SettlesWith(runs, entry, i) {
        SoundExactly(files, runs, setting, CandidateOf(runs[i], setting));
      }
    }
  }

  /**
   * The replay of a finished run fails on the chain if and only if the entry is this run's,
   * every manifest can be read, and the first manifest not passed over offers evidence
   * some input of which leads to no document published with the recorded digest.
   */
  lemma RunChainFailsExactly(
    files: Files, runs: seq<StepRun>, setting: Setting, entry: Entry, checks: Checks, order: seq<string>)
    requires Finished(files, runs, setting) && Visits(files[ROOT], order)
    ensures ChainFailure(Replay(files, entry, checks, order)) <==>
            Admitted(files[ROOT], runs, setting, entry, checks) && exists i :: BreaksAt(runs, setting, entry, i)
  {
    ChainFailsExactly(files, entry, checks, order);
    if n: nat :| FailsAt(files, entry, checks, order, n) {
      var i := RunOf(files, runs, setting, order, n);
      FailsAgree(files, runs, setting, entry, checks, order, n, i);
    }
    if i: nat :| BreaksAt(runs, setting, entry, i) {
      var n := VisitOf(files, runs, setting, order, i);
      FailsAgree(files, runs, setting, entry, checks, order, n, i);
    }
  }

  lemma EvidenceAgree(
    files: Files, root: Document, runs: seq<StepRun>, setting: Setting, c: Candidate, e: Evidence)
    requires Finished(files, runs, setting) && Whole(c)
    ensures LedEvidence(root, runs, setting, c, e) <==> SoundCandidate(files, c) && e == EvidenceOf(files, root, c)
  {
    ReadsExactly(files, runs, setting, c, "validated_input");
    ReadsExactly(files, runs, setting, c, "case_input");
    ReadsExactly(files, runs, setting, c, "deterministic_result");
  }

  lemma YieldsAgree(
    files: Files, runs: seq<StepRun>, setting: Setting, entry: Entry, checks: Checks, order: seq<string>,
    n: nat, i: nat, e: Evidence)
    requires Finished(files, runs, setting) && Visits(files[ROOT], order)
    requires i < |runs| && LeavesManifest(runs[i]) && n < |order| && order[n] == StepKeyOf(runs[i].step)
    ensures YieldsAt(files, entry, checks, order, n, e) <==>
            && Admitted(files[ROOT], runs, setting, entry, checks)
            && EvidenceAt(files[ROOT], runs, setting, entry, i, e) && Accepted(checks, e)
  {
    ReachesAgree(files, runs, setting, entry, checks, order, n, i);
    LedRun(files, runs, setting, i);
    if AllWellTyped(runs) && RunSettles(runs, entry, i) {
      OffersAgree(runs, setting, entry, i);
      if SettlesWith(runs, entry, i) {
        EvidenceAgree(files, files[ROOT], runs, setting, CandidateOf(runs[i], setting), e);
      }
    }
  }

  /**
   * The replay of a finished run returns `e` if and only if the entry is this run's, every
   * manifest can be read, `e` consists of the published documents that the first manifest
   * not passed over leads to, and the remaining checks accept it.
   */
  lemma RunSucceedsExactly(
    files: Files, runs: seq<StepRun>, setting: Setting, entry: Entry, checks: Checks, order: seq<string>, e: Evidence)
    requires Finished(files, runs, setting) && Visits(files[ROOT], order)
    ensures Replay(files, entry, checks, order) == Ok(e) <==>
            && Admitted(files[ROOT], runs, setting, entry, checks) && Accepted(checks, e)
            && exists i :: EvidenceAt(files[ROOT], runs, setting, entry, i, e)
  {
    SucceedsExactly(files, entry, checks, order, e);
    if n: nat :| YieldsAt(files, entry, checks, order, n, e) {
      var i := RunOf(files, runs, setting, order, n);
      YieldsAgree(files, runs, setting, entry, checks, order, n, i, e);
    }
    if i: nat :| EvidenceAt(files[ROOT], runs, setting, entry, i, e) {
      var n := VisitOf(files, runs, setting, order, i);
      YieldsAgree(files, runs, setting, entry, checks, order, n, i, e);
    }
  }

  // Whose evidence is refused, and why.
  function Refusal(checks: Checks, e: Evidence): Option<ReplayError> {
    if !(checks.inputOk(e.validatedInput) && checks.resultOk(e.savedResult)) then Some(SchemaInvalid)
    else if !checks.identityOk(e.validatedInput, e.caseInput, e.savedResult) then Some(IdentityMismatch)
    else if !checks.replayOk(e.caseInput, e.savedResult) then Some(ReplayMismatch)
    else None
  }

  lemma JudgedRefusal(files: Files, entry: Entry, checks: Checks, root: Document, c: Candidate)
    requires Offers(entry, c.manifest) && SoundCandidate(files, c)
    ensures var e := EvidenceOf(files, root, c);
      Judge(files, entry, checks, root, c) ==
        Some(match Refusal(checks, e) case Some(error) => Err(error) case None => Ok(e))
  {
  }

  // What a manifest names besides the entry, the case before the workflow.
  function Mismatch(entry: Entry, m: Document): Option<ReplayError> {
    if m.caseId != Text("") && m.caseId != Text(entry.caseId) then Some(CaseMismatch)
    else if !NamesEntry(entry, m) then Some(WorkflowMismatch)
    else None
  }

  lemma JudgedMismatch(files: Files, entry: Entry, checks: Checks, root: Document, c: Candidate)
    requires WorkerSchema(c.manifest) && Mismatch(entry, c.manifest).Some?
    ensures Judge(files, entry, checks, root, c) == Some(Err(Mismatch(entry, c.manifest).value))
  {
  }

  lemma PublishedMismatch(entry: Entry, staged: Files, clean: Cleaner)
    requires FileName(MANIFEST) in staged && WorkerSchema(staged[FileName(MANIFEST)])
    ensures WorkerSchema(PublishedManifest(staged, clean))
    ensures Mismatch(entry, PublishedManifest(staged, clean)) == Mismatch(entry, staged[FileName(MANIFEST)])
  {
    ManifestKept(staged, clean);
  }

  // The reader's answer is its judgement of the settling step.
  lemma SettledAnswer(
    files: Files, runs: seq<StepRun>, setting: Setting, entry: Entry, checks: Checks, order: seq<string>, i: nat)
    requires Finished(files, runs, setting) && Visits(files[ROOT], order)
    requires Admitted(files[ROOT], runs, setting, entry, checks) && RunSettles(runs, entry, i)
    ensures LeavesManifest(runs[i])
    ensures Judge(files, entry, checks, files[ROOT], CandidateOf(runs[i], setting)) ==
            Some(Replay(files, entry, checks, order))
  {
    OffersAgree(runs, setting, entry, i);
    var n := VisitOf(files, runs, setting, order, i);
    ReachesAgree(files, runs, setting, entry, checks, order, n, i);
    LedRun(files, runs, setting, i);
    ReplayOutcome(files, entry, checks, order, n);
  }

  /**
   * The other answers.  Once the entry is this run's and every manifest can be read: missing
   * evidence if every step is passed over; a mismatch if the settling manifest names another
   * case or workflow; and the first check its evidence fails, if it fails one.
   */
  lemma RunMismatches(
    files: Files, runs: seq<StepRun>, setting: Setting, entry: Entry, checks: Checks, order: seq<string>,
    i: nat, m: Document)
    requires i < |runs| && LeavesManifest(runs[i]) && runs[i].Operate? && m == runs[i].staged[FileName(MANIFEST)]
    requires Finished(files, runs, setting) && Visits(files[ROOT], order)
    requires Admitted(files[ROOT], runs, setting, entry, checks) && RunSettles(runs, entry, i)
    ensures Mismatch(entry, m).Some? ==> Replay(files, entry, checks, order) == Err(Mismatch(entry, m).value)
  {
    SettledAnswer(files, runs, setting, entry, checks, order, i);
    assert WellTyped(runs[i]);
    PublishedMismatch(entry, runs[i].staged, setting.clean);
    if Mismatch(entry, m).Some? {
      JudgedMismatch(files, entry, checks, files[ROOT], CandidateOf(runs[i], setting));
    }
  }

  lemma RunRefusals(
    files: Files, runs: seq<StepRun>, setting: Setting, entry: Entry, checks: Checks, order: seq<string>,
    i: nat, e: Evidence)
    requires Finished(files, runs, setting) && Visits(files[ROOT], order)
    requires Admitted(files[ROOT], runs, setting, entry, checks)
    requires EvidenceAt(files[ROOT], runs, setting, entry, i, e)
    ensures Replay(files, entry, checks, order) ==
            match Refusal(checks, e) case Some(error) => Err(error) case None => Ok(e)
  {
    SettledAnswer(files, runs, setting, entry, checks, order, i);
    OffersAgree(runs, setting, entry, i);
    EvidenceAgree(files, files[ROOT], runs, setting, CandidateOf(runs[i], setting), e);
    JudgedRefusal(files, entry, checks, files[ROOT], CandidateOf(runs[i], setting));
  }

  lemma RunOffersNothing(
    files: Files, runs: seq<StepRun>, setting: Setting, entry: Entry, checks: Checks, order: seq<string>)
    requires Finished(files, runs, setting) && Visits(files[ROOT], order)
    requires Admitted(files[ROOT], runs, setting, entry, checks)
    requires forall i :: 0 <= i < |runs| ==> Passed(runs[i], entry)
    ensures Replay(files, entry, checks, order) == Err(CompleteEvidenceMissing)
  {
    RootErrorExactly(files, runs, setting, entry, checks);
    SchemaAcceptsExactly(files, runs, setting, order);
    forall n | 0 <= n < |order|
      ensures PassedOver(entry, Led(files, order[n]))
    {
      var i := RunOf(files, runs, setting, order, n);
      PassedAt(files, runs, setting, entry, i);
    }
    ReplayOutcome(files, entry, checks, order, 0);
  }

  // ------------------------------------------------------------------- consequences

  /** One manifest the reader cannot take keeps the whole run from being replayed. */
  lemma MalformedRunRefused(
    files: Files, runs: seq<StepRun>, setting: Setting, entry: Entry, checks: Checks, order: seq<string>)
    requires Finished(files, runs, setting) && Visits(files[ROOT], order)
    requires checks.provenanceOk(files[ROOT]) && entry.runId == setting.runId && entry.caseId == setting.caseId
    ensures !AllWellTyped(runs) ==> Replay(files, entry, checks, order) == Err(SchemaInvalid)
  {
    RootErrorExactly(files, runs, setting, entry, checks);
    SchemaAcceptsExactly(files, runs, setting, order);
    ReplayOutcome(files, entry, checks, order, 0);
  }

  /** A run with a validation step is never replayed, whatever else it holds. */
  lemma ValidatedRunNeverReplays(
    files: Files, runs: seq<StepRun>, setting: Setting, entry: Entry, checks: Checks, order: seq<string>)
    requires Finished(files, runs, setting) && Visits(files[ROOT], order)
    requires exists i :: 0 <= i < |runs| && runs[i].Validate?
    ensures Replay(files, entry, checks, order) ==
            Err(match RootError(entry, checks, files[ROOT]) case Some(e) => e case None => SchemaInvalid)
  {
    var i :| 0 <= i < |runs| && runs[i].Validate?;
    assert !WellTyped(runs[i]);
    SchemaAcceptsExactly(files, runs, setting, order);
    MalformedRefused(files, entry, checks, order);
  }

  // The catalogue's two-step workflow, with whatever its steps bring.
  function ChainladderValidated(
    input: Document, caseInput: Document, verdict: Document, body: Body, staged: Files): seq<StepRun>
  {
    [Validate("validate", input, caseInput, verdict, body), Operate("execute", staged)]
  }

  /** A finished run of the two-step workflow is refused for its validation manifest. */
  lemma ChainladderValidatedRefused(
    files: Files, setting: Setting, checks: Checks, order: seq<string>, workflowId: string,
    input: Document, caseInput: Document, verdict: Document, body: Body, staged: Files)
    requires Finished(files, ChainladderValidated(input, caseInput, verdict, body, staged), setting)
    requires Visits(files[ROOT], order) && checks.provenanceOk(files[ROOT])
    ensures Replay(files, Entry(setting.caseId, workflowId, setting.runId), checks, order) == Err(SchemaInvalid)
  {
    var runs := ChainladderValidated(input, caseInput, verdict, body, staged);
    assert runs[0].Validate?;
    var entry := Entry(setting.caseId, workflowId, setting.runId);
    RootErrorExactly(files, runs, setting, entry, checks);
    ValidatedRunNeverReplays(files, runs, setting, entry, checks, order);
  }

  lemma ChainladderValidatedIsWell(
    input: Document, caseInput: Document, verdict: Document, body: Body, staged: Files)
    ensures WellRuns(ChainladderValidated(input, caseInput, verdict, body, staged))
  {
    assert |"validate"| == 8 && |"execute"| == 7;
  }

  // Running that workflow to its end leaves files no entry can be replayed from.
  method RunChainladderValidated(
    root: PinnedRoot, setting: Setting, input: Document, caseInput: Document, verdict: Document, body: Body,
    staged: Files, summary: Document, packet: Option<Document>, rest: Body)
    returns (m: Document)
    requires root.files == map[]
    modifies root
    ensures Finished(root.files, ChainladderValidated(input, caseInput, verdict, body, staged), setting)
    ensures forall entry, checks, order :: Visits(root.files[ROOT], order) ==>
              Replay(root.files, entry, checks, order).Err?
  {
    var runs := ChainladderValidated(input, caseInput, verdict, body, staged);
    ChainladderValidatedIsWell(input, caseInput, verdict, body, staged);
    m := RunWorkflow(root, runs, setting, summary, packet, rest);
    forall entry, checks, order | Visits(root.files[ROOT], order)
      ensures Replay(root.files, entry, checks, order).Err?
    {
      assert runs[0].Validate?;
      ValidatedRunNeverReplays(root.files, runs, setting, entry, checks, order);
    }
  }

  lemma ReadableStepReads(files: Files, runs: seq<StepRun>, setting: Setting, i: nat)
    requires Finished(files, runs, setting) && i < |runs| && runs[i].Operate? && LeavesManifest(runs[i])
    requires Readable(runs[i].staged, setting.clean) && Whole(CandidateOf(runs[i], setting))
    ensures ReadsAll(runs, setting, CandidateOf(runs[i], setting))
  {
    assert Holds(files, runs[i], setting);
    PublishedSound(files, runs[i].step, runs[i].staged, setting.clean);
    ManifestOfStep(files, runs[i].step, runs[i].staged, setting.clean);
    SoundExactly(files, runs, setting, CandidateOf(runs[i], setting));
  }

  /** If each step's own staged files are readable, no replay fails on the chain. */
  lemma ReadableRunNeverBreaks(
    files: Files, runs: seq<StepRun>, setting: Setting, entry: Entry, checks: Checks, order: seq<string>)
    requires Finished(files, runs, setting) && Visits(files[ROOT], order)
    requires forall i :: 0 <= i < |runs| && runs[i].Operate? ==> Readable(runs[i].staged, setting.clean)
    ensures !ChainFailure(Replay(files, entry, checks, order))
  {
    RunChainFailsExactly(files, runs, setting, entry, checks, order);
    if i: nat :| AllWellTyped(runs) && BreaksAt(runs, setting, entry, i) {
      OffersAgree(runs, setting, entry, i);
      ReadableStepReads(files, runs, setting, i);
    }
  }

  // The document a step's own directory holds for an input of its manifest.
  ghost predicate OwnDoc(staged: Files, clean: Cleaner, id: string, d: Document)
    requires FileName(MANIFEST) in staged
  {
    exists k :: LeadsTo(staged, clean, id, k) && d == PublishedStep(staged, clean)[k]
  }

  lemma OwnDocLeads(
    runs: seq<StepRun>, setting: Setting, i: nat, staged: Files, id: string, d: Document)
    requires i < |runs| && runs[i] == Operate(runs[i].step, staged) && StepId(runs[i].step)
    requires LeavesManifest(runs[i]) && OwnDoc(staged, setting.clean, id, d)
    ensures ReadsDoc(runs, setting, CandidateOf(runs[i], setting), id, d)
  {
    var k :| LeadsTo(staged, setting.clean, id, k) && d == PublishedStep(staged, setting.clean)[k];
    PublishedIds(staged, setting.clean, k);
    JoinOwnName(runs[i].step, k);
    assert ReadsFrom(runs, setting, CandidateOf(runs[i], setting), id, i, k);
  }

  lemma LeadIsOwnDoc(
    runs: seq<StepRun>, setting: Setting, i: nat, staged: Files, id: string, j: nat, k: string)
    requires WellRuns(runs) && i < |runs| && runs[i] == Operate(runs[i].step, staged)
    requires LeavesManifest(runs[i]) && PlainName(staged, setting.clean, id)
    requires ReadsFrom(runs, setting, CandidateOf(runs[i], setting), id, j, k)
    ensures i == j && LeadsTo(staged, setting.clean, id, k)
  {
    var name := PublishedNames(staged, setting.clean, id);
    JoinName(runs[i].step, name);
    StepFileInjective(runs[i].step, name, runs[j].step, FileName(k));
  }

  /** Without a backslash in its name, an input leads to the step's own documents alone. */
  lemma OwnDocuments(runs: seq<StepRun>, setting: Setting, i: nat, staged: Files, id: string, d: Document)
    requires WellRuns(runs) && i < |runs| && runs[i] == Operate(runs[i].step, staged)
    requires LeavesManifest(runs[i]) && PlainName(staged, setting.clean, id)
    ensures ReadsDoc(runs, setting, CandidateOf(runs[i], setting), id, d) <==> OwnDoc(staged, setting.clean, id, d)
  {
    var c := CandidateOf(runs[i], setting);
    if ReadsDoc(runs, setting, c, id, d) {
      var j: nat, k :| ReadsFrom(runs, setting, c, id, j, k) && d == DocsOf(runs[j], setting)[k];
      LeadIsOwnDoc(runs, setting, i, staged, id, j, k);
    }
    if OwnDoc(staged, setting.clean, id, d) {
      OwnDocLeads(runs, setting, i, staged, id, d);
    }
  }
}
