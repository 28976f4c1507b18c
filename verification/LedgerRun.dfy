/** A whole ADK run: its steps, its closing, and the files it leaves behind. */
module LedgerRun {
  import opened Common
  import opened PosixPath
  import opened DigestLedger
  import opened LedgerPublishing
  import opened LedgerChain
  import opened LedgerReplay

  // One step of the run, with what it brings to be published.  `body` is the rest of a
  // validation manifest.
  datatype StepRun =
    | Validate(step: string, input: Document, caseInput: Document, verdict: Document, body: Body)
    | Operate(step: string, staged: Files)

  // What the run is about, and how its workers' documents are cleaned.
  datatype Setting = Setting(caseId: string, runId: string, workflowId: string, clean: Cleaner)

  // What a step leaves in its directory.
  function DocsOf(run: StepRun, setting: Setting): map<string, Document> {
    match run
    case Validate(_, input, caseInput, verdict, body) =>
      ValidationStep(setting.caseId, input, caseInput, verdict, body)
    case Operate(_, staged) => PublishedStep(staged, setting.clean)
  }

  // Every file lies in the directory of some step.
  ghost predicate AllUnder(files: Files, steps: set<string>) {
    forall path :: path in files ==> exists step :: step in steps && Under(path, step)
  }

  predicate AllPlain(steps: set<string>) {
    forall step :: step in steps ==> PlainPart(step)
  }

  lemma UnderOne(path: string, a: string, b: string)
    requires '/' !in a && '/' !in b && Under(path, a) && Under(path, b)
    ensures a == b
  {
    assert path[|a|] == (a + ['/'])[|a|] == '/';
    assert path[|b|] == (b + ['/'])[|b|] == '/';
    assert forall i :: 0 <= i < |a| ==> path[i] == (a + ['/'])[i] == a[i];
    assert forall i :: 0 <= i < |b| ==> path[i] == (b + ['/'])[i] == b[i];
    assert |a| == |b|;
    assert path[..|a|] == a && path[..|b|] == b;
  }

  lemma NewStepIsFresh(files: Files, steps: set<string>, step: string)
    requires AllUnder(files, steps) && AllPlain(steps) && PlainPart(step) && step !in steps
    ensures Fresh(files, step)
  {
    forall path | path in files
      ensures !(step + ['/'] <= path)
    {
      var s :| s in steps && Under(path, s);
      if Under(path, step) {
        UnderOne(path, s, step);
        assert false;
      }
    }
  }

  // What one step does to the files, in the terms the chain needs.
  ghost predicate Stepped(before: Files, after: Files, step: string) {
    && Extends(before, after)
    && (forall path :: path in after && path !in before ==> Under(path, step))
  }

  lemma AddsSteps(before: Files, after: Files, step: string, docs: map<string, Document>)
    requires Adds(before, after, step, docs)
    ensures Stepped(before, after, step)
  {
    forall path | path in after && path !in before
      ensures Under(path, step)
    {
      var id :| id in docs && path == StepFile(step, FileName(id));
      assert path == (step + ['/']) + FileName(id);
    }
  }

  lemma SteppedUnder(before: Files, after: Files, steps: set<string>, step: string)
    requires Stepped(before, after, step) && AllUnder(before, steps)
    ensures AllUnder(after, steps + {step})
  {
    forall path | path in after
      ensures exists s :: s in steps + {step} && Under(path, s)
    {
      if path in before {
        var s :| s in steps && Under(path, s);
        assert s in steps + {step};
      } else {
        assert step in steps + {step};
      }
    }
  }

  method RunStep(root: PinnedRoot, run: StepRun, setting: Setting, ghost steps: set<string>)
    requires StepId(run.step) && run.step !in steps
    requires AllUnder(root.files, steps) && AllPlain(steps)
    modifies root
    ensures Stepped(old(root.files), root.files, run.step)
    ensures Holds(root.files, run, setting)
    ensures AllUnder(root.files, steps + {run.step})
  {
    ghost var before := root.files;
    NewStepIsFresh(before, steps, run.step);
    match run {
      case Validate(step, input, caseInput, verdict, body) =>
        WriteValidationStep(root, step, setting.caseId, input, caseInput, verdict, body);
      case Operate(step, staged) =>
        PublishStep(root, step, staged, setting.clean);
    }
    AddsSteps(before, root.files, run.step, DocsOf(run, setting));
    AddsHolds(before, root.files, run.step, DocsOf(run, setting));
    SteppedUnder(before, root.files, steps, run.step);
  }

  // ------------------------------------------------------ the run's step manifests

  function StepKeyOf(step: string): string {
    "step_" + step + "_run_manifest"
  }

  lemma StepKeyOfIsStepKey(step: string)
    ensures StepKey(StepKeyOf(step))
  {
    var key := StepKeyOf(step);
    assert key == "step_" + (step + "_run_manifest");
    assert key[|key| - 13..] == "_run_manifest";
  }

  lemma StepKeyOfInjective(a: string, b: string)
    requires StepKeyOf(a) == StepKeyOf(b)
    ensures a == b
  {
    assert |StepKeyOf(a)| == |a| + 18 && |StepKeyOf(b)| == |b| + 18;
    assert StepKeyOf(a)[5..|a| + 5] == a && StepKeyOf(b)[5..|b| + 5] == b;
  }

  predicate Lists(key: string, path: string, step: string) {
    key == StepKeyOf(step) && path == ManifestFile(step)
  }

  // `refs` lists exactly the steps that left a manifest.
  ghost predicate Listed(files: Files, steps: set<string>, refs: map<string, string>) {
    && (forall key :: key in refs ==>
          refs[key] in files && exists step :: step in steps && Lists(key, refs[key], step))
    && (forall step :: step in steps && ManifestFile(step) in files ==> StepKeyOf(step) in refs)
  }

  lemma ManifestUnder(step: string)
    ensures Under(ManifestFile(step), step)
  {
    StepFileUnder(step, "run_manifest.json");
  }

  // An earlier step's manifest is neither touched nor created later.
  lemma EarlierManifest(before: Files, after: Files, steps: set<string>, step: string, earlier: string)
    requires Stepped(before, after, step) && PlainPart(step) && AllPlain(steps)
    requires earlier in steps && step !in steps
    ensures ManifestFile(earlier) in after <==> ManifestFile(earlier) in before
  {
    if ManifestFile(earlier) in after && ManifestFile(earlier) !in before {
      ManifestUnder(earlier);
      UnderOne(ManifestFile(earlier), earlier, step);
    }
  }

  // Another step leaves an earlier step's directory alone.
  lemma HoldsPersists(before: Files, after: Files, step: string, earlier: string, docs: map<string, Document>)
    requires Stepped(before, after, step) && PlainPart(step) && PlainPart(earlier) && earlier != step
    requires HoldsStep(before, earlier, docs)
    ensures HoldsStep(after, earlier, docs)
  {
    forall path | path in after && Under(path, earlier)
      ensures exists id :: id in docs && path == StepFile(earlier, FileName(id))
    {
      if path !in before {
        UnderOne(path, earlier, step);
      }
      var id :| id in docs && path == StepFile(earlier, FileName(id));
    }
  }

  // The first `n` steps hold what they left.
  ghost predicate AllHold(files: Files, runs: seq<StepRun>, n: nat, setting: Setting)
    requires n <= |runs|
  {
    forall i :: 0 <= i < n ==> Holds(files, runs[i], setting)
  }

  ghost predicate Holds(files: Files, run: StepRun, setting: Setting) {
    HoldsStep(files, run.step, DocsOf(run, setting))
  }

  lemma OneKept(before: Files, after: Files, run: StepRun, next: StepRun, setting: Setting)
    requires StepId(run.step) && StepId(next.step) && run.step != next.step
    requires Stepped(before, after, next.step) && Holds(before, run, setting)
    ensures Holds(after, run, setting)
  {
    HoldsPersists(before, after, next.step, run.step, DocsOf(run, setting));
  }

  lemma AllHoldOneMore(before: Files, after: Files, runs: seq<StepRun>, i: nat, setting: Setting)
    requires WellRuns(runs) && i < |runs| && Stepped(before, after, runs[i].step)
    requires AllHold(before, runs, i, setting) && Holds(after, runs[i], setting)
    ensures AllHold(after, runs, i + 1, setting)
  {
    forall k | 0 <= k < i
      ensures Holds(after, runs[k], setting)
    {
      OneKept(before, after, runs[k], runs[i], setting);
    }
  }

  lemma ListedPersists(
    before: Files, after: Files, steps: set<string>, step: string, refs: map<string, string>)
    requires Stepped(before, after, step) && PlainPart(step) && AllPlain(steps) && step !in steps
    requires Listed(before, steps, refs)
    ensures Listed(after, steps + {step},
              if ManifestFile(step) in after then refs[StepKeyOf(step) := ManifestFile(step)] else refs)
  {
    var next := if ManifestFile(step) in after then refs[StepKeyOf(step) := ManifestFile(step)] else refs;
    forall key | key in next
      ensures next[key] in after && exists s :: s in steps + {step} && Lists(key, next[key], s)
    {
      if ManifestFile(step) in after && key == StepKeyOf(step) {
        assert Lists(key, next[key], step);
      } else {
        var s :| s in steps && Lists(key, refs[key], s);
        assert s in steps + {step};
      }
    }
    forall s | s in steps + {step} && ManifestFile(s) in after
      ensures StepKeyOf(s) in next
    {
      if s != step {
        EarlierManifest(before, after, steps, step, s);
      }
    }
  }

  function StepsOf(runs: seq<StepRun>): set<string> {
    set i | 0 <= i < |runs| :: runs[i].step
  }

  predicate WellRuns(runs: seq<StepRun>) {
    && (forall i :: 0 <= i < |runs| ==> StepId(runs[i].step))
    && (forall i, j :: 0 <= i < j < |runs| ==> runs[i].step != runs[j].step)
  }

  lemma StepsOfOneMore(runs: seq<StepRun>, i: nat)
    requires i < |runs|
    ensures StepsOf(runs[..i + 1]) == StepsOf(runs[..i]) + {runs[i].step}
  {
    var (before, after) := (runs[..i], runs[..i + 1]);
    assert after == before + [runs[i]];
    forall s | s in StepsOf(before) + {runs[i].step}
      ensures s in StepsOf(after)
    {
      if s == runs[i].step {
        assert after[i].step == s;
      } else {
        var k :| 0 <= k < |before| && before[k].step == s;
        assert after[k].step == s;
      }
    }
  }

  method RunSteps(root: PinnedRoot, runs: seq<StepRun>, setting: Setting) returns (refs: map<string, string>)
    requires root.files == map[] && WellRuns(runs)
    modifies root
    ensures AllUnder(root.files, StepsOf(runs))
    ensures AllHold(root.files, runs, |runs|, setting)
    ensures Listed(root.files, StepsOf(runs), refs)
  {
    refs := map[];
    ghost var steps: set<string> := {};
    var i := 0;
    while i < |runs|
      invariant 0 <= i <= |runs|
      invariant steps == StepsOf(runs[..i])
      invariant AllPlain(steps)
      invariant AllUnder(root.files, steps) && Listed(root.files, steps, refs)
      invariant AllHold(root.files, runs, i, setting)
    {
      ghost var before := root.files;
      var run := runs[i];
      assert run.step !in steps;
      RunStep(root, run, setting, steps);
      AllHoldOneMore(before, root.files, runs, i, setting);
      ListedPersists(before, root.files, steps, run.step, refs);
      if ManifestFile(run.step) in root.files {
        refs := refs[StepKeyOf(run.step) := ManifestFile(run.step)];
      }
      StepsOfOneMore(runs, i);
      steps := steps + {run.step};
      i := i + 1;
    }
    assert runs[..i] == runs;
  }

  // --------------------------------------------------------------- closing the run

  function StepRefs(refs: map<string, string>): map<string, Ref> {
    map key | key in refs :: TextRef(refs[key])
  }

  // References to existing step manifests.
  predicate StepManifests(files: Files, refs: map<string, string>) {
    forall key :: key in refs ==> StepKey(key) && refs[key] in files
  }

  // The digests of the summary and of the given step manifests, and no others.
  predicate RootDigests(
    digests: map<string, DigestText>, files: Files, summary: Document, refs: map<string, string>, keys: set<string>)
    requires StepManifests(files, refs) && keys <= refs.Keys
  {
    && digests.Keys == keys + {"workflow_summary"}
    && (forall key :: key in keys ==> digests[key] == Hex(Canonical(files[refs[key]])))
    && digests["workflow_summary"] == Hex(Canonical(summary))
  }

  lemma SummaryIsNoStep()
    ensures !StepKey("workflow_summary") && !StepKey("run_manifest") && !StepKey("review_packet")
  {
    assert "step_"[0] == 's';
    assert "step_"[1] == 't';
  }

  function RootPaths(refs: map<string, string>, packet: Option<Document>): map<string, Ref> {
    var paths := map[
      "run_manifest" := TextRef("run_manifest.json"),
      "workflow_summary" := TextRef("workflow_summary.json")] + StepRefs(refs);
    if packet.Some? then paths["review_packet" := TextRef("review_packet.json")] else paths
  }

  /** The root's paths: its own manifest, the summary, the packet if there is one, and the steps'. */
  lemma RootPathsExactly(refs: map<string, string>, packet: Option<Document>)
    requires forall key :: key in refs ==> StepKey(key)
    ensures var paths := RootPaths(refs, packet);
      && paths.Keys == refs.Keys + {"run_manifest", "workflow_summary"} + (if packet.Some? then {"review_packet"} else {})
      && paths["run_manifest"] == TextRef("run_manifest.json")
      && paths["workflow_summary"] == TextRef("workflow_summary.json")
      && (packet.Some? ==> paths["review_packet"] == TextRef("review_packet.json"))
      && (forall key :: key in refs ==> paths[key] == TextRef(refs[key]))
  {
    SummaryIsNoStep();
    assert |"run_manifest"| == 12 && |"workflow_summary"| == 16 && |"review_packet"| == 13;
  }

  // The root manifest lists and digests exactly the given step manifests.
  ghost predicate ClosedBy(
    files: Files, later: Files, m: Document, summary: Document, refs: map<string, string>, packet: Option<Document>)
  {
    && StepManifests(files, refs)
    && Extends(files, later)
    && SlashedKept(files, later)
    && m.paths == Some(RootPaths(refs, packet))
    && m.digests.Some? && RootDigests(m.digests.value, files, summary, refs, refs.Keys)
    && "run_manifest.json" in later && later["run_manifest.json"] == m
    && "workflow_summary.json" in later && later["workflow_summary.json"] == summary
  }

  // Only names at the root are new.
  predicate SlashedKept(files: Files, later: Files) {
    forall path :: path in later && '/' in path ==> path in files
  }

  lemma RootWritten(
    before: Files, written: Files, manifest: string, other: string, m: Document, summary: Document)
    requires Extends(before, written) && SlashedKept(before, written)
    requires manifest !in before && '/' !in manifest && manifest != other
    requires other in written && written[other] == summary
    ensures var later := written[manifest := m];
      && Extends(before, later) && SlashedKept(before, later)
      && other in later && later[other] == summary
  {
  }

  method WriteRoot(root: PinnedRoot, summary: Document, packet: Option<Document>)
    requires "workflow_summary.json" !in root.files && "review_packet.json" !in root.files
    modifies root
    ensures Extends(old(root.files), root.files)
    ensures "workflow_summary.json" in root.files && root.files["workflow_summary.json"] == summary
    ensures SlashedKept(old(root.files), root.files)
    ensures packet.Some? ==> "review_packet.json" in root.files && root.files["review_packet.json"] == packet.value
  {
    assert |"review_packet.json"| == 18 && |"workflow_summary.json"| == 21;
    assert Slashless("review_packet.json") && Slashless("workflow_summary.json");
    if packet.Some? {
      var written := root.WriteExclusive("review_packet.json", packet.value);
    }
    var done := root.WriteExclusive("workflow_summary.json", summary);
  }

  method RootLedger(root: PinnedRoot, refs: map<string, string>, summary: Document)
    returns (digests: map<string, DigestText>)
    requires StepManifests(root.files, refs)
    ensures RootDigests(digests, root.files, summary, refs, refs.Keys)
  {
    SummaryIsNoStep();
    digests := map["workflow_summary" := Hex(Canonical(summary))];
    var pending := refs.Keys;
    while pending != {}
      invariant pending <= refs.Keys
      invariant RootDigests(digests, root.files, summary, refs, refs.Keys - pending)
      decreases pending
    {
      var key :| key in pending;
      assert key != "workflow_summary";
      digests := digests[key := Hex(Canonical(root.files[refs[key]]))];
      pending := pending - {key};
    }
    assert refs.Keys - pending == refs.Keys;
  }

  // The root manifest carries the run's own ids.
  predicate OfSetting(m: Document, setting: Setting) {
    && ManifestSchema(m) && m.caseId == Text(setting.caseId) && m.runId == Text(setting.runId)
    && m.workflowId == Text(setting.workflowId)
  }

  method CloseRun(
    root: PinnedRoot, refs: map<string, string>, setting: Setting, summary: Document, packet: Option<Document>, body: Body)
    returns (m: Document)
    requires StepManifests(root.files, refs)
    requires "run_manifest.json" !in root.files && "workflow_summary.json" !in root.files
    requires "review_packet.json" !in root.files
    modifies root
    ensures ClosedBy(old(root.files), root.files, m, summary, refs, packet)
    ensures OfSetting(m, setting)
  {
    ghost var before := root.files;
    WriteRoot(root, summary, packet);
    ghost var written := root.files;
    var digests := RootLedger(root, refs, summary);
    m := Document(
      Text(setting.caseId), Text(setting.runId), Text(setting.workflowId), Absent, Absent, Absent, Absent,
      Some(RootPaths(refs, packet)), Some(digests), body);
    root.WriteAtomic("run_manifest.json", m);
    RootWritten(before, written, "run_manifest.json", "workflow_summary.json", m, summary);
  }

  // -------------------------------------------------------------- the whole run

  lemma ClosedLeads(
    files: Files, later: Files, m: Document, summary: Document, refs: map<string, string>,
    packet: Option<Document>, key: string, step: string)
    requires ClosedBy(files, later, m, summary, refs, packet)
    requires StepId(step) && key in refs && Lists(key, refs[key], step)
    ensures Leads(later, m, key, step)
  {
    SummaryIsNoStep();
    assert m.paths.value[key] == TextRef(refs[key]);
  }

  lemma RootHasNoResult(refs: map<string, string>, packet: Option<Document>)
    requires forall key :: key in refs ==> StepKey(key)
    ensures "deterministic_result" !in RootPaths(refs, packet)
  {
    assert "deterministic_result"[0] == 'd' && "step_"[0] == 's';
    assert |"deterministic_result"| == 20 && |"workflow_summary"| == 16;
    assert |"run_manifest"| == 12 && |"review_packet"| == 13;
  }

  lemma ClosedIsLinked(
    files: Files, later: Files, m: Document, summary: Document, refs: map<string, string>,
    packet: Option<Document>, steps: set<string>)
    requires ClosedBy(files, later, m, summary, refs, packet) && Listed(files, steps, refs)
    requires forall step :: step in steps ==> StepId(step)
    ensures Linked(later)
  {
    SummaryIsNoStep();
    RootHasNoResult(refs, packet);
    forall key | InSome(m.paths, key) && StepKey(key)
      ensures LeadsSomewhere(later, m, key)
    {
      var step :| step in steps && Lists(key, refs[key], step);
      ClosedLeads(files, later, m, summary, refs, packet, key, step);
    }
  }

  lemma UnderHasSlash(path: string, step: string)
    requires Under(path, step)
    ensures '/' in path
  {
    assert path[|step|] == (step + ['/'])[|step|];
  }

  // The names at the root are no step's files.
  lemma RootNamesAreFree(files: Files, steps: set<string>, name: string)
    requires AllUnder(files, steps) && '/' !in name
    ensures name !in files
  {
    if name in files {
      var step :| step in steps && Under(name, step);
      UnderHasSlash(name, step);
    }
  }

  lemma ListedAreStepKeys(files: Files, steps: set<string>, refs: map<string, string>)
    requires Listed(files, steps, refs)
    ensures StepManifests(files, refs)
  {
    forall key | key in refs
      ensures StepKey(key)
    {
      var step :| step in steps && Lists(key, refs[key], step);
      StepKeyOfIsStepKey(step);
    }
  }

  lemma ClosingHolds(files: Files, later: Files, step: string, docs: map<string, Document>)
    requires Extends(files, later) && SlashedKept(files, later) && HoldsStep(files, step, docs)
    ensures HoldsStep(later, step, docs)
  {
    forall path | path in later && Under(path, step)
      ensures exists id :: id in docs && path == StepFile(step, FileName(id))
    {
      UnderHasSlash(path, step);
    }
  }

  // A step that leaves a manifest, and that manifest.
  predicate LeavesManifest(run: StepRun) {
    run.Validate? || FileName(MANIFEST) in run.staged
  }

  function ManifestOfRun(run: StepRun, setting: Setting): Document
    requires LeavesManifest(run)
  {
    match run
    case Validate(_, input, caseInput, verdict, body) =>
      ValidationManifest(setting.caseId, input, caseInput, verdict, body)
    case Operate(_, staged) => PublishedManifest(staged, setting.clean)
  }

  lemma RunManifest(files: Files, run: StepRun, setting: Setting)
    requires StepId(run.step) && Holds(files, run, setting)
    ensures ManifestFile(run.step) in files <==> LeavesManifest(run)
    ensures LeavesManifest(run) ==> files[ManifestFile(run.step)] == ManifestOfRun(run, setting)
  {
    match run
    case Validate(step, input, caseInput, verdict, body) =>
      ValidationRefused(files, step, setting.caseId, input, caseInput, verdict, body);
    case Operate(step, staged) =>
      ManifestOfStep(files, step, staged, setting.clean);
  }

  // The root lists the step's manifest under the step's key.
  predicate ListsRun(root: Document, run: StepRun) {
    && Visited(root, StepKeyOf(run.step))
    && root.paths.value[StepKeyOf(run.step)] == TextRef(ManifestFile(run.step))
  }

  // A visited key is that of a step with a manifest.
  predicate KeyOfRun(runs: seq<StepRun>, key: string) {
    exists i :: 0 <= i < |runs| && LeavesManifest(runs[i]) && key == StepKeyOf(runs[i].step)
  }

  // The root's step manifests are those of the given steps.
  ghost predicate ListsRuns(root: Document, runs: seq<StepRun>) {
    && (forall i :: 0 <= i < |runs| && LeavesManifest(runs[i]) ==> ListsRun(root, runs[i]))
    && (forall key :: Visited(root, key) ==> KeyOfRun(runs, key))
  }

  // Outside the root, every file lies in the directory of one of the steps.
  ghost predicate AllInSteps(files: Files, runs: seq<StepRun>) {
    forall path :: path in files && '/' in path ==> InStep(runs, path)
  }

  ghost predicate InStep(runs: seq<StepRun>, path: string) {
    exists i :: 0 <= i < |runs| && Under(path, runs[i].step)
  }

  lemma ClosedInSteps(files: Files, later: Files, runs: seq<StepRun>)
    requires AllUnder(files, StepsOf(runs)) && SlashedKept(files, later)
    ensures AllInSteps(later, runs)
  {
    forall path | path in later && '/' in path
      ensures InStep(runs, path)
    {
      var step :| step in StepsOf(runs) && Under(path, step);
      var i :| 0 <= i < |runs| && runs[i].step == step;
    }
  }

  /** The files a finished ADK run leaves behind. */
  ghost predicate Finished(files: Files, runs: seq<StepRun>, setting: Setting) {
    && WellRuns(runs) && Linked(files) && OfSetting(files[ROOT], setting)
    && AllHold(files, runs, |runs|, setting) && AllInSteps(files, runs) && ListsRuns(files[ROOT], runs)
  }

  lemma ListedRefs(files: Files, steps: set<string>, refs: map<string, string>, step: string)
    requires Listed(files, steps, refs) && step in steps && ManifestFile(step) in files
    ensures StepKeyOf(step) in refs && refs[StepKeyOf(step)] == ManifestFile(step)
  {
    var other :| other in steps && Lists(StepKeyOf(step), refs[StepKeyOf(step)], other);
    StepKeyOfInjective(step, other);
  }

  // The keys of the root's paths: those of the given steps and three of its own.
  lemma ClosedPaths(
    files: Files, later: Files, m: Document, summary: Document, refs: map<string, string>,
    packet: Option<Document>, key: string)
    requires ClosedBy(files, later, m, summary, refs, packet)
    ensures Visited(m, key) <==> key in refs
    ensures key in refs ==> m.paths.value[key] == TextRef(refs[key])
  {
    SummaryIsNoStep();
  }

  lemma ClosedListsRun(
    files: Files, later: Files, m: Document, summary: Document, refs: map<string, string>,
    packet: Option<Document>, steps: set<string>, run: StepRun, setting: Setting)
    requires ClosedBy(files, later, m, summary, refs, packet) && Listed(files, steps, refs)
    requires StepId(run.step) && run.step in steps && LeavesManifest(run) && Holds(files, run, setting)
    ensures ListsRun(m, run)
  {
    RunManifest(files, run, setting);
    ListedRefs(files, steps, refs, run.step);
    ClosedPaths(files, later, m, summary, refs, packet, StepKeyOf(run.step));
  }

  lemma ListedKeyOfRun(
    files: Files, refs: map<string, string>, runs: seq<StepRun>, setting: Setting, key: string)
    requires Listed(files, StepsOf(runs), refs) && key in refs
    requires WellRuns(runs) && AllHold(files, runs, |runs|, setting)
    ensures KeyOfRun(runs, key)
  {
    var step :| step in StepsOf(runs) && Lists(key, refs[key], step);
    var i :| 0 <= i < |runs| && runs[i].step == step;
    assert Holds(files, runs[i], setting);
    RunManifest(files, runs[i], setting);
  }

  lemma ClosedLists(
    files: Files, later: Files, m: Document, summary: Document, refs: map<string, string>,
    packet: Option<Document>, runs: seq<StepRun>, setting: Setting)
    requires ClosedBy(files, later, m, summary, refs, packet) && Listed(files, StepsOf(runs), refs)
    requires WellRuns(runs) && AllHold(files, runs, |runs|, setting)
    ensures ListsRuns(m, runs)
  {
    forall i | 0 <= i < |runs| && LeavesManifest(runs[i])
      ensures ListsRun(m, runs[i])
    {
      assert runs[i].step in StepsOf(runs);
      assert Holds(files, runs[i], setting);
      ClosedListsRun(files, later, m, summary, refs, packet, StepsOf(runs), runs[i], setting);
    }
    forall key | Visited(m, key)
      ensures KeyOfRun(runs, key)
    {
      ClosedPaths(files, later, m, summary, refs, packet, key);
      ListedKeyOfRun(files, refs, runs, setting, key);
    }
  }

  /**
   * Running the steps and closing the run leaves the files of a finished run: every step's
   * documents, and a root manifest that lists and digests every step manifest.
   */
  method RunWorkflow(
    root: PinnedRoot, runs: seq<StepRun>, setting: Setting, summary: Document, packet: Option<Document>, body: Body)
    returns (m: Document)
    requires root.files == map[] && WellRuns(runs)
    modifies root
    ensures Finished(root.files, runs, setting) && root.files[ROOT] == m
  {
    var refs := RunSteps(root, runs, setting);
    ghost var files, steps := root.files, StepsOf(runs);
    RootNamesAreFree(files, steps, "run_manifest.json");
    RootNamesAreFree(files, steps, "workflow_summary.json");
    RootNamesAreFree(files, steps, "review_packet.json");
    ListedAreStepKeys(files, steps, refs);
    m := CloseRun(root, refs, setting, summary, packet, body);
    forall i | 0 <= i < |runs|
      ensures Holds(root.files, runs[i], setting)
    {
      assert Holds(files, runs[i], setting);
      ClosingHolds(files, root.files, runs[i].step, DocsOf(runs[i], setting));
    }
    ClosedIsLinked(files, root.files, m, summary, refs, packet, steps);
    ClosedLists(files, root.files, m, summary, refs, packet, runs, setting);
    ClosedInSteps(files, root.files, runs);
  }
}
