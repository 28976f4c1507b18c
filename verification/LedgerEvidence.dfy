/**
 * What an unchanged root manifest pins down: the reader's verdict is positive on other
 * files exactly when every file it reads still holds the document it held.
 */
module LedgerEvidence {
  import opened Common
  import opened PosixPath
  import opened DigestLedger

  // The root manifest lists every visited step manifest as text and has a ledger.
  ghost predicate Visitable(root: Document, order: seq<string>) {
    root.digests.Some? && AllVisited(root, order)
  }

  function ManifestPath(root: Document, id: string): string
    requires InSome(root.paths, id) && root.paths.value[id].TextRef?
  {
    root.paths.value[id].text
  }

  predicate SameAt(f: Files, g: Files, path: string) {
    path in f && path in g && f[path] == g[path]
  }

  ghost predicate SameManifests(f: Files, g: Files, root: Document, order: seq<string>)
    requires Visitable(root, order)
  {
    forall i :: 0 <= i < |order| ==> SameAt(f, g, ManifestPath(root, order[i]))
  }

  // The candidate that settles the replay.
  function Settling(files: Files, entry: Entry, checks: Checks, root: Document, cs: seq<Candidate>): Option<Candidate> {
    if cs == [] then None
    else if Judge(files, entry, checks, root, cs[0]).Some? then Some(cs[0])
    else Settling(files, entry, checks, root, cs[1..])
  }

  ghost predicate SameInput(f: Files, g: Files, c: Candidate, id: string) {
    && InSome(c.manifest.paths, id)
    && JoinRef(c.base, c.manifest.paths.value[id]).Ok?
    && SameAt(f, g, JoinRef(c.base, c.manifest.paths.value[id]).value)
  }

  ghost predicate SameInputs(f: Files, g: Files, c: Candidate) {
    && SameInput(f, g, c, "validated_input")
    && SameInput(f, g, c, "case_input")
    && SameInput(f, g, c, "deterministic_result")
  }

  // ---------------------------------------------------------------- step manifests

  lemma SameCandidate(f: Files, g: Files, root: Document, id: string)
    requires root.digests.Some? && Visited(root, id)
    requires StepCandidate(f, root, id).Ok?
    ensures StepCandidate(g, root, id).Ok? <==> SameAt(f, g, ManifestPath(root, id))
    ensures SameAt(f, g, ManifestPath(root, id)) ==>
              StepCandidate(g, root, id) == StepCandidate(f, root, id)
  {
  }

  lemma SameManifestsSplit(f: Files, g: Files, root: Document, order: seq<string>, last: nat)
    requires Visitable(root, order) && |order| == last + 1
    ensures SameManifests(f, g, root, order) <==>
            SameManifests(f, g, root, order[..last]) && SameAt(f, g, ManifestPath(root, order[last]))
  {
    assert forall i :: 0 <= i < last ==> order[..last][i] == order[i];
  }

  lemma {:induction false} SameCandidates(f: Files, g: Files, root: Document, order: seq<string>)
    requires Visitable(root, order)
    requires Candidates(f, root, order).Ok?
    ensures Candidates(g, root, order).Ok? <==> SameManifests(f, g, root, order)
    ensures SameManifests(f, g, root, order) ==>
              Candidates(g, root, order) == Candidates(f, root, order)
  {
    if order == [] {
    } else {
      var last := |order| - 1;
      SameManifestsSplit(f, g, root, order, last);
      SameCandidates(f, g, root, order[..last]);
      SameCandidate(f, g, root, order[last]);
    }
  }

  // ----------------------------------------------------------------- replay inputs

  lemma SameRead(f: Files, g: Files, c: Candidate, id: string)
    requires InSome(c.manifest.paths, id) && c.manifest.digests.Some?
    requires ReadVerified(f, c.base, c.manifest, id).Ok?
    ensures ReadVerified(g, c.base, c.manifest, id).Ok? <==> SameInput(f, g, c, id)
    ensures SameInput(f, g, c, id) ==>
              ReadVerified(g, c.base, c.manifest, id) == ReadVerified(f, c.base, c.manifest, id)
  {
  }

  predicate Accepts(verdict: Option<Result<Evidence, ReplayError>>) {
    verdict.Some? && verdict.value.Ok?
  }

  lemma SameVerdict(f: Files, g: Files, entry: Entry, checks: Checks, root: Document, c: Candidate)
    requires Accepts(Judge(f, entry, checks, root, c))
    ensures Judge(g, entry, checks, root, c).Some?
    ensures Accepts(Judge(g, entry, checks, root, c)) <==> SameInputs(f, g, c)
    ensures SameInputs(f, g, c) ==> Judge(g, entry, checks, root, c) == Judge(f, entry, checks, root, c)
  {
    SameRead(f, g, c, "validated_input");
    SameRead(f, g, c, "case_input");
    SameRead(f, g, c, "deterministic_result");
  }

  lemma {:induction false} SameJudgement(
    f: Files, g: Files, entry: Entry, checks: Checks, root: Document, cs: seq<Candidate>)
    requires FirstJudgement(f, entry, checks, root, cs).Ok?
    ensures Settling(f, entry, checks, root, cs).Some?
    ensures var c := Settling(f, entry, checks, root, cs).value;
      && (FirstJudgement(g, entry, checks, root, cs).Ok? <==> SameInputs(f, g, c))
      && (SameInputs(f, g, c) ==>
            FirstJudgement(g, entry, checks, root, cs) == FirstJudgement(f, entry, checks, root, cs))
  {
    if Judge(f, entry, checks, root, cs[0]).Some? {
      SameVerdict(f, g, entry, checks, root, cs[0]);
    } else {
      assert Judge(g, entry, checks, root, cs[0]).None?;
      SameJudgement(f, g, entry, checks, root, cs[1..]);
    }
  }

  // Every file the replay of `f` read holds the same document in `g`.
  ghost predicate ReadUnchanged(f: Files, g: Files, entry: Entry, checks: Checks, root: Document, order: seq<string>)
    requires Visitable(root, order)
    requires Candidates(f, root, order).Ok?
  {
    var settling := Settling(f, entry, checks, root, Candidates(f, root, order).value);
    SameManifests(f, g, root, order) && settling.Some? && SameInputs(f, g, settling.value)
  }

  /**
   * Tamper evidence.  With the root manifest unchanged, a replay that succeeded succeeds
   * on other files exactly when every step manifest and the three inputs it read are
   * unchanged, and then it yields the same evidence.
   */
  lemma TamperEvident(f: Files, g: Files, entry: Entry, checks: Checks, order: seq<string>)
    requires SameAt(f, g, "run_manifest.json")
    requires Visits(f["run_manifest.json"], order)
    requires Replay(f, entry, checks, order).Ok?
    ensures Visitable(f["run_manifest.json"], order)
    ensures Candidates(f, f["run_manifest.json"], order).Ok?
    ensures Replay(g, entry, checks, order).Ok? <==>
              ReadUnchanged(f, g, entry, checks, f["run_manifest.json"], order)
    ensures Replay(g, entry, checks, order).Ok? ==>
              Replay(g, entry, checks, order) == Replay(f, entry, checks, order)
  {
    var root := f["run_manifest.json"];
    var cs := Candidates(f, root, order).value;
    SameCandidates(f, g, root, order);
    SameJudgement(f, g, entry, checks, root, cs);
  }
}
