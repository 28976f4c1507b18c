/** Replaying linked files: what the reader answers, for every entry and all checks. */
module LedgerReplay {
  import opened Common
  import opened PosixPath
  import opened DigestLedger
  import opened LedgerPublishing
  import opened LedgerChain

  // A root entry under `key` leads to a step manifest with a matching digest.
  ghost predicate Leads(files: Files, root: Document, key: string, step: string) {
    && StepId(step)
    && InSome(root.paths, key) && root.paths.value[key] == TextRef(ManifestFile(step))
    && ManifestFile(step) in files
    && InSome(root.digests, key) && root.digests.value[key] == Hex(Canonical(files[ManifestFile(step)]))
  }

  ghost predicate LeadsSomewhere(files: Files, root: Document, key: string) {
    exists step :: Leads(files, root, key, step)
  }

  const ROOT := "run_manifest.json"

  // The root manifest leads to every step manifest it lists, and lists no result itself.
  ghost predicate Linked(files: Files) {
    && ROOT in files
    && files[ROOT].digests.Some? && !InSome(files[ROOT].paths, "deterministic_result")
    && (forall key :: InSome(files[ROOT].paths, key) && StepKey(key) ==> LeadsSomewhere(files, files[ROOT], key))
  }

  // A failure of the chain, as against a refusal for another reason.
  predicate ChainFailure<T>(r: Result<T, ReplayError>) {
    r.Err? && ChainError(r.error)
  }

  // What the root leads to under a visited key: a step manifest and its directory.
  function LedCandidate(files: Files, key: string): Candidate
    requires ROOT in files
  {
    var root := files[ROOT];
    if Visited(root, key) && root.paths.value[key].text in files
    then Candidate(ParentBase(ForwardSlashes(root.paths.value[key].text)), files[root.paths.value[key].text])
    else Candidate("", root)
  }

  function Led(files: Files, key: string): Document
    requires ROOT in files
  {
    LedCandidate(files, key).manifest
  }

  lemma LedIs(files: Files, key: string, step: string)
    requires ROOT in files && StepKey(key) && Leads(files, files[ROOT], key, step)
    ensures Visited(files[ROOT], key)
    ensures LedCandidate(files, key) == Candidate(step, files[ManifestFile(step)])
  {
    BaseOfManifest(step);
  }

  lemma LinkedCandidate(files: Files, key: string)
    requires Linked(files) && Visited(files[ROOT], key)
    ensures StepCandidate(files, files[ROOT], key) ==
            if ManifestSchema(Led(files, key)) then Ok(LedCandidate(files, key)) else Err(SchemaInvalid)
  {
    assert LeadsSomewhere(files, files[ROOT], key);
    var step :| Leads(files, files[ROOT], key, step);
    LedIs(files, key, step);
  }

  // ----------------------------------------------------------- the simple form

  predicate AllPass(files: Files, order: seq<string>)
    requires ROOT in files
  {
    forall i :: 0 <= i < |order| ==> ManifestSchema(Led(files, order[i]))
  }

  // The manifest names no other case or workflow than the entry's.
  predicate Matching(entry: Entry, m: Document) {
    TextOr(m.caseId, entry.caseId) == entry.caseId && TextOr(m.workflowId, entry.workflowId) == entry.workflowId
  }

  // The manifest offers evidence for the entry.
  predicate Offers(entry: Entry, m: Document) {
    Matching(entry, m) && Complete(m)
  }

  // The reader goes on to the next manifest.
  predicate PassedOver(entry: Entry, m: Document) {
    Matching(entry, m) && !Complete(m)
  }

  // The first manifest that is not passed over.
  predicate SettlesAt(files: Files, entry: Entry, order: seq<string>, i: nat)
    requires ROOT in files
  {
    && i < |order| && !PassedOver(entry, Led(files, order[i]))
    && forall j :: 0 <= j < i ==> PassedOver(entry, Led(files, order[j]))
  }

  predicate NothingSettles(files: Files, entry: Entry, order: seq<string>)
    requires ROOT in files
  {
    forall i :: 0 <= i < |order| ==> PassedOver(entry, Led(files, order[i]))
  }

  function LedCandidates(files: Files, order: seq<string>): (cs: seq<Candidate>)
    requires ROOT in files
    ensures |cs| == |order|
  {
    seq(|order|, i requires 0 <= i < |order| => LedCandidate(files, order[i]))
  }

  lemma {:induction false} LinkedCandidates(files: Files, order: seq<string>)
    requires Linked(files) && AllVisited(files[ROOT], order)
    ensures Candidates(files, files[ROOT], order) ==
            if AllPass(files, order) then Ok(LedCandidates(files, order)) else Err(SchemaInvalid)
  {
    if order == [] {
    } else {
      var last := |order| - 1;
      var before := order[..last];
      LinkedCandidates(files, before);
      LinkedCandidate(files, order[last]);
      assert order == before + [order[last]];
      assert AllPass(files, order) <==> AllPass(files, before) && ManifestSchema(Led(files, order[last]));
      assert LedCandidates(files, order) == LedCandidates(files, before) + [LedCandidate(files, order[last])];
    }
  }

  lemma {:induction false} FirstJudged(
    files: Files, entry: Entry, checks: Checks, root: Document, cs: seq<Candidate>, i: nat)
    requires i <= |cs| && forall j :: 0 <= j < i ==> PassedOver(entry, cs[j].manifest)
    requires i < |cs| ==> !PassedOver(entry, cs[i].manifest)
    ensures i == |cs| ==> FirstJudgement(files, entry, checks, root, cs) == Err(CompleteEvidenceMissing)
    ensures i < |cs| ==>
      && Judge(files, entry, checks, root, cs[i]).Some?
      && FirstJudgement(files, entry, checks, root, cs) == Judge(files, entry, checks, root, cs[i]).value
  {
    if i == 0 {
    } else {
      assert Judge(files, entry, checks, root, cs[0]).None?;
      FirstJudged(files, entry, checks, root, cs[1..], i - 1);
    }
  }

  /**
   * What the reader answers on a linked chain, case by case: the root manifest's error; a
   * schema error if any visited manifest is malformed; missing evidence if all are passed
   * over; and otherwise its judgement of the first that is not.
   */
  lemma ReplayOutcome(files: Files, entry: Entry, checks: Checks, order: seq<string>, i: nat)
    requires Linked(files) && Visits(files[ROOT], order)
    ensures var (r, refused) := (Replay(files, entry, checks, order), RootError(entry, checks, files[ROOT]));
      && (refused.Some? ==> r == Err(refused.value))
      && (refused.None? && !AllPass(files, order) ==> r == Err(SchemaInvalid))
      && (refused.None? && AllPass(files, order) && NothingSettles(files, entry, order) ==>
            r == Err(CompleteEvidenceMissing))
      && (refused.None? && AllPass(files, order) && SettlesAt(files, entry, order, i) ==>
            Judge(files, entry, checks, files[ROOT], LedCandidate(files, order[i])) == Some(r))
  {
    LinkedCandidates(files, order);
    var cs := LedCandidates(files, order);
    if NothingSettles(files, entry, order) {
      FirstJudged(files, entry, checks, files[ROOT], cs, |cs|);
    }
    if SettlesAt(files, entry, order, i) {
      FirstJudged(files, entry, checks, files[ROOT], cs, i);
    }
  }

  lemma MalformedRefused(files: Files, entry: Entry, checks: Checks, order: seq<string>)
    requires Linked(files) && Visits(files[ROOT], order) && !AllPass(files, order)
    ensures Replay(files, entry, checks, order) ==
            Err(match RootError(entry, checks, files[ROOT]) case Some(e) => e case None => SchemaInvalid)
  {
    ReplayOutcome(files, entry, checks, order, 0);
  }

  // Either all manifests are passed over or one of them settles the replay.
  lemma {:induction false} SettlesOrNot(files: Files, entry: Entry, order: seq<string>, n: nat) returns (i: nat)
    requires ROOT in files && n <= |order|
    requires forall j :: 0 <= j < n ==> PassedOver(entry, Led(files, order[j]))
    ensures NothingSettles(files, entry, order) || SettlesAt(files, entry, order, i)
    decreases |order| - n
  {
    i := n;
    if n < |order| && PassedOver(entry, Led(files, order[n])) {
      i := SettlesOrNot(files, entry, order, n + 1);
    }
  }

  lemma OneSettles(files: Files, entry: Entry, order: seq<string>, i: nat, n: nat)
    requires ROOT in files && SettlesAt(files, entry, order, i) && SettlesAt(files, entry, order, n)
    ensures i == n
  {
  }

  // ----------------------------------------------------------- judging one manifest

  // Reading back fails on the chain or not at all.
  lemma ReadErrors(files: Files, base: string, m: Document, id: string)
    requires InSome(m.paths, id) && m.digests.Some? && ReadVerified(files, base, m, id).Err?
    ensures ChainError(ReadVerified(files, base, m, id).error)
  {
  }

  lemma JudgedFailure(files: Files, entry: Entry, checks: Checks, root: Document, c: Candidate)
    requires !PassedOver(entry, c.manifest)
    ensures var verdict := Judge(files, entry, checks, root, c);
      verdict.Some? && (ChainFailure(verdict.value) <==>
        Offers(entry, c.manifest) && !ManifestSound(files, c.base, c.manifest))
  {
    var m := c.manifest;
    if m.digests.Some? {
      forall id | InSome(m.paths, id) && ReadVerified(files, c.base, m, id).Err?
        ensures ChainError(ReadVerified(files, c.base, m, id).error)
      {
        ReadErrors(files, c.base, m, id);
      }
    }
  }

  // The documents a manifest's evidence is read from.
  function ReadOf(files: Files, c: Candidate, id: string): Document
    requires ReadsBack(files, c.base, c.manifest, id)
  {
    ReadVerified(files, c.base, c.manifest, id).value
  }

  predicate SoundCandidate(files: Files, c: Candidate) {
    ManifestSound(files, c.base, c.manifest)
  }

  function EvidenceOf(files: Files, root: Document, c: Candidate): Evidence
    requires Complete(c.manifest) && SoundCandidate(files, c)
  {
    Evidence(root, c.manifest, ReadOf(files, c, "validated_input"), ReadOf(files, c, "case_input"),
      ReadOf(files, c, "deterministic_result"))
  }

  // The checks beyond the chain accept the evidence.
  predicate Accepted(checks: Checks, e: Evidence) {
    && checks.inputOk(e.validatedInput) && checks.resultOk(e.savedResult)
    && checks.identityOk(e.validatedInput, e.caseInput, e.savedResult)
    && checks.replayOk(e.caseInput, e.savedResult)
  }

  // What a judgement must be for the replay to return `e`.
  predicate Yields(files: Files, entry: Entry, checks: Checks, root: Document, c: Candidate, e: Evidence) {
    && Offers(entry, c.manifest) && SoundCandidate(files, c)
    && e == EvidenceOf(files, root, c) && Accepted(checks, e)
  }

  lemma JudgedSuccess(files: Files, entry: Entry, checks: Checks, root: Document, c: Candidate, e: Evidence)
    requires !PassedOver(entry, c.manifest)
    ensures Judge(files, entry, checks, root, c).Some?
    ensures Judge(files, entry, checks, root, c).value == Ok(e) <==> Yields(files, entry, checks, root, c, e)
  {
  }

  // --------------------------------------------------------------- exact conditions

  // The root manifest is the entry's, all step manifests pass, and the i-th settles.
  predicate Reaches(files: Files, entry: Entry, checks: Checks, order: seq<string>, i: nat)
    requires ROOT in files
  {
    RootError(entry, checks, files[ROOT]).None? && AllPass(files, order) && SettlesAt(files, entry, order, i)
  }

  predicate FailsAt(files: Files, entry: Entry, checks: Checks, order: seq<string>, i: nat)
    requires ROOT in files
  {
    && Reaches(files, entry, checks, order, i)
    && Offers(entry, Led(files, order[i])) && !SoundCandidate(files, LedCandidate(files, order[i]))
  }

  predicate YieldsAt(files: Files, entry: Entry, checks: Checks, order: seq<string>, i: nat, e: Evidence)
    requires ROOT in files
  {
    && Reaches(files, entry, checks, order, i)
    && Yields(files, entry, checks, files[ROOT], LedCandidate(files, order[i]), e)
  }

  /**
   * The reader fails on the chain if and only if the root manifest is the entry's, every
   * step manifest passes the schema, and the first manifest not passed over offers evidence
   * that cannot be read.
   */
  lemma ChainFailsExactly(files: Files, entry: Entry, checks: Checks, order: seq<string>)
    requires Linked(files) && Visits(files[ROOT], order)
    ensures ChainFailure(Replay(files, entry, checks, order)) <==>
            exists i: nat :: FailsAt(files, entry, checks, order, i)
  {
    var n := SettlesOrNot(files, entry, order, 0);
    ReplayOutcome(files, entry, checks, order, n);
    if SettlesAt(files, entry, order, n) {
      JudgedFailure(files, entry, checks, files[ROOT], LedCandidate(files, order[n]));
    }
    if ChainFailure(Replay(files, entry, checks, order)) {
      assert FailsAt(files, entry, checks, order, n);
    } else if i: nat :| FailsAt(files, entry, checks, order, i) {
      OneSettles(files, entry, order, i, n);
    }
  }

  /**
   * The reader succeeds if and only if, under the same circumstances, that first manifest
   * offers evidence that can be read and that the remaining checks accept; and then it
   * returns that evidence.
   */
  lemma SucceedsExactly(files: Files, entry: Entry, checks: Checks, order: seq<string>, e: Evidence)
    requires Linked(files) && Visits(files[ROOT], order)
    ensures Replay(files, entry, checks, order) == Ok(e) <==>
            exists i: nat :: YieldsAt(files, entry, checks, order, i, e)
  {
    var n := SettlesOrNot(files, entry, order, 0);
    ReplayOutcome(files, entry, checks, order, n);
    if SettlesAt(files, entry, order, n) {
      JudgedSuccess(files, entry, checks, files[ROOT], LedCandidate(files, order[n]), e);
    }
    if Replay(files, entry, checks, order) == Ok(e) {
      assert YieldsAt(files, entry, checks, order, n, e);
    } else if i: nat :| YieldsAt(files, entry, checks, order, i, e) {
      OneSettles(files, entry, order, i, n);
    }
  }
}
