/** Rival imports of one run: other cases, other roots, other evidence. */
module ImportRivals {
  import opened Common
  import Snapshot
  import opened BenchmarkImport
  import opened ImportLaws
  import opened ImportRuns

  // A well-named import of this run, of whatever bundle and to whatever place.
  predicate OfRun(r: Request, runId: string) {
    SafeNames(r) && RunId(r.bundle.value) == runId
  }

  // The entry a request makes when it registers its run.
  function EntryMade(t: Tools, r: Request): RunEntry
    requires r.bundle.Some?
  {
    EntryOf(t, r.bundle.value, Target(r), r.caller)
  }

  lemma PublishRegisters(s: Stores, t: Tools, r: Request, budget: nat)
    requires r.bundle.Some? && RunId(r.bundle.value) !in s.runs
    ensures var later := Publish(s, t, r, budget).0;
      later.runs == s.runs || later.runs == s.runs[RunId(r.bundle.value) := EntryMade(t, r)]
  {
  }

  // One import changes the run entries by its own at most, and only if there was none.
  lemma RunsAfter(s: Stores, t: Tools, r: Request, budget: nat)
    ensures RunsStep(t, s, r, Import(s, t, r, budget).0)
  {
    if SafeNames(r) && RunId(r.bundle.value) !in s.runs {
      PublishRegisters(s, t, r, budget);
    }
  }

  // Request `k` is the first to register the run, and up to state `n` its entry stays.
  ghost predicate Registers(
    t: Tools, states: seq<Stores>, requests: seq<Request>, runId: string, k: nat, n: nat)
    requires |states| == |requests| + 1
  {
    && k < |requests| && k < n < |states| && OfRun(requests[k], runId)
    && Unregistered(states, runId, k)
    && (forall i :: k < i <= n ==> Stands(t, states[i], requests[k], runId))
  }

  ghost predicate Unregistered(states: seq<Stores>, runId: string, n: nat) {
    n < |states| && forall i :: 0 <= i <= n ==> runId !in states[i].runs
  }

  predicate Stands(t: Tools, s: Stores, winner: Request, runId: string) {
    winner.bundle.Some? && runId in s.runs && s.runs[runId] == EntryMade(t, winner)
  }

  // What one import may do to the run entries.
  predicate RunsStep(t: Tools, s: Stores, r: Request, later: Stores) {
    later.runs == s.runs ||
    (SafeNames(r) && RunId(r.bundle.value) !in s.runs && later.runs == s.runs[RunId(r.bundle.value) := EntryMade(t, r)])
  }

  ghost predicate RunsEvolve(t: Tools, states: seq<Stores>, requests: seq<Request>) {
    |states| == |requests| + 1 && forall i :: 0 <= i < |requests| ==> RunsStep(t, states[i], requests[i], states[i + 1])
  }

  lemma SequenceEvolves(t: Tools, states: seq<Stores>, requests: seq<Request>, budgets: seq<nat>)
    requires Sequence(t, states, requests, budgets)
    ensures RunsEvolve(t, states, requests)
  {
    forall i | 0 <= i < |requests|
      ensures RunsStep(t, states[i], requests[i], states[i + 1])
    {
      RunsAfter(states[i], t, requests[i], budgets[i]);
    }
  }

  lemma {:induction false} RegistrarStands(
    t: Tools, states: seq<Stores>, requests: seq<Request>, runId: string, n: nat) returns (k: nat)
    requires RunsEvolve(t, states, requests) && runId !in states[0].runs && n < |states|
    ensures Unregistered(states, runId, n) || Registers(t, states, requests, runId, k, n)
  {
    if n == 0 {
      k := 0;
    } else {
      k := RegistrarStands(t, states, requests, runId, n - 1);
      assert RunsStep(t, states[n - 1], requests[n - 1], states[n]);
      if Unregistered(states, runId, n - 1) && runId in states[n].runs {
        k := n - 1;
      }
    }
  }

  /** The entry of a run is that of the first import to register it, for good. */
  lemma FirstRegistrarStands(
    t: Tools, states: seq<Stores>, requests: seq<Request>, budgets: seq<nat>, runId: string) returns (k: nat)
    requires Sequence(t, states, requests, budgets) && runId !in states[0].runs && runId in states[|requests|].runs
    ensures Registers(t, states, requests, runId, k, |requests|)
  {
    SequenceEvolves(t, states, requests, budgets);
    k := RegistrarStands(t, states, requests, runId, |requests|);
  }

  // ------------------------------------------------------------ what rivals are told

  // The answer to an import of a run that `winner` registered.  It writes a review at most.
  predicate YieldsTo(s: Stores, t: Tools, r: Request, budget: nat, winner: Request)
    requires r.bundle.Some? && winner.bundle.Some?
  {
    var (later, outcome) := Import(s, t, r, budget);
    && later.snapshots == s.snapshots && later.runs == s.runs
    && if EvidenceOf(t, r.bundle.value) != EvidenceOf(t, winner.bundle.value)
       then later == s && outcome == Failed(DifferentEvidence)
       else
         || (outcome == AlreadyImported(CaseOf(winner)) && HasReview(later.reviews, RunId(r.bundle.value)))
         || (outcome == Stopped && later == s && budget == 0)
  }

  lemma DoneHasReview(
    s: Stores, t: Tools, dir: Snapshot.Directory, paths: map<string, string>, runId: string, caseId: string,
    caller: Caller, done: Outcome, budget: nat)
    requires t.packet(dir, paths).Some? && ReviewsRegistered(s) && !done.Stopped?
    ensures var (later, outcome) := EnsureReview(s, t, dir, paths, runId, caseId, caller, done, budget);
      && later.snapshots == s.snapshots && later.runs == s.runs
      && ((outcome == done && HasReview(later.reviews, runId)) || (outcome == Stopped && later == s && budget == 0))
  {
    HasReviewIs(s, runId);
    var later := EnsureReview(s, t, dir, paths, runId, caseId, caller, done, budget).0;
    assert ReviewId(runId) in later.reviews ==> later.reviews[ReviewId(runId)].runId == runId;
  }

  lemma ResumeYields(s: Stores, t: Tools, r: Request, budget: nat, winner: Request)
    requires Agrees(t) && Inv(s, t) && r.bundle.Some? && OfRun(r, RunId(r.bundle.value))
    requires Stands(t, s, winner, RunId(r.bundle.value))
    ensures YieldsTo(s, t, r, budget, winner)
  {
    var (runId, evidence) := (RunId(r.bundle.value), EvidenceOf(t, r.bundle.value));
    var entry := s.runs[runId];
    assert Backed(s, t, runId, entry);
    var place := entry.place.value;
    var dir := s.snapshots[place];
    assert WrittenFor(t, place, dir);
    CheckedPacket(t, place, dir, entry.evidence.value);
    if entry.evidence == Some(evidence) {
      DoneHasReview(s, t, dir, t.check(Some(dir), entry.caseId, runId, evidence).value, runId, entry.caseId,
        Resumer(entry, r), AlreadyImported(entry.caseId), budget);
    }
  }

  lemma {:induction false} SnapshotsStay(
    t: Tools, states: seq<Stores>, requests: seq<Request>, budgets: seq<nat>, k: nat, i: nat)
    requires Sequence(t, states, requests, budgets) && k <= i < |states|
    ensures Extends(states[k].snapshots, states[i].snapshots)
    decreases i
  {
    if k == i {
    } else {
      SnapshotsStay(t, states, requests, budgets, k, i - 1);
      ImportOnlyAdds(states[i - 1], t, requests[i - 1], budgets[i - 1]);
    }
  }

  // The place of a run's registrar holds its snapshot.
  lemma WinnersPlace(s: Stores, t: Tools, winner: Request, runId: string)
    requires Inv(s, t) && Stands(t, s, winner, runId)
    ensures Target(winner) in s.snapshots
  {
    assert Backed(s, t, runId, s.runs[runId]);
  }

  predicate AllTrusted(requests: seq<Request>) {
    forall i :: 0 <= i < |requests| ==> Trusted(requests[i])
  }

  /** The snapshot the run was registered for stays. */
  lemma WinnersSnapshotStays(
    t: Tools, states: seq<Stores>, requests: seq<Request>, budgets: seq<nat>, runId: string, k: nat, i: nat)
    requires Agrees(t) && Sequence(t, states, requests, budgets) && Inv(states[0], t) && AllTrusted(requests)
    requires Registers(t, states, requests, runId, k, |requests|) && k < i < |states|
    ensures var place := Target(requests[k]);
      place in states[k + 1].snapshots && place in states[i].snapshots
      && states[i].snapshots[place] == states[k + 1].snapshots[place]
  {
    InvariantAlways(t, states, requests, budgets, k + 1);
    WinnersPlace(states[k + 1], t, requests[k], runId);
    SnapshotsStay(t, states, requests, budgets, k + 1, i);
  }

  /**
   * Rivals for one run id, with whatever case, root or evidence: once an import has
   * registered the run, each later one is refused for different evidence, changing
   * nothing, or is told the winner's case and leaves the run reviewed, unless it stops
   * before its only write.
   */
  lemma RivalsYield(
    t: Tools, states: seq<Stores>, requests: seq<Request>, budgets: seq<nat>, runId: string, k: nat, i: nat)
    requires Agrees(t) && Sequence(t, states, requests, budgets) && Inv(states[0], t) && AllTrusted(requests)
    requires Registers(t, states, requests, runId, k, |requests|) && k < i < |requests| && OfRun(requests[i], runId)
    ensures YieldsTo(states[i], t, requests[i], budgets[i], requests[k])
  {
    InvariantAlways(t, states, requests, budgets, i);
    ResumeYields(states[i], t, requests[i], budgets[i], requests[k]);
  }
}
