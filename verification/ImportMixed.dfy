/** Interrupted imports of one run among imports of other runs. */
module ImportMixed {
  import opened Common
  import Snapshot
  import opened SnapshotWriter
  import opened BenchmarkImport
  import opened ImportLaws
  import opened ImportRuns

  // What the stores hold for one place: its snapshot, its run entry and its review.
  datatype Slice = Slice(snapshot: Option<Snapshot.Directory>, entry: Option<RunEntry>, review: Option<Review>)

  function Lookup<K, V>(m: map<K, V>, k: K): Option<V> {
    if k in m then Some(m[k]) else None
  }

  function SliceOf(s: Stores, place: Place): Slice {
    Slice(Lookup(s.snapshots, place), Lookup(s.runs, place.runId), Lookup(s.reviews, ReviewId(place.runId)))
  }

  // An import of another run, or of nothing.
  predicate Foreign(r: Request, place: Place) {
    r.bundle.Some? ==> RunId(r.bundle.value) != place.runId
  }

  // ---------------------------------------------------------- other runs' imports

  lemma ForeignReview(
    s: Stores, t: Tools, dir: Snapshot.Directory, paths: map<string, string>, runId: string, caseId: string,
    caller: Caller, done: Outcome, budget: nat, place: Place)
    requires runId != place.runId
    ensures SliceOf(EnsureReview(s, t, dir, paths, runId, caseId, caller, done, budget).0, place) == SliceOf(s, place)
  {
    if ReviewId(runId) == ReviewId(place.runId) {
      ReviewIdInjective(runId, place.runId);
    }
  }

  lemma ForeignRegister(
    s: Stores, t: Tools, r: Request, at: Place, paths: map<string, string>, budget: nat, place: Place)
    requires r.bundle.Some? && Foreign(r, place) && at in s.snapshots
    ensures SliceOf(Register(s, t, r, at, paths, budget).0, place) == SliceOf(s, place)
  {
    if budget > 0 {
      var runId := RunId(r.bundle.value);
      var registered := s.(runs := s.runs[runId := EntryOf(t, r.bundle.value, at, r.caller)]);
      ForeignReview(registered, t, s.snapshots[at], paths, runId, at.caseId, r.caller, Imported(at.caseId), budget - 1, place);
    }
  }

  lemma ForeignPublish(s: Stores, t: Tools, r: Request, budget: nat, place: Place)
    requires r.bundle.Some? && Foreign(r, place)
    ensures SliceOf(Publish(s, t, r, budget).0, place) == SliceOf(s, place)
  {
    var (at, b) := (Target(r), r.bundle.value);
    if at in s.snapshots {
      var verdict := t.check(Some(s.snapshots[at]), at.caseId, at.runId, EvidenceOf(t, b));
      if verdict.Some? {
        ForeignRegister(s, t, r, at, verdict.value, budget, place);
      }
    } else if budget > 0 {
      var (dir, paths) := t.write(DraftOf(t, b, at.caseId, r.caller, r.now));
      var published := s.(snapshots := s.snapshots[at := dir]);
      ForeignRegister(published, t, r, at, paths, budget - 1, place);
    }
  }

  lemma ForeignResume(s: Stores, t: Tools, r: Request, budget: nat, place: Place)
    requires r.bundle.Some? && Foreign(r, place) && RunId(r.bundle.value) in s.runs
    ensures SliceOf(Resume(s, t, r, budget).0, place) == SliceOf(s, place)
  {
    var (runId, evidence) := (RunId(r.bundle.value), EvidenceOf(t, r.bundle.value));
    var entry := s.runs[runId];
    if entry.evidence == Some(evidence) && entry.place.Some? {
      var dir := SnapshotAt(s, entry.place.value);
      var verdict := t.check(dir, entry.caseId, runId, evidence);
      if dir.Some? && verdict.Some? {
        ForeignReview(s, t, dir.value, verdict.value, runId, entry.caseId, Resumer(entry, r),
          AlreadyImported(entry.caseId), budget, place);
      }
    }
  }

  /** An import of another run leaves this run's snapshot, entry and review alone. */
  lemma ForeignKeepsSlice(s: Stores, t: Tools, r: Request, budget: nat, place: Place)
    requires Foreign(r, place)
    ensures SliceOf(Import(s, t, r, budget).0, place) == SliceOf(s, place)
  {
    if r.bundle.Some? {
      if RunId(r.bundle.value) in s.runs {
        ForeignResume(s, t, r, budget, place);
      } else {
        ForeignPublish(s, t, r, budget, place);
      }
    }
  }

  // -------------------------------------------------------- this run's own imports

  lemma SameReview(
    s: Stores, u: Stores, t: Tools, dir: Snapshot.Directory, paths: map<string, string>, place: Place,
    caller: Caller, done: Outcome, budget: nat)
    requires ReviewsRegistered(s) && ReviewsRegistered(u) && SliceOf(s, place) == SliceOf(u, place)
    ensures var (x, y) := (EnsureReview(s, t, dir, paths, place.runId, place.caseId, caller, done, budget),
                           EnsureReview(u, t, dir, paths, place.runId, place.caseId, caller, done, budget));
      SliceOf(x.0, place) == SliceOf(y.0, place) && x.1 == y.1
  {
    HasReviewIs(s, place.runId);
    HasReviewIs(u, place.runId);
  }

  lemma SameRegister(s: Stores, u: Stores, t: Tools, r: Request, place: Place, paths: map<string, string>, budget: nat)
    requires r.bundle.Some? && place.runId == RunId(r.bundle.value)
    requires place in s.snapshots && place.runId !in s.runs && SliceOf(s, place) == SliceOf(u, place)
    requires ReviewsRegistered(s) && ReviewsRegistered(u)
    ensures var (x, y) := (Register(s, t, r, place, paths, budget), Register(u, t, r, place, paths, budget));
      SliceOf(x.0, place) == SliceOf(y.0, place) && x.1 == y.1
  {
    assert place in u.snapshots && place.runId !in u.runs;
    if budget > 0 {
      var entry := EntryOf(t, r.bundle.value, place, r.caller);
      var (registered, other) := (s.(runs := s.runs[place.runId := entry]), u.(runs := u.runs[place.runId := entry]));
      SameReview(registered, other, t, s.snapshots[place], paths, place, r.caller, Imported(place.caseId), budget - 1);
    }
  }

  // Registered, if at all, for this very place.
  predicate OwnEntry(s: Stores, place: Place) {
    place.runId in s.runs ==> s.runs[place.runId].place == Some(place) && s.runs[place.runId].caseId == place.caseId
  }

  lemma SameResume(s: Stores, u: Stores, t: Tools, r: Request, place: Place, budget: nat)
    requires r.bundle.Some? && place.runId == RunId(r.bundle.value)
    requires place.runId in s.runs && OwnEntry(s, place) && SliceOf(s, place) == SliceOf(u, place)
    requires ReviewsRegistered(s) && ReviewsRegistered(u)
    ensures place.runId in u.runs
    ensures var (x, y) := (Resume(s, t, r, budget), Resume(u, t, r, budget));
      SliceOf(x.0, place) == SliceOf(y.0, place) && x.1 == y.1
  {
    var (entry, evidence) := (s.runs[place.runId], EvidenceOf(t, r.bundle.value));
    assert place.runId in u.runs && u.runs[place.runId] == entry;
    var dir := SnapshotAt(s, place);
    assert SnapshotAt(u, place) == dir;
    if entry.evidence == Some(evidence) {
      var verdict := t.check(dir, place.caseId, place.runId, evidence);
      if dir.Some? && verdict.Some? {
        SameReview(s, u, t, dir.value, verdict.value, place, Resumer(entry, r), AlreadyImported(place.caseId), budget);
      }
    }
  }

  // The destination exists already, in both.
  lemma SameRepublish(s: Stores, u: Stores, t: Tools, r: Request, place: Place, budget: nat)
    requires r.bundle.Some? && Target(r) == place
    requires place.runId !in s.runs && place in s.snapshots && SliceOf(s, place) == SliceOf(u, place)
    requires ReviewsRegistered(s) && ReviewsRegistered(u)
    ensures var (x, y) := (Publish(s, t, r, budget), Publish(u, t, r, budget));
      SliceOf(x.0, place) == SliceOf(y.0, place) && x.1 == y.1
  {
    assert place in u.snapshots && u.snapshots[place] == s.snapshots[place];
    var verdict := t.check(Some(s.snapshots[place]), place.caseId, place.runId, EvidenceOf(t, r.bundle.value));
    if verdict.Some? {
      SameRegister(s, u, t, r, place, verdict.value, budget);
    }
  }

  lemma PublishNew(s: Stores, t: Tools, r: Request, place: Place, budget: nat)
    requires r.bundle.Some? && Target(r) == place && place !in s.snapshots && budget > 0
    ensures var (dir, paths) := t.write(DraftOf(t, r.bundle.value, place.caseId, r.caller, r.now));
      Publish(s, t, r, budget) == Register(s.(snapshots := s.snapshots[place := dir]), t, r, place, paths, budget - 1)
  {
  }

  lemma SliceWithSnapshot(s: Stores, u: Stores, place: Place, dir: Snapshot.Directory)
    requires SliceOf(s, place) == SliceOf(u, place)
    ensures SliceOf(s.(snapshots := s.snapshots[place := dir]), place) ==
            SliceOf(u.(snapshots := u.snapshots[place := dir]), place)
  {
  }

  lemma SamePublish(s: Stores, u: Stores, t: Tools, r: Request, place: Place, budget: nat)
    requires r.bundle.Some? && Target(r) == place
    requires place.runId !in s.runs && place !in s.snapshots && SliceOf(s, place) == SliceOf(u, place)
    requires ReviewsRegistered(s) && ReviewsRegistered(u) && budget > 0
    ensures var (x, y) := (Publish(s, t, r, budget), Publish(u, t, r, budget));
      SliceOf(x.0, place) == SliceOf(y.0, place) && x.1 == y.1
  {
    assert place !in u.snapshots;
    var (dir, paths) := t.write(DraftOf(t, r.bundle.value, place.caseId, r.caller, r.now));
    PublishNew(s, t, r, place, budget);
    PublishNew(u, t, r, place, budget);
    SliceWithSnapshot(s, u, place, dir);
    SameRegister(s.(snapshots := s.snapshots[place := dir]), u.(snapshots := u.snapshots[place := dir]),
      t, r, place, paths, budget - 1);
  }

  /** An import sees, and changes, nothing but the slice of its own place. */
  lemma SliceDecides(s: Stores, u: Stores, t: Tools, r: Request, b: Bundle, place: Place, budget: nat)
    requires Of(r, b, place) && OwnEntry(s, place) && SliceOf(s, place) == SliceOf(u, place)
    requires ReviewsRegistered(s) && ReviewsRegistered(u)
    ensures SliceOf(Import(s, t, r, budget).0, place) == SliceOf(Import(u, t, r, budget).0, place)
    ensures Import(s, t, r, budget).1 == Import(u, t, r, budget).1
  {
    if place.runId in s.runs {
      SameResume(s, u, t, r, place, budget);
    } else {
      assert Lookup(u.runs, place.runId) == None;
      if place in s.snapshots {
        SameRepublish(s, u, t, r, place, budget);
      } else if budget > 0 {
        SamePublish(s, u, t, r, place, budget);
      }
    }
  }

  // ------------------------------------------------------------------- convergence

  // The three writes keep reviews registered, and the run for this place.
  lemma RegisteredIsOrderly(s: Stores, t: Tools, b: Bundle, place: Place, p: Progress)
    requires ReviewsRegistered(s) && place.runId !in s.runs
    ensures ReviewsRegistered(Registered(s, t, b, place, p)) && OwnEntry(Registered(s, t, b, place, p), place)
  {
    RunKeepsReviews(s, place.runId, EntryOf(t, b, place, p.registrar));
  }

  lemma ReviewedIsOrderly(s: Stores, t: Tools, b: Bundle, place: Place, p: Progress)
    requires ReviewsRegistered(s) && place.runId in s.runs && OwnEntry(s, place)
    ensures ReviewsRegistered(Reviewed(s, t, b, place, p)) && OwnEntry(Reviewed(s, t, b, place, p), place)
  {
    var later := Reviewed(s, t, b, place, p);
    forall id | id in later.reviews
      ensures id == ReviewId(later.reviews[id].runId) && later.reviews[id].runId in later.runs
      ensures later.reviews[id].caseId == later.runs[later.reviews[id].runId].caseId
    {
      assert id in s.reviews || id == ReviewId(place.runId);
    }
  }

  lemma AtIsOrderly(s: Stores, t: Tools, b: Bundle, place: Place, p: Progress)
    requires ReviewsRegistered(s) && Vacant(s, place)
    ensures ReviewsRegistered(At(s, t, b, place, p)) && OwnEntry(At(s, t, b, place, p), place)
  {
    if p.writes >= 1 {
      var published := Published(s, t, b, place, p);
      RegisteredIsOrderly(published, t, b, place, p);
      ReviewedIsOrderly(Registered(published, t, b, place, p), t, b, place, p);
    }
  }

  function MixedProgress(requests: seq<Request>, budgets: seq<nat>, place: Place, start: Request): Progress
    requires |budgets| == |requests|
  {
    if requests == [] then Progress(0, start, start.caller, start.caller)
    else
      var n := |requests| - 1;
      var before := MixedProgress(requests[..n], budgets[..n], place, start);
      if Foreign(requests[n], place) then before else Advance(before, requests[n], budgets[n])
  }

  // Each import is of this bundle to this place, or of another run.
  predicate Mixed(requests: seq<Request>, b: Bundle, place: Place) {
    forall i :: 0 <= i < |requests| ==> Trusted(requests[i]) && (Of(requests[i], b, place) || Foreign(requests[i], place))
  }

  lemma {:induction false} MixedSequence(
    t: Tools, states: seq<Stores>, requests: seq<Request>, budgets: seq<nat>, b: Bundle, place: Place, start: Request)
    requires Agrees(t) && Sequence(t, states, requests, budgets)
    requires Inv(states[0], t) && Vacant(states[0], place)
    requires Importable(b.components) && Mixed(requests, b, place)
    ensures MixedProgress(requests, budgets, place, start).writes <= 3
    ensures Inv(states[|requests|], t)
    ensures SliceOf(states[|requests|], place) ==
            SliceOf(At(states[0], t, b, place, MixedProgress(requests, budgets, place, start)), place)
  {
    if requests == [] {
    } else {
      var n := |requests| - 1;
      var p := MixedProgress(requests[..n], budgets[..n], place, start);
      MixedSequence(t, states[..n + 1], requests[..n], budgets[..n], b, place, start);
      assert states[..n + 1][n] == states[n];
      ImportKeepsInvariant(states[n], t, requests[n], budgets[n]);
      if Foreign(requests[n], place) {
        ForeignKeepsSlice(states[n], t, requests[n], budgets[n], place);
      } else {
        OwnStep(states[0], states[n], t, b, place, p, requests[n], budgets[n]);
      }
    }
  }

  // An import of this run, from a state that holds for it what progress `p` says.
  lemma OwnStep(s0: Stores, s: Stores, t: Tools, b: Bundle, place: Place, p: Progress, r: Request, budget: nat)
    requires Agrees(t) && Inv(s0, t) && Vacant(s0, place) && Importable(b.components) && Of(r, b, place)
    requires p.writes <= 3 && ReviewsRegistered(s) && SliceOf(s, place) == SliceOf(At(s0, t, b, place, p), place)
    ensures SliceOf(Import(s, t, r, budget).0, place) == SliceOf(At(s0, t, b, place, Advance(p, r, budget)), place)
    ensures Import(s, t, r, budget).1 == Report(p, place.caseId, budget)
  {
    AtIsOrderly(s0, t, b, place, p);
    assert OwnEntry(s, place) by {
      assert Lookup(s.runs, place.runId) == Lookup(At(s0, t, b, place, p).runs, place.runId);
    }
    SliceDecides(s, At(s0, t, b, place, p), t, r, b, place, budget);
    ImportAdvances(s0, t, b, place, p, r, budget);
  }

  lemma SliceOfAt(s: Stores, t: Tools, b: Bundle, place: Place, p: Progress, q: Progress)
    requires p.writes == 3 && q.writes == 3
    ensures SliceOf(At(s, t, b, place, p), place) == SliceOf(At(s, t, b, place, q), place) <==>
            At(s, t, b, place, p) == At(s, t, b, place, q)
  {
    var (x, y) := (At(s, t, b, place, p), At(s, t, b, place, q));
    var id := ReviewId(place.runId);
    assert x.snapshots == s.snapshots[place := x.snapshots[place]] && y.snapshots == s.snapshots[place := y.snapshots[place]];
    assert x.runs == s.runs[place.runId := x.runs[place.runId]] && y.runs == s.runs[place.runId := y.runs[place.runId]];
    assert x.reviews == s.reviews[id := x.reviews[id]] && y.reviews == s.reviews[id := y.reviews[id]];
  }

  lemma {:induction false} MixedAmong(
    requests: seq<Request>, budgets: seq<nat>, b: Bundle, place: Place, start: Request)
    requires |budgets| == |requests| && Mixed(requests, b, place)
    ensures var p := MixedProgress(requests, budgets, place, start);
      p.writes >= 1 ==> p.publisher in requests && Of(p.publisher, b, place)
  {
    if requests == [] {
    } else {
      var n := |requests| - 1;
      MixedAmong(requests[..n], budgets[..n], b, place, start);
    }
  }

  /**
   * Convergence among imports of other runs.  Whatever else is imported in between, once an
   * import of this run finishes, its snapshot, entry and review are those of a single
   * uninterrupted import by the publisher if and only if the run was registered for the
   * publisher's operator and workspace and the one who finished filled in neither.
   */
  lemma ConvergesAmongOthers(
    t: Tools, states: seq<Stores>, requests: seq<Request>, budgets: seq<nat>, b: Bundle, place: Place, last: Request)
    requires Agrees(t) && Sequence(t, states, requests, budgets)
    requires Inv(states[0], t) && Vacant(states[0], place)
    requires Importable(b.components) && Mixed(requests, b, place) && Of(last, b, place)
    ensures var p := Advance(MixedProgress(requests, budgets, place, last), last, 3);
      var (final, outcome) := Import(states[|requests|], t, last, 3);
      && (outcome == Imported(place.caseId) || outcome == AlreadyImported(place.caseId))
      && p.writes == 3 && Of(p.publisher, b, place)
      && (SliceOf(final, place) == SliceOf(Import(states[0], t, p.publisher, 3).0, place) <==>
            p.registrar == p.publisher.caller && Filled(p.registrar, p.reviewer) == p.registrar)
  {
    var before := MixedProgress(requests, budgets, place, last);
    var p := Advance(before, last, 3);
    MixedSequence(t, states, requests, budgets, b, place, last);
    MixedAmong(requests, budgets, b, place, last);
    OwnStep(states[0], states[|requests|], t, b, place, before, last, 3);
    UncutImport(states[0], t, b, place, p.publisher);
    SameCallers(states[0], t, b, place, p);
    SliceOfAt(states[0], t, b, place, p, Progress(3, p.publisher, p.publisher.caller, p.publisher.caller));
  }
}
