/** Sequences of imports, each stopped anywhere: what always holds, and where they end. */
module ImportRuns {
  import opened Common
  import opened HexDigests
  import opened Utf8
  import opened Submission
  import opened Snapshot
  import opened SnapshotWriter
  import opened BenchmarkImport
  import opened ImportLaws

  // One import after another; the i-th stops after budgets[i] durable writes.
  ghost predicate Sequence(t: Tools, states: seq<Stores>, requests: seq<Request>, budgets: seq<nat>) {
    && |states| == |requests| + 1 && |budgets| == |requests|
    && forall i :: 0 <= i < |requests| ==> states[i + 1] == Import(states[i], t, requests[i], budgets[i]).0
  }

  /** The invariant holds after every import of every sequence. */
  lemma {:induction false} InvariantAlways(
    t: Tools, states: seq<Stores>, requests: seq<Request>, budgets: seq<nat>, i: nat)
    requires Agrees(t) && Sequence(t, states, requests, budgets) && Inv(states[0], t)
    requires forall k :: 0 <= k < |requests| ==> Trusted(requests[k])
    requires i < |states|
    ensures Inv(states[i], t)
  {
    if i == 0 {
    } else {
      InvariantAlways(t, states, requests, budgets, i - 1);
      ImportKeepsInvariant(states[i - 1], t, requests[i - 1], budgets[i - 1]);
    }
  }

  /**
   * From empty stores, with the real writer and checker: after any sequence of imports,
   * each stopped anywhere, every review belongs to a registered run and every registered
   * run to a published snapshot that is valid for the recorded case and evidence.
   */
  lemma DurableOrder(
    lib: Library, render: Record -> Bytes, states: seq<Stores>, requests: seq<Request>, budgets: seq<nat>, i: nat)
    requires RoundTrips(lib)
    requires Sequence(ToolsOf(lib, render), states, requests, budgets) && i < |states|
    requires states[0] == Stores(map[], map[], map[])
    requires forall k :: 0 <= k < |requests| ==> Trusted(requests[k])
    ensures forall id :: id in states[i].reviews ==> states[i].reviews[id].runId in states[i].runs
    ensures forall runId :: runId in states[i].runs ==> HeldBySnapshot(states[i], lib, runId)
  {
    var t := ToolsOf(lib, render);
    ToolsAgree(lib, render);
    InvariantAlways(t, states, requests, budgets, i);
    forall runId | runId in states[i].runs
      ensures HeldBySnapshot(states[i], lib, runId)
    {
      assert Backed(states[i], t, runId, states[i].runs[runId]);
    }
  }

  predicate HeldBySnapshot(s: Stores, lib: Library, runId: string)
    requires runId in s.runs
  {
    var entry := s.runs[runId];
    && entry.evidence.Some? && entry.place.Some? && entry.place.value in s.snapshots
    && Valid(Some(s.snapshots[entry.place.value]), lib, entry.caseId, runId, entry.evidence.value)
  }

  // ------------------------------------------------------------------------- progress

  // How far one import has come: the durable writes done, and who did them.
  datatype Progress = Progress(writes: nat, publisher: Request, registrar: Caller, reviewer: Caller)

  function Filled(registrar: Caller, reviewer: Caller): Caller {
    Caller(OrElse(registrar.operatorId, reviewer.operatorId), OrElse(registrar.workspaceId, reviewer.workspaceId))
  }

  function PublishedDraft(t: Tools, b: Bundle, place: Place, p: Progress): Draft {
    DraftOf(t, b, place.caseId, p.publisher.caller, p.publisher.now)
  }

  function Published(s: Stores, t: Tools, b: Bundle, place: Place, p: Progress): Stores {
    s.(snapshots := s.snapshots[place := t.write(PublishedDraft(t, b, place, p)).0])
  }

  function Registered(s: Stores, t: Tools, b: Bundle, place: Place, p: Progress): Stores {
    s.(runs := s.runs[place.runId := EntryOf(t, b, place, p.registrar)])
  }

  function Reviewed(s: Stores, t: Tools, b: Bundle, place: Place, p: Progress): Stores {
    s.(reviews := s.reviews[ReviewId(place.runId) :=
      ReviewOf(place.runId, place.caseId, Filled(p.registrar, p.reviewer), PacketOf(b, place.caseId, p.publisher.caller))])
  }

  function At(s: Stores, t: Tools, b: Bundle, place: Place, p: Progress): Stores {
    if p.writes == 0 then s
    else if p.writes == 1 then Published(s, t, b, place, p)
    else if p.writes == 2 then Registered(Published(s, t, b, place, p), t, b, place, p)
    else Reviewed(Registered(Published(s, t, b, place, p), t, b, place, p), t, b, place, p)
  }

  function Advance(p: Progress, r: Request, budget: nat): Progress {
    Progress(
      if p.writes + budget < 3 then p.writes + budget else 3,
      if p.writes == 0 then r else p.publisher,
      if p.writes <= 1 then r.caller else p.registrar,
      if p.writes <= 2 then r.caller else p.reviewer)
  }

  function Report(p: Progress, caseId: string, budget: nat): Outcome {
    if p.writes + budget < 3 then Stopped
    else if p.writes <= 1 then Imported(caseId)
    else AlreadyImported(caseId)
  }

  // An import of this bundle to this place.
  predicate Of(r: Request, b: Bundle, place: Place) {
    r.bundle == Some(b) && SafeNames(r) && Target(r) == place
  }

  // Nothing of the run is there yet.
  predicate Vacant(s: Stores, place: Place) {
    place !in s.snapshots && place.runId !in s.runs
  }

  lemma NoReviewYet(s: Stores, t: Tools, place: Place)
    requires Inv(s, t) && Vacant(s, place)
    ensures !HasReview(s.reviews, place.runId) && ReviewId(place.runId) !in s.reviews
  {
    HasReviewIs(s, place.runId);
    forall id | id in s.reviews
      ensures s.reviews[id].runId != place.runId
    {
    }
  }

  // What EnsureReview does to a run whose review is missing.
  lemma ReviewStep(
    s: Stores, t: Tools, dir: Directory, paths: map<string, string>, runId: string, caseId: string,
    caller: Caller, done: Outcome, budget: nat, packet: Record)
    requires !HasReview(s.reviews, runId) && ReviewId(runId) !in s.reviews
    requires t.packet(dir, paths) == Some(packet)
    ensures EnsureReview(s, t, dir, paths, runId, caseId, caller, done, budget) ==
            if budget == 0 then (s, Stopped)
            else (s.(reviews := s.reviews[ReviewId(runId) := ReviewOf(runId, caseId, caller, packet)]), done)
  {
  }

  lemma RegisterStep(
    s: Stores, t: Tools, b: Bundle, place: Place, r: Request, paths: map<string, string>, budget: nat, p: Progress)
    requires Of(r, b, place) && place in s.snapshots && p.registrar == r.caller && p.reviewer == r.caller
    requires !HasReview(s.reviews, place.runId) && ReviewId(place.runId) !in s.reviews
    requires t.packet(s.snapshots[place], paths) == Some(PacketOf(b, place.caseId, p.publisher.caller))
    ensures Register(s, t, r, place, paths, budget) ==
            if budget == 0 then (s, Stopped)
            else if budget == 1 then (Registered(s, t, b, place, p), Stopped)
            else (Reviewed(Registered(s, t, b, place, p), t, b, place, p), Imported(place.caseId))
  {
    if budget > 0 {
      var registered := Registered(s, t, b, place, p);
      assert Filled(r.caller, r.caller) == r.caller;
      ReviewStep(registered, t, s.snapshots[place], paths, place.runId, place.caseId, r.caller,
        Imported(place.caseId), budget - 1, PacketOf(b, place.caseId, p.publisher.caller));
    }
  }

  // The published snapshot checks out and offers the publisher's packet.
  lemma PublishedChecks(t: Tools, b: Bundle, place: Place, p: Progress)
    requires Agrees(t) && Importable(b.components) && place.runId == RunId(b)
    ensures var (dir, paths) := t.write(PublishedDraft(t, b, place, p));
      && t.check(Some(dir), place.caseId, place.runId, EvidenceOf(t, b)) == Some(paths)
      && t.packet(dir, paths) == Some(PacketOf(b, place.caseId, p.publisher.caller))
  {
    assert AgreesOn(t, PublishedDraft(t, b, place, p));
  }

  lemma FromNothing(s: Stores, t: Tools, b: Bundle, place: Place, p: Progress, r: Request, budget: nat)
    requires Agrees(t) && Inv(s, t) && Vacant(s, place) && Importable(b.components) && Of(r, b, place)
    requires p.writes == 0
    ensures Import(s, t, r, budget) == (At(s, t, b, place, Advance(p, r, budget)), Report(p, place.caseId, budget))
  {
    NoReviewYet(s, t, place);
    if budget > 0 {
      var next := Advance(p, r, budget);
      PublishedChecks(t, b, place, next);
      RegisterStep(Published(s, t, b, place, next), t, b, place, r,
        t.write(PublishedDraft(t, b, place, next)).1, budget - 1, next);
    }
  }

  lemma PublishResumes(s: Stores, t: Tools, r: Request, place: Place, paths: map<string, string>, budget: nat)
    requires SafeNames(r) && Target(r) == place && place in s.snapshots && place.runId !in s.runs
    requires t.check(Some(s.snapshots[place]), place.caseId, place.runId, EvidenceOf(t, r.bundle.value)) == Some(paths)
    ensures Import(s, t, r, budget) == Register(s, t, r, place, paths, budget)
  {
  }

  lemma FromPublished(s: Stores, t: Tools, b: Bundle, place: Place, p: Progress, r: Request, budget: nat)
    requires Agrees(t) && Inv(s, t) && Vacant(s, place) && Importable(b.components) && Of(r, b, place)
    requires p.writes == 1
    ensures Import(Published(s, t, b, place, p), t, r, budget) ==
            (At(s, t, b, place, Advance(p, r, budget)), Report(p, place.caseId, budget))
  {
    NoReviewYet(s, t, place);
    var (next, published) := (Advance(p, r, budget), Published(s, t, b, place, p));
    var paths := t.write(PublishedDraft(t, b, place, p)).1;
    PublishedChecks(t, b, place, p);
    PublishResumes(published, t, r, place, paths, budget);
    RegisterStep(published, t, b, place, r, paths, budget, next);
    assert Published(s, t, b, place, next) == published;
  }

  lemma FromRegistered(s: Stores, t: Tools, b: Bundle, place: Place, p: Progress, r: Request, budget: nat)
    requires Agrees(t) && Inv(s, t) && Vacant(s, place) && Importable(b.components) && Of(r, b, place)
    requires p.writes == 2
    ensures Import(Registered(Published(s, t, b, place, p), t, b, place, p), t, r, budget) ==
            (At(s, t, b, place, Advance(p, r, budget)), Report(p, place.caseId, budget))
  {
    NoReviewYet(s, t, place);
    PublishedChecks(t, b, place, p);
    var before := Registered(Published(s, t, b, place, p), t, b, place, p);
    var (dir, paths) := t.write(PublishedDraft(t, b, place, p));
    ReviewStep(before, t, dir, paths, place.runId, place.caseId, Filled(p.registrar, r.caller),
      AlreadyImported(place.caseId), budget, PacketOf(b, place.caseId, p.publisher.caller));
  }

  lemma FromReviewed(s: Stores, t: Tools, b: Bundle, place: Place, p: Progress, r: Request, budget: nat)
    requires Agrees(t) && Importable(b.components) && Of(r, b, place)
    requires p.writes == 3
    ensures Import(At(s, t, b, place, p), t, r, budget) == (At(s, t, b, place, p), AlreadyImported(place.caseId))
  {
    PublishedChecks(t, b, place, p);
    var before := At(s, t, b, place, p);
    assert before.reviews[ReviewId(place.runId)].runId == place.runId;
    assert HasReview(before.reviews, place.runId);
  }

  /** However far earlier imports came, the next one does exactly the missing writes. */
  lemma ImportAdvances(s: Stores, t: Tools, b: Bundle, place: Place, p: Progress, r: Request, budget: nat)
    requires Agrees(t) && Inv(s, t) && Vacant(s, place) && Importable(b.components) && Of(r, b, place)
    requires p.writes <= 3
    ensures Import(At(s, t, b, place, p), t, r, budget) ==
            (At(s, t, b, place, Advance(p, r, budget)), Report(p, place.caseId, budget))
  {
    if p.writes == 0 {
      FromNothing(s, t, b, place, p, r, budget);
    } else if p.writes == 1 {
      FromPublished(s, t, b, place, p, r, budget);
    } else if p.writes == 2 {
      FromRegistered(s, t, b, place, p, r, budget);
    } else {
      FromReviewed(s, t, b, place, p, r, budget);
    }
  }

  // ---------------------------------------------------------------------- convergence

  function ProgressAfter(requests: seq<Request>, budgets: seq<nat>, start: Request): Progress
    requires |budgets| == |requests|
  {
    if requests == [] then Progress(0, start, start.caller, start.caller)
    else
      var n := |requests| - 1;
      Advance(ProgressAfter(requests[..n], budgets[..n], start), requests[n], budgets[n])
  }

  predicate AllOf(requests: seq<Request>, b: Bundle, place: Place) {
    forall i :: 0 <= i < |requests| ==> Of(requests[i], b, place)
  }

  lemma {:induction false} SequenceProgress(
    t: Tools, states: seq<Stores>, requests: seq<Request>, budgets: seq<nat>, b: Bundle, place: Place, start: Request)
    requires Agrees(t) && Sequence(t, states, requests, budgets)
    requires Inv(states[0], t) && Vacant(states[0], place)
    requires Importable(b.components) && AllOf(requests, b, place)
    ensures ProgressAfter(requests, budgets, start).writes <= 3
    ensures states[|requests|] == At(states[0], t, b, place, ProgressAfter(requests, budgets, start))
  {
    if requests == [] {
    } else {
      var n := |requests| - 1;
      SequenceProgress(t, states[..n + 1], requests[..n], budgets[..n], b, place, start);
      ImportAdvances(states[0], t, b, place, ProgressAfter(requests[..n], budgets[..n], start), requests[n], budgets[n]);
    }
  }

  // The writes were made by callers of the sequence.
  ghost predicate Among(p: Progress, requests: seq<Request>) {
    && (p.writes >= 1 ==> p.publisher in requests)
    && (p.writes >= 2 ==> exists i :: 0 <= i < |requests| && requests[i].caller == p.registrar)
    && (p.writes >= 3 ==> exists i :: 0 <= i < |requests| && requests[i].caller == p.reviewer)
  }

  lemma {:induction false} ProgressAmong(requests: seq<Request>, budgets: seq<nat>, start: Request)
    requires |budgets| == |requests|
    ensures Among(ProgressAfter(requests, budgets, start), requests)
  {
    if requests == [] {
    } else {
      var n := |requests| - 1;
      ProgressAmong(requests[..n], budgets[..n], start);
      var p := ProgressAfter(requests[..n], budgets[..n], start);
      assert requests[n] in requests;
      if p.writes >= 1 {
        assert p.publisher in requests[..n];
      }
      if p.writes >= 2 {
        var i :| 0 <= i < n && requests[..n][i].caller == p.registrar;
        assert requests[i].caller == p.registrar;
      }
      if p.writes >= 3 {
        var i :| 0 <= i < n && requests[..n][i].caller == p.reviewer;
        assert requests[i].caller == p.reviewer;
      }
    }
  }

  // A single import that is not interrupted.
  lemma UncutImport(s: Stores, t: Tools, b: Bundle, place: Place, r: Request)
    requires Agrees(t) && Inv(s, t) && Vacant(s, place) && Importable(b.components) && Of(r, b, place)
    ensures Import(s, t, r, 3) == (At(s, t, b, place, Progress(3, r, r.caller, r.caller)), Imported(place.caseId))
  {
    ImportAdvances(s, t, b, place, Progress(0, r, r.caller, r.caller), r, 3);
  }

  /**
   * Where any sequence of interrupted imports of one bundle ends once an import runs to
   * its end: at the state of a single uninterrupted import, by the one that published the
   * snapshot, if and only if the run was registered for that same operator and workspace and
   * the one who finished filled in neither.
   */
  lemma Converges(
    t: Tools, states: seq<Stores>, requests: seq<Request>, budgets: seq<nat>, b: Bundle, place: Place, last: Request)
    requires Agrees(t) && Sequence(t, states, requests, budgets)
    requires Inv(states[0], t) && Vacant(states[0], place)
    requires Importable(b.components) && AllOf(requests, b, place) && Of(last, b, place)
    ensures var p := Advance(ProgressAfter(requests, budgets, last), last, 3);
      var (final, outcome) := Import(states[|requests|], t, last, 3);
      && (outcome == Imported(place.caseId) || outcome == AlreadyImported(place.caseId))
      && p.writes == 3 && Among(p, requests + [last])
      && final == At(states[0], t, b, place, p)
      && (final == Import(states[0], t, p.publisher, 3).0 <==>
            p.registrar == p.publisher.caller && Filled(p.registrar, p.reviewer) == p.registrar)
  {
    var all, cuts := requests + [last], budgets + [3];
    var before := ProgressAfter(requests, budgets, last);
    var p := Advance(before, last, 3);
    SequenceProgress(t, states, requests, budgets, b, place, last);
    ImportAdvances(states[0], t, b, place, before, last, 3);
    assert all[..|requests|] == requests && cuts[..|requests|] == budgets;
    assert ProgressAfter(all, cuts, last) == p;
    ProgressAmong(all, cuts, last);
    assert Of(p.publisher, b, place) by {
      var i :| 0 <= i < |all| && all[i] == p.publisher;
    }
    UncutImport(states[0], t, b, place, p.publisher);
    SameCallers(states[0], t, b, place, p);
  }

  lemma SameCallers(s: Stores, t: Tools, b: Bundle, place: Place, p: Progress)
    requires p.writes == 3
    ensures var uncut := Progress(3, p.publisher, p.publisher.caller, p.publisher.caller);
      At(s, t, b, place, p) == At(s, t, b, place, uncut) <==>
        p.registrar == p.publisher.caller && Filled(p.registrar, p.reviewer) == p.registrar
  {
    var uncut := Progress(3, p.publisher, p.publisher.caller, p.publisher.caller);
    var (mine, theirs) := (At(s, t, b, place, p), At(s, t, b, place, uncut));
    assert mine.runs[place.runId] == EntryOf(t, b, place, p.registrar);
    assert theirs.runs[place.runId] == EntryOf(t, b, place, p.publisher.caller);
    PacketNamesCaller(b, place.caseId, p.publisher.caller);
    var packet := PacketOf(b, place.caseId, p.publisher.caller);
    var id := ReviewId(place.runId);
    assert mine.reviews[id] == ReviewOf(place.runId, place.caseId, Filled(p.registrar, p.reviewer), packet);
    assert theirs.reviews[id] == ReviewOf(place.runId, place.caseId, p.publisher.caller, packet);
  }

  lemma PacketNamesCaller(b: Bundle, caseId: string, caller: Caller)
    ensures forall fallback ::
      && Or(PacketOf(b, caseId, caller), "assigned_to", Text(fallback)) == Text(OrElse(caller.operatorId, fallback))
      && Or(PacketOf(b, caseId, caller), "workspace_id", Text(fallback)) == Text(OrElse(caller.workspaceId, fallback))
  {
    assert |"assigned_to"| == 11 && |"workspace_id"| == 12 && |"review_reasons"| == 14;
  }

  /** With one and the same caller throughout, every sequence converges. */
  lemma OneCallerConverges(
    t: Tools, states: seq<Stores>, requests: seq<Request>, budgets: seq<nat>, b: Bundle, place: Place, last: Request)
    requires Agrees(t) && Sequence(t, states, requests, budgets)
    requires Inv(states[0], t) && Vacant(states[0], place)
    requires Importable(b.components) && AllOf(requests, b, place) && Of(last, b, place)
    requires forall i :: 0 <= i < |requests| ==> requests[i].caller == last.caller
    ensures exists r :: r in requests + [last] &&
              Import(states[|requests|], t, last, 3).0 == Import(states[0], t, r, 3).0
  {
    Converges(t, states, requests, budgets, b, place, last);
    var p := Advance(ProgressAfter(requests, budgets, last), last, 3);
    var all := requests + [last];
    assert p.publisher in all;
    forall i | 0 <= i < |all|
      ensures all[i].caller == last.caller
    {
    }
  }

  /**
   * With two callers it may not: if one publishes and stops and another finishes, the
   * outcome is neither's uninterrupted import.
   */
  lemma TwoCallersDiverge(s: Stores, t: Tools, b: Bundle, place: Place, first: Request, second: Request)
    requires Agrees(t) && Inv(s, t) && Vacant(s, place) && Importable(b.components)
    requires Of(first, b, place) && Of(second, b, place) && first.caller != second.caller
    ensures var final := Import(Import(s, t, first, 1).0, t, second, 3).0;
      final != Import(s, t, first, 3).0 && final != Import(s, t, second, 3).0
  {
    var start := Progress(0, first, first.caller, first.caller);
    var published := Advance(start, first, 1);
    ImportAdvances(s, t, b, place, start, first, 1);
    ImportAdvances(s, t, b, place, published, second, 3);
    var mixed := Progress(3, first, second.caller, second.caller);
    assert Advance(published, second, 3) == mixed;
    UncutImport(s, t, b, place, first);
    UncutImport(s, t, b, place, second);
    SameCallers(s, t, b, place, mixed);
    var other := Progress(3, second, second.caller, second.caller);
    SnapshotsNamePublisher(t, b, place, mixed, other);
    assert At(s, t, b, place, mixed).snapshots[place] == t.write(PublishedDraft(t, b, place, mixed)).0;
    assert At(s, t, b, place, other).snapshots[place] == t.write(PublishedDraft(t, b, place, other)).0;
  }

  // Snapshots published by different callers differ.
  lemma SnapshotsNamePublisher(t: Tools, b: Bundle, place: Place, p: Progress, q: Progress)
    requires Agrees(t) && Importable(b.components) && place.runId == RunId(b)
    requires p.publisher.caller != q.publisher.caller
    ensures t.write(PublishedDraft(t, b, place, p)).0 != t.write(PublishedDraft(t, b, place, q)).0
  {
    PublishedChecks(t, b, place, p);
    PublishedChecks(t, b, place, q);
    PacketsDiffer(b, place.caseId, p.publisher.caller, q.publisher.caller);
  }

  lemma PacketsDiffer(b: Bundle, caseId: string, one: Caller, other: Caller)
    requires one != other
    ensures PacketOf(b, caseId, one) != PacketOf(b, caseId, other)
  {
    CallerOf(b, caseId, one);
    CallerOf(b, caseId, other);
  }

  lemma CallerOf(b: Bundle, caseId: string, caller: Caller)
    ensures var packet := PacketOf(b, caseId, caller);
      && "assigned_to" in packet && packet["assigned_to"] == Text(caller.operatorId)
      && "workspace_id" in packet && packet["workspace_id"] == Text(caller.workspaceId)
  {
    assert |"assigned_to"| == 11 && |"workspace_id"| == 12 && |"review_reasons"| == 14;
  }

  // The same entries, except perhaps under `key`.
  ghost predicate DifferOnlyAt(m: Record, n: Record, key: string) {
    forall k :: k != key ==> (k in m <==> k in n) && (k in m ==> m[k] == n[k])
  }

  lemma UpdateBoth(m: Record, n: Record, key: string, k: string, v: Value)
    requires DifferOnlyAt(m, n, key)
    ensures DifferOnlyAt(m[k := v], n[k := v], key)
  {
  }

  lemma ManifestsDifferOnlyAt(lib: Library, d: Draft, e: Draft, artifacts: seq<Artifact>, key: string)
    requires d.(rest := e.rest) == e && DifferOnlyAt(d.rest, e.rest, key)
    ensures DifferOnlyAt(ManifestOf(lib, d, artifacts), ManifestOf(lib, e, artifacts), key)
  {
    var (caseId, runId, evidence) := (Text(d.caseId), Text(d.runId), Text(lib.sha(d.sources.manifest)));
    var (m1, n1) := (d.rest["case_id" := caseId], e.rest["case_id" := caseId]);
    var (m2, n2) := (m1["run_id" := runId], n1["run_id" := runId]);
    var (m3, n3) := (m2[EVIDENCE := evidence], n2[EVIDENCE := evidence]);
    UpdateBoth(d.rest, e.rest, key, "case_id", caseId);
    UpdateBoth(m1, n1, key, "run_id", runId);
    UpdateBoth(m2, n2, key, EVIDENCE, evidence);
    UpdateBoth(m3, n3, key, PATHS, Dict(Texts(PathsOf(artifacts))));
    UpdateBoth(m3[PATHS := Dict(Texts(PathsOf(artifacts)))], n3[PATHS := Dict(Texts(PathsOf(artifacts)))],
      key, CHECKSUMS, Dict(ChecksumsOf(lib, artifacts)));
  }

  /** Two uncut imports by one caller differ in nothing but the time in the run manifest. */
  lemma OnlyTimeDiffers(t: Tools, lib: Library, b: Bundle, caseId: string, caller: Caller, now: string, later: string)
    ensures var (d, e) := (DraftOf(t, b, caseId, caller, now), DraftOf(t, b, caseId, caller, later));
      var (m, n) := (ManifestOf(lib, d, Artifacts(lib, d)), ManifestOf(lib, e, Artifacts(lib, e)));
      && PathsOf(Artifacts(lib, d)) == PathsOf(Artifacts(lib, e))
      && SnapshotOf(lib, d) == SnapshotOf(lib, e)[MANIFEST_FILE := lib.dump(m)]
      && DifferOnlyAt(m, n, "imported_at_utc")
  {
    var (d, e) := (DraftOf(t, b, caseId, caller, now), DraftOf(t, b, caseId, caller, later));
    assert DifferOnlyAt(d.rest, e.rest, "imported_at_utc");
    SameArtifactsLater(lib, d, e.rest);
    ManifestsDifferOnlyAt(lib, d, e, Artifacts(lib, d), "imported_at_utc");
  }

  lemma SameArtifactsLater(lib: Library, d: Draft, rest: Record)
    ensures Artifacts(lib, d) == Artifacts(lib, d.(rest := rest))
  {
    var e := d.(rest := rest);
    assert BaseContents(lib, d) == BaseContents(lib, e);
    forall i | 0 <= i < 12
      ensures BaseArtifacts(lib, d)[i] == BaseArtifacts(lib, e)[i]
    {
    }
    assert BaseArtifacts(lib, d) == BaseArtifacts(lib, e);
  }
}
