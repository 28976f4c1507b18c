/**
 * What requests succeed with, along whole runs: a handoff can be approved and claimed, and
 * its session used, for as long as it should.
 */
module CapabilityFlow {
  import opened Common
  import opened CapabilityState
  import opened CapabilityLaws
  import opened CapabilityRuns

  // ---------------------------------------------------------- one entry, one request

  // Entry `p` of the table, not claimed yet.
  predicate EntryAt(s: State, p: nat, h: HandoffValue) {
    p < |s.handoffs| && s.handoffs[p] == h && !h.used
  }

  // How many entries came after it.
  function Younger(s: State, p: nat): int {
    |s.handoffs| - 1 - p
  }

  // The request leaves entry `h` in the table, unclaimed.
  ghost predicate Spares(s: State, p: nat, h: HandoffValue, r: Request) {
    && !OperatorRotation(s, r)
    && !(r.ClaimHandoff? && r.handoffId == h.id && Step(s, r).1.Issued?)
    && (r.CreateHandoff? ==> r.now < h.expiresAt && Younger(s, p) < 15)
  }

  lemma {:induction false} LiveKeepsEntry(handoffs: seq<HandoffValue>, now: real, p: nat) returns (q: nat)
    requires p < |handoffs| && Live(handoffs[p], now)
    ensures var live := LiveHandoffs(handoffs, now);
      q < |live| && live[q] == handoffs[p] && |live| - 1 - q <= |handoffs| - 1 - p
  {
    var last := |handoffs| - 1;
    if p == last {
      q := |LiveHandoffs(handoffs[..last], now)|;
    } else {
      q := LiveKeepsEntry(handoffs[..last], now, p);
    }
  }

  // Room is made at the front, so an entry with fewer than fifteen after it stays.
  lemma RoomKeepsEntry(live: seq<HandoffValue>, q: nat, last: HandoffValue) returns (p: nat)
    requires q < |live| <= MAX_HANDOFFS && |live| - 1 - q < 15
    ensures var next := (if |live| == MAX_HANDOFFS then live[1..] else live) + [last];
      p < |next| && next[p] == live[q] && |next| - 1 - p <= |live| - q
  {
    p := if |live| == MAX_HANDOFFS then q - 1 else q;
  }

  lemma CreateKeepsEntry(s: State, p: nat, h: HandoffValue, r: Request) returns (q: nat)
    requires Sound(s) && ByExpiry(s.handoffs) && EntryAt(s, p, h) && r.CreateHandoff? && Spares(s, p, h, r)
    ensures var s2 := Step(s, r).0; EntryAt(s2, q, h) && Younger(s2, q) <= Younger(s, p) + 1
  {
    var live := LiveHandoffs(s.handoffs, r.now);
    q := LiveKeepsEntry(s.handoffs, r.now, p);
    if !s.bootstrapRevoked {
      LiveIsSubset(s.handoffs, r.now);
      RoomIsTail(s.handoffs, r.now);
      q := RoomKeepsEntry(live, q, HandoffValue(r.newHandoff, Sha256(r.claimToken), r.now + s.bootstrapTtl, false, false));
    }
  }

  function Approving(h: HandoffValue, r: Request, o: Outcome): HandoffValue {
    if ApprovalOf(r, o, h.id) then h.(approved := true) else h
  }

  lemma FoundEntry(handoffs: seq<HandoffValue>, p: nat)
    requires UniqueIds(handoffs) && p < |handoffs|
    ensures FindHandoff(handoffs, handoffs[p].id) == Some(p)
  {
  }

  lemma OtherKeepsEntry(s: State, p: nat, h: HandoffValue, r: Request)
    requires UniqueIds(s.handoffs) && EntryAt(s, p, h) && !r.CreateHandoff? && Spares(s, p, h, r)
    ensures var (s2, o) := Step(s, r); EntryAt(s2, p, Approving(h, r, o)) && Younger(s2, p) == Younger(s, p)
  {
    FoundEntry(s.handoffs, p);
  }

  // ------------------------------------------------------------------ along a run

  // How many handoff requests come at or after `i` and before `n`.
  function Creations(run: Run, i: nat, n: nat): nat
    requires Shaped(run) && i <= n <= |run.requests|
    decreases n
  {
    if i == n then 0 else Creations(run, i, n - 1) + if run.requests[n - 1].CreateHandoff? then 1 else 0
  }

  // When the handoff requested at `i` expires.
  function ExpiryOf(run: Run, i: nat): real
    requires Shaped(run) && i < |run.requests| && run.requests[i].CreateHandoff?
  {
    run.requests[i].now + run.states[0].bootstrapTtl
  }

  predicate ApprovedBetween(run: Run, i: nat, n: nat, id: string)
    requires Shaped(run) && n <= |run.requests|
  {
    exists k :: i <= k < n && ApprovesAt(run, k, id)
  }

  // The handoff requested at `i` is still there before request `n`: nothing has revoked,
  // claimed or outlived it, and fewer than sixteen came after it.
  ghost predicate Pending(run: Run, i: nat, n: nat)
    requires Shaped(run)
  {
    && i < n <= |run.requests| && run.requests[i].CreateHandoff? && run.outcomes[i].Created?
    && NoRotation(run, i + 1, n) && Creations(run, i + 1, n) <= 15
    && forall k :: i < k < n ==> Untaken(run, i, k)
  }

  ghost predicate Untaken(run: Run, i: nat, k: nat)
    requires Shaped(run) && i < |run.requests| && k < |run.requests| && run.requests[i].CreateHandoff?
  {
    && (run.requests[k].CreateHandoff? ==> run.requests[k].now < ExpiryOf(run, i))
    && !(ClaimsAt(run, k) && run.requests[k].handoffId == run.requests[i].newHandoff)
  }

  // What the table holds for it.
  function PendingEntry(run: Run, i: nat, n: nat): HandoffValue
    requires Shaped(run) && i < n <= |run.requests| && run.requests[i].CreateHandoff?
  {
    var r := run.requests[i];
    HandoffValue(r.newHandoff, Sha256(r.claimToken), ExpiryOf(run, i), ApprovedBetween(run, i + 1, n, r.newHandoff), false)
  }

  lemma CreatedEntry(run: Run, i: nat) returns (p: nat)
    requires Execution(run) && i < |run.requests| && run.requests[i].CreateHandoff? && run.outcomes[i].Created?
    ensures EntryAt(run.states[i + 1], p, PendingEntry(run, i, i + 1)) && Younger(run.states[i + 1], p) == 0
  {
    ExecutionIsLawful(run);
    LifetimesFixed(run, i);
    assert StepsAt(run, i);
    p := |run.states[i + 1].handoffs| - 1;
  }

  lemma ApprovedOneMore(run: Run, i: nat, n: nat)
    requires Shaped(run) && i < n < |run.requests| && run.requests[i].CreateHandoff?
    ensures PendingEntry(run, i, n + 1) == Approving(PendingEntry(run, i, n), run.requests[n], run.outcomes[n])
  {
    var id := run.requests[i].newHandoff;
    assert ApprovedBetween(run, i + 1, n + 1, id) <==> ApprovedBetween(run, i + 1, n, id) || ApprovesAt(run, n, id);
  }

  lemma {:induction false} PendingIsThere(run: Run, i: nat, n: nat) returns (p: nat)
    requires Execution(run) && FreshIds(run) && Clocked(run) && Pending(run, i, n)
    ensures EntryAt(run.states[n], p, PendingEntry(run, i, n))
    ensures Younger(run.states[n], p) <= Creations(run, i + 1, n)
    decreases n
  {
    if n == i + 1 {
      p := CreatedEntry(run, i);
    } else {
      p := PendingIsThere(run, i, n - 1);
      ExecutionIsLawful(run);
      SoundUpTo(run, n - 1);
      TableIdsUnique(run, n - 1);
      TableInExpiryOrder(run, n - 1);
      assert StepsAt(run, n - 1) && Untaken(run, i, n - 1) && !RotatesAt(run, n - 1);
      ApprovedOneMore(run, i, n - 1);
      p := StepKeepsEntry(run, i, n - 1, p);
    }
  }

  lemma StepKeepsEntry(run: Run, i: nat, n: nat, p: nat) returns (q: nat)
    requires Shaped(run) && i < n < |run.requests| && run.requests[i].CreateHandoff? && StepsAt(run, n)
    requires Sound(run.states[n]) && UniqueIds(run.states[n].handoffs) && ByExpiry(run.states[n].handoffs)
    requires EntryAt(run.states[n], p, PendingEntry(run, i, n))
    requires Younger(run.states[n], p) <= Creations(run, i + 1, n) && Creations(run, i + 1, n + 1) <= 15
    requires Untaken(run, i, n) && !RotatesAt(run, n)
    ensures EntryAt(run.states[n + 1], q, Approving(PendingEntry(run, i, n), run.requests[n], run.outcomes[n]))
    ensures Younger(run.states[n + 1], q) <= Creations(run, i + 1, n + 1)
  {
    var (s, r, h) := (run.states[n], run.requests[n], PendingEntry(run, i, n));
    if r.CreateHandoff? {
      q := CreateKeepsEntry(s, p, h, r);
    } else {
      OtherKeepsEntry(s, p, h, r);
      q := p;
    }
  }

  lemma PendingFound(run: Run, i: nat, n: nat) returns (p: nat)
    requires Execution(run) && FreshIds(run) && Clocked(run) && Pending(run, i, n)
    ensures p < |run.states[n].handoffs| && run.states[n].handoffs[p] == PendingEntry(run, i, n)
    ensures FindHandoff(run.states[n].handoffs, run.requests[i].newHandoff) == Some(p)
  {
    ExecutionIsLawful(run);
    p := PendingIsThere(run, i, n);
    TableIdsUnique(run, n);
    FoundEntry(run.states[n].handoffs, p);
  }

  lemma PendingIsOpen(run: Run, i: nat, n: nat)
    requires Execution(run) && FreshIds(run) && Clocked(run) && Pending(run, i, n)
    ensures !run.states[n].bootstrapRevoked
  {
    var p := PendingFound(run, i, n);
    SoundUpTo(run, n);
  }

  // --------------------------------------------------------------- the four requests

  /** A handoff can be requested exactly while the channel is not revoked. */
  lemma CreatedExactly(run: Run, n: nat)
    requires Execution(run) && n < |run.requests| && run.requests[n].CreateHandoff?
    ensures run.outcomes[n] ==
      if run.states[n].bootstrapRevoked then Refused
      else Created(run.requests[n].newHandoff, Whole(run.states[0].bootstrapTtl))
  {
    ExecutionIsLawful(run);
    LifetimesFixed(run, n);
    assert StepsAt(run, n);
  }

  // Whole seconds, at least one.
  function Whole(seconds: real): int {
    if seconds < 1.0 then 1 else seconds.Floor
  }

  /** A pending handoff is approved exactly with the current bootstrap token and in time. */
  lemma ApprovedExactly(run: Run, i: nat, n: nat)
    requires Execution(run) && FreshIds(run) && Clocked(run) && Pending(run, i, n) && n < |run.requests|
    requires run.requests[n].ApproveHandoff? && run.requests[n].handoffId == run.requests[i].newHandoff
    ensures run.outcomes[n] ==
      if Sha256(run.requests[n].token) == run.states[n].bootstrapDigest && run.requests[n].now < ExpiryOf(run, i)
      then Done else Refused
  {
    var p := PendingFound(run, i, n);
    PendingIsOpen(run, i, n);
    assert StepsAt(run, n);
  }

  /**
   * A pending handoff is claimed exactly once it is approved, with its own claim token and in
   * time; the claim issues the session it draws.
   */
  lemma ClaimedExactly(run: Run, i: nat, n: nat)
    requires Execution(run) && FreshIds(run) && Clocked(run) && Pending(run, i, n) && n < |run.requests|
    requires run.requests[n].ClaimHandoff? && run.requests[n].handoffId == run.requests[i].newHandoff
    ensures run.outcomes[n] ==
      if && ApprovedBetween(run, i + 1, n, run.requests[i].newHandoff)
         && run.requests[n].claimToken == run.requests[i].claimToken && run.requests[n].now < ExpiryOf(run, i)
      then Issued(run.requests[n].newSession, run.requests[n].csrf, Whole(run.states[0].sessionTtl)) else Refused
  {
    var p := PendingFound(run, i, n);
    ExecutionIsLawful(run);
    LifetimesFixed(run, n);
    assert StepsAt(run, n);
  }

  /** A direct exchange issues the session it draws, or is refused. */
  lemma ExchangedExactly(run: Run, n: nat)
    requires Execution(run) && n < |run.requests| && run.requests[n].ExchangeBootstrap?
    ensures var (s, r) := (run.states[n], run.requests[n]);
      run.outcomes[n] ==
        if !s.bootstrapRevoked && !s.bootstrapUsed && r.now < s.bootstrapExpiresAt && Sha256(r.token) == s.bootstrapDigest
        then Issued(r.newSession, r.csrf, Whole(run.states[0].sessionTtl)) else Refused
  {
    ExecutionIsLawful(run);
    LifetimesFixed(run, n);
    assert StepsAt(run, n);
  }

  lemma {:induction false} LiveExactly(handoffs: seq<HandoffValue>, now: real)
    ensures forall h :: h in LiveHandoffs(handoffs, now) <==> h in handoffs && !h.used && now < h.expiresAt
  {
    if handoffs == [] {
    } else {
      var (before, last) := (handoffs[..|handoffs| - 1], handoffs[|handoffs| - 1]);
      LiveExactly(before, now);
      assert handoffs == before + [last];
    }
  }

  // What a table becomes when room is made for a new entry.
  lemma ClearedTable(handoffs: seq<HandoffValue>, now: real, entry: HandoffValue, h: HandoffValue)
    requires |handoffs| <= 16
    ensures var live := LiveHandoffs(handoffs, now);
      var next := (if |live| == 16 then live[1..] else live) + [entry];
      && (h in next ==> h == entry || (h in handoffs && !h.used && now < h.expiresAt))
      && (h in handoffs && !h.used && now < h.expiresAt ==> h in next || EarliestOfSixteen(handoffs, h))
  {
    var live := LiveHandoffs(handoffs, now);
    LiveExactly(handoffs, now);
    LiveIsSubset(handoffs, now);
    if |live| == 16 {
      LiveIsAll(handoffs, now);
      assert live == [live[0]] + live[1..];
    }
  }

  /**
   * A handoff request clears the table of all that is claimed or expired and keeps the rest,
   * but for the earliest of sixteen.
   */
  lemma RequestClearsTable(run: Run, n: nat, h: HandoffValue)
    requires Execution(run) && Clocked(run) && n < |run.requests|
    requires run.requests[n].CreateHandoff? && run.outcomes[n].Created?
    ensures h in run.states[n + 1].handoffs ==>
      CreatedHere(run.states[n], run.requests[n], h) ||
      (h in run.states[n].handoffs && !h.used && run.requests[n].now < h.expiresAt)
    ensures h in run.states[n].handoffs && !h.used && run.requests[n].now < h.expiresAt ==>
      h in run.states[n + 1].handoffs || EarliestOfSixteen(run.states[n].handoffs, h)
  {
    EvictsTheEarliest(run, n);
    SoundUpTo(run, n);
    var (s, r) := (run.states[n], run.requests[n]);
    ClearedTable(s.handoffs, r.now,
      HandoffValue(r.newHandoff, Sha256(r.claimToken), r.now + s.bootstrapTtl, false, false), h);
  }

  lemma {:induction false} LiveIsAll(handoffs: seq<HandoffValue>, now: real)
    requires |LiveHandoffs(handoffs, now)| >= |handoffs|
    ensures LiveHandoffs(handoffs, now) == handoffs
  {
    if handoffs == [] {
    } else {
      LiveIsSubset(handoffs[..|handoffs| - 1], now);
      LiveIsAll(handoffs[..|handoffs| - 1], now);
    }
  }

  predicate EarliestOfSixteen(handoffs: seq<HandoffValue>, h: HandoffValue) {
    |handoffs| == 16 && handoffs[0] == h
  }

  // ------------------------------------------------------------------------ sessions

  // Session ids are drawn afresh each time.
  ghost predicate FreshSessions(run: Run) {
    forall i, j :: 0 <= i < j < |run.requests| && Draws(run.requests[i]) && Draws(run.requests[j])
      ==> run.requests[i].newSession != run.requests[j].newSession
  }

  predicate Draws(r: Request) {
    r.ExchangeBootstrap? || r.ClaimHandoff?
  }

  // When the session issued at `i` ends.
  function EndOf(run: Run, i: nat): real
    requires Shaped(run) && i < |run.requests| && Draws(run.requests[i])
  {
    run.requests[i].issueAt + run.states[0].sessionTtl
  }

  // The session issued at `i` is still there before request `n`: no operator rotation has
  // happened and nobody has shown it after its end.
  ghost predicate Lasting(run: Run, i: nat, n: nat)
    requires Shaped(run)
  {
    && i < n <= |run.requests| && Draws(run.requests[i]) && IssuesAt(run, i) && NoRotation(run, i + 1, n)
    && forall k :: i < k < n && Shows(run.requests[k], run.requests[i].newSession) ==> run.requests[k].now < EndOf(run, i)
  }

  predicate Shows(r: Request, id: string) {
    r.AuthenticateSession? && r.sessionId == Some(id)
  }

  lemma LastingStep(run: Run, i: nat, n: nat)
    requires Lawful(run) && i < n < |run.requests| && StepsAt(run, n)
    requires FreshSessions(run) && Lasting(run, i, n + 1) && Has(run, i, n)
    ensures Has(run, i, n + 1)
  {
    var id := run.requests[i].newSession;
    assert LawfulAt(run, n) && !RotatesAt(run, n);
    if Draws(run.requests[n]) {
      assert run.requests[n].newSession != id;
    }
  }

  // The table holds the session issued at `i`, of the current generation.
  predicate Has(run: Run, i: nat, n: nat)
    requires Shaped(run) && i < |run.requests| && n < |run.states| && Draws(run.requests[i])
  {
    var (id, s) := (run.requests[i].newSession, run.states[n]);
    id in s.sessions && s.sessions[id] == Session(run.requests[i].csrf, EndOf(run, i), s.operatorGeneration)
  }

  lemma {:induction false} LastingIsThere(run: Run, i: nat, n: nat)
    requires Execution(run) && FreshSessions(run) && Lasting(run, i, n)
    ensures Has(run, i, n)
    decreases n
  {
    ExecutionIsLawful(run);
    LifetimesFixed(run, i);
    if n == i + 1 {
      assert StepsAt(run, i);
    } else {
      LastingIsThere(run, i, n - 1);
      assert StepsAt(run, n - 1);
      LastingStep(run, i, n - 1);
    }
  }

  // A session in the table is a lasting one.
  lemma {:induction false} InTableIsLasting(run: Run, n: nat, id: string) returns (i: nat)
    requires Execution(run) && FreshSessions(run) && n <= |run.requests| && id != "" && id in run.states[n].sessions
    ensures Lasting(run, i, n) && run.requests[i].newSession == id
    decreases n
  {
    ExecutionIsLawful(run);
    assert StepsAt(run, n - 1) && LawfulAt(run, n - 1) && !RotatesAt(run, n - 1);
    if IssuedHere(run.states[n - 1], run.requests[n - 1], run.states[n], run.outcomes[n - 1], id) {
      i := n - 1;
    } else {
      i := InTableIsLasting(run, n - 1, id);
      LastingIsThere(run, i, n - 1);
      assert Shows(run.requests[n - 1], id) ==> run.requests[n - 1].now < EndOf(run, i);
    }
  }

  /**
   * A session authenticates if and only if it was issued in this run, no operator rotation
   * has happened since, it was never shown after its end, and it has not ended now; the
   * principal is the operator's, of the current generation.
   */
  lemma AuthenticatesExactly(run: Run, n: nat, id: string)
    requires Execution(run) && FreshSessions(run) && n < |run.requests| && id != ""
    requires Shows(run.requests[n], id)
    ensures run.outcomes[n] != NotAuthenticated <==>
      exists i: nat :: Lasting(run, i, n) && run.requests[i].newSession == id && run.requests[n].now < EndOf(run, i)
    ensures run.outcomes[n] != NotAuthenticated ==>
      run.outcomes[n] == Authenticated(Principal(OperatorConsole, "default-workspace", "operator-console",
        "local-actuary", run.states[n].operatorGeneration, Some(id)))
  {
    assert StepsAt(run, n);
    if id in run.states[n].sessions {
      var i := InTableIsLasting(run, n, id);
      LastingIsThere(run, i, n);
      forall j: nat | Lasting(run, j, n) && run.requests[j].newSession == id
        ensures j == i
      {
        assert i == j || i < j || j < i;
      }
    } else {
      forall j: nat | Lasting(run, j, n) && run.requests[j].newSession == id
        ensures false
      {
        LastingIsThere(run, j, n);
      }
    }
  }
}
