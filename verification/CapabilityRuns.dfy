/** Whole runs of the authority: safety and accounting in every reachable state. */
module CapabilityRuns {
  import opened Common
  import opened CapabilityState
  import opened CapabilityLaws

  datatype Run = Run(states: seq<State>, requests: seq<Request>, outcomes: seq<Outcome>)

  // An authority as just constructed.
  ghost predicate Fresh(s: State) {
    && s.operatorDigest != s.adkDigest
    && !s.bootstrapUsed && !s.bootstrapRevoked
    && s.sessions == map[] && s.handoffs == []
  }

  predicate Shaped(run: Run) {
    |run.states| == |run.requests| + 1 == |run.outcomes| + 1
  }

  // Request `k` is one step of the machine.
  ghost predicate StepsAt(run: Run, k: nat)
    requires Shaped(run) && k < |run.requests|
  {
    Step(run.states[k], run.requests[k]) == (run.states[k + 1], run.outcomes[k])
  }

  // A run of the authority from its construction.
  ghost predicate Execution(run: Run) {
    && Shaped(run)
    && Fresh(run.states[0])
    && forall k :: 0 <= k < |run.requests| ==> StepsAt(run, k)
  }

  lemma InitialIsFresh(
    operatorCredential: string, adkCredential: string, token: string,
    sessionTtl: real, bootstrapTtl: real, now: real)
    requires Initial(operatorCredential, adkCredential, token, sessionTtl, bootstrapTtl, now).Ok?
    ensures Fresh(Initial(operatorCredential, adkCredential, token, sessionTtl, bootstrapTtl, now).value)
  {
  }

  ghost predicate LawfulAt(run: Run, k: nat)
    requires Shaped(run) && k < |run.requests|
  {
    var s, r, s2, o := run.states[k], run.requests[k], run.states[k + 1], run.outcomes[k];
    && Sound(s) && Sound(s2)
    && FlagLaw(s, r, s2, o) && GrantLaw(s, r, s2, o) && EntryLaw(s, r, s2, o)
    && TableLaw(s, r, s2, o) && SessionLaw(s, r, s2, o) && OrderLaw(s, r, s2, o)
  }

  // What the theorems below rest on: every step of a run obeys the laws.
  ghost predicate Lawful(run: Run) {
    && Shaped(run)
    && Fresh(run.states[0])
    && forall k :: 0 <= k < |run.requests| ==> LawfulAt(run, k)
  }

  lemma {:induction false} SoundUpTo(run: Run, k: nat)
    requires Execution(run) && k <= |run.requests|
    ensures Sound(run.states[k])
  {
    if k == 0 {
    } else {
      SoundUpTo(run, k - 1);
      assert StepsAt(run, k - 1);
      StepSound(run.states[k - 1], run.requests[k - 1]);
    }
  }

  lemma ExecutionStepLawful(run: Run, k: nat)
    requires Execution(run) && k < |run.requests|
    ensures LawfulAt(run, k)
  {
    var s, r := run.states[k], run.requests[k];
    SoundUpTo(run, k);
    SoundUpTo(run, k + 1);
    assert StepsAt(run, k);
    StepFlags(s, r);
    StepGrants(s, r);
    StepEntries(s, r);
    StepTable(s, r);
    StepSessions(s, r);
    StepOrder(s, r);
  }

  // Every state of every run is sound, and every step obeys the laws.
  lemma ExecutionIsLawful(run: Run)
    requires Execution(run)
    ensures Lawful(run)
  {
    forall k | 0 <= k < |run.requests| ensures LawfulAt(run, k) {
      ExecutionStepLawful(run, k);
    }
  }

  // Handoff ids are drawn afresh each time.
  ghost predicate FreshIds(run: Run) {
    forall i, j :: 0 <= i < j < |run.requests| && run.requests[i].CreateHandoff? && run.requests[j].CreateHandoff?
      ==> run.requests[i].newHandoff != run.requests[j].newHandoff
  }

  ghost predicate RearmsAt(run: Run, k: nat)
    requires Shaped(run) && k < |run.requests|
  {
    Rearms(run.states[k], run.requests[k])
  }

  ghost predicate RotatesAt(run: Run, k: nat)
    requires Shaped(run) && k < |run.requests|
  {
    OperatorRotation(run.states[k], run.requests[k])
  }

  predicate IssuesAt(run: Run, k: nat)
    requires Shaped(run) && k < |run.requests|
  {
    run.outcomes[k].Issued?
  }

  predicate ExchangesAt(run: Run, k: nat)
    requires Shaped(run) && k < |run.requests|
  {
    run.requests[k].ExchangeBootstrap? && IssuesAt(run, k)
  }

  predicate ClaimsAt(run: Run, k: nat)
    requires Shaped(run) && k < |run.requests|
  {
    run.requests[k].ClaimHandoff? && IssuesAt(run, k)
  }

  predicate ApprovesAt(run: Run, k: nat, id: string)
    requires Shaped(run) && k < |run.requests|
  {
    ApprovalOf(run.requests[k], run.outcomes[k], id)
  }

  ghost predicate NoRearm(run: Run, i: nat, j: nat)
    requires Shaped(run) && j <= |run.requests|
  {
    forall k :: i <= k < j ==> !RearmsAt(run, k)
  }

  ghost predicate NoRotation(run: Run, i: nat, j: nat)
    requires Shaped(run) && j <= |run.requests|
  {
    forall k :: i <= k < j ==> !RotatesAt(run, k)
  }

  // ------------------------------------------------------ the bootstrap channel

  // A bearer token never proves both capabilities.
  lemma BearerUnambiguous(run: Run, n: nat, secret: string)
    requires Execution(run) && n <= |run.requests|
    ensures var s := run.states[n];
      AuthenticateBearer(s, Some("Bearer " + secret)) ==
        if Sha256(secret) == s.adkDigest then Some(PrincipalOf(AdkDeveloper, s.adkGeneration, None))
        else if Sha256(secret) == s.operatorDigest then Some(PrincipalOf(OperatorConsole, s.operatorGeneration, None))
        else None
  {
    SoundUpTo(run, n);
    assert ("Bearer " + secret)[7..] == secret;
  }

  lemma {:induction false} FlagsStay(run: Run, i: nat, j: nat)
    requires Lawful(run) && i <= j <= |run.requests| && NoRearm(run, i, j)
    ensures run.states[i].bootstrapUsed ==> run.states[j].bootstrapUsed
    ensures run.states[i].bootstrapRevoked ==> run.states[j].bootstrapRevoked
    decreases j
  {
    if i == j {
    } else {
      FlagsStay(run, i, j - 1);
      assert LawfulAt(run, j - 1) && !RearmsAt(run, j - 1);
    }
  }

  // From a revocation until the next re-arming rotation nothing is issued,
  // created, approved or authenticated, and both tables stay empty.
  lemma RevokedChannelIsClosed(run: Run, i: nat, j: nat)
    requires Execution(run) && i <= j < |run.requests|
    requires run.states[i].bootstrapRevoked && NoRearm(run, i, j)
    ensures run.states[j].sessions == map[] && run.states[j].handoffs == []
    ensures var o := run.outcomes[j];
      && !o.Issued? && !o.Created? && !o.Authenticated?
      && (o == Done ==> run.requests[j].Rotate?)
  {
    ExecutionIsLawful(run);
    FlagsStay(run, i, j);
    assert LawfulAt(run, j);
  }

  // An operator rotation always empties both tables and bumps the generation; it
  // revokes the channel unless it re-arms it, even when a weak new token has it refused.
  lemma RotationRevokes(run: Run, k: nat)
    requires Execution(run) && k < |run.requests| && RotatesAt(run, k)
    ensures var s, s2 := run.states[k], run.states[k + 1];
      && s2.sessions == map[] && s2.handoffs == []
      && s2.bootstrapRevoked == s2.bootstrapUsed == !RearmsAt(run, k)
      && s2.operatorGeneration == s.operatorGeneration + 1
      && s2.operatorDigest == Sha256(run.requests[k].credential)
      && (RearmsAt(run, k) ==> s2.bootstrapDigest == Sha256(run.requests[k].newToken.value))
    ensures run.outcomes[k] == Refused <==>
      run.requests[k].newToken.Some? && |run.requests[k].newToken.value| < MIN_SECRET_LENGTH
  {
    assert StepsAt(run, k);
  }

  // ------------------------------------------------------ lineage of handoffs

  // Every entry was created earlier in the run and expires a fixed time after.
  lemma {:induction false} EntryWasCreated(run: Run, n: nat, h: HandoffValue) returns (c: nat)
    requires Lawful(run) && n <= |run.requests| && HasEntry(run.states[n], h)
    ensures c < n && run.requests[c].CreateHandoff? && run.requests[c].newHandoff == h.id
    ensures h.expiresAt == run.requests[c].now + run.states[c].bootstrapTtl
    decreases n
  {
    assert LawfulAt(run, n - 1);
    var s, r := run.states[n - 1], run.requests[n - 1];
    if CreatedHere(s, r, h) {
      c := n - 1;
    } else {
      var before :| HasEntry(s, before) && Continues(r, run.outcomes[n - 1], before, h);
      c := EntryWasCreated(run, n - 1, before);
    }
  }

  lemma {:induction false} TableIdsUnique(run: Run, n: nat)
    requires Lawful(run) && FreshIds(run) && n <= |run.requests|
    ensures UniqueIds(run.states[n].handoffs)
  {
    if n == 0 {
    } else {
      TableIdsUnique(run, n - 1);
      assert LawfulAt(run, n - 1);
      var s, r := run.states[n - 1], run.requests[n - 1];
      if r.CreateHandoff? {
        forall h | HasEntry(s, h) ensures h.id != r.newHandoff {
          var c := EntryWasCreated(run, n - 1, h);
        }
      }
      assert UnknownId(s, r);
    }
  }

  // Once an id is spent it stays spent.
  lemma {:induction false} SpentStays(run: Run, c: nat, i: nat, j: nat, id: string)
    requires Lawful(run) && FreshIds(run) && c < i <= j <= |run.requests|
    requires run.requests[c].CreateHandoff? && run.requests[c].newHandoff == id
    requires Spent(run.states[i], id)
    ensures Spent(run.states[j], id)
    decreases j
  {
    if i == j {
    } else {
      SpentStays(run, c, i, j - 1, id);
      assert LawfulAt(run, j - 1);
      var s, r := run.states[j - 1], run.requests[j - 1];
      forall h | HasEntry(run.states[j], h) && h.id == id ensures h.used {
        if !CreatedHere(s, r, h) {
          var before :| HasEntry(s, before) && Continues(r, run.outcomes[j - 1], before, h);
          assert before.used;
        }
      }
    }
  }

  // Request `i` approved handoff `id`, and no operator rotation has happened since.
  ghost predicate ApprovalStands(run: Run, i: nat, n: nat, id: string)
    requires Shaped(run) && n <= |run.requests|
  {
    && i < n && ApprovesAt(run, i, id) && NoRotation(run, i, n)
    && run.states[n].bootstrapDigest == run.states[i].bootstrapDigest
  }

  lemma {:induction false} ApprovedEntry(run: Run, n: nat, h: HandoffValue) returns (i: nat)
    requires Lawful(run) && n <= |run.requests| && HasEntry(run.states[n], h) && h.approved
    ensures ApprovalStands(run, i, n, h.id)
    decreases n
  {
    assert LawfulAt(run, n - 1);
    var s, r, o := run.states[n - 1], run.requests[n - 1], run.outcomes[n - 1];
    assert !RotatesAt(run, n - 1);
    if ApprovalOf(r, o, h.id) {
      i := n - 1;
    } else {
      var before :| HasEntry(s, before) && Continues(r, o, before, h);
      i := ApprovedEntry(run, n - 1, before);
    }
  }

  // Every approved handoff in the table was approved by a request that proved the
  // bootstrap token the channel is armed with now.
  lemma ApprovedUnderCurrentToken(run: Run, n: nat, h: HandoffValue) returns (i: nat)
    requires Execution(run) && n <= |run.requests| && HasEntry(run.states[n], h) && h.approved
    ensures ApprovalStands(run, i, n, h.id)
    ensures Sha256(run.requests[i].token) == run.states[n].bootstrapDigest
  {
    ExecutionIsLawful(run);
    i := ApprovedEntry(run, n, h);
    assert LawfulAt(run, i);
  }

  // -------------------------------------------------------- session accounting

  // How often the channel has been re-armed before request `n`.
  ghost function Armings(run: Run, n: nat): nat
    requires Shaped(run) && n <= |run.requests|
  {
    if n == 0 then 0 else Armings(run, n - 1) + if RearmsAt(run, n - 1) then 1 else 0
  }

  lemma {:induction false} ArmingsGrow(run: Run, i: nat, j: nat)
    requires Shaped(run) && i <= j <= |run.requests|
    ensures Armings(run, i) <= Armings(run, j)
    ensures Armings(run, i) == Armings(run, j) <==> NoRearm(run, i, j)
    decreases j
  {
    if i == j {
    } else {
      ArmingsGrow(run, i, j - 1);
      assert NoRearm(run, i, j) <==> NoRearm(run, i, j - 1) && !RearmsAt(run, j - 1);
    }
  }

  // What a session was issued against.
  datatype Grant = DirectExchange(arming: nat) | ApprovedHandoff(id: string)

  ghost function GrantAt(run: Run, n: nat): Grant
    requires Shaped(run) && n < |run.requests| && IssuesAt(run, n)
  {
    if run.requests[n].ClaimHandoff? then ApprovedHandoff(run.requests[n].handoffId)
    else DirectExchange(Armings(run, n))
  }

  lemma HandoffClaimedOnce(run: Run, i: nat, j: nat)
    requires Lawful(run) && FreshIds(run) && i < j < |run.requests| && ClaimsAt(run, i) && ClaimsAt(run, j)
    ensures run.requests[i].handoffId != run.requests[j].handoffId
  {
    var id := run.requests[i].handoffId;
    assert LawfulAt(run, i) && LawfulAt(run, j);
    var h :| HasEntry(run.states[i], h) && h.id == id && h.approved && !h.used;
    var c := EntryWasCreated(run, i, h);
    TableIdsUnique(run, i);
    SpentStays(run, c, i + 1, j, id);
  }

  lemma ExchangedOncePerArming(run: Run, i: nat, j: nat)
    requires Lawful(run) && i < j < |run.requests| && ExchangesAt(run, i) && ExchangesAt(run, j)
    ensures Armings(run, i) < Armings(run, j)
  {
    ArmingsGrow(run, i, j);
    assert LawfulAt(run, i) && LawfulAt(run, j);
    if NoRearm(run, i, j) {
      FlagsStay(run, i + 1, j);
    }
  }

  // No two sessions share a grant: each arming and each handoff pays at most once.
  lemma GrantsSpentOnce(run: Run, i: nat, j: nat)
    requires Execution(run) && FreshIds(run) && i < j < |run.requests|
    requires IssuesAt(run, i) && IssuesAt(run, j)
    ensures GrantAt(run, i) != GrantAt(run, j)
  {
    ExecutionIsLawful(run);
    assert LawfulAt(run, i) && LawfulAt(run, j);
    if run.requests[i].ClaimHandoff? && run.requests[j].ClaimHandoff? {
      HandoffClaimedOnce(run, i, j);
    } else if run.requests[i].ExchangeBootstrap? && run.requests[j].ExchangeBootstrap? {
      ExchangedOncePerArming(run, i, j);
    }
  }

  // A claimed session rests on an approval of that very handoff, given under the
  // current bootstrap token in the same arming, with no operator rotation between.
  lemma ClaimWasApproved(run: Run, j: nat) returns (i: nat)
    requires Execution(run) && j < |run.requests| && ClaimsAt(run, j)
    ensures ApprovalStands(run, i, j, run.requests[j].handoffId)
    ensures Armings(run, i) == Armings(run, j)
    ensures Sha256(run.requests[i].token) == run.states[j].bootstrapDigest
  {
    ExecutionIsLawful(run);
    assert LawfulAt(run, j);
    var h :| HasEntry(run.states[j], h) && h.id == run.requests[j].handoffId && h.approved;
    i := ApprovedUnderCurrentToken(run, j, h);
    forall k | i <= k < j ensures !RearmsAt(run, k) {
      assert !RotatesAt(run, k);
    }
    ArmingsGrow(run, i, j);
  }

  // After an approval no direct exchange succeeds in the same arming.
  lemma NoExchangeAfterApproval(run: Run, i: nat, j: nat, id: string)
    requires Execution(run) && i < j < |run.requests| && ApprovesAt(run, i, id) && ExchangesAt(run, j)
    ensures Armings(run, i) < Armings(run, j)
  {
    ExecutionIsLawful(run);
    ArmingsGrow(run, i, j);
    assert LawfulAt(run, i) && LawfulAt(run, j);
    if NoRearm(run, i, j) {
      FlagsStay(run, i + 1, j);
    }
  }

  // ------------------------------------------------------------- live sessions

  lemma {:induction false} LifetimesFixed(run: Run, n: nat)
    requires Lawful(run) && n <= |run.requests|
    ensures run.states[n].sessionTtl == run.states[0].sessionTtl
    ensures run.states[n].bootstrapTtl == run.states[0].bootstrapTtl
  {
    if n == 0 {
    } else {
      LifetimesFixed(run, n - 1);
      assert LawfulAt(run, n - 1);
    }
  }

  // Session `id` was issued by request `i`, and no operator rotation has happened since.
  ghost predicate SessionStands(run: Run, i: nat, n: nat, id: string)
    requires Shaped(run) && n <= |run.requests|
  {
    && i < n && (ExchangesAt(run, i) || ClaimsAt(run, i)) && run.requests[i].newSession == id
    && NoRotation(run, i, n)
    && id in run.states[n].sessions
    && run.states[n].sessions[id] ==
       Session(run.requests[i].csrf, run.requests[i].issueAt + run.states[0].sessionTtl, run.states[n].operatorGeneration)
  }

  lemma {:induction false} SessionWasIssued(run: Run, n: nat, id: string) returns (i: nat)
    requires Lawful(run) && n <= |run.requests| && id in run.states[n].sessions
    ensures SessionStands(run, i, n, id)
    decreases n
  {
    LifetimesFixed(run, n - 1);
    assert LawfulAt(run, n - 1);
    assert !RotatesAt(run, n - 1);
    if IssuedHere(run.states[n - 1], run.requests[n - 1], run.states[n], run.outcomes[n - 1], id) {
      i := n - 1;
    } else {
      i := SessionWasIssued(run, n - 1, id);
    }
  }

  // A CSRF token passes for a session only if it is the one drawn when the session was
  // issued, in this run and with no operator rotation since; and that one does pass.
  lemma CsrfIsSessions(run: Run, n: nat, id: string, candidate: string) returns (i: nat)
    requires Execution(run) && n <= |run.requests|
    requires id != "" && candidate != "" && id in run.states[n].sessions
    ensures SessionStands(run, i, n, id)
    ensures CsrfMatches(run.states[n], Some(id), Some(candidate)) <==> candidate == run.requests[i].csrf
  {
    ExecutionIsLawful(run);
    i := SessionWasIssued(run, n, id);
  }

  // A session authenticates only if it was issued in this run, has not outlived
  // its lifetime, and no operator rotation has happened since.
  lemma AuthenticationRests(run: Run, n: nat) returns (i: nat)
    requires Execution(run) && n < |run.requests| && run.outcomes[n].Authenticated?
    ensures run.requests[n].AuthenticateSession? && run.requests[n].sessionId.Some?
    ensures SessionStands(run, i, n, run.requests[n].sessionId.value)
    ensures run.requests[n].now < run.requests[i].issueAt + run.states[0].sessionTtl
  {
    ExecutionIsLawful(run);
    assert LawfulAt(run, n);
    i := SessionWasIssued(run, n, run.requests[n].sessionId.value);
  }

  // ------------------------------------------------------------------ eviction

  // Handoff requests read a clock that never runs backwards.
  ghost predicate Clocked(run: Run) {
    forall i, j :: 0 <= i < j < |run.requests| && run.requests[i].CreateHandoff? && run.requests[j].CreateHandoff?
      ==> run.requests[i].now <= run.requests[j].now
  }

  lemma {:induction false} TableInExpiryOrder(run: Run, n: nat)
    requires Lawful(run) && Clocked(run) && n <= |run.requests|
    ensures ByExpiry(run.states[n].handoffs)
  {
    if n == 0 {
    } else {
      TableInExpiryOrder(run, n - 1);
      assert LawfulAt(run, n - 1);
      var s, r := run.states[n - 1], run.requests[n - 1];
      LifetimesFixed(run, n - 1);
      if r.CreateHandoff? {
        forall h | HasEntry(s, h) ensures h.expiresAt <= r.now + s.bootstrapTtl {
          var c := EntryWasCreated(run, n - 1, h);
          LifetimesFixed(run, c);
        }
      }
    }
  }

  // A new handoff joins the live ones at the end of the table; a full table loses
  // exactly its earliest live handoff for it.
  lemma EvictsTheEarliest(run: Run, n: nat)
    requires Execution(run) && Clocked(run) && n < |run.requests|
    requires run.requests[n].CreateHandoff? && run.outcomes[n].Created?
    ensures var r := run.requests[n];
      var live := LiveHandoffs(run.states[n].handoffs, r.now);
      run.states[n + 1].handoffs ==
        (if |live| == MAX_HANDOFFS then live[1..] else live)
        + [HandoffValue(r.newHandoff, Sha256(r.claimToken), r.now + run.states[n].bootstrapTtl, false, false)]
  {
    ExecutionIsLawful(run);
    TableInExpiryOrder(run, n);
    SoundUpTo(run, n);
    assert StepsAt(run, n);
    RoomIsTail(run.states[n].handoffs, run.requests[n].now);
  }

  lemma RoomIsTail(handoffs: seq<HandoffValue>, now: real)
    requires ByExpiry(handoffs) && |handoffs| <= MAX_HANDOFFS
    ensures var live := LiveHandoffs(handoffs, now);
      MakeRoom(live) == if |live| == MAX_HANDOFFS then live[1..] else live
  {
    var live := LiveHandoffs(handoffs, now);
    LiveKeepsOrder(handoffs, now);
    LiveIsSubset(handoffs, now);
    if |live| == MAX_HANDOFFS {
      assert forall k :: 0 <= k < |live| ==> live[0].expiresAt <= live[k].expiresAt;
      assert Oldest(live) == 0;
    }
  }
}
