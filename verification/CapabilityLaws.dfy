/** What a single request may do, stated without saying how: the laws of one step. */
module CapabilityLaws {
  import opened Common
  import opened CapabilityState

  predicate HasEntry(s: State, h: HandoffValue) {
    h in s.handoffs
  }

  // The credentials stay apart, the table stays bounded, and a revoked channel has
  // neither handoffs nor sessions.
  ghost predicate Sound(s: State) {
    && s.operatorDigest != s.adkDigest
    && |s.handoffs| <= MAX_HANDOFFS
    && (s.bootstrapRevoked ==> s.bootstrapUsed && s.sessions == map[] && s.handoffs == [])
  }

  // Only a re-arming rotation clears the used and revoked flags.
  ghost predicate FlagLaw(s: State, r: Request, s2: State, o: Outcome) {
    && s2.sessionTtl == s.sessionTtl && s2.bootstrapTtl == s.bootstrapTtl
    && (!Rearms(s, r) && s.bootstrapUsed ==> s2.bootstrapUsed)
    && (!Rearms(s, r) && s.bootstrapRevoked ==> s2.bootstrapRevoked)
    && (s.bootstrapRevoked ==> !o.Created? && (o == Done ==> r.Rotate?))
  }

  // Sessions come from an unused, unrevoked, unexpired bootstrap token or a claim.
  ghost predicate GrantLaw(s: State, r: Request, s2: State, o: Outcome) {
    && (o.Issued? ==> r.ExchangeBootstrap? || r.ClaimHandoff?)
    && (r.ExchangeBootstrap? ==>
          (o.Issued? <==> !s.bootstrapRevoked && !s.bootstrapUsed && r.now < s.bootstrapExpiresAt
                          && Sha256(r.token) == s.bootstrapDigest))
    && (r.ExchangeBootstrap? && o.Issued? ==> s2.bootstrapUsed)
    && (r.ApproveHandoff? && o == Done ==> s2.bootstrapUsed && Sha256(r.token) == s.bootstrapDigest)
    && (r.ClaimHandoff? && o.Issued? ==>
          exists h :: HasEntry(s, h) && h.id == r.handoffId && h.approved && !h.used
                      && r.now < h.expiresAt && Sha256(r.claimToken) == h.claim)
  }

  // `r` is a successful approval of handoff `id`.
  predicate ApprovalOf(r: Request, o: Outcome, id: string) {
    r.ApproveHandoff? && o == Done && r.handoffId == id
  }

  // `before` is what entry `h` was before the request.
  predicate Continues(r: Request, o: Outcome, before: HandoffValue, h: HandoffValue) {
    && before.id == h.id && before.claim == h.claim && before.expiresAt == h.expiresAt
    && (before.used ==> h.used)
    && (h.approved ==> before.approved || ApprovalOf(r, o, h.id))
  }

  predicate CreatedHere(s: State, r: Request, h: HandoffValue) {
    r.CreateHandoff? && h == HandoffValue(r.newHandoff, Sha256(r.claimToken), r.now + s.bootstrapTtl, false, false)
  }

  // Entries are created by a handoff request, carried on otherwise, and never
  // survive an operator rotation.
  ghost predicate EntryLaw(s: State, r: Request, s2: State, o: Outcome) {
    forall h :: HasEntry(s2, h) ==>
      && !OperatorRotation(s, r) && s2.bootstrapDigest == s.bootstrapDigest
      && (CreatedHere(s, r, h) || exists before :: HasEntry(s, before) && Continues(r, o, before, h))
  }

  predicate UniqueIds(handoffs: seq<HandoffValue>) {
    forall i, j :: 0 <= i < j < |handoffs| ==> handoffs[i].id != handoffs[j].id
  }

  // Any entry still carrying the id is used.
  ghost predicate Spent(s: State, id: string) {
    forall h :: HasEntry(s, h) && h.id == id ==> h.used
  }

  // A handoff request draws an id the table does not know.
  ghost predicate UnknownId(s: State, r: Request) {
    r.CreateHandoff? ==> forall h :: HasEntry(s, h) ==> h.id != r.newHandoff
  }

  ghost predicate TableLaw(s: State, r: Request, s2: State, o: Outcome) {
    && (UniqueIds(s.handoffs) && UnknownId(s, r) ==> UniqueIds(s2.handoffs))
    && (UniqueIds(s.handoffs) && r.ClaimHandoff? && o.Issued? ==> Spent(s2, r.handoffId))
  }

  ghost predicate IssuedHere(s: State, r: Request, s2: State, o: Outcome, id: string)
    requires id in s2.sessions
  {
    && o.Issued? && (r.ExchangeBootstrap? || r.ClaimHandoff?) && r.newSession == id
    && s2.sessions[id] == Session(r.csrf, r.issueAt + s.sessionTtl, s.operatorGeneration)
  }

  ghost predicate SessionLaw(s: State, r: Request, s2: State, o: Outcome) {
    && (forall id :: id in s2.sessions ==>
          && !OperatorRotation(s, r) && s2.operatorGeneration == s.operatorGeneration
          && (IssuedHere(s, r, s2, o, id) || (id in s.sessions && s.sessions[id] == s2.sessions[id])))
    && (o.Authenticated? ==>
          && r.AuthenticateSession? && r.sessionId.Some? && r.sessionId.value in s.sessions
          && r.now < s.sessions[r.sessionId.value].expiresAt)
  }

  predicate ByExpiry(handoffs: seq<HandoffValue>) {
    forall i, j :: 0 <= i < j < |handoffs| ==> handoffs[i].expiresAt <= handoffs[j].expiresAt
  }

  // As long as handoffs are requested in the order of the clock, the table stays in
  // order of expiry.
  ghost predicate OrderLaw(s: State, r: Request, s2: State, o: Outcome) {
    ByExpiry(s.handoffs)
    && (r.CreateHandoff? ==> forall h :: HasEntry(s, h) ==> h.expiresAt <= r.now + s.bootstrapTtl)
    ==> ByExpiry(s2.handoffs)
  }

  // ------------------------------------------------- the machine obeys the laws

  lemma {:induction false} LiveIsSubset(handoffs: seq<HandoffValue>, now: real)
    ensures |LiveHandoffs(handoffs, now)| <= |handoffs|
    ensures forall h :: h in LiveHandoffs(handoffs, now) ==> h in handoffs
  {
    if handoffs == [] {
    } else {
      LiveIsSubset(handoffs[..|handoffs| - 1], now);
    }
  }

  lemma {:induction false} LiveKeepsUnique(handoffs: seq<HandoffValue>, now: real)
    requires UniqueIds(handoffs)
    ensures UniqueIds(LiveHandoffs(handoffs, now))
  {
    if handoffs == [] {
    } else {
      var init, last := handoffs[..|handoffs| - 1], handoffs[|handoffs| - 1];
      LiveKeepsUnique(init, now);
      LiveIsSubset(init, now);
      forall h | h in LiveHandoffs(init, now) ensures h.id != last.id {
        assert h in init;
      }
    }
  }

  lemma {:induction false} LiveKeepsOrder(handoffs: seq<HandoffValue>, now: real)
    requires ByExpiry(handoffs)
    ensures ByExpiry(LiveHandoffs(handoffs, now))
  {
    if handoffs == [] {
    } else {
      var init, last := handoffs[..|handoffs| - 1], handoffs[|handoffs| - 1];
      LiveKeepsOrder(init, now);
      LiveIsSubset(init, now);
      forall h | h in LiveHandoffs(init, now) ensures h.expiresAt <= last.expiresAt {
        assert h in init;
      }
    }
  }

  lemma RemoveKeeps(handoffs: seq<HandoffValue>, k: nat, rest: seq<HandoffValue>)
    requires k < |handoffs| && rest == handoffs[..k] + handoffs[k + 1..]
    ensures |rest| == |handoffs| - 1
    ensures forall h :: h in rest ==> h in handoffs
    ensures UniqueIds(handoffs) ==> UniqueIds(rest)
    ensures ByExpiry(handoffs) ==> ByExpiry(rest)
  {
    assert forall i :: 0 <= i < |rest| ==> rest[i] == handoffs[if i < k then i else i + 1];
  }

  lemma RoomFacts(handoffs: seq<HandoffValue>)
    ensures |MakeRoom(handoffs)| <= |handoffs|
    ensures |handoffs| <= MAX_HANDOFFS ==> |MakeRoom(handoffs)| < MAX_HANDOFFS
    ensures forall h :: h in MakeRoom(handoffs) ==> h in handoffs
    ensures UniqueIds(handoffs) ==> UniqueIds(MakeRoom(handoffs))
    ensures ByExpiry(handoffs) ==> ByExpiry(MakeRoom(handoffs))
  {
    if |handoffs| >= MAX_HANDOFFS {
      RemoveKeeps(handoffs, Oldest(handoffs), MakeRoom(handoffs));
    }
  }

  lemma CreateFacts(s: State, r: Request)
    requires r.CreateHandoff?
    ensures var room := MakeRoom(LiveHandoffs(s.handoffs, r.now));
      && (forall h :: h in room ==> h in s.handoffs)
      && (forall h :: h in LiveHandoffs(s.handoffs, r.now) ==> h in s.handoffs)
      && (UniqueIds(s.handoffs) ==> UniqueIds(room) && UniqueIds(LiveHandoffs(s.handoffs, r.now)))
      && (ByExpiry(s.handoffs) ==> ByExpiry(room) && ByExpiry(LiveHandoffs(s.handoffs, r.now)))
      && (|s.handoffs| <= MAX_HANDOFFS ==> |room| < MAX_HANDOFFS && |LiveHandoffs(s.handoffs, r.now)| <= MAX_HANDOFFS)
  {
    LiveIsSubset(s.handoffs, r.now);
    if UniqueIds(s.handoffs) {
      LiveKeepsUnique(s.handoffs, r.now);
    }
    if ByExpiry(s.handoffs) {
      LiveKeepsOrder(s.handoffs, r.now);
    }
    RoomFacts(LiveHandoffs(s.handoffs, r.now));
  }

  lemma StepSound(s: State, r: Request)
    requires Sound(s)
    ensures Sound(Step(s, r).0)
  {
    if r.CreateHandoff? {
      CreateFacts(s, r);
    }
  }

  lemma StepFlags(s: State, r: Request)
    ensures FlagLaw(s, r, Step(s, r).0, Step(s, r).1) || !Sound(s)
  {
  }

  lemma StepGrants(s: State, r: Request)
    ensures GrantLaw(s, r, Step(s, r).0, Step(s, r).1)
  {
    if r.ClaimHandoff? && Step(s, r).1.Issued? {
      assert HasEntry(s, s.handoffs[FindHandoff(s.handoffs, r.handoffId).value]);
    }
  }

  lemma StepEntries(s: State, r: Request)
    ensures EntryLaw(s, r, Step(s, r).0, Step(s, r).1)
  {
    var s2, o := Step(s, r).0, Step(s, r).1;
    if r.CreateHandoff? {
      CreateFacts(s, r);
    }
    forall h | HasEntry(s2, h) && !CreatedHere(s, r, h)
      ensures exists before :: HasEntry(s, before) && Continues(r, o, before, h)
    {
      if h in s.handoffs {
        assert HasEntry(s, h) && Continues(r, o, h, h);
      } else {
        var before := s.handoffs[FindHandoff(s.handoffs, r.handoffId).value];
        assert HasEntry(s, before) && Continues(r, o, before, h);
      }
    }
  }

  lemma StepTable(s: State, r: Request)
    ensures TableLaw(s, r, Step(s, r).0, Step(s, r).1)
  {
    if r.CreateHandoff? {
      CreateFacts(s, r);
      assert forall h :: HasEntry(s, h) <==> h in s.handoffs;
    } else if r.ClaimHandoff? && Step(s, r).1.Issued? && UniqueIds(s.handoffs) {
      var k := FindHandoff(s.handoffs, r.handoffId).value;
      forall h | HasEntry(Step(s, r).0, h) && h.id == r.handoffId ensures h.used {
        assert s.handoffs[k].id == r.handoffId;
      }
    }
  }

  lemma StepSessions(s: State, r: Request)
    ensures SessionLaw(s, r, Step(s, r).0, Step(s, r).1)
  {
  }

  lemma StepOrder(s: State, r: Request)
    ensures OrderLaw(s, r, Step(s, r).0, Step(s, r).1)
  {
    if r.CreateHandoff? {
      CreateFacts(s, r);
      assert forall h :: HasEntry(s, h) <==> h in s.handoffs;
    }
  }
}
