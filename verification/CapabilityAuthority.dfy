/** The in-memory authority object; every method is one step of the state machine. */
module CapabilityAuthority {
  import opened Common
  import opened CapabilityState
  import CapabilityRuns

  class Handoff {
    const id: string
    const claimDigest: SecretDigest
    const expiresAt: real
    var approved: bool
    var used: bool

    constructor (id: string, claimDigest: SecretDigest, expiresAt: real)
      ensures Value() == HandoffValue(id, claimDigest, expiresAt, false, false)
    {
      this.id, this.claimDigest, this.expiresAt := id, claimDigest, expiresAt;
      approved, used := false, false;
    }

    function Value(): HandoffValue
      reads this
    {
      HandoffValue(id, claimDigest, expiresAt, approved, used)
    }
  }

  function Values(handoffs: seq<Handoff>): (r: seq<HandoffValue>)
    reads handoffs
    ensures |r| == |handoffs|
    ensures forall k :: 0 <= k < |handoffs| ==> r[k] == handoffs[k].Value()
  {
    seq(|handoffs|, k requires 0 <= k < |handoffs| reads handoffs => handoffs[k].Value())
  }

  predicate Distinct(handoffs: seq<Handoff>) {
    forall i, j :: 0 <= i < j < |handoffs| ==> handoffs[i] != handoffs[j]
  }

  lemma ValuesAppend(a: seq<Handoff>, h: Handoff)
    ensures Values(a + [h]) == Values(a) + [h.Value()]
  {
  }

  lemma ValuesRemove(a: seq<Handoff>, k: nat)
    requires k < |a|
    ensures Values(a[..k] + a[k + 1..]) == Values(a)[..k] + Values(a)[k + 1..]
  {
    var left, right := Values(a[..k] + a[k + 1..]), Values(a)[..k] + Values(a)[k + 1..];
    forall i | 0 <= i < |a| - 1 ensures left[i] == right[i] {
      assert (a[..k] + a[k + 1..])[i] == if i < k then a[i] else a[i + 1];
    }
  }

  lemma LiveStep(values: seq<HandoffValue>, i: nat, now: real)
    requires i < |values|
    ensures LiveHandoffs(values[..i + 1], now) ==
            LiveHandoffs(values[..i], now) + if Live(values[i], now) then [values[i]] else []
  {
    assert values[..i + 1][..i] == values[..i];
  }

  lemma CreateStep(s: State, claimToken: string, now: real, newHandoff: string, room: seq<HandoffValue>)
    requires !s.bootstrapRevoked && room == MakeRoom(LiveHandoffs(s.handoffs, now))
    ensures Step(s, CreateHandoff(claimToken, now, newHandoff)) ==
      (s.(handoffs := room + [HandoffValue(newHandoff, Sha256(claimToken), now + s.bootstrapTtl, false, false)]),
       Created(newHandoff, WholeSeconds(s.bootstrapTtl)))
  {
  }

  class CapabilityAuthority {
    var operatorDigest: SecretDigest
    var adkDigest: SecretDigest
    var adkConfirmationKey: string
    var operatorGeneration: nat
    var adkGeneration: nat
    var bootstrapDigest: SecretDigest
    var bootstrapExpiresAt: real
    var bootstrapUsed: bool
    var bootstrapRevoked: bool
    const bootstrapTtl: real
    const sessionTtl: real
    var sessions: map<string, Session>
    var handoffs: seq<Handoff>

    ghost predicate Valid()
      reads this
    {
      Distinct(handoffs)
    }

    ghost function View(): State
      reads this, handoffs
    {
      State(operatorDigest, adkDigest, adkConfirmationKey, operatorGeneration, adkGeneration,
            bootstrapDigest, bootstrapExpiresAt, bootstrapUsed, bootstrapRevoked,
            bootstrapTtl, sessionTtl, sessions, Values(handoffs))
    }

    constructor (operatorCredential: string, adkCredential: string, token: string,
                 sessionTtl: real, bootstrapTtl: real, now: real)
      requires Initial(operatorCredential, adkCredential, token, sessionTtl, bootstrapTtl, now).Ok?
      ensures Valid() && handoffs == []
      ensures View() == Initial(operatorCredential, adkCredential, token, sessionTtl, bootstrapTtl, now).value
      ensures CapabilityRuns.Fresh(View())
    {
      CapabilityRuns.InitialIsFresh(operatorCredential, adkCredential, token, sessionTtl, bootstrapTtl, now);
      operatorDigest, adkDigest := Sha256(operatorCredential), Sha256(adkCredential);
      adkConfirmationKey := adkCredential;
      operatorGeneration, adkGeneration := 1, 1;
      bootstrapDigest, bootstrapExpiresAt := Sha256(token), now + bootstrapTtl;
      bootstrapUsed, bootstrapRevoked := false, false;
      this.bootstrapTtl, this.sessionTtl := bootstrapTtl, sessionTtl;
      sessions, handoffs := map[], [];
    }

    method Authenticate(sessionId: Option<string>, now: real) returns (outcome: Outcome)
      requires Valid()
      modifies this`sessions
      ensures Valid()
      ensures (View(), outcome) == Step(old(View()), AuthenticateSession(sessionId, now))
    {
      if sessionId.None? || sessionId.value == "" {
        return NotAuthenticated;
      }
      var id := sessionId.value;
      if id !in sessions {
        return NotAuthenticated;
      }
      var session := sessions[id];
      if session.expiresAt <= now || session.generation != operatorGeneration {
        sessions := sessions - {id};
        return NotAuthenticated;
      }
      outcome := Authenticated(PrincipalOf(OperatorConsole, session.generation, sessionId));
    }

    method SessionCsrfMatches(sessionId: Option<string>, candidate: Option<string>) returns (matches: bool)
      requires Valid()
      ensures matches == CsrfMatches(View(), sessionId, candidate)
    {
      if sessionId.None? || sessionId.value == "" || candidate.None? || candidate.value == "" {
        return false;
      }
      if sessionId.value !in sessions {
        return false;
      }
      matches := Sha256(candidate.value) == Sha256(sessions[sessionId.value].csrf);
    }

    method Issue(newSession: string, csrf: string, at: real) returns (outcome: Outcome)
      requires Valid()
      modifies this`sessions
      ensures Valid()
      ensures (View(), outcome) == IssueSession(old(View()), newSession, csrf, at)
    {
      sessions := sessions[newSession := Session(csrf, at + sessionTtl, operatorGeneration)];
      outcome := Issued(newSession, csrf, WholeSeconds(sessionTtl));
    }

    method Exchange(token: string, now: real, issueAt: real, newSession: string, csrf: string)
      returns (outcome: Outcome)
      requires Valid()
      modifies this`sessions, this`bootstrapUsed
      ensures Valid()
      ensures (View(), outcome) == Step(old(View()), ExchangeBootstrap(token, now, issueAt, newSession, csrf))
    {
      if bootstrapRevoked || bootstrapUsed || now >= bootstrapExpiresAt || Sha256(token) != bootstrapDigest {
        return Refused;
      }
      bootstrapUsed := true;
      outcome := Issue(newSession, csrf, issueAt);
    }

    method DiscardExpired(now: real)
      requires Valid()
      modifies this`handoffs
      ensures Valid()
      ensures forall h :: h in handoffs ==> h in old(handoffs)
      ensures Values(handoffs) == LiveHandoffs(old(Values(handoffs)), now)
    {
      var kept: seq<Handoff> := [];
      ghost var values := Values(handoffs);
      var i := 0;
      while i < |handoffs|
        invariant handoffs == old(handoffs)
        invariant 0 <= i <= |handoffs|
        invariant Distinct(kept) && forall h :: h in kept ==> h in handoffs[..i]
        invariant Values(kept) == LiveHandoffs(values[..i], now)
      {
        var h := handoffs[i];
        LiveStep(values, i, now);
        if !h.used && h.expiresAt > now {
          assert h !in kept;
          ValuesAppend(kept, h);
          kept := kept + [h];
        }
        i := i + 1;
      }
      assert values[..i] == values;
      handoffs := kept;
    }

    method EvictOldest()
      requires Valid()
      modifies this`handoffs
      ensures Valid()
      ensures forall h :: h in handoffs ==> h in old(handoffs)
      ensures Values(handoffs) == MakeRoom(old(Values(handoffs)))
    {
      if |handoffs| >= MAX_HANDOFFS {
        var k := Oldest(Values(handoffs));
        ValuesRemove(handoffs, k);
        handoffs := handoffs[..k] + handoffs[k + 1..];
      }
    }

    method Enter(id: string, claimDigest: SecretDigest, expiresAt: real)
      requires Valid()
      modifies this`handoffs
      ensures Valid()
      ensures forall h :: h in handoffs ==> h in old(handoffs) || fresh(h)
      ensures Values(handoffs) == old(Values(handoffs)) + [HandoffValue(id, claimDigest, expiresAt, false, false)]
    {
      var h := new Handoff(id, claimDigest, expiresAt);
      ValuesAppend(handoffs, h);
      handoffs := handoffs + [h];
    }

    method Create(claimToken: string, now: real, newHandoff: string) returns (outcome: Outcome)
      requires Valid()
      modifies this`handoffs
      ensures Valid()
      ensures forall h :: h in handoffs ==> h in old(handoffs) || fresh(h)
      ensures (View(), outcome) == Step(old(View()), CreateHandoff(claimToken, now, newHandoff))
    {
      ghost var before := View();
      DiscardExpired(now);
      if bootstrapRevoked {
        return Refused;
      }
      EvictOldest();
      ghost var room := Values(handoffs);
      CreateStep(before, claimToken, now, newHandoff, room);
      Enter(newHandoff, Sha256(claimToken), now + bootstrapTtl);
      assert View() == before.(handoffs := Values(handoffs));
      outcome := Created(newHandoff, WholeSeconds(bootstrapTtl));
    }

    method Approve(token: string, handoffId: string, now: real) returns (outcome: Outcome)
      requires Valid()
      modifies this`bootstrapUsed, handoffs
      ensures Valid() && handoffs == old(handoffs)
      ensures (View(), outcome) == Step(old(View()), ApproveHandoff(token, handoffId, now))
    {
      var found := FindHandoff(Values(handoffs), handoffId);
      if bootstrapRevoked || Sha256(token) != bootstrapDigest || found.None? {
        return Refused;
      }
      var h := handoffs[found.value];
      if h.used || h.expiresAt <= now {
        return Refused;
      }
      h.approved := true;
      bootstrapUsed := true;
      assert Values(handoffs) == old(Values(handoffs))[found.value := h.Value()];
      outcome := Done;
    }

    method Claim(handoffId: string, claimToken: string, now: real, issueAt: real, newSession: string, csrf: string)
      returns (outcome: Outcome)
      requires Valid()
      modifies this`sessions, handoffs
      ensures Valid() && handoffs == old(handoffs)
      ensures (View(), outcome) ==
              Step(old(View()), ClaimHandoff(handoffId, claimToken, now, issueAt, newSession, csrf))
    {
      var found := FindHandoff(Values(handoffs), handoffId);
      if found.None? {
        return Refused;
      }
      var h := handoffs[found.value];
      if !h.approved || h.used || h.expiresAt <= now || Sha256(claimToken) != h.claimDigest {
        return Refused;
      }
      h.used := true;
      assert Values(handoffs) == old(Values(handoffs))[found.value := h.Value()];
      outcome := Issue(newSession, csrf, issueAt);
    }

    // The operator's part: sessions, handoffs and the bootstrap channel go.
    method RotateOperatorCredential(credential: string, newToken: Option<string>, now: real)
      returns (outcome: Outcome)
      requires Valid()
      modifies this
      ensures handoffs == []
      ensures (View(), outcome) ==
              RotateOperator(old(View()), Rotate(Some(OperatorConsole), credential, newToken, now))
    {
      operatorDigest := Sha256(credential);
      operatorGeneration := operatorGeneration + 1;
      sessions, handoffs := map[], [];
      bootstrapUsed, bootstrapRevoked := true, true;
      if newToken.Some? {
        if |newToken.value| < MIN_SECRET_LENGTH {
          return Refused;
        }
        bootstrapDigest, bootstrapExpiresAt := Sha256(newToken.value), now + bootstrapTtl;
        bootstrapUsed, bootstrapRevoked := false, false;
      }
      outcome := Done;
    }

    method RotateCredential(capability: Option<Capability>, credential: string, newToken: Option<string>, now: real)
      returns (outcome: Outcome)
      requires Valid()
      modifies this
      ensures Valid() && forall h :: h in handoffs ==> h in old(handoffs)
      ensures (View(), outcome) == Step(old(View()), Rotate(capability, credential, newToken, now))
    {
      if capability.None? || |credential| < MIN_SECRET_LENGTH {
        return Refused;
      }
      var other := if capability.value == OperatorConsole then adkDigest else operatorDigest;
      if Sha256(credential) == other {
        return Refused;
      }
      if capability.value == AdkDeveloper {
        adkDigest, adkConfirmationKey := Sha256(credential), credential;
        adkGeneration := adkGeneration + 1;
        outcome := Done;
      } else {
        outcome := RotateOperatorCredential(credential, newToken, now);
      }
    }
  }
}
