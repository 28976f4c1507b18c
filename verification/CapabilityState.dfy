/**
 * The capability authority as a state machine: what each request does to the
 * credentials, the bootstrap channel, the handoff table and the sessions.
 * Clock readings and freshly drawn tokens arrive with the request; the order of
 * the handoff table is the insertion order of the dictionary.
 */
module CapabilityState {
  import opened Common

  const MIN_SECRET_LENGTH := 8
  const MAX_HANDOFFS := 16

  datatype Capability = OperatorConsole | AdkDeveloper

  // A SHA-256 digest: no two secrets share one.
  datatype SecretDigest = Sha256(secret: string)

  datatype Session = Session(csrf: string, expiresAt: real, generation: nat)

  datatype HandoffValue = HandoffValue(
    id: string, claim: SecretDigest, expiresAt: real, approved: bool, used: bool)

  datatype State = State(
    operatorDigest: SecretDigest,
    adkDigest: SecretDigest,
    adkConfirmationKey: string,
    operatorGeneration: nat,
    adkGeneration: nat,
    bootstrapDigest: SecretDigest,
    bootstrapExpiresAt: real,
    bootstrapUsed: bool,
    bootstrapRevoked: bool,
    bootstrapTtl: real,
    sessionTtl: real,
    sessions: map<string, Session>,
    handoffs: seq<HandoffValue>)

  datatype Principal = Principal(
    capability: Capability, workspaceId: string, source: string, operatorId: string,
    generation: nat, sessionId: Option<string>)

  datatype Request =
    | AuthenticateSession(sessionId: Option<string>, now: real)
    | ExchangeBootstrap(token: string, now: real, issueAt: real, newSession: string, csrf: string)
    | CreateHandoff(claimToken: string, now: real, newHandoff: string)
    | ApproveHandoff(token: string, handoffId: string, now: real)
    | ClaimHandoff(handoffId: string, claimToken: string, now: real, issueAt: real,
                   newSession: string, csrf: string)
    | Rotate(capability: Option<Capability>, credential: string, newToken: Option<string>, now: real)

  datatype Outcome =
    | Refused
    | Done
    | NotAuthenticated
    | Authenticated(principal: Principal)
    | Created(handoffId: string, seconds: int)
    | Issued(sessionId: string, csrf: string, seconds: int)

  function PrincipalOf(capability: Capability, generation: nat, sessionId: Option<string>): Principal {
    match capability
    case AdkDeveloper =>
      Principal(capability, "adk-development", "adk-developer", "adk-developer", generation, sessionId)
    case OperatorConsole =>
      Principal(capability, "default-workspace", "operator-console", "local-actuary", generation, sessionId)
  }

  // `max(1, int(seconds))`.
  function WholeSeconds(seconds: real): int {
    if seconds.Floor >= 1 then seconds.Floor else 1
  }

  datatype InitError = WeakSecret | CredentialsNotIndependent

  function Initial(
    operatorCredential: string, adkCredential: string, token: string,
    sessionTtl: real, bootstrapTtl: real, now: real): Result<State, InitError>
  {
    if |operatorCredential| < MIN_SECRET_LENGTH || |adkCredential| < MIN_SECRET_LENGTH
      || |token| < MIN_SECRET_LENGTH then Err(WeakSecret)
    else if Sha256(operatorCredential) == Sha256(adkCredential) then Err(CredentialsNotIndependent)
    else Ok(State(
      Sha256(operatorCredential), Sha256(adkCredential), adkCredential, 1, 1,
      Sha256(token), now + bootstrapTtl, false, false, bootstrapTtl, sessionTtl, map[], []))
  }

  // ------------------------------------------------------------ handoff table

  function FindHandoff(handoffs: seq<HandoffValue>, id: string): (r: Option<nat>)
    ensures r.Some? ==> r.value < |handoffs| && handoffs[r.value].id == id
    ensures r.None? ==> forall k :: 0 <= k < |handoffs| ==> handoffs[k].id != id
  {
    if handoffs == [] then None
    else if handoffs[0].id == id then Some(0)
    else match FindHandoff(handoffs[1..], id)
      case None => None
      case Some(k) => Some(k + 1)
  }

  predicate Live(h: HandoffValue, now: real) {
    !h.used && h.expiresAt > now
  }

  function LiveHandoffs(handoffs: seq<HandoffValue>, now: real): seq<HandoffValue> {
    if handoffs == [] then []
    else
      var before, last := LiveHandoffs(handoffs[..|handoffs| - 1], now), handoffs[|handoffs| - 1];
      if Live(last, now) then before + [last] else before
  }

  // Index of the first entry with the earliest expiry.
  function Oldest(handoffs: seq<HandoffValue>): (k: nat)
    requires handoffs != []
    ensures k < |handoffs|
    ensures forall i :: 0 <= i < |handoffs| ==> handoffs[k].expiresAt <= handoffs[i].expiresAt
    ensures forall i :: 0 <= i < k ==> handoffs[k].expiresAt < handoffs[i].expiresAt
  {
    var last := |handoffs| - 1;
    if last == 0 then 0
    else
      var k := Oldest(handoffs[..last]);
      assert forall i :: 0 <= i < last ==> handoffs[..last][i] == handoffs[i];
      if handoffs[last].expiresAt < handoffs[k].expiresAt then last else k
  }

  function MakeRoom(handoffs: seq<HandoffValue>): seq<HandoffValue> {
    if |handoffs| >= MAX_HANDOFFS then
      var k := Oldest(handoffs);
      handoffs[..k] + handoffs[k + 1..]
    else handoffs
  }

  // ------------------------------------------------------------------ requests

  function IssueSession(s: State, newSession: string, csrf: string, at: real): (State, Outcome) {
    (s.(sessions := s.sessions[newSession := Session(csrf, at + s.sessionTtl, s.operatorGeneration)]),
     Issued(newSession, csrf, WholeSeconds(s.sessionTtl)))
  }

  // A rotation of the operator credential that gets past its checks.  It takes
  // effect even when it is then refused for a weak new bootstrap token.
  predicate OperatorRotation(s: State, r: Request) {
    && r.Rotate? && r.capability == Some(OperatorConsole)
    && |r.credential| >= MIN_SECRET_LENGTH && Sha256(r.credential) != s.adkDigest
  }

  // An operator rotation that opens the bootstrap channel again.
  predicate Rearms(s: State, r: Request) {
    OperatorRotation(s, r) && r.newToken.Some? && |r.newToken.value| >= MIN_SECRET_LENGTH
  }

  function RotateOperator(s: State, r: Request): (State, Outcome)
    requires r.Rotate?
  {
    var closed := s.(
      operatorDigest := Sha256(r.credential), operatorGeneration := s.operatorGeneration + 1,
      sessions := map[], handoffs := [], bootstrapUsed := true, bootstrapRevoked := true);
    match r.newToken
    case None => (closed, Done)
    case Some(token) =>
      if |token| < MIN_SECRET_LENGTH then (closed, Refused)
      else
        (closed.(bootstrapDigest := Sha256(token), bootstrapExpiresAt := r.now + s.bootstrapTtl,
                 bootstrapUsed := false, bootstrapRevoked := false),
         Done)
  }

  function Step(s: State, r: Request): (State, Outcome) {
    match r
    case AuthenticateSession(sessionId, now) =>
      if sessionId.None? || sessionId.value == "" || sessionId.value !in s.sessions then (s, NotAuthenticated)
      else
        var session := s.sessions[sessionId.value];
        if session.expiresAt <= now || session.generation != s.operatorGeneration then
          (s.(sessions := s.sessions - {sessionId.value}), NotAuthenticated)
        else (s, Authenticated(PrincipalOf(OperatorConsole, session.generation, sessionId)))
    case ExchangeBootstrap(token, now, issueAt, newSession, csrf) =>
      if s.bootstrapRevoked || s.bootstrapUsed || now >= s.bootstrapExpiresAt
        || Sha256(token) != s.bootstrapDigest then (s, Refused)
      else IssueSession(s.(bootstrapUsed := true), newSession, csrf, issueAt)
    case CreateHandoff(claimToken, now, newHandoff) =>
      var live := LiveHandoffs(s.handoffs, now);
      if s.bootstrapRevoked then (s.(handoffs := live), Refused)
      else
        var entry := HandoffValue(newHandoff, Sha256(claimToken), now + s.bootstrapTtl, false, false);
        (s.(handoffs := MakeRoom(live) + [entry]), Created(newHandoff, WholeSeconds(s.bootstrapTtl)))
    case ApproveHandoff(token, handoffId, now) =>
      var found := FindHandoff(s.handoffs, handoffId);
      if s.bootstrapRevoked || Sha256(token) != s.bootstrapDigest || found.None?
        || s.handoffs[found.value].used || s.handoffs[found.value].expiresAt <= now then (s, Refused)
      else
        var k := found.value;
        (s.(handoffs := s.handoffs[k := s.handoffs[k].(approved := true)], bootstrapUsed := true), Done)
    case ClaimHandoff(handoffId, claimToken, now, issueAt, newSession, csrf) =>
      var found := FindHandoff(s.handoffs, handoffId);
      if found.None? || !s.handoffs[found.value].approved || s.handoffs[found.value].used
        || s.handoffs[found.value].expiresAt <= now
        || Sha256(claimToken) != s.handoffs[found.value].claim then (s, Refused)
      else
        var k := found.value;
        IssueSession(s.(handoffs := s.handoffs[k := s.handoffs[k].(used := true)]), newSession, csrf, issueAt)
    case Rotate(capability, credential, newToken, now) =>
      if capability.None? || |credential| < MIN_SECRET_LENGTH then (s, Refused)
      else
        match capability.value
        case AdkDeveloper =>
          if Sha256(credential) == s.operatorDigest then (s, Refused)
          else (s.(adkDigest := Sha256(credential), adkConfirmationKey := credential,
                   adkGeneration := s.adkGeneration + 1), Done)
        case OperatorConsole =>
          if Sha256(credential) == s.adkDigest then (s, Refused) else RotateOperator(s, r)
  }

  // The credential a bearer token proves, if any.
  function AuthenticateBearer(s: State, authorization: Option<string>): Option<Principal> {
    if authorization.None? || !("Bearer " <= authorization.value) then None
    else
      var candidate := Sha256(authorization.value[7..]);
      if candidate == s.operatorDigest then Some(PrincipalOf(OperatorConsole, s.operatorGeneration, None))
      else if candidate == s.adkDigest then Some(PrincipalOf(AdkDeveloper, s.adkGeneration, None))
      else None
  }

  predicate CsrfMatches(s: State, sessionId: Option<string>, candidate: Option<string>) {
    && sessionId.Some? && sessionId.value != "" && candidate.Some? && candidate.value != ""
    && sessionId.value in s.sessions
    && Sha256(candidate.value) == Sha256(s.sessions[sessionId.value].csrf)
  }
}
