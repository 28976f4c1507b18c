/** Who can prove which capability, and what each request achieves, over whole runs. */
module CapabilityCredentials {
  import opened Common
  import opened CapabilityState
  import opened CapabilityLaws
  import opened CapabilityRuns

  // -------------------------------------------------------------------- rotations

  predicate RotatesCredential(r: Request, capability: Capability) {
    r.Rotate? && r.capability == Some(capability)
  }

  // The credential of the other capability.
  function OtherDigest(s: State, capability: Capability): SecretDigest {
    if capability == AdkDeveloper then s.operatorDigest else s.adkDigest
  }

  // Long enough and not the other capability's.
  predicate FitCredential(s: State, r: Request, capability: Capability) {
    RotatesCredential(r, capability) && |r.credential| >= 8 && OtherDigest(s, capability) != Sha256(r.credential)
  }

  /**
   * A rotation of the ADK credential is refused, changing nothing, exactly for a short
   * credential or the operator's; otherwise it replaces the credential and its confirmation
   * key, raises its generation by one and leaves the operator's side alone.
   */
  lemma AdkRotation(s: State, r: Request)
    requires RotatesCredential(r, AdkDeveloper)
    ensures Step(s, r).1 == (if FitCredential(s, r, AdkDeveloper) then Done else Refused)
    ensures !FitCredential(s, r, AdkDeveloper) ==> Step(s, r).0 == s
    ensures FitCredential(s, r, AdkDeveloper) ==> var s2 := Step(s, r).0;
      && s2.adkDigest == Sha256(r.credential) && s2.adkConfirmationKey == r.credential
      && s2.adkGeneration == s.adkGeneration + 1
      && s2.operatorDigest == s.operatorDigest && s2.operatorGeneration == s.operatorGeneration
      && s2.sessions == s.sessions && s2.handoffs == s.handoffs
      && s2.bootstrapDigest == s.bootstrapDigest && s2.bootstrapExpiresAt == s.bootstrapExpiresAt
      && s2.bootstrapUsed == s.bootstrapUsed && s2.bootstrapRevoked == s.bootstrapRevoked
      && s2.bootstrapTtl == s.bootstrapTtl && s2.sessionTtl == s.sessionTtl
  {
  }

  /** Only its own rotation changes a credential or its generation. */
  lemma CredentialsStand(s: State, r: Request)
    ensures var s2 := Step(s, r).0;
      && (!FitCredential(s, r, AdkDeveloper) ==>
            s2.adkDigest == s.adkDigest && s2.adkConfirmationKey == s.adkConfirmationKey
            && s2.adkGeneration == s.adkGeneration)
      && (!FitCredential(s, r, OperatorConsole) ==>
            s2.operatorDigest == s.operatorDigest && s2.operatorGeneration == s.operatorGeneration)
      && (FitCredential(s, r, OperatorConsole) ==>
            s2.operatorDigest == Sha256(r.credential) && s2.operatorGeneration == s.operatorGeneration + 1)
  {
  }

  // A rotation of that credential takes effect at request `k`.
  ghost predicate ReplacesAt(run: Run, k: nat, capability: Capability)
    requires Shaped(run) && k < |run.requests|
  {
    FitCredential(run.states[k], run.requests[k], capability)
  }

  // The credential in force: that of the last rotation to take effect, or the first.
  ghost function CredentialAt(run: Run, n: nat, capability: Capability, first: string): string
    requires Shaped(run) && n <= |run.requests|
  {
    if n == 0 then first
    else if ReplacesAt(run, n - 1, capability) then run.requests[n - 1].credential
    else CredentialAt(run, n - 1, capability, first)
  }

  ghost function Replacements(run: Run, n: nat, capability: Capability): nat
    requires Shaped(run) && n <= |run.requests|
  {
    if n == 0 then 0 else Replacements(run, n - 1, capability) + if ReplacesAt(run, n - 1, capability) then 1 else 0
  }

  // A run of an authority made with these credentials.
  ghost predicate MadeWith(
    run: Run, operatorCredential: string, adkCredential: string, token: string,
    sessionTtl: real, bootstrapTtl: real, now: real)
  {
    && Execution(run)
    && Initial(operatorCredential, adkCredential, token, sessionTtl, bootstrapTtl, now) == Ok(run.states[0])
  }

  /**
   * An authority is made exactly from three secrets of eight characters or more, the two
   * credentials being different; its bootstrap token can be used until its time is up.
   */
  lemma MadeExactly(
    operatorCredential: string, adkCredential: string, token: string,
    sessionTtl: real, bootstrapTtl: real, now: real)
    ensures var made := Initial(operatorCredential, adkCredential, token, sessionTtl, bootstrapTtl, now);
      && (made.Ok? <==> |operatorCredential| >= 8 && |adkCredential| >= 8 && |token| >= 8
                        && operatorCredential != adkCredential)
      && (made.Ok? ==>
            && made.value.bootstrapDigest == Sha256(token) && made.value.bootstrapExpiresAt == now + bootstrapTtl
            && !made.value.bootstrapUsed && !made.value.bootstrapRevoked
            && made.value.sessions == map[] && made.value.handoffs == []
            && made.value.sessionTtl == sessionTtl && made.value.bootstrapTtl == bootstrapTtl)
  {
  }

  lemma {:induction false} CredentialsInForce(
    run: Run, n: nat, operatorCredential: string, adkCredential: string, token: string,
    sessionTtl: real, bootstrapTtl: real, now: real)
    requires MadeWith(run, operatorCredential, adkCredential, token, sessionTtl, bootstrapTtl, now)
    requires n <= |run.requests|
    ensures var s := run.states[n];
      && s.adkDigest == Sha256(CredentialAt(run, n, AdkDeveloper, adkCredential))
      && s.adkConfirmationKey == CredentialAt(run, n, AdkDeveloper, adkCredential)
      && s.adkGeneration == 1 + Replacements(run, n, AdkDeveloper)
      && s.operatorDigest == Sha256(CredentialAt(run, n, OperatorConsole, operatorCredential))
      && s.operatorGeneration == 1 + Replacements(run, n, OperatorConsole)
  {
    if n == 0 {
    } else {
      CredentialsInForce(run, n - 1, operatorCredential, adkCredential, token, sessionTtl, bootstrapTtl, now);
      assert StepsAt(run, n - 1);
      var (s, r) := (run.states[n - 1], run.requests[n - 1]);
      CredentialsStand(s, r);
      if ReplacesAt(run, n - 1, AdkDeveloper) {
        AdkRotation(s, r);
      }
    }
  }

  /**
   * In every state of every run a bearer token proves the ADK capability if and only if it
   * is the credential of the last ADK rotation to take effect, or the first one if there was
   * none, and likewise the operator's; the principal counts the rotations.
   */
  lemma BearerExactly(
    run: Run, n: nat, secret: string, operatorCredential: string, adkCredential: string, token: string,
    sessionTtl: real, bootstrapTtl: real, now: real)
    requires MadeWith(run, operatorCredential, adkCredential, token, sessionTtl, bootstrapTtl, now)
    requires n <= |run.requests|
    ensures var (adk, operator) :=
        (CredentialAt(run, n, AdkDeveloper, adkCredential), CredentialAt(run, n, OperatorConsole, operatorCredential));
      && adk != operator
      && AuthenticateBearer(run.states[n], Some("Bearer " + secret)) ==
         if secret == adk then
           Some(Principal(AdkDeveloper, "adk-development", "adk-developer", "adk-developer",
             1 + Replacements(run, n, AdkDeveloper), None))
         else if secret == operator then
           Some(Principal(OperatorConsole, "default-workspace", "operator-console", "local-actuary",
             1 + Replacements(run, n, OperatorConsole), None))
         else None
  {
    CredentialsInForce(run, n, operatorCredential, adkCredential, token, sessionTtl, bootstrapTtl, now);
    SoundUpTo(run, n);
    BearerUnambiguous(run, n, secret);
  }

  // Nothing but a bearer token proves anything.
  lemma OnlyBearers(s: State, authorization: Option<string>)
    ensures AuthenticateBearer(s, authorization).Some? ==>
      authorization.Some? && "Bearer " <= authorization.value
  {
  }
}
