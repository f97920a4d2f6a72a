/** What each answer of the IdP and the Gateway means, stated over the request and the stores alone. */
module Answers {
  import opened Options
  import opened Json
  import opened Settings
  import opened Reasons
  import opened Crypto
  import opened Text
  import opened ProofPayload
  import opened DeviceRegistry
  import opened JwtUtils
  import opened TokenStore
  import opened TokenBinding
  import opened PolicyEngine
  import opened AccessProtocol
  import RateLimiting
  import Revocation

  // ---- Login ----

  ghost predicate LockedAt(s: State, username: string, now: real) {
    && username in s.limiter && s.limiter[username].lockedUntil.Some?
    && now < s.limiter[username].lockedUntil.value
  }

  // The answer names the first test that fails: lockout, password, one-time code, posture.
  lemma LoginAnswers(env: Env, s: State, r: LoginRequest)
    ensures var result := HandleLogin(env, s, r).1;
            if LockedAt(s, r.username, r.checkAt) then result == Rejected(AccountLocked)
            else if !(r.username in env.users && r.passwordOk) then result == Rejected(InvalidCredentials)
            else if !r.otpOk then result == Rejected(InvalidOtp)
            else if r.posture == None then result == Rejected(MissingDevicePosture)
            else result.LoggedIn?
  {
  }

  // The device the login speaks for: the one named in the request, else the user's own, else a
  // stand-in no device enrols under by accident.
  ghost predicate SpeaksFor(env: Env, r: LoginRequest, deviceId: string) {
    && r.username in env.users
    && var own := env.users[r.username].deviceId;
    && (r.deviceId != "" ==> deviceId == r.deviceId)
    && (r.deviceId == "" && own.Some? && own.value != "" ==> Some(deviceId) == own)
    && (r.deviceId == "" && (own == None || own == Some("")) ==> deviceId == "unknown-" + r.username)
  }

  // The request carries a signature of the unexpired challenge by the stored key of the approved device.
  ghost predicate SignsItsChallenge(env: Env, s: State, r: LoginRequest, deviceId: string) {
    && r.signature.Signature? && deviceId in s.challenges && deviceId in s.devices
    && r.consumeAt <= s.challenges[deviceId].expiresAt
    && s.devices[deviceId].status == Approved
    && var key := env.primitives.loadPem(s.devices[deviceId].pem);
       key.Some? && env.primitives.verify(key.value, r.signature.bytes, s.challenges[deviceId].nonce)
  }

  // What a successful login puts into the token: who, which device, the posture score without its
  // fraction, and whether and with what key the device vouched for it.
  lemma TokenOfLogin(env: Env, s: State, r: LoginRequest)
    ensures var result := HandleLogin(env, s, r).1;
            result.LoggedIn? ==>
              && var c := result.claims;
              && r.username in env.users && r.posture.Some?
              && c.sub == r.username && c.role == env.users[r.username].role && c.jti == r.jti
              && SpeaksFor(env, r, c.deviceId)
              && (r.posture.value >= 0.0 ==> c.trust as real <= r.posture.value < c.trust as real + 1.0)
              && (r.posture.value < 0.0 ==> c.trust as real - 1.0 < r.posture.value <= c.trust as real)
              && c.iat as real <= r.mintAt < c.iat as real + 1.0
              && c.authTime == c.iat && c.exp == c.iat + env.cfg.tokenTtl
              && (c.attested <==> SignsItsChallenge(env, s, r, c.deviceId))
              && c.amr == (if c.attested then ["pwd", "otp", "device"] else ["pwd", "otp"])
              && (c.cnf.Some? <==> && env.cfg.bindingEnabled && c.deviceId in s.devices
                                   && s.devices[c.deviceId].status == Approved && s.devices[c.deviceId].thumbprint != "")
              && (c.cnf.Some? ==> c.cnf.value == s.devices[c.deviceId].thumbprint)
  {
    hide Audited, Recorded;
  }

  // A login changes its user's limiter entry, the challenge of its device, the token stores and
  // the log, and nothing else.
  lemma LoginTouches(env: Env, s: State, r: LoginRequest)
    ensures var (t, result) := HandleLogin(env, s, r);
            && t.devices == s.devices && t.revoked == s.revoked && t.nonces == s.nonces
            && t.policies == s.policies && t.hours == s.hours && t.calls == s.calls
            && (forall u | u != r.username :: RateLimiting.EntryOf(t.limiter, u) == RateLimiting.EntryOf(s.limiter, u))
            && (result.LoggedIn? ==>
                  && t.limiter[r.username := RateLimiting.Entry([], None)] == t.limiter
                  && t.minted == s.minted + [result.claims]
                  && t.challenges == (if r.signature == NoSignature then s.challenges else s.challenges - {result.claims.deviceId})
                  && (forall record :: record in t.issued <==>
                        || record == Issued(r.jti, r.username, result.claims.exp, r.storeAt, result.claims.deviceId)
                        || (record in s.issued && record.exp as real > r.storeAt)))
            && (result.Rejected? ==> t.minted == s.minted && t.issued == s.issued && t.challenges == s.challenges)
  {
    hide Audited, LoginClaims, RateLimiting.Failed;
    forall record {
      LiveIsExact(s.issued, r.storeAt, record);
    }
  }

  // A wrong password and a wrong code count alike, on top of the failures still inside the window,
  // and lock the account at the limit; a lockout or a missing posture counts nothing.
  lemma FailedLoginCounts(env: Env, s: State, r: LoginRequest)
    ensures var (t, result) := HandleLogin(env, s, r);
            var before, after := RateLimiting.EntryOf(s.limiter, r.username), RateLimiting.EntryOf(t.limiter, r.username);
            var remembered := if before.lockedUntil.Some? then [] else before.failures;
            && (result == Rejected(InvalidCredentials) || result == Rejected(InvalidOtp) ==>
                  && |after.failures| == |RateLimiting.Inside(remembered, r.recordAt, env.cfg.window)| + 1
                  && (forall t :: t in after.failures <==>
                        t == r.recordAt || (t in remembered && r.recordAt - t < env.cfg.window as real))
                  && after.lockedUntil ==
                       (if |after.failures| >= env.cfg.maxAttempts then Some(r.recordAt + env.cfg.lockout as real) else None))
            && (result == Rejected(AccountLocked) ==> after == before)
            && (result == Rejected(MissingDevicePosture) ==> after == RateLimiting.Entry(remembered, None))
  {
    hide Audited, LoginClaims, RateLimiting.Failed, Recorded;
    var checked := RateLimiting.Checked(RateLimiting.EntryOf(s.limiter, r.username), r.checkAt);
    RateLimiting.FailureLocksExactly(env.cfg, checked, r.recordAt);
  }

  // ---- Enrolment and challenges ----

  lemma EnrolmentAnswers(env: Env, s: State, r: EnrollRequest)
    ensures var (t, result) := HandleEnroll(env, s, r);
            && t == s.(devices := t.devices, log := t.log)
            && (forall d | d != r.deviceId ::
                  (d in t.devices <==> d in s.devices) && (d in s.devices ==> d in t.devices && t.devices[d] == s.devices[d]))
            && (result == BadRequest <==> r.deviceId == "" || r.pem == "")
            && (result == InvalidKey <==> r.deviceId != "" && r.pem != "" && env.primitives.loadPem(r.pem) == None)
            && (result.Enrolled? ==> r.deviceId in t.devices && result.device == t.devices[r.deviceId])
            && (!result.Enrolled? ==> t.devices == s.devices)
  {
    hide Audited;
  }

  // The nonce in the answer is the one a login has to sign within the next thirty seconds.
  lemma ChallengeAnswers(s: State, deviceId: string, nonce: string, at: real)
    ensures var (t, result) := HandleChallenge(s, deviceId, nonce, at);
            && (result == DeviceIdRequired <==> deviceId == "")
            && (result == NotEnrolled <==> deviceId != "" && deviceId !in s.devices)
            && (result.Nonce? ==>
                  t == s.(challenges := s.challenges[deviceId := Challenge(result.nonce, at + 30.0)]) && result.nonce == nonce)
            && (!result.Nonce? ==> t == s)
  {
  }

  // ---- Access ----

  // What policy reads of a token.
  ghost function Presented(c: Claims): Subject {
    Subject(c.role, Some(c.trust as real), c.attested, Some(c.authTime as real), c.amr)
  }

  ghost predicate IsLive(s: State, r: AccessRequest) {
    && r.bearer.Token? && r.bearer.claims in s.minted && r.verifyAt < r.bearer.claims.exp as real
    && (r.bearer.claims.jti != "" ==> r.bearer.claims.jti !in s.revoked)
  }

  ghost predicate NeedsProof(env: Env, c: Claims) {
    env.cfg.bindingEnabled && c.cnf != None && c.cnf != Some("")
  }

  // The proof of a bound token is well formed for this request, its nonce is unused, and the key
  // the token is pinned to signed it.
  ghost predicate ProofHolds(env: Env, s: State, r: AccessRequest, c: Claims) {
    NeedsProof(env, c) ==>
      && FitsRequest(env.cfg, c, "GET", r.path, r.proof, r.proofAt)
      && var f := Split(SEP, r.proof.data);
      && !StillHeld(s.nonces, f[4], r.proofAt)
      && SignedByPinnedKey(env.primitives, s.devices, c, r.proof.signature,
                           BuildProofPayload(f[0], f[1], f[2], ParseInt(f[3]).value, f[4]))
  }

  // The bearer tests, in order, each with its own answer.
  lemma BearerAnswers(env: Env, s: State, r: AccessRequest)
    ensures var result := HandleAccess(env, s, r).1;
            && (r.bearer == NoBearer ==> result == Denied(401, MissingBearerToken))
            && (r.bearer == Malformed ==> result == Denied(401, TokenMalformed))
            && (r.bearer.Token? ==>
                  && var c := r.bearer.claims;
                  && (c !in s.minted ==> result == Denied(401, TokenSignatureInvalid))
                  && (c in s.minted && r.verifyAt >= c.exp as real ==> result == Denied(401, TokenExpired))
                  && (c in s.minted && r.verifyAt < c.exp as real && !IsLive(s, r) ==> result == Denied(401, TokenRevoked)))
  {
    hide PlanUse, Audited;
  }

  // With a live token, the proof check answers first, and then policy: 401 for a proof that does
  // not hold and for step-up, 403 for any other denial.
  lemma AccessAnswers(env: Env, s: State, r: AccessRequest)
    requires IsLive(s, r)
    ensures var c, result := r.bearer.claims, HandleAccess(env, s, r).1;
            var proof := VerifyProof(env.cfg, env.primitives, s.nonces, s.devices, c, "GET", r.path, r.proof, r.proofAt).1;
            if !ProofHolds(env, s, r, c) then proof.ProofError? && result == Denied(401, proof.reason)
            else match Evaluate(env.cfg, s.policies, s.hours, Presented(c), r.resource, r.policyAt, r.hour)
              case Raises => result == PolicyRaised
              case Deny(reason) => result == Denied(if reason == StepUpRequired then 401 else 403, reason)
              case Allow => result == if r.resource !in env.builtIn then NoBackend else if r.backendUp then Proxied else BackendDown
  {
    AcceptedIff(env.cfg, env.primitives, s.nonces, s.devices, r.bearer.claims, "GET", r.path, r.proof, r.proofAt);
    hide VerifyProof, Audited, Evaluate, FitsRequest, SignedByPinnedKey;
  }

  // The whole decision over the values themselves: a request reaches the backend exactly when its
  // token is live, its proof holds, and it meets every value of the policy.
  lemma ReachedByTheValues(env: Env, s: State, r: AccessRequest, minRole: real, minTrust: real, limit: real)
    requires r.resource in s.policies ==> PolicyEngine.Usable(s.policies[r.resource], minRole, minTrust, limit)
    ensures Reached(HandleAccess(env, s, r).1) <==>
              && IsLive(s, r) && ProofHolds(env, s, r, r.bearer.claims)
              && r.resource in env.builtIn && r.resource in s.policies
              && MeetsValues(env.cfg, s.policies[r.resource], s.hours, Presented(r.bearer.claims), r.policyAt, r.hour,
                             minRole, minTrust, limit)
  {
    hide HandleAccess, ProofHolds, MeetsValues, PolicyEngine.Usable;
    if IsLive(s, r) {
      AccessAnswers(env, s, r);
      var c := r.bearer.claims;
      if r.resource in s.policies {
        hide Evaluate;
        AllowsByTheValues(env.cfg, s.policies, s.hours, Presented(c), r.resource, r.policyAt, r.hour, minRole, minTrust, limit);
      }
    } else {
      BearerAnswers(env, s, r);
    }
  }

  // An access changes the replay cache, the log and the list of backend calls, and nothing else;
  // it makes a call exactly when it reaches the backend.
  lemma AccessTouches(env: Env, s: State, r: AccessRequest)
    ensures var (t, result) := HandleAccess(env, s, r);
            && t == s.(nonces := t.nonces, log := t.log, calls := t.calls)
            && |t.calls| == |s.calls| + (if Reached(result) then 1 else 0) && s.calls <= t.calls
            && (Reached(result) ==> t.calls[|s.calls|].resource == r.resource)
  {
    hide ProofStage, Audited, Evaluate, Check;
  }

  // Only the check of a proof touches the replay cache.
  lemma AccessTouchesCache(env: Env, s: State, r: AccessRequest)
    ensures HandleAccess(env, s, r).0.nonces ==
              if IsLive(s, r) && NeedsProof(env, r.bearer.claims)
              then VerifyProof(env.cfg, env.primitives, s.nonces, s.devices, r.bearer.claims, "GET", r.path, r.proof, r.proofAt).0
              else s.nonces
  {
    hide VerifyProof, Audited, Evaluate;
  }

  // ---- Steps and runs ----

  // Each step keeps to its own stores.
  lemma StepsKeepToTheirStores(env: Env, s: State, step: Step)
    ensures var t := Effect(env, s, step);
            match step
            case EnrollStep(_) => t == s.(devices := t.devices, log := t.log)
            case ShowStep(_, _) => t == s
            case ConfirmStep(_, _, _) => t == s.(devices := t.devices)
            case RevokeDeviceStep(_, _, _, _, _) => t == s.(devices := t.devices, revoked := t.revoked)
            case ChallengeStep(_, _, _) => t == s.(challenges := t.challenges)
            case LoginStep(_) =>
              t == s.(limiter := t.limiter, challenges := t.challenges, minted := t.minted, issued := t.issued, log := t.log)
            case RevokeTokenStep(_, _, _) => t == s.(revoked := t.revoked)
            case RevokeUserStep(_, _, _) => t == s.(revoked := t.revoked)
            case CleanupStep(_) => t == s.(revoked := t.revoked)
            case AccessStep(_) => t == s.(nonces := t.nonces, log := t.log, calls := t.calls)
            case ReloadStep(_, _) => t == s.(policies := t.policies, hours := t.hours)
            case NoiseStep(_, _) => t == s.(log := t.log)
            case RestartIdPStep(_) => t == s.(challenges := map[], limiter := map[])
            case RestartGatewayStep(_) => t == s.(nonces := map[])
  {
    hide PlanAccess, PlanLogin, PlanEnroll, Apply, Swept, RevokedAll, Loaded, Live, JtisOfUser, Revocation.Revoked, Revocation.Cleaned;
  }

  // The policy file as it was last read.
  function LastFile(env: Env, steps: seq<Step>): PolicyFile {
    if steps == [] then env.policyFile
    else if steps[|steps| - 1].ReloadStep? then steps[|steps| - 1].file
    else LastFile(env, steps[..|steps| - 1])
  }

  lemma {:induction false} LoadedFromLastFile(env: Env, steps: seq<Step>)
    ensures (Exec(env, steps).policies, Exec(env, steps).hours) == Loaded(env.builtIn, LastFile(env, steps))
  {
    if steps != [] {
      var n := |steps| - 1;
      LoadedFromLastFile(env, steps[..n]);
      StepsKeepToTheirStores(env, Exec(env, steps[..n]), steps[n]);
      hide HandleAccess, HandleLogin, HandleEnroll, HandleChallenge, ConfirmDevice, RevokeDevice, RevokedAll, Loaded;
    }
  }

  // Over every run, the policies in force are field by field those of the file as it was last
  // read -- unless the field's name begins with an underscore -- and otherwise the built-in ones; a
  // missing or unreadable file leaves the built-in ones alone in force.
  lemma PoliciesInForce(env: Env, steps: seq<Step>, name: string, key: PolicyKey)
    ensures var s, base, file := Exec(env, steps), env.builtIn, LastFile(env, steps);
            if !file.Parsed? then s.policies == base && s.hours == Hours(0, 24)
            else
              && (name in s.policies <==> name in base || name in file.resources)
              && s.hours == (if file.hours.Some? then file.hours.value else Hours(0, 24))
              && (name in s.policies ==>
                    Json.Get(s.policies[name], key) ==
                      if name in file.resources && key in file.resources[name] && !(key.OtherKey? && "_" <= key.name)
                      then Some(file.resources[name][key])
                      else if name in base && key in base[name] then Some(base[name][key]) else None)
  {
    hide Exec, Loaded;
    LoadedFromLastFile(env, steps);
    LoadedLookup(env.builtIn, LastFile(env, steps), name, key);
  }
}
