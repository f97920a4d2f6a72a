/** End-to-end soundness of an allowed access, and completeness for honest clients. */
module EndToEnd {
  import opened Options
  import opened Json
  import opened Reasons
  import opened Settings
  import opened Crypto
  import opened DeviceRegistry
  import opened JwtUtils
  import opened TokenBinding
  import opened PolicyEngine
  import opened ProofPayload
  import opened Text
  import opened AccessProtocol
  import opened Runs
  import opened Attestation
  import opened Routing
  import opened TokenStore
  import opened CutOff
  import opened Answers
  import Revocation

  // ---- What reaching a backend means for the request itself ----

  // The token is minted, unexpired and unrevoked, it meets policy, and its proof was accepted.
  ghost predicate Cleared(env: Env, s: State, r: AccessRequest, c: Claims) {
    && r.bearer == Token(c) && c in s.minted
    && r.verifyAt < c.exp as real
    && !Revocation.IsRevoked(s.revoked, c.jti)
    && ProofStage(env, s, r, c).1 == Accepted
    && PolicyStage(env, s, r, c) == Allow
    && r.resource in env.builtIn
  }

  // A request reaches a backend exactly when it is cleared.
  lemma ReachedIffCleared(env: Env, s: State, r: AccessRequest)
    ensures Reached(HandleAccess(env, s, r).1) <==> r.bearer.Token? && Cleared(env, s, r, r.bearer.claims)
  {
  }

  // The request is signed by `key`: the signature covers the token id, the verb and path of this
  // very request, a fresh timestamp and a nonce of at least eight characters; and the signed path names the resource.
  ghost predicate ProvesPossession(env: Env, r: AccessRequest, c: Claims, key: string) {
    && r.proof.Proof?
    && var parts := Split(SEP, r.proof.data);
    && |parts| == 5 && ParseInt(parts[3]).Some? && |parts[4]| >= 8
    && var timestamp := ParseInt(parts[3]).value;
    && -(env.cfg.proofMaxAge as real) <= r.proofAt - timestamp as real <= env.cfg.proofMaxAge as real
    && env.primitives.verify(key, r.proof.signature, BuildProofPayload(c.jti, VERB, r.path, timestamp, parts[4]))
    && (Dispatched(r) ==> ResourceOf(parts[2]) == Some(r.resource))
  }

  // A proof for one resource never opens another: two requests accepted with the same proof data
  // carry the same token id and name the same resource.
  lemma ProofOpensOneResource(env: Env, s: State, r: AccessRequest, c: Claims, s': State, r': AccessRequest, c': Claims)
    requires Dispatched(r) && TokenRequiresProof(env.cfg, c) && ProofStage(env, s, r, c).1 == Accepted
    requires Dispatched(r') && TokenRequiresProof(env.cfg, c') && ProofStage(env, s', r', c').1 == Accepted
    requires r.proof.data == r'.proof.data
    ensures r.resource == r'.resource && c.jti == c'.jti
  {
    assert Split(SEP, r.proof.data)[2] == r.path && Split(SEP, r'.proof.data)[2] == r'.path;
  }

  // What an accepted proof says about a bound token.
  lemma AcceptedProof(env: Env, s: State, r: AccessRequest, c: Claims, key: string, keys: set<string>)
    requires TokenRequiresProof(env.cfg, c) && c.cnf == Some(env.primitives.thumbprint(key))
    requires ProofStage(env, s, r, c).1 == Accepted
    requires Sound(env.primitives, keys) && key in keys && CarriesKnownKey(env.primitives, s.devices, c.deviceId, keys)
    ensures ApprovedWith(s.devices, env.primitives, c.deviceId, key)
    ensures ProvesPossession(env, r, c, key)
  {
    assert CheckKey(env.primitives, s.devices, c, Rebuilt(r.proof.data), r.proof.signature) == Accepted;
    assert s.devices[c.deviceId].thumbprint == env.primitives.thumbprint(key);
  }

  // ---- Soundness over every run ----

  // Everything that stands behind an access to an attestation-gated resource: login i minted the
  // token; it spent the challenge issued at j to the same device at most 30 seconds before, signed
  // with `key`; the same key is pinned in the token, signed this request, and is still the
  // device's approved key; and an approval of it stands in the run.
  ghost predicate Evidence(env: Env, steps: seq<Step>, r: AccessRequest, c: Claims, i: int, j: int, key: string) {
    && AttestedMint(env, steps, i, j, key, c)
    && ProvesPossession(env, r, c, key) && ResourceOf(Split(SEP, r.proof.data)[2]) == Some(r.resource)
    && ApprovedWith(Exec(env, steps).devices, env.primitives, c.deviceId, key)
    && exists a :: ApprovedAt(env.primitives, RegistryOps(env, steps), a, c.deviceId, key)
  }

  // The request reaches a backend whose resource asks for attestation.
  ghost predicate ReachesGated(env: Env, s: State, r: AccessRequest) {
    && Reached(HandleAccess(env, s, r).1)
    && (r.resource in s.policies ==> Demands(s.policies[r.resource], RequireAttestation))
  }

  lemma EndToEndSoundness(env: Env, steps: seq<Step>, r: AccessRequest)
    requires SoundRun(env, steps) && env.cfg.bindingEnabled && env.cfg.requireApproval
    requires Legal(env, steps) && Dispatched(r)
    ensures ReachesGated(env, Exec(env, steps), r) ==>
              && r.bearer.Token? && Cleared(env, Exec(env, steps), r, r.bearer.claims)
              && exists i, j, key :: Evidence(env, steps, r, r.bearer.claims, i, j, key)
  {
    hide Effect;
    var s := Exec(env, steps);
    if ReachesGated(env, s, r) {
      ReachedIffCleared(env, s, r);
      var c := r.bearer.claims;
      AttestationIsEnforced(env.cfg, s.policies, s.hours, SubjectOf(c), r.resource, r.policyAt, r.hour);
      AttestedImpliesBound(env, steps, c);
      var i, j, key :| AttestedMint(env, steps, i, j, key, c);
      RegistryLineage(env, steps, c.deviceId, key);
      AcceptedProof(env, s, r, c, key, RunKeys(env.primitives, steps));
      assert Evidence(env, steps, r, c, i, j, key);
    }
  }

  // ---- Completeness ----

  // An honest client's proof: the payload the agent builds, signed with the device key, on a
  // clock within the freshness window and with a nonce the Gateway does not remember.
  ghost predicate HonestProof(env: Env, s: State, r: AccessRequest, c: Claims, key: string, timestamp: int, nonce: string) {
    && SEP !in c.jti && SEP !in r.path && SEP !in nonce && |nonce| >= 8
    && r.proof.Proof?
    && r.proof.data == BuildProofPayload(c.jti, VERB, r.path, timestamp, nonce)
    && env.primitives.verify(key, r.proof.signature, r.proof.data)
    && -(env.cfg.proofMaxAge as real) <= r.proofAt - timestamp as real <= env.cfg.proofMaxAge as real
    && nonce !in Pruned(s.nonces, r.proofAt)
  }

  lemma HonestProofIsAccepted(env: Env, s: State, r: AccessRequest, c: Claims, key: string, timestamp: int, nonce: string)
    requires HonestProof(env, s, r, c, key, timestamp, nonce)
    requires c.cnf == Some(env.primitives.thumbprint(key)) && c.deviceId != ""
    requires ApprovedWith(s.devices, env.primitives, c.deviceId, key)
    requires s.devices[c.deviceId].thumbprint == env.primitives.thumbprint(key) != ""
    ensures ProofStage(env, s, r, c).1 == Accepted
  {
    PayloadRoundTrip(c.jti, VERB, r.path, timestamp, nonce);
  }

  // An honest attested login succeeds and its token is pinned to the device key.
  lemma HonestLogin(env: Env, s: State, r: LoginRequest, device: string, key: string)
    requires env.cfg.bindingEnabled && env.primitives.thumbprint(key) != ""
    requires LoginSucceeds(env, s, r) && LoginDevice(env, r) == device
    requires device in s.challenges && r.consumeAt <= s.challenges[device].expiresAt
    requires r.signature.Signature? && env.primitives.verify(key, r.signature.bytes, s.challenges[device].nonce)
    requires ApprovedWith(s.devices, env.primitives, device, key)
    requires s.devices[device].thumbprint == env.primitives.thumbprint(key)
    ensures HandleLogin(env, s, r).1 == LoggedIn(LoginClaims(env, s, r))
    ensures var c := LoginClaims(env, s, r);
            c.attested && c.deviceId == device && c.cnf == Some(env.primitives.thumbprint(key))
            && c.amr == ["pwd", "otp", "device"] && c.exp == r.mintAt.Floor + env.cfg.tokenTtl && c.jti == r.jti
  {
  }

  // The policy of the requested resource is usable, and the token meets it in every dimension at
  // the moment policy is read.
  ghost predicate PolicyIsMet(env: Env, s: State, r: AccessRequest, c: Claims) {
    && r.resource in env.builtIn && r.resource in s.policies
    && exists minRole, minTrust, limit ::
         && PolicyEngine.Usable(s.policies[r.resource], minRole, minTrust, limit)
         && MeetsValues(env.cfg, s.policies[r.resource], s.hours, Presented(c), r.policyAt, r.hour, minRole, minTrust, limit)
  }

  // The token is not revoked, and its device is still approved with the key it is pinned to.
  ghost predicate Usable(env: Env, s: State, c: Claims, key: string) {
    c.jti !in s.revoked && ApprovedWith(s.devices, env.primitives, c.deviceId, key)
  }

  // An honest request with an unexpired token that meets policy, attested or not.
  ghost predicate HonestRequest(env: Env, s: State, r: AccessRequest, c: Claims, key: string, timestamp: int, nonce: string) {
    && r.bearer == Token(c) && r.verifyAt < c.exp as real
    && HonestProof(env, s, r, c, key, timestamp, nonce)
    && PolicyIsMet(env, s, r, c)
  }

  // A minted token that is bound to `key`.
  ghost predicate BoundTo(env: Env, s: State, c: Claims, key: string) {
    c in s.minted && c.jti != "" && c.deviceId != "" && c.cnf == Some(env.primitives.thumbprint(key))
  }

  // Such a request reaches the backend exactly when the token is usable.
  lemma HonestUse(env: Env, s: State, r: AccessRequest, c: Claims, key: string, timestamp: int, nonce: string, keys: set<string>)
    requires env.cfg.bindingEnabled && BoundTo(env, s, c, key)
    requires HonestRequest(env, s, r, c, key, timestamp, nonce)
    requires Sound(env.primitives, keys) && key in keys && CarriesKnownKey(env.primitives, s.devices, c.deviceId, keys)
    ensures Reached(HandleAccess(env, s, r).1) <==> Usable(env, s, c, key)
  {
    hide HandleAccess, HonestProof, MeetsValues, Evaluate;
    ReachedIffCleared(env, s, r);
    var minRole, minTrust, limit :|
      && PolicyEngine.Usable(s.policies[r.resource], minRole, minTrust, limit)
      && MeetsValues(env.cfg, s.policies[r.resource], s.hours, Presented(c), r.policyAt, r.hour, minRole, minTrust, limit);
    AllowsByTheValues(env.cfg, s.policies, s.hours, SubjectOf(c), r.resource, r.policyAt, r.hour, minRole, minTrust, limit);
    if ProofStage(env, s, r, c).1 == Accepted {
      AcceptedProof(env, s, r, c, key, keys);
    } else if ApprovedWith(s.devices, env.primitives, c.deviceId, key) {
      HonestProofIsAccepted(env, s, r, c, key, timestamp, nonce);
    }
  }

  // ---- Other clients in between ----

  // The step leaves the token usable: it does not revoke the device, enrol another key for it, or
  // revoke the token or its user while the token lives.
  predicate SparesToken(env: Env, step: Step, c: Claims, key: string) {
    match step
    case RevokeDeviceStep(deviceId, _, _, _, _) => deviceId != c.deviceId
    case EnrollStep(r) =>
      r.deviceId != c.deviceId || r.pem == "" || env.primitives.loadPem(r.pem) in {None, Some(key)}
    case RevokeTokenStep(jti, _, _) => jti != c.jti
    case RevokeUserStep(username, _, at) => username != c.sub || c.exp as real <= at
    case _ => true
  }

  // The index lists the token as it is, and does list it while it lives.
  ghost predicate Indexed(s: State, c: Claims, now: real) {
    && ListedAs(Live(s.issued, now), c)
    && (c.exp as real > now ==> exists r :: r in Live(s.issued, now) && r.jti == c.jti)
  }

  lemma TokenIsIndexed(env: Env, steps: seq<Step>, c: Claims, now: real)
    requires Legal(env, steps) && c in Exec(env, steps).minted && now >= Clock(steps)
    ensures Indexed(Exec(env, steps), c, now)
  {
    hide Effect;
    TokenHasOneRecord(env, steps, c, now);
    if c.exp as real > now {
      var r := LiveTokensAreListed(env, steps, c);
      LiveIsExact(Exec(env, steps).issued, now, r);
    }
  }

  lemma LiveIsLater(records: seq<Issued>, now: real)
    ensures forall r | r in Live(records, now) :: r.exp as real > now
  {
    forall r | r in Live(records, now) ensures r.exp as real > now {
      LiveIsExact(records, now, r);
    }
  }

  lemma WhatRevokesAToken(env: Env, s: State, step: Step, c: Claims)
    requires c.jti !in s.revoked && Indexed(s, c, End(step))
    ensures c.jti in Effect(env, s, step).revoked <==>
            || (step.RevokeTokenStep? && step.jti == c.jti)
            || (step.RevokeUserStep? && step.username == c.sub && c.exp as real > step.at)
            || (step.RevokeDeviceStep? && step.deviceId == c.deviceId && c.deviceId in s.devices && c.exp as real > step.sweepAt)
  {
    hide PlanAccess, PlanLogin, PlanEnroll, Apply;
    if step.RevokeUserStep? || step.RevokeDeviceStep? {
      LiveIsLater(s.issued, End(step));
    }
    match step
    case RevokeDeviceStep(deviceId, _, _, _, sweepAt) =>
      SweepRevokes(s.revoked, Live(s.issued, sweepAt), deviceId, sweepAt, c.jti, c.exp);
    case RevokeUserStep(username, why, at) =>
      RevokedAllEntries(s.revoked, JtisOfUser(Live(s.issued, at), username), why, at, c.jti);
      JtisOfUserIsExact(Live(s.issued, at), username, c.jti);
    case _ =>
  }

  lemma WhatEndsAnApproval(env: Env, s: State, step: Step, deviceId: string, key: string, keys: set<string>)
    requires ApprovedWith(s.devices, env.primitives, deviceId, key) && deviceId != ""
    requires Sound(env.primitives, keys) && KeyOf(env.primitives, step) <= keys
    requires CarriesKnownKey(env.primitives, s.devices, deviceId, keys)
    ensures ApprovedWith(Effect(env, s, step).devices, env.primitives, deviceId, key) <==>
            && !(step.RevokeDeviceStep? && step.deviceId == deviceId)
            && !(step.EnrollStep? && step.enroll.deviceId == deviceId && step.enroll.pem != ""
                 && env.primitives.loadPem(step.enroll.pem) !in {None, Some(key)})
  {
    hide PlanAccess, PlanLogin, Swept, Live, Audited, RevokedAll, JtisOfUser;
  }

  // Exactly the sparing steps keep a usable token usable, whoever issues them.
  lemma SparingStepsKeepTokensUsable(env: Env, s: State, step: Step, c: Claims, key: string, keys: set<string>)
    requires Usable(env, s, c, key) && c.deviceId != ""
    requires Sound(env.primitives, keys) && KeyOf(env.primitives, step) <= keys
    requires CarriesKnownKey(env.primitives, s.devices, c.deviceId, keys)
    requires Indexed(s, c, End(step))
    ensures Usable(env, Effect(env, s, step), c, key) <==> SparesToken(env, step, c, key)
  {
    hide Effect, Indexed, ApprovedWith, CarriesKnownKey, KeyOf;
    WhatRevokesAToken(env, s, step, c);
    WhatEndsAnApproval(env, s, step, c.deviceId, key, keys);
  }

  // One more step of a run, for a token that is usable before it.
  lemma OneMoreStep(env: Env, steps: seq<Step>, step: Step, c: Claims, key: string)
    requires SoundRun(env, steps + [step]) && Legal(env, steps + [step])
    requires c in Exec(env, steps).minted && c.deviceId != "" && Usable(env, Exec(env, steps), c, key)
    ensures Usable(env, Exec(env, steps + [step]), c, key) <==> SparesToken(env, step, c, key)
  {
    hide Effect, SparesToken;
    ExecAppend(env, steps, step);
    LegalStep(env, steps + [step], |steps|);
    assert (steps + [step])[..|steps|] == steps;
    RecordsOfRun(env, steps, c.deviceId);
    TokenIsIndexed(env, steps, c, End(step));
    SparingStepsKeepTokensUsable(env, Exec(env, steps), step, c, key, RunKeys(env.primitives, steps + [step]));
  }

  lemma {:induction false} StaysUsable(env: Env, steps: seq<Step>, later: seq<Step>, c: Claims, key: string)
    requires SoundRun(env, steps + later) && Legal(env, steps + later)
    requires c in Exec(env, steps).minted && c.deviceId != "" && Usable(env, Exec(env, steps), c, key)
    requires forall step | step in later :: SparesToken(env, step, c, key)
    ensures Usable(env, Exec(env, steps + later), c, key)
  {
    hide Effect, Usable, SparesToken;
    if later == [] {
      assert steps + later == steps;
    } else {
      var n := |later| - 1;
      var run := steps + later[..n];
      assert steps + later == run + [later[n]];
      assert run == (steps + later)[..|run|];
      LegalPrefix(env, steps + later, |run|);
      RunKeysGrow(env.primitives, steps + later, |run|);
      assert run[..|steps|] == steps && run[..|run|] == run;
      MintedPersists(env, run, |steps|, |run|, c);
      StaysUsable(env, steps, later[..n], c, key);
      OneMoreStep(env, run, later[n], c, key);
    }
  }

  lemma AfterLogin(env: Env, steps: seq<Step>, login: LoginRequest)
    requires LoginSucceeds(env, Exec(env, steps), login)
    ensures var s, t := Exec(env, steps), Exec(env, steps + [LoginStep(login)]);
            t.minted == s.minted + [LoginClaims(env, s, login)] && t.devices == s.devices && t.revoked == s.revoked
  {
    ExecAppend(env, steps, LoginStep(login));
    LoginOutcome(env, Exec(env, steps), login);
    hide PlanLogin;
  }

  // What a login from an approved device leaves: a bound token, usable unless its id was revoked
  // in advance.
  lemma LoginBindsToken(env: Env, steps: seq<Step>, login: LoginRequest, key: string)
    requires SoundRun(env, steps) && env.cfg.bindingEnabled && LoginSucceeds(env, Exec(env, steps), login)
    requires ApprovedWith(Exec(env, steps).devices, env.primitives, LoginDevice(env, login), key)
    requires login.jti != "" && login.jti !in Exec(env, steps).revoked
    ensures var s, c := Exec(env, steps + [LoginStep(login)]), LoginClaims(env, Exec(env, steps), login);
            BoundTo(env, s, c, key) && Usable(env, s, c, key) && key in RunKeys(env.primitives, steps)
  {
    hide Effect, PlanLogin;
    var s := Exec(env, steps);
    RecordsOfRun(env, steps, LoginDevice(env, login));
    LoginOutcome(env, s, login);
    AfterLogin(env, steps, login);
  }

  lemma FreshIdOfLogin(env: Env, before: seq<Step>, login: LoginRequest, later: seq<Step>)
    requires Legal(env, before + [LoginStep(login)] + later)
    ensures login.jti != "" && Legal(env, before)
  {
    hide Effect;
    var steps := before + [LoginStep(login)] + later;
    assert steps[..|before|] == before && steps[|before|] == LoginStep(login);
    LegalPrefix(env, steps, |before|);
    LegalStep(env, steps, |before|);
  }

  lemma KeysOfLogin(env: Env, before: seq<Step>, login: LoginRequest, later: seq<Step>)
    ensures RunKeys(env.primitives, before) <= RunKeys(env.primitives, before + [LoginStep(login)] + later)
  {
    var steps := before + [LoginStep(login)] + later;
    assert steps[..|before|] == before;
    RunKeysGrow(env.primitives, steps, |before|);
  }

  lemma StillBound(env: Env, start: seq<Step>, later: seq<Step>, c: Claims, key: string)
    requires BoundTo(env, Exec(env, start), c, key)
    ensures BoundTo(env, Exec(env, start + later), c, key)
  {
    hide Effect;
    var steps := start + later;
    assert steps[..|start|] == start && steps[..|steps|] == steps;
    MintedPersists(env, steps, |start|, |steps|, c);
  }

  lemma UseAfterRun(env: Env, steps: seq<Step>, r: AccessRequest, c: Claims, key: string, timestamp: int, nonce: string)
    requires SoundRun(env, steps) && env.cfg.bindingEnabled && BoundTo(env, Exec(env, steps), c, key)
    requires key in RunKeys(env.primitives, steps)
    requires HonestRequest(env, Exec(env, steps), r, c, key, timestamp, nonce)
    ensures Reached(HandleAccess(env, Exec(env, steps), r).1) <==> Usable(env, Exec(env, steps), c, key)
  {
    hide Effect, HandleAccess, HonestRequest, Usable;
    RecordsOfRun(env, steps, c.deviceId);
    HonestUse(env, Exec(env, steps), r, c, key, timestamp, nonce, RunKeys(env.primitives, steps));
  }

  // After any run in which the device is approved with its key, the token of a successful login
  // stays usable through any later steps of any clients that spare it, and an honest request made
  // with it then reaches the backend.
  lemma HonestClientIsServed(env: Env, before: seq<Step>, login: LoginRequest, later: seq<Step>, r: AccessRequest,
                             key: string, timestamp: int, nonce: string)
    requires SoundRun(env, before + [LoginStep(login)] + later) && env.cfg.bindingEnabled
    requires Legal(env, before + [LoginStep(login)] + later)
    requires LoginSucceeds(env, Exec(env, before), login)
    requires ApprovedWith(Exec(env, before).devices, env.primitives, LoginDevice(env, login), key)
    requires login.jti !in Exec(env, before).revoked
    requires forall step | step in later :: SparesToken(env, step, LoginClaims(env, Exec(env, before), login), key)
    ensures var s, c := Exec(env, before + [LoginStep(login)] + later), LoginClaims(env, Exec(env, before), login);
            HonestRequest(env, s, r, c, key, timestamp, nonce) ==> Reached(HandleAccess(env, s, r).1)
  {
    hide Effect, HandleAccess, SparesToken, HonestRequest, Usable, LoginClaims;
    var c, start := LoginClaims(env, Exec(env, before), login), before + [LoginStep(login)];
    var steps := start + later;
    FreshIdOfLogin(env, before, login, later);
    KeysOfLogin(env, before, login, later);
    LoginBindsToken(env, before, login, key);
    StaysUsable(env, start, later, c, key);
    StillBound(env, start, later, c, key);
    if HonestRequest(env, Exec(env, steps), r, c, key, timestamp, nonce) {
      UseAfterRun(env, steps, r, c, key, timestamp, nonce);
    }
  }

  // And it is exactly the sparing steps that spare it: of one more step, an honest request after
  // it tells.
  lemma ServedIffSpared(env: Env, before: seq<Step>, login: LoginRequest, later: seq<Step>, last: Step, r: AccessRequest,
                        key: string, timestamp: int, nonce: string)
    requires SoundRun(env, before + [LoginStep(login)] + later + [last]) && env.cfg.bindingEnabled
    requires Legal(env, before + [LoginStep(login)] + later + [last])
    requires LoginSucceeds(env, Exec(env, before), login)
    requires ApprovedWith(Exec(env, before).devices, env.primitives, LoginDevice(env, login), key)
    requires login.jti !in Exec(env, before).revoked
    requires forall step | step in later :: SparesToken(env, step, LoginClaims(env, Exec(env, before), login), key)
    ensures var s, c := Exec(env, before + [LoginStep(login)] + later + [last]), LoginClaims(env, Exec(env, before), login);
            HonestRequest(env, s, r, c, key, timestamp, nonce) ==>
              (Reached(HandleAccess(env, s, r).1) <==> SparesToken(env, last, c, key))
  {
    hide Effect, HandleAccess, SparesToken, HonestRequest, Usable, LoginClaims;
    var c, start := LoginClaims(env, Exec(env, before), login), before + [LoginStep(login)];
    var steps := start + later;
    assert (steps + [last])[..|steps|] == steps && steps + [last] == start + (later + [last]);
    LegalPrefix(env, steps + [last], |steps|);
    RunKeysGrow(env.primitives, steps + [last], |steps|);
    FreshIdOfLogin(env, before, login, later);
    KeysOfLogin(env, before, login, later);
    LoginBindsToken(env, before, login, key);
    StaysUsable(env, start, later, c, key);
    StillBound(env, start, later, c, key);
    StillBound(env, start, later + [last], c, key);
    OneMoreStep(env, steps, last, c, key);
    if HonestRequest(env, Exec(env, steps + [last]), r, c, key, timestamp, nonce) {
      UseAfterRun(env, steps + [last], r, c, key, timestamp, nonce);
    }
  }

  // The attested half, over any run: the client's challenge may be followed by any steps of any
  // clients that neither replace nor spend it nor restart the IdP.
  lemma HonestLoginIsAttested(env: Env, steps: seq<Step>, j: nat, login: LoginRequest, key: string)
    requires SoundRun(env, steps) && env.cfg.bindingEnabled && LoginSucceeds(env, Exec(env, steps), login)
    requires ApprovedWith(Exec(env, steps).devices, env.primitives, LoginDevice(env, login), key)
    ensures var c := LoginClaims(env, Exec(env, steps), login);
            && Outstanding(env, steps, j, LoginDevice(env, login)) && NoIdPRestart(steps, j)
            && login.consumeAt <= steps[j].at + 30.0
            && login.signature.Signature? && env.primitives.verify(key, login.signature.bytes, steps[j].nonce)
            ==> c.attested && c.cnf == Some(env.primitives.thumbprint(key)) && c.amr == ["pwd", "otp", "device"]
  {
    hide Effect, LoginClaims;
    var device := LoginDevice(env, login);
    if && Outstanding(env, steps, j, device) && NoIdPRestart(steps, j)
       && login.consumeAt <= steps[j].at + 30.0
       && login.signature.Signature? && env.primitives.verify(key, login.signature.bytes, steps[j].nonce)
    {
      OutstandingIsHeld(env, steps, j, device);
      RecordsOfRun(env, steps, device);
      HonestLogin(env, Exec(env, steps), login, device, key);
    }
  }

  // ---- Step-up ----

  // A request whose token is live and whose proof is accepted is told to step up exactly when it
  // passes the checks before that one and its authentication is older than the limit at the moment
  // policy is read -- which is after the moment the token was found to be unexpired.
  lemma StepUpAtTheGateway(env: Env, s: State, r: AccessRequest, c: Claims, minRole: real, minTrust: real, limit: real)
    requires r.bearer == Token(c) && IsLive(s, r) && ProofHolds(env, s, r, c)
    requires r.resource in s.policies && PolicyEngine.Usable(s.policies[r.resource], minRole, minTrust, limit)
    ensures var policy := s.policies[r.resource];
            HandleAccess(env, s, r).1 == Denied(401, StepUpRequired) <==>
            && RoleIsHighEnough(env.cfg, Presented(c), minRole) && c.trust as real >= minTrust
            && (Demands(policy, RequireAttestation) ==> c.attested)
            && env.cfg.stepUpEnabled && Demands(policy, MaxAuthAgeSeconds) && r.policyAt - c.authTime as real > limit
  {
    StepsUpByTheValues(env.cfg, s.policies, s.hours, Presented(c), r.resource, r.policyAt, r.hour, minRole, minTrust, limit);
    hide HandleAccess, ProofHolds, Demands, Evaluate, PolicyEngine.Usable;
    AccessAnswers(env, s, r);
  }

  // So a limit equal to the token lifetime does not rule it out: the token may expire between the
  // two readings.
  lemma StepUpDespiteTheLimit(env: Env, s: State, r: AccessRequest, c: Claims, minRole: real, minTrust: real)
    requires r.bearer == Token(c) && IsLive(s, r) && ProofHolds(env, s, r, c)
    requires r.verifyAt < c.exp as real < r.policyAt && c.exp == c.authTime + env.cfg.tokenTtl
    requires r.resource in s.policies
    requires PolicyEngine.Usable(s.policies[r.resource], minRole, minTrust, env.cfg.tokenTtl as real)
    requires env.cfg.stepUpEnabled && Demands(s.policies[r.resource], MaxAuthAgeSeconds)
    requires RoleIsHighEnough(env.cfg, Presented(c), minRole) && c.trust as real >= minTrust
    requires Demands(s.policies[r.resource], RequireAttestation) ==> c.attested
    ensures HandleAccess(env, s, r).1 == Denied(401, StepUpRequired)
  {
    hide HandleAccess, ProofHolds, PolicyEngine.Usable, Demands;
    StepUpAtTheGateway(env, s, r, c, minRole, minTrust, env.cfg.tokenTtl as real);
  }

  // A run in which that happens: a pending device logs in at time 0, and its request is checked half
  // a second before the token expires and judged half a second after.
  lemma StepUpRun(env: Env, user: string, device: string, pem: string, posture: real, resource: string,
                  minRole: real, minTrust: real)
    returns (steps: seq<Step>, r: AccessRequest)
    requires Deploys(env, user, device, pem, resource) && env.cfg.tokenTtl >= 1
    requires var policies := Initial(env).policies;
             && resource in policies
             && PolicyEngine.Usable(policies[resource], minRole, minTrust, env.cfg.tokenTtl as real)
             && Demands(policies[resource], MaxAuthAgeSeconds) && !Demands(policies[resource], RequireAttestation)
    requires env.cfg.stepUpEnabled && Truncate(posture) as real >= minTrust
    requires (var role := env.users[user].role; if role in env.cfg.roleLevels then env.cfg.roleLevels[role] else 0) as real >= minRole
    ensures Legal(env, steps + [AccessStep(r)])
    ensures HandleAccess(env, Exec(env, steps), r).1 == Denied(401, StepUpRequired)
  {
    hide ResourceOf, Effect, HandleAccess, LoginClaims, PathOf, Loaded, Demands, PolicyEngine.Usable;
    var c;
    steps, c := UnboundToken(env, user, device, pem, posture, resource);
    var early, late := env.cfg.tokenTtl as real - 0.5, env.cfg.tokenTtl as real + 0.5;
    var stamp := Stamp(late, "", NO_TEXT);
    r := AccessRequest(resource, Token(c), PathOf(resource), NoProof, "", 0, true, early, late, late, stamp, stamp);
    ResourceIsFound(resource);
    ExecAppend(env, steps, AccessStep(r));
    StepUpDespiteTheLimit(env, Exec(env, steps), r, c, minRole, minTrust);
  }
}
