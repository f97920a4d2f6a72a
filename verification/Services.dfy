/** The request handlers and administrator commands in the form the source gives them: objects
    whose methods read and change the stores step by step. Each is proved to do exactly what the
    step of the same name in AccessProtocol does. */
module Services {
  import opened Options
  import opened Reasons
  import opened AuditRecords
  import opened DeviceRegistry
  import opened JwtUtils
  import opened TokenStore
  import opened TokenBinding
  import opened PolicyEngine
  import opened AccessProtocol
  import AuditLog
  import RateLimiting
  import Revocation

  // The state the servers and the command-line tools share.
  class Stores {
    const env: Env
    const registry: Registry
    const limiter: RateLimiting.RateLimiter
    const tokens: IssuedTokens
    const issuer: Issuer
    const revocations: Revocation.RevocationList
    const verifier: ProofVerifier
    const pdp: PolicyDecisionPoint
    const log: AuditLog.Log
    var calls: seq<BackendCall>

    ghost predicate Valid() {
      && registry.cfg == env.cfg && registry.primitives == env.primitives
      && limiter.cfg == env.cfg
      && issuer.cfg == env.cfg && issuer.store == tokens
      && verifier.cfg == env.cfg && verifier.primitives == env.primitives && verifier.registry == registry
      && pdp.cfg == env.cfg && pdp.builtIn == env.builtIn
      && log.digest == env.digest
    }

    ghost function Objects(): set<object> {
      {this, registry, limiter, tokens, issuer, revocations, verifier, pdp, log}
    }

    ghost function View(): State
      reads Objects()
    {
      State(registry.devices, registry.challenges, limiter.table, issuer.minted, tokens.records, revocations.table,
            verifier.seenNonces, pdp.policies, pdp.hours, log.lines, calls)
    }

    constructor (env: Env)
      ensures this.env == env && Valid() && fresh(Objects())
      ensures View() == Initial(env)
    {
      var sharedRegistry := new Registry(env.cfg, env.primitives);
      var sharedTokens := new IssuedTokens();
      this.env := env;
      registry := sharedRegistry;
      limiter := new RateLimiting.RateLimiter(env.cfg);
      tokens := sharedTokens;
      issuer := new Issuer(env.cfg, sharedTokens);
      revocations := new Revocation.RevocationList();
      verifier := new ProofVerifier(env.cfg, env.primitives, sharedRegistry);
      pdp := new PolicyDecisionPoint(env.cfg, env.builtIn);
      log := new AuditLog.Log(env.digest);
      calls := [];
      new;
      pdp.ReloadPolicies(env.policyFile);
    }

    // log_event(**fields)
    method LogEvent(record: AuditRecord, stamp: Stamp)
      requires Valid()
      modifies log
      ensures log.lines == Audited(env, old(log.lines), record, stamp)
    {
      log.LogEvent(Fields(record, stamp.free), stamp.at, stamp.iso);
    }

    method ProxyToBackend(resource: string, backendUp: bool) returns (ok: bool)
      modifies this
      ensures calls == old(calls) + [BackendCall(resource, |log.lines|)]
      ensures ok == backendUp
    {
      calls := calls + [BackendCall(resource, |log.lines|)];
      ok := backendUp;
    }
  }

  /** idp/idp_server.py */
  class IdPHandler {
    const stores: Stores

    constructor (stores: Stores)
      ensures this.stores == stores
    {
      this.stores := stores;
    }

    method HandleEnroll(r: EnrollRequest) returns (result: EnrollResult)
      requires stores.Valid()
      modifies stores.Objects()
      ensures (stores.View(), result) == AccessProtocol.HandleEnroll(stores.env, old(stores.View()), r)
    {
      if r.deviceId == "" || r.pem == "" {
        return BadRequest;
      }
      var record := stores.registry.RegisterDevice(r.deviceId, r.pem, r.at);
      if record == None {
        stores.LogEvent(Enrolment(r.deviceId, r.sourceIp, Refused, InvalidPublicKey, None), r.stamp);
        return InvalidKey;
      }
      var status := record.value.status;
      stores.LogEvent(Enrolment(r.deviceId, r.sourceIp, if status == Approved then Allowed else Waiting,
                                StatusReason(status), Some(record.value.thumbprint)), r.stamp);
      return Enrolled(record.value);
    }

    method HandleChallenge(deviceId: string, nonce: string, at: real) returns (result: ChallengeResult)
      requires stores.Valid()
      modifies stores.Objects()
      ensures (stores.View(), result) == AccessProtocol.HandleChallenge(old(stores.View()), deviceId, nonce, at)
    {
      if deviceId == "" {
        return DeviceIdRequired;
      }
      if deviceId !in stores.registry.devices {
        return NotEnrolled;
      }
      stores.registry.IssueChallenge(deviceId, nonce, at);
      return Nonce(nonce);
    }

    method HandleLogin(r: LoginRequest) returns (result: LoginResult)
      requires stores.Valid()
      modifies stores.limiter, stores.registry, stores.issuer, stores.tokens, stores.log
      ensures (stores.View(), result) == AccessProtocol.HandleLogin(stores.env, old(stores.View()), r)
    {
      hide Audited, Recorded, MintClaims;
      var env := stores.env;
      // 0) Lockout, before the credentials are looked at.
      var locked, retryAfter := stores.limiter.IsLockedOut(r.username, r.checkAt);
      if locked {
        result := Refuse(r, AccountLocked);
        return;
      }
      // 1) Password
      if r.username !in env.users || !r.passwordOk {
        stores.limiter.RecordFailure(r.username, r.recordAt);
        assert stores.limiter.table == old(stores.limiter.table)[r.username := stores.limiter.table[r.username]];
        result := Refuse(r, InvalidCredentials);
        return;
      }
      // 2) One-time code
      if !r.otpOk {
        stores.limiter.RecordFailure(r.username, r.recordAt);
        assert stores.limiter.table == old(stores.limiter.table)[r.username := stores.limiter.table[r.username]];
        result := Refuse(r, InvalidOtp);
        return;
      }
      // 3) Device posture
      if r.posture == None {
        result := Refuse(r, MissingDevicePosture);
        return;
      }
      stores.limiter.RecordSuccess(r.username);
      assert stores.limiter.table == old(stores.limiter.table)[r.username := RateLimiting.CLEAR];
      assert LoginClaims(env, stores.View(), r) == LoginClaims(env, old(stores.View()), r);
      result := CompleteLogin(r);
    }

    // Attestation, token binding, and the token itself.
    method CompleteLogin(r: LoginRequest) returns (result: LoginResult)
      requires stores.Valid() && CredentialsOk(stores.env, r) && r.posture.Some?
      modifies stores.registry, stores.issuer, stores.tokens, stores.log
      ensures result == LoggedIn(LoginClaims(stores.env, old(stores.View()), r))
      ensures stores.registry.devices == old(stores.registry.devices)
      ensures stores.registry.challenges ==
                if r.signature == NoSignature then old(stores.registry.challenges)
                else old(stores.registry.challenges) - {result.claims.deviceId}
      ensures stores.issuer.minted == old(stores.issuer.minted) + [result.claims]
      ensures stores.tokens.records == Recorded(old(stores.tokens.records), r.jti, r.username, result.claims.exp,
                                                result.claims.deviceId, r.storeAt)
      ensures var grant := GrantOf(stores.env.cfg, result.claims);
              stores.log.lines == Audited(stores.env, old(stores.log.lines),
                                          Authentication(r.username, r.sourceIp, Allowed, MfaOk, Some(grant)), r.stamp)
    {
      hide Audited, Verdict, Recorded, LoginAttests;
      var env := stores.env;
      var user := env.users[r.username];
      var deviceId := if r.deviceId != "" then r.deviceId
                      else if user.deviceId.Some? && user.deviceId.value != "" then user.deviceId.value
                      else "unknown-" + r.username;
      // 4) Attestation
      var attested := Attest(r, deviceId);
      // 5) Token binding
      var cnf := PinnedKey(deviceId);
      var amr := ["pwd", "otp"];
      if attested {
        amr := amr + ["device"];
        assert amr == ["pwd", "otp", "device"];
      }
      var claims := stores.issuer.IssueToken(r.username, user.role, deviceId, Truncate(r.posture.value), attested,
                                             cnf, None, amr, r.jti, r.mintAt, r.storeAt);
      stores.LogEvent(Authentication(r.username, r.sourceIp, Allowed, MfaOk, Some(GrantOf(env.cfg, claims))), r.stamp);
      return LoggedIn(claims);
    }

    method Attest(r: LoginRequest, deviceId: string) returns (attested: bool)
      requires stores.Valid() && CredentialsOk(stores.env, r) && deviceId == LoginDevice(stores.env, r)
      modifies stores.registry`challenges
      ensures attested == LoginAttests(stores.env, old(stores.View()), r)
      ensures stores.registry.challenges ==
                if r.signature == NoSignature then old(stores.registry.challenges)
                else old(stores.registry.challenges) - {deviceId}
    {
      attested := false;
      if r.signature != NoSignature {
        attested := stores.registry.VerifyAndConsume(deviceId, r.signature, r.consumeAt);
      }
    }

    method PinnedKey(deviceId: string) returns (cnf: Option<string>)
      ensures cnf == BindingOf(stores.env, stores.View(), deviceId)
    {
      cnf := None;
      if stores.env.cfg.bindingEnabled {
        if deviceId in stores.registry.devices && stores.registry.devices[deviceId].status == Approved {
          cnf := Some(stores.registry.devices[deviceId].thumbprint);
        }
      }
    }

    method Refuse(r: LoginRequest, reason: Reason) returns (result: LoginResult)
      requires stores.Valid()
      modifies stores.log
      ensures stores.log.lines == Audited(stores.env, old(stores.log.lines),
                                          Authentication(r.username, r.sourceIp, Refused, reason, None), r.stamp)
      ensures result == Rejected(reason)
    {
      stores.LogEvent(Authentication(r.username, r.sourceIp, Refused, reason, None), r.stamp);
      result := Rejected(reason);
    }
  }

  lemma DecisionIgnoresNonces(env: Env, s: State, r: AccessRequest, nonces: Nonces, claims: Claims)
    ensures PlanDecision(env, s.(nonces := nonces), r, nonces, claims) == PlanDecision(env, s, r, nonces, claims)
  {
  }

  /** gateway/gateway_server.py */
  class GatewayHandler {
    const stores: Stores

    constructor (stores: Stores)
      ensures this.stores == stores
    {
      this.stores := stores;
    }

    method HandleAccess(r: AccessRequest) returns (result: AccessResult)
      requires stores.Valid()
      modifies stores, stores.log, stores.verifier
      ensures (stores.View(), result) == AccessProtocol.HandleAccess(stores.env, old(stores.View()), r)
    {
      if r.bearer == NoBearer {
        result := Refuse(r, 401, MissingBearerToken, Anonymous);
        return;
      }
      var check := stores.issuer.VerifyToken(r.bearer, r.verifyAt);
      if check.TokenError? {
        result := Refuse(r, 401, check.reason, Anonymous);
        return;
      }
      var claims := check.claims;
      if claims.jti != "" && claims.jti in stores.revocations.table {
        result := Refuse(r, 401, TokenRevoked, SeenIn(claims));
        return;
      }
      result := UseToken(r, claims);
    }

    // Token binding, then policy.
    method UseToken(r: AccessRequest, claims: Claims) returns (result: AccessResult)
      requires stores.Valid()
      modifies stores, stores.log, stores.verifier
      ensures var plan := PlanUse(stores.env, old(stores.View()), r, claims);
              stores.verifier.seenNonces == plan.nonces && stores.log.lines == plan.log
              && stores.calls == plan.calls && result == plan.result
    {
      hide Audited, Evaluate;
      var proof := Accepted;
      if TokenRequiresProof(stores.env.cfg, claims) {
        proof := stores.verifier.Verify(claims, VERB, r.path, r.proof, r.proofAt);
      }
      assert (stores.verifier.seenNonces, proof) == ProofStage(stores.env, old(stores.View()), r, claims);
      if proof.ProofError? {
        result := Refuse(r, 401, proof.reason, SeenIn(claims));
        return;
      }
      DecisionIgnoresNonces(stores.env, old(stores.View()), r, stores.verifier.seenNonces, claims);
      result := Decide(r, claims);
    }

    // Policy, the audit line, then the backend.
    method Decide(r: AccessRequest, claims: Claims) returns (result: AccessResult)
      requires stores.Valid()
      modifies stores, stores.log
      ensures var plan := PlanDecision(stores.env, old(stores.View()), r, old(stores.verifier.seenNonces), claims);
              stores.log.lines == plan.log && stores.calls == plan.calls && result == plan.result
    {
      var decision := stores.pdp.Decide(SubjectOf(claims), r.resource, r.policyAt, r.hour);
      match decision {
        case Raises => return PolicyRaised;
        case Deny(reason) =>
          result := Refuse(r, if reason == StepUpRequired then 401 else 403, reason, ProfileOf(claims));
          return;
        case Allow =>
      }
      stores.LogEvent(Access(r.resource, r.sourceIp, Allowed, PolicyMatch, ProfileOf(claims)), r.stamp);
      if r.resource !in stores.env.builtIn {
        return NoBackend;
      }
      var ok := stores.ProxyToBackend(r.resource, r.backendUp);
      if !ok {
        stores.LogEvent(Access(r.resource, r.sourceIp, Errored, BackendUnreachable, Named(claims.sub)), r.errorStamp);
        return BackendDown;
      }
      return Proxied;
    }

    method Refuse(r: AccessRequest, status: int, reason: Reason, caller: Caller) returns (result: AccessResult)
      requires stores.Valid()
      modifies stores.log
      ensures stores.log.lines == Audited(stores.env, old(stores.log.lines),
                                          Access(r.resource, r.sourceIp, Refused, reason, caller), r.stamp)
      ensures result == Denied(status, reason)
    {
      stores.LogEvent(Access(r.resource, r.sourceIp, Refused, reason, caller), r.stamp);
      result := Denied(status, reason);
    }
  }

  // Where a device's records stand in a list.
  ghost function PositionsOf(records: seq<Issued>, deviceId: string): set<nat> {
    set i: nat | i < |records| && records[i].deviceId == deviceId
  }

  lemma OneMorePosition(records: seq<Issued>, i: nat, deviceId: string)
    requires i < |records|
    ensures |PositionsOf(records[..i + 1], deviceId)|
         == |PositionsOf(records[..i], deviceId)| + (if records[i].deviceId == deviceId then 1 else 0)
  {
    var before, after := PositionsOf(records[..i], deviceId), PositionsOf(records[..i + 1], deviceId);
    assert after == if records[i].deviceId == deviceId then before + {i} else before;
  }

  /** tools/manage_devices.py and tools/revoke_token.py */
  class AdminTools {
    const stores: Stores

    constructor (stores: Stores)
      ensures this.stores == stores
    {
      this.stores := stores;
    }

    // cmd_approve up to the prompt: without a record to show it ends there, with this exit code.
    method CmdApproveShow(deviceId: string) returns (shown: Option<Device>, exitCode: int)
      requires stores.Valid()
      ensures shown == ShownForApproval(stores.View(), deviceId)
      ensures shown.Some? <==> deviceId in stores.registry.devices && stores.registry.devices[deviceId].status in {Pending, Revoked}
      ensures shown.Some? ==> shown.value == stores.registry.devices[deviceId]
      ensures shown.None? ==> (exitCode == 0 <==> deviceId in stores.registry.devices)
    {
      if deviceId !in stores.registry.devices {
        return None, 1;
      }
      if stores.registry.devices[deviceId].status == Approved {
        return None, 0;
      }
      return Some(stores.registry.devices[deviceId]), 0;
    }

    // cmd_approve from the answer on.
    method CmdApproveConfirm(deviceId: string, actor: string, confirmed: bool, at: real) returns (exitCode: int)
      requires stores.Valid()
      modifies stores.Objects()
      ensures stores.View() ==
                if confirmed then ConfirmDevice(stores.env, old(stores.View()), deviceId, actor, at) else old(stores.View())
      ensures exitCode == 0 <==> confirmed
    {
      if !confirmed {
        return 1;
      }
      var done := stores.registry.ApproveDevice(deviceId, actor, at);
      return 0;
    }

    method CmdRevoke(deviceId: string, actor: string, reason: string, at: real, sweepAt: real) returns (exitCode: int, killed: nat)
      requires stores.Valid()
      modifies stores.Objects()
      ensures stores.View() == RevokeDevice(stores.env, old(stores.View()), deviceId, actor, reason, at, sweepAt)
      ensures exitCode == 0 <==> deviceId in old(stores.registry.devices)
      ensures exitCode == 0 ==> killed == |PositionsOf(Live(stores.tokens.records, sweepAt), deviceId)|
    {
      hide Live, Apply;
      if deviceId !in stores.registry.devices {
        return 1, 0;
      }
      var done := stores.registry.RevokeDevice(deviceId, actor, reason, at);
      killed := 0;
      assert PositionsOf([], deviceId) == {};
      var live := stores.tokens.LoadAll(sweepAt);
      ghost var before := stores.revocations.table;
      for i := 0 to |live|
        modifies stores.revocations
        invariant stores.revocations.table == Swept(before, live[..i], deviceId, sweepAt)
        invariant killed == |PositionsOf(live[..i], deviceId)|
      {
        assert live[..i + 1][..i] == live[..i];
        OneMorePosition(live, i, deviceId);
        if live[i].deviceId == deviceId {
          stores.revocations.Revoke(live[i].jti, Some(live[i].exp), "device_revoked:" + deviceId, sweepAt);
          killed := killed + 1;
        }
      }
      assert live[..|live|] == live;
      exitCode := 0;
    }

    method RevokeUser(username: string, reason: string, at: real)
      requires stores.Valid()
      modifies stores.Objects()
      ensures stores.View() == Effect(stores.env, old(stores.View()), RevokeUserStep(username, reason, at))
    {
      var jtis := stores.tokens.ActiveJtisForUser(username, at);
      ghost var before := stores.revocations.table;
      for i := 0 to |jtis|
        modifies stores.revocations
        invariant stores.revocations.table == RevokedAll(before, jtis[..i], reason, at)
      {
        assert jtis[..i + 1][..i] == jtis[..i];
        stores.revocations.Revoke(jtis[i], None, reason, at);
      }
      assert jtis[..|jtis|] == jtis;
    }
  }
}
