/** The audit trail of a run tells exactly what the IdP and the Gateway answered. */
module FaithfulTrace {
  import opened Options
  import opened Reasons
  import opened DeviceRegistry
  import opened JwtUtils
  import opened TokenBinding
  import opened PolicyEngine
  import opened AccessProtocol
  import opened AuditLog
  import opened AuditRecords
  import Revocation

  // ---- What each step has to leave in the log ----

  const POLICY_DENIALS: set<Reason> :=
    {UnknownResource, InsufficientRole, InsufficientDeviceTrust, AttestationRequired, StepUpRequired,
     InsufficientAuthMethod, OutsideBusinessHours}

  // Nobody before the token is verified, its user and device until policy is asked, its role and
  // trust score from then on.
  function CallerOf(bearer: Bearer, reason: Reason): Caller {
    match bearer
    case NoBearer => Anonymous
    case Malformed => Anonymous
    case Token(c) =>
      if reason == TokenSignatureInvalid || reason == TokenExpired then Anonymous
      else if reason in POLICY_DENIALS then Profiled(c.sub, c.role, c.deviceId, c.trust)
      else Seen(c.sub, c.deviceId)
  }

  // One line for a denial, an allow line before the backend is called, and one more if it cannot be
  // reached. An exception in the policy engine leaves no line.
  function AccessRecords(r: AccessRequest, result: AccessResult): seq<AuditRecord> {
    match result
    case Denied(_, reason) => [Access(r.resource, r.sourceIp, Refused, reason, CallerOf(r.bearer, reason))]
    case PolicyRaised => []
    case _ =>
      if !r.bearer.Token? then []
      else
        var c := r.bearer.claims;
        var allow := Access(r.resource, r.sourceIp, Allowed, PolicyMatch, Profiled(c.sub, c.role, c.deviceId, c.trust));
        if result == BackendDown then [allow, Access(r.resource, r.sourceIp, Errored, BackendUnreachable, Named(c.sub))] else [allow]
  }

  function LoginRecords(env: Env, s: State, r: LoginRequest): seq<AuditRecord> {
    match HandleLogin(env, s, r).1
    case Rejected(reason) => [Authentication(r.username, r.sourceIp, Refused, reason, None)]
    case LoggedIn(c) =>
      var level := if c.role in env.cfg.roleLevels then env.cfg.roleLevels[c.role] else 0;
      [Authentication(r.username, r.sourceIp, Allowed, MfaOk,
                      Some(Grant(c.role, level, c.deviceId, c.trust, c.attested, c.jti, c.cnf != None)))]
  }

  function EnrollRecords(env: Env, s: State, r: EnrollRequest): seq<AuditRecord> {
    match HandleEnroll(env, s, r).1
    case BadRequest => []
    case InvalidKey => [Enrolment(r.deviceId, r.sourceIp, Refused, InvalidPublicKey, None)]
    case Enrolled(d) =>
      var thumbprint := Some(d.thumbprint);
      match d.status
      case Approved => [Enrolment(r.deviceId, r.sourceIp, Allowed, EnrolledApproved, thumbprint)]
      case Pending => [Enrolment(r.deviceId, r.sourceIp, Waiting, EnrolledPending, thumbprint)]
      case Revoked => [Enrolment(r.deviceId, r.sourceIp, Waiting, EnrolledRevoked, thumbprint)]
  }

  function StepRecords(env: Env, s: State, step: Step): seq<AuditRecord> {
    match step
    case AccessStep(r) => AccessRecords(r, HandleAccess(env, s, r).1)
    case LoginStep(r) => LoginRecords(env, s, r)
    case EnrollStep(r) => EnrollRecords(env, s, r)
    case _ => []
  }

  function RunRecords(env: Env, steps: seq<Step>): seq<AuditRecord> {
    if steps == [] then []
    else
      var n := |steps| - 1;
      RunRecords(env, steps[..n]) + StepRecords(env, Exec(env, steps[..n]), steps[n])
  }

  // ---- What the log says ----

  // The log verifies, and its events tell these records, one each, in order.
  ghost predicate Says(env: Env, log: seq<Line>, records: seq<AuditRecord>) {
    && Intact(env.digest, Events(log)) && |Events(log)| == |records|
    && forall i | 0 <= i < |records| :: Tells(Events(log)[i], records[i])
  }

  lemma AuditedSays(env: Env, log: seq<Line>, record: AuditRecord, stamp: Stamp, records: seq<AuditRecord>)
    requires Says(env, log, records)
    ensures Says(env, Audited(env, log, record, stamp), records + [record])
  {
    var fields := Fields(record, stamp.free);
    RecordIsReadBack(env.digest, LastHash(log), record, stamp.free, stamp.at, stamp.iso);
    hide Fields, Tells, Sealed, Stamped;
    AppendExtendsChain(env.digest, log, fields, stamp.at, stamp.iso);
    LoggedEvents(env.digest, log, fields, stamp.at, stamp.iso);
  }

  lemma NoiseSays(env: Env, log: seq<Line>, line: Line, records: seq<AuditRecord>)
    requires Says(env, log, records) && !line.Entry?
    ensures Says(env, log + [line], records)
  {
    assert (log + [line])[..|log|] == log;
    assert Events(log + [line]) == Events(log);
  }

  // ---- Handlers ----

  lemma DenialSays(env: Env, s: State, r: AccessRequest, reason: Reason, caller: Caller, records: seq<AuditRecord>)
    requires Says(env, s.log, records)
    ensures forall nonces, status ::
              Says(env, PlanDenial(env, s, r, nonces, status, reason, caller).log,
                   records + [Access(r.resource, r.sourceIp, Refused, reason, caller)])
  {
    hide Says, Audited;
    AuditedSays(env, s.log, Access(r.resource, r.sourceIp, Refused, reason, caller), r.stamp, records);
  }

  lemma ForwardSays(env: Env, s: State, r: AccessRequest, nonces: Nonces, c: Claims, records: seq<AuditRecord>)
    requires Says(env, s.log, records)
    ensures var plan := PlanForward(env, s, r, nonces, c);
            var allow := Access(r.resource, r.sourceIp, Allowed, PolicyMatch, Profiled(c.sub, c.role, c.deviceId, c.trust));
            var failed := Access(r.resource, r.sourceIp, Errored, BackendUnreachable, Named(c.sub));
            Says(env, plan.log, records + if plan.result == BackendDown then [allow, failed] else [allow])
  {
    hide Says, Audited;
    var allow := Access(r.resource, r.sourceIp, Allowed, PolicyMatch, ProfileOf(c));
    var failed := Access(r.resource, r.sourceIp, Errored, BackendUnreachable, Named(c.sub));
    AuditedSays(env, s.log, allow, r.stamp, records);
    AuditedSays(env, Audited(env, s.log, allow, r.stamp), failed, r.errorStamp, records + [allow]);
    assert records + [allow] + [failed] == records + [allow, failed];
  }

  lemma PolicyDenials(env: Env, s: State, r: AccessRequest, c: Claims)
    ensures var decision := PolicyStage(env, s, r, c);
            decision.Deny? ==> decision.reason in POLICY_DENIALS
  {
  }

  lemma OtherDenials(env: Env, s: State, r: AccessRequest, c: Claims)
    ensures var proof := ProofStage(env, s, r, c).1;
            proof.ProofError? ==> proof.reason !in POLICY_DENIALS + {TokenSignatureInvalid, TokenExpired}
  {
    RefusalsAreTrue(env.cfg, env.primitives, s.nonces, s.devices, c, VERB, r.path, r.proof, r.proofAt);
    hide VerifyProof;
  }

  lemma DecisionLog(env: Env, s: State, r: AccessRequest, nonces: Nonces, c: Claims, records: seq<AuditRecord>)
    requires Says(env, s.log, records) && r.bearer == Token(c)
    ensures var plan := PlanDecision(env, s, r, nonces, c);
            Says(env, plan.log, records + AccessRecords(r, plan.result))
  {
    PolicyDenials(env, s, r, c);
    hide Says, Audited, PolicyStage;
    match PolicyStage(env, s, r, c)
    case Raises => assert records + [] == records;
    case Deny(reason) => DenialSays(env, s, r, reason, ProfileOf(c), records);
    case Allow => ForwardSays(env, s, r, nonces, c, records);
  }

  lemma UseLog(env: Env, s: State, r: AccessRequest, c: Claims, records: seq<AuditRecord>)
    requires Says(env, s.log, records) && r.bearer == Token(c)
    ensures var plan := PlanUse(env, s, r, c);
            Says(env, plan.log, records + AccessRecords(r, plan.result))
  {
    OtherDenials(env, s, r, c);
    hide Says, Audited, ProofStage, PlanDecision;
    match ProofStage(env, s, r, c).1
    case ProofError(reason) => DenialSays(env, s, r, reason, SeenIn(c), records);
    case Accepted => DecisionLog(env, s, r, ProofStage(env, s, r, c).0, c, records);
  }

  // An access adds its own records to what the log says.
  lemma AccessLog(env: Env, s: State, r: AccessRequest, records: seq<AuditRecord>)
    requires Says(env, s.log, records)
    ensures var (t, result) := HandleAccess(env, s, r);
            Says(env, t.log, records + AccessRecords(r, result))
  {
    hide Says, Audited, PlanUse;
    match Check(s.minted, r.bearer, r.verifyAt)
    case TokenError(reason) => DenialSays(env, s, r, reason, Anonymous, records);
    case Verified(c) =>
      if Revocation.IsRevoked(s.revoked, c.jti) {
        DenialSays(env, s, r, TokenRevoked, SeenIn(c), records);
      } else {
        UseLog(env, s, r, c, records);
      }
  }

  lemma LoginLog(env: Env, s: State, r: LoginRequest, records: seq<AuditRecord>)
    requires Says(env, s.log, records)
    ensures Says(env, HandleLogin(env, s, r).0.log, records + LoginRecords(env, s, r))
  {
    hide Says, Audited, LoginClaims;
    AuditedSays(env, s.log, LoginRecords(env, s, r)[0], r.stamp, records);
  }

  lemma EnrollLog(env: Env, s: State, r: EnrollRequest, records: seq<AuditRecord>)
    requires Says(env, s.log, records)
    ensures Says(env, HandleEnroll(env, s, r).0.log, records + EnrollRecords(env, s, r))
  {
    hide Says, Audited, Apply;
    var own := EnrollRecords(env, s, r);
    if own == [] {
      assert records + [] == records;
    } else {
      AuditedSays(env, s.log, own[0], r.stamp, records);
    }
  }

  lemma StepSays(env: Env, s: State, step: Step, records: seq<AuditRecord>)
    requires Says(env, s.log, records)
    ensures Says(env, Effect(env, s, step).log, records + StepRecords(env, s, step))
  {
    hide HandleAccess, HandleLogin, HandleEnroll, AccessRecords, LoginRecords, EnrollRecords, Says;
    assert records + [] == records;
    match step
    case AccessStep(r) => AccessLog(env, s, r, records);
    case LoginStep(r) => LoginLog(env, s, r, records);
    case EnrollStep(r) => EnrollLog(env, s, r, records);
    case NoiseStep(line, _) =>
      if !line.Entry? {
        NoiseSays(env, s.log, line, records);
      }
    case _ =>
  }

  // Over every run the log verifies as a chain, whatever blank or undecodable lines appear in it,
  // and it tells, in order, what was answered to every login, enrolment and access of the run.
  lemma {:induction false} TraceIsFaithful(env: Env, steps: seq<Step>)
    ensures Says(env, Exec(env, steps).log, RunRecords(env, steps))
  {
    hide Effect;
    if steps != [] {
      var n := |steps| - 1;
      TraceIsFaithful(env, steps[..n]);
      StepSays(env, Exec(env, steps[..n]), steps[n], RunRecords(env, steps[..n]));
    }
  }

  // And it tells nothing else: records that a log tells are those of the run that wrote it.
  lemma TraceTellsOneHistory(env: Env, steps: seq<Step>, told: seq<AuditRecord>)
    requires Says(env, Exec(env, steps).log, told)
    ensures |told| == |RunRecords(env, steps)|
    ensures forall i | 0 <= i < |told| :: SameRecord(told[i], RunRecords(env, steps)[i])
  {
    hide Tells, SameRecord, Effect;
    TraceIsFaithful(env, steps);
    forall i | 0 <= i < |told| ensures SameRecord(told[i], RunRecords(env, steps)[i]) {
      TellsOneRecord(Events(Exec(env, steps).log)[i], told[i], RunRecords(env, steps)[i]);
    }
  }

  // ---- Every backend call is preceded by its own allow line ----

  ghost predicate AllowLine(line: Line, resource: string) {
    line.Entry? && exists ip, caller :: Tells(line.event, Access(resource, ip, Allowed, PolicyMatch, caller))
  }

  // Call k was made when its allow line was the last line of the log, and no two calls share one.
  ghost predicate CallsAreLogged(log: seq<Line>, calls: seq<BackendCall>) {
    && (forall k | 0 <= k < |calls| ::
          1 <= calls[k].logLength <= |log| && AllowLine(log[calls[k].logLength - 1], calls[k].resource))
    && (forall j, k | 0 <= j < k < |calls| :: calls[j].logLength < calls[k].logLength)
  }

  lemma LongerLog(log: seq<Line>, more: seq<Line>, calls: seq<BackendCall>)
    requires CallsAreLogged(log, calls) && log <= more
    ensures CallsAreLogged(more, calls)
  {
    hide AllowLine;
  }

  lemma CallAfterLine(log: seq<Line>, line: Line, calls: seq<BackendCall>, resource: string)
    requires CallsAreLogged(log, calls) && AllowLine(line, resource)
    ensures CallsAreLogged(log + [line], calls + [BackendCall(resource, |log| + 1)])
  {
    hide AllowLine;
  }

  lemma ForwardIsLogged(env: Env, s: State, r: AccessRequest, nonces: Nonces, claims: Claims)
    requires CallsAreLogged(s.log, s.calls)
    ensures var plan := PlanForward(env, s, r, nonces, claims);
            CallsAreLogged(plan.log, plan.calls)
  {
    var allow := Access(r.resource, r.sourceIp, Allowed, PolicyMatch, ProfileOf(claims));
    var log := Audited(env, s.log, allow, r.stamp);
    RecordIsReadBack(env.digest, LastHash(s.log), allow, r.stamp.free, r.stamp.at, r.stamp.iso);
    assert AllowLine(log[|s.log|], r.resource);
    LongerLog(s.log, log, s.calls);
    CallAfterLine(s.log, log[|s.log|], s.calls, r.resource);
    assert log == s.log + [log[|s.log|]];
    var calls := s.calls + [BackendCall(r.resource, |log|)];
    LongerLog(log, Audited(env, log, Access(r.resource, r.sourceIp, Errored, BackendUnreachable, Named(claims.sub)), r.errorStamp), calls);
  }

  lemma DenialKeepsCalls(env: Env, s: State, r: AccessRequest, nonces: Nonces, status: int, reason: Reason, caller: Caller)
    ensures var plan := PlanDenial(env, s, r, nonces, status, reason, caller);
            plan.calls == s.calls && s.log <= plan.log && plan.result == Denied(status, reason)
  {
    hide Fields, LastHash;
  }

  lemma DecisionForwardsOrKeeps(env: Env, s: State, r: AccessRequest, nonces: Nonces, claims: Claims)
    ensures var plan := PlanDecision(env, s, r, nonces, claims);
            if plan.result == NoBackend || Reached(plan.result)
            then plan == PlanForward(env, s, r, plan.nonces, claims)
            else plan.calls == s.calls && s.log <= plan.log
  {
    hide Evaluate, LastHash, Fields;
  }

  lemma ForwardsOrKeepsCalls(env: Env, s: State, r: AccessRequest)
    ensures var plan := PlanAccess(env, s, r);
            if plan.result == NoBackend || Reached(plan.result)
            then Check(s.minted, r.bearer, r.verifyAt).Verified?
                 && plan == PlanForward(env, s, r, plan.nonces, Check(s.minted, r.bearer, r.verifyAt).claims)
            else plan.calls == s.calls && s.log <= plan.log
  {
    hide PlanDecision, PlanDenial, PlanForward, ProofStage;
    match Check(s.minted, r.bearer, r.verifyAt)
    case TokenError(reason) => DenialKeepsCalls(env, s, r, s.nonces, 401, reason, Anonymous);
    case Verified(claims) =>
      var (nonces, proof) := ProofStage(env, s, r, claims);
      DenialKeepsCalls(env, s, r, s.nonces, 401, TokenRevoked, SeenIn(claims));
      if proof.ProofError? {
        DenialKeepsCalls(env, s, r, nonces, 401, proof.reason, SeenIn(claims));
      }
      DecisionForwardsOrKeeps(env, s, r, nonces, claims);
  }

  lemma AccessIsLogged(env: Env, s: State, r: AccessRequest)
    requires CallsAreLogged(s.log, s.calls)
    ensures var plan := PlanAccess(env, s, r);
            CallsAreLogged(plan.log, plan.calls)
  {
    ForwardsOrKeepsCalls(env, s, r);
    var plan := PlanAccess(env, s, r);
    if plan.result == NoBackend || Reached(plan.result) {
      ForwardIsLogged(env, s, r, plan.nonces, Check(s.minted, r.bearer, r.verifyAt).claims);
    } else {
      LongerLog(s.log, plan.log, s.calls);
    }
  }

  lemma LoginLogGrows(env: Env, s: State, r: LoginRequest)
    ensures s.log <= HandleLogin(env, s, r).0.log && HandleLogin(env, s, r).0.calls == s.calls
  {
    hide Fields, LastHash, LoginClaims;
  }

  lemma EnrollLogGrows(env: Env, s: State, r: EnrollRequest)
    ensures s.log <= HandleEnroll(env, s, r).0.log && HandleEnroll(env, s, r).0.calls == s.calls
  {
    hide LastHash;
  }

  lemma OtherLogsGrow(env: Env, s: State, step: Step)
    requires !step.AccessStep?
    ensures s.log <= Effect(env, s, step).log && Effect(env, s, step).calls == s.calls
  {
    hide HandleAccess, HandleLogin, HandleEnroll, Apply, Swept, RevokedAll, Loaded;
    match step
    case LoginStep(r) => LoginLogGrows(env, s, r);
    case EnrollStep(r) => EnrollLogGrows(env, s, r);
    case _ =>
  }

  lemma StepIsLogged(env: Env, s: State, step: Step)
    requires CallsAreLogged(s.log, s.calls)
    ensures CallsAreLogged(Effect(env, s, step).log, Effect(env, s, step).calls)
  {
    if step.AccessStep? {
      AccessIsLogged(env, s, step.access);
    } else {
      OtherLogsGrow(env, s, step);
      LongerLog(s.log, Effect(env, s, step).log, s.calls);
    }
  }

  lemma {:induction false} CallsFollowAllowLines(env: Env, steps: seq<Step>)
    ensures CallsAreLogged(Exec(env, steps).log, Exec(env, steps).calls)
  {
    if steps != [] {
      var n := |steps| - 1;
      var s := Exec(env, steps[..n]);
      CallsFollowAllowLines(env, steps[..n]);
      StepIsLogged(env, s, steps[n]);
    }
  }
}
