/** The whole access protocol as one state and the steps that change it. Each step is one request
    handler or administrator command (idp/idp_server.py, gateway/gateway_server.py,
    tools/manage_devices.py, tools/revoke_token.py), taken atomically; the clock readings it makes
    are its parameters. The handler classes are proved against these functions. */
module AccessProtocol {
  import opened Options
  import opened Settings
  import opened Reasons
  import opened Crypto
  import opened AuditRecords
  import opened DeviceRegistry
  import opened JwtUtils
  import opened TokenStore
  import opened TokenBinding
  import opened PolicyEngine
  import opened Routing
  import AuditLog
  import RateLimiting
  import Revocation

  // A log_event call's clock reading, its rendering as local time, and the free text of the line.
  datatype Stamp = Stamp(at: real, iso: string, free: FreeText)

  // ---- Environment ----

  datatype User = User(role: string, deviceId: Option<string>)

  datatype Env = Env(
    cfg: Config,
    primitives: Primitives,
    digest: AuditLog.Digest,
    users: map<string, User>,
    builtIn: Policies,
    policyFile: PolicyFile)

  // ---- State ----

  // A call to a protected backend, and how long the audit log was when it was made.
  datatype BackendCall = BackendCall(resource: string, logLength: nat)

  datatype State = State(
    devices: Devices,
    challenges: Challenges,
    limiter: RateLimiting.Table,
    minted: seq<Claims>,
    issued: seq<Issued>,
    revoked: Revocation.Table,
    nonces: Nonces,
    policies: Policies,
    hours: Hours,
    log: seq<AuditLog.Line>,
    calls: seq<BackendCall>)

  function Initial(env: Env): State {
    var (policies, hours) := Loaded(env.builtIn, env.policyFile);
    State(map[], map[], map[], [], [], map[], map[], policies, hours, [], [])
  }

  function Audited(env: Env, log: seq<AuditLog.Line>, record: AuditRecord, stamp: Stamp): seq<AuditLog.Line> {
    AuditLog.Logged(env.digest, log, Fields(record, stamp.free), stamp.at, stamp.iso)
  }

  // ---- handle_enroll ----

  datatype EnrollRequest = EnrollRequest(deviceId: string, pem: string, sourceIp: string, at: real, stamp: Stamp)

  datatype EnrollResult = BadRequest | InvalidKey | Enrolled(device: Device)

  function StatusReason(status: Status): Reason {
    match status
    case Pending => EnrolledPending
    case Approved => EnrolledApproved
    case Revoked => EnrolledRevoked
  }

  datatype EnrollPlan = EnrollPlan(devices: Devices, log: seq<AuditLog.Line>, result: EnrollResult)

  function PlanEnroll(env: Env, s: State, r: EnrollRequest): EnrollPlan {
    if r.deviceId == "" || r.pem == "" then EnrollPlan(s.devices, s.log, BadRequest)
    else if KeyThumbprint(env.primitives, r.pem).None? then
      EnrollPlan(s.devices, Audited(env, s.log, Enrolment(r.deviceId, r.sourceIp, Refused, InvalidPublicKey, None), r.stamp), InvalidKey)
    else
      var devices := Apply(env.cfg, env.primitives, s.devices, RegistryOp.Enrol(r.deviceId, r.pem, r.at));
      var device := devices[r.deviceId];
      var outcome := if device.status == Approved then Allowed else Waiting;
      var record := Enrolment(r.deviceId, r.sourceIp, outcome, StatusReason(device.status), Some(device.thumbprint));
      EnrollPlan(devices, Audited(env, s.log, record, r.stamp), Enrolled(device))
  }

  function HandleEnroll(env: Env, s: State, r: EnrollRequest): (State, EnrollResult) {
    var plan := PlanEnroll(env, s, r);
    (s.(devices := plan.devices, log := plan.log), plan.result)
  }

  // ---- handle_challenge ----

  datatype ChallengeResult = DeviceIdRequired | NotEnrolled | Nonce(nonce: string)

  function HandleChallenge(s: State, deviceId: string, nonce: string, at: real): (State, ChallengeResult) {
    if deviceId == "" then (s, DeviceIdRequired)
    else if deviceId !in s.devices then (s, NotEnrolled)
    else (s.(challenges := s.challenges[deviceId := Challenge(nonce, at + CHALLENGE_TTL)]), Nonce(nonce))
  }

  // ---- handle_login ----

  datatype LoginRequest = LoginRequest(
    username: string,
    passwordOk: bool,        // verify_password
    otpOk: bool,             // verify_totp
    posture: Option<real>,   // None when missing or not a number
    deviceId: string,        // "" when absent
    signature: Signature,
    sourceIp: string,
    jti: string,             // uuid4().hex
    checkAt: real,
    recordAt: real,
    consumeAt: real,
    mintAt: real,
    storeAt: real,
    stamp: Stamp)

  datatype LoginResult = Rejected(reason: Reason) | LoggedIn(claims: Claims)

  // int(x)
  function Truncate(x: real): int {
    if x >= 0.0 then x.Floor else -((-x).Floor)
  }

  function LoginDevice(env: Env, r: LoginRequest): string
    requires r.username in env.users
  {
    var own := env.users[r.username].deviceId;
    if r.deviceId != "" then r.deviceId
    else if own.Some? && own.value != "" then own.value
    else "unknown-" + r.username
  }

  predicate CredentialsOk(env: Env, r: LoginRequest) {
    r.username in env.users && r.passwordOk && r.otpOk
  }

  function LoginAttests(env: Env, s: State, r: LoginRequest): bool
    requires r.username in env.users
  {
    && r.signature != NoSignature
    && Verdict(env.primitives, s.devices, s.challenges, LoginDevice(env, r), r.signature, r.consumeAt) == Attested
  }

  function BindingOf(env: Env, s: State, deviceId: string): Option<string> {
    if env.cfg.bindingEnabled && deviceId in s.devices && s.devices[deviceId].status == Approved
    then Some(s.devices[deviceId].thumbprint) else None
  }

  function LoginClaims(env: Env, s: State, r: LoginRequest): Claims
    requires r.username in env.users && r.posture.Some?
  {
    var device, attested := LoginDevice(env, r), LoginAttests(env, s, r);
    MintClaims(env.cfg, r.username, env.users[r.username].role, device, Truncate(r.posture.value), attested,
               BindingOf(env, s, device), None, if attested then ["pwd", "otp", "device"] else ["pwd", "otp"],
               r.mintAt, r.jti)
  }

  function GrantOf(cfg: Config, c: Claims): Grant {
    Grant(c.role, RoleLevel(cfg, c.role), c.deviceId, c.trust, c.attested, c.jti, c.cnf.Some?)
  }

  datatype LoginPlan = LoginPlan(
    limiter: RateLimiting.Table,
    challenges: Challenges,
    minted: seq<Claims>,
    issued: seq<Issued>,
    log: seq<AuditLog.Line>,
    result: LoginResult)

  function PlanRefusal(env: Env, s: State, r: LoginRequest, entry: RateLimiting.Entry, reason: Reason): LoginPlan {
    LoginPlan(s.limiter[r.username := entry], s.challenges, s.minted, s.issued,
              Audited(env, s.log, Authentication(r.username, r.sourceIp, Refused, reason, None), r.stamp),
              Rejected(reason))
  }

  function PlanLogin(env: Env, s: State, r: LoginRequest): LoginPlan {
    var entry := RateLimiting.EntryOf(s.limiter, r.username);
    var checked := RateLimiting.Checked(entry, r.checkAt);
    if RateLimiting.Locked(entry, r.checkAt) then
      PlanRefusal(env, s, r, checked, AccountLocked)
    else if !CredentialsOk(env, r) then
      PlanRefusal(env, s, r, RateLimiting.Failed(env.cfg, checked, r.recordAt),
                  if r.username in env.users && r.passwordOk then InvalidOtp else InvalidCredentials)
    else if r.posture.None? then
      PlanRefusal(env, s, r, checked, MissingDevicePosture)
    else
      var claims := LoginClaims(env, s, r);
      LoginPlan(
        s.limiter[r.username := RateLimiting.CLEAR],
        if r.signature == NoSignature then s.challenges else s.challenges - {claims.deviceId},
        s.minted + [claims],
        Recorded(s.issued, r.jti, r.username, claims.exp, claims.deviceId, r.storeAt),
        Audited(env, s.log, Authentication(r.username, r.sourceIp, Allowed, MfaOk, Some(GrantOf(env.cfg, claims))), r.stamp),
        LoggedIn(claims))
  }

  function HandleLogin(env: Env, s: State, r: LoginRequest): (State, LoginResult) {
    var plan := PlanLogin(env, s, r);
    (s.(limiter := plan.limiter, challenges := plan.challenges, minted := plan.minted, issued := plan.issued, log := plan.log),
     plan.result)
  }

  // ---- handle_access ----

  datatype AccessRequest = AccessRequest(
    resource: string,
    bearer: Bearer,
    path: string,
    proof: ProofHeaders,
    sourceIp: string,
    hour: int,
    backendUp: bool,
    verifyAt: real,
    proofAt: real,
    policyAt: real,
    stamp: Stamp,
    errorStamp: Stamp)

  // The dispatcher calls handle_access only for a path that names the resource.
  predicate Dispatched(r: AccessRequest) {
    ResourceOf(r.path) == Some(r.resource)
  }

  // PolicyRaised and NoBackend: the handler failed with an exception and the client got a 500,
  // because the policy is malformed or because an allowed resource has no backend.
  datatype AccessResult = Denied(status: int, reason: Reason) | PolicyRaised | NoBackend | Proxied | BackendDown

  const VERB := "GET"

  function SubjectOf(claims: Claims): Subject {
    Subject(claims.role, Some(claims.trust as real), claims.attested, Some(claims.authTime as real), claims.amr)
  }

  // What an access line repeats from the token: before the policy decision, and with it.
  function SeenIn(c: Claims): Caller {
    Seen(c.sub, c.deviceId)
  }

  function ProfileOf(c: Claims): Caller {
    Profiled(c.sub, c.role, c.deviceId, c.trust)
  }

  datatype AccessPlan = AccessPlan(nonces: Nonces, log: seq<AuditLog.Line>, calls: seq<BackendCall>, result: AccessResult)

  function PlanDenial(env: Env, s: State, r: AccessRequest, nonces: Nonces, status: int, reason: Reason, caller: Caller): AccessPlan {
    AccessPlan(nonces, Audited(env, s.log, Access(r.resource, r.sourceIp, Refused, reason, caller), r.stamp), s.calls,
               Denied(status, reason))
  }

  // The proof demanded from a bound token; an unbound one needs none.
  function ProofStage(env: Env, s: State, r: AccessRequest, claims: Claims): (Nonces, ProofResult) {
    if TokenRequiresProof(env.cfg, claims)
    then VerifyProof(env.cfg, env.primitives, s.nonces, s.devices, claims, VERB, r.path, r.proof, r.proofAt)
    else (s.nonces, Accepted)
  }

  function PolicyStage(env: Env, s: State, r: AccessRequest, claims: Claims): Decision {
    Evaluate(env.cfg, s.policies, s.hours, SubjectOf(claims), r.resource, r.policyAt, r.hour)
  }

  // After an allow: the allow line, then the backend.
  function PlanForward(env: Env, s: State, r: AccessRequest, nonces: Nonces, claims: Claims): AccessPlan {
    var log := Audited(env, s.log, Access(r.resource, r.sourceIp, Allowed, PolicyMatch, ProfileOf(claims)), r.stamp);
    var calls := s.calls + [BackendCall(r.resource, |log|)];
    if r.resource !in env.builtIn then AccessPlan(nonces, log, s.calls, NoBackend)
    else if r.backendUp then AccessPlan(nonces, log, calls, Proxied)
    else
      AccessPlan(nonces, Audited(env, log, Access(r.resource, r.sourceIp, Errored, BackendUnreachable, Named(claims.sub)), r.errorStamp),
                 calls, BackendDown)
  }

  function PlanDecision(env: Env, s: State, r: AccessRequest, nonces: Nonces, claims: Claims): AccessPlan {
    match PolicyStage(env, s, r, claims)
    case Raises => AccessPlan(nonces, s.log, s.calls, PolicyRaised)
    case Deny(reason) =>
      PlanDenial(env, s, r, nonces, if reason == StepUpRequired then 401 else 403, reason, ProfileOf(claims))
    case Allow => PlanForward(env, s, r, nonces, claims)
  }

  // Token binding, then policy.
  function PlanUse(env: Env, s: State, r: AccessRequest, claims: Claims): AccessPlan {
    var (nonces, proof) := ProofStage(env, s, r, claims);
    match proof
    case ProofError(reason) => PlanDenial(env, s, r, nonces, 401, reason, SeenIn(claims))
    case Accepted => PlanDecision(env, s, r, nonces, claims)
  }

  function PlanAccess(env: Env, s: State, r: AccessRequest): AccessPlan {
    match Check(s.minted, r.bearer, r.verifyAt)
    case TokenError(reason) => PlanDenial(env, s, r, s.nonces, 401, reason, Anonymous)
    case Verified(claims) =>
      if Revocation.IsRevoked(s.revoked, claims.jti) then
        PlanDenial(env, s, r, s.nonces, 401, TokenRevoked, SeenIn(claims))
      else PlanUse(env, s, r, claims)
  }

  function HandleAccess(env: Env, s: State, r: AccessRequest): (State, AccessResult) {
    var plan := PlanAccess(env, s, r);
    (s.(nonces := plan.nonces, log := plan.log, calls := plan.calls), plan.result)
  }

  // The request got as far as the backend.
  predicate Reached(result: AccessResult) {
    result == Proxied || result == BackendDown
  }

  // ---- Administrator commands ----

  // cmd_approve up to its prompt: the record whose thumbprint the operator is asked to compare. An
  // approved device is left alone.
  function ShownForApproval(s: State, deviceId: string): Option<Device> {
    if deviceId in s.devices && s.devices[deviceId].status != Approved then Some(s.devices[deviceId]) else None
  }

  // cmd_approve once the operator has confirmed: whatever is stored by then is approved.
  function ConfirmDevice(env: Env, s: State, deviceId: string, actor: string, at: real): State {
    if deviceId in s.devices
    then s.(devices := Apply(env.cfg, env.primitives, s.devices, RegistryOp.Approve(deviceId, actor, at)))
    else s
  }

  // The sweep of cmd_revoke: revoke every listed token of the device until its own expiry.
  function Swept(table: Revocation.Table, live: seq<Issued>, deviceId: string, now: real): Revocation.Table {
    if live == [] then table
    else
      var before := Swept(table, live[..|live| - 1], deviceId, now);
      var r := live[|live| - 1];
      if r.deviceId == deviceId then Revocation.Revoked(before, r.jti, Some(r.exp), "device_revoked:" + deviceId, now) else before
  }

  function RevokeDevice(env: Env, s: State, deviceId: string, actor: string, reason: string, at: real, sweepAt: real): State {
    if deviceId !in s.devices then s
    else s.(
      devices := Apply(env.cfg, env.primitives, s.devices, RegistryOp.Revoke(deviceId, actor, reason, at)),
      revoked := Swept(s.revoked, Live(s.issued, sweepAt), deviceId, sweepAt))
  }

  // tools/revoke_token.py --user
  function RevokedAll(table: Revocation.Table, jtis: seq<string>, reason: string, now: real): Revocation.Table {
    if jtis == [] then table
    else Revocation.Revoked(RevokedAll(table, jtis[..|jtis| - 1], reason, now), jtis[|jtis| - 1], None, reason, now)
  }

  // ---- Steps and runs ----

  datatype Step =
    | EnrollStep(enroll: EnrollRequest)
    | ShowStep(deviceId: string, at: real)                    // cmd_approve reaches its prompt
    | ConfirmStep(deviceId: string, actor: string, at: real)  // and the operator confirms
    | RevokeDeviceStep(deviceId: string, actor: string, why: string, at: real, sweepAt: real)
    | ChallengeStep(deviceId: string, nonce: string, at: real)
    | LoginStep(login: LoginRequest)
    | RevokeTokenStep(jti: string, why: string, at: real)
    | RevokeUserStep(username: string, why: string, at: real)
    | CleanupStep(at: real)
    | AccessStep(access: AccessRequest)
    | ReloadStep(file: PolicyFile, at: real)
    | NoiseStep(line: AuditLog.Line, at: real)   // a blank or undecodable line appears in the log
    | RestartIdPStep(at: real)
    | RestartGatewayStep(at: real)

  function Effect(env: Env, s: State, step: Step): State {
    match step
    case EnrollStep(r) => HandleEnroll(env, s, r).0
    case ShowStep(deviceId, at) => s
    case ConfirmStep(deviceId, actor, at) => ConfirmDevice(env, s, deviceId, actor, at)
    case RevokeDeviceStep(deviceId, actor, why, at, sweepAt) => RevokeDevice(env, s, deviceId, actor, why, at, sweepAt)
    case ChallengeStep(deviceId, nonce, at) => HandleChallenge(s, deviceId, nonce, at).0
    case LoginStep(r) => HandleLogin(env, s, r).0
    case RevokeTokenStep(jti, why, at) => s.(revoked := Revocation.Revoked(s.revoked, jti, None, why, at))
    case RevokeUserStep(username, why, at) =>
      s.(revoked := RevokedAll(s.revoked, JtisOfUser(Live(s.issued, at), username), why, at))
    case CleanupStep(at) => s.(revoked := Revocation.Cleaned(s.revoked, at))
    case AccessStep(r) => HandleAccess(env, s, r).0
    case ReloadStep(file, at) =>
      var (policies, hours) := Loaded(env.builtIn, file);
      s.(policies := policies, hours := hours)
    case NoiseStep(line, at) => if line.Entry? then s else s.(log := s.log + [line])
    case RestartIdPStep(at) => s.(challenges := map[], limiter := map[])
    case RestartGatewayStep(at) => s.(nonces := map[])
  }

  // First and last clock reading of a step.
  function Begin(step: Step): real {
    match step
    case EnrollStep(r) => r.at
    case LoginStep(r) => r.checkAt
    case AccessStep(r) => r.verifyAt
    case _ => step.at
  }

  function End(step: Step): real {
    match step
    case EnrollStep(r) => r.stamp.at
    case LoginStep(r) => r.stamp.at
    case AccessStep(r) => r.errorStamp.at
    case RevokeDeviceStep(_, _, _, _, sweepAt) => sweepAt
    case _ => step.at
  }

  // The readings a step makes do not decrease.
  predicate Ordered(step: Step) {
    match step
    case EnrollStep(r) => r.at <= r.stamp.at
    case LoginStep(r) => r.checkAt <= r.recordAt <= r.consumeAt <= r.mintAt <= r.storeAt <= r.stamp.at
    case AccessStep(r) => r.verifyAt <= r.proofAt <= r.policyAt <= r.stamp.at <= r.errorStamp.at
    case RevokeDeviceStep(_, _, _, at, sweepAt) => at <= sweepAt
    case _ => true
  }

  // Only dispatched requests reach the Gateway's handler.
  predicate Delivered(step: Step) {
    step.AccessStep? ==> Dispatched(step.access)
  }

  // A login draws a token id that no earlier token has.
  predicate UniqueJti(s: State, step: Step) {
    step.LoginStep? ==> step.login.jti != "" && forall c | c in s.minted :: c.jti != step.login.jti
  }

  function Exec(env: Env, steps: seq<Step>): State {
    if steps == [] then Initial(env)
    else Effect(env, Exec(env, steps[..|steps| - 1]), steps[|steps| - 1])
  }

  function Clock(steps: seq<Step>): real {
    if steps == [] then 0.0 else End(steps[|steps| - 1])
  }

  // A run: any clients, any order of steps, a clock that never goes back.
  predicate Legal(env: Env, steps: seq<Step>) {
    steps == [] ||
    var n := |steps| - 1;
    && Legal(env, steps[..n])
    && Clock(steps[..n]) <= Begin(steps[n]) && Ordered(steps[n]) && Delivered(steps[n])
    && UniqueJti(Exec(env, steps[..n]), steps[n])
  }
}
