/** What the IdP and the Gateway write to the audit log: the keyword fields of each log_event call
    (idp/idp_server.py, gateway/gateway_server.py), the event they become, and what can be read back
    from it. */
module AuditRecords {
  import opened Options
  import opened Json
  import opened Reasons
  import opened AuditLog

  // ---- The strings of the source ----

  // One function for each group of codes.

  function TokenCode(r: Reason): string {
    match r
    case MissingBearerToken => "missing_bearer_token"
    case TokenMalformed => "token_malformed"
    case TokenSignatureInvalid => "token_signature_invalid"
    case TokenExpired => "token_expired"
    case TokenRevoked => "token_revoked"
    case TokenNotBound => "token_not_bound"
    case _ => ""
  }

  function RequestCode(r: Reason): string {
    match r
    case DeviceProofMissing => "device_proof_missing"
    case DeviceProofMalformed => "device_proof_malformed"
    case DeviceProofWrongToken => "device_proof_wrong_token"
    case DeviceProofWrongRequest => "device_proof_wrong_request"
    case DeviceProofStale => "device_proof_stale"
    case _ => ""
  }

  function DeviceCode(r: Reason): string {
    match r
    case DeviceProofNonceWeak => "device_proof_nonce_weak"
    case DeviceProofReplayed => "device_proof_replayed"
    case DeviceProofUnknownDevice => "device_proof_unknown_device"
    case DeviceProofDeviceNotApproved => "device_proof_device_not_approved"
    case DeviceProofKeyMismatch => "device_proof_key_mismatch"
    case DeviceProofSignatureInvalid => "device_proof_signature_invalid"
    case _ => ""
  }

  function PolicyCode(r: Reason): string {
    match r
    case UnknownResource => "unknown_resource"
    case InsufficientRole => "insufficient_role"
    case InsufficientDeviceTrust => "insufficient_device_trust"
    case AttestationRequired => "attestation_required"
    case StepUpRequired => "step_up_required"
    case InsufficientAuthMethod => "insufficient_auth_method"
    case OutsideBusinessHours => "outside_business_hours"
    case PolicyMatch => "policy_match"
    case _ => ""
  }

  function LoginCode(r: Reason): string {
    match r
    case AccountLocked => "account_locked"
    case InvalidCredentials => "invalid_credentials"
    case InvalidOtp => "invalid_otp"
    case MissingDevicePosture => "missing_device_posture"
    case MfaOk => "mfa_ok"
    case InvalidPublicKey => "invalid_public_key"
    case EnrolledPending => "enrolled_pending"
    case EnrolledApproved => "enrolled_approved"
    case EnrolledRevoked => "enrolled_revoked"
    case BackendUnreachable => "backend_unreachable"
    case _ => ""
  }

  predicate TokenReason(r: Reason) {
    || r.MissingBearerToken? || r.TokenMalformed? || r.TokenSignatureInvalid? || r.TokenExpired? || r.TokenRevoked?
    || r.TokenNotBound?
  }

  predicate RequestReason(r: Reason) {
    || r.DeviceProofMissing? || r.DeviceProofMalformed? || r.DeviceProofWrongToken? || r.DeviceProofWrongRequest?
    || r.DeviceProofStale?
  }

  predicate DeviceReason(r: Reason) {
    || r.DeviceProofNonceWeak? || r.DeviceProofReplayed? || r.DeviceProofUnknownDevice?
    || r.DeviceProofDeviceNotApproved? || r.DeviceProofKeyMismatch? || r.DeviceProofSignatureInvalid?
  }

  predicate PolicyReason(r: Reason) {
    || r.UnknownResource? || r.InsufficientRole? || r.InsufficientDeviceTrust? || r.AttestationRequired?
    || r.StepUpRequired? || r.InsufficientAuthMethod? || r.OutsideBusinessHours? || r.PolicyMatch?
  }

  predicate LoginReason(r: Reason) {
    !TokenReason(r) && !RequestReason(r) && !DeviceReason(r) && !PolicyReason(r)
  }

  function ReasonCode(r: Reason): string {
    if TokenReason(r) then TokenCode(r)
    else if RequestReason(r) then RequestCode(r)
    else if DeviceReason(r) then DeviceCode(r)
    else if PolicyReason(r) then PolicyCode(r)
    else LoginCode(r)
  }

  // The policy engine and the proxy append free text to four of their codes and to one.
  function ReasonText(r: Reason, detail: string): string {
    match r
    case InsufficientRole => ReasonCode(r) + " (" + detail + ")"
    case InsufficientDeviceTrust => ReasonCode(r) + " (" + detail + ")"
    case StepUpRequired => ReasonCode(r) + " (" + detail + ")"
    case InsufficientAuthMethod => ReasonCode(r) + " (" + detail + ")"
    case BackendUnreachable => ReasonCode(r) + ":" + detail
    case _ => ReasonCode(r)
  }

  // No code begins another one: within a group some early letter differs, and groups differ in
  // their first letters.

  lemma TokenCodesDiffer(a: Reason, b: Reason)
    requires TokenReason(a) && TokenReason(b) && TokenCode(a) <= TokenCode(b)
    ensures a == b
  {
    var x, y := TokenCode(a), TokenCode(b);
    assert x[6] == y[6];
  }

  lemma RequestCodesDiffer(a: Reason, b: Reason)
    requires RequestReason(a) && RequestReason(b) && RequestCode(a) <= RequestCode(b)
    ensures a == b
  {
    var x, y := RequestCode(a), RequestCode(b);
    assert x[13] == y[13] && x[14] == y[14] && (|x| > 19 ==> x[19] == y[19]);
  }

  lemma DeviceCodesDiffer(a: Reason, b: Reason)
    requires DeviceReason(a) && DeviceReason(b) && DeviceCode(a) <= DeviceCode(b)
    ensures a == b
  {
    var x, y := DeviceCode(a), DeviceCode(b);
    assert x[13] == y[13];
  }

  lemma PolicyCodesDiffer(a: Reason, b: Reason)
    requires PolicyReason(a) && PolicyReason(b) && PolicyCode(a) <= PolicyCode(b)
    ensures a == b
  {
    var x, y := PolicyCode(a), PolicyCode(b);
    assert x[0] == y[0] && (|x| > 13 ==> x[13] == y[13]);
  }

  lemma LoginCodesDiffer(a: Reason, b: Reason)
    requires LoginReason(a) && LoginReason(b) && LoginCode(a) <= LoginCode(b)
    ensures a == b
  {
    var x, y := LoginCode(a), LoginCode(b);
    assert x[0] == y[0] && x[1] == y[1] && (|x| > 9 ==> x[8] == y[8] && x[9] == y[9]);
  }

  predicate TokenLike(c: string) {
    |c| > 8 && (c[0] == 't' || (c[0] == 'm' && c[1] == 'i' && c[8] == 'b'))
  }

  predicate RequestLike(c: string) {
    |c| > 14 && c[0] == 'd' && (c[13] in ['m', 'w'] || (c[13] == 's' && c[14] == 't'))
  }

  predicate DeviceLike(c: string) {
    |c| > 14 && c[0] == 'd' && (c[13] in ['n', 'r', 'u', 'd', 'k'] || (c[13] == 's' && c[14] == 'i'))
  }

  predicate PolicyLike(c: string) {
    |c| > 8 && (c[0] in ['u', 's', 'o', 'p'] || (c[0] == 'a' && c[1] == 't') || (c[0] == 'i' && c[2] == 's'))
  }

  predicate LoginLike(c: string) {
    |c| > 5 && (c[0] in ['e', 'b'] || (c[0] == 'a' && c[1] == 'c') || (c[0] == 'i' && c[2] == 'v')
                   || (c[0] == 'm' && (c[1] == 'f' || (|c| > 8 && c[8] == 'd'))))
  }

  lemma TokenShape(r: Reason)
    requires TokenReason(r)
    ensures TokenLike(TokenCode(r))
  {
  }

  lemma RequestShape(r: Reason)
    requires RequestReason(r)
    ensures RequestLike(RequestCode(r))
  {
  }

  lemma DeviceShape(r: Reason)
    requires DeviceReason(r)
    ensures DeviceLike(DeviceCode(r))
  {
  }

  lemma PolicyShape(r: Reason)
    requires PolicyReason(r)
    ensures PolicyLike(PolicyCode(r))
  {
  }

  lemma LoginShape(r: Reason)
    requires LoginReason(r)
    ensures LoginLike(LoginCode(r))
  {
  }

  lemma ShapeOf(r: Reason)
    ensures TokenReason(r) ==> TokenLike(ReasonCode(r))
    ensures RequestReason(r) ==> RequestLike(ReasonCode(r))
    ensures DeviceReason(r) ==> DeviceLike(ReasonCode(r))
    ensures PolicyReason(r) ==> PolicyLike(ReasonCode(r))
    ensures LoginReason(r) ==> LoginLike(ReasonCode(r))
  {
    hide TokenCode, RequestCode, DeviceCode, PolicyCode, LoginCode;
    if TokenReason(r) {
      TokenShape(r);
    } else if RequestReason(r) {
      RequestShape(r);
    } else if DeviceReason(r) {
      DeviceShape(r);
    } else if PolicyReason(r) {
      PolicyShape(r);
    } else {
      LoginShape(r);
    }
  }

  lemma CodesDiffer(a: Reason, b: Reason)
    requires ReasonCode(a) <= ReasonCode(b)
    ensures a == b
  {
    ShapeOf(a);
    ShapeOf(b);
    var x, y := ReasonCode(a), ReasonCode(b);
    hide TokenCode, RequestCode, DeviceCode, PolicyCode, LoginCode;
    assert x[0] == y[0] && x[1] == y[1] && x[2] == y[2] && (|x| > 8 ==> x[8] == y[8]) && (|x| > 14 ==> x[13] == y[13] && x[14] == y[14]);
    if TokenReason(a) {
      TokenCodesDiffer(a, b);
    } else if RequestReason(a) {
      RequestCodesDiffer(a, b);
    } else if DeviceReason(a) {
      DeviceCodesDiffer(a, b);
    } else if PolicyReason(a) {
      PolicyCodesDiffer(a, b);
    } else {
      LoginCodesDiffer(a, b);
    }
  }

  // ---- Records ----

  datatype Outcome = Allowed | Refused | Waiting | Errored

  // What an access line says about the caller: nothing before the token is verified, then more.
  datatype Caller =
    | Anonymous
    | Named(username: string)
    | Seen(username: string, deviceId: string)
    | Profiled(username: string, role: string, deviceId: string, trust: int)

  // What the line of a successful login says about the token.
  datatype Grant = Grant(role: string, roleLevel: int, deviceId: string, trust: int, attested: bool, jti: string, bound: bool)

  datatype AuditRecord =
    | Authentication(username: string, sourceIp: string, outcome: Outcome, reason: Reason, grant: Option<Grant>)
    | Enrolment(deviceId: string, sourceIp: string, outcome: Outcome, reason: Reason, thumbprint: Option<string>)
    | Access(resource: string, sourceIp: string, outcome: Outcome, reason: Reason, caller: Caller)

  // Text the handlers take from elsewhere: what follows a reason's code, and the correlation id.
  datatype FreeText = FreeText(detail: string, correlationId: string)

  function OutcomeText(o: Outcome): string {
    match o
    case Allowed => "allow"
    case Refused => "deny"
    case Waiting => "pending"
    case Errored => "error"
  }

  function Common(kind: string, sourceIp: string, outcome: Outcome, reason: Reason, free: FreeText): Event {
    map[Field(Kind) := JStr(kind), Field(SourceIp) := JStr(sourceIp), Field(Decision) := JStr(OutcomeText(outcome)),
        Field(ReasonField) := JStr(ReasonText(reason, free.detail))]
  }

  function CallerFields(caller: Caller, free: FreeText): Event {
    match caller
    case Anonymous => map[]
    case Named(username) => map[Field(Username) := JStr(username)]
    case Seen(username, deviceId) =>
      map[Field(Username) := JStr(username), Field(DeviceId) := JStr(deviceId),
          Field(CorrelationId) := JStr(free.correlationId)]
    case Profiled(username, role, deviceId, trust) =>
      map[Field(Username) := JStr(username), Field(Role) := JStr(role), Field(DeviceId) := JStr(deviceId),
          Field(TrustScore) := JNum(trust as real), Field(CorrelationId) := JStr(free.correlationId)]
  }

  function GrantFields(grant: Option<Grant>, free: FreeText): Event {
    match grant
    case None => map[]
    case Some(g) =>
      map[Field(Role) := JStr(g.role), Field(RoleLevel) := JNum(g.roleLevel as real), Field(DeviceId) := JStr(g.deviceId),
          Field(TrustScore) := JNum(g.trust as real), Field(AttestedFlag) := JBool(g.attested), Field(Jti) := JStr(g.jti),
          Field(TokenBound) := JBool(g.bound), Field(CorrelationId) := JStr(free.correlationId)]
  }

  // Only the first 16 characters of a thumbprint are logged.
  function Shortened(thumbprint: string): string {
    if |thumbprint| <= 16 then thumbprint else thumbprint[..16]
  }

  function ThumbprintField(thumbprint: Option<string>): Event {
    match thumbprint
    case None => map[]
    case Some(t) => map[Field(Thumbprint) := JStr(Shortened(t))]
  }

  function KindText(record: AuditRecord): string {
    match record
    case Authentication(_, _, _, _, _) => "authentication"
    case Enrolment(_, _, _, _, _) => "device_enrollment"
    case Access(_, _, _, _, _) => "access"
  }

  function OwnFields(record: AuditRecord, free: FreeText): Event {
    match record
    case Authentication(username, _, _, _, grant) => map[Field(Username) := JStr(username)] + GrantFields(grant, free)
    case Enrolment(deviceId, _, _, _, thumbprint) => map[Field(DeviceId) := JStr(deviceId)] + ThumbprintField(thumbprint)
    case Access(resource, _, _, _, caller) => map[Field(Resource) := JStr(resource)] + CallerFields(caller, free)
  }

  // The fields of the log_event call that writes the record.
  function Fields(record: AuditRecord, free: FreeText): Event {
    Common(KindText(record), record.sourceIp, record.outcome, record.reason, free) + OwnFields(record, free)
  }

  // ---- Reading a line back ----

  // The reason whose code begins the text: there is at most one.
  ghost function ReasonOf(text: string): Option<Reason> {
    if exists r :: ReasonCode(r) <= text then
      var r :| ReasonCode(r) <= text; Some(r)
    else None
  }

  function TextAt(event: Event, name: FieldName): Option<string> {
    match Json.Get(event, Field(name))
    case Some(JStr(text)) => Some(text)
    case _ => None
  }

  function UsernameIn(record: AuditRecord): Option<string> {
    match record
    case Authentication(username, _, _, _, _) => Some(username)
    case Enrolment(_, _, _, _, _) => None
    case Access(_, _, _, _, Anonymous) => None
    case Access(_, _, _, _, caller) => Some(caller.username)
  }

  function DeviceIn(record: AuditRecord): Option<string> {
    match record
    case Authentication(_, _, _, _, Some(g)) => Some(g.deviceId)
    case Enrolment(deviceId, _, _, _, _) => Some(deviceId)
    case Access(_, _, _, _, Seen(_, deviceId)) => Some(deviceId)
    case Access(_, _, _, _, Profiled(_, _, deviceId, _)) => Some(deviceId)
    case _ => None
  }

  function RoleIn(record: AuditRecord): Option<string> {
    match record
    case Authentication(_, _, _, _, Some(g)) => Some(g.role)
    case Access(_, _, _, _, Profiled(_, role, _, _)) => Some(role)
    case _ => None
  }

  function TrustIn(record: AuditRecord): Option<int> {
    match record
    case Authentication(_, _, _, _, Some(g)) => Some(g.trust)
    case Access(_, _, _, _, Profiled(_, _, _, trust)) => Some(trust)
    case _ => None
  }

  function GrantIn(record: AuditRecord): Option<Grant> {
    if record.Authentication? then record.grant else None
  }

  function Text(value: Option<string>): Option<JVal> {
    if value.Some? then Some(JStr(value.value)) else None
  }

  // Field by field, what the line of a record has to say. A reason and a correlation id carry text
  // from elsewhere.
  function Told(record: AuditRecord, name: FieldName): Option<JVal> {
    var grant := GrantIn(record);
    match name
    case Kind => Text(Some(if record.Authentication? then "authentication" else if record.Enrolment? then "device_enrollment" else "access"))
    case Decision => Text(Some(match record.outcome case Allowed => "allow" case Refused => "deny" case Waiting => "pending" case Errored => "error"))
    case SourceIp => Text(Some(record.sourceIp))
    case Resource => Text(if record.Access? then Some(record.resource) else None)
    case Username => Text(UsernameIn(record))
    case DeviceId => Text(DeviceIn(record))
    case Role => Text(RoleIn(record))
    case TrustScore => if TrustIn(record).Some? then Some(JNum(TrustIn(record).value as real)) else None
    case RoleLevel => if grant.Some? then Some(JNum(grant.value.roleLevel as real)) else None
    case AttestedFlag => if grant.Some? then Some(JBool(grant.value.attested)) else None
    case Jti => if grant.Some? then Some(JStr(grant.value.jti)) else None
    case TokenBound => if grant.Some? then Some(JBool(grant.value.bound)) else None
    case Thumbprint =>
      if record.Enrolment? && record.thumbprint.Some? then Some(JStr(Shortened(record.thumbprint.value))) else None
    case _ => None
  }

  predicate IsFact(name: FieldName) {
    name != ReasonField && name != CorrelationId
  }

  ghost predicate TellsFacts(event: Event, record: AuditRecord) {
    forall name | IsFact(name) :: Json.Get(event, Field(name)) == Told(record, name)
  }

  ghost predicate TellsReason(event: Event, reason: Reason) {
    TextAt(event, ReasonField).Some? && ReasonOf(TextAt(event, ReasonField).value) == Some(reason)
  }

  // The event says what the record says, and nothing else.
  ghost predicate Tells(event: Event, record: AuditRecord) {
    TellsFacts(event, record) && TellsReason(event, record.reason)
  }

  lemma ReasonIsReadBack(r: Reason, detail: string)
    ensures ReasonOf(ReasonText(r, detail)) == Some(r)
  {
    var text := ReasonText(r, detail);
    hide ReasonCode;
    assert ReasonCode(r) <= text;
    forall other | ReasonCode(other) <= text ensures other == r {
      if |ReasonCode(other)| <= |ReasonCode(r)| {
        assert ReasonCode(other) <= ReasonCode(r);
        CodesDiffer(other, r);
      } else {
        assert ReasonCode(r) <= ReasonCode(other);
        CodesDiffer(r, other);
      }
    }
  }

  // Common fields come from every call, the others from the handler's own.
  predicate IsCommon(name: FieldName) {
    name == Kind || name == SourceIp || name == Decision || name == ReasonField
  }

  lemma CommonFields(record: AuditRecord, free: FreeText, name: FieldName)
    ensures var common := Common(KindText(record), record.sourceIp, record.outcome, record.reason, free);
            && Hash !in common && (Field(name) in common <==> IsCommon(name))
            && (IsCommon(name) && IsFact(name) ==> Json.Get(common, Field(name)) == Told(record, name))
            && TextAt(common, ReasonField) == Some(ReasonText(record.reason, free.detail))
  {
    hide ReasonText;
  }

  // The handler's own fields say the rest and nothing else.
  ghost predicate OwnTell(own: Event, record: AuditRecord) {
    && Hash !in own
    && (forall name | IsCommon(name) :: Field(name) !in own)
    && (forall name | IsFact(name) && !IsCommon(name) :: Json.Get(own, Field(name)) == Told(record, name))
  }

  lemma EnrolmentsTell(record: AuditRecord, free: FreeText)
    requires record.Enrolment?
    ensures OwnTell(OwnFields(record, free), record)
  {
    hide Shortened;
  }

  lemma CallersTell(record: AuditRecord, free: FreeText, name: FieldName)
    requires record.Access?
    ensures var own := OwnFields(record, free);
            && Hash !in own && (IsCommon(name) ==> Field(name) !in own)
            && (IsFact(name) && !IsCommon(name) ==> Json.Get(own, Field(name)) == Told(record, name))
  {
  }

  lemma GrantTells(g: Grant, free: FreeText, name: FieldName)
    ensures var own := GrantFields(Some(g), free);
            && Hash !in own && (IsCommon(name) || name == Username ==> Field(name) !in own)
            && (IsFact(name) && !IsCommon(name) && name != Username ==>
                  Json.Get(own, Field(name)) == Told(Authentication("", "", Allowed, MfaOk, Some(g)), name))
  {
  }

  lemma GrantsTell(record: AuditRecord, free: FreeText, name: FieldName)
    requires record.Authentication?
    ensures var own := OwnFields(record, free);
            && Hash !in own && (IsCommon(name) ==> Field(name) !in own)
            && (IsFact(name) && !IsCommon(name) ==> Json.Get(own, Field(name)) == Told(record, name))
  {
    if record.grant.Some? {
      GrantTells(record.grant.value, free, name);
      hide GrantFields;
    }
  }

  lemma OwnFieldsTell(record: AuditRecord, free: FreeText)
    ensures OwnTell(OwnFields(record, free), record)
  {
    hide Told, OwnFields;
    if record.Enrolment? {
      EnrolmentsTell(record, free);
    } else if record.Access? {
      CallersTell(record, free, Kind);
      forall name {
        CallersTell(record, free, name);
      }
    } else {
      GrantsTell(record, free, Kind);
      forall name {
        GrantsTell(record, free, name);
      }
    }
  }

  lemma FieldsTellFacts(record: AuditRecord, free: FreeText)
    ensures TellsFacts(Fields(record, free), record)
    ensures TextAt(Fields(record, free), ReasonField) == Some(ReasonText(record.reason, free.detail))
    ensures Hash !in Fields(record, free)
  {
    OwnFieldsTell(record, free);
    CommonFields(record, free, ReasonField);
    forall name | IsFact(name) ensures Json.Get(Fields(record, free), Field(name)) == Told(record, name) {
      CommonFields(record, free, name);
      hide Told, OwnFields, Common, ReasonText, KindText;
    }
    hide Told, OwnFields, Common, ReasonText, KindText;
  }

  lemma SealingKeepsFields(d: Digest, prev: string, fields: Event, at: real, iso: string, name: FieldName)
    ensures Json.Get(Sealed(d, prev, Stamped(fields, at, iso)), Field(name)) == Json.Get(fields, Field(name))
  {
  }

  // What the handlers log, time stamped and sealed into the chain, still tells exactly its record,
  // whatever free text it carries; and no record brings a `hash` field along.
  lemma RecordIsReadBack(d: Digest, prev: string, record: AuditRecord, free: FreeText, at: real, iso: string)
    ensures Tells(Sealed(d, prev, Stamped(Fields(record, free), at, iso)), record)
    ensures Hash !in Fields(record, free)
  {
    var fields := Fields(record, free);
    FieldsTellFacts(record, free);
    forall name ensures Json.Get(Sealed(d, prev, Stamped(fields, at, iso)), Field(name)) == Json.Get(fields, Field(name)) {
      SealingKeepsFields(d, prev, fields, at, iso, name);
    }
    ReasonIsReadBack(record.reason, free.detail);
    hide Fields, Sealed, Stamped, ReasonText, ReasonOf, Told;
  }

  // The same record, up to what is cut off a thumbprint.
  ghost predicate SameRecord(a: AuditRecord, b: AuditRecord) {
    || a == b
    || (&& a.Enrolment? && b.Enrolment? && a == b.(thumbprint := a.thumbprint)
        && a.thumbprint.Some? && b.thumbprint.Some? && Shortened(a.thumbprint.value) == Shortened(b.thumbprint.value))
  }

  lemma KindsDiffer(a: AuditRecord, b: AuditRecord)
    requires Told(a, Kind) == Told(b, Kind)
    ensures (a.Authentication? <==> b.Authentication?) && (a.Enrolment? <==> b.Enrolment?)
  {
    assert "access"[1] != "authentication"[1];
  }

  lemma OutcomesDiffer(a: AuditRecord, b: AuditRecord)
    requires Told(a, Decision) == Told(b, Decision) && Told(a, SourceIp) == Told(b, SourceIp)
    ensures a.outcome == b.outcome && a.sourceIp == b.sourceIp
  {
  }

  lemma GrantsDiffer(a: AuditRecord, b: AuditRecord)
    requires a.Authentication? && b.Authentication? && forall name | IsFact(name) :: Told(a, name) == Told(b, name)
    ensures a.grant == b.grant && a.username == b.username
  {
    assert Told(a, Username) == Told(b, Username) && Told(a, Jti) == Told(b, Jti) && Told(a, TokenBound) == Told(b, TokenBound);
    assert Told(a, Role) == Told(b, Role) && Told(a, TrustScore) == Told(b, TrustScore);
    assert Told(a, DeviceId) == Told(b, DeviceId) && Told(a, RoleLevel) == Told(b, RoleLevel);
    assert Told(a, AttestedFlag) == Told(b, AttestedFlag);
  }

  lemma CallersDiffer(a: AuditRecord, b: AuditRecord)
    requires a.Access? && b.Access? && forall name | IsFact(name) :: Told(a, name) == Told(b, name)
    ensures a.caller == b.caller && a.resource == b.resource
  {
    assert Told(a, Resource) == Told(b, Resource) && Told(a, Username) == Told(b, Username);
    assert Told(a, DeviceId) == Told(b, DeviceId) && Told(a, Role) == Told(b, Role) && Told(a, TrustScore) == Told(b, TrustScore);
  }

  lemma EnrolmentsDiffer(a: AuditRecord, b: AuditRecord)
    requires a.Enrolment? && b.Enrolment? && forall name | IsFact(name) :: Told(a, name) == Told(b, name)
    ensures a.deviceId == b.deviceId && (a.thumbprint.Some? <==> b.thumbprint.Some?)
    ensures a.thumbprint.Some? ==> Shortened(a.thumbprint.value) == Shortened(b.thumbprint.value)
  {
    hide Shortened;
    assert Told(a, DeviceId) == Told(b, DeviceId) && Told(a, Thumbprint) == Told(b, Thumbprint);
  }

  // An event tells one record at most.
  lemma TellsOneRecord(event: Event, a: AuditRecord, b: AuditRecord)
    requires Tells(event, a) && Tells(event, b)
    ensures SameRecord(a, b)
  {
    hide Told;
    forall name | IsFact(name) ensures Told(a, name) == Told(b, name) {
    }
    KindsDiffer(a, b);
    OutcomesDiffer(a, b);
    match a
    case Authentication(_, _, _, _, _) => GrantsDiffer(a, b);
    case Enrolment(_, _, _, _, _) => EnrolmentsDiffer(a, b);
    case Access(_, _, _, _, _) => CallersDiffer(a, b);
  }
}
