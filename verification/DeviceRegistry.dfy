/** Device enrolment, approval, revocation and one-shot login challenges (idp/device_registry.py). */
module DeviceRegistry {
  import opened Options
  import opened Settings
  import opened Crypto

  datatype Status = Pending | Approved | Revoked

  // Who approved a device: the program itself when approval is switched off, or an operator.
  datatype Approver = Automatic | Operator(name: string)

  datatype RevocationMark = RevocationMark(at: real, actor: string, reason: string)

  datatype Device = Device(
    pem: string,
    thumbprint: string,
    status: Status,
    enrolledAt: real,
    lastEnrolledAt: real,
    approvedAt: Option<real>,
    approvedBy: Option<Approver>,
    previousThumbprint: Option<string>,
    revocation: Option<RevocationMark>)

  type Devices = map<string, Device>

  datatype Challenge = Challenge(nonce: string, expiresAt: real)

  type Challenges = map<string, Challenge>

  // The attestation field of a login: empty or absent, not base64, or a decoded signature.
  datatype Signature = NoSignature | NotBase64 | Signature(bytes: string)

  datatype Attestation =
    | Attested
    | NoOutstandingChallenge
    | ChallengeExpired
    | DeviceNotEnrolled
    | DeviceUnapproved
    | SignatureNotBase64
    | SignatureInvalid

  // ---- The registry as a function of its operations ----

  datatype RegistryOp =
    | Enrol(deviceId: string, pem: string, at: real)
    | Approve(deviceId: string, actor: string, at: real)
    | Revoke(deviceId: string, actor: string, reason: string, at: real)

  function FreshRecord(cfg: Config, pem: string, thumbprint: string, previous: Option<string>, now: real): Device {
    if cfg.requireApproval then
      Device(pem, thumbprint, Pending, now, now, None, None, previous, None)
    else
      Device(pem, thumbprint, Approved, now, now, Some(now), Some(Automatic), previous, None)
  }

  function Apply(cfg: Config, c: Primitives, devices: Devices, op: RegistryOp): Devices {
    match op
    case Enrol(id, pem, now) =>
      (match KeyThumbprint(c, pem)
       case None => devices
       case Some(thumbprint) =>
         if id in devices && devices[id].thumbprint == thumbprint then
           devices[id := devices[id].(lastEnrolledAt := now)]
         else
           var previous := if id in devices then Some(devices[id].thumbprint) else None;
           devices[id := FreshRecord(cfg, pem, thumbprint, previous, now)])
    case Approve(id, actor, now) =>
      if id in devices then
        devices[id := devices[id].(status := Approved, approvedAt := Some(now), approvedBy := Some(Operator(actor)))]
      else devices
    case Revoke(id, actor, reason, now) =>
      if id in devices then
        devices[id := devices[id].(status := Revoked, revocation := Some(RevocationMark(now, actor, reason)))]
      else devices
  }

  // The registry every sequence of operations reaches from an empty one.
  function Replay(cfg: Config, c: Primitives, ops: seq<RegistryOp>): Devices {
    if ops == [] then map[]
    else Apply(cfg, c, Replay(cfg, c, ops[..|ops| - 1]), ops[|ops| - 1])
  }

  // verify_and_consume: the challenge is gone whatever the verdict.
  function Verdict(c: Primitives, devices: Devices, challenges: Challenges, deviceId: string,
                   signature: Signature, now: real): Attestation
  {
    if deviceId !in challenges then NoOutstandingChallenge
    else if now > challenges[deviceId].expiresAt then ChallengeExpired
    else if deviceId !in devices then DeviceNotEnrolled
    else if devices[deviceId].status != Approved then DeviceUnapproved
    else match signature
      case NoSignature => SignatureInvalid
      case NotBase64 => SignatureNotBase64
      case Signature(bytes) =>
        if VerifySignature(c, devices[deviceId].pem, bytes, challenges[deviceId].nonce)
        then Attested else SignatureInvalid
  }

  class Registry {
    const cfg: Config
    const primitives: Primitives
    var devices: Devices
    var challenges: Challenges

    constructor (cfg: Config, primitives: Primitives)
      ensures this.cfg == cfg && this.primitives == primitives && devices == map[] && challenges == map[]
    {
      this.cfg, this.primitives := cfg, primitives;
      devices, challenges := map[], map[];
    }

    // None stands for the ValueError a malformed key raises.
    method RegisterDevice(deviceId: string, pem: string, now: real) returns (record: Option<Device>)
      modifies this`devices
      ensures devices == Apply(cfg, primitives, old(devices), Enrol(deviceId, pem, now))
      ensures record == if KeyThumbprint(primitives, pem).Some? then Some(devices[deviceId]) else None
    {
      var thumbprint := KeyThumbprint(primitives, pem);
      if thumbprint == None {
        return None;
      }
      if deviceId in devices {
        var existing := devices[deviceId];
        if existing.thumbprint == thumbprint.value {
          existing := existing.(lastEnrolledAt := now);
          devices := devices[deviceId := existing];
          return Some(existing);
        }
      }
      var status := Pending;
      if !cfg.requireApproval {
        status := Approved;
      }
      var enrolled := Device(pem, thumbprint.value, status, now, now,
                          if status == Approved then Some(now) else None,
                          if status == Approved then Some(Automatic) else None,
                          if deviceId in devices then Some(devices[deviceId].thumbprint) else None,
                          None);
      devices := devices[deviceId := enrolled];
      return Some(enrolled);
    }

    method ApproveDevice(deviceId: string, actor: string, now: real) returns (done: bool)
      modifies this`devices
      ensures devices == Apply(cfg, primitives, old(devices), Approve(deviceId, actor, now))
      ensures done <==> deviceId in old(devices)
    {
      if deviceId !in devices {
        return false;
      }
      var record := devices[deviceId];
      record := record.(status := Approved);
      record := record.(approvedAt := Some(now), approvedBy := Some(Operator(actor)));
      devices := devices[deviceId := record];
      return true;
    }

    method RevokeDevice(deviceId: string, actor: string, reason: string, now: real) returns (done: bool)
      modifies this`devices
      ensures devices == Apply(cfg, primitives, old(devices), Revoke(deviceId, actor, reason, now))
      ensures done <==> deviceId in old(devices)
    {
      if deviceId !in devices {
        return false;
      }
      var record := devices[deviceId];
      record := record.(status := Revoked);
      record := record.(revocation := Some(RevocationMark(now, actor, reason)));
      devices := devices[deviceId := record];
      return true;
    }

    // `nonce` stands for os.urandom(32).
    method IssueChallenge(deviceId: string, nonce: string, now: real)
      modifies this`challenges
      ensures challenges == old(challenges)[deviceId := Challenge(nonce, now + CHALLENGE_TTL)]
    {
      challenges := challenges[deviceId := Challenge(nonce, now + CHALLENGE_TTL)];
    }

    method VerifyAndConsume(deviceId: string, signature: Signature, now: real) returns (ok: bool)
      modifies this`challenges
      ensures challenges == old(challenges) - {deviceId}
      ensures ok <==> Verdict(primitives, devices, old(challenges), deviceId, signature, now) == Attested
    {
      if deviceId !in challenges {
        return false;
      }
      var challenge := challenges[deviceId];
      challenges := challenges - {deviceId};
      if now > challenge.expiresAt {
        return false;
      }
      if deviceId !in devices {
        return false;
      }
      var record := devices[deviceId];
      if record.status != Approved {
        return false;
      }
      match signature {
        case NoSignature => return false;
        case NotBase64 => return false;
        case Signature(bytes) =>
          return VerifySignature(primitives, record.pem, bytes, challenge.nonce);
      }
    }
  }

  // ---- Key lineage ----

  // The key of the device's last well-formed enrolment.
  function LastKey(c: Primitives, ops: seq<RegistryOp>, deviceId: string): Option<string> {
    if ops == [] then None
    else
      var op := ops[|ops| - 1];
      if op.Enrol? && op.deviceId == deviceId && c.loadPem(op.pem).Some? then c.loadPem(op.pem)
      else LastKey(c, ops[..|ops| - 1], deviceId)
  }

  // The operation leaves an approval of `key` on the device standing.
  predicate Spares(c: Primitives, op: RegistryOp, deviceId: string, key: string) {
    op.deviceId == deviceId ==>
      && !op.Revoke?
      && (op.Enrol? ==> c.loadPem(op.pem) in {None, Some(key)})
  }

  // Operation i approved the device while `key` was its key, and nothing since undid that.
  ghost predicate ApprovedAt(c: Primitives, ops: seq<RegistryOp>, i: int, deviceId: string, key: string) {
    && 0 <= i < |ops|
    && ops[i].Approve? && ops[i].deviceId == deviceId
    && LastKey(c, ops[..i], deviceId) == Some(key)
    && forall j | i < j < |ops| :: Spares(c, ops[j], deviceId, key)
  }

  ghost predicate ApprovedWith(devices: Devices, c: Primitives, deviceId: string, key: string) {
    && deviceId in devices
    && devices[deviceId].status == Approved
    && c.loadPem(devices[deviceId].pem) == Some(key)
  }

  // The keys of all well-formed enrolments.
  function EnrolledKeys(c: Primitives, ops: seq<RegistryOp>): set<string> {
    if ops == [] then {}
    else
      var op := ops[|ops| - 1];
      EnrolledKeys(c, ops[..|ops| - 1]) + (if op.Enrol? && c.loadPem(op.pem).Some? then {c.loadPem(op.pem).value} else {})
  }

  lemma {:induction false} LastKeyIsEnrolled(c: Primitives, ops: seq<RegistryOp>, deviceId: string)
    ensures LastKey(c, ops, deviceId).Some? ==> LastKey(c, ops, deviceId).value in EnrolledKeys(c, ops)
  {
    if ops != [] {
      LastKeyIsEnrolled(c, ops[..|ops| - 1], deviceId);
    }
  }

  // Each record carries the thumbprint of its own PEM, and its key is the last one enrolled.
  lemma {:induction false} RecordsCarryTheirKey(cfg: Config, c: Primitives, ops: seq<RegistryOp>, deviceId: string)
    requires Sound(c, EnrolledKeys(c, ops))
    ensures var devices := Replay(cfg, c, ops);
            && (deviceId in devices <==> LastKey(c, ops, deviceId).Some?)
            && (deviceId in devices ==>
                  && c.loadPem(devices[deviceId].pem) == LastKey(c, ops, deviceId)
                  && KeyThumbprint(c, devices[deviceId].pem) == Some(devices[deviceId].thumbprint))
  {
    if ops != [] {
      RecordsCarryTheirKey(cfg, c, ops[..|ops| - 1], deviceId);
      LastKeyIsEnrolled(c, ops[..|ops| - 1], deviceId);
    }
  }

  // How one more operation changes which approvals stand.
  lemma StandingApproval(c: Primitives, ops: seq<RegistryOp>, deviceId: string, key: string)
    requires ops != []
    ensures var n := |ops| - 1;
            (exists i :: ApprovedAt(c, ops, i, deviceId, key)) <==>
            || ((exists i :: ApprovedAt(c, ops[..n], i, deviceId, key)) && Spares(c, ops[n], deviceId, key))
            || (ops[n].Approve? && ops[n].deviceId == deviceId && LastKey(c, ops[..n], deviceId) == Some(key))
  {
    var n := |ops| - 1;
    forall i | 0 <= i < n
      ensures ApprovedAt(c, ops, i, deviceId, key)
              <==> ApprovedAt(c, ops[..n], i, deviceId, key) && Spares(c, ops[n], deviceId, key)
    {
      assert ops[..n][..i] == ops[..i];
      assert ops[..n][i] == ops[i];
      assert forall j | i < j < n :: ops[..n][j] == ops[j];
    }
    assert ApprovedAt(c, ops, n, deviceId, key) <==>
           ops[n].Approve? && ops[n].deviceId == deviceId && LastKey(c, ops[..n], deviceId) == Some(key);
  }

  // A record is approved with a key exactly when an approval of that key stands.
  lemma {:induction false} KeyLineage(cfg: Config, c: Primitives, ops: seq<RegistryOp>, deviceId: string, key: string)
    requires Sound(c, EnrolledKeys(c, ops)) && cfg.requireApproval
    ensures ApprovedWith(Replay(cfg, c, ops), c, deviceId, key)
            <==> exists i :: ApprovedAt(c, ops, i, deviceId, key)
  {
    if ops != [] {
      var n := |ops| - 1;
      var before, op := ops[..n], ops[n];
      KeyLineage(cfg, c, before, deviceId, key);
      RecordsCarryTheirKey(cfg, c, before, deviceId);
      LastKeyIsEnrolled(c, before, deviceId);
      StandingApproval(c, ops, deviceId, key);
    }
  }

  lemma {:induction false} LastKeyPersists(c: Primitives, before: seq<RegistryOp>, later: seq<RegistryOp>, deviceId: string)
    requires LastKey(c, before, deviceId).Some?
    ensures LastKey(c, before + later, deviceId).Some?
  {
    if later == [] {
      assert before + later == before;
    } else {
      var n := |later| - 1;
      LastKeyPersists(c, before, later[..n], deviceId);
      assert (before + later)[..|before| + n] == before + later[..n];
    }
  }

  lemma {:induction false} ApprovedKeyIsLast(c: Primitives, ops: seq<RegistryOp>, i: int, deviceId: string, key: string)
    requires ApprovedAt(c, ops, i, deviceId, key)
    ensures LastKey(c, ops, deviceId) == Some(key)
  {
    var n := |ops| - 1;
    if i == n {
    } else {
      assert ops[..n][..i] == ops[..i];
      assert forall j | i < j < n :: ops[..n][j] == ops[j];
      ApprovedKeyIsLast(c, ops[..n], i, deviceId, key);
    }
  }

  // Swapping in another key ends the approval, and nothing short of a new approval brings one
  // back: not even enrolling the old key again.
  lemma SwapEndsApproval(cfg: Config, c: Primitives, before: seq<RegistryOp>, swap: RegistryOp,
                         later: seq<RegistryOp>, deviceId: string)
    requires Sound(c, EnrolledKeys(c, before + [swap] + later)) && cfg.requireApproval
    requires swap.Enrol? && swap.deviceId == deviceId && c.loadPem(swap.pem).Some?
    requires c.loadPem(swap.pem) != LastKey(c, before, deviceId)
    requires forall op | op in later :: !(op.Approve? && op.deviceId == deviceId)
    ensures var devices := Replay(cfg, c, before + [swap] + later);
            deviceId in devices && devices[deviceId].status != Approved
  {
    var ops := before + [swap] + later;
    RecordsCarryTheirKey(cfg, c, ops, deviceId);
    LastKeyPersists(c, before + [swap], later, deviceId);
    assert (before + [swap])[..|before|] == before;
    assert forall i | |before| < i < |ops| :: ops[i] == later[i - |before| - 1] && ops[i] in later;
    forall key, i | ApprovedAt(c, ops, i, deviceId, key) ensures false {
      if i < |before| {
        assert ops[..i] == before[..i];
        assert ops[|before|] == swap && Spares(c, swap, deviceId, key);
        assert forall j | i < j < |before| :: ops[j] == before[j];
        ApprovedKeyIsLast(c, before, i, deviceId, key);
      }
    }
    KeyLineage(cfg, c, ops, deviceId, LastKey(c, ops, deviceId).value);
  }

  // ---- What a record says about the past ----

  // The operation enrols a key the device did not have.
  predicate ChangesKey(c: Primitives, before: seq<RegistryOp>, op: RegistryOp, deviceId: string) {
    && op.Enrol? && op.deviceId == deviceId
    && c.loadPem(op.pem).Some? && c.loadPem(op.pem) != LastKey(c, before, deviceId)
  }

  // Operation i decided the device's status, and no later one did.
  ghost predicate Decides(c: Primitives, ops: seq<RegistryOp>, i: int, deviceId: string) {
    && 0 <= i < |ops| && ops[i].deviceId == deviceId
    && (ops[i].Enrol? ==> ChangesKey(c, ops[..i], ops[i], deviceId))
    && (!ops[i].Enrol? ==> LastKey(c, ops[..i], deviceId).Some?)
  }

  ghost predicate HasLastWord(c: Primitives, ops: seq<RegistryOp>, i: int, deviceId: string) {
    Decides(c, ops, i, deviceId) && forall j | i < j < |ops| :: !Decides(c, ops, j, deviceId)
  }

  function StatusFrom(cfg: Config, op: RegistryOp): Status {
    match op
    case Enrol(_, _, _) => if cfg.requireApproval then Pending else Approved
    case Approve(_, _, _) => Approved
    case Revoke(_, _, _, _) => Revoked
  }

  lemma DecidesOnPrefix(c: Primitives, ops: seq<RegistryOp>, i: nat, deviceId: string)
    requires ops != [] && i < |ops| - 1
    ensures Decides(c, ops[..|ops| - 1], i, deviceId) <==> Decides(c, ops, i, deviceId)
  {
    assert ops[..|ops| - 1][..i] == ops[..i];
  }

  lemma WordOnPrefix(c: Primitives, ops: seq<RegistryOp>, i: int, deviceId: string)
    requires ops != [] && i < |ops| - 1
    ensures HasLastWord(c, ops, i, deviceId) <==>
              HasLastWord(c, ops[..|ops| - 1], i, deviceId) && !Decides(c, ops, |ops| - 1, deviceId)
  {
    var n := |ops| - 1;
    forall j | 0 <= i <= j < n ensures Decides(c, ops[..n], j, deviceId) <==> Decides(c, ops, j, deviceId) {
      DecidesOnPrefix(c, ops, j, deviceId);
    }
  }

  lemma LastOpDecides(cfg: Config, c: Primitives, ops: seq<RegistryOp>, deviceId: string)
    requires ops != [] && Sound(c, EnrolledKeys(c, ops)) && Decides(c, ops, |ops| - 1, deviceId)
    ensures deviceId in Replay(cfg, c, ops) && Replay(cfg, c, ops)[deviceId].status == StatusFrom(cfg, ops[|ops| - 1])
  {
    RecordsCarryTheirKey(cfg, c, ops[..|ops| - 1], deviceId);
    LastKeyIsEnrolled(c, ops[..|ops| - 1], deviceId);
  }

  lemma LastOpSpares(cfg: Config, c: Primitives, ops: seq<RegistryOp>, deviceId: string)
    requires ops != [] && Sound(c, EnrolledKeys(c, ops)) && !Decides(c, ops, |ops| - 1, deviceId)
    ensures var before, after := Replay(cfg, c, ops[..|ops| - 1]), Replay(cfg, c, ops);
            && (deviceId in after <==> deviceId in before)
            && (deviceId in after ==> after[deviceId].status == before[deviceId].status)
  {
    RecordsCarryTheirKey(cfg, c, ops[..|ops| - 1], deviceId);
    LastKeyIsEnrolled(c, ops[..|ops| - 1], deviceId);
  }

  // A device is enrolled exactly when some operation has had the last word about it, and its status
  // is what that operation says: a new key leaves it pending (or approved, when approval is switched
  // off), an approval approves it, a revocation revokes it, and enrolling the same key again changes
  // nothing.
  lemma {:induction false} StatusIsTheLastWord(cfg: Config, c: Primitives, ops: seq<RegistryOp>, deviceId: string)
    requires Sound(c, EnrolledKeys(c, ops))
    ensures deviceId in Replay(cfg, c, ops) <==> exists i :: HasLastWord(c, ops, i, deviceId)
    ensures forall i | HasLastWord(c, ops, i, deviceId) ::
              deviceId in Replay(cfg, c, ops) && Replay(cfg, c, ops)[deviceId].status == StatusFrom(cfg, ops[i])
  {
    if ops != [] {
      hide Apply;
      var n := |ops| - 1;
      StatusIsTheLastWord(cfg, c, ops[..n], deviceId);
      forall i | i < n
        ensures HasLastWord(c, ops, i, deviceId) <==> HasLastWord(c, ops[..n], i, deviceId) && !Decides(c, ops, n, deviceId)
      {
        WordOnPrefix(c, ops, i, deviceId);
      }
      if Decides(c, ops, n, deviceId) {
        LastOpDecides(cfg, c, ops, deviceId);
        assert HasLastWord(c, ops, n, deviceId);
      } else {
        LastOpSpares(cfg, c, ops, deviceId);
        if i :| HasLastWord(c, ops[..n], i, deviceId) {
          assert HasLastWord(c, ops, i, deviceId);
        }
      }
    }
  }

  // When the present key was enrolled, and the key before it.
  function LastChange(c: Primitives, ops: seq<RegistryOp>, deviceId: string): Option<(real, Option<string>)> {
    if ops == [] then None
    else
      var before, op := ops[..|ops| - 1], ops[|ops| - 1];
      if ChangesKey(c, before, op, deviceId) then Some((op.at, LastKey(c, before, deviceId)))
      else LastChange(c, before, deviceId)
  }

  // The last well-formed enrolment of the device.
  function LastEnrolment(c: Primitives, ops: seq<RegistryOp>, deviceId: string): Option<real> {
    if ops == [] then None
    else
      var op := ops[|ops| - 1];
      if op.Enrol? && op.deviceId == deviceId && c.loadPem(op.pem).Some? then Some(op.at)
      else LastEnrolment(c, ops[..|ops| - 1], deviceId)
  }

  // The last approval, or the last revocation, since the present key was enrolled.
  function LastMark(c: Primitives, ops: seq<RegistryOp>, deviceId: string, revocation: bool): Option<RegistryOp> {
    if ops == [] then None
    else
      var before, op := ops[..|ops| - 1], ops[|ops| - 1];
      if ChangesKey(c, before, op, deviceId) then None
      else if op.deviceId == deviceId && (if revocation then op.Revoke? else op.Approve?) then Some(op)
      else LastMark(c, before, deviceId, revocation)
  }

  ghost predicate TellsItsHistory(cfg: Config, c: Primitives, ops: seq<RegistryOp>, deviceId: string, d: Device) {
    var change, approval, revocation :=
      LastChange(c, ops, deviceId), LastMark(c, ops, deviceId, false), LastMark(c, ops, deviceId, true);
    && Some(d.lastEnrolledAt) == LastEnrolment(c, ops, deviceId)
    && change.Some? && d.enrolledAt == change.value.0
    && d.previousThumbprint == (if change.value.1.Some? then Some(c.thumbprint(change.value.1.value)) else None)
    && (approval.Some? ==>
          approval.value.Approve? && d.approvedAt == Some(approval.value.at) && d.approvedBy == Some(Operator(approval.value.actor)))
    && (approval.None? && cfg.requireApproval ==> d.approvedAt == None && d.approvedBy == None)
    && (approval.None? && !cfg.requireApproval ==> d.approvedAt == Some(d.enrolledAt) && d.approvedBy == Some(Automatic))
    && (revocation.Some? ==>
          revocation.value.Revoke?
          && d.revocation == Some(RevocationMark(revocation.value.at, revocation.value.actor, revocation.value.reason)))
    && (revocation.None? ==> d.revocation == None)
  }

  lemma OneOpTellsItsHistory(cfg: Config, c: Primitives, ops: seq<RegistryOp>, deviceId: string)
    requires ops != [] && deviceId in Replay(cfg, c, ops)
    requires var before := ops[..|ops| - 1];
             var devices := Replay(cfg, c, before);
             && (deviceId in devices <==> LastKey(c, before, deviceId).Some?)
             && (deviceId in devices ==>
                   && TellsItsHistory(cfg, c, before, deviceId, devices[deviceId])
                   && devices[deviceId].thumbprint == c.thumbprint(LastKey(c, before, deviceId).value)
                   && forall key :: key in EnrolledKeys(c, ops) && c.thumbprint(key) == devices[deviceId].thumbprint
                                    ==> key == LastKey(c, before, deviceId).value)
    ensures TellsItsHistory(cfg, c, ops, deviceId, Replay(cfg, c, ops)[deviceId])
  {
    var op := ops[|ops| - 1];
    if op.Enrol? && op.deviceId == deviceId && c.loadPem(op.pem).Some? {
      assert c.loadPem(op.pem).value in EnrolledKeys(c, ops);
    }
  }

  // Every record tells when its key was enrolled and last presented, which key it replaced, and who
  // approved and revoked it since.
  lemma {:induction false} RecordsTellTheirHistory(cfg: Config, c: Primitives, ops: seq<RegistryOp>, deviceId: string)
    requires Sound(c, EnrolledKeys(c, ops)) && deviceId in Replay(cfg, c, ops)
    ensures TellsItsHistory(cfg, c, ops, deviceId, Replay(cfg, c, ops)[deviceId])
  {
    var before := ops[..|ops| - 1];
    RecordsCarryTheirKey(cfg, c, before, deviceId);
    LastKeyIsEnrolled(c, before, deviceId);
    if deviceId in Replay(cfg, c, before) {
      RecordsTellTheirHistory(cfg, c, before, deviceId);
    }
    hide Apply, TellsItsHistory;
    OneOpTellsItsHistory(cfg, c, ops, deviceId);
  }
}
