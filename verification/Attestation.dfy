/** What every run keeps about challenges, attested tokens and the device registry. */
module Attestation {
  import opened Options
  import opened Settings
  import opened Crypto
  import opened DeviceRegistry
  import opened JwtUtils
  import opened TokenBinding
  import opened AccessProtocol
  import opened Runs
  import opened TokenStore
  import Revocation

  // ---- The registry of a run is the replay of its registry operations ----

  function OpsOf(s: State, step: Step): seq<RegistryOp> {
    match step
    case EnrollStep(r) => if r.deviceId != "" && r.pem != "" then [RegistryOp.Enrol(r.deviceId, r.pem, r.at)] else []
    case ConfirmStep(deviceId, actor, at) =>
      if deviceId in s.devices then [RegistryOp.Approve(deviceId, actor, at)] else []
    case RevokeDeviceStep(deviceId, actor, why, at, _) =>
      if deviceId in s.devices then [RegistryOp.Revoke(deviceId, actor, why, at)] else []
    case _ => []
  }

  function RegistryOps(env: Env, steps: seq<Step>): seq<RegistryOp> {
    if steps == [] then []
    else
      var n := |steps| - 1;
      RegistryOps(env, steps[..n]) + OpsOf(Exec(env, steps[..n]), steps[n])
  }

  lemma ReplayOne(cfg: Config, c: Primitives, ops: seq<RegistryOp>, op: RegistryOp)
    ensures Replay(cfg, c, ops + [op]) == Apply(cfg, c, Replay(cfg, c, ops), op)
  {
    assert (ops + [op])[..|ops|] == ops;
  }

  lemma OneStepReplays(env: Env, s: State, step: Step, ops: seq<RegistryOp>)
    requires s.devices == Replay(env.cfg, env.primitives, ops)
    ensures Effect(env, s, step).devices == Replay(env.cfg, env.primitives, ops + OpsOf(s, step))
  {
    var more := OpsOf(s, step);
    if more == [] {
      assert ops + more == ops;
    } else {
      ReplayOne(env.cfg, env.primitives, ops, more[0]);
    }
  }

  lemma {:induction false} DevicesReplay(env: Env, steps: seq<Step>)
    ensures Exec(env, steps).devices == Replay(env.cfg, env.primitives, RegistryOps(env, steps))
  {
    if steps != [] {
      var n := |steps| - 1;
      DevicesReplay(env, steps[..n]);
      OneStepReplays(env, Exec(env, steps[..n]), steps[n], RegistryOps(env, steps[..n]));
    }
  }

  function KeyOf(c: Primitives, step: Step): set<string> {
    if step.EnrollStep? && step.enroll.deviceId != "" && step.enroll.pem != "" && c.loadPem(step.enroll.pem).Some?
    then {c.loadPem(step.enroll.pem).value} else {}
  }

  // The keys enrolled in the run.
  function RunKeys(c: Primitives, steps: seq<Step>): set<string> {
    if steps == [] then {}
    else RunKeys(c, steps[..|steps| - 1]) + KeyOf(c, steps[|steps| - 1])
  }

  // Thumbprints do not collide on the keys of the run.
  ghost predicate SoundRun(env: Env, steps: seq<Step>) {
    Sound(env.primitives, RunKeys(env.primitives, steps))
  }

  lemma KeysOfOneStep(c: Primitives, ops: seq<RegistryOp>, s: State, step: Step)
    ensures EnrolledKeys(c, ops + OpsOf(s, step)) == EnrolledKeys(c, ops) + KeyOf(c, step)
  {
    var more := OpsOf(s, step);
    if more == [] {
      assert ops + more == ops;
    } else {
      assert more == [more[0]] && (ops + more)[..|ops|] == ops;
    }
  }

  lemma {:induction false} EnrolledKeysOfRun(env: Env, steps: seq<Step>)
    ensures EnrolledKeys(env.primitives, RegistryOps(env, steps)) == RunKeys(env.primitives, steps)
  {
    hide Effect, OpsOf, KeyOf;
    if steps != [] {
      var n := |steps| - 1;
      EnrolledKeysOfRun(env, steps[..n]);
      KeysOfOneStep(env.primitives, RegistryOps(env, steps[..n]), Exec(env, steps[..n]), steps[n]);
    }
  }

  lemma {:induction false} RunKeysGrow(c: Primitives, steps: seq<Step>, k: nat)
    requires k <= |steps|
    ensures RunKeys(c, steps[..k]) <= RunKeys(c, steps)
  {
    if k < |steps| {
      assert steps[..|steps| - 1][..k] == steps[..k];
      RunKeysGrow(c, steps[..|steps| - 1], k);
    } else {
      assert steps[..k] == steps;
    }
  }

  // A record of the registry carries the thumbprint of its own key, which is one of `keys`.
  ghost predicate CarriesKnownKey(c: Primitives, devices: Devices, deviceId: string, keys: set<string>) {
    deviceId in devices ==>
      && KeyThumbprint(c, devices[deviceId].pem) == Some(devices[deviceId].thumbprint)
      && c.loadPem(devices[deviceId].pem).value in keys
  }

  lemma RecordsOfRun(env: Env, steps: seq<Step>, deviceId: string)
    requires SoundRun(env, steps)
    ensures CarriesKnownKey(env.primitives, Exec(env, steps).devices, deviceId, RunKeys(env.primitives, steps))
  {
    hide Effect, OpsOf;
    DevicesReplay(env, steps);
    EnrolledKeysOfRun(env, steps);
    RecordsCarryTheirKey(env.cfg, env.primitives, RegistryOps(env, steps), deviceId);
    LastKeyIsEnrolled(env.primitives, RegistryOps(env, steps), deviceId);
  }

  // In every reachable registry each record carries the thumbprint of its own key, and a record
  // is approved with a key exactly when an approval of that key stands in the run.
  lemma RegistryLineage(env: Env, steps: seq<Step>, deviceId: string, key: string)
    requires SoundRun(env, steps) && env.cfg.requireApproval
    ensures var s, ops := Exec(env, steps), RegistryOps(env, steps);
            && CarriesKnownKey(env.primitives, s.devices, deviceId, RunKeys(env.primitives, steps))
            && (ApprovedWith(s.devices, env.primitives, deviceId, key)
                <==> exists i :: ApprovedAt(env.primitives, ops, i, deviceId, key))
  {
    hide Effect, OpsOf;
    RecordsOfRun(env, steps, deviceId);
    DevicesReplay(env, steps);
    EnrolledKeysOfRun(env, steps);
    KeyLineage(env.cfg, env.primitives, RegistryOps(env, steps), deviceId, key);
  }

  // ---- Approval is of the key stored when the operator confirms ----

  // The key of the device's last well-formed enrolment among these steps.
  function LastEnrolled(c: Primitives, steps: seq<Step>, deviceId: string): Option<string> {
    if steps == [] then None
    else
      var step := steps[|steps| - 1];
      if step.EnrollStep? && step.enroll.deviceId == deviceId && KeyOf(c, step) != {}
      then c.loadPem(step.enroll.pem)
      else LastEnrolled(c, steps[..|steps| - 1], deviceId)
  }

  // A step changes the stored key of an enrolled device only by enrolling another one.
  lemma KeyAfterStep(env: Env, s: State, step: Step, deviceId: string, keys: set<string>)
    requires Sound(env.primitives, keys) && KeyOf(env.primitives, step) <= keys
    requires deviceId in s.devices && deviceId != "" && CarriesKnownKey(env.primitives, s.devices, deviceId, keys)
    ensures var t := Effect(env, s, step);
            && deviceId in t.devices
            && env.primitives.loadPem(t.devices[deviceId].pem) ==
                 if step.EnrollStep? && step.enroll.deviceId == deviceId && KeyOf(env.primitives, step) != {}
                 then env.primitives.loadPem(step.enroll.pem) else env.primitives.loadPem(s.devices[deviceId].pem)
  {
    hide PlanAccess, PlanLogin, Swept, Live, Audited, RevokedAll, JtisOfUser;
  }

  lemma {:induction false} KeyAfterSteps(env: Env, steps: seq<Step>, i: nat, deviceId: string)
    requires SoundRun(env, steps) && i <= |steps| && deviceId != "" && deviceId in Exec(env, steps[..i]).devices
    ensures deviceId in Exec(env, steps).devices
    ensures env.primitives.loadPem(Exec(env, steps).devices[deviceId].pem) ==
              if LastEnrolled(env.primitives, steps[i..], deviceId).Some? then LastEnrolled(env.primitives, steps[i..], deviceId)
              else env.primitives.loadPem(Exec(env, steps[..i]).devices[deviceId].pem)
  {
    hide Effect;
    var n := |steps| - 1;
    if i == |steps| {
      assert steps[..i] == steps && steps[i..] == [];
    } else {
      assert steps[i..][|steps[i..]| - 1] == steps[n];
      assert steps[..n][..i] == steps[..i] && steps[i..][..|steps[i..]| - 1] == steps[..n][i..];
      RunKeysGrow(env.primitives, steps, n);
      KeyAfterSteps(env, steps[..n], i, deviceId);
      RecordsOfRun(env, steps[..n], deviceId);
      KeyAfterStep(env, Exec(env, steps[..n]), steps[n], deviceId, RunKeys(env.primitives, steps));
    }
  }

  // The operator was shown the device's record at step i and confirmed at the end of the run: the
  // key that is then approved is the one shown, exactly when no other key was the last to be
  // enrolled for the device in between.
  lemma ApprovedKeyIsTheOneShown(env: Env, steps: seq<Step>, i: nat, confirm: Step)
    requires SoundRun(env, steps) && i < |steps| && confirm.ConfirmStep? && confirm.deviceId != ""
    requires steps[i].ShowStep? && steps[i].deviceId == confirm.deviceId
    requires ShownForApproval(Exec(env, steps[..i]), confirm.deviceId).Some?
    ensures var shown := env.primitives.loadPem(ShownForApproval(Exec(env, steps[..i]), confirm.deviceId).value.pem);
            && shown.Some?
            && (ApprovedWith(Exec(env, steps + [confirm]).devices, env.primitives, confirm.deviceId, shown.value)
                <==> LastEnrolled(env.primitives, steps[i..], confirm.deviceId) in {None, shown})
  {
    hide HandleAccess, HandleLogin, HandleEnroll, Swept, RevokedAll, Live;
    RunKeysGrow(env.primitives, steps, i);
    RecordsOfRun(env, steps[..i], confirm.deviceId);
    KeyAfterSteps(env, steps, i, confirm.deviceId);
    ExecAppend(env, steps, confirm);
  }

  // So a key enrolled by anyone while the operator looks at another one is approved unseen.
  lemma SwapDuringPromptIsApproved(env: Env, steps: seq<Step>, show: Step, swap: Step, confirm: Step, key: string)
    requires SoundRun(env, steps + [show] + [swap])
    requires show.ShowStep? && ShownForApproval(Exec(env, steps), show.deviceId).Some? && show.deviceId != ""
    requires swap.EnrollStep? && swap.enroll.deviceId == show.deviceId && KeyOf(env.primitives, swap) == {key}
    requires confirm.ConfirmStep? && confirm.deviceId == show.deviceId
    ensures ApprovedWith(Exec(env, steps + [show] + [swap] + [confirm]).devices, env.primitives, show.deviceId, key)
  {
    hide HandleAccess, HandleLogin, HandleEnroll, Swept, RevokedAll, Live;
    var run := steps + [show] + [swap];
    assert run[..|steps|] == steps && run[|steps|..] == [show, swap];
    KeyAfterSteps(env, run, |steps|, show.deviceId);
    ExecAppend(env, run, confirm);
  }

  // ---- Single-use challenges ----

  // Step j issued a challenge to the device.
  ghost predicate IssuesAt(env: Env, steps: seq<Step>, j: int, deviceId: string) {
    && 0 <= j < |steps| && steps[j].ChallengeStep? && steps[j].deviceId == deviceId
    && deviceId != "" && deviceId in Exec(env, steps[..j]).devices
  }

  // Step k spent the device's challenge: a login that presented a signature and got past the
  // password, the one-time code and the posture check, attested or not.
  ghost predicate SpendsAt(env: Env, steps: seq<Step>, k: int, deviceId: string) {
    && 0 <= k < |steps| && steps[k].LoginStep?
    && LoginSucceeds(env, Exec(env, steps[..k]), steps[k].login)
    && steps[k].login.signature != NoSignature
    && LoginDevice(env, steps[k].login) == deviceId
  }

  // The challenge issued at j is still outstanding after the whole run.
  ghost predicate Outstanding(env: Env, steps: seq<Step>, j: int, deviceId: string) {
    && IssuesAt(env, steps, j, deviceId)
    && (forall k | j < k < |steps| :: !IssuesAt(env, steps, k, deviceId) && !SpendsAt(env, steps, k, deviceId))
  }

  // Challenges live in the memory of the IdP process.
  ghost predicate NoIdPRestart(steps: seq<Step>, j: int) {
    forall k | j < k < |steps| && 0 <= k :: !steps[k].RestartIdPStep?
  }

  lemma OtherStepsKeepChallenges(env: Env, s: State, step: Step)
    requires !step.ChallengeStep? && !step.LoginStep?
    ensures Effect(env, s, step).challenges == if step.RestartIdPStep? then map[] else s.challenges
  {
    hide PlanAccess, PlanLogin, PlanEnroll;
  }

  // The challenge of one device is the same in both.
  predicate SameChallenge(a: Challenges, b: Challenges, deviceId: string) {
    (deviceId in a <==> deviceId in b) && (deviceId in a ==> a[deviceId] == b[deviceId])
  }

  // One step's effect on the outstanding challenge of a device.
  lemma ChallengeEffect(env: Env, steps: seq<Step>, deviceId: string)
    requires steps != []
    ensures var n := |steps| - 1;
            var before, after := Exec(env, steps[..n]).challenges, Exec(env, steps).challenges;
            && (IssuesAt(env, steps, n, deviceId) ==>
                  deviceId in after && after[deviceId] == Challenge(steps[n].nonce, steps[n].at + 30.0))
            && (SpendsAt(env, steps, n, deviceId) ==> deviceId !in after)
            && (steps[n].RestartIdPStep? ==> deviceId !in after)
            && (!IssuesAt(env, steps, n, deviceId) && !SpendsAt(env, steps, n, deviceId) && !steps[n].RestartIdPStep? ==>
                  SameChallenge(before, after, deviceId))
  {
    var n := |steps| - 1;
    hide HandleAccess, HandleEnroll, Live, RevokedAll, Audited;
    if steps[n].LoginStep? {
      hide HandleLogin, LoginClaims;
      LoginOutcome(env, Exec(env, steps[..n]), steps[n].login);
    } else if !steps[n].ChallengeStep? {
      hide Effect;
      OtherStepsKeepChallenges(env, Exec(env, steps[..n]), steps[n]);
    }
  }

  lemma SamePrefix(env: Env, steps: seq<Step>, n: nat, k: nat, deviceId: string)
    requires k < n <= |steps|
    ensures IssuesAt(env, steps[..n], k, deviceId) <==> IssuesAt(env, steps, k, deviceId)
    ensures SpendsAt(env, steps[..n], k, deviceId) <==> SpendsAt(env, steps, k, deviceId)
  {
    assert steps[..n][..k] == steps[..k];
  }

  lemma StillOutstanding(env: Env, steps: seq<Step>, j: nat, deviceId: string)
    requires steps != []
    requires var n := |steps| - 1;
             && Outstanding(env, steps[..n], j, deviceId)
             && !IssuesAt(env, steps, n, deviceId) && !SpendsAt(env, steps, n, deviceId)
    ensures Outstanding(env, steps, j, deviceId)
  {
    hide Effect, SpendsAt;
    var n := |steps| - 1;
    assert j < n;
    hide IssuesAt;
    SamePrefix(env, steps, n, j, deviceId);
    forall k | j < k < |steps| ensures !IssuesAt(env, steps, k, deviceId) && !SpendsAt(env, steps, k, deviceId) {
      if k < n {
        SamePrefix(env, steps, n, k, deviceId);
      }
    }
  }

  // Every challenge the IdP holds was issued in the run and has not been spent since.
  lemma {:induction false} ChallengeOrigin(env: Env, steps: seq<Step>, deviceId: string) returns (j: nat)
    requires deviceId in Exec(env, steps).challenges
    ensures Outstanding(env, steps, j, deviceId) && NoIdPRestart(steps, j)
    ensures Exec(env, steps).challenges[deviceId] == Challenge(steps[j].nonce, steps[j].at + 30.0)
  {
    hide Effect, SpendsAt;
    var n := |steps| - 1;
    ChallengeEffect(env, steps, deviceId);
    if IssuesAt(env, steps, n, deviceId) {
      j := n;
    } else {
      j := ChallengeOrigin(env, steps[..n], deviceId);
      StillOutstanding(env, steps, j, deviceId);
      assert forall k | j < k < n :: steps[k] == steps[..n][k];
    }
  }

  lemma EarlierOutstanding(env: Env, steps: seq<Step>, j: nat, deviceId: string)
    requires Outstanding(env, steps, j, deviceId) && j < |steps| - 1
    ensures Outstanding(env, steps[..|steps| - 1], j, deviceId)
  {
    hide IssuesAt, SpendsAt, Effect;
    var n := |steps| - 1;
    SamePrefix(env, steps, n, j, deviceId);
    forall k | j < k < n ensures !IssuesAt(env, steps[..n], k, deviceId) && !SpendsAt(env, steps[..n], k, deviceId) {
      SamePrefix(env, steps, n, k, deviceId);
    }
  }

  // And the other way round: a challenge that was issued and neither reissued nor spent since is
  // still held, unless the IdP has restarted.
  lemma {:induction false} OutstandingIsHeld(env: Env, steps: seq<Step>, j: nat, deviceId: string)
    requires Outstanding(env, steps, j, deviceId) && NoIdPRestart(steps, j)
    ensures deviceId in Exec(env, steps).challenges
    ensures Exec(env, steps).challenges[deviceId] == Challenge(steps[j].nonce, steps[j].at + 30.0)
  {
    hide Effect, SpendsAt;
    var n := |steps| - 1;
    ChallengeEffect(env, steps, deviceId);
    if j < n {
      EarlierOutstanding(env, steps, j, deviceId);
      assert forall k | j < k < n :: steps[k] == steps[..n][k];
      OutstandingIsHeld(env, steps[..n], j, deviceId);
    }
  }

  // The login at step i passed its factors and presents a signature, by the device's approved key,
  // over the challenge that was issued at step j and is neither reissued, spent nor expired.
  ghost predicate Backs(env: Env, steps: seq<Step>, j: int, i: int, key: string) {
    && 0 <= j < i < |steps| && steps[i].LoginStep?
    && var s, r := Exec(env, steps[..i]), steps[i].login;
    && LoginSucceeds(env, s, r)
    && var device := LoginDevice(env, r);
    && Outstanding(env, steps[..i], j, device)
    && r.consumeAt <= steps[j].at + 30.0
    && r.signature.Signature?
    && env.primitives.verify(key, r.signature.bytes, steps[j].nonce)
    && ApprovedWith(s.devices, env.primitives, device, key)
  }

  // A login is attested exactly when it is backed by a challenge issued to the same device in the
  // 30 seconds before and signed with the device's approved key, with no IdP restart in between.
  lemma AttestedIffBacked(env: Env, steps: seq<Step>, i: nat)
    requires i < |steps| && steps[i].LoginStep?
    requires LoginSucceeds(env, Exec(env, steps[..i]), steps[i].login)
    ensures LoginAttests(env, Exec(env, steps[..i]), steps[i].login)
            <==> exists j, key :: Backs(env, steps, j, i, key) && NoIdPRestart(steps[..i], j)
  {
    hide Effect;
    var s, r := Exec(env, steps[..i]), steps[i].login;
    var device := LoginDevice(env, r);
    if LoginAttests(env, s, r) {
      var j := ChallengeOrigin(env, steps[..i], device);
      var key := env.primitives.loadPem(s.devices[device].pem).value;
      assert Backs(env, steps, j, i, key);
    } else {
      forall j, key | Backs(env, steps, j, i, key) && NoIdPRestart(steps[..i], j) ensures false {
        OutstandingIsHeld(env, steps[..i], j, device);
      }
    }
  }

  // In particular, a challenge requested by anyone else in between replaces the client's nonce,
  // and its login comes out unattested.
  lemma AnotherChallengeSpoilsTheLogin(env: Env, steps: seq<Step>, other: Step, login: LoginRequest)
    requires LoginSucceeds(env, Exec(env, steps), login)
    requires other.ChallengeStep? && other.deviceId == LoginDevice(env, login) != ""
    requires other.deviceId in Exec(env, steps).devices
    requires login.signature.Signature?
    requires !VerifySignature(env.primitives, Exec(env, steps).devices[other.deviceId].pem, login.signature.bytes, other.nonce)
    ensures !LoginClaims(env, Exec(env, steps + [other]), login).attested
  {
    hide HandleLogin, HandleAccess, HandleEnroll, Live, Revocation.Cleaned;
    ExecAppend(env, steps, other);
  }

  // No challenge backs two logins: a challenge is spent by the first attempt that presents a
  // signature, whether or not it verifies.
  lemma ChallengeBacksOneLogin(env: Env, steps: seq<Step>, j: nat, i: nat, i': nat, key: string, key': string)
    ensures Backs(env, steps, j, i, key) && Backs(env, steps, j, i', key') ==> i == i'
  {
    var a, b := if i < i' then i else i', if i < i' then i' else i;
    if Backs(env, steps, j, i, key) && Backs(env, steps, j, i', key') && a < b {
      var device := steps[j].deviceId;
      assert SpendsAt(env, steps, a, device);
      SamePrefix(env, steps, b, a, device);
    }
  }

  // ---- Attested implies bound ----

  lemma AttestedLoginIsBound(env: Env, s: State, r: LoginRequest, key: string)
    requires env.cfg.bindingEnabled && env.primitives.thumbprint(key) != ""
    requires LoginSucceeds(env, s, r) && LoginAttests(env, s, r)
    requires var d := LoginDevice(env, r);
             ApprovedWith(s.devices, env.primitives, d, key)
             && KeyThumbprint(env.primitives, s.devices[d].pem) == Some(s.devices[d].thumbprint)
    ensures LoginClaims(env, s, r).cnf == Some(env.primitives.thumbprint(key))
    ensures TokenRequiresProof(env.cfg, LoginClaims(env, s, r))
  {
  }

  // The login at step i minted the claims, attested by `key` over the challenge issued at j, and
  // pinned that same key in `cnf`.
  ghost predicate AttestedMint(env: Env, steps: seq<Step>, i: int, j: int, key: string, claims: Claims) {
    && LoginAt(env, steps, i, claims) && claims.attested
    && Backs(env, steps, j, i, key)
    && LoginDevice(env, steps[i].login) == claims.deviceId
    && claims.cnf == Some(env.primitives.thumbprint(key))
    && TokenRequiresProof(env.cfg, claims) && key in RunKeys(env.primitives, steps)
  }

  lemma ClaimsOfLogin(env: Env, s: State, r: LoginRequest)
    requires LoginSucceeds(env, s, r)
    ensures var c := LoginClaims(env, s, r);
            c.attested == LoginAttests(env, s, r) && c.deviceId == LoginDevice(env, r)
  {
  }

  // Every token ever minted as attested is bound to the key that attested it, so the Gateway
  // demands a proof for it.
  lemma AttestedImpliesBound(env: Env, steps: seq<Step>, claims: Claims)
    requires SoundRun(env, steps) && env.cfg.bindingEnabled
    requires Legal(env, steps)
    ensures claims in Exec(env, steps).minted && claims.attested ==>
              exists i, j, key :: AttestedMint(env, steps, i, j, key, claims)
  {
    hide Effect, HandleLogin, LoginClaims, LoginAttests;
    if claims in Exec(env, steps).minted && claims.attested {
      var i := MintOrigin(env, steps, claims);
      var s, r := Exec(env, steps[..i]), steps[i].login;
      LoginOutcome(env, s, r);
      ClaimsOfLogin(env, s, r);
      AttestedIffBacked(env, steps, i);
      var j, key :| Backs(env, steps, j, i, key);
      var device := LoginDevice(env, r);
      RunKeysGrow(env.primitives, steps, i);
      RecordsOfRun(env, steps[..i], device);
      AttestedLoginIsBound(env, s, r, key);
      assert AttestedMint(env, steps, i, j, key, claims);
    }
  }
}
