/** Revoking a device cuts off every token issued to it, over every later run. */
module CutOff {
  import opened AuditRecords
  import opened Options
  import opened Settings
  import opened DeviceRegistry
  import opened JwtUtils
  import opened TokenStore
  import opened TokenBinding
  import opened PolicyEngine
  import opened AccessProtocol
  import opened Routing
  import opened Runs
  import Crypto
  import Revocation

  predicate Records(r: Issued, c: Claims) {
    r.jti == c.jti && r.username == c.sub && r.exp == c.exp && r.deviceId == c.deviceId
  }

  // The index always contains every live token.
  lemma {:induction false} LiveTokensAreListed(env: Env, steps: seq<Step>, c: Claims) returns (r: Issued)
    requires Legal(env, steps) && c in Exec(env, steps).minted && c.exp as real > Clock(steps)
    ensures r in Exec(env, steps).issued && Records(r, c)
  {
    var n := |steps| - 1;
    var s := Exec(env, steps[..n]);
    LegalStep(env, steps, n);
    assert steps[..n + 1] == steps;
    if steps[n].LoginStep? {
      LoginOutcome(env, s, steps[n].login);
      if c in s.minted {
        r := LiveTokensAreListed(env, steps[..n], c);
        LiveIsExact(s.issued, steps[n].login.storeAt, r);
      } else {
        r := Issued(c.jti, steps[n].login.username, c.exp, steps[n].login.storeAt, c.deviceId);
      }
    } else {
      OnlyLoginsMint(env, s, steps[n]);
      r := LiveTokensAreListed(env, steps[..n], c);
    }
  }

  // Nothing but minted tokens is listed, and no token outlives its lifetime from now.
  lemma {:induction false} ListedTokensWereMinted(env: Env, steps: seq<Step>, r: Issued) returns (c: Claims)
    requires Legal(env, steps) && r in Exec(env, steps).issued
    ensures c in Exec(env, steps).minted && Records(r, c)
  {
    var n := |steps| - 1;
    var s := Exec(env, steps[..n]);
    if steps[n].LoginStep? {
      LoginOutcome(env, s, steps[n].login);
      LiveIsExact(s.issued, steps[n].login.storeAt, r);
    } else {
      OnlyLoginsMint(env, s, steps[n]);
    }
    if r in s.issued {
      c := ListedTokensWereMinted(env, steps[..n], r);
    } else {
      c := LoginClaims(env, s, steps[n].login);
    }
  }

  lemma {:induction false} ExpiryIsBounded(env: Env, steps: seq<Step>, c: Claims)
    requires Legal(env, steps) && c in Exec(env, steps).minted
    ensures c.exp as real <= Clock(steps) + env.cfg.tokenTtl as real
  {
    var n := |steps| - 1;
    var s := Exec(env, steps[..n]);
    LegalStep(env, steps, n);
    assert steps[..n + 1] == steps;
    if steps[n].LoginStep? {
      LoginOutcome(env, s, steps[n].login);
    } else {
      OnlyLoginsMint(env, s, steps[n]);
    }
    if c in s.minted {
      ExpiryIsBounded(env, steps[..n], c);
    }
  }

  const DAY: real := 86400.0

  // ---- The sweep ----

  // Every entry the sweep writes for `jti` runs to `exp`, and it writes one if a record is listed.
  lemma {:induction false} SweepRevokes(table: Revocation.Table, live: seq<Issued>, deviceId: string, now: real, jti: string, exp: int)
    requires forall r | r in live && r.jti == jti :: r.exp == exp
    ensures var after := Swept(table, live, deviceId, now);
            if exists r :: r in live && r.deviceId == deviceId && r.jti == jti
            then jti in after && after[jti] == Revocation.Entry(now, exp as real, "device_revoked:" + deviceId)
            else (jti in after <==> jti in table) && (jti in table ==> after[jti] == table[jti])
  {
    if live != [] {
      var before, last := live[..|live| - 1], live[|live| - 1];
      assert live == before + [last];
      SweepRevokes(table, before, deviceId, now, jti, exp);
    }
  }

  lemma {:induction false} RevokedAllEntries(table: Revocation.Table, jtis: seq<string>, reason: string, now: real, jti: string)
    ensures var after := RevokedAll(table, jtis, reason, now);
            if jti in jtis
            then jti in after && after[jti] == Revocation.Entry(now, now + DAY, reason)
            else (jti in after <==> jti in table) && (jti in table ==> after[jti] == table[jti])
  {
    if jtis != [] {
      var before, last := jtis[..|jtis| - 1], jtis[|jtis| - 1];
      assert jtis == before + [last];
      RevokedAllEntries(table, before, reason, now, jti);
    }
  }

  // ---- Dead tokens stay dead ----

  // Expired, or revoked by an entry that outlives it.
  ghost predicate Dead(table: Revocation.Table, c: Claims, clock: real) {
    c.exp as real <= clock || (c.jti in table && table[c.jti].expiresAt >= c.exp as real)
  }

  lemma OtherStepsKeepRevocations(env: Env, s: State, step: Step)
    requires !step.RevokeDeviceStep? && !step.RevokeTokenStep? && !step.RevokeUserStep? && !step.CleanupStep?
    ensures Effect(env, s, step).revoked == s.revoked
  {
    hide PlanAccess, PlanLogin, PlanEnroll;
  }

  // What is on record for a token id.
  function EntryFor(table: Revocation.Table, jti: string): Option<Revocation.Entry> {
    if jti in table then Some(table[jti]) else None
  }

  // The entry a step leaves for a token id: a manual revocation replaces whatever was there and
  // lapses after a day, the sweep of a revoked device runs to the token's own expiry, a clean-up
  // drops exactly the lapsed entries, and no other step changes anything.
  lemma EntryAfterStep(env: Env, s: State, step: Step, jti: string, exp: int)
    ensures var before, after := EntryFor(s.revoked, jti), EntryFor(Effect(env, s, step).revoked, jti);
            match step
            case RevokeTokenStep(id, why, at) => after == if jti == id then Some(Revocation.Entry(at, at + 86400.0, why)) else before
            case RevokeUserStep(username, why, at) =>
              after == if exists r :: r in s.issued && r.username == username && r.jti == jti && r.exp as real > at
                       then Some(Revocation.Entry(at, at + 86400.0, why)) else before
            case RevokeDeviceStep(deviceId, _, _, _, at) =>
              (forall r | r in s.issued && r.jti == jti :: r.exp == exp) ==>
                after == if deviceId in s.devices && exp as real > at && exists r :: r in s.issued && r.deviceId == deviceId && r.jti == jti
                         then Some(Revocation.Entry(at, exp as real, "device_revoked:" + deviceId)) else before
            case CleanupStep(at) => after == if before.Some? && before.value.expiresAt > at then before else None
            case _ => after == before
  {
    hide PlanAccess, PlanLogin, PlanEnroll, Apply, Live, JtisOfUser, RevokedAll, Swept;
    match step
    case RevokeUserStep(username, why, at) =>
      var live := Live(s.issued, at);
      RevokedAllEntries(s.revoked, JtisOfUser(live, username), why, at, jti);
      JtisOfUserIsExact(live, username, jti);
      forall r {
        LiveIsExact(s.issued, at, r);
      }
    case RevokeDeviceStep(deviceId, _, _, _, at) =>
      forall r {
        LiveIsExact(s.issued, at, r);
      }
      if forall r | r in s.issued && r.jti == jti :: r.exp == exp {
        SweepRevokes(s.revoked, Live(s.issued, at), deviceId, at, jti, exp);
      }
    case _ =>
  }

  // Whatever is listed under the token's id is the token's own record.
  ghost predicate ListedAs(live: seq<Issued>, c: Claims) {
    forall r | r in live && r.jti == c.jti :: Records(r, c)
  }

  lemma TokenHasOneRecord(env: Env, steps: seq<Step>, c: Claims, now: real)
    requires Legal(env, steps) && c in Exec(env, steps).minted
    ensures ListedAs(Live(Exec(env, steps).issued, now), c)
  {
    hide Effect;
    forall r | r in Live(Exec(env, steps).issued, now) && r.jti == c.jti ensures Records(r, c) {
      LiveIsExact(Exec(env, steps).issued, now, r);
      var d := ListedTokensWereMinted(env, steps, r);
      JtiIdentifiesToken(env, steps, c, d);
    }
  }

  // A manual revocation of the token that lapses before the token does. It is the only step that
  // replaces an entry of the sweep by a shorter one.
  predicate Shortens(step: Step, c: Claims) {
    && ((step.RevokeTokenStep? && step.jti == c.jti) || (step.RevokeUserStep? && step.username == c.sub))
    && c.exp as real > step.at + DAY
  }

  lemma OneStepKeepsDead(env: Env, s: State, step: Step, c: Claims, clock: real)
    requires Dead(s.revoked, c, clock) && clock <= Begin(step) && Ordered(step)
    requires !Shortens(step, c) && ListedAs(Live(s.issued, End(step)), c)
    ensures Dead(Effect(env, s, step).revoked, c, End(step))
  {
    hide PlanAccess, PlanLogin, PlanEnroll;
    match step
    case RevokeDeviceStep(deviceId, _, _, _, sweepAt) =>
      SweepRevokes(s.revoked, Live(s.issued, sweepAt), deviceId, sweepAt, c.jti, c.exp);
    case RevokeTokenStep(_, _, _) =>
    case RevokeUserStep(username, why, at) =>
      RevokedAllEntries(s.revoked, JtisOfUser(Live(s.issued, at), username), why, at, c.jti);
      JtisOfUserIsExact(Live(s.issued, at), username, c.jti);
    case CleanupStep(_) =>
    case _ =>
      OtherStepsKeepRevocations(env, s, step);
  }

  lemma DeadStaysDead(env: Env, steps: seq<Step>, c: Claims)
    requires steps != [] && Legal(env, steps) && !Shortens(steps[|steps| - 1], c)
    requires var n := |steps| - 1;
             c in Exec(env, steps[..n]).minted && Dead(Exec(env, steps[..n]).revoked, c, Clock(steps[..n]))
    ensures Dead(Exec(env, steps).revoked, c, Clock(steps))
  {
    hide Effect, Dead;
    var n := |steps| - 1;
    TokenHasOneRecord(env, steps[..n], c, End(steps[n]));
    OneStepKeepsDead(env, Exec(env, steps[..n]), steps[n], c, Clock(steps[..n]));
  }

  // The device-revoke command leaves every token of the device dead.
  lemma RevocationKills(env: Env, before: seq<Step>, step: Step, c: Claims)
    requires step.RevokeDeviceStep? && Legal(env, before + [step])
    requires step.deviceId in Exec(env, before).devices
    requires c in Exec(env, before).minted && c.deviceId == step.deviceId
    ensures var steps := before + [step];
            c in Exec(env, steps).minted && Dead(Exec(env, steps).revoked, c, Clock(steps))
  {
    var steps := before + [step];
    assert steps[..|before|] == before;
    var s := Exec(env, before);
    MintedStaysMinted(env, s, step, c);
    LegalStep(env, steps, |before|);
    if c.exp as real > step.sweepAt {
      var r := LiveTokensAreListed(env, before, c);
      LiveIsExact(s.issued, step.sweepAt, r);
      TokenHasOneRecord(env, before, c, step.sweepAt);
      SweepRevokes(s.revoked, Live(s.issued, step.sweepAt), step.deviceId, step.sweepAt, c.jti, c.exp);
    }
  }

  lemma {:induction false} DeadForGood(env: Env, dead: seq<Step>, later: seq<Step>, c: Claims)
    requires Legal(env, dead + later) && forall step | step in later :: !Shortens(step, c)
    requires c in Exec(env, dead).minted && Dead(Exec(env, dead).revoked, c, Clock(dead))
    ensures var steps := dead + later;
            c in Exec(env, steps).minted && Dead(Exec(env, steps).revoked, c, Clock(steps))
  {
    hide Effect, Dead, Shortens;
    var steps := dead + later;
    if later == [] {
      assert steps == dead;
    } else {
      var n := |steps| - 1;
      assert steps[..n] == dead + later[..|later| - 1] && steps[n] in later;
      DeadForGood(env, dead, later[..|later| - 1], c);
      MintedStaysMinted(env, Exec(env, steps[..n]), steps[n], c);
      DeadStaysDead(env, steps, c);
    }
  }

  lemma DeadIsRefused(env: Env, s: State, r: AccessRequest, c: Claims)
    requires r.bearer == Token(c) && c.jti != ""
    requires c.exp as real <= r.verifyAt || c.jti in s.revoked
    ensures !Reached(HandleAccess(env, s, r).1)
  {
  }

  // A run in which a token of the device survives the command.
  ghost predicate Survives(env: Env, before: seq<Step>, revoke: Step, later: seq<Step>, r: AccessRequest, c: Claims) {
    && revoke.RevokeDeviceStep? && revoke.deviceId in Exec(env, before).devices
    && c in Exec(env, before).minted && c.deviceId == revoke.deviceId
    && Legal(env, before + [revoke] + later + [AccessStep(r)]) && r.bearer == Token(c)
    && Reached(HandleAccess(env, Exec(env, before + [revoke] + later), r).1)
  }

  // Once the device-revoke command has run, no token issued to the device before it reaches a
  // backend again, whatever happens later -- logins, re-enrolment, re-approval, further device
  // revocations, clean-up, restarts -- as long as no later manual revocation of the token lapses
  // before the token expires.
  lemma RevocationCutOff(env: Env, before: seq<Step>, revoke: Step, later: seq<Step>, r: AccessRequest, c: Claims)
    ensures (forall step | step in later :: !Shortens(step, c)) ==> !Survives(env, before, revoke, later, r, c)
  {
    hide Effect, HandleAccess, Shortens;
    if Survives(env, before, revoke, later, r, c) && forall step | step in later :: !Shortens(step, c) {
      var dead := before + [revoke];
      var steps := dead + later;
      var all := steps + [AccessStep(r)];
      assert all[..|dead|] == dead && all[..|steps|] == steps;
      LegalPrefix(env, all, |dead|);
      LegalPrefix(env, all, |steps|);
      LegalStep(env, all, |steps|);
      RevocationKills(env, before, revoke, c);
      DeadForGood(env, dead, later, c);
      JtiIdentifiesToken(env, steps, c, c);
      DeadIsRefused(env, Exec(env, steps), r, c);
    }
  }

  // With token lifetimes of at most a day no manual revocation is that short.
  lemma ShortLivedTokensAreNeverShortened(env: Env, steps: seq<Step>, k: nat, c: Claims)
    requires Legal(env, steps) && k < |steps| && env.cfg.tokenTtl as real <= DAY
    ensures c in Exec(env, steps[..k]).minted ==> forall j | k <= j < |steps| :: !Shortens(steps[j], c)
  {
    hide Effect;
    LegalPrefix(env, steps, k);
    if c in Exec(env, steps[..k]).minted {
      ExpiryIsBounded(env, steps[..k], c);
      forall j | k <= j < |steps| ensures !Shortens(steps[j], c) {
        ClockAdvances(env, steps, k, j);
        LegalStep(env, steps, j);
      }
    }
  }

  // ---- The lifetime bound is exact ----

  // The deployment has a user who can log in from a device that is enrolled but not approved.
  ghost predicate Deploys(env: Env, user: string, device: string, pem: string, resource: string) {
    && user in env.users && device != "" && pem != ""
    && Crypto.KeyThumbprint(env.primitives, pem).Some? && env.cfg.requireApproval
    && resource in env.builtIn && resource != "" && '/' !in resource
  }

  // And it serves that user: such a login may use `resource` a day later.
  ghost predicate Serves(env: Env, user: string, device: string, pem: string, posture: real, resource: string, hour: int) {
    && Deploys(env, user, device, pem, resource)
    && var s := Initial(env);
       Evaluate(env.cfg, s.policies, s.hours,
                Subject(env.users[user].role, Some(Truncate(posture) as real), false, Some(0.0), ["pwd", "otp"]),
                resource, DAY, hour) == Allow
  }

  const NO_TEXT := FreeText("", "")
  const EPOCH := Stamp(0.0, "", NO_TEXT)
  const TOKEN_ID := "t"

  function Enrolling(device: string, pem: string): Step {
    EnrollStep(EnrollRequest(device, pem, "", 0.0, EPOCH))
  }

  function LoggingIn(user: string, device: string, posture: real): LoginRequest {
    LoginRequest(user, true, true, Some(posture), device, NoSignature, "", TOKEN_ID, 0.0, 0.0, 0.0, 0.0, 0.0, EPOCH)
  }

  function Using(resource: string, c: Claims, hour: int): AccessRequest {
    AccessRequest(resource, Token(c), PathOf(resource), NoProof, "", hour, true, DAY, DAY, DAY, Stamp(DAY, "", NO_TEXT), Stamp(DAY, "", NO_TEXT))
  }

  lemma AfterEnrolling(env: Env, user: string, device: string, pem: string, resource: string)
    requires Deploys(env, user, device, pem, resource)
    ensures var s, t := Initial(env), Effect(env, Initial(env), Enrolling(device, pem));
            && t.limiter == map[] && t.minted == [] && t.revoked == map[]
            && t.policies == s.policies && t.hours == s.hours
            && device in t.devices && t.devices[device].status == Pending
  {
    hide HandleAccess, HandleLogin, Live, Loaded;
  }

  lemma LoginLeaves(env: Env, s: State, login: LoginRequest)
    ensures var t := Effect(env, s, LoginStep(login));
            && t.minted == HandleLogin(env, s, login).0.minted
            && t.devices == s.devices && t.revoked == s.revoked && t.policies == s.policies && t.hours == s.hours
  {
    hide PlanLogin;
  }

  // Enrol a device, leave it pending, and log in from it: the token is unbound.
  lemma UnboundToken(env: Env, user: string, device: string, pem: string, posture: real, resource: string)
    returns (before: seq<Step>, c: Claims)
    requires Deploys(env, user, device, pem, resource)
    ensures var s := Exec(env, before);
            && Legal(env, before) && Clock(before) == 0.0
            && device in s.devices && s.minted == [c] && s.revoked == map[]
            && s.policies == Initial(env).policies && s.hours == Initial(env).hours
    ensures c.deviceId == device && c.cnf == None && c.jti == TOKEN_ID && c.exp == env.cfg.tokenTtl
    ensures SubjectOf(c) == Subject(env.users[user].role, Some(Truncate(posture) as real), false, Some(0.0), ["pwd", "otp"])
  {
    hide Effect, HandleLogin;
    var enrol, login := Enrolling(device, pem), LoggingIn(user, device, posture);
    var s1 := Exec(env, [enrol]);
    AfterEnrolling(env, user, device, pem, resource);
    ExecAppend(env, [], enrol);
    assert [] + [enrol] == [enrol];
    ExecAppend(env, [enrol], LoginStep(login));
    before := [enrol] + [LoginStep(login)];
    LoginLeaves(env, s1, login);
    LoginOutcome(env, s1, login);
    c := LoginClaims(env, s1, login);
    assert s1.minted + [c] == [c];
  }

  lemma ReachesUnbound(env: Env, s: State, r: AccessRequest, c: Claims)
    requires r.bearer == Token(c) && c in s.minted && r.verifyAt < c.exp as real
    requires !Revocation.IsRevoked(s.revoked, c.jti) && c.cnf == None
    requires PolicyStage(env, s, r, c) == Allow && r.resource in env.builtIn
    ensures Reached(HandleAccess(env, s, r).1)
  {
  }

  lemma UnboundTokenSurvives(env: Env, before: seq<Step>, revoke: Step, later: seq<Step>, c: Claims, resource: string, hour: int)
    requires revoke.RevokeDeviceStep? && revoke.deviceId == c.deviceId
    requires c.deviceId in Exec(env, before).devices && c in Exec(env, before).minted
    requires var steps := before + [revoke] + later;
             && Legal(env, steps) && Clock(steps) == DAY
             && var s := Exec(env, steps);
                c in s.minted && c.jti !in s.revoked && resource in env.builtIn && resource != "" && '/' !in resource
    requires c.cnf == None && c.exp as real > DAY
    ensures var s := Exec(env, before + [revoke] + later);
            Evaluate(env.cfg, s.policies, s.hours, SubjectOf(c), resource, DAY, hour) == Allow ==>
              Survives(env, before, revoke, later, Using(resource, c, hour), c)
  {
    hide Effect, HandleAccess;
    var r := Using(resource, c, hour);
    ResourceIsFound(resource);
    ExecAppend(env, before + [revoke] + later, AccessStep(r));
    var s := Exec(env, before + [revoke] + later);
    if Evaluate(env.cfg, s.policies, s.hours, SubjectOf(c), resource, DAY, hour) == Allow {
      ReachesUnbound(env, s, r, c);
    }
  }

  lemma RevocationLapses(env: Env, s: State, revoke: Step, byHand: Step, cleanup: Step)
    requires revoke.RevokeDeviceStep?
    requires byHand == RevokeTokenStep(TOKEN_ID, "", 0.0) && cleanup == CleanupStep(DAY)
    ensures var cleaned := Effect(env, Effect(env, Effect(env, s, revoke), byHand), cleanup);
            && TOKEN_ID !in cleaned.revoked && cleaned.minted == s.minted
            && cleaned.policies == s.policies && cleaned.hours == s.hours
  {
  }

  lemma RunLapses(env: Env, before: seq<Step>, device: string) returns (revoke: Step, later: seq<Step>)
    requires Legal(env, before) && Clock(before) == 0.0
    ensures revoke.RevokeDeviceStep? && revoke.deviceId == device
    ensures var steps := before + [revoke] + later;
            var s, t := Exec(env, before), Exec(env, steps);
            && Legal(env, steps) && Clock(steps) == DAY
            && TOKEN_ID !in t.revoked && t.minted == s.minted && t.policies == s.policies && t.hours == s.hours
  {
    revoke, later := RevokeDeviceStep(device, "", "", 0.0, 0.0), [RevokeTokenStep(TOKEN_ID, "", 0.0), CleanupStep(DAY)];
    ExecAppend(env, before, revoke);
    ExecAppend(env, before + [revoke], later[0]);
    ExecAppend(env, before + [revoke] + [later[0]], later[1]);
    assert before + [revoke] + later == before + [revoke] + [later[0]] + [later[1]];
    RevocationLapses(env, Exec(env, before), revoke, later[0], later[1]);
  }

  // With a token lifetime above a day, revoking the token by hand replaces the sweep's entry by
  // one that lapses first, and clean-up then brings the token back.
  lemma TokenComesBack(env: Env, user: string, device: string, pem: string, posture: real, resource: string, hour: int)
    requires Serves(env, user, device, pem, posture, resource, hour) && env.cfg.tokenTtl as real > DAY
    ensures exists before, revoke, later, r, c :: Survives(env, before, revoke, later, r, c)
  {
    var before, c := UnboundToken(env, user, device, pem, posture, resource);
    var revoke, later := RunLapses(env, before, device);
    UnboundTokenSurvives(env, before, revoke, later, c, resource, hour);
  }

  lemma CutOffWithinADay(env: Env, before: seq<Step>, revoke: Step, later: seq<Step>, r: AccessRequest, c: Claims)
    requires env.cfg.tokenTtl as real <= DAY
    ensures !Survives(env, before, revoke, later, r, c)
  {
    hide Effect, HandleAccess, Shortens;
    if Survives(env, before, revoke, later, r, c) {
      var all := before + [revoke] + later + [AccessStep(r)];
      assert all[..|before|] == before;
      ShortLivedTokensAreNeverShortened(env, all, |before|, c);
      forall step | step in later ensures !Shortens(step, c) {
        var k :| 0 <= k < |later| && later[k] == step;
        assert all[|before| + 1 + k] == step;
      }
      RevocationCutOff(env, before, revoke, later, r, c);
    }
  }

  // The cut-off holds over every run exactly when no token lives longer than the entry a manual
  // revocation writes.
  lemma CutOffIffLifetimeWithinADay(env: Env, user: string, device: string, pem: string, posture: real, resource: string, hour: int)
    requires Serves(env, user, device, pem, posture, resource, hour)
    ensures env.cfg.tokenTtl as real <= DAY
            <==> !exists before, revoke, later, r, c :: Survives(env, before, revoke, later, r, c)
  {
    if env.cfg.tokenTtl as real > DAY {
      TokenComesBack(env, user, device, pem, posture, resource, hour);
    } else {
      forall before, revoke, later, r, c | Survives(env, before, revoke, later, r, c) ensures false {
        CutOffWithinADay(env, before, revoke, later, r, c);
      }
    }
  }
}
