/** Proofs cannot be replayed, and passwords cannot be guessed fast, over any run. */
module ProofReplay {
  import opened Settings
  import opened JwtUtils
  import opened TokenBinding
  import opened ProofPayload
  import opened Text
  import opened AccessProtocol
  import opened Runs
  import Revocation

  // The request presents this proof and the Gateway accepts it.
  ghost predicate Accepts(env: Env, s: State, r: AccessRequest, data: string) {
    && r.proof.Proof? && r.proof.data == data
    && var check := Check(s.minted, r.bearer, r.verifyAt);
    && check.Verified? && !Revocation.IsRevoked(s.revoked, check.claims.jti)
    && TokenRequiresProof(env.cfg, check.claims)
    && ProofStage(env, s, r, check.claims).1 == Accepted
  }

  ghost predicate AcceptsAt(env: Env, steps: seq<Step>, i: int, data: string) {
    && 0 <= i < |steps| && steps[i].AccessStep?
    && Accepts(env, Exec(env, steps[..i]), steps[i].access, data)
  }

  predicate NoRestart(steps: seq<Step>, i: int, j: int) {
    forall k | 0 <= k < |steps| && i < k < j :: !steps[k].RestartGatewayStep?
  }

  lemma DecisionNonces(env: Env, s: State, r: AccessRequest, nonces: Nonces, claims: Claims)
    ensures PlanDecision(env, s, r, nonces, claims).nonces == nonces
  {
  }

  lemma UseNonces(env: Env, s: State, r: AccessRequest, claims: Claims)
    ensures PlanUse(env, s, r, claims).nonces == ProofStage(env, s, r, claims).0
  {
    DecisionNonces(env, s, r, ProofStage(env, s, r, claims).0, claims);
  }

  // The cache after an access: the proof stage's, if the request gets that far.
  lemma AccessNonces(env: Env, s: State, r: AccessRequest)
    ensures var check := Check(s.minted, r.bearer, r.verifyAt);
            HandleAccess(env, s, r).0.nonces ==
              if check.Verified? && !Revocation.IsRevoked(s.revoked, check.claims.jti)
              then ProofStage(env, s, r, check.claims).0
              else s.nonces
  {
    var check := Check(s.minted, r.bearer, r.verifyAt);
    if check.Verified? {
      UseNonces(env, s, r, check.claims);
    }
  }

  lemma StageSpends(env: Env, s: State, r: AccessRequest, claims: Claims)
    requires TokenRequiresProof(env.cfg, claims) && ProofStage(env, s, r, claims).1 == Accepted
    ensures r.proof.Proof? && |Split(SEP, r.proof.data)| == 5
    ensures var after := ProofStage(env, s, r, claims).0;
            NonceOf(r.proof.data) in after && after[NonceOf(r.proof.data)] == r.proofAt + Retention(env.cfg)
  {
  }

  // An accepted proof leaves its nonce in the cache.
  lemma AcceptanceSpends(env: Env, s: State, r: AccessRequest, data: string)
    requires Accepts(env, s, r, data)
    ensures var nonces := HandleAccess(env, s, r).0.nonces;
            |Split(SEP, data)| == 5 && NonceOf(data) in nonces && nonces[NonceOf(data)] == r.proofAt + Retention(env.cfg)
  {
    hide HandleAccess, ProofStage;
    AccessNonces(env, s, r);
    StageSpends(env, s, r, Check(s.minted, r.bearer, r.verifyAt).claims);
  }

  lemma StageKeepsNonce(env: Env, s: State, r: AccessRequest, claims: Claims, nonce: string)
    requires nonce in s.nonces
    ensures var after := ProofStage(env, s, r, claims).0;
            (nonce in after && after[nonce] == s.nonces[nonce]) || s.nonces[nonce] < r.proofAt
  {
  }

  // A remembered nonce is forgotten only after its time.
  lemma NoncePersists(env: Env, s: State, step: Step, nonce: string)
    requires nonce in s.nonces && !step.RestartGatewayStep? && Ordered(step)
    ensures var after := Effect(env, s, step).nonces;
            (nonce in after && after[nonce] == s.nonces[nonce]) || s.nonces[nonce] < End(step)
  {
    hide PlanAccess, PlanLogin, PlanEnroll, ProofStage;
    if step.AccessStep? {
      var r := step.access;
      var check := Check(s.minted, r.bearer, r.verifyAt);
      AccessNonces(env, s, r);
      if check.Verified? {
        StageKeepsNonce(env, s, r, check.claims, nonce);
      }
    }
  }

  // A nonce still remembered is refused.
  lemma HeldNonceIsRefused(env: Env, s: State, r: AccessRequest, data: string)
    requires Accepts(env, s, r, data)
    ensures |Split(SEP, data)| == 5 && (NonceOf(data) in s.nonces ==> s.nonces[NonceOf(data)] < r.proofAt)
  {
  }

  lemma HeldOneMore(env: Env, steps: seq<Step>, k: nat, nonce: string)
    requires k < |steps| && nonce in Exec(env, steps[..k]).nonces
    requires !steps[k].RestartGatewayStep? && Ordered(steps[k])
    ensures var before, after := Exec(env, steps[..k]).nonces, Exec(env, steps[..k + 1]).nonces;
            (nonce in after && after[nonce] == before[nonce]) || before[nonce] < Clock(steps[..k + 1])
  {
    NoncePersists(env, Exec(env, steps[..k]), steps[k], nonce);
    ExecStep(env, steps, k);
  }

  lemma {:induction false} NonceIsHeld(env: Env, steps: seq<Step>, i: nat, j: nat, nonce: string, until: real)
    requires Legal(env, steps) && i <= j <= |steps| && NoRestart(steps, i - 1, j)
    requires nonce in Exec(env, steps[..i]).nonces && Exec(env, steps[..i]).nonces[nonce] == until
    ensures var s := Exec(env, steps[..j]);
            (nonce in s.nonces && s.nonces[nonce] == until) || until < Clock(steps[..j])
    decreases j
  {
    hide Effect;
    if i < j {
      NonceIsHeld(env, steps, i, j - 1, nonce, until);
      LegalStep(env, steps, j - 1);
      if until >= Clock(steps[..j - 1]) {
        HeldOneMore(env, steps, j - 1, nonce);
      }
    }
  }

  lemma NoncesAfter(env: Env, steps: seq<Step>, i: nat)
    requires i < |steps| && steps[i].AccessStep?
    ensures Exec(env, steps[..i + 1]).nonces == HandleAccess(env, Exec(env, steps[..i]), steps[i].access).0.nonces
  {
    hide PlanAccess, HandleLogin, HandleEnroll;
    assert steps[..i + 1][..i] == steps[..i];
  }

  lemma HeldFrom(env: Env, steps: seq<Step>, i: nat, data: string)
    requires AcceptsAt(env, steps, i, data)
    ensures |Split(SEP, data)| == 5 && NonceOf(data) in Exec(env, steps[..i + 1]).nonces
    ensures Exec(env, steps[..i + 1]).nonces[NonceOf(data)] == steps[i].access.proofAt + Retention(env.cfg)
  {
    NoncesAfter(env, steps, i);
    AcceptanceSpends(env, Exec(env, steps[..i]), steps[i].access, data);
  }

  lemma NotHeldAt(env: Env, steps: seq<Step>, j: nat, data: string)
    requires AcceptsAt(env, steps, j, data)
    ensures |Split(SEP, data)| == 5
    ensures NonceOf(data) in Exec(env, steps[..j]).nonces ==>
              Exec(env, steps[..j]).nonces[NonceOf(data)] < steps[j].access.proofAt
  {
    HeldNonceIsRefused(env, Exec(env, steps[..j]), steps[j].access, data);
  }

  // What an acceptance at step i says about the proof and the token.
  lemma AcceptsFresh(env: Env, steps: seq<Step>, i: nat, data: string)
    requires AcceptsAt(env, steps, i, data)
    ensures |Split(SEP, data)| == 5 && ParseInt(Split(SEP, data)[3]).Some?
    ensures var r := steps[i].access;
            && r.bearer.Token? && r.bearer.claims in Exec(env, steps[..i]).minted
            && r.verifyAt < r.bearer.claims.exp as real
            && r.bearer.claims.jti == Split(SEP, data)[0]
            && r.proofAt <= TimestampOf(data) as real + env.cfg.proofMaxAge as real
            && r.proofAt >= TimestampOf(data) as real - env.cfg.proofMaxAge as real
  {
    hide Effect, Exec;
  }

  // Two acceptances of one nonce by one Gateway process are more than the retention time apart.
  lemma AcceptancesAreSpaced(env: Env, steps: seq<Step>, i: nat, j: nat, data: string, data': string)
    requires Legal(env, steps) && i < j && NoRestart(steps, i, j)
    ensures AcceptsAt(env, steps, i, data) && AcceptsAt(env, steps, j, data') && NonceOf(data) == NonceOf(data') ==>
              steps[j].access.proofAt > steps[i].access.proofAt + env.cfg.proofMaxAge as real + 5.0
  {
    hide Effect, Accepts;
    if AcceptsAt(env, steps, i, data) && AcceptsAt(env, steps, j, data') {
      AcceptsFresh(env, steps, i, data);
      AcceptsFresh(env, steps, j, data');
      HeldFrom(env, steps, i, data);
      NotHeldAt(env, steps, j, data');
      if NonceOf(data) == NonceOf(data') {
        NonceIsHeld(env, steps, i + 1, j, NonceOf(data), steps[i].access.proofAt + Retention(env.cfg));
        LegalStep(env, steps, j);
      }
    }
  }

  // No proof payload is accepted twice by one Gateway process, provided its timestamp was at most
  // five seconds ahead of the Gateway clock when it was first accepted.
  lemma NoReplay(env: Env, steps: seq<Step>, i: nat, j: nat, data: string)
    requires Legal(env, steps) && i < j && NoRestart(steps, i, j)
    ensures AcceptsAt(env, steps, i, data) && TimestampOf(data) as real <= steps[i].access.proofAt + 5.0 ==>
              !AcceptsAt(env, steps, j, data)
  {
    hide Effect, Accepts, Legal;
    if AcceptsAt(env, steps, i, data) && AcceptsAt(env, steps, j, data) {
      AcceptsFresh(env, steps, i, data);
      AcceptsFresh(env, steps, j, data);
      AcceptancesAreSpaced(env, steps, i, j, data, data);
    }
  }

  // Whatever the skew, no proof payload is accepted three times by one Gateway process.
  lemma NoThirdAcceptance(env: Env, steps: seq<Step>, i: nat, j: nat, k: nat, data: string)
    requires Legal(env, steps) && i < j < k && NoRestart(steps, i, k)
    ensures !(AcceptsAt(env, steps, i, data) && AcceptsAt(env, steps, j, data) && AcceptsAt(env, steps, k, data))
  {
    hide Effect, Accepts, Legal;
    if AcceptsAt(env, steps, i, data) && AcceptsAt(env, steps, j, data) && AcceptsAt(env, steps, k, data) {
      AcceptsFresh(env, steps, i, data);
      AcceptsFresh(env, steps, k, data);
      AcceptancesAreSpaced(env, steps, i, j, data, data);
      AcceptancesAreSpaced(env, steps, j, k, data, data);
    }
  }

  // ---- The skew bound is exact over runs ----

  // One Gateway process goes on from `steps` through `later` and then accepts the proof again, in a
  // request whose expiry and proof checks are at most `delay` seconds apart.
  ghost predicate ReplayedAfter(env: Env, steps: seq<Step>, later: seq<Step>, r: AccessRequest, data: string, delay: real) {
    && NoRestart(later, -1, |later|)
    && Legal(env, steps + later + [AccessStep(r)])
    && AcceptsAt(env, steps + later + [AccessStep(r)], |steps| + |later|, data)
    && r.proofAt <= r.verifyAt + delay
  }

  // The last moment at which the proof is fresh.
  function LastFresh(cfg: Config, data: string): real
    requires |Split(SEP, data)| == 5 && ParseInt(Split(SEP, data)[3]).Some?
  {
    TimestampOf(data) as real + cfg.proofMaxAge as real
  }

  // The first acceptance leaves room for a second one: the timestamp was more than five
  // seconds ahead of the clock; the token is still live and the proof still fresh when the first request is
  // over; and the token lives, but for the delay, until the nonce is forgotten.
  ghost predicate LeavesRoom(env: Env, steps: seq<Step>, data: string, delay: real)
    requires steps != [] && steps[|steps| - 1].AccessStep? && steps[|steps| - 1].access.bearer.Token?
    requires |Split(SEP, data)| == 5 && ParseInt(Split(SEP, data)[3]).Some?
  {
    var first := steps[|steps| - 1].access;
    var exp := first.bearer.claims.exp as real;
    && TimestampOf(data) as real > first.proofAt + 5.0
    && Clock(steps) < exp && Clock(steps) <= LastFresh(env.cfg, data)
    && first.proofAt + env.cfg.proofMaxAge as real + 5.0 < exp + delay
  }

  lemma AcceptsOnPrefix(env: Env, steps: seq<Step>, i: nat, more: seq<Step>, data: string)
    requires i < |steps|
    ensures AcceptsAt(env, steps, i, data) <==> AcceptsAt(env, steps + more, i, data)
  {
    hide Effect, Accepts;
    assert (steps + more)[..i] == steps[..i];
  }

  lemma ReplayNeedsRoom(env: Env, steps: seq<Step>, later: seq<Step>, r: AccessRequest, data: string, delay: real)
    requires steps != [] && AcceptsAt(env, steps, |steps| - 1, data) && ReplayedAfter(env, steps, later, r, data, delay)
    ensures steps[|steps| - 1].access.bearer.Token?
    ensures |Split(SEP, data)| == 5 && ParseInt(Split(SEP, data)[3]).Some? && LeavesRoom(env, steps, data, delay)
  {
    hide Effect, Accepts;
    var i, j, all := |steps| - 1, |steps| + |later|, steps + later + [AccessStep(r)];
    assert all == steps + (later + [AccessStep(r)]) && all[..|steps|] == steps && all[..|all|] == all;
    AcceptsOnPrefix(env, steps, i, later + [AccessStep(r)], data);
    AcceptsFresh(env, all, i, data);
    AcceptsFresh(env, all, j, data);
    assert forall k | i < k < j :: all[k] == later[k - |steps|];
    AcceptancesAreSpaced(env, all, i, j, data, data);
    ClockAdvances(env, all, |steps|, j);
    LegalStep(env, all, j);
    LegalPrefix(env, all, j);
    MintedPersists(env, all, i, j, all[i].access.bearer.claims);
    JtiIdentifiesToken(env, all[..j], all[i].access.bearer.claims, r.bearer.claims);
  }

  // The same proof, presented again to an unchanged registry while it is fresh and its nonce is
  // forgotten, is accepted again.
  lemma AcceptedAgain(env: Env, s: State, r: AccessRequest, s': State, r': AccessRequest, data: string)
    requires Accepts(env, s, r, data)
    requires s'.devices == s.devices && s'.minted == s.minted && s'.revoked == s.revoked
    requires r'.bearer == r.bearer && r'.path == r.path && r'.proof == r.proof
    requires r'.verifyAt < r.bearer.claims.exp as real
    requires NonceOf(data) !in Pruned(s'.nonces, r'.proofAt)
    requires r.proofAt <= r'.proofAt <= LastFresh(env.cfg, data)
    ensures Accepts(env, s', r', data)
  {
  }

  lemma AccessKeepsStores(env: Env, s: State, r: AccessRequest)
    ensures var t := Effect(env, s, AccessStep(r));
            t.devices == s.devices && t.minted == s.minted && t.revoked == s.revoked
            && t.nonces == HandleAccess(env, s, r).0.nonces
  {
    hide PlanAccess;
  }

  function Again(r: AccessRequest, checked: real, judged: real): AccessRequest {
    r.(verifyAt := checked, proofAt := judged, policyAt := judged,
       stamp := r.stamp.(at := judged), errorStamp := r.errorStamp.(at := judged))
  }

  // When to check and when to judge the second request.
  lemma SecondReadings(clock: real, exp: real, late: real, forgotten: real, delay: real) returns (checked: real, judged: real)
    requires delay >= 0.0 && clock < exp && clock <= late && forgotten < late && forgotten < exp + delay
    ensures clock <= checked < exp && checked <= judged <= checked + delay && forgotten < judged <= late
  {
    var last := if exp <= late then exp else late;
    checked := if forgotten - delay < clock then clock else (forgotten - delay + last) / 2.0;
    judged := if checked + delay <= late then checked + delay else late;
  }

  lemma RoomAllowsReplay(env: Env, steps: seq<Step>, data: string, delay: real) returns (r: AccessRequest)
    requires Legal(env, steps) && steps != [] && AcceptsAt(env, steps, |steps| - 1, data) && delay >= 0.0
    requires steps[|steps| - 1].access.bearer.Token?
    requires |Split(SEP, data)| == 5 && ParseInt(Split(SEP, data)[3]).Some? && LeavesRoom(env, steps, data, delay)
    ensures ReplayedAfter(env, steps, [], r, data, delay)
  {
    hide Effect, HandleAccess, Accepts;
    var i := |steps| - 1;
    var first, before := steps[i].access, Exec(env, steps[..i]);
    assert steps[..i + 1] == steps;
    LegalStep(env, steps, i);
    AcceptsFresh(env, steps, i, data);
    var checked, judged := SecondReadings(Clock(steps), first.bearer.claims.exp as real, LastFresh(env.cfg, data),
                                          first.proofAt + Retention(env.cfg), delay);
    r := Again(first, checked, judged);
    HeldFrom(env, steps, i, data);
    AccessKeepsStores(env, before, first);
    AcceptedAgain(env, before, first, Exec(env, steps), r, data);
    ExecAppend(env, steps, AccessStep(r));
    assert steps + [] + [AccessStep(r)] == steps + [AccessStep(r)] && (steps + [AccessStep(r)])[..|steps|] == steps;
  }

  // Right after a Gateway process has accepted a proof: some legal continuation of the run has the
  // same process accept it again, in a request at most `delay` seconds slow, if and only if the
  // first acceptance left room for it.
  lemma ReplayableRunIff(env: Env, steps: seq<Step>, data: string, delay: real)
    requires Legal(env, steps) && steps != [] && AcceptsAt(env, steps, |steps| - 1, data) && delay >= 0.0
    ensures |Split(SEP, data)| == 5 && ParseInt(Split(SEP, data)[3]).Some? && steps[|steps| - 1].access.bearer.Token?
    ensures (exists later, r :: ReplayedAfter(env, steps, later, r, data, delay)) <==> LeavesRoom(env, steps, data, delay)
  {
    hide Effect, Accepts, ReplayedAfter, LeavesRoom;
    AcceptsFresh(env, steps, |steps| - 1, data);
    forall later, r | ReplayedAfter(env, steps, later, r, data, delay) ensures LeavesRoom(env, steps, data, delay) {
      ReplayNeedsRoom(env, steps, later, r, data, delay);
    }
    if LeavesRoom(env, steps, data, delay) {
      var r := RoomAllowsReplay(env, steps, data, delay);
    }
  }
}

module GuessRate {
  import opened Settings
  import opened Reasons
  import opened AccessProtocol
  import opened Runs
  import opened RateLimiting

  // The failures recorded for a user since the last successful login or IdP restart.
  function NextFailures(env: Env, s: State, step: Step, user: string, failures: seq<real>): seq<real> {
    if step.RestartIdPStep? then []
    else if step.LoginStep? && step.login.username == user then
      match HandleLogin(env, s, step.login).1
      case LoggedIn(_) => []
      case Rejected(reason) =>
        if reason == InvalidCredentials || reason == InvalidOtp then failures + [step.login.recordAt] else failures
    else failures
  }

  function Failures(env: Env, steps: seq<Step>, user: string): seq<real> {
    if steps == [] then []
    else
      var n := |steps| - 1;
      NextFailures(env, Exec(env, steps[..n]), steps[n], user, Failures(env, steps[..n], user))
  }

  lemma TracksLater(cfg: Config, e: Entry, failures: seq<real>, clock: real, later: real)
    requires Tracks(cfg, e, failures, clock) && clock <= later
    ensures Tracks(cfg, e, failures, later)
  {
  }

  // What a login does to the user's entry and to the list of failures.
  lemma LoginEntry(env: Env, s: State, r: LoginRequest, failures: seq<real>)
    ensures var entry := EntryOf(s.limiter, r.username);
            var checked := Checked(entry, r.checkAt);
            var after := EntryOf(HandleLogin(env, s, r).0.limiter, r.username);
            var more := NextFailures(env, s, LoginStep(r), r.username, failures);
            if LoginSucceeds(env, s, r) then after == CLEAR && more == []
            else if Locked(entry, r.checkAt) || CredentialsOk(env, r) then after == checked && more == failures
            else after == Failed(env.cfg, checked, r.recordAt) && more == failures + [r.recordAt] && checked.lockedUntil.None?
  {
  }

  lemma ClearTracksNothing(cfg: Config, clock: real)
    ensures Tracks(cfg, CLEAR, [], clock) && Spaced(cfg, [])
  {
  }

  lemma RecordedFailureTracks(cfg: Config, checked: Entry, failures: seq<real>, r: LoginRequest)
    requires r.checkAt <= r.recordAt <= r.stamp.at && checked.lockedUntil.None?
    requires Tracks(cfg, checked, failures, r.checkAt) && Spaced(cfg, failures)
    ensures Tracks(cfg, Failed(cfg, checked, r.recordAt), failures + [r.recordAt], r.stamp.at)
    ensures Spaced(cfg, failures + [r.recordAt])
  {
    FailureKeepsTrack(cfg, checked, failures, r.checkAt, r.recordAt);
    FailureKeepsSpacing(cfg, checked, failures, r.checkAt, r.recordAt);
    TracksLater(cfg, Failed(cfg, checked, r.recordAt), failures + [r.recordAt], r.recordAt, r.stamp.at);
  }

  lemma LoginKeepsTrack(env: Env, s: State, r: LoginRequest, failures: seq<real>, clock: real)
    requires clock <= r.checkAt <= r.recordAt <= r.stamp.at
    requires Tracks(env.cfg, EntryOf(s.limiter, r.username), failures, clock) && Spaced(env.cfg, failures)
    ensures var more := NextFailures(env, s, LoginStep(r), r.username, failures);
            && Tracks(env.cfg, EntryOf(HandleLogin(env, s, r).0.limiter, r.username), more, r.stamp.at)
            && Spaced(env.cfg, more)
  {
    var entry := EntryOf(s.limiter, r.username);
    LoginEntry(env, s, r, failures);
    CheckKeepsTrack(env.cfg, entry, failures, clock, r.checkAt);
    if LoginSucceeds(env, s, r) {
      ClearTracksNothing(env.cfg, r.stamp.at);
    } else if Locked(entry, r.checkAt) || CredentialsOk(env, r) {
      TracksLater(env.cfg, Checked(entry, r.checkAt), failures, r.checkAt, r.stamp.at);
    } else {
      RecordedFailureTracks(env.cfg, Checked(entry, r.checkAt), failures, r);
    }
  }

  lemma OtherStepsKeepEntry(env: Env, s: State, step: Step, user: string)
    requires !step.RestartIdPStep? && !(step.LoginStep? && step.login.username == user)
    ensures EntryOf(Effect(env, s, step).limiter, user) == EntryOf(s.limiter, user)
  {
    hide PlanAccess, PlanEnroll;
  }

  lemma StepKeepsTrack(env: Env, s: State, step: Step, user: string, failures: seq<real>, clock: real)
    requires clock <= Begin(step) && Ordered(step)
    requires Tracks(env.cfg, EntryOf(s.limiter, user), failures, clock) && Spaced(env.cfg, failures)
    ensures var more := NextFailures(env, s, step, user, failures);
            && Tracks(env.cfg, EntryOf(Effect(env, s, step).limiter, user), more, End(step))
            && Spaced(env.cfg, more)
  {
    hide Tracks, Spaced, PlanLogin;
    if step.RestartIdPStep? {
      ClearTracksNothing(env.cfg, End(step));
    } else if step.LoginStep? && step.login.username == user {
      LoginKeepsTrack(env, s, step.login, failures, clock);
    } else {
      OtherStepsKeepEntry(env, s, step, user);
      TracksLater(env.cfg, EntryOf(s.limiter, user), failures, clock, End(step));
      hide Effect;
    }
  }

  lemma {:induction false} LimiterTracks(env: Env, steps: seq<Step>, user: string)
    requires Legal(env, steps)
    ensures Tracks(env.cfg, EntryOf(Exec(env, steps).limiter, user), Failures(env, steps, user), Clock(steps))
    ensures Spaced(env.cfg, Failures(env, steps, user))
  {
    hide Effect, Tracks, Spaced, NextFailures;
    if steps == [] {
      ClearTracksNothing(env.cfg, 0.0);
    } else {
      var n := |steps| - 1;
      LimiterTracks(env, steps[..n], user);
      LegalStep(env, steps, n);
      assert steps[..n + 1] == steps;
      StepKeepsTrack(env, Exec(env, steps[..n]), steps[n], user, Failures(env, steps[..n], user), Clock(steps[..n]));
    }
  }

  // Over every run, k blocks of Limit failures and one more of one user, with no success and no IdP
  // restart among them, last at least k times the shorter of the window and the lockout.
  lemma GuessRateBound(env: Env, steps: seq<Step>, user: string, i: nat, k: nat)
    requires Legal(env, steps) && i + Blocks(env.cfg, k) < |Failures(env, steps, user)|
    ensures var times := Failures(env, steps, user);
            times[i + Blocks(env.cfg, k)] - times[i] >= BlockTime(env.cfg, k)
  {
    hide Effect, Tracks, NextFailures;
    LimiterTracks(env, steps, user);
    BlocksAreProducts(env.cfg, k);
    SpacingAddsUp(env.cfg, Failures(env, steps, user), i, k);
  }
}
