/** Facts about runs that every theorem uses: what a step leaves alone, prefixes, and the clock. */
module Runs {
  import opened DeviceRegistry
  import opened JwtUtils
  import opened AccessProtocol
  import RateLimiting
  import TokenStore

  // Only a login touches the token stores.
  lemma OnlyLoginsMint(env: Env, s: State, step: Step)
    requires !step.LoginStep?
    ensures Effect(env, s, step).minted == s.minted && Effect(env, s, step).issued == s.issued
  {
    hide PlanAccess, PlanLogin, PlanEnroll;
  }

  lemma {:induction false} LegalPrefix(env: Env, steps: seq<Step>, k: nat)
    requires Legal(env, steps) && k <= |steps|
    ensures Legal(env, steps[..k])
  {
    if k < |steps| {
      LegalPrefix(env, steps[..|steps| - 1], k);
      assert steps[..|steps| - 1][..k] == steps[..k];
    } else {
      assert steps[..k] == steps;
    }
  }

  lemma ExecStep(env: Env, steps: seq<Step>, k: nat)
    requires k < |steps|
    ensures Exec(env, steps[..k + 1]) == Effect(env, Exec(env, steps[..k]), steps[k])
  {
    assert steps[..k + 1][..k] == steps[..k];
  }

  lemma LegalStep(env: Env, steps: seq<Step>, k: nat)
    requires Legal(env, steps) && k < |steps|
    ensures Clock(steps[..k]) <= Begin(steps[k]) <= End(steps[k]) == Clock(steps[..k + 1])
    ensures Ordered(steps[k]) && Delivered(steps[k]) && UniqueJti(Exec(env, steps[..k]), steps[k])
  {
    LegalPrefix(env, steps, k + 1);
    assert steps[..k + 1][..k] == steps[..k];
  }

  lemma {:induction false} ClockAdvances(env: Env, steps: seq<Step>, i: nat, j: nat)
    requires Legal(env, steps) && i <= j <= |steps|
    ensures Clock(steps[..i]) <= Clock(steps[..j])
    decreases j - i
  {
    if i < j {
      LegalStep(env, steps, i);
      ClockAdvances(env, steps, i + 1, j);
    }
  }

  // ---- The two outcomes of a login ----

  // The request passed every check, and its token was minted.
  predicate LoginSucceeds(env: Env, s: State, r: LoginRequest) {
    && !RateLimiting.Locked(RateLimiting.EntryOf(s.limiter, r.username), r.checkAt)
    && CredentialsOk(env, r) && r.posture.Some?
  }

  lemma LoginOutcome(env: Env, s: State, r: LoginRequest)
    ensures var (t, result) := HandleLogin(env, s, r);
            && (result.LoggedIn? <==> LoginSucceeds(env, s, r))
            && (result.LoggedIn? ==>
                  && result.claims == LoginClaims(env, s, r)
                  && t.minted == s.minted + [result.claims]
                  && t.issued == TokenStore.Recorded(s.issued, r.jti, r.username, result.claims.exp, result.claims.deviceId, r.storeAt)
                  && t.challenges == if r.signature == NoSignature then s.challenges else s.challenges - {LoginDevice(env, r)})
            && (!result.LoggedIn? ==> t.minted == s.minted && t.issued == s.issued && t.challenges == s.challenges)
  {
  }

  // Step i logged someone in with these claims.
  ghost predicate LoginAt(env: Env, steps: seq<Step>, i: int, claims: Claims) {
    && 0 <= i < |steps| && steps[i].LoginStep?
    && HandleLogin(env, Exec(env, steps[..i]), steps[i].login).1 == LoggedIn(claims)
  }

  lemma NewTokensComeFromLogins(env: Env, s: State, step: Step, claims: Claims)
    requires claims in Effect(env, s, step).minted && claims !in s.minted
    ensures step.LoginStep? && HandleLogin(env, s, step.login).1 == LoggedIn(claims)
  {
    if step.LoginStep? {
      LoginOutcome(env, s, step.login);
    } else {
      OnlyLoginsMint(env, s, step);
    }
  }

  // Every minted token comes from a login of the run.
  lemma {:induction false} MintOrigin(env: Env, steps: seq<Step>, claims: Claims) returns (i: nat)
    requires Legal(env, steps) && claims in Exec(env, steps).minted
    ensures LoginAt(env, steps, i, claims)
  {
    var n := |steps| - 1;
    if claims in Exec(env, steps[..n]).minted {
      i := MintOrigin(env, steps[..n], claims);
      assert steps[..n][..i] == steps[..i];
    } else {
      NewTokensComeFromLogins(env, Exec(env, steps[..n]), steps[n], claims);
      i := n;
    }
  }

  // Token ids are never reused.
  lemma {:induction false} JtiIdentifiesToken(env: Env, steps: seq<Step>, a: Claims, b: Claims)
    requires Legal(env, steps) && a in Exec(env, steps).minted && b in Exec(env, steps).minted && a.jti == b.jti
    ensures a == b && a.jti != ""
  {
    var n := |steps| - 1;
    var s := Exec(env, steps[..n]);
    if steps[n].LoginStep? {
      LoginOutcome(env, s, steps[n].login);
    } else {
      OnlyLoginsMint(env, s, steps[n]);
    }
    if a in s.minted && b in s.minted {
      JtiIdentifiesToken(env, steps[..n], a, b);
    }
  }

  lemma MintedStaysMinted(env: Env, s: State, step: Step, c: Claims)
    requires c in s.minted
    ensures c in Effect(env, s, step).minted
  {
    if step.LoginStep? {
      LoginOutcome(env, s, step.login);
    } else {
      OnlyLoginsMint(env, s, step);
    }
  }

  lemma {:induction false} MintedPersists(env: Env, steps: seq<Step>, i: nat, j: nat, c: Claims)
    requires i <= j <= |steps| && c in Exec(env, steps[..i]).minted
    ensures c in Exec(env, steps[..j]).minted
    decreases j
  {
    hide Effect;
    if i < j {
      MintedPersists(env, steps, i, j - 1, c);
      MintedStaysMinted(env, Exec(env, steps[..j - 1]), steps[j - 1], c);
      ExecStep(env, steps, j - 1);
    }
  }

  lemma ExecAppend(env: Env, steps: seq<Step>, step: Step)
    ensures Exec(env, steps + [step]) == Effect(env, Exec(env, steps), step)
    ensures Clock(steps + [step]) == End(step)
    ensures Legal(env, steps + [step]) <==>
            Legal(env, steps) && Clock(steps) <= Begin(step) && Ordered(step) && Delivered(step)
            && UniqueJti(Exec(env, steps), step)
  {
    hide Effect;
    assert (steps + [step])[..|steps|] == steps;
  }
}
