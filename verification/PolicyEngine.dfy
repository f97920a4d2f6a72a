/** The policy decision point (pdp/policy_engine.py). A policy is the JSON object it is in the
    source: thresholds are looked up by name, and a missing or ill-typed one raises. */
module PolicyEngine {
  import opened Options
  import opened Json
  import opened Settings
  import opened Reasons

  datatype PolicyKey =
    | MinRoleLevel | MinDeviceTrust | RequireAttestation | MaxAuthAgeSeconds | RequiredAmr | BusinessHoursOnly
    | OtherKey(name: string)

  type Policy = JObj<PolicyKey>

  type Policies = map<string, Policy>

  datatype Hours = Hours(start: int, end: int)

  const ALL_DAY := Hours(0, 24)

  datatype PolicyFile = Missing | Unreadable | Parsed(resources: Policies, hours: Option<Hours>)

  // The claims a decision reads. `trust` and `authTime` are None when they are not numbers.
  datatype Subject = Subject(role: string, trust: Option<real>, attested: bool, authTime: Option<real>, amr: seq<string>)

  datatype Decision = Allow | Deny(reason: Reason) | Raises

  // ---- Loading: overrides from the policy file on top of the built-in resources ----

  predicate IsComment(key: PolicyKey) { key.OtherKey? && key.name != "" && key.name[0] == '_' }

  function Kept(overrides: Policy): Policy {
    map key | key in overrides && !IsComment(key) :: overrides[key]
  }

  function Overridden(base: Policy, overrides: Policy): Policy {
    base + Kept(overrides)
  }

  function PolicyOf(policies: Policies, name: string): Policy {
    if name in policies then policies[name] else map[]
  }

  function Merged(base: Policies, overlay: Policies): Policies {
    map name | name in base.Keys + overlay.Keys ::
      if name in overlay then Overridden(PolicyOf(base, name), overlay[name]) else base[name]
  }

  function Loaded(base: Policies, file: PolicyFile): (Policies, Hours) {
    match file
    case Missing => (base, ALL_DAY)
    case Unreadable => (base, ALL_DAY)
    case Parsed(resources, hours) => (Merged(base, resources), if hours.Some? then hours.value else ALL_DAY)
  }

  // An override wins, comments never enter, and everything else falls back to the built-in value.
  lemma MergedLookup(base: Policies, overlay: Policies, name: string, key: PolicyKey)
    ensures var merged := Merged(base, overlay);
            && (name in merged <==> name in base || name in overlay)
            && Json.Get(PolicyOf(merged, name), key) ==
                 if !IsComment(key) && name in overlay && key in overlay[name] then Some(overlay[name][key])
                 else Json.Get(PolicyOf(base, name), key)
  {
    var merged := Merged(base, overlay);
    if name in overlay {
      assert merged[name] == Overridden(PolicyOf(base, name), overlay[name]);
    }
  }

  // What a reload leaves in force: field by field the file's value, unless the field's name begins
  // with an underscore, and otherwise the built-in one.
  lemma LoadedLookup(base: Policies, file: PolicyFile, name: string, key: PolicyKey)
    ensures var (policies, hours) := Loaded(base, file);
            if file.Parsed? then
              && (name in policies <==> name in base || name in file.resources)
              && hours == (if file.hours.Some? then file.hours.value else Hours(0, 24))
              && (name in policies ==>
                    Json.Get(policies[name], key) ==
                      if name in file.resources && key in file.resources[name] && !(key.OtherKey? && "_" <= key.name)
                      then Some(file.resources[name][key])
                      else if name in base && key in base[name] then Some(base[name][key]) else None)
            else policies == base && hours == Hours(0, 24)
  {
    if file.Parsed? {
      MergedLookup(base, file.resources, name, key);
    }
  }

  lemma MergeNothing(base: Policies)
    ensures Merged(base, map[]) == base
  {
  }

  lemma MergedAt(base: Policies, overlay: Policies, name: string)
    ensures PolicyOf(Merged(base, overlay), name)
         == if name in overlay then PolicyOf(base, name) + Kept(overlay[name]) else PolicyOf(base, name)
  {
  }

  lemma MergeOneMore(base: Policies, done: Policies, name: string, overrides: Policy)
    requires name !in done
    ensures Merged(base, done[name := overrides])
         == Merged(base, done)[name := PolicyOf(Merged(base, done), name) + Kept(overrides)]
  {
    var merged, more := Merged(base, done), Merged(base, done[name := overrides]);
    assert more.Keys == merged.Keys + {name};
    forall other | other in base.Keys + done.Keys + {name} ensures other == name || more[other] == merged[other] {
      MergedAt(base, done, other);
      MergedAt(base, done[name := overrides], other);
    }
    MergedAt(base, done, name);
    MergedAt(base, done[name := overrides], name);
    hide Kept, Merged;
  }

  // ---- Deciding ----

  function RoleLevel(cfg: Config, role: string): int {
    if role in cfg.roleLevels then cfg.roleLevels[role] else 0
  }

  predicate WithinHours(hours: Hours, hour: int) {
    hours.end >= 24 || hours.start <= hour < hours.end
  }

  // The methods a truthy `required_amr` iterates over; None when it is not iterable.
  function RequiredMethods(v: JVal): Option<seq<string>> {
    match v
    case JList(items) => Some(items)
    case JStr(text) => Some(seq(|text|, i requires 0 <= i < |text| => [text[i]]))
    case _ => None
  }

  predicate Covers(presented: seq<string>, required: seq<string>) {
    forall m | m in required :: m in presented
  }

  function CheckRole(cfg: Config, policy: Policy, s: Subject): Decision {
    if MinRoleLevel !in policy then Raises
    else match Number(policy[MinRoleLevel])
      case None => Raises
      case Some(level) => if RoleLevel(cfg, s.role) as real < level then Deny(InsufficientRole) else Allow
  }

  function CheckTrust(policy: Policy, s: Subject): Decision {
    if MinDeviceTrust !in policy then Raises
    else if s.trust.None? then Deny(InsufficientDeviceTrust)
    else match Number(policy[MinDeviceTrust])
      case None => Raises
      case Some(level) => if s.trust.value < level then Deny(InsufficientDeviceTrust) else Allow
  }

  function CheckAttestation(policy: Policy, s: Subject): Decision {
    if Truthy(policy, RequireAttestation) && !s.attested then Deny(AttestationRequired) else Allow
  }

  function CheckStepUp(cfg: Config, policy: Policy, s: Subject, now: real): Decision {
    if !cfg.stepUpEnabled || !Truthy(policy, MaxAuthAgeSeconds) then Allow
    else if s.authTime.None? then Deny(StepUpRequired)
    else match Number(policy[MaxAuthAgeSeconds])
      case None => Raises
      case Some(limit) => if now - s.authTime.value > limit then Deny(StepUpRequired) else Allow
  }

  function CheckMethods(policy: Policy, s: Subject): Decision {
    if !Truthy(policy, RequiredAmr) then Allow
    else match RequiredMethods(policy[RequiredAmr])
      case None => Raises
      case Some(required) => if Covers(s.amr, required) then Allow else Deny(InsufficientAuthMethod)
  }

  function CheckHours(policy: Policy, hours: Hours, hour: int): Decision {
    if Truthy(policy, BusinessHoursOnly) && !WithinHours(hours, hour) then Deny(OutsideBusinessHours) else Allow
  }

  // The first check that does not pass decides.
  function Then(first: Decision, rest: Decision): Decision {
    if first == Allow then rest else first
  }

  function Evaluate(cfg: Config, policies: Policies, hours: Hours, s: Subject, resource: string, now: real, hour: int): Decision {
    if resource !in policies then Deny(UnknownResource)
    else
      var policy := policies[resource];
      Then(CheckRole(cfg, policy, s),
      Then(CheckTrust(policy, s),
      Then(CheckAttestation(policy, s),
      Then(CheckStepUp(cfg, policy, s, now),
      Then(CheckMethods(policy, s),
           CheckHours(policy, hours, hour))))))
  }

  class PolicyDecisionPoint {
    const cfg: Config
    const builtIn: Policies
    var policies: Policies
    var hours: Hours

    constructor (cfg: Config, builtIn: Policies)
      ensures this.cfg == cfg && this.builtIn == builtIn && policies == builtIn && hours == ALL_DAY
    {
      this.cfg, this.builtIn := cfg, builtIn;
      policies, hours := builtIn, ALL_DAY;
    }

    // The loop over the file's resources: setdefault, then update.
    method Overlay(base: Policies, overlay: Policies) returns (merged: Policies)
      ensures merged == Merged(base, overlay)
    {
      merged := base;
      var names := overlay.Keys;
      ghost var done: Policies := map[];
      MergeNothing(base);
      while names != {}
        invariant names <= overlay.Keys && done.Keys == overlay.Keys - names
        invariant forall name | name in done :: done[name] == overlay[name]
        invariant merged == Merged(base, done)
        decreases names
      {
        var name :| name in names;
        merged := UpdateOne(merged, name, overlay[name]);
        MergeOneMore(base, done, name, overlay[name]);
        names, done := names - {name}, done[name := overlay[name]];
      }
      assert done == overlay;
    }

    // merged.setdefault(name, {}), then merged[name].update(...)
    method UpdateOne(policies: Policies, name: string, overrides: Policy) returns (merged: Policies)
      ensures merged == policies[name := PolicyOf(policies, name) + Kept(overrides)]
    {
      merged := policies;
      if name !in merged {
        merged := merged[name := map[]];
      }
      merged := merged[name := merged[name] + Kept(overrides)];
    }

    method ReloadPolicies(file: PolicyFile)
      modifies this
      ensures (policies, hours) == Loaded(builtIn, file)
    {
      var merged := builtIn;
      var businessHours := ALL_DAY;
      if file.Parsed? {
        merged := Overlay(merged, file.resources);
        if file.hours.Some? {
          businessHours := file.hours.value;
        }
      }
      policies, hours := merged, businessHours;
    }

    method Decide(s: Subject, resource: string, now: real, hour: int) returns (d: Decision)
      ensures d == Evaluate(cfg, policies, hours, s, resource, now, hour)
    {
      if resource !in policies {
        return Deny(UnknownResource);
      }
      var policy := policies[resource];
      if MinRoleLevel !in policy {
        return Raises;
      }
      var minRole := Number(policy[MinRoleLevel]);
      if minRole == None {
        return Raises;
      }
      if RoleLevel(cfg, s.role) as real < minRole.value {
        return Deny(InsufficientRole);
      }
      if MinDeviceTrust !in policy {
        return Raises;
      }
      var minTrust := Number(policy[MinDeviceTrust]);
      if s.trust.Some? && minTrust == None {
        return Raises;
      }
      if s.trust == None || s.trust.value < minTrust.value {
        return Deny(InsufficientDeviceTrust);
      }
      if Truthy(policy, RequireAttestation) && !s.attested {
        return Deny(AttestationRequired);
      }
      if cfg.stepUpEnabled && Truthy(policy, MaxAuthAgeSeconds) {
        if s.authTime == None {
          return Deny(StepUpRequired);
        }
        var age := now - s.authTime.value;
        var maxAge := Number(policy[MaxAuthAgeSeconds]);
        if maxAge == None {
          return Raises;
        }
        if age > maxAge.value {
          return Deny(StepUpRequired);
        }
      }
      if Truthy(policy, RequiredAmr) {
        var required := RequiredMethods(policy[RequiredAmr]);
        if required == None {
          return Raises;
        }
        if !Covers(s.amr, required.value) {
          return Deny(InsufficientAuthMethod);
        }
      }
      if Truthy(policy, BusinessHoursOnly) && !WithinHours(hours, hour) {
        return Deny(OutsideBusinessHours);
      }
      return Allow;
    }
  }

  // ---- What a policy demands, and monotonicity ----

  // None in maxAuthAge means no limit: absent, null or zero.
  datatype Demand = Demand(minRole: real, minTrust: real, attestation: bool, maxAuthAge: Option<real>,
                           methods: seq<string>, hoursOnly: bool)

  // The demand a policy expresses; None when some value in it would raise.
  function DemandOf(cfg: Config, policy: Policy): Option<Demand> {
    if MinRoleLevel !in policy || MinDeviceTrust !in policy then None
    else
      var role, trust := Number(policy[MinRoleLevel]), Number(policy[MinDeviceTrust]);
      var limits := cfg.stepUpEnabled && Truthy(policy, MaxAuthAgeSeconds);
      var age := if limits then Number(policy[MaxAuthAgeSeconds]) else None;
      var methods := if Truthy(policy, RequiredAmr) then RequiredMethods(policy[RequiredAmr]) else Some([]);
      if role == None || trust == None || (limits && age == None) || methods == None then None
      else Some(Demand(role.value, trust.value, Truthy(policy, RequireAttestation), age, methods.value,
                       Truthy(policy, BusinessHoursOnly)))
  }

  ghost predicate Meets(cfg: Config, d: Demand, s: Subject, now: real, open: bool) {
    && RoleLevel(cfg, s.role) as real >= d.minRole
    && s.trust.Some? && s.trust.value >= d.minTrust
    && (d.attestation ==> s.attested)
    && (d.maxAuthAge.Some? ==> s.authTime.Some? && now - s.authTime.value <= d.maxAuthAge.value)
    && (forall m | m in d.methods :: m in s.amr)
    && (d.hoursOnly ==> open)
  }

  // At least as strong in every claim; a claim that is not a number is the weakest.
  ghost predicate AtLeast(cfg: Config, strong: Subject, weak: Subject) {
    && RoleLevel(cfg, strong.role) >= RoleLevel(cfg, weak.role)
    && (weak.trust.Some? ==> strong.trust.Some? && strong.trust.value >= weak.trust.value)
    && (weak.attested ==> strong.attested)
    && (weak.authTime.Some? ==> strong.authTime.Some? && strong.authTime.value >= weak.authTime.value)
    && (forall m | m in weak.amr :: m in strong.amr)
  }

  // At least as demanding in every dimension; no age limit is the weakest setting.
  ghost predicate Tighter(tight: Demand, loose: Demand) {
    && tight.minRole >= loose.minRole
    && tight.minTrust >= loose.minTrust
    && (loose.attestation ==> tight.attestation)
    && (loose.maxAuthAge.Some? ==> tight.maxAuthAge.Some? && tight.maxAuthAge.value <= loose.maxAuthAge.value)
    && (forall m | m in loose.methods :: m in tight.methods)
    && (loose.hoursOnly ==> tight.hoursOnly)
  }

  // A well-formed policy never raises, and it allows exactly the subjects that meet its demand.
  lemma AllowsExactlyWhatItDemands(cfg: Config, policies: Policies, hours: Hours, s: Subject, resource: string, now: real, hour: int)
    requires resource in policies && DemandOf(cfg, policies[resource]).Some?
    ensures Evaluate(cfg, policies, hours, s, resource, now, hour) != Raises
    ensures Evaluate(cfg, policies, hours, s, resource, now, hour) == Allow
            <==> Meets(cfg, DemandOf(cfg, policies[resource]).value, s, now, WithinHours(hours, hour))
  {
    var policy, d := policies[resource], DemandOf(cfg, policies[resource]).value;
    assert CheckRole(cfg, policy, s) == Allow <==> RoleLevel(cfg, s.role) as real >= d.minRole;
    assert CheckMethods(policy, s) == Allow <==> Covers(s.amr, d.methods);
  }

  // Stronger claims, presented no later, keep an allow; a looser policy keeps it too.
  lemma EvaluateIsMonotone(cfg: Config, tight: Policies, loose: Policies, hours: Hours, weak: Subject, strong: Subject,
                           resource: string, now: real, hour: int)
    requires resource in tight && resource in loose
    requires DemandOf(cfg, tight[resource]).Some? && DemandOf(cfg, loose[resource]).Some?
    requires Tighter(DemandOf(cfg, tight[resource]).value, DemandOf(cfg, loose[resource]).value)
    requires AtLeast(cfg, strong, weak)
    requires Evaluate(cfg, tight, hours, weak, resource, now, hour) == Allow
    ensures Evaluate(cfg, loose, hours, strong, resource, now, hour) == Allow
  {
    AllowsExactlyWhatItDemands(cfg, tight, hours, weak, resource, now, hour);
    AllowsExactlyWhatItDemands(cfg, loose, hours, strong, resource, now, hour);
  }

  // ---- What a decision means, value by value ----

  // Present, and none of JSON's empty values.
  ghost predicate Demands(policy: Policy, key: PolicyKey) {
    key in policy && policy[key] !in {JNull, JBool(false), JNum(0.0), JStr(""), JList([])}
  }

  // A number as Python compares it: its bools are 0 and 1.
  ghost predicate IsNumber(v: JVal, x: real) {
    v == JNum(x) || (v == JBool(true) && x == 1.0) || (v == JBool(false) && x == 0.0)
  }

  // A method the value asks for: an element of a list, or a character of a string.
  ghost predicate AsksFor(v: JVal, m: string) {
    match v
    case JList(items) => m in items
    case JStr(text) => |m| == 1 && m[0] in text
    case _ => false
  }

  // The values the source's thresholds and lists can be: numbers, and something to iterate over.
  ghost predicate Usable(policy: Policy, minRole: real, minTrust: real, limit: real) {
    && MinRoleLevel in policy && IsNumber(policy[MinRoleLevel], minRole)
    && MinDeviceTrust in policy && IsNumber(policy[MinDeviceTrust], minTrust)
    && (Demands(policy, MaxAuthAgeSeconds) ==> IsNumber(policy[MaxAuthAgeSeconds], limit))
    && (Demands(policy, RequiredAmr) ==> policy[RequiredAmr].JList? || policy[RequiredAmr].JStr?)
  }

  ghost predicate RoleIsHighEnough(cfg: Config, s: Subject, minRole: real) {
    (if s.role in cfg.roleLevels then cfg.roleLevels[s.role] else 0) as real >= minRole
  }

  ghost predicate AuthenticationIsStale(s: Subject, now: real, limit: real) {
    s.authTime.None? || now - s.authTime.value > limit
  }

  lemma TruthyIfDemanded(policy: Policy, key: PolicyKey)
    ensures Truthy(policy, key) <==> Demands(policy, key)
  {
  }

  lemma MethodsAskedFor(v: JVal, presented: seq<string>)
    requires v.JList? || v.JStr?
    ensures RequiredMethods(v).Some?
    ensures Covers(presented, RequiredMethods(v).value) <==> forall m :: AsksFor(v, m) ==> m in presented
  {
    var required := RequiredMethods(v).value;
    forall m ensures m in required <==> AsksFor(v, m) {
      if v.JStr? {
        if AsksFor(v, m) {
          var i :| 0 <= i < |v.text| && v.text[i] == m[0];
          assert required[i] == m;
        }
      }
    }
  }

  // The subject meets every value of the policy.
  ghost predicate MeetsValues(cfg: Config, policy: Policy, hours: Hours, s: Subject, now: real, hour: int,
                              minRole: real, minTrust: real, limit: real)
    requires Usable(policy, minRole, minTrust, limit)
  {
    && RoleIsHighEnough(cfg, s, minRole)
    && s.trust.Some? && s.trust.value >= minTrust
    && (Demands(policy, RequireAttestation) ==> s.attested)
    && (cfg.stepUpEnabled && Demands(policy, MaxAuthAgeSeconds) ==> !AuthenticationIsStale(s, now, limit))
    && (Demands(policy, RequiredAmr) ==> forall m :: AsksFor(policy[RequiredAmr], m) ==> m in s.amr)
    && (Demands(policy, BusinessHoursOnly) ==> hours.end >= 24 || hours.start <= hour < hours.end)
  }

  // With usable values an allow means that each of them is met, and conversely.
  lemma AllowsByTheValues(cfg: Config, policies: Policies, hours: Hours, s: Subject, resource: string, now: real, hour: int,
                          minRole: real, minTrust: real, limit: real)
    requires resource in policies && Usable(policies[resource], minRole, minTrust, limit)
    ensures Evaluate(cfg, policies, hours, s, resource, now, hour) == Allow
            <==> MeetsValues(cfg, policies[resource], hours, s, now, hour, minRole, minTrust, limit)
  {
    var policy := policies[resource];
    forall key ensures Truthy(policy, key) <==> Demands(policy, key) {
      TruthyIfDemanded(policy, key);
    }
    if Demands(policy, RequiredAmr) {
      MethodsAskedFor(policy[RequiredAmr], s.amr);
    }
    hide Demands, Truthy, AsksFor, RequiredMethods, Covers;
  }

  // A denial names a dimension that fails, and none of those before it does.
  lemma DenialsNameTheFirstFailure(cfg: Config, policies: Policies, hours: Hours, s: Subject, resource: string, now: real, hour: int,
                                   minRole: real, minTrust: real, limit: real)
    requires resource in policies ==> Usable(policies[resource], minRole, minTrust, limit)
    ensures var decision := Evaluate(cfg, policies, hours, s, resource, now, hour);
            var policy := if resource in policies then policies[resource] else map[];
            && (decision == Deny(UnknownResource) <==> resource !in policies)
            && (decision == Deny(InsufficientRole) <==> resource in policies && !RoleIsHighEnough(cfg, s, minRole))
            && (decision == Deny(InsufficientDeviceTrust) ==>
                  RoleIsHighEnough(cfg, s, minRole) && (s.trust.None? || s.trust.value < minTrust))
            && (decision == Deny(AttestationRequired) ==>
                  s.trust.Some? && s.trust.value >= minTrust && Demands(policy, RequireAttestation) && !s.attested)
            && (decision == Deny(StepUpRequired) ==>
                  && (Demands(policy, RequireAttestation) ==> s.attested)
                  && cfg.stepUpEnabled && Demands(policy, MaxAuthAgeSeconds) && AuthenticationIsStale(s, now, limit))
            && (decision == Deny(InsufficientAuthMethod) ==>
                  && (cfg.stepUpEnabled && Demands(policy, MaxAuthAgeSeconds) ==> !AuthenticationIsStale(s, now, limit))
                  && Demands(policy, RequiredAmr) && exists m :: AsksFor(policy[RequiredAmr], m) && m !in s.amr)
            && (decision == Deny(OutsideBusinessHours) ==>
                  && (Demands(policy, RequiredAmr) ==> forall m :: AsksFor(policy[RequiredAmr], m) ==> m in s.amr)
                  && Demands(policy, BusinessHoursOnly) && hours.end < 24 && !(hours.start <= hour < hours.end))
            && (decision in {Allow, Deny(UnknownResource), Deny(InsufficientRole), Deny(InsufficientDeviceTrust),
                             Deny(AttestationRequired), Deny(StepUpRequired), Deny(InsufficientAuthMethod),
                             Deny(OutsideBusinessHours)})
  {
    if resource in policies {
      var policy := policies[resource];
      forall key ensures Truthy(policy, key) <==> Demands(policy, key) {
        TruthyIfDemanded(policy, key);
      }
      if Demands(policy, RequiredAmr) {
        MethodsAskedFor(policy[RequiredAmr], s.amr);
      }
      hide Demands, Truthy, AsksFor, RequiredMethods, Covers;
    }
  }

  // Step-up is asked of exactly the subjects that pass the dimensions before it with an
  // authentication older than the limit.
  lemma StepsUpByTheValues(cfg: Config, policies: Policies, hours: Hours, s: Subject, resource: string, now: real, hour: int,
                           minRole: real, minTrust: real, limit: real)
    requires resource in policies && Usable(policies[resource], minRole, minTrust, limit)
    ensures var policy := policies[resource];
            Evaluate(cfg, policies, hours, s, resource, now, hour) == Deny(StepUpRequired) <==>
              && RoleIsHighEnough(cfg, s, minRole) && s.trust.Some? && s.trust.value >= minTrust
              && (Demands(policy, RequireAttestation) ==> s.attested)
              && cfg.stepUpEnabled && Demands(policy, MaxAuthAgeSeconds) && AuthenticationIsStale(s, now, limit)
  {
    TruthyIfDemanded(policies[resource], RequireAttestation);
    TruthyIfDemanded(policies[resource], MaxAuthAgeSeconds);
    hide Demands, Truthy, RequiredMethods, Covers;
  }

  // With an unusable value the decision is still never an allow by accident: it raises unless an
  // earlier dimension has already refused.
  lemma UnusableValuesNeverAllow(cfg: Config, policies: Policies, hours: Hours, s: Subject, resource: string, now: real, hour: int)
    requires resource in policies
    ensures var policy, decision := policies[resource], Evaluate(cfg, policies, hours, s, resource, now, hour);
            && (MinRoleLevel !in policy || !(policy[MinRoleLevel].JNum? || policy[MinRoleLevel].JBool?) ==> decision == Raises)
            && (MinDeviceTrust !in policy ==> decision in {Raises, Deny(InsufficientRole)})
            && (MinDeviceTrust in policy && !(policy[MinDeviceTrust].JNum? || policy[MinDeviceTrust].JBool?) ==>
                  decision in {Raises, Deny(InsufficientRole), Deny(InsufficientDeviceTrust)})
            && (decision == Allow && cfg.stepUpEnabled && Demands(policy, MaxAuthAgeSeconds) ==>
                  policy[MaxAuthAgeSeconds].JNum? || policy[MaxAuthAgeSeconds].JBool?)
            && (decision == Allow && Demands(policy, RequiredAmr) ==> policy[RequiredAmr].JList? || policy[RequiredAmr].JStr?)
  {
    TruthyIfDemanded(policies[resource], MaxAuthAgeSeconds);
    TruthyIfDemanded(policies[resource], RequiredAmr);
    hide Truthy, Demands, Covers;
  }

  // Even when its policy is malformed elsewhere, a resource that asks for attestation is never
  // allowed to an unattested subject.
  lemma AttestationIsEnforced(cfg: Config, policies: Policies, hours: Hours, s: Subject, resource: string, now: real, hour: int)
    requires Evaluate(cfg, policies, hours, s, resource, now, hour) == Allow
    ensures resource in policies
    ensures Demands(policies[resource], RequireAttestation) ==> s.attested
    ensures Json.Get(policies[resource], RequireAttestation) == Some(JBool(true)) ==> s.attested
  {
    TruthyIfDemanded(policies[resource], RequireAttestation);
  }

  // A token minted at `minted` verifies at `checked`; the policy clock is read at `read`, and
  // step-up is demanded.
  ghost predicate StepUpAfterCheck(cfg: Config, policy: Policy, s: Subject, minted: real, checked: real, read: real) {
    && minted <= checked < (minted.Floor + cfg.tokenTtl) as real && checked <= read
    && CheckStepUp(cfg, policy, s, read) == Deny(StepUpRequired)
  }

  // If the policy clock is read at most `delay` seconds after the token was checked, step-up can
  // fire on a token that verified exactly when the policy's limit is below the token lifetime plus
  // that delay.
  lemma StepUpFiresIffLimitIsShorter(cfg: Config, policy: Policy, s: Subject, minted: real, limit: real, delay: real)
    requires cfg.stepUpEnabled && cfg.tokenTtl >= 1 && s.authTime == Some(minted.Floor as real) && delay >= 0.0
    requires Truthy(policy, MaxAuthAgeSeconds) && Number(policy[MaxAuthAgeSeconds]) == Some(limit)
    ensures (exists checked, read :: read <= checked + delay && StepUpAfterCheck(cfg, policy, s, minted, checked, read))
            <==> limit < cfg.tokenTtl as real + delay
  {
    var issued, exp := minted.Floor as real, (minted.Floor + cfg.tokenTtl) as real;
    if limit < cfg.tokenTtl as real + delay {
      var stale := if issued + limit <= minted then minted else issued + limit;
      assert minted <= stale < exp + delay;
      var read := (stale + exp + delay) / 2.0;
      var checked := if read - delay <= minted then minted else read - delay;
      assert StepUpAfterCheck(cfg, policy, s, minted, checked, read);
    }
  }
}
