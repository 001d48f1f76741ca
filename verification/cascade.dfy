// pkg/governor/cascade.go: admission, cascades and shedding over the limiter's
// buckets. Every bucket call reads the clock: reading 0 is taken for the
// primary target and reading i + 1 for cascade step i.
module Cascade {
  import opened Prelude
  import opened Text
  import opened Settings
  import opened Quotas
  import opened TokenBuckets
  import opened Limiters

  datatype Priority = Unspecified | Critical | BestEffort | Custom

  datatype Request = Request(project: string, region: string, model: string, priority: Priority, policy: string, tokens: int)

  // Codes for the reason strings.
  datatype Reason =
    | UnknownTarget
    | CriticalWithin
    | CriticalOverAllowance
    | Healthy
    | NoPolicy
    | Rerouted
    | CascadeExhausted
    | BestEffortShed
    | BestEffortAdmitted

  datatype Decision = Decision(drop: bool, replaceModel: string, replaceRegion: string, reason: Reason)

  function Forward(reason: Reason): Decision {
    Decision(false, "", "", reason)
  }

  function Shed(reason: Reason): Decision {
    Decision(true, "", "", reason)
  }

  // What an engine is configured with.
  datatype Rules = Rules(policies: map<string, seq<CascadeStep>>, ceiling: real, reservePercent: int)

  // One admission attempt on a bucket.
  datatype Attempt = Attempt(key: string, event: Event, tokens: int)

  datatype Outcome = Outcome(decision: Decision, state: Local, attempts: seq<Attempt>)

  predicate AboveCeiling(rules: Rules, q: Quota) {
    q.utilizationRpm >= rules.ceiling || q.utilizationTpm >= rules.ceiling
  }

  // The snapshot's verdict: room unless it says the target is full.
  predicate SnapshotRoom(rules: Rules, snap: Option<Snapshot>, project: string, region: string, model: string) {
    var q := EffectiveQuota(snap, project, region, model);
    q.Some? ==> !IsSaturated(q) && !AboveCeiling(rules, q.value)
  }

  predicate Knows(st: Local, snap: Option<Snapshot>, project: string, region: string, model: string) {
    EffectiveQuota(snap, project, region, model).Some? || Key(region, model) in st.buckets
  }

  predicate WellFormed(st: Local) {
    st.buckets.Keys == st.demand.Keys
  }

  function Above(rules: Rules, tokens: int, now: int): Event {
    Event(now, TryAcquireAbove(tokens, rules.reservePercent))
  }

  // tryTarget: whether the target has room; if so the request is reserved.
  function TryOn(rules: Rules, st: Local, snap: Option<Snapshot>, project: string, region: string, model: string, tokens: int, now: int): (r: (bool, Local, seq<Attempt>))
    requires WellFormed(st)
    ensures WellFormed(r.1) && r.1.buckets.Keys == st.buckets.Keys
  {
    if !SnapshotRoom(rules, snap, project, region, model) then (false, st, [])
    else if Key(region, model) !in st.buckets then (true, st, [])
    else
      var e := Above(rules, tokens, now);
      var (st', ok) := Attempted(st, Key(region, model), e, tokens);
      (ok, st', [Attempt(Key(region, model), e, tokens)])
  }

  // The cascade loop from step i on, after the attempts in done.
  function CascadeOn(rules: Rules, st: Local, snap: Option<Snapshot>, r: Request, steps: seq<CascadeStep>, i: nat, clock: nat -> int, done: seq<Attempt>): (o: Outcome)
    requires WellFormed(st) && i <= |steps|
    ensures WellFormed(o.state) && o.state.buckets.Keys == st.buckets.Keys
    decreases |steps| - i
  {
    if i == |steps| then Outcome(Shed(CascadeExhausted), st, done)
    else
      var (region, model) := (steps[i].targetRegion, steps[i].targetModel);
      if !Knows(st, snap, r.project, region, model) then CascadeOn(rules, st, snap, r, steps, i + 1, clock, done)
      else
        var (ok, st', tried) := TryOn(rules, st, snap, r.project, region, model, r.tokens, clock(i + 1));
        if ok then Outcome(Decision(false, model, region, Rerouted), st', done + tried)
        else CascadeOn(rules, st', snap, r, steps, i + 1, clock, done + tried)
  }

  function StepsFor(rules: Rules, policy: string): seq<CascadeStep> {
    var name := Lower(Trim(policy));
    if name in rules.policies then rules.policies[name] else []
  }

  function DecideOn(rules: Rules, st: Local, snap: Option<Snapshot>, r: Request, clock: nat -> int): (o: Outcome)
    requires WellFormed(st)
    ensures WellFormed(o.state) && o.state.buckets.Keys == st.buckets.Keys
  {
    if !Knows(st, snap, r.project, r.region, r.model) then Outcome(Forward(UnknownTarget), st, [])
    else if r.priority.Critical? then
      var saturated := IsSaturated(EffectiveQuota(snap, r.project, r.region, r.model));
      var k := Key(r.region, r.model);
      if k !in st.buckets then
        Outcome(Forward(if saturated then CriticalOverAllowance else CriticalWithin), st, [])
      else
        var e := Event(clock(0), ForceAcquire(r.tokens));
        var (st', within) := Attempted(st, k, e, r.tokens);
        Outcome(Forward(if !within || saturated then CriticalOverAllowance else CriticalWithin), st', [Attempt(k, e, r.tokens)])
    else
      var (ok, st', tried) := TryOn(rules, st, snap, r.project, r.region, r.model, r.tokens, clock(0));
      if r.priority.Custom? then
        if ok then Outcome(Forward(Healthy), st', tried)
        else if StepsFor(rules, r.policy) == [] then Outcome(Shed(NoPolicy), st', tried)
        else CascadeOn(rules, st', snap, r, StepsFor(rules, r.policy), 0, clock, tried)
      else
        Outcome(if ok then Forward(BestEffortAdmitted) else Shed(BestEffortShed), st', tried)
  }

  // ---------- Building the policy table ----------

  datatype PolicyError = EmptyName | NoSteps | EmptyTargetModel | EmptyTargetRegion

  datatype PolicyResult = Policies(table: map<string, seq<CascadeStep>>) | Rejected(error: PolicyError)

  function Trimmed(steps: seq<CascadeStep>): (r: seq<CascadeStep>)
    ensures |r| == |steps|
  {
    seq(|steps|, i requires 0 <= i < |steps| => CascadeStep(Trim(steps[i].targetModel), Trim(steps[i].targetRegion)))
  }

  predicate GoodPolicy(name: string, steps: seq<CascadeStep>) {
    && Lower(Trim(name)) != "" && steps != []
    && forall s | s in steps :: Trim(s.targetModel) != "" && Trim(s.targetRegion) != ""
  }

  // Every entry of the table is some configured policy under its normalised name.
  ghost predicate Normalised(table: map<string, seq<CascadeStep>>, configured: map<string, seq<CascadeStep>>) {
    forall k | k in table ::
      exists name :: name in configured && Lower(Trim(name)) == k && table[k] == Trimmed(configured[name])
  }

  // The table is built exactly when every policy is usable. Names that collide
  // after normalisation keep one of the colliding policies, in no fixed order.
  method NewCascadePolicies(configured: map<string, seq<CascadeStep>>) returns (r: PolicyResult)
    ensures r.Policies? <==> forall name | name in configured :: GoodPolicy(name, configured[name])
    ensures r.Policies? ==> Normalised(r.table, configured)
    ensures r.Policies? ==> forall name | name in configured :: Lower(Trim(name)) in r.table
  {
    var table: map<string, seq<CascadeStep>> := map[];
    var rest := configured.Keys;
    while rest != {}
      invariant rest <= configured.Keys
      invariant forall name | name in configured && name !in rest ::
        GoodPolicy(name, configured[name]) && Lower(Trim(name)) in table
      invariant Normalised(table, configured)
      decreases rest
    {
      var name :| name in rest;
      rest := rest - {name};
      var steps := configured[name];
      var norm := Lower(Trim(name));
      if norm == "" {
        return Rejected(EmptyName);
      }
      if |steps| == 0 {
        return Rejected(NoSteps);
      }
      var cascade: seq<CascadeStep> := [];
      for i := 0 to |steps|
        invariant cascade == Trimmed(steps)[..i]
        invariant forall j | 0 <= j < i :: Trim(steps[j].targetModel) != "" && Trim(steps[j].targetRegion) != ""
      {
        assert steps[i] in steps;
        var model := Trim(steps[i].targetModel);
        if model == "" {
          return Rejected(EmptyTargetModel);
        }
        var region := Trim(steps[i].targetRegion);
        if region == "" {
          return Rejected(EmptyTargetRegion);
        }
        cascade := cascade + [CascadeStep(model, region)];
      }
      assert cascade == Trimmed(steps);
      table := table[norm := cascade];
    }
    return Policies(table);
  }

  class CascadeEngine {
    const customPolicies: map<string, seq<CascadeStep>>
    const bestEffortCeiling: real
    const limiter: Limiter

    constructor (policies: map<string, seq<CascadeStep>>, cfg: Config, limiter: Limiter)
      ensures this.limiter == limiter && customPolicies == policies
      ensures bestEffortCeiling == (100 - cfg.ReservePercent()) as real / 100.0
    {
      this.customPolicies := policies;
      this.bestEffortCeiling := (100 - cfg.ReservePercent()) as real / 100.0;
      this.limiter := limiter;
    }

    function TheRules(): Rules {
      Rules(customPolicies, bestEffortCeiling, limiter.reservePercent)
    }

    method TryTarget(snap: Option<Snapshot>, project: string, region: string, model: string, tokens: int, now: int) returns (ok: bool)
      requires limiter.Valid()
      modifies limiter.buckets.Values, limiter.demand.Values
      ensures (ok, limiter.State()) == (var t := TryOn(TheRules(), old(limiter.State()), snap, project, region, model, tokens, now); (t.0, t.1))
    {
      var q := EffectiveQuota(snap, project, region, model);
      if q.Some? && (IsSaturated(q) || AboveCeiling(TheRules(), q.value)) {
        return false;
      }
      var admitted, known := limiter.TryAdmit(region, model, tokens, now);
      return !(known && !admitted);
    }

    method Decide(snap: Option<Snapshot>, r: Request, clock: nat -> int) returns (d: Decision)
      requires limiter.Valid()
      modifies limiter.buckets.Values, limiter.demand.Values
      ensures d == DecideOn(TheRules(), old(limiter.State()), snap, r, clock).decision
      ensures limiter.State() == DecideOn(TheRules(), old(limiter.State()), snap, r, clock).state
    {
      var primaryQuota := EffectiveQuota(snap, r.project, r.region, r.model);
      if primaryQuota.None? && !limiter.Known(r.region, r.model) {
        return Forward(UnknownTarget);
      }
      if r.priority.Critical? {
        var within, _ := limiter.AdmitCritical(r.region, r.model, r.tokens, clock(0));
        return Forward(if !within || IsSaturated(primaryQuota) then CriticalOverAllowance else CriticalWithin);
      }
      if r.priority.Custom? {
        d := DecideCustom(snap, r, clock);
        return;
      }
      var ok := TryTarget(snap, r.project, r.region, r.model, r.tokens, clock(0));
      return if ok then Forward(BestEffortAdmitted) else Shed(BestEffortShed);
    }

    // The branch of Decide for custom traffic.
    method DecideCustom(snap: Option<Snapshot>, r: Request, clock: nat -> int) returns (d: Decision)
      requires limiter.Valid() && r.priority.Custom? && Knows(limiter.State(), snap, r.project, r.region, r.model)
      modifies limiter.buckets.Values, limiter.demand.Values
      ensures d == DecideOn(TheRules(), old(limiter.State()), snap, r, clock).decision
      ensures limiter.State() == DecideOn(TheRules(), old(limiter.State()), snap, r, clock).state
    {
      ghost var done := TryOn(TheRules(), limiter.State(), snap, r.project, r.region, r.model, r.tokens, clock(0)).2;
      var ok := TryTarget(snap, r.project, r.region, r.model, r.tokens, clock(0));
      if ok {
        return Forward(Healthy);
      }
      var name := Lower(Trim(r.policy));
      if name !in customPolicies || |customPolicies[name]| == 0 {
        return Shed(NoPolicy);
      }
      d := Traverse(snap, r, customPolicies[name], clock, done);
    }

    // The loop over the cascade steps, after the attempts in done.
    method Traverse(snap: Option<Snapshot>, r: Request, steps: seq<CascadeStep>, clock: nat -> int, ghost done: seq<Attempt>)
      returns (d: Decision)
      requires limiter.Valid()
      modifies limiter.buckets.Values, limiter.demand.Values
      ensures d == CascadeOn(TheRules(), old(limiter.State()), snap, r, steps, 0, clock, done).decision
      ensures limiter.State() == CascadeOn(TheRules(), old(limiter.State()), snap, r, steps, 0, clock, done).state
    {
      ghost var expected := CascadeOn(TheRules(), limiter.State(), snap, r, steps, 0, clock, done);
      ghost var tried := done;
      for i := 0 to |steps|
        invariant CascadeOn(TheRules(), limiter.State(), snap, r, steps, i, clock, tried) == expected
      {
        var cs := steps[i];
        if EffectiveQuota(snap, r.project, cs.targetRegion, cs.targetModel).None? && !limiter.Known(cs.targetRegion, cs.targetModel) {
          continue;
        }
        tried := tried + TryOn(TheRules(), limiter.State(), snap, r.project, cs.targetRegion, cs.targetModel, r.tokens, clock(i + 1)).2;
        var ok := TryTarget(snap, r.project, cs.targetRegion, cs.targetModel, r.tokens, clock(i + 1));
        if ok {
          return Decision(false, cs.targetModel, cs.targetRegion, Rerouted);
        }
      }
      return Shed(CascadeExhausted);
    }
  }
}
