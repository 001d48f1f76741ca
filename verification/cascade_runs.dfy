// What the cascade engine guarantees: which target Decide picks and who is
// charged for it, and the bucket guarantees lifted to runs of the engine.
module CascadeRuns {
  import opened Prelude
  import opened Text
  import opened Settings
  import opened Quotas
  import opened TokenBuckets
  import BR = BucketRuns
  import opened Limiters
  import opened Cascade

  // ---------- The choice and the charge of one decision ----------

  // Refilled up to t, two bucket states are the same: by SameApplies no call
  // from then on can tell them apart.
  predicate SameFrom(b: Bucket, b': Bucket, t: int) {
    RefillBoth(b', t) == RefillBoth(b, t)
  }

  // No bucket but that of key `but` has been charged anything.
  ghost predicate OthersUncharged(st: Local, st': Local, but: Option<string>, t: int) {
    && st'.buckets.Keys == st.buckets.Keys
    && forall k | k in st.buckets && but != Some(k) :: SameFrom(st.buckets[k], st'.buckets[k], t)
  }

  // A reference reading of admission, on the state before the decision: the
  // snapshot leaves room and the bucket, if there is one, would accept.
  predicate Available(rules: Rules, st: Local, snap: Option<Snapshot>, project: string, region: string, model: string, tokens: int, now: int) {
    && SnapshotRoom(rules, snap, project, region, model)
    && (Key(region, model) in st.buckets ==> Apply(st.buckets[Key(region, model)], Above(rules, tokens, now)).1)
  }

  predicate StepAvailable(rules: Rules, st: Local, snap: Option<Snapshot>, r: Request, step: CascadeStep, now: int) {
    && Knows(st, snap, r.project, step.targetRegion, step.targetModel)
    && Available(rules, st, snap, r.project, step.targetRegion, step.targetModel, r.tokens, now)
  }

  ghost predicate Nondecreasing(clock: nat -> int) {
    forall i: nat, j: nat | i <= j :: clock(i) <= clock(j)
  }

  // The charge an admission leaves on the chosen target, if it has a bucket.
  ghost predicate ChargedOnly(rules: Rules, st: Local, st': Local, region: string, model: string, tokens: int, now: int) {
    var k := Key(region, model);
    && OthersUncharged(st, st', Some(k), now)
    && (k in st.buckets ==> st'.buckets[k] == Apply(st.buckets[k], Above(rules, tokens, now)).0
                            && Apply(st.buckets[k], Above(rules, tokens, now)).1)
  }

  lemma {:induction false} RefillBothCompose(b: Bucket, t: int, now: int)
    requires t <= now
    ensures RefillBoth(RefillBoth(b, t), now) == RefillBoth(b, now)
  {
    BR.RefillCompose(b.rpm, t, now);
    BR.RefillCompose(b.tpm, t, now);
  }

  lemma {:induction false} RefusedIsSame(b: Bucket, e: Event)
    requires e.op.TryAcquireAbove? && !Apply(b, e).1
    ensures SameFrom(b, Apply(b, e).0, e.at)
  {
    RefillBothCompose(b, e.at, e.at);
  }

  lemma {:induction false} SameApplies(b: Bucket, b': Bucket, t: int, e: Event)
    requires SameFrom(b, b', t) && t <= e.at
    ensures Apply(b', e) == Apply(b, e) && SameFrom(b, b', e.at)
  {
    RefillBothCompose(b, t, e.at);
    RefillBothCompose(b', t, e.at);
  }

  lemma {:induction false} UnchargedTrans(a: Local, b: Local, c: Local, but: Option<string>, t: int, t': int)
    requires OthersUncharged(a, b, None, t) && OthersUncharged(b, c, but, t') && t <= t'
    ensures OthersUncharged(a, c, but, t')
  {
    forall k | k in a.buckets && but != Some(k) ensures SameFrom(a.buckets[k], c.buckets[k], t') {
      SameApplies(a.buckets[k], b.buckets[k], t, Event(t', GetAvailable));
    }
  }

  // One target tried after uncharged attempts behaves as on the first state.
  lemma {:induction false} TryChoice(rules: Rules, st0: Local, st: Local, snap: Option<Snapshot>, project: string, region: string, model: string, tokens: int, t: int, now: int)
    requires WellFormed(st0) && WellFormed(st) && OthersUncharged(st0, st, None, t) && t <= now
    ensures
      var (ok, st', _) := TryOn(rules, st, snap, project, region, model, tokens, now);
      && ok == Available(rules, st0, snap, project, region, model, tokens, now)
      && (!ok ==> OthersUncharged(st0, st', None, now))
      && (ok ==> ChargedOnly(rules, st0, st', region, model, tokens, now))
  {
    hide SnapshotRoom, Counted, SameFrom, Apply, Key, OthersUncharged;
    var k, e := Key(region, model), Above(rules, tokens, now);
    if !SnapshotRoom(rules, snap, project, region, model) || k !in st.buckets {
      Untouched(st, st, None, now);
      UnchargedTrans(st0, st, st, None, t, now);
      if SnapshotRoom(rules, snap, project, region, model) {
        AllButOne(st0, st, k, now);
        KeysKept(st0, st, None, t);
      }
    } else {
      KeysKept(st0, st, None, t);
      SameApplies(st0.buckets[k], st.buckets[k], t, e);
      AttemptChoice(st0, st, k, e, tokens, t);
    }
  }

  lemma {:induction false} KeysKept(st: Local, st': Local, but: Option<string>, t: int)
    requires OthersUncharged(st, st', but, t)
    ensures st'.buckets.Keys == st.buckets.Keys
    ensures forall k | k in st.buckets && but != Some(k) :: SameFrom(st.buckets[k], st'.buckets[k], t)
  {
  }

  lemma {:induction false} Untouched(st: Local, st': Local, but: Option<string>, t: int)
    requires st'.buckets.Keys == st.buckets.Keys
    requires forall k | k in st.buckets && but != Some(k) :: st'.buckets[k] == st.buckets[k]
    ensures OthersUncharged(st, st', but, t)
  {
  }

  lemma {:induction false} AllButOne(st: Local, st': Local, k: string, t: int)
    requires OthersUncharged(st, st', None, t)
    ensures OthersUncharged(st, st', Some(k), t)
  {
  }

  // An attempt after uncharged ones charges its bucket alone, or nothing.
  lemma {:induction false} AttemptChoice(st0: Local, st: Local, k: string, e: Event, tokens: int, t: int)
    requires WellFormed(st) && k in st.buckets && OthersUncharged(st0, st, None, t) && t <= e.at && e.op.TryAcquireAbove?
    ensures
      var (st', ok) := Attempted(st, k, e, tokens);
      && OthersUncharged(st0, st', if ok then Some(k) else None, e.at)
      && st'.buckets[k] == Apply(st.buckets[k], e).0 && ok == Apply(st.buckets[k], e).1
  {
    var (st', ok) := Attempted(st, k, e, tokens);
    if ok {
      Untouched(st, st', Some(k), e.at);
    } else {
      RefusedIsSame(st.buckets[k], e);
      hide Apply, Counted;
      Untouched(st, st, None, e.at);
      KeysKept(st, st, None, e.at);
      assert OthersUncharged(st, st', None, e.at);
    }
    UnchargedTrans(st0, st, st', if ok then Some(k) else None, t, e.at);
    hide *;
  }

  // Index of the step a cascade takes: the first one available on the state
  // before the decision; |steps| if there is none.
  function FirstAvailable(rules: Rules, st: Local, snap: Option<Snapshot>, r: Request, steps: seq<CascadeStep>, i: nat, clock: nat -> int): (c: nat)
    requires i <= |steps|
    ensures i <= c <= |steps|
    ensures forall j | i <= j < c :: !StepAvailable(rules, st, snap, r, steps[j], clock(j + 1))
    ensures c < |steps| ==> StepAvailable(rules, st, snap, r, steps[c], clock(c + 1))
    decreases |steps| - i
  {
    if i == |steps| || StepAvailable(rules, st, snap, r, steps[i], clock(i + 1)) then i
    else FirstAvailable(rules, st, snap, r, steps, i + 1, clock)
  }

  // What a decision must be when a cascade starts from a full primary target.
  ghost predicate CascadeResult(rules: Rules, st: Local, r: Request, steps: seq<CascadeStep>, c: nat, clock: nat -> int, o: Outcome)
    requires c <= |steps|
  {
    if c == |steps| then
      o.decision == Shed(CascadeExhausted) && OthersUncharged(st, o.state, None, clock(|steps|))
    else
      && o.decision == Decision(false, steps[c].targetModel, steps[c].targetRegion, Rerouted)
      && ChargedOnly(rules, st, o.state, steps[c].targetRegion, steps[c].targetModel, r.tokens, clock(c + 1))
  }

  lemma {:induction false} CascadeChoice(rules: Rules, st0: Local, st: Local, snap: Option<Snapshot>, r: Request, steps: seq<CascadeStep>, i: nat, clock: nat -> int, done: seq<Attempt>)
    requires WellFormed(st0) && WellFormed(st) && i <= |steps| && Nondecreasing(clock)
    requires OthersUncharged(st0, st, None, clock(i))
    ensures CascadeResult(rules, st0, r, steps, FirstAvailable(rules, st0, snap, r, steps, i, clock), clock,
                          CascadeOn(rules, st, snap, r, steps, i, clock, done))
    decreases |steps| - i, 1
  {
    if i < |steps| {
      if Knows(st, snap, r.project, steps[i].targetRegion, steps[i].targetModel) {
        KnownStep(rules, st0, st, snap, r, steps, i, clock, done);
      } else {
        UnknownStep(rules, st0, st, snap, r, steps, i, clock, done);
      }
    }
  }

  lemma {:induction false} UnknownStep(rules: Rules, st0: Local, st: Local, snap: Option<Snapshot>, r: Request, steps: seq<CascadeStep>, i: nat, clock: nat -> int, done: seq<Attempt>)
    requires WellFormed(st0) && WellFormed(st) && i < |steps| && Nondecreasing(clock)
    requires OthersUncharged(st0, st, None, clock(i))
    requires !Knows(st, snap, r.project, steps[i].targetRegion, steps[i].targetModel)
    ensures CascadeResult(rules, st0, r, steps, FirstAvailable(rules, st0, snap, r, steps, i, clock), clock,
                          CascadeOn(rules, st, snap, r, steps, i, clock, done))
    decreases |steps| - i, 0
  {
    assert clock(i) <= clock(i + 1);
    UnchargedTrans(st0, st, st, None, clock(i), clock(i + 1));
    CascadeChoice(rules, st0, st, snap, r, steps, i + 1, clock, done);
  }

  lemma {:induction false} KnownStep(rules: Rules, st0: Local, st: Local, snap: Option<Snapshot>, r: Request, steps: seq<CascadeStep>, i: nat, clock: nat -> int, done: seq<Attempt>)
    requires WellFormed(st0) && WellFormed(st) && i < |steps| && Nondecreasing(clock)
    requires OthersUncharged(st0, st, None, clock(i))
    requires Knows(st, snap, r.project, steps[i].targetRegion, steps[i].targetModel)
    ensures CascadeResult(rules, st0, r, steps, FirstAvailable(rules, st0, snap, r, steps, i, clock), clock,
                          CascadeOn(rules, st, snap, r, steps, i, clock, done))
    decreases |steps| - i, 0
  {
    var (region, model) := (steps[i].targetRegion, steps[i].targetModel);
    assert clock(i) <= clock(i + 1);
    TryChoice(rules, st0, st, snap, r.project, region, model, r.tokens, clock(i), clock(i + 1));
    var t := TryOn(rules, st, snap, r.project, region, model, r.tokens, clock(i + 1));
    if t.0 {
      StepTaken(rules, st0, snap, r, steps, i, clock, t.1, done + t.2);
    } else {
      CascadeChoice(rules, st0, t.1, snap, r, steps, i + 1, clock, done + t.2);
    }
  }

  lemma {:induction false} StepTaken(rules: Rules, st: Local, snap: Option<Snapshot>, r: Request, steps: seq<CascadeStep>, i: nat, clock: nat -> int, st': Local, tries: seq<Attempt>)
    requires i < |steps| && StepAvailable(rules, st, snap, r, steps[i], clock(i + 1))
    requires ChargedOnly(rules, st, st', steps[i].targetRegion, steps[i].targetModel, r.tokens, clock(i + 1))
    ensures FirstAvailable(rules, st, snap, r, steps, i, clock) == i
    ensures CascadeResult(rules, st, r, steps, i, clock,
                          Outcome(Decision(false, steps[i].targetModel, steps[i].targetRegion, Rerouted), st', tries))
  {
  }

  // The decision ledger. Best-effort and custom traffic takes the primary
  // target if it is available, else (custom only) the first available cascade
  // step, else it is shed; availability is read off the state before the
  // decision. The chosen bucket is charged exactly one accepted call, and no
  // other bucket, nor any bucket when the request is shed, is charged at all.
  lemma {:induction false} DecideLedger(rules: Rules, st: Local, snap: Option<Snapshot>, r: Request, clock: nat -> int)
    requires WellFormed(st) && Nondecreasing(clock) && !r.priority.Critical?
    requires Knows(st, snap, r.project, r.region, r.model)
    ensures
      var o := DecideOn(rules, st, snap, r, clock);
      var steps := StepsFor(rules, r.policy);
      if Available(rules, st, snap, r.project, r.region, r.model, r.tokens, clock(0)) then
        && o.decision == Forward(if r.priority.Custom? then Healthy else BestEffortAdmitted)
        && ChargedOnly(rules, st, o.state, r.region, r.model, r.tokens, clock(0))
      else if !r.priority.Custom? || steps == [] then
        && o.decision == Shed(if r.priority.Custom? then NoPolicy else BestEffortShed)
        && OthersUncharged(st, o.state, None, clock(0))
      else
        CascadeResult(rules, st, r, steps, FirstAvailable(rules, st, snap, r, steps, 0, clock), clock, o)
  {
    assert OthersUncharged(st, st, None, clock(0));
    TryChoice(rules, st, st, snap, r.project, r.region, r.model, r.tokens, clock(0), clock(0));
    var (ok, st', tried) := TryOn(rules, st, snap, r.project, r.region, r.model, r.tokens, clock(0));
    if r.priority.Custom? && !ok && StepsFor(rules, r.policy) != [] {
      CascadeChoice(rules, st, st', snap, r, StepsFor(rules, r.policy), 0, clock, tried);
    }
  }

  // Critical traffic is never shed or moved, and charges only its own target.
  lemma {:induction false} CriticalLedger(rules: Rules, st: Local, snap: Option<Snapshot>, r: Request, clock: nat -> int)
    requires WellFormed(st) && r.priority.Critical?
    ensures
      var o := DecideOn(rules, st, snap, r, clock);
      var k := Key(r.region, r.model);
      var e := Event(clock(0), ForceAcquire(r.tokens));
      && !o.decision.drop && o.decision.replaceModel == "" && o.decision.replaceRegion == ""
      && o.state.buckets == (if k in st.buckets then st.buckets[k := Apply(st.buckets[k], e).0] else st.buckets)
      && (o.decision.reason == CriticalWithin <==>
            Knows(st, snap, r.project, r.region, r.model)
            && !IsSaturated(EffectiveQuota(snap, r.project, r.region, r.model))
            && (k in st.buckets ==> Apply(st.buckets[k], e).1))
  {
  }

  // ---------- Availability, in numbers ----------

  // The quota of a target is the project's own one if the snapshot has it, and
  // else the one pooled over the projects.
  lemma {:induction false} OwnQuotaFirst(snap: Snapshot, project: string, region: string, model: string)
    ensures
      var pooled := Lower(region) + "/" + Lower(model);
      var own := Lower(project) + "/" + pooled;
      EffectiveQuota(Some(snap), project, region, model)
        == if project != "" && own in snap.projectQuotas then Some(snap.projectQuotas[own])
           else if pooled in snap.orgQuotas then Some(snap.orgQuotas[pooled])
           else None
    ensures EffectiveQuota(None, project, region, model) == None
  {
  }

  // A target is known if the snapshot has a quota for it or it has a bucket.
  lemma {:induction false} KnownIff(st: Local, snap: Option<Snapshot>, project: string, region: string, model: string)
    ensures
      var pooled := Lower(region) + "/" + Lower(model);
      Knows(st, snap, project, region, model) <==>
        || pooled in st.buckets
        || (snap.Some? && (pooled in snap.value.orgQuotas
                           || (project != "" && Lower(project) + "/" + pooled in snap.value.projectQuotas)))
  {
  }

  // A quota leaves room when no dimension is used up: both utilizations are
  // below 1, and a limited dimension has headroom. Without a quota there is room.
  lemma {:induction false} UnsaturatedIff(q: Option<Quota>)
    ensures !IsSaturated(q) <==> (q.Some? ==>
      && q.value.utilizationRpm < 1.0 && q.value.utilizationTpm < 1.0
      && (q.value.maxRpm > 0 ==> q.value.headroomRpm > 0)
      && (q.value.maxTpm > 0 ==> q.value.headroomTpm > 0))
  {
  }

  // A target is available exactly when its quota, if there is one, has headroom
  // and its utilizations are below 100 less the reserve percent, and its bucket,
  // if there is one, has the request and its tokens to give away without
  // touching the reserve.
  lemma {:induction false} AvailableIff(rules: Rules, st: Local, snap: Option<Snapshot>, project: string, region: string, model: string, tokens: int, now: int)
    requires rules.ceiling == (100 - rules.reservePercent) as real / 100.0 && 0 <= rules.reservePercent
    requires
      var k := Key(region, model);
      k in st.buckets ==> 0 <= st.buckets[k].rpm.max && 0 <= st.buckets[k].tpm.max
    ensures
      var (q, k, reserve) := (EffectiveQuota(snap, project, region, model), Key(region, model), rules.reservePercent);
      Available(rules, st, snap, project, region, model, tokens, now) <==>
        && (q.Some? ==>
              && 100.0 * q.value.utilizationRpm < (100 - reserve) as real
              && 100.0 * q.value.utilizationTpm < (100 - reserve) as real
              && (q.value.maxRpm > 0 ==> q.value.headroomRpm > 0)
              && (q.value.maxTpm > 0 ==> q.value.headroomTpm > 0))
        && (k in st.buckets ==>
              var b := st.buckets[k];
              && 100 * Refill(b.rpm, now).cur > b.rpm.max * reserve
              && 100 * (Refill(b.tpm, now).cur - Max(tokens, 0) + 1) > b.tpm.max * reserve)
  {
    var k := Key(region, model);
    if k in st.buckets {
      BR.AdmittedIff(st.buckets[k], now, tokens, rules.reservePercent);
    }
    UnsaturatedIff(EffectiveQuota(snap, project, region, model));
    hide EffectiveQuota, IsSaturated, Apply, Refill, Key;
  }

  // ---------- Every attempt is counted ----------

  // The tokens of the attempts on one bucket.
  function TokensTried(k: string, tries: seq<Attempt>): nat {
    if tries == [] then 0
    else (if tries[0].key == k then Max(tries[0].tokens, 0) else 0) + TokensTried(k, tries[1..])
  }

  // The counters grew by the attempts, whether they were admitted or not.
  ghost predicate CountedUp(before: map<string, Demand>, tries: seq<Attempt>, after: map<string, Demand>) {
    && after.Keys == before.Keys
    && forall k | k in before ::
         && after[k].requests == before[k].requests + |EventsOn(k, tries)|
         && after[k].tokens == before[k].tokens + TokensTried(k, tries)
  }

  lemma {:induction false} TokensTriedConcat(k: string, a: seq<Attempt>, b: seq<Attempt>)
    ensures TokensTried(k, a + b) == TokensTried(k, a) + TokensTried(k, b)
  {
    if a == [] {
      assert a + b == b;
    } else {
      assert (a + b)[1..] == a[1..] + b;
      TokensTriedConcat(k, a[1..], b);
    }
  }

  lemma {:induction false} CountedTrans(a: map<string, Demand>, t: seq<Attempt>, b: map<string, Demand>, u: seq<Attempt>, c: map<string, Demand>)
    requires CountedUp(a, t, b) && CountedUp(b, u, c)
    ensures CountedUp(a, t + u, c)
  {
    forall k | k in a
      ensures |EventsOn(k, t + u)| == |EventsOn(k, t)| + |EventsOn(k, u)| && TokensTried(k, t + u) == TokensTried(k, t) + TokensTried(k, u)
    {
      EventsConcat(k, t, u);
      TokensTriedConcat(k, t, u);
    }
    hide EventsOn, TokensTried;
  }

  lemma {:induction false} OneCounted(st: Local, a: Attempt)
    requires a.key in st.buckets && a.key in st.demand
    ensures CountedUp(st.demand, [a], Attempted(st, a.key, a.event, a.tokens).0.demand)
  {
    assert [a][1..] == [];
    forall k ensures |EventsOn(k, [a])| == (if a.key == k then 1 else 0)
      && TokensTried(k, [a]) == if a.key == k then Max(a.tokens, 0) else 0
    {
      assert EventsOn(k, []) == [] && TokensTried(k, []) == 0;
    }
    hide Apply, EventsOn, TokensTried;
  }

  lemma {:induction false} NoneCounted(d: map<string, Demand>)
    ensures CountedUp(d, [], d)
  {
  }

  lemma {:induction false} TryCounted(rules: Rules, st: Local, snap: Option<Snapshot>, project: string, region: string, model: string, tokens: int, now: int)
    requires WellFormed(st)
    ensures
      var (_, st', tried) := TryOn(rules, st, snap, project, region, model, tokens, now);
      CountedUp(st.demand, tried, st'.demand)
  {
    NoneCounted(st.demand);
    if Key(region, model) in st.buckets {
      OneCounted(st, Attempt(Key(region, model), Above(rules, tokens, now), tokens));
    }
    hide CountedUp, Attempted, Key, SnapshotRoom;
  }

  lemma {:induction false} CascadeCounted(rules: Rules, before: map<string, Demand>, st: Local, snap: Option<Snapshot>, r: Request, steps: seq<CascadeStep>, i: nat, clock: nat -> int, done: seq<Attempt>)
    requires WellFormed(st) && i <= |steps| && CountedUp(before, done, st.demand)
    ensures
      var o := CascadeOn(rules, st, snap, r, steps, i, clock, done);
      CountedUp(before, o.attempts, o.state.demand)
    decreases |steps| - i
  {
    hide CountedUp, TryOn, Knows;
    if i < |steps| {
      var (region, model) := (steps[i].targetRegion, steps[i].targetModel);
      if Knows(st, snap, r.project, region, model) {
        var t := TryOn(rules, st, snap, r.project, region, model, r.tokens, clock(i + 1));
        TryCounted(rules, st, snap, r.project, region, model, r.tokens, clock(i + 1));
        CountedTrans(before, done, st.demand, t.2, t.1.demand);
        if !t.0 {
          CascadeCounted(rules, before, t.1, snap, r, steps, i + 1, clock, done + t.2);
        }
      } else {
        CascadeCounted(rules, before, st, snap, r, steps, i + 1, clock, done);
      }
    }
  }

  lemma {:induction false} DecideCounted(rules: Rules, st: Local, snap: Option<Snapshot>, r: Request, clock: nat -> int)
    requires WellFormed(st)
    ensures
      var o := DecideOn(rules, st, snap, r, clock);
      CountedUp(st.demand, o.attempts, o.state.demand)
  {
    var k := Key(r.region, r.model);
    NoneCounted(st.demand);
    if r.priority.Critical? {
      if k in st.buckets {
        OneCounted(st, Attempt(k, Event(clock(0), ForceAcquire(r.tokens)), r.tokens));
      }
    } else {
      TryCounted(rules, st, snap, r.project, r.region, r.model, r.tokens, clock(0));
      var t := TryOn(rules, st, snap, r.project, r.region, r.model, r.tokens, clock(0));
      CascadeCounted(rules, st.demand, t.1, snap, r, StepsFor(rules, r.policy), 0, clock, t.2);
    }
    hide CountedUp, TryOn, CascadeOn, Knows, Key, Attempted, StepsFor, EffectiveQuota;
  }

  // ---------- Runs of the engine ----------

  datatype Call = Call(snap: Option<Snapshot>, request: Request, clock: nat -> int)

  function Engine(rules: Rules, st: Local, calls: seq<Call>): (st': Local)
    requires WellFormed(st)
    ensures WellFormed(st') && st'.buckets.Keys == st.buckets.Keys
    decreases |calls|
  {
    if calls == [] then st
    else Engine(rules, DecideOn(rules, st, calls[0].snap, calls[0].request, calls[0].clock).state, calls[1..])
  }

  // All bucket attempts of a run, in order.
  function Attempts(rules: Rules, st: Local, calls: seq<Call>): seq<Attempt>
    requires WellFormed(st)
    decreases |calls|
  {
    if calls == [] then []
    else
      var o := DecideOn(rules, st, calls[0].snap, calls[0].request, calls[0].clock);
      o.attempts + Attempts(rules, o.state, calls[1..])
  }

  function Replay(bs: map<string, Bucket>, tries: seq<Attempt>): (r: map<string, Bucket>)
    requires forall a | a in tries :: a.key in bs
    ensures r.Keys == bs.Keys
    decreases |tries|
  {
    if tries == [] then bs
    else
      assert tries[0] in tries;
      Replay(bs[tries[0].key := Apply(bs[tries[0].key], tries[0].event).0], tries[1..])
  }

  // The calls one bucket receives.
  function EventsOn(k: string, tries: seq<Attempt>): seq<Event> {
    if tries == [] then []
    else if tries[0].key == k then [tries[0].event] + EventsOn(k, tries[1..])
    else EventsOn(k, tries[1..])
  }

  lemma {:induction false} EventsConcat(k: string, a: seq<Attempt>, b: seq<Attempt>)
    ensures EventsOn(k, a + b) == EventsOn(k, a) + EventsOn(k, b)
  {
    if a == [] {
      assert a + b == b;
    } else {
      assert (a + b)[1..] == a[1..] + b;
      EventsConcat(k, a[1..], b);
    }
  }

  lemma {:induction false} ReplayConcat(bs: map<string, Bucket>, a: seq<Attempt>, b: seq<Attempt>)
    requires forall x | x in a + b :: x.key in bs
    ensures forall x | x in a :: x.key in bs
    ensures forall x | x in b :: x.key in Replay(bs, a)
    ensures Replay(bs, a + b) == Replay(Replay(bs, a), b)
    decreases |a|
  {
    assert forall x | x in a :: x in a + b;
    assert forall x | x in b :: x in a + b;
    if a == [] {
      assert a + b == b;
    } else {
      assert a[0] in a;
      assert (a + b)[1..] == a[1..] + b;
      assert forall x | x in a[1..] + b :: x in a + b;
      ReplayConcat(bs[a[0].key := Apply(bs[a[0].key], a[0].event).0], a[1..], b);
    }
  }

  // Each bucket goes through exactly the calls made on it.
  lemma {:induction false} ReplayPerKey(bs: map<string, Bucket>, tries: seq<Attempt>, k: string)
    requires (forall a | a in tries :: a.key in bs) && k in bs
    ensures Replay(bs, tries)[k] == BR.Run(bs[k], EventsOn(k, tries))
    decreases |tries|
  {
    if tries != [] {
      assert tries[0] in tries;
      assert forall a | a in tries[1..] :: a in tries;
      var bs' := bs[tries[0].key := Apply(bs[tries[0].key], tries[0].event).0];
      ReplayPerKey(bs', tries[1..], k);
      if tries[0].key == k {
        var rest := EventsOn(k, tries[1..]);
        assert ([tries[0].event] + rest)[1..] == rest;
      }
    }
  }

  // What best-effort and custom traffic may do to a bucket.
  predicate Guarded(rules: Rules, bs: map<string, Bucket>, tries: seq<Attempt>, critical: bool) {
    forall a | a in tries ::
      && a.key in bs
      && a.event.op == if critical then ForceAcquire(a.tokens) else TryAcquireAbove(a.tokens, rules.reservePercent)
  }

  // The bucket a decision charges its request to, if that target has one.
  function ChargedKey(d: Decision, r: Request): string {
    if d.reason.Rerouted? then Key(d.replaceRegion, d.replaceModel) else Key(r.region, r.model)
  }

  // The best-effort cost a decision puts on the bucket of key k.
  function Billed(d: Decision, r: Request, k: string, s: Side): nat {
    if r.priority.Critical? || d.drop || ChargedKey(d, r) != k then 0
    else Cost(TryAcquireAbove(r.tokens, 0), s)
  }

  // A list of attempts leads from one state of the buckets to another and
  // admits the given best-effort cost on the bucket of key k.
  ghost predicate Explains(rules: Rules, st: Local, tries: seq<Attempt>, critical: bool, st': Local, k: string, s: Side, cost: nat) {
    && Guarded(rules, st.buckets, tries, critical)
    && Replay(st.buckets, tries) == st'.buckets
    && (k in st.buckets ==> BR.BestEffortCost(st.buckets[k], EventsOn(k, tries), s) == cost)
  }

  lemma {:induction false} CostConcat(b: Bucket, es: seq<Event>, fs: seq<Event>, s: Side)
    ensures BR.BestEffortCost(b, es + fs, s) == BR.BestEffortCost(b, es, s) + BR.BestEffortCost(BR.Run(b, es), fs, s)
    decreases |es|
  {
    if es == [] {
      assert es + fs == fs;
    } else {
      assert (es + fs)[1..] == es[1..] + fs;
      CostConcat(Apply(b, es[0]).0, es[1..], fs, s);
    }
  }

  lemma {:induction false} ExplainsConcat(rules: Rules, a: Local, t: seq<Attempt>, b: Local, u: seq<Attempt>, c: Local, critical: bool, k: string, s: Side, x: nat, y: nat)
    requires Explains(rules, a, t, critical, b, k, s, x) && Explains(rules, b, u, critical, c, k, s, y)
    ensures Explains(rules, a, t + u, critical, c, k, s, x + y)
  {
    ReplayConcat(a.buckets, t, u);
    if k in a.buckets {
      EventsConcat(k, t, u);
      CostConcat(a.buckets[k], EventsOn(k, t), EventsOn(k, u), s);
      ReplayPerKey(a.buckets, t, k);
    }
  }

  lemma {:induction false} TryExplained(rules: Rules, st: Local, snap: Option<Snapshot>, project: string, region: string, model: string, tokens: int, now: int, k: string, s: Side)
    requires WellFormed(st)
    ensures
      var (ok, st', tried) := TryOn(rules, st, snap, project, region, model, tokens, now);
      Explains(rules, st, tried, false, st', k, s, if ok && Key(region, model) == k then Cost(TryAcquireAbove(tokens, 0), s) else 0)
  {
    var tried := TryOn(rules, st, snap, project, region, model, tokens, now).2;
    if tried != [] {
      var key, e := Key(region, model), Above(rules, tokens, now);
      assert tried == [Attempt(key, e, tokens)] && tried[1..] == [];
      assert EventsOn(k, []) == [];
      if key == k {
        assert EventsOn(k, tried) == [e] && [e][1..] == [];
      }
    }
  }

  lemma {:induction false} CascadeExplained(rules: Rules, st0: Local, st: Local, snap: Option<Snapshot>, r: Request, steps: seq<CascadeStep>, i: nat, clock: nat -> int, done: seq<Attempt>, k: string, s: Side)
    requires WellFormed(st0) && WellFormed(st) && i <= |steps| && !r.priority.Critical?
    requires Explains(rules, st0, done, false, st, k, s, 0)
    ensures
      var o := CascadeOn(rules, st, snap, r, steps, i, clock, done);
      Explains(rules, st0, o.attempts, false, o.state, k, s, Billed(o.decision, r, k, s))
    decreases |steps| - i
  {
    hide TryOn, Explains, Knows, Cost, Key;
    if i < |steps| {
      var (region, model) := (steps[i].targetRegion, steps[i].targetModel);
      if Knows(st, snap, r.project, region, model) {
        var t := TryOn(rules, st, snap, r.project, region, model, r.tokens, clock(i + 1));
        var cost := if t.0 && Key(region, model) == k then Cost(TryAcquireAbove(r.tokens, 0), s) else 0;
        TryExplained(rules, st, snap, r.project, region, model, r.tokens, clock(i + 1), k, s);
        ExplainsConcat(rules, st0, done, st, t.2, t.1, false, k, s, 0, cost);
        if !t.0 {
          CascadeExplained(rules, st0, t.1, snap, r, steps, i + 1, clock, done + t.2, k, s);
        }
      } else {
        CascadeExplained(rules, st0, st, snap, r, steps, i + 1, clock, done, k, s);
      }
    }
  }

  // The attempts Decide makes account for its effect on every bucket, and the
  // best-effort cost a bucket sees is what the decisions say.
  lemma {:induction false} DecideExplained(rules: Rules, st: Local, snap: Option<Snapshot>, r: Request, clock: nat -> int, k: string, s: Side)
    requires WellFormed(st)
    ensures
      var o := DecideOn(rules, st, snap, r, clock);
      Explains(rules, st, o.attempts, r.priority.Critical?, o.state, k, s, if k in st.buckets then Billed(o.decision, r, k, s) else 0)
  {
    var o := DecideOn(rules, st, snap, r, clock);
    if r.priority.Critical? {
      if o.attempts != [] {
        var a := o.attempts[0];
        assert o.attempts == [a] && [a][1..] == [] && EventsOn(k, []) == [];
        if a.key == k {
          assert EventsOn(k, o.attempts) == [a.event] && [a.event][1..] == [];
        }
      }
    } else if Knows(st, snap, r.project, r.region, r.model) {
      TryExplained(rules, st, snap, r.project, r.region, r.model, r.tokens, clock(0), k, s);
      var t := TryOn(rules, st, snap, r.project, r.region, r.model, r.tokens, clock(0));
      if r.priority.Custom? && !t.0 && StepsFor(rules, r.policy) != [] {
        CascadeExplained(rules, st, t.1, snap, r, StepsFor(rules, r.policy), 0, clock, t.2, k, s);
      }
    }
  }

  function TotalBilled(rules: Rules, st: Local, calls: seq<Call>, k: string, s: Side): nat
    requires WellFormed(st)
    decreases |calls|
  {
    if calls == [] then 0
    else
      var o := DecideOn(rules, st, calls[0].snap, calls[0].request, calls[0].clock);
      Billed(o.decision, calls[0].request, k, s) + TotalBilled(rules, o.state, calls[1..], k, s)
  }

  // A run of the engine is, on each bucket, a run of that bucket at the
  // engine's reserve, whose best-effort cost is what the decisions admitted.
  lemma {:induction false} EnginePerBucket(rules: Rules, st: Local, calls: seq<Call>, k: string, s: Side)
    requires WellFormed(st) && k in st.buckets
    ensures
      var es := EventsOn(k, Attempts(rules, st, calls));
      && Engine(rules, st, calls).buckets[k] == BR.Run(st.buckets[k], es)
      && BR.BestEffortCost(st.buckets[k], es, s) == TotalBilled(rules, st, calls, k, s)
      && BR.FixedCapacity(es) && BR.Reserve(es, rules.reservePercent)
      && ((forall c | c in calls :: !c.request.priority.Critical?) ==> BR.Protected(es, rules.reservePercent))
    decreases |calls|
  {
    if calls != [] {
      var c := calls[0];
      var o := DecideOn(rules, st, c.snap, c.request, c.clock);
      DecideExplained(rules, st, c.snap, c.request, c.clock, k, s);
      ReplayPerKey(st.buckets, o.attempts, k);
      EnginePerBucket(rules, o.state, calls[1..], k, s);
      var first, rest := EventsOn(k, o.attempts), EventsOn(k, Attempts(rules, o.state, calls[1..]));
      EventsConcat(k, o.attempts, Attempts(rules, o.state, calls[1..]));
      BR.RunConcat(st.buckets[k], first, rest);
      CostConcat(st.buckets[k], first, rest, s);
      EventsComeFrom(k, o.attempts);
      assert c in calls;
      assert forall x | x in calls[1..] :: x in calls;
    }
  }

  lemma {:induction false} EventsComeFrom(k: string, tries: seq<Attempt>)
    ensures forall e | e in EventsOn(k, tries) :: exists a :: a in tries && a.event == e
  {
    if tries != [] {
      EventsComeFrom(k, tries[1..]);
      assert tries[0] in tries;
      assert forall a | a in tries[1..] :: a in tries;
    }
  }

  lemma {:induction false} EngineConcat(rules: Rules, st: Local, a: seq<Call>, b: seq<Call>)
    requires WellFormed(st)
    ensures Engine(rules, st, a + b) == Engine(rules, Engine(rules, st, a), b)
    ensures Attempts(rules, st, a + b) == Attempts(rules, st, a) + Attempts(rules, Engine(rules, st, a), b)
    decreases |a|
  {
    if a == [] {
      assert a + b == b;
    } else {
      assert (a + b)[1..] == a[1..] + b;
      EngineConcat(rules, DecideOn(rules, st, a[0].snap, a[0].request, a[0].clock).state, a[1..], b);
    }
  }

  // The demand a replica reports is what it was asked for: over any run of
  // decisions the counter of a target grows by one for each attempt on its
  // bucket, admitted or refused, and by the tokens of that attempt.
  lemma {:induction false} EngineCounted(rules: Rules, st: Local, calls: seq<Call>)
    requires WellFormed(st)
    ensures CountedUp(st.demand, Attempts(rules, st, calls), Engine(rules, st, calls).demand)
    decreases |calls|
  {
    hide CountedUp, DecideOn;
    if calls == [] {
      NoneCounted(st.demand);
    } else {
      var o := DecideOn(rules, st, calls[0].snap, calls[0].request, calls[0].clock);
      DecideCounted(rules, st, calls[0].snap, calls[0].request, calls[0].clock);
      EngineCounted(rules, o.state, calls[1..]);
      CountedTrans(st.demand, o.attempts, o.state.demand, Attempts(rules, o.state, calls[1..]), Engine(rules, o.state, calls[1..]).demand);
    }
  }

  // The fleet-facing admission bound: over any run of decisions, the best-effort
  // and custom requests (or tokens) that any window of T ns sends to a limited
  // target stay within the capacity above the reserve plus the refill of T.
  lemma {:induction false} EngineWindow(rules: Rules, st: Local, before: seq<Call>, window: seq<Call>, k: string, s: Side, t0: int, T: nat)
    requires WellFormed(st) && k in st.buckets && BR.Steady(On(st.buckets[k], s), t0)
    requires 0 <= rules.reservePercent <= 90
    requires BR.InOrder(t0, EventsOn(k, Attempts(rules, st, before + window)))
    requires var es := EventsOn(k, Attempts(rules, Engine(rules, st, before), window));
      es != [] ==> es[|es| - 1].at - es[0].at <= T
    ensures
      var C := On(st.buckets[k], s).max;
      && Period(C) > 0
      && TotalBilled(rules, Engine(rules, st, before), window, k, s)
         <= C - FloorOf(C, rules.reservePercent) + BR.CeilDiv(T, Period(C))
  {
    var mid := Engine(rules, st, before);
    EngineConcat(rules, st, before, window);
    EventsConcat(k, Attempts(rules, st, before), Attempts(rules, mid, window));
    EnginePerBucket(rules, st, before, k, s);
    EnginePerBucket(rules, mid, window, k, s);
    BR.WindowBound(st.buckets[k], t0, EventsOn(k, Attempts(rules, st, before)), EventsOn(k, Attempts(rules, mid, window)),
                   T, s, rules.reservePercent);
  }

  // "No limit" is a number too: a dimension without a configured limit is
  // never refilled, so all the best-effort traffic of a run of decisions comes
  // out of the balance above the reserve.
  lemma {:induction false} UnlimitedIsFinite(rules: Rules, st: Local, calls: seq<Call>, k: string, s: Side, t0: int)
    requires WellFormed(st) && k in st.buckets && 0 <= rules.reservePercent <= 90
    requires On(st.buckets[k], s) == Dim(UNLIMITED_CAPACITY, UNLIMITED_CAPACITY, t0)
    ensures TotalBilled(rules, st, calls, k, s) <= UNLIMITED_CAPACITY - FloorOf(UNLIMITED_CAPACITY, rules.reservePercent)
  {
    EnginePerBucket(rules, st, calls, k, s);
    BR.SpentForGood(st.buckets[k], EventsOn(k, Attempts(rules, st, calls)), s, rules.reservePercent);
    BR.FloorBelow(UNLIMITED_CAPACITY, rules.reservePercent);
  }

  // ---------- The critical reserve ----------

  // Without critical traffic no run of decisions dips into the reserve.
  lemma {:induction false} ReserveSafety(rules: Rules, st: Local, calls: seq<Call>, k: string, s: Side)
    requires WellFormed(st) && k in st.buckets
    requires forall c | c in calls :: !c.request.priority.Critical?
    requires BR.ReserveHeld(On(st.buckets[k], s), rules.reservePercent)
    ensures BR.ReserveHeld(On(Engine(rules, st, calls).buckets[k], s), rules.reservePercent)
    ensures
      var d, d' := On(st.buckets[k], s), On(Engine(rules, st, calls).buckets[k], s);
      d'.max == d.max && (d.max * rules.reservePercent >= 0 ==> 100 * (d'.cur + 1) > d.max * rules.reservePercent)
  {
    EnginePerBucket(rules, st, calls, k, s);
    BR.ReserveKept(st.buckets[k], EventsOn(k, Attempts(rules, st, calls)), s, rules.reservePercent);
  }

  // The buckets a limiter starts with hold their reserve.
  lemma {:induction false} FullShareHoldsReserve(a: ModelLimit, replicas: int, now: int, r: int, s: Side)
    requires 0 <= r <= 90
    ensures BR.ReserveHeld(On(FullShare(a, replicas, now), s), r)
  {
    BR.FloorBelow(Share(a.maxRpm, replicas), r);
    BR.FloorBelow(Share(a.maxTpm, replicas), r);
  }

  ghost predicate CriticalOn(k: string, calls: seq<Call>) {
    forall c | c in calls :: c.request.priority.Critical? && Key(c.request.region, c.request.model) == k
  }

  function TotalTokens(calls: seq<Call>): nat {
    if calls == [] then 0 else Max(calls[0].request.tokens, 0) + TotalTokens(calls[1..])
  }

  // A critical burst covered by the balances: every request of it is reported
  // as within the allowance unless the snapshot itself says saturated.
  lemma {:induction false} CoveredBurst(rules: Rules, st: Local, burst: seq<Call>, k: string, j: nat)
    requires WellFormed(st) && k in st.buckets && CriticalOn(k, burst) && j < |burst|
    requires st.buckets[k].rpm.cur <= st.buckets[k].rpm.max && st.buckets[k].tpm.cur <= st.buckets[k].tpm.max
    requires |burst| <= st.buckets[k].rpm.cur && TotalTokens(burst) <= st.buckets[k].tpm.cur
    ensures
      var c, at := burst[j], Engine(rules, st, burst[..j]);
      DecideOn(rules, at, c.snap, c.request, c.clock).decision.reason == CriticalWithin
      <==> !IsSaturated(EffectiveQuota(c.snap, c.request.project, c.request.region, c.request.model))
    decreases j
  {
    var c := burst[0];
    assert c in burst;
    CriticalLedger(rules, st, c.snap, c.request, c.clock);
    BR.CoveredFits(st.buckets[k], c.clock(0), c.request.tokens, |burst| - 1, TotalTokens(burst[1..]));
    if j > 0 {
      assert forall x | x in burst[1..] :: x in burst;
      assert burst[..j][1..] == burst[1..][..j - 1];
      CoveredBurst(rules, DecideOn(rules, st, c.snap, c.request, c.clock).state, burst[1..], k, j - 1);
    } else {
      assert burst[..0] == [];
    }
  }

  // What the reserve is for: after any run of decisions on best-effort, custom
  // and unlabelled traffic, a critical burst of at most the reserved requests
  // and tokens is reported as within the allowance from first to last.
  lemma {:induction false} ReserveServesCritical(rules: Rules, st: Local, calls: seq<Call>, burst: seq<Call>, k: string, j: nat)
    requires WellFormed(st) && k in st.buckets && j < |burst|
    requires forall c | c in calls :: !c.request.priority.Critical?
    requires forall s: Side :: BR.ReserveHeld(On(st.buckets[k], s), rules.reservePercent)
    requires CriticalOn(k, burst)
    requires |burst| <= FloorOf(st.buckets[k].rpm.max, rules.reservePercent)
    requires TotalTokens(burst) <= FloorOf(st.buckets[k].tpm.max, rules.reservePercent)
    ensures
      var c, at := burst[j], Engine(rules, st, calls + burst[..j]);
      DecideOn(rules, at, c.snap, c.request, c.clock).decision.reason == CriticalWithin
      <==> !IsSaturated(EffectiveQuota(c.snap, c.request.project, c.request.region, c.request.model))
  {
    assert BR.ReserveHeld(On(st.buckets[k], Rpm), rules.reservePercent);
    assert BR.ReserveHeld(On(st.buckets[k], Tpm), rules.reservePercent);
    ReserveSafety(rules, st, calls, k, Rpm);
    ReserveSafety(rules, st, calls, k, Tpm);
    EngineConcat(rules, st, calls, burst[..j]);
    CoveredBurst(rules, Engine(rules, st, calls), burst, k, j);
  }
}
