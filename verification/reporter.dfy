// pkg/dataplane/reporter.go: a replica reports its demand and resizes its
// buckets to the shares it gets back, or to the even split after repeated
// failures. The outcome of the call and the clock readings are parameters.
module Reporter {
  import opened Prelude
  import opened Text
  import opened Settings
  import opened TokenBuckets
  import BR = BucketRuns
  import opened Limiters

  const FALLBACK_AFTER_FAILURES := 3

  datatype Outcome = Failed(clock: string -> int) | Succeeded(shares: seq<TargetShare>, readings: nat -> int)

  datatype Replica = Replica(failures: nat, buckets: map<string, Bucket>)

  function ResetAll(bs: map<string, Bucket>, allowances: map<string, ModelLimit>, replicas: int, clock: string -> int): map<string, Bucket>
    requires bs.Keys == allowances.Keys
  {
    map k | k in bs :: EvenSplit(bs[k], allowances[k], replicas, clock(k))
  }

  // One report.
  function Report(st: Replica, allowances: map<string, ModelLimit>, replicas: int, o: Outcome): (st': Replica)
    requires st.buckets.Keys == allowances.Keys
    ensures st'.buckets.Keys == allowances.Keys
  {
    match o
    case Failed(clock) =>
      Replica(st.failures + 1,
            if st.failures + 1 == FALLBACK_AFTER_FAILURES then ResetAll(st.buckets, allowances, replicas, clock) else st.buckets)
    case Succeeded(shares, readings) => Replica(0, SharesApplied(st.buckets, allowances, shares, readings))
  }

  class UsageReporter {
    const limiter: Limiter
    var failures: nat

    constructor (limiter: Limiter)
      ensures this.limiter == limiter && failures == 0
    {
      this.limiter, this.failures := limiter, 0;
    }

    // The demand is drained before the call, so it is gone even if the call
    // fails.
    method ReportOnce(o: Outcome) returns (ok: bool, sent: seq<TargetDemand>)
      requires limiter.Valid()
      modifies this, limiter.buckets.Values, limiter.demand.Values
      ensures ok == o.Succeeded?
      ensures IsDrain(sent, old(limiter.Counters()), {})
      ensures forall k | k in limiter.demand :: limiter.Counters()[k] == Demand(0, 0)
      ensures Replica(failures, limiter.Buckets())
           == Report(Replica(old(failures), old(limiter.Buckets())), limiter.allowances, limiter.replicas, o)
    {
      hide Report, IsDrain;
      sent := limiter.DrainDemand();
      ok := Settle(o);
    }

    // What the outcome of the call does.
    method Settle(o: Outcome) returns (ok: bool)
      requires limiter.Valid()
      modifies this, limiter.buckets.Values
      ensures ok == o.Succeeded?
      ensures limiter.Counters() == old(limiter.Counters())
      ensures Replica(failures, limiter.Buckets())
           == Report(Replica(old(failures), old(limiter.Buckets())), limiter.allowances, limiter.replicas, o)
    {
      hide EvenSplit, SharesApplied, ResetAll;
      if o.Failed? {
        failures := failures + 1;
        assert limiter.Buckets() == old(limiter.Buckets()) && limiter.Counters() == old(limiter.Counters());
        if failures == FALLBACK_AFTER_FAILURES {
          ghost var before := limiter.Buckets();
          limiter.ResetShares(o.clock);
          ResetIs(before, limiter.Buckets(), limiter.allowances, limiter.replicas, o.clock);
        }
        return false;
      }
      failures := 0;
      assert limiter.Buckets() == old(limiter.Buckets()) && limiter.Counters() == old(limiter.Counters());
      limiter.ApplyShares(o.shares, o.readings);
      return true;
    }
  }

  lemma {:induction false} ResetIs(bs: map<string, Bucket>, after: map<string, Bucket>, allowances: map<string, ModelLimit>, replicas: int, clock: string -> int)
    requires bs.Keys == allowances.Keys == after.Keys
    requires forall k | k in after :: after[k] == EvenSplit(bs[k], allowances[k], replicas, clock(k))
    ensures after == ResetAll(bs, allowances, replicas, clock)
  {
    hide EvenSplit;
  }

  // One or two failures in a row change nothing; the third brings the even
  // split back, once; a success starts the count again.
  lemma {:induction false} ThirdFailureFallsBack(st: Replica, allowances: map<string, ModelLimit>, replicas: int, o: Outcome)
    requires st.buckets.Keys == allowances.Keys
    ensures
      var st' := Report(st, allowances, replicas, o);
      && st'.failures == (if o.Succeeded? then 0 else st.failures + 1)
      && (o.Failed? && st.failures != 2 ==> st'.buckets == st.buckets)
      && (o.Failed? && st.failures == 2 ==> forall k | k in st.buckets ::
            && st'.buckets[k].rpm.max == Share(allowances[k].maxRpm, replicas)
            && st'.buckets[k].tpm.max == Share(allowances[k].maxTpm, replicas))
  {
    hide SharesApplied, Share, RefillBoth;
  }

  // ---------- Runs, with traffic between the reports ----------

  datatype Happening = Reported(outcome: Outcome) | Traffic(key: string, event: Event)

  function Next(st: Replica, allowances: map<string, ModelLimit>, replicas: int, h: Happening): (st': Replica)
    requires st.buckets.Keys == allowances.Keys
    ensures st'.buckets.Keys == allowances.Keys
  {
    match h
    case Reported(o) => Report(st, allowances, replicas, o)
    case Traffic(k, e) =>
      if k in st.buckets && !e.op.SetCapacity? then st.(buckets := st.buckets[k := Apply(st.buckets[k], e).0]) else st
  }

  function Run(st: Replica, allowances: map<string, ModelLimit>, replicas: int, hs: seq<Happening>): (st': Replica)
    requires st.buckets.Keys == allowances.Keys
    ensures st'.buckets.Keys == allowances.Keys
  {
    if hs == [] then st
    else Next(Run(st, allowances, replicas, hs[..|hs| - 1]), allowances, replicas, hs[|hs| - 1])
  }

  // ---------- The reference reading of a history ----------

  function Outcomes(hs: seq<Happening>): seq<Outcome> {
    if hs == [] then []
    else Outcomes(hs[..|hs| - 1]) + (if hs[|hs| - 1].Reported? then [hs[|hs| - 1].outcome] else [])
  }

  // Consecutive failures up to now.
  function Trailing(os: seq<Outcome>): nat {
    if os == [] || os[|os| - 1].Succeeded? then 0 else 1 + Trailing(os[..|os| - 1])
  }

  // The successful answers since the last fallback.
  function Recent(os: seq<Outcome>): seq<seq<TargetShare>> {
    if os == [] then []
    else
      var n := |os| - 1;
      if os[n].Succeeded? then Recent(os[..n]) + [os[n].shares]
      else if Trailing(os) >= FALLBACK_AFTER_FAILURES then []
      else Recent(os[..n])
  }

  // The last share for a target in one answer, and in a list of answers.
  function LastShare(shares: seq<TargetShare>, k: string): Option<TargetShare> {
    if shares == [] then None
    else
      var n := |shares| - 1;
      if Lower(Trim(shares[n].target)) == k then Some(shares[n]) else LastShare(shares[..n], k)
  }

  // Which share that is: the last one whose target is the key up to case and
  // surrounding space.
  lemma {:induction false} LastShareIs(shares: seq<TargetShare>, k: string) returns (i: nat)
    requires k == Lower(k)
    ensures LastShare(shares, k).None? ==> forall j | 0 <= j < |shares| :: !EqualFold(Trim(shares[j].target), k)
    ensures LastShare(shares, k).Some? ==>
      && i < |shares| && EqualFold(Trim(shares[i].target), k) && LastShare(shares, k) == Some(shares[i])
      && forall j | i < j < |shares| :: !EqualFold(Trim(shares[j].target), k)
  {
    hide Lower, Trim;
    i := 0;
    if shares != [] {
      var n := |shares| - 1;
      i := LastShareIs(shares[..n], k);
      if EqualFold(Trim(shares[n].target), k) {
        i := n;
      }
    }
  }

  function LatestShare(answers: seq<seq<TargetShare>>, k: string): Option<TargetShare> {
    if answers == [] then None
    else
      var n := |answers| - 1;
      var last := LastShare(answers[n], k);
      if last.Some? then last else LatestShare(answers[..n], k)
  }

  function LimitOf(a: ModelLimit, s: Side): int {
    if s.Rpm? then a.maxRpm else a.maxTpm
  }

  function FractionFor(sh: TargetShare, s: Side): real {
    if s.Rpm? then sh.rpmFraction else sh.tpmFraction
  }

  // The latest share's part of the allowance, or the even split without one.
  function CapacityFor(a: ModelLimit, replicas: int, share: Option<TargetShare>, s: Side): int {
    match share
    case None => Share(LimitOf(a, s), replicas)
    case Some(sh) => FractionOf(LimitOf(a, s), FractionFor(sh, s))
  }

  lemma {:induction false} RefillKeepsMax(d: Dim, now: int)
    ensures Refill(d, now).max == d.max
  {
  }

  lemma {:induction false} TrafficKeepsMax(b: Bucket, e: Event, s: Side)
    requires !e.op.SetCapacity?
    ensures On(Apply(b, e).0, s).max == On(b, s).max
  {
    RefillKeepsMax(b.rpm, e.at);
    RefillKeepsMax(b.tpm, e.at);
    hide Refill;
  }

  // Applying an answer sizes each bucket by the last share it has for it.
  lemma {:induction false} AppliedCapacity(bs: map<string, Bucket>, allowances: map<string, ModelLimit>, shares: seq<TargetShare>, readings: nat -> int, k: string, s: Side)
    requires k in bs && k in allowances
    ensures
      var last := LastShare(shares, k);
      On(SharesApplied(bs, allowances, shares, readings)[k], s).max
        == if last.None? then On(bs[k], s).max else FractionOf(LimitOf(allowances[k], s), FractionFor(last.value, s))
  {
    if shares != [] {
      var n := |shares| - 1;
      AppliedCapacity(bs, allowances, shares[..n], readings, k, s);
      hide FractionOf, RefillBoth;
    }
  }

  // In every reachable state each bucket's capacity is the latest share since
  // the last fallback, applied to its allowance, or else the even split.
  lemma {:induction false} CapacityFollowsHistory(st: Replica, allowances: map<string, ModelLimit>, replicas: int, hs: seq<Happening>, k: string, s: Side)
    requires st.buckets.Keys == allowances.Keys && k in allowances
    requires st.failures == 0 && On(st.buckets[k], s).max == Share(LimitOf(allowances[k], s), replicas)
    ensures Run(st, allowances, replicas, hs).failures == Trailing(Outcomes(hs))
    ensures On(Run(st, allowances, replicas, hs).buckets[k], s).max
         == CapacityFor(allowances[k], replicas, LatestShare(Recent(Outcomes(hs)), k), s)
  {
    hide Apply, Report, Trailing, Recent, LatestShare, CapacityFor, LimitOf;
    if hs == [] {
      NoHistory(allowances, replicas, k, s);
    } else {
      var n := |hs| - 1;
      var before := Run(st, allowances, replicas, hs[..n]);
      CapacityFollowsHistory(st, allowances, replicas, hs[..n], k, s);
      var os := Outcomes(hs[..n]);
      if hs[n].Traffic? {
        assert Outcomes(hs) == os + [] == os;
        TrafficStep(before, allowances, replicas, hs[n], k, s);
      } else {
        assert Outcomes(hs) == os + [hs[n].outcome];
        HistoryStep(before, allowances, replicas, os, hs[n].outcome, k, s);
      }
    }
  }

  lemma {:induction false} NoHistory(allowances: map<string, ModelLimit>, replicas: int, k: string, s: Side)
    requires k in allowances
    ensures Trailing([]) == 0 && CapacityFor(allowances[k], replicas, LatestShare(Recent([]), k), s) == Share(LimitOf(allowances[k], s), replicas)
  {
    hide Share;
  }

  lemma {:induction false} TrafficStep(before: Replica, allowances: map<string, ModelLimit>, replicas: int, h: Happening, k: string, s: Side)
    requires before.buckets.Keys == allowances.Keys && k in allowances && h.Traffic?
    ensures
      var after := Next(before, allowances, replicas, h);
      after.failures == before.failures && On(after.buckets[k], s).max == On(before.buckets[k], s).max
  {
    hide Apply;
    if h.key == k && !h.event.op.SetCapacity? {
      TrafficKeepsMax(before.buckets[k], h.event, s);
    }
  }

  lemma {:induction false} HistoryStep(before: Replica, allowances: map<string, ModelLimit>, replicas: int, os: seq<Outcome>, o: Outcome, k: string, s: Side)
    requires before.buckets.Keys == allowances.Keys && k in allowances && before.failures == Trailing(os)
    requires On(before.buckets[k], s).max == CapacityFor(allowances[k], replicas, LatestShare(Recent(os), k), s)
    ensures
      var after := Report(before, allowances, replicas, o);
      && after.failures == Trailing(os + [o])
      && On(after.buckets[k], s).max == CapacityFor(allowances[k], replicas, LatestShare(Recent(os + [o]), k), s)
  {
    hide SharesApplied, Share, FractionOf, EvenSplit;
    assert (os + [o])[..|os|] == os;
    if o.Succeeded? {
      AppliedCapacity(before.buckets, allowances, o.shares, o.readings, k, s);
      assert (Recent(os) + [o.shares])[..|Recent(os)|] == Recent(os);
    } else {
      EvenSplitCapacity(before.buckets[k], allowances[k], replicas, o.clock(k), s);
      if Trailing(os) >= FALLBACK_AFTER_FAILURES {
        LongSilence(os);
      }
    }
  }

  lemma {:induction false} EvenSplitCapacity(b: Bucket, a: ModelLimit, replicas: int, now: int, s: Side)
    ensures On(EvenSplit(b, a, replicas, now), s).max == Share(LimitOf(a, s), replicas)
  {
    hide RefillBoth, Share;
  }

  // At the third failure in a row nothing recent is left.
  lemma {:induction false} LongSilence(os: seq<Outcome>)
    requires Trailing(os) >= FALLBACK_AFTER_FAILURES
    ensures Recent(os) == []
  {
  }

  // Without a success, or after three failures in a row, the even split holds.
  lemma {:induction false} EvenSplitWhenCutOff(st: Replica, allowances: map<string, ModelLimit>, replicas: int, hs: seq<Happening>, k: string, s: Side)
    requires st.buckets.Keys == allowances.Keys && k in allowances
    requires st.failures == 0 && On(st.buckets[k], s).max == Share(LimitOf(allowances[k], s), replicas)
    requires (forall o | o in Outcomes(hs) :: o.Failed?) || Trailing(Outcomes(hs)) >= FALLBACK_AFTER_FAILURES
    ensures On(Run(st, allowances, replicas, hs).buckets[k], s).max == Share(LimitOf(allowances[k], s), replicas)
  {
    CapacityFollowsHistory(st, allowances, replicas, hs, k, s);
    NeverAnswered(Outcomes(hs));
  }

  lemma {:induction false} NeverAnswered(os: seq<Outcome>)
    requires (forall o | o in os :: o.Failed?) || Trailing(os) >= FALLBACK_AFTER_FAILURES
    ensures Recent(os) == []
  {
    if os != [] && Trailing(os) < FALLBACK_AFTER_FAILURES {
      assert os[|os| - 1] in os;
      NeverAnswered(os[..|os| - 1]);
    }
  }

  // A limited bucket is never larger than its allowance nor smaller than 1.
  lemma {:induction false} CapacityInRange(a: ModelLimit, replicas: int, share: Option<TargetShare>, s: Side)
    requires LimitOf(a, s) > 0
    ensures 1 <= CapacityFor(a, replicas, share, s) <= LimitOf(a, s)
  {
    var limit := LimitOf(a, s);
    if share.None? {
      EvenShareInRange(limit, Max(replicas, 1));
    } else {
      var f := FractionFor(share.value, s);
      FractionInRange(limit, if f <= 0.0 || f > 1.0 then 1.0 else f);
    }
  }

  lemma {:induction false} EvenShareInRange(limit: int, n: int)
    requires limit > 0 && n >= 1
    ensures 0 <= limit / n <= limit
  {
    DivBounds(limit, n);
    if limit / n > limit {
      MulMono(1, n, limit / n);
    }
  }

  lemma {:induction false} FractionInRange(limit: int, f: real)
    requires limit > 0 && 0.0 < f <= 1.0
    ensures (limit as real * f).Floor <= limit
  {
    assert limit as real * f <= limit as real * 1.0;
  }

  // ---------- The life of one bucket ----------

  // The calls that applying an answer makes on the bucket of key k.
  function ShareEvents(a: ModelLimit, shares: seq<TargetShare>, readings: nat -> int, k: string): seq<Event> {
    if shares == [] then []
    else
      var n := |shares| - 1;
      ShareEvents(a, shares[..n], readings, k)
      + (if Lower(Trim(shares[n].target)) == k
         then [Event(readings(n), SetCapacity(FractionOf(a.maxRpm, shares[n].rpmFraction), FractionOf(a.maxTpm, shares[n].tpmFraction)))]
         else [])
  }

  // The calls that one happening makes on it, after the given failures.
  function EventsOf(failures: nat, allowances: map<string, ModelLimit>, replicas: int, h: Happening, k: string): seq<Event>
    requires k in allowances
  {
    match h
    case Traffic(key, e) => if key == k && !e.op.SetCapacity? then [e] else []
    case Reported(Failed(clock)) =>
      if failures + 1 == FALLBACK_AFTER_FAILURES
      then [Event(clock(k), SetCapacity(Share(allowances[k].maxRpm, replicas), Share(allowances[k].maxTpm, replicas)))]
      else []
    case Reported(Succeeded(shares, readings)) => ShareEvents(allowances[k], shares, readings, k)
  }

  // All calls on it: traffic, shares and fallbacks, in their order.
  function Life(st: Replica, allowances: map<string, ModelLimit>, replicas: int, hs: seq<Happening>, k: string): seq<Event>
    requires st.buckets.Keys == allowances.Keys && k in allowances
  {
    if hs == [] then []
    else
      var n := |hs| - 1;
      Life(st, allowances, replicas, hs[..n], k)
      + EventsOf(Run(st, allowances, replicas, hs[..n]).failures, allowances, replicas, hs[n], k)
  }

  lemma {:induction false} OneEvent(b: Bucket, e: Event)
    ensures BR.Run(b, [e]) == Apply(b, e).0
  {
    assert [e][1..] == [];
  }

  lemma {:induction false} SharesAreEvents(bs: map<string, Bucket>, allowances: map<string, ModelLimit>, shares: seq<TargetShare>, readings: nat -> int, k: string)
    requires k in bs && k in allowances
    ensures SharesApplied(bs, allowances, shares, readings)[k] == BR.Run(bs[k], ShareEvents(allowances[k], shares, readings, k))
  {
    if shares != [] {
      var n := |shares| - 1;
      var a, before := allowances[k], ShareEvents(allowances[k], shares[..n], readings, k);
      SharesAreEvents(bs, allowances, shares[..n], readings, k);
      hide FractionOf, Apply, BR.Run, Trim, Lower;
      if Lower(Trim(shares[n].target)) == k {
        var e := Event(readings(n), SetCapacity(FractionOf(a.maxRpm, shares[n].rpmFraction), FractionOf(a.maxTpm, shares[n].tpmFraction)));
        BR.RunConcat(bs[k], before, [e]);
        OneEvent(BR.Run(bs[k], before), e);
      } else {
        assert before + [] == before;
      }
    }
  }

  lemma {:induction false} NextIsEvents(st: Replica, allowances: map<string, ModelLimit>, replicas: int, h: Happening, k: string)
    requires st.buckets.Keys == allowances.Keys && k in allowances
    ensures Next(st, allowances, replicas, h).buckets[k] == BR.Run(st.buckets[k], EventsOf(st.failures, allowances, replicas, h, k))
  {
    hide Apply, Share, FractionOf, SharesApplied, ShareEvents, BR.Run;
    match h
    case Traffic(key, e) =>
      OneEvent(st.buckets[k], e);
      NoEvents(st.buckets[k]);
    case Reported(Failed(clock)) =>
      OneEvent(st.buckets[k], Event(clock(k), SetCapacity(Share(allowances[k].maxRpm, replicas), Share(allowances[k].maxTpm, replicas))));
      NoEvents(st.buckets[k]);
    case Reported(Succeeded(shares, readings)) =>
      SharesAreEvents(st.buckets, allowances, shares, readings, k);
  }

  lemma {:induction false} NoEvents(b: Bucket)
    ensures BR.Run(b, []) == b
  {
  }

  // A replica's life, reports and traffic together, is on each bucket one run
  // of that bucket, so everything proved of runs with resizes holds of it.
  lemma {:induction false} LifeIsRun(st: Replica, allowances: map<string, ModelLimit>, replicas: int, hs: seq<Happening>, k: string)
    requires st.buckets.Keys == allowances.Keys && k in allowances
    ensures Run(st, allowances, replicas, hs).buckets[k] == BR.Run(st.buckets[k], Life(st, allowances, replicas, hs, k))
  {
    if hs == [] {
      NoEvents(st.buckets[k]);
    } else {
      var n := |hs| - 1;
      var before := Run(st, allowances, replicas, hs[..n]);
      hide Next, EventsOf, BR.Run;
      LifeIsRun(st, allowances, replicas, hs[..n], k);
      NextIsEvents(before, allowances, replicas, hs[n], k);
      BR.RunConcat(st.buckets[k], Life(st, allowances, replicas, hs[..n], k), EventsOf(before.failures, allowances, replicas, hs[n], k));
    }
  }

  // ---------- Targets without a limit ----------

  lemma {:induction false} SharesKeepUnlimited(a: ModelLimit, shares: seq<TargetShare>, readings: nat -> int, k: string, s: Side)
    requires LimitOf(a, s) <= 0
    ensures BR.KeepsCapacity(ShareEvents(a, shares, readings, k), s, UNLIMITED_CAPACITY)
  {
    if shares != [] {
      SharesKeepUnlimited(a, shares[..|shares| - 1], readings, k, s);
    }
  }

  // Every share and every fallback gives a dimension without a limit the same
  // capacity again.
  lemma {:induction false} LifeKeepsUnlimited(st: Replica, allowances: map<string, ModelLimit>, replicas: int, hs: seq<Happening>, k: string, s: Side)
    requires st.buckets.Keys == allowances.Keys && k in allowances && LimitOf(allowances[k], s) <= 0
    ensures BR.KeepsCapacity(Life(st, allowances, replicas, hs, k), s, UNLIMITED_CAPACITY)
  {
    if hs != [] {
      var n := |hs| - 1;
      LifeKeepsUnlimited(st, allowances, replicas, hs[..n], k, s);
      if hs[n].Reported? && hs[n].outcome.Succeeded? {
        SharesKeepUnlimited(allowances[k], hs[n].outcome.shares, hs[n].outcome.readings, k, s);
      }
      hide Run, ShareEvents, FractionOf;
    }
  }

  // "No limit" is a number too. Over a replica's whole life a dimension without
  // a limit refuses a best-effort request exactly when what everything on it
  // was charged leaves less than the request costs above the reserve.
  lemma {:induction false} UnlimitedLife(st: Replica, allowances: map<string, ModelLimit>, replicas: int, hs: seq<Happening>, k: string, s: Side, now: int, op: Op)
    requires st.buckets.Keys == allowances.Keys && k in allowances && LimitOf(allowances[k], s) <= 0
    requires On(st.buckets[k], s).max == UNLIMITED_CAPACITY && On(st.buckets[k], s).cur <= UNLIMITED_CAPACITY
    requires op.TryAcquireAbove?
    ensures
      var b, life := st.buckets[k], Life(st, allowances, replicas, hs, k);
      Fits(Refill(On(Run(st, allowances, replicas, hs).buckets[k], s), now), op, s) <==>
        BR.Charged(b, life, s) + Cost(op, s) <= On(b, s).cur + BR.WrittenOff(b, life, s) - FloorOf(UNLIMITED_CAPACITY, op.floorPercent)
  {
    LifeIsRun(st, allowances, replicas, hs, k);
    LifeKeepsUnlimited(st, allowances, replicas, hs, k, s);
    BR.RefusedOnceSpent(st.buckets[k], Life(st, allowances, replicas, hs, k), s, now, op);
    hide Life, Run, Fits, FloorOf, Refill, Cost;
  }

  // And it does happen: one call of 10,000,000 tokens a minute, and the next
  // one is refused although the requests are all there.
  lemma {:induction false} UnlimitedRunsOut(a: ModelLimit, replicas: int)
    requires 0 < a.maxRpm && Share(a.maxRpm, replicas) <= MINUTE && a.maxTpm <= 0
    ensures
      var n := 76_965;
      var b := BR.Run(FullShare(a, replicas, 0), BR.OncePerMinute(10_000_000, 30, n));
      var next := TryAcquireAbove(10_000_000, 30);
      && Fits(Refill(b.rpm, n * MINUTE), next, Rpm) && !Fits(Refill(b.tpm, n * MINUTE), next, Tpm)
      && !Apply(b, Event(n * MINUTE, next)).1
  {
    var room := UNLIMITED_CAPACITY - FloorOf(UNLIMITED_CAPACITY, 30);
    assert room / 10_000_000 == 76_965;
    BR.RunsOut(Share(a.maxRpm, replicas), UNLIMITED_CAPACITY, 10_000_000, 30);
    hide BR.Run, BR.OncePerMinute, Refill, Apply;
  }

  // Two shares of a large allowance are enough for a resize to hand out tokens:
  // six tenths and then four tenths of 120e9 per minute.
  lemma {:induction false} ShareHandsOutTokens()
    ensures
      var a := ModelLimit(1, 120_000_000_000);
      var b1 := Resized(FullShare(a, 1, 0), a, TargetShare("t", 1.0, 0.6), 0);
      var b2 := Apply(b1, Event(0, ForceAcquire(72_000_000_000))).0;
      var b3 := Resized(b2, a, TargetShare("t", 1.0, 0.4), 10_000_000_000);
      b3.tpm.cur == 0 && Apply(b3, Event(10_000_000_000, GetAvailable)).0.tpm.cur == 10_000_000_000
  {
    var a := ModelLimit(1, 120_000_000_000);
    assert FractionOf(a.maxTpm, 0.6) == 72_000_000_000;
    assert FractionOf(a.maxTpm, 0.4) == 48_000_000_000;
    var b1 := Resized(FullShare(a, 1, 0), a, TargetShare("t", 1.0, 0.6), 0);
    assert b1.tpm == Dim(72_000_000_000, 72_000_000_000, 0);
    var b2 := Apply(b1, Event(0, ForceAcquire(72_000_000_000))).0;
    assert b2.tpm == Dim(72_000_000_000, 0, 0);
    var b3 := Resized(b2, a, TargetShare("t", 1.0, 0.4), 10_000_000_000);
    assert b3.tpm == Dim(48_000_000_000, 0, 0);
  }

  // ---------- Windows over a replica's life ----------

  lemma {:induction false} ShareCapacities(a: ModelLimit, shares: seq<TargetShare>, readings: nat -> int, k: string, s: Side)
    requires LimitOf(a, s) > 0
    ensures BR.CapacitiesWithin(ShareEvents(a, shares, readings, k), s, 1, LimitOf(a, s))
  {
    if shares != [] {
      var n := |shares| - 1;
      ShareCapacities(a, shares[..n], readings, k, s);
      CapacityInRange(a, 1, Some(shares[n]), s);
      hide FractionOf, Lower, Trim;
    }
  }

  // Every share and every fallback keeps a limited bucket between 1 and its
  // allowance.
  lemma {:induction false} LifeCapacities(st: Replica, allowances: map<string, ModelLimit>, replicas: int, hs: seq<Happening>, k: string, s: Side)
    requires st.buckets.Keys == allowances.Keys && k in allowances && LimitOf(allowances[k], s) > 0
    ensures BR.CapacitiesWithin(Life(st, allowances, replicas, hs, k), s, 1, LimitOf(allowances[k], s))
  {
    if hs != [] {
      var n := |hs| - 1;
      LifeCapacities(st, allowances, replicas, hs[..n], k, s);
      CapacityInRange(allowances[k], replicas, None, s);
      if hs[n].Reported? && hs[n].outcome.Succeeded? {
        ShareCapacities(allowances[k], hs[n].outcome.shares, hs[n].outcome.readings, k, s);
      }
      hide Run, ShareEvents, FractionOf, Share;
    }
  }

  // The windowed admission bound over a replica's whole life, reports and
  // fallbacks included: while its capacity for a target stays between m and the
  // allowance (m = 1 always does, by LifeCapacities), a window of T ns admits
  // at most the allowance, less the reserve of m, and what T and one period at
  // m are worth at the allowance's rate.
  lemma {:induction false} LifeWindow(st: Replica, allowances: map<string, ModelLimit>, replicas: int, hs: seq<Happening>, k: string, s: Side,
                                      before: seq<Event>, win: seq<Event>, t0: int, T: nat, r: int, m: int)
    requires st.buckets.Keys == allowances.Keys && k in allowances && 1 <= m <= LimitOf(allowances[k], s) <= MINUTE
    requires BR.Within(On(st.buckets[k], s), m, LimitOf(allowances[k], s), t0)
    requires Life(st, allowances, replicas, hs, k) == before + win && BR.InOrder(t0, before + win)
    requires m == 1 || BR.CapacitiesWithin(before + win, s, m, LimitOf(allowances[k], s))
    requires BR.ReservesNonNegative(before) && BR.Reserve(win, r) && 0 <= r <= 90
    requires win != [] ==> win[|win| - 1].at - win[0].at <= T
    ensures
      var L := LimitOf(allowances[k], s);
      && Period(L) > 0
      && BR.BestEffortCost(BR.Run(st.buckets[k], before), win, s) <= L - FloorOf(m, r) + (T + Period(m) - 1) / Period(L)
  {
    LifeCapacities(st, allowances, replicas, hs, k, s);
    hide *;
    BR.ResizedWindowBound(st.buckets[k], t0, before, win, T, s, r, m, LimitOf(allowances[k], s));
  }
}
