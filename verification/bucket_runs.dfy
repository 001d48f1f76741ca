// What whole runs of one token bucket guarantee: how refills compose, how much
// best-effort traffic any time window admits, when a debt locks it out, and
// what resizing can and cannot hand out.
module BucketRuns {
  import opened Prelude
  import opened TokenBuckets

  function Run(b: Bucket, es: seq<Event>): Bucket
    decreases |es|
  {
    if es == [] then b else Run(Apply(b, es[0]).0, es[1..])
  }

  // The clock readings never go back, and none precedes t.
  predicate InOrder(t: int, es: seq<Event>)
    decreases |es|
  {
    es == [] || (t <= es[0].at && InOrder(es[0].at, es[1..]))
  }

  predicate FixedCapacity(es: seq<Event>) {
    forall e | e in es :: !e.op.SetCapacity?
  }

  // Every best-effort call in the run uses reserve percentage r.
  predicate Reserve(es: seq<Event>, r: int) {
    forall e | e in es && e.op.TryAcquireAbove? :: e.op.floorPercent == r
  }

  // Best-effort cost admitted by one call, and by a run.
  function Admitted(b: Bucket, e: Event, s: Side): nat {
    if e.op.TryAcquireAbove? && Apply(b, e).1 then Cost(e.op, s) else 0
  }

  function BestEffortCost(b: Bucket, es: seq<Event>, s: Side): nat
    decreases |es|
  {
    if es == [] then 0 else Admitted(b, es[0], s) + BestEffortCost(Apply(b, es[0]).0, es[1..], s)
  }

  lemma {:induction false} RunConcat(b: Bucket, es: seq<Event>, fs: seq<Event>)
    ensures Run(b, es + fs) == Run(Run(b, es), fs)
    decreases |es|
  {
    if es == [] {
      assert es + fs == fs;
    } else {
      assert (es + fs)[1..] == es[1..] + fs;
      RunConcat(Apply(b, es[0]).0, es[1..], fs);
    }
  }

  lemma {:induction false} LastIsLatest(t: int, es: seq<Event>, e: Event)
    requires InOrder(t, es) && e in es
    ensures t <= e.at <= es[|es| - 1].at
    decreases |es|
  {
    if |es| > 1 {
      if e == es[0] {
        LastIsLatest(es[0].at, es[1..], es[1]);
      } else {
        LastIsLatest(es[0].at, es[1..], e);
      }
    }
  }

  // ---------- Refills ----------

  lemma {:induction false} GainCompose(d: Dim, a: nat, b: nat)
    ensures Gain(Gain(d, a), b) == Gain(d, a + b)
  {
    var p := Period(d.max);
    assert (a + b) * p == a * p + b * p;
  }

  // What a first refill leaves to earn by a second instant.
  lemma {:induction false} UnitsAfter(d: Dim, t1: int, t2: int)
    ensures Units(Refill(d, t1), t2) == Max(Units(d, t2) - Units(d, t1), 0)
  {
    var n, k := Period(d.max), Units(d, t1);
    if k > 0 {
      DivShift(t2 - d.last, n, k);
      assert t2 - Refill(d, t1).last == (t2 - d.last) - k * n;
      DivAtLeast(t2 - d.last, n, k);
      DivAtLeast(t2 - d.last - k * n, n, 1);
      if t2 <= d.last {
        MulMono(0, k, n);
      }
    }
  }

  // Refilling twice, in either order of the two instants, is refilling once at
  // the later one: no polling pattern gains or loses balance or leftover time.
  lemma {:induction false} RefillCompose(d: Dim, t1: int, t2: int)
    ensures Refill(Refill(d, t1), t2) == Refill(d, Max(t1, t2))
  {
    UnitsAfter(d, t1, t2);
    GainCompose(d, Units(d, t1), Units(Refill(d, t1), t2));
    UnitsMono(d, Min(t1, t2), Max(t1, t2));
  }

  lemma {:induction false} UnitsMono(d: Dim, t1: int, t2: int)
    requires t1 <= t2
    ensures Units(d, t1) <= Units(d, t2)
  {
    if Period(d.max) > 0 && t1 > d.last {
      DivMono(t1 - d.last, t2 - d.last, Period(d.max));
    }
  }

  function RefillAll(d: Dim, ts: seq<int>): Dim
    decreases |ts|
  {
    if ts == [] then d else RefillAll(Refill(d, ts[0]), ts[1..])
  }

  function Latest(ts: seq<int>): int
    requires ts != []
  {
    if |ts| == 1 then ts[0] else Max(ts[0], Latest(ts[1..]))
  }

  // Any sequence of refills, in any order, equals one refill at the latest time.
  lemma {:induction false} RefillsCollapse(d: Dim, ts: seq<int>)
    requires ts != []
    ensures RefillAll(d, ts) == Refill(d, Latest(ts))
    decreases |ts|
  {
    if |ts| > 1 {
      RefillsCollapse(Refill(d, ts[0]), ts[1..]);
      RefillCompose(d, ts[0], Latest(ts[1..]));
    }
  }

  function NewMax(op: Op, s: Side): int
    requires op.SetCapacity?
  {
    if s.Rpm? then op.maxRPM else op.maxTPM
  }

  // ---------- Runs at fixed capacity ----------

  // A dimension at a capacity that refills, with its debt within the cap.
  predicate Steady(d: Dim, now: int) {
    1 <= d.max <= MINUTE && -d.max <= d.cur <= d.max && d.last <= now
  }

  lemma {:induction false} PeriodPositive(max: int)
    requires 1 <= max <= MINUTE
    ensures 1 <= Period(max) && Period(max) * max <= MINUTE < Period(max) * max + max
  {
    DivAtLeast(MINUTE, max, 1);
  }

  lemma {:induction false} FloorBelow(max: int, r: int)
    requires 0 <= max && 0 <= r <= 90
    ensures 0 <= FloorOf(max, r) <= max
    ensures max > 0 ==> FloorOf(max, r) < max
  {
  }

  // Since the last refill less than one period is left over.
  lemma {:induction false} Leftover(d: Dim, now: int)
    requires Period(d.max) > 0 && d.last <= now
    ensures Refill(d, now).last <= now < Refill(d, now).last + Period(d.max)
    ensures Units(d, now) == (now - d.last) / Period(d.max)
  {
    DivBounds(now - d.last, Period(d.max));
    if now == d.last {
      DivUnique(0, Period(d.max), 0);
    } else if (now - d.last) / Period(d.max) < 0 {
      DivAtLeast(now - d.last, Period(d.max), 0);
    }
  }

  lemma {:induction false} StepAccounts(b: Bucket, e: Event, s: Side)
    requires Steady(On(b, s), e.at) && !e.op.SetCapacity?
    requires e.op.TryAcquireAbove? ==> e.op.floorPercent >= 0
    ensures
      var d, d' := On(b, s), On(Apply(b, e).0, s);
      && d'.max == d.max && Steady(d', e.at)
      && d'.last == Refill(d, e.at).last
      && d'.cur + Admitted(b, e, s) <= d.cur + Units(d, e.at)
      && (e.op.TryAcquireAbove? && Apply(b, e).1 ==> d'.cur >= FloorOf(d.max, e.op.floorPercent))
  {
    var d := On(b, s);
    PeriodPositive(d.max);
    Leftover(d, e.at);
    if e.op.TryAcquireAbove? {
      FloorNonNegative(d.max, e.op.floorPercent);
    }
  }

  lemma {:induction false} FloorNonNegative(max: int, percent: int)
    requires 0 <= max && 0 <= percent
    ensures 0 <= FloorOf(max, percent)
  {
    MulMono(0, max, percent);
  }

  // Everything a dimension can still hand out by time t, before capping.
  function Supply(d: Dim, t: int): int {
    d.cur + Units(d, t)
  }

  lemma {:induction false} SupplyBound(b: Bucket, es: seq<Event>, s: Side, r: int, from: int, t: int)
    requires Steady(On(b, s), from) && InOrder(from, es) && FixedCapacity(es) && Reserve(es, r) && r >= 0
    requires forall e | e in es :: e.at <= t
    ensures BestEffortCost(b, es, s) == 0
         || BestEffortCost(b, es, s) <= Supply(On(b, s), t) - FloorOf(On(b, s).max, r)
    decreases |es|
  {
    if es != [] {
      var e, b' := es[0], Apply(b, es[0]).0;
      var d, d' := On(b, s), On(Apply(b, es[0]).0, s);
      assert e in es;
      StepAccounts(b, e, s);
      assert forall f | f in es[1..] :: f in es;
      SupplyBound(b', es[1..], s, r, e.at, t);
      UnitsAfter(d, e.at, t);
      UnitsMono(d, e.at, t);
      assert Units(d', t) == Units(Refill(d, e.at), t);
      hide Apply, Refill, FloorOf, Admitted, Units, Period;
    }
  }

  lemma {:induction false} SteadyRun(b: Bucket, es: seq<Event>, s: Side, from: int, r: int)
    requires Steady(On(b, s), from) && InOrder(from, es) && FixedCapacity(es) && Reserve(es, r) && r >= 0
    ensures On(Run(b, es), s).max == On(b, s).max
    ensures Steady(On(Run(b, es), s), if es == [] then from else es[|es| - 1].at)
    decreases |es|
  {
    if es != [] {
      StepAccounts(b, es[0], s);
      SteadyRun(Apply(b, es[0]).0, es[1..], s, es[0].at, r);
    }
  }

  function CeilDiv(x: int, n: int): int
    requires n > 0
  {
    (x + n - 1) / n
  }

  lemma {:induction false} RefillFirst(b: Bucket, es: seq<Event>, s: Side)
    requires es != []
    ensures Run(RefillBoth(b, es[0].at), es) == Run(b, es)
    ensures BestEffortCost(RefillBoth(b, es[0].at), es, s) == BestEffortCost(b, es, s)
  {
    RefillCompose(b.rpm, es[0].at, es[0].at);
    RefillCompose(b.tpm, es[0].at, es[0].at);
  }

  lemma {:induction false} SupplyAfterRefill(d: Dim, at: int, T: int)
    requires Steady(d, at) && T >= 0
    ensures Period(d.max) > 0
    ensures Supply(Refill(d, at), at + T) <= d.max + CeilDiv(T, Period(d.max))
    ensures CeilDiv(T, Period(d.max)) >= 0
  {
    PeriodPositive(d.max);
    Leftover(d, at);
    var d', n := Refill(d, at), Period(d.max);
    Leftover(d', at + T);
    DivMono(at + T - d'.last, T + n - 1, n);
    DivAtLeast(T + n - 1, n, 0);
  }

  // A window that starts in a given state.
  lemma {:induction false} WindowFrom(b: Bucket, win: seq<Event>, T: int, s: Side, r: int)
    requires win != [] && Steady(On(b, s), win[0].at) && InOrder(win[0].at, win)
    requires FixedCapacity(win) && Reserve(win, r) && 0 <= r <= 90
    requires win[|win| - 1].at - win[0].at <= T
    ensures Period(On(b, s).max) > 0
    ensures BestEffortCost(b, win, s)
         <= On(b, s).max - FloorOf(On(b, s).max, r) + CeilDiv(T, Period(On(b, s).max))
  {
    var at := win[0].at;
    LastIsLatest(at, win, win[0]);
    RefillFirst(b, win, s);
    StepAccounts(b, Event(at, GetAvailable), s);
    forall e | e in win ensures e.at <= at + T {
      LastIsLatest(at, win, e);
    }
    SupplyBound(RefillBoth(b, at), win, s, r, at, at + T);
    SupplyAfterRefill(On(b, s), at, T);
    FloorBelow(On(b, s).max, r);
  }

  lemma {:induction false} InOrderConcat(t: int, es: seq<Event>, fs: seq<Event>)
    requires InOrder(t, es + fs)
    ensures InOrder(t, es)
    ensures fs != [] ==> InOrder(fs[0].at, fs)
    ensures fs != [] ==> (if es == [] then t else es[|es| - 1].at) <= fs[0].at
    decreases |es|
  {
    if es == [] {
      assert es + fs == fs;
    } else {
      assert (es + fs)[1..] == es[1..] + fs;
      InOrderConcat(es[0].at, es[1..], fs);
    }
  }

  // The windowed admission bound: in every run at fixed capacities from a state
  // whose debt is within the cap, the best-effort cost that any window of T ns
  // admits is at most the capacity above the reserve plus one unit for every
  // refill period started in T.
  lemma {:induction false} WindowBound(b: Bucket, t0: int, before: seq<Event>, win: seq<Event>, T: nat, s: Side, r: int)
    requires Steady(On(b, s), t0) && 0 <= r <= 90
    requires InOrder(t0, before + win)
    requires FixedCapacity(before) && FixedCapacity(win) && Reserve(before, r) && Reserve(win, r)
    requires win != [] ==> win[|win| - 1].at - win[0].at <= T
    ensures Period(On(b, s).max) > 0
    ensures BestEffortCost(Run(b, before), win, s)
         <= On(b, s).max - FloorOf(On(b, s).max, r) + CeilDiv(T, Period(On(b, s).max))
  {
    InOrderConcat(t0, before, win);
    SteadyRun(b, before, s, t0, r);
    if win == [] {
      SupplyAfterRefill(On(b, s), t0, T);
      FloorBelow(On(b, s).max, r);
    } else {
      WindowFrom(Run(b, before), win, T, s, r);
    }
  }

  // One minute is worth at least C units and at most what C - 1 further
  // nanoseconds add to them, n being the whole number of nanoseconds per unit:
  // the price of integer division. In particular it is below C + C/n + 1.
  lemma {:induction false} MinuteCredit(C: int)
    requires 1 <= C <= MINUTE
    ensures Period(C) >= 1
    ensures C <= CeilDiv(MINUTE, Period(C)) <= C + CeilDiv(C - 1, Period(C))
    ensures Period(C) * CeilDiv(MINUTE, Period(C)) < Period(C) * C + C + Period(C)
  {
    PeriodPositive(C);
    var n := Period(C);
    DivMono(MINUTE + n - 1, n * C + (C - 1) + n - 1, n);
    DivShift(n * C + (C - 1) + n - 1, n, C);
    assert n * C + (C - 1) + n - 1 - C * n == (C - 1) + n - 1;
    DivAtLeast(MINUTE + n - 1, n, C);
    DivBounds(MINUTE + n - 1, n);
  }

  // ---------- Lockout ----------

  // The balance covers need, or elapsed time has covered what it lacks. A
  // dimension that never refills has only its balance.
  predicate DueBy(d: Dim, need: int, now: int) {
    d.cur >= need || (Period(d.max) > 0 && need <= d.max && now >= d.last + (need - d.cur) * Period(d.max))
  }

  lemma {:induction false} HoldsWhenDue(d: Dim, need: int, now: int)
    requires d.cur <= d.max || need <= d.max
    ensures Refill(d, now).cur >= need <==> DueBy(d, need, now)
  {
    var n, lack := Period(d.max), need - d.cur;
    if lack > 0 && n > 0 {
      MulMono(1, lack, n);
      DivAtLeast(now - d.last, n, lack);
    }
  }

  // The exact instant from which best-effort traffic is admitted again,
  // dimension by dimension.
  lemma {:induction false} AdmittedWhenDue(b: Bucket, now: int, tokens: int, r: int)
    requires b.rpm.cur <= b.rpm.max && b.tpm.cur <= b.tpm.max
    ensures Apply(b, Event(now, TryAcquireAbove(tokens, r))).1 <==>
      (DueBy(b.rpm, FloorOf(b.rpm.max, r) + 1, now) && DueBy(b.tpm, FloorOf(b.tpm.max, r) + Max(tokens, 0), now))
  {
    HoldsWhenDue(b.rpm, FloorOf(b.rpm.max, r) + 1, now);
    HoldsWhenDue(b.tpm, FloorOf(b.tpm.max, r) + Max(tokens, 0), now);
    assert Refill(b.rpm, now).max == b.rpm.max && Refill(b.tpm, now).max == b.tpm.max;
    hide Refill, DueBy, FloorOf;
  }

  // Only reads and refused calls: nothing competes for the balance.
  predicate Quiet(b: Bucket, es: seq<Event>)
    decreases |es|
  {
    es == [] ||
    (&& (es[0].op.GetAvailable? || ((es[0].op.TryAcquire? || es[0].op.TryAcquireAbove?) && !Apply(b, es[0]).1))
     && Quiet(Apply(b, es[0]).0, es[1..]))
  }

  lemma {:induction false} QuietOnlyRefills(b: Bucket, es: seq<Event>, now: int)
    requires Quiet(b, es) && forall e | e in es :: e.at <= now
    ensures RefillBoth(Run(b, es), now) == RefillBoth(b, now)
    decreases |es|
  {
    if es != [] {
      assert es[0] in es;
      assert forall e | e in es[1..] :: e in es;
      QuietOnlyRefills(Apply(b, es[0]).0, es[1..], now);
      RefillCompose(b.rpm, es[0].at, now);
      RefillCompose(b.tpm, es[0].at, now);
    }
  }

  lemma {:induction false} DebtRepaid(d: Dim, from: int, need: int, now: int)
    requires Steady(d, from) && need <= d.max && now >= from + 2 * MINUTE
    ensures DueBy(d, need, now)
  {
    PeriodPositive(d.max);
    if d.cur < need {
      MulMono(need - d.cur, 2 * d.max, Period(d.max));
      assert 2 * d.max * Period(d.max) == 2 * (Period(d.max) * d.max);
    }
  }

  // Resizes, if any, never take capacity away.
  predicate NeverShrinks(rpm: int, tpm: int, es: seq<Event>)
    decreases |es|
  {
    es == [] ||
    (match es[0].op
     case SetCapacity(r, t) => rpm <= r && tpm <= t && NeverShrinks(r, t, es[1..])
     case _ => NeverShrinks(rpm, tpm, es[1..]))
  }

  predicate ReservesNonNegative(es: seq<Event>) {
    forall e | e in es && e.op.TryAcquireAbove? :: e.op.floorPercent >= 0
  }

  // Resizes never take away capacity of one dimension, and keep it refilling.
  predicate Grows(max: int, es: seq<Event>, s: Side)
    decreases |es|
  {
    es == [] ||
    (if es[0].op.SetCapacity? then max <= NewMax(es[0].op, s) <= MINUTE && Grows(NewMax(es[0].op, s), es[1..], s)
     else Grows(max, es[1..], s))
  }

  lemma {:induction false} GrowthStep(b: Bucket, e: Event, s: Side)
    requires e.op.SetCapacity? && Steady(On(b, s), e.at)
    requires On(b, s).max <= NewMax(e.op, s) <= MINUTE
    ensures Steady(On(Apply(b, e).0, s), e.at) && On(Apply(b, e).0, s).max == NewMax(e.op, s)
  {
    PeriodPositive(On(b, s).max);
    Leftover(On(b, s), e.at);
  }

  lemma {:induction false} SteadyGrowth(b: Bucket, es: seq<Event>, s: Side, from: int)
    requires Steady(On(b, s), from) && InOrder(from, es)
    requires Grows(On(b, s).max, es, s) && ReservesNonNegative(es)
    ensures Steady(On(Run(b, es), s), if es == [] then from else es[|es| - 1].at)
    decreases |es|
  {
    if es != [] {
      var e, b' := es[0], Apply(b, es[0]).0;
      assert e in es;
      assert forall f | f in es[1..] :: f in es;
      if e.op.SetCapacity? {
        GrowthStep(b, e, s);
      } else {
        StepAccounts(b, e, s);
      }
      hide Apply, Steady;
      SteadyGrowth(b', es[1..], s, e.at);
    }
  }

  // After es, one dimension has what a best-effort call needs, or it refills,
  // the need fits it, and no resize has taken capacity away.
  predicate Recovers(b: Bucket, es: seq<Event>, s: Side, t0: int, op: Op)
    requires op.TryAcquireAbove?
  {
    var d := On(Run(b, es), s);
    var need := FloorOf(d.max, op.floorPercent) + Cost(op, s);
    && d.cur <= d.max
    && (d.cur >= need || (Steady(On(b, s), t0) && Grows(On(b, s).max, es, s) && need <= d.max))
  }

  lemma {:induction false} RecoveredInTime(b: Bucket, es: seq<Event>, s: Side, t0: int, t: int, now: int, op: Op)
    requires op.TryAcquireAbove? && InOrder(t0, es) && ReservesNonNegative(es) && Recovers(b, es, s, t0, op)
    requires t == if es == [] then t0 else es[|es| - 1].at
    requires now >= t + 2 * MINUTE
    ensures
      var d := On(Run(b, es), s);
      DueBy(d, FloorOf(d.max, op.floorPercent) + Cost(op, s), now)
  {
    var d := On(Run(b, es), s);
    var need := FloorOf(d.max, op.floorPercent) + Cost(op, s);
    if d.cur < need {
      SteadyGrowth(b, es, s, t0);
      DebtRepaid(d, t, need, now);
    }
  }

  // The lockout bound: whatever was acquired or forced before instant t, a
  // best-effort request that each dimension can cover is admitted at every
  // instant from t + 120 s on, however often it was refused or polled between.
  // A dimension that refills covers any debt that no resize has cut off; one
  // that does not (a target without that limit) must have the balance.
  lemma {:induction false} LockoutBound(b: Bucket, t0: int, es: seq<Event>, quiet: seq<Event>, t: int, now: int, tokens: int, r: int)
    requires InOrder(t0, es) && ReservesNonNegative(es)
    requires forall s: Side :: Recovers(b, es, s, t0, TryAcquireAbove(tokens, r))
    requires t == if es == [] then t0 else es[|es| - 1].at
    requires Quiet(Run(b, es), quiet)
    requires forall e | e in quiet :: e.at <= now
    requires now >= t + 2 * MINUTE
    ensures Apply(Run(Run(b, es), quiet), Event(now, TryAcquireAbove(tokens, r))).1
  {
    var after, op := Run(b, es), TryAcquireAbove(tokens, r);
    assert Recovers(b, es, Rpm, t0, op) && Recovers(b, es, Tpm, t0, op);
    RecoveredInTime(b, es, Rpm, t0, t, now, op);
    RecoveredInTime(b, es, Tpm, t0, t, now, op);
    QuietOnlyRefills(after, quiet, now);
    AdmittedWhenDue(after, now, tokens, r);
    hide Run, Recovers, DueBy;
  }

  // A shrinking resize leaves the old debt to the new, slower refill: here the
  // request is refused long after 120 s. AdmittedWhenDue has the exact instant.
  lemma {:induction false} LockoutAfterShrink()
    ensures
      var es := [Event(0, ForceAcquire(2000)), Event(0, SetCapacity(10, 10))];
      var b := Run(NewBucket(10, 1000, 0), es);
      && Max(1, 0) <= b.tpm.max - FloorOf(b.tpm.max, 30)
      && !Apply(b, Event(50 * MINUTE, TryAcquireAbove(1, 30))).1
  {
    var e0, e1 := Event(0, ForceAcquire(2000)), Event(0, SetCapacity(10, 10));
    assert [e0, e1][1..] == [e1] && [e1][1..] == [];
    var b1 := Apply(NewBucket(10, 1000, 0), e0).0;
    assert b1.tpm == Dim(1000, -1000, 0);
    var b2 := Apply(b1, e1).0;
    assert b2.tpm == Dim(10, -1000, 0);
    assert Run(NewBucket(10, 1000, 0), [e0, e1]) == Run(b1, [e1]) == Run(b2, []) == b2;
  }

  // ---------- One call, in numbers ----------

  // What a balance at the reserve floor means: percent hundredths of the
  // capacity, rounded toward zero.
  lemma {:induction false} AboveFloorIff(x: int, max: int, percent: int)
    ensures x >= FloorOf(max, percent) <==>
      (if max * percent >= 0 then 100 * (x + 1) > max * percent else 100 * x >= max * percent)
  {
    DivBounds(max * percent, 100);
    DivBounds(-(max * percent), 100);
  }

  // A refill pays whole periods of floor(60e9 / capacity) nanoseconds, one unit
  // each, and leaves less than one period over.
  lemma {:induction false} RefillInNumbers(d: Dim, now: int) returns (units: nat, period: nat)
    requires 1 <= d.max <= 60_000_000_000 && d.cur <= d.max && d.last <= now
    ensures period * d.max <= 60_000_000_000 < (period + 1) * d.max
    ensures Refill(d, now) == Dim(d.max, Min(d.max, d.cur + units), d.last + units * period)
    ensures now - period < d.last + units * period <= now
  {
    units, period := Units(d, now), Period(d.max);
    PeriodPositive(d.max);
    Leftover(d, now);
  }

  // Best-effort traffic is admitted exactly when one request and its tokens
  // leave the reserve of either capacity whole; it then takes just that.
  lemma {:induction false} AdmittedIff(b: Bucket, t: int, tokens: int, percent: int)
    requires 0 <= b.rpm.max && 0 <= b.tpm.max && 0 <= percent
    ensures
      var (rpm, tpm) := (Refill(b.rpm, t), Refill(b.tpm, t));
      var (b', ok) := Apply(b, Event(t, TryAcquireAbove(tokens, percent)));
      && (ok <==> 100 * rpm.cur > b.rpm.max * percent
                  && 100 * (tpm.cur - Max(tokens, 0) + 1) > b.tpm.max * percent)
      && b' == (if ok then Bucket(rpm.(cur := rpm.cur - 1), tpm.(cur := tpm.cur - Max(tokens, 0))) else Bucket(rpm, tpm))
  {
    var (rpm, tpm) := (Refill(b.rpm, t), Refill(b.tpm, t));
    assert rpm.max == b.rpm.max && tpm.max == b.tpm.max;
    AboveFloorIff(rpm.cur - 1, b.rpm.max, percent);
    AboveFloorIff(tpm.cur - Max(tokens, 0), b.tpm.max, percent);
    MulMono(0, b.rpm.max, percent);
    MulMono(0, b.tpm.max, percent);
    hide Refill, FloorOf;
  }

  // Critical traffic always takes its request and its tokens, stops at a debt
  // of one capacity, and says whether the balances covered it.
  lemma {:induction false} ForcedIs(b: Bucket, t: int, tokens: int)
    ensures
      var (rpm, tpm) := (Refill(b.rpm, t), Refill(b.tpm, t));
      var (b', fitted) := Apply(b, Event(t, ForceAcquire(tokens)));
      && (fitted <==> rpm.cur >= 1 && tpm.cur >= tokens && tpm.cur >= 0)
      && b'.rpm == rpm.(cur := Max(rpm.cur - 1, -b.rpm.max))
      && b'.tpm == tpm.(cur := Max(if tokens > 0 then tpm.cur - tokens else tpm.cur, -b.tpm.max))
  {
    var (rpm, tpm) := (Refill(b.rpm, t), Refill(b.tpm, t));
    assert rpm.max == b.rpm.max && tpm.max == b.tpm.max;
    hide Refill;
  }

  // ---------- The reserve ----------

  // Runs that only read or take best-effort traffic at reserve r.
  predicate Protected(es: seq<Event>, r: int) {
    forall e | e in es :: e.op.GetAvailable? || (e.op.TryAcquireAbove? && e.op.floorPercent == r)
  }

  predicate ReserveHeld(d: Dim, r: int) {
    FloorOf(d.max, r) <= d.cur <= d.max
  }

  lemma {:induction false} ReserveKept(b: Bucket, es: seq<Event>, s: Side, r: int)
    requires ReserveHeld(On(b, s), r) && Protected(es, r)
    ensures ReserveHeld(On(Run(b, es), s), r) && On(Run(b, es), s).max == On(b, s).max
    ensures On(b, s).max * r >= 0 ==> 100 * (On(Run(b, es), s).cur + 1) > On(b, s).max * r
    decreases |es|
  {
    if es == [] {
      AboveFloorIff(On(b, s).cur, On(b, s).max, r);
    } else {
      assert es[0] in es;
      ReserveKept(Apply(b, es[0]).0, es[1..], s, r);
      assert On(Apply(b, es[0]).0, s).max == On(b, s).max;
    }
  }

  // A critical call the balances cover reports a fit and uses up what it costs.
  lemma {:induction false} CoveredFits(b: Bucket, t: int, tokens: int, calls: nat, total: nat)
    requires b.rpm.cur <= b.rpm.max && b.tpm.cur <= b.tpm.max
    requires b.rpm.cur >= calls + 1 && b.tpm.cur >= Max(tokens, 0) + total
    ensures
      var (b', fits) := Apply(b, Event(t, ForceAcquire(tokens)));
      && fits
      && calls <= b'.rpm.cur <= b'.rpm.max && total <= b'.tpm.cur <= b'.tpm.max
  {
  }

  // A resize keeps the reserve exactly when the refilled balance covers the
  // floor of the new capacity: growing raises the floor, but not the balance.
  lemma {:induction false} ResizeKeepsReserveIff(b: Bucket, e: Event, s: Side, r: int)
    requires e.op.SetCapacity? && NewMax(e.op, s) >= 0 && 0 <= r <= 90
    ensures ReserveHeld(On(Apply(b, e).0, s), r) <==> Refill(On(b, s), e.at).cur >= FloorOf(NewMax(e.op, s), r)
  {
    FloorBelow(NewMax(e.op, s), r);
  }

  // ---------- Resizing ----------

  predicate CapacitiesNonNegative(es: seq<Event>) {
    forall e | e in es && e.op.SetCapacity? :: e.op.maxRPM >= 0 && e.op.maxTPM >= 0
  }

  lemma {:induction false} NeverAboveCapacity(b: Bucket, es: seq<Event>, s: Side)
    requires 0 <= On(b, s).max && On(b, s).cur <= On(b, s).max && CapacitiesNonNegative(es)
    ensures 0 <= On(Run(b, es), s).max && On(Run(b, es), s).cur <= On(Run(b, es), s).max
    decreases |es|
  {
    if es != [] {
      assert es[0] in es;
      NeverAboveCapacity(Apply(b, es[0]).0, es[1..], s);
    }
  }

  lemma {:induction false} PeriodIff(max: int)
    ensures Period(max) > 0 <==> 1 <= max <= MINUTE
  {
    if 1 <= max <= MINUTE {
      PeriodPositive(max);
    } else if max > MINUTE {
      DivUnique(MINUTE, max, 0);
    }
  }

  // The units that dt ns after a resize may be worth: what less than one period
  // at the old rate leaves over, and dt itself, both at the new rate.
  function CreditAllowed(oldMax: int, newMax: int, dt: nat): int {
    if Period(newMax) == 0 then 0 else (Max(Period(oldMax) - 1, 0) + dt) / Period(newMax)
  }

  // A resize keeps the leftover refill time and revalues it at the new rate;
  // beyond that it only ever takes balance away. This needs an old capacity
  // that refills (or time that has not moved): see ResizeCreditIff.
  lemma {:induction false} ResizeHandsOutNothing(b: Bucket, e: Event, s: Side, dt: nat)
    requires e.op.SetCapacity?
    ensures
      var d, d' := On(b, s), On(Apply(b, e).0, s);
      && d'.max == NewMax(e.op, s) && d'.cur == Min(Refill(d, e.at).cur, d'.max)
      && (1 <= d.max <= MINUTE || !(1 <= d'.max <= MINUTE) || e.at <= d.last ==>
            Units(d', e.at + dt) <= CreditAllowed(d.max, d'.max, dt))
  {
    var d, d' := On(b, s), On(Apply(b, e).0, s);
    PeriodIff(d.max);
    PeriodIff(d'.max);
    if Period(d'.max) > 0 && (Period(d.max) > 0 || e.at <= d.last) {
      if d.last <= e.at && Period(d.max) > 0 {
        Leftover(d, e.at);
      }
      DivMono(e.at + dt - d'.last, Max(Period(d.max) - 1, 0) + dt, Period(d'.max));
      DivAtLeast(Max(Period(d.max) - 1, 0) + dt, Period(d'.max), 0);
    }
  }

  // From a capacity that never refills, a resize counts all the time since the
  // last refill. The bound then holds at the instant of the resize exactly when
  // that time is short of one new period, and at every later instant exactly
  // when it is nothing.
  lemma {:induction false} ResizeCreditIff(b: Bucket, e: Event, s: Side)
    requires e.op.SetCapacity?
    ensures
      var d, d' := On(b, s), On(Apply(b, e).0, s);
      && (Units(d', e.at) <= CreditAllowed(d.max, d'.max, 0) <==>
            (1 <= d.max <= MINUTE || !(1 <= d'.max <= MINUTE) || e.at - d.last < Period(d'.max)))
      && ((forall dt: nat :: Units(d', e.at + dt) <= CreditAllowed(d.max, d'.max, dt)) <==>
            (1 <= d.max <= MINUTE || !(1 <= d'.max <= MINUTE) || e.at <= d.last))
  {
    var d, d' := On(b, s), On(Apply(b, e).0, s);
    PeriodIff(d.max);
    PeriodIff(d'.max);
    ResizeHandsOutNothing(b, e, s, 0);
    if 1 <= d.max <= MINUTE || !(1 <= d'.max <= MINUTE) || e.at <= d.last {
      forall dt: nat ensures Units(d', e.at + dt) <= CreditAllowed(d.max, d'.max, dt) {
        ResizeHandsOutNothing(b, e, s, dt);
      }
    } else {
      var n := Period(d'.max);
      assert d'.last == d.last;
      DivAtLeast(e.at - d.last, n, 1);
      DivAtLeast(e.at + (n - 1) - d.last, n, 1);
      DivUnique(n - 1, n, 0);
      DivUnique(0, n, 0);
      assert Units(d', e.at + (n - 1)) > CreditAllowed(d.max, d'.max, n - 1);
    }
  }

  // A run in which a resize hands out tokens: an empty bucket above 60e9 per
  // minute is shrunk to 48e9 after 10 s and is then found to hold 10e9.
  lemma {:induction false} ResizeHandsOutTokens()
    ensures
      var es := [Event(0, ForceAcquire(72_000_000_000)), Event(10_000_000_000, SetCapacity(1, 48_000_000_000))];
      var b := Run(NewBucket(1, 72_000_000_000, 0), es);
      && b.tpm.cur == 0
      && Apply(b, Event(10_000_000_000, GetAvailable)).0.tpm.cur == 10_000_000_000
  {
    var e0, e1 := Event(0, ForceAcquire(72_000_000_000)), Event(10_000_000_000, SetCapacity(1, 48_000_000_000));
    assert [e0, e1][1..] == [e1] && [e1][1..] == [];
    var b1 := Apply(NewBucket(1, 72_000_000_000, 0), e0).0;
    assert b1.tpm == Dim(72_000_000_000, 0, 0);
    var b2 := Apply(b1, e1).0;
    assert b2.tpm == Dim(48_000_000_000, 0, 0);
    assert Run(NewBucket(1, 72_000_000_000, 0), [e0, e1]) == Run(b1, [e1]) == Run(b2, []) == b2;
  }

  // Units credited, cost charged (critical traffic at its full price), and
  // debt written off by the cap on critical debt.
  function Earned(b: Bucket, es: seq<Event>, s: Side): nat
    decreases |es|
  {
    if es == [] then 0 else Units(On(b, s), es[0].at) + Earned(Apply(b, es[0]).0, es[1..], s)
  }

  function Charged(b: Bucket, es: seq<Event>, s: Side): nat
    decreases |es|
  {
    if es == [] then 0
    else (if es[0].op.ForceAcquire? || Apply(b, es[0]).1 then Cost(es[0].op, s) else 0)
         + Charged(Apply(b, es[0]).0, es[1..], s)
  }

  function WrittenOff(b: Bucket, es: seq<Event>, s: Side): nat
    decreases |es|
  {
    if es == [] then 0
    else (if es[0].op.ForceAcquire?
          then Max(Cost(es[0].op, s) - Refill(On(b, s), es[0].at).cur - On(b, s).max, 0)
          else 0)
         + WrittenOff(Apply(b, es[0]).0, es[1..], s)
  }

  // The ledger of any run, resizes included: what was charged plus what is left
  // never exceeds what there was plus what time and the debt cap supplied.
  lemma {:induction false} LedgerBalances(b: Bucket, es: seq<Event>, s: Side)
    ensures On(Run(b, es), s).cur + Charged(b, es, s)
         <= On(b, s).cur + Earned(b, es, s) + WrittenOff(b, es, s)
    decreases |es|
  {
    if es != [] {
      LedgerBalances(Apply(b, es[0]).0, es[1..], s);
    }
  }

  // ---------- Windows with resizes ----------

  // A dimension whose capacity lies between m and M.
  predicate Within(d: Dim, m: int, M: int, now: int) {
    m <= d.max <= M && d.cur <= d.max && d.last <= now
  }

  predicate CapacitiesWithin(es: seq<Event>, s: Side, m: int, M: int) {
    forall e | e in es && e.op.SetCapacity? :: m <= NewMax(e.op, s) <= M
  }

  lemma {:induction false} PeriodAntitone(m: int, M: int)
    requires 1 <= m <= M <= MINUTE
    ensures 1 <= Period(M) <= Period(m)
  {
    PeriodPositive(m);
    PeriodPositive(M);
    if Period(m) < Period(M) {
      MulMono(Period(m) + 1, Period(M), m);
      MulMono(m, M, Period(M));
    }
  }

  lemma {:induction false} FloorMono(m: int, max: int, r: int)
    requires 0 <= m <= max && r >= 0
    ensures 0 <= FloorOf(m, r) <= FloorOf(max, r)
  {
    FloorNonNegative(m, r);
    MulMono(m, max, r);
    MulMono(0, m, r);
    DivMono(m * r, max * r, 100);
  }

  // The time that a number of periods takes.
  function Span(periods: nat, period: nat): nat {
    periods * period
  }

  // One call: it admits no more than the balance above zero and the units it
  // credits (a debt never adds to that), and time pays for these units.
  lemma {:induction false} StepWithin(b: Bucket, e: Event, s: Side, m: int, M: int)
    requires 1 <= m <= M <= MINUTE && Within(On(b, s), m, M, e.at)
    requires e.op.SetCapacity? ==> m <= NewMax(e.op, s) <= M
    requires e.op.TryAcquireAbove? ==> e.op.floorPercent >= 0
    ensures
      var d, d' := On(b, s), On(Apply(b, e).0, s);
      && Within(d', m, M, e.at)
      && d'.last == d.last + Span(Units(d, e.at), Period(d.max))
      && Max(d'.cur, 0) + Admitted(b, e, s) <= Max(d.cur, 0) + Units(d, e.at)
      && (Admitted(b, e, s) > 0 ==> d'.cur >= FloorOf(m, e.op.floorPercent) >= 0)
  {
    var d := On(b, s);
    PeriodPositive(d.max);
    Leftover(d, e.at);
    if e.op.TryAcquireAbove? {
      FloorMono(m, d.max, e.op.floorPercent);
    }
    hide FloorOf, Period;
  }

  lemma {:induction false} AdmittedOp(b: Bucket, e: Event, s: Side)
    ensures Admitted(b, e, s) > 0 ==> e.op.TryAcquireAbove?
  {
  }

  lemma {:induction false} SupplyWithin(b: Bucket, es: seq<Event>, s: Side, r: int, m: int, M: int, from: int)
    requires 1 <= m <= M <= MINUTE && Within(On(b, s), m, M, from) && InOrder(from, es)
    requires CapacitiesWithin(es, s, m, M) && Reserve(es, r) && r >= 0
    ensures BestEffortCost(b, es, s) == 0
         || BestEffortCost(b, es, s) <= Max(On(b, s).cur, 0) + Earned(b, es, s) - FloorOf(m, r)
    decreases |es|
  {
    if es != [] {
      var e, b' := es[0], Apply(b, es[0]).0;
      assert e in es;
      assert forall f | f in es[1..] :: f in es;
      StepWithin(b, e, s, m, M);
      hide Apply, FloorOf, Admitted, Units;
      SupplyWithin(b', es[1..], s, r, m, M, e.at);
      AdmittedOp(b, e, s);
    }
  }

  lemma {:induction false} UnitsPaid(first: nat, later: nat, fast: nat, slow: nat, rest: int)
    requires fast <= slow && Span(later, fast) <= rest
    ensures Span(first + later, fast) <= Span(first, slow) + rest
  {
    MulMono(fast, slow, first);
    assert (first + later) * fast == first * fast + later * fast;
  }

  // Time pays for every credited unit, at the rate of the largest capacity.
  lemma {:induction false} EarnedTakesTime(b: Bucket, es: seq<Event>, s: Side, m: int, M: int, from: int)
    requires 1 <= m <= M <= MINUTE && Within(On(b, s), m, M, from) && InOrder(from, es)
    requires CapacitiesWithin(es, s, m, M) && ReservesNonNegative(es)
    ensures Span(Earned(b, es, s), Period(M)) <= On(Run(b, es), s).last - On(b, s).last
    ensures Within(On(Run(b, es), s), m, M, if es == [] then from else es[|es| - 1].at)
    decreases |es|
  {
    if es != [] {
      var e, b' := es[0], Apply(b, es[0]).0;
      FirstOfMany(b, es, s, m, M);
      StepWithin(b, e, s, m, M);
      PeriodAntitone(On(b, s).max, M);
      hide *;
      EarnedTakesTime(b', es[1..], s, m, M, e.at);
      UnitsPaid(Units(On(b, s), e.at), Earned(b', es[1..], s), Period(M), Period(On(b, s).max), On(Run(b, es), s).last - On(b', s).last);
    }
  }

  // A run is its first call and the run of the rest.
  lemma {:induction false} FirstOfMany(b: Bucket, es: seq<Event>, s: Side, m: int, M: int)
    requires es != [] && CapacitiesWithin(es, s, m, M) && ReservesNonNegative(es)
    ensures Run(b, es) == Run(Apply(b, es[0]).0, es[1..])
    ensures Earned(b, es, s) == Units(On(b, s), es[0].at) + Earned(Apply(b, es[0]).0, es[1..], s)
    ensures es[0].op.SetCapacity? ==> m <= NewMax(es[0].op, s) <= M
    ensures es[0].op.TryAcquireAbove? ==> es[0].op.floorPercent >= 0
    ensures CapacitiesWithin(es[1..], s, m, M) && ReservesNonNegative(es[1..])
    ensures es[1..] != [] ==> es[1..][|es[1..]| - 1] == es[|es| - 1]
  {
    assert es[0] in es;
    assert forall f | f in es[1..] :: f in es;
    hide Apply, Units, NewMax;
  }

  // The windowed admission bound with resizes in the run: with capacities
  // between m and M, a window of T ns admits at most the largest capacity, less
  // the reserve of the smallest, and what T and the leftover of one period at
  // the smallest are worth at the largest rate.
  lemma {:induction false} ResizedWindowBound(b: Bucket, t0: int, before: seq<Event>, win: seq<Event>, T: nat, s: Side, r: int, m: int, M: int)
    requires 1 <= m <= M <= MINUTE && Within(On(b, s), m, M, t0) && 0 <= r <= 90
    requires InOrder(t0, before + win) && CapacitiesWithin(before + win, s, m, M)
    requires ReservesNonNegative(before) && Reserve(win, r)
    requires win != [] ==> win[|win| - 1].at - win[0].at <= T
    ensures Period(M) > 0
    ensures BestEffortCost(Run(b, before), win, s) <= M - FloorOf(m, r) + (T + Period(m) - 1) / Period(M)
  {
    InOrderConcat(t0, before, win);
    assert forall e | e in before || e in win :: e in before + win;
    EarnedTakesTime(b, before, s, m, M, t0);
    PeriodAntitone(m, M);
    FloorBelow(m, r);
    DivAtLeast(T + Period(m) - 1, Period(M), 0);
    if win != [] {
      ResizedWindowFrom(Run(b, before), win, T, s, r, m, M);
    }
  }

  lemma {:induction false} ResizedWindowFrom(b: Bucket, win: seq<Event>, T: nat, s: Side, r: int, m: int, M: int)
    requires 1 <= m <= M <= MINUTE && win != [] && Within(On(b, s), m, M, win[0].at) && 0 <= r <= 90
    requires InOrder(win[0].at, win) && CapacitiesWithin(win, s, m, M) && Reserve(win, r)
    requires win[|win| - 1].at - win[0].at <= T
    ensures Period(M) > 0
    ensures BestEffortCost(b, win, s) <= M - FloorOf(m, r) + (T + Period(m) - 1) / Period(M)
  {
    var at, b1 := win[0].at, RefillBoth(b, win[0].at);
    RefillFirst(b, win, s);
    StepWithin(b, Event(at, GetAvailable), s, m, M);
    PeriodAntitone(m, M);
    PeriodAntitone(m, On(b, s).max);
    Leftover(On(b, s), at);
    SupplyWithin(b1, win, s, r, m, M, at);
    EarnedTakesTime(b1, win, s, m, M, at);
    var earned := Earned(b1, win, s);
    FloorBelow(m, r);
    DivAtLeast(T + Period(m) - 1, Period(M), earned);
    DivAtLeast(T + Period(m) - 1, Period(M), 0);
  }

  // A critical request raises the balance exactly when the debt is already
  // below the cap.
  lemma {:induction false} ForceRaisesIff(b: Bucket, t: int, tokens: int, s: Side)
    ensures On(Apply(b, Event(t, ForceAcquire(tokens))).0, s).cur > Refill(On(b, s), t).cur <==>
      Refill(On(b, s), t).cur < -On(b, s).max
  {
  }

  // Only a shrinking resize brings a debt below the cap.
  lemma {:induction false} DebtWithinCap(b: Bucket, es: seq<Event>, s: Side)
    requires 0 <= On(b, s).max && -On(b, s).max <= On(b, s).cur
    requires NeverShrinks(b.rpm.max, b.tpm.max, es) && ReservesNonNegative(es)
    ensures -On(Run(b, es), s).max <= On(Run(b, es), s).cur
    decreases |es|
  {
    if es != [] {
      var e := es[0];
      assert e in es;
      assert forall f | f in es[1..] :: f in es;
      DebtStep(b, e, s);
      hide Refill;
      DebtWithinCap(Apply(b, e).0, es[1..], s);
    }
  }

  lemma {:induction false} DebtStep(b: Bucket, e: Event, s: Side)
    requires 0 <= On(b, s).max && -On(b, s).max <= On(b, s).cur
    requires e.op.SetCapacity? ==> On(b, s).max <= NewMax(e.op, s)
    requires e.op.TryAcquireAbove? ==> e.op.floorPercent >= 0
    ensures
      var d' := On(Apply(b, e).0, s);
      0 <= d'.max && -d'.max <= d'.cur && (!e.op.SetCapacity? ==> d'.max == On(b, s).max)
  {
    if e.op.TryAcquireAbove? {
      FloorNonNegative(On(b, s).max, e.op.floorPercent);
    }
  }

  lemma {:induction false} ForceRaisesAfterShrink()
    ensures exists b: Bucket, es: seq<Event>, s: Side ::
      && b == NewBucket(2, 2, 0) && CapacitiesNonNegative(es)
      && es != [] && es[|es| - 1].op.ForceAcquire?
      && On(Run(b, es), s).cur > On(Run(b, es[..|es| - 1]), s).cur
  {
    var b := NewBucket(2, 2, 0);
    var e0, e1, e2 := Event(0, ForceAcquire(2)), Event(0, SetCapacity(1, 1)), Event(0, ForceAcquire(0));
    var b1, b2, b3 := Apply(b, e0).0, Apply(Apply(b, e0).0, e0).0, Apply(Apply(Apply(b, e0).0, e0).0, e1).0;
    assert b2.tpm == Dim(2, -2, 0) && b3.tpm == Dim(1, -2, 0);
    var b4 := Apply(b3, e2).0;
    assert b4.tpm == Dim(1, -1, 0);
    var es := [e0, e0, e1, e2];
    assert es[1..] == [e0, e1, e2] && es[1..][1..] == [e1, e2] && es[1..][1..][1..] == [e2] && [e2][1..] == [];
    assert Run(b, es) == Run(b1, [e0, e1, e2]) == Run(b2, [e1, e2]) == Run(b3, [e2]) == b4;
    var pre := es[..3];
    assert pre == [e0, e0, e1] && pre[1..] == [e0, e1] && pre[1..][1..] == [e1] && [e1][1..] == [];
    assert Run(b, pre) == Run(b1, [e0, e1]) == Run(b2, [e1]) == b3;
    assert On(Run(b, es), Tpm).cur > On(Run(b, es[..|es| - 1]), Tpm).cur;
  }

  // ---------- Capacities that never refill ----------

  // Only capacities from 1 to 60e9 are ever credited anything. The capacity
  // that stands for "no limit" is above that range.
  lemma {:induction false} RefillsIff(d: Dim)
    ensures (exists now :: Units(d, now) > 0) <==> 1 <= d.max <= MINUTE
  {
    PeriodIff(d.max);
    if 1 <= d.max <= MINUTE {
      DivUnique(Period(d.max), Period(d.max), 1);
      assert Units(d, d.last + Period(d.max)) > 0;
    }
  }

  lemma {:induction false} NoUnits(d: Dim, now: int)
    requires d.max > MINUTE
    ensures Units(d, now) == 0
  {
    DivUnique(MINUTE, d.max, 0);
  }

  // Resizes leave this dimension's capacity as it is.
  predicate KeepsCapacity(es: seq<Event>, s: Side, max: int) {
    forall e | e in es && e.op.SetCapacity? :: NewMax(e.op, s) == max
  }

  // Such a dimension hands out its balance once: all the best-effort cost that
  // a run of any length admits comes out of what was there above the reserve.
  lemma {:induction false} SpentForGood(b: Bucket, es: seq<Event>, s: Side, r: int)
    requires On(b, s).max > MINUTE && -On(b, s).max <= On(b, s).cur
    requires KeepsCapacity(es, s, On(b, s).max) && Reserve(es, r) && r >= 0
    ensures BestEffortCost(b, es, s) <= Max(On(b, s).cur - FloorOf(On(b, s).max, r), 0)
    decreases |es|
  {
    if es != [] {
      var e := es[0];
      assert e in es;
      assert forall f | f in es[1..] :: f in es;
      NoUnits(On(b, s), e.at);
      FloorNonNegative(On(b, s).max, r);
      SpentForGood(Apply(b, e).0, es[1..], s, r);
    }
  }

  // Its balance is exact: what was there, less every charge (critical traffic
  // at its full price), plus what the cap on critical debt wrote off.
  lemma {:induction false} BalanceIsSpent(b: Bucket, es: seq<Event>, s: Side)
    requires On(b, s).max > MINUTE && On(b, s).cur <= On(b, s).max && KeepsCapacity(es, s, On(b, s).max)
    ensures On(Run(b, es), s).max == On(b, s).max
    ensures On(Run(b, es), s).cur == On(b, s).cur - Charged(b, es, s) + WrittenOff(b, es, s)
    decreases |es|
  {
    if es != [] {
      var e := es[0];
      assert e in es;
      assert forall f | f in es[1..] :: f in es;
      NoUnits(On(b, s), e.at);
      BalanceIsSpent(Apply(b, e).0, es[1..], s);
    }
  }

  // So it refuses a best-effort request exactly when the charges of its whole
  // life, critical traffic and resizes to the same capacity included, leave
  // less than the request costs above the reserve.
  lemma {:induction false} RefusedOnceSpent(b: Bucket, es: seq<Event>, s: Side, now: int, op: Op)
    requires On(b, s).max > MINUTE && On(b, s).cur <= On(b, s).max && KeepsCapacity(es, s, On(b, s).max)
    requires op.TryAcquireAbove?
    ensures Fits(Refill(On(Run(b, es), s), now), op, s) <==>
      Charged(b, es, s) + Cost(op, s) <= On(b, s).cur + WrittenOff(b, es, s) - FloorOf(On(b, s).max, op.floorPercent)
  {
    BalanceIsSpent(b, es, s);
    NoUnits(On(Run(b, es), s), now);
  }

  // One best-effort call of k tokens a minute, n times.
  function OncePerMinute(k: int, r: int, n: nat): seq<Event> {
    if n == 0 then [] else OncePerMinute(k, r, n - 1) + [Event((n - 1) * MINUTE, TryAcquireAbove(k, r))]
  }

  // Until the tokens above the reserve are spent every such call is admitted:
  // the requests are back at their capacity by the next minute.
  lemma {:induction false} SpendingRun(C: int, U: int, k: nat, r: int, n: nat)
    requires 1 <= C <= MINUTE < U && 0 <= r <= 90 && n * k <= U - FloorOf(U, r)
    ensures
      var b := Run(NewBucket(C, U, 0), OncePerMinute(k, r, n));
      && b.tpm == Dim(U, U - n * k, 0)
      && b.rpm.max == C && b.rpm.last <= n * MINUTE && Refill(b.rpm, n * MINUTE).cur == C
  {
    if n > 0 {
      var e := Event((n - 1) * MINUTE, TryAcquireAbove(k, r));
      var before := OncePerMinute(k, r, n - 1);
      MulMono(n - 1, n, k);
      SpendingRun(C, U, k, r, n - 1);
      RunConcat(NewBucket(C, U, 0), before, [e]);
      assert [e][1..] == [];
      SpendingCall(Run(NewBucket(C, U, 0), before), C, U, k, r, e.at, U - (n - 1) * k);
      assert n * MINUTE == (n - 1) * MINUTE + MINUTE;
      assert n * k == (n - 1) * k + k;
      hide Apply, Refill;
    } else {
      assert Units(Dim(C, C, 0), 0) == 0;
    }
  }

  lemma {:induction false} SpendingCall(b: Bucket, C: int, U: int, k: nat, r: int, at: int, left: int)
    requires 1 <= C <= MINUTE < U && 0 <= r <= 90 && left - k >= FloorOf(U, r)
    requires b.tpm == Dim(U, left, 0)
    requires b.rpm.max == C && b.rpm.last <= at && Refill(b.rpm, at).cur == C
    ensures
      var (b', ok) := Apply(b, Event(at, TryAcquireAbove(k, r)));
      && ok && b'.tpm == Dim(U, left - k, 0)
      && b'.rpm.max == C && b'.rpm.last <= at + MINUTE && Refill(b'.rpm, at + MINUTE).cur == C
  {
    NoUnits(b.tpm, at);
    FloorBelow(C, r);
    PeriodPositive(C);
    Leftover(b.rpm, at);
    var d := Dim(C, C - 1, Refill(b.rpm, at).last);
    DivAtLeast(at + MINUTE - d.last, Period(C), C);
    assert Units(d, at + MINUTE) >= C;
  }

  // The dimension that never refills runs out: after finitely many calls the
  // next one is refused for its tokens alone.
  lemma {:induction false} RunsOut(C: int, U: int, k: nat, r: int)
    requires 1 <= C <= MINUTE < U && 0 <= r <= 90 && k > 0
    ensures
      var n := (U - FloorOf(U, r)) / k;
      var next := TryAcquireAbove(k, r);
      n >= 0
      && (var b := Run(NewBucket(C, U, 0), OncePerMinute(k, r, n));
          && b.tpm.cur == U - n * k
          && Fits(Refill(b.rpm, n * MINUTE), next, Rpm) && !Fits(Refill(b.tpm, n * MINUTE), next, Tpm)
          && !Apply(b, Event(n * MINUTE, next)).1)
  {
    FloorBelow(U, r);
    FloorBelow(C, r);
    var room := U - FloorOf(U, r);
    DivBounds(room, k);
    DivAtLeast(room, k, 0);
    var n := room / k;
    SpendingRun(C, U, k, r, n);
    NoUnits(Dim(U, U - n * k, 0), n * MINUTE);
  }

  lemma {:induction false} OncePerMinuteInOrder(k: int, r: int, n: nat)
    ensures InOrder(0, OncePerMinute(k, r, n))
    ensures |OncePerMinute(k, r, n)| == n
  {
    if n > 0 {
      OncePerMinuteInOrder(k, r, n - 1);
      OncePerMinuteLast(k, r, n - 1);
      InOrderSnoc(0, OncePerMinute(k, r, n - 1), Event((n - 1) * MINUTE, TryAcquireAbove(k, r)));
    }
  }

  lemma {:induction false} OncePerMinuteLast(k: int, r: int, n: nat)
    ensures n > 0 ==> var es := OncePerMinute(k, r, n); es != [] && es[|es| - 1].at == (n - 1) * MINUTE
  {
  }

  lemma {:induction false} InOrderSnoc(t: int, es: seq<Event>, e: Event)
    requires InOrder(t, es) && (if es == [] then t else es[|es| - 1].at) <= e.at
    ensures InOrder(t, es + [e])
    decreases |es|
  {
    if es == [] {
      assert (es + [e])[1..] == [];
    } else {
      assert (es + [e])[1..] == es[1..] + [e];
      InOrderSnoc(es[0].at, es[1..], e);
    }
  }
}
