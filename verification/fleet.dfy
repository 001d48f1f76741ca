// What a fleet really holds: replicas report to one tracker, each answer
// carries the caller's shares only, reports and answers get lost, and every
// bucket keeps what its own replica was last told.
module Fleet {
  import opened Prelude
  import opened Text
  import opened Settings
  import TB = TokenBuckets
  import opened Limiters
  import opened Shares
  import opened ShareRuns
  import opened FleetBounds
  import R = Reporter

  // One report of one replica: whether it reached the tracker, and what the
  // call came to for the replica (a report may arrive and its answer get lost).
  datatype FleetEvent = FleetEvent(report: Event, reached: bool, outcome: R.Outcome)

  // What the tracker sees.
  function Reports(f: seq<FleetEvent>): seq<Event> {
    if f == [] then []
    else Reports(f[..|f| - 1]) + (if f[|f| - 1].reached then [f[|f| - 1].report] else [])
  }

  // What one replica sees.
  function OutcomesOf(f: seq<FleetEvent>, id: string): seq<R.Outcome> {
    if f == [] then []
    else OutcomesOf(f[..|f| - 1], id) + (if f[|f| - 1].report.client == id then [f[|f| - 1].outcome] else [])
  }

  function Active(f: seq<FleetEvent>): map<string, Replica> {
    Run(Reports(f))
  }

  // Every answer is the tracker's answer to that report.
  ghost predicate Answered(f: seq<FleetEvent>) {
    f == [] ||
    (var e := f[|f| - 1];
     && Answered(f[..|f| - 1])
     && (e.outcome.Succeeded? ==> e.reached && SharesFor(Active(f), e.report.client, e.outcome.shares)))
  }

  // The latest share a replica has for a target, since its last fallback.
  function ShareHeld(f: seq<FleetEvent>, id: string, k: string): Option<TargetShare> {
    R.LatestShare(R.Recent(OutcomesOf(f, id)), k)
  }

  // The sizes of all active replicas' buckets for one target. A replica that
  // was told nothing for it holds the even split.
  function Held(f: seq<FleetEvent>, k: string, a: ModelLimit, replicas: int, s: Side): map<string, int> {
    map id | id in Active(f) :: R.CapacityFor(a, replicas, ShareHeld(f, id, k), s)
  }

  // The fractions of the allowance behind them.
  function Weight(share: Option<TargetShare>, replicas: int, s: Side): real {
    match share
    case None => 1.0 / Max(replicas, 1) as real
    case Some(sh) => R.FractionFor(sh, s)
  }

  function Weights(f: seq<FleetEvent>, k: string, replicas: int, s: Side): map<string, real> {
    map id | id in Active(f) :: Weight(ShareHeld(f, id, k), replicas, s)
  }

  // ---------- The sizes are those of the buckets ----------

  // Replica id's limiter started at the even split and went through its part
  // of the fleet's history, with any traffic in between.
  ghost predicate Lives(f: seq<FleetEvent>, id: string, st: R.Replica, hs: seq<R.Happening>, k: string, a: ModelLimit, replicas: int, s: Side) {
    && R.Outcomes(hs) == OutcomesOf(f, id) && st.failures == 0
    && k in st.buckets && TB.On(st.buckets[k], s).max == Share(R.LimitOf(a, s), replicas)
  }

  lemma {:induction false} HeldIsTheBucket(f: seq<FleetEvent>, id: string, st: R.Replica, hs: seq<R.Happening>, k: string, allowances: map<string, ModelLimit>, replicas: int, s: Side)
    requires st.buckets.Keys == allowances.Keys && k in allowances && id in Active(f)
    requires Lives(f, id, st, hs, k, allowances[k], replicas, s)
    ensures TB.On(R.Run(st, allowances, replicas, hs).buckets[k], s).max == Held(f, k, allowances[k], replicas, s)[id]
  {
    R.CapacityFollowsHistory(st, allowances, replicas, hs, k, s);
    hide R.Run, R.CapacityFor, R.Recent, R.LatestShare, Active;
  }

  // ---------- Fractions in range ----------

  predicate GoodShare(sh: TargetShare) {
    0.0 < sh.rpmFraction <= 1.0 && 0.0 < sh.tpmFraction <= 1.0
  }

  ghost predicate GoodAnswers(answers: seq<seq<TargetShare>>) {
    forall i, j | 0 <= i < |answers| && 0 <= j < |answers[i]| :: GoodShare(answers[i][j])
  }

  ghost predicate GoodOutcomes(os: seq<R.Outcome>) {
    forall i, j | 0 <= i < |os| && os[i].Succeeded? && 0 <= j < |os[i].shares| :: GoodShare(os[i].shares[j])
  }

  lemma {:induction false} ShareIs(t: map<string, Replica>, client: string, shares: seq<TargetShare>, j: nat)
    requires SharesFor(t, client, shares) && j < |shares|
    ensures shares[j] == ShareOf(t, client, shares[j].target)
  {
    assert shares[j] in shares;
    hide ShareOf, Targets;
  }

  lemma {:induction false} CurrentIsGood(h: seq<Event>, client: string, target: string)
    requires client in Run(h)
    ensures GoodShare(ShareOf(Run(h), client, target))
  {
    DemandNonNegative(h);
    hide Run, Fraction;
    FractionBounds(Run(h), client, target, Rpm);
    FractionBounds(Run(h), client, target, Tpm);
    assert |Run(h).Keys| > 0;
    assert SHARE_FLOOR / |Run(h)| as real > 0.0;
  }

  lemma {:induction false} SharesAreGood(h: seq<Event>, client: string, shares: seq<TargetShare>)
    requires client in Run(h) && SharesFor(Run(h), client, shares)
    ensures forall j | 0 <= j < |shares| :: GoodShare(shares[j])
  {
    hide *;
    forall j | 0 <= j < |shares| ensures GoodShare(shares[j]) {
      ShareIs(Run(h), client, shares, j);
      CurrentIsGood(h, client, shares[j].target);
    }
  }

  lemma {:induction false} OutcomesAreGood(f: seq<FleetEvent>, id: string)
    requires Answered(f)
    ensures GoodOutcomes(OutcomesOf(f, id))
  {
    if f != [] {
      var e := f[|f| - 1];
      OutcomesAreGood(f[..|f| - 1], id);
      if e.outcome.Succeeded? {
        DemandNonNegative(Reports(f));
        SharesAreGood(Reports(f), e.report.client, e.outcome.shares);
      }
      hide Run, SharesFor, GoodShare;
    }
  }

  lemma {:induction false} RecentIsGood(os: seq<R.Outcome>)
    requires GoodOutcomes(os)
    ensures GoodAnswers(R.Recent(os))
  {
    hide GoodShare;
    if os != [] {
      RecentIsGood(os[..|os| - 1]);
    }
  }

  lemma {:induction false} LastIsGood(shares: seq<TargetShare>, k: string)
    requires forall j | 0 <= j < |shares| :: GoodShare(shares[j])
    ensures var last := R.LastShare(shares, k); last.Some? ==> GoodShare(last.value)
  {
    hide GoodShare;
    if shares != [] {
      LastIsGood(shares[..|shares| - 1], k);
    }
  }

  lemma {:induction false} LatestIsGood(answers: seq<seq<TargetShare>>, k: string)
    requires GoodAnswers(answers)
    ensures var latest := R.LatestShare(answers, k); latest.Some? ==> GoodShare(latest.value)
  {
    hide GoodShare;
    if answers != [] {
      var n := |answers| - 1;
      LastIsGood(answers[n], k);
      LatestIsGood(answers[..n], k);
    }
  }

  lemma {:induction false} WeightInRange(f: seq<FleetEvent>, id: string, k: string, replicas: int, s: Side)
    requires Answered(f)
    ensures 0.0 < Weight(ShareHeld(f, id, k), replicas, s) <= 1.0
  {
    OutcomesAreGood(f, id);
    RecentIsGood(OutcomesOf(f, id));
    LatestIsGood(R.Recent(OutcomesOf(f, id)), k);
    EvenWeight(Max(replicas, 1));
    hide OutcomesOf, R.Recent, R.LatestShare, Answered;
  }

  lemma {:induction false} EvenWeight(n: int)
    requires n >= 1
    ensures 0.0 < 1.0 / n as real <= 1.0
  {
  }

  // The even split is the rounded part of an even fraction.
  lemma {:induction false} EvenSplitIsFraction(limit: int, n: int)
    requires limit > 0 && n >= 1
    ensures (limit as real * (1.0 / n as real)).Floor == limit / n
  {
    var x, q := limit as real * (1.0 / n as real), limit / n;
    Recover(1.0, n as real);
    Assoc(limit as real, 1.0 / n as real, n as real);
    assert x * n as real == limit as real;
    DivBounds(limit, n);
    assert (q * n) as real == q as real * n as real;
    FloorFromProduct(x, n, q, limit);
  }

  lemma {:induction false} FloorFromProduct(x: real, n: int, q: int, limit: int)
    requires n >= 1 && x * n as real == limit as real && q as real * n as real <= limit as real < q as real * n as real + n as real
    ensures x.Floor == q
  {
    var N := n as real;
    if x < q as real {
      Negative(x - q as real, N);
    } else if x >= q as real + 1.0 {
      AtLeast(x - q as real, N);
    }
  }

  lemma {:induction false} SizeOf(limit: int, replicas: int, share: Option<TargetShare>, a: ModelLimit, s: Side)
    requires limit == R.LimitOf(a, s) > 0 && 0.0 < Weight(share, replicas, s) <= 1.0
    ensures R.CapacityFor(a, replicas, share, s) == FractionOf(limit, Weight(share, replicas, s))
  {
    if share.None? {
      EvenSplitIsFraction(limit, Max(replicas, 1));
    }
  }

  lemma {:induction false} HeldIsSizes(f: seq<FleetEvent>, k: string, a: ModelLimit, replicas: int, s: Side)
    requires Answered(f) && R.LimitOf(a, s) > 0
    ensures Held(f, k, a, replicas, s) == Sizes(R.LimitOf(a, s), Weights(f, k, replicas, s))
    ensures forall id | id in Weights(f, k, replicas, s) :: 0.0 < Weights(f, k, replicas, s)[id] <= 1.0
  {
    hide R.CapacityFor, FractionOf, ShareHeld, Active, R.LimitOf, Answered, Weight;
    forall id | id in Active(f)
      ensures 0.0 < Weight(ShareHeld(f, id, k), replicas, s) <= 1.0
      ensures R.CapacityFor(a, replicas, ShareHeld(f, id, k), s) == FractionOf(R.LimitOf(a, s), Weight(ShareHeld(f, id, k), replicas, s))
    {
      WeightInRange(f, id, k, replicas, s);
      SizeOf(R.LimitOf(a, s), replicas, ShareHeld(f, id, k), a, s);
    }
  }

  // ---------- What the fleet holds ----------

  // Together the buckets hold the allowance times the sum of the fractions
  // behind them, which come from different tracker states or from the even
  // split, give or take less than one unit per replica.
  lemma {:induction false} FleetHolds(f: seq<FleetEvent>, k: string, a: ModelLimit, replicas: int, s: Side)
    requires Answered(f) && R.LimitOf(a, s) > 0 && Active(f) != map[]
    ensures
      var limit, ws := R.LimitOf(a, s), Weights(f, k, replicas, s);
      var total, exact := Total(Held(f, k, a, replicas, s)) as real, limit as real * Sum(ws);
      && exact - |Active(f)| as real < total < exact + |Active(f)| as real
      && total <= exact + |Starved(Parts(limit, ws))| as real
  {
    hide *;
    HeldIsSizes(f, k, a, replicas, s);
    WeightsCount(f, k, replicas, s);
    SizesFollowFractions(R.LimitOf(a, s), Weights(f, k, replicas, s));
  }

  lemma {:induction false} WeightsCount(f: seq<FleetEvent>, k: string, replicas: int, s: Side)
    ensures |Weights(f, k, replicas, s)| == |Active(f)|
    ensures Active(f) != map[] ==> Weights(f, k, replicas, s) != map[]
  {
    hide Active, Weight, ShareHeld;
    assert Weights(f, k, replicas, s).Keys == Active(f).Keys;
    if Active(f) != map[] {
      var id :| id in Active(f);
      assert id in Weights(f, k, replicas, s);
    }
  }

  // So the total stays within the allowance when the fractions add up to at
  // most 1 and every part is at least one unit, and it does not when they
  // exceed 1 by one unit per replica.
  lemma {:induction false} FleetWithin(f: seq<FleetEvent>, k: string, a: ModelLimit, replicas: int, s: Side)
    requires Answered(f) && R.LimitOf(a, s) > 0 && Active(f) != map[]
    ensures
      var limit, ws := R.LimitOf(a, s), Weights(f, k, replicas, s);
      && (Sum(ws) <= 1.0 && Starved(Parts(limit, ws)) == {} ==> Total(Held(f, k, a, replicas, s)) <= limit)
      && (limit as real * Sum(ws) >= (limit + |Active(f)|) as real ==> Total(Held(f, k, a, replicas, s)) > limit)
  {
    hide *;
    FleetHolds(f, k, a, replicas, s);
    var limit, ws := R.LimitOf(a, s), Weights(f, k, replicas, s);
    if Sum(ws) <= 1.0 {
      AtMostAll(limit as real, Sum(ws));
    }
  }

  lemma {:induction false} AtMostAll(L: real, w: real)
    requires L >= 0.0 && w <= 1.0
    ensures L * w <= L
  {
  }

  // Once every active replica was told its current fraction, the buckets hold
  // what the shares of that one tracker state stand for.
  lemma {:induction false} FleetInSync(f: seq<FleetEvent>, k: string, a: ModelLimit, replicas: int, s: Side)
    requires Answered(f) && R.LimitOf(a, s) > 0 && Reports(f) != []
    requires forall id | id in Active(f) ::
      ShareHeld(f, id, k).Some? && R.FractionFor(ShareHeld(f, id, k).value, s) == Fraction(Active(f), id, k, s)
    ensures
      var limit, n := R.LimitOf(a, s), |Active(f)|;
      && Held(f, k, a, replicas, s) == Sizes(limit, Fractions(Active(f), k, s))
      && Total(Held(f, k, a, replicas, s)) <= limit + |Starved(Parts(limit, Fractions(Active(f), k, s)))|
      && Total(Held(f, k, a, replicas, s)) < limit + n
      && (limit >= 10 * n ==> Total(Held(f, k, a, replicas, s)) <= limit)
  {
    hide *;
    HeldIsSizes(f, k, a, replicas, s);
    WeightsInSync(f, k, replicas, s);
    ActiveIs(f);
    FleetCapacity(Reports(f), k, s, R.LimitOf(a, s));
  }

  lemma {:induction false} ActiveIs(f: seq<FleetEvent>)
    ensures Active(f) == Run(Reports(f))
  {
  }

  lemma {:induction false} WeightsInSync(f: seq<FleetEvent>, k: string, replicas: int, s: Side)
    requires forall id | id in Active(f) ::
      ShareHeld(f, id, k).Some? && R.FractionFor(ShareHeld(f, id, k).value, s) == Fraction(Active(f), id, k, s)
    ensures Weights(f, k, replicas, s) == Fractions(Active(f), k, s)
  {
    hide Active, Fraction, ShareHeld, R.FractionFor;
  }

  // ---------- Fleets that hold more than the allowance ----------

  function Told(report: Event, shares: seq<TargetShare>): FleetEvent {
    FleetEvent(report, true, R.Succeeded(shares, (i: nat) => 0))
  }

  // Idle replicas report, and are told nothing.
  function IdleFleet(n: nat): seq<FleetEvent> {
    if n == 0 then [] else IdleFleet(n - 1) + [Told(Event(Name(n), [], 0), [])]
  }

  lemma {:induction false} ReportsSnoc(f: seq<FleetEvent>, e: FleetEvent)
    requires e.reached
    ensures Reports(f + [e]) == Reports(f) + [e.report]
  {
    assert (f + [e])[..|f|] == f;
  }

  lemma {:induction false} AnsweredSnoc(f: seq<FleetEvent>, e: FleetEvent)
    requires Answered(f) && e.reached && e.outcome.Succeeded?
    requires SharesFor(Active(f + [e]), e.report.client, e.outcome.shares)
    ensures Answered(f + [e])
  {
    assert (f + [e])[..|f|] == f;
    hide SharesFor, Active;
  }

  lemma {:induction false} IdleReports(n: nat)
    ensures Reports(IdleFleet(n)) == Crowd(n) && Active(IdleFleet(n)) == CrowdState(n)
  {
    CrowdRuns(n);
    hide Run, CrowdState, Name;
    if n > 0 {
      hide Reports;
      IdleReports(n - 1);
      ReportsSnoc(IdleFleet(n - 1), Told(Event(Name(n), [], 0), []));
    }
  }

  lemma {:induction false} IdleLast(n: nat) returns (e: FleetEvent)
    requires n > 0
    ensures IdleFleet(n) == IdleFleet(n - 1) + [e]
    ensures e.reached && e.outcome.Succeeded? && e.outcome.shares == [] && e.report.client == Name(n)
  {
    e := Told(Event(Name(n), [], 0), []);
  }

  lemma {:induction false} IdleAnswered(n: nat)
    ensures Answered(IdleFleet(n))
  {
    if n > 0 {
      hide *;
      var e := IdleLast(n);
      IdleAnswered(n - 1);
      IdleReports(n);
      IdleTargets(n);
      NoTargets(CrowdState(n), Name(n));
      AnsweredSnoc(IdleFleet(n - 1), e);
    }
  }

  lemma {:induction false} IdleTargets(n: nat)
    ensures Targets(CrowdState(n)) == {}
  {
  }

  ghost predicate AllEmpty(os: seq<R.Outcome>) {
    forall i | 0 <= i < |os| :: os[i].Succeeded? && os[i].shares == []
  }

  lemma {:induction false} NothingTold(os: seq<R.Outcome>, k: string)
    requires AllEmpty(os)
    ensures R.LatestShare(R.Recent(os), k).None?
  {
    if os != [] {
      var n := |os| - 1;
      NothingTold(os[..n], k);
      var answers := R.Recent(os);
      assert answers == R.Recent(os[..n]) + [[]];
      assert answers[..|answers| - 1] == R.Recent(os[..n]);
    }
  }

  lemma {:induction false} IdleOutcomes(n: nat, id: string)
    ensures AllEmpty(OutcomesOf(IdleFleet(n), id))
  {
    if n > 0 {
      var e := Told(Event(Name(n), [], 0), []);
      IdleOutcomes(n - 1, id);
      assert (IdleFleet(n - 1) + [e])[..|IdleFleet(n - 1)|] == IdleFleet(n - 1);
    }
  }

  lemma {:induction false} TotalOfEqual(m: map<string, int>, c: int)
    requires forall id | id in m :: m[id] == c
    ensures Total(m) == |m| * c
    decreases |m|
  {
    if m != map[] {
      var id :| id in m;
      TotalPick(m, id);
      assert |m - {id}| + 1 == |m|;
      assert |m| * c == |m - {id}| * c + c;
      hide Total;
      TotalOfEqual(m - {id}, c);
    } else {
      EmptyTotal();
    }
  }

  // No multiple of the allowance bounds a fleet: n replicas that have no demand
  // are told nothing and keep the even split, which is the whole allowance when
  // dataplane_replicas is 1.
  lemma {:induction false} IdleFleetHolds(n: nat, k: string, a: ModelLimit, replicas: int, s: Side)
    ensures Answered(IdleFleet(n)) && |Active(IdleFleet(n))| == n
    ensures Total(Held(IdleFleet(n), k, a, replicas, s)) == n * Share(R.LimitOf(a, s), replicas)
    ensures replicas == 1 && R.LimitOf(a, s) > 0 ==> Total(Held(IdleFleet(n), k, a, replicas, s)) == n * R.LimitOf(a, s)
  {
    IdleAnswered(n);
    IdleReports(n);
    var f := IdleFleet(n);
    hide Active, IdleFleet, Answered;
    var held := Held(f, k, a, replicas, s);
    forall id | id in held ensures held[id] == Share(R.LimitOf(a, s), replicas) {
      IdleOutcomes(n, id);
      NothingTold(OutcomesOf(f, id), k);
    }
    assert held.Keys == Active(f).Keys;
    assert |held| == n;
    hide Held, Share;
    TotalOfEqual(held, Share(R.LimitOf(a, s), replicas));
    ShareOfOne(R.LimitOf(a, s));
  }

  lemma {:induction false} ShareOfOne(limit: int)
    ensures limit > 0 ==> Share(limit, 1) == limit
  {
  }

  // ---------- One replica more ----------

  lemma {:induction false} OneAnswer(os: seq<R.Outcome>, sh: TargetShare)
    requires |os| == 1 && os[0].Succeeded? && os[0].shares == [sh] && Normal(sh.target)
    ensures R.LatestShare(R.Recent(os), sh.target) == Some(sh)
  {
    assert os[..0] == [];
    assert R.Recent(os) == [[sh]];
    assert R.LastShare([sh], sh.target) == Some(sh);
    hide Lower, Trim;
  }

  lemma {:induction false} OutcomesSnoc(f: seq<FleetEvent>, e: FleetEvent, id: string)
    ensures OutcomesOf(f + [e], id) == OutcomesOf(f, id) + (if e.report.client == id then [e.outcome] else [])
  {
    assert (f + [e])[..|f|] == f;
  }

  lemma {:induction false} TwoEvents(e1: FleetEvent, e2: FleetEvent)
    requires e1.reached && e2.reached && e1.report.client != e2.report.client
    ensures Reports([e1]) == [e1.report] && Reports([e1, e2]) == [e1.report, e2.report]
    ensures OutcomesOf([e1, e2], e1.report.client) == [e1.outcome] && OutcomesOf([e1, e2], e2.report.client) == [e2.outcome]
  {
    var c1, c2 := e1.report.client, e2.report.client;
    assert Reports([]) == [] && OutcomesOf([], c1) == [] && OutcomesOf([], c2) == [];
    hide Reports, OutcomesOf;
    assert [] + [e1] == [e1] && [e1] + [e2] == [e1, e2];
    ReportsSnoc([], e1);
    ReportsSnoc([e1], e2);
    OutcomesSnoc([], e1, c1);
    OutcomesSnoc([e1], e2, c1);
    OutcomesSnoc([], e1, c2);
    OutcomesSnoc([e1], e2, c2);
  }

  lemma {:induction false} TwoAnswered(e1: FleetEvent, e2: FleetEvent)
    requires e1.reached && e1.outcome.Succeeded? && SharesFor(Active([e1]), e1.report.client, e1.outcome.shares)
    requires e2.reached && e2.outcome.Succeeded? && SharesFor(Active([e1, e2]), e2.report.client, e2.outcome.shares)
    ensures Answered([e1, e2])
  {
    hide SharesFor, Active;
    assert [] + [e1] == [e1] && [e1] + [e2] == [e1, e2];
    AnsweredSnoc([], e1);
    AnsweredSnoc([e1], e2);
  }

  // The only share of a state that tracks one target.
  lemma {:induction false} OneTarget(t: map<string, Replica>, client: string, k: string)
    requires Targets(t) == {k}
    ensures SharesFor(t, client, [ShareOf(t, client, k)])
  {
    hide ShareOf;
    var shares := [ShareOf(t, client, k)];
    assert shares[0] in shares;
    ShareTarget(t, client, k);
  }

  lemma {:induction false} ShareTarget(t: map<string, Replica>, client: string, k: string)
    ensures ShareOf(t, client, k).target == k
  {
  }

  const NAME1 := Name(1)
  const NAME2 := Name(2)

  function DemandOf(target: string): seq<Option<TargetDemand>> {
    [Some(TargetDemand(target, 1, 1))]
  }

  function Tracked(idle: bool, k: string): Replica {
    if idle then IDLE else Replica(0, map[k := 1.0], map[k := 1.0])
  }

  function FirstReports(idle: bool, k: string): seq<Event> {
    [Event(NAME1, if idle then [] else DemandOf(k), 0)]
  }

  function BothReports(idle: bool, k: string): seq<Event> {
    [Event(NAME1, if idle then [] else DemandOf(k), 0), Event(NAME2, DemandOf(k), 0)]
  }

  lemma {:induction false} TwoNames()
    ensures NAME1 != NAME2
  {
    assert |NAME1| == 1 && |NAME2| == 2;
  }

  lemma {:induction false} DemandIs(idle: bool, k: string, s: Side)
    requires Normal(k)
    ensures Latest(if idle then [] else DemandOf(k), s) == if idle then map[] else map[k := 1.0]
  {
    BusyDemand(k, s);
  }

  // The tracker after one replica, idle or not, and after a second, busy one.
  lemma {:induction false} JoiningRuns(idle: bool, k: string)
    requires Normal(k)
    ensures Run(FirstReports(idle, k)) == map[NAME1 := Tracked(idle, k)]
    ensures Run(BothReports(idle, k)) == map[NAME1 := Tracked(idle, k), NAME2 := Tracked(false, k)]
  {
    var e1, e2 := FirstReports(idle, k)[0], BothReports(idle, k)[1];
    assert Run([]) == map[];
    hide Run, Latest, Name, NAME1, NAME2;
    TwoNames();
    DemandIs(idle, k, Rpm);
    DemandIs(idle, k, Tpm);
    DemandIs(false, k, Rpm);
    DemandIs(false, k, Tpm);
    assert [] + [e1] == [e1] && [e1] + [e2] == [e1, e2];
    Joins([], e1);
    Joins([e1], e2);
  }

  lemma {:induction false} JoiningTargets(idle: bool, k: string)
    ensures Targets(map[NAME1 := Tracked(idle, k)]) == if idle then {} else {k}
    ensures Targets(map[NAME1 := Tracked(idle, k), NAME2 := Tracked(false, k)]) == {k}
  {
    hide Name, NAME1, NAME2;
    TwoNames();
    var t1, t2 := map[NAME1 := Tracked(idle, k)], map[NAME1 := Tracked(idle, k), NAME2 := Tracked(false, k)];
    assert Tracks(t2, NAME2, k);
    if !idle {
      assert Tracks(t1, NAME1, k);
    }
  }

  lemma {:induction false} TwoHeld(held: map<string, int>, low1: int, low2: int)
    requires NAME1 != NAME2 && held.Keys == {NAME1, NAME2} && held[NAME1] >= low1 && held[NAME2] >= low2
    ensures Total(held) >= low1 + low2
  {
    hide Total;
    TotalPick(held, NAME1);
    TotalPick(held - {NAME1}, NAME2);
    assert held - {NAME1} - {NAME2} == map[];
    EmptyTotal();
  }

  // A first replica, idle or busy, and a second, busy one. Whether the first
  // was told nothing or the whole target, it keeps the whole allowance until
  // its next report; the second is told at least a twentieth.
  function JoiningFleet(idle: bool, k: string, share1: TargetShare, share2: TargetShare): seq<FleetEvent> {
    [Told(Event(NAME1, if idle then [] else DemandOf(k), 0), if idle then [] else [share1]),
     Told(Event(NAME2, DemandOf(k), 0), [share2])]
  }

  ghost function FirstShare(k: string): TargetShare {
    ShareOf(Run(FirstReports(false, k)), NAME1, k)
  }

  ghost function SecondShare(idle: bool, k: string): TargetShare {
    ShareOf(Run(BothReports(idle, k)), NAME2, k)
  }

  lemma {:induction false} FirstIsAll(k: string)
    requires Normal(k)
    ensures FirstShare(k).target == k && FirstShare(k).rpmFraction == 1.0
  {
    JoiningRuns(false, k);
    var t := Run(FirstReports(false, k));
    hide Run, NAME1, Fraction;
    FractionsSumToOne(t, k, Rpm);
    SumPick(Fractions(t, k, Rpm), NAME1);
    assert Fractions(t, k, Rpm) - {NAME1} == map[];
    SumOfZeros(map[]);
    hide Sum;
  }

  lemma {:induction false} BothActive(idle: bool, k: string)
    requires Normal(k)
    ensures Run(BothReports(idle, k)).Keys == {NAME1, NAME2} && |Run(BothReports(idle, k))| == 2
  {
    hide *;
    JoiningRuns(idle, k);
    TwoNames();
    TwoKeys(NAME1, NAME2, Tracked(idle, k), Tracked(false, k));
  }

  lemma {:induction false} TwoKeys(id1: string, id2: string, r1: Replica, r2: Replica)
    requires id1 != id2
    ensures map[id1 := r1, id2 := r2].Keys == {id1, id2} && |map[id1 := r1, id2 := r2]| == 2
  {
    assert |map[id1 := r1, id2 := r2].Keys| == 2;
  }

  lemma {:induction false} OneOfTwo(t: map<string, Replica>, client: string, k: string)
    requires NonNegative(t) && client in t && |t| == 2
    ensures ShareOf(t, client, k).target == k && 0.05 <= ShareOf(t, client, k).rpmFraction <= 1.0
  {
    FractionBounds(t, client, k, Rpm);
    hide Fraction, NonNegative;
  }

  lemma {:induction false} SecondIsSome(idle: bool, k: string)
    requires Normal(k)
    ensures SecondShare(idle, k).target == k && 0.05 <= SecondShare(idle, k).rpmFraction <= 1.0
  {
    hide Run, ShareOf, NonNegative, NAME1, NAME2;
    BothActive(idle, k);
    DemandNonNegative(BothReports(idle, k));
    OneOfTwo(Run(BothReports(idle, k)), NAME2, k);
  }

  // So a second replica takes an allowance of 100 to 105 at least, whether the
  // first was idle and told nothing, or busy and told the whole of it.
  lemma {:induction false} JoiningHolds(idle: bool, k: string)
    requires Normal(k)
    ensures
      var f, a := JoiningFleet(idle, k, FirstShare(k), SecondShare(idle, k)), ModelLimit(100, 0);
      && Answered(f) && |Active(f)| == 2 && Total(Held(f, k, a, 1, Rpm)) >= 105
  {
    var f, a := JoiningFleet(idle, k, FirstShare(k), SecondShare(idle, k)), ModelLimit(100, 0);
    TwoNames();
    FirstIsAll(k);
    SecondIsSome(idle, k);
    JoiningAnswered(idle, k);
    JoiningHeld(idle, k, FirstShare(k), SecondShare(idle, k));
    hide Held, Answered, FirstShare, SecondShare, NAME1, NAME2, Total, Active, JoiningFleet;
    TwoHeld(Held(f, k, a, 1, Rpm), 100, 5);
  }

  lemma {:induction false} JoiningHeld(idle: bool, k: string, share1: TargetShare, share2: TargetShare)
    requires Normal(k) && share1.target == k == share2.target && share1.rpmFraction == 1.0 && 0.05 <= share2.rpmFraction <= 1.0
    ensures
      var f := JoiningFleet(idle, k, share1, share2);
      var held := Held(f, k, ModelLimit(100, 0), 1, Rpm);
      && |Active(f)| == 2 && held.Keys == {NAME1, NAME2} && held[NAME1] >= 100 && held[NAME2] >= 5
  {
    hide Run, NAME1, NAME2, R.CapacityFor, R.Recent, R.LatestShare, Normal, Reports, OutcomesOf;
    var f := JoiningFleet(idle, k, share1, share2);
    TwoNames();
    BothActive(idle, k);
    TwoEvents(f[0], f[1]);
    assert f == [f[0], f[1]];
    JoiningCapacities(idle, share1, share2, k, OutcomesOf(f, NAME1), OutcomesOf(f, NAME2));
    assert Reports(f) == BothReports(idle, k);
  }

  lemma {:induction false} JoiningCapacities(idle: bool, share1: TargetShare, share2: TargetShare, k: string, os1: seq<R.Outcome>, os2: seq<R.Outcome>)
    requires Normal(k) && share1.target == k == share2.target && share1.rpmFraction == 1.0 && 0.05 <= share2.rpmFraction <= 1.0
    requires |os1| == 1 && os1[0].Succeeded? && os1[0].shares == if idle then [] else [share1]
    requires |os2| == 1 && os2[0].Succeeded? && os2[0].shares == [share2]
    ensures R.CapacityFor(ModelLimit(100, 0), 1, R.LatestShare(R.Recent(os1), k), Rpm) == 100
    ensures R.CapacityFor(ModelLimit(100, 0), 1, R.LatestShare(R.Recent(os2), k), Rpm) >= 5
  {
    OneAnswer(os2, share2);
    if idle {
      NothingTold(os1, k);
    } else {
      OneAnswer(os1, share1);
    }
    hide R.Recent, R.LatestShare, Normal;
    assert 100.0 * share2.rpmFraction >= 5.0;
  }

  lemma {:induction false} JoiningAnswered(idle: bool, k: string)
    requires Normal(k)
    ensures Answered(JoiningFleet(idle, k, FirstShare(k), SecondShare(idle, k)))
  {
    var f := JoiningFleet(idle, k, FirstShare(k), SecondShare(idle, k));
    TwoNames();
    JoiningRuns(idle, k);
    JoiningTargets(idle, k);
    TwoEvents(f[0], f[1]);
    assert f == [f[0], f[1]];
    hide Run, Targets, NAME1, NAME2, ShareOf, Tracked;
    assert Reports([f[0]]) == FirstReports(idle, k) && Reports(f) == BothReports(idle, k);
    if idle {
      NoTargets(Active([f[0]]), NAME1);
    } else {
      OneTarget(Active([f[0]]), NAME1, k);
    }
    OneTarget(Active(f), NAME2, k);
    hide SharesFor;
    TwoAnswered(f[0], f[1]);
  }

  lemma {:induction false} NoTargets(t: map<string, Replica>, client: string)
    requires Targets(t) == {}
    ensures SharesFor(t, client, [])
  {
  }
}
