// What any history of reports guarantees: who is active, what the smoothed
// demand is, and what the shares and the buckets behind them add up to.
module ShareRuns {
  import opened Prelude
  import opened Text
  import opened Limiters
  import opened Shares

  // One accepted report: the (trimmed) client, its demand, the clock reading.
  datatype Event = Event(client: string, demand: seq<Option<TargetDemand>>, at: int)

  function Run(h: seq<Event>): map<string, Replica> {
    if h == [] then map[]
    else
      var n := |h| - 1;
      Recorded(Run(h[..n]), h[n].client, h[n].demand, h[n].at)
  }

  ghost predicate Monotone(h: seq<Event>) {
    forall i, j | 0 <= i < j < |h| :: h[i].at <= h[j].at
  }

  // ---------- The active set ----------

  function LastReport(h: seq<Event>, client: string): Option<int> {
    if h == [] then None
    else if h[|h| - 1].client == client then Some(h[|h| - 1].at)
    else LastReport(h[..|h| - 1], client)
  }

  lemma {:induction false} LastReportBefore(h: seq<Event>, client: string, t: int)
    requires forall i | 0 <= i < |h| :: h[i].at <= t
    ensures LastReport(h, client).Some? ==> LastReport(h, client).value <= t
  {
    if h != [] && h[|h| - 1].client != client {
      LastReportBefore(h[..|h| - 1], client, t);
    }
  }

  // Under a clock that does not go back, after every report the tracker holds
  // exactly the clients whose last report is within the TTL of now.
  lemma {:induction false} ActiveIsHistory(h: seq<Event>, client: string)
    requires h != [] && Monotone(h)
    ensures client in Run(h) <==>
      (LastReport(h, client).Some? && h[|h| - 1].at - LastReport(h, client).value <= 30_000_000_000)
    ensures client in Run(h) ==> Run(h)[client].lastSeen == LastReport(h, client).value
    decreases |h|
  {
    var n := |h| - 1;
    var pre := h[..n];
    if h[n].client != client {
      if pre != [] {
        ActiveIsHistory(pre, client);
        LastReportBefore(pre, client, pre[n - 1].at);
        assert pre[n - 1].at <= h[n].at;
      }
    }
  }

  // ---------- Smoothed demand ----------

  // The smoothed average after a list of reports, oldest first.
  function Averages(vs: seq<map<string, real>>): map<string, real> {
    if vs == [] then map[]
    else Smoothed(Averages(vs[..|vs| - 1]), vs[|vs| - 1], |vs| == 1)
  }

  function Half(n: nat): (r: real)
    ensures 0.0 < r <= 1.0
  {
    if n == 0 then 1.0 else Half(n - 1) / 2.0
  }

  // The weight of report i of n: the first report is taken as it is, and every
  // later one enters at one half; each further report halves what is there.
  function Weight(i: nat, n: nat): real
    requires i < n
  {
    if i == 0 then Half(n - 1) else Half(n - i)
  }

  // The first k of the weighted reports, summed.
  function Weighted(vs: seq<map<string, real>>, target: string, n: nat, k: nat): real
    requires k <= n <= |vs|
  {
    if k == 0 then 0.0 else Weighted(vs, target, n, k - 1) + Weight(k - 1, n) * Get(vs[k - 1], target)
  }

  lemma {:induction false} WeightedHalves(vs: seq<map<string, real>>, target: string, n: nat, k: nat)
    requires k <= n < |vs|
    ensures Weighted(vs, target, n + 1, k) == Weighted(vs, target, n, k) / 2.0
  {
    if k > 0 {
      WeightedHalves(vs, target, n, k - 1);
      assert Weight(k - 1, n + 1) == Weight(k - 1, n) / 2.0;
      assert Weight(k - 1, n) / 2.0 * Get(vs[k - 1], target) == Weight(k - 1, n) * Get(vs[k - 1], target) / 2.0;
    }
  }

  lemma {:induction false} WeightedPrefix(vs: seq<map<string, real>>, us: seq<map<string, real>>, target: string, n: nat, k: nat)
    requires k <= n <= |us| <= |vs| && us == vs[..|us|]
    ensures Weighted(vs, target, n, k) == Weighted(us, target, n, k)
  {
    if k > 0 {
      WeightedPrefix(vs, us, target, n, k - 1);
    }
  }

  // The smoothing loops compute one exponential average in closed form, with a
  // target missing from a report counted as 0.
  lemma {:induction false} SmoothingClosedForm(vs: seq<map<string, real>>, target: string)
    requires vs != []
    ensures Get(Averages(vs), target) == Weighted(vs, target, |vs|, |vs|)
    decreases |vs|
  {
    var n := |vs|;
    var us := vs[..n - 1];
    if n == 1 {
      assert Weight(0, 1) == 1.0;
      assert Averages(us) == map[];
    } else {
      SmoothingClosedForm(us, target);
      WeightedPrefix(vs, us, target, n - 1, n - 1);
      WeightedHalves(vs, target, n - 1, n - 1);
      assert Half(1) == Half(0) / 2.0;
      assert Weight(n - 1, n) == 0.5;
    }
  }

  // Constant demand: every further report halves the distance to it.
  lemma {:induction false} SmoothingConverges(vs: seq<map<string, real>>, target: string, c: real)
    requires vs != [] && forall i | 1 <= i < |vs| :: Get(vs[i], target) == c
    ensures Get(Averages(vs), target) - c == (Get(vs[0], target) - c) * Half(|vs| - 1)
    decreases |vs|
  {
    var us := vs[..|vs| - 1];
    if |vs| > 1 {
      SmoothingConverges(us, target, c);
      HalfOfProduct(Get(vs[0], target) - c, Half(|vs| - 2));
      assert Get(vs[|vs| - 1], target) == c;
      assert Get(Averages(vs), target) == 0.5 * c + 0.5 * Get(Averages(us), target);
    } else {
      assert Averages(us) == map[];
      assert Half(0) == 1.0;
    }
  }

  lemma {:induction false} HalfOfProduct(x: real, y: real)
    ensures x * y / 2.0 == x * (y / 2.0)
  {
  }

  // The reports of a client since it last entered the tracker.
  function SinceEntry(h: seq<Event>, client: string): seq<Event> {
    if h == [] then []
    else
      var n := |h| - 1;
      var known := if client in Run(h[..n]) then SinceEntry(h[..n], client) else [];
      if h[n].client == client then known + [h[n]]
      else if client in Run(h) then known
      else []
  }

  function Demands(es: seq<Event>, m: Side): (r: seq<map<string, real>>)
    ensures |r| == |es|
  {
    seq(|es|, i requires 0 <= i < |es| => Latest(es[i].demand, m))
  }

  // What the tracker holds for a client is the smoothed average of exactly the
  // reports it made since it entered.
  lemma {:induction false} TrackedIsSmoothed(h: seq<Event>, client: string, m: Side)
    requires client in Run(h)
    ensures SinceEntry(h, client) != []
    ensures Loads(Run(h)[client], m) == Averages(Demands(SinceEntry(h, client), m))
    decreases |h|
  {
    var n := |h| - 1;
    var pre := h[..n];
    if client in Run(pre) {
      TrackedIsSmoothed(pre, client, m);
    }
    if h[n].client == client {
      AveragesSnoc(if client in Run(pre) then SinceEntry(pre, client) else [], h[n], m);
    }
  }

  lemma {:induction false} AveragesSnoc(es: seq<Event>, e: Event, m: Side)
    ensures Averages(Demands(es + [e], m)) == Smoothed(Averages(Demands(es, m)), Latest(e.demand, m), es == [])
    ensures es == [] ==> Averages(Demands(es, m)) == map[]
  {
    var ds := Demands(es + [e], m);
    assert ds[..|ds| - 1] == Demands(es, m);
    assert ds[|ds| - 1] == Latest(e.demand, m);
  }

  // ---------- Requests and tokens stay apart ----------

  predicate Names(d: Option<TargetDemand>, target: string) {
    d.Some? && target != "" && Lower(Trim(d.value.target)) == target
  }

  // The requests a report names for a target, and the tokens.
  function RequestsOn(demand: seq<Option<TargetDemand>>, target: string): nat {
    if demand == [] then 0
    else (if Names(demand[0], target) then Max(demand[0].value.requests, 0) else 0) + RequestsOn(demand[1..], target)
  }

  function TokensOn(demand: seq<Option<TargetDemand>>, target: string): nat {
    if demand == [] then 0
    else (if Names(demand[0], target) then Max(demand[0].value.tokens, 0) else 0) + TokensOn(demand[1..], target)
  }

  lemma {:induction false} OnSnoc(demand: seq<Option<TargetDemand>>, d: Option<TargetDemand>, target: string)
    ensures RequestsOn(demand + [d], target) == RequestsOn(demand, target) + (if Names(d, target) then Max(d.value.requests, 0) else 0)
    ensures TokensOn(demand + [d], target) == TokensOn(demand, target) + (if Names(d, target) then Max(d.value.tokens, 0) else 0)
    decreases |demand|
  {
    hide Names;
    if demand == [] {
      assert [d][1..] == [] && [] + [d] == [d];
    } else {
      assert (demand + [d])[1..] == demand[1..] + [d];
      OnSnoc(demand[1..], d, target);
    }
  }

  // What one report is taken to say: sums over its entries, requests as
  // requests and tokens as tokens.
  lemma {:induction false} ReportInNumbers(demand: seq<Option<TargetDemand>>, target: string)
    ensures Get(Latest(demand, Rpm), target) == RequestsOn(demand, target) as real
    ensures Get(Latest(demand, Tpm), target) == TokensOn(demand, target) as real
    ensures forall m: Side :: target in Latest(demand, m) <==> exists i :: 0 <= i < |demand| && Names(demand[i], target)
    decreases |demand|
  {
    hide Lower, Trim;
    if demand != [] {
      var n := |demand| - 1;
      assert demand == demand[..n] + [demand[n]];
      ReportInNumbers(demand[..n], target);
      OnSnoc(demand[..n], demand[n], target);
      hide RequestsOn, TokensOn;
    }
  }

  // The report with which a client enters the tracker is recorded as it is.
  lemma {:induction false} FirstReport(h: seq<Event>, e: Event, target: string)
    requires e.client !in Run(h)
    ensures e.client in Run(h + [e])
    ensures
      var r := Run(h + [e])[e.client];
      && r.lastSeen == e.at
      && Get(r.requests, target) == RequestsOn(e.demand, target) as real
      && Get(r.tokens, target) == TokensOn(e.demand, target) as real
  {
    hide Latest;
    assert (h + [e])[..|h|] == h;
    ReportInNumbers(e.demand, target);
  }

  // Two histories that differ in the tokens (or in the requests) they report.
  ghost predicate SameReports(h: seq<Event>, h': seq<Event>, m: Side) {
    |h| == |h'| && forall i | 0 <= i < |h| ::
      && h[i].client == h'[i].client && h[i].at == h'[i].at
      && (if m.Rpm? then SameRequests(h[i].demand, h'[i].demand) else SameTokens(h[i].demand, h'[i].demand))
  }

  ghost predicate SameRequests(a: seq<Option<TargetDemand>>, b: seq<Option<TargetDemand>>) {
    forall k :: RequestsOn(a, k) == RequestsOn(b, k)
  }

  ghost predicate SameTokens(a: seq<Option<TargetDemand>>, b: seq<Option<TargetDemand>>) {
    forall k :: TokensOn(a, k) == TokensOn(b, k)
  }

  // The two trackers hold the same clients, and the same demand of kind m.
  ghost predicate SameLoads(t: map<string, Replica>, t': map<string, Replica>, m: Side) {
    t.Keys == t'.Keys && forall id | id in t :: SameReplica(t[id], t'[id], m)
  }

  ghost predicate SameReplica(r: Replica, r': Replica, m: Side) {
    r.lastSeen == r'.lastSeen && SameGet(Loads(r, m), Loads(r', m))
  }

  ghost predicate SameGet(a: map<string, real>, b: map<string, real>) {
    forall k :: Get(a, k) == Get(b, k)
  }

  lemma {:induction false} SameHistorySameLoads(h: seq<Event>, h': seq<Event>, m: Side)
    requires SameReports(h, h', m)
    ensures SameLoads(Run(h), Run(h'), m)
    decreases |h|
  {
    if h != [] {
      var n := |h| - 1;
      SameHistorySameLoads(h[..n], h'[..n], m);
      forall k ensures Get(Latest(h[n].demand, m), k) == Get(Latest(h'[n].demand, m), k) {
        ReportInNumbers(h[n].demand, k);
        ReportInNumbers(h'[n].demand, k);
      }
      SameStep(Run(h[..n]), Run(h'[..n]), h[n], h'[n], m);
    }
  }

  lemma {:induction false} SameStep(t: map<string, Replica>, t': map<string, Replica>, e: Event, e': Event, m: Side)
    requires SameLoads(t, t', m) && e.client == e'.client && e.at == e'.at
    requires SameGet(Latest(e.demand, m), Latest(e'.demand, m))
    ensures SameLoads(Recorded(t, e.client, e.demand, e.at), Recorded(t', e'.client, e'.demand, e'.at), m)
  {
    hide Latest, Smoothed, SameGet;
    var (u, u') := (Evicted(t, e.client, e.at), Evicted(t', e.client, e.at));
    assert SameLoads(u, u', m);
    var first := e.client !in u;
    if first {
      SameSmoothed(map[], map[], Latest(e.demand, m), Latest(e'.demand, m), true);
    } else {
      SameSmoothed(Loads(u[e.client], m), Loads(u'[e.client], m), Latest(e.demand, m), Latest(e'.demand, m), false);
    }
  }

  lemma {:induction false} SameSmoothed(avg: map<string, real>, avg': map<string, real>, latest: map<string, real>, latest': map<string, real>, first: bool)
    requires (if first then avg == avg' == map[] else SameGet(avg, avg')) && SameGet(latest, latest')
    ensures SameGet(Smoothed(avg, latest, first), Smoothed(avg', latest', first))
  {
    forall k ensures Get(Smoothed(avg, latest, first), k) == Get(Smoothed(avg', latest', first), k) {
      SmoothedAt(avg, latest, first, k);
      SmoothedAt(avg', latest', first, k);
      hide Smoothed;
    }
    hide Smoothed;
  }

  lemma {:induction false} SmoothedAt(avg: map<string, real>, latest: map<string, real>, first: bool, k: string)
    requires first ==> avg == map[]
    ensures Get(Smoothed(avg, latest, first), k) == if first then Get(latest, k) else 0.5 * Get(latest, k) + 0.5 * Get(avg, k)
  {
  }

  // A fraction, as a function of the head count, the total and one's own part.
  function Portion(n: real, total: real, mine: real): real {
    if n == 0.0 then 1.0 else if total <= 0.0 then 1.0 / n else SHARE_FLOOR / n + (1.0 - SHARE_FLOOR) * mine / total
  }

  lemma {:induction false} FractionIs(t: map<string, Replica>, client: string, target: string, m: Side)
    ensures Fraction(t, client, target, m) == Portion(|t| as real, Sum(Column(t, target, m)), Get(Column(t, target, m), client))
  {
  }

  lemma {:induction false} SameColumns(t: map<string, Replica>, t': map<string, Replica>, target: string, m: Side)
    requires SameLoads(t, t', m)
    ensures Column(t, target, m) == Column(t', target, m) && |t| == |t'|
  {
    assert |t.Keys| == |t'.Keys|;
  }

  // The requests alone decide the request fractions, and the tokens alone the
  // token fractions, over any history of reports.
  lemma {:induction false} FractionFollowsReports(h: seq<Event>, h': seq<Event>, client: string, target: string, m: Side)
    requires SameReports(h, h', m)
    ensures Fraction(Run(h), client, target, m) == Fraction(Run(h'), client, target, m)
  {
    hide *;
    SameHistorySameLoads(h, h', m);
    SameColumns(Run(h), Run(h'), target, m);
    FractionIs(Run(h), client, target, m);
    FractionIs(Run(h'), client, target, m);
  }

  // ---------- Shares ----------

  ghost predicate NonNegative(t: map<string, Replica>) {
    forall id, k, m: Side | id in t && k in Loads(t[id], m) :: Loads(t[id], m)[k] >= 0.0
  }

  lemma {:induction false} LatestNonNegative(demand: seq<Option<TargetDemand>>, m: Side)
    ensures forall k | k in Latest(demand, m) :: Latest(demand, m)[k] >= 0.0
  {
    if demand != [] {
      LatestNonNegative(demand[..|demand| - 1], m);
    }
  }

  lemma {:induction false} DemandNonNegative(h: seq<Event>)
    ensures NonNegative(Run(h))
    ensures h != [] ==> h[|h| - 1].client in Run(h)
    decreases |h|
  {
    if h != [] {
      var n := |h| - 1;
      DemandNonNegative(h[..n]);
      LatestNonNegative(h[n].demand, Rpm);
      LatestNonNegative(h[n].demand, Tpm);
      var e := Evicted(Run(h[..n]), h[n].client, h[n].at);
      forall id, k, m: Side | id in Run(h) && k in Loads(Run(h)[id], m) ensures Loads(Run(h)[id], m)[k] >= 0.0 {
        if id in e && k in Loads(e[id], m) {
          assert Loads(Run(h[..n])[id], m)[k] >= 0.0;
        }
      }
    }
  }

  lemma {:induction false} SumNonNegative(m: map<string, real>)
    requires forall k | k in m :: m[k] >= 0.0
    ensures Sum(m) >= 0.0
    ensures forall k | k in m :: m[k] <= Sum(m)
    decreases |m|
  {
    if m != map[] {
      forall k | k in m ensures m[k] <= Sum(m) && Sum(m) >= 0.0 {
        SumPick(m, k);
        SumNonNegative(m - {k});
      }
      var k :| k in m;
      assert m[k] <= Sum(m);
    }
  }

  // An additive function of an amount and a head count. Handing it around as a
  // value keeps its products out of the inductive proofs.
  function Line(a: real, b: real): (real, real) -> real {
    (x, n) => a * n + b * x
  }

  ghost predicate Additive(line: (real, real) -> real) {
    && line(0.0, 0.0) == 0.0
    && forall x, y, n :: AddsAt(line, x, y, n)
  }

  ghost predicate AddsAt(line: (real, real) -> real, x: real, y: real, n: real) {
    line(x + y, n + 1.0) == line(x, 1.0) + line(y, n)
  }

  lemma {:induction false} LineAdditive(a: real, b: real)
    ensures Additive(Line(a, b))
  {
    forall x, y, n ensures AddsAt(Line(a, b), x, y, n) {
      assert a * (n + 1.0) + b * (x + y) == (a * 1.0 + b * x) + (a * n + b * y);
    }
  }

  function Mapped(m: map<string, real>, line: (real, real) -> real): map<string, real> {
    map k | k in m :: line(m[k], 1.0)
  }

  lemma {:induction false} SumMapped(m: map<string, real>, line: (real, real) -> real)
    requires Additive(line)
    ensures Sum(Mapped(m, line)) == line(Sum(m), |m| as real)
    decreases |m|
  {
    if m == map[] {
      assert Mapped(m, line) == map[];
    } else {
      var k :| k in m;
      SumPick(m, k);
      SumPick(Mapped(m, line), k);
      SumMapped(m - {k}, line);
      assert Mapped(m, line) - {k} == Mapped(m - {k}, line);
      assert |m - {k}| + 1 == |m|;
      assert AddsAt(line, m[k], Sum(m - {k}), |m - {k}| as real);
    }
  }

  // Every replica's fraction of one target, for one tracker state.
  ghost function Fractions(t: map<string, Replica>, target: string, m: Side): map<string, real> {
    map id | id in t :: Fraction(t, id, target, m)
  }

  // The shares of a target add up to all of it.
  lemma {:induction false} FractionsSumToOne(t: map<string, Replica>, target: string, m: Side)
    requires t != map[]
    ensures Sum(Fractions(t, target, m)) == 1.0
  {
    var col := Column(t, target, m);
    var n, total := |t| as real, Sum(col);
    assert |t.Keys| > 0 && col.Keys == t.Keys;
    assert |col| == |t|;
    var a := if total <= 0.0 then 1.0 / n else SHARE_FLOOR / n;
    var b := if total <= 0.0 then 0.0 else (1.0 - SHARE_FLOOR) / total;
    forall k | k in col ensures Fraction(t, k, target, m) == Line(a, b)(col[k], 1.0) {
      if total > 0.0 {
        Rescale(1.0 - SHARE_FLOOR, col[k], total);
      }
    }
    assert Fractions(t, target, m) == Mapped(col, Line(a, b));
    LineAdditive(a, b);
    SumMapped(col, Line(a, b));
    WholeLine(n, total);
  }

  lemma {:induction false} WholeLine(n: real, total: real)
    requires n > 0.0
    ensures Line(1.0 / n, 0.0)(total, n) == 1.0
    ensures total > 0.0 ==> Line(SHARE_FLOOR / n, (1.0 - SHARE_FLOOR) / total)(total, n) == 1.0
  {
    Recover(1.0, n);
    Recover(SHARE_FLOOR, n);
    if total > 0.0 {
      Recover(1.0 - SHARE_FLOOR, total);
    }
  }

  lemma {:induction false} Recover(x: real, y: real)
    requires y > 0.0
    ensures x / y * y == x
  {
  }

  lemma {:induction false} Rescale(c: real, x: real, y: real)
    requires y > 0.0
    ensures c * x / y == c / y * x
  {
  }

  // Each share lies between the floor and the whole.
  lemma {:induction false} FractionBounds(t: map<string, Replica>, client: string, target: string, m: Side)
    requires NonNegative(t) && client in t
    ensures SHARE_FLOOR / |t| as real <= Fraction(t, client, target, m) <= 1.0
  {
    var col := Column(t, target, m);
    var n, total := |t| as real, Sum(col);
    assert client in t.Keys && |t.Keys| >= 1;
    forall k | k in col ensures col[k] >= 0.0 {
      assert target in Loads(t[k], m) ==> Loads(t[k], m)[target] >= 0.0;
    }
    SumNonNegative(col);
    assert 1.0 / n <= 1.0 && SHARE_FLOOR / n <= 1.0 / n && SHARE_FLOOR / n <= SHARE_FLOOR;
    if total > 0.0 {
      Rescale(1.0 - SHARE_FLOOR, col[client], total);
      PartOfWhole(1.0 - SHARE_FLOOR, col[client], total);
    }
  }

  lemma {:induction false} PartOfWhole(c: real, x: real, y: real)
    requires y > 0.0 && 0.0 <= x <= y && c >= 0.0
    ensures 0.0 <= c * x / y <= c
  {
    assert c * x <= c * y;
    assert c * x / y <= c * y / y;
  }

  // ---------- Bucket sizes ----------

  // The bucket sizes the replicas derive from their fractions of a limit, the
  // exact parts behind them, and the replicas whose part is below one unit.
  function Sizes(limit: int, fs: map<string, real>): map<string, int> {
    map id | id in fs :: FractionOf(limit, fs[id])
  }

  function Parts(limit: int, fs: map<string, real>): map<string, real> {
    Mapped(fs, Line(0.0, limit as real))
  }

  function Starved(parts: map<string, real>): set<string> {
    set id | id in parts && parts[id] < 1.0
  }

  function Rounded(parts: map<string, real>): map<string, int> {
    map id | id in parts :: Max(parts[id].Floor, 1)
  }

  lemma {:induction false} RoundedBound(parts: map<string, real>)
    requires forall id | id in parts :: parts[id] > 0.0
    ensures Total(Rounded(parts)) as real <= Sum(parts) + |Starved(parts)| as real
    ensures parts != map[] ==> (Total(Rounded(parts)) as real) < Sum(parts) + |parts| as real
    ensures parts != map[] ==> (Total(Rounded(parts)) as real) > Sum(parts) - |parts| as real
    decreases |parts|
  {
    if parts == map[] {
      assert Rounded(parts) == map[];
    } else {
      var id :| id in parts;
      var rest := parts - {id};
      RoundedBound(rest);
      SumPick(parts, id);
      RemoveOne(parts, id);
      assert rest == map[] ==> Sum(rest) == 0.0 && Total(Rounded(rest)) == 0;
      hide *;
    }
  }

  lemma {:induction false} RemoveOne(parts: map<string, real>, id: string)
    requires id in parts
    ensures Total(Rounded(parts)) == Max(parts[id].Floor, 1) + Total(Rounded(parts - {id}))
    ensures |Starved(parts)| == |Starved(parts - {id})| + (if parts[id] < 1.0 then 1 else 0)
    ensures |parts| == |parts - {id}| + 1
    ensures Max(parts[id].Floor, 1) as real <= parts[id] + (if parts[id] < 1.0 then 1.0 else 0.0) || parts[id] <= 0.0
    ensures parts[id] > 0.0 ==> parts[id] - 1.0 < Max(parts[id].Floor, 1) as real < parts[id] + 1.0
    ensures parts - {id} == map[] ==> Rounded(parts - {id}) == map[] && Starved(parts - {id}) == {}
  {
    var rest := parts - {id};
    TotalPick(Rounded(parts), id);
    assert Rounded(parts) - {id} == Rounded(rest);
    assert Starved(rest) == Starved(parts) - {id};
    hide Total, Rounded;
  }

  // The bucket sizes behind any fractions add up to what the fractions add up
  // to, give or take less than one unit per replica.
  lemma {:induction false} SizesFollowFractions(limit: int, fs: map<string, real>)
    requires limit > 0 && fs != map[] && forall id | id in fs :: 0.0 < fs[id] <= 1.0
    ensures
      var total, exact := Total(Sizes(limit, fs)) as real, limit as real * Sum(fs);
      && exact - |fs| as real < total < exact + |fs| as real
      && total <= exact + |Starved(Parts(limit, fs))| as real
  {
    hide Total, Sum, FractionOf;
    var parts := Parts(limit, fs);
    SumOfParts(limit, fs);
    assert parts.Keys == fs.Keys;
    assert |parts| == |fs|;
    forall id | id in fs ensures parts[id] > 0.0 && FractionOf(limit, fs[id]) == Max(parts[id].Floor, 1) {
      PartOf(limit, fs[id]);
    }
    assert Sizes(limit, fs) == Rounded(parts);
    RoundedBound(parts);
    assert parts != map[] by {
      var id :| id in fs;
      assert id in parts;
    }
    hide *;
  }

  lemma {:induction false} SumOfParts(limit: int, fs: map<string, real>)
    ensures Sum(Parts(limit, fs)) == limit as real * Sum(fs)
  {
    hide Sum;
    LineAdditive(0.0, limit as real);
    SumMapped(fs, Line(0.0, limit as real));
    Scales(limit as real, Sum(fs), |fs| as real);
  }

  // Fleet capacity, for the shares of one tracker state: the sizes that all
  // active replicas' current fractions of a limited target stand for are
  // together at most the allowance plus one unit for every replica whose part
  // is below one unit, so at most the allowance itself once it is ten times the
  // number of replicas.
  lemma {:induction false} FleetCapacity(h: seq<Event>, target: string, m: Side, limit: int)
    requires h != [] && limit > 0
    ensures
      var t := Run(h);
      var fs := Fractions(t, target, m);
      && Sum(fs) == 1.0
      && (forall id | id in fs :: SHARE_FLOOR / |t| as real <= fs[id] <= 1.0)
      && Total(Sizes(limit, fs)) <= limit + |Starved(Parts(limit, fs))|
      && Total(Sizes(limit, fs)) < limit + |t|
      && (limit >= 10 * |t| ==> Total(Sizes(limit, fs)) <= limit)
  {
    var t := Run(h);
    DemandNonNegative(h);
    var fs := Fractions(t, target, m);
    assert h[|h| - 1].client in t.Keys;
    FractionsSumToOne(t, target, m);
    assert fs.Keys == t.Keys;
    assert |fs| == |t| >= 1;
    forall id | id in fs ensures SHARE_FLOOR / |t| as real <= fs[id] <= 1.0 {
      FractionBounds(t, id, target, m);
    }
    CapacityOf(limit, fs);
  }

  lemma {:induction false} CapacityOf(limit: int, fs: map<string, real>)
    requires limit > 0 && |fs| >= 1 && Sum(fs) == 1.0
    requires forall id | id in fs :: SHARE_FLOOR / |fs| as real <= fs[id] <= 1.0
    ensures Total(Sizes(limit, fs)) <= limit + |Starved(Parts(limit, fs))|
    ensures Total(Sizes(limit, fs)) < limit + |fs|
    ensures limit >= 10 * |fs| ==> Total(Sizes(limit, fs)) <= limit
  {
    hide Total, Sum, Sizes;
    assert SHARE_FLOOR / |fs| as real > 0.0;
    SizesFollowFractions(limit, fs);
    if limit >= 10 * |fs| {
      forall id | id in fs ensures Parts(limit, fs)[id] >= 1.0 {
        PartOf(limit, fs[id]);
        EnoughForOne(limit, |fs|, fs[id]);
      }
      assert Starved(Parts(limit, fs)) == {};
    }
    hide *;
  }

  lemma {:induction false} Scales(b: real, x: real, n: real)
    ensures Line(0.0, b)(x, n) == b * x
  {
  }

  lemma {:induction false} PartOf(limit: int, f: real)
    requires limit > 0 && 0.0 < f <= 1.0
    ensures Line(0.0, limit as real)(f, 1.0) == limit as real * f > 0.0
    ensures FractionOf(limit, f) == Max((limit as real * f).Floor, 1)
  {
  }

  lemma {:induction false} EnoughForOne(limit: int, n: nat, f: real)
    requires n >= 1 && limit >= 10 * n && f >= SHARE_FLOOR / n as real
    ensures limit as real * f >= 1.0
  {
    var N := n as real;
    assert limit as real >= 10.0 * N;
    assert SHARE_FLOOR / N > 0.0;
    assert limit as real * f >= 10.0 * N * f >= 10.0 * N * (SHARE_FLOOR / N);
    assert N * (SHARE_FLOOR / N) == SHARE_FLOOR;
  }

  // For small allowances the bound is needed: a limit of 1 split between two
  // replicas gives each of them 1.
  lemma {:induction false} SmallAllowanceOvershoots()
    ensures exists h: seq<Event> :: h != [] && Total(Sizes(1, Fractions(Run(h), "t", Rpm))) == 2
  {
    TwoReports();
    DemandNonNegative(TWO_REPORTS);
    TwoReplicas(Run(TWO_REPORTS));
    hide *;
  }

  const TWO_REPORTS: seq<Event> := [Event("a", [], 0), Event("b", [], 0)]

  lemma {:induction false} TwoReports()
    ensures Run(TWO_REPORTS).Keys == {"a", "b"}
  {
    hide Smoothed, Latest;
    var a := Event("a", [], 0);
    assert TWO_REPORTS[..1] == [a] && [a][..0] == [];
    assert Run([]) == map[] && Evicted(map[], "a", 0) == map[];
    var t := Run([a]);
    assert t.Keys == {"a"} && t["a"].lastSeen == 0;
    assert Evicted(t, "b", 0) == t;
  }

  lemma {:induction false} TwoReplicas(t: map<string, Replica>)
    requires NonNegative(t) && t.Keys == {"a", "b"}
    ensures Total(Sizes(1, Fractions(t, "t", Rpm))) == 2
  {
    assert |t| == |t.Keys| == 2;
    FractionBounds(t, "a", "t", Rpm);
    FractionBounds(t, "b", "t", Rpm);
    hide Fraction;
    TwoSizes(Fractions(t, "t", Rpm));
  }

  lemma {:induction false} TwoSizes(fs: map<string, real>)
    requires fs.Keys == {"a", "b"} && 0.0 < fs["a"] <= 1.0 && 0.0 < fs["b"] <= 1.0
    ensures Total(Sizes(1, fs)) == 2
  {
    hide FractionOf, Total;
    var sizes := Sizes(1, fs);
    AtMostOne(fs["a"]);
    AtMostOne(fs["b"]);
    TotalPick(sizes, "a");
    TotalPick(sizes - {"a"}, "b");
    assert sizes - {"a"} - {"b"} == map[];
    EmptyTotal();
  }

  lemma {:induction false} EmptyTotal()
    ensures Total(map[]) == 0
  {
  }

  lemma {:induction false} AtMostOne(f: real)
    requires 0.0 < f <= 1.0
    ensures FractionOf(1, f) == 1
  {
  }
}
