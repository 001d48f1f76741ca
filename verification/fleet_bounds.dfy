// Exactly when the shares of one tracker state can stand for more than the
// allowance they divide.
module FleetBounds {
  import opened Prelude
  import opened Text
  import opened Limiters
  import opened Shares
  import opened ShareRuns

  // ---------- Fleets of idle replicas ----------

  function Name(i: nat): string {
    seq(i, _ => 'a')
  }

  const IDLE := Replica(0, map[], map[])

  // Replicas 1 to n report at time 0, with no demand.
  function Crowd(n: nat): seq<Event> {
    if n == 0 then [] else Crowd(n - 1) + [Event(Name(n), [], 0)]
  }

  function CrowdState(n: nat): (t: map<string, Replica>)
    ensures |t| == n
    ensures forall id | id in t :: 1 <= |id| <= n && t[id] == IDLE
  {
    if n == 0 then map[] else CrowdState(n - 1)[Name(n) := IDLE]
  }

  // A report at time 0 of a replica that is new evicts nobody.
  lemma {:induction false} Joins(h: seq<Event>, e: Event)
    requires e.at == 0 && e.client !in Run(h) && forall id | id in Run(h) :: Run(h)[id].lastSeen == 0
    ensures Run(h + [e]) == Run(h)[e.client := Replica(0, Latest(e.demand, Rpm), Latest(e.demand, Tpm))]
  {
    assert (h + [e])[..|h|] == h;
    var t := Run(h);
    assert Evicted(t, e.client, 0) == t;
    assert Smoothed(map[], Latest(e.demand, Rpm), true) == Latest(e.demand, Rpm);
    assert Smoothed(map[], Latest(e.demand, Tpm), true) == Latest(e.demand, Tpm);
    hide Run, Latest;
  }

  lemma {:induction false} CrowdRuns(n: nat)
    ensures Run(Crowd(n)) == CrowdState(n)
  {
    if n > 0 {
      CrowdRuns(n - 1);
      hide Run;
      Joins(Crowd(n - 1), Event(Name(n), [], 0));
    }
  }

  // The last of n replicas reports demand for the target, the others none.
  function Busy(n: nat, target: string): seq<Event>
    requires n > 0
  {
    Crowd(n - 1) + [Event(Name(n), [Some(TargetDemand(target, 1, 1))], 0)]
  }

  function BusyState(n: nat, target: string): map<string, Replica>
    requires n > 0
  {
    CrowdState(n - 1)[Name(n) := Replica(0, map[target := 1.0], map[target := 1.0])]
  }

  // A target as the tracker stores it.
  predicate Normal(target: string) {
    target != "" && Lower(Trim(target)) == target
  }

  lemma {:induction false} BusyDemand(target: string, s: Side)
    requires Normal(target)
    ensures Latest([Some(TargetDemand(target, 1, 1))], s) == map[target := 1.0]
  {
    var d := [Some(TargetDemand(target, 1, 1))];
    assert d[..0] == [];
    assert Latest(d[..0], s) == map[];
    hide Lower, Trim;
  }

  lemma {:induction false} BusyRuns(n: nat, target: string)
    requires n > 0 && Normal(target)
    ensures Run(Busy(n, target)) == BusyState(n, target) && |BusyState(n, target)| == n
  {
    hide Run, Latest;
    CrowdRuns(n - 1);
    BusyDemand(target, Rpm);
    BusyDemand(target, Tpm);
    Joins(Crowd(n - 1), Event(Name(n), [Some(TargetDemand(target, 1, 1))], 0));
  }

  lemma {:induction false} SumOfZeros(m: map<string, real>)
    requires forall k | k in m :: m[k] == 0.0
    ensures Sum(m) == 0.0
    decreases |m|
  {
    if m != map[] {
      var k :| k in m;
      SumPick(m, k);
      assert |m - {k}| < |m|;
      hide Sum;
      SumOfZeros(m - {k});
    }
  }

  // The busy replica has all the demand.
  lemma {:induction false} BusyColumn(n: nat, target: string, s: Side)
    requires n > 0
    ensures
      var col := Column(BusyState(n, target), target, s);
      && |BusyState(n, target)| == n && Name(n) in col && col[Name(n)] == 1.0 && Sum(col) == 1.0
      && forall id | id in col && id != Name(n) :: col[id] == 0.0
  {
    hide Sum;
    var col := Column(BusyState(n, target), target, s);
    SumPick(col, Name(n));
    SumOfZeros(col - {Name(n)});
  }

  lemma {:induction false} BusyFractions(n: nat, target: string, s: Side)
    requires n > 0
    ensures
      var fs := Fractions(BusyState(n, target), target, s);
      && |fs| == n && Name(n) in fs && fs[Name(n)] == SHARE_FLOOR / n as real + (1.0 - SHARE_FLOOR)
      && forall id | id in fs && id != Name(n) :: fs[id] == SHARE_FLOOR / n as real
  {
    hide Sum, BusyState;
    BusyColumn(n, target, s);
    var t := BusyState(n, target);
    assert Column(t, target, s).Keys == t.Keys == Fractions(t, target, s).Keys;
    assert |Fractions(t, target, s)| == |t|;
    hide Column;
  }

  // ---------- The exact condition for one tracker state ----------

  // Some state of n replicas whose shares stand for more than the limit.
  ghost predicate Exceeds(h: seq<Event>, n: nat, target: string, s: Side, limit: int) {
    |Run(h)| == n && Total(Sizes(limit, Fractions(Run(h), target, s))) > limit
  }

  // Units that every size below one part adds at most.
  function Slack(starved: nat, lo: real): real {
    Times(starved as real, 1.0 - lo)
  }

  // A product by name, for proofs that must not multiply it out.
  function Times(x: real, y: real): real {
    x * y
  }

  lemma {:induction false} SlackStep(starved: nat, lo: real)
    ensures Slack(starved + 1, lo) == Slack(starved, lo) + (1.0 - lo)
    ensures Slack(0, lo) == 0.0
  {
  }

  lemma {:induction false} RoundedSlack(parts: map<string, real>, lo: real)
    requires forall id | id in parts :: parts[id] >= lo
    requires 0.0 < lo
    ensures Total(Rounded(parts)) as real <= Sum(parts) + Slack(|Starved(parts)|, lo)
    decreases |parts|
  {
    if parts == map[] {
      assert Rounded(parts) == map[];
      SlackStep(0, lo);
    } else {
      var id :| id in parts;
      var rest := parts - {id};
      RemoveOne(parts, id);
      SumPick(parts, id);
      SlackStep(|Starved(rest)|, lo);
      hide Sum, Total, Rounded, Starved, Slack;
      RoundedSlack(rest, lo);
    }
  }

  lemma {:induction false} NotAllBelowOne(parts: map<string, real>)
    requires parts != map[] && forall id | id in parts :: parts[id] < 1.0
    ensures Sum(parts) < |parts| as real
    decreases |parts|
  {
    var id :| id in parts;
    var rest := parts - {id};
    SumPick(parts, id);
    assert |rest| + 1 == |parts|;
    if rest != map[] {
      hide Sum;
      NotAllBelowOne(rest);
    }
  }

  lemma {:induction false} Assoc(a: real, b: real, c: real)
    ensures (a * b) * c == a * (b * c)
  {
  }

  lemma {:induction false} Negative(d: real, N: real)
    requires d < 0.0 && N >= 1.0
    ensures d * N < 0.0
  {
  }

  // The least part of a limit: a tenth of the even split.
  lemma {:induction false} LeastPart(n: nat, limit: int)
    requires n >= 1
    ensures (limit as real * (SHARE_FLOOR / n as real)) * n as real == limit as real / 10.0
  {
    Recover(SHARE_FLOOR, n as real);
    Assoc(limit as real, SHARE_FLOOR / n as real, n as real);
  }

  lemma {:induction false} SlackBelowOne(n: nat, limit: int, starved: nat)
    requires n >= 1 && n <= limit < 10 * n && (n - 1) * limit > 10 * n * (n - 2) && starved <= n - 1
    ensures Slack(starved, limit as real * (SHARE_FLOOR / n as real)) < 1.0
  {
    var N, L, lo := n as real, limit as real, limit as real * (SHARE_FLOOR / n as real);
    LeastPart(n, limit);
    assert ((n - 1) * limit) as real == (N - 1.0) * L;
    assert (10 * n * (n - 2)) as real == 10.0 * N * (N - 2.0);
    SlackLine(N, L, lo, starved as real);
  }

  lemma {:induction false} SlackLine(N: real, L: real, lo: real, starved: real)
    requires N >= 1.0 && lo * N == L / 10.0 && L < 10.0 * N && (N - 1.0) * L > 10.0 * N * (N - 2.0) && 0.0 <= starved <= N - 1.0
    ensures Times(starved, 1.0 - lo) < 1.0
  {
    var d := 1.0 - lo;
    DTimesN(N, L, lo, d);
    MostSlack(N, L, d);
    if d > 0.0 {
      TimesMono(starved, N - 1.0, d);
    } else {
      TimesNonPositive(starved, d);
    }
    hide Times;
  }

  lemma {:induction false} DTimesN(N: real, L: real, lo: real, d: real)
    requires d == 1.0 - lo && lo * N == L / 10.0
    ensures d * N == N - L / 10.0
  {
  }

  lemma {:induction false} MostSlack(N: real, L: real, d: real)
    requires N >= 1.0 && d * N == N - L / 10.0 && (N - 1.0) * L > 10.0 * N * (N - 2.0)
    ensures Times(N - 1.0, d) < 1.0
  {
    var most := (N - 1.0) * d;
    Assoc(N - 1.0, d, N);
    assert most * N == (N - 1.0) * (N - L / 10.0);
    assert (N - 1.0) * (N - L / 10.0) == N * N - N - (N - 1.0) * L / 10.0;
    assert 10.0 * N * (N - 2.0) == 10.0 * (N * N) - 20.0 * N;
    if most >= 1.0 {
      AtLeast(most, N);
    }
  }

  lemma {:induction false} TimesMono(x: real, y: real, d: real)
    requires x <= y && d >= 0.0
    ensures Times(x, d) <= Times(y, d)
  {
  }

  lemma {:induction false} TimesNonPositive(x: real, d: real)
    requires x >= 0.0 && d <= 0.0
    ensures Times(x, d) <= 0.0
  {
  }

  lemma {:induction false} AtLeast(x: real, N: real)
    requires x >= 1.0 && N >= 1.0
    ensures x * N >= N
  {
    assert (x - 1.0) * N >= 0.0;
  }

  // The safe side: with n replicas such a limit is never exceeded.
  lemma {:induction false} NeverExceeded(h: seq<Event>, n: nat, target: string, s: Side, limit: int)
    requires n >= 1 && |Run(h)| == n && limit >= n && (n - 1) * limit > 10 * n * (n - 2)
    ensures Total(Sizes(limit, Fractions(Run(h), target, s))) <= limit
  {
    assert h != [];
    FleetCapacity(h, target, s, limit);
    hide Run, Total, Sizes, Sum;
    assert Fractions(Run(h), target, s).Keys == Run(h).Keys;
    assert |Fractions(Run(h), target, s)| == |Run(h)|;
    if limit < 10 * n {
      WithinSlack(n, limit, Fractions(Run(h), target, s));
    }
  }

  lemma {:induction false} WithinSlack(n: nat, limit: int, fs: map<string, real>)
    requires n >= 1 && n <= limit < 10 * n && (n - 1) * limit > 10 * n * (n - 2)
    requires |fs| == n && Sum(fs) == 1.0 && forall id | id in fs :: SHARE_FLOOR / n as real <= fs[id] <= 1.0
    ensures Total(Sizes(limit, fs)) <= limit
  {
    hide Sum, Total, Rounded, FractionOf, Slack, Starved, Parts, Sizes;
    var parts := Parts(limit, fs);
    var lo := limit as real * (SHARE_FLOOR / n as real);
    SumOfParts(limit, fs);
    PartsAtLeast(limit, fs, SHARE_FLOOR / n as real);
    RoundedSlack(parts, lo);
    FewStarved(parts, n, limit);
    SlackBelowOne(n, limit, |Starved(parts)|);
  }

  lemma {:induction false} PartsAtLeast(limit: int, fs: map<string, real>, x: real)
    requires limit > 0 && x > 0.0 && forall id | id in fs :: x <= fs[id] <= 1.0
    ensures Sizes(limit, fs) == Rounded(Parts(limit, fs)) && limit as real * x > 0.0
    ensures |Parts(limit, fs)| == |fs|
    ensures forall id | id in Parts(limit, fs) :: Parts(limit, fs)[id] >= limit as real * x
  {
    hide FractionOf;
    var parts := Parts(limit, fs);
    assert parts.Keys == fs.Keys;
    assert |parts| == |fs|;
    forall id | id in fs ensures parts[id] >= limit as real * x && FractionOf(limit, fs[id]) == Max(parts[id].Floor, 1) {
      PartOf(limit, fs[id]);
      ScaleUp(limit as real, x, fs[id]);
    }
    assert Sizes(limit, fs) == Rounded(parts);
  }

  lemma {:induction false} ScaleUp(L: real, x: real, y: real)
    requires L > 0.0 && 0.0 < x <= y
    ensures 0.0 < L * x <= L * y
  {
  }

  lemma {:induction false} FewStarved(parts: map<string, real>, n: nat, limit: int)
    requires |parts| == n >= 1 && Sum(parts) == limit as real && limit >= n
    ensures |Starved(parts)| <= n - 1
  {
    var starved := Starved(parts);
    assert starved <= parts.Keys;
    assert |parts.Keys| == n;
    if starved == parts.Keys {
      NotAllBelowOne(parts);
      assert false;
    }
    var id :| id in parts && id !in starved;
    SubsetSmaller(starved, parts.Keys, id);
  }

  lemma {:induction false} SubsetSmaller(a: set<string>, b: set<string>, x: string)
    requires a <= b && x in b && x !in a
    ensures |a| < |b|
  {
    assert a <= b - {x};
    SubsetSize(a, b - {x});
  }

  lemma {:induction false} SubsetSize(a: set<string>, b: set<string>)
    requires a <= b
    ensures |a| <= |b|
    decreases |a|
  {
    if a != {} {
      var x :| x in a;
      SubsetSize(a - {x}, b - {x});
    }
  }

  // Sizes are at least 1 each.
  lemma {:induction false} AtLeastOneEach(m: map<string, int>, k: string)
    requires k in m && forall id | id in m :: m[id] >= 1
    ensures Total(m) >= m[k] + |m| - 1
    decreases |m|
  {
    TotalPick(m, k);
    var rest := m - {k};
    assert |rest| + 1 == |m|;
    if rest == map[] {
      assert Total(rest) == 0;
    } else {
      var id :| id in rest;
      hide Total;
      AtLeastOneEach(rest, id);
    }
  }

  // The failing side: the busy replica's part, rounded down, and one unit for
  // each of the others are more than the limit.
  lemma {:induction false} BusyExceeds(n: nat, target: string, s: Side, limit: int)
    requires n >= 1 && limit > 0 && Normal(target)
    requires limit < n || (n - 1) * limit <= 10 * n * (n - 2)
    ensures Exceeds(Busy(n, target), n, target, s, limit)
  {
    hide Run, Fractions, Total, BusyState, FractionOf;
    BusyRuns(n, target);
    BusyFractions(n, target, s);
    var fs := Fractions(BusyState(n, target), target, s);
    SizesAtLeastOne(limit, fs);
    var sizes := Sizes(limit, fs);
    assert sizes.Keys == fs.Keys;
    assert |sizes| == n;
    AtLeastOneEach(sizes, Name(n));
    if limit >= n {
      BusyPart(n, limit);
    }
  }

  lemma {:induction false} SizesAtLeastOne(limit: int, fs: map<string, real>)
    requires limit > 0
    ensures forall id | id in Sizes(limit, fs) :: Sizes(limit, fs)[id] >= 1
  {
  }

  lemma {:induction false} BusyPart(n: nat, limit: int)
    requires n >= 1 && limit >= n && (n - 1) * limit <= 10 * n * (n - 2)
    ensures FractionOf(limit, SHARE_FLOOR / n as real + (1.0 - SHARE_FLOOR)) >= limit - n + 2
  {
    var N, L := n as real, limit as real;
    var f := SHARE_FLOOR / N + (1.0 - SHARE_FLOOR);
    assert n >= 2;
    assert 0.0 < f <= 1.0 by {
      assert SHARE_FLOOR / N * N == SHARE_FLOOR;
    }
    assert L * f >= L - N + 2.0 by {
      assert ((n - 1) * limit) as real == (N - 1.0) * L;
      assert (10 * n * (n - 2)) as real == 10.0 * N * (N - 2.0);
      BusyLine(N, L, f);
    }
  }

  lemma {:induction false} BusyLine(N: real, L: real, f: real)
    requires N >= 1.0 && f == SHARE_FLOOR / N + (1.0 - SHARE_FLOOR) && (N - 1.0) * L <= 10.0 * N * (N - 2.0)
    ensures L * f >= L - N + 2.0
  {
    Recover(SHARE_FLOOR, N);
    assert f * N == SHARE_FLOOR + (1.0 - SHARE_FLOOR) * N;
    Assoc(L, f, N);
    assert L * (f * N) == L / 10.0 + 9.0 * (L * N) / 10.0;
    var d := L * f - (L - N + 2.0);
    assert d * N == (L * f) * N - (L - N + 2.0) * N;
    if d < 0.0 {
      Negative(d, N);
    }
  }

  // Some state of n replicas exceeds the limit if and only if the limit is
  // below n or (n - 1) * limit <= 10 * n * (n - 2). So one replica never does,
  // and two only exceed a limit of 1.
  lemma {:induction false} FleetCapacityIff(n: nat, target: string, s: Side, limit: int)
    requires n >= 1 && limit > 0 && Normal(target)
    ensures (exists h :: Exceeds(h, n, target, s, limit)) <==> (limit < n || (n - 1) * limit <= 10 * n * (n - 2))
  {
    if limit < n || (n - 1) * limit <= 10 * n * (n - 2) {
      BusyExceeds(n, target, s, limit);
    } else {
      forall h ensures !Exceeds(h, n, target, s, limit) {
        if |Run(h)| == n {
          NeverExceeded(h, n, target, s, limit);
        }
      }
    }
    hide *;
  }
}
