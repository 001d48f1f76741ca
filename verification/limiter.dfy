// pkg/governor/limiter.go: one token bucket and one demand counter per
// "location/model" allowance, resized to this replica's share.
module Limiters {
  import opened Prelude
  import opened Text
  import opened Settings
  import opened TokenBuckets

  const UNLIMITED_CAPACITY: int := 0x100_0000_0000

  datatype Demand = Demand(requests: int, tokens: int)

  datatype TargetDemand = TargetDemand(target: string, requests: int, tokens: int)

  datatype TargetShare = TargetShare(target: string, rpmFraction: real, tpmFraction: real)

  // The limiter's mutable state as a value.
  datatype Local = Local(buckets: map<string, Bucket>, demand: map<string, Demand>)

  function Share(limit: int, replicas: int): int {
    if limit <= 0 then UNLIMITED_CAPACITY else Max(GoDiv(limit, Max(replicas, 1)), 1)
  }

  function FractionOf(limit: int, f: real): int {
    if limit <= 0 then UNLIMITED_CAPACITY
    else Max((limit as real * (if f <= 0.0 || f > 1.0 then 1.0 else f)).Floor, 1)
  }

  function Counted(d: Demand, tokens: int): Demand {
    Demand(d.requests + 1, d.tokens + Max(tokens, 0))
  }

  // One admission attempt on a known target: the attempt is counted whether or
  // not the bucket accepts it.
  function Attempted(st: Local, key: string, e: Event, tokens: int): (Local, bool)
    requires key in st.buckets && key in st.demand
  {
    var (b, ok) := Apply(st.buckets[key], e);
    (Local(st.buckets[key := b], st.demand[key := Counted(st.demand[key], tokens)]), ok)
  }

  function Resized(b: Bucket, a: ModelLimit, sh: TargetShare, now: int): Bucket {
    Apply(b, Event(now, SetCapacity(FractionOf(a.maxRpm, sh.rpmFraction), FractionOf(a.maxTpm, sh.tpmFraction)))).0
  }

  function EvenSplit(b: Bucket, a: ModelLimit, replicas: int, now: int): Bucket {
    Apply(b, Event(now, SetCapacity(Share(a.maxRpm, replicas), Share(a.maxTpm, replicas)))).0
  }

  lemma {:induction false} EvenSplitIs(b: Bucket, a: ModelLimit, replicas: int, now: int)
    ensures EvenSplit(b, a, replicas, now) == Apply(b, Event(now, SetCapacity(Share(a.maxRpm, replicas), Share(a.maxTpm, replicas)))).0
  {
  }

  // A new bucket, full at the even split of its allowance.
  function FullShare(a: ModelLimit, replicas: int, now: int): Bucket {
    NewBucket(Share(a.maxRpm, replicas), Share(a.maxTpm, replicas), now)
  }

  // ---------- Sizes, in numbers ----------

  // The even split is the whole part of limit / replicas, but at least 1, and
  // 2^40 stands for no limit.
  lemma {:induction false} ShareInNumbers(limit: int, replicas: int)
    requires replicas >= 1
    ensures
      var size := Share(limit, replicas);
      if limit <= 0 then size == 1_099_511_627_776
      else if limit < replicas then size == 1
      else size * replicas <= limit < (size + 1) * replicas
  {
    DivBounds(limit, replicas);
    if limit >= replicas {
      DivAtLeast(limit, replicas, 1);
    } else if limit > 0 {
      DivUnique(limit, replicas, 0);
    }
  }

  // A told share is the whole part of limit * fraction, but at least 1; what is
  // not a fraction stands for the whole limit.
  lemma {:induction false} FractionInNumbers(limit: int, f: real)
    ensures
      var size := FractionOf(limit, f);
      if limit <= 0 then size == 1_099_511_627_776
      else if f <= 0.0 || f > 1.0 then size == limit
      else if limit as real * f < 1.0 then size == 1
      else size as real <= limit as real * f < size as real + 1.0
  {
    if limit > 0 && (f <= 0.0 || f > 1.0) {
      assert limit as real * 1.0 == limit as real;
    } else if limit > 0 {
      var part := limit as real * f;
      assert part.Floor as real <= part < part.Floor as real + 1.0;
      assert FractionOf(limit, f) == Max(part.Floor, 1);
    }
  }

  // Requests are sized by the request limit and fraction, tokens by those of
  // the tokens; a new bucket is full.
  lemma {:induction false} SizedBy(b: Bucket, a: ModelLimit, replicas: int, sh: TargetShare, now: int)
    ensures
      var told := Resized(b, a, sh, now);
      told.rpm.max == FractionOf(a.maxRpm, sh.rpmFraction) && told.tpm.max == FractionOf(a.maxTpm, sh.tpmFraction)
    ensures
      var even := EvenSplit(b, a, replicas, now);
      even.rpm.max == Share(a.maxRpm, replicas) && even.tpm.max == Share(a.maxTpm, replicas)
    ensures
      var (rpm, tpm) := (Share(a.maxRpm, replicas), Share(a.maxTpm, replicas));
      FullShare(a, replicas, now) == Bucket(Dim(rpm, rpm, now), Dim(tpm, tpm, now))
  {
    hide Share, FractionOf, RefillBoth;
  }

  // The allowances a limiter takes over from a configuration.
  ghost predicate Loaded(allowances: map<string, ModelLimit>, cfg: Config) {
    LoadedFrom(allowances, cfg.allowances)
  }

  ghost predicate LoadedFrom(allowances: map<string, ModelLimit>, configured: map<string, Option<ModelLimit>>) {
    && (forall raw | raw in configured && configured[raw].Some? :: Lower(raw) in allowances)
    && (forall k | k in allowances ::
         exists raw :: raw in configured && Lower(raw) == k && configured[raw] == Some(allowances[k]))
  }

  // The buckets after the first shares of a response have been applied in order.
  function SharesApplied(bs: map<string, Bucket>, allowances: map<string, ModelLimit>, shares: seq<TargetShare>, clock: nat -> int): (r: map<string, Bucket>)
    ensures r.Keys == bs.Keys
  {
    if shares == [] then bs
    else
      var n := |shares| - 1;
      var prev := SharesApplied(bs, allowances, shares[..n], clock);
      var k := Lower(Trim(shares[n].target));
      if k in prev && k in allowances then prev[k := Resized(prev[k], allowances[k], shares[n], clock(n))] else prev
  }

  class DemandCounter {
    var requests: int
    var tokens: int

    constructor ()
      ensures requests == 0 && tokens == 0
    {
      requests, tokens := 0, 0;
    }

    ghost function State(): Demand
      reads this
    {
      Demand(requests, tokens)
    }
  }

  class Limiter {
    const buckets: map<string, TokenBucket>
    const demand: map<string, DemandCounter>
    const allowances: map<string, ModelLimit>
    const reservePercent: int
    const replicas: int

    ghost predicate Valid() {
      && buckets.Keys == demand.Keys == allowances.Keys
      && Injective(buckets)
      && Injective(demand)
    }

    ghost function Buckets(): map<string, Bucket>
      reads buckets.Values
    {
      map k | k in buckets :: buckets[k].State()
    }

    ghost function Counters(): map<string, Demand>
      reads demand.Values
    {
      map k | k in demand :: demand[k].State()
    }

    ghost function State(): Local
      reads buckets.Values, demand.Values
    {
      Local(Buckets(), Counters())
    }

    // clock(k) is the reading taken when the bucket of key k is made. Keys that
    // differ only in case collapse onto one bucket, in an unspecified order.
    constructor (cfg: Config, clock: string -> int)
      ensures Valid() && fresh(buckets.Values) && fresh(demand.Values)
      ensures reservePercent == cfg.ReservePercent() && replicas == cfg.Replicas()
      ensures Loaded(allowances, cfg)
      ensures forall k | k in demand :: Counters()[k] == Demand(0, 0)
      ensures forall k | k in buckets :: Buckets()[k] == FullShare(allowances[k], replicas, clock(k))
    {
      hide FullShare, LoadedFrom;
      reservePercent := cfg.ReservePercent();
      replicas := cfg.Replicas();
      var bs, ds, lims := MakeBuckets(cfg.allowances, cfg.Replicas(), clock);
      buckets, demand, allowances := bs, ds, lims;
      new;
    }

    static method MakeBuckets(configured: map<string, Option<ModelLimit>>, n: int, clock: string -> int)
      returns (bs: map<string, TokenBucket>, ds: map<string, DemandCounter>, lims: map<string, ModelLimit>)
      ensures bs.Keys == ds.Keys == lims.Keys && Injective(bs) && Injective(ds)
      ensures forall k | k in bs :: fresh(bs[k]) && bs[k].State() == FullShare(lims[k], n, clock(k))
      ensures forall k | k in ds :: fresh(ds[k]) && ds[k].State() == Demand(0, 0)
      ensures LoadedFrom(lims, configured)
    {
      bs, ds, lims := map[], map[], map[];
      ghost var source: map<string, string> := map[];
      var rest := configured.Keys;
      while rest != {}
        invariant rest <= configured.Keys
        invariant bs.Keys == ds.Keys == lims.Keys == source.Keys
        invariant Injective(bs) && Injective(ds)
        invariant forall raw | raw in configured && raw !in rest && configured[raw].Some? :: Lower(raw) in lims
        invariant forall k | k in source ::
          source[k] in configured && Lower(source[k]) == k && configured[source[k]] == Some(lims[k])
        invariant forall k | k in ds :: fresh(ds[k]) && ds[k].State() == Demand(0, 0)
        invariant forall k | k in bs :: fresh(bs[k]) && bs[k].State() == FullShare(lims[k], n, clock(k))
        decreases rest
      {
        var raw :| raw in rest;
        rest := rest - {raw};
        if configured[raw].Some? {
          var a := configured[raw].value;
          var k := Lower(raw);
          var b := new TokenBucket(Share(a.maxRpm, n), Share(a.maxTpm, n), clock(k));
          var d := new DemandCounter();
          InjectiveUpdate(bs, k, b);
          InjectiveUpdate(ds, k, d);
          bs, ds, lims, source := bs[k := b], ds[k := d], lims[k := a], source[k := raw];
        }
      }
    }

    predicate Known(location: string, model: string) {
      Key(location, model) in buckets
    }

    method Record(location: string, model: string, tokens: int)
      requires Valid()
      modifies demand.Values
      ensures Buckets() == old(Buckets())
      ensures !Known(location, model) ==> Counters() == old(Counters())
      ensures var k := Key(location, model);
        Known(location, model) ==> Counters() == old(Counters())[k := Counted(old(Counters())[k], tokens)]
    {
      var k := Key(location, model);
      if k in demand {
        demand[k].requests := demand[k].requests + 1;
        demand[k].tokens := demand[k].tokens + Max(tokens, 0);
      }
    }

    method TryAdmit(location: string, model: string, tokens: int, now: int) returns (ok: bool, known: bool)
      requires Valid()
      modifies buckets.Values, demand.Values
      ensures known == Known(location, model)
      ensures !known ==> !ok && State() == old(State())
      ensures known ==>
        (State(), ok) == Attempted(old(State()), Key(location, model), Event(now, TryAcquireAbove(tokens, reservePercent)), tokens)
    {
      var k := Key(location, model);
      if k !in buckets {
        return false, false;
      }
      Record(location, model, tokens);
      ok := buckets[k].TryAcquireAbove(tokens, reservePercent, now);
      known := true;
      ghost var after := Apply(old(Buckets())[k], Event(now, TryAcquireAbove(tokens, reservePercent)));
      assert old(Buckets())[k] == old(buckets[k].State());
      assert Buckets() == old(Buckets())[k := after.0];
    }

    method AdmitCritical(location: string, model: string, tokens: int, now: int) returns (within: bool, known: bool)
      requires Valid()
      modifies buckets.Values, demand.Values
      ensures known == Known(location, model)
      ensures !known ==> within && State() == old(State())
      ensures known ==>
        (State(), within) == Attempted(old(State()), Key(location, model), Event(now, ForceAcquire(tokens)), tokens)
    {
      var k := Key(location, model);
      if k !in buckets {
        return true, false;
      }
      Record(location, model, tokens);
      within := buckets[k].ForceAcquire(tokens, now);
      known := true;
      ghost var after := Apply(old(Buckets())[k], Event(now, ForceAcquire(tokens)));
      assert old(Buckets())[k] == old(buckets[k].State());
      assert Buckets() == old(Buckets())[k := after.0];
    }

    // The SetCapacity call on the bucket of key k.
    method ResizeBucket(k: string, maxRPM: int, maxTPM: int, now: int)
      requires Valid() && k in buckets
      modifies buckets.Values
      ensures Counters() == old(Counters())
      ensures Buckets() == old(Buckets())[k := Apply(old(Buckets())[k], Event(now, SetCapacity(maxRPM, maxTPM))).0]
    {
      buckets[k].SetCapacity(maxRPM, maxTPM, now);
      ghost var after := Apply(old(Buckets())[k], Event(now, SetCapacity(maxRPM, maxTPM)));
      assert old(Buckets())[k] == old(buckets[k].State());
      assert Buckets() == old(Buckets())[k := after.0];
    }

    method ApplyShares(shares: seq<TargetShare>, clock: nat -> int)
      requires Valid()
      modifies buckets.Values
      ensures Counters() == old(Counters())
      ensures Buckets() == SharesApplied(old(Buckets()), allowances, shares, clock)
    {
      for i := 0 to |shares|
        invariant Counters() == old(Counters())
        invariant Buckets() == SharesApplied(old(Buckets()), allowances, shares[..i], clock)
      {
        var sh := shares[i];
        var k := Lower(Trim(sh.target));
        assert shares[..i + 1][..i] == shares[..i];
        if k in buckets {
          var a := allowances[k];
          ResizeBucket(k, FractionOf(a.maxRpm, sh.rpmFraction), FractionOf(a.maxTpm, sh.tpmFraction), clock(i));
        }
      }
      assert shares[..|shares|] == shares;
    }

    method ResetShares(clock: string -> int)
      requires Valid()
      modifies buckets.Values
      ensures Counters() == old(Counters())
      ensures forall k | k in buckets :: Buckets()[k] == EvenSplit(old(Buckets())[k], allowances[k], replicas, clock(k))
    {
      hide Share, EvenSplit, Apply;
      ghost var before, now := Buckets(), Buckets();
      var rest := buckets.Keys;
      while rest != {}
        invariant rest <= buckets.Keys
        invariant Counters() == old(Counters()) && Buckets() == now
        invariant now.Keys == before.Keys
        invariant forall k | k in rest :: now[k] == before[k]
        invariant forall k | k in now && k !in rest :: now[k] == EvenSplit(before[k], allowances[k], replicas, clock(k))
        decreases rest
      {
        var k :| k in rest;
        rest := rest - {k};
        var a := allowances[k];
        ResizeBucket(k, Share(a.maxRpm, replicas), Share(a.maxTpm, replicas), clock(k));
        EvenSplitIs(before[k], a, replicas, clock(k));
        now := now[k := EvenSplit(before[k], a, replicas, clock(k))];
      }
    }

    // The two swaps that read and clear one counter.
    method SwapOut(k: string) returns (req: int, tok: int)
      requires Valid() && k in demand
      modifies demand.Values
      ensures Buckets() == old(Buckets())
      ensures Demand(req, tok) == old(Counters())[k]
      ensures Counters() == old(Counters())[k := Demand(0, 0)]
    {
      req, tok := demand[k].requests, demand[k].tokens;
      demand[k].requests, demand[k].tokens := 0, 0;
    }

    // Every target with demand appears exactly once; all counters restart at 0.
    method DrainDemand() returns (out: seq<TargetDemand>)
      requires Valid()
      modifies demand.Values
      ensures Buckets() == old(Buckets())
      ensures forall k | k in demand :: Counters()[k] == Demand(0, 0)
      ensures IsDrain(out, old(Counters()), {})
    {
      out := [];
      ghost var before, now := Counters(), Counters();
      var rest := demand.Keys;
      while rest != {}
        invariant rest <= demand.Keys
        invariant Buckets() == old(Buckets()) && Counters() == now
        invariant now.Keys == before.Keys
        invariant forall k | k in now :: now[k] == if k in rest then before[k] else Demand(0, 0)
        invariant IsDrain(out, before, rest)
        decreases rest
      {
        var k :| k in rest;
        var req, tok := SwapOut(k);
        now := now[k := Demand(0, 0)];
        DrainStep(out, before, rest, k);
        rest := rest - {k};
        if req == 0 && tok == 0 {
          continue;
        }
        out := out + [TargetDemand(k, req, tok)];
      }
    }
  }

  // out lists every nonzero counter outside rest, once, with its counts.
  ghost predicate IsDrain(out: seq<TargetDemand>, counters: map<string, Demand>, rest: set<string>) {
    && (forall i, j | 0 <= i < j < |out| :: out[i].target != out[j].target)
    && (forall d :: d in out <==>
         && d.target in counters && d.target !in rest
         && counters[d.target] == Demand(d.requests, d.tokens) && (d.requests != 0 || d.tokens != 0))
  }

  lemma {:induction false} DrainStep(out: seq<TargetDemand>, before: map<string, Demand>, rest: set<string>, k: string)
    requires k in rest && rest <= before.Keys
    requires IsDrain(out, before, rest)
    ensures before[k] == Demand(0, 0) ==> IsDrain(out, before, rest - {k})
    ensures before[k] != Demand(0, 0) ==>
      IsDrain(out + [TargetDemand(k, before[k].requests, before[k].tokens)], before, rest - {k})
  {
    forall i | 0 <= i < |out| ensures out[i].target != k {
      assert out[i] in out;
    }
  }
}
