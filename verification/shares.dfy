// pkg/controlplane/shares.go: replicas report demand, the tracker smooths it
// and tells each replica its share of every target. Weights are real numbers.
module Shares {
  import opened Prelude
  import opened Text
  import opened Sorting
  import opened Limiters

  const SHARE_TTL: int := 30_000_000_000
  const SHARE_FLOOR: real := 0.1
  const SMOOTHING: real := 0.5

  datatype Replica = Replica(lastSeen: int, requests: map<string, real>, tokens: map<string, real>)

  function Loads(r: Replica, m: Side): map<string, real> {
    if m.Rpm? then r.requests else r.tokens
  }

  function Get(m: map<string, real>, k: string): real {
    if k in m then m[k] else 0.0
  }

  // ---------- Smoothing ----------

  // One uniform average per target; a target absent from a side counts as 0.
  function Smoothed(avg: map<string, real>, latest: map<string, real>, first: bool): map<string, real> {
    map k | k in avg.Keys + latest.Keys ::
      if first && k in latest then latest[k]
      else if first then avg[k]
      else SMOOTHING * Get(latest, k) + (1.0 - SMOOTHING) * Get(avg, k)
  }

  method Smooth(avg: map<string, real>, latest: map<string, real>, first: bool) returns (r: map<string, real>)
    ensures r == Smoothed(avg, latest, first)
  {
    r := avg;
    var rest := latest.Keys;
    while rest != {}
      invariant rest <= latest.Keys
      invariant r.Keys == avg.Keys + (latest.Keys - rest)
      invariant forall k | k in r ::
        r[k] == if k in latest && k !in rest then Smoothed(avg, latest, first)[k] else avg[k]
      decreases rest
    {
      var k :| k in rest;
      rest := rest - {k};
      if first {
        r := r[k := latest[k]];
        continue;
      }
      r := r[k := SMOOTHING * latest[k] + (1.0 - SMOOTHING) * Get(r, k)];
    }
    rest := r.Keys;
    while rest != {}
      invariant rest <= r.Keys == avg.Keys + latest.Keys
      invariant forall k | k in r ::
        r[k] == if k in latest || k !in rest then Smoothed(avg, latest, first)[k] else avg[k]
      decreases rest
    {
      var k :| k in rest;
      rest := rest - {k};
      if k !in latest && !first {
        r := r[k := r[k] * (1.0 - SMOOTHING)];
      }
    }
  }

  // ---------- One report ----------

  // The demand of one report per normalised target; nil entries and blank
  // targets are skipped, and negative counts are taken as 0.
  function Latest(demand: seq<Option<TargetDemand>>, m: Side): map<string, real> {
    if demand == [] then map[]
    else
      var n := |demand| - 1;
      var prev := Latest(demand[..n], m);
      match demand[n]
      case None => prev
      case Some(d) =>
        var k := Lower(Trim(d.target));
        if k == "" then prev
        else prev[k := Get(prev, k) + Max(if m.Rpm? then d.requests else d.tokens, 0) as real]
  }

  method Aggregate(demand: seq<Option<TargetDemand>>) returns (req: map<string, real>, tok: map<string, real>)
    ensures req == Latest(demand, Rpm) && tok == Latest(demand, Tpm)
  {
    req, tok := map[], map[];
    for i := 0 to |demand|
      invariant req == Latest(demand[..i], Rpm) && tok == Latest(demand[..i], Tpm)
    {
      assert demand[..i + 1][..i] == demand[..i];
      if demand[i].None? {
        continue;
      }
      var d := demand[i].value;
      var key := Lower(Trim(d.target));
      if key == "" {
        continue;
      }
      req := req[key := Get(req, key) + Max(d.requests, 0) as real];
      tok := tok[key := Get(tok, key) + Max(d.tokens, 0) as real];
    }
    assert demand[..|demand|] == demand;
  }

  // A replica counts as active while its last report is within the TTL; the
  // reporting replica itself is never evicted.
  function Evicted(t: map<string, Replica>, client: string, now: int): map<string, Replica> {
    map id | id in t && (id == client || now - t[id].lastSeen <= SHARE_TTL) :: t[id]
  }

  function Folded(t: map<string, Replica>, client: string, demand: seq<Option<TargetDemand>>, now: int): map<string, Replica> {
    var first := client !in t;
    var r := if first then Replica(now, map[], map[]) else t[client];
    t[client := Replica(now, Smoothed(r.requests, Latest(demand, Rpm), first), Smoothed(r.tokens, Latest(demand, Tpm), first))]
  }

  function Recorded(t: map<string, Replica>, client: string, demand: seq<Option<TargetDemand>>, now: int): map<string, Replica> {
    Folded(Evicted(t, client, now), client, demand, now)
  }

  predicate Tracks(t: map<string, Replica>, id: string, k: string) {
    id in t && k in t[id].requests.Keys + t[id].tokens.Keys
  }

  ghost function Targets(t: map<string, Replica>): set<string> {
    set id, k | id in t && k in t[id].requests.Keys + t[id].tokens.Keys :: k
  }

  // ---------- Loads and fractions ----------

  // What every replica puts on a target, and the target's total.
  function Column(t: map<string, Replica>, target: string, m: Side): map<string, real> {
    map id | id in t :: Get(Loads(t[id], m), target)
  }

  ghost function Fraction(t: map<string, Replica>, client: string, target: string, m: Side): real {
    var n, total := |t| as real, Sum(Column(t, target, m));
    if n == 0.0 then 1.0
    else if total <= 0.0 then 1.0 / n
    else SHARE_FLOOR / n + (1.0 - SHARE_FLOOR) * Get(Column(t, target, m), client) / total
  }

  ghost function ShareOf(t: map<string, Replica>, client: string, target: string): TargetShare {
    TargetShare(target, Fraction(t, client, target, Rpm), Fraction(t, client, target, Tpm))
  }

  // ---------- The tracker ----------

  class ReplicaDemand {
    var lastSeen: int
    var requests: map<string, real>
    var tokens: map<string, real>

    constructor (now: int)
      ensures State() == Replica(now, map[], map[])
    {
      lastSeen, requests, tokens := now, map[], map[];
    }

    ghost function State(): Replica
      reads this
    {
      Replica(lastSeen, requests, tokens)
    }
  }

  datatype ReportResult = EmptyClient | Report(shares: seq<TargetShare>, active: int)

  class ShareTracker {
    var replicas: map<string, ReplicaDemand>

    ghost predicate Valid()
      reads this
    {
      Injective(replicas)
    }

    ghost function State(): map<string, Replica>
      reads this, replicas.Values
    {
      map id | id in replicas :: replicas[id].State()
    }

    constructor ()
      ensures Valid() && State() == map[]
    {
      replicas := map[];
    }

    function LoadOf(id: string, target: string, m: Side): real
      requires id in replicas
      reads this, replicas.Values
    {
      Get(if m.Rpm? then replicas[id].requests else replicas[id].tokens, target)
    }

    method TotalLoad(target: string, m: Side) returns (total: real)
      ensures total == Sum(Column(State(), target, m))
    {
      ghost var column := Column(State(), target, m);
      ghost var left := column;
      total := 0.0;
      var rest := replicas.Keys;
      while rest != {}
        invariant left.Keys == rest <= replicas.Keys
        invariant forall id | id in left :: left[id] == column[id]
        invariant total + Sum(left) == Sum(column)
        decreases rest
      {
        var id :| id in rest;
        SumPick(left, id);
        assert column[id] == LoadOf(id, target, m);
        total := total + LoadOf(id, target, m);
        rest, left := rest - {id}, left - {id};
      }
    }

    method ComputeFraction(client: string, target: string, m: Side) returns (f: real)
      requires client in replicas
      ensures f == Fraction(State(), client, target, m)
    {
      assert |State()| == |replicas| by {
        assert State().Keys == replicas.Keys;
      }
      var n := |replicas| as real;
      var total := TotalLoad(target, m);
      if total <= 0.0 {
        return 1.0 / n;
      }
      var mine := LoadOf(client, target, m);
      return SHARE_FLOOR / n + (1.0 - SHARE_FLOOR) * mine / total;
    }

    method Evict(client: string, now: int)
      requires Valid()
      modifies this
      ensures Valid() && replicas.Values <= old(replicas.Values)
      ensures State() == Evicted(old(State()), client, now)
    {
      ghost var before := replicas;
      var rest := replicas.Keys;
      while rest != {}
        invariant rest <= replicas.Keys <= before.Keys
        invariant forall id | id in replicas :: replicas[id] == before[id]
        invariant forall id | id in before && id !in rest ::
          id in replicas <==> (id == client || now - before[id].lastSeen <= SHARE_TTL)
        decreases rest
      {
        var id :| id in rest;
        rest := rest - {id};
        if id != client && now - replicas[id].lastSeen > SHARE_TTL {
          replicas := replicas - {id};
        }
      }
      forall r | r in replicas.Values ensures r in before.Values {
        var id :| id in replicas && replicas[id] == r;
        assert before[id] == r;
      }
    }

    // Folds one report into the reporting replica, which is added if missing.
    method Record(client: string, demand: seq<Option<TargetDemand>>, now: int)
      requires Valid()
      modifies this, replicas.Values
      ensures Valid() && fresh(replicas.Values - old(replicas.Values))
      ensures State() == Folded(old(State()), client, demand, now)
    {
      hide Smoothed, Latest;
      var first := client !in replicas;
      if first {
        var added := new ReplicaDemand(now);
        InjectiveUpdate(replicas, client, added);
        replicas := replicas[client := added];
      }
      var latestReq, latestTok := Aggregate(demand);
      var r := replicas[client];
      var requests := Smooth(r.requests, latestReq, first);
      var tokens := Smooth(r.tokens, latestTok, first);
      r.requests, r.tokens, r.lastSeen := requests, tokens, now;
    }

    method CollectTargets() returns (targets: set<string>)
      ensures targets == Targets(State())
    {
      targets := {};
      ghost var st := State();
      var rest := replicas.Keys;
      while rest != {}
        invariant rest <= replicas.Keys
        invariant forall id | id in st && id !in rest :: st[id].requests.Keys + st[id].tokens.Keys <= targets
        invariant forall k | k in targets :: exists id :: Tracks(st, id, k)
        decreases rest
      {
        var id :| id in rest;
        rest := rest - {id};
        assert forall k | k in st[id].requests.Keys + st[id].tokens.Keys :: Tracks(st, id, k);
        targets := targets + replicas[id].requests.Keys + replicas[id].tokens.Keys;
      }
    }

    method SharesOf(client: string, keys: seq<string>) returns (shares: seq<TargetShare>)
      requires client in replicas
      ensures |shares| == |keys|
      ensures forall j | 0 <= j < |keys| :: shares[j] == ShareOf(State(), client, keys[j])
    {
      shares := [];
      ghost var st := State();
      for i := 0 to |keys|
        invariant |shares| == i && State() == st
        invariant forall j | 0 <= j < i :: shares[j] == ShareOf(st, client, keys[j])
      {
        var rpm := ComputeFraction(client, keys[i], Rpm);
        var tpm := ComputeFraction(client, keys[i], Tpm);
        shares := shares + [TargetShare(keys[i], rpm, tpm)];
      }
    }

    method Update(client: string, demand: seq<Option<TargetDemand>>, now: int)
      requires Valid()
      modifies this, replicas.Values
      ensures Valid()
      ensures State() == Recorded(old(State()), client, demand, now)
    {
      Evict(client, now);
      Record(client, demand, now);
    }

    method Answer(client: string) returns (shares: seq<TargetShare>)
      requires client in replicas
      ensures SharesFor(State(), client, shares)
    {
      var targets := CollectTargets();
      var keys := SortedKeys(targets);
      shares := SharesOf(client, keys);
      SharesForKeys(State(), client, keys, shares);
    }

    method Report(clientID: string, demand: seq<Option<TargetDemand>>, now: int) returns (r: ReportResult)
      requires Valid()
      modifies this, replicas.Values
      ensures Valid()
      ensures Trim(clientID) == "" ==> r == EmptyClient && State() == old(State())
      ensures Trim(clientID) != "" ==>
        && State() == Recorded(old(State()), Trim(clientID), demand, now)
        && r.Report? && r.active == |State()|
        && SharesFor(State(), Trim(clientID), r.shares)
    {
      var client := Trim(clientID);
      if client == "" {
        return EmptyClient;
      }
      Update(client, demand, now);
      assert client in State() && State().Keys == replicas.Keys;
      var shares := Answer(client);
      r := ReportResult.Report(shares, |replicas|);
    }
  }

  lemma {:induction false} SharesForKeys(t: map<string, Replica>, client: string, keys: seq<string>, shares: seq<TargetShare>)
    requires Ascending(keys) && (forall k :: k in keys <==> k in Targets(t))
    requires |shares| == |keys| && forall j | 0 <= j < |keys| :: shares[j] == ShareOf(t, client, keys[j])
    ensures SharesFor(t, client, shares)
  {
    forall sh | sh in shares ensures sh.target in Targets(t) && sh == ShareOf(t, client, sh.target) {
      var j :| 0 <= j < |shares| && shares[j] == sh;
      assert keys[j] in keys;
    }
    forall k | k in Targets(t) ensures exists i :: 0 <= i < |shares| && shares[i].target == k {
      var i :| 0 <= i < |keys| && keys[i] == k;
      assert shares[i].target == k;
    }
  }

  // One share per tracked target, in strictly ascending order of target.
  ghost predicate SharesFor(t: map<string, Replica>, client: string, shares: seq<TargetShare>) {
    && (forall i, j | 0 <= i < j < |shares| :: Less(shares[i].target, shares[j].target))
    && (forall sh | sh in shares :: sh.target in Targets(t) && sh == ShareOf(t, client, sh.target))
    && (forall k | k in Targets(t) :: exists i :: 0 <= i < |shares| && shares[i].target == k)
  }
}
