// pkg/governor/limiter.go: the demand counters under concurrency. A record is
// two atomic adds and a drain is two atomic swaps per target; here any number
// of both interleave.
module Demands {
  import opened Prelude
  import opened Limiters

  // A recorder between its two adds, and a drainer between its swaps.
  datatype Recorder = Idle | OwesTokens(key: string, tokens: int)

  datatype Drainer = Resting | HoldsRequests(key: string, requests: int) | HoldsBoth(key: string, requests: int, tokens: int)

  // attempts lists the admission attempts recorded so far, accepted or not;
  // drained lists what all drains have returned.
  datatype State = State(
    counters: map<string, Demand>, recorders: seq<Recorder>, drainers: seq<Drainer>,
    attempts: seq<TargetDemand>, drained: seq<TargetDemand>)

  datatype Action =
    | AddRequest(r: nat, key: string, tokens: int)
    | AddTokens(r: nat)
    | SwapRequests(d: nat, key: string)
    | SwapTokens(d: nat)
    | Emit(d: nat)

  predicate Enabled(s: State, a: Action) {
    match a
    case AddRequest(r, key, _) => r < |s.recorders| && s.recorders[r].Idle? && key in s.counters
    case AddTokens(r) => r < |s.recorders| && s.recorders[r].OwesTokens? && s.recorders[r].key in s.counters
    case SwapRequests(d, key) => d < |s.drainers| && s.drainers[d].Resting? && key in s.counters
    case SwapTokens(d) => d < |s.drainers| && s.drainers[d].HoldsRequests? && s.drainers[d].key in s.counters
    case Emit(d) => d < |s.drainers| && s.drainers[d].HoldsBoth?
  }

  function Step(s: State, a: Action): State
    requires Enabled(s, a)
  {
    match a
    case AddRequest(r, key, tokens) =>
      var c := s.counters[key];
      s.(counters := s.counters[key := c.(requests := c.requests + 1)],
         recorders := s.recorders[r := OwesTokens(key, tokens)],
         attempts := s.attempts + [TargetDemand(key, 1, Max(tokens, 0))])
    case AddTokens(r) =>
      var key, c := s.recorders[r].key, s.counters[s.recorders[r].key];
      s.(counters := s.counters[key := c.(tokens := c.tokens + Max(s.recorders[r].tokens, 0))],
         recorders := s.recorders[r := Idle])
    case SwapRequests(d, key) =>
      var c := s.counters[key];
      s.(counters := s.counters[key := c.(requests := 0)],
         drainers := s.drainers[d := HoldsRequests(key, c.requests)])
    case SwapTokens(d) =>
      var key, c := s.drainers[d].key, s.counters[s.drainers[d].key];
      s.(counters := s.counters[key := c.(tokens := 0)],
         drainers := s.drainers[d := HoldsBoth(key, s.drainers[d].requests, c.tokens)])
    case Emit(d) =>
      var h := s.drainers[d];
      s.(drainers := s.drainers[d := Resting],
         drained := if h.requests == 0 && h.tokens == 0 then s.drained
                    else s.drained + [TargetDemand(h.key, h.requests, h.tokens)])
  }

  function Start(keys: set<string>, recorders: nat, drainers: nat): State {
    State(map k | k in keys :: Demand(0, 0), seq(recorders, _ => Idle), seq(drainers, _ => Resting), [], [])
  }

  // All runs: actions that are not enabled do not happen.
  function Run(s: State, actions: seq<Action>): State {
    if actions == [] then s
    else
      var before := Run(s, actions[..|actions| - 1]);
      var a := actions[|actions| - 1];
      if Enabled(before, a) then Step(before, a) else before
  }

  // ---------- Sums ----------

  function SumOf<T>(xs: seq<T>, f: T -> int): int {
    if xs == [] then 0 else SumOf(xs[..|xs| - 1], f) + f(xs[|xs| - 1])
  }

  lemma {:induction false} SumOfUpdate<T>(xs: seq<T>, i: nat, v: T, f: T -> int)
    requires i < |xs|
    ensures SumOf(xs[i := v], f) == SumOf(xs, f) - f(xs[i]) + f(v)
  {
    var n := |xs| - 1;
    if i < n {
      SumOfUpdate(xs[..n], i, v, f);
      assert xs[i := v][..n] == xs[..n][i := v];
    } else {
      assert xs[i := v][..n] == xs[..n];
    }
  }

  lemma {:induction false} SumOfAppend<T>(xs: seq<T>, v: T, f: T -> int)
    ensures SumOf(xs + [v], f) == SumOf(xs, f) + f(v)
  {
    assert (xs + [v])[..|xs|] == xs;
  }

  lemma {:induction false} SumOfZero<T>(xs: seq<T>, f: T -> int)
    requires forall x | x in xs :: f(x) == 0
    ensures SumOf(xs, f) == 0
  {
    if xs != [] {
      assert xs[|xs| - 1] in xs;
      SumOfZero(xs[..|xs| - 1], f);
    }
  }

  // ---------- Conservation ----------

  function Of(k: string, u: Side): TargetDemand -> int {
    (d: TargetDemand) => if d.target != k then 0 else if u.Rpm? then d.requests else d.tokens
  }

  // What a recorder has promised but not yet added.
  function Owed(k: string, u: Side): Recorder -> int {
    (r: Recorder) => if r.OwesTokens? && r.key == k && u.Tpm? then Max(r.tokens, 0) else 0
  }

  // What a drainer has taken but not yet returned.
  function Held(k: string, u: Side): Drainer -> int {
    (d: Drainer) =>
      if d.Resting? || d.key != k then 0
      else if u.Rpm? then d.requests
      else if d.HoldsBoth? then d.tokens else 0
  }

  function Left(s: State, k: string, u: Side): int {
    if k !in s.counters then 0 else if u.Rpm? then s.counters[k].requests else s.counters[k].tokens
  }

  // Everything recorded is drained, held, still counted, or owed by a recorder
  // between its two adds.
  predicate Balanced(s: State, k: string, u: Side) {
    SumOf(s.attempts, Of(k, u)) == SumOf(s.drained, Of(k, u)) + SumOf(s.drainers, Held(k, u)) + Left(s, k, u) + SumOf(s.recorders, Owed(k, u))
  }

  lemma {:induction false} StepBalances(s: State, a: Action, k: string, u: Side)
    requires Enabled(s, a) && Balanced(s, k, u)
    ensures Balanced(Step(s, a), k, u)
  {
    hide SumOf, Max;
    match a
    case AddRequest(r, key, tokens) =>
      SumOfAppend(s.attempts, TargetDemand(key, 1, Max(tokens, 0)), Of(k, u));
      SumOfUpdate(s.recorders, r, OwesTokens(key, tokens), Owed(k, u));
    case AddTokens(r) =>
      SumOfUpdate(s.recorders, r, Idle, Owed(k, u));
    case SwapRequests(d, key) =>
      SumOfUpdate(s.drainers, d, HoldsRequests(key, s.counters[key].requests), Held(k, u));
    case SwapTokens(d) =>
      var h := s.drainers[d];
      SumOfUpdate(s.drainers, d, HoldsBoth(h.key, h.requests, s.counters[h.key].tokens), Held(k, u));
    case Emit(d) =>
      var h := s.drainers[d];
      SumOfUpdate(s.drainers, d, Resting, Held(k, u));
      SumOfAppend(s.drained, TargetDemand(h.key, h.requests, h.tokens), Of(k, u));
  }

  // Demand is conserved in every interleaving, at every moment.
  lemma {:induction false} DemandConserved(keys: set<string>, recorders: nat, drainers: nat, actions: seq<Action>, k: string, u: Side)
    ensures Balanced(Run(Start(keys, recorders, drainers), actions), k, u)
  {
    var s := Start(keys, recorders, drainers);
    if actions == [] {
      SumOfZero(s.recorders, Owed(k, u));
      SumOfZero(s.drainers, Held(k, u));
    } else {
      var before := Run(s, actions[..|actions| - 1]);
      DemandConserved(keys, recorders, drainers, actions[..|actions| - 1], k, u);
      if Enabled(before, actions[|actions| - 1]) {
        StepBalances(before, actions[|actions| - 1], k, u);
      }
      hide Balanced, Start, Step;
    }
  }

  // When nobody is between two operations, what was drained and what is left
  // are exactly what was recorded.
  lemma {:induction false} QuietMeansAccounted(keys: set<string>, recorders: nat, drainers: nat, actions: seq<Action>, k: string, u: Side)
    requires
      var s := Run(Start(keys, recorders, drainers), actions);
      (forall r | r in s.recorders :: r.Idle?) && (forall d | d in s.drainers :: d.Resting?)
    ensures
      var s := Run(Start(keys, recorders, drainers), actions);
      SumOf(s.drained, Of(k, u)) + Left(s, k, u) == SumOf(s.attempts, Of(k, u))
  {
    var s := Run(Start(keys, recorders, drainers), actions);
    DemandConserved(keys, recorders, drainers, actions, k, u);
    SumOfZero(s.recorders, Owed(k, u));
    SumOfZero(s.drainers, Held(k, u));
    hide Run, Start;
  }

  // ---------- The interleaved steps refine the limiter's methods ----------

  // A record that is not interrupted is Limiter.Record.
  lemma {:induction false} RecordIsTwoAdds(s: State, r: nat, key: string, tokens: int)
    requires Enabled(s, AddRequest(r, key, tokens))
    ensures
      var s1 := Step(s, AddRequest(r, key, tokens));
      Enabled(s1, AddTokens(r)) && Step(s1, AddTokens(r)).counters == s.counters[key := Counted(s.counters[key], tokens)]
  {
  }

  // A drain of a target that is not interrupted is Limiter.SwapOut.
  lemma {:induction false} DrainIsTwoSwaps(s: State, d: nat, key: string)
    requires Enabled(s, SwapRequests(d, key))
    ensures
      var s1 := Step(s, SwapRequests(d, key));
      && Enabled(s1, SwapTokens(d))
      && Step(s1, SwapTokens(d)).counters == s.counters[key := Demand(0, 0)]
      && Step(s1, SwapTokens(d)).drainers[d] == HoldsBoth(key, s.counters[key].requests, s.counters[key].tokens)
  {
  }
}
