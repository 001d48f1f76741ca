// Decide holds no lock of its own: it makes its bucket calls one by one, and
// the calls of concurrent decisions interleave. Here every request is a thread
// whose steps are these calls, and the guarantees hold for every schedule.
module CascadeThreads {
  import opened Prelude
  import opened Quotas
  import opened Text
  import opened TokenBuckets
  import BR = BucketRuns
  import opened Limiters
  import opened Cascade
  import opened CascadeRuns

  // A request before its primary target, before cascade step i, or decided.
  datatype Thread = Starting(call: Call) | Falling(call: Call, i: nat) | Done(call: Call, decision: Decision)

  // Which thread moves, and the clock reading its bucket call takes.
  datatype Move = Move(thread: nat, now: int)

  function First(rules: Rules, st: Local, c: Call, now: int): (r: (Thread, Local, seq<Attempt>))
    requires WellFormed(st)
    ensures WellFormed(r.1) && r.1.buckets.Keys == st.buckets.Keys
  {
    var r := c.request;
    if !Knows(st, c.snap, r.project, r.region, r.model) || r.priority.Critical? then
      var o := DecideOn(rules, st, c.snap, r, (i: nat) => now);
      (Done(c, o.decision), o.state, o.attempts)
    else
      var (ok, st', tried) := TryOn(rules, st, c.snap, r.project, r.region, r.model, r.tokens, now);
      if ok then (Done(c, Forward(if r.priority.Custom? then Healthy else BestEffortAdmitted)), st', tried)
      else if r.priority.Custom? && StepsFor(rules, r.policy) != [] then (Falling(c, 0), st', tried)
      else (Done(c, Shed(if r.priority.Custom? then NoPolicy else BestEffortShed)), st', tried)
  }

  function Fall(rules: Rules, st: Local, c: Call, i: nat, now: int): (r: (Thread, Local, seq<Attempt>))
    requires WellFormed(st)
    ensures WellFormed(r.1) && r.1.buckets.Keys == st.buckets.Keys
  {
    var r, steps := c.request, StepsFor(rules, c.request.policy);
    if i >= |steps| then (Done(c, Shed(CascadeExhausted)), st, [])
    else if !Knows(st, c.snap, r.project, steps[i].targetRegion, steps[i].targetModel) then (Falling(c, i + 1), st, [])
    else
      var (ok, st', tried) := TryOn(rules, st, c.snap, r.project, steps[i].targetRegion, steps[i].targetModel, r.tokens, now);
      (if ok then Done(c, Decision(false, steps[i].targetModel, steps[i].targetRegion, Rerouted)) else Falling(c, i + 1), st', tried)
  }

  // One step of a thread: at most one bucket call.
  function Piece(rules: Rules, st: Local, th: Thread, now: int): (r: (Thread, Local, seq<Attempt>))
    requires WellFormed(st)
    ensures WellFormed(r.1) && r.1.buckets.Keys == st.buckets.Keys
  {
    match th
    case Starting(c) => First(rules, st, c, now)
    case Falling(c, i) => Fall(rules, st, c, i, now)
    case Done(_, _) => (th, st, [])
  }

  datatype World = World(state: Local, threads: seq<Thread>, attempts: seq<Attempt>)

  // Any schedule; moves of threads that do not exist do nothing.
  function Weave(rules: Rules, st: Local, threads: seq<Thread>, moves: seq<Move>): (w: World)
    requires WellFormed(st)
    ensures WellFormed(w.state) && w.state.buckets.Keys == st.buckets.Keys && |w.threads| == |threads|
    decreases |moves|
  {
    if moves == [] then World(st, threads, [])
    else if moves[0].thread >= |threads| then Weave(rules, st, threads, moves[1..])
    else
      var p := Piece(rules, st, threads[moves[0].thread], moves[0].now);
      var rest := Weave(rules, p.1, threads[moves[0].thread := p.0], moves[1..]);
      rest.(attempts := p.2 + rest.attempts)
  }

  // The best-effort cost that the decisions made along a schedule put on k.
  function Settled(th: Thread, th': Thread, k: string, s: Side): nat {
    if !th.Done? && th'.Done? then Billed(th'.decision, th'.call.request, k, s) else 0
  }

  function WovenBilled(rules: Rules, st: Local, threads: seq<Thread>, moves: seq<Move>, k: string, s: Side): nat
    requires WellFormed(st)
    decreases |moves|
  {
    if moves == [] then 0
    else if moves[0].thread >= |threads| then WovenBilled(rules, st, threads, moves[1..], k, s)
    else
      var th := threads[moves[0].thread];
      var p := Piece(rules, st, th, moves[0].now);
      Settled(th, p.0, k, s) + WovenBilled(rules, p.1, threads[moves[0].thread := p.0], moves[1..], k, s)
  }

  // ---------- A thread that is not interrupted is Decide ----------

  // The thread's remaining steps, with the clock readings of its call.
  function Finish(rules: Rules, st: Local, th: Thread, done: seq<Attempt>): (o: Outcome)
    requires WellFormed(st)
    decreases match th
              case Starting(_) => |StepsFor(rules, th.call.request.policy)| + 2
              case Falling(_, i) => Max(|StepsFor(rules, th.call.request.policy)| - i, 0) + 1
              case Done(_, _) => 0
  {
    match th
    case Done(_, d) => Outcome(d, st, done)
    case Starting(c) =>
      var p := First(rules, st, c, c.clock(0));
      Finish(rules, p.1, p.0, done + p.2)
    case Falling(c, i) =>
      var p := Fall(rules, st, c, i, c.clock(i + 1));
      Finish(rules, p.1, p.0, done + p.2)
  }

  lemma {:induction false} FinishFalling(rules: Rules, st: Local, c: Call, i: nat, done: seq<Attempt>)
    requires WellFormed(st) && i <= |StepsFor(rules, c.request.policy)|
    ensures Finish(rules, st, Falling(c, i), done)
         == CascadeOn(rules, st, c.snap, c.request, StepsFor(rules, c.request.policy), i, c.clock, done)
    decreases |StepsFor(rules, c.request.policy)| - i
  {
    hide TryOn, Knows, StepsFor;
    var p := Fall(rules, st, c, i, c.clock(i + 1));
    if p.0.Falling? {
      FinishFalling(rules, p.1, c, i + 1, done + p.2);
    }
    assert done + [] == done;
  }

  lemma {:induction false} UninterruptedIsDecide(rules: Rules, st: Local, c: Call)
    requires WellFormed(st)
    ensures Finish(rules, st, Starting(c), []) == DecideOn(rules, st, c.snap, c.request, c.clock)
  {
    hide TryOn, Knows, StepsFor;
    var p := First(rules, st, c, c.clock(0));
    assert [] + p.2 == p.2;
    if p.0.Falling? {
      FinishFalling(rules, p.1, c, 0, p.2);
    }
  }

  // ---------- Every schedule, bucket by bucket ----------

  lemma {:induction false} FirstExplained(rules: Rules, st: Local, c: Call, now: int, k: string, s: Side)
    requires WellFormed(st)
    ensures
      var p := First(rules, st, c, now);
      Explains(rules, st, p.2, c.request.priority.Critical?, p.1, k, s, if k in st.buckets then Settled(Starting(c), p.0, k, s) else 0)
  {
    var r := c.request;
    if !Knows(st, c.snap, r.project, r.region, r.model) || r.priority.Critical? {
      DecideExplained(rules, st, c.snap, r, (i: nat) => now, k, s);
    } else {
      TryExplained(rules, st, c.snap, r.project, r.region, r.model, r.tokens, now, k, s);
    }
    hide Explains, DecideOn, TryOn, Knows, StepsFor;
  }

  lemma {:induction false} FallExplained(rules: Rules, st: Local, c: Call, i: nat, now: int, k: string, s: Side)
    requires WellFormed(st) && !c.request.priority.Critical?
    ensures
      var p := Fall(rules, st, c, i, now);
      Explains(rules, st, p.2, false, p.1, k, s, if k in st.buckets then Settled(Falling(c, i), p.0, k, s) else 0)
  {
    var r, steps := c.request, StepsFor(rules, c.request.policy);
    if i < |steps| && Knows(st, c.snap, r.project, steps[i].targetRegion, steps[i].targetModel) {
      TryExplained(rules, st, c.snap, r.project, steps[i].targetRegion, steps[i].targetModel, r.tokens, now, k, s);
      hide Explains, TryOn, Knows, StepsFor;
    } else {
      hide TryOn, Knows, StepsFor;
    }
  }

  // Critical requests never cascade.
  ghost predicate Proper(threads: seq<Thread>) {
    forall th | th in threads :: th.Falling? ==> !th.call.request.priority.Critical?
  }

  ghost predicate NoCritical(threads: seq<Thread>) {
    forall th | th in threads :: !th.call.request.priority.Critical?
  }

  lemma {:induction false} PieceExplained(rules: Rules, st: Local, th: Thread, now: int, k: string, s: Side)
    requires WellFormed(st) && (th.Falling? ==> !th.call.request.priority.Critical?)
    ensures
      var p := Piece(rules, st, th, now);
      && Explains(rules, st, p.2, th.call.request.priority.Critical?, p.1, k, s, if k in st.buckets then Settled(th, p.0, k, s) else 0)
      && p.0.call == th.call && (p.0.Falling? ==> !th.call.request.priority.Critical?)
  {
    match th
    case Starting(c) => FirstExplained(rules, st, c, now, k, s);
    case Falling(c, i) => FallExplained(rules, st, c, i, now, k, s);
    case Done(_, _) => hide First, Fall;
  }

  // What an explained list of attempts is for one bucket.
  lemma {:induction false} ExplainedEvents(rules: Rules, st: Local, tries: seq<Attempt>, critical: bool, st': Local, k: string, s: Side, cost: nat)
    requires Explains(rules, st, tries, critical, st', k, s, cost) && k in st.buckets
    ensures
      var es := EventsOn(k, tries);
      && k in st'.buckets && st'.buckets[k] == BR.Run(st.buckets[k], es) && BR.BestEffortCost(st.buckets[k], es, s) == cost
      && BR.FixedCapacity(es) && BR.Reserve(es, rules.reservePercent) && (!critical ==> BR.Protected(es, rules.reservePercent))
  {
    ReplayPerKey(st.buckets, tries, k);
    EventsComeFrom(k, tries);
  }

  // In every schedule, what happens on a bucket is a run of that bucket at the
  // engine's reserve, whose best-effort cost is what the decisions admitted.
  lemma {:induction false} WovenPerBucket(rules: Rules, st: Local, threads: seq<Thread>, moves: seq<Move>, k: string, s: Side)
    requires WellFormed(st) && k in st.buckets && Proper(threads)
    ensures
      var w := Weave(rules, st, threads, moves);
      var es := EventsOn(k, w.attempts);
      && w.state.buckets[k] == BR.Run(st.buckets[k], es)
      && BR.BestEffortCost(st.buckets[k], es, s) == WovenBilled(rules, st, threads, moves, k, s)
      && BR.FixedCapacity(es) && BR.Reserve(es, rules.reservePercent)
      && (NoCritical(threads) ==> BR.Protected(es, rules.reservePercent))
      && Proper(w.threads) && (NoCritical(threads) ==> NoCritical(w.threads))
    decreases |moves|
  {
    hide Piece, Settled, Explains;
    if moves == [] {
    } else if moves[0].thread >= |threads| {
      WovenPerBucket(rules, st, threads, moves[1..], k, s);
    } else {
      var th := threads[moves[0].thread];
      var p := Piece(rules, st, th, moves[0].now);
      assert th in threads;
      PieceExplained(rules, st, th, moves[0].now, k, s);
      ExplainedEvents(rules, st, p.2, th.call.request.priority.Critical?, p.1, k, s, Settled(th, p.0, k, s));
      var threads' := threads[moves[0].thread := p.0];
      assert forall x | x in threads' :: x == p.0 || x in threads;
      WovenPerBucket(rules, p.1, threads', moves[1..], k, s);
      var rest := Weave(rules, p.1, threads', moves[1..]);
      var first, later := EventsOn(k, p.2), EventsOn(k, rest.attempts);
      EventsConcat(k, p.2, rest.attempts);
      BR.RunConcat(st.buckets[k], first, later);
      CostConcat(st.buckets[k], first, later, s);
      hide BR.Run, BR.BestEffortCost, EventsOn;
    }
  }

  lemma {:induction false} WeaveConcat(rules: Rules, st: Local, threads: seq<Thread>, a: seq<Move>, b: seq<Move>)
    requires WellFormed(st)
    ensures
      var w := Weave(rules, st, threads, a);
      var w' := Weave(rules, w.state, w.threads, b);
      Weave(rules, st, threads, a + b) == w'.(attempts := w.attempts + w'.attempts)
    decreases |a|
  {
    hide Piece;
    if a == [] {
      assert a + b == b;
    } else {
      assert (a + b)[1..] == a[1..] + b;
      if a[0].thread >= |threads| {
        WeaveConcat(rules, st, threads, a[1..], b);
      } else {
        var p := Piece(rules, st, threads[a[0].thread], a[0].now);
        WeaveConcat(rules, p.1, threads[a[0].thread := p.0], a[1..], b);
      }
    }
  }

  // The windowed admission bound for every schedule of concurrent decisions.
  lemma {:induction false} WovenWindow(rules: Rules, st: Local, threads: seq<Thread>, before: seq<Move>, window: seq<Move>, k: string, s: Side, t0: int, T: nat)
    requires WellFormed(st) && k in st.buckets && BR.Steady(On(st.buckets[k], s), t0) && Proper(threads)
    requires 0 <= rules.reservePercent <= 90
    requires BR.InOrder(t0, EventsOn(k, Weave(rules, st, threads, before + window).attempts))
    requires
      var mid := Weave(rules, st, threads, before);
      var es := EventsOn(k, Weave(rules, mid.state, mid.threads, window).attempts);
      es != [] ==> es[|es| - 1].at - es[0].at <= T
    ensures
      var mid := Weave(rules, st, threads, before);
      var C := On(st.buckets[k], s).max;
      && Period(C) > 0
      && WovenBilled(rules, mid.state, mid.threads, window, k, s)
         <= C - FloorOf(C, rules.reservePercent) + BR.CeilDiv(T, Period(C))
  {
    var mid := Weave(rules, st, threads, before);
    var late := Weave(rules, mid.state, mid.threads, window);
    WeaveConcat(rules, st, threads, before, window);
    EventsConcat(k, mid.attempts, late.attempts);
    WovenPerBucket(rules, st, threads, before, k, s);
    WovenPerBucket(rules, mid.state, mid.threads, window, k, s);
    BR.WindowBound(st.buckets[k], t0, EventsOn(k, mid.attempts), EventsOn(k, late.attempts), T, s, rules.reservePercent);
  }

  // Without critical traffic no schedule dips into the reserve.
  lemma {:induction false} WovenReserve(rules: Rules, st: Local, threads: seq<Thread>, moves: seq<Move>, k: string, s: Side)
    requires WellFormed(st) && k in st.buckets && NoCritical(threads)
    requires BR.ReserveHeld(On(st.buckets[k], s), rules.reservePercent)
    ensures
      var d := On(Weave(rules, st, threads, moves).state.buckets[k], s);
      && BR.ReserveHeld(d, rules.reservePercent) && d.max == On(st.buckets[k], s).max
      && (d.max * rules.reservePercent >= 0 ==> 100 * (d.cur + 1) > d.max * rules.reservePercent)
  {
    WovenPerBucket(rules, st, threads, moves, k, s);
    BR.ReserveKept(st.buckets[k], EventsOn(k, Weave(rules, st, threads, moves).attempts), s, rules.reservePercent);
  }
}
