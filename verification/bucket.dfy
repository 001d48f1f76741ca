// pkg/governor/bucket.go: the dual-clock token bucket. The class updates its
// fields as the source does; each method is tied to a function on values, and
// module BucketRuns proves what whole runs of those functions guarantee.
module TokenBuckets {
  import opened Prelude

  const MINUTE: int := 60_000_000_000

  // One rate dimension: capacity, balance, and the instant (ns) up to which
  // elapsed time has been turned into balance.
  datatype Dim = Dim(max: int, cur: int, last: int)

  datatype Bucket = Bucket(rpm: Dim, tpm: Dim)

  function On(b: Bucket, s: Side): Dim {
    match s
    case Rpm => b.rpm
    case Tpm => b.tpm
  }

  datatype Op =
    | TryAcquire(tokens: int)
    | TryAcquireAbove(tokens: int, floorPercent: int)
    | ForceAcquire(tokens: int)
    | GetAvailable
    | SetCapacity(maxRPM: int, maxTPM: int)

  // One call: the clock reading it takes, and what it does.
  datatype Event = Event(at: int, op: Op)

  // Nanoseconds per unit. It is 0, meaning no refill ever, for a capacity that
  // is not positive and for one above 60e9 (such as "unlimited").
  function Period(max: int): nat {
    if max > 0 then MINUTE / max else 0
  }

  // Whole units that the time since the last refill is worth.
  function Units(d: Dim, now: int): nat {
    if now > d.last && Period(d.max) > 0 then (now - d.last) / Period(d.max) else 0
  }

  // The clock moves by the time the gained units cost, keeping the remainder.
  function Gain(d: Dim, units: nat): Dim {
    if units > 0 then Dim(d.max, Min(d.max, d.cur + units), d.last + units * Period(d.max)) else d
  }

  function Refill(d: Dim, now: int): Dim {
    Gain(d, Units(d, now))
  }

  function RefillBoth(b: Bucket, now: int): Bucket {
    Bucket(Refill(b.rpm, now), Refill(b.tpm, now))
  }

  function FloorOf(max: int, percent: int): int {
    GoDiv(max * percent, 100)
  }

  // What a call costs in one dimension.
  function Cost(op: Op, s: Side): nat {
    match op
    case GetAvailable => 0
    case SetCapacity(_, _) => 0
    case _ => if s.Rpm? then 1 else Max(op.tokens, 0)
  }

  predicate Fits(d: Dim, op: Op, s: Side) {
    match op
    case TryAcquireAbove(_, percent) => d.cur - Cost(op, s) >= FloorOf(d.max, percent)
    case _ => d.cur >= Cost(op, s)
  }

  function Take(d: Dim, cost: int): Dim {
    d.(cur := d.cur - cost)
  }

  // Debt is capped at one full capacity.
  function TakeForced(d: Dim, cost: int): Dim {
    d.(cur := Max(d.cur - cost, -d.max))
  }

  function Resize(d: Dim, max: int): Dim {
    Dim(max, Min(d.cur, max), d.last)
  }

  // One call on one bucket: the new state and the boolean the call returns
  // (true for the calls that return none).
  function Apply(b: Bucket, e: Event): (Bucket, bool) {
    var f := RefillBoth(b, e.at);
    var fits := Fits(f.rpm, e.op, Rpm) && Fits(f.tpm, e.op, Tpm);
    match e.op
    case GetAvailable => (f, true)
    case SetCapacity(r, t) => (Bucket(Resize(f.rpm, r), Resize(f.tpm, t)), true)
    case ForceAcquire(_) =>
      (Bucket(TakeForced(f.rpm, Cost(e.op, Rpm)), TakeForced(f.tpm, Cost(e.op, Tpm))), fits)
    case _ =>
      if fits then (Bucket(Take(f.rpm, Cost(e.op, Rpm)), Take(f.tpm, Cost(e.op, Tpm))), true)
      else (f, false)
  }

  function NewBucket(maxRPM: int, maxTPM: int, now: int): Bucket {
    Bucket(Dim(maxRPM, maxRPM, now), Dim(maxTPM, maxTPM, now))
  }

  class TokenBucket {
    var maxRPM: int
    var maxTPM: int
    var currentRPM: int
    var currentTPM: int
    var lastRefillRPM: int
    var lastRefillTPM: int

    ghost function State(): Bucket
      reads this
    {
      Bucket(Dim(maxRPM, currentRPM, lastRefillRPM), Dim(maxTPM, currentTPM, lastRefillTPM))
    }

    constructor (maxRPM: int, maxTPM: int, now: int)
      ensures State() == NewBucket(maxRPM, maxTPM, now)
    {
      this.maxRPM, this.maxTPM := maxRPM, maxTPM;
      currentRPM, currentTPM := maxRPM, maxTPM;
      lastRefillRPM, lastRefillTPM := now, now;
    }

    method RefillLocked(now: int)
      modifies this
      ensures State() == RefillBoth(old(State()), now)
    {
      var elapsedTPM := now - lastRefillTPM;
      if elapsedTPM > 0 && maxTPM > 0 {
        var nanosPerToken := MINUTE / maxTPM;
        if nanosPerToken > 0 {
          var newTokens := elapsedTPM / nanosPerToken;
          if newTokens > 0 {
            currentTPM := Min(maxTPM, currentTPM + newTokens);
            lastRefillTPM := lastRefillTPM + newTokens * nanosPerToken;
          }
        }
      }
      var elapsedRPM := now - lastRefillRPM;
      if elapsedRPM > 0 && maxRPM > 0 {
        var nanosPerRequest := MINUTE / maxRPM;
        if nanosPerRequest > 0 {
          var newRequests := elapsedRPM / nanosPerRequest;
          if newRequests > 0 {
            currentRPM := Min(maxRPM, currentRPM + newRequests);
            lastRefillRPM := lastRefillRPM + newRequests * nanosPerRequest;
          }
        }
      }
    }

    method TryAcquire(tokens: int, now: int) returns (ok: bool)
      modifies this
      ensures (State(), ok) == Apply(old(State()), Event(now, Op.TryAcquire(tokens)))
    {
      RefillLocked(now);
      var reqTokens := tokens;
      if reqTokens < 0 {
        reqTokens := 0;
      }
      if currentRPM >= 1 && currentTPM >= reqTokens {
        currentRPM := currentRPM - 1;
        currentTPM := currentTPM - reqTokens;
        return true;
      }
      return false;
    }

    method TryAcquireAbove(tokens: int, floorPercent: int, now: int) returns (ok: bool)
      modifies this
      ensures (State(), ok) == Apply(old(State()), Event(now, Op.TryAcquireAbove(tokens, floorPercent)))
    {
      RefillLocked(now);
      var reqTokens := Max(tokens, 0);
      var floorRPM := GoDiv(maxRPM * floorPercent, 100);
      var floorTPM := GoDiv(maxTPM * floorPercent, 100);
      if currentRPM - 1 >= floorRPM && currentTPM - reqTokens >= floorTPM {
        currentRPM := currentRPM - 1;
        currentTPM := currentTPM - reqTokens;
        return true;
      }
      return false;
    }

    method ForceAcquire(tokens: int, now: int) returns (fitted: bool)
      modifies this
      ensures (State(), fitted) == Apply(old(State()), Event(now, Op.ForceAcquire(tokens)))
    {
      RefillLocked(now);
      var reqTokens := Max(tokens, 0);
      fitted := currentRPM >= 1 && currentTPM >= reqTokens;
      currentRPM := Max(currentRPM - 1, -maxRPM);
      currentTPM := Max(currentTPM - reqTokens, -maxTPM);
    }

    method GetAvailable(now: int) returns (availRPM: int, availTPM: int)
      modifies this
      ensures State() == Apply(old(State()), Event(now, Op.GetAvailable)).0
      ensures availRPM == State().rpm.cur && availTPM == State().tpm.cur
    {
      RefillLocked(now);
      return currentRPM, currentTPM;
    }

    method SetCapacity(maxRPM: int, maxTPM: int, now: int)
      modifies this
      ensures State() == Apply(old(State()), Event(now, Op.SetCapacity(maxRPM, maxTPM))).0
    {
      RefillLocked(now);
      this.maxRPM := maxRPM;
      this.maxTPM := maxTPM;
      if currentRPM > this.maxRPM {
        currentRPM := this.maxRPM;
      }
      if currentTPM > this.maxTPM {
        currentTPM := this.maxTPM;
      }
    }
  }
}
