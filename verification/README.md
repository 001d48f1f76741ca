# A verified model of the quota governor

A fleet of data plane replicas admits LLM traffic against shared "location/model"
allowances. Each replica keeps one dual-clock token bucket per allowance (requests
and tokens per minute) and reserves the bottom of it for critical traffic. A cascade
engine decides every request: admit, reroute along a policy, or shed. Replicas report
demand to a control plane, which smooths it and tells each replica its share; the
control plane also reads quotas and usage and fans snapshots of them out to the
replicas. Around this sit the router, which parses and rewrites request paths, and the
evaluator, which turns a decision into header changes.

The project models these parts and proves what their code promises over whole runs.

| files | what they hold |
|---|---|
| `prelude`, `text`, `sorting`, `settings`, `quotas` | shared definitions: integer division, sums over maps, ASCII strings and keys, sorting, configuration, snapshot lookups |
| `bucket`, `bucket_runs` | the token bucket, and its runs: admission windows, lockout, reserve, resizing, ledger |
| `limiter`, `demand` | the limiter's buckets and counters; the counters under interleaving |
| `cascade`, `cascade_runs`, `cascade_threads` | the cascade engine; who is charged; the bucket guarantees lifted to runs of decisions and to every interleaving of concurrent ones |
| `shares`, `share_runs` | the share tracker, and its histories: active set, smoothing, fractions |
| `fleet_bounds`, `fleet` | exactly when the shares of one tracker state can exceed an allowance; what the replicas' buckets really hold |
| `reporter` | the replica's reporting state machine, and the whole life of one bucket |
| `store`, `streams` | the snapshot store, and the fan-out as an interleaved protocol |
| `config` | what an accepted configuration guarantees |
| `router`, `evaluator`, `misrouting` | paths and hosts; the decision as header changes; a request that is charged to one target and proxied to another |
| `limits`, `metrics`, `reconciler` | reading limits, building rows, folding rows into a snapshot |

State that the source updates in place is a class (`TokenBucket`, `Limiter`,
`CascadeEngine`, `ShareTracker`, `InMemoryStore`, `UsageReporter`, `Evaluator`). Each
of its methods is proved equal to a function on values, and the lemmas about runs are
about those functions. Methods that hold a mutex are one atomic step; the store with
its streams, the demand counters, and the bucket calls of concurrent decisions are
interleaved step by step. Clock readings and
the outcomes of remote calls are parameters.

The formulas these functions are made of (the reserve floor, the specificity of a quota
entry, what a report counts for, the margin, what a priority header says, and the like)
are each stated a second time without them, in numbers or in the client's own terms:
`AdmittedIff`, `MostSpecificWins`, `ReportInNumbers`, `SaturatedIff`,
`BestEffortIsShedIff` and their neighbours in the table.

Where the code and its comments or documentation differ, the model follows the code:

- "No limit" is a capacity of 2^40, which integer division never refills. The comment
  says it never runs out; `UnlimitedLife` says exactly when it does over a replica's
  whole life, and `UnlimitedRunsOut` is a run in which it does.
- A capacity above 60e9 never refills either, so its clock stands still. A later resize
  into 1..60e9 pays out all that time at the new rate (`ResizeHandsOutTokens`,
  `ShareHandsOutTokens`); `ResizeCreditIff` says exactly when a resize stays within the
  leftover of one period.
- A debt never exceeds one capacity unless a resize shrinks the bucket. After that a
  critical request can raise the balance (`ForceRaisesIff`, `DebtWithinCap`) and a
  lockout can outlast 120 s (`LockoutAfterShrink`).
- Growing a bucket raises its reserve floor at once but not its balance, so a larger
  share can leave the reserve unfilled (`ResizeKeepsReserveIff`).
- A client "cannot understate a large body" unless the body length is within three of
  the largest 64-bit number (`BodyNotUnderstatedIff`, `BodyUnderstated`).
- A configuration with a `?` in a target name is accepted, and a reroute to it is
  proxied to a path that does not parse back to the charged target (`RerouteAgrees`).
  `RerouteChargesAnotherTarget` is such a request, proxied to the target that was full.
- A location with a `:` can turn a public endpoint into a host that is not recognised
  as one (`HostForIsVertexIff`).
- No multiple of the allowance bounds what a fleet's buckets hold. An answer carries the
  caller's share only, and only for targets with demand: a replica that was told nothing
  keeps the even split, which is the whole allowance when dataplane_replicas is 1, and a
  replica that was told something keeps it until its next report (`FleetHolds`,
  `IdleFleetHolds`, `JoiningHolds`).
- Equally specific quota entries with different values make the order of the answer
  matter (`OrderIrrelevant`, `OrderMatters`).
- Even the shares of one tracker state can exceed a small allowance, because no bucket is
  smaller than one unit; `FleetCapacityIff` says exactly which allowances.
- Critical traffic never cascades, and nothing is trued up from responses, contrary to
  docs/architecture.md (`CriticalLedger`).

## Model

| member | source | states |
|---|---|---|
| TokenBuckets.TokenBucket.constructor | pkg/governor/bucket.go:36-50 | a new bucket is full in both dimensions |
| TokenBuckets.TokenBucket.RefillLocked | pkg/governor/bucket.go:155-180 | both dimensions refill by whole periods, keep the remainder, and stop at capacity |
| TokenBuckets.TokenBucket.TryAcquire | pkg/governor/bucket.go:73-93 | takes one request and the tokens if both fit, else only refills |
| TokenBuckets.TokenBucket.TryAcquireAbove | pkg/governor/bucket.go:99-113 | the same, but only above the reserve floor (in numbers: AdmittedIff) |
| TokenBuckets.TokenBucket.ForceAcquire | pkg/governor/bucket.go:120-130 | always takes, down to minus one capacity, and says whether it fitted |
| TokenBuckets.TokenBucket.GetAvailable | pkg/governor/bucket.go:145-151 | reads the refilled balances |
| TokenBuckets.TokenBucket.SetCapacity | pkg/governor/bucket.go:53-69 | refills at the old rate, then cuts the balance to the new capacity |
| BucketRuns.RefillCompose | pkg/governor/bucket.go:153-180 | refilling at two instants is refilling at the later one |
| BucketRuns.RefillsCollapse | pkg/governor/bucket.go:153-180 | any refills, in any order, leave the state of one refill at their latest instant |
| BucketRuns.StepAccounts | pkg/governor/bucket.go:99-180 | one call at fixed capacity: what it admits plus what is left never exceeds what was there plus what was credited |
| BucketRuns.SupplyBound | pkg/governor/bucket.go:99-180 | a run admits no more best-effort cost than balance and credits above the reserve |
| BucketRuns.SteadyRun | pkg/governor/bucket.go:120-130 | at fixed capacity every run keeps the debt within one capacity |
| BucketRuns.WindowBound | pkg/governor/bucket.go:95-180 | any window of T ns of any run admits at most the capacity above the reserve plus one unit per refill period started in T |
| BucketRuns.MinuteCredit | pkg/governor/bucket.go:155-180 | a minute is worth at least C and at most C + ceil((C - 1)/n) units, below C + C/n + 1, n being the nanoseconds per unit |
| BucketRuns.HoldsWhenDue | pkg/governor/bucket.go:155-180 | the exact instant from which a balance covers a need, for every capacity |
| BucketRuns.AdmittedWhenDue | pkg/governor/bucket.go:95-113 | best-effort traffic is admitted exactly from the instant at which each dimension has earned, or (without refill) has, what it needs |
| BucketRuns.QuietOnlyRefills | pkg/governor/bucket.go:95-113 | refused calls and reads, however many, change nothing but the refill |
| BucketRuns.SteadyGrowth | pkg/governor/bucket.go:52-69 | runs whose resizes never take capacity away keep the debt within one capacity |
| BucketRuns.LockoutBound | pkg/governor/bucket.go:95-130 | a request that each dimension can cover is admitted at every instant from 120 s after the last competing call: a dimension that refills covers any debt no resize has cut off, one that does not must have the balance |
| BucketRuns.LockoutAfterShrink | pkg/governor/bucket.go:52-69 | after a shrinking resize a request can still be refused long after that |
| BucketRuns.RefillInNumbers | pkg/governor/bucket.go:155-180 | a refill pays one unit for every floor(60e9 / capacity) ns, stops at capacity, and leaves less than one such period over |
| BucketRuns.AboveFloorIff | pkg/governor/bucket.go:105-107 | a balance is at the floor exactly when 100 * (balance + 1) > capacity * percent (100 * balance >= it for a negative product) |
| BucketRuns.AdmittedIff | pkg/governor/bucket.go:99-113 | best-effort traffic is admitted exactly when 100 * (balance - cost + 1) > capacity * percent in both dimensions after the refill, at a cost of one request and its tokens, and then takes just that |
| BucketRuns.ForcedIs | pkg/governor/bucket.go:120-130 | critical traffic takes one request and its tokens down to minus one capacity; it fits exactly when both balances cover it |
| BucketRuns.ReserveKept | pkg/governor/bucket.go:95-113 | no run of best-effort calls at reserve r dips into it: 100 * (balance + 1) > capacity * r throughout |
| BucketRuns.ResizeKeepsReserveIff | pkg/governor/bucket.go:52-69 | a resize keeps the reserve exactly when the refilled balance covers the new floor |
| BucketRuns.CoveredFits | pkg/governor/bucket.go:115-130 | a critical call the balances cover reports a fit and uses up only its own cost |
| BucketRuns.NeverAboveCapacity | pkg/governor/bucket.go:52-69 | no run, resizes included, leaves a balance above the current capacity |
| BucketRuns.ResizeHandsOutNothing | pkg/governor/bucket.go:52-69 | for all capacities, a resize leaves the smaller of the refilled balance and the new capacity; from a capacity that refills, the next dt is worth at most (n_old - 1 + dt) / n_new units |
| BucketRuns.ResizeCreditIff | pkg/governor/bucket.go:52-69 | exactly when that bound holds, at the instant of the resize and at every later one |
| BucketRuns.ResizeHandsOutTokens | pkg/governor/bucket.go:155-180 | a run in which a resize hands out tokens |
| BucketRuns.LedgerBalances | pkg/governor/bucket.go:73-180 | in any run, charges plus final balance never exceed initial balance plus credits plus debt written off by the cap |
| BucketRuns.SupplyWithin | pkg/governor/bucket.go:95-180 | in any run with resizes, best-effort cost stays within the balance and the credits above the reserve of the smallest capacity |
| BucketRuns.EarnedTakesTime | pkg/governor/bucket.go:52-69 | in any run with resizes, time pays for every credited unit at the rate of the largest capacity |
| BucketRuns.ResizedWindowBound | pkg/governor/bucket.go:52-180 | the windowed admission bound for runs with resizes between two capacities |
| BucketRuns.ForceRaisesIff | pkg/governor/bucket.go:120-130 | a critical call raises the balance exactly when the debt is already below the cap |
| BucketRuns.DebtWithinCap | pkg/governor/bucket.go:52-69 | only a shrinking resize brings a debt below the cap |
| BucketRuns.ForceRaisesAfterShrink | pkg/governor/bucket.go:52-69 | a run with a shrinking resize in which a critical call raises the balance |
| BucketRuns.RefillsIff | pkg/governor/bucket.go:155-180 | exactly the capacities from 1 to 60e9 ever refill |
| BucketRuns.SpentForGood | pkg/governor/limiter.go:12-15 | a capacity above that range hands out its balance above the reserve once, over a run of any length, resizes to the same capacity included |
| BucketRuns.BalanceIsSpent | pkg/governor/limiter.go:12-15 | its balance is exactly what was there, less all charges, plus the debt written off by the cap |
| BucketRuns.RefusedOnceSpent | pkg/governor/limiter.go:12-15 | it refuses a best-effort call exactly when all charges so far, critical traffic included, leave less than the cost above the reserve |
| BucketRuns.RunsOut | pkg/governor/limiter.go:12-15 | it runs out: after finitely many calls, one a minute, the next is refused for its tokens alone |
| BucketRuns.OncePerMinuteInOrder | pkg/governor/bucket.go:155-180 | the clock of that run does not go back |
| Limiters.Limiter.constructor | pkg/governor/limiter.go:43-68 | one full bucket, at the even split, and one zero counter per allowance |
| Limiters.Limiter.MakeBuckets | pkg/governor/limiter.go:56-66 | the loop that builds them, keyed in lower case, nil allowances skipped |
| Limiters.ShareInNumbers | pkg/governor/limiter.go:135-141 | the even split is limit / replicas rounded down, but at least 1, and 2^40 without a limit |
| Limiters.FractionInNumbers | pkg/governor/limiter.go:70-79 | a told share is limit * fraction rounded down, but at least 1, and the limit for what is not a fraction |
| Limiters.SizedBy | pkg/governor/limiter.go:59-109 | requests are sized by the request limit and fraction, tokens by those of the tokens; a new bucket is full |
| Limiters.Limiter.Record | pkg/governor/limiter.go:128-133 | counts one request and its tokens on a known target only |
| Limiters.Limiter.TryAdmit | pkg/governor/limiter.go:155-165 | counts the attempt whether or not the bucket accepts it, and touches no other bucket |
| Limiters.Limiter.AdmitCritical | pkg/governor/limiter.go:167-177 | the same for critical traffic, which an unknown target admits |
| Limiters.Limiter.ApplyShares | pkg/governor/limiter.go:81-97 | resizes, share by share, the buckets the answer names and no others |
| Limiters.Limiter.ResetShares | pkg/governor/limiter.go:99-109 | every bucket goes back to the even split |
| Limiters.Limiter.DrainDemand | pkg/governor/limiter.go:111-126 | every nonzero counter is returned once with its counts, and all restart at zero |
| Limiters.DrainStep | pkg/governor/limiter.go:111-126 | draining one more key keeps the list exact |
| Demands.StepBalances | pkg/governor/limiter.go:111-133 | every atomic add or swap keeps recorded = drained + held + counted + owed, per target |
| Demands.DemandConserved | pkg/governor/limiter.go:111-133 | this holds at every moment of every interleaving of recorders and drainers |
| Demands.QuietMeansAccounted | pkg/governor/limiter.go:111-133 | when nobody is between two operations, drained plus residual is exactly what was recorded |
| Demands.RecordIsTwoAdds | pkg/governor/limiter.go:128-133 | two adds without interruption are one record |
| Demands.DrainIsTwoSwaps | pkg/governor/limiter.go:115-121 | two swaps without interruption read and clear one counter |
| Cascade.NewCascadePolicies | pkg/governor/cascade.go:65-99 | the policy table is built exactly when every policy is usable, and holds trimmed steps under normalised names |
| Cascade.CascadeEngine.constructor | pkg/governor/cascade.go:35-48 | the ceiling leaves the critical reserve free |
| Cascade.CascadeEngine.TryTarget | pkg/governor/cascade.go:203-211 | a target has room if the snapshot and the bucket both say so; then the request is reserved |
| Cascade.CascadeEngine.Traverse | pkg/governor/cascade.go:160-175 | the loop over the cascade steps |
| Cascade.CascadeEngine.DecideCustom | pkg/governor/cascade.go:142-181 | the branch for custom traffic |
| Cascade.CascadeEngine.Decide | pkg/governor/cascade.go:119-198 | decision and new state are those of the decision function |
| CascadeRuns.RefusedIsSame | pkg/governor/bucket.go:99-113 | a refused call leaves a bucket that no later call can tell from an untouched one |
| CascadeRuns.TryChoice | pkg/governor/cascade.go:203-211 | trying targets in turn answers as if each were tried on the state before the decision |
| CascadeRuns.FirstAvailable | pkg/governor/cascade.go:160-175 | the first step that is known, below the ceiling and accepted, on the state before the decision |
| CascadeRuns.CascadeChoice | pkg/governor/cascade.go:160-181 | a cascade takes exactly that step and charges it, or sheds and charges nobody |
| CascadeRuns.DecideLedger | pkg/governor/cascade.go:139-196 | best-effort and custom traffic: who is chosen, that exactly the chosen bucket is charged, and that a shed request charges none |
| CascadeRuns.CriticalLedger | pkg/governor/cascade.go:128-137 | critical traffic is never shed or moved and charges only its own target; exactly when it is reported within the allowance |
| CascadeRuns.OwnQuotaFirst | pkg/governor/cascade.go:225-243 | the project's own quota decides if the snapshot has one, else the pooled one |
| CascadeRuns.KnownIff | pkg/governor/cascade.go:213-217 | a target is known exactly when the snapshot has an own or a pooled quota for it, or the limiter a bucket |
| CascadeRuns.UnsaturatedIff | pkg/governor/priority.go:13-30 | a quota is unsaturated exactly when it is missing, or both utilizations are below 1 and no limited dimension is without headroom |
| CascadeRuns.AvailableIff | pkg/governor/cascade.go:200-223 | a target is available exactly when its quota, if any, is unsaturated and both utilizations are below 100 percent less the reserve, and its bucket, if any, covers the cost above the reserve, all in numbers |
| CascadeRuns.DecideCounted | pkg/governor/limiter.go:155-177 | one decision raises each counter by its attempts on that bucket and their tokens |
| CascadeRuns.EngineCounted | pkg/governor/limiter.go:128-177 | so does any run of decisions: demand is what was asked for, admitted or refused |
| CascadeRuns.ReplayPerKey | pkg/governor/limiter.go:158-177 | replaying a run of attempts gives each bucket exactly the calls made on it |
| CascadeRuns.DecideExplained | pkg/governor/cascade.go:119-198 | the attempts of one decision account for its effect on every bucket |
| CascadeRuns.EnginePerBucket | pkg/governor/cascade.go:119-198 | on each bucket, a run of decisions is a run of that bucket whose best-effort cost is what the decisions admitted |
| CascadeRuns.EngineWindow | pkg/governor/cascade.go:119-211 | the windowed admission bound for the traffic that a run of decisions sends to a target |
| CascadeRuns.UnlimitedIsFinite | pkg/governor/limiter.go:12-15 | what a run of decisions admits on a dimension without a limit stays within 2^40 less the reserve (with reports: Reporter.UnlimitedLife) |
| CascadeRuns.ReserveSafety | pkg/governor/cascade.go:119-211 | after any run of decisions without critical traffic 100 * (balance + 1) > capacity * percent |
| CascadeRuns.FullShareHoldsReserve | pkg/governor/limiter.go:56-66 | the buckets a limiter starts with hold their reserve |
| CascadeRuns.CoveredBurst | pkg/governor/cascade.go:128-137 | every request of a critical burst that the balances cover is reported within the allowance, unless the snapshot says saturated |
| CascadeRuns.ReserveServesCritical | pkg/governor/cascade.go:112-137 | so after any run without critical traffic, a burst within the reserve is served from first to last |
| CascadeThreads.UninterruptedIsDecide | pkg/governor/cascade.go:119-198 | a request whose bucket calls are not interrupted is one decision |
| CascadeThreads.PieceExplained | pkg/governor/cascade.go:119-211 | one bucket call of a request accounts for its effect on every bucket |
| CascadeThreads.WovenPerBucket | pkg/governor/cascade.go:119-211 | in every interleaving of concurrent decisions, each bucket goes through one run whose best-effort cost is what they admitted |
| CascadeThreads.WovenWindow | pkg/governor/cascade.go:119-211 | the windowed admission bound for every interleaving |
| CascadeThreads.WovenReserve | pkg/governor/cascade.go:119-211 | the same after every interleaving without critical traffic |
| Shares.Smooth | pkg/controlplane/shares.go:128-143 | the two loops compute one uniform average per target |
| Shares.Aggregate | pkg/controlplane/shares.go:85-97 | a report's demand per normalised target, requests and tokens apart (in numbers: ReportInNumbers); nil entries and blank targets are skipped |
| Shares.ShareTracker.Evict | pkg/controlplane/shares.go:73-78 | drops the other replicas whose last report is older than the TTL |
| Shares.ShareTracker.Record | pkg/controlplane/shares.go:80-100 | folds one report into the client's smoothed demand |
| Shares.ShareTracker.TotalLoad | pkg/controlplane/shares.go:147-153 | the total is the sum over the replicas, in any order |
| Shares.ShareTracker.ComputeFraction | pkg/controlplane/shares.go:147-161 | a tenth is split evenly and the rest by demand |
| Shares.ShareTracker.CollectTargets | pkg/controlplane/shares.go:102-110 | the union of the targets the replicas track |
| Shares.SharesForKeys | pkg/controlplane/shares.go:111-125 | shares over sorted keys are one share per tracked target, in ascending order |
| Shares.ShareTracker.Report | pkg/controlplane/shares.go:64-126 | the new tracker state, the number of active replicas and the caller's share of every tracked target (what a report counts for: FirstReport, FractionFollowsReports) |
| Sorting.SortedKeys | pkg/controlplane/shares.go:111-115 | strictly ascending, nothing lost |
| ShareRuns.ActiveIsHistory | pkg/controlplane/shares.go:73-84 | after every report the tracker holds exactly the clients whose last report is at most 30 s old |
| ShareRuns.SmoothingClosedForm | pkg/controlplane/shares.go:128-143 | repeated smoothing is v0/2^k plus the halving sum of the later reports |
| ShareRuns.SmoothingConverges | pkg/controlplane/shares.go:128-143 | under constant demand every report halves the error |
| ShareRuns.TrackedIsSmoothed | pkg/controlplane/shares.go:64-100 | the tracker holds the smoothed average of exactly the reports since the client entered |
| ShareRuns.ReportInNumbers | pkg/controlplane/shares.go:85-97 | one report says, for a target, the sum of max(requests, 0) over its entries for it, the sum of max(tokens, 0), and nothing about targets it does not name |
| ShareRuns.FirstReport | pkg/controlplane/shares.go:74-104 | a client enters with exactly these requests and tokens |
| ShareRuns.FractionFollowsReports | pkg/controlplane/shares.go:74-165 | two histories with the same requests give the same request fractions whatever tokens they report, and conversely |
| ShareRuns.DemandNonNegative | pkg/controlplane/shares.go:85-100 | no history makes a demand negative |
| ShareRuns.FractionsSumToOne | pkg/controlplane/shares.go:145-161 | the fractions of all replicas for a target add up to 1 |
| ShareRuns.FractionBounds | pkg/controlplane/shares.go:145-161 | each lies between a tenth of the even split and 1 |
| ShareRuns.SizesFollowFractions | pkg/governor/limiter.go:70-79 | bucket sizes add up to the limit times the sum of their fractions, give or take less than one unit each |
| ShareRuns.FleetCapacity | pkg/controlplane/shares.go:145-161 | for the shares of one tracker state: they stand for at most the allowance once it is ten times the replicas, and for less than one unit per replica above it always |
| ShareRuns.SmallAllowanceOvershoots | pkg/governor/limiter.go:70-79 | two replicas with an allowance of 1 hold 2 |
| FleetBounds.NeverExceeded | pkg/controlplane/shares.go:145-161 | no state of n replicas exceeds a limit of at least n with (n - 1) * limit > 10 * n * (n - 2) |
| FleetBounds.BusyExceeds | pkg/controlplane/shares.go:145-161 | for every other limit the state with one busy replica does |
| FleetBounds.FleetCapacityIff | pkg/governor/limiter.go:70-97 | so the shares of some state of n replicas exceed a limit exactly when it is below n or (n - 1) * limit <= 10 * n * (n - 2) |
| Fleet.HeldIsTheBucket | pkg/dataplane/reporter.go:58-79 | the size held for a replica is the capacity of its bucket after its reports, lost ones included, and its traffic |
| Fleet.WeightInRange | pkg/controlplane/shares.go:117-125 | every fraction behind a bucket is above 0 and at most 1 |
| Fleet.HeldIsSizes | pkg/governor/limiter.go:70-79 | told shares and even splits alike are rounded parts of the allowance |
| Fleet.FleetHolds | pkg/governor/limiter.go:70-97 | after any reports, with any of them or their answers lost, the active replicas' buckets hold the allowance times the sum of the fractions behind them, give or take less than one unit each |
| Fleet.FleetWithin | pkg/governor/limiter.go:70-97 | when that total stays within the allowance, and when it does not |
| Fleet.FleetInSync | pkg/governor/limiter.go:70-97 | once every active replica was told its current fraction, the buckets hold what the shares of that one state stand for |
| Fleet.IdleFleetHolds | pkg/governor/limiter.go:111-126 | n replicas without demand hold n even splits, so n allowances when dataplane_replicas is 1 |
| Fleet.JoiningHolds | pkg/controlplane/shares.go:117-125 | when a second replica joins an idle or a busy one, the two hold at least 105 of an allowance of 100 |
| Reporter.UsageReporter.ReportOnce | pkg/dataplane/reporter.go:58-79 | drains the demand before the call, then adopts shares, counts a failure or falls back |
| Reporter.UsageReporter.Settle | pkg/dataplane/reporter.go:68-78 | what the outcome of the call does to the failure count and the buckets |
| Reporter.ThirdFailureFallsBack | pkg/dataplane/reporter.go:68-78 | one or two failures in a row change no bucket, the third brings the even split back, once, and a success starts the count again |
| Reporter.AppliedCapacity | pkg/governor/limiter.go:81-97 | an answer sizes each bucket by the last share it has for it |
| Reporter.LastShareIs | pkg/governor/limiter.go:84-97 | which share that is: the last whose target is the key up to case and surrounding space |
| Reporter.CapacityFollowsHistory | pkg/dataplane/reporter.go:58-79 | in every reachable state a capacity is the latest share since the last fallback, or the even split |
| Reporter.EvenSplitWhenCutOff | pkg/dataplane/reporter.go:14-20 | without a success, or after three failures in a row, the even split holds |
| Reporter.CapacityInRange | pkg/governor/limiter.go:70-79 | a limited bucket's capacity is between 1 and its allowance |
| Reporter.LifeIsRun | pkg/dataplane/reporter.go:58-79 | reports, fallbacks and traffic are, on each bucket, one run of that bucket with resizes |
| Reporter.LifeCapacities | pkg/governor/limiter.go:70-109 | every resize in a replica's life keeps a limited bucket between 1 and its allowance |
| Reporter.LifeWindow | pkg/dataplane/reporter.go:58-79 | the windowed admission bound over a replica's whole life, reports and fallbacks included |
| Reporter.UnlimitedLife | pkg/governor/limiter.go:12-15 | over a replica's whole life a dimension without a limit refuses a request exactly when its charges leave less than the cost above the reserve |
| Reporter.UnlimitedRunsOut | pkg/governor/limiter.go:12-15 | 76,965 calls of 10,000,000 tokens, one a minute, after which the next is refused although the requests fit |
| Reporter.ShareHandsOutTokens | pkg/governor/limiter.go:81-97 | two successive shares of an allowance of 120e9 after which an empty bucket holds 10e9 at once |
| Store.InMemoryStore.Save | pkg/controlplane/store.go:30-55 | every subscribed channel ends up holding the new snapshot; a nil snapshot changes nothing |
| Store.InMemoryStore.Get | pkg/controlplane/store.go:57-63 | the stored snapshot |
| Store.InMemoryStore.Subscribe | pkg/controlplane/store.go:65-70 | a new open, empty channel is subscribed |
| Store.InMemoryStore.Unsubscribe | pkg/controlplane/store.go:72-80 | the channel is closed and gone; a second call does nothing |
| Streams.StepKeepsInv | pkg/server/server.go:55-81 | every step of the writer and of any stream keeps the protocol invariant |
| Streams.RunKeepsInv | pkg/server/server.go:55-81 | so every interleaving keeps it |
| Streams.Convergence | pkg/server/server.go:55-81 | with no save running, a stream waiting on an empty channel has last sent the store's current snapshot |
| Streams.DeliveryOrder | pkg/server/server.go:56-79 | at every moment, and after it has left, a stream has sent the initial snapshot and then snapshots in strict save order, the first at most one save behind it, all but the last at most |
| Streams.SaveCanMove | pkg/controlplane/store.go:34-55 | a running save always has a step and never stands at a closed channel |
| Streams.SaveFinishes | pkg/controlplane/store.go:34-55 | its own steps end it and no stream sets it back |
| Streams.SaveDelivers | pkg/controlplane/store.go:38-53 | its last send never finds the slot full; when it is done every open channel was given the new snapshot |
| Streams.SelectsDeliver | pkg/controlplane/store.go:40-51 | the selects on one channel, uninterrupted, put the new snapshot there whatever it held |
| Streams.UninterruptedSave | pkg/controlplane/store.go:30-55 | a save that runs through does to every channel what InMemoryStore.Save does |
| Streams.OfferIsLockedPart | pkg/controlplane/store.go:37-53 | the part of a save under the lock, uninterrupted, gives every subscribed channel the stored snapshot |
| Streams.RaceOutcome | pkg/controlplane/store.go:34-53 | after any interleaving of the stores and offers of several writers, the last of each kind is what store and channels hold |
| Streams.RaceAgreesIff | pkg/controlplane/store.go:34-53 | after any interleaving of whole saves, an unread channel holds the stored snapshot exactly when the save that stored last also offered last |
| Streams.RacingSaves | pkg/controlplane/store.go:34-38 | two concurrent saves that leave the channel older than the store |
| Text.SameKeyIff | pkg/router/route.go:26-29 | two targets share a key exactly when they are the same up to case |
| Text.EqualFoldIff | pkg/router/mutator.go:58-62 | the same up to case means the same characters but for A-Z against a-z |
| Text.TrimIs | pkg/governor/priority.go:36 | trimming takes all the white space off both ends and nothing else |
| ConfigLoad.NormalizedSet | pkg/governor/config.go:148-154 | the lower-case trimmed names |
| ConfigLoad.CheckAllowance | pkg/governor/config.go:123-142 | one allowance passes exactly when key, names, limit and uniqueness are right |
| ConfigLoad.GoodAllowanceIff | pkg/governor/config.go:117-141 | an allowance is good exactly when its trimmed key is "location/model" with both parts listed up to case and space, and its limits are not negative and not both zero |
| ConfigLoad.NormalizeAllowances | pkg/governor/config.go:107-146 | accepted exactly when every allowance is good and no two keys coincide; then the same limits under normalised keys |
| ConfigLoad.CheckSteps | pkg/governor/config.go:171-183 | a policy passes exactly when every step is listed and has an allowance |
| ConfigLoad.ValidateCascadeTargets | pkg/governor/config.go:156-186 | passes exactly when every step of every policy does |
| ConfigLoad.ValidateAdmissionSettings | pkg/governor/config.go:87-105 | reserve within 0 to 90 percent, no negative token estimate, at least one replica |
| ConfigLoad.Clamp | pkg/governor/config.go:55-64 | unusable polling and margin settings become defaults, usable ones are kept |
| ConfigLoad.Load | pkg/governor/config.go:45-84 | exactly which configurations are accepted, and what becomes of them |
| ConfigLoad.LoadedSettings | pkg/governor/config.go:12-32 | the ranges of an accepted configuration's settings, and the defaults of those left out |
| ConfigLoad.AcceptedStepsKnown | pkg/governor/config.go:156-186 | every step of an engine built from an accepted configuration is known to a limiter built from it |
| ConfigLoad.AcceptedStepsListed | pkg/governor/config.go:156-186 | every step's region and model are listed, up to case and surrounding space |
| ConfigLoad.AcceptedTargetsApart | pkg/governor/config.go:123-142 | two steps share a bucket exactly when they name the same target up to case |
| Router.Fields | pkg/router/parser.go:63-82 | the segment loop keeps the last value of each key |
| Router.Check | pkg/router/parser.go:84-128 | the checks on the extracted fields, in their order |
| Router.Parse | pkg/router/parser.go:37-128 | parsing is the reference function, errors included |
| Router.FieldIsLast | pkg/router/parser.go:63-82 | a field is the last value right after its key in the segment pairs |
| Router.ParsedIff | pkg/router/parser.go:37-128 | exactly which paths are model requests, and what every field of the route is |
| Router.ParsedIsClean | pkg/router/parser.go:37-128 | a parsed route has no empty field and no separator inside one |
| Router.SplitJoin | pkg/router/mutator.go:33-44 | joining separator-free segments and splitting them again gives them back |
| Router.ParseRendered | pkg/router/mutator.go:33-46 | a rendered route parses back to itself |
| Router.ParseMutateRoundTrip | pkg/router/mutator.go:17-47 | parse and mutate undo each other, and the rendered path is a fixed point |
| Router.OverrideRoundTripIff | pkg/router/mutator.go:17-47 | with overrides, exactly model and region change, if and only if the overrides are free of '/' and '?' |
| Router.HostFollowsRegion | pkg/router/mutator.go:75-90 | custom hosts are kept, public ones move to the endpoint of the new location; exactly when the result is recognised like the original |
| Router.HostForIs | pkg/router/mutator.go:55-63 | the endpoint of "global" is the bare domain, that of any other location has the lower-case location in front |
| Router.IsVertexHostIff | pkg/router/mutator.go:65-73 | the recognised hosts are the domain and anything with a dash in front of it, up to case; a port does not matter |
| Router.HostForIsVertexIff | pkg/router/mutator.go:55-73 | the endpoint of a location is recognised as one exactly when the location has no ':' or is itself such a host |
| Evaluators.BodyNotUnderstatedIff | pkg/dataplane/evaluator.go:88-104 | the estimate covers the stated body length exactly when rounding up stays within 64 bits or the other hint (or the default) reaches the cap |
| Evaluators.HintOfFormat | pkg/dataplane/evaluator.go:94-99 | a written number is read back |
| Evaluators.HintIff | pkg/dataplane/evaluator.go:92-99 | a hint is exactly a positive 64-bit number in digits, perhaps with a plus sign, surrounded by any space |
| Evaluators.BodyUnderstated | pkg/dataplane/evaluator.go:97-102 | the largest body length counts as no hint |
| Evaluators.EstimateInNumbers | pkg/dataplane/evaluator.go:88-104 | the estimate is the larger of the prompt hint and a quarter of the body length, rounded up, the default without hints, and at most ten million |
| Evaluators.PriorityNames | pkg/governor/priority.go:32-46 | which header values are critical, custom and best effort, up to case and surrounding space |
| Evaluators.PolicyByName | pkg/governor/cascade.go:146-152 | a policy is found under its name up to case and surrounding space, and nothing under any other |
| Evaluators.Without | pkg/dataplane/evaluator.go:188-203 | compacts the list in place to the entries that are not dropped, in order |
| Evaluators.KeptTwice | pkg/dataplane/evaluator.go:175-177 | dropping twice is dropping the union, so the order of the header map does not matter |
| Evaluators.Evaluator.WithDefaultTokens | pkg/dataplane/evaluator.go:79-86 | a positive estimate is adopted, others are ignored |
| Evaluators.Evaluator.ForConfig | cmd/dataplane/main.go:81 | the data plane's evaluator always has a positive default estimate |
| Evaluators.Evaluator.DropSet | pkg/dataplane/evaluator.go:175-177 | the headers that are set are no longer removed |
| Evaluators.Evaluator.Bypass | pkg/dataplane/evaluator.go:127-134 | the result for a request that is not a model request |
| Evaluators.Evaluator.Respond | pkg/dataplane/evaluator.go:147-178 | the result for a decision |
| Evaluators.Evaluator.Evaluate | pkg/dataplane/evaluator.go:120-179 | result and limiter state are those of the reference function; what that means for each priority is CriticalIsServed, BestEffortIsShedIff and CustomMovesIff |
| Evaluators.CriticalIsServed | pkg/dataplane/evaluator.go:120-179 | a request that says "critical" is neither shed nor rerouted, and its target is charged in full |
| Evaluators.BestEffortIsShedIff | pkg/dataplane/evaluator.go:120-179 | a request that says neither "critical" nor "custom" is never rerouted, and is shed, to be retried after 5 s, exactly when its parsed target is known and not available |
| Evaluators.CustomMovesIff | pkg/dataplane/evaluator.go:120-179 | a request that says "custom" stays if its target is unknown or available; else it moves exactly when some step of its policy is available, and is shed if none is |
| Evaluators.RerouteHeaders | pkg/dataplane/evaluator.go:158-173 | exactly the headers of a reroute and their values; the host is among them exactly when a public endpoint changes |
| Evaluators.GovernorHeadersAreOwned | pkg/dataplane/evaluator.go:24-42 | every governor header is overwritten or removed, never both and never left alone; the path changes exactly on a reroute |
| Evaluators.MovesToStep | pkg/governor/cascade.go:160-175 | a reroute goes to a step of the named policy and charges it |
| Evaluators.ReparsedKey | pkg/dataplane/evaluator.go:158-168 | the rewritten path parses back to the target's key exactly when its names contain no '?' |
| Evaluators.RerouteAgrees | pkg/dataplane/evaluator.go:158-168 | with an accepted configuration, a reroute charges an existing bucket, and the new path gives that bucket's key exactly when its names contain no '?' |
| Misrouting.NameBecomesQuery | pkg/router/mutator.go:33-46 | a target named model:verb?rest is rendered as a request for the model itself |
| Misrouting.QueryInNameIsAccepted | pkg/governor/config.go:107-186 | an accepted configuration with a '?' in a target name, and the engine and limiter built from it |
| Misrouting.QueryStateIsReached | pkg/governor/bucket.go:99-113 | one admitted request leads its limiter to the state used |
| Misrouting.RerouteChargesAnotherTarget | pkg/dataplane/evaluator.go:158-168 | a request on that state whose reroute charges the named target, while the new path asks for the one that was full |
| Limits.Contains | pkg/controlplane/client.go:389-396 | membership up to case |
| Limits.Expand | pkg/controlplane/client.go:407-423 | the names an entry's dimension stands for; none if it is no target |
| Limits.SetAll | pkg/controlplane/client.go:425-434 | the inner loops record an entry on the matched keys where nothing more specific is recorded |
| Limits.Absorb | pkg/controlplane/client.go:398-434 | one entry of the answer: it is recorded on the keys it applies to where nothing more specific is |
| Limits.ExtractLimits | pkg/controlplane/client.go:374-436 | every key has the value of its last most specific entry (which one that is: MostSpecificWins), and only keys without any entry are left out |
| Limits.RecordedWins | pkg/controlplane/client.go:428-432 | the running comparison of scores finds the winning entry |
| Limits.MostSpecificWins | pkg/controlplane/client.go:374-381 | of the entries that apply, one that names a model wins over all that do not; among those alike in that, one that names a region; among those alike in both, the last |
| Limits.AppliesIff | pkg/controlplane/client.go:407-423 | an entry applies to a target exactly when it has a value and each of its dimensions is empty or names the target up to case |
| Limits.ModelBeatsRegion | pkg/controlplane/client.go:374-381 | a model entry beats a region-wide one, in either order |
| Limits.OrderIrrelevant | pkg/controlplane/client.go:379-380 | if equally specific entries agree, any permutation gives the same limits |
| Limits.OrderMatters | pkg/controlplane/client.go:428-432 | if they do not, two permutations give different ones |
| Metrics.Collect | pkg/controlplane/client.go:170-202 | limits and usage per project; only a failed usage call is an error |
| Metrics.ClosestLimit | pkg/controlplane/client.go:335-369 | the fallback limit is the project's for the target, else the target's, the model's, the first matching family's, or 1000 and 2,000,000 |
| Metrics.SubstringIff | pkg/controlplane/client.go:353-367 | a family matches when its name is part of the model's |
| Metrics.ProjectRowInNumbers | pkg/controlplane/client.go:221-245 | a project row has the reported limit if positive, none for -1, else the fallback; requests from the request answers, tokens from the token answers |
| Metrics.OrgRowInNumbers | pkg/controlplane/client.go:206-219 | an organisation row has the configured request and token limits of its target, and no usage |
| Metrics.AddTarget | pkg/controlplane/client.go:206-252 | the rows of one target |
| Metrics.AddTargets | pkg/controlplane/client.go:204-254 | all rows, and exactly when an empty name is an error |
| Metrics.FetchMetrics | pkg/controlplane/client.go:159-256 | every listed target and project has its row, every row is one of these, under its own key |
| Metrics.BuiltIsCanonical | pkg/controlplane/client.go:204-254 | rows stand under the keys their names give |
| Metrics.TargetHasOrgRow | pkg/controlplane/client.go:206-219 | every configured target has its organisation row |
| Reconciler.SaturatedIff | pkg/controlplane/reconciler.go:134-148 | a quota is saturated exactly when for some limited dimension 100 * (usage + 1) > limit * (100 - margin) |
| Reconciler.HeadroomInNumbers | pkg/controlplane/reconciler.go:134-142 | usage and headroom together are limit * (100 - margin) / 100, rounded down; the utilization is usage by limit |
| Reconciler.MarginMonotone | pkg/controlplane/reconciler.go:134-148 | a larger margin never makes a saturated quota unsaturated |
| Reconciler.PartStep | pkg/controlplane/reconciler.go:113-114 | one more project row adds its usage |
| Reconciler.OrgStep | pkg/controlplane/reconciler.go:71-115 | the effect of one row on one organisation entry |
| Reconciler.Fold | pkg/controlplane/reconciler.go:71-116 | the loop body |
| Reconciler.PopulateAll | pkg/controlplane/reconciler.go:121-123 | the final loop |
| Reconciler.Reconcile | pkg/controlplane/reconciler.go:62-132 | whatever the order of the rows, the result is their one snapshot (read by OwnSaturation and PooledSaturation); the only error is a project row without region or model |
| Reconciler.SnapshotIsUnique | pkg/controlplane/reconciler.go:71-131 | the rows determine the snapshot |
| Reconciler.OrgUsageIsProjectUsage | pkg/controlplane/reconciler.go:113-114 | organisation usage is the sum of the snapshot's project usages |
| Reconciler.OwnSaturation | pkg/governor/priority.go:13-30 | a project's own quota is saturated exactly when for some limited dimension 100 * (its usage + 1) > its limit * (100 - margin) |
| Reconciler.PooledSaturation | pkg/governor/priority.go:13-30 | a pooled quota is saturated exactly when for some limited dimension 100 * (summed usage + 1) > limit * (100 - margin) |

## Left out

- Refund and SyncHeadroom of the bucket: no production path calls them.
- 64-bit overflow is modelled in the token estimate only; allowances, balances and times are unbounded integers.
- float64 rounding: fractions, demand and utilizations are real numbers. Unicode case folding: strings are ASCII.
- Streams.StepKeepsInv: one writer; what several writers do to one channel is Streams.RaceOutcome.
- Streams.Convergence: safety over all interleavings; that a scheduler lets every stream run is not stated.
- The endless loop of StreamQuotas is a state machine whose steps are its receives and sends.
- ConfigLoad.Load: which of several faults is reported is not stated; the configuration is a value that is returned changed, not an object changed in place.
- Limiters.Limiter.MakeBuckets: allowances whose keys collide after lower-casing keep one of them, in no fixed order; an accepted configuration has none. The same holds for policy names in Cascade.NewCascadePolicies.
- A missing limiter is a limiter without allowances.
- Reconciler.Reconcile: for rows that do not stand under canonical keys only the error is stated; FetchMetrics builds none. Labels kept for display are not modelled.
- Reason strings are codes; logs, utilization texts and error texts are left out.
- Tickers, contexts, reconnects, gRPC, ext_proc, YAML, Cloud Quotas and Monitoring calls: their outcomes are parameters.
- ShareRuns.FleetCapacity: it is about the shares of one tracker state; what the buckets of a running fleet hold is Fleet.FleetHolds.
- Fleet.FleetHolds: counts the replicas the tracker holds active; a process that starts again under the name of an earlier one is taken to be that one.
- CascadeRuns.EngineWindow: fixed capacities; with the resizes of reports it is Reporter.LifeWindow.
- CascadeRuns.DecideLedger: the choice is stated for a decision whose bucket calls are not interrupted; for interleaved ones CascadeThreads states what the buckets go through. Counting the demand is interleaved in Demands.
- Demands.DemandConserved: a drain can return a request without its tokens or the reverse; only the totals are stated.
- Smooth returns the new average instead of changing the caller's map.
