# AKIL: a verified model

AKIL turns kernel events into sliding-window profiles of workloads, scores nodes from those profiles
and drives an autoscaler.  This project models that path in Dafny and proves what each stage keeps,
over every run and every interleaving.  `dafny verify dfyconfig.toml` checks all of it.

| file | what it models |
|---|---|
| `History.dfy` | the specification of a window: all events since the last reset, each tagged with the rotation count it was recorded at; how time and rotations bound each other |
| `SlidingWindow.dfy` | `pkg/profile/window.go`: the ring of buckets as a class over an array |
| `ProfileStore.dfy`, `StoreRace.dfy` | `pkg/profile/store.go`: one call at a time over shared profile objects; and `GetOrCreate` as racing steps of many goroutines |
| `Recorders.dfy` | the recorders of `pkg/profile/window.go` against each other |
| `LockRatio.dfy` | the lock-contention ratio of `pkg/profile/window.go`: which recorded waits keep it a fraction |
| `BrowserWindow.dfy`, `BrowserRuns.dfy` | `LocalBackend` of `frontend/src/lib/cluster.ts`, and its whole runs |
| `Comparison.dfy`, `WindowAgreement.dfy` | the aggregator's window against the browser's, and when the two report the same |
| `Autoscaling.dfy`, `Heat.dfy`, `QueryOrder.dfy` | `cmd/aggregator/autoscaler.go`: the rule, the loop without a cluster, whole runs; which telemetry drives it up, holds it and brings it down; and whether the order of its queries matters |
| `Scoring.dfy`, `ScorerPorts.dfy` | `pkg/scoring/scorer.go`; and its TypeScript and Python ports |
| `Batching.dfy`, `Delivery.dfy`, `BatchAssembly.dfy` | `pkg/telemetry/batch.go`: a step relation over N adders, a ticker and a consumer; what becomes of a batch that is swapped out; and the code's sections, each proved to be a step |
| `LockProbe.dfy`, `LockTraces.dfy` | the lock-contention probe of `pkg/ebpf/akil.c`, and its traces from the calls alone |
| `Placement.dfy`, `PointerChase.dfy` | the placement experiment of `scripts/run_evidence_simulations.py`; the pointer-chasing array of `benchmarks/webbench/server/main.go` |

Clocks are parameters: each call is given the time it reads, in nanoseconds (milliseconds in the
browser).  The methods hold for any reading, also one that goes backwards; lemmas over runs say
where they need time to run forwards.  Rates are exact reals and counters mathematical integers.

## Where the code and its documentation differ

The model follows the code.  Each difference is proved:

- README.md:325 promises a memory of exactly one window.  A rotation discards the fraction of a
  bucket that had elapsed, so with b buckets of length d an event may be gone once it is older
  than (b-1)d and may stay until it is (2b-1)d-b old.  Both bounds are exact
  (`AlwaysCountedIff`, `EverCountedIff`).
- frontend/src/lib/cluster.ts:61 claims the same window maths as the aggregator.  The two windows are
  the same after every call exactly when each call comes before the next bucket boundary or on one
  (`SameWindowIff`).  A query of windows of b buckets reports the same, whatever was recorded,
  exactly when each record is young enough for both or for neither: less than b boundaries old, and
  less than b after taking off what the carry has grown by since (`ReportsAgreeIff`).  The carry is
  the whole buckets in the time lost to rotations and the time since the last one together.
  In any case b buckets of the aggregator lie between b-1 and 2b of the browser (`Sandwich`).
- pkg/profile/window.go:70 bounds the lock ratio by 1.  On every run it is at most 1 while the waits
  recorded in the last (2b-1)d-b are no longer than the window, and above 1 once those of the last
  (b-1)d are longer (`RatioBounds`).  No shorter and no longer horizon will do.
- cmd/aggregator/autoscaler.go:83 ranges over the keys in no fixed order, and each query reads the
  clock.  With two workloads or more the count depends on that order when a bucket boundary falls
  between two queries, and only then (`OrderDoesNotMatterIff`).
- pkg/telemetry/batch.go:28 calls MaxEvents the maximum of events per batch.  It is one exactly with
  at most one adder; with N the maximum is MaxEvents-1+N, and it is met.
- pkg/telemetry/batch.go:115 has Stop flush what remains.  An Add that is still owing a flush or
  holding a batch can send on the closed channel (`UnsafeStop`); `StopIsSafeIff` says exactly when not.
- scripts/run_evidence_simulations.py:9 calls its scorer a line-for-line port.  It rounds halves to
  even and is one point below Go exactly where `PythonAgreesIff` says, on its own table too.
- cmd/aggregator/autoscaler.go and the browser's copy of its rule (frontend/src/lib/cluster.ts:104)
  differ above six replicas, which manual scaling can reach (`RulesAgreeIff`).

## Model

| member | source | states |
|---|---|---|
| `History.AlwaysCountedIff` | pkg/profile/window.go:261-283 | an event of age g is counted by a query on every run without a reset, whatever else is called in between, if and only if g is at most (b-1)d |
| `History.EverCountedIff` | pkg/profile/window.go:261-283 | some run still counts an event of age g if and only if g is at most (2b-1)d-b: the true horizon, against the one window README.md:325 promises |
| `History.RetentionBounds` | pkg/profile/window.go:191-196 | both bounds for one scenario and for either kind of rotation clock, the aggregator's or the browser's |
| `History.RunBracketed` | pkg/profile/window.go:261-283 | the invariant over every run behind the bounds: n rotations since an event took between dn and (2d-1)n of clock time |
| `History.LateRecordIsLost` | pkg/profile/window.go:262-282 | a run that loses an event of any age above (b-1)d: the lower bound cannot be raised |
| `History.DawdlingKeepsEvent` | pkg/profile/window.go:262-282 | a run of calls just short of two buckets apart that keeps an event of any age up to (2b-1)d-b: the upper bound cannot be lowered |
| `History.YoungEventReported` | pkg/profile/window.go:191-206 | every counter of an event no older than (b-1)d is included in the totals of the query |
| `History.DrainedWindow` | pkg/profile/window.go:192-196 | once every event is older than (2b-1)d-b, a query of a window finds every counter at zero: silent workloads do age out |
| `History.WindowHonest` | pkg/profile/window.go:198-206 | window totals of non-negative records are non-negative, have at least as many samples as faults and switches together, and are all zero when there is no sample |
| `History.RunHonest` | pkg/profile/window.go:130-188 | every run of such records keeps the history so |
| `SlidingWindow.WorkloadProfile.constructor` | pkg/profile/window.go:94-117 | non-positive sizes are replaced by the defaults; the ring starts with an empty history at the given time |
| `SlidingWindow.WorkloadProfile.MaybeRotate` | pkg/profile/window.go:261-283 | the in-place rotation with its cap refines rotating the unbounded history: each slot then holds exactly the events of its own rotation count |
| `SlidingWindow.CapIsInvisible` | pkg/profile/window.go:271-275 | capping the rotations at the number of buckets leaves the same window as performing all of them |
| `SlidingWindow.AdvanceSpaced` | pkg/profile/window.go:277-282 | a rotation keeps the bucket starts in ring order, equal or at least a bucket apart, with the newest at the rotation clock |
| `SlidingWindow.StartsOrdered` | pkg/profile/window.go:201-214 | what that gives the scan in array order: two sorted stretches, the second no later than the first, no start after the rotation clock |
| `SlidingWindow.WorkloadProfile.ResetData` | pkg/profile/window.go:120-128 | afterwards the history is empty and the rotation clock stands at now |
| `SlidingWindow.WorkloadProfile.RecordPageFault` | pkg/profile/window.go:131-138 | the history gains one fault at the rotation count after rotating; the node is remembered |
| `SlidingWindow.WorkloadProfile.RecordCacheMiss` | pkg/profile/window.go:141-148 | the same for a number of misses as one sample |
| `SlidingWindow.WorkloadProfile.RecordLockContention` | pkg/profile/window.go:151-158 | the same for a lock wait as one sample |
| `SlidingWindow.WorkloadProfile.RecordBulk` | pkg/profile/window.go:161-178 | the history gains one event with exactly these faults, misses, switches and lock time, and as many samples as faults, misses and switches, and one more for positive lock time |
| `Recorders.OneByOneOrInBulk` | pkg/profile/window.go:131-188 | page faults, single misses, context switches and a lock wait recorded one by one add to every window what one bulk record of them adds |
| `Recorders.FaultsAndSwitches` | pkg/profile/window.go:131-188 | the same of faults and switches without lock time |
| `Recorders.SameTimeTotals` | pkg/profile/window.go:130-188 | changes recorded at one time add exactly their sum to what a query at that time finds, whatever the window held |
| `SlidingWindow.WorkloadProfile.RecordCtxSwitch` | pkg/profile/window.go:181-188 | the same for one switch |
| `SlidingWindow.BulkDelta` | pkg/profile/window.go:171-175 | a bulk record with non-negative arguments never carries a signal without a sample |
| `SlidingWindow.WorkloadProfile.ComputeProfile` | pkg/profile/window.go:191-245 | the loop over the array reports exactly the events fewer than bucketCount rotations old; WindowStart is the least bucket start; WindowEnd is the end of the newest bucket unless an odd number of steps of exactly one bucket duration lead up to it in the array, and then its start |
| `SlidingWindow.ProfileInCounts` | pkg/profile/window.go:216-242 | each rate times the length of the window is its own counter; high confidence is more than 1000 samples, medium 100 or more, low any, unknown none |
| `LockRatio.RatioBounds` | pkg/profile/window.go:191-225 | on every run of non-negative records and resets, the reported ratio is at most one if the waits recorded in the last (2b-1)d-b and not reset sum to at most the window, and above one if those of the last (b-1)d sum to more |
| `LockRatio.BoundingHorizonIff` | pkg/profile/window.go:225-283 | bounding the waits of the last h keeps the ratio at most one on every run if and only if h is at least (2b-1)d-b |
| `LockRatio.ExceedingHorizonIff` | pkg/profile/window.go:225-283 | waits of the last h that exceed the window force the ratio above one on every run if and only if h is at most (b-1)d |
| `LockRatio.OneLongWait` | pkg/profile/window.go:151-225 | a default profile that has recorded one wait of two minutes reports a ratio of two |
| `ProfileStore.Store.GetOrCreate` | pkg/profile/store.go:32-40 | uncontended: a known key returns the stored object and changes nothing, a new key gets a fresh profile and leaves every other history and object as it was |
| `ProfileStore.Store.QueryProfile` | pkg/profile/store.go:52-61 | a query rotates the history of its key and no other and reports its window; a missing key reads as a zero profile of unknown confidence |
| `ProfileStore.Store.QueryNodeProfiles` | pkg/profile/store.go:64-80 | one profile for exactly the workloads located on the node, each the answer of a query after those before it; the other histories are untouched |
| `ProfileStore.Store.Feed` | cmd/aggregator/main.go:130-131 | recording into the profile of a key, created if need be, adds one event with exactly the signals of the request to its history and leaves all others as they were |
| `ProfileStore.Store.Clear` | cmd/aggregator/main.go:154-155 | the same for clearing it |
| `ProfileStore.Store.Keys` | pkg/profile/store.go:98-105 | every key exactly once |
| `StoreRace.NoRecordLost` | pkg/profile/store.go:32-40 | in every interleaving of any number of goroutines, the stored profile of a key has received every record made through any GetOrCreate of that key, in order, and a profile that lost the race has received none |
| `StoreRace.StoredHasEveryRecord` | pkg/profile/store.go:32-40 | from the moves alone: the stored profile of a key has exactly the records made by goroutines that had last asked for that key, in the order they were made |
| `StoreRace.OneProfilePerKey` | pkg/profile/store.go:32-40 | any two calls that have returned, however far apart, hold the same profile if and only if they asked for the same key |
| `StoreRace.RunFaithful` | pkg/profile/store.go:32-40 | the invariant behind both, kept by every step, and that a stored profile is never replaced |
| `Comparison.AlignedClosedForm` | frontend/src/lib/cluster.ts:72-102 | the browser counts an event if and only if fewer than b bucket boundaries lie between it and the query, whatever was called in between |
| `Comparison.AlignedRetentionIff` | frontend/src/lib/cluster.ts:72-79 | the browser counts an event of age g wherever it falls if and only if g is at most (b-1)d, and somewhere if and only if g is less than bd |
| `Comparison.Sandwich` | frontend/src/lib/cluster.ts:61-102 | on the same calls, and whenever the two clocks were started before them, every event of b-1 browser buckets is in the aggregator's b buckets, and every event of those in 2b browser buckets |
| `Comparison.TwiceIsNeededIff` | frontend/src/lib/cluster.ts:61-102 | one browser bucket fewer than 2b would do on every run if and only if a bucket is no longer than b ticks of the clock |
| `Comparison.AcrossMost` | pkg/profile/window.go:262-282 | for longer buckets, a run with a common start in which the aggregator keeps an event across 2b-1 boundaries |
| `Comparison.SandwichedTotals` | pkg/profile/window.go:191-206 | so each total the aggregator reports lies between the two the browser would report |
| `Comparison.ClockConserved` | pkg/profile/window.go:262-282 | over every run the rotation clock advances by a bucket per rotation plus exactly the fractions lost |
| `Comparison.SameWindowIff` | frontend/src/lib/cluster.ts:61-79 | from any common state and without resets, the rotation clocks and all totals of the two windows are equal after every call if and only if each call comes before the next boundary or on one |
| `Comparison.ClocksCanMeetAgain` | frontend/src/lib/cluster.ts:72-79 | the state after the last call alone does not tell: two calls off the boundaries after which the windows are the same |
| `WindowAgreement.CarryIs` | frontend/src/lib/cluster.ts:72-79 | how many more rotations the browser has made than the aggregator, from the call times and the two starts alone |
| `WindowAgreement.SameEventsIff` | frontend/src/lib/cluster.ts:61-102 | without resets, a query counts the same events in two windows of b buckets if and only if each record is young enough for both or for neither |
| `WindowAgreement.ReportsAgreeIff` | frontend/src/lib/cluster.ts:61-102 | and that, a condition on the call times and the two starts alone, is exactly when it reports the same totals whatever was recorded |
| `WindowAgreement.EverySizeIff` | frontend/src/lib/cluster.ts:61-102 | it holds for windows of every size if and only if the query finds the carry that each record met |
| `WindowAgreement.DifferentCarrySameReports` | frontend/src/lib/cluster.ts:61-102 | for one size the carries may differ: an event that has left both windows |
| `WindowAgreement.OnBoundaryCarriesNothing` | pkg/profile/window.go:262-282 | nothing is carried while each call comes before the next boundary or on one |
| `Comparison.NeitherContainsTheOther` | frontend/src/lib/cluster.ts:61-79 | with equally many buckets each window can hold an event the other has dropped |
| `BrowserWindow.LocalBackend.Rotate` | frontend/src/lib/cluster.ts:72-79 | shifting and pushing at most BUCKETS times moves every workload's history by all the rotations due, and the clock by whole buckets |
| `BrowserWindow.CapHolds` | frontend/src/lib/cluster.ts:77 | the cap cannot be seen here either |
| `BrowserWindow.LocalBackend.Record` | frontend/src/lib/cluster.ts:81-88 | the workload's history gains one event with exactly the spec's counts, and its lock share of a second to the nearest nanosecond, after rotating, starting empty if it was unknown; the others only rotate |
| `BrowserWindow.LocalBackend.Reset` | frontend/src/lib/cluster.ts:90 | forgets one workload and nothing else |
| `BrowserWindow.LocalBackend.Profiles` | frontend/src/lib/cluster.ts:92-102 | exactly one profile per workload, of the events fewer than BUCKETS rotations old |
| `BrowserWindow.BrowserProfileInCounts` | frontend/src/lib/cluster.ts:96-100 | each rate times twelve seconds is its own counter, and the confidence thresholds are the aggregator's |
| `BrowserWindow.BrowserVerdictInCounts` | frontend/src/lib/cluster.ts:111-115 | hot is more than 1200 switches, 60,000 faults or 12,000 misses in a window; nominal is fewer than 600, 24,000 and 6000 |
| `BrowserWindow.LocalBackend.AutoscaleTick` | frontend/src/lib/cluster.ts:105-124 | the new count lies in 1..6, whatever it was, and is the clamped rule applied to whether any history is hot and all are nominal; a change leaves one line, up or down, at the end of the newest fifty, whose reason is the first signal of a hot workload or that all are nominal; switched off it changes nothing |
| `Autoscaling.Decide` | cmd/aggregator/autoscaler.go:78-101 | the loop that stops at the first hot workload returns the order-free decision (anything hot, everything nominal), queries exactly the keys up to that one, and names it with the first signal over its threshold |
| `Autoscaling.Autoscaler.LogScaling` | cmd/aggregator/autoscaler.go:108-120 | appends one line, up or down, and drops the oldest of a log of fifty |
| `Autoscaling.Autoscaler.Tick` | cmd/aggregator/autoscaler.go:132-143 | an enabled tick is the step of the run model over the store's keys, with a line and its reason for each change; a disabled one leaves store, count and log alone |
| `Autoscaling.RunRange` | cmd/aggregator/autoscaler.go:84-103 | over every run a count in 1..6 stays in 1..6 and one in 1..10 in 1..10, whatever the telemetry |
| `Autoscaling.HeatReachesMaximum` | cmd/aggregator/autoscaler.go:84-92 | k hot ticks lead to min(6, n+k), so to exactly six within five ticks from any count the scale endpoint accepts (cmd/aggregator/main.go:203) |
| `Heat.TelemetryHeats` | cmd/aggregator/autoscaler.go:84-143 | from an empty store and after any run forward in time: while before each tick some workload has recorded, in the last (b-1)d and not reset since, more of a signal than its threshold allows in a window, k ticks lead to min(6, n+k) |
| `Heat.TelemetrySteadies` | cmd/aggregator/autoscaler.go:92-101 | the dead band: while before each tick some workload has recorded at least a nominal limit's worth of the window in the last (b-1)d, and none more than a hot limit's worth in the last (2b-1)d-b, ticks leave the count as it is |
| `Heat.TelemetryCools` | cmd/aggregator/autoscaler.go:92-98 | while everything recorded in the last (2b-1)d-b stays below the nominal limits, k ticks with a key to look at leave max(1, n-k) |
| `Heat.VerdictInCounts` | cmd/aggregator/autoscaler.go:86-93 | hot and nominal in terms of the counters of a window of any size, with all six thresholds |
| `Heat.SeenBetween` | pkg/profile/window.go:191-226 | what the query of a tick finds lies between what was recorded in the last (b-1)d and in the last (2b-1)d-b before it |
| `Autoscaling.DrainToOne` | cmd/aggregator/autoscaler.go:76-143 | with no event after t, k ticks whose queries come later than t+(2b-1)d-b leave max(1, n-k) replicas, whatever queries, resets and creations are mixed in |
| `Autoscaling.SilenceDrains` | cmd/aggregator/autoscaler.go:122-143 | so from an empty store: after any run forward in time of records, queries, resets and ticks, the same holds of the silence that follows |
| `Autoscaling.RunCurrent` | pkg/profile/store.go:52-61 | the invariant that carries it: over every such run all histories in the store keep the bounds between time and rotations |
| `BrowserRuns.BrowserDrains` | frontend/src/lib/cluster.ts:105-124 | in the browser silence need only last one window of bd: k ticks that late with a workload to look at leave max(1, n-k) replicas, whatever is shown or reset in between |
| `BrowserRuns.BrowserSilenceDrains` | frontend/src/lib/cluster.ts:65-124 | so from a new backend, after any run forward in time |
| `BrowserRuns.RunGridded` | frontend/src/lib/cluster.ts:72-124 | over every such run the clock stays on a boundary, every workload's events keep their epochs, and the count stays in 1..6 |
| `BrowserRuns.BrowserRetention` | frontend/src/lib/cluster.ts:72-79 | in milliseconds: the browser is sure to count an event up to 11,000 old, and can count one only if less than 12,000 old |
| `QueryOrder.OrderDoesNotMatter` | cmd/aggregator/autoscaler.go:83-100 | two listings of the same keys, in any order and with any repetition, each query at its own time within a span, lead to the same count if no bucket boundary that the window could notice falls in the span for any known key |
| `QueryOrder.OrderDoesNotMatterIff` | cmd/aggregator/autoscaler.go:83-143 | for given rotation clocks and whatever the store contains, the count is independent of the order in which the store lists its keys if and only if it has at most one or no such boundary falls in the span |
| `QueryOrder.OneInstant` | cmd/aggregator/autoscaler.go:83-100 | in particular when all queries of a tick read one time |
| `QueryOrder.BoundaryMatters` | cmd/aggregator/autoscaler.go:83-143 | otherwise there are contents of the store and two listings of its keys, one of which scales up and the other down |
| `QueryOrder.TwoOrdersTwoCounts` | cmd/aggregator/autoscaler.go:83-143 | a run that shows it: two workloads, one burst and one tick over the keys of the store, which leaves four replicas or two |
| `BrowserRuns.RulesAgreeIff` | frontend/src/lib/cluster.ts:117-119 | from a positive count the browser's rule and the aggregator's lead to the same count on every sequence of findings if and only if it is at most six |
| `BrowserRuns.SameFindingsSameCount` | frontend/src/lib/cluster.ts:104-124 | a run of the aggregator and one of the browser that start with one count in 1..6 and whose ticks find the same end with one count |
| `Scoring.NewScorer` | pkg/scoring/scorer.go:61-78 | positive maxima are kept and others replaced by the defaults, so that all maxima of a scorer are positive |
| `Scoring.Score` | pkg/scoring/scorer.go:106-178 | the loop with four accumulators and a skip equals the clamped and rounded value of the dampened sum of pairwise penalties over the neighbours with a profile, lies in [0,100] for every configuration and input, and is 100 less the total to the nearest integer; the total is one, three or four quarters of the four signals by confidence |
| `Scoring.PressureClosedForm` | pkg/scoring/scorer.go:123-153 | each signal is its weight times summed rates over its maximum: the neighbours' summed, and the candidate's once per neighbour with a profile, except for cache misses |
| `Scoring.ScoreFollowsPenalty` | pkg/scoring/scorer.go:160-170 | of two inputs the one with the larger penalty scores no higher, and the scores differ by less than the penalties plus one |
| `Scoring.RatesNeverHelp` | pkg/scoring/scorer.go:121-168 | raising any rate of the candidate or of any neighbour never raises the score |
| `Scoring.NeighboursNeverHelp` | pkg/scoring/scorer.go:123-153 | one more neighbour with a profile never raises the score, one without a profile leaves it as it is |
| `Scoring.ConfidenceNeverHelps` | pkg/scoring/scorer.go:180-193 | from low over medium to high confidence of the candidate the score falls weakly |
| `Scoring.ScoreIgnoresOrder` | pkg/scoring/scorer.go:123-153 | only the multiset of neighbours matters |
| `Scoring.UnknownIsQuiet` | pkg/scoring/scorer.go:107-111 | a profile of non-negative records is of unknown confidence if and only if its window is empty, and then replacing it by a quiet one changes no rate |
| `ScorerPorts.TsScore` | frontend/src/lib/scorer.ts:29-55 | on every input the port's score is Go's, and its breakdown is Go's times the dampening |
| `ScorerPorts.FilterFirst` | frontend/src/lib/scorer.ts:33 | filtering the neighbours first adds up to the same as skipping inside the loop |
| `ScorerPorts.BrowserScoresAlike` | frontend/src/lib/cluster.ts:130-137 | sending profiles to the browser and scoring them there gives the score the scheduler gives |
| `ScorerPorts.AkilScoreLoop` | scripts/run_evidence_simulations.py:81-103 | the loop with one accumulator computes the rounded, then clamped remainder of the summed penalties |
| `ScorerPorts.PyPenaltyIsPressure` | scripts/run_evidence_simulations.py:94-102 | one accumulator holds what Go's four hold together |
| `ScorerPorts.PythonAgreesIff` | scripts/run_evidence_simulations.py:103 | the simulation scores as Go or one lower, and lower if and only if 100 less the penalty is a non-negative half-integer with an even floor |
| `ScorerPorts.TableInTwentieths` | scripts/run_evidence_simulations.py:48-102 | twenty times what each workload of the table costs each other is a given whole number |
| `ScorerPorts.PythonAgreesOnTableIff` | scripts/run_evidence_simulations.py:48-103 | so for every candidate and residents of the table the two scores differ if and only if 2000 less the twentieths is not negative and leaves 10 when divided by 40 |
| `ScorerPorts.PythonDiffersFromGo` | scripts/run_evidence_simulations.py:48-103 | a web pod beside a web pod is such a case: 84 instead of 85 |
| `Batching.BatchSizeBound` | pkg/telemetry/batch.go:84-135 | in every reachable state `current` and every batch hold at most maxEvents-1+N events, and no batch is empty |
| `Batching.StepSized` | pkg/telemetry/batch.go:84-135 | the invariant behind it: every event from the filling one on has its own adder still owing a flush |
| `Batching.BatchSizeMet` | pkg/telemetry/batch.go:84-135 | for every configuration with an adder, a run whose first batch is that large |
| `Batching.MaxEventsHoldsIff` | pkg/telemetry/batch.go:28-30 | no run exceeds maxEvents in a batch if and only if there is at most one adder |
| `Batching.NothingLost` | pkg/telemetry/batch.go:84-150 | in every interleaving the batches in swap order followed by `current` are the lock-ordered history of adds, and each batch is in flight, queued, consumed or dropped exactly once |
| `Delivery.BatchesHoldWhatWasAdded` | pkg/telemetry/batch.go:84-135 | from the moves alone: the batches in swap order followed by `current` are the appended events in order |
| `Delivery.SendOutcome` | pkg/telemetry/batch.go:143-149 | an open channel with room takes the batch at its end, a full one drops it, a closed one panics |
| `Delivery.DropsOnlyWhenFull` | pkg/telemetry/batch.go:143-149 | in every reachable state the channel holds at most its capacity, and a move drops a batch only when it holds exactly that |
| `Delivery.NothingDropped` | pkg/telemetry/batch.go:126-149 | a run in which the batches swapped out never outnumber those consumed by more than the capacity drops nothing |
| `Delivery.InOrderOfSends` | pkg/telemetry/batch.go:121-149 | over every run what was consumed and then what is queued are the accepted sends, in their order |
| `Delivery.TickDelivers` | pkg/telemetry/batch.go:105-106 | a tick that nothing interrupts swaps `current` out and offers it to the channel |
| `Batching.StopIsSafeIff` | pkg/telemetry/batch.go:107-118 | if nothing is appended after Stop, no interleaving sends on the closed channel if and only if at Stop no adder holds a batch and none that owes a flush could find one |
| `Batching.UnsafeStop` | pkg/telemetry/batch.go:107-145 | from any other state there is an interleaving that does |
| `Batching.CleanShutdown` | pkg/telemetry/batch.go:107-150 | if every Add has returned before Stop, then once the ticker stops nothing is left in `current` and every event ever added is in a batch that was queued, consumed or dropped |
| `BatchAssembly.BatchAssembler.constructor` | pkg/telemetry/batch.go:57-80 | zero sizes become the defaults, and the fields represent the initial state of the step relation |
| `BatchAssembly.BatchAssembler.Append` | pkg/telemetry/batch.go:87-90 | the locked section of Add is the append move, and its answer is whether the adder then owes a flush |
| `BatchAssembly.BatchAssembler.TakeAll` | pkg/telemetry/batch.go:127-135 | the locked section of flush is the swap move |
| `BatchAssembly.BatchAssembler.Offer` | pkg/telemetry/batch.go:143-149 | an open channel with room ends with the batch, and nothing else changes it; a closed one panics; this is the send move |
| `BatchAssembly.BatchAssembler.Receive` | pkg/telemetry/batch.go:121-123 | a receive from the channel is the consumer's move and yields the oldest batch queued |
| `BatchAssembly.BatchAssembler.Add` | pkg/telemetry/batch.go:84-95 | Add without interruption is a run of the step relation that leaves the adder ready again |
| `BatchAssembly.BatchAssembler.Finish` | pkg/telemetry/batch.go:107-110 | the ticker's last turn without interruption is a run that empties `current` and closes the channel |
| `LockProbe.Probe.HandleContentionBegin` | pkg/ebpf/akil.c:106-112 | the map's new contents in every case: overwritten, inserted, refused for want of room |
| `LockProbe.Probe.HandleContentionEnd` | pkg/ebpf/akil.c:114-134 | no entry changes nothing; otherwise the entry goes even when the reservation fails, and only a reserved event is submitted |
| `LockProbe.MapTracksPending` | pkg/ebpf/akil.c:98-134 | on every trace the map holds for each thread exactly the time of its latest accepted begin since its last end |
| `LockProbe.EmittedFromLatestBegin` | pkg/ebpf/akil.c:114-130 | an end emits if and only if such a begin is pending and the reservation succeeds; the duration is the true difference, without wrapping |
| `LockTraces.EndIsMeasuredFromLastBegin` | pkg/ebpf/akil.c:98-130 | from the calls alone: if every insert is obliged and no more than 65536 threads ever wait, an end emits if and only if its thread's last call was a begin and the reservation succeeds, and measures from that begin |
| `LockTraces.NestedBeginIsTheOne` | pkg/ebpf/akil.c:106-130 | whatever came before and however full the map is, an end is measured from a begin nested in its wait |
| `LockTraces.FullMapLosesFirstBegin` | pkg/ebpf/akil.c:98-118 | a full map loses the begin of a thread that is not in it, and its end emits nothing |
| `LockProbe.IntervalsDisjoint` | pkg/ebpf/akil.c:98-134 | over every trace, with nested begins, stray ends and failures, one thread's emitted intervals follow each other without overlap and before the pending begin |
| `LockProbe.WaitsFitInTime` | pkg/ebpf/akil.c:121-130 | so together they are no longer than the time since the thread's first begin |
| `Placement.Pick` | scripts/run_evidence_simulations.py:131-179 | returns some node of the greatest key among those the pod fits, and none if and only if it fits none; ties may go either way |
| `Placement.PicksByRank` | scripts/run_evidence_simulations.py:121-179 | for each of the four pickers, the nodes it may return are exactly those of the greatest rank in whole numbers: least used, most used, nearest 1000 after placement, or most of 500 times score less use |
| `Placement.TwentyFit` | scripts/run_evidence_simulations.py:48-119 | a pod fits if and only if the node holds no more than twenty with it, a batch worker counting twice |
| `Placement.Place` | scripts/run_evidence_simulations.py:192-202 | the nodes end with the loads of a run the scheduler may take, and `unplaced` counts its rejections |
| `Placement.PlacementSound` | scripts/run_evidence_simulations.py:116-119 | for every scheduler and arrival sequence no node exceeds its CPU or memory, and each arrival is on one node or rejected |
| `Placement.MemoryNeverBinds` | scripts/run_evidence_simulations.py:48-54 | on the given table whether a pod fits is decided by CPU alone |
| `Placement.DefaultBalances` | scripts/run_evidence_simulations.py:131-136 | the default scheduler never lets two nodes differ by more than 200 CPU |
| `Placement.BinPackingPacks` | scripts/run_evidence_simulations.py:139-147 | bin packing keeps at most one non-empty node at or below 1800 CPU |
| `Placement.PackedIsDense` | scripts/run_evidence_simulations.py:139-147 | so k occupied nodes carry at least 1900(k-1)+100 CPU |
| `Placement.FromEmptyNodes` | scripts/run_evidence_simulations.py:192-202 | both for every arrival sequence of the experiment |
| `Placement.AkilNeverTradesFourPoints` | scripts/run_evidence_simulations.py:171-179 | the AKIL picker never takes a node scoring four or more points below another the pod fits |
| `PointerChase.BuildNext` | benchmarks/webbench/server/main.go:26-31 | every element of the permutation points to the one after it, the last to the first |
| `PointerChase.LinksClosed` | benchmarks/webbench/server/main.go:29-37 | so every read stays in bounds |
| `PointerChase.EachSlotOnce` | benchmarks/webbench/server/main.go:29-31 | the loop writes each slot of the array exactly once |
| `PointerChase.WalkIs` | benchmarks/webbench/server/main.go:34-37 | k reads from the i-th element lead to the element (i+k) mod n |
| `PointerChase.SingleCycle` | benchmarks/webbench/server/main.go:24-37 | from any start the walk meets every index exactly once in n reads, and the n-th returns for the first time |
| `PointerChase.Chase` | benchmarks/webbench/server/main.go:34-37 | the loop ends where that many reads lead |

## Left out

- Floating-point rounding and 64-bit overflow of counters: rates are exact reals and counters mathematical integers.  The one unsigned subtraction that matters, in the lock probe, is modelled with its wrap-around.
- The mutex inside a profile: each profile method is one atomic step, as the lock makes it.  In StoreRace.dfy a record is such a step.
- A zero clock reading: readings are after the zero time of Go's clock, on which the scan for WindowEnd relies.
- ProfileStore.Store.QueryNodeProfiles: the set of located workloads is read once per profile, as in the code, but no record can come between two of its queries.
- Store.Delete, Get and ActiveProfiles of pkg/profile/store.go: Delete has no caller and would void the no-lost-record result; Get is the lookup at the start of QueryProfile and ActiveProfiles counts the keys.
- BrowserWindow.LocalBackend.AutoscaleTick: which of several hot workloads a log line names is left open, because it depends on the order of the map; timestamps and message texts are left out everywhere.
- Autoscaling.Autoscaler.Tick: a manual change of the replica count during a tick is not interleaved; the branch that scales a Kubernetes deployment, the toggling of autoscaling with its log line and the three-second ticker are not modelled.
- Scoring.Score: the reason text and the neutral score constant, which Score never returns.
- QueryOrder.OrderDoesNotMatterIff: rotation clocks are more than one window after the zero time of Go's clock, so that there was time to record what the window can hold.
- Batching.dfy: the conversion of events to protobuf, batch names and timestamps, and a second Stop (closing a closed channel) are not modelled; any number of ticks may come at any time.
- LockProbe.dfy: failure of an insert or a reservation is a parameter of the call; the handler's process and cgroup identifiers are parameters too or left out.
- Placement.dfy: random tie-breaking is a free choice; the latency model, statistics and plots of the script are not modelled, nor are custom normalisation maxima and weights of its scorer in the placement runs.
- PointerChase.BuildNext: the permutation is a parameter, required to hold each index once.
- The gRPC and HTTP layers, the scheduler plugin, the collector's cgroup lookup, the other eBPF probes and the React components.
