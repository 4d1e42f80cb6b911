# Aether: a Dafny model of its hardest parts

Aether is an arbitrage system: a Rust engine looks for profitable cycles in a price graph, and
Go services decide whether to act on them, submit bundles, and keep a ledger. This project models
the parts whose correctness is hard to see from the code, and proves what they guarantee.

| component | files | what is proved |
|---|---|---|
| Cycle detector | `PriceGraph`, `Predecessors`, `CycleExtraction`, `CycleSearch`, `Scans`, `LimitCost`, `Detection`, `Detector` | every report is a profitable simple cycle; exactly which loops with one way in are reported; what the limit means and costs; what the labels mean; a bound on the work |
| Input optimizer | `Optimizer` | ternary search keeps the peak and contracts by a third per round; grid search finds the best grid point |
| Best-opportunity collector | `StableSort`, `TopK` | the incremental list equals the beginning of the stable sort of everything inserted |
| Risk manager | `Risk`, `RiskManager`, `RiskRuns`, `TipRuns`, `VolumeRuns` | breakers, windows, rates, tip and volume over whole runs and interleavings |
| Mempool gate | `MempoolGate`, `MempoolRuns`, `MempoolPeak` | how approvals for one target block spread over time, and how far they can crowd |
| Import-cycle check | `ImportCycles` | reports are import cycles, and every reachable cycle has an import that closes a report |
| Builder selector | `Allocation`, `Selector` | shares sum to 1, have a floor and follow the score; sampling hits each builder on an interval as long as its share |
| Ledger writer | `Ledger` | conservation, gauge, concurrency limit, clean drain, progress and the exact condition of a crash over all interleavings |
| Admin rate limiter | `RateLimiter` | an exact account of which calls are let through, and a bound on every window of every run |

Code that works by loops and updates in place is modelled by methods and classes, and each of them
is proved equal to a function on values; the theorems about whole runs are lemmas about those
functions. Floating-point numbers are exact reals. Clocks, random numbers and the visiting order of
hash maps are parameters, so each statement holds for all of them.

Three comments in the source do not agree with the code. The model follows the code.

- The detector's comment says that a vertex relaxed as often as there are vertices proves a negative
  cycle. `LimitWithoutCycle` gives a graph without any cycle on which that happens. There
  is proof of a profitable loop where the walk back over the predecessors succeeds, which it does
  exactly when they lead to a cycle (`CycleBehindIsLoop`); `LimitReportsIff` says when such a vertex
  is reported.
- The full scan is described as detecting all negative cycles. `LoopCanBeMissed` gives a graph with a
  loop of weight -1 on which a complete scan reports nothing: a second way into the loop uses up the
  limit before the loop closes. Where the vertices of a loop beyond the tolerance have no way in but
  along the loop, `SecludedLoopIsReportedIff` gives the exact condition: a scan that the clock does
  not stop reports the loop exactly when it has no more vertices than the hop limit, and both entry
  points promise that. Where no vertex has two ways in, a scan reports something exactly when it
  reaches the limit (`OneWayGraphReportsIffLimit`). On every graph a report needs the limit
  (`ReportsNeedLimit`), so a scan below it is no more than a proof that there is no such loop
  (`FullScanIsCompleteOrLimited`); `LimitReportsIff` decides each vertex at the limit.
- Competitive reverts are said not to count toward the breaker. They add nothing to the count, but
  recording one re-evaluates it: `CompetitiveRevertTripsIff` says exactly when the state changes, and
  `CompetitiveRevertCanTrip` shows that it does after an operator resumed.

## Model

| member | source | states |
|---|---|---|
| StableSort.SortIsStable | crates/detector/src/opportunity.rs:84-88 | the library sort orders the elements and keeps equal ones in their given order |
| StableSort.SortPermutes | crates/detector/src/opportunity.rs:84-88 | it neither loses nor adds elements |
| StableSort.StableSortIsUnique | crates/detector/src/opportunity.rs:84-88 | a stable sort is determined by its input, so equality with it says everything |
| PriceGraph.CheapestIsLeast | crates/detector/src/bellman_ford.rs:177-186 | the chosen parallel edge exists exactly when some unfiltered edge joins the two vertices, and none is cheaper |
| PriceGraph.PathHasWalk | crates/detector/src/bellman_ford.rs:171-191 | a path summed over cheapest edges is the weight of an actual walk with as many hops |
| Predecessors.LongWalkEndsOnCycle | crates/detector/src/bellman_ford.rs:138-142 | for any predecessor array: if as many back-steps succeed as there are vertices, they end on a cycle |
| Predecessors.LongWalkIffCycle | crates/detector/src/bellman_ford.rs:138-142 | for any predecessor array: as many back-steps succeed as there are vertices exactly when the walk back comes to a cycle |
| Predecessors.CycleNeverEnds | crates/detector/src/bellman_ford.rs:144-154 | from a vertex on a cycle no back-step fails |
| Predecessors.CycleIsSimple | crates/detector/src/bellman_ford.rs:144-154 | within one period the vertices of a cycle differ |
| Predecessors.BackBounds | crates/detector/src/bellman_ford.rs:80-84 | labels bound the weight of every walk back through predecessors |
| Predecessors.NewCycleGains | crates/detector/src/bellman_ford.rs:82-85 | an improving edge closes a predecessor cycle through its target only if that cycle gains more than the tolerance |
| Predecessors.CyclesKeepGaining | crates/detector/src/bellman_ford.rs:82-85 | after any relaxation every cycle of the predecessor array still gains more than the tolerance |
| Predecessors.LabelsStayConsistent | crates/detector/src/bellman_ford.rs:82-85 | each label stays at least its predecessor's label plus the hop between them |
| CycleExtraction.BestEdge | crates/detector/src/bellman_ford.rs:177-186 | the minimum search over an edge list finds the cheapest unfiltered edge to the target |
| CycleExtraction.WalkBack | crates/detector/src/bellman_ford.rs:138-142 | the walk back takes exactly as many steps as there are vertices, or stops at a missing predecessor |
| CycleExtraction.TraceCycle | crates/detector/src/bellman_ford.rs:144-164 | the trace collects exactly the cycle, closes before the safety guard, and never takes the exit for an unclosed trace |
| CycleExtraction.TotalWeight | crates/detector/src/bellman_ford.rs:171-191 | the weight is the sum of the cheapest hops, and missing exactly when a hop has no unfiltered edge |
| CycleExtraction.CyclePathFollows | crates/detector/src/bellman_ford.rs:160-164 | the reversed and closed path is simple, closed, and follows the predecessor array |
| CycleExtraction.ExtractCycle | crates/detector/src/bellman_ford.rs:131-194 | extraction, loops included, returns the cycle the predecessor array leads to, or nothing for the three reasons of the source |
| CycleExtraction.ExtractedIsCycle | crates/detector/src/bellman_ford.rs:160-193 | for any predecessor array a report is the simple closed path of its predecessors through the vertex that the walk back ends on, over unfiltered hops within the hop limit, with its cheapest weight |
| CycleExtraction.ExtractionSucceeds | crates/detector/src/bellman_ford.rs:138-190 | on arrays the scans build, only a failed walk back or the hop limit prevents a report: the exit for a missing edge is unreachable |
| CycleExtraction.ExtractedIsProfitable | crates/detector/src/bellman_ford.rs:131-194 | where predecessor cycles gain, every report weighs less than minus the tolerance |
| CycleSearch.BudgetSpent | crates/detector/src/bellman_ford.rs:85-98 | each relaxation below the limit uses up one unit of what can still be queued |
| CycleSearch.PopsAreBounded | crates/detector/src/bellman_ford.rs:65-115 | from any state the search takes at most the queued vertices plus the budget, and only the clock ends it early |
| CycleSearch.SearchEnds | crates/detector/src/bellman_ford.rs:64-70 | a search ends with an empty queue, or where it found the clock late at its last vertex |
| CycleSearch.LateClockEnds | crates/detector/src/bellman_ford.rs:67-70 | a late clock ends the search at the next vertex |
| CycleSearch.RelaxedVertexQueues | crates/detector/src/bellman_ford.rs:100-112 | a relaxed vertex below the limit that is not queued joins the queue, in front exactly when its new label is below that of the front |
| CycleSearch.RelaxKeepsInv | crates/detector/src/bellman_ford.rs:73-114 | one edge keeps labels consistent and attained, predecessor cycles gaining, queue flags right, reports profitable, and exactly the vertices of reported cycles marked |
| CycleSearch.RelaxSettles | crates/detector/src/bellman_ford.rs:73-114 | one edge keeps every vertex queued, over the limit, or without an improving edge |
| CycleSearch.SearchKeeps | crates/detector/src/bellman_ford.rs:65-115 | both invariants hold at the end of the search, the second one if the clock did not stop it |
| CycleSearch.CertificateBoundsWalks | crates/detector/src/bellman_ford.rs:80-82 | where no edge improves, a label exceeds no walk weight by more than the tolerance per hop |
| Scans.ProfitableIsLoop | crates/detector/src/opportunity.rs:3-14 | a report is a closed walk with that weight and as many hops |
| Scans.ScanIsSound | crates/detector/src/bellman_ford.rs:65-115 | for every graph, seed list and clock each report is a profitable simple cycle, and a graph without a profitable loop yields none |
| Scans.ResultIsSound | crates/detector/src/bellman_ford.rs:117-123 | the returned list is sorted by weight, holds the same reports, and is empty where no loop is profitable |
| Scans.ScanCertifies | crates/detector/src/bellman_ford.rs:65-115 | a search that drained below the limit leaves no improving edge out of a reached vertex |
| Scans.ScanIsCompleteOrLimited | crates/detector/src/bellman_ford.rs:236-283 | a search that drained below the limit proves that no closed walk reachable from the seeds gains more than the tolerance per hop |
| Scans.FullScanIsCompleteOrLimited | crates/detector/src/bellman_ford.rs:48-115 | the same for every closed walk of the graph |
| Scans.AffectedScanIsCompleteOrLimited | crates/detector/src/bellman_ford.rs:223-283 | the same for closed walks reachable from an affected vertex |
| Scans.ValidSeedsAreThoseInRange | crates/detector/src/bellman_ford.rs:223-230 | the seeds are exactly the affected vertices that exist |
| Scans.LabelsAreWalkWeights | crates/detector/src/bellman_ford.rs:48-115 | a label is always the weight of a walk from a seed; after a complete search below the limit it exceeds no such walk by more than the tolerance per hop |
| Scans.ScanIsShort | crates/detector/src/bellman_ford.rs:236-283 | a scan takes at most its seeds plus n(n-1) vertices, and ends by itself if the clock does not stop it |
| Scans.FullScanIsShort | crates/detector/src/bellman_ford.rs:56-115 | the full scan takes at most n squared vertices |
| Scans.AffectedScanIsShort | crates/detector/src/bellman_ford.rs:224-283 | the partial scan takes at most its valid seeds, repeats counted, plus n(n-1) vertices |
| LimitCost.LoopCanBeMissed | crates/detector/src/bellman_ford.rs:37-41 | a concrete graph with a loop of weight -1 on which a complete full scan reports nothing, for any hop limit |
| LimitCost.LimitWithoutCycle | crates/detector/src/bellman_ford.rs:19-21 | a concrete graph without a profitable loop on which a vertex is relaxed as often as there are vertices |
| LimitCost.CycleBehindIsLoop | crates/detector/src/bellman_ford.rs:138-142 | where predecessor cycles gain, as in every state of a search, the walk back from a vertex succeeds exactly when its predecessors lead to a cycle, and then the graph has a profitable loop, whatever the hop limit |
| LimitCost.LimitReportsIff | crates/detector/src/bellman_ford.rs:87-98 | a relaxation adds a report exactly when its target reaches the limit, lies on no reported path, and has predecessors that lead to a cycle within the hop limit; a cycle of any length proves a profitable loop |
| Detection.LabelKeepsPace | crates/detector/src/bellman_ford.rs:73-85 | where vertices have one way in, a vertex is relaxed at most once for each label of the vertex before it |
| Detection.WalkBackKeepsPace | crates/detector/src/bellman_ford.rs:138-142 | so from each of them as many back-steps succeed as it was relaxed |
| Detection.LimitInAreaIsReported | crates/detector/src/bellman_ford.rs:87-98 | wherever the clock stops a scan, each of them that reached the limit has a reported cycle behind it |
| Detection.ReportsNeedLimit | crates/detector/src/bellman_ford.rs:87-98 | on every graph a scan reports only after some vertex reached the limit |
| Detection.OneWayGraphReportsIffLimit | crates/detector/src/bellman_ford.rs:19-21 | where no vertex of the graph has two ways in, any scan, wherever it stops, reports a cycle exactly when a vertex reached the limit |
| Detection.LoopHitsLimit | crates/detector/src/bellman_ford.rs:65-115 | on every graph a complete search leaves a vertex at the limit on every labelled loop beyond the tolerance |
| Detection.LoopInAreaIsReported | crates/detector/src/bellman_ford.rs:37-41 | a complete scan reports every loop beyond the tolerance that passes a seed and lies where vertices have one way in |
| Detection.SecludedLoopIsReportedIff | crates/detector/src/bellman_ford.rs:37-41 | a loop without another way in is reported, all its vertices, exactly when it has no more vertices than the hop limit |
| Detection.ResultDetects | crates/detector/src/bellman_ford.rs:117-123 | the sorted result reports exactly those of the secluded loops through its seeds |
| Detection.AffectedResultDetects | crates/detector/src/bellman_ford.rs:202-230 | the same for secluded loops through affected vertices |
| Detector.MarkVisited | crates/detector/src/bellman_ford.rs:91-93 | exactly the vertices of the reported path become marked |
| Detector.RelaxEdge | crates/detector/src/bellman_ford.rs:73-113 | the body of the edge loop, with its in-place updates, is one relaxation step |
| Detector.RelaxEdges | crates/detector/src/bellman_ford.rs:73-114 | the edge loop relaxes all edges of the vertex in order |
| Detector.RunQueue | crates/detector/src/bellman_ford.rs:61-123 | the queue loop returns the reports of the search, stably sorted by weight |
| Detector.SeedEverything | crates/detector/src/bellman_ford.rs:48-59 | the full scan starts with every vertex at distance zero, queued once |
| Detector.SeedAffected | crates/detector/src/bellman_ford.rs:216-230 | the partial scan starts with exactly the valid affected vertices at distance zero, queued with repeats |
| Detector.DetectNegativeCycles | crates/detector/src/bellman_ford.rs:42-124 | the full scan returns profitable simple cycles only, the most profitable first, nothing where no loop is profitable, and with a clock that does not stop it every secluded loop within the hop limit |
| Detector.DetectFromAffected | crates/detector/src/bellman_ford.rs:202-291 | the partial scan returns profitable simple cycles only, the most profitable first, and with a clock that does not stop it every secluded loop through an affected vertex within the hop limit |
| Optimizer.PeakStays | crates/detector/src/optimizer.rs:42-49 | comparing two inner points of a curve with one peak keeps the peak between the new bounds |
| Optimizer.NarrowOnce | crates/detector/src/optimizer.rs:36-49 | one round cuts off the outer third next to the worse of two inner points and keeps at most two thirds of the width |
| Optimizer.TernarySearch | crates/detector/src/optimizer.rs:19-57 | for ordered bounds the result lies in the range; for a curve with one peak it is within half the final width, which contracts by a third per round, and within 1 after enough rounds |
| Optimizer.GridSearch | crates/detector/src/optimizer.rs:69-105 | the result is the first of the best among all steps + 1 grid points, all of which lie in the range; a degenerate grid gives the lower bound |
| Optimizer.GridIsNearPeak | crates/detector/src/optimizer.rs:59-68 | for a curve with one peak the best grid point is less than one step away, and a peak above the last grid point is no further away than the remainder of the range |
| TopK.InsertIntoBest | crates/detector/src/opportunity.rs:79-99 | the first k elements after an insertion depend on the first k before it only |
| TopK.CollectorHoldsBest | crates/detector/src/opportunity.rs:81-100 | after any insertions and for every k, zero included, the collector holds the first k of the stable best-first sort of them all |
| TopK.HeldEntriesPrecede | crates/detector/src/opportunity.rs:62-65 | read without sorting: each held entry precedes, by score or else by age, everything not held before it |
| TopK.TopKCollector.Insert | crates/detector/src/opportunity.rs:81-100 | inserting keeps the held entries the best of all inserted ones |
| Risk.IsValidTransition | internal/risk/state.go:71-85 | any other state may follow, except that only Running may follow Halted |
| Risk.NextMidnight | internal/risk/manager.go:182 | the reset time is the next multiple of a day after now |
| Risk.NewTip | internal/risk/tip_strategy.go:29-54 | the bounds in force are proper and hold the start; proper bounds are kept, others fall back to 50 and 95, and the step to 5 |
| Risk.Preflight | internal/risk/manager.go:243-286 | an approval means that the state and all seven limits allow the candidate, and the reverse |
| Risk.FirstFailureDecides | internal/risk/manager.go:243-286 | the first of the eight checks that fails decides, with the amounts compared in wei |
| Risk.WeiToETH | internal/risk/manager.go:541-545 | an amount in ETH times 10^18 is the amount in wei |
| Risk.CountTrueCounts | internal/risk/manager.go:412-417 | the count of inclusions is the number of true entries |
| RiskManager.SystemStateMachine.Transition | internal/risk/state.go:47-60 | a transition succeeds exactly when it is valid, and otherwise changes nothing |
| RiskManager.AdaptiveTipStrategy.constructor | internal/risk/tip_strategy.go:29-54 | bounds out of range fall back to the defaults, and the start is clamped |
| RiskManager.AdaptiveTipStrategy.CalculateTip | internal/risk/tip_strategy.go:61-81 | one adjustment by inclusion rate, clamped |
| RiskManager.Prune | internal/risk/manager.go:302-310 | filtering a slice into its own beginning keeps exactly the entries after the cutoff, in order |
| RiskManager.RiskManager.constructor | internal/risk/manager.go:168-185 | the initial state |
| RiskManager.RiskManager.RecordRevert | internal/risk/manager.go:294-332 | both lists are pruned, the right one is extended, and the breaker is evaluated |
| RiskManager.RiskManager.RecordTrade | internal/risk/manager.go:445-462 | day rollover first, then both counters, then the loss breaker |
| RiskManager.RiskManager.Pause | internal/risk/manager.go:428-442 | pausing succeeds exactly from Running or Degraded; afterwards the state is Paused, or still Halted |
| RiskManager.RiskManager.Resume | internal/risk/manager.go:373-388 | resuming succeeds exactly from Paused or Degraded; afterwards the state is Running, or still Halted |
| RiskManager.RiskManager.ResetFromHalted | internal/risk/manager.go:352-369 | a reset succeeds exactly from Halted, clears the day and leaves the state Running |
| RiskManager.RiskManager.RecordBundleResult | internal/risk/manager.go:465-474 | a result overwrites its ring slot and moves index and count |
| RiskManager.RiskManager.CountIncluded | internal/risk/manager.go:412-417 | the loop counts the inclusions among the filled slots |
| RiskManager.RiskManager.WinRate | internal/risk/manager.go:406-419 | inclusions among the filled slots, in percent |
| RiskManager.RiskManager.BundleMissRate | internal/risk/manager.go:505-519 | misses among the filled slots, in percent |
| RiskManager.RiskManager.CalculateTipShare | internal/risk/manager.go:189-230 | the tip is adjusted only if results came since the last adjustment |
| RiskManager.RiskManager.SetMinProfitETH | internal/risk/manager.go:391-396 | only the profit threshold changes |
| RiskManager.RiskManager.PreflightCheck | internal/risk/manager.go:233-287 | the first failing check decides, in the order of the source |
| RiskRuns.LossAlwaysHalts | internal/risk/manager.go:445-462 | in every reachable state a recorded daily loss above the limit means Halted |
| RiskRuns.LossHaltsFromStart | internal/risk/manager.go:453-461 | that holds for all runs exactly when the limit is not negative |
| RiskRuns.HaltedUntilReset | internal/risk/state.go:79-81 | once halted, every continuation of a run without a reset stays halted |
| RiskRuns.StateStep | internal/risk/state.go:47-60 | what each operation of the manager makes of the system state |
| RiskRuns.ThresholdStep | internal/risk/manager.go:391-396 | only setting the profit threshold changes it |
| RiskRuns.PausedUntilResumed | internal/risk/manager.go:243-246 | after a pause, every continuation of a run without a resume or a reset refuses every candidate as not running |
| RiskRuns.ApprovalMeansLossWithinLimit | internal/risk/manager.go:243-246 | an approved preflight means that the recorded loss in wei is within the limit |
| RiskRuns.CountersStep | internal/risk/manager.go:445-462 | a trade adds its volume and profit, from zero on a new day, and halts exactly when the loss exceeds the limit; a reset from Halted starts a day; nothing else touches the counters |
| RiskRuns.CountersAreOfToday | internal/risk/manager.go:531-538 | after any run the counters are the sums over the trades since the day began |
| RiskRuns.TodayIsOneDay | internal/risk/manager.go:531-538 | if trades and resets come in the order of their times, all the trades the counters sum up fall into the one calendar day that ends at the reset time |
| Risk.KeepAfterFilters | internal/risk/manager.go:302-310 | pruning keeps every occurrence after the cutoff and no other |
| RiskRuns.RevertListsAreWindows | internal/risk/manager.go:298-323 | both pruned lists are the full histories of their reverts, cut to the window that ends at the last revert |
| RiskRuns.RevertTripsOnThreshold | internal/risk/manager.go:325-332 | recording a revert pauses, or leaves Halted, exactly when the bug reverts of the last so many minutes reach the threshold, and otherwise leaves the state alone |
| RiskRuns.CompetitiveRevertsNeverTrip | internal/risk/manager.go:289-293 | competitive reverts alone never change the state |
| RiskRuns.CompetitiveRevertTripsIff | internal/risk/manager.go:316-332 | a competitive revert changes the state exactly when earlier bug reverts still fill the window and the system is running or degraded |
| RiskRuns.CompetitiveRevertCanTrip | internal/risk/manager.go:316-332 | a concrete run in which it does |
| RiskRuns.FullRingCount | internal/risk/manager.go:469-474 | on a full ring a new result replaces the oldest one in the count |
| RiskRuns.RingIsRecentResults | internal/risk/manager.go:465-474 | after any run each ring slot holds its recent result, and the filled slots count the inclusions among the last hundred results |
| RiskRuns.PercentsComplete | internal/risk/manager.go:208-209 | percentages of complementary parts add up to 100, and the tip thresholds are ratios of counts |
| RiskRuns.RatesAreOfRecentResults | internal/risk/manager.go:405-419 | the win rate is that of the last hundred results, and with the miss rate it adds up to 100 |
| TipRuns.OpMovesTip | internal/risk/manager.go:193-229 | an operation moves the tip by at most 5 points, and only a tip request that takes notice of new results moves it |
| TipRuns.TipStaysInBounds | internal/risk/manager.go:211-216 | under a valid configuration the tip is always within its bounds, and strategy and manager agree on it |
| TipRuns.TipStartsAtNinety | internal/risk/manager.go:168-185 | a new manager starts at a tip of 90 percent, or at the bound next to it |
| TipRuns.TipIsNeverRefused | cmd/executor/main.go:298-301 | whatever operations run between the tip request and the preflight check, the tip gates never refuse the tip the manager computed |
| TipRuns.TipMovesSlowly | internal/risk/manager.go:193-198 | over any stretch of a run the tip moves at most 5 points per result taken notice of |
| TipRuns.TipFollowsRecentResults | internal/risk/tip_strategy.go:56-81 | a tip request steps up below half inclusion of the last hundred results, down above four fifths, clamped, and not at all without new results |
| VolumeRuns.VolumeStaysWithinLimit | cmd/executor/inclusion_poll.go:177 | from any state within the limit, every interleaving keeps the volume within it even if the approved trade is still to be recorded |
| VolumeRuns.VolumeNeverExceedsLimit | cmd/executor/main.go:559-561 | in every interleaving of the one consumer with poller trades, rollovers, pauses, resumes and resets the daily volume stays within the limit |
| VolumeRuns.VolumeIsSubmitted | cmd/executor/main.go:559-561 | within a day the volume grows by exactly the values of the trades that were submitted |
| MempoolGate.FreshMs | cmd/executor/mempool_risk.go:146 | whole milliseconds for a victim seen in the past; a victim seen a millisecond or more in the future counts as very old |
| MempoolGate.Refusal | cmd/executor/mempool_risk.go:125-161 | a candidate is refused unless profit, tip, freshness, deduplication and the cap all allow it |
| MempoolGate.FirstGateDecides | cmd/executor/mempool_risk.go:125-161 | the first of the five gates that fails gives the reason |
| MempoolGate.MempoolInflightTracker.Seen | cmd/executor/mempool_risk.go:190-199 | whether the victim is in the entry of the block |
| MempoolGate.MempoolInflightTracker.CountForBlock | cmd/executor/mempool_risk.go:203-210 | the number of victims of the block as an unsigned 16-bit number |
| MempoolGate.MempoolInflightTracker.Record | cmd/executor/mempool_risk.go:215-233 | the victim joins or starts the entry of the block, then the loop reaps exactly the entries older than 144 s |
| MempoolGate.MempoolRiskGate | cmd/executor/mempool_risk.go:110-166 | the first failing gate decides; only an approval records; the trace names the gates passed on the way, in order, and then the one that failed or the last one |
| MempoolRuns.CountAfterStep | cmd/executor/mempool_risk.go:156-162 | after an approval each held entry has as many victims as its generation has approvals, at most the cap |
| MempoolRuns.RunKeepsInv | cmd/executor/mempool_risk.go:152-165 | the tracker always knows the current generation of every block it holds |
| MempoolRuns.ApprovalsComeInGenerations | cmd/executor/mempool_risk.go:168-171 | approvals for a block fall into generations that start more than 144 s apart, each with at most the cap of distinct victims |
| MempoolRuns.CountNeverTruncates | cmd/executor/mempool_risk.go:203-210 | in every run of the gate the 16-bit count is the true count |
| MempoolRuns.RunIsStarted | cmd/executor/mempool_risk.go:215-225 | every generation was started by an approval at the time it is dated |
| MempoolRuns.FirstSpanIsCapped | cmd/executor/mempool_risk.go:152-165 | until 144 s after the first approval for a block there are at most the cap of approvals, of distinct victims |
| MempoolRuns.WindowIsCapped | cmd/executor/mempool_risk.go:37-40 | every span of 144 s holds fewer than twice the cap of approvals for one block |
| MempoolPeak.WindowBoundIsReached | cmd/executor/mempool_risk.go:215-233 | for every cap there is a run that reaches that bound, one below twice the cap |
| MempoolRuns.VictimAtMostTwice | cmd/executor/mempool_risk.go:152-158 | no span of 144 s holds three approvals of one victim for one block |
| ImportCycles.ChainDescends | scripts/arch-analyzer/main.go:407-434 | over imports that close no report, a chain never leads to a package finished later |
| ImportCycles.OrderedHasNoLoop | scripts/arch-analyzer/main.go:400-442 | so a closed import chain reachable from the packages, without an import that closes a report, is one package over and over |
| ImportCycles.CycleHasReportedImport | scripts/arch-analyzer/main.go:400-442 | every reachable import cycle has an import p -> t for which some report starts with t and ends with p |
| ImportCycles.SuffixIsCycle | scripts/arch-analyzer/main.go:416-427 | the part of the path from the imported package on is an import cycle reachable from the packages |
| ImportCycles.PathFrom | scripts/arch-analyzer/main.go:417-424 | the loop collects the path from the first occurrence of the target on |
| ImportCycles.Search.Close | scripts/arch-analyzer/main.go:416-428 | an import back into the path adds the path from its target on to the reports, unless it is a self-import |
| ImportCycles.Search.Dfs | scripts/arch-analyzer/main.go:407-434 | a visit finishes the package, restores the path, and keeps reports sound and the finishing order up to imports that close a report |
| ImportCycles.DetectCycles | scripts/arch-analyzer/main.go:400-442 | each report is a simple reachable import cycle of at least two packages; every such cycle has an import that closes a report, and without those imports no cycle is left; there is a report exactly when there is a cycle |
| Allocation.SharesSumToOne | internal/strategy/abtest.go:284-311 | the shares add up to exactly 1 for any scores, negative ones included |
| Allocation.ShareHasFloor | internal/strategy/abtest.go:247-251 | no share is below the even part of the exploration floor |
| Allocation.ShareFollowsScore | internal/strategy/abtest.go:306-309 | a higher score never gets a smaller share |
| Allocation.SharesAreProportional | internal/strategy/abtest.go:284-311 | beyond the even part of the floor, positive scores share in proportion to their size and others get nothing; without a positive score all shares are equal |
| Allocation.SplitVolume | internal/strategy/abtest.go:290-310 | the two loops compute these shares |
| Allocation.Sample | internal/strategy/abtest.go:236-244 | the walk over the shares returns the builder whose interval holds the number; the final fallback is unreachable |
| Allocation.OneBuilderPerNumber | internal/strategy/abtest.go:236-244 | no number belongs to two builders |
| Selector.AdmittedOnce | internal/strategy/abtest.go:98-124 | exactly the non-empty configured names are admitted, each once |
| Selector.AdmittedInOrder | internal/strategy/abtest.go:98-124 | the admitted names stand in the order in which they first appear |
| Selector.Effective | internal/strategy/abtest.go:102-107 | settings in range are kept, others fall back to their defaults |
| Selector.TallyOfOne | internal/strategy/abtest.go:131-145 | one outcome counts one attempt, its inclusion and its profit for its builder only |
| Selector.TallyAdds | internal/strategy/abtest.go:131-145 | the totals of a history are the sums of the totals of its parts |
| Selector.ScoreComparesProfit | internal/strategy/abtest.go:147-160 | one score is below another exactly when its profit per attempt is, the prior counted as attempts of both |
| Selector.Selector.constructor | internal/strategy/abtest.go:101-126 | the admitted builders in order, with empty totals and an effective configuration |
| Selector.Selector.Record | internal/strategy/abtest.go:131-145 | the totals stay those of the whole history of outcomes; unknown builders change nothing |
| Selector.RankingIsComplete | internal/strategy/abtest.go:190-210 | the ranking lists every builder once, ordered by score, then win rate, then configured order |
| Selector.RankingComparesProfit | internal/strategy/abtest.go:190-210 | nowhere in the ranking does a builder follow one with less profit per attempt, compared without division |
| Selector.RankingBreaksTies | internal/strategy/abtest.go:190-210 | among builders with the same profit per attempt, more inclusions per attempt come first, and then the configured order |
| Selector.BestGetsMost | internal/strategy/abtest.go:212-220 | the first-ranked builder has the highest score and no smaller share than any other |
| Selector.Selector.Rank | internal/strategy/abtest.go:184-188 | the names of the ranking, which are all the configured builders once |
| Selector.Selector.Best | internal/strategy/abtest.go:214-220 | the first of the ranking, or the empty name without builders |
| Selector.Selector.Allocation | internal/strategy/abtest.go:252-256 | each builder's share under its name |
| Selector.Selector.Pick | internal/strategy/abtest.go:226-245 | the builder whose interval of the shares holds the random number; the best one without a generator |
| Ledger.StepKeepsInv | internal/db/ledger_pg.go:165-207 | every step of every participant keeps calls and ops accounted, counters exact and shutdown ordered |
| Ledger.ProtocolIsSafe | internal/db/ledger_pg.go:157-207 | in every interleaving each accepted op is in exactly one place, ops leave the channel in order, the gauge is never below the channel length, at most eight writes run, and at most one op is lost, after cancellation |
| Ledger.CountedCallsStayKnown | internal/db/ledger_pg.go:165-178 | no enqueue call disappears: each one that began is about to send, refused, dropped or accepted |
| Ledger.DropsOnlyWhenFull | internal/db/ledger_pg.go:165-176 | before the close a call is sent exactly while the channel holds fewer than 1024 ops, and else refused |
| Ledger.WaitsOnlyForEightWriters | internal/db/ledger_pg.go:193-199 | the dispatcher goes on exactly while fewer than eight writers hold a slot |
| Ledger.CleanDrainLosesNothing | internal/db/ledger_pg.go:115-129 | a shutdown that drained in time means that the writes of exactly the accepted ops have returned |
| Ledger.DrainEnds | internal/db/ledger_pg.go:186-207 | after the close the drain takes no more steps than there is work, however the steps interleave |
| Ledger.DrainIsNeverStuck | internal/db/ledger_pg.go:193-206 | until the dispatcher has exited, the dispatcher or a writer can take a step |
| Ledger.LateCallMustCrash | internal/db/ledger_pg.go:165-170 | after the close, an enqueue call that has raised the gauge can only send on the closed channel |
| Ledger.QuietRunIsSafe | internal/db/ledger_pg.go:120-121 | with no call about to send and none to come, no run crashes, before or after the close |
| Ledger.CanCrashIff | internal/db/ledger_pg.go:120-170 | a run without new calls can crash exactly when some call is about to send |
| RateLimiter.TokensStayInBucket | cmd/executor/admin_rate_limit.go:49-60 | in every run the tokens stay between zero and the burst |
| RateLimiter.AllowedArePaid | cmd/executor/admin_rate_limit.go:49-60 | calls let through are paid for by the tokens at the start and the rate times the elapsed time |
| RateLimiter.WindowIsBounded | cmd/executor/admin_rate_limit.go:15-16 | between any two calls of a run at most burst plus rate times the elapsed time calls are let through |
| RateLimiter.PatientCallIsAllowed | cmd/executor/admin_rate_limit.go:49-60 | a call at least 1/rate seconds after the previous one is never refused |
| RateLimiter.AllowedIffRoom | cmd/executor/admin_rate_limit.go:47-60 | from a full bucket a call is let through exactly when no window ending with it would exceed burst plus rate times its length |
| RateLimiter.AdminRateLimiter.AllowAt | cmd/executor/admin_rate_limit.go:47-60 | one call refills, caps and takes a token in place |
| RateLimiter.NewAdminRateLimiter | cmd/executor/admin_rate_limit.go:25-41 | no limiter for a rate that is not positive; otherwise a full bucket of at least one token |
| RateLimiter.Allow | cmd/executor/admin_rate_limit.go:43-46 | a missing limiter lets every call through |

## Left out

- Rounding, infinities and NaN of floating-point numbers: weights, scores, percentages and ETH amounts are exact reals; `profit_factor` and the logarithms behind edge weights are not modelled.
- The width of the relaxation counters and of `n as u32` in the detector: counts are unbounded; they would wrap only after 2^32 relaxations of one vertex.
- Scans.ScanIsCompleteOrLimited: does not say that an existing loop is reported, because that is false of the code; the condition under which it is true is in `SecludedLoopIsReportedIff`.
- Scans.FullScanIsCompleteOrLimited: the same.
- Scans.AffectedScanIsCompleteOrLimited: the same.
- Detection.SecludedLoopIsReportedIff: loops with a second way in are found or missed depending on the order in which the queue takes the vertices; for them there is only `LimitReportsIff`, one relaxation at a time.
- Repeated reports of one cycle by the detector are possible and nothing is claimed about them.
- Optimizer.TernarySearch: nothing is claimed about the amount for a lower bound above the upper bound; 256-bit sums and differences are taken to wrap around.
- The construction of `PriceGraph` from pools and reserves: the graph is an arbitrary input whose edges stay within its vertices.
- `RankedOpportunity::new`, `num_hops`, `is_profitable`, and the accessors of the collector: one expression each.
- Risk manager logging, metrics observers, total counters, the competitive-rate and miss-rate alerts: they do not influence decisions.
- `ForceState` and entering Degraded: no operation of the modelled interface does either.
- The two clock readings inside one risk-manager call are one instant.
- MempoolGate.MempoolRiskGate: the value strings of the trace and the rejection metric are not modelled.
- Calls of the mempool gate that overlap: the executor runs it from one consumer, and runs are sequential.
- VolumeRuns.VolumeNeverExceedsLimit: holds for one consumer; two consumers could both be approved before either records.
- The queries, latencies and results of ledger writes, and the time limits of `Close`: a write returns at any time, and giving up is possible at any time.
- Snapshot and Scores of the selector: read-outs of what is modelled.
- Nonce management, inclusion polling, the discovery cache, the Rust ledger, signing, networking, configuration files, dashboards and contracts.
