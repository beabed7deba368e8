# Models and proofs of QuantBench's core

QuantBench turns a research request into factor backtests, combines the factors into portfolios and keeps the
results as runs. This project models the parts of it whose answers must agree with a simpler definition, and
proves that they do, with Dafny 4.11. `dafny verify dfyconfig.toml` checks everything.

- **Portfolio weights** (`RealAlgebra`, `Sums`, `QuadraticForms`, `LedoitWolf`, `HierarchicalRiskParity`,
  `ShrinkageEstimates`, `Dendrogram`, `WeightCap`, `Portfolio`, `RebalancingDrift`): one chain from a returns matrix
  to capped weights.
  The shrunk covariance is positive semidefinite, so every bisection share lies in [0, 1], so the weights are a
  probability vector, and the water-filling cap keeps it one; drift turnover is what is bought and what is sold.
- **Newey-West variance** (`NeweyWest`): the Bartlett-weighted sum is a mean of squared window sums.
- **Point-in-time universes** (`Intervals`, `IndexHistory`, `IndexIntervals`, `SnapshotHistory`): interval indexes
  built in one forward pass against day-by-day membership, from an event log and from sparse snapshots.
- **Run control** (`RunManager`, `RunSteps`, `RunInvariant`, `RunControl`, `RunProgress`, `AgentLoop`): the manager's
  critical sections as a class; their interleavings with workers, HTTP cancels and status files as a state machine,
  with what it keeps and how soon it answers; the tool-use loop as a class that carries the conversation, the events
  and the log.
- **Balanced-object scanner** (`JsonScanner`): recovery of a printed JSON object from surrounding prose.
- **Backtest accounting and splits** (`PurgedSplits`, `Funding`, `LiquidityCosts`, `LongShort`).
- **Trees** (`Forests`, `Lineage`, `SettingsTree`, `SettingsFiles`).

Code that changes things step by step is a method with loop invariants, or a class, proved against a
specification function or predicate; what the code is for is then proved about that specification. Floats are
exact reals and timestamps are integers. Products and quotients that occur inside quantified entries go through
the named functions `Times` and `Ratio`, which keeps large proofs linear.

Five claims that one might expect of the code are false of it, and are stated with their exact condition:

- Undoing the index log is only right for every order of same-day rows when no ticker's first date after the day
  holds opposite changes (`ReconstructionIsExactIffTieSafe`, with a two-row counterexample).
- Snapshot intervals bridge a calendar day that the log does not mention at all, as opposed to one it records as
  missing (`UnmentionedDayIsBridged`); coverage means listing exactly when no symbol straddles such a day
  (`CoverageIsListingIffNoBridgedGap`). The caller that builds a universe (`quantbench/data/universe.py:206-207`)
  names every calendar day, so such a log lies outside what it passes.
- The mask keeps exactly the snapshotted rows of every panel if and only if no symbol straddles a day the log does
  not mention and some snapshot lists something (`MaskIsExactIff`). Where nothing is listed the interval map is empty
  and every row passes (`EmptySnapshotMasksNothing`). A stored day without rows counts as having no snapshot
  (`quantbench/data/warehouse.py:226`) and a log of only such days is refused or seeded
  (`quantbench/data/universe.py:211-221`), so only a seed with an empty symbol list
  (`quantbench/data/universe.py:260`) leads there.
- Deep merging is associative exactly when nothing of the first tree is hidden by a middle value of another kind
  (`MergeIsAssociativeIff`; `NullListHidesEarlierNames` merges three settings files).
- The agent loop reads `args` before any call has bound it, and ends exceptionally, exactly when the first call of
  the first reply does not decode and no cancel comes before it (`AgentRun.Run`, with the input of
  `LoneBraceFails`); a later undecodable call is logged with the previous call's arguments (`LogExtends`).

## Model

| member | source | states |
|---|---|---|
| `LedoitWolf.SampleIsSumOfSquares` | quantbench/portfolio/optimize.py:53-54 | for every weight vector x, x' sample x is the mean over periods of the squared exposure x has to the centred returns |
| `LedoitWolf.CenteredIsCentering` | quantbench/portfolio/optimize.py:53 | each centred column totals zero and moves from period to period as the returns do |
| `ShrinkageEstimates.SampleIsPairwiseVariance` | quantbench/portfolio/optimize.py:53-54 | over the returns alone: the sample variance of any combination of factors is half the mean squared difference of its returns over all pairs of periods |
| `LedoitWolf.SampleIsPositiveSemidefinite` | quantbench/portfolio/optimize.py:53-55 | the sample covariance of any returns is positive semidefinite with non-negative variances |
| `LedoitWolf.CorrelationAtMostOne` | quantbench/portfolio/optimize.py:56-59 | no correlation exceeds one, also where a zero variance was floored |
| `LedoitWolf.CorrelationSumBounds` | quantbench/portfolio/optimize.py:58-60 | the correlation matrix, its diagonal set to one, sums to between 0 and N squared |
| `LedoitWolf.AverageCorrelationBounds` | quantbench/portfolio/optimize.py:60-61 | the average correlation lies in [-1/(N-1), 1] |
| `LedoitWolf.TargetForm` | quantbench/portfolio/optimize.py:63-64 | the target's quadratic form is (1 - avg) times a sum of squares plus avg times a squared sum |
| `ShrinkageEstimates.CorrelationRestoresCovariance` | quantbench/portfolio/optimize.py:57-58 | a correlation times the two deviations gives back the sample covariance |
| `ShrinkageEstimates.TargetKeepsTotalCorrelation` | quantbench/portfolio/optimize.py:60-64 | all pairs are equally correlated in the target, and in total as much as in the sample |
| `ShrinkageEstimates.ShrinkingKeepsVariances` | quantbench/portfolio/optimize.py:63-64 | shrinking by any intensity changes no positive variance and lifts the others towards the floor |
| `ShrinkageEstimates.PiIsVarianceOfProducts` | quantbench/portfolio/optimize.py:75-76 | a pi entry is the mean square of the products of two centred columns less the square of their mean |
| `ShrinkageEstimates.ThetaIsCovarianceOfProducts` | quantbench/portfolio/optimize.py:84-85 | a theta is the mean product of squares and products less the product of their means |
| `ShrinkageEstimates.RhoTermIsTargetDifferential` | quantbench/portfolio/optimize.py:86 | the rho term is the first-order change of the target entry avg s_i s_j under changes of the variances: it misses the true change by avg u v only |
| `ShrinkageEstimates.RhoIsCovarianceWithTarget` | quantbench/portfolio/optimize.py:79-86 | off the diagonal, rho is the mean over periods of the shift of the target entry times the shift of the sample entry |
| `LedoitWolf.ShrunkDistance` | quantbench/portfolio/optimize.py:88-95 | shrinking by d moves the sample by d squared times gamma in squared distance |
| `LedoitWolf.IntensityMinimizesLoss` | quantbench/portfolio/optimize.py:88-93 | the clipped quotient minimizes the squared move over T periods less twice d (pi - rho), with strict convexity; without a gap to the target it is zero |
| `LedoitWolf.TargetIsPositiveSemidefinite` | quantbench/portfolio/optimize.py:63-64 | for any average correlation in [-1/(N-1), 1] the constant-correlation target is positive semidefinite |
| `LedoitWolf.EstimatePi` | quantbench/portfolio/optimize.py:72-77 | filling pi_mat entry by entry yields the double sum of the estimated variances, and their trace |
| `LedoitWolf.EstimateRho` | quantbench/portfolio/optimize.py:79-86 | the pair loop adds to the trace exactly the off-diagonal covariances with the target |
| `LedoitWolf.EstimateIntensity` | quantbench/portfolio/optimize.py:66-93 | the intensity is the closed formula over the double sums, lies in [0, 1], and beats every other intensity in [0, 1] by at least T gamma times the squared difference (none where target and sample all but coincide) |
| `LedoitWolf.ShrunkIsPositiveSemidefinite` | quantbench/portfolio/optimize.py:53-96 | for every returns matrix with T >= 2, N >= 2 and every intensity in [0, 1] the shrunk covariance is positive semidefinite |
| `LedoitWolf.SinglePeriodHasNoVariance` | quantbench/portfolio/optimize.py:47-51 | with one period every sample variance is zero, so the early exit floors them all |
| `LedoitWolf.LedoitWolfCovariance` | quantbench/portfolio/optimize.py:29-96 | the estimator with both early exits: the columns are centred, the entries those of the shrunk covariance, always positive semidefinite, and the intensity is the one of least estimated loss |
| `HierarchicalRiskParity.ClusterVarianceIsNonnegative` | quantbench/portfolio/optimize.py:283-289 | on a positive semidefinite covariance every cluster variance is at least zero |
| `HierarchicalRiskParity.ClusterPortfolioIsBalanced` | quantbench/portfolio/optimize.py:284-288 | inside a non-empty cluster the portfolio adds up to one with weight times (floored) variance the same for every member, and no other portfolio does |
| `HierarchicalRiskParity.ClusterVarianceOfBalanced` | quantbench/portfolio/optimize.py:283-289 | the cluster variance is that of the balanced portfolio, however it is come by |
| `HierarchicalRiskParity.LeftShareBalances` | quantbench/portfolio/optimize.py:302-305 | the split alpha lies in [0, 1] and equalizes share times variance between the halves, also when both variances vanish |
| `HierarchicalRiskParity.VarianceSplitsRisk` | quantbench/portfolio/optimize.py:300-305 | each split makes share times variance of the balanced portfolio equal in both halves, and is even when the variances are equal, zero included |
| `HierarchicalRiskParity.HalvesHoldShares` | quantbench/portfolio/optimize.py:299-309 | the first half of a cluster ends up holding its share of the budget and the second half the rest |
| `HierarchicalRiskParity.BisectionConservesBudget` | quantbench/portfolio/optimize.py:297-311 | whatever the splits, the members of a cluster end up holding exactly the cluster's budget |
| `HierarchicalRiskParity.BisectionStaysWithinBudget` | quantbench/portfolio/optimize.py:297-311 | with proper splits no member is short and none exceeds the cluster's budget |
| `HierarchicalRiskParity.Bisect` | quantbench/portfolio/optimize.py:297-311 | the in-place recursion writes the recursive budget split to the cluster's positions and leaves all others alone |
| `HierarchicalRiskParity.RecursiveBisection` | quantbench/portfolio/optimize.py:292-317 | every factor receives the budget its place in the dendrogram order is split, each split by a share that balances the risk of the two halves |
| `HierarchicalRiskParity.PermutedSum` | quantbench/portfolio/optimize.py:314-316 | summing in the dendrogram order or in the original order is the same |
| `HierarchicalRiskParity.BisectionIsProbabilityVector` | quantbench/portfolio/optimize.py:292-317 | over any permutation and any positive semidefinite covariance the weights are non-negative and sum to exactly one |
| `Dendrogram.ExpandClusters` | quantbench/portfolio/optimize.py:272-279 | one simultaneous pass keeps the leaves below the list in order and lowers its largest id |
| `Dendrogram.QuasiDiagonalOrder` | quantbench/portfolio/optimize.py:265-280 | the expansion loop terminates with the recursive left-then-right leaf listing of the root |
| `Dendrogram.SharedLeafNests` | quantbench/portfolio/optimize.py:265-280 | two clusters of a well-formed linkage that share a leaf are nested |
| `Dendrogram.LeavesAreDistinct` | quantbench/portfolio/optimize.py:265-280 | no leaf occurs twice below a cluster |
| `Dendrogram.HasParent` | quantbench/portfolio/optimize.py:265-280 | every cluster but the root is merged into a later one, by counting the slots of the linkage |
| `Dendrogram.ClusterIsContiguous` | quantbench/portfolio/optimize.py:265-280 | the leaves of every cluster stand together in the final order, in the cluster's own order |
| `Dendrogram.LeftPrecedesRight` | quantbench/portfolio/optimize.py:265-280 | in the final order the leaves of a cluster's left part come right before those of its right part |
| `Dendrogram.OrderIsPermutation` | quantbench/portfolio/optimize.py:265-280 | the order names each of the n leaves exactly once |
| `WeightCap.NormalizeIsProbabilityVector` | quantbench/portfolio/optimize.py:328-331 | normalizing any vector, negative or zero ones included, gives a probability vector |
| `WeightCap.NormalizeKeepsProportions` | quantbench/portfolio/optimize.py:328-331 | normalizing shares out one unit in proportion to the positive parts, equally when nothing is positive |
| `WeightCap.NormalizeFixesProbabilityVectors` | quantbench/portfolio/optimize.py:328-331 | normalizing a probability vector changes nothing |
| `WeightCap.CappingFreesBudget` | quantbench/portfolio/optimize.py:346-353 | pinning entries above a cap of at least 1/n leaves more budget than the free entries hold, and leaves some entry free |
| `WeightCap.RaiseLevel` | quantbench/portfolio/optimize.py:355-356 | scaling up the free entries keeps every weight at min(cap, level times original) with a higher level |
| `WeightCap.SpreadFree` | quantbench/portfolio/optimize.py:357-358 | when every positive weight is pinned, the zero weights share the rest equally, below the cap |
| `WeightCap.CapPass` | quantbench/portfolio/optimize.py:345-358 | one pass caps at least one more entry, never all of them, and keeps a probability vector at a common level |
| `WeightCap.ApplyMaxWeightCap` | quantbench/portfolio/optimize.py:334-359 | for any input and any cap of at least 1/n: a probability vector within the cap plus tolerance that is the water-filling of the normalized input |
| `Portfolio.HrpWeights` | quantbench/portfolio/optimize.py:241-262 | hierarchical risk parity from a positive semidefinite covariance and a well-formed linkage: a probability vector following the bisection of the dendrogram order, each split balancing the risk of its halves |
| `Portfolio.InverseVarianceIsBalanced` | quantbench/portfolio/optimize.py:124-129 | inverse-variance weights are a probability vector in which weight times (floored) variance is the same everywhere |
| `Portfolio.Allocate` | quantbench/portfolio/optimize.py:121-138 | each method hands the cap a probability vector with the property the method is named for |
| `Portfolio.EffectiveCapIsFeasible` | quantbench/portfolio/optimize.py:169-171 | the relaxed cap is the least one not below the cap asked for under which n weights can add up to one |
| `Portfolio.CapAllocation` | quantbench/portfolio/optimize.py:145-151 | the cap turns any allocation into its water-filling at the relaxed cap |
| `Portfolio.Optimize` | quantbench/portfolio/optimize.py:99-153 | the whole pipeline from centred returns over the shrunk covariance to capped weights, each method with its own property, single-factor and empty inputs included |
| `NeweyWest.TriangularIsBandEnergy` | quantbench/engine/metrics.py:94-98 | the triangularly weighted lag sums of any symmetric table equal the sum of its diagonal blocks of width L + 1 |
| `NeweyWest.SlicesGiveLagSum` | quantbench/engine/metrics.py:96 | the dot product of the two slices is the lag sum of the zero-padded series |
| `NeweyWest.ZeroEnergyMeansZero` | quantbench/engine/metrics.py:94-99 | the squared window sums vanish together exactly when the series is zero |
| `NeweyWest.BartlettIsSumOfSquares` | quantbench/engine/metrics.py:93-99 | for every series and lag count the variance is the sum of squared (L+1)-window sums over n(L+1), so never negative, and zero only for the zero series |
| `NeweyWest.DemeanedVanishesOnConstants` | quantbench/engine/metrics.py:92 | the centred series vanishes exactly when the series is constant |
| `NeweyWest.MeanAndDeviations` | quantbench/engine/metrics.py:86-92 | the mean times the number of values is their total, and the centred series totals zero with all differences kept |
| `NeweyWest.ClampedIsNearest` | quantbench/engine/metrics.py:88-90 | the lag count used is the usable one nearest to the one asked for |
| `NeweyWest.AccumulateVariance` | quantbench/engine/metrics.py:93-98 | the accumulation loop computes the Bartlett-weighted variance |
| `NeweyWest.IcNeweyWest` | quantbench/engine/metrics.py:79-114 | too short a series is reported as such; otherwise the clamp changes nothing and the degenerate answers are given exactly for constant series, by the sign of the constant |
| `IndexHistory.ReconstructMembership` | quantbench/data/providers/sp500_history.py:73-92 | the loop undoes the later changes one by one, latest first |
| `IndexHistory.UndoStatus` | quantbench/data/providers/sp500_history.py:87-91 | after undoing, a ticker is in the state its last undone change dictates |
| `IndexHistory.ReplayStatus` | quantbench/data/providers/sp500_history.py:73-92 | before a consistent stretch of log a ticker is in the state its first change presupposes |
| `IndexHistory.ReconstructionIsExact` | quantbench/data/providers/sp500_history.py:73-92 | on a sorted, consistent log with safe ties, undoing from today's set gives the membership of the day, in whatever order one date's rows are undone |
| `IndexHistory.UnsafeTieMisleads` | quantbench/data/providers/sp500_history.py:87 | if a ticker's first date after the day holds opposite changes, some order of that date's rows reconstructs the day wrongly |
| `IndexHistory.ReconstructionIsExactIffTieSafe` | quantbench/data/providers/sp500_history.py:73-92 | reconstruction is exact for every tie order if and only if no ticker's first date after the day holds opposite changes |
| `IndexHistory.OneMovePerDateIsTieSafe` | quantbench/data/providers/sp500_history.py:73-92 | a ticker moved at most once per date makes every day safe |
| `IndexHistory.SameDayRoundTripMisleads` | quantbench/data/providers/sp500_history.py:87-91 | a ticker added and removed on one date reappears before that date when the addition is undone first |
| `IndexIntervals.TrackIsChronological` | quantbench/data/providers/sp500_history.py:131-138 | spells follow one another in time, and one is open exactly while replaying makes the ticker a member |
| `IndexIntervals.TrackMeetsReplay` | quantbench/data/providers/sp500_history.py:124-138 | from the first day on, spells cover a day exactly when replaying the log makes the ticker a member on it |
| `IndexIntervals.ClosedReading` | quantbench/data/providers/sp500_history.py:131-138 | counting last days too adds exactly the days on which the ticker was removed |
| `IndexIntervals.Pass` | quantbench/data/providers/sp500_history.py:131-138 | the forward pass over the two dictionaries gives every ticker its own track |
| `IndexIntervals.CloseAll` | quantbench/data/providers/sp500_history.py:140-143 | open spells are closed at the window's end, and nothing else changes |
| `IndexIntervals.MembershipIntervals` | quantbench/data/providers/sp500_history.py:105-144 | an interval map that means membership over the window, or an error exactly when the window is reversed |
| `IndexIntervals.WindowReplay` | quantbench/data/providers/sp500_history.py:124-130 | replaying the window from its first day is replaying the whole log |
| `IndexIntervals.RemovalsRemoveMembers` | quantbench/data/providers/sp500_history.py:131-136 | on a consistent log each removal row removes a member |
| `IndexIntervals.IntervalsAgreeWithReconstruction` | quantbench/data/providers/sp500_history.py:105-144 | half-open, the intervals hold a day exactly when reconstructing that day leaves the ticker in; closed, as the mask reads them, they differ only on its removal dates |
| `Intervals.ActiveRows` | quantbench/engine/cross_sectional_backtest.py:305-309 | or-ing the interval comparisons marks exactly the rows some closed interval covers |
| `Intervals.ApplyMembershipMask` | quantbench/engine/cross_sectional_backtest.py:289-311 | keeps exactly the rows covered by an interval of their own symbol, in order; an absent or empty map keeps everything |
| `Intervals.FilterConcat` | quantbench/engine/cross_sectional_backtest.py:302-311 | masking goes through a panel part by part, in order |
| `SnapshotHistory.SortedDays` | quantbench/data/providers/crypto_universe_history.py:23 | the logged days in ascending order |
| `SnapshotHistory.StepDay` | quantbench/data/providers/crypto_universe_history.py:34-51 | one day's update of the three dictionaries moves every symbol's own track one step |
| `SnapshotHistory.CloseSpells` | quantbench/data/providers/crypto_universe_history.py:28-31 | closing spells ends each at the day its symbol was last seen |
| `SnapshotHistory.FollowIsSound` | quantbench/data/providers/crypto_universe_history.py:34-51 | a symbol's finished spells are maximal runs of listed days, disjoint and in order, at every point of the pass |
| `SnapshotHistory.SpellsAreSpans` | quantbench/data/providers/crypto_universe_history.py:34-53 | spells hold exactly the listed days and the calendar days between two consecutive logged days that both list the symbol |
| `SnapshotHistory.ReconstructIntervals` | quantbench/data/providers/crypto_universe_history.py:6-54 | the interval map's entries are non-empty, maximal, disjoint, ordered, and cover exactly the spanned days |
| `SnapshotHistory.LoggedDaySpan` | quantbench/data/providers/crypto_universe_history.py:36-41 | a logged day is covered exactly when its snapshot lists the symbol; a day logged without snapshot never is |
| `SnapshotHistory.CoverageIsListingIffNoBridgedGap` | quantbench/data/providers/crypto_universe_history.py:6-54 | covered means snapshotted and listed, for all days and symbols, if and only if no symbol is listed on both sides of a calendar day the log does not mention |
| `SnapshotHistory.UnmentionedDayIsBridged` | quantbench/data/providers/crypto_universe_history.py:34-51 | a log that lists A on days 0 and 2 and does not mention day 1 yields an interval of A that covers day 1 |
| `SnapshotHistory.CoveredRowsAreListed` | quantbench/engine/cross_sectional_backtest.py:305-311 | with every calendar day logged, the rows of a panel that some interval covers are exactly its snapshotted rows |
| `SnapshotHistory.MaskKeepsSnapshotsIff` | quantbench/engine/cross_sectional_backtest.py:289-311 | with every calendar day logged, what the mask returns is exactly the snapshotted rows if and only if the panel is empty or some snapshot lists something |
| `SnapshotHistory.MaskIsExactIff` | quantbench/engine/cross_sectional_backtest.py:289-311 | for any log, the mask returns exactly the snapshotted rows of every panel if and only if no symbol straddles an unlogged day and some snapshot lists something |
| `SnapshotHistory.EmptySnapshotMasksNothing` | quantbench/engine/cross_sectional_backtest.py:293-294 | a log whose only snapshot lists nothing switches the mask off: a row it never listed stays in |
| `SnapshotHistory.EmptyMapMeansNothingListed` | quantbench/data/providers/crypto_universe_history.py:54 | the map is empty, which switches the mask off, exactly when no snapshot lists anything |
| `JsonScanner.BalanceFrom` | quantbench/agent/subagent.py:110-130 | from one brace: the first slice whose depth stays positive until it returns to zero, or a proof that there is none |
| `JsonScanner.FirstBalancedObject` | quantbench/agent/subagent.py:108-132 | the slice from the earliest brace from which anything balances, or nothing when nothing does |
| `JsonScanner.TextIsNeutral` | quantbench/agent/subagent.py:116-124 | a printed string leaves the scanner as it was, whatever braces, quotes and backslashes it holds |
| `JsonScanner.PrintIsNeutral` | quantbench/agent/subagent.py:114-130 | every printed JSON text (RFC 8259, sections 2 to 7) restores the depth and never goes below it |
| `JsonScanner.ItemsAreJoined` | quantbench/agent/subagent.py:114-130 | a printed array's elements are separated by single commas, none before the first and none after the last |
| `JsonScanner.MembersAreJoined` | quantbench/agent/subagent.py:114-130 | so are a printed object's members |
| `JsonScanner.ObjectBalances` | quantbench/agent/subagent.py:114-130 | a printed object balances at its last character and not before, in any surroundings |
| `JsonScanner.FirstBalancedIs` | quantbench/agent/subagent.py:109-131 | the scanner's answer is determined by the first start that balances |
| `JsonScanner.ObjectIsRecovered` | quantbench/agent/subagent.py:108-132 | for every JSON object, every prefix without an opening brace and every suffix, the scanner returns exactly the printed object |
| `RunManager.Manager.constructor` | quantbench/api/run_manager.py:42-45 | a new manager tracks no run and holds no waiter |
| `RunManager.Manager.Cancel` | quantbench/api/run_manager.py:183-195 | sets the flag of a tracked run and the event of its waiter, waiter by waiter; false and no change otherwise |
| `RunManager.Manager.CancelAll` | quantbench/api/run_manager.py:197-202 | sets the flag of every tracked run and touches nothing else, waiters included |
| `RunManager.Manager.ConfirmStaging` | quantbench/api/run_manager.py:204-211 | accepted exactly when a waiter is registered: then its overrides are the given ones and its event is set, and no other waiter changes |
| `RunManager.Manager.RegisterWaiter` | quantbench/api/run_manager.py:221-224 | a fresh waiter becomes the run's registered one |
| `RunManager.Manager.RemoveWaiter` | quantbench/api/run_manager.py:233-235 | the run's waiter is deregistered, if there is one |
| `RunManager.Manager.RegisterRun` | quantbench/api/run_manager.py:67 | a run is tracked with its flag unset |
| `RunManager.Manager.ForgetRun` | quantbench/api/run_manager.py:60 | a run is no longer tracked; its flag survives |
| `RunInvariant.StepKeepsInv` | quantbench/api/run_manager.py:47-60 | every atomic step of workers, confirmations, cancels and cancel requests keeps the invariant |
| `RunInvariant.RunKeepsInv` | quantbench/api/run_manager.py:183-235 | the invariant holds after every interleaving of any number of runs and requests |
| `RunControl.StagingReturnsOnlyAcceptedOverrides` | quantbench/api/run_manager.py:213-235 | whenever a staging wait has returned normally, those overrides had been accepted on that waiter and its last check had found the flag unset |
| `RunControl.CancelWinsBeforeCheck` | quantbench/api/run_manager.py:226-232 | once the flag is set before a waiter passes its check, no later confirmation makes it return |
| `RunControl.WaiterIsAlwaysDeregistered` | quantbench/api/run_manager.py:221-235 | a run has a registered waiter exactly while its worker is inside the wait, however it leaves |
| `RunControl.StatusOfFiles` | quantbench/api/run_reader.py:73-85 | the status is that of the first status file in the order looked for: terminal exactly when a terminal file exists, completed exactly when the manifest does, running exactly when there is none |
| `RunControl.ExitedRunsAreTerminal` | quantbench/api/run_manager.py:47-60 | once a run's worker has exited, by return, cancellation or error, its status on disk is terminal |
| `RunControl.TerminalStatusIsClosed` | quantbench/api/run_reader.py:77-85 | over every interleaving a terminal status stays terminal and completed stays completed |
| `RunControl.TrackedRunIsNeverOrphaned` | quantbench/api/server.py:367-384 | a cancel request never marks as orphaned a run that was tracked when the request began |
| `RunControl.AnswersAreTrue` | quantbench/api/server.py:367-384 | over every interleaving, a terminal status answered to a cancel request is on disk from then on, and the answer running means that the flag is set |
| `RunControl.RecordedOutcomeIsStatus` | quantbench/api/run_manager.py:47-60 | what the worker records shows in the status: completed after a normal end, cancelled or failed otherwise unless something stronger is on disk |
| `RunControl.PendingIsShown` | quantbench/agent/staging.py:251-258 | a run without an outcome is awaiting confirmation from when its worker writes the request until it clears it |
| `RunControl.RunsAreCancelledOnRequest` | quantbench/api/run_manager.py:47-60 | over every interleaving only a run whose flag is set ends as cancelled |
| `RunProgress.ConfirmationIsHeard` | quantbench/api/run_manager.py:204-211 | from every reachable state, a confirmation of an uncancelled run whose worker has not yet read its overrides is accepted and leaves the waiter woken with those overrides |
| `RunProgress.HeardWorkerCanStep` | quantbench/api/run_manager.py:225-232 | the worker of an answered wait always has a step to take |
| `RunProgress.HeardConfirmationReturns` | quantbench/api/run_manager.py:204-235 | whatever else is interleaved, an answered wait of an uncancelled run returns with the overrides of the last confirmation within five steps of its worker |
| `RunProgress.ConfirmationIsReturned` | quantbench/api/run_manager.py:204-235 | confirming a waiting, uncancelled run, then waiting, checking, reading and leaving is possible and logs acceptance, check and return with those overrides |
| `RunProgress.CancelledWaitEnds` | quantbench/api/run_manager.py:225-235 | whatever else is interleaved, a cancelled wait is over within three steps of its worker |
| `RunProgress.RequestCanProceed` | quantbench/api/server.py:367-384 | a cancel request without an answer can always go on, and is then nearer to it |
| `RunProgress.RequestIsAnswered` | quantbench/api/server.py:367-384 | whatever else is interleaved, a cancel request has its answer after at most thirteen turns |
| `AgentLoop.AnsweredConcat` | quantbench/agent/loop.py:52-78 | conversations in which every tool call is answered can be appended to one another |
| `AgentLoop.AnsweredRound` | quantbench/agent/loop.py:52-78 | an assistant message with its tool messages, in order and with its ids, keeps a conversation answered |
| `AgentLoop.AtMostOneActionAfterCancel` | quantbench/agent/loop.py:44-74 | after the cancel flag is set at most one further chat or tool starts |
| `AgentLoop.LoneBraceFails` | quantbench/agent/loop.py:65-76 | a first reply whose only call has a lone opening brace for arguments, never cancelled, meets the condition under which the run ends on unbound args |
| `AgentLoop.LogExtends` | quantbench/agent/loop.py:66-76 | the log stays faithful: an entry records its call's decoded arguments, or those of the entry before when they do not decode, and the result of its own tick |
| `AgentLoop.AnsweredOneMore` | quantbench/agent/loop.py:60-78 | one more call, with its own entry and its own message, keeps calls, log and tool messages in step |
| `AgentLoop.TranscriptExtends` | quantbench/agent/loop.py:52-78 | over whole runs: the messages added are the replies heard, each call they ask for is logged once in order, and the tool messages are the logged results under the logged ids |
| `AgentLoop.AgentRun.ProcessCall` | quantbench/agent/loop.py:60-78 | one call: cancelled, args unbound, or answered with exactly its message, log entry and events |
| `AgentLoop.AgentRun.ProcessCalls` | quantbench/agent/loop.py:60-78 | on a normal end each call has one log entry and one tool message carrying the entry's result, in the order of the calls, and the events are those of the logged calls; otherwise it stopped on a set flag, or on args unbound exactly when the first call of the run does not decode |
| `AgentLoop.AgentRun.RunTool` | quantbench/agent/loop.py:72-75 | whatever a tool raises, a cancellation included, becomes its result |
| `AgentLoop.AgentRun.Ask` | quantbench/agent/loop.py:49 | a chat sees the conversation as it stands, with every earlier call answered |
| `AgentLoop.AgentRun.Conclude` | quantbench/agent/loop.py:55-58 | a reply without calls ends the run with one final event that carries that reply |
| `AgentLoop.AgentRun.ActOn` | quantbench/agent/loop.py:52-78 | the reply, then its answers in order, extend conversation and log |
| `AgentLoop.AgentRun.Round` | quantbench/agent/loop.py:44-78 | one iteration: at most one chat, a normal end exactly on a reply without calls, a raised chat exactly on an unset flag without reply, unbound args exactly on an undecodable first call while none has decoded |
| `AgentLoop.AgentRun.Run` | quantbench/agent/loop.py:27-84 | the whole loop, every outcome told apart: cancelled exactly when the last event is the cancelled one, at a look that found the flag set; raised exactly when the last thing started is a chat without reply; unbound exactly when the first call of the first reply does not decode and no cancel comes before it; else one final event with the last reply or, after MAX_STEPS chats and with a warning, the step limit, and a transcript that matches log and replies |
| `PurgedSplits.CutsAreProper` | quantbench/review/cpcv.py:60 | the cut points start at 0, end at n and leave every group non-empty |
| `PurgedSplits.GroupsAreEven` | quantbench/review/cpcv.py:60 | every cut is the even spacing rounded down, so each group holds n / groups positions or one more |
| `PurgedSplits.AssignGroups` | quantbench/review/cpcv.py:61-63 | filling group_of in place puts every position into the one group whose cuts enclose it |
| `PurgedSplits.CombinationsAreChoices` | quantbench/review/cpcv.py:66 | the combinations are exactly the increasing choices of k groups |
| `PurgedSplits.ChoicesWith` | quantbench/review/cpcv.py:66 | a group is in as many choices as there are ways to pick its companions |
| `PurgedSplits.EveryGroupTestedInHalf` | quantbench/review/cpcv.py:66 | every group is tested in exactly half of the splits |
| `PurgedSplits.EveryPositionTestedInHalf` | quantbench/review/cpcv.py:60-67 | every position is a test position in exactly half of the splits |
| `PurgedSplits.SelectKept` | quantbench/review/cpcv.py:68-73 | the selection loop keeps, in order, exactly the positions whose whole neighbourhood is tested |
| `PurgedSplits.KeptIsTrimmedRun` | quantbench/review/cpcv.py:70-72 | within a maximal test run the neighbourhood test is trimming by purge on the left and embargo on the right, except at the ends of the series |
| `PurgedSplits.KeptIsFarFromTraining` | quantbench/review/cpcv.py:70-72 | a kept position is more than purge after and more than embargo before every training position |
| `PurgedSplits.RunSplits` | quantbench/review/cpcv.py:49-77 | all splits in order with their kept positions, paths only from splits keeping two or more, nothing for unusable group counts |
| `Lineage.ChainToRoot` | quantbench/library/lineage.py:70-91 | on any records, cyclic ones included: distinct, parent-linked records ending at a root, at a reported missing parent, or at the first repeat |
| `Lineage.ChainIsUnique` | quantbench/library/lineage.py:70-91 | those conditions leave exactly one chain and one verdict for a record |
| `Lineage.RepeatMeansCycle` | quantbench/library/lineage.py:85-88 | the chain is cut at a repeat exactly when the parents of the record never run out |
| `Lineage.SortedIsStable` | quantbench/library/lineage.py:100-104 | children are in order of creation, and those created together keep their order |
| `Lineage.GroupByParent` | quantbench/library/lineage.py:95-98 | the grouping loop gives every id its children in record order |
| `Lineage.PopRecord` | quantbench/library/lineage.py:101-104 | popping a record and putting its children in front leaves the same listing still to come |
| `Lineage.Descendants` | quantbench/library/lineage.py:94-105 | from any run that is not its own descendant, whatever cycles lie elsewhere, the stack loop terminates with the depth-first listing |
| `Lineage.CycleListsForever` | quantbench/library/lineage.py:94-105 | from a run that is its own descendant the listing cut off after n generations has more than n entries, for every n |
| `Lineage.TakeTurn` | quantbench/library/lineage.py:101-104 | the loop body is one turn: the top record gives way to its children in order of creation |
| `Lineage.WalkEndsIff` | quantbench/library/lineage.py:100-105 | iterating the turn from a run's children empties the stack if and only if the run is not its own descendant |
| `Lineage.MutualParentsAreACycle` | quantbench/library/lineage.py:94-105 | two runs that name each other as parent are an index from which the walk has no end |
| `Lineage.TwoLevelsMakeCycle` | quantbench/library/lineage.py:94-105 | a record found at two different distances below a run puts the run below itself |
| `Lineage.LevelIsBounded` | quantbench/library/lineage.py:94-105 | below a run off every cycle no record is more generations down than there are records |
| `Lineage.ListsExactlyTheDescendants` | quantbench/library/lineage.py:94-105 | the listing holds exactly the proper descendants, however deep |
| `Lineage.ListsEachOnce` | quantbench/library/lineage.py:94-105 | no descendant is listed twice, and the run itself is not listed |
| `Lineage.SubtreesAreContiguous` | quantbench/library/lineage.py:101-104 | pre-order: directly after each listed run stands its own complete listing |
| `Forests.ForestIsPreOrder` | quantbench/library/lineage.py:101-104 | in any sound hierarchy each listed node is directly followed by all that is below it |
| `SettingsTree.MergeLists` | quantbench/settings.py:120-127 | the list loop computes the union in order |
| `SettingsTree.UnionIsAssociative` | quantbench/settings.py:120-127 | uniting lists is associative, order included |
| `SettingsTree.UnionAbsorbedIff` | quantbench/settings.py:120-127 | uniting changes nothing exactly when the later list already extends the earlier one without repeating |
| `SettingsTree.DeepMerge` | quantbench/settings.py:113-130 | filling the copied dictionary key by key computes the recursive merge |
| `SettingsTree.LookupInMerge` | quantbench/settings.py:113-131 | at every path of a merge: the later value merged over the earlier one, or the only one there is, unless something later stands in the way |
| `SettingsTree.MergeIsAssociativeIff` | quantbench/settings.py:113-130 | merging three trees is associative if and only if nothing of the first is hidden by a middle value of another kind |
| `SettingsTree.MergeIsAssociative` | quantbench/settings.py:113-130 | it is associative whenever kinds agree at the paths the first two trees share |
| `SettingsTree.NullListHidesEarlierNames` | quantbench/settings.py:128-129 | a null list of disabled servers between two lists drops the first one when merged from the left, while merging from the right keeps both |
| `SettingsFiles.SortedNames` | quantbench/settings.py:89 | the names in alphabetical order, none added or lost |
| `SettingsFiles.EnabledMeansNotDisabled` | quantbench/settings.py:32-34 | on well-formed settings a name is enabled exactly when the disable list does not hold it |
| `SettingsFiles.DisabledAtEitherScope` | quantbench/settings.py:12-29 | after loading, a name is disabled exactly when either file disables it |
| `SettingsFiles.RewrittenDisables` | quantbench/settings.py:76-90 | a rewritten file is well-formed and disables exactly the names written |
| `SettingsFiles.TogglingTakesEffect` | quantbench/settings.py:50-93 | enabling makes a name enabled whatever scope disabled it, disabling at either scope makes it disabled, and nothing else that is loaded changes, neither outside the section nor beside the list in it |
| `SettingsFiles.SettingsStore.Load` | quantbench/settings.py:12-29 | the project file merged over the user file, with files that cannot be read skipped; a scalar of the project file is what is loaded there whatever the user file holds, and where the project file has nothing in the way the user file shows |
| `SettingsFiles.SettingsStore.IsNameEnabled` | quantbench/settings.py:32-39 | a name is enabled exactly when neither file's disable list holds it |
| `SettingsFiles.SettingsStore.SetDisabledItem` | quantbench/settings.py:70-93 | edits one file only: missing and unlisted ones are left alone when enabling, unreadable ones raise |
| `SettingsFiles.SettingsStore.SetEnabled` | quantbench/settings.py:50-67 | enabling edits both files whatever the scope, disabling the named one; an unknown scope raises and changes nothing |
| `Funding.PeriodsPartition` | quantbench/engine/funding.py:52-54 | the holding periods tile the covered span: a time lies in its own period and in no other |
| `Funding.SortedIsAscending` | quantbench/engine/funding.py:44 | sorting puts the gaps in ascending order, each as often as before |
| `Funding.MedianIsInTheMiddle` | quantbench/engine/funding.py:44 | at least half of the gaps are not above the median and at least half are not below it |
| `Funding.MedianIsHalfWay` | quantbench/engine/funding.py:44 | the median lies half-way between the two middle gaps, rounded down to a whole unit |
| `Funding.LastPeriodIsTypical` | quantbench/engine/funding.py:43-46 | the last period is as long as is usual: at least half of those before it are not longer and at least half not shorter; a single one lasts a day |
| `Funding.MedianIsPositive` | quantbench/engine/funding.py:43-46 | the last period has positive length |
| `Funding.NormalizedKeepsRated` | quantbench/engine/funding.py:31-35 | the rows kept are, with the same multiplicity, those whose rate could be read |
| `Funding.ChargedToItsPeriod` | quantbench/engine/funding.py:58-60 | one more funding row changes the cost of its own period only, by weight in force times rate |
| `Funding.FundingIsConserved` | quantbench/engine/funding.py:52-60 | total period cost equals the sum over in-range rows of held symbols of weight in force times rate |
| `Funding.FundOnePeriod` | quantbench/engine/funding.py:53-63 | one period's cost, rows and observed pairs, empty windows included |
| `Funding.FundingByPeriod` | quantbench/engine/funding.py:52-75 | the period loop: costs conserve the rows' total, each in-range row is counted once, observed plus missing pairs equals expected |
| `Funding.FundingCostByPeriod` | quantbench/engine/funding.py:15-75 | the whole function: no cost without weights, zeros and empty coverage without funding, otherwise the period costs, counts and observed pairs of the loop; observed and missing pairs always add up to times by columns |
| `LiquidityCosts.FilledIsCapped` | quantbench/engine/costs.py:41-44 | a filled weight keeps its side, never exceeds its target, and trades exactly the lesser of target and participation cap, the cap being that share of a known non-negative volume and nothing otherwise |
| `LiquidityCosts.FillRatioIsAShare` | quantbench/engine/costs.py:43 | the fill ratio lies in [0, 1] and is one exactly when the cap does not bind |
| `LiquidityCosts.FilledShrinksWithSize` | quantbench/engine/costs.py:41-44 | a larger account fills no more of any position |
| `LiquidityCosts.DescendingFindsBest` | quantbench/engine/costs.py:96-98 | sorting the tiers and taking the first reached finds the reached tier with the greatest threshold, the first of equal ones |
| `LiquidityCosts.BestTierIsGreatest` | quantbench/engine/costs.py:96-98 | the tier found is reached, none reached has a greater threshold and none before it an equal one; none is found exactly when none is reached |
| `LiquidityCosts.SpreadBps` | quantbench/engine/costs.py:95-99 | the tier loop returns the best tier's spread, or the last listed tier's when none is reached or volume is unknown |
| `LiquidityCosts.CostsAreNonnegative` | quantbench/engine/costs.py:46-51 | with non-negative spreads no row's cost is negative, and an unchanged row costs nothing |
| `LiquidityCosts.CostsInMoney` | quantbench/engine/costs.py:46-51 | in money, a row costs half each symbol's spread on what is traded in it, the first row being bought from nothing |
| `LiquidityCosts.TotalCostInMoney` | quantbench/engine/costs.py:46-51 | in money, the total cost is that of all rows |
| `LiquidityCosts.RowFillIsFullIff` | quantbench/engine/costs.py:63-67 | a row's fill is complete exactly when no participation cap binds in it |
| `LiquidityCosts.RowFillIsAShare` | quantbench/engine/costs.py:63-67 | a row's fill lies in [0, 1] and times the target exposure gives the filled exposure |
| `LiquidityCosts.AverageFillIsAShare` | quantbench/engine/costs.py:70 | the average fill lies in [0, 1] and times the number of rows gives the total of the fills |
| `LiquidityCosts.NetTotals` | quantbench/engine/costs.py:68 | in total the net return is the gross return times the fills, less the costs |
| `LiquidityCosts.FrictionlessKeepsReturns` | quantbench/engine/costs.py:65-68 | where no cap binds and no tier has a spread, every period keeps its gross return |
| `LiquidityCosts.PointIsPriced` | quantbench/engine/costs.py:65-79 | a point of the curve prices the filled positions: fills averaged and money costs added up over the rows, the ratio of the net returns scaled by the average fill |
| `LiquidityCosts.CapacityCurve` | quantbench/engine/costs.py:55-80 | one point per account size in the order given; on a non-negative grid and cap the average fills of the returned points lie in [0, 1] and none rises with account size |
| `LiquidityCosts.CapacityCurveFalls` | quantbench/engine/costs.py:65-76 | between any two account sizes the larger has no greater average fill, and both lie in [0, 1] |
| `LongShort.PortfolioWeights` | quantbench/engine/cross_sectional_backtest.py:314-328 | the row loops give each timestamp equal long weights in the top group and equal short weights in the bottom group, and nothing else |
| `LongShort.RowTotal` | quantbench/engine/cross_sectional_backtest.py:328 | pivoting cells to distinct columns keeps their total |
| `LongShort.PortfolioEarnsTheSpread` | quantbench/engine/cross_sectional_backtest.py:156-166 | the weighted sum of symbol returns equals top-group mean minus bottom-group mean, empty legs counting zero |
| `LongShort.PortfolioIsBalanced` | quantbench/engine/cross_sectional_backtest.py:318-325 | each leg held adds up to one unit, so a portfolio with both legs is neutral |
| `LongShort.LiquidityPathAgreesWhenUncapped` | quantbench/engine/cross_sectional_backtest.py:164-187 | where no participation cap binds, the liquidity path reports the plain long-short return |
| `RebalancingDrift.DriftedSumsToOne` | quantbench/portfolio/combine.py:71-73 | drifted weights add up to one whenever the targets do |
| `RebalancingDrift.TurnoverIsBoughtAndSold` | quantbench/portfolio/combine.py:64-74 | half the L1 drift is both what is bought and what is sold |
| `RebalancingDrift.TurnoverIsMoneyTraded` | quantbench/portfolio/combine.py:64-74 | seen from an account book, it is the money spent on purchases per unit of the account's worth |
| `RebalancingDrift.TurnoverIsAtMostOne` | quantbench/portfolio/combine.py:71-74 | for long-only weights and returns of at least -1 it lies in [0, 1] |
| `RebalancingDrift.NoTurnoverIff` | quantbench/portfolio/combine.py:71-74 | it is zero exactly when every constituent held earned the portfolio return |
| `RebalancingDrift.CostIsBounded` | quantbench/portfolio/combine.py:74-76 | the net return is never above gross and at most the full cost rate below it; the first period is free |
| `RebalancingDrift.CostIsMoneyTraded` | quantbench/portfolio/combine.py:74-76 | on an account of any worth, gross less net is the rate times the money spent on returning to target after the period before; nothing in the first period |
| `RebalancingDrift.EquityBooks` | quantbench/portfolio/combine.py:74-77 | over a period the account earns the gross return on all it is worth and pays the rate on the money it spent |
| `RebalancingDrift.MovingTogetherIsFree` | quantbench/portfolio/combine.py:74-77 | when constituents move together the equity curve does not depend on the cost rate |
| `RebalancingDrift.AlignedRowMatches` | quantbench/portfolio/combine.py:55-60 | entry by entry, an aligned row holds the return of the corresponding weighted column, zero when it is missing |
| `RebalancingDrift.Combine` | quantbench/portfolio/combine.py:53-57 | an error exactly when there are no rows or no column has a weight |
| `RebalancingDrift.CombinedIsBounded` | quantbench/portfolio/combine.py:53-76 | in what combining returns, every turnover lies in [0, 1] and every net return between gross less the full cost rate and gross, with the first period free |

## Left out

- Floating-point rounding, display rounding and NaN or infinity propagation; the tolerance of 1e-12 is kept as a constant.
- Square roots: `std` and the t-statistic keep the squared form, with `std` given as any positive root.
- The SLSQP solver and SciPy's `linkage`: a solver may return any vector, a linkage is an input in which each row merges two existing clusters and none is merged twice.
- LedoitWolf.LedoitWolfCovariance: a matrix without rows but with two or more columns is excluded, because every entry would be NaN; the pipeline refuses it earlier.
- WeightCap.ApplyMaxWeightCap: an empty vector is excluded, because normalizing it divides by zero.
- Unknown method names in `optimize`, the solver diagnostics and the condition number.
- P-values and normal quantiles; the automatic lag count is a parameter, since it is a fractional power.
- The cleaning of returns and series before the computations (infinite and missing values dropped) and date parsing; dates are day numbers.
- The order pandas gives rows of one date when sorting latest first: every order is allowed.
- Regular-expression candidates of `_json_candidates` and the parsing of a candidate; only the scanner is modelled. Unicode normalization does not matter to it.
- JsonScanner.ObjectIsRecovered: number texts are any texts over the characters numbers are written with, which only makes the statement stronger.
- RunControl.ExitedRunsAreTerminal: that a worker's normal return has finalized the run is taken from the coordinator (`quantbench/agent/coordinator.py:1065`, `1158` and `1264`) as the guard of the step, not derived from it.
- The window between creating a run and registering it: registration comes first in the state machine.
- Whether a confirmation accepted after the worker has read its overrides is honoured, and whether an acknowledged cancel ends in `cancelled`: the code guarantees neither.
- Memory consolidation, event queues, stream sentinels and audit files of the run manager; threads other than workers and requests.
- Usage records and tool schemas of the agent loop; a chat or a tool is a function of the tick at which it starts.
- First-row turnover in the cross-sectional backtest: whether the initial build is charged is not claimed either way.
- Quantile group assignment, neutralization, borrow cost and the information coefficients of the cross-sectional backtest.
- Sharpe ratios: a parameter of the capacity curve, and not part of the purged splits, which end at the kept positions.
- LiquidityCosts.CapacityCurve: the gross returns are already aligned with the weights.
- LongShort.PortfolioWeights: the order of the appended rows across timestamps, which the pivot sorts away, is left open.
- RebalancingDrift.CostIsBounded: a period that wipes out the portfolio (growth zero or below) is excluded; the code then divides by zero or flips signs.
- Diversification ratio, drawdown and annualized metrics of a combined portfolio.
- Funding.FundingByPeriod: rebalance times must be strictly increasing and columns distinct, as pivoting makes them; a missing column in the funding frame is not modelled, and the median of an even number of gaps is rounded down to a whole unit.
- Funding coverage ratios are rounded quotients of the modelled counts.
- Lineage.Descendants: a run that is its own descendant is excluded, because the walk has no seen-set and does not end there (`WalkEndsIff`, with the input of `MutualParentsAreACycle`); cycles elsewhere in the index are allowed.
- Creation stamps are integers ordered as the stamps are; signal and metric differences between runs.
- Settings: Python's equality of numbers and booleans, key order, text encoding and concurrent writers; warnings for skipped files; a list or object where a name should stand is shown by an arbitrary function.
- SettingsFiles.TogglingTakesEffect: files that cannot be read or whose lists have another kind are excluded here; what happens to them is in `SetEnabled` and `SetDisabledItem`.
- Network providers, databases, plotting, the HTTP plumbing, the front end, prompts, look-ahead heuristics and the sandbox.
