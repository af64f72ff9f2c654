# Verified model of the spatial-sensitivity audit toolkit

The toolkit perturbs regions of inputs, measures how much a model's output degrades, and reports which
regions matter and how far each finding can be trusted. This project models five of its parts in Dafny
and proves what they promise. `dafny verify dfyconfig.toml` verifies everything.

Numbers are mathematical reals, tables are sequences of rows, and Python dicts are finite maps (or, where
insertion order matters, the sequence of their keys in order of first occurrence). Every modelled loop
of the source is a Dafny method proved equal to a function; the theorems are about those functions.

**Operator clustering** (`DisjointSets`, `Clustering`, `StrategyProfile`). A union-find with path halving is a
class whose `find` rewrites parents in place; the cluster numbering is the threshold graph's component
partition, numbered by smallest member, and no other numbering satisfies that description. The profile built
on it bounds across-cluster agreement, only splits when the threshold rises, and declares every operator
aligned exactly when the two partitions coincide.

**Prepare/execute protocol** (`SessionProtocol`, `PreparedRuns`). `SessionProtocol` interleaves any number of
sessions, crashes, changes of the inputs and other programs over one output path. The fingerprint is its own
step, after the mode was read. `PreparedRuns` is the code of one session, with every error path.

**Anchor indexing and control matching** (`Geometry`, `ControlMatching`, `Indexer`, `IndexMeaning`). The
geometry fold, the exact-or-nearest-area matcher and its counters, the indexer that joins them, and what the
index says of the context rows.

**Statistics** (`Items`, `ItemMeans`, `Aggregate`, `Interval`, `Percentiles`, `RankCorrelation`, `RankMeaning`,
`RegionRanks`, `Spread`, `ReducedCorrelation`, `Pairing`, `ControlComparison`, `SeedStability`, `StrategyStability`,
`Reliability`, `Analysis`, `AnalysisChain`, `ScaledStatistics`, `ScaleFree`, `SeedScale`). From a dump and its
metrics to grades, with every way the chain raises; the random draws are an arbitrary function, and the square
root is a parameter assumed exact.

**Report and labels** (`RegionKeys`, `Rankings`, `RegionSummary`, `Cells`, `Labels`). Rankings and galleries,
the region table with its two aggregation axes, and the label export from memory or from disk.

`Ordering`, `Sums`, `Grouping` and `Mapping` hold the shared facts about sorting, sums, grouped tables and
row-wise maps.

## Where code and documentation differ, or a promise needs a condition

- `preflight_fingerprint` returns a constant when the source manifest or the configuration changed. Two such
  answers are equal, so the stale test of `execute_run` passes whatever happened to the output in between:
  the test guards the output if and only if the recorded fingerprint is not one of the two constants
  (`RecheckGuardsOutput`), and a run in which such a session writes on a changed output exists
  (`SentinelSessionOpensOnChangedOutput`). A session whose recorded fingerprint is no constant passes the test only
  while both inputs are as loaded (`AcceptedInputsUnchanged`).
- One writer at a time holds in every interleaving, whatever other programs do to the output, as long as the
  lock file stays: removing it while it is held lets a second session lock a new file and two writers open
  (`AtMostOneWriter`, `RemovedLockAdmitsTwoWriters`). That a writer opens only on the recorded output needs
  other programs to touch the output only while the lock is free (`IgnoredLockOpensOnChangedOutput`), and "at
  most one session per recorded output state" also needs them not to bring back an earlier output: deleting
  the output admits a second session (`DeletionAdmitsSecondOpener`).
- When the cleanup inside `PreparedRun.close` raises, the session is left unmarked as closed, but its context
  is gone, so it still never writes (`ClosedNeverWrites`); a later call is refused as stale instead of as closed
  (`RaisingCleanupLeavesUnmarked`).
- The comment at `ssat/report/assembler.py:1087` calls splitting a region key always safe because ids hold no
  `::`. An id that ends in `:` breaks it too. The split recovers the id exactly for ids without `::` that do
  not end in `:` (`SplitRecoversRegionId`); ids accepted by the configuration schema are among them.
- A control whose embedded reference names its own region is paired with itself and the row constructor
  raises. That is the only way matching raises (`RaisesOnSelfReference`).
- If a pair of operators were stored in both orders with different correlations, the edge test and the
  means would read different cells and the across-cluster bound could fail (`BothOrdersBreakTheBound`). Every
  weight read across clusters stays below the threshold exactly when no unconnected pair's second reading
  reaches it (`AcrossWeightsBelowIff`); rows made by the rank correlation stage always have one order, so from
  items to profile the bound holds (`AcrossBelowEndToEnd`).
- The analysis chain raises exactly over a metrics store without rows, a context the indexer rejects (an empty
  name, conflicting geometry, mixed control flags, a negative area, a control that names itself), an empty metric
  name, an operator outside the five declared ones, or resampling settings out of range (`Analyse`). A context
  whose statistics could be computed may still be rejected by the indexer (`SelfNamingStops`); one available
  target item with an unknown operator makes the table not computable (`UnknownOperatorStops`).
- The full correlation of two operators is symmetric; the reduced one follows the operator that comes first
  (`ReducedDependsOnOrder`). It is symmetric when both would leave the same regions; the converse fails
  (`DifferentRegionsSameReduced`), and with two regions left the exact condition is that the two remaining pairs
  are equally concordant (`TwoLeftSymmetricIff`).
- With a guard threshold of zero or less, a zero mean passes the guard of `ratio` or `seed_cv` and the
  division raises; the two stages raise exactly then or over an empty name (`CompareToControls`,
  `ComputeSeedStability`, `CancellingRepeatsRaiseIff`, `CancellingControlsRaiseIff`).
- Region shares add up to one exactly when no scored sample is counted under both axes; a family that mixes
  skeleton and other rows can be counted twice (`SharesSumToOneIff`, `MixedFamilyCountsTwice`). A configured
  run never mixes them (`ConfiguredRunHasOneKind`).
- Grades do not depend on the unit of degradation, but the seed flag does: its zero-guard compares with a
  fixed threshold (`SeedFlagDependsOnScale`). An anchor's flag changes exactly when, between the two units, none of
  its conditions had a variation and one gets it, or all that had one were below the threshold and one that gets it
  is not (`SeedFlagChangesIff`). The whole reliability table survives a change of unit exactly when no graded
  anchor's flag does so (`RowsScaleFreeIff`), as when the guard answers alike everywhere (`GuardKeptKeepsRows`).
- A sample's gallery card and the data set's top region agree on the degradation, not always on the region:
  the card breaks ties by table order, the data set by region key (`TiesSplitCardAndTop`). They agree exactly
  when the first largest row in table order has the smallest key among the ties (`GalleryLeadsWithTopRegionIff`).

## Model

| member | source | states |
|---|---|---|
| DisjointSets.HalvingKeepsForest | ssat/analysis/strategy_profile.py:226-230 | one path-halving step keeps every operator's root and strictly shortens the walk, so `find` terminates |
| DisjointSets.LinkingKeepsForest | ssat/analysis/strategy_profile.py:232-235 | hanging one root under the other keeps a forest and merges exactly the two trees |
| DisjointSets.Forest.Find | ssat/analysis/strategy_profile.py:226-230 | returns the root, changes no root, and never detaches one |
| DisjointSets.Forest.Union | ssat/analysis/strategy_profile.py:232-235 | merges the trees of its two arguments and no others |
| Clustering.LinkOps | ssat/analysis/strategy_profile.py:237-241 | after the pair loop two operators share a root iff a chain of pairs with known weight at or above the threshold joins them |
| Clustering.CollectMembers | ssat/analysis/strategy_profile.py:243-246 | the member lists partition the operators by root |
| Clustering.NumberClusters | ssat/analysis/strategy_profile.py:247-251 | an operator's id is the position of its member list |
| Clustering.ClusterOps | ssat/analysis/strategy_profile.py:205-252 | fewer than two operators get no id; otherwise ids are 0..k-1, equal iff connected, increasing with each component's smallest operator |
| Clustering.ClusteringUnique | ssat/analysis/strategy_profile.py:205-252 | that description of the ids has exactly one solution |
| StrategyProfile.CorrelationLookup | ssat/analysis/strategy_profile.py:176-192 | a pair is a key exactly when some row names it in that order, and the last such row decides: its reduced correlation if defined, else its full one |
| StrategyProfile.LookupMeaning | ssat/analysis/strategy_profile.py:176-192 | the last row naming a pair gives its reduced correlation when that is defined, its full one when it is not |
| StrategyProfile.LookupKeys | ssat/analysis/strategy_profile.py:176-192 | no other pair is a key |
| StrategyProfile.OrderedRowsGiveOneOrder | ssat/analysis/strategy_profile.py:176-202 | rows with `op_a` before `op_b` store each pair in one order |
| StrategyProfile.MeanCorr | ssat/analysis/strategy_profile.py:255-279 | the loop computes the mean of the known weights to the counted operators |
| StrategyProfile.CountedWeightsMeaning | ssat/analysis/strategy_profile.py:255-279 | the weights are those of the counted operators, in order |
| StrategyProfile.MeanCorrMeaning | ssat/analysis/strategy_profile.py:255-279 | mean times count is their sum; none without a cluster or a counted operator |
| StrategyProfile.AcrossWeightsBelowIff | ssat/analysis/strategy_profile.py:195-279 | every weight read across clusters is below the threshold iff no unconnected pair's second reading reaches it |
| StrategyProfile.SameSideBelow | ssat/analysis/strategy_profile.py:195-202 | which holds whenever both readings of each pair lie on the same side of the threshold |
| StrategyProfile.AcrossBelowThreshold | ssat/analysis/strategy_profile.py:195-279 | then a present `mean_corr_across` is strictly below the threshold |
| StrategyProfile.BothOrdersBreakTheBound | ssat/analysis/strategy_profile.py:195-202 | a lookup holding both orders of a pair violates that bound |
| StrategyProfile.RaisingThresholdOnlySplits | ssat/analysis/strategy_profile.py:237-241 | operators together under a higher threshold were together before |
| StrategyProfile.AlignmentMeaning | ssat/analysis/strategy_profile.py:282-304 | ALIGNED iff the declared and empirical groups are equal, DIVERGENT iff they share less than half of their union |
| StrategyProfile.AllAlignedIffPartitionsAgree | ssat/analysis/strategy_profile.py:282-304 | for any operators, a lone one included: all are ALIGNED iff the declared partition is the component partition |
| StrategyProfile.RowsAlignedIff | ssat/analysis/strategy_profile.py:110-145 | the same read off the profile rows |
| StrategyProfile.SignSummaryMeaning | ssat/analysis/strategy_profile.py:307-334 | counts anchors, the positive ratio is a fraction, and dropping the top anchors never raises the mean |
| StrategyProfile.OpValuesMeaning | ssat/analysis/strategy_profile.py:307-316 | the summarised values are those of the anchors that measure the operator on the metric |
| StrategyProfile.SignSummaryNumbers | ssat/analysis/strategy_profile.py:318-334 | positive ratio times anchors is the number of positive values; the reduced mean is over all but the largest |
| StrategyProfile.DeclaredMeaning | ssat/analysis/strategy_profile.py:64-70 | the five operators and their declared attributes |
| StrategyProfile.ObservedOps | ssat/analysis/strategy_profile.py:148-158 | the sorted, duplicate-free operators measured on the metric |
| StrategyProfile.ComputeStrategyProfile | ssat/analysis/strategy_profile.py:73-145 | an unknown operator raises; otherwise one row per observed operator with all fields as specified, each accepted by its constructor |
| SessionProtocol.FingerprintMeaning | ssat/application/_session_service.py:194-215 | on the hashes and the disk: when the answer is each constant, when it is a digest and of what; in all other worlds it raises |
| SessionProtocol.SameViewIff | ssat/application/_session_service.py:169-232 | when two outputs look alike, and when the mode is create, resume or an error |
| SessionProtocol.RecheckPassesIff | ssat/application/_run_service.py:110-115 | the stale check passes iff the same input is still changed, or no input is changed and the output looks alike |
| SessionProtocol.RecheckGuardsOutput | ssat/application/_session_service.py:194-215 | an equal recomputed fingerprint implies an unchanged output iff the recorded one is not a constant |
| SessionProtocol.AcceptedInputsUnchanged | ssat/application/_run_service.py:102-123 | over every run, whatever other programs do: when a session whose recorded fingerprint is no constant passes the stale check, source and configuration hash as loaded and the output is the recorded one |
| SessionProtocol.RecheckDecides | ssat/application/_run_service.py:110-123 | the lock holder passes or is refused exactly by that comparison; refused, it gives the lock back unconsumed |
| SessionProtocol.AtMostOneWriter | ssat/application/_run_service.py:102-127 | in every interleaving, whatever other programs do to the output, at most one writer is open as long as nobody removes the lock file |
| SessionProtocol.RemovedLockAdmitsTwoWriters | ssat/application/locking.py:16-33 | a run in which the lock file is removed while held and two writers are open at once |
| SessionProtocol.RunKeepsOwner | ssat/application/locking.py:16-33 | while the lock file stays, every session inside the locked block holds the lock |
| SessionProtocol.SessionOpensOnce | ssat/application/_run_service.py:107-127 | a session opens at most one writer, in the mode of the output it is opened on |
| SessionProtocol.RunKeepsSessions | ssat/application/_run_service.py:27-127 | while other programs respect the lock: the lock holder is inside, and a session past its stale check still sees the output it recorded |
| SessionProtocol.RunKeepsHistory | ssat/application/_session_service.py:218-232 | while nothing is brought back: no output a writer was opened on recurs |
| SessionProtocol.WriterOpensOnRecordedOutput | ssat/application/_run_service.py:102-127 | a writer opens only on the output state its non-constant fingerprint recorded, as long as other programs touch the output only while the lock is free |
| SessionProtocol.AtMostOneOpenerPerOutput | ssat/application/_run_service.py:102-127 | of sessions fingerprinted on one output state at most one ever opens a writer, as long as nothing is brought back either |
| SessionProtocol.MatchingSessionCanOpen | ssat/application/_run_service.py:102-127 | the guards are not stronger than needed: a matching, unconsumed session can go on to write |
| SessionProtocol.OpenCanFail | ssat/application/_run_service.py:121-169 | opening may fail with the output looking as before, broken, or a fresh dump |
| SessionProtocol.SentinelSessionOpensOnChangedOutput | ssat/application/_session_service.py:200-204 | a reachable run in which a constant fingerprint lets a session write on a changed output |
| SessionProtocol.IgnoredLockOpensOnChangedOutput | ssat/application/locking.py:16-33 | a reachable run in which a program that ignores the lock makes a session write on an output it did not record |
| SessionProtocol.DeletionAdmitsSecondOpener | ssat/application/_session_service.py:218-232 | a reachable run, with the lock respected, in which deletion lets two sessions with one recorded state both write |
| PreparedRuns.PreparedRun.CloseSession | ssat/application/application.py:100-105 | the context is dropped first; the closed mark is set only when the cleanup does not raise |
| PreparedRuns.PreparedRun.ExecuteRun | ssat/application/_run_service.py:69-179 | every path's outcome, state and events; afterwards the lock is free and no writer is open |
| PreparedRuns.CallEvents | ssat/application/_run_service.py:86-169 | a call opens a writer iff it is admitted, and closes it as successful iff the audit finished |
| PreparedRuns.OutcomeMeaning | ssat/application/_run_service.py:80-169 | which call is refused for want of confirmation, as locked or as stale, which is cancelled, which completes, and when the lock is taken |
| PreparedRuns.ConsumedIff | ssat/application/_run_service.py:95-123 | a call consumes the session iff it is cancelled before the lock or admitted |
| PreparedRuns.SpentSessionRaises | ssat/application/_run_service.py:80-100 | after a call that completed, was cancelled or opened a writer every later one raises and does nothing |
| PreparedRuns.OneWriterPerSession | ssat/application/_run_service.py:86-127 | over any calls at most one opens a writer, and it was confirmed when that is required |
| PreparedRuns.RefusedSessionRetryable | ssat/application/_run_service.py:86-115 | after any number of unconfirmed, locked or stale refusals the session still runs |
| PreparedRuns.ClosedNeverWrites | ssat/application/application.py:88-105 | after a close call no later call writes, even if the close raised |
| PreparedRuns.RaisingCleanupLeavesUnmarked | ssat/application/application.py:100-105 | after a cleanup that raises the session is not marked closed and the next call is refused as stale; after a clean close it is refused as closed |
| PreparedRuns.EventsBalanced | ssat/application/locking.py:16-33 | over any calls: at most one writer, as many closes as opens, as many releases as acquisitions |
| PreparedRuns.EventsInOrder | ssat/application/_run_service.py:69-169 | a call's events come right after those of the calls before it, and none is lost |
| PreparedRuns.OpenerOf | ssat/application/_run_service.py:121-127 | every writer that was opened was opened by one of the calls |
| PreparedRuns.Drive | ssat/application/application.py:62-117 | driving the objects through any calls gives exactly the specified state and events |
| Geometry.StepDecides | ssat/analysis/indexer.py:270-324 | a row is rejected iff it disagrees with an accepted one |
| Geometry.GeometryCheck.Check | ssat/analysis/indexer.py:270-324 | the in-place check of one row keeps the maps describing exactly the accepted rows |
| Geometry.CheckAll | ssat/metrics/aggregate.py:239-293 | accepts iff kinds agree per region and known areas agree per non-random sample and region; the maps then hold the known values |
| Geometry.OrderIrrelevant | ssat/metrics/aggregate.py:239-293 | acceptance and final maps do not depend on the row order |
| ControlMatching.AreaToleranceFallback | ssat/analysis/indexer.py:473-506 | the running-best loop computes the specified search |
| ControlMatching.AreaRatioMeaning | ssat/analysis/indexer.py:509-530 | over effective areas when both are known and intended ones otherwise: ratio times target area is the control area; none iff an area is unknown or the target's is zero |
| ControlMatching.WithinToleranceIff | ssat/analysis/indexer.py:404-415 | a ratio is in tolerance iff (1 - t) target <= control <= (1 + t) target |
| ControlMatching.EligibleIff | ssat/analysis/indexer.py:487-503 | a candidate is eligible iff it is a target of the same sample, polarity and condition whose area is known, positive and in that band |
| ControlMatching.TargetRegionMeaning | ssat/analysis/indexer.py:436-470 | which recipes refer to a region, and to which |
| ControlMatching.BestIsFirstMinimiser | ssat/analysis/indexer.py:473-506 | the answer is the first minimiser of the ratio's distance from one among eligible anchors, and none iff none is eligible |
| ControlMatching.FallbackNeverWarns | ssat/analysis/indexer.py:404-415 | area-mismatch warnings come from exact references only |
| ControlMatching.SelfReferenceExactly | ssat/analysis/indexer.py:379-402 | a control is paired with itself iff its own reference names its region |
| ControlMatching.MatchControls | ssat/analysis/indexer.py:327-433 | the nested loops tally every combination in order, and stop at the first self-pairing |
| ControlMatching.CombinationsConserved | ssat/analysis/indexer.py:353-433 | pairs and unmatched add up to all combinations, warnings count the mismatched pairs, and the pairs are exactly the paired outcomes |
| ControlMatching.OnePairPerCombination | ssat/analysis/indexer.py:353-433 | at most one pair per control anchor and condition, all from tried combinations |
| Indexer.BuildEntry | ssat/analysis/indexer.py:203-245 | one anchor row from its rows; it raises exactly over mixed control flags, else an empty condition name, else a negative mean area |
| Indexer.EntryConditions | ssat/analysis/indexer.py:203-245 | the ordered and the sorted condition list hold the same conditions, once each |
| Indexer.RaisesOnSelfReference | ssat/analysis/types.py:299-319 | matching raises iff some control's usable reference names itself |
| Indexer.BuildIndex | ssat/analysis/indexer.py:76-117 | succeeds iff every sample and region has a name, the geometry agrees, no anchor mixes flags, has a nameless condition or a negative area, and no control names itself, and says which raises; then a sorted table with one row per anchor, the sorted pairs of the match and conserved counts |
| Indexer.PairMeaning | ssat/analysis/indexer.py:353-433 | on the pairs it returns: `ratio * target area == control area`, none iff an area is unknown or the target's is zero; a fallback pair stays in the band and takes the first nearest eligible row; an exact one follows its reference |
| Indexer.ReferencedIff | ssat/analysis/indexer.py:379-395 | a reference gives a row iff it names a table row of the control's sample and polarity that has the condition |
| Indexer.UnmatchedIff | ssat/analysis/indexer.py:353-433 | a control and condition stay unmatched iff no row is referred to and none is eligible |
| IndexMeaning.IndexableMeaning | ssat/analysis/indexer.py:158-324 | indexable iff the names are there, any two rows agree on the geometry, and every anchor is in order |
| IndexMeaning.GeometryMeaning | ssat/analysis/indexer.py:270-324 | the geometry check accepts iff any two rows agree |
| IndexMeaning.AnchorInOrderIff | ssat/analysis/indexer.py:203-245 | when one anchor raises, read off its context rows |
| IndexMeaning.TableMeaning | ssat/analysis/indexer.py:158-247 | the table is in sort order and has a summarising row for exactly the anchors of the context |
| IndexMeaning.InsufficientIff | ssat/analysis/indexer.py:90-110 | an anchor counts as insufficient iff all its context rows share one condition |
| IndexMeaning.MeanAreaMeaning | ssat/analysis/indexer.py:263-267 | the rounded mean of the known areas, ties to even; none iff all are unknown |
| IndexMeaning.PairsOrdered | ssat/analysis/indexer.py:417-433 | the pairs are in sort order |
| Aggregate.AggregateSpatialProfile | ssat/metrics/aggregate.py:350-371 | one row per sample, region and metric, with the mean of its available items or none |
| Aggregate.AggregateRegionMetrics | ssat/metrics/aggregate.py:374-426 | one row per region and metric: the mean of the samples' known values, and their count |
| Aggregate.SpatialProfileMeaning | ssat/metrics/aggregate.py:350-371 | one row per key, with the average of its available degradations |
| Aggregate.SpatialRowWhere | ssat/metrics/aggregate.py:350-371 | there is a row exactly for the samples, regions and metrics of target items |
| Aggregate.RegionMetricsMeaning | ssat/metrics/aggregate.py:374-426 | one row per key, with the average of the known values, their count, and the flip rate of a binary metric |
| Aggregate.RegionRowWhere | ssat/metrics/aggregate.py:374-426 | there is a row exactly for the regions and metrics of the spatial table |
| Aggregate.RegionValues | ssat/metrics/aggregate.py:350-426 | a region's known values are the means of the samples with a usable item, each once |
| Percentiles.PercentileMeaning | ssat/analysis/interval.py:85-86 | linear interpolation, said without the code's indices: at `pct * (n - 1) == 100 * k` the k-th smallest value, affine between two such percentages |
| Percentiles.PercentileEnds | ssat/analysis/interval.py:85-86 | 0 and 100 give the least and the greatest value |
| Percentiles.PercentileBounds | ssat/analysis/interval.py:85-86 | percentiles stay inside the values and rise with the percentage |
| Interval.ComputeIntervals | ssat/analysis/interval.py:71-100 | one row per region and metric with data, in key order; with data it raises iff there is no resample, a percentage is outside 0..100, or a row has an empty name or bounds out of order |
| Interval.IntervalRowMeaning | ssat/analysis/interval.py:79-98 | the point estimate is the mean of the cell; the bounds are percentiles of the resample means, the r-th of which is the mean of `values[pick(g, r, j) % n]`; zero is excluded iff it is outside the bounds |
| Interval.CellMeaning | ssat/analysis/interval.py:103-131 | a cell averages the means of the samples with a usable item for it, each sample once |
| Interval.CellWhere | ssat/analysis/interval.py:103-131 | there is a cell exactly for the regions and wanted metrics of usable target items |
| Interval.CellsInKeyOrder | ssat/analysis/interval.py:73-78 | the cells are in key order, once each |
| Interval.AcceptedMeaning | ssat/analysis/types.py:653-670 | when settings and rows are accepted, read off their fields |
| Interval.IntervalInsideValues | ssat/analysis/interval.py:79-98 | for every choice of draws, min <= ci_low <= ci_high <= max of the per-sample means |
| Interval.SharedSignExcludesZero | ssat/analysis/interval.py:79-98 | per-sample means of one strict sign give an interval excluding zero on that side, whatever the draws |
| Interval.IntervalsAcceptedIff | ssat/analysis/types.py:653-670 | with ordered percentages the row constructor raises only over an empty name |
| Interval.PointEstimateIsRegionMean | ssat/analysis/interval.py:71-131 | a row is emitted iff the region mean is known, and its point estimate is that mean over the same number of samples |
| RankMeaning.RankIsMeanPlace | ssat/analysis/stability.py:376-377 | a value's rank is the mean of the places its equals fill in sorted order |
| RankCorrelation.RanksSum | ssat/analysis/stability.py:376-377 | average ranks sum to n(n+1)/2 whatever the ties |
| RankCorrelation.RanksSeeOrderOnly | ssat/analysis/stability.py:376-377 | ranks depend on the order of the values only |
| RankCorrelation.CauchySchwarz | ssat/analysis/stability.py:378 | the squared cross product is at most the product of the squared norms |
| RankCorrelation.SpearmanBounded | ssat/analysis/types.py:529-546 | a defined correlation lies in [-1, 1] |
| RankCorrelation.SpearmanSymmetric | ssat/analysis/stability.py:363-379 | exchanging the operators changes nothing |
| RankCorrelation.SpearmanSeesOrderOnly | ssat/analysis/stability.py:363-379 | a strictly increasing change of one operator's values changes nothing |
| RankCorrelation.OneRankCorrelation | ssat/analysis/stability.py:325-360 | the full and the reduced correlation, the latter without the first operator's top regions |
| RankMeaning.SpearmanMeaning | ssat/analysis/stability.py:363-379 | undefined below two regions; otherwise the ranks' centred cross product over the root of the product of their squared norms, undefined iff one is constant |
| RankMeaning.RemainingMeaning | ssat/analysis/stability.py:342-351 | the regions left are all but the first k by falling value, ties by name |
| ReducedCorrelation.SameRegionsSameReduced | ssat/analysis/stability.py:342-351 | the reduced correlation is symmetric whenever both operators would leave the same regions |
| ReducedCorrelation.FewLeftUndefined | ssat/analysis/stability.py:342-375 | with fewer than two regions left it is undefined either way, whatever the exclusions |
| ReducedCorrelation.TwoLeftSymmetricIff | ssat/analysis/stability.py:342-379 | with two regions left it is symmetric iff the two remaining pairs are equally concordant |
| ReducedCorrelation.DifferentRegionsSameReduced | ssat/analysis/stability.py:342-351 | four regions with different exclusions and the same defined reduced correlation |
| ReducedCorrelation.ReducedDependsOnOrder | ssat/analysis/stability.py:342-351 | four regions on which it is -1/2 one way and 1 the other |
| RankCorrelation.RankCorrelationRows | ssat/analysis/stability.py:308-322 | exactly the rows of all pairs in pair order, each with both correlations, the region count and the scope; it raises iff a row is rejected |
| RankCorrelation.RankRowAt | ssat/analysis/stability.py:308-322 | n(n-1)/2 rows, and the row of operators i < j stands at its place in pair order |
| RankCorrelation.RankRowsAccepted | ssat/analysis/types.py:529-546 | no correlation is ever rejected: once there is a pair, the constructor raises only over an empty operator or scope |
| RegionRanks.RegionValuesByOp | ssat/analysis/stability.py:293-306 | the nested dicts hold exactly the operators and regions with a target value, each with the mean over its anchors |
| RegionRanks.RegionMeansUnique | ssat/analysis/stability.py:293-306 | that description determines them |
| RegionRanks.RegionValueMeaning | ssat/analysis/stability.py:293-306 | a region's value is the mean over its target anchors, each once, of their two-stage means |
| RegionRanks.RankedOperators | ssat/analysis/stability.py:295-308 | an operator is ranked iff some target anchor has a two-stage mean for it on the metric |
| RegionRanks.RankRowsOfItems | ssat/analysis/stability.py:269-322 | from items: exactly the rows of those operators; it raises iff an anchor, or with a pair the scope or an operator, has an empty name |
| Spread.VarianceMeaning | ssat/analysis/control.py:172 | n times variance plus n times the squared mean is the sum of squares |
| Spread.StdZeroIffConstant | ssat/analysis/control.py:172 | the population standard deviation is zero iff all values are equal |
| ItemMeans.AnchorLevelMeans | ssat/analysis/control.py:249-277 | the dict of means per anchor, condition and metric, in table order |
| ItemMeans.CellMeanMeaning | ssat/analysis/control.py:249-277 | an entry averages the available degradations of its anchor, condition and metric |
| ItemMeans.ControlAnchorMeaning | ssat/analysis/control.py:238-247 | an anchor is a control iff its first row is |
| ItemMeans.OpLevelMeans | ssat/analysis/stability.py:463-527 | the dict of equal-weight means of condition means per anchor, operator and metric |
| ItemMeans.OpMeanMeaning | ssat/analysis/stability.py:463-527 | an entry averages the means of the operator's conditions at the anchor, each once |
| ControlComparison.CompareToControls | ssat/analysis/control.py:85-123 | one row per target cell of the requested metrics, in sort order; it raises iff a name is empty or the ratio guard lets a zero mean through |
| ControlComparison.ComparableIff | ssat/analysis/control.py:85-123 | the raising condition read off items and pairs |
| ControlComparison.TargetCellsMeaning | ssat/analysis/control.py:96-103 | the compared cells are those of target anchors with data and a wanted metric |
| ControlComparison.ControlRowsOrdered | ssat/analysis/control.py:115-123 | the rows are in sort order |
| ControlComparison.ControlValuesMeaning | ssat/analysis/control.py:149-165 | the control values are the means, at the same condition and metric, of the matched controls that have one |
| ControlComparison.ScanAreas | ssat/analysis/control.py:187-198 | TRUE iff every matched pair's ratio is known and in tolerance |
| ControlComparison.CancellingControlsRaiseIff | ssat/analysis/control.py:175-179 | two controls that cancel out make the stage raise iff the zero threshold is not positive |
| ControlComparison.ControlRowMeaning | ssat/analysis/control.py:149-212 | available iff some matched control has a value; a standard score iff two or more control values that are not all equal; areas match iff every matched ratio is known and in tolerance; rejected only over an empty metric |
| ControlComparison.ControlRowNumbers | ssat/analysis/control.py:171-185 | mean times count is the sum of the control values, the spread undoes to their squares; excess, ratio and score undo to the target; the ratio is present iff the guard allows it |
| SeedStability.ComputeSeedStability | ssat/analysis/stability.py:61-133 | one row per cell with an available value, controls included, in sort order; it raises iff a name is empty or the variation guard lets a zero mean through |
| SeedStability.RepeatableIff | ssat/analysis/stability.py:97-121 | the raising condition read off items |
| SeedStability.SeedCellsMeaning | ssat/analysis/stability.py:97-100 | the cells are those with an available value and a wanted metric |
| SeedStability.SeedRowsOrdered | ssat/analysis/stability.py:123-133 | the rows are in sort order |
| SeedStability.SeedRowNumbers | ssat/analysis/stability.py:100-121 | trials, mean and spread by their sums; a spread iff two trials |
| SeedStability.SeedRowMeaning | ssat/analysis/stability.py:100-121 | a variation iff two trials and a mean the guard lets through; the variation times the mean's size is the spread, zero iff the trials agree; rejected only over an empty metric |
| SeedStability.VariationScalesIff | ssat/analysis/stability.py:103-107 | rescaling keeps the variation iff the mean is zero or the zero-guard answers alike before and after |
| SeedStability.CancellingRepeatsRaiseIff | ssat/analysis/stability.py:103-107 | two repeats that cancel out make the stage raise iff the zero threshold is not positive |
| SeedScale.SeedFlagDependsOnScale | ssat/analysis/reliability.py:230-242 | concrete repeats whose seed flag is UNAVAILABLE, and TRUE when multiplied by a hundred |
| SeedScale.SeedFlagByCells | ssat/analysis/reliability.py:230-242 | from items: an anchor's seed flag read off its conditions with a variation |
| SeedScale.SeedFlagChangesIff | ssat/analysis/reliability.py:230-242 | rescaling changes an anchor's seed flag iff none of its conditions had a variation and one gets it, or all that had one were below the threshold and one that gets it is not (shrinking: with before and after exchanged) |
| SeedScale.RowsScaleFreeIff | ssat/analysis/reliability.py:51-142 | rescaling leaves the whole reliability table equal, seed flags included, iff no graded anchor's seed flag changes |
| SeedScale.GuardKeptKeepsRows | ssat/analysis/reliability.py:51-142 | so it does when the zero-guard answers alike before and after for every requested condition with repeats |
| StrategyStability.PerAnchorStrategyRows | ssat/analysis/stability.py:211-266 | one row per non-control anchor and requested metric with data, in sort order; it raises iff an anchor or such a metric has an empty name |
| StrategyStability.MetricsNamedIff | ssat/analysis/types.py:478-501 | a metric name stops it iff a target anchor has a two-stage mean on a requested metric without a name |
| StrategyStability.StrategyRowsOrdered | ssat/analysis/stability.py:258-266 | the rows are in sort order |
| StrategyStability.StrategyRowNumbers | ssat/analysis/stability.py:243-256 | each operator's sign is that of its value, and agreement times operators is the commonest sign's count |
| StrategyStability.CommonestSign | ssat/analysis/stability.py:246 | that count is attained by a sign |
| StrategyStability.TopCountIsLargest | ssat/analysis/stability.py:246 | and no sign has more |
| StrategyStability.RowValues | ssat/analysis/stability.py:234-240 | a row lists exactly the operators with a two-stage mean at its anchor, with that mean |
| StrategyStability.TopCountMeaning | ssat/analysis/stability.py:246 | the commonest sign covers all operators iff they share one sign |
| StrategyStability.StrategyRowMeaning | ssat/analysis/types.py:478-501 | the constructor rejects only an empty metric, and agreement is 1 iff the signs are all equal |
| Reliability.ComputeReliability | ssat/analysis/reliability.py:51-142 | one row per key of the strategy and control tables, in key order, scored from the rows found under that key |
| Reliability.RowWhere | ssat/analysis/reliability.py:76-97 | there is a row for exactly the anchors and metrics of the strategy and the control table |
| Reliability.RowsOrdered | ssat/analysis/reliability.py:100-102 | the rows are in sort order, each key once |
| Reliability.GradeMeaning | ssat/analysis/reliability.py:145-173 | on the flags: when a row is UNRELIABLE, HIGH and MODERATE, each an iff; LOW is what remains |
| Reliability.NoOperatorsMeansLow | ssat/analysis/reliability.py:176-203 | a row without operators is LOW |
| Reliability.ExceedsMeaning | ssat/analysis/reliability.py:206-227 | TRUE iff some evaluable score clears the threshold, UNAVAILABLE iff there is none |
| Reliability.SeedFlagMeaning | ssat/analysis/reliability.py:230-242 | TRUE iff every present variation is below the threshold, UNAVAILABLE iff there is none |
| Reliability.AreaFlagMeaning | ssat/analysis/reliability.py:245-253 | FALSE iff some row with controls mismatches, UNAVAILABLE iff no row has controls |
| Reliability.ZThresholdOnlyLowers | ssat/analysis/reliability.py:97-173 | raising the z threshold keeps keys and UNRELIABLE rows; any other grade stays or becomes LOW |
| AnalysisChain.JoinMeaning | ssat/analysis/reader.py:97-124 | the joined table holds exactly the pairs of an item and a metric row with one id |
| AnalysisChain.JoinOrder | ssat/analysis/reader.py:97-124 | in dump order and, for one item, in metric order, repetitions included |
| AnalysisChain.Analyse | ssat/application/_analysis_service.py:39-65 | joined table, index of the same context, statistics: it succeeds iff there is a metric row, the context is indexable and the table is computable; then index, rank rows, profile and grades are the specified ones, the grades using the index's own pairs |
| AnalysisChain.SelfNamingStops | ssat/application/_analysis_service.py:46-48 | one control item that names itself: the statistics would accept it, the indexer stops the chain |
| AnalysisChain.IndexableItemsNamed | ssat/analysis/indexer.py:191-219 | an indexable context names everything the statistics ask of an item |
| AnalysisChain.AllAlignedEndToEnd | ssat/analysis/strategy_profile.py:282-304 | on the profile rows of the chain: all ALIGNED iff the declared partition is the component partition |
| AnalysisChain.ObservedMeaning | ssat/analysis/strategy_profile.py:148-158 | an operator is profiled iff it has a two-stage mean at some eligible anchor on the primary metric |
| AnalysisChain.UnknownOperatorStops | ssat/analysis/strategy_profile.py:161-173 | one available target item with an operator outside the five stops the chain |
| AnalysisChain.UnknownOperatorExample | ssat/application/_analysis_service.py:52-54 | a table of one such item |
| AnalysisChain.AcrossBelowEndToEnd | ssat/analysis/strategy_profile.py:131-136 | from items: every present `mean_corr_across` is strictly below the cluster threshold |
| Analysis.ScoredAnchors | ssat/analysis/reliability.py:76-101 | the graded keys are the non-control anchors and requested metrics with an operator mean |
| Analysis.UnreliableIffSignsDiffer | ssat/analysis/reliability.py:161-186 | from items to grade: UNRELIABLE iff two operators' two-stage means differ in sign |
| Analysis.ModerateNeedsTwoAgreeing | ssat/analysis/reliability.py:164-203 | MODERATE and HIGH need at least two operators, all of one sign |
| Analysis.GradesExactly | ssat/analysis/reliability.py:145-173 | from items to all four grades: MODERATE iff two or more operators share one sign, a score clears the threshold or none is evaluable, the interval excludes zero or is missing, and not both of the affirmative ones; LOW iff none of the other three conditions holds |
| Analysis.FlagsExactly | ssat/analysis/reliability.py:97-142 | from items: when each flag is TRUE, FALSE and UNAVAILABLE |
| Analysis.IntervalFlagMeaning | ssat/analysis/reliability.py:256-267 | the interval flag read off the interval of the region |
| Analysis.HighIff | ssat/analysis/reliability.py:145-173 | in particular HIGH iff two or more operators share one sign, some condition clears the threshold and the interval excludes zero |
| ScaledStatistics.ControlRowsScaled | ssat/analysis/control.py:171-185 | rescaling all degradations changes no key, flag, count or standard score of the comparison |
| ScaledStatistics.StrategyRowsScaled | ssat/analysis/stability.py:243-256 | rescaling changes no sign, agreement or count |
| ScaledStatistics.IntervalScaled | ssat/analysis/interval.py:79-98 | for the same draws estimate and bounds scale along, and zero is excluded alike |
| ScaleFree.GradesScaleFree | ssat/analysis/reliability.py:145-173 | multiplying all degradations by one positive constant changes no key, grade or flag but the seed flag |
| RegionKeys.SplitRecoversRegionId | ssat/report/assembler.py:1087-1095 | the split gives the id back iff the id has no `::` and does not end in `:`, for any instance |
| RegionKeys.RegionKeyInjective | ssat/analysis/types.py:26-45 | such ids and any instances are determined by their key |
| RegionKeys.ColonIdsCollide | ssat/analysis/types.py:26-45 | an id extended by a colon shares a key with the shorter id |
| RegionKeys.ConfiguredIdsRecover | ssat/core/config/schema.py:19 | ids accepted by the configuration schema are recovered |
| Rankings.BuildFullRankings | ssat/report/assembler.py:514-592 | scored rows by falling score, then the others by id; regions listed for highlighted samples |
| Rankings.RankingsArePermutation | ssat/report/assembler.py:531-539 | every sample once, scored first in non-increasing score, the rest by id |
| Rankings.CardMeaning | ssat/report/assembler.py:547-616 | a highlighted sample's card lists its first k regions, known ones by falling degradation before unknown ones; any other card lists none |
| Rankings.HighlightedAreGalleries | ssat/report/assembler.py:541-545 | the highlighted ids are exactly the ids of the two galleries computed from the cards |
| Rankings.GalleriesMeaning | ssat/report/assembler.py:618-622 | the galleries are the first cards with a score and, from the end, the last |
| Rankings.GalleriesDisjoint | ssat/report/assembler.py:618-622 | the galleries share no sample iff one size is zero, nothing is scored, or both fit side by side |
| RegionSummary.DatasetTopRegions | ssat/report/assembler.py:968-999 | the dict of top regions in sample order |
| RegionSummary.TopRegionsMeaning | ssat/report/assembler.py:988-999 | one entry per sample with a known value, naming its largest degradation, ties by region key |
| RegionSummary.CountBy | ssat/report/assembler.py:698 | the counter holds each label's number of occurrences |
| RegionSummary.BuildRegionSummary | ssat/report/assembler.py:684-765 | other regions row by row, skeleton regions by family, sorted by key |
| RegionSummary.SummaryOrdered | ssat/report/assembler.py:684-765 | the table is in key order, one row per plain region and skeleton family |
| RegionSummary.SummaryRowsMeaning | ssat/report/assembler.py:684-765 | every row summarises a region or a family, and every region row is summarised |
| RegionSummary.PlainRowMeaning | ssat/report/assembler.py:698-717 | a plain row carries its region's mean, flip rate and count; its share times samples is the number of samples with that top region |
| RegionSummary.FamilyRowMeaning | ssat/report/assembler.py:739-763 | a family row carries the averages weighted by count over its regions, and its share likewise |
| RegionSummary.WeightedMeanMeaning | ssat/report/assembler.py:1059-1081 | mean times total weight is the weighted sum of the known values with a positive weight; none iff there is no such value |
| RegionSummary.SharesSum | ssat/report/assembler.py:698-763 | shares times samples: one vote per scored sample and one more per sample counted on both axes |
| RegionSummary.SharesSumToOneIff | ssat/report/assembler.py:698-763 | shares sum to one iff no sample is counted on both axes |
| RegionSummary.MixedFamilyCountsTwice | ssat/report/assembler.py:698-763 | a family with a plain and a skeleton region whose shares sum to two |
| RegionSummary.ConfiguredRunHasOneKind | ssat/core/config/schema.py:236-240 | unique, valid configured ids with one kind each never mix kinds within a family |
| RegionSummary.SharesSumToOne | ssat/report/assembler.py:684-763 | from spatial rows to table: when no family of the data mixes kinds, the shares of scored data sum to exactly one |
| RegionSummary.FamilyMeanIsFlatMean | ssat/report/assembler.py:739-763 | a skeleton family's weighted mean is the flat mean of all its known values and `n_valid` their count |
| RegionSummary.FamilyFlipRateIsFlatMean | ssat/report/assembler.py:757 | the same for the flip rate of a binary metric; none otherwise |
| RegionSummary.GalleryLeadsWithTopRegionIff | ssat/report/assembler.py:594-616 | a card's first region carries the top degradation, and is the data set's top region iff the first largest row in table order has the smallest key among the ties |
| RegionSummary.TiesSplitCardAndTop | ssat/report/assembler.py:997 | two tied regions on which card and data set differ |
| Cells.IntCellRoundTrip | ssat/report/labels.py:366-367 | every optional integer survives printing and parsing |
| Cells.BoolCellsExactly | ssat/report/labels.py:370-377 | a cell parses to an optional boolean iff that value prints it |
| Labels.GroupBySample | ssat/report/exporter.py:204-206 | the nested dict holds each sample's share of the mapping, in whatever order it was filled |
| Labels.ExportSampleRankings | ssat/report/exporter.py:209-216 | one record per card with its printed cells and its groups in name order |
| Labels.ReadSampleRankings | ssat/report/labels.py:346-363 | reads samples and mapping back, or reports the first malformed cell |
| Labels.ReadingFailsIff | ssat/report/labels.py:346-377 | reading fails iff some label or correctness cell is malformed |
| Labels.TableRoundTrip | ssat/report/labels.py:346-363 | the table reads back as the same samples and every entry of a listed sample |
| Labels.ExportRiskLabels | ssat/report/labels.py:196-231 | the label rows and a manifest the constructor accepts; with a binary metric the two counts add up |
| Labels.LabelRowsMeaning | ssat/report/labels.py:198-217 | a row is exported iff it is a listed sample, correct on clean input when that is asked, with an entry of the mapping: it carries the entry's value, and with a binary metric its risk is true iff that value is positive |
| Labels.LabelRowsLast | ssat/report/labels.py:202-217 | the samples keep the report's order |
| Labels.CardLabelsOrdered | ssat/report/labels.py:207 | within a sample the groups are in name order, once each |
| Labels.ManifestMeaning | ssat/report/labels.py:219-231 | `n_positive` is the number of rows with a positive value, `n_negative` of the others, and `positive_rate * n_labels == n_positive` |
| Labels.DiskLabelsEqualMemoryLabels | ssat/report/labels.py:162-246 | labels from the exported table equal labels from the report in memory, row for row |
| Labels.ExportBothWays | ssat/report/labels.py:12-31 | the two entry points, run one after the other, give the same rows |

## Left out

- Cells.ParseInt: accepts an optional sign and ASCII digits; Python's `int` also takes surrounding whitespace, underscores and other Unicode digits, none of which the exporter prints.
- Aggregate.AggregateSpatialProfile: without each row's region geometry reference.
- Aggregate.AggregateRegionMetrics: without each row's two mean areas.
- Reliability.ComputeReliability: reads rows their own constructors accepted, so their names are not empty.
- AnalysisChain.Analyse: what the reader checks before its join, `available_analyses` and the store after the chain are not modelled; the two zero-guard thresholds are the positive defaults the service uses.
- SessionProtocol.AtMostOneOpenerPerOutput: assumes that other programs respect the lock and do not bring back an earlier output; the two counterexamples show that both are needed.
- PreparedRuns.PreparedRun.ExecuteRun: covers the `Exception` paths; closing the writer always succeeds, and interrupts such as `KeyboardInterrupt` are not modelled.
- Rankings.BuildFullRankings: without the cards' reliability grades and task fields.
- RegionSummary.BuildRegionSummary: without areas, grades and grade distributions.
- Labels.ExportSampleRankings: keeps the columns the labels read; the csv and json libraries are taken to write and read text and numbers faithfully.
- Float rounding, NaN and null group keys: arithmetic is over reals.
- Square roots are a parameter with the exact defining property, since reals have no computable one.
- SHA-256, canonical JSON and file stat values: injective or opaque.
- Dump writer, resume index, audit loop and estimators: nondeterministic outcomes.
- Sample and class metrics, vulnerability scores, semantic groups, spatial concentration and grade merging: further grouped means and counts of the same shape.
- Reason strings, timestamps, event sinks and logging.
- Parquet and JSON stores, HTML, charts, thumbnails, the command line, experiments and scripts.
