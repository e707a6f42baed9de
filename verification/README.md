# ctx decision cores

A Dafny model of the parts of ctx that decide something: who is served which policy set, which
backend may answer, who is over budget, what a measurement campaign counts, and what a folded
migration reads back as. Databases, HTTP and clocks are parameters of the model. `dafny verify dfyconfig.toml`
checks everything.

| File | Component |
|---|---|
| `TenantRegistry.dfy` | the lock-free tenant policy registry as a machine of atomic steps over any number of threads |
| `FlightFreshness.dfy`, `RowVisibility.dfy` | when a call to it can be answered from an older base, and when it sees a tenant's new rows |
| `Overlay.dfy`, `Narrowing.dfy` | the tenant-wins merge, and the order that overlay rows have to respect |
| `StreamMerge.dfy`, `Dumps.dfy` | the lockstep walk over sorted dumps that pairs cases by key |
| `Displacement.dfy`, `Comparison.dfy` | folding a paired case into the slices of a comparison report |
| `Fusion.dfy` | reciprocal-rank fusion over the reals, and the damping curve of one type |
| `Sweep.dfy` | the measuring pass: workers under a semaphore, results collected by position |
| `Backends.dfy`, `Pool.dfy` | backend rows, trust and sensitivity, the attempt chain and its health |
| `HopChain.dfy` | the federation filters and how far a request can spread |
| `Quota.dfy` | the per-tenant quota gate built from unordered policy rows |
| `EndpointCache.dfy` | the endpoint-window cache: TTL, stale-while-error, backoff |
| `RateLimiter.dfy` | the fixed-window rate limiter |
| `FoldSection.dfy` | reading a folded migration back out of the baseline |
| `Ordering.dfy`, `Options.dfy` | string order, filters, maps and stable sorting; a value that may be missing |

Where the program changes state step by step, the model does too: classes with the program's fields
(`Limiter`, `Cache`, `BackendPool`, `RecordStream`, `CompareAcc`) and methods with its loops, each
proved equal to a function of its inputs or of the old state. The laws are then lemmas about these
functions, for every input, every run or every interleaving. Interleavings are sequences of actions
of named threads, in which an action that is not enabled changes nothing or ends the run.

Where the code and its own comments differ, the model follows the code:

- The registry says that a stale base is never served. A single-flight follower is handed its leader's
  result unchecked, so a call can be answered from a base older than the generation at its start,
  exactly when a flight of its scope is open at that moment whose leader can still land such a set
  (`StaleAnswerIff`); with no flight open it never is (`FreshWithoutOpenFlight`). From every quiet
  state a run leads there, with the Reload already returned (`FollowerCanBeStale`).
- A comparison says that the planner settings it prints describe the whole campaign. They are those
  of the first paired case, and describe the others exactly when every base record took the same path
  with the same limit (`GucDescribesTheCampaignIff`); a later case is only compared with its own
  partners (`MixedCampaignPasses`).
- The halves of G-REAL are said to partition it. They do as long as no dump has a slice that itself
  bears the name of a half (`HalvesCountTheTotalIff`, `ImpostorBreaksTheCount`).
- The endpoint cache promises one timeout per backoff window for a dead API. Calls that overlap the
  failure can end the window early, exactly when one of them began early enough (`EarlyRequestIff`,
  `OverlapEndsBackoffEarly`).
- `PrimaryModel` names the first row of the chain that has a model and a priority of zero or more. That
  is the head of the chain exactly when the head has both (`PrimaryIsFirstNameable`,
  `PrimaryIsChainHeadIff`).
- The transit rule promises a fan-out linear in the depth, and egress-local that a request goes no
  further. Both hold of the rows the instance recognises as hops. A row that leads to an instance
  nobody has learned passes both rules (`UnlearnedRowsSlipThrough`); the exact conditions are
  `OneOnwardIff`, `TransitSpreadsToOneIff` and `EgressStaysIff`, and the linear bound is stated for
  recognised rows.
- Merging policies ignores the row order over the two legal `on_exceed` values. Over other values the
  merged value is the first row's, although the verdict is still the same (`MergeIgnoresOrderIff`,
  `VerdictIgnoresOrder`).

One bound is sharper than a fixed window suggests: across a window edge a key gets at most 2 * limit - 1
admissions in one window length, not 2 * limit, because the first hit of a window is the one that opens
it (`SlidingIntervalBound`, `SlidingIntervalBoundIsTight`).

## Model

| member | source | states |
|---|---|---|
| TenantRegistry.After | go/internal/blocktype/registry.go:158-209 | after every sequence of reader, reload, invalidate and row-write steps the invariant holds: entries, flights and threads only hold sets built from a published base no older than the stamp they carry, and base and generation are swapped in publish order |
| TenantRegistry.StepKeeps | go/internal/blocktype/registry.go:374-454 | every single step of every thread keeps that invariant |
| TenantRegistry.ReloadOrder | go/internal/blocktype/registry.go:440-448 | a Reload step keeps mutual exclusion and keeps the base exactly one version ahead of the generation between the swap and the bump, and level with it otherwise |
| TenantRegistry.CachedEntriesAreFresh | go/internal/blocktype/registry.go:158-209 | in every interleaving each cached entry was built for its own scope, which is not empty and does not begin with an underscore, from a base at least as new as its stamp |
| TenantRegistry.ReservedScopesGetTheBase | go/internal/blocktype/registry.go:158-166 | in every interleaving a call with an empty scope or one that begins with an underscore is answered with a base set, and no map ever has an entry and no flight ever exists for such a scope |
| TenantRegistry.AnswersAreFresh | go/internal/blocktype/registry.go:158-209 | every answer that is not a follower's is derived from a base at least as new as the generation at the start of the call, a hit or a led flight also as new as the generation it loaded, a follower's as new as its flight's stamp, and an overlay is the caller's own |
| FlightFreshness.StepLeads | go/internal/blocktype/registry.go:180-195 | every step keeps: each leader leads the one open flight of its scope, no scope has two, and no cached entry of the scope is newer than the base the leader has loaded |
| FlightFreshness.LeaderStaysNew | go/internal/blocktype/registry.go:180-195 | a leader that cannot land a set older than a generation does not come to be able to |
| FlightFreshness.LandsOlder | go/internal/blocktype/registry.go:180-195 | a leader that can, does so if it is left alone and the tenant has no rows |
| FlightFreshness.JoinIsStaleIff | go/internal/blocktype/registry.go:175-207 | a reader about to enter the single flight can be answered with a set older than its start exactly when the flight open for its scope can still land one: by the base or the set its leader holds, or by the entry its re-probe would find |
| FlightFreshness.StaleAnswerIff | go/internal/blocktype/registry.go:158-209 | the same at the start of the call, for every run before it: a stale answer is possible exactly when such a flight is open |
| FlightFreshness.FreshWithoutOpenFlight | go/internal/blocktype/registry.go:158-209 | a call that begins while no flight of its scope is open is answered, in every run, with a set at least as new as the generation at its start, follower or not |
| FlightFreshness.ReloadPublishesIff | go/internal/blocktype/registry.go:374-454 | a Reload that finds the mutex free, run alone from any state, publishes its set, bumps the generation once and swaps in an empty map exactly when its load succeeds; otherwise it only stores the pool, and it frees the mutex either way |
| FlightFreshness.FollowerCanBeStale | go/internal/blocktype/registry.go:175-207 | every run that leaves the mutex free and no flight of the scope open can go on so that a call begun after a Reload has returned is answered with a set from before it |
| RowVisibility.InvalidationSettles | go/internal/blocktype/registry.go:297-301 | an invalidation that deletes from the current map while no flight of the scope is open leaves nothing cached or in flight that was built with other rows |
| RowVisibility.RowsAreSeen | go/internal/blocktype/registry.go:158-209 | a call that begins in such a state, with no further write to its scope, is answered in every run with a set built with the tenant's rows, or with the base |
| RowVisibility.RowsAreServed | go/internal/blocktype/registry.go:158-209 | with a pool stored, a scope that is not empty and does not begin with an underscore, no failing step and rows that merge over every base it is never the base |
| RowVisibility.InvalidatedRowsAreSeen | go/internal/blocktype/registry.go:297-301 | so the calls after such an invalidation are answered with what was written before it, or with the base |
| Overlay.BuildTenantSet | go/internal/blocktype/registry.go:218-291 | the merge loops compute, for every name, the last tenant row or else the base policy, with the default flag left to the tenant's default, and refuse a result without exactly one default |
| Overlay.LayerRows | go/internal/blocktype/registry.go:257-267 | after the first loop a name resolves to its last tenant row, else to the base |
| Overlay.ClearDefaults | go/internal/blocktype/registry.go:272-279 | a tenant default takes the flag from every other name and changes nothing else |
| Overlay.CheckedSet | go/internal/blocktype/set.go:51-133 | a namespace is accepted exactly when one policy is the default |
| Overlay.ResolveKnows | go/internal/blocktype/registry.go:257-267 | the merged names are the base names and the row names, and each resolves to a tenant row of that name or, if there is none, to the base policy |
| Overlay.OverlayIsServedIff | go/internal/blocktype/registry.go:218-291 | a tenant with rows is served its overlay exactly when it declares a default or leaves the base default's name alone |
| Overlay.ServedPolicies | go/internal/blocktype/registry.go:257-290 | a served set has exactly the names of the base and of the rows, and under each name the row of that name, or else the base policy, up to the default flag |
| Overlay.ServedDefault | go/internal/blocktype/registry.go:272-290 | when one row declares a default, exactly its name is the default of the served set |
| Narrowing.NarrowsReflexive | go/internal/blocktype/overlay_narrowing.go:111-189 | a policy narrows itself |
| Narrowing.NarrowsTransitive | go/internal/blocktype/overlay_narrowing.go:111-189 | narrowing twice is narrowing |
| Narrowing.NarrowsIff | go/internal/blocktype/overlay_narrowing.go:111-189 | no axis is violated exactly when the overlay widens none of the seven flags, keeps the retrieval kind, excludes, or damps a full pass, and where both damp neither raises the factor nor adds an intent pattern |
| Narrowing.NarrowingLowersFactor | go/internal/blocktype/overlay_narrowing.go:150-189 | a narrowing raises the effective retrieval factor of no query, intent-pattern lifts included |
| Narrowing.FactorMeaning | go/internal/blocktype/set.go:186-200 | a damped type counts in full exactly when some non-empty intent pattern occurs in the query whatever the case of its letters, and with its damping factor otherwise |
| Narrowing.PatternsSubset | go/internal/rrf/pattern.go:21-35 | fewer intent patterns lift the damping for fewer queries |
| Narrowing.ServedPolicyNarrows | go/internal/blocktype/registry.go:257-290 | if every tenant row narrows its base namesake, so does what the merge serves under every base name |
| Narrowing.TenantSetIsNoWider | go/internal/blocktype/overlay_narrowing.go:111-189 | then every base type is no wider on any flag and has no larger factor for any query |
| StreamMerge.RecordStream.Next | go/internal/armsweep/stream.go:80-94 | hands out the records in order while every value decodes and ascends, ends at the end, and refuses only a dump that is not strictly ascending |
| StreamMerge.SmallestKey | go/internal/armsweep/compare.go:729-740 | the smallest key under a live cursor, or none exactly when no cursor is live |
| StreamMerge.OpenStreams | go/internal/armsweep/compare.go:681-702 | every cursor stands on the first record of its dump, or some dump is refused |
| StreamMerge.AdvanceStreams | go/internal/armsweep/compare.go:715-725 | exactly the cursors that stand on the consumed key move, by one |
| StreamMerge.FoldSmallest | go/internal/armsweep/compare.go:704-714 | the smallest key is folded when every cursor stands on it and noted otherwise, and both keep what the walk has computed so far |
| StreamMerge.CommonIffAllAt | go/internal/armsweep/compare.go:742-749 | a key under the cursors is in every dump exactly when every cursor stands on it |
| StreamMerge.TallyStays | go/internal/armsweep/compare.go:670-675 | counting or naming the next key keeps the counters equal to the sizes of the seen intersection and the seen rest, and the named keys the smallest ones |
| StreamMerge.PairsAreTheIntersection | go/internal/armsweep/compare.go:677-727 | the paired cases are the key intersection, each once, ascending, with the records of that very key |
| StreamMerge.StreamPairs | go/internal/armsweep/compare.go:681-727 | the walk succeeds exactly when every dump is strictly ascending and no paired case is refused; then it has folded the key intersection, paired plus unpaired is the size of the key union, and the named unpaired keys are the first 25 ascending |
| Displacement.IndexNamesFirst | go/internal/armsweep/compare.go:929-943 | an id is named exactly when some row carries it, after the first such row, base before condition |
| Displacement.TypeIndex | go/internal/armsweep/compare.go:929-943 | the loops build that index over the base rows followed by the condition rows |
| Displacement.CountOut | go/internal/armsweep/compare.go:884-895 | the loop over the base window counts what the condition window lost, its labels and its types |
| Displacement.CountIn | go/internal/armsweep/compare.go:896-900 | the loop over the condition window counts the types of what entered |
| Displacement.CountShadow | go/internal/armsweep/compare.go:870-879 | shadow types in the window and at rank one |
| Displacement.WindowIsTheFront | go/internal/armsweep/compare.go:917-923 | the window is the first five ids of the ranking, or of the delivered list, and all of a shorter one |
| Displacement.TypeOfMeaning | go/internal/armsweep/compare.go:929-961 | an id has the type of the first row that carries it, a fixed label when that row names none, and another when no row carries it |
| Displacement.FoldDisplacement | go/internal/armsweep/compare.go:857-910 | one case adds its facts to the table of a slice: counts, extremes, labels, both histograms |
| Displacement.FactsMeaning | go/internal/armsweep/compare.go:857-910 | the facts of a case are set differences of the two windows: per type the ids that left and that entered, the labelled ids that left, the shadow ids of the condition window, and whether its first id is one |
| Displacement.TableAddsUp | go/internal/armsweep/compare.go:857-910 | over every run each counter of the table is the sum of what its cases contribute |
| Displacement.TableBalances | go/internal/armsweep/compare.go:857-910 | over every run of cases: displaced is the sum of the out-histogram, the entrants that of the in-histogram, and labelledOut <= displaced <= 5 * cases |
| Displacement.HistogramsAreExact | go/internal/armsweep/compare.go:884-900 | for every type the histograms count exactly the ids of that type that left or entered |
| Displacement.ExtremesBracket | go/internal/armsweep/compare.go:904-909 | minimum and maximum bracket every case, and the minimum is unset exactly for no case |
| Displacement.ExtremesAreReached | go/internal/armsweep/compare.go:904-909 | some case has the minimum and some case the maximum |
| Displacement.CountsMissing | go/internal/armsweep/compare.go:884-900 | in a window without repetitions the counted places are the set difference of the windows |
| Displacement.EntrantsBalance | go/internal/armsweep/compare.go:857-910 | without repeated ids, entrants minus displaced is the difference of the window lengths |
| Displacement.EntrantsBalanceIff | go/internal/armsweep/compare.go:857-910 | for any windows that balance holds exactly when both have equally many places that hold a shared id |
| Displacement.RepeatedIdBreaksBalance | go/internal/armsweep/compare.go:857-910 | two windows of equal length, one repeating an id, for which it fails |
| Displacement.FactsAreBounded | go/internal/armsweep/compare.go:917-923 | a case displaces at most five ids, of which at most all are labelled |
| Displacement.WindowRepeatsNothing | go/internal/armsweep/score.go:136-141 | the window repeats no id if the dump lists no candidate twice or, on the delivered basis, delivers no id twice |
| Comparison.ApplyRegime | go/internal/armsweep/regime.go:128-141 | stamps every record, or refuses exactly when some record has no label |
| Comparison.StampMeaning | go/internal/armsweep/regime.go:112-123 | a record is refused exactly under a split, in G-REAL and without a label; it gets the label of its query there, and is left alone everywhere else |
| Comparison.KeysMeaning | go/internal/armsweep/regime.go:100-106 | a G-Q case is filed under its split, a G-REAL case in the total and under its regime, every other case under its slice |
| Comparison.KeysOfStamped | go/internal/armsweep/regime.go:100-123 | under an active local/global split a G-REAL case is filed in the total and in exactly one half, and no other case in either, unless its slice bears that name |
| Comparison.SameIds | go/internal/armsweep/compare.go:843-853 | decides equality of two id lists |
| Comparison.GucsAgreeIff | go/internal/armsweep/compare.go:582-604 | the printed settings agree exactly when both records took the same path with the same scan limit |
| Comparison.CheckPartners | go/internal/armsweep/compare.go:753-764 | accepts exactly the cases whose partners share the settings and the gold of the base |
| Comparison.CompareAcc.TrackDelivered | go/internal/armsweep/compare.go:804-818 | refuses exactly a case in which some record has candidates but no delivered window, and keeps the longest window |
| Comparison.FoldInto | go/internal/armsweep/compare.go:821-841 | one case adds its counters, its paired effect and its displacement to one slice |
| Comparison.CompareAcc.FoldPair | go/internal/armsweep/compare.go:753-793 | folds a case into the slices it belongs to, or refuses it exactly when settings, gold, delivered window or label are missing or differ |
| Comparison.FilingIsLocal | go/internal/armsweep/compare.go:661-668 | filing under distinct keys touches these slices once each and no other |
| Comparison.RunIsAdmitted | go/internal/armsweep/compare.go:753-793 | a run folds exactly when every case of it is admitted |
| Comparison.AdmittedIff | go/internal/armsweep/compare.go:753-793 | a case is admitted exactly when all four records share the ann path and the gold, none has candidates without a delivered window on the delivered basis, and a G-REAL base has a label under a split |
| Comparison.DeliveredMaxIsMaximum | go/internal/armsweep/compare.go:804-818 | after every run the printed cut-off is the length of the longest delivered window of the run, and zero on another basis |
| Comparison.SlicesHoldTheirCases | go/internal/armsweep/compare.go:753-793 | after every run each slice holds exactly the cases filed under it, in order, each once |
| Comparison.EffectsSayWhatWasMeasured | go/internal/armsweep/compare.go:821-841 | after every run the i-th effect of a slice is, in all three metrics, the condition's score minus the base's of the i-th case whose base record belongs there, with the hits of the base and of the condition, and its noise is replicate B minus replicate A |
| Comparison.EffectsAddUpToTheCondition | go/internal/armsweep/compare.go:830-838 | so in every slice the summed effects plus the summed base scores are the summed condition scores, in all three metrics, and the summed noise plus the scores of replicate A are those of replicate B |
| Comparison.CountersSayWhatWasFiled | go/internal/armsweep/compare.go:821-841 | and its counters count the cases that belong there, those with gold and those with a temporal reading of the base record, and its table folds exactly their displacements |
| Comparison.EverySliceConserves | go/internal/armsweep/compare.go:821-910 | after every run, in every slice: displaced is the sum of the out-histogram, labelledOut <= displaced <= 5 * cases, the extremes bracket every case, and the effect list has one entry per case |
| Comparison.EverySliceBalances | go/internal/armsweep/compare.go:857-910 | and, without repeated ids, entrants minus displaced is the summed window-length difference |
| Comparison.SliceConserves | go/internal/armsweep/compare.go:821-910 | the same for any list of cases filed in one slice |
| Comparison.HalvesAddUp | go/internal/armsweep/regime.go:100-106 | for any list of cases, if each is filed in a total exactly when it is filed in one of two halves, and never in both, the total is exactly the sum of the halves |
| Comparison.RealIsTheSumOfItsHalves | go/internal/armsweep/regime.go:100-123 | under an active split the G-REAL slice is exactly the sum of its two halves: counters, histograms, extremes and the multiset of effects |
| Comparison.HalvesCountTheTotalIff | go/internal/armsweep/regime.go:100-123 | the halves count as many cases as the total exactly when no case comes from a slice that bears the name of a half |
| Comparison.GucIsOfTheFirstCase | go/internal/armsweep/compare.go:771-773 | the settings kept for the report are those of the first paired case |
| Comparison.GucDescribesTheCampaignIff | go/internal/armsweep/compare.go:753-773 | these settings are those of every case exactly when all base records agree on the ann path and, on it, on the scan limit |
| Comparison.MixedCampaignPasses | go/internal/armsweep/compare.go:753-773 | four sorted dumps with two cases of different settings that are both paired and admitted, while the settings kept are the first case's |
| Comparison.ImpostorBreaksTheCount | go/internal/armsweep/regime.go:100-123 | four dumps with one case of a slice that bears the name of a half: it is admitted, and the halves do not count what the total counts |
| Comparison.CompareDumps | go/internal/armsweep/compare.go:681-793 | walking four dumps with this fold succeeds exactly when they ascend and every common case is admitted, and files every common case where it belongs |
| Fusion.MergedArmIsTheBetter | go/internal/armsweep/fuse.go:193-215 | the merged text arm counts as the better of the two, and an arm that missed is never the better one |
| Fusion.ScoreFormula | go/internal/armsweep/fuse.go:151-198 | the score is type factor times mass times the weighted reciprocal ranks, the text arms apart or merged, wherever the configuration multiplies the factors in |
| Fusion.FactorPlacementIsIrrelevant | go/internal/armsweep/fuse.go:151-170 | multiplying onto the sum instead of its terms changes no fusion over the reals |
| Fusion.FuseRows | go/internal/armsweep/fuse.go:117-129 | fills and sorts the scored candidates |
| Fusion.FusionIsOrdered | go/internal/armsweep/fuse.go:117-129 | of any two candidates in the fusion the one in front has the higher score, or the same score and the smaller id |
| Fusion.FusionIsUnique | go/internal/armsweep/fuse.go:117-129 | any arrangement of the scored candidates that is sorted by score descending and id ascending is the fusion, so the unstable sort has no choice |
| Fusion.FusionIgnoresRowOrder | go/internal/armsweep/fuse.go:117-129 | the fusion does not depend on the order of the rows, with or without repeated ids |
| Fusion.FuseIsRanking | go/internal/armsweep/fuse.go:117-138 | the fusion lists the candidates in their ranking order with their own scores |
| Fusion.FactorOfType | go/internal/armsweep/fuse.go:181-189 | a damping entry scales the score of the rows of that named type and of no other row |
| Fusion.PlaceIsCount | go/internal/armsweep/fuse.go:117-129 | with distinct ids the place of a row is the number of rows that beat it |
| Fusion.LoweringAFactor | go/internal/armsweep/fuse.go:117-215 | lowering a positive factor of one type, with non-negative weights and masses, keeps the order within the type and among the other rows, moves no row of the type up and no other row down |
| Fusion.DampingConfigs | go/internal/armsweep/configs.go:106-117 | one configuration per stop, the live one with nothing but the factor of the type set |
| Fusion.StopsAscend | go/internal/armsweep/configs.go:90-90 | the ten stops ascend within (0, 1] |
| Fusion.DampingCurve | go/internal/armsweep/configs.go:90-117 | so along the curve of a type a lower stop only moves rows of the type down |
| Sweep.MeasureOne | go/internal/armsweep/run.go:420-453 | the retry loop ends a case at its first answer that is not a retryable failure, or excludes it |
| Sweep.ExcludedIff | go/internal/armsweep/run.go:420-453 | a case is excluded exactly when all of its retries + 1 attempts failed retryably, and says so |
| Sweep.RecordIff | go/internal/armsweep/run.go:420-453 | a case is a record of n attempts exactly when the n-th was measured after nothing but retryable failures |
| Sweep.OutcomeMeaning | go/internal/armsweep/run.go:420-453 | a case ends excluded, kept or fatal with retries + 1 attempts at hand, the earlier ones all retryable, and its record, pin, pool entry, error and case name are those of the attempt that ended it |
| Sweep.Assemble | go/internal/armsweep/run.go:398-417 | the first fatal outcome in case order, or records, pins, pools, exclusions and latencies in case order |
| Sweep.CollectedMeaning | go/internal/armsweep/run.go:398-417 | the k-th record, pin and latency are those of the k-th kept case, the k-th pool entry that of the k-th case with one, the k-th exclusion that of the k-th excluded case |
| Sweep.EveryCaseIsCounted | go/internal/armsweep/run.go:398-417 | without a fatal outcome records plus exclusions are the cases, with one pin and one latency per record |
| Sweep.StepKeeps | go/internal/armsweep/run.go:381-396 | every step of the dispatcher or of a worker keeps semaphore, wait group, slots and attempts consistent |
| Sweep.After | go/internal/armsweep/run.go:381-396 | so every schedule does |
| Sweep.BoundedAndWrittenOnce | go/internal/armsweep/run.go:381-396 | under every schedule at most max(1, concurrency) cases are in flight and no slot is written twice |
| Sweep.DispatcherWaitsWhenFull | go/internal/armsweep/run.go:381-396 | under every schedule the dispatcher waits exactly when max(1, concurrency) cases are in flight |
| Sweep.ScheduleIsInvisible | go/internal/armsweep/run.go:381-396 | when the wait is over every slot was written once and holds the outcome of the sequential pass |
| Sweep.SomeThreadCanMove | go/internal/armsweep/run.go:381-396 | until the wait is over some thread can move |
| Sweep.RunsAreFinite | go/internal/armsweep/run.go:381-396 | no schedule is longer than the work there is, so every pass ends |
| Sweep.EverySweepEndsAlike | go/internal/armsweep/run.go:381-417 | the assembled result of every complete schedule is that of the sequential pass, and counts every case when it is no error |
| Backends.MaxSensitivity | go/internal/backends/trust.go:72-89 | the highest of the parts, credentials for none |
| Backends.TrustTable | go/internal/backends/trust.go:30-66 | the whole permission matrix, name by name |
| Backends.AllowsAllParts | go/internal/backends/trust.go:30-89 | a trust admits the whole prompt exactly when it admits every part |
| Pool.BackendPool.Scan | go/internal/backends/pool.go:492-529 | the filter loop yields the eligible rows and the reasons of the others, both in table order |
| Pool.BackendPool.CooldownSet | go/internal/backends/pool.go:620-630 | the listed rows whose cooldown is not over |
| Pool.BackendPool.ChainFor | go/internal/backends/pool.go:492-547 | the eligible rows, those out of cooldown first, then by priority, then by name, or the reasons when there is none |
| Pool.ChainHoldsExactly | go/internal/backends/pool.go:472-529 | a row is in the chain exactly when it is enabled, has the role, is shared or the own row of a tenant with a private scope, no profile disables it and its trust admits the sensitivity |
| Pool.ChainIsOrdered | go/internal/backends/pool.go:535-547 | no row whose cooldown lies ahead stands before one whose does not; among rows that agree on that priorities do not increase, and among equal priorities names do not decrease |
| Pool.ChainIsStable | go/internal/backends/pool.go:535-547 | rows that tie in all three stand in table order |
| Pool.PrivateRowsStayPrivate | go/internal/backends/pool.go:472-480 | a row with a private scope is in the chain of that very tenant only |
| Pool.ReasonIff | go/internal/backends/pool.go:492-529 | the reason given for a row, in the order disabled, disabled by a profile, not trusted |
| Pool.BackendPool.RoleConfiguredFor | go/internal/backends/pool.go:565-574 | whether a visible row has the role |
| Pool.BackendPool.ReportFailure | go/internal/backends/pool.go:643-661 | sets the cooldown of the row, doubled from the third failure on, and touches no other row |
| Pool.BackendPool.ReportSuccess | go/internal/backends/pool.go:664-675 | clears the cooldown of the row and touches no other row |
| Pool.FailureCooldown | go/internal/backends/pool.go:643-661 | a failure counts one up and sets the cooldown from now: as given for the first two, doubled from the third on, at most ten minutes unless the given one is longer |
| Pool.StreakIsCounted | go/internal/backends/pool.go:643-675 | over every run of reports the count of a row is that of its failures since its last success, and a row with none has no cooldown |
| Pool.FailedRowGoesBack | go/internal/backends/pool.go:535-547 | while the reported cooldown lasts, every row behind the reported one is itself in cooldown |
| Pool.ChainIsTrustFilter | go/internal/backends/pool.go:492-547 | raising the sensitivity only removes rows and keeps the order of the rest |
| Pool.ChainMembers | go/internal/backends/pool.go:492-547 | a chain holds exactly the eligible rows |
| Pool.PromptChainIsTheIntersection | go/internal/backends/pool.go:492-547 | the chain of a whole prompt is the rows present in every part's chain, in the order of any part's chain |
| Pool.ChainDependsOnViewOnly | go/internal/backends/pool.go:472-547 | chain, order, reasons and configured roles depend on the rows the tenant can see only |
| Pool.ForeignEditKeepsView | go/internal/backends/pool.go:472-480 | adding, editing or deleting rows private to others, with any profiles for rows the tenant cannot see, leaves that view unchanged |
| Pool.ReportsOnlyPermute | go/internal/backends/pool.go:620-675 | no run of reports removes a row from a chain or adds one |
| Pool.BackoffNeverShortens | go/internal/backends/pool.go:643-661 | doubling never shortens the class cooldown and never exceeds twice it or the cap |
| Pool.PrimaryModel | go/internal/backends/pool.go:600-617 | the model of the first row of highest priority among the shared rows with a model, empty exactly when there is none |
| Pool.PrimaryRowsAre | go/internal/backends/pool.go:600-617 | the rows it chooses from are exactly the enabled shared rows with the role, a priority of zero or more, a model and no profile that disables them |
| Pool.PrimaryIsFirstNameable | go/internal/backends/pool.go:600-617 | that row is the first row of the tenantless public chain that has a model and a priority of zero or more |
| Pool.PrimaryIsChainHeadIff | go/internal/backends/pool.go:492-617 | it is the head of that chain exactly when the head has a model and a priority of zero or more, and there is none exactly when no row of the chain has both |
| Pool.PrimaryIsChainHead | go/internal/backends/pool.go:492-617 | so it is the head, and missing only with an empty chain, when every row of the chain has both |
| Pool.NegativePriorityIsNotNamed | go/internal/backends/pool.go:600-617 | a row of negative priority that is the whole chain and is not named |
| Pool.HeadWithoutModelIsPassedOver | go/internal/backends/pool.go:600-617 | a row without a model that heads the chain while a later row is named |
| HopChain.Keep | go/internal/backends/hopchain.go:41-49 | the rows that pass, in order |
| HopChain.ExcludeHopChain | go/internal/backends/hopchain.go:54-66 | exactly the rows that have no learned instance on the path, in order |
| HopChain.ExcludeForEgressLocal | go/internal/backends/hopchain.go:76-83 | exactly the rows of locality local or lan that have another class than ctx and no learned instance, in order |
| HopChain.TransitCap | go/internal/backends/hopchain.go:90-102 | the chain without the hops after the first |
| HopChain.CapKeeps | go/internal/backends/hopchain.go:90-102 | the cap keeps all other rows in order and of the hops exactly the first |
| HopChain.TransitKeepsFirstCtxRow | go/internal/backends/hopchain.go:90-102 | of the rows with class ctx or a learned instance it keeps exactly the first, and all others in order |
| HopChain.FirstOpenHopIsTried | go/internal/backends/hopchain.go:54-102 | after the loop exclusion and the cap together the first such row off the path is tried, and every other row off the path |
| HopChain.TransitKeepsAHopIff | go/internal/backends/hopchain.go:54-102 | after the loop exclusion a recognised hop is left exactly when some recognised hop leads off the path |
| HopChain.TransitKeepsOneHop | go/internal/backends/hopchain.go:90-102 | and then only one |
| HopChain.OneOnwardIff | go/internal/federation/chain.go:29-56 | whatever an instance recognises, every spreading of a request goes on to at most one instance exactly when at most one row of the tried chain leads to one |
| HopChain.TransitSpreadsToOneIff | go/internal/backends/hopchain.go:54-102 | under the transit rule, on the chain that comes in: exactly when the unrecognised leading rows off the path, and the first recognised one if it leads anywhere, are at most one row together |
| HopChain.EgressStaysIff | go/internal/backends/hopchain.go:68-83 | under egress-local a request goes no further exactly when every local or LAN row off the path that leads to an instance has class ctx or a learned instance |
| HopChain.RecognisedLeadsToOne | go/internal/backends/hopchain.go:76-102 | if every leading row is recognised, at most one is left, and none under egress-local |
| HopChain.UnlearnedRowsSlipThrough | go/internal/backends/hopchain.go:68-102 | two generic LAN rows to unlearned instances that pass both rules and fan the request out |
| HopChain.NarrowIsLinear | go/internal/backends/hopchain.go:85-89 | a request that meets no site with two leading rows has depth + 1 handlings |
| HopChain.HandlingsAreLinear | go/internal/federation/chain.go:29-56 | when every leading row is recognised, a request of depth d is handled by exactly d + 1 instances, by one under egress-local |
| HopChain.OnwardIsNewIff | go/internal/backends/hopchain.go:51-66 | with every leading row learned for what it is, a request reaches an instance that has handled it exactly when a row leads back to its own instance |
| HopChain.DepthFitsNetwork | go/internal/backends/hopchain.go:51-66 | without such rows no instance handles a request twice, so path and remaining depth fit the number of instances |
| Quota.WithoutExternal | go/internal/backends/quota.go:263-271 | exactly the rows of the chain whose locality is not external, in order |
| Quota.StrictestQuota | go/internal/backends/quota.go:439-468 | the loop computes the pairwise merge of the rows |
| Quota.StrictestMeaning | go/internal/backends/quota.go:439-468 | the merge has the smallest set limit of each kind, blocks exactly when some row blocks, is enabled exactly when some row is |
| Quota.MergeIgnoresOrderIff | go/internal/backends/quota.go:439-454 | two arrangements of the same rows merge alike exactly when some row blocks or the first rows agree on on_exceed |
| Quota.MergeIgnoresOrder | go/internal/backends/quota.go:439-454 | over the two legal values they always merge alike |
| Quota.VerdictIgnoresOrder | go/internal/backends/quota.go:204-228 | the verdict never depends on the row order |
| Quota.MergedTrips | go/internal/backends/quota.go:204-228 | the merge is over its calls or its cost exactly when some row is |
| Quota.MergedGate | go/internal/backends/quota.go:204-228 | the merged gate trips on calls exactly when some row does, blocks on cost exactly when some row is over and some row blocks, and admits no backend that a row would refuse |
| Quota.GatesDecide | go/internal/backends/quota.go:158-228 | both gates on every generation that was built, read off the rows, the tenant's own spend and the chain: a reached call limit refuses; a reached daily or monthly cost limit refuses if some row blocks, and otherwise leaves exactly the rows that are not external, in order; with no limit reached the chain is unchanged |
| Quota.GatesLetThrough | go/internal/backends/quota.go:158-200 | a chain passes unchanged for an empty or global scope, without a generation, and for a scope or tenant that has no policy |
| Quota.MergedGateCanBeStricter | go/internal/backends/quota.go:439-454 | two rows that each let a request pass and whose merge refuses it |
| Quota.MergePolicies | go/internal/backends/quota.go:382-409 | one strictest policy per tenant that has an enabled row, none for rows without a tenant |
| Quota.Build | go/internal/backends/quota.go:314-346 | the generation holds the merged policy and the spend of every policy tenant and exactly the scopes of these tenants |
| Quota.BindingMeaning | go/internal/backends/quota.go:355-409 | the policies that bind a tenant are the enabled rows on any of its scopes |
| Quota.ScopesShareTheTenantVerdict | go/internal/backends/quota.go:158-200 | every non-reserved scope of a tenant gets the tenant's verdict, that of the strictest merge of all enabled rows on any of its scopes in any order |
| Quota.OtherTenantsDoNotMatter | go/internal/backends/quota.go:190-228 | a tenant's verdict depends on its own rows as a set, and its own spend, only |
| EndpointCache.Cache.Endpoints | go/internal/backends/orwindow.go:134-194 | one call serves fresh data, or stale data during the backoff, or asks, and stores the result or marks the failure |
| EndpointCache.Ladder | go/internal/backends/orwindow.go:134-194 | a serial call asks exactly when the data are older than the ttl and no failure is less than 60 seconds old; a success is stored and answered, a failure keeps data and age, and what is not fresh is answered from data at most 24 hours old, or not at all |
| EndpointCache.DataAreServedForADay | go/internal/backends/orwindow.go:134-194 | in every serial run, whatever fails in between, a call within 24 hours of a success for its key is answered with data |
| EndpointCache.BackoffHolds | go/internal/backends/orwindow.go:134-176 | in every serial run a failed request is followed by no request for that key for 60 seconds |
| EndpointCache.Invariant | go/internal/backends/orwindow.go:134-194 | in every interleaving cached data is the result of a successful request for that very key |
| EndpointCache.AnswersAreRecent | go/internal/backends/orwindow.go:134-194 | in every interleaving an answer with data is not empty and was fetched for the same key at most max(ttl, 24 h) before the call began |
| EndpointCache.FailureKeepsData | go/internal/backends/orwindow.go:165-172 | in every run in which no request about a key succeeds, its data and their age stay as they are |
| EndpointCache.DataIsNeverLost | go/internal/backends/orwindow.go:134-176 | in every interleaving a key that has data keeps data |
| EndpointCache.EarlyRequestIff | go/internal/backends/orwindow.go:134-176 | after a failure of a call begun at t, some run leads to a request about the key by a call begun less than 60 seconds after t exactly when another call is asking that began before t + 60 s minus two ticks |
| EndpointCache.BackoffHoldsWithoutOverlap | go/internal/backends/orwindow.go:134-176 | so in every interleaving a failure that no other request about the key overlaps is followed by none for 60 seconds |
| EndpointCache.OverlapEndsBackoffEarly | go/internal/backends/orwindow.go:165-172 | a run from the empty cache: two overlapping calls fail, the older one last, and a third that begins only then, within 60 seconds of the newer failure, asks |
| EndpointCache.DataCanGoBackIff | go/internal/backends/orwindow.go:161-175 | some run takes a key's data back in time exactly when a call is asking that began before they were fetched |
| RateLimiter.Limiter.Sweep | go/internal/camo/ratelimit.go:60-70 | deletes exactly the expired windows, at most once per window length |
| RateLimiter.Limiter.Allow | go/internal/camo/ratelimit.go:39-56 | one call is one step of the sweep followed by the decision on the key's own window |
| RateLimiter.SweepIsInvisible | go/internal/camo/ratelimit.go:39-70 | under a clock that does not step back every call is answered as by a limiter that never deletes |
| RateLimiter.SweepIsVisibleToBackwardClock | go/internal/camo/ratelimit.go:60-70 | the premise is needed: with a clock that steps back, which the monotonic clock of the program does not, a swept limiter would admit what an unswept one refuses |
| RateLimiter.RetainedWindowsAreYoung | go/internal/camo/ratelimit.go:60-70 | after every call no retained window is two window lengths old, exactly when the length is positive |
| RateLimiter.SlidingIntervalBound | go/internal/camo/ratelimit.go:39-56 | in any half-open interval of one window length a key is admitted at most 2 * limit - 1 times |
| RateLimiter.WindowCountIsExact | go/internal/camo/ratelimit.go:39-56 | an opened window admits exactly its count, at most the limit, and nothing follows it before the next opens |
| RateLimiter.RefusedMeansSpent | go/internal/camo/ratelimit.go:39-56 | a refused call is one whose key was admitted at least limit times within the last window length |
| RateLimiter.SlidingIntervalBoundIsTight | go/internal/camo/ratelimit.go:39-56 | for every limit and every longer window some run reaches the bound |
| FoldSection.SectionInvertsFold | go/migrations/fold.go:182-206 | for any findable pair of markers Section gives back the body of every folded file, whatever stands between and behind the sections |
| FoldSection.UnfoldedFallsThrough | go/migrations/fold.go:190-197 | a file that was not folded is read from the files that still ship, or is missing |
| FoldSection.MissingEndIsReported | go/migrations/fold.go:199-202 | a section whose begin line no end line follows is reported as such |
| FoldSection.OwnSection | go/migrations/fold.go:186-205 | a section at the front of a baseline reads back as its body |
| FoldSection.SectionSkips | go/migrations/fold.go:188-190 | a section of another name in front changes nothing |
| FoldSection.CtxFoldIsFindable | go/migrations/fold.go:172-175 | the two markers of the baseline are findable: they differ, cannot overlap and span no line end |
| FoldSection.BaselineRoundTrip | go/migrations/fold.go:172-206 | under them every folded file reads back byte for byte, given distinct newline-free names and texts free of the markers |

## Left out

- SQL text, row scanning and decoding: row lists, and for a build the failure of a query, are inputs.
- HTTP handlers, routers, middleware, start-up and shutdown: they call this code and decide nothing here.
- Command-line drivers, reports, Markdown, JSON and gzip: presentation and files; a dump is a list of values that decode or do not.
- nDCG, recall and MRR, confidence intervals and the gates on them: the metrics of a record are a function parameter.
- Float rounding: scores, costs and factors are reals, so that two forms of one formula are equal; K of the fusion is not negative and ranks start at one, as in every configuration and dump.
- Error texts: refusals are values; `NarrowingViolation` is modelled by the axis it names.
- Wrap-around of the generation counter after 2^64 reloads.
- A tenant row written while a build has already read the rows: nothing in the registry protects against it, so nothing is claimed.
- The order of map iteration and the unordered row load: loops over maps take any element, row lists come in any order.
- Postgres collation: names are compared byte by byte, and `PrimaryIsFirstNameable` takes the shared rows in that order.
- `buildDisabledBy`, the retry loop of the registry and the orphan sweep: a lookup table, a timer and a clean-up query, with no decision that the rest depends on.
- Slices of a comparison as shared pointers: `CompareAcc` holds them by value, which loses nothing because no two keys share one; the eight parallel effect lists are one list of effects.
- The bodies of a measuring response: pins, pools and records carry it unread; topByArm is not modelled.
- TenantRegistry.AnswersAreFresh: a follower's answer is only as new as its flight's stamp, because the code hands it over unchecked; `StaleAnswerIff` says exactly when that is too old.
- Overlay.CheckedSet: the sorted name lists and lookup tables that NewSet derives from an accepted namespace are not modelled, because nothing here reads them.
- EndpointCache.BackoffHolds: serial runs only, because overlapping calls can end the backoff early; `EarlyRequestIff` says exactly when.
- Pool.BackendPool.ReportFailure: a later failure may shorten an earlier cooldown, because the field is overwritten.
- HopChain.HandlingsAreLinear: rows that lead to an instance and are not recognised are excluded by its premise, because the filters let them through; what they do is `UnlearnedRowsSlipThrough` and `OneOnwardIff`.
- The ingress checks of the federation (loop refusal by path and hop token, the hop limit): they act at the receiving instance, behind these filters.
