# Sovereignty planner core in Dafny

This project models the two engines of an EVE Online null-sec sovereignty
planner and proves properties of the model.

- **The Ansiblex bridge planner**, `BridgeManager` (bridge_manager.py). It
  works on the stargate graph of a region:
  - it measures distances between systems and tests the 5 light-year bridge range;
  - it lists the candidate partners of a system, sorted by distance, with a memo cache;
  - it keeps the committed bridge list, where no system should end two bridges;
  - it evaluates a candidate bridge: the jumps it saves and the sampled
    paths it shortens;
  - it places bridges greedily, round by round, under one of four scoring strategies.
- **The capacity ledger**, `UpgradeCalculator` (upgrade_calculator.py). It
  keeps the installed upgrades of each system in installation order. Each
  upgrade has a signed power delta and a signed workforce delta: positive
  consumes capacity, negative adds it. The calculator:
  - folds the installed list into usage figures;
  - gates new upgrades on capacity;
  - adds, removes and clears upgrades, and applies the four presets.

Modules, one file each:

| file | module | contents |
|---|---|---|
| wrappers.dfy | `Wrappers` | `Option`, and `Result` for the source's exceptions |
| spatial.dfy | `Spatial` | the graph value, distances and the range test |
| range_index.dfy | `RangeIndex` | candidate lists, their stable sort and the summary |
| evaluator.dfy | `Evaluator` | `calculate_bridge_value` and its sampled path count |
| greedy.dfy | `Greedy` | the greedy optimiser as specification functions |
| bridge_set.dfy | `BridgeSet` | the committed bridge list as specification functions |
| bridge_manager.dfy | `BridgeManager` | the class: graph, bridge list and memo, each method proved against those functions |
| cache_key.dfy | `CacheKeyText` | the source's text memo key and the collision it allows |
| capacity.dfy | `Capacity` | the ledger as specification functions |
| upgrade_calculator.dfy | `UpgradeCalculator` | the class: catalog, capacities and ledger, each method proved against `Capacity` |

Modelling choices:

- **Distances.** Coordinates are integer metres. Distances are kept
  squared, so the range test `sqrt(d2) / 9.461e15 <= 5` becomes
  `d2 <= (5 * 9.461e15)^2`. `Spatial.RangeTestMatchesDistance` shows the
  two tests agree.
- **Hop counts.** Stargate hop counts (networkx `shortest_path_length`)
  come from an oracle table in the graph value. A missing entry stands for
  `NetworkXNoPath`, and an infinite jump count is `None`.
  `Spatial.HopsWellFormed` states what a table read off a real undirected
  graph satisfies (a node is zero hops from itself, counts are symmetric);
  the other lemmas hold for any table and do not assume it.
- **Scores.** A score is `Finite(n)` or `Infinite`. `Greedy.Beats` is
  Python's `>` on such scores, so `inf > inf` is false. The balanced score
  `0.4*js + 0.4*ip + 0.2*(10 or 0)` is kept multiplied by 5:
  `2*js + 2*ip + (10 or 0)`.
- **Errors.** Exceptions become `Result` errors:
  - `ValueError("Graph not set")`;
  - a `KeyError` for an unknown system or for missing coordinates;
  - `ValueError` for an unknown upgrade, system or preset.
- **Classes.** Each class keeps the source's mutable fields as `var`s and
  is proved against pure functions. `BridgeManager.BridgeManager.Valid`
  says that every memo entry is the candidate list its key asks for in the
  current graph. The bridge list's invariant, `BridgeSet.Exclusive`, is
  proved preserved by `add_bridge` and `remove_bridge`.

## Model

| member | source | states |
|---|---|---|
| Spatial.Distance | bridge_manager.py:59-75 | succeeds exactly when both systems are nodes with coordinates; the result is the squared Euclidean distance; the missing-graph error is never raised here |
| Spatial.CanBridgeConnect | bridge_manager.py:77-90 | succeeds exactly when the distance does; returns that distance and "in range" exactly when it is at most the squared 5 LY |
| Spatial.DistanceSymmetric | bridge_manager.py:59-90 | distance and range verdict do not depend on the order of the two systems |
| Spatial.HopsWellFormedMeans | bridge_manager.py:530-534 | on a table that behaves like networkx's `shortest_path_length` on an undirected graph, hop counts are symmetric, zero exactly from a node to itself, and missing for a system that is not a node |
| Spatial.RangeTestMatchesDistance | bridge_manager.py:70-73 | the squared test decides the same question as comparing the metre distance with 5 LY |
| RangeIndex.Insert | bridge_manager.py:125 | one insertion step of the sort keeps every entry (multiset) |
| RangeIndex.SortByDistance | bridge_manager.py:125 | the sort result is ordered by distance and is a permutation of its input |
| RangeIndex.SortByDistanceStable | bridge_manager.py:125 | the sort is stable: entries at equal distance keep their arrival order |
| RangeIndex.CollectErrExtends | bridge_manager.py:114-122 | an error while scanning a prefix of the nodes is the error of the whole query |
| RangeIndex.CollectMembers | bridge_manager.py:114-122 | the scan keeps exactly the eligible nodes within range, each at its true distance |
| RangeIndex.CollectSucceeds | bridge_manager.py:114-122 | the scan fails exactly when some eligible node has no computable distance |
| RangeIndex.CollectDistinct | bridge_manager.py:114-122 | scanning distinct nodes lists each system at most once |
| RangeIndex.ValidConnectionsCorrect | bridge_manager.py:112-125 | the list never names the query system or an excluded system; lists exactly the nodes within range at their true distances; is sorted; keeps the graph's order at equal distance |
| RangeIndex.ValidConnectionsSucceeds | bridge_manager.py:114-122 | the query fails exactly when an eligible node has no distance; on a graph whose nodes all have coordinates it succeeds for every node |
| RangeIndex.ValidConnectionsDistinct | bridge_manager.py:114-125 | on a well-formed graph each system appears at most once |
| RangeIndex.BridgeSummaryCorrect | bridge_manager.py:142-165 | count 0 exactly when there is no closest or farthest entry; the count is the number of nodes in range; the closest is nearer than or level with every node in range, and the farthest farther than or level with every one |
| Evaluator.StrLessAsymmetric | bridge_manager.py:551 | at most one of `a < b` and `b < a` holds, so each unordered pair is counted once |
| Evaluator.CountRow | bridge_manager.py:550-573 | the inner loop over `sys_b` counts exactly the pairs of one row that `a < b` admits and whose route over the bridge, in the better direction, is strictly shorter; a pair with any missing route is skipped |
| Evaluator.CountImprovedPaths | bridge_manager.py:546-574 | the nested loop's count equals the number of sample pairs `a < b` whose route over the bridge is strictly shorter |
| Evaluator.ImprovedPathsBound | bridge_manager.py:546-574 | at most n(n-1)/2 pairs of the n sampled nodes improve, so at most 190 |
| Evaluator.PairsClosedForm | bridge_manager.py:546-551 | the pair count is n(n-1)/2 |
| Evaluator.EvaluateCorrect | bridge_manager.py:506-585 | fails exactly when the distance does; out of range gives Invalid with the distance; in range gives Valid with the hop count, savings exactly `max(0, jumps - 1)` (infinite exactly when there is no route), cross-constellation exactly when the constellations differ, and an improved-path count equal to `ImprovedPaths` over the 20-node sample, hence at most 190 |
| Evaluator.EvaluateExample | bridge_manager.py:530-537 | a pair 3.2 LY apart with a four-jump route saves three jumps |
| Greedy.ScoreOrder | bridge_manager.py:647 | Python's `>` on scores is irreflexive, asymmetric and transitive in the combinations the argmax needs |
| Greedy.FoldBestChoice | bridge_manager.py:647-655 | the strict comparison keeps the first pair with the highest score: nothing beats it and it beats every pair before it; no pair means no result |
| Greedy.PairsForErrExtends | bridge_manager.py:623-633 | a failed evaluation of one partner aborts the whole round |
| Greedy.RoundPairsErrExtends | bridge_manager.py:612-633 | a failure for one first system aborts the whole round |
| Greedy.PairsForSound | bridge_manager.py:623-645 | every scored pair starts at the given system, uses a candidate of its list, avoids used systems and carries its evaluation and score |
| Greedy.PairsForComplete | bridge_manager.py:623-645 | every unused candidate with a valid evaluation is scored |
| Greedy.RoundPairsSound | bridge_manager.py:609-645 | every pair a round scores joins two distinct unused nodes within range, evaluated and scored |
| Greedy.RoundPairsComplete | bridge_manager.py:609-645 | every such bridgeable pair is scored in the round |
| Greedy.BestRoundCorrect | bridge_manager.py:606-655 | a round places nothing exactly when no bridgeable pair is left; otherwise it places a bridgeable pair at its true distance, with its evaluation, that no bridgeable pair outscores |
| Greedy.GreedyCorrect | bridge_manager.py:606-666 | at most `rounds` bridges; each joins two originally unused nodes within range; no system ends two of them |
| Greedy.GreedyRounds | bridge_manager.py:606-661 | round i placed the best pair of the systems left unused by rounds before it |
| Greedy.GreedyStopsWhenExhausted | bridge_manager.py:657-664 | the run stops early only when no bridgeable pair remains |
| BridgeSet.ConnectedMeans | bridge_manager.py:278-284 | has_bridge holds exactly when some record joins the pair in either orientation |
| BridgeSet.ConnectedSymmetric | bridge_manager.py:278-284 | has_bridge does not depend on the order of the two systems |
| BridgeSet.UsedSystemsMeans | bridge_manager.py:286-292 | a system is used exactly when it ends some record |
| BridgeSet.ConnectedUsed | bridge_manager.py:278-292 | both systems of a bridged pair are used |
| BridgeSet.BridgesForCorrect | bridge_manager.py:294-299 | get_bridges_for_system lists exactly the records touching the system; empty exactly when the system is unused; at most one under exclusivity |
| BridgeSet.WithoutMembers | bridge_manager.py:267-271 | the rebuilt list holds exactly the records not joining the pair |
| BridgeSet.WithoutCorrect | bridge_manager.py:264-276 | the list shrinks exactly when the pair was bridged, is unchanged otherwise, and afterwards the pair is bridged in neither orientation |
| BridgeSet.WithoutSubsequence | bridge_manager.py:267-271 | the rebuilt list is a subsequence of the old one, order kept |
| BridgeSet.WithoutExclusive | bridge_manager.py:267-271 | removing keeps "no system ends two bridges" |
| BridgeSet.AddBridgeCorrect | bridge_manager.py:222-251 | checks existing bridge, then first system used, then second; then the distance, whose failure is an error; with validate, out of range is refused; a success appends exactly the new record; every refusal leaves the list unchanged |
| BridgeSet.AddBridgeExclusive | bridge_manager.py:225-251 | add_bridge keeps "no system ends two bridges" |
| BridgeManager.MemoHitCorrect | bridge_manager.py:107-110 | with the memo keyed by the question, a hit is a sorted in-range list that never names the query system or an excluded system; this is a consequence of `ValidConnectionsCorrect`, and the memo's own upkeep is the class invariant `Valid()` kept by `GetValidConnections` and `SetGraph` |
| BridgeManager.BridgeManager.constructor | bridge_manager.py:26-35 | the given graph, no bridges, an empty memo |
| BridgeManager.BridgeManager.SetGraph | bridge_manager.py:37-40 | the graph is replaced and the memo emptied; bridges unchanged |
| BridgeManager.BridgeManager.CalculateDistanceLy | bridge_manager.py:59-75 | fails without a graph; otherwise the distance of `Spatial.Distance` |
| BridgeManager.BridgeManager.CanBridgeConnect | bridge_manager.py:77-90 | fails without a graph; otherwise `Spatial.CanBridgeConnect` |
| BridgeManager.BridgeManager.ScanNodes | bridge_manager.py:114-122 | the node loop yields the scan `RangeIndex.Collect` |
| BridgeManager.BridgeManager.GetValidConnections | bridge_manager.py:104-130 | fails without a graph; otherwise returns `ValidConnections` whether from the memo or computed; a success stores its list under its key; the memo stays valid |
| BridgeManager.BridgeManager.GetBridgeSummary | bridge_manager.py:142-165 | returns `BridgeSummary` of the current graph |
| BridgeManager.BridgeManager.HasBridge | bridge_manager.py:278-284 | the scan answers `Connected` |
| BridgeManager.BridgeManager.GetUsedSystems | bridge_manager.py:286-292 | the loop collects `UsedSystems` |
| BridgeManager.BridgeManager.AddBridge | bridge_manager.py:222-251 | answer and new list are those of `BridgeSet.AddBridge`; the list is unchanged on failure |
| BridgeManager.BridgeManager.RemoveBridge | bridge_manager.py:264-276 | the new list is `Without`; reports a removal exactly when the pair was bridged |
| BridgeManager.BridgeManager.ClearBridges | bridge_manager.py:301-303 | the list becomes empty |
| BridgeManager.BridgeManager.CalculateBridgeValue | bridge_manager.py:506-585 | fails without a graph; otherwise `Evaluate`, with the nested sample loop |
| BridgeManager.BridgeManager.BestAmong | bridge_manager.py:623-655 | the inner loop over one system's candidates continues the first-argmax fold over the scored pairs, or fails with the round's error |
| BridgeManager.BridgeManager.BestPlacement | bridge_manager.py:606-655 | one round of loops yields `BestRound` |
| BridgeManager.BridgeManager.OptimizeBridgePlacementGreedy | bridge_manager.py:587-666 | fails without a graph; otherwise `OptimizeGreedy`; graph and bridges unchanged |
| CacheKeyText.InsertNameCorrect | bridge_manager.py:107 | one insertion step of `sorted` keeps the list increasing and adds exactly the name |
| CacheKeyText.SortedNamesCorrect | bridge_manager.py:107 | `sorted(exclude_systems)` lists each excluded system once, increasing |
| CacheKeyText.KeyTextCollides | bridge_manager.py:107 | two different exclusion sets give the same key text |
| CacheKeyText.LookupByTextServesExcluded | bridge_manager.py:107-110 | with the text key, a memo hit can list a system the query excludes |
| Capacity.UpgradeInfo | upgrade_calculator.py:88-91 | an upgrade is found exactly when it is in the catalog; otherwise the unknown-upgrade error |
| Capacity.SystemCapacity | upgrade_calculator.py:103-110 | a system is found exactly when it is in the capacity table; otherwise the unknown-system error |
| Capacity.FirstUnknown | upgrade_calculator.py:147-148 | none exactly when every installed name is in the catalog; otherwise the first unknown name in list order |
| Capacity.DetailsCorrect | upgrade_calculator.py:160-165 | the report lists every installed upgrade with its deltas and category, in installation order |
| Capacity.TallyNet | upgrade_calculator.py:150-160 | used minus added is the signed sum of the deltas |
| Capacity.CapacityUsageCorrect | upgrade_calculator.py:135-181 | unknown system first, then first unknown upgrade; otherwise total = base + added, available = total - used = base minus the signed sum, and the list follows installation order |
| Capacity.UsageExample | upgrade_calculator.py:147-181 | base 2000 with deltas +500 and -300 reports added 300, used 500, total 2300, available 1800 |
| Capacity.TallyPermutation | upgrade_calculator.py:147-160 | the sums do not depend on the order of the installed list |
| Capacity.UsagePermutation | upgrade_calculator.py:147-181 | two lists with the same upgrades give the same usage figures |
| Capacity.CanAddUpgradeCorrect | upgrade_calculator.py:194-216 | unknown upgrade, then usage errors; refuses for power, then workforce, then already installed; otherwise accepts with both remaining values not negative |
| Capacity.AddUpgradeCorrect | upgrade_calculator.py:230-242 | a forced add always appends; a non-forced add appends exactly when the gate accepts and changes nothing otherwise; appending creates the list and touches no other system |
| Capacity.AppendAvailable | upgrade_calculator.py:135-181 | appending a catalogued upgrade to a system whose usage is computable keeps it computable and lowers each available value by exactly the upgrade's signed delta |
| Capacity.AddKeepsCapacity | upgrade_calculator.py:198-209 | after a successful non-forced add both available values are not negative |
| Capacity.RemoveFirstCorrect | upgrade_calculator.py:263 | `list.remove` cuts at the first occurrence: one element shorter, one copy fewer |
| Capacity.RemoveUpgradeCorrect | upgrade_calculator.py:255-265 | refuses and changes nothing without a list or the name; otherwise removes the first occurrence only and touches no other system |
| Capacity.RemoveThenAddRestores | upgrade_calculator.py:240-263 | removing an installed upgrade and appending it again restores the usage figures |
| Capacity.TryLevelsCorrect | upgrade_calculator.py:358-364 | a level loop adds at most one name, the first the gate accepts after every earlier one was refused; adding nothing means all were refused; an error leaves the ledger as it was |
| Capacity.UnknownPresetClears | upgrade_calculator.py:353-393 | an unknown preset clears the system and then fails |
| Capacity.PresetLedger | upgrade_calculator.py:353-396 | after a successful preset the system's list is exactly the returned list |
| Capacity.MaxMiningPreset | upgrade_calculator.py:358-364 | max_mining adds at most one Prospecting Array, the highest level accepted, every higher one refused |
| Capacity.MaxRattingPreset | upgrade_calculator.py:366-379 | max_ratting adds at most one Major Threat and then at most one Minor Threat: the added list splits into the first of levels 3, 2, 1 the gate accepts on the cleared system (nothing when all three are refused), then the first of levels 3, 2, 1 it accepts on the system holding only that Major Threat |
| Capacity.BalancedPreset | upgrade_calculator.py:381-386 | balanced adds Prospecting Array 1 exactly when the gate accepts it on the cleared system, then Major Threat 1 exactly when the gate accepts it on the system holding only what the first attempt added |
| Capacity.PresetWithinCapacity | upgrade_calculator.py:353-396 | a preset that added anything leaves both available values not negative |
| UpgradeCalculator.UpgradeCalculator.constructor | upgrade_calculator.py:28-38 | loaded catalog and capacities, no upgrades installed |
| UpgradeCalculator.UpgradeCalculator.CalculateCapacityUsage | upgrade_calculator.py:135-181 | the four-counter loop yields `CapacityUsage` |
| UpgradeCalculator.UpgradeCalculator.CanAddUpgrade | upgrade_calculator.py:194-216 | the gate yields `Capacity.CanAddUpgrade` and changes nothing |
| UpgradeCalculator.UpgradeCalculator.AddUpgrade | upgrade_calculator.py:230-242 | answer and new ledger are those of `Capacity.AddUpgrade`; an error changes nothing |
| UpgradeCalculator.UpgradeCalculator.RemoveUpgrade | upgrade_calculator.py:255-265 | the search and cut yield `Capacity.RemoveUpgrade` |
| UpgradeCalculator.UpgradeCalculator.ClearSystemUpgrades | upgrade_calculator.py:274-275 | the system's list becomes empty, created when absent |
| UpgradeCalculator.UpgradeCalculator.TryLevels | upgrade_calculator.py:358-364 | the loop with its break yields `Capacity.TryLevels` |
| UpgradeCalculator.UpgradeCalculator.ApplyPreset | upgrade_calculator.py:353-396 | outcome and new ledger are those of `PresetRun` |

## Left out

- Floating point:
  - distances are exact squared integers, not light-year floats;
  - `round(distance, 2)` in the stored bridge record is not modelled;
  - the message texts, which format distances, are not modelled.
- RangeIndex.BridgeSummaryCorrect: the average distance is not modelled, because it is a float mean of square roots.
- Greedy.ScoreOf: the balanced score is exact, while the source computes it in floating point. Pairs that tie exactly here, for example `(js, ip) = (1, 5)` and `(3, 3)`, may compare differently after rounding in the source.
- The candidate sort compares squared integers, while the source compares float light-year distances. Pairs whose float distances round to equal values may be ordered differently.
- Hop counts are an oracle table; networkx's shortest-path search is not modelled.
- Graph metrics are not modelled: `calculate_system_metrics`, `rank_systems_for_bridges`, `calculate_jump_savings` and `get_region_statistics`. They are networkx centrality, averaging and sampled betweenness on floats.
- I/O is not modelled: `load_bridges`, `save_bridges`, `load_data`, `load_system_upgrades`, `save_system_upgrades`, `print_system_summary`, `main`, and all console output. The data they load is a parameter of the constructors.
- Bridges loaded from a file are not validated by the source, so `BridgeSet.Exclusive` is proved preserved by `add_bridge` and `remove_bridge`, not assumed of the list.
- The memo entries are values here. The source returns the cached list object itself, so a caller that mutated it would alter the memo; that aliasing is not modelled.
- Mutating the graph in place, without `set_graph`, would leave the source's memo stale. The model's graph is a value and changes only through `SetGraph`.
- BridgeManager.BridgeManager.GetValidConnections: without a graph the source fails with `AttributeError` from `self.graph.nodes()`. The model reports `GraphNotSet`.
- `add_bridge` accepts a system bridged to itself, as the source does. Nothing excludes `system1 == system2`.
- `get_bridges_for_system` is modelled only as the function `BridgeSet.BridgesFor`, whose properties `BridgesForCorrect` states. It is a list comprehension with no state.
- `get_upgrade_info` and `get_system_capacity` are the functions `Capacity.UpgradeInfo` and `Capacity.SystemCapacity`; they read only the loaded tables.
- The upgrade and system tables are maps by name. With pandas, a duplicated name would make the first matching row win. A map has one row per name.
- `get_upgrades_by_category` is not modelled, because it is a pandas filter for display.
- `graph_visualizer.py` builds the graph and is not part of this model. The `MissingCoordinates` error covers a graph built without the `x`, `y` and `z` attributes.

## Findings

| source | as written | input that shows it | evidently intended | confidence | as-written member | corrected member |
|---|---|---|---|---|---|---|
| bridge_manager.py:107-110 | the memo key is the text `system:` followed by the sorted excluded names joined with `,` | system `A` excluding the one system `B,C`, then `A` excluding `B` and `C`: both keys are `A:B,C`, so the second query is answered with the first list, which contains `B` | two queries share a memo entry only when they ask the same question | not executed; low, since EVE system names contain no commas | CacheKeyText.LookupByTextServesExcluded | BridgeManager.BridgeManager.GetValidConnections |
