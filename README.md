# open-street-router core, modelled in Dafny

This project models three pieces of the router's sequential logic and proves what they promise.

- **Directions and the Dijkstra search state** (`dijkstra.dfy`, module `Dijkstra`), from `include/osr/dijkstra.h`.
  - `opposite` and `flip<Dir>` are functions over the two directions.
  - `dijkstra<Profile>` is the class `Search`. Its fields are the bucket queue `pq` (a multiset of labels), the cost map `cost` (a map from node to best entry) and the bucket count.
  - Its methods are `Reset`, `AddStart`, `GetCost`, `Push`, `RunIn` (the `run<Dir>` instance, with its edge callback in `RelaxEdges`) and `Run` (the runtime-direction overload).
  - Each method is proved against a function on the value `SearchState`:
    - `Seed` for `add_start`.
    - `Relax` and `RelaxFrom` for the adjacency callback.
    - `Step` for one loop iteration, and `Explore` for the whole loop.
  - `run` terminates: each iteration lowers the sum of recorded costs over all node ids, or keeps it and shortens the queue.
  - The lemmas prove lazy deletion of stale labels, that costs only ever tighten, and that every entry `run` writes and every label it pushes costs less than `max`.
  - They also prove a Bellman-style result: if the search invariant `Frontier` holds when `run` starts, then when it returns no edge out of a reached node can improve a neighbour within `max`. `reset` establishes the invariant, and `add_start` keeps it.
  - From that they prove that `run` finds shortest paths. Completeness: a path cheaper than `max`, entered from a node recorded at cost c, ends at a node recorded at no more than c plus the path's cost. Soundness: when no edge cost is large enough to wrap the 32-bit sum (`NoWrap`), every feasible recorded cost is the cost of a path from a start label. Together these say that, after `reset`, `add_start` of the start labels and `run` (`RunFromStarts`), a node other than a start reads either `kInfeasible` or its least path cost from the start labels, which is then below `max`. A node with no path cheaper than `max` from a start therefore reads `kInfeasible`. A start's node is recorded at no more than its label's cost, even when that cost is `max` or more: `add_start` does not test against `max`.
  - The bound test `total < max` (include/osr/dijkstra.h:85) is strict, so every entry `run` writes costs less than `max`. On a line A–B–C–D with unit costs, a start at A with cost 0 and `max = 2`, B reads 1 while C and D stay `kInfeasible` (`LineCutOff`).
  - Without wrap-around, finalization is monotonic: a label popped at its node's recorded cost keeps that cost through the rest of `run`, because pop returns a least label and every pushed total is at least the popped label's cost.
- **Map matching** (`lookup.dfy`, module `Lookup`), from `include/osr/lookup.h`.
  - `till_the_end` is a generic method over a callback. It is proved against `Walk` over the index order `VisitOrder`.
  - `distance_to_way` is a loop proved against `ClosestAmong`, the first argmin over consecutive segments.
  - `find_next_node` runs `till_the_end` with the closure `Visitor`. Closed-form lemmas state the resulting path, distance, weight and node.
  - `match` is `CollectWays` (the callback over the ways the spatial index reports) followed by a sort by distance.
  - Geometry (`closest_on_segment`, `distance`), `ways::find_node_idx` and the weight function are function parameters. Distances are `real`.
- **`multi_counter`** (`multi_counter.dfy`, module `MultiCounting`), from `include/osr/util/multi_counter.h`.
  - It is the class `MultiCounter`, with the two bit vectors `once` and `multi` and their reserved block counts.
  - `Increment` is proved against the function `Incremented`.
  - The lemmas read the counter as a per-index count saturating at two.

The edge callback computes `l.cost() + cost`. There a `uint16_t` is added to a `uint32_t`, so the sum is a 32-bit unsigned value that wraps. The model keeps that wrap-around as written (`Dijkstra.Total`). Because `total < max` is checked before the narrowing `static_cast<cost_t>`, the cast never loses a value.

## Model

| member | source | states |
|---|---|---|
| Dijkstra.Opposite | include/osr/dijkstra.h:24-27 | the opposite direction is never the direction itself |
| Dijkstra.OppositeInvolutive | include/osr/dijkstra.h:24-27 | `opposite(opposite(d)) == d`, and `opposite(d) != d` |
| Dijkstra.Flip | include/osr/dijkstra.h:29-32 | `flip<Base>(d)` equals `d` exactly when `Base` is forward |
| Dijkstra.FlipCases | include/osr/dijkstra.h:29-32 | `flip<kForward>(d) == d`, `flip<kBackward>(d) == opposite(d)`, and flipping backward twice is the identity |
| Dijkstra.CostIn | include/osr/dijkstra.h:66-69 | a node absent from the cost map reads `kInfeasible`; a present one reads its entry's cost |
| Dijkstra.LeastExists | include/osr/dijkstra.h:76 | every non-empty queue holds a least label, by (cost, node) |
| Dijkstra.MinLabel | include/osr/dijkstra.h:76 | the popped label is in the queue, and no queued label costs less |
| Dijkstra.SeedEffect | include/osr/dijkstra.h:59-64 | `add_start` pushes the label exactly when it strictly lowers the start's cost. Otherwise the queue and every read cost stay as they were. The map's keys become the old keys plus the start's node, no other node's entry changes, costs only tighten, and the search invariant is kept |
| Dijkstra.RelaxMonotone | include/osr/dijkstra.h:84-89 | one relaxation only lowers read costs and touches no entry except the neighbour's. It changes the map only by strictly lowering the neighbour's cost, and the queue then gains exactly the neighbour's label at that new cost; otherwise the queue is unchanged |
| Dijkstra.RelaxFromImproves | include/osr/dijkstra.h:82-90 | relaxing a node's edges writes an entry, and pushes a label, only where the new cost is strictly below the node's cost before |
| Dijkstra.RelaxFromEffect | include/osr/dijkstra.h:82-90 | relaxing a node's edges only tightens costs and drops no node. Every entry it writes, and every label it pushes, costs less than `max` |
| Dijkstra.StepEffect | include/osr/dijkstra.h:75-91 | an iteration pops a label of least cost. A stale label is dropped and nothing else changes. Otherwise costs only tighten, every write and push is below `max`, and every entry written and label pushed costs strictly less than its node's cost before the iteration |
| Dijkstra.StepDecreases | include/osr/dijkstra.h:75-91 | each iteration lowers the sum of recorded costs, or keeps it and shortens the queue, so `run` terminates |
| Dijkstra.ExploreDrains | include/osr/dijkstra.h:75 | `run` returns only with an empty queue |
| Dijkstra.ExploreTightens | include/osr/dijkstra.h:73-92 | over a whole `run`, recorded costs never increase and no node is dropped. Every entry written costs less than `max` |
| Dijkstra.ExploreKeepsInvalidOut | include/osr/dijkstra.h:87 | if the profile never yields the invalid node, `run` never records it |
| Dijkstra.RelaxFromKeepsInvalidOut | include/osr/dijkstra.h:82-90 | the same for the edges of one popped node |
| Dijkstra.RelaxKeepsLabels | include/osr/dijkstra.h:84-89 | after a relaxation no queued label is cheaper than its node's recorded cost |
| Dijkstra.RelaxKeepsSettled | include/osr/dijkstra.h:84-89 | a relaxation keeps every settled node settled. An improved neighbour is settled by its new label |
| Dijkstra.RelaxKeepsCurrent | include/osr/dijkstra.h:82-90 | relaxing edge k of the popped node extends its relaxed prefix to k + 1 edges |
| Dijkstra.RelaxKeepsDuring | include/osr/dijkstra.h:82-90 | one relaxation keeps the during-expansion invariant, with one more edge done |
| Dijkstra.RelaxFromKeepsDuring | include/osr/dijkstra.h:82-90 | relaxing all remaining edges leaves the popped node with all its edges relaxed |
| Dijkstra.StepKeepsFrontier | include/osr/dijkstra.h:75-91 | one iteration of `run` keeps the search invariant |
| Dijkstra.ExploreRelaxesAll | include/osr/dijkstra.h:73-92 | if `run` starts under the invariant, every node it ends with a feasible cost has all edges relaxed: no edge improves a neighbour within `max` |
| Dijkstra.RelaxedBoundsPaths | include/osr/dijkstra.h:82-90 | once no edge can improve a neighbour, a path cheaper than `max` entered from a node recorded at most c ends at a node recorded at most c plus the path's cost |
| Dijkstra.ExploreBoundsPaths | include/osr/dijkstra.h:73-92 | completeness of `run`: started under the invariant, it records the end of every path cheaper than `max` at no more than the path's cost from its first node's recorded cost |
| Dijkstra.ReachedExtend | include/osr/dijkstra.h:82-84 | a path from a start label extended by an edge the profile reports is a path to the neighbour, costing the edge more |
| Dijkstra.ResetSound | include/osr/dijkstra.h:53-57 | after `reset` every recorded cost and queued label is a path cost from the start labels (there are none) |
| Dijkstra.SeedSound | include/osr/dijkstra.h:59-64 | `add_start` of a start label keeps every recorded cost and queued label a path cost, and records the start at no more than its label's cost |
| Dijkstra.RelaxSound | include/osr/dijkstra.h:84-89 | without wrap-around, relaxing an edge from a cost that is a path cost keeps every recorded cost and queued label a path cost |
| Dijkstra.RelaxFromSound | include/osr/dijkstra.h:82-90 | the same for all remaining edges of the popped node |
| Dijkstra.StepSound | include/osr/dijkstra.h:75-91 | without wrap-around, one iteration keeps every recorded cost and queued label a path cost |
| Dijkstra.ExploreSound | include/osr/dijkstra.h:73-92 | soundness of `run`: without wrap-around, every feasible cost it records is the cost of a path from a start label |
| Dijkstra.ExploreShortest | include/osr/dijkstra.h:73-92 | started from a state meeting the invariant, soundness and "starts recorded at most their cost" (which `reset` followed by `add_start` meets, `SeedAllFromReset`), without wrap-around, `run` records each node's cost as a path cost from a start label that no path cheaper than `max` undercuts |
| Dijkstra.SeedAllEstablishes | include/osr/dijkstra.h:59-64 | `add_start` of start labels one after another keeps the invariant and soundness, only tightens costs, and leaves each label's node recorded at no more than its cost |
| Dijkstra.SeedAllKeys | include/osr/dijkstra.h:59-64 | `add_start` of a list of labels adds exactly their nodes to the map's keys and changes no entry of any other node |
| Dijkstra.RunFromStarts | include/osr/dijkstra.h:53-92 | after `reset`, `add_start` of the labels and `run`, without wrap-around: each start's node reads at most its label's cost, and any other node reads `kInfeasible` unless it is recorded below `max` at the cost of a path from a start label |
| Dijkstra.LinePathCost | include/osr/dijkstra.h:82-85 | on the line A–B–C–D with unit costs, a path from A costs at least the index of the node it ends at |
| Dijkstra.LineReached | include/osr/dijkstra.h:82-85 | on that line, a cost reached from A at cost 0 is at least the node's index |
| Dijkstra.LineNoWrap | include/osr/dijkstra.h:84 | no edge of the line wraps the 32-bit sum |
| Dijkstra.LineFar | include/osr/dijkstra.h:73-92 | from A at cost 0 with `max = 2`, every node at index 2 or more stays `kInfeasible` |
| Dijkstra.LineNear | include/osr/dijkstra.h:73-92 | from A at cost 0 with `max = 2`, B is recorded at cost 1 |
| Dijkstra.LineCutOffFrom | include/osr/dijkstra.h:73-92 | from starts that are all A at cost 0 with `max = 2`: A reads 0, B reads 1, C and D read `kInfeasible` |
| Dijkstra.LineCutOff | include/osr/dijkstra.h:85 | the strict `total < max`: on A–B–C–D with unit costs, `reset`, `add_start(A, 0)` and `run` with `max = 2` leave C and D `kInfeasible` and B at 1 |
| Dijkstra.SeedAllFromReset | include/osr/dijkstra.h:53-64 | `reset` followed by `add_start` of the labels meets all three requirements of `ExploreShortest` for exactly those labels |
| Dijkstra.RelaxFromKeepsFinal | include/osr/dijkstra.h:82-90 | without wrap-around, relaxing edges from a cost no less than c neither lowers a node recorded at c nor queues a label below c |
| Dijkstra.StepKeepsFinal | include/osr/dijkstra.h:75-91 | without wrap-around, one iteration keeps a node recorded at c with no queued label below c in that state |
| Dijkstra.ExploreKeepsFinal | include/osr/dijkstra.h:73-92 | without wrap-around, such a node keeps cost c to the end of `run` |
| Dijkstra.PoppedFinal | include/osr/dijkstra.h:75-89 | monotonic finalization: without wrap-around, a label popped at its node's recorded cost keeps that cost through the rest of `run` |
| Dijkstra.WrapLowersPopped | include/osr/dijkstra.h:84-85 | with an edge cost of 2^32 - 2, node 1 popped at cost 6 lowers node 0 from 5 to the wrapped total 4 and queues it again |
| Dijkstra.SeedKeepsFrontier | include/osr/dijkstra.h:59-64 | `add_start` keeps the search invariant |
| Dijkstra.ResetEstablishesFrontier | include/osr/dijkstra.h:53-57 | the empty state after `reset` satisfies the invariant for every graph, direction and bound |
| Dijkstra.Search.constructor | include/osr/dijkstra.h:99-100 | a new search has an empty queue and an empty cost map |
| Dijkstra.Search.Reset | include/osr/dijkstra.h:53-57 | `reset(max)` empties the queue and the map and sets `max + 1` buckets. Afterwards every node reads `kInfeasible` |
| Dijkstra.Search.AddStart | include/osr/dijkstra.h:59-64 | it needs a valid node. The new state is `Seed` of the old: the label is pushed iff the start's cost strictly improves, and that cost becomes the minimum of the old and the new |
| Dijkstra.Search.GetCost | include/osr/dijkstra.h:66-69 | it returns the recorded entry's cost, or `kInfeasible` for a node never reached. It reads the state and changes nothing |
| Dijkstra.Search.Push | include/osr/dijkstra.h:71 | the queue gains exactly the label |
| Dijkstra.Search.RelaxEdges | include/osr/dijkstra.h:82-90 | the callback loop over a popped node's edges yields `RelaxFrom` of the old state |
| Dijkstra.Search.RunIn | include/osr/dijkstra.h:73-92 | `run<Dir>` yields `Explore` of the old state. It ends with an empty queue; recorded costs only tighten, and every entry it writes costs less than `max` |
| Dijkstra.Search.Run | include/osr/dijkstra.h:94-97 | the runtime-direction overload has exactly the effect of the template instance for that direction |
| Lookup.VisitOrderShape | include/osr/lookup.h:36-55 | forward visits `start, start+1, …, size-1`; backward visits `start, start-1, …, 0` |
| Lookup.VisitOrderInBounds | include/osr/lookup.h:36-55 | every index visited is within the collection |
| Lookup.WalkStopsAtBreak | include/osr/lookup.h:43-45 | once a callback returns `kBreak`, no later element is visited |
| Lookup.TillTheEnd | include/osr/lookup.h:36-55 | the final callback state is that of `Walk` over `VisitOrder(start, size, dir)` |
| Lookup.ClosestAmong | include/osr/lookup.h:59-76 | after n segments the result's distance is at most every segment's distance. It is `DBL_MAX` with segment 0 and a default point when no segment is closer. Otherwise it is the first segment of least distance, with its projection |
| Lookup.ClosestSegmentNonNegative | include/osr/lookup.h:59-76 | with non-negative geometric distances, the distance to the way lies between 0 and `DBL_MAX` |
| Lookup.DistanceToWay | include/osr/lookup.h:59-76 | the minimum over consecutive vertex pairs, with the first segment reaching it (strict `<`) and its projection. With fewer than 2 vertices the result is `DBL_MAX` and segment 0 |
| Lookup.Zip | include/osr/lookup.h:133 | pairs each polyline point with the OSM node at the same index |
| Lookup.Reversed | include/osr/lookup.h:150-152 | the reversed path's element k is the original's element size-1-k |
| Lookup.VisitedPrefix | include/osr/lookup.h:141-147 | the vertices the walk visits are a prefix of the visiting order |
| Lookup.VisitedPrefixStops | include/osr/lookup.h:141-147 | only the last visited vertex can have a graph node, and it has one iff a node is found. With no node found, the whole order is visited |
| Lookup.Points | include/osr/lookup.h:139 | one appended point per visited vertex |
| Lookup.PointsAt | include/osr/lookup.h:139 | the k-th appended point is the polyline vertex at the k-th visited index |
| Lookup.NonNegativePathLength | include/osr/lookup.h:136-137 | with non-negative distances, the accumulated length is non-negative |
| Lookup.VisitKeeps | include/osr/lookup.h:134-147 | one callback step appends the vertex and keeps distance equal to the path length and weight equal to the segment weights. It breaks, recording the node, exactly when the vertex has a graph node |
| Lookup.VisitStep | include/osr/lookup.h:139-146 | one callback step appends the vertex; it breaks with the found node exactly when there is one |
| Lookup.WalkOfVisitPath | include/osr/lookup.h:132-148 | the walk appends exactly the visited vertices to the path, in visiting order |
| Lookup.WalkOfVisitNode | include/osr/lookup.h:141-147 | the walk records the first graph node on its way, or keeps the node it started with |
| Lookup.WalkOfVisitMeasures | include/osr/lookup.h:136-138 | through the walk, the distance stays the path's length and the weight stays the start weight plus each walked segment's weight |
| Lookup.FindNextNode | include/osr/lookup.h:113-155 | the method's result is `NextNode` |
| Lookup.NextNodeShape | include/osr/lookup.h:119-155 | an infeasible edge direction gives the default candidate. Otherwise: the path is `[query, best]` plus the visited vertices, reversed unless in reverse mode; its length is 2 plus the visited count; the distance is the path length; the weight is the weight at 0 plus each segment's weight; the node is the first graph node found, or invalid |
| Lookup.NextNodeQueryEnd | include/osr/lookup.h:128-152 | in non-reverse mode the path ends with `best, query`; in reverse mode it starts with `query, best` |
| Lookup.NextNodeNonNegative | include/osr/lookup.h:125-137 | with non-negative geometric distances, the distance to the next node is non-negative |
| Lookup.NextNodeNode | include/osr/lookup.h:141-147 | the result's node is the first graph node the walk reaches if the edge is feasible, and invalid otherwise |
| Lookup.NextNodeValid | include/osr/lookup.h:14 | the node candidate is valid iff the edge is feasible and the first vertex on the walk with a graph node maps to a node other than the invalid one |
| Lookup.HitNodeFirst | include/osr/lookup.h:141-147 | the node found is n iff some visited vertex maps to n and no earlier one maps to any node |
| Lookup.Candidate | include/osr/lookup.h:95-107 | an emitted candidate has a feasible forward weight and a distance below 100. It carries its way, and the distance, point and segment of `distance_to_way` |
| Lookup.Candidates | include/osr/lookup.h:95-108 | the callback's outcome for each reported way, in report order |
| Lookup.SomesMembers | include/osr/lookup.h:100 | the collected vector holds exactly the candidates the callback emitted |
| Lookup.CollectMembers | include/osr/lookup.h:95-107 | a candidate is collected iff it is the emitted candidate of some reported way |
| Lookup.CandidateSides | include/osr/lookup.h:96-106 | a candidate is emitted iff the forward weight is feasible and the distance is below 100. Its `left_` is `find_next_node` backward and its `right_` is `find_next_node` forward |
| Lookup.CollectNear | include/osr/lookup.h:99 | every collected candidate is closer than 100 |
| Lookup.InsertByDistance | include/osr/lookup.h:109 | insertion adds exactly the element (as a multiset) |
| Lookup.InsertKeepsSorted | include/osr/lookup.h:23-25 | inserting into a sequence sorted by `operator<` keeps it sorted |
| Lookup.SortByDistance | include/osr/lookup.h:109 | the sort's result is ascending by distance and a permutation of its input |
| Lookup.MatchWay | include/osr/lookup.h:95-107 | the callback's result for one way is `Candidate` |
| Lookup.CollectWays | include/osr/lookup.h:94-108 | the vector built through the spatial index is the emitted candidates, in report order |
| Lookup.Match | include/osr/lookup.h:90-111 | the result is a permutation of the collected candidates, sorted ascending by distance, each closer than 100 |
| MultiCounting.Resized | include/osr/util/multi_counter.h:15-16 | growing keeps every bit, and the added bits read false |
| MultiCounting.IncrementedSize | include/osr/util/multi_counter.h:15-16 | after `increment(i)` the size is `max(size, i + 1)`, so at least `i + 1`, and it never shrinks |
| MultiCounting.IncrementedFirst | include/osr/util/multi_counter.h:21-22 | the first increment of i sets `once_[i]` and leaves `is_multi(i)` false |
| MultiCounting.IncrementedAgain | include/osr/util/multi_counter.h:17-20 | incrementing an index already seen once makes `is_multi(i)` true |
| MultiCounting.IncrementedSaturates | include/osr/util/multi_counter.h:17-20 | once both bits of i are set, a further increment changes nothing |
| MultiCounting.IncrementedFrame | include/osr/util/multi_counter.h:14-24 | no bit at an index other than i changes; indices added by the resize read false |
| MultiCounting.IncrementedConsistent | include/osr/util/multi_counter.h:15-23 | equal sizes and "`multi_[j]` implies `once_[j]`" are preserved |
| MultiCounting.IncrementedLevel | include/osr/util/multi_counter.h:14-24 | on a consistent counter, `increment(i)` adds one to i's count, saturating at two, and leaves every other count alone |
| MultiCounting.MultiCounter.constructor | include/osr/util/multi_counter.h:33 | a new counter is empty and consistent |
| MultiCounting.MultiCounter.Increment | include/osr/util/multi_counter.h:14-24 | the new bit vectors are `Incremented` of the old ones. Consistency is kept, and `size() >= i + 1` without shrinking |
| MultiCounting.MultiCounter.Reserve | include/osr/util/multi_counter.h:28-31 | each vector reserves at least `size / 64` blocks; `size()` and every bit stay unchanged |

`node_candidate::valid` is `NodeCandidate.Valid` and `way_candidate::operator<` is `Less`. `multi_counter::is_multi` and `size` are the functions `IsMulti` and `Size` of `MultiCounter`. Their meaning is carried by the lemmas above.

## Left out

- `exe/benchmark.cc` is not part of this model: it is command-line, file, thread and timing code.
- `include/osr/to_geojson.h` is not part of this model: it only declares a rendering function.
- The `lookup` constructor and destructor, `insert`, both `find` overloads and the `rtree` library are not modelled. They are foreign C calls and box arithmetic on doubles. The ways the index reports for a query are the `candidates` parameter of `Match`.
- `get_match` always returns an empty vector and is not modelled; `to_str` is a string switch and is not modelled.
- `geo::closest_on_segment`, `geo::distance`, `ways::find_node_idx`, the weight functions and `Profile::adjacent` are function parameters. Their own behaviour is not modelled, because none of them is part of this core.
- Lookup.DistanceToWay: distances are `real`, so double rounding and NaN are not modelled.
- Lookup.Visit: distances are `real`, so double rounding is not modelled.
- Lookup.NodeCandidate: `weight_` is an unbounded `nat`, because the width of `dist_t` is not part of this model; overflow of the accumulated weight is not modelled.
- Lookup.TillTheEnd: the 32-bit counter `auto j = 0U` of the backward loop is modelled as unbounded. A start index of 2^32 - 1 or more would make the real loop run forever; this is not modelled.
- Lookup.DistanceToWay: the 32-bit `segment_idx` counters are modelled as unbounded; a polyline with 2^32 or more segments is not modelled.
- Dijkstra.MinLabel: the dial bucket queue (`osr/dial.h`) is not part of this model. Pop returns a label of least cost, with ties broken by node id. The real queue's order among equal costs is not modelled.
- Dijkstra.Search: the profile's node is its node index, and `entry::update` is "replace and report when strictly cheaper". Neither is part of this model.
- Dijkstra.Search.Reset: the dial queue's bucket storage is only a bucket count.
- Dijkstra.ExploreShortest: the soundness half, and monotonic finalization (`PoppedFinal`), assume `NoWrap`, every edge cost at most 2^32 - 1 - 0xFFFF. With larger edge costs, `l.cost() + cost` wraps and a wrapped total below `max` is recorded (`WrapLowersPopped`). Such a total is no path cost, and it can lower a node that was already popped, so shortest paths are not promised then. Completeness needs no such assumption.
- Dijkstra.Search.RunIn: requires every edge the profile reports to have a valid neighbour. The source asserts this only for an edge whose `update` succeeds (include/osr/dijkstra.h:87); the model assumes the profile never reports the invalid node.
- Lookup.Match: `utl::sort` and `std::reverse` work in place on the vector; the model sorts and reverses values. `std::sort` is not stable, so the order among equal distances is not fixed; `Match` promises only a sorted permutation.
- MultiCounting.MultiCounter.Reserve: the reserved capacity is modelled as at least `size / 64` blocks (floor division, as written). The extra capacity a `resize` allocates is not modelled.
- MultiCounting.MultiCounter.Increment: `i + 1U` on a 64-bit `size_type` would wrap for `i == 2^64 - 1`; this is not modelled.
- Concurrency: none of the three pieces uses threads; none is modelled.
