/**
 * Search directions and the bucket-queue Dijkstra search state of the router
 * (include/osr/dijkstra.h).
 *
 * The profile is reduced to an adjacency function that lists, for a search
 * direction and a node, the outgoing edges with their 32-bit costs.  The dial
 * bucket queue is a multiset whose pop returns a label of minimal cost (ties
 * broken by node id, so that one run is a function of the state it starts in),
 * and the hash map from node to best entry is a Dafny map.
 */
module Dijkstra {

  type u16 = x: int | 0 <= x < 0x1_0000
  type u32 = x: int | 0 <= x < 0x1_0000_0000

  /** cost_t */
  type Cost = u16
  /** node_idx_t */
  type NodeIdx = u32

  /** The largest cost_t marks "not reached" / "not passable". */
  const kInfeasible: Cost := 0xFFFF
  /** node_idx_t::invalid() */
  const kInvalidNode: NodeIdx := 0xFFFF_FFFF
  /** Number of distinct node ids. */
  const kNodeIds: nat := 0x1_0000_0000

  // ---------------------------------------------------------------------
  // Directions
  // ---------------------------------------------------------------------

  datatype Direction = Forward | Backward

  function Opposite(d: Direction): (r: Direction)
    ensures r != d
  {
    if d == Forward then Backward else Forward
  }

  /** flip<Base>(d): d itself relative to a forward base, its opposite otherwise. */
  function Flip(base: Direction, d: Direction): (r: Direction)
    ensures (r == d) <==> (base == Forward)
  {
    if base == Forward then d else Opposite(d)
  }

  lemma OppositeInvolutive(d: Direction)
    ensures Opposite(Opposite(d)) == d
    ensures Opposite(d) != d
  {
  }

  lemma FlipCases(d: Direction)
    ensures Flip(Forward, d) == d
    ensures Flip(Backward, d) == Opposite(d)
    ensures Flip(Backward, Flip(Backward, d)) == d
  {
  }

  // ---------------------------------------------------------------------
  // Labels, entries, the profile's adjacency
  // ---------------------------------------------------------------------

  /** A queued label: a node and the cost with which it was reached. */
  datatype Label = Label(node: NodeIdx, cost: Cost)

  /** The best known cost of a node and the node it was reached from. */
  datatype Entry = Entry(cost: Cost, pred: NodeIdx)

  /** A default-constructed entry reads as infeasible. */
  const kDefaultEntry: Entry := Entry(kInfeasible, kInvalidNode)

  /** One edge produced by the profile's adjacency enumeration. */
  datatype Edge = Edge(neighbor: NodeIdx, cost: u32)

  /** Profile::adjacent<Dir>(ways, node, callback), for the graph at hand. */
  type Adjacency = (Direction, NodeIdx) -> seq<Edge>

  /** The profile never reports an edge to the invalid node. */
  ghost predicate NeighborsValid(adj: Adjacency, dir: Direction)
  {
    forall n: NodeIdx, i :: 0 <= i < |adj(dir, n)| ==> adj(dir, n)[i].neighbor != kInvalidNode
  }

  /** The search state: the queue pq_ and the map cost_. */
  datatype SearchState = SearchState(pq: multiset<Label>, cost: map<NodeIdx, Entry>)

  const kEmpty: SearchState := SearchState(multiset{}, map[])

  /** What get_cost reads for a node from a cost map. */
  function CostIn(cost: map<NodeIdx, Entry>, n: NodeIdx): (c: Cost)
    ensures n !in cost ==> c == kInfeasible
    ensures n in cost ==> c == cost[n].cost
  {
    if n in cost then cost[n].cost else kInfeasible
  }

  // ---------------------------------------------------------------------
  // The bucket queue: pop returns a minimal label
  // ---------------------------------------------------------------------

  predicate LabelLeq(a: Label, b: Label)
  {
    a.cost < b.cost || (a.cost == b.cost && a.node <= b.node)
  }

  predicate IsLeast(l: Label, q: multiset<Label>)
  {
    l in q && forall m :: m in q ==> LabelLeq(l, m)
  }

  lemma {:induction false} LeastExists(q: multiset<Label>)
    requires q != multiset{}
    ensures exists l :: IsLeast(l, q)
    decreases |q|
  {
    var x :| x in q;
    var rest := q[x := 0];
    assert forall m :: m in q ==> m == x || m in rest;
    if rest == multiset{} {
      assert IsLeast(x, q);
    } else {
      LeastExists(rest);
      var y :| IsLeast(y, rest);
      if LabelLeq(x, y) {
        assert IsLeast(x, q);
      } else {
        assert IsLeast(y, q);
      }
    }
  }

  /** The label the dial queue pops: one of minimal cost. */
  function MinLabel(q: multiset<Label>): (l: Label)
    requires q != multiset{}
    ensures l in q
    ensures forall m :: m in q ==> l.cost <= m.cost
  {
    LeastExists(q);
    var l :| IsLeast(l, q);
    l
  }

  // ---------------------------------------------------------------------
  // add_start, one relaxation, one iteration of run, run
  // ---------------------------------------------------------------------

  /**
   * add_start(l): cost_[node] default-constructs a missing entry; update
   * replaces it exactly when l's cost is strictly smaller, and only then is l
   * pushed.
   */
  function Seed(s: SearchState, l: Label): (r: SearchState)
  {
    var e := if l.node in s.cost then s.cost[l.node] else kDefaultEntry;
    if l.cost < e.cost then
      SearchState(s.pq + multiset{l}, s.cost[l.node := Entry(l.cost, kInvalidNode)])
    else
      SearchState(s.pq, s.cost[l.node := e])
  }

  /** `l.cost() + cost`: a cost_t plus a uint32_t is summed in 32-bit unsigned arithmetic. */
  function Total(labelCost: Cost, edgeCost: u32): (t: u32)
  {
    (labelCost + edgeCost) % 0x1_0000_0000
  }

  /** The callback of run for one edge of the node curr popped with cost lcost. */
  function Relax(s: SearchState, curr: NodeIdx, lcost: Cost, e: Edge, max: Cost): (r: SearchState)
  {
    var total := Total(lcost, e.cost);
    if total < max && total < CostIn(s.cost, e.neighbor) then
      // total < max <= 0xFFFF, so static_cast<cost_t>(total) keeps its value
      SearchState(s.pq + multiset{Label(e.neighbor, total)}, s.cost[e.neighbor := Entry(total, curr)])
    else
      s
  }

  /** The callback applied to edges[i..] in order. */
  function RelaxFrom(s: SearchState, curr: NodeIdx, lcost: Cost, edges: seq<Edge>, i: nat, max: Cost): (r: SearchState)
    requires i <= |edges|
    decreases |edges| - i
  {
    if i == |edges| then s
    else RelaxFrom(Relax(s, curr, lcost, edges[i], max), curr, lcost, edges, i + 1, max)
  }

  /** A label is stale when the recorded cost of its node is strictly smaller. */
  predicate Stale(s: SearchState, l: Label)
  {
    CostIn(s.cost, l.node) < l.cost
  }

  /** One iteration of the loop of run. */
  function Step(adj: Adjacency, dir: Direction, max: Cost, s: SearchState): (r: SearchState)
    requires s.pq != multiset{}
  {
    var l := MinLabel(s.pq);
    var popped := SearchState(s.pq - multiset{l}, s.cost);
    if Stale(s, l) then popped
    else RelaxFrom(popped, l.node, l.cost, adj(dir, l.node), 0, max)
  }

  /** run<Dir>(w, max): iterate Step until the queue is empty. */
  function Explore(adj: Adjacency, dir: Direction, max: Cost, s: SearchState): (r: SearchState)
    decreases Potential(s.cost), |s.pq|
  {
    if s.pq == multiset{} then s
    else
      StepDecreases(adj, dir, max, s);
      Explore(adj, dir, max, Step(adj, dir, max, s))
  }

  // ---------------------------------------------------------------------
  // Termination: the sum of recorded costs over all node ids
  // ---------------------------------------------------------------------

  ghost function PotentialBelow(cost: map<NodeIdx, Entry>, k: nat): (p: nat)
    requires k <= kNodeIds
  {
    if k == 0 then 0 else PotentialBelow(cost, k - 1) + CostIn(cost, k - 1)
  }

  ghost function Potential(cost: map<NodeIdx, Entry>): (p: nat)
  {
    PotentialBelow(cost, kNodeIds)
  }

  lemma {:induction false} PotentialBelowUpdate(cost: map<NodeIdx, Entry>, n: NodeIdx, e: Entry, k: nat)
    requires k <= kNodeIds
    ensures n < k ==> PotentialBelow(cost[n := e], k) == PotentialBelow(cost, k) - CostIn(cost, n) + e.cost
    ensures k <= n ==> PotentialBelow(cost[n := e], k) == PotentialBelow(cost, k)
  {
    if k > 0 {
      PotentialBelowUpdate(cost, n, e, k - 1);
    }
  }

  /** Lowering the entry of one node lowers the potential by exactly the difference. */
  lemma PotentialUpdate(cost: map<NodeIdx, Entry>, n: NodeIdx, e: Entry)
    ensures Potential(cost[n := e]) == Potential(cost) - CostIn(cost, n) + e.cost
  {
    PotentialBelowUpdate(cost, n, e, kNodeIds);
  }

  lemma RelaxSpends(s: SearchState, curr: NodeIdx, lcost: Cost, e: Edge, max: Cost)
    ensures var r := Relax(s, curr, lcost, e, max);
      Potential(r.cost) + |r.pq| <= Potential(s.cost) + |s.pq| && Potential(r.cost) <= Potential(s.cost)
  {
    var total := Total(lcost, e.cost);
    if total < max && total < CostIn(s.cost, e.neighbor) {
      PotentialUpdate(s.cost, e.neighbor, Entry(total, curr));
    }
  }

  lemma {:induction false} RelaxFromSpends(s: SearchState, curr: NodeIdx, lcost: Cost, edges: seq<Edge>, i: nat, max: Cost)
    requires i <= |edges|
    ensures var r := RelaxFrom(s, curr, lcost, edges, i, max);
      Potential(r.cost) + |r.pq| <= Potential(s.cost) + |s.pq| && Potential(r.cost) <= Potential(s.cost)
    decreases |edges| - i
  {
    if i < |edges| {
      RelaxSpends(s, curr, lcost, edges[i], max);
      RelaxFromSpends(Relax(s, curr, lcost, edges[i], max), curr, lcost, edges, i + 1, max);
    }
  }

  /** Every iteration of run lowers the potential, or keeps it and shortens the queue. */
  lemma StepDecreases(adj: Adjacency, dir: Direction, max: Cost, s: SearchState)
    requires s.pq != multiset{}
    ensures var r := Step(adj, dir, max, s);
      Potential(r.cost) < Potential(s.cost) ||
      (Potential(r.cost) == Potential(s.cost) && |r.pq| < |s.pq|)
  {
    var l := MinLabel(s.pq);
    var popped := SearchState(s.pq - multiset{l}, s.cost);
    assert |popped.pq| == |s.pq| - 1;
    if !Stale(s, l) {
      RelaxFromSpends(popped, l.node, l.cost, adj(dir, l.node), 0, max);
    }
  }

  // ---------------------------------------------------------------------
  // What a relaxation and a run promise
  // ---------------------------------------------------------------------

  /** Recorded costs only tighten from s to r, and no node is forgotten. */
  ghost predicate Tightens(s: map<NodeIdx, Entry>, r: map<NodeIdx, Entry>)
  {
    s.Keys <= r.Keys && forall n: NodeIdx :: CostIn(r, n) <= CostIn(s, n)
  }

  /** Every entry of r that is not already in s records a cost below max. */
  ghost predicate WritesBelow(s: map<NodeIdx, Entry>, r: map<NodeIdx, Entry>, max: Cost)
  {
    forall n :: n in r ==> (n in s && r[n] == s[n]) || r[n].cost < max
  }

  /** r's queue holds s's labels plus labels of cost below max only. */
  ghost predicate PushesBelow(s: multiset<Label>, r: multiset<Label>, max: Cost)
  {
    s <= r && forall l :: r[l] > s[l] ==> l.cost < max
  }

  lemma {:induction false} RelaxFromEffect(s: SearchState, curr: NodeIdx, lcost: Cost, edges: seq<Edge>, i: nat, max: Cost)
    requires i <= |edges|
    ensures var r := RelaxFrom(s, curr, lcost, edges, i, max);
      Tightens(s.cost, r.cost) && WritesBelow(s.cost, r.cost, max) && PushesBelow(s.pq, r.pq, max)
    decreases |edges| - i
  {
    if i < |edges| {
      var s1 := Relax(s, curr, lcost, edges[i], max);
      RelaxFromEffect(s1, curr, lcost, edges, i + 1, max);
      var r := RelaxFrom(s1, curr, lcost, edges, i + 1, max);
      assert WritesBelow(s.cost, r.cost, max) by {
        forall n | n in r.cost ensures (n in s.cost && r.cost[n] == s.cost[n]) || r.cost[n].cost < max {
          if !(n in s1.cost && r.cost[n] == s1.cost[n]) {
          } else if n in s.cost && s1.cost[n] == s.cost[n] {
          }
        }
      }
      assert PushesBelow(s.pq, r.pq, max) by {
        forall l | r.pq[l] > s.pq[l] ensures l.cost < max {
          if r.pq[l] <= s1.pq[l] {
            assert s1.pq[l] > s.pq[l];
          }
        }
      }
      assert Tightens(s.cost, r.cost) by {
        forall n: NodeIdx ensures CostIn(r.cost, n) <= CostIn(s.cost, n) {
          assert CostIn(r.cost, n) <= CostIn(s1.cost, n);
        }
      }
    }
  }

  /** Every label r's queue gains costs strictly less than its node's recorded cost in s. */
  ghost predicate PushesImproving(s: SearchState, r: SearchState)
  {
    forall l :: r.pq[l] > s.pq[l] ==> l.cost < CostIn(s.cost, l.node)
  }

  /** Every entry that differs from s in r has a strictly lower cost than in s. */
  ghost predicate WritesImproving(s: map<NodeIdx, Entry>, r: map<NodeIdx, Entry>)
  {
    forall n :: n in r && !(n in s && r[n] == s[n]) ==> CostIn(r, n) < CostIn(s, n)
  }

  /** Relaxing a node's edges writes an entry and pushes a label only where the cost strictly improves. */
  lemma {:induction false} RelaxFromImproves(s: SearchState, curr: NodeIdx, lcost: Cost, edges: seq<Edge>, i: nat, max: Cost)
    requires i <= |edges|
    ensures var r := RelaxFrom(s, curr, lcost, edges, i, max);
      PushesImproving(s, r) && WritesImproving(s.cost, r.cost)
    decreases |edges| - i
  {
    if i < |edges| {
      var e := edges[i];
      var s1 := Relax(s, curr, lcost, e, max);
      RelaxMonotone(s, curr, lcost, e, max);
      RelaxFromImproves(s1, curr, lcost, edges, i + 1, max);
      RelaxFromEffect(s1, curr, lcost, edges, i + 1, max);
      var r := RelaxFrom(s1, curr, lcost, edges, i + 1, max);
      assert PushesImproving(s, r) by {
        forall l | r.pq[l] > s.pq[l] ensures l.cost < CostIn(s.cost, l.node) {
          if r.pq[l] > s1.pq[l] {
            assert l.cost < CostIn(s1.cost, l.node);
          } else {
            assert s1.pq[l] > s.pq[l];
            assert l == Label(e.neighbor, CostIn(s1.cost, e.neighbor));
          }
        }
      }
      assert WritesImproving(s.cost, r.cost) by {
        forall n | n in r.cost && !(n in s.cost && r.cost[n] == s.cost[n])
          ensures CostIn(r.cost, n) < CostIn(s.cost, n)
        {
          if n in s1.cost && r.cost[n] == s1.cost[n] {
            assert n == e.neighbor;
            assert s1.cost != s.cost;
          } else {
            assert CostIn(r.cost, n) < CostIn(s1.cost, n);
          }
        }
      }
    }
  }

  /**
   * One iteration: the popped label is a minimal one; a stale label is
   * dropped without visiting any neighbour; otherwise the neighbours only
   * tighten their costs, an entry is written and a label pushed only where
   * the cost strictly improves, and every label pushed costs less than max.
   */
  lemma StepEffect(adj: Adjacency, dir: Direction, max: Cost, s: SearchState)
    requires s.pq != multiset{}
    ensures var l := MinLabel(s.pq); var r := Step(adj, dir, max, s);
      var popped := SearchState(s.pq - multiset{l}, s.cost);
      (forall m :: m in s.pq ==> l.cost <= m.cost) &&
      (Stale(s, l) ==> r == popped) &&
      Tightens(s.cost, r.cost) && WritesBelow(s.cost, r.cost, max) &&
      PushesBelow(popped.pq, r.pq, max) &&
      PushesImproving(popped, r) && WritesImproving(s.cost, r.cost)
  {
    var l := MinLabel(s.pq);
    var popped := SearchState(s.pq - multiset{l}, s.cost);
    if !Stale(s, l) {
      RelaxFromEffect(popped, l.node, l.cost, adj(dir, l.node), 0, max);
      RelaxFromImproves(popped, l.node, l.cost, adj(dir, l.node), 0, max);
    }
  }

  /** run returns only with an empty queue. */
  lemma {:induction false} ExploreDrains(adj: Adjacency, dir: Direction, max: Cost, s: SearchState)
    ensures Explore(adj, dir, max, s).pq == multiset{}
    decreases Potential(s.cost), |s.pq|
  {
    if s.pq != multiset{} {
      StepDecreases(adj, dir, max, s);
      ExploreDrains(adj, dir, max, Step(adj, dir, max, s));
    }
  }

  /**
   * During run recorded costs never increase, no node is dropped, and every
   * entry run writes has a cost below max.
   */
  lemma {:induction false} ExploreTightens(adj: Adjacency, dir: Direction, max: Cost, s: SearchState)
    ensures var r := Explore(adj, dir, max, s);
      Tightens(s.cost, r.cost) && WritesBelow(s.cost, r.cost, max)
    decreases Potential(s.cost), |s.pq|
  {
    if s.pq != multiset{} {
      var s1 := Step(adj, dir, max, s);
      StepDecreases(adj, dir, max, s);
      StepEffect(adj, dir, max, s);
      ExploreTightens(adj, dir, max, s1);
      var r := Explore(adj, dir, max, s1);
      assert Tightens(s.cost, r.cost) by {
        forall n: NodeIdx ensures CostIn(r.cost, n) <= CostIn(s.cost, n) {
          assert CostIn(r.cost, n) <= CostIn(s1.cost, n);
        }
      }
      assert WritesBelow(s.cost, r.cost, max) by {
        forall n | n in r.cost ensures (n in s.cost && r.cost[n] == s.cost[n]) || r.cost[n].cost < max {
          if !(n in s1.cost && r.cost[n] == s1.cost[n]) {
          } else if n in s.cost && s1.cost[n] == s.cost[n] {
          }
        }
      }
    }
  }

  /** When the profile never yields the invalid node, run never records it. */
  lemma {:induction false} ExploreKeepsInvalidOut(adj: Adjacency, dir: Direction, max: Cost, s: SearchState)
    requires NeighborsValid(adj, dir)
    requires kInvalidNode !in s.cost
    ensures kInvalidNode !in Explore(adj, dir, max, s).cost
    decreases Potential(s.cost), |s.pq|
  {
    if s.pq != multiset{} {
      StepDecreases(adj, dir, max, s);
      var l := MinLabel(s.pq);
      if !Stale(s, l) {
        RelaxFromKeepsInvalidOut(adj, dir, SearchState(s.pq - multiset{l}, s.cost), l.node, l.cost, 0, max);
      }
      ExploreKeepsInvalidOut(adj, dir, max, Step(adj, dir, max, s));
    }
  }

  lemma {:induction false} RelaxFromKeepsInvalidOut(adj: Adjacency, dir: Direction, s: SearchState, curr: NodeIdx, lcost: Cost, i: nat, max: Cost)
    requires NeighborsValid(adj, dir)
    requires i <= |adj(dir, curr)|
    requires kInvalidNode !in s.cost
    ensures kInvalidNode !in RelaxFrom(s, curr, lcost, adj(dir, curr), i, max).cost
    decreases |adj(dir, curr)| - i
  {
    if i < |adj(dir, curr)| {
      assert adj(dir, curr)[i].neighbor != kInvalidNode;
      RelaxFromKeepsInvalidOut(adj, dir, Relax(s, curr, lcost, adj(dir, curr)[i], max), curr, lcost, i + 1, max);
    }
  }

  // ---------------------------------------------------------------------
  // Local optimality: after run no edge can still improve a neighbour
  // ---------------------------------------------------------------------

  /** Every edge out of u, taken from the cost lcost, fails the relaxation test of run. */
  ghost predicate EdgesRelaxedFrom(adj: Adjacency, dir: Direction, max: Cost, cost: map<NodeIdx, Entry>, u: NodeIdx, lcost: Cost, k: nat)
    requires k <= |adj(dir, u)|
  {
    forall i :: 0 <= i < k ==>
      var e := adj(dir, u)[i];
      Total(lcost, e.cost) >= max || CostIn(cost, e.neighbor) <= Total(lcost, e.cost)
  }

  ghost predicate EdgesRelaxed(adj: Adjacency, dir: Direction, max: Cost, cost: map<NodeIdx, Entry>, u: NodeIdx)
    requires u in cost
  {
    EdgesRelaxedFrom(adj, dir, max, cost, u, cost[u].cost, |adj(dir, u)|)
  }

  /** A recorded node is infeasible, still queued with its recorded cost, or done. */
  ghost predicate Settled(adj: Adjacency, dir: Direction, max: Cost, s: SearchState, u: NodeIdx)
    requires u in s.cost
  {
    s.cost[u].cost == kInfeasible || Label(u, s.cost[u].cost) in s.pq || EdgesRelaxed(adj, dir, max, s.cost, u)
  }

  /** No queued label is cheaper than its node's recorded cost. */
  ghost predicate LabelsNotBelow(s: SearchState)
  {
    forall l :: l in s.pq ==> CostIn(s.cost, l.node) <= l.cost
  }

  /** The invariant of the search between operations. */
  ghost predicate Frontier(adj: Adjacency, dir: Direction, max: Cost, s: SearchState)
  {
    LabelsNotBelow(s) && forall u :: u in s.cost ==> Settled(adj, dir, max, s, u)
  }

  /** Frontier of every node but u, which was popped with cost lcost and has its first k edges relaxed. */
  ghost predicate FrontierDuring(adj: Adjacency, dir: Direction, max: Cost, s: SearchState, u: NodeIdx, lcost: Cost, k: nat)
    requires k <= |adj(dir, u)|
  {
    && LabelsNotBelow(s)
    && (forall v :: v in s.cost && v != u ==> Settled(adj, dir, max, s, v))
    && (u in s.cost && s.cost[u].cost != kInfeasible ==>
         Label(u, s.cost[u].cost) in s.pq ||
         (s.cost[u].cost == lcost && EdgesRelaxedFrom(adj, dir, max, s.cost, u, lcost, k)))
  }

  /**
   * A relaxation only lowers recorded costs and touches no entry but the
   * neighbour's; it changes the map only by strictly lowering the neighbour's
   * cost, and then pushes exactly the neighbour's label at that new cost.
   */
  lemma RelaxMonotone(s: SearchState, u: NodeIdx, lcost: Cost, e: Edge, max: Cost)
    ensures var r := Relax(s, u, lcost, e, max);
      && (forall n :: CostIn(r.cost, n) <= CostIn(s.cost, n))
      && s.pq <= r.pq
      && (forall v :: v in s.cost ==> v in r.cost)
      && (forall v :: v != e.neighbor && v in r.cost ==> v in s.cost && r.cost[v] == s.cost[v])
      && (r.cost != s.cost ==> CostIn(r.cost, e.neighbor) < CostIn(s.cost, e.neighbor))
      && (r.pq == s.pq ||
          (r.pq == s.pq + multiset{Label(e.neighbor, CostIn(r.cost, e.neighbor))} &&
           CostIn(r.cost, e.neighbor) < CostIn(s.cost, e.neighbor)))
  {
  }

  lemma RelaxKeepsLabels(s: SearchState, u: NodeIdx, lcost: Cost, e: Edge, max: Cost)
    requires LabelsNotBelow(s)
    ensures LabelsNotBelow(Relax(s, u, lcost, e, max))
  {
    var r := Relax(s, u, lcost, e, max);
    RelaxMonotone(s, u, lcost, e, max);
    forall l | l in r.pq ensures CostIn(r.cost, l.node) <= l.cost {
      if l !in s.pq {
        assert l == Label(e.neighbor, Total(lcost, e.cost));
      }
    }
  }

  /** A node settled before a relaxation is settled after it; the improved neighbour is settled by its new label. */
  lemma RelaxKeepsSettled(adj: Adjacency, dir: Direction, max: Cost, s: SearchState, u: NodeIdx, lcost: Cost, e: Edge, v: NodeIdx)
    requires v in s.cost ==> Settled(adj, dir, max, s, v)
    ensures var r := Relax(s, u, lcost, e, max);
      v in r.cost ==> Settled(adj, dir, max, r, v)
  {
    var r := Relax(s, u, lcost, e, max);
    RelaxMonotone(s, u, lcost, e, max);
    if v in r.cost && v != e.neighbor && r != s {
      if Label(v, s.cost[v].cost) !in s.pq && s.cost[v].cost != kInfeasible {
        forall i | 0 <= i < |adj(dir, v)|
          ensures var e' := adj(dir, v)[i];
            Total(r.cost[v].cost, e'.cost) >= max || CostIn(r.cost, e'.neighbor) <= Total(r.cost[v].cost, e'.cost)
        {
          assert CostIn(r.cost, adj(dir, v)[i].neighbor) <= CostIn(s.cost, adj(dir, v)[i].neighbor);
        }
      }
    }
  }

  /** Relaxing edge k of the popped node u extends its relaxed prefix to k + 1 edges. */
  lemma RelaxKeepsCurrent(adj: Adjacency, dir: Direction, max: Cost, s: SearchState, u: NodeIdx, lcost: Cost, k: nat)
    requires k < |adj(dir, u)|
    requires u in s.cost && s.cost[u].cost != kInfeasible ==>
      Label(u, s.cost[u].cost) in s.pq || (s.cost[u].cost == lcost && EdgesRelaxedFrom(adj, dir, max, s.cost, u, lcost, k))
    ensures var r := Relax(s, u, lcost, adj(dir, u)[k], max);
      u in r.cost && r.cost[u].cost != kInfeasible ==>
        Label(u, r.cost[u].cost) in r.pq || (r.cost[u].cost == lcost && EdgesRelaxedFrom(adj, dir, max, r.cost, u, lcost, k + 1))
  {
    var e := adj(dir, u)[k];
    var r := Relax(s, u, lcost, e, max);
    RelaxMonotone(s, u, lcost, e, max);
    if u in r.cost && r.cost[u].cost != kInfeasible && Label(u, r.cost[u].cost) !in r.pq {
      assert r.cost[u] == s.cost[u];
      forall i | 0 <= i < k + 1
        ensures var e' := adj(dir, u)[i];
          Total(lcost, e'.cost) >= max || CostIn(r.cost, e'.neighbor) <= Total(lcost, e'.cost)
      {
        if i < k {
          assert CostIn(r.cost, adj(dir, u)[i].neighbor) <= CostIn(s.cost, adj(dir, u)[i].neighbor);
        }
      }
    }
  }

  lemma RelaxKeepsDuring(adj: Adjacency, dir: Direction, max: Cost, s: SearchState, u: NodeIdx, lcost: Cost, k: nat)
    requires k < |adj(dir, u)|
    requires FrontierDuring(adj, dir, max, s, u, lcost, k)
    ensures FrontierDuring(adj, dir, max, Relax(s, u, lcost, adj(dir, u)[k], max), u, lcost, k + 1)
  {
    var e := adj(dir, u)[k];
    var r := Relax(s, u, lcost, e, max);
    RelaxKeepsLabels(s, u, lcost, e, max);
    forall v | v in r.cost && v != u ensures Settled(adj, dir, max, r, v) {
      RelaxKeepsSettled(adj, dir, max, s, u, lcost, e, v);
    }
    RelaxKeepsCurrent(adj, dir, max, s, u, lcost, k);
  }

  lemma {:induction false} RelaxFromKeepsDuring(adj: Adjacency, dir: Direction, max: Cost, s: SearchState, u: NodeIdx, lcost: Cost, k: nat)
    requires k <= |adj(dir, u)|
    requires FrontierDuring(adj, dir, max, s, u, lcost, k)
    ensures FrontierDuring(adj, dir, max, RelaxFrom(s, u, lcost, adj(dir, u), k, max), u, lcost, |adj(dir, u)|)
    decreases |adj(dir, u)| - k
  {
    if k < |adj(dir, u)| {
      RelaxKeepsDuring(adj, dir, max, s, u, lcost, k);
      RelaxFromKeepsDuring(adj, dir, max, Relax(s, u, lcost, adj(dir, u)[k], max), u, lcost, k + 1);
    }
  }

  lemma StepKeepsFrontier(adj: Adjacency, dir: Direction, max: Cost, s: SearchState)
    requires s.pq != multiset{}
    requires Frontier(adj, dir, max, s)
    ensures Frontier(adj, dir, max, Step(adj, dir, max, s))
  {
    var l := MinLabel(s.pq);
    var popped := SearchState(s.pq - multiset{l}, s.cost);
    var u := l.node;
    assert LabelsNotBelow(popped) by {
      forall m | m in popped.pq ensures CostIn(popped.cost, m.node) <= m.cost {
        assert m in s.pq;
      }
    }
    if Stale(s, l) {
      forall v | v in popped.cost ensures Settled(adj, dir, max, popped, v) {
        assert Settled(adj, dir, max, s, v);
        if Label(v, s.cost[v].cost) in s.pq {
          assert Label(v, s.cost[v].cost) != l;
          assert Label(v, s.cost[v].cost) in popped.pq;
        }
      }
    } else {
      assert CostIn(s.cost, u) == l.cost;
      forall v | v in popped.cost && v != u ensures Settled(adj, dir, max, popped, v) {
        assert Settled(adj, dir, max, s, v);
        if Label(v, s.cost[v].cost) in s.pq {
          assert Label(v, s.cost[v].cost) != l;
          assert Label(v, s.cost[v].cost) in popped.pq;
        }
      }
      assert FrontierDuring(adj, dir, max, popped, u, l.cost, 0);
      RelaxFromKeepsDuring(adj, dir, max, popped, u, l.cost, 0);
      var r := Step(adj, dir, max, s);
      assert r == RelaxFrom(popped, u, l.cost, adj(dir, u), 0, max);
      forall v | v in r.cost ensures Settled(adj, dir, max, r, v) {
        if v == u && r.cost[u].cost != kInfeasible && Label(u, r.cost[u].cost) !in r.pq {
          assert EdgesRelaxed(adj, dir, max, r.cost, u);
        }
      }
    }
  }

  /**
   * If the invariant holds when run starts, then when it returns every node
   * with a feasible recorded cost has all its edges relaxed: no edge can
   * improve a neighbour within max any more.
   */
  lemma {:induction false} ExploreRelaxesAll(adj: Adjacency, dir: Direction, max: Cost, s: SearchState)
    requires Frontier(adj, dir, max, s)
    ensures var r := Explore(adj, dir, max, s);
      forall u :: u in r.cost && r.cost[u].cost != kInfeasible ==> EdgesRelaxed(adj, dir, max, r.cost, u)
    decreases Potential(s.cost), |s.pq|
  {
    if s.pq != multiset{} {
      StepDecreases(adj, dir, max, s);
      StepKeepsFrontier(adj, dir, max, s);
      ExploreRelaxesAll(adj, dir, max, Step(adj, dir, max, s));
      assert Explore(adj, dir, max, s) == Explore(adj, dir, max, Step(adj, dir, max, s));
    } else {
      forall u | u in s.cost && s.cost[u].cost != kInfeasible ensures EdgesRelaxed(adj, dir, max, s.cost, u) {
        assert Settled(adj, dir, max, s, u);
      }
    }
  }

  /** The state right after reset satisfies the invariant for every graph, direction and bound. */
  lemma ResetEstablishesFrontier(adj: Adjacency, dir: Direction, max: Cost)
    ensures Frontier(adj, dir, max, kEmpty)
  {
  }

  /**
   * add_start pushes exactly when it strictly improves the start's cost,
   * records the start's node and changes no other entry, and it keeps the
   * invariant.
   */
  lemma SeedEffect(adj: Adjacency, dir: Direction, max: Cost, s: SearchState, l: Label)
    ensures var r := Seed(s, l);
      (l.cost < CostIn(s.cost, l.node) ==> r.pq == s.pq + multiset{l} && CostIn(r.cost, l.node) == l.cost) &&
      (l.cost >= CostIn(s.cost, l.node) ==> r.pq == s.pq && forall n: NodeIdx :: CostIn(r.cost, n) == CostIn(s.cost, n)) &&
      Tightens(s.cost, r.cost) &&
      r.cost.Keys == s.cost.Keys + {l.node} &&
      (forall n :: n != l.node && n in s.cost ==> r.cost[n] == s.cost[n])
    ensures Frontier(adj, dir, max, s) ==> Frontier(adj, dir, max, Seed(s, l))
  {
    if Frontier(adj, dir, max, s) {
      SeedKeepsFrontier(adj, dir, max, s, l);
    }
  }

  /** add_start keeps the invariant. */
  lemma SeedKeepsFrontier(adj: Adjacency, dir: Direction, max: Cost, s: SearchState, l: Label)
    requires Frontier(adj, dir, max, s)
    ensures Frontier(adj, dir, max, Seed(s, l))
  {
    var r := Seed(s, l);
    assert LabelsNotBelow(r) by {
      forall m | m in r.pq ensures CostIn(r.cost, m.node) <= m.cost {
        if m != l {
          assert m in s.pq;
        }
      }
    }
    forall v | v in r.cost ensures Settled(adj, dir, max, r, v) {
      if v == l.node {
        if l.cost < CostIn(s.cost, l.node) {
          assert Label(v, r.cost[v].cost) in r.pq;
        } else if l.node in s.cost {
          assert Settled(adj, dir, max, s, v);
        }
      } else {
        assert Settled(adj, dir, max, s, v);
        if Label(v, s.cost[v].cost) !in s.pq && s.cost[v].cost != kInfeasible {
          assert EdgesRelaxed(adj, dir, max, r.cost, v) by {
            forall i | 0 <= i < |adj(dir, v)|
              ensures var e' := adj(dir, v)[i];
                Total(r.cost[v].cost, e'.cost) >= max || CostIn(r.cost, e'.neighbor) <= Total(r.cost[v].cost, e'.cost)
            {
              assert CostIn(r.cost, adj(dir, v)[i].neighbor) <= CostIn(s.cost, adj(dir, v)[i].neighbor);
            }
          }
        }
      }
    }
  }

  // ---------------------------------------------------------------------
  // Shortest paths: what the costs recorded by run mean
  // ---------------------------------------------------------------------

  /** es is a path from u: each edge is one the profile reports at the end of the path before it. */
  ghost predicate IsPath(adj: Adjacency, dir: Direction, u: NodeIdx, es: seq<Edge>)
    decreases |es|
  {
    es == [] ||
    (IsPath(adj, dir, u, es[..|es| - 1]) && es[|es| - 1] in adj(dir, PathEnd(u, es[..|es| - 1])))
  }

  /** The node a path from u ends at. */
  function PathEnd(u: NodeIdx, es: seq<Edge>): (v: NodeIdx)
  {
    if es == [] then u else es[|es| - 1].neighbor
  }

  /** The cost of a path entered with cost c, summed without wrap-around. */
  function PathCost(c: nat, es: seq<Edge>): (total: nat)
    decreases |es|
  {
    if es == [] then c else PathCost(c, es[..|es| - 1]) + es[|es| - 1].cost
  }

  /** Every node with a feasible recorded cost has all its edges relaxed. */
  ghost predicate AllRelaxed(adj: Adjacency, dir: Direction, max: Cost, cost: map<NodeIdx, Entry>)
  {
    forall u :: u in cost && cost[u].cost != kInfeasible ==> EdgesRelaxed(adj, dir, max, cost, u)
  }

  /**
   * When no edge can improve a neighbour any more, a path entered from a node
   * recorded at cost at most c, and cheaper than max, ends at a node recorded
   * at no more than the path's cost.
   */
  lemma {:induction false} RelaxedBoundsPaths(adj: Adjacency, dir: Direction, max: Cost, cost: map<NodeIdx, Entry>,
                                              u: NodeIdx, c: nat, es: seq<Edge>)
    requires AllRelaxed(adj, dir, max, cost)
    requires CostIn(cost, u) <= c
    requires IsPath(adj, dir, u, es)
    requires es != [] ==> PathCost(c, es) < max
    ensures CostIn(cost, PathEnd(u, es)) <= PathCost(c, es)
    decreases |es|
  {
    if es != [] {
      var p := es[..|es| - 1];
      var e := es[|es| - 1];
      assert PathCost(c, es) == PathCost(c, p) + e.cost;
      RelaxedBoundsPaths(adj, dir, max, cost, u, c, p);
      var w := PathEnd(u, p);
      var cw := CostIn(cost, w);
      assert cw < kInfeasible;
      var i :| 0 <= i < |adj(dir, w)| && adj(dir, w)[i] == e;
      assert Total(cw, e.cost) == cw + e.cost;
      assert EdgesRelaxed(adj, dir, max, cost, w);
    }
  }

  /**
   * Completeness of run: started from the invariant, run records for the end
   * of every path cheaper than max at most the path's cost, counted from the
   * cost recorded for its first node.
   */
  lemma ExploreBoundsPaths(adj: Adjacency, dir: Direction, max: Cost, s: SearchState, u: NodeIdx, c: nat, es: seq<Edge>)
    requires Frontier(adj, dir, max, s)
    requires CostIn(s.cost, u) <= c
    requires IsPath(adj, dir, u, es)
    requires es != [] ==> PathCost(c, es) < max
    ensures CostIn(Explore(adj, dir, max, s).cost, PathEnd(u, es)) <= PathCost(c, es)
  {
    ExploreRelaxesAll(adj, dir, max, s);
    ExploreTightens(adj, dir, max, s);
    RelaxedBoundsPaths(adj, dir, max, Explore(adj, dir, max, s).cost, u, c, es);
  }

  /** No edge cost is large enough to wrap `l.cost() + cost` around 32 bits. */
  ghost predicate NoWrap(adj: Adjacency, dir: Direction)
  {
    forall n: NodeIdx, i :: 0 <= i < |adj(dir, n)| ==> kInfeasible + adj(dir, n)[i].cost < 0x1_0000_0000
  }

  /** c is the cost of a path from one of the start labels to n. */
  ghost predicate Reached(adj: Adjacency, dir: Direction, seeds: set<Label>, n: NodeIdx, c: nat)
  {
    exists l0, es :: l0 in seeds && IsPath(adj, dir, l0.node, es) && PathEnd(l0.node, es) == n && PathCost(l0.cost, es) == c
  }

  /** Every feasible recorded cost and every queued label is the cost of a path from a start label. */
  ghost predicate Sound(adj: Adjacency, dir: Direction, seeds: set<Label>, s: SearchState)
  {
    && (forall n :: n in s.cost && s.cost[n].cost != kInfeasible ==> Reached(adj, dir, seeds, n, s.cost[n].cost))
    && (forall l :: l in s.pq ==> Reached(adj, dir, seeds, l.node, l.cost))
  }

  /** A path to u extended by one of u's edges is a path to its neighbour. */
  lemma ReachedExtend(adj: Adjacency, dir: Direction, seeds: set<Label>, u: NodeIdx, c: nat, e: Edge)
    requires Reached(adj, dir, seeds, u, c)
    requires e in adj(dir, u)
    ensures Reached(adj, dir, seeds, e.neighbor, c + e.cost)
  {
    var l0, es :| l0 in seeds && IsPath(adj, dir, l0.node, es) && PathEnd(l0.node, es) == u && PathCost(l0.cost, es) == c;
    var es' := es + [e];
    assert es'[..|es'| - 1] == es;
    assert IsPath(adj, dir, l0.node, es') && PathEnd(l0.node, es') == e.neighbor && PathCost(l0.cost, es') == c + e.cost;
  }

  /** add_start of a start label keeps soundness and records the start at no more than its cost. */
  lemma SeedSound(adj: Adjacency, dir: Direction, seeds: set<Label>, s: SearchState, l: Label)
    requires Sound(adj, dir, seeds, s)
    requires l in seeds
    ensures Sound(adj, dir, seeds, Seed(s, l))
    ensures CostIn(Seed(s, l).cost, l.node) <= l.cost
  {
    assert IsPath(adj, dir, l.node, []) && PathEnd(l.node, []) == l.node && PathCost(l.cost, []) == l.cost;
    assert Reached(adj, dir, seeds, l.node, l.cost);
  }

  /** Without wrap-around, relaxing an edge of u from a cost reached at u keeps soundness. */
  lemma RelaxSound(adj: Adjacency, dir: Direction, max: Cost, seeds: set<Label>, s: SearchState, u: NodeIdx, lcost: Cost, e: Edge)
    requires NoWrap(adj, dir)
    requires Sound(adj, dir, seeds, s)
    requires Reached(adj, dir, seeds, u, lcost)
    requires e in adj(dir, u)
    ensures Sound(adj, dir, seeds, Relax(s, u, lcost, e, max))
  {
    var total := Total(lcost, e.cost);
    if total < max && total < CostIn(s.cost, e.neighbor) {
      var i :| 0 <= i < |adj(dir, u)| && adj(dir, u)[i] == e;
      assert total == lcost + e.cost;
      ReachedExtend(adj, dir, seeds, u, lcost, e);
    }
  }

  lemma {:induction false} RelaxFromSound(adj: Adjacency, dir: Direction, max: Cost, seeds: set<Label>, s: SearchState,
                                          u: NodeIdx, lcost: Cost, i: nat)
    requires NoWrap(adj, dir)
    requires Sound(adj, dir, seeds, s)
    requires Reached(adj, dir, seeds, u, lcost)
    requires i <= |adj(dir, u)|
    ensures Sound(adj, dir, seeds, RelaxFrom(s, u, lcost, adj(dir, u), i, max))
    decreases |adj(dir, u)| - i
  {
    if i < |adj(dir, u)| {
      RelaxSound(adj, dir, max, seeds, s, u, lcost, adj(dir, u)[i]);
      RelaxFromSound(adj, dir, max, seeds, Relax(s, u, lcost, adj(dir, u)[i], max), u, lcost, i + 1);
    }
  }

  /** Without wrap-around, one iteration of run keeps soundness. */
  lemma StepSound(adj: Adjacency, dir: Direction, max: Cost, seeds: set<Label>, s: SearchState)
    requires s.pq != multiset{}
    requires NoWrap(adj, dir)
    requires Sound(adj, dir, seeds, s)
    ensures Sound(adj, dir, seeds, Step(adj, dir, max, s))
  {
    var l := MinLabel(s.pq);
    var popped := SearchState(s.pq - multiset{l}, s.cost);
    assert Sound(adj, dir, seeds, popped) by {
      forall m | m in popped.pq ensures Reached(adj, dir, seeds, m.node, m.cost) {
        assert m in s.pq;
      }
    }
    if !Stale(s, l) {
      RelaxFromSound(adj, dir, max, seeds, popped, l.node, l.cost, 0);
    }
  }

  /** Soundness of run: without wrap-around, every feasible cost run records is the cost of a path from a start label. */
  lemma {:induction false} ExploreSound(adj: Adjacency, dir: Direction, max: Cost, seeds: set<Label>, s: SearchState)
    requires NoWrap(adj, dir)
    requires Sound(adj, dir, seeds, s)
    ensures Sound(adj, dir, seeds, Explore(adj, dir, max, s))
    decreases Potential(s.cost), |s.pq|
  {
    if s.pq != multiset{} {
      StepDecreases(adj, dir, max, s);
      StepSound(adj, dir, max, seeds, s);
      ExploreSound(adj, dir, max, seeds, Step(adj, dir, max, s));
      assert Explore(adj, dir, max, s) == Explore(adj, dir, max, Step(adj, dir, max, s));
    }
  }

  /**
   * Started from a sound state satisfying the invariant, in which every start
   * label's node is recorded at no more than the label's cost, and without
   * wrap-around, run records for each node the least cost of a path from a
   * start label cheaper than max: every feasible recorded cost is a path
   * cost, and no such path ends cheaper than what is recorded.
   */
  lemma ExploreShortest(adj: Adjacency, dir: Direction, max: Cost, seeds: set<Label>, s: SearchState)
    requires NoWrap(adj, dir)
    requires Frontier(adj, dir, max, s) && Sound(adj, dir, seeds, s)
    requires forall l0 :: l0 in seeds ==> CostIn(s.cost, l0.node) <= l0.cost
    ensures var r := Explore(adj, dir, max, s);
      && (forall n :: n in r.cost && r.cost[n].cost != kInfeasible ==> Reached(adj, dir, seeds, n, r.cost[n].cost))
      && (forall l0, es :: l0 in seeds && IsPath(adj, dir, l0.node, es) && (es != [] ==> PathCost(l0.cost, es) < max) ==>
            CostIn(r.cost, PathEnd(l0.node, es)) <= PathCost(l0.cost, es))
  {
    ExploreSound(adj, dir, max, seeds, s);
    forall l0, es | l0 in seeds && IsPath(adj, dir, l0.node, es) && (es != [] ==> PathCost(l0.cost, es) < max)
      ensures CostIn(Explore(adj, dir, max, s).cost, PathEnd(l0.node, es)) <= PathCost(l0.cost, es)
    {
      ExploreBoundsPaths(adj, dir, max, s, l0.node, l0.cost, es);
    }
  }

  /** The state right after reset is sound for any start labels. */
  lemma ResetSound(adj: Adjacency, dir: Direction, seeds: set<Label>)
    ensures Sound(adj, dir, seeds, kEmpty)
  {
  }

  /** add_start of each label of ls in turn. */
  function SeedAll(s: SearchState, ls: seq<Label>): (r: SearchState)
    decreases |ls|
  {
    if ls == [] then s else SeedAll(Seed(s, ls[0]), ls[1..])
  }

  /**
   * add_start of start labels, one after another, keeps the invariant and
   * soundness, only tightens costs, and leaves each label's node recorded at
   * no more than the label's cost.
   */
  lemma {:induction false} SeedAllEstablishes(adj: Adjacency, dir: Direction, max: Cost, seeds: set<Label>,
                                              s: SearchState, ls: seq<Label>)
    requires Frontier(adj, dir, max, s) && Sound(adj, dir, seeds, s)
    requires forall l :: l in ls ==> l in seeds
    ensures var r := SeedAll(s, ls);
      && Frontier(adj, dir, max, r) && Sound(adj, dir, seeds, r) && Tightens(s.cost, r.cost)
      && forall l :: l in ls ==> CostIn(r.cost, l.node) <= l.cost
    decreases |ls|
  {
    if ls != [] {
      var s1 := Seed(s, ls[0]);
      SeedEffect(adj, dir, max, s, ls[0]);
      SeedSound(adj, dir, seeds, s, ls[0]);
      SeedAllEstablishes(adj, dir, max, seeds, s1, ls[1..]);
      var r := SeedAll(s1, ls[1..]);
      forall l | l in ls ensures CostIn(r.cost, l.node) <= l.cost {
        if l != ls[0] {
          assert l in ls[1..];
        } else {
          assert CostIn(r.cost, l.node) <= CostIn(s1.cost, l.node);
        }
      }
      assert Tightens(s.cost, r.cost) by {
        forall n: NodeIdx ensures CostIn(r.cost, n) <= CostIn(s.cost, n) {
          assert CostIn(r.cost, n) <= CostIn(s1.cost, n);
        }
      }
    }
  }

  /** add_start of the labels ls records exactly their nodes on top of what was recorded, and changes no other entry. */
  lemma {:induction false} SeedAllKeys(s: SearchState, ls: seq<Label>)
    ensures var r := SeedAll(s, ls);
      && r.cost.Keys == s.cost.Keys + (set l | l in ls :: l.node)
      && forall n :: n in s.cost && (forall l :: l in ls ==> l.node != n) ==> r.cost[n] == s.cost[n]
    decreases |ls|
  {
    if ls != [] {
      var s1 := Seed(s, ls[0]);
      SeedAllKeys(s1, ls[1..]);
      assert (set l | l in ls :: l.node) == {ls[0].node} + (set l | l in ls[1..] :: l.node) by {
        forall l | l in ls ensures l == ls[0] || l in ls[1..] {
          assert ls == [ls[0]] + ls[1..];
        }
      }
      forall n | n in s.cost && (forall l :: l in ls ==> l.node != n)
        ensures SeedAll(s, ls).cost[n] == s.cost[n]
      {
        assert ls[0] in ls;
        assert forall l :: l in ls[1..] ==> l in ls;
      }
    }
  }

  /** reset followed by add_start of the labels ls meets every requirement of ExploreShortest on those labels. */
  lemma SeedAllFromReset(adj: Adjacency, dir: Direction, max: Cost, ls: seq<Label>)
    ensures var seeds := set l | l in ls; var s := SeedAll(kEmpty, ls);
      && Frontier(adj, dir, max, s) && Sound(adj, dir, seeds, s)
      && forall l0 :: l0 in seeds ==> CostIn(s.cost, l0.node) <= l0.cost
  {
    var seeds := set l | l in ls;
    ResetEstablishesFrontier(adj, dir, max);
    ResetSound(adj, dir, seeds);
    SeedAllEstablishes(adj, dir, max, seeds, kEmpty, ls);
  }

  /**
   * reset, add_start of the labels ls, then run, without wrap-around: a node
   * that is not a start either reads kInfeasible or is recorded below max at
   * the cost of a path from a start label, so a node with no path cheaper
   * than max from a start reads kInfeasible; a start's node is recorded at no
   * more than its label's cost.
   */
  lemma RunFromStarts(adj: Adjacency, dir: Direction, max: Cost, ls: seq<Label>, n: NodeIdx)
    requires NoWrap(adj, dir)
    ensures var r := Explore(adj, dir, max, SeedAll(kEmpty, ls));
      && (forall l :: l in ls ==> CostIn(r.cost, l.node) <= l.cost)
      && ((forall l :: l in ls ==> l.node != n) && CostIn(r.cost, n) != kInfeasible ==>
            CostIn(r.cost, n) < max && Reached(adj, dir, (set l | l in ls), n, CostIn(r.cost, n)))
  {
    var seeds := set l | l in ls;
    var s := SeedAll(kEmpty, ls);
    var r := Explore(adj, dir, max, s);
    SeedAllFromReset(adj, dir, max, ls);
    SeedAllKeys(kEmpty, ls);
    ExploreTightens(adj, dir, max, s);
    ExploreSound(adj, dir, max, seeds, s);
    if (forall l :: l in ls ==> l.node != n) && CostIn(r.cost, n) != kInfeasible {
      assert n !in s.cost;
    }
  }

  // ---------------------------------------------------------------------
  // Monotonic finalization
  // ---------------------------------------------------------------------

  /** u is recorded at cost c and no queued label is cheaper than c. */
  ghost predicate Finalized(s: SearchState, u: NodeIdx, c: Cost)
  {
    CostIn(s.cost, u) == c && forall m :: m in s.pq ==> c <= m.cost
  }

  /** Without wrap-around, relaxing edges from a cost no less than c pushes nothing below c and cannot lower u. */
  lemma {:induction false} RelaxFromKeepsFinal(adj: Adjacency, dir: Direction, max: Cost, s: SearchState,
                                               curr: NodeIdx, lcost: Cost, i: nat, u: NodeIdx, c: Cost)
    requires NoWrap(adj, dir)
    requires i <= |adj(dir, curr)|
    requires c <= lcost
    requires Finalized(s, u, c)
    ensures Finalized(RelaxFrom(s, curr, lcost, adj(dir, curr), i, max), u, c)
    decreases |adj(dir, curr)| - i
  {
    if i < |adj(dir, curr)| {
      var e := adj(dir, curr)[i];
      assert Total(lcost, e.cost) == lcost + e.cost;
      var s1 := Relax(s, curr, lcost, e, max);
      assert Finalized(s1, u, c);
      RelaxFromKeepsFinal(adj, dir, max, s1, curr, lcost, i + 1, u, c);
    }
  }

  /** Without wrap-around, one iteration keeps a node finalized. */
  lemma StepKeepsFinal(adj: Adjacency, dir: Direction, max: Cost, s: SearchState, u: NodeIdx, c: Cost)
    requires NoWrap(adj, dir)
    requires s.pq != multiset{}
    requires Finalized(s, u, c)
    ensures Finalized(Step(adj, dir, max, s), u, c)
  {
    var l := MinLabel(s.pq);
    var popped := SearchState(s.pq - multiset{l}, s.cost);
    assert Finalized(popped, u, c) by {
      forall m | m in popped.pq ensures c <= m.cost {
        assert m in s.pq;
      }
    }
    if !Stale(s, l) {
      RelaxFromKeepsFinal(adj, dir, max, popped, l.node, l.cost, 0, u, c);
    }
  }

  /** Without wrap-around, a finalized node keeps its cost to the end of run. */
  lemma {:induction false} ExploreKeepsFinal(adj: Adjacency, dir: Direction, max: Cost, s: SearchState, u: NodeIdx, c: Cost)
    requires NoWrap(adj, dir)
    requires Finalized(s, u, c)
    ensures CostIn(Explore(adj, dir, max, s).cost, u) == c
    decreases Potential(s.cost), |s.pq|
  {
    if s.pq != multiset{} {
      StepDecreases(adj, dir, max, s);
      StepKeepsFinal(adj, dir, max, s, u, c);
      ExploreKeepsFinal(adj, dir, max, Step(adj, dir, max, s), u, c);
    }
  }

  /**
   * Monotonic finalization: without wrap-around, a label popped at its node's
   * recorded cost keeps that cost through the rest of run.
   */
  lemma PoppedFinal(adj: Adjacency, dir: Direction, max: Cost, s: SearchState)
    requires NoWrap(adj, dir)
    requires s.pq != multiset{}
    requires CostIn(s.cost, MinLabel(s.pq).node) == MinLabel(s.pq).cost
    ensures CostIn(Explore(adj, dir, max, Step(adj, dir, max, s)).cost, MinLabel(s.pq).node) == MinLabel(s.pq).cost
  {
    var l := MinLabel(s.pq);
    var popped := SearchState(s.pq - multiset{l}, s.cost);
    assert Finalized(popped, l.node, l.cost) by {
      forall m | m in popped.pq ensures l.cost <= m.cost {
        assert m in s.pq;
      }
    }
    RelaxFromKeepsFinal(adj, dir, max, popped, l.node, l.cost, 0, l.node, l.cost);
    ExploreKeepsFinal(adj, dir, max, Step(adj, dir, max, s), l.node, l.cost);
  }

  /** The edges of the line A–B–C–D, nodes 0 to 3, with cost 1 between neighbours. */
  function LineEdges(n: NodeIdx): (es: seq<Edge>)
  {
    (if 0 < n <= 3 then [Edge(n - 1, 1)] else []) + (if n < 3 then [Edge(n + 1, 1)] else [])
  }

  /** The line as a profile: the same edges in both directions. */
  const kLine: Adjacency := (d: Direction, n: NodeIdx) => LineEdges(n)

  /** adj reports the line's edges in direction dir. */
  ghost predicate IsLine(adj: Adjacency, dir: Direction)
  {
    forall n: NodeIdx :: adj(dir, n) == LineEdges(n)
  }

  /** On the line, a path from A entered with cost c costs at least c plus the index of its end. */
  lemma {:induction false} LinePathCost(adj: Adjacency, dir: Direction, c: nat, es: seq<Edge>)
    requires IsLine(adj, dir)
    requires IsPath(adj, dir, 0, es)
    ensures PathCost(c, es) >= c + PathEnd(0, es)
    decreases |es|
  {
    if es != [] {
      var p := es[..|es| - 1];
      var e := es[|es| - 1];
      LinePathCost(adj, dir, c, p);
      assert e in LineEdges(PathEnd(0, p));
      assert e.cost == 1 && e.neighbor <= PathEnd(0, p) + 1;
    }
  }

  /** On the line, a cost reached from A at cost 0 is at least the node's index. */
  lemma LineReached(adj: Adjacency, dir: Direction, seeds: set<Label>, n: NodeIdx, c: nat)
    requires IsLine(adj, dir)
    requires seeds <= {Label(0, 0)}
    requires Reached(adj, dir, seeds, n, c)
    ensures c >= n
  {
    var l0, es :| l0 in seeds && IsPath(adj, dir, l0.node, es) && PathEnd(l0.node, es) == n && PathCost(l0.cost, es) == c;
    LinePathCost(adj, dir, 0, es);
  }

  /** No edge of the line wraps. */
  lemma LineNoWrap(adj: Adjacency, dir: Direction)
    requires IsLine(adj, dir)
    ensures NoWrap(adj, dir)
  {
    forall n: NodeIdx, i | 0 <= i < |adj(dir, n)| ensures kInfeasible + adj(dir, n)[i].cost < 0x1_0000_0000 {
      assert adj(dir, n)[i] in LineEdges(n);
    }
  }

  /** run on the line from starts that are all A at cost 0, with max = 2: C and D, at index 2 or more, stay kInfeasible. */
  lemma LineFar(adj: Adjacency, dir: Direction, ls: seq<Label>, n: NodeIdx)
    requires IsLine(adj, dir)
    requires forall l :: l in ls ==> l == Label(0, 0)
    requires 2 <= n
    ensures CostIn(Explore(adj, dir, 2, SeedAll(kEmpty, ls)).cost, n) == kInfeasible
  {
    var r := Explore(adj, dir, 2, SeedAll(kEmpty, ls));
    LineNoWrap(adj, dir);
    RunFromStarts(adj, dir, 2, ls, n);
    if CostIn(r.cost, n) != kInfeasible {
      LineReached(adj, dir, (set l | l in ls), n, CostIn(r.cost, n));
    }
  }

  /** The same run records B, one unit from A, at cost 1. */
  lemma LineNear(adj: Adjacency, dir: Direction, ls: seq<Label>)
    requires IsLine(adj, dir)
    requires Label(0, 0) in ls
    requires forall l :: l in ls ==> l == Label(0, 0)
    ensures CostIn(Explore(adj, dir, 2, SeedAll(kEmpty, ls)).cost, 1) == 1
  {
    var s := SeedAll(kEmpty, ls);
    var r := Explore(adj, dir, 2, s);
    LineNoWrap(adj, dir);
    SeedAllFromReset(adj, dir, 2, ls);
    var b := [Edge(1, 1)];
    assert b[..0] == [] && Edge(1, 1) in LineEdges(0);
    assert IsPath(adj, dir, 0, b) && PathEnd(0, b) == 1 && PathCost(0, b) == 1;
    ExploreBoundsPaths(adj, dir, 2, s, 0, 0, b);
    RunFromStarts(adj, dir, 2, ls, 1);
    LineReached(adj, dir, (set l | l in ls), 1, CostIn(r.cost, 1));
  }

  /** The same run records A at cost 0, B at 1, and leaves C and D kInfeasible. */
  lemma LineCutOffFrom(adj: Adjacency, dir: Direction, ls: seq<Label>)
    requires IsLine(adj, dir)
    requires Label(0, 0) in ls
    requires forall l :: l in ls ==> l == Label(0, 0)
    ensures var r := Explore(adj, dir, 2, SeedAll(kEmpty, ls));
      CostIn(r.cost, 0) == 0 && CostIn(r.cost, 1) == 1 &&
      CostIn(r.cost, 2) == kInfeasible && CostIn(r.cost, 3) == kInfeasible
  {
    LineNoWrap(adj, dir);
    RunFromStarts(adj, dir, 2, ls, 0);
    LineNear(adj, dir, ls);
    LineFar(adj, dir, ls, 2);
    LineFar(adj, dir, ls, 3);
  }

  /**
   * The bound test of run is strict: on the line A–B–C–D with unit costs,
   * started at A with cost 0 and max = 2, C and D stay kInfeasible.
   */
  lemma LineCutOff()
    ensures var r := Explore(kLine, Forward, 2, SeedAll(kEmpty, [Label(0, 0)]));
      CostIn(r.cost, 0) == 0 && CostIn(r.cost, 1) == 1 &&
      CostIn(r.cost, 2) == kInfeasible && CostIn(r.cost, 3) == kInfeasible
  {
    LineCutOffFrom(kLine, Forward, [Label(0, 0)]);
  }

  /**
   * With an edge cost that wraps, a relaxation can lower a node already
   * popped: node 1 popped at cost 6 and an edge of cost 2^32 - 2 back to
   * node 0, recorded at 5, give total 4.
   */
  lemma WrapLowersPopped()
    ensures var s := SearchState(multiset{}, map[0 := Entry(5, kInvalidNode), 1 := Entry(6, 0)]);
      var r := Relax(s, 1, 6, Edge(0, 0xFFFF_FFFE), 100);
      CostIn(r.cost, 0) == 4 && CostIn(r.cost, 0) < CostIn(s.cost, 0) && Label(0, 4) in r.pq
  {
  }

  // ---------------------------------------------------------------------
  // The search object
  // ---------------------------------------------------------------------

  class Search {
    /** pq_: the dial bucket queue, as the multiset of its labels. */
    var pq: multiset<Label>
    /** cost_: best entry per reached node. */
    var cost: map<NodeIdx, Entry>
    /** The number of buckets of pq_. */
    var buckets: nat

    function State(): (st: SearchState)
      reads this
    {
      SearchState(pq, cost)
    }

    constructor ()
      ensures State() == kEmpty
    {
      pq := multiset{};
      cost := map[];
      buckets := 0;
    }

    /** reset(max): max + 1 buckets (computed as unsigned, so 0x10000 for max == 0xFFFF), nothing queued or recorded. */
    method Reset(max: Cost)
      modifies this
      ensures State() == kEmpty && buckets == max + 1
      ensures forall n: NodeIdx :: GetCost(n) == kInfeasible
    {
      pq := multiset{};
      buckets := max + 1;
      cost := map[];
    }

    /** add_start(l): the label's node must be valid. */
    method AddStart(l: Label)
      requires l.node != kInvalidNode
      modifies this`pq, this`cost
      ensures State() == Seed(old(State()), l)
      ensures pq == if l.cost < old(GetCost(l.node)) then old(pq) + multiset{l} else old(pq)
      ensures GetCost(l.node) == if l.cost < old(GetCost(l.node)) then l.cost else old(GetCost(l.node))
    {
      var e := if l.node in cost then cost[l.node] else kDefaultEntry;
      var improved := l.cost < e.cost;
      if improved {
        e := Entry(l.cost, kInvalidNode);
      }
      cost := cost[l.node := e];
      if improved {
        Push(l);
      }
    }

    /** get_cost(n): the recorded cost, or kInfeasible for a node never reached. */
    function GetCost(n: NodeIdx): (c: Cost)
      reads this
      ensures n in cost ==> c == cost[n].cost
      ensures n !in cost ==> c == kInfeasible
    {
      CostIn(cost, n)
    }

    method Push(l: Label)
      modifies this`pq
      ensures pq == old(pq) + multiset{l}
    {
      pq := pq + multiset{l};
    }

    /** run<SearchDir>(w, max): the profile's adjacency for w is adj. */
    method RunIn(adj: Adjacency, max: Cost, searchDir: Direction)
      requires NeighborsValid(adj, searchDir)
      modifies this`pq, this`cost
      ensures State() == Explore(adj, searchDir, max, old(State()))
      ensures pq == multiset{}
      ensures Tightens(old(cost), cost) && WritesBelow(old(cost), cost, max)
    {
      ghost var target := Explore(adj, searchDir, max, State());
      ExploreDrains(adj, searchDir, max, State());
      ExploreTightens(adj, searchDir, max, State());
      while pq != multiset{}
        invariant Explore(adj, searchDir, max, State()) == target
        decreases Potential(cost), |pq|
      {
        ghost var before := State();
        StepDecreases(adj, searchDir, max, before);
        var l := MinLabel(pq);
        pq := pq - multiset{l};
        if GetCost(l.node) < l.cost {
          // stale: a cheaper label for this node was already expanded or is queued
          assert State() == Step(adj, searchDir, max, before);
        } else {
          RelaxEdges(l.node, l.cost, adj(searchDir, l.node), max);
          assert State() == Step(adj, searchDir, max, before);
        }
      }
    }

    /** The adjacency callback of run, applied to each edge of curr popped with cost lcost. */
    method RelaxEdges(curr: NodeIdx, lcost: Cost, edges: seq<Edge>, max: Cost)
      requires forall i :: 0 <= i < |edges| ==> edges[i].neighbor != kInvalidNode
      modifies this`pq, this`cost
      ensures State() == RelaxFrom(old(State()), curr, lcost, edges, 0, max)
    {
      var i := 0;
      while i < |edges|
        invariant 0 <= i <= |edges|
        invariant RelaxFrom(State(), curr, lcost, edges, i, max) == RelaxFrom(old(State()), curr, lcost, edges, 0, max)
      {
        var e := edges[i];
        var total := Total(lcost, e.cost);
        if total < max && total < GetCost(e.neighbor) {
          assert e.neighbor != kInvalidNode;
          cost := cost[e.neighbor := Entry(total, curr)];
          pq := pq + multiset{Label(e.neighbor, total)};
        }
        i := i + 1;
      }
    }

    /** run(w, max, dir): dispatches to the instance for dir. */
    method Run(adj: Adjacency, max: Cost, dir: Direction)
      requires NeighborsValid(adj, dir)
      modifies this`pq, this`cost
      ensures State() == Explore(adj, dir, max, old(State()))
      ensures pq == multiset{}
      ensures Tightens(old(cost), cost) && WritesBelow(old(cost), cost, max)
    {
      if dir == Forward {
        RunIn(adj, max, Forward);
      } else {
        RunIn(adj, max, Backward);
      }
    }
  }
}
