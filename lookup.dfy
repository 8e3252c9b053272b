/**
 * Map matching (include/osr/lookup.h): the closest segment of a way to a
 * query point, the walk from that segment to the next routable node in each
 * direction, and the ranked list of candidate ways.
 *
 * Geometry is uninterpreted: the projection of a point onto a segment and the
 * distance between two points are function parameters, and distances are
 * reals.  The spatial index is replaced by the sequence of way ids it reports.
 */
module Lookup {
  import opened Dijkstra

  datatype Option<T> = None | Some(value: T)

  /** geo::latlng; the default-constructed point is (0, 0). */
  datatype LatLng = LatLng(lat: real, lng: real)

  const kOrigin: LatLng := LatLng(0.0, 0.0)

  /** geo::closest_on_segment(x, a, b) and geo::distance(a, b). */
  datatype Geometry = Geometry(closestOnSegment: (LatLng, LatLng, LatLng) -> LatLng, distance: (LatLng, LatLng) -> real)

  ghost predicate NonNegative(g: Geometry)
  {
    forall a, b :: g.distance(a, b) >= 0.0
  }

  /** std::numeric_limits<double>::max(), exactly: (2^53 - 1) * 2^971. */
  const kMaxDouble: real := 179769313486231570814527423731704356798070567525844996598917476803157260780028538760589558632766878171540458953514382464234321326889464182768467546703537516986049910576551282076245490090389328944075868508455133942304583236903222948165808559332123348274797826204144723168738177180919299881250404026184124858368.0

  /** Ways farther than this from the query are not matched. */
  const kMaxMatchDistance: real := 100.0

  type WayIdx = u32
  const kInvalidWay: WayIdx := 0xFFFF_FFFF

  /** osm_node_idx_t */
  type OsmNodeIdx = int

  /**
   * The part of the ways store the matcher reads: per-way properties,
   * polyline and parallel OSM node ids, and ways::find_node_idx.
   */
  datatype Ways<P> = Ways(
    properties: seq<P>,
    polylines: seq<seq<LatLng>>,
    osmNodes: seq<seq<OsmNodeIdx>>,
    findNodeIdx: OsmNodeIdx -> Option<NodeIdx>)
  {
    ghost predicate Valid()
    {
      |properties| == |polylines| == |osmNodes| &&
      forall w :: 0 <= w < |polylines| ==> |polylines[w]| == |osmNodes[w]|
    }
  }

  /** The profile's weight function: properties, direction, offset to cost. */
  type WeightFn<!P> = (P, Direction, real) -> Cost

  /** dist_t weight_ is an accumulated sum of costs. */
  datatype NodeCandidate = NodeCandidate(node: NodeIdx, distToNode: real, weight: nat, path: seq<LatLng>)
  {
    predicate Valid()
    {
      node != kInvalidNode
    }
  }

  /** A default-constructed node_candidate. */
  const kNoCandidate: NodeCandidate := NodeCandidate(kInvalidNode, 0.0, 0, [])

  datatype WayCandidate = WayCandidate(
    distToWay: real,
    best: LatLng,
    segmentIdx: nat,
    way: WayIdx,
    left: NodeCandidate,
    right: NodeCandidate)

  /** operator<: way candidates are ordered by their distance to the query. */
  predicate Less(a: WayCandidate, b: WayCandidate)
  {
    a.distToWay < b.distToWay
  }

  // ---------------------------------------------------------------------
  // till_the_end
  // ---------------------------------------------------------------------

  datatype Cflow = Continue | Break

  /** The indices till_the_end hands to the callback when no callback breaks. */
  function VisitOrder(start: nat, n: nat, dir: Direction): (o: seq<nat>)
    decreases if dir == Forward then n - start else start
  {
    if dir == Forward then
      if start >= n then [] else [start] + VisitOrder(start + 1, n, dir)
    else
      [start] + if start == 0 then [] else VisitOrder(start - 1, n, dir)
  }

  /**
   * Forward visits start, start + 1, ..., n - 1; backward visits start,
   * start - 1, ..., 0.
   */
  lemma {:induction false} VisitOrderShape(start: nat, n: nat, dir: Direction)
    ensures dir == Forward ==> |VisitOrder(start, n, dir)| == (if start <= n then n - start else 0)
    ensures dir == Backward ==> |VisitOrder(start, n, dir)| == start + 1
    ensures forall k :: 0 <= k < |VisitOrder(start, n, dir)| ==>
      VisitOrder(start, n, dir)[k] == if dir == Forward then start + k else start - k
    decreases if dir == Forward then n - start else start
  {
    if dir == Forward && start < n {
      VisitOrderShape(start + 1, n, dir);
    } else if dir == Backward && start > 0 {
      VisitOrderShape(start - 1, n, dir);
    }
  }

  ghost predicate InBounds(idxs: seq<nat>, n: nat)
  {
    forall k :: 0 <= k < |idxs| ==> idxs[k] < n
  }

  lemma VisitOrderInBounds(start: nat, n: nat, dir: Direction)
    requires dir == Backward ==> start < n
    ensures InBounds(VisitOrder(start, n, dir), n)
  {
    VisitOrderShape(start, n, dir);
  }

  /** The callback applied to c[idxs[0]], c[idxs[1]], ... until it returns Break. */
  function Walk<S, T>(fn: (S, T) -> (Cflow, S), s: S, c: seq<T>, idxs: seq<nat>): (r: S)
    requires InBounds(idxs, |c|)
    decreases |idxs|
  {
    if idxs == [] then s
    else
      var r := fn(s, c[idxs[0]]);
      if r.0 == Break then r.1 else Walk(fn, r.1, c, idxs[1..])
  }

  /** Whether the walk over idxs ends with a callback returning Break. */
  predicate Breaks<S, T>(fn: (S, T) -> (Cflow, S), s: S, c: seq<T>, idxs: seq<nat>)
    requires InBounds(idxs, |c|)
    decreases |idxs|
  {
    idxs != [] &&
    var r := fn(s, c[idxs[0]]);
    r.0 == Break || Breaks(fn, r.1, c, idxs[1..])
  }

  /** No element is visited after the first callback that returns Break. */
  lemma {:induction false} WalkStopsAtBreak<S, T>(fn: (S, T) -> (Cflow, S), s: S, c: seq<T>, idxs: seq<nat>, rest: seq<nat>)
    requires InBounds(idxs, |c|) && InBounds(rest, |c|)
    requires Breaks(fn, s, c, idxs)
    ensures InBounds(idxs + rest, |c|)
    ensures Walk(fn, s, c, idxs + rest) == Walk(fn, s, c, idxs)
    decreases |idxs|
  {
    assert InBounds(idxs + rest, |c|);
    assert (idxs + rest)[0] == idxs[0];
    var r := fn(s, c[idxs[0]]);
    if r.0 != Break {
      assert (idxs + rest)[1..] == idxs[1..] + rest;
      WalkStopsAtBreak(fn, r.1, c, idxs[1..], rest);
    }
  }

  /** till_the_end(start, c, dir, fn), with fn's captured state made explicit as s. */
  method TillTheEnd<S, T>(start: nat, c: seq<T>, dir: Direction, fn: (S, T) -> (Cflow, S), s0: S) returns (s: S)
    requires dir == Forward ==> start <= |c|
    requires dir == Backward ==> start < |c|
    ensures InBounds(VisitOrder(start, |c|, dir), |c|)
    ensures s == Walk(fn, s0, c, VisitOrder(start, |c|, dir))
  {
    ghost var order := VisitOrder(start, |c|, dir);
    VisitOrderShape(start, |c|, dir);
    VisitOrderInBounds(start, |c|, dir);
    s := s0;
    if dir == Forward {
      var i := start;
      while i != |c|
        invariant start <= i <= |c|
        invariant Walk(fn, s, c, order[i - start..]) == Walk(fn, s0, c, order)
        decreases |c| - i
      {
        assert order[i - start..][0] == i;
        assert order[i - start..][1..] == order[i + 1 - start..];
        var r := fn(s, c[i]);
        s := r.1;
        if r.0 == Break {
          break;
        }
        i := i + 1;
      }
    } else {
      var j := 0;
      while j <= start
        invariant 0 <= j <= start + 1
        invariant Walk(fn, s, c, order[j..]) == Walk(fn, s0, c, order)
      {
        var i := start - j;
        assert order[j..][0] == i;
        assert order[j..][1..] == order[j + 1..];
        var r := fn(s, c[i]);
        s := r.1;
        if r.0 == Break {
          break;
        }
        j := j + 1;
      }
    }
  }

  // ---------------------------------------------------------------------
  // distance_to_way
  // ---------------------------------------------------------------------

  /** The projection of x onto segment k, from c[k] to c[k + 1]. */
  function Projection(g: Geometry, x: LatLng, c: seq<LatLng>, k: nat): (p: LatLng)
    requires k + 1 < |c|
  {
    g.closestOnSegment(x, c[k], c[k + 1])
  }

  function SegmentDistance(g: Geometry, x: LatLng, c: seq<LatLng>, k: nat): (d: real)
    requires k + 1 < |c|
  {
    g.distance(x, Projection(g, x, c, k))
  }

  function Segments(c: seq<LatLng>): (n: nat)
  {
    if |c| < 2 then 0 else |c| - 1
  }

  /**
   * The minimum search of distance_to_way after the first n segments: its
   * result is kMaxDouble with segment 0 when no segment is closer than that,
   * and otherwise the first segment of least distance with its projection.
   */
  function ClosestAmong(g: Geometry, x: LatLng, c: seq<LatLng>, n: nat): (r: WayCandidate)
    requires n <= Segments(c)
    ensures r.way == kInvalidWay && r.left == kNoCandidate && r.right == kNoCandidate
    ensures r.distToWay <= kMaxDouble
    ensures forall k :: 0 <= k < n ==> r.distToWay <= SegmentDistance(g, x, c, k)
    ensures r.distToWay == kMaxDouble ==> r.segmentIdx == 0 && r.best == kOrigin
    ensures r.distToWay < kMaxDouble ==>
      r.segmentIdx < n &&
      r.distToWay == SegmentDistance(g, x, c, r.segmentIdx) &&
      r.best == Projection(g, x, c, r.segmentIdx) &&
      forall k :: 0 <= k < r.segmentIdx ==> SegmentDistance(g, x, c, k) > r.distToWay
  {
    if n == 0 then
      WayCandidate(kMaxDouble, kOrigin, 0, kInvalidWay, kNoCandidate, kNoCandidate)
    else
      var prev := ClosestAmong(g, x, c, n - 1);
      var d := SegmentDistance(g, x, c, n - 1);
      if d < prev.distToWay then prev.(distToWay := d, best := Projection(g, x, c, n - 1), segmentIdx := n - 1)
      else prev
  }

  /** The way candidate distance_to_way(x, c) returns. */
  function ClosestSegment(g: Geometry, x: LatLng, c: seq<LatLng>): (r: WayCandidate)
  {
    ClosestAmong(g, x, c, Segments(c))
  }

  /** With non-negative geometric distances, the distance to the way lies between 0 and kMaxDouble. */
  lemma ClosestSegmentNonNegative(g: Geometry, x: LatLng, c: seq<LatLng>)
    requires NonNegative(g)
    ensures 0.0 <= ClosestSegment(g, x, c).distToWay <= kMaxDouble
  {
    var r := ClosestSegment(g, x, c);
    if r.distToWay < kMaxDouble {
      assert r.distToWay == SegmentDistance(g, x, c, r.segmentIdx);
    }
  }

  /**
   * distance_to_way(x, c): the least distance from x to the projections on
   * consecutive vertex pairs, the first segment reaching it and its
   * projection; kMaxDouble and segment 0 when c has fewer than 2 vertices.
   */
  method DistanceToWay(g: Geometry, x: LatLng, c: seq<LatLng>) returns (r: WayCandidate)
    ensures r == ClosestSegment(g, x, c)
    ensures |c| < 2 ==> r.distToWay == kMaxDouble && r.segmentIdx == 0 && r.best == kOrigin
    ensures forall k :: 0 <= k < Segments(c) ==> r.distToWay <= SegmentDistance(g, x, c, k)
    ensures r.distToWay < kMaxDouble ==>
      r.segmentIdx + 1 < |c| &&
      r.distToWay == SegmentDistance(g, x, c, r.segmentIdx) &&
      r.best == Projection(g, x, c, r.segmentIdx) &&
      forall k :: 0 <= k < r.segmentIdx ==> SegmentDistance(g, x, c, k) > r.distToWay
  {
    var min := kMaxDouble;
    var best := kOrigin;
    var bestSegmentIdx := 0;
    var segmentIdx := 0;
    // utl::pairwise(c) yields (c[k], c[k + 1]) for every k + 1 < |c|
    while segmentIdx + 1 < |c|
      invariant segmentIdx <= Segments(c)
      invariant ClosestAmong(g, x, c, segmentIdx) ==
        WayCandidate(min, best, bestSegmentIdx, kInvalidWay, kNoCandidate, kNoCandidate)
    {
      var candidate := g.closestOnSegment(x, c[segmentIdx], c[segmentIdx + 1]);
      var dist := g.distance(x, candidate);
      if dist < min {
        min := dist;
        best := candidate;
        bestSegmentIdx := segmentIdx;
      }
      segmentIdx := segmentIdx + 1;
    }
    r := WayCandidate(min, best, bestSegmentIdx, kInvalidWay, kNoCandidate, kNoCandidate);
  }

  // ---------------------------------------------------------------------
  // find_next_node
  // ---------------------------------------------------------------------

  /** The last point of a path (path_.back(); the walk's path is never empty). */
  function Back(path: seq<LatLng>): (p: LatLng)
  {
    if path == [] then kOrigin else path[|path| - 1]
  }

  /** The callback of find_next_node for one (position, OSM node) pair. */
  function Visit<P>(ways: Ways<P>, g: Geometry, p: P, edgeDir: Direction, edgeWeight: WeightFn<P>,
                    c: NodeCandidate, x: (LatLng, OsmNodeIdx)): (r: (Cflow, NodeCandidate))
  {
    var segmentDist := g.distance(Back(c.path), x.0);
    var c1 := c.(distToNode := c.distToNode + segmentDist,
                 weight := c.weight + edgeWeight(p, edgeDir, segmentDist),
                 path := c.path + [x.0]);
    match ways.findNodeIdx(x.1)
    case Some(n) => (Break, c1.(node := n))
    case None => (Continue, c1)
  }

  /** The callback as the closure find_next_node passes to till_the_end. */
  function Visitor<P>(ways: Ways<P>, g: Geometry, p: P, edgeDir: Direction, edgeWeight: WeightFn<P>)
    : (fn: (NodeCandidate, (LatLng, OsmNodeIdx)) -> (Cflow, NodeCandidate))
  {
    (c, x) => Visit(ways, g, p, edgeDir, edgeWeight, c, x)
  }

  /** utl::zip(polyline, osm_nodes) */
  function Zip(polyline: seq<LatLng>, osmNodes: seq<OsmNodeIdx>): (z: seq<(LatLng, OsmNodeIdx)>)
    requires |polyline| == |osmNodes|
    ensures |z| == |polyline|
    ensures forall k :: 0 <= k < |z| ==> z[k] == (polyline[k], osmNodes[k])
  {
    seq(|polyline|, k requires 0 <= k < |polyline| => (polyline[k], osmNodes[k]))
  }

  function Reversed<T>(s: seq<T>): (r: seq<T>)
    ensures |r| == |s|
    ensures forall k :: 0 <= k < |s| ==> r[k] == s[|s| - 1 - k]
  {
    if s == [] then [] else Reversed(s[1..]) + [s[0]]
  }

  /** The side of the way the walk takes, after resolving reverse mode. */
  function EdgeDirection(dir: Direction, reverse: bool): (d: Direction)
  {
    if reverse then Opposite(dir) else dir
  }

  /** Where the walk starts: the vertex after the segment going forward, its first vertex going backward. */
  function WalkStart(wc: WayCandidate, dir: Direction): (i: nat)
  {
    wc.segmentIdx + if dir == Forward then 1 else 0
  }

  ghost predicate CandidateOn<P>(ways: Ways<P>, wc: WayCandidate)
  {
    ways.Valid() && wc.way < |ways.polylines| && wc.segmentIdx < |ways.polylines[wc.way]|
  }

  /** find_next_node(wc, query, dir, reverse, edge_weight) as a function. */
  function NextNode<P>(ways: Ways<P>, g: Geometry, wc: WayCandidate, query: LatLng, dir: Direction,
                       reverse: bool, edgeWeight: WeightFn<P>): (r: NodeCandidate)
    requires CandidateOn(ways, wc)
  {
    var p := ways.properties[wc.way];
    var edgeDir := EdgeDirection(dir, reverse);
    if edgeWeight(p, edgeDir, 0.0) == kInfeasible then kNoCandidate
    else
      var c0 := NodeCandidate(kInvalidNode, g.distance(query, wc.best), edgeWeight(p, edgeDir, 0.0), [query, wc.best]);
      var polyline := ways.polylines[wc.way];
      var zipped := Zip(polyline, ways.osmNodes[wc.way]);
      VisitOrderInBounds(WalkStart(wc, dir), |zipped|, dir);
      var c := Walk(Visitor(ways, g, p, edgeDir, edgeWeight), c0, zipped,
                    VisitOrder(WalkStart(wc, dir), |zipped|, dir));
      if !reverse then c.(path := Reversed(c.path)) else c
  }

  method FindNextNode<P>(ways: Ways<P>, g: Geometry, wc: WayCandidate, query: LatLng, dir: Direction,
                         reverse: bool, edgeWeight: WeightFn<P>) returns (r: NodeCandidate)
    requires CandidateOn(ways, wc)
    ensures r == NextNode(ways, g, wc, query, dir, reverse, edgeWeight)
  {
    var p := ways.properties[wc.way];
    var edgeDir := if reverse then Opposite(dir) else dir;
    if edgeWeight(p, edgeDir, 0.0) == kInfeasible {
      return kNoCandidate;
    }
    var offRoadLength := g.distance(query, wc.best);
    var c := NodeCandidate(kInvalidNode, offRoadLength, edgeWeight(p, edgeDir, 0.0), [query, wc.best]);
    var polyline := ways.polylines[wc.way];
    var osmNodes := ways.osmNodes[wc.way];
    c := TillTheEnd(wc.segmentIdx + (if dir == Forward then 1 else 0), Zip(polyline, osmNodes), dir,
                    Visitor(ways, g, p, edgeDir, edgeWeight), c);
    if !reverse {
      c := c.(path := Reversed(c.path));
    }
    r := c;
  }

  // ---------------------------------------------------------------------
  // What find_next_node computes, in closed form
  // ---------------------------------------------------------------------

  /** The visited prefix of idxs: up to and including the first vertex with a graph node. */
  function VisitedPrefix<P>(ways: Ways<P>, osmNodes: seq<OsmNodeIdx>, idxs: seq<nat>): (v: seq<nat>)
    requires InBounds(idxs, |osmNodes|)
    ensures |v| <= |idxs| && v == idxs[..|v|]
  {
    if idxs == [] then []
    else if ways.findNodeIdx(osmNodes[idxs[0]]).Some? then [idxs[0]]
    else [idxs[0]] + VisitedPrefix(ways, osmNodes, idxs[1..])
  }

  /** The node the walk stops at, if any. */
  function HitNode<P>(ways: Ways<P>, osmNodes: seq<OsmNodeIdx>, idxs: seq<nat>): (h: Option<NodeIdx>)
    requires InBounds(idxs, |osmNodes|)
  {
    if idxs == [] then None
    else if ways.findNodeIdx(osmNodes[idxs[0]]).Some? then ways.findNodeIdx(osmNodes[idxs[0]])
    else HitNode(ways, osmNodes, idxs[1..])
  }

  lemma {:induction false} VisitedPrefixStops<P>(ways: Ways<P>, osmNodes: seq<OsmNodeIdx>, idxs: seq<nat>)
    requires InBounds(idxs, |osmNodes|)
    ensures var v := VisitedPrefix(ways, osmNodes, idxs);
      (forall k :: 0 <= k < |v| - 1 ==> ways.findNodeIdx(osmNodes[v[k]]).None?) &&
      (HitNode(ways, osmNodes, idxs).Some? <==> |v| > 0 && ways.findNodeIdx(osmNodes[v[|v| - 1]]).Some?) &&
      (HitNode(ways, osmNodes, idxs).Some? ==> HitNode(ways, osmNodes, idxs) == ways.findNodeIdx(osmNodes[v[|v| - 1]])) &&
      (HitNode(ways, osmNodes, idxs).None? ==> v == idxs)
    decreases |idxs|
  {
    if idxs != [] && ways.findNodeIdx(osmNodes[idxs[0]]).None? {
      VisitedPrefixStops(ways, osmNodes, idxs[1..]);
    }
  }

  function Points(polyline: seq<LatLng>, idxs: seq<nat>): (r: seq<LatLng>)
    requires InBounds(idxs, |polyline|)
    ensures |r| == |idxs|
  {
    if idxs == [] then [] else [polyline[idxs[0]]] + Points(polyline, idxs[1..])
  }

  /** The k-th point is the polyline vertex at the k-th index. */
  lemma {:induction false} PointsAt(polyline: seq<LatLng>, idxs: seq<nat>)
    requires InBounds(idxs, |polyline|)
    ensures forall k :: 0 <= k < |idxs| ==> Points(polyline, idxs)[k] == polyline[idxs[k]]
    decreases |idxs|
  {
    if idxs != [] {
      PointsAt(polyline, idxs[1..]);
    }
  }

  /** The length of a path: the sum of the distances between consecutive points. */
  function PathLength(g: Geometry, path: seq<LatLng>): (len: real)
  {
    if |path| < 2 then 0.0
    else PathLength(g, path[..|path| - 1]) + g.distance(path[|path| - 2], path[|path| - 1])
  }

  /** The weights of the segments of a path, each taken at the segment's length as offset. */
  function SegmentWeights<P>(g: Geometry, p: P, edgeDir: Direction, edgeWeight: WeightFn<P>, path: seq<LatLng>): (w: nat)
  {
    if |path| < 2 then 0
    else SegmentWeights(g, p, edgeDir, edgeWeight, path[..|path| - 1]) +
         edgeWeight(p, edgeDir, g.distance(path[|path| - 2], path[|path| - 1]))
  }

  lemma {:induction false} NonNegativePathLength(g: Geometry, path: seq<LatLng>)
    requires NonNegative(g)
    ensures PathLength(g, path) >= 0.0
    decreases |path|
  {
    if |path| >= 2 {
      NonNegativePathLength(g, path[..|path| - 1]);
    }
  }

  /** The callback keeps the distance and the weight equal to those of the path built so far. */
  lemma VisitKeeps<P>(ways: Ways<P>, g: Geometry, p: P, edgeDir: Direction, edgeWeight: WeightFn<P>,
                      c: NodeCandidate, x: (LatLng, OsmNodeIdx), w0: nat)
    requires |c.path| >= 2
    requires c.distToNode == PathLength(g, c.path)
    requires c.weight == w0 + SegmentWeights(g, p, edgeDir, edgeWeight, c.path[1..])
    ensures var r := Visit(ways, g, p, edgeDir, edgeWeight, c, x);
      && r.1.path == c.path + [x.0]
      && r.1.distToNode == PathLength(g, r.1.path)
      && r.1.weight == w0 + SegmentWeights(g, p, edgeDir, edgeWeight, r.1.path[1..])
      && (r.0 == Break <==> ways.findNodeIdx(x.1).Some?)
      && r.1.node == match ways.findNodeIdx(x.1) case Some(n) => n case None => c.node
  {
    var r := Visit(ways, g, p, edgeDir, edgeWeight, c, x);
    var path := r.1.path;
    assert path[..|path| - 1] == c.path;
    assert path[1..] == c.path[1..] + [x.0];
    assert path[1..][..|path[1..]| - 1] == c.path[1..];
  }

  lemma PointsOfVisited<P>(ways: Ways<P>, polyline: seq<LatLng>, osmNodes: seq<OsmNodeIdx>, idxs: seq<nat>)
    requires |polyline| == |osmNodes|
    requires InBounds(idxs, |polyline|) && idxs != []
    ensures ways.findNodeIdx(osmNodes[idxs[0]]).None? ==>
      Points(polyline, VisitedPrefix(ways, osmNodes, idxs)) ==
      [polyline[idxs[0]]] + Points(polyline, VisitedPrefix(ways, osmNodes, idxs[1..]))
    ensures ways.findNodeIdx(osmNodes[idxs[0]]).Some? ==>
      Points(polyline, VisitedPrefix(ways, osmNodes, idxs)) == [polyline[idxs[0]]]
  {
    if ways.findNodeIdx(osmNodes[idxs[0]]).None? {
      assert VisitedPrefix(ways, osmNodes, idxs) == [idxs[0]] + VisitedPrefix(ways, osmNodes, idxs[1..]);
    }
  }

  /** One callback step: it appends the vertex, and breaks with its node exactly when the vertex has one. */
  lemma VisitStep<P>(ways: Ways<P>, g: Geometry, p: P, edgeDir: Direction, edgeWeight: WeightFn<P>,
                     c: NodeCandidate, x: (LatLng, OsmNodeIdx))
    ensures var r := Visitor(ways, g, p, edgeDir, edgeWeight)(c, x);
      && r.1.path == c.path + [x.0]
      && (r.0 == Break <==> ways.findNodeIdx(x.1).Some?)
      && r.1.node == match ways.findNodeIdx(x.1) case Some(n) => n case None => c.node
  {
  }

  /** The walk of find_next_node appends the visited vertices, up to the first one with a graph node. */
  lemma {:induction false} WalkOfVisitPath<P>(ways: Ways<P>, g: Geometry, p: P, edgeDir: Direction, edgeWeight: WeightFn<P>,
                                              polyline: seq<LatLng>, osmNodes: seq<OsmNodeIdx>,
                                              z: seq<(LatLng, OsmNodeIdx)>, c: NodeCandidate, idxs: seq<nat>)
    requires |polyline| == |osmNodes| == |z|
    requires forall k :: 0 <= k < |z| ==> z[k] == (polyline[k], osmNodes[k])
    requires InBounds(idxs, |polyline|)
    ensures Walk(Visitor(ways, g, p, edgeDir, edgeWeight), c, z, idxs).path ==
            c.path + Points(polyline, VisitedPrefix(ways, osmNodes, idxs))
    decreases |idxs|
  {
    if idxs != [] {
      var fn := Visitor(ways, g, p, edgeDir, edgeWeight);
      var x := z[idxs[0]];
      var step := fn(c, x);
      VisitStep(ways, g, p, edgeDir, edgeWeight, c, x);
      PointsOfVisited(ways, polyline, osmNodes, idxs);
      if ways.findNodeIdx(osmNodes[idxs[0]]).None? {
        var rest := Points(polyline, VisitedPrefix(ways, osmNodes, idxs[1..]));
        assert Walk(fn, c, z, idxs) == Walk(fn, step.1, z, idxs[1..]);
        WalkOfVisitPath(ways, g, p, edgeDir, edgeWeight, polyline, osmNodes, z, step.1, idxs[1..]);
        assert step.1.path + rest == c.path + ([polyline[idxs[0]]] + rest);
      } else {
        assert Walk(fn, c, z, idxs) == step.1;
      }
    }
  }

  /** The walk of find_next_node ends at the first graph node on its way, if there is one. */
  lemma {:induction false} WalkOfVisitNode<P>(ways: Ways<P>, g: Geometry, p: P, edgeDir: Direction, edgeWeight: WeightFn<P>,
                                              osmNodes: seq<OsmNodeIdx>, z: seq<(LatLng, OsmNodeIdx)>,
                                              c: NodeCandidate, idxs: seq<nat>)
    requires |osmNodes| == |z|
    requires forall k :: 0 <= k < |z| ==> z[k].1 == osmNodes[k]
    requires InBounds(idxs, |z|)
    ensures Walk(Visitor(ways, g, p, edgeDir, edgeWeight), c, z, idxs).node ==
            match HitNode(ways, osmNodes, idxs) case Some(n) => n case None => c.node
    decreases |idxs|
  {
    if idxs != [] {
      var fn := Visitor(ways, g, p, edgeDir, edgeWeight);
      var x := z[idxs[0]];
      var step := fn(c, x);
      VisitStep(ways, g, p, edgeDir, edgeWeight, c, x);
      if ways.findNodeIdx(osmNodes[idxs[0]]).None? {
        assert Walk(fn, c, z, idxs) == Walk(fn, step.1, z, idxs[1..]);
        WalkOfVisitNode(ways, g, p, edgeDir, edgeWeight, osmNodes, z, step.1, idxs[1..]);
      } else {
        assert Walk(fn, c, z, idxs) == step.1;
      }
    }
  }

  /** Along the walk the distance stays the path's length and the weight the sum of its segments' weights. */
  lemma {:induction false} WalkOfVisitMeasures<P>(ways: Ways<P>, g: Geometry, p: P, edgeDir: Direction, edgeWeight: WeightFn<P>,
                                                  z: seq<(LatLng, OsmNodeIdx)>, c: NodeCandidate, idxs: seq<nat>, w0: nat)
    requires InBounds(idxs, |z|)
    requires |c.path| >= 2
    requires c.distToNode == PathLength(g, c.path)
    requires c.weight == w0 + SegmentWeights(g, p, edgeDir, edgeWeight, c.path[1..])
    ensures var r := Walk(Visitor(ways, g, p, edgeDir, edgeWeight), c, z, idxs);
      && |r.path| >= 2
      && r.distToNode == PathLength(g, r.path)
      && r.weight == w0 + SegmentWeights(g, p, edgeDir, edgeWeight, r.path[1..])
    decreases |idxs|
  {
    if idxs != [] {
      var fn := Visitor(ways, g, p, edgeDir, edgeWeight);
      var x := z[idxs[0]];
      VisitKeeps(ways, g, p, edgeDir, edgeWeight, c, x, w0);
      var step := fn(c, x);
      if step.0 == Continue {
        assert Walk(fn, c, z, idxs) == Walk(fn, step.1, z, idxs[1..]);
        WalkOfVisitMeasures(ways, g, p, edgeDir, edgeWeight, z, step.1, idxs[1..], w0);
      } else {
        assert Walk(fn, c, z, idxs) == step.1;
      }
    }
  }

  /** The path find_next_node builds before the final reversal. */
  function WalkPath<P>(ways: Ways<P>, wc: WayCandidate, query: LatLng, dir: Direction): (path: seq<LatLng>)
    requires CandidateOn(ways, wc)
  {
    var polyline := ways.polylines[wc.way];
    VisitOrderInBounds(WalkStart(wc, dir), |polyline|, dir);
    [query, wc.best] + Points(polyline, VisitedPrefix(ways, ways.osmNodes[wc.way], VisitOrder(WalkStart(wc, dir), |polyline|, dir)))
  }

  /**
   * find_next_node: an infeasible edge direction gives the default candidate.
   * Otherwise the path is [query, best] followed by the vertices walked from
   * the matched segment up to and including the first one with a graph node
   * (or to the end of the polyline), reversed unless in reverse mode; the
   * distance is the length of that path; the weight is the weight at offset 0
   * plus the weight of each walked segment at its length; the node is the
   * first graph node found, or invalid.
   */
  lemma NextNodeShape<P>(ways: Ways<P>, g: Geometry, wc: WayCandidate, query: LatLng, dir: Direction,
                         reverse: bool, edgeWeight: WeightFn<P>)
    requires CandidateOn(ways, wc)
    ensures var p := ways.properties[wc.way];
      var edgeDir := EdgeDirection(dir, reverse);
      var r := NextNode(ways, g, wc, query, dir, reverse, edgeWeight);
      var polyline := ways.polylines[wc.way];
      var order := VisitOrder(WalkStart(wc, dir), |polyline|, dir);
      var path := WalkPath(ways, wc, query, dir);
      InBounds(order, |polyline|) &&
      (edgeWeight(p, edgeDir, 0.0) == kInfeasible ==> r == kNoCandidate) &&
      (edgeWeight(p, edgeDir, 0.0) != kInfeasible ==>
        && r.path == (if reverse then path else Reversed(path))
        && |r.path| == 2 + |VisitedPrefix(ways, ways.osmNodes[wc.way], order)|
        && r.distToNode == PathLength(g, path)
        && r.weight == edgeWeight(p, edgeDir, 0.0) + SegmentWeights(g, p, edgeDir, edgeWeight, path[1..])
        && r.node == match HitNode(ways, ways.osmNodes[wc.way], order) case Some(n) => n case None => kInvalidNode)
  {
    var p := ways.properties[wc.way];
    var edgeDir := EdgeDirection(dir, reverse);
    var polyline := ways.polylines[wc.way];
    VisitOrderInBounds(WalkStart(wc, dir), |polyline|, dir);
    if edgeWeight(p, edgeDir, 0.0) != kInfeasible {
      var w0 := edgeWeight(p, edgeDir, 0.0);
      var c0 := NodeCandidate(kInvalidNode, g.distance(query, wc.best), w0, [query, wc.best]);
      assert [query, wc.best][..1] == [query];
      assert c0.distToNode == PathLength(g, c0.path);
      assert c0.path[1..] == [wc.best];
      var order := VisitOrder(WalkStart(wc, dir), |polyline|, dir);
      var z := Zip(polyline, ways.osmNodes[wc.way]);
      WalkOfVisitPath(ways, g, p, edgeDir, edgeWeight, polyline, ways.osmNodes[wc.way], z, c0, order);
      WalkOfVisitNode(ways, g, p, edgeDir, edgeWeight, ways.osmNodes[wc.way], z, c0, order);
      WalkOfVisitMeasures(ways, g, p, edgeDir, edgeWeight, z, c0, order, w0);
    }
  }

  /** The returned path ends with the query unless in reverse mode, where it starts with it. */
  lemma NextNodeQueryEnd<P>(ways: Ways<P>, g: Geometry, wc: WayCandidate, query: LatLng, dir: Direction,
                            reverse: bool, edgeWeight: WeightFn<P>)
    requires CandidateOn(ways, wc)
    requires edgeWeight(ways.properties[wc.way], EdgeDirection(dir, reverse), 0.0) != kInfeasible
    ensures var r := NextNode(ways, g, wc, query, dir, reverse, edgeWeight);
      |r.path| >= 2 &&
      (reverse ==> r.path[0] == query && r.path[1] == wc.best) &&
      (!reverse ==> r.path[|r.path| - 1] == query && r.path[|r.path| - 2] == wc.best)
  {
    NextNodeShape(ways, g, wc, query, dir, reverse, edgeWeight);
  }

  /** With non-negative geometric distances, the distance to the next node is never negative. */
  lemma NextNodeNonNegative<P>(ways: Ways<P>, g: Geometry, wc: WayCandidate, query: LatLng, dir: Direction,
                               reverse: bool, edgeWeight: WeightFn<P>)
    requires CandidateOn(ways, wc)
    requires NonNegative(g)
    ensures NextNode(ways, g, wc, query, dir, reverse, edgeWeight).distToNode >= 0.0
  {
    NextNodeShape(ways, g, wc, query, dir, reverse, edgeWeight);
    NonNegativePathLength(g, WalkPath(ways, wc, query, dir));
  }

  /** The node of find_next_node's result: the first graph node the walk reaches, if the edge is feasible. */
  lemma NextNodeNode<P>(ways: Ways<P>, g: Geometry, wc: WayCandidate, query: LatLng, dir: Direction,
                        reverse: bool, edgeWeight: WeightFn<P>)
    requires CandidateOn(ways, wc)
    ensures var polyline := ways.polylines[wc.way];
      var order := VisitOrder(WalkStart(wc, dir), |polyline|, dir);
      var feasible := edgeWeight(ways.properties[wc.way], EdgeDirection(dir, reverse), 0.0) != kInfeasible;
      InBounds(order, |polyline|) &&
      NextNode(ways, g, wc, query, dir, reverse, edgeWeight).node ==
        if !feasible then kInvalidNode
        else match HitNode(ways, ways.osmNodes[wc.way], order) case Some(n) => n case None => kInvalidNode
  {
    var p := ways.properties[wc.way];
    var edgeDir := EdgeDirection(dir, reverse);
    var polyline := ways.polylines[wc.way];
    VisitOrderInBounds(WalkStart(wc, dir), |polyline|, dir);
    if edgeWeight(p, edgeDir, 0.0) != kInfeasible {
      var c0 := NodeCandidate(kInvalidNode, g.distance(query, wc.best), edgeWeight(p, edgeDir, 0.0), [query, wc.best]);
      var order := VisitOrder(WalkStart(wc, dir), |polyline|, dir);
      var z := Zip(polyline, ways.osmNodes[wc.way]);
      WalkOfVisitNode(ways, g, p, edgeDir, edgeWeight, ways.osmNodes[wc.way], z, c0, order);
    }
  }

  /** The candidate is valid exactly when the walk reaches a vertex with a graph node other than the invalid one. */
  lemma NextNodeValid<P>(ways: Ways<P>, g: Geometry, wc: WayCandidate, query: LatLng, dir: Direction,
                         reverse: bool, edgeWeight: WeightFn<P>)
    requires CandidateOn(ways, wc)
    ensures var r := NextNode(ways, g, wc, query, dir, reverse, edgeWeight);
      var polyline := ways.polylines[wc.way];
      var order := VisitOrder(WalkStart(wc, dir), |polyline|, dir);
      var feasible := edgeWeight(ways.properties[wc.way], EdgeDirection(dir, reverse), 0.0) != kInfeasible;
      InBounds(order, |polyline|) &&
      (r.Valid() <==> (feasible &&
         exists k :: 0 <= k < |order| &&
           ways.findNodeIdx(ways.osmNodes[wc.way][order[k]]).Some? &&
           ways.findNodeIdx(ways.osmNodes[wc.way][order[k]]).value != kInvalidNode &&
           forall j :: 0 <= j < k ==> ways.findNodeIdx(ways.osmNodes[wc.way][order[j]]).None?))
  {
    NextNodeNode(ways, g, wc, query, dir, reverse, edgeWeight);
    var polyline := ways.polylines[wc.way];
    var osmNodes := ways.osmNodes[wc.way];
    var order := VisitOrder(WalkStart(wc, dir), |polyline|, dir);
    HitNodeFirst(ways, osmNodes, order);
    var h := HitNode(ways, osmNodes, order);
    if h.Some? {
      assert exists k :: (0 <= k < |order| && ways.findNodeIdx(osmNodes[order[k]]) == Some(h.value) &&
                          forall j :: 0 <= j < k ==> ways.findNodeIdx(osmNodes[order[j]]).None?);
    }
    forall k | (0 <= k < |order| && ways.findNodeIdx(osmNodes[order[k]]).Some? &&
                forall j :: 0 <= j < k ==> ways.findNodeIdx(osmNodes[order[j]]).None?)
      ensures h == ways.findNodeIdx(osmNodes[order[k]])
    {
      var v := ways.findNodeIdx(osmNodes[order[k]]).value;
      assert ways.findNodeIdx(osmNodes[order[k]]) == Some(v);
      assert h == Some(v);
    }
  }

  lemma {:induction false} HitNodeFirst<P>(ways: Ways<P>, osmNodes: seq<OsmNodeIdx>, idxs: seq<nat>)
    requires InBounds(idxs, |osmNodes|)
    ensures forall n :: HitNode(ways, osmNodes, idxs) == Some(n) <==>
      exists k :: 0 <= k < |idxs| && ways.findNodeIdx(osmNodes[idxs[k]]) == Some(n) &&
        forall j :: 0 <= j < k ==> ways.findNodeIdx(osmNodes[idxs[j]]).None?
    decreases |idxs|
  {
    if idxs != [] {
      HitNodeFirst(ways, osmNodes, idxs[1..]);
      forall n ensures HitNode(ways, osmNodes, idxs) == Some(n) <==>
        exists k :: 0 <= k < |idxs| && ways.findNodeIdx(osmNodes[idxs[k]]) == Some(n) &&
          forall j :: 0 <= j < k ==> ways.findNodeIdx(osmNodes[idxs[j]]).None?
      {
        if ways.findNodeIdx(osmNodes[idxs[0]]).None? {
          if HitNode(ways, osmNodes, idxs) == Some(n) {
            var k :| 0 <= k < |idxs[1..]| && ways.findNodeIdx(osmNodes[idxs[1..][k]]) == Some(n) &&
              forall j :: 0 <= j < k ==> ways.findNodeIdx(osmNodes[idxs[1..][j]]).None?;
            assert forall j :: 0 <= j < k + 1 ==> ways.findNodeIdx(osmNodes[idxs[j]]).None? by {
              forall j | 0 <= j < k + 1 ensures ways.findNodeIdx(osmNodes[idxs[j]]).None? {
                if j > 0 {
                  assert idxs[j] == idxs[1..][j - 1];
                }
              }
            }
          }
          if exists k :: 0 <= k < |idxs| && ways.findNodeIdx(osmNodes[idxs[k]]) == Some(n) &&
               forall j :: 0 <= j < k ==> ways.findNodeIdx(osmNodes[idxs[j]]).None? {
            var k :| 0 <= k < |idxs| && ways.findNodeIdx(osmNodes[idxs[k]]) == Some(n) &&
              forall j :: 0 <= j < k ==> ways.findNodeIdx(osmNodes[idxs[j]]).None?;
            assert k > 0;
            assert ways.findNodeIdx(osmNodes[idxs[1..][k - 1]]) == Some(n);
            assert forall j :: 0 <= j < k - 1 ==> ways.findNodeIdx(osmNodes[idxs[1..][j]]).None? by {
              forall j | 0 <= j < k - 1 ensures ways.findNodeIdx(osmNodes[idxs[1..][j]]).None? {
                assert idxs[1..][j] == idxs[j + 1];
              }
            }
          }
        } else {
          if HitNode(ways, osmNodes, idxs) == Some(n) {
            assert ways.findNodeIdx(osmNodes[idxs[0]]) == Some(n);
          }
        }
      }
    }
  }

  // ---------------------------------------------------------------------
  // match
  // ---------------------------------------------------------------------

  ghost predicate CandidatesValid<P>(ways: Ways<P>, candidates: seq<WayIdx>)
  {
    ways.Valid() && forall k :: 0 <= k < |candidates| ==> candidates[k] < |ways.polylines|
  }

  /** The way candidate match emits for one way reported by the spatial index, if any. */
  function Candidate<P>(ways: Ways<P>, g: Geometry, way: WayIdx, query: LatLng, reverse: bool, fn: WeightFn<P>): (r: Option<WayCandidate>)
    requires ways.Valid() && way < |ways.polylines|
    ensures r.Some? ==>
      && fn(ways.properties[way], Forward, 0.0) != kInfeasible
      && r.value.distToWay < kMaxMatchDistance
      && r.value.way == way
      && var d := ClosestSegment(g, query, ways.polylines[way]);
         r.value.distToWay == d.distToWay && r.value.best == d.best && r.value.segmentIdx == d.segmentIdx
  {
    if fn(ways.properties[way], Forward, 0.0) == kInfeasible then None
    else
      var d := ClosestSegment(g, query, ways.polylines[way]);
      if d.distToWay < kMaxMatchDistance then
        var wc := d.(way := way);
        var left := NextNode(ways, g, wc, query, Backward, reverse, fn);
        var wc1 := wc.(left := left);
        var right := NextNode(ways, g, wc1, query, Forward, reverse, fn);
        Some(wc1.(right := right))
      else None
  }

  /** The candidate of each way the spatial index reports, in the order it reports them. */
  function Candidates<P>(ways: Ways<P>, g: Geometry, candidates: seq<WayIdx>, query: LatLng, reverse: bool, fn: WeightFn<P>)
    : (os: seq<Option<WayCandidate>>)
    requires CandidatesValid(ways, candidates)
    ensures |os| == |candidates|
    ensures forall k :: 0 <= k < |os| ==> os[k] == Candidate(ways, g, candidates[k], query, reverse, fn)
  {
    seq(|candidates|, k requires 0 <= k < |candidates| => Candidate(ways, g, candidates[k], query, reverse, fn))
  }

  /** The values of the present options, in order. */
  function Somes<U>(os: seq<Option<U>>): (r: seq<U>)
  {
    if os == [] then []
    else
      Somes(os[..|os| - 1]) + match os[|os| - 1] case Some(v) => [v] case None => []
  }

  lemma {:induction false} SomesMembers<U>(os: seq<Option<U>>)
    ensures forall v :: v in Somes(os) <==> Some(v) in os
    decreases |os|
  {
    if os != [] {
      var n := |os| - 1;
      SomesMembers(os[..n]);
      assert os == os[..n] + [os[n]];
    }
  }

  /** Extending the options by one extends their values by its value, if present. */
  lemma SomesSnoc<U>(os: seq<Option<U>>, i: nat)
    requires i < |os|
    ensures Somes(os[..i + 1]) == Somes(os[..i]) + match os[i] case Some(v) => [v] case None => []
  {
    assert os[..i + 1][..i] == os[..i];
  }

  /** The candidates match collects, in the order the index reports the ways. */
  function Collect<P>(ways: Ways<P>, g: Geometry, candidates: seq<WayIdx>, query: LatLng, reverse: bool, fn: WeightFn<P>): (r: seq<WayCandidate>)
    requires CandidatesValid(ways, candidates)
  {
    Somes(Candidates(ways, g, candidates, query, reverse, fn))
  }

  /**
   * match emits a candidate for a way exactly when the way's forward weight is
   * feasible and its distance is below 100; the candidate carries that way,
   * the backward side as left and the forward side as right.
   */
  lemma CollectMembers<P>(ways: Ways<P>, g: Geometry, candidates: seq<WayIdx>, query: LatLng, reverse: bool, fn: WeightFn<P>)
    requires CandidatesValid(ways, candidates)
    ensures forall wc :: wc in Collect(ways, g, candidates, query, reverse, fn) <==>
      exists k :: 0 <= k < |candidates| && Candidate(ways, g, candidates[k], query, reverse, fn) == Some(wc)
  {
    var os := Candidates(ways, g, candidates, query, reverse, fn);
    SomesMembers(os);
    forall wc ensures Some(wc) in os <==>
      exists k :: 0 <= k < |candidates| && Candidate(ways, g, candidates[k], query, reverse, fn) == Some(wc)
    {
      if Some(wc) in os {
        var k :| 0 <= k < |os| && os[k] == Some(wc);
        assert Candidate(ways, g, candidates[k], query, reverse, fn) == Some(wc);
      }
    }
  }

  /** The two sides of an emitted candidate. */
  lemma CandidateSides<P>(ways: Ways<P>, g: Geometry, way: WayIdx, query: LatLng, reverse: bool, fn: WeightFn<P>)
    requires ways.Valid() && way < |ways.polylines|
    ensures var r := Candidate(ways, g, way, query, reverse, fn);
      var d := ClosestSegment(g, query, ways.polylines[way]);
      (r.Some? <==> fn(ways.properties[way], Forward, 0.0) != kInfeasible && d.distToWay < kMaxMatchDistance) &&
      (r.Some? ==>
        d.segmentIdx + 1 < |ways.polylines[way]| &&
        CandidateOn(ways, r.value) &&
        r.value.left == NextNode(ways, g, r.value, query, Backward, reverse, fn) &&
        r.value.right == NextNode(ways, g, r.value, query, Forward, reverse, fn))
  {
  }

  ghost predicate SortedByDistance(s: seq<WayCandidate>)
  {
    forall i, j :: 0 <= i < j < |s| ==> s[i].distToWay <= s[j].distToWay
  }

  function InsertByDistance(s: seq<WayCandidate>, x: WayCandidate): (r: seq<WayCandidate>)
    ensures multiset(r) == multiset(s) + multiset{x}
    ensures |r| == |s| + 1
    ensures s == [] ==> r == [x]
    ensures s != [] ==> r[0] == x || r[0] == s[0]
  {
    if s == [] then [x]
    else if !Less(s[0], x) then [x] + s
    else
      assert s == [s[0]] + s[1..];
      [s[0]] + InsertByDistance(s[1..], x)
  }

  /** Inserting into a sorted sequence keeps it sorted. */
  lemma {:induction false} InsertKeepsSorted(s: seq<WayCandidate>, x: WayCandidate)
    requires SortedByDistance(s)
    ensures SortedByDistance(InsertByDistance(s, x))
    decreases |s|
  {
    if s != [] && Less(s[0], x) {
      InsertKeepsSorted(s[1..], x);
      var t := InsertByDistance(s[1..], x);
      assert forall j :: 0 <= j < |t| ==> s[0].distToWay <= t[j].distToWay by {
        assert s[0].distToWay <= t[0].distToWay;
      }
    }
  }

  /** utl::sort with operator<: ascending by distance, a permutation of its input. */
  function SortByDistance(s: seq<WayCandidate>): (r: seq<WayCandidate>)
    ensures SortedByDistance(r)
    ensures multiset(r) == multiset(s)
  {
    if s == [] then []
    else
      assert s == s[..|s| - 1] + [s[|s| - 1]];
      InsertKeepsSorted(SortByDistance(s[..|s| - 1]), s[|s| - 1]);
      InsertByDistance(SortByDistance(s[..|s| - 1]), s[|s| - 1])
  }

  /** The callback match hands to the spatial index, for one reported way. */
  method MatchWay<P>(ways: Ways<P>, g: Geometry, way: WayIdx, query: LatLng, reverse: bool, fn: WeightFn<P>)
    returns (r: Option<WayCandidate>)
    requires ways.Valid() && way < |ways.polylines|
    ensures r == Candidate(ways, g, way, query, reverse, fn)
  {
    r := None;
    if fn(ways.properties[way], Forward, 0.0) != kInfeasible {
      var d := DistanceToWay(g, query, ways.polylines[way]);
      if d.distToWay < kMaxMatchDistance {
        var wc := d.(way := way);
        var left := FindNextNode(ways, g, wc, query, Backward, reverse, fn);
        wc := wc.(left := left);
        var right := FindNextNode(ways, g, wc, query, Forward, reverse, fn);
        wc := wc.(right := right);
        r := Some(wc);
      }
    }
  }

  /** Every collected candidate is closer than the match radius. */
  lemma CollectNear<P>(ways: Ways<P>, g: Geometry, candidates: seq<WayIdx>, query: LatLng, reverse: bool, fn: WeightFn<P>)
    requires CandidatesValid(ways, candidates)
    ensures forall wc :: wc in Collect(ways, g, candidates, query, reverse, fn) ==> wc.distToWay < kMaxMatchDistance
  {
    CollectMembers(ways, g, candidates, query, reverse, fn);
  }

  /** The rtree query of match: the callback applied to each reported way, keeping the candidates it emits. */
  method CollectWays<P>(ways: Ways<P>, g: Geometry, candidates: seq<WayIdx>, query: LatLng, reverse: bool, fn: WeightFn<P>)
    returns (r: seq<WayCandidate>)
    requires CandidatesValid(ways, candidates)
    ensures r == Collect(ways, g, candidates, query, reverse, fn)
  {
    ghost var os := Candidates(ways, g, candidates, query, reverse, fn);
    r := [];
    var i := 0;
    while i < |candidates|
      invariant 0 <= i <= |candidates|
      invariant r == Somes(os[..i])
    {
      SomesSnoc(os, i);
      var wc := MatchWay(ways, g, candidates[i], query, reverse, fn);
      if wc.Some? {
        r := r + [wc.value];
      }
      i := i + 1;
    }
    assert os[..i] == os;
  }

  /**
   * match(query, reverse, fn) over the ways the spatial index reports for the
   * query: the collected candidates, sorted ascending by distance.
   */
  method Match<P>(ways: Ways<P>, g: Geometry, candidates: seq<WayIdx>, query: LatLng, reverse: bool, fn: WeightFn<P>)
    returns (r: seq<WayCandidate>)
    requires CandidatesValid(ways, candidates)
    ensures multiset(r) == multiset(Collect(ways, g, candidates, query, reverse, fn))
    ensures SortedByDistance(r)
    ensures forall k :: 0 <= k < |r| ==> r[k].distToWay < kMaxMatchDistance
  {
    var wayCandidates := CollectWays(ways, g, candidates, query, reverse, fn);
    CollectNear(ways, g, candidates, query, reverse, fn);
    r := SortByDistance(wayCandidates);
    forall k | 0 <= k < |r| ensures r[k].distToWay < kMaxMatchDistance {
      assert r[k] in multiset(wayCandidates);
    }
  }
}
