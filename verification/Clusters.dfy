/**
 Grouping resource blocks into clusters, and choosing the cluster to work on.
 */
module Clusters {
  import opened Options

  datatype Point = Point(x: int, y: int, z: int)

  function DistSq(a: Point, b: Point): nat {
    Square(a.x - b.x) + Square(a.y - b.y) + Square(a.z - b.z)
  }

  function Square(n: int): nat { if n < 0 then (-n) * (-n) else n * n }

  predicate Near(a: Point, b: Point, maxStep: int) { DistSq(a, b) <= Square(maxStep) }

  lemma SquareIs(n: int)
    ensures Square(n) == n * n
  {}

  /** One step is a Euclidean distance of `maxStep` at most, whatever the sign of `maxStep`. */
  lemma NearIs(a: Point, b: Point, maxStep: int)
    ensures DistSq(a, b) == (a.x - b.x) * (a.x - b.x) + (a.y - b.y) * (a.y - b.y) + (a.z - b.z) * (a.z - b.z)
    ensures Near(a, b, maxStep) <==>
              (a.x - b.x) * (a.x - b.x) + (a.y - b.y) * (a.y - b.y) + (a.z - b.z) * (a.z - b.z) <= maxStep * maxStep
  {
    hide Square;
    SquareIs(a.x - b.x);
    SquareIs(a.y - b.y);
    SquareIs(a.z - b.z);
    SquareIs(maxStep);
  }

  lemma SquareSmall(n: int)
    ensures Square(n) == 0 <==> n == 0
    ensures Square(n) == 1 <==> n == 1 || n == -1
    ensures n > 1 || n < -1 ==> Square(n) > 1
  {
    SquareIs(n);
  }

  /** With a step of one, those are the point itself and the six that share a face with it. */
  lemma UnitStepsAreFaces(a: Point, b: Point)
    ensures Near(a, b, 1) <==> b in {a, a.(x := a.x + 1), a.(x := a.x - 1), a.(y := a.y + 1), a.(y := a.y - 1),
                                     a.(z := a.z + 1), a.(z := a.z - 1)}
  {
    hide Square;
    SquareSmall(a.x - b.x);
    SquareSmall(a.y - b.y);
    SquareSmall(a.z - b.z);
    SquareSmall(1);
  }

  function Elements(points: seq<Point>): set<Point> { set p | p in points }

  ghost predicate Distinct(points: seq<Point>) {
    forall i, j | 0 <= i < j < |points| :: points[i] != points[j]
  }

  // ---------------------------------------------------------------- chains and components

  ghost predicate Chain(points: set<Point>, maxStep: int, chain: seq<Point>) {
    && chain != []
    && (forall i | 0 <= i < |chain| :: chain[i] in points)
    && (forall i | 0 < i < |chain| :: Near(chain[i - 1], chain[i], maxStep))
  }

  ghost predicate ChainFrom(points: set<Point>, maxStep: int, chain: seq<Point>, p: Point, q: Point) {
    Chain(points, maxStep, chain) && chain[0] == p && chain[|chain| - 1] == q
  }

  /** A chain of steps inside `points` joins `p` and `q`. */
  ghost predicate Linked(points: set<Point>, maxStep: int, p: Point, q: Point) {
    exists chain :: ChainFrom(points, maxStep, chain, p, q)
  }

  ghost predicate Closed(points: set<Point>, maxStep: int, part: set<Point>) {
    forall p, q | p in part && q in points && Near(p, q, maxStep) :: q in part
  }

  ghost predicate Component(points: set<Point>, maxStep: int, cluster: seq<Point>) {
    && cluster != [] && Distinct(cluster) && Elements(cluster) <= points
    && Closed(points, maxStep, Elements(cluster))
    && forall p | p in cluster :: Linked(points, maxStep, cluster[0], p)
  }

  lemma LinkedSelf(points: set<Point>, maxStep: int, p: Point)
    requires p in points
    ensures Linked(points, maxStep, p, p)
  {
    assert ChainFrom(points, maxStep, [p], p, p);
  }

  lemma LinkedStep(points: set<Point>, maxStep: int, p: Point, q: Point, r: Point)
    requires Linked(points, maxStep, p, q) && r in points && Near(q, r, maxStep)
    ensures Linked(points, maxStep, p, r)
  {
    hide Near;
    var chain :| ChainFrom(points, maxStep, chain, p, q);
    assert ChainFrom(points, maxStep, chain + [r], p, r);
  }

  lemma {:induction false} LinkedAcross(points: set<Point>, maxStep: int, p: Point, chain: seq<Point>, q: Point,
                                        r: Point)
    requires Linked(points, maxStep, p, q) && ChainFrom(points, maxStep, chain, q, r)
    ensures Linked(points, maxStep, p, r)
    decreases |chain|
  {
    hide Near, Linked;
    if |chain| > 1 {
      LinkedStep(points, maxStep, p, q, chain[1]);
      assert ChainFrom(points, maxStep, chain[1..], chain[1], r);
      LinkedAcross(points, maxStep, p, chain[1..], chain[1], r);
    }
  }

  lemma {:induction false} LinkedBack(points: set<Point>, maxStep: int, chain: seq<Point>, p: Point, q: Point)
    requires ChainFrom(points, maxStep, chain, p, q)
    ensures Linked(points, maxStep, q, p)
    decreases |chain|
  {
    hide Near, Linked;
    var n := |chain| - 1;
    if n == 0 {
      LinkedSelf(points, maxStep, p);
    } else {
      NearBothWays(chain[n - 1], q, maxStep);
      LinkedSelf(points, maxStep, q);
      LinkedStep(points, maxStep, q, q, chain[n - 1]);
      assert ChainFrom(points, maxStep, chain[..n], p, chain[n - 1]);
      LinkedBack(points, maxStep, chain[..n], p, chain[n - 1]);
      LinkedTrans(points, maxStep, q, chain[n - 1], p);
    }
  }

  lemma LinkedTrans(points: set<Point>, maxStep: int, p: Point, q: Point, r: Point)
    requires Linked(points, maxStep, p, q) && Linked(points, maxStep, q, r)
    ensures Linked(points, maxStep, p, r)
  {
    var chain :| ChainFrom(points, maxStep, chain, q, r);
    LinkedAcross(points, maxStep, p, chain, q, r);
  }

  lemma NearBothWays(p: Point, q: Point, maxStep: int)
    ensures Near(p, q, maxStep) == Near(q, p, maxStep)
  {}

  lemma {:induction false} ChainStaysInside(points: set<Point>, maxStep: int, part: set<Point>, chain: seq<Point>,
                                            p: Point, q: Point)
    requires Closed(points, maxStep, part) && ChainFrom(points, maxStep, chain, p, q) && p in part
    ensures q in part
    decreases |chain|
  {
    hide Near;
    if |chain| > 1 {
      assert ChainFrom(points, maxStep, chain[1..], chain[1], q);
      ChainStaysInside(points, maxStep, part, chain[1..], chain[1], q);
    }
  }

  /** A component holds exactly the points that a chain of steps joins to any one of its members. */
  lemma ComponentIsLinkClass(points: set<Point>, maxStep: int, cluster: seq<Point>, p: Point, q: Point)
    requires Component(points, maxStep, cluster) && p in cluster && q in points
    ensures q in cluster <==> Linked(points, maxStep, p, q)
  {
    hide Near;
    if q in cluster {
      var chain :| ChainFrom(points, maxStep, chain, cluster[0], p);
      LinkedBack(points, maxStep, chain, cluster[0], p);
      LinkedTrans(points, maxStep, p, cluster[0], q);
    } else if Linked(points, maxStep, p, q) {
      var chain :| ChainFrom(points, maxStep, chain, p, q);
      ChainStaysInside(points, maxStep, Elements(cluster), chain, p, q);
    }
  }

  // ---------------------------------------------------------------- the clustering

  /** `clusters` are components that do not overlap and together hold `points` without `remaining`. */
  ghost predicate Settled(points: set<Point>, maxStep: int, clusters: seq<seq<Point>>, remaining: set<Point>) {
    && remaining <= points
    && (forall i | 0 <= i < |clusters| :: Component(points, maxStep, clusters[i]))
    && (forall i | 0 <= i < |clusters| :: Elements(clusters[i]) !! remaining)
    && (forall i, j | 0 <= i < j < |clusters| :: Elements(clusters[i]) !! Elements(clusters[j]))
    && (forall p | p in points && p !in remaining :: exists i :: 0 <= i < |clusters| && p in clusters[i])
  }

  /** The state of one search: `cluster` has been split off from `open`, and only members
      still in `queue` may have neighbours among what remains. */
  ghost predicate Searching(points: set<Point>, maxStep: int, open: set<Point>, cluster: seq<Point>, queue: seq<Point>,
                            remaining: set<Point>) {
    && open <= points
    && cluster != [] && Distinct(cluster)
    && Elements(cluster) !! remaining && Elements(cluster) + remaining == open
    && (forall p | p in queue :: p in cluster)
    && (forall p | p in cluster :: Linked(points, maxStep, cluster[0], p))
    && (forall p, q | p in cluster && p !in queue && q in remaining :: !Near(p, q, maxStep))
  }

  lemma SearchStarts(points: set<Point>, maxStep: int, open: set<Point>, root: Point)
    requires open <= points && root in open
    ensures Searching(points, maxStep, open, [root], [root], open - {root})
  {
    LinkedSelf(points, maxStep, root);
  }

  lemma SearchGoesOn(points: set<Point>, maxStep: int, open: set<Point>, cluster: seq<Point>, queue: seq<Point>,
                     remaining: set<Point>, neighbors: seq<Point>)
    requires Searching(points, maxStep, open, cluster, queue, remaining) && queue != []
    requires Distinct(neighbors)
    requires forall p :: p in neighbors <==> p in remaining && Near(p, queue[0], maxStep)
    ensures Searching(points, maxStep, open, cluster + neighbors, queue[1..] + neighbors,
                      remaining - Elements(neighbors))
  {
    hide Near, Linked;
    var cluster', queue', remaining' := cluster + neighbors, queue[1..] + neighbors, remaining - Elements(neighbors);
    forall i, j | 0 <= i < j < |cluster'| ensures cluster'[i] != cluster'[j] {
      if i < |cluster| <= j {
        assert cluster[i] in Elements(cluster) && cluster'[j] in neighbors;
      }
    }
    assert queue == [queue[0]] + queue[1..];
    assert Elements(cluster') == Elements(cluster) + Elements(neighbors);
    forall p | p in neighbors ensures Linked(points, maxStep, cluster[0], p) {
      NearBothWays(p, queue[0], maxStep);
      LinkedStep(points, maxStep, cluster[0], queue[0], p);
    }
    forall p, q | p in cluster' && p !in queue' && q in remaining' ensures !Near(p, q, maxStep) {
      if p == queue[0] {
        NearBothWays(q, p, maxStep);
      } else {
        assert p !in queue;
      }
    }
  }

  lemma SearchEnds(points: set<Point>, maxStep: int, open: set<Point>, clusters: seq<seq<Point>>, cluster: seq<Point>,
                   remaining: set<Point>)
    requires Settled(points, maxStep, clusters, open)
    requires Searching(points, maxStep, open, cluster, [], remaining)
    ensures Settled(points, maxStep, clusters + [cluster], remaining)
  {
    hide Near, Linked;
    var clusters' := clusters + [cluster];
    forall p, q | p in cluster && q in points && Near(p, q, maxStep) ensures q in cluster {
      if q !in open {
        var i :| 0 <= i < |clusters| && q in clusters[i];
        NearBothWays(p, q, maxStep);
        assert false;
      }
    }
    forall p | p in points && p !in remaining ensures exists i :: 0 <= i < |clusters'| && p in clusters'[i] {
      if p in open {
        assert p in clusters'[|clusters|];
      } else {
        var i :| 0 <= i < |clusters| && p in clusters[i];
        assert p in clusters'[i];
      }
    }
    assert Component(points, maxStep, cluster);
    forall i | 0 <= i < |clusters| ensures Elements(clusters[i]) !! Elements(cluster) {
      assert Elements(cluster) <= open;
    }
  }

  /** The neighbours of `center` among `remaining`, in whatever order the set yields them. */
  method NeighborsOf(remaining: set<Point>, center: Point, maxStep: int) returns (neighbors: seq<Point>)
    ensures Distinct(neighbors)
    ensures forall p :: p in neighbors <==> p in remaining && Near(p, center, maxStep)
    ensures forall p | p in remaining :: p in neighbors <==>
              (p.x - center.x) * (p.x - center.x) + (p.y - center.y) * (p.y - center.y)
              + (p.z - center.z) * (p.z - center.z) <= maxStep * maxStep
  {
    hide Near, DistSq;
    forall p ensures Near(p, center, maxStep) <==>
        (p.x - center.x) * (p.x - center.x) + (p.y - center.y) * (p.y - center.y)
        + (p.z - center.z) * (p.z - center.z) <= maxStep * maxStep
    {
      NearIs(p, center, maxStep);
    }
    neighbors := [];
    var left := remaining;
    while left != {}
      invariant left <= remaining && Distinct(neighbors)
      invariant forall p :: p in neighbors <==> p in remaining && p !in left && Near(p, center, maxStep)
    {
      var p :| p in left;
      left := left - {p};
      if Near(p, center, maxStep) {
        neighbors := neighbors + [p];
      }
    }
  }

  /** Whatever points `pop` and the iteration pick, the clusters are the connected components:
      no point is lost or repeated, and two points share a cluster iff a chain joins them. */
  method BuildConnectedClusters(points: seq<Point>, maxStep: int) returns (clusters: seq<seq<Point>>)
    ensures Settled(Elements(points), maxStep, clusters, {})
    ensures forall p :: p in points <==> exists i :: 0 <= i < |clusters| && p in clusters[i]
    ensures forall i, p, q | 0 <= i < |clusters| && p in clusters[i] && q in points ::
              q in clusters[i] <==> Linked(Elements(points), maxStep, p, q)
  {
    hide Near, Linked, Searching, Component, Settled;
    ghost var all := Elements(points);
    var remaining := Elements(points);
    clusters := [];
    NothingSettled(all, maxStep);
    while remaining != {}
      invariant Settled(all, maxStep, clusters, remaining)
      decreases remaining
    {
      ghost var open := remaining;
      var root :| root in remaining;
      SettledInside(all, maxStep, clusters, remaining);
      remaining := remaining - {root};
      var queue, cluster := [root], [root];
      SearchStarts(all, maxStep, open, root);
      while queue != []
        invariant Searching(all, maxStep, open, cluster, queue, remaining) && remaining < open
        decreases remaining, |queue|
      {
        var neighbors := NeighborsOf(remaining, queue[0], maxStep);
        SearchGoesOn(all, maxStep, open, cluster, queue, remaining, neighbors);
        if neighbors == [] {
          assert remaining - Elements(neighbors) == remaining;
        } else {
          assert neighbors[0] in neighbors;
        }
        queue, cluster, remaining := queue[1..] + neighbors, cluster + neighbors, remaining - Elements(neighbors);
      }
      SearchEnds(all, maxStep, open, clusters, cluster, remaining);
      clusters := clusters + [cluster];
    }
    SettledDecides(points, maxStep, clusters);
  }

  lemma NothingSettled(points: set<Point>, maxStep: int)
    ensures Settled(points, maxStep, [], points)
  {}

  lemma SettledInside(points: set<Point>, maxStep: int, clusters: seq<seq<Point>>, remaining: set<Point>)
    requires Settled(points, maxStep, clusters, remaining)
    ensures remaining <= points
  {}

  lemma SettledDecides(points: seq<Point>, maxStep: int, clusters: seq<seq<Point>>)
    requires Settled(Elements(points), maxStep, clusters, {})
    ensures forall p :: p in points <==> exists i :: 0 <= i < |clusters| && p in clusters[i]
    ensures forall i, p, q | 0 <= i < |clusters| && p in clusters[i] && q in points ::
              q in clusters[i] <==> Linked(Elements(points), maxStep, p, q)
  {
    hide Near, Linked;
    forall p ensures p in points <==> exists i :: 0 <= i < |clusters| && p in clusters[i] {
      if i :| 0 <= i < |clusters| && p in clusters[i] {
        assert Component(Elements(points), maxStep, clusters[i]) && p in Elements(clusters[i]);
      } else {
        assert p in points ==> p in Elements(points);
      }
    }
    forall i, p, q | 0 <= i < |clusters| && p in clusters[i] && q in points
      ensures q in clusters[i] <==> Linked(Elements(points), maxStep, p, q)
    {
      ComponentIsLinkClass(Elements(points), maxStep, clusters[i], p, q);
    }
  }

  // ---------------------------------------------------------------- choosing a cluster

  /** The squared distance from `origin` to the closest point; None stands for infinity. */
  function ClusterDistance(cluster: seq<Point>, origin: Point): Option<nat> {
    if cluster == [] then None
    else
      var first, others := DistSq(cluster[0], origin), ClusterDistance(cluster[1..], origin);
      if others.Some? && others.value < first then others else Some(first)
  }

  predicate Closer(a: Option<nat>, b: Option<nat>) {
    a.Some? && (b.None? || a.value < b.value)
  }

  function BigEnough(clusters: seq<seq<Point>>, minSize: int): seq<seq<Point>> {
    if clusters == [] then []
    else (if |clusters[0]| >= minSize then [clusters[0]] else []) + BigEnough(clusters[1..], minSize)
  }

  /** The first of the clusters that are closest to `origin`. */
  function FirstClosest(clusters: seq<seq<Point>>, origin: Point): seq<Point>
    requires clusters != []
  {
    if |clusters| == 1 then clusters[0]
    else
      var other := FirstClosest(clusters[1..], origin);
      if Closer(ClusterDistance(other, origin), ClusterDistance(clusters[0], origin)) then other else clusters[0]
  }

  function ChooseNearestCluster(clusters: seq<seq<Point>>, origin: Point, minSize: int): seq<Point> {
    var valid := BigEnough(clusters, minSize);
    if valid == [] then [] else FirstClosest(valid, origin)
  }

  lemma {:induction false} DistanceIsAttained(cluster: seq<Point>, origin: Point)
    ensures var d := ClusterDistance(cluster, origin);
      if cluster == [] then d.None?
      else d.Some? && (exists p :: p in cluster && DistSq(p, origin) == d.value)
           && forall p | p in cluster :: d.value <= DistSq(p, origin)
    decreases |cluster|
  {
    hide DistSq;
    if cluster != [] {
      DistanceIsAttained(cluster[1..], origin);
      var d := ClusterDistance(cluster, origin).value;
      var p :| p in cluster && (p == cluster[0] || p in cluster[1..]) && DistSq(p, origin) == d;
    }
  }

  lemma {:induction false} FirstClosestIsClosest(clusters: seq<seq<Point>>, origin: Point)
    requires clusters != []
    ensures var c := FirstClosest(clusters, origin);
      c in clusters && forall other | other in clusters ::
        !Closer(ClusterDistance(other, origin), ClusterDistance(c, origin))
    decreases |clusters|
  {
    hide ClusterDistance;
    if |clusters| > 1 {
      FirstClosestIsClosest(clusters[1..], origin);
    }
  }

  lemma {:induction false} BigEnoughKeeps(clusters: seq<seq<Point>>, minSize: int)
    ensures forall c :: c in BigEnough(clusters, minSize) <==> c in clusters && |c| >= minSize
  {
    if clusters != [] {
      BigEnoughKeeps(clusters[1..], minSize);
      assert clusters == [clusters[0]] + clusters[1..];
    }
  }

  /** Nothing is chosen only when no non-empty cluster is large enough; otherwise the choice is a large
      enough cluster with a point at least as close as any point of any other such cluster. */
  lemma ChoiceIsNearest(clusters: seq<seq<Point>>, origin: Point, minSize: int)
    ensures var c := ChooseNearestCluster(clusters, origin, minSize);
      if c == [] then forall other | other in clusters && |other| >= minSize :: other == []
      else c in clusters && |c| >= minSize
           && exists p :: p in c && forall other, q | other in clusters && |other| >= minSize && q in other ::
                DistSq(p, origin) <= DistSq(q, origin)
  {
    hide DistSq, ClusterDistance;
    var valid, c := BigEnough(clusters, minSize), ChooseNearestCluster(clusters, origin, minSize);
    BigEnoughKeeps(clusters, minSize);
    if valid != [] {
      FirstClosestIsClosest(valid, origin);
      DistanceIsAttained(c, origin);
      forall other | other in valid && other != [] ensures c != [] {
        DistanceIsAttained(other, origin);
        assert Closer(ClusterDistance(other, origin), None);
      }
      if c == [] {
        return;
      }
      var p :| p in c && DistSq(p, origin) == ClusterDistance(c, origin).value;
      forall other, q | other in clusters && |other| >= minSize && q in other
        ensures DistSq(p, origin) <= DistSq(q, origin)
      {
        DistanceIsAttained(other, origin);
        assert other in valid;
      }
    }
  }

  lemma {:induction false} FirstOfTheClosest(clusters: seq<seq<Point>>, origin: Point, minSize: int) returns (k: nat)
    requires BigEnough(clusters, minSize) != []
    ensures k < |clusters| && clusters[k] == FirstClosest(BigEnough(clusters, minSize), origin)
    ensures forall j | 0 <= j < k && |clusters[j]| >= minSize ::
              Closer(ClusterDistance(clusters[k], origin), ClusterDistance(clusters[j], origin))
    decreases |clusters|
  {
    hide ClusterDistance, Closer;
    var first, rest := clusters[0], BigEnough(clusters[1..], minSize);
    if rest == [] {
      BigEnoughKeeps(clusters[1..], minSize);
      assert [first] + rest == [first];
      return 0;
    }
    var later := FirstOfTheClosest(clusters[1..], origin, minSize);
    var other := FirstClosest(rest, origin);
    if |first| < minSize {
      assert BigEnough(clusters, minSize) == rest;
      k := later + 1;
    } else {
      assert BigEnough(clusters, minSize)[1..] == rest;
      k := if Closer(ClusterDistance(other, origin), ClusterDistance(first, origin)) then later + 1 else 0;
    }
    assert forall j | 0 < j < |clusters| :: clusters[j] == clusters[1..][j - 1];
  }

  /** Of several clusters that are as near the first one is chosen: some point of the choice is nearer
      than every point of every large enough cluster before it. */
  lemma ChoiceIsFirst(clusters: seq<seq<Point>>, origin: Point, minSize: int) returns (k: nat, p: Point)
    requires ChooseNearestCluster(clusters, origin, minSize) != []
    ensures k < |clusters| && clusters[k] == ChooseNearestCluster(clusters, origin, minSize) && p in clusters[k]
    ensures forall j, q | 0 <= j < k && |clusters[j]| >= minSize && q in clusters[j] ::
              DistSq(p, origin) < DistSq(q, origin)
  {
    hide DistSq, ClusterDistance, BigEnough, FirstClosest;
    k := FirstOfTheClosest(clusters, origin, minSize);
    DistanceIsAttained(clusters[k], origin);
    p :| p in clusters[k] && DistSq(p, origin) == ClusterDistance(clusters[k], origin).value;
    forall j, q | 0 <= j < k && |clusters[j]| >= minSize && q in clusters[j]
      ensures DistSq(p, origin) < DistSq(q, origin)
    {
      DistanceIsAttained(clusters[j], origin);
    }
  }
}
