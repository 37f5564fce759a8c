/** What a zone's map promises about distances, whatever route search computes them. */
module RouteLaws {
  import opened Walks
  import opened TravelGraph

  /** The edges of the map built from these aisles and cross-aisles. */
  ghost function MapEdges(aisles: seq<AisleGeom>, crossAisles: seq<CrossAisleRef>, pitch: real): set<Edge> {
    set e | e in Emitted(aisles, crossAisles, pitch)
  }

  lemma MapIsPositive(aisles: seq<AisleGeom>, crossAisles: seq<CrossAisleRef>, pitch: real)
    requires pitch > 0.0
    ensures NonNegative(MapEdges(aisles, crossAisles, pitch))
  {
    forall e | e in MapEdges(aisles, crossAisles, pitch) ensures e.metres >= 0.0 {
      EmittedPositive(aisles, crossAisles, pitch, e);
    }
  }

  /** The metres of a returned route are the distance. */
  lemma RouteHasDistance(E: set<Edge>, a: Node, b: Node, r: Route)
    requires IsRoute(E, a, b, r)
    ensures IsDistance(E, a, b, r.metresM)
  {
  }

  // ---- symmetry and monotonicity of the map ----

  lemma TwoWayMapIsSymmetric(aisles: seq<AisleGeom>, crossAisles: seq<CrossAisleRef>, pitch: real)
    requires forall k :: 0 <= k < |aisles| ==> !aisles[k].oneWay
    ensures Symmetric(MapEdges(aisles, crossAisles, pitch))
  {
    forall e | e in MapEdges(aisles, crossAisles, pitch) ensures Flip(e) in MapEdges(aisles, crossAisles, pitch) {
      EmittedAre(aisles, crossAisles, pitch, e);
      EmittedAre(aisles, crossAisles, pitch, Flip(e));
      if JoinsAdjacentBays(aisles, pitch, e) {
        var k, i :| 0 <= k < |aisles| && 0 < i < |aisles[k].bays| && IsGap(aisles[k], pitch, i, e);
        assert IsGap(aisles[k], pitch, i, Flip(e));
      }
    }
  }

  /** With no one-way aisle, every distance is the same in both directions. */
  lemma TwoWayDistancesAgree(aisles: seq<AisleGeom>, crossAisles: seq<CrossAisleRef>, pitch: real, a: Node, b: Node,
          d: real)
    requires forall k :: 0 <= k < |aisles| ==> !aisles[k].oneWay
    ensures IsDistance(MapEdges(aisles, crossAisles, pitch), a, b, d)
            <==> IsDistance(MapEdges(aisles, crossAisles, pitch), b, a, d)
  {
    TwoWayMapIsSymmetric(aisles, crossAisles, pitch);
    SymmetricDistance(MapEdges(aisles, crossAisles, pitch), a, b, d);
  }

  /** Opening one more cross-aisle never lengthens a distance and never cuts a pair off. */
  lemma CrossAisleNeverLengthens(aisles: seq<AisleGeom>, crossAisles: seq<CrossAisleRef>, c: CrossAisleRef, pitch: real,
                                 a: Node, b: Node, d: real)
    requires IsDistance(MapEdges(aisles, crossAisles, pitch), a, b, d)
    ensures Reachable(MapEdges(aisles, crossAisles + [c], pitch), a, b)
    ensures forall d' :: IsDistance(MapEdges(aisles, crossAisles + [c], pitch), a, b, d') ==> d' <= d
  {
    assert (crossAisles + [c])[..|crossAisles|] == crossAisles;
    MoreEdgesNeverLengthen(MapEdges(aisles, crossAisles, pitch), MapEdges(aisles, crossAisles + [c], pitch), a, b, d);
  }

  // ---- distances along one aisle ----

  ghost predicate DistinctAisles(aisles: seq<AisleGeom>) {
    forall k, m :: 0 <= k < m < |aisles| ==> aisles[k].aisleId != aisles[m].aisleId
  }

  ghost predicate DistinctBays(a: AisleGeom) {
    forall i, j :: 0 <= i < j < |a.bays| ==> a.bays[i] != a.bays[j]
  }

  function Gap(a: AisleGeom, pitch: real): real {
    BayDistance(a, pitch).0
  }

  function GapsBetween(i: nat, j: nat): nat {
    if i < j then j - i else i - j
  }

  function BayNode(a: AisleGeom, i: nat): Node
    requires i < |a.bays|
  {
    Node(a.aisleId, a.bays[i])
  }

  /** The length of `n` gaps. */
  ghost function Gaps(n: nat, gap: real): real {
    if n == 0 then 0.0 else Gaps(n - 1, gap) + gap
  }

  lemma Distribute(x: real, gap: real)
    ensures (x + 1.0) * gap == x * gap + gap
  {
  }

  lemma {:induction false} GapsMultiply(n: nat, gap: real)
    ensures Gaps(n, gap) == n as real * gap
  {
    if n > 0 {
      GapsMultiply(n - 1, gap);
      Distribute((n - 1) as real, gap);
      assert n as real == (n - 1) as real + 1.0;
    }
  }

  lemma {:induction false} FewerGapsAreShorter(n: nat, m: nat, gap: real)
    requires n <= m && gap >= 0.0
    ensures Gaps(n, gap) <= Gaps(m, gap)
    decreases m - n
  {
    if n < m {
      FewerGapsAreShorter(n, m - 1, gap);
    }
  }

  /** Without cross-aisles an edge leads to a neighbouring bay, one gap away; a one-way aisle only forward. */
  lemma NextBay(aisles: seq<AisleGeom>, pitch: real, k: nat, q: nat, e: Edge) returns (p: nat)
    requires pitch > 0.0 && k < |aisles| && DistinctAisles(aisles) && DistinctBays(aisles[k]) && q < |aisles[k].bays|
    requires e in MapEdges(aisles, [], pitch) && e.from == BayNode(aisles[k], q)
    ensures p < |aisles[k].bays| && e.to == BayNode(aisles[k], p) && e.metres == Gap(aisles[k], pitch)
    ensures p == q + 1 || (p == q - 1 && !aisles[k].oneWay)
  {
    EmittedAre(aisles, [], pitch, e);
    var m, j :| 0 <= m < |aisles| && 0 < j < |aisles[m].bays| && IsGap(aisles[m], pitch, j, e);
    assert m == k;
    p := if e == GapEdge(aisles[k], pitch, j) then j else j - 1;
  }

  /** Without cross-aisles a walk cannot leave its aisle; reaching bay `p` costs at least one gap
      length per bay, and a one-way aisle only leads forward. */
  lemma {:induction false} WalkAlongAisle(aisles: seq<AisleGeom>, pitch: real, k: nat, i: nat, w: seq<Edge>,
          n: Node) returns (p: nat)
    requires pitch > 0.0 && k < |aisles| && DistinctAisles(aisles) && DistinctBays(aisles[k]) && i < |aisles[k].bays|
    requires IsWalk(MapEdges(aisles, [], pitch), w, BayNode(aisles[k], i), n)
    ensures p < |aisles[k].bays| && n == BayNode(aisles[k], p)
    ensures Length(w) >= Gaps(GapsBetween(i, p), Gap(aisles[k], pitch))
    ensures aisles[k].oneWay ==> i <= p
  {
    var a := aisles[k];
    if w == [] {
      return i;
    }
    var e := w[|w| - 1];
    var q := WalkAlongAisle(aisles, pitch, k, i, w[..|w| - 1], e.from);
    p := NextBay(aisles, pitch, k, q, e);
    assert GapsBetween(i, p) <= GapsBetween(i, q) + 1;
    FewerGapsAreShorter(GapsBetween(i, p), GapsBetween(i, q) + 1, Gap(a, pitch));
  }

  /** Walking bay by bay costs exactly one gap length per bay. */
  lemma {:induction false} StraightWalk(aisles: seq<AisleGeom>, pitch: real, k: nat, i: nat, j: nat)
          returns (w: seq<Edge>)
    requires k < |aisles| && i < |aisles[k].bays| && j < |aisles[k].bays|
    requires i <= j || !aisles[k].oneWay
    ensures IsWalk(MapEdges(aisles, [], pitch), w, BayNode(aisles[k], i), BayNode(aisles[k], j))
    ensures Length(w) == Gaps(GapsBetween(i, j), Gap(aisles[k], pitch))
    decreases GapsBetween(i, j)
  {
    var a, E := aisles[k], MapEdges(aisles, [], pitch);
    if i == j {
      return [];
    }
    var next := if i < j then j - 1 else j + 1;
    var e := if i < j then GapEdge(a, pitch, j) else Flip(GapEdge(a, pitch, next));
    assert IsGap(a, pitch, if i < j then j else next, e);
    EmittedAre(aisles, [], pitch, e);
    var v := StraightWalk(aisles, pitch, k, i, next);
    SingleEdgeWalk(E, e);
    JoinWalks(E, v, [e], BayNode(a, i), e.from, e.to);
    w := v + [e];
  }

  /** The distance between two bays of one aisle is the number of gaps times the gap length, in every
      direction the aisle allows; backwards along a one-way aisle there is no route at all. */
  lemma DistanceAlongAisle(aisles: seq<AisleGeom>, pitch: real, k: nat, i: nat, j: nat)
    requires pitch > 0.0 && k < |aisles| && DistinctAisles(aisles) && DistinctBays(aisles[k])
    requires i < |aisles[k].bays| && j < |aisles[k].bays|
    ensures Reachable(MapEdges(aisles, [], pitch), BayNode(aisles[k], i), BayNode(aisles[k], j))
            <==> (i <= j || !aisles[k].oneWay)
    ensures i <= j || !aisles[k].oneWay ==>
              IsDistance(MapEdges(aisles, [], pitch), BayNode(aisles[k], i), BayNode(aisles[k], j),
                         Gaps(GapsBetween(i, j), Gap(aisles[k], pitch)))
  {
    var a, E := aisles[k], MapEdges(aisles, [], pitch);
    forall w | IsWalk(E, w, BayNode(a, i), BayNode(a, j))
      ensures Length(w) >= Gaps(GapsBetween(i, j), Gap(a, pitch)) && (a.oneWay ==> i <= j)
    {
      var p := WalkAlongAisle(aisles, pitch, k, i, w, BayNode(a, j));
      assert p == j;
    }
    if i <= j || !a.oneWay {
      var w := StraightWalk(aisles, pitch, k, i, j);
    }
  }

  /** What one gap of an aisle measures. */
  lemma OneGap(a: AisleGeom, pitch: real)
    requires |a.bays| >= 2
    ensures a.centrelineM > 0.0 ==> Gap(a, pitch) * (|a.bays| - 1) as real == a.centrelineM
    ensures a.centrelineM <= 0.0 ==> Gap(a, pitch) == pitch
  {
    EvenShare(a.centrelineM, (|a.bays| - 1) as real, Gap(a, pitch));
  }

  lemma Regroup(n: real, gap: real, gaps: real, total: real)
    requires gap * gaps == total
    ensures n * gap * gaps == n * total
  {
    assert n * gap * gaps == n * (gap * gaps);
  }

  /** Along an aisle of known length, a walk uses no estimate; along any other, every step is one. */
  lemma {:induction false} FlagAlongAisle(aisles: seq<AisleGeom>, pitch: real, k: nat, i: nat, w: seq<Edge>, n: Node)
    requires pitch > 0.0 && k < |aisles| && DistinctAisles(aisles) && DistinctBays(aisles[k]) && i < |aisles[k].bays|
    requires IsWalk(MapEdges(aisles, [], pitch), w, BayNode(aisles[k], i), n)
    ensures UsesEstimate(w) <==> w != [] && aisles[k].centrelineM <= 0.0
    ensures w == [] || Length(w) > 0.0
  {
    if w != [] {
      var e, front := w[|w| - 1], w[..|w| - 1];
      FlagAlongAisle(aisles, pitch, k, i, front, e.from);
      var q := WalkAlongAisle(aisles, pitch, k, i, front, e.from);
      EmittedPositive(aisles, [], pitch, e);
      EdgeOfAisle(aisles, pitch, k, q, e);
      assert w == front + [e];
      assert w[|w| - 1].estimated == e.estimated;
      assert UsesEstimate(w) <==> UsesEstimate(front) || e.estimated by {
        if UsesEstimate(w) {
          var m :| 0 <= m < |w| && w[m].estimated;
          assert m < |front| ==> front[m].estimated;
        }
        if UsesEstimate(front) {
          var m :| 0 <= m < |front| && front[m].estimated;
          assert w[m].estimated;
        }
      }
    }
  }

  lemma EdgeOfAisle(aisles: seq<AisleGeom>, pitch: real, k: nat, q: nat, e: Edge)
    requires k < |aisles| && DistinctAisles(aisles) && q < |aisles[k].bays|
    requires e in MapEdges(aisles, [], pitch) && e.from == BayNode(aisles[k], q)
    ensures e.estimated <==> aisles[k].centrelineM <= 0.0
  {
    EmittedExactly(aisles, [], pitch, e);
    var m, j :| 0 <= m < |aisles| && 0 < j < |aisles[m].bays| && LeadsAlong(aisles[m], pitch, j, e);
    assert m == k;
  }

  lemma RouteInGaps(aisles: seq<AisleGeom>, pitch: real, k: nat, i: nat, j: nat, r: Route)
    requires pitch > 0.0 && k < |aisles| && DistinctAisles(aisles) && DistinctBays(aisles[k])
    requires i < |aisles[k].bays| && j < |aisles[k].bays|
    requires IsRoute(MapEdges(aisles, [], pitch), BayNode(aisles[k], i), BayNode(aisles[k], j), r)
    ensures r.metresM == Gaps(GapsBetween(i, j), Gap(aisles[k], pitch))
    ensures r.estimated <==> i != j && aisles[k].centrelineM <= 0.0
  {
    var a, E := aisles[k], MapEdges(aisles, [], pitch);
    var w :| IsWalk(E, w, BayNode(a, i), BayNode(a, j)) && Length(w) == r.metresM && (UsesEstimate(w) <==> r.estimated);
    var p := WalkAlongAisle(aisles, pitch, k, i, w, BayNode(a, j));
    assert p == j;
    DistanceAlongAisle(aisles, pitch, k, i, j);
    FlagAlongAisle(aisles, pitch, k, i, w, BayNode(a, j));
  }

  /** What a route along one aisle says, in metres and in kind: where the aisle's length is known, its even
      share of it, measured; elsewhere one pitch per bay passed, estimated unless no bay is passed. */
  lemma RouteAlongAisle(aisles: seq<AisleGeom>, pitch: real, k: nat, i: nat, j: nat, r: Route)
    requires pitch > 0.0 && k < |aisles| && DistinctAisles(aisles) && DistinctBays(aisles[k])
    requires i < |aisles[k].bays| && j < |aisles[k].bays|
    requires IsRoute(MapEdges(aisles, [], pitch), BayNode(aisles[k], i), BayNode(aisles[k], j), r)
    ensures var a, passed := aisles[k], if i <= j then j - i else i - j;
            if a.centrelineM > 0.0 then
              r.metresM * (|a.bays| - 1) as real == passed as real * a.centrelineM && !r.estimated
            else
              r.metresM == passed as real * pitch && (r.estimated <==> i != j)
  {
    RouteInGaps(aisles, pitch, k, i, j, r);
    GapsMeasure(aisles[k], pitch, GapsBetween(i, j));
  }

  lemma GapsMeasure(a: AisleGeom, pitch: real, n: nat)
    requires n < |a.bays|
    ensures a.centrelineM > 0.0 ==> Gaps(n, Gap(a, pitch)) * (|a.bays| - 1) as real == n as real * a.centrelineM
    ensures a.centrelineM <= 0.0 ==> Gaps(n, Gap(a, pitch)) == n as real * pitch
  {
    if n > 0 {
      GapsMultiply(n, Gap(a, pitch));
      OneGap(a, pitch);
      if a.centrelineM > 0.0 {
        Regroup(n as real, Gap(a, pitch), (|a.bays| - 1) as real, a.centrelineM);
      }
    }
  }

  /** Two aisles joined by no cross-aisle are cut off from each other. */
  lemma NoRouteBetweenAisles(aisles: seq<AisleGeom>, pitch: real, k: nat, i: nat, m: nat, j: nat)
    requires pitch > 0.0 && k < |aisles| && m < |aisles| && k != m && DistinctAisles(aisles) && DistinctBays(aisles[k])
    requires i < |aisles[k].bays| && j < |aisles[m].bays|
    ensures !Reachable(MapEdges(aisles, [], pitch), BayNode(aisles[k], i), BayNode(aisles[m], j))
  {
    forall w ensures !IsWalk(MapEdges(aisles, [], pitch), w, BayNode(aisles[k], i), BayNode(aisles[m], j)) {
      if IsWalk(MapEdges(aisles, [], pitch), w, BayNode(aisles[k], i), BayNode(aisles[m], j)) {
        var p := WalkAlongAisle(aisles, pitch, k, i, w, BayNode(aisles[m], j));
      }
    }
  }

  /** End to end, a measured aisle is exactly as long as its centreline. */
  lemma MeasuredAisleLength(aisles: seq<AisleGeom>, pitch: real, k: nat)
    requires pitch > 0.0 && k < |aisles| && DistinctAisles(aisles) && DistinctBays(aisles[k])
    requires aisles[k].centrelineM > 0.0 && |aisles[k].bays| >= 2
    ensures IsDistance(MapEdges(aisles, [], pitch), BayNode(aisles[k], 0), BayNode(aisles[k], |aisles[k].bays| - 1),
                       aisles[k].centrelineM)
  {
    var n := |aisles[k].bays| - 1;
    DistanceAlongAisle(aisles, pitch, k, 0, n);
    GapsMultiply(n, Gap(aisles[k], pitch));
  }
}
