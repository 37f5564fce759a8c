/** Directed walks over the travel map: what a route is, how long it is, and what it means for a
    length to be the distance between two waypoints. Everything here is independent of how a
    shortest route is searched for. */
module Walks {
  /** A waypoint: a bay of one aisle. */
  datatype Node = Node(aisleId: string, bay: string)

  /** A directed, weighted connection between two waypoints. */
  datatype Edge = Edge(from: Node, to: Node, metres: real, estimated: bool)

  /** `w` leads from `a` to `b` along edges of `E`, each starting where the previous one ended. */
  ghost predicate IsWalk(E: set<Edge>, w: seq<Edge>, a: Node, b: Node) {
    if w == [] then
      a == b
    else
      var e := w[|w| - 1];
      e in E && e.to == b && IsWalk(E, w[..|w| - 1], a, e.from)
  }

  ghost predicate Reachable(E: set<Edge>, a: Node, b: Node) {
    exists w :: IsWalk(E, w, a, b)
  }

  /** The sum of the metres along a walk. */
  ghost function Length(w: seq<Edge>): real {
    if w == [] then 0.0 else Length(w[..|w| - 1]) + w[|w| - 1].metres
  }

  ghost predicate UsesEstimate(w: seq<Edge>) {
    exists i :: 0 <= i < |w| && w[i].estimated
  }

  /** The waypoints a walk starting at `a` passes, both ends included. */
  ghost function Waypoints(a: Node, w: seq<Edge>): (nodes: seq<Node>)
    ensures |nodes| == |w| + 1
  {
    if w == [] then [a] else Waypoints(a, w[..|w| - 1]) + [w[|w| - 1].to]
  }

  ghost predicate NonNegative(E: set<Edge>) {
    forall e :: e in E ==> e.metres >= 0.0
  }

  /** `d` is the distance from `a` to `b`: some walk has exactly that length and none is shorter. */
  ghost predicate IsDistance(E: set<Edge>, a: Node, b: Node, d: real) {
    && (exists w :: IsWalk(E, w, a, b) && Length(w) == d)
    && (forall w :: IsWalk(E, w, a, b) ==> d <= Length(w))
  }

  /** Every edge can be walked back, at the same length. */
  ghost predicate Symmetric(E: set<Edge>) {
    forall e :: e in E ==> Flip(e) in E
  }

  function Flip(e: Edge): Edge {
    Edge(e.to, e.from, e.metres, e.estimated)
  }

  ghost function Back(w: seq<Edge>): seq<Edge> {
    if w == [] then [] else [Flip(w[|w| - 1])] + Back(w[..|w| - 1])
  }

  lemma SingleEdgeWalk(E: set<Edge>, e: Edge)
    requires e in E
    ensures IsWalk(E, [e], e.from, e.to) && Length([e]) == e.metres
  {
    assert [e][..0] == [];
    assert IsWalk(E, [], e.from, e.from);
    assert Length([]) == 0.0;
  }

  /** Two walks that meet form one walk, whose length is the sum. */
  lemma {:induction false} JoinWalks(E: set<Edge>, v: seq<Edge>, w: seq<Edge>, a: Node, b: Node, c: Node)
    requires IsWalk(E, v, a, b) && IsWalk(E, w, b, c)
    ensures IsWalk(E, v + w, a, c)
    ensures Length(v + w) == Length(v) + Length(w)
  {
    if w == [] {
      assert v + w == v;
    } else {
      var front := w[..|w| - 1];
      assert (v + w)[..|v + w| - 1] == v + front;
      JoinWalks(E, v, front, a, b, w[|w| - 1].from);
    }
  }

  /** A walk over symmetric edges, walked back, has the same length. */
  lemma {:induction false} WalkBack(E: set<Edge>, w: seq<Edge>, a: Node, b: Node)
    requires Symmetric(E) && IsWalk(E, w, a, b)
    ensures IsWalk(E, Back(w), b, a)
    ensures Length(Back(w)) == Length(w)
  {
    if w != [] {
      var e := w[|w| - 1];
      WalkBack(E, w[..|w| - 1], a, e.from);
      SingleEdgeWalk(E, Flip(e));
      JoinWalks(E, [Flip(e)], Back(w[..|w| - 1]), b, e.from, a);
    }
  }

  lemma {:induction false} MoreEdgesKeepWalks(E: set<Edge>, E': set<Edge>, w: seq<Edge>, a: Node, b: Node)
    requires E <= E' && IsWalk(E, w, a, b)
    ensures IsWalk(E', w, a, b)
  {
    if w != [] {
      MoreEdgesKeepWalks(E, E', w[..|w| - 1], a, w[|w| - 1].from);
    }
  }

  lemma {:induction false} NonNegativeLength(E: set<Edge>, w: seq<Edge>, a: Node, b: Node)
    requires NonNegative(E) && IsWalk(E, w, a, b)
    ensures Length(w) >= 0.0
  {
    if w != [] {
      NonNegativeLength(E, w[..|w| - 1], a, w[|w| - 1].from);
    }
  }

  // ---- laws of the distance ----

  /** A detour is never shorter, and reachability composes. */
  lemma TriangleInequality(E: set<Edge>, a: Node, b: Node, c: Node, ab: real, bc: real)
    requires IsDistance(E, a, b, ab) && IsDistance(E, b, c, bc)
    ensures Reachable(E, a, c)
    ensures forall ac :: IsDistance(E, a, c, ac) ==> ac <= ab + bc
  {
    var v :| IsWalk(E, v, a, b) && Length(v) == ab;
    var w :| IsWalk(E, w, b, c) && Length(w) == bc;
    JoinWalks(E, v, w, a, b, c);
  }

  lemma SymmetricDistance(E: set<Edge>, a: Node, b: Node, d: real)
    requires Symmetric(E)
    ensures IsDistance(E, a, b, d) <==> IsDistance(E, b, a, d)
  {
    if IsDistance(E, a, b, d) { SymmetricOneWay(E, a, b, d); }
    if IsDistance(E, b, a, d) { SymmetricOneWay(E, b, a, d); }
  }

  lemma SymmetricOneWay(E: set<Edge>, a: Node, b: Node, d: real)
    requires Symmetric(E) && IsDistance(E, a, b, d)
    ensures IsDistance(E, b, a, d)
  {
    var w :| IsWalk(E, w, a, b) && Length(w) == d;
    WalkBack(E, w, a, b);
    forall v | IsWalk(E, v, b, a) ensures d <= Length(v) {
      WalkBack(E, v, b, a);
    }
  }

  /** Adding connections never lengthens a distance and never disconnects a reachable pair. */
  lemma MoreEdgesNeverLengthen(E: set<Edge>, E': set<Edge>, a: Node, b: Node, d: real)
    requires E <= E' && IsDistance(E, a, b, d)
    ensures Reachable(E', a, b)
    ensures forall d' :: IsDistance(E', a, b, d') ==> d' <= d
  {
    var w :| IsWalk(E, w, a, b) && Length(w) == d;
    MoreEdgesKeepWalks(E, E', w, a, b);
  }
}
