/** One zone's travel graph: built from its aisles and cross-aisles, queried for shortest routes. */
module TravelGraph {
  import opened Walks
  import opened MinHeap
  import opened ShortestPath

  /** One aisle as the graph needs it: its bays in walk order, its traffic direction, and its
      centreline length, 0 when it has no centreline. */
  datatype AisleGeom = AisleGeom(aisleId: string, bays: seq<string>, oneWay: bool, centrelineM: real)

  /** A link between two aisles at a bay both have. */
  datatype CrossAisleRef = CrossAisleRef(fromAisleId: string, toAisleId: string, atBay: string)

  datatype Route = Route(metresM: real, estimated: bool, nodes: seq<Node>)

  datatype RouteResult = Found(route: Route) | UnknownNode | NoRoute

  // ---- what Build emits ----

  /** The length of one gap between adjacent bays, and whether it is only an estimate. */
  function BayDistance(a: AisleGeom, pitch: real): (real, bool) {
    var gaps := |a.bays| - 1;
    if a.centrelineM > 0.0 && gaps > 0 then (a.centrelineM / gaps as real, false) else (pitch, true)
  }

  /** The edge from bay `i - 1` to bay `i` of an aisle. */
  function GapEdge(a: AisleGeom, pitch: real, i: nat): Edge
    requires 0 < i < |a.bays|
  {
    var (metres, estimated) := BayDistance(a, pitch);
    Edge(Node(a.aisleId, a.bays[i - 1]), Node(a.aisleId, a.bays[i]), metres, estimated)
  }

  /** The edges contributed by the first `n` bays of an aisle, in the order they are added. */
  ghost function AisleEdges(a: AisleGeom, pitch: real, n: nat): seq<Edge>
    requires n <= |a.bays|
  {
    if n <= 1 then
      []
    else
      AisleEdges(a, pitch, n - 1) +
      (if a.oneWay then [GapEdge(a, pitch, n - 1)] else [GapEdge(a, pitch, n - 1), Flip(GapEdge(a, pitch, n - 1))])
  }

  ghost function EdgesOfAisles(aisles: seq<AisleGeom>, pitch: real): seq<Edge> {
    if aisles == [] then
      []
    else
      var last := aisles[|aisles| - 1];
      EdgesOfAisles(aisles[..|aisles| - 1], pitch) + AisleEdges(last, pitch, |last.bays|)
  }

  ghost function NodesOfAisles(aisles: seq<AisleGeom>): set<Node> {
    set k, i | 0 <= k < |aisles| && 0 <= i < |aisles[k].bays| :: Node(aisles[k].aisleId, aisles[k].bays[i])
  }

  function CrossEdge(c: CrossAisleRef, pitch: real): Edge {
    Edge(Node(c.fromAisleId, c.atBay), Node(c.toAisleId, c.atBay), pitch, true)
  }

  /** A cross-aisle counts only when both aisles have the bay. */
  predicate Connects(nodes: set<Node>, c: CrossAisleRef) {
    Node(c.fromAisleId, c.atBay) in nodes && Node(c.toAisleId, c.atBay) in nodes
  }

  ghost function EdgesOfCrossAisles(nodes: set<Node>, crossAisles: seq<CrossAisleRef>, pitch: real): seq<Edge> {
    if crossAisles == [] then
      []
    else
      var c := crossAisles[|crossAisles| - 1];
      EdgesOfCrossAisles(nodes, crossAisles[..|crossAisles| - 1], pitch) +
      (if Connects(nodes, c) then [CrossEdge(c, pitch), Flip(CrossEdge(c, pitch))] else [])
  }

  /** Everything Build adds, in order. */
  ghost function Emitted(aisles: seq<AisleGeom>, crossAisles: seq<CrossAisleRef>, pitch: real): seq<Edge> {
    EdgesOfAisles(aisles, pitch) + EdgesOfCrossAisles(NodesOfAisles(aisles), crossAisles, pitch)
  }

  /** The edges of `es` that leave `n`, in order. */
  ghost function Leaving(es: seq<Edge>, n: Node): seq<Edge> {
    if es == [] then
      []
    else
      Leaving(es[..|es| - 1], n) + if es[|es| - 1].from == n then [es[|es| - 1]] else []
  }

  lemma {:induction false} LeavingExactly(es: seq<Edge>, n: Node, e: Edge)
    ensures e in Leaving(es, n) <==> e in es && e.from == n
  {
    if es != [] {
      LeavingExactly(es[..|es| - 1], n, e);
      assert es == es[..|es| - 1] + [es[|es| - 1]];
    }
  }

  /** `r` is a shortest route from `a` to `b`: its waypoints are those of a real walk, its metres and
      its estimate flag are that walk's, and no walk is shorter. */
  ghost predicate IsRoute(E: set<Edge>, a: Node, b: Node, r: Route) {
    && (exists w :: IsWalk(E, w, a, b) && Waypoints(a, w) == r.nodes && Length(w) == r.metresM &&
                    (UsesEstimate(w) <==> r.estimated))
    && (forall w :: IsWalk(E, w, a, b) ==> r.metresM <= Length(w))
  }

  /** Reverses a route in place, swapping from both ends. */
  method Reverse(backwards: seq<Node>) returns (route: seq<Node>)
    ensures |route| == |backwards|
    ensures forall k :: 0 <= k < |route| ==> route[k] == backwards[|route| - 1 - k]
  {
    route := backwards;
    var i, j := 0, |route| - 1;
    while i < j
      invariant 0 <= i <= j + 1 && i + j == |route| - 1 && |route| == |backwards|
      invariant forall k :: 0 <= k < i || j < k < |route| ==> route[k] == backwards[|route| - 1 - k]
      invariant forall k :: i <= k <= j ==> route[k] == backwards[k]
      decreases j - i
    {
      route := route[i := route[j]][j := route[i]];
      i, j := i + 1, j - 1;
    }
  }

  lemma StayingPut(E: set<Edge>, n: Node)
    requires NonNegative(E)
    ensures IsRoute(E, n, n, Route(0.0, false, [n]))
  {
    assert IsWalk(E, [], n, n) && Length([]) == 0.0 && Waypoints(n, []) == [n] && !UsesEstimate([]);
    forall w | IsWalk(E, w, n, n) ensures 0.0 <= Length(w) {
      NonNegativeLength(E, w, n, n);
    }
  }

  /** Takes `edge` as a last hop if that improves its far end, and then queues the far end. */
  method Relax(ghost E: set<Edge>, ghost from: Node, edge: Edge, l0: Labels, ghost visited: set<Node>,
               ghost via0: map<Node, seq<Edge>>, pq: PriorityQueue)
    returns (l: Labels, ghost via: map<Node, seq<Edge>>)
    requires NonNegative(E) && pq.Valid() && edge in E && edge.to in l0.dist
    requires Expanding(E, from, l0, visited, via0, multiset(pq.items), edge.from)
    modifies pq
    ensures pq.Valid() && l.dist.Keys == l0.dist.Keys
    ensures Expanding(E, from, l, visited, via, multiset(pq.items), edge.from)
    ensures l.Relaxed(edge)
    ensures KeepsRelaxed(E, visited, l0, l)
  {
    if !l0.ImprovedBy(edge) {
      return l0, via0;
    }
    RelaxStep(E, from, l0, visited, via0, multiset(pq.items), edge);
    ghost var bag := multiset(pq.items) + multiset{Item(edge.to, l0.At(edge.from) + edge.metres)};
    pq.Push(Item(edge.to, l0.At(edge.from) + edge.metres));
    assert multiset(pq.items) == bag;
    l, via := l0.Through(edge), via0[edge.to := via0[edge.from] + [edge]];
  }

  /** Relaxes the edges `out` of `u`, the waypoint just visited, queueing each improved waypoint. */
  method Expand(ghost E: set<Edge>, ghost from: Node, u: Node, out: seq<Edge>, l0: Labels, ghost visited: set<Node>,
                ghost via0: map<Node, seq<Edge>>, pq: PriorityQueue)
    returns (l: Labels, ghost via: map<Node, seq<Edge>>)
    requires NonNegative(E) && pq.Valid()
    requires forall e :: e in out ==> e in E && e.from == u && e.to in l0.dist
    requires forall e :: e in E && e.from == u ==> e in out
    requires Expanding(E, from, l0, visited, via0, multiset(pq.items), u)
    modifies pq
    ensures pq.Valid() && l.dist.Keys == l0.dist.Keys
    ensures Searching(E, from, l, visited, via, multiset(pq.items))
  {
    l, via := l0, via0;
    for k := 0 to |out|
      invariant pq.Valid() && l.dist.Keys == l0.dist.Keys
      invariant Expanding(E, from, l, visited, via, multiset(pq.items), u)
      invariant RelaxedFirst(l, out, k)
    {
      ghost var before := l;
      l, via := Relax(E, from, out[k], l, visited, via, pq);
      OneMoreRelaxed(E, visited, before, l, out, k);
    }
    Expanded(E, from, l, visited, via, multiset(pq.items), u, out);
  }

  /** The waypoints from `to` back to `from`, last hop by last hop. */
  method ReadBack(ghost E: set<Edge>, from: Node, to: Node, l: Labels, ghost visited: set<Node>, ghost via: map<Node,
          seq<Edge>>)
    returns (route: seq<Node>)
    requires AllLabelled(E, from, l, visited, via) && l.Reached(to) && to in via
    ensures |route| == |via[to]| + 1
    ensures forall i :: 0 <= i < |route| ==> route[i] == Waypoints(from, via[to])[|via[to]| - i]
  {
    ghost var w := via[to];
    assert Labelled(E, from, l, visited, via, to);
    WaypointAt(from, w, |w|);
    route := [to];
    var n := to;
    while n != from
      invariant l.Reached(n) && n in via
      invariant |via[n]| <= |w| && via[n] == w[..|via[n]|]
      invariant |route| == |w| - |via[n]| + 1
      invariant n == from ==> via[n] == []
      invariant forall i :: 0 <= i < |route| ==> route[i] == Waypoints(from, w)[|w| - i]
      decreases |via[n]|
    {
      assert Labelled(E, from, l, visited, via, n);
      // The predecessor is always known, so the search's second "no route" exit is never taken.
      var p := l.prev[n];
      assert Labelled(E, from, l, visited, via, p);
      WaypointAt(from, w, |via[p]|);
      route := route + [p];
      n := p;
    }
  }

  class Graph {
    var adjacency: map<Node, seq<Edge>>
    var nodes: set<Node>

    constructor ()
      ensures adjacency == map[] && nodes == {}
    {
      adjacency := map[];
      nodes := {};
    }

    /** The edges leaving `n`; a waypoint with no entry has none. */
    function Out(n: Node): seq<Edge>
      reads this
    {
      if n in adjacency then adjacency[n] else []
    }

    ghost function EdgeSet(): set<Edge>
      reads this
    {
      set n, k | n in adjacency && 0 <= k < |adjacency[n]| :: adjacency[n][k]
    }

    /** Edges are filed under their origin and join known waypoints. */
    ghost predicate Valid()
      reads this
    {
      forall n, k :: n in adjacency && 0 <= k < |adjacency[n]| ==>
        adjacency[n][k].from == n && n in nodes && adjacency[n][k].to in nodes
    }

    /** The adjacency lists hold exactly `es`, each list in the order of `es`. */
    ghost predicate Holds(es: seq<Edge>)
      reads this
    {
      forall n :: Out(n) == Leaving(es, n)
    }

    method AddEdge(e: Edge, ghost es: seq<Edge>)
      requires Holds(es)
      modifies this`adjacency
      ensures Holds(es + [e])
    {
      assert (es + [e])[..|es|] == es;
      adjacency := adjacency[e.from := Out(e.from) + [e]];
    }

    /** Files one aisle's waypoints and gap edges. */
    method AddAisle(a: AisleGeom, pitch: real, ghost es: seq<Edge>)
      requires Holds(es)
      modifies this
      ensures Holds(es + AisleEdges(a, pitch, |a.bays|))
      ensures nodes == old(nodes) + set j | 0 <= j < |a.bays| :: Node(a.aisleId, a.bays[j])
    {
      assert es + AisleEdges(a, pitch, 0) == es;
      for i := 0 to |a.bays|
        invariant nodes == old(nodes) + set j | 0 <= j < i :: Node(a.aisleId, a.bays[j])
        invariant Holds(es + AisleEdges(a, pitch, i))
      {
        nodes := nodes + {Node(a.aisleId, a.bays[i])};
        if i > 0 {
          ghost var sofar := es + AisleEdges(a, pitch, i);
          var e := GapEdge(a, pitch, i);
          AddEdge(e, sofar);
          if !a.oneWay {
            AddEdge(Flip(e), sofar + [e]);
            assert sofar + [e] + [Flip(e)] == es + AisleEdges(a, pitch, i + 1);
          } else {
            assert sofar + [e] == es + AisleEdges(a, pitch, i + 1);
          }
        }
      }
    }

    /** Files both directions of a cross-aisle, unless one of its ends is unknown. */
    method AddCrossAisle(c: CrossAisleRef, pitch: real, ghost es: seq<Edge>)
      requires Holds(es)
      modifies this`adjacency
      ensures Holds(es + if Connects(nodes, c) then [CrossEdge(c, pitch), Flip(CrossEdge(c, pitch))] else [])
    {
      if !Connects(nodes, c) {
        assert es + [] == es;
        return;
      }
      var e := CrossEdge(c, pitch);
      AddEdge(e, es);
      AddEdge(Flip(e), es + [e]);
      assert es + [e] + [Flip(e)] == es + [e, Flip(e)];
    }

    lemma HeldEdges(es: seq<Edge>)
      requires Holds(es)
      requires forall e :: e in es ==> e.from in nodes && e.to in nodes
      ensures Valid()
      ensures EdgeSet() == set e | e in es
    {
      forall n, k | n in adjacency && 0 <= k < |adjacency[n]|
        ensures adjacency[n][k] in es && adjacency[n][k].from == n
      {
        assert adjacency[n][k] in Out(n);
        LeavingExactly(es, n, adjacency[n][k]);
      }
      forall e | e in es ensures e in EdgeSet() {
        LeavingExactly(es, e.from, e);
        assert e in Out(e.from);
      }
    }

    /** Takes the least queue entry. A stale one is dropped, so each waypoint is expanded at most once; the
        target's ends the search, with its label final; any other waypoint is visited and expanded. */
    method TakeNext(ghost E: set<Edge>, from: Node, to: Node, l0: Labels, done0: set<Node>,
                    ghost via0: map<Node, seq<Edge>>, pq: PriorityQueue)
      returns (l: Labels, done: set<Node>, ghost via: map<Node, seq<Edge>>, arrived: bool)
      requires Valid() && E == EdgeSet() && NonNegative(E) && from != to
      requires pq.Valid() && pq.items != [] && l0.dist.Keys == nodes && done0 <= nodes && to !in done0
      requires from in done0 || (done0 == {} && pq.items == [Item(from, 0.0)])
      requires Searching(E, from, l0, done0, via0, multiset(pq.items))
      modifies pq
      ensures arrived ==> Arrived(E, from, to, l, done, via)
      ensures !arrived ==>
                && pq.Valid() && l.dist.Keys == nodes && done <= nodes && to !in done && from in done
                && Searching(E, from, l, done, via, multiset(pq.items))
                && (done > done0 || (done == done0 && |pq.items| < |old(pq.items)|))
    {
      ghost var bag := multiset(pq.items);
      var current := pq.Pop();
      var u := current.node;
      l, done, via, arrived := l0, done0, via0, u == to;
      if u in done {
        DropStale(E, from, l, done, via, bag, current);
        return;
      }
      VisitLeast(E, from, l, done, via, bag, current);
      if u == to {
        ArrivedAtLeast(E, from, l, done, via, to);
        return;
      }
      done := done + {u};
      OutIsExact(u);
      l, via := Expand(E, from, u, Out(u), l, done, via, pq);
    }

    /** Labels waypoints in order of distance from `from`, until `to` is settled or the queue is empty. */
    method Search(from: Node, to: Node) returns (l: Labels, ghost visited: set<Node>, ghost via: map<Node, seq<Edge>>)
      requires Valid() && NonNegative(EdgeSet())
      requires from in nodes && to in nodes && from != to
      ensures AllLabelled(EdgeSet(), from, l, visited, via)
      ensures l.Reached(to) ==> to in via && forall w :: IsWalk(EdgeSet(), w, from, to) ==> l.At(to) <= Length(w)
      ensures l.Reached(to) <==> Reachable(EdgeSet(), from, to)
    {
      ghost var E := EdgeSet();
      l := Labels((map n | n in nodes :: Infinite)[from := Finite(0.0)], map[], map[]);
      var done: set<Node> := {};
      via := map[from := []];
      var pq := new PriorityQueue(Item(from, 0.0));
      StartSearching(E, nodes, from, l);
      var arrived := false;

      while |pq.items| > 0
        invariant fresh(pq) && pq.Valid()
        invariant l.dist.Keys == nodes && done <= nodes && to !in done
        invariant from in done || (done == {} && pq.items == [Item(from, 0.0)])
        invariant Searching(E, from, l, done, via, multiset(pq.items))
        decreases nodes - done, |pq.items|
      {
        l, done, via, arrived := TakeNext(E, from, to, l, done, via, pq);
        if arrived {
          visited := done;
          return;
        }
      }
      visited := done;
      Exhausted(E, from, l, done, to);
    }

    lemma OutIsExact(u: Node)
      requires Valid()
      ensures forall e :: e in Out(u) ==> e in EdgeSet() && e.from == u && e.to in nodes
      ensures forall e :: e in EdgeSet() && e.from == u ==> e in Out(u)
    {
    }

    /** The shortest route from `from` to `to`, or the reason there is none. */
    method Distance(from: Node, to: Node) returns (result: RouteResult)
      requires Valid() && NonNegative(EdgeSet())
      ensures result.UnknownNode? <==> from !in nodes || to !in nodes
      ensures result.NoRoute? <==> from in nodes && to in nodes && !Reachable(EdgeSet(), from, to)
      ensures result.Found? ==> IsRoute(EdgeSet(), from, to, result.route)
    {
      if from !in nodes {
        return UnknownNode;
      }
      if to !in nodes {
        return UnknownNode;
      }
      ghost var E := EdgeSet();
      if from == to {
        StayingPut(E, from);
        return Found(Route(0.0, false, [from]));
      }

      var l, visited, via := Search(from, to);
      if !l.Reached(to) {
        return NoRoute;
      }
      assert Labelled(E, from, l, visited, via, to);
      var backwards := ReadBack(E, from, to, l, visited, via);
      var route := Reverse(backwards);
      assert route == Waypoints(from, via[to]);
      return Found(Route(l.At(to), l.Flagged(to), route));
    }
  }

  lemma NodesOfOneMore(aisles: seq<AisleGeom>, k: nat)
    requires k < |aisles|
    ensures NodesOfAisles(aisles[..k + 1]) ==
            NodesOfAisles(aisles[..k]) + set j | 0 <= j < |aisles[k].bays| :: Node(aisles[k].aisleId, aisles[k].bays[j])
  {
    var more := aisles[..k + 1];
    forall n | n in NodesOfAisles(more)
      ensures n in NodesOfAisles(aisles[..k]) + set j | 0 <= j < |aisles[k].bays| :: Node(aisles[k].aisleId,
              aisles[k].bays[j])
    {
      var m, i :| 0 <= m < |more| && 0 <= i < |more[m].bays| && n == Node(more[m].aisleId, more[m].bays[i]);
      if m < k {
        assert aisles[..k][m] == more[m];
      }
    }
    forall n | n in NodesOfAisles(aisles[..k]) ensures n in NodesOfAisles(more) {
      var m, i :| 0 <= m < k && 0 <= i < |aisles[..k][m].bays|
          && n == Node(aisles[..k][m].aisleId, aisles[..k][m].bays[i]);
      assert more[m] == aisles[..k][m];
    }
    forall j | 0 <= j < |aisles[k].bays| ensures Node(aisles[k].aisleId, aisles[k].bays[j]) in NodesOfAisles(more) {
      assert more[k] == aisles[k];
    }
  }

  /** The graph holds one edge per pair of adjacent bays (two unless the aisle is one-way) and two
      per cross-aisle both of whose ends exist, and nothing else. */
  method Build(aisles: seq<AisleGeom>, crossAisles: seq<CrossAisleRef>, pitch: real) returns (g: Graph)
    ensures fresh(g) && g.Valid()
    ensures g.nodes == NodesOfAisles(aisles)
    ensures g.Holds(Emitted(aisles, crossAisles, pitch))
    ensures g.EdgeSet() == set e | e in Emitted(aisles, crossAisles, pitch)
  {
    g := new Graph();
    for k := 0 to |aisles|
      invariant fresh(g)
      invariant g.nodes == NodesOfAisles(aisles[..k])
      invariant g.Holds(EdgesOfAisles(aisles[..k], pitch))
    {
      assert aisles[..k + 1][..k] == aisles[..k];
      NodesOfOneMore(aisles, k);
      g.AddAisle(aisles[k], pitch, EdgesOfAisles(aisles[..k], pitch));
    }
    assert aisles[..|aisles|] == aisles;
    ghost var ofAisles := EdgesOfAisles(aisles, pitch);
    assert ofAisles + [] == ofAisles;
    for k := 0 to |crossAisles|
      invariant fresh(g)
      invariant g.nodes == NodesOfAisles(aisles)
      invariant g.Holds(ofAisles + EdgesOfCrossAisles(g.nodes, crossAisles[..k], pitch))
    {
      ghost var es := ofAisles + EdgesOfCrossAisles(g.nodes, crossAisles[..k], pitch);
      g.AddCrossAisle(crossAisles[k], pitch, es);
      assert crossAisles[..k + 1][..k] == crossAisles[..k];
      assert es + (if Connects(g.nodes, crossAisles[k]) then [CrossEdge(crossAisles[k], pitch),
          Flip(CrossEdge(crossAisles[k], pitch))] else [])
          == ofAisles + EdgesOfCrossAisles(g.nodes, crossAisles[..k + 1], pitch);
    }
    assert crossAisles[..|crossAisles|] == crossAisles;
    EmittedStaysInside(aisles, crossAisles, pitch);
    g.HeldEdges(Emitted(aisles, crossAisles, pitch));
  }

  // ---- what the emitted edges are ----

  /** `e` joins two adjacent bays of one of the aisles, in a direction the aisle allows. */
  ghost predicate JoinsAdjacentBays(aisles: seq<AisleGeom>, pitch: real, e: Edge) {
    exists k, i :: 0 <= k < |aisles| && 0 < i < |aisles[k].bays| && IsGap(aisles[k], pitch, i, e)
  }

  ghost predicate IsGap(a: AisleGeom, pitch: real, i: nat, e: Edge)
    requires 0 < i < |a.bays|
  {
    e == GapEdge(a, pitch, i) || (!a.oneWay && e == Flip(GapEdge(a, pitch, i)))
  }

  /** `e` is one direction of a cross-aisle both of whose ends exist. */
  ghost predicate CrossesAisles(nodes: set<Node>, crossAisles: seq<CrossAisleRef>, pitch: real, e: Edge) {
    exists c :: c in crossAisles && Connects(nodes, c) && (e == CrossEdge(c, pitch) || e == Flip(CrossEdge(c, pitch)))
  }

  lemma {:induction false} AisleEdgesAre(a: AisleGeom, pitch: real, n: nat, e: Edge)
    requires n <= |a.bays|
    ensures e in AisleEdges(a, pitch, n) <==> exists i :: 0 < i < n && IsGap(a, pitch, i, e)
  {
    if n > 1 {
      AisleEdgesAre(a, pitch, n - 1, e);
      if IsGap(a, pitch, n - 1, e) {
        assert e in AisleEdges(a, pitch, n);
      }
    }
  }

  lemma {:induction false} EdgesOfAislesAre(aisles: seq<AisleGeom>, pitch: real, e: Edge)
    ensures e in EdgesOfAisles(aisles, pitch) <==> JoinsAdjacentBays(aisles, pitch, e)
  {
    if aisles != [] {
      var n := |aisles| - 1;
      var front := aisles[..n];
      EdgesOfAislesAre(front, pitch, e);
      AisleEdgesAre(aisles[n], pitch, |aisles[n].bays|, e);
      if JoinsAdjacentBays(aisles, pitch, e) {
        var k, i :| 0 <= k < |aisles| && 0 < i < |aisles[k].bays| && IsGap(aisles[k], pitch, i, e);
        if k < n {
          assert front[k] == aisles[k];
          assert JoinsAdjacentBays(front, pitch, e);
        }
      }
      if JoinsAdjacentBays(front, pitch, e) {
        var k, i :| 0 <= k < |front| && 0 < i < |front[k].bays| && IsGap(front[k], pitch, i, e);
        assert IsGap(aisles[k], pitch, i, e);
      }
    }
  }

  lemma {:induction false} EdgesOfCrossAislesAre(nodes: set<Node>, crossAisles: seq<CrossAisleRef>, pitch: real,
          e: Edge)
    ensures e in EdgesOfCrossAisles(nodes, crossAisles, pitch) <==> CrossesAisles(nodes, crossAisles, pitch, e)
  {
    if crossAisles != [] {
      var front := crossAisles[..|crossAisles| - 1];
      EdgesOfCrossAislesAre(nodes, front, pitch, e);
      assert crossAisles == front + [crossAisles[|crossAisles| - 1]];
    }
  }

  /** The emission order read as a plain description of the map. */
  lemma EmittedAre(aisles: seq<AisleGeom>, crossAisles: seq<CrossAisleRef>, pitch: real, e: Edge)
    ensures e in Emitted(aisles, crossAisles, pitch) <==>
            JoinsAdjacentBays(aisles, pitch, e) || CrossesAisles(NodesOfAisles(aisles), crossAisles, pitch, e)
  {
    EdgesOfAislesAre(aisles, pitch, e);
    EdgesOfCrossAislesAre(NodesOfAisles(aisles), crossAisles, pitch, e);
  }

  lemma EmittedStaysInside(aisles: seq<AisleGeom>, crossAisles: seq<CrossAisleRef>, pitch: real)
    ensures forall e ::
      e in Emitted(aisles, crossAisles, pitch) ==> e.from in NodesOfAisles(aisles) && e.to in NodesOfAisles(aisles)
  {
    forall e | e in Emitted(aisles, crossAisles, pitch)
      ensures e.from in NodesOfAisles(aisles) && e.to in NodesOfAisles(aisles)
    {
      EmittedAre(aisles, crossAisles, pitch, e);
    }
  }

  // ---- how long they are ----

  /** Bays `i - 1` and `i` of the aisle are `metres` apart: where the aisle's length is known it is shared out
      evenly over the gaps, and where it is not the pitch stands in as an estimate. */
  ghost predicate GapMeasures(a: AisleGeom, pitch: real, i: nat, metres: real, estimated: bool) {
    && 0 < i < |a.bays|
    && (if a.centrelineM > 0.0 then metres * (|a.bays| - 1) as real == a.centrelineM && !estimated
        else metres == pitch && estimated)
  }

  /** Along an aisle from bay to next bay, or back unless it is one-way. */
  ghost predicate LeadsAlong(a: AisleGeom, pitch: real, i: nat, e: Edge) {
    && GapMeasures(a, pitch, i, e.metres, e.estimated)
    && (|| (e.from == Node(a.aisleId, a.bays[i - 1]) && e.to == Node(a.aisleId, a.bays[i]))
        || (!a.oneWay && e.from == Node(a.aisleId, a.bays[i]) && e.to == Node(a.aisleId, a.bays[i - 1])))
  }

  /** Between the two aisles of a cross-aisle, at the bay both have; always an estimate. */
  ghost predicate LeadsAcross(nodes: set<Node>, c: CrossAisleRef, pitch: real, e: Edge) {
    && e.metres == pitch && e.estimated && e.from in nodes && e.to in nodes
    && e.from.bay == c.atBay && e.to.bay == c.atBay
    && ((e.from.aisleId == c.fromAisleId && e.to.aisleId == c.toAisleId)
        || (e.from.aisleId == c.toAisleId && e.to.aisleId == c.fromAisleId))
  }

  lemma EvenShare(total: real, n: real, x: real)
    requires n > 0.0
    ensures x * n == total <==> x == total / n
  {
  }

  lemma GapIsMeasured(a: AisleGeom, pitch: real, i: nat, e: Edge)
    requires 0 < i < |a.bays|
    ensures IsGap(a, pitch, i, e) <==> LeadsAlong(a, pitch, i, e)
  {
    EvenShare(a.centrelineM, (|a.bays| - 1) as real, e.metres);
  }

  /** The map, edge by edge: which edges there are, how long each is, and which lengths are estimates. */
  lemma EmittedExactly(aisles: seq<AisleGeom>, crossAisles: seq<CrossAisleRef>, pitch: real, e: Edge)
    ensures e in Emitted(aisles, crossAisles, pitch) <==>
            || (exists k, i :: 0 <= k < |aisles| && 0 < i < |aisles[k].bays| && LeadsAlong(aisles[k], pitch, i, e))
            || (exists c :: c in crossAisles && LeadsAcross(NodesOfAisles(aisles), c, pitch, e))
  {
    EmittedAre(aisles, crossAisles, pitch, e);
    if JoinsAdjacentBays(aisles, pitch, e) {
      var k, i :| 0 <= k < |aisles| && 0 < i < |aisles[k].bays| && IsGap(aisles[k], pitch, i, e);
      GapIsMeasured(aisles[k], pitch, i, e);
    }
    if k, i :| 0 <= k < |aisles| && 0 < i < |aisles[k].bays| && LeadsAlong(aisles[k], pitch, i, e) {
      GapIsMeasured(aisles[k], pitch, i, e);
      assert JoinsAdjacentBays(aisles, pitch, e);
    }
    CrossesExactly(NodesOfAisles(aisles), crossAisles, pitch, e);
  }

  lemma CrossesExactly(nodes: set<Node>, crossAisles: seq<CrossAisleRef>, pitch: real, e: Edge)
    ensures CrossesAisles(nodes, crossAisles, pitch, e) <==>
            exists c :: c in crossAisles && LeadsAcross(nodes, c, pitch, e)
  {
    if c :| c in crossAisles && LeadsAcross(nodes, c, pitch, e) {
      assert Connects(nodes, c) && (e == CrossEdge(c, pitch) || e == Flip(CrossEdge(c, pitch)));
    }
    if CrossesAisles(nodes, crossAisles, pitch, e) {
      var c :| c in crossAisles && Connects(nodes, c) && (e == CrossEdge(c, pitch) || e == Flip(CrossEdge(c, pitch)));
      assert LeadsAcross(nodes, c, pitch, e);
    }
  }

  /** With a positive bay pitch every edge has positive length. */
  lemma EmittedPositive(aisles: seq<AisleGeom>, crossAisles: seq<CrossAisleRef>, pitch: real, e: Edge)
    requires pitch > 0.0 && e in Emitted(aisles, crossAisles, pitch)
    ensures e.metres > 0.0
  {
    EmittedAre(aisles, crossAisles, pitch, e);
  }
}
