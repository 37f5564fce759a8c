/** What the route search keeps true, step by step, and why its answer is the shortest route.

    `visited` are the waypoints already taken from the queue and `bag` the queue's contents. `via` is
    proof-only: for each waypoint with a finite label, the walk that label stands for. */
module ShortestPath {
  import opened Walks
  import opened MinHeap

  /** A tentative distance; `Infinite` for a waypoint no route has reached yet. */
  datatype Metres = Finite(m: real) | Infinite

  /** The search's label maps: best length so far, whether it uses an estimate, and the last hop. */
  datatype Labels = Labels(dist: map<Node, Metres>, estimated: map<Node, bool>, prev: map<Node, Node>) {
    /** Has some route reached `n`? */
    predicate Reached(n: Node) {
      n in dist && dist[n].Finite?
    }

    function At(n: Node): real
      requires Reached(n)
    {
      dist[n].m
    }

    predicate Flagged(n: Node) {
      n in estimated && estimated[n]
    }

    /** Going through `e` beats the current label of its far end. */
    predicate ImprovedBy(e: Edge)
      requires Reached(e.from) && e.to in dist
    {
      dist[e.to].Infinite? || At(e.from) + e.metres < At(e.to)
    }

    /** The labels after taking `e` as the last hop to its far end. */
    function Through(e: Edge): Labels
      requires Reached(e.from)
    {
      Labels(dist[e.to := Finite(At(e.from) + e.metres)],
             estimated[e.to := Flagged(e.from) || e.estimated],
             prev[e.to := e.from])
    }

    /** The label at the far end of `e` is no worse than going through `e`. */
    ghost predicate Relaxed(e: Edge) {
      Reached(e.from) ==> Reached(e.to) && At(e.to) <= At(e.from) + e.metres
    }
  }

  /** The labels of `n` describe a real walk: its length, whether it uses an estimate, its last hop. */
  ghost predicate Labelled(E: set<Edge>, from: Node, l: Labels, visited: set<Node>, via: map<Node, seq<Edge>>, n: Node)
    requires l.Reached(n)
  {
    && n in via
    && var w := via[n];
    && IsWalk(E, w, from, n)
    && Length(w) == l.At(n)
    && (l.Flagged(n) <==> UsesEstimate(w))
    && (n == from ==> w == [])
    && (n != from ==>
          && w != []
          && n in l.prev && l.prev[n] == w[|w| - 1].from
          && l.prev[n] in visited && l.prev[n] in via && via[l.prev[n]] == w[..|w| - 1])
  }

  ghost predicate AllLabelled(E: set<Edge>, from: Node, l: Labels, visited: set<Node>, via: map<Node, seq<Edge>>) {
    && l.Reached(from) && l.At(from) == 0.0
    && (forall v :: v in visited ==> l.Reached(v))
    && (forall n {:trigger Labelled(E, from, l, visited, via, n)} ::
       l.Reached(n) ==> Labelled(E, from, l, visited, via, n))
  }

  ghost predicate RelaxedFrom(E: set<Edge>, l: Labels, settled: set<Node>) {
    forall e :: e in E && e.from in settled ==> l.Relaxed(e)
  }

  /** Every waypoint reached but not visited waits in the queue under its label; no entry is below
      its waypoint's label, nor below the label of a visited waypoint. */
  ghost predicate Frontier(l: Labels, visited: set<Node>, bag: multiset<Item>) {
    && (forall n :: l.Reached(n) && n !in visited ==> Item(n, l.At(n)) in bag)
    && (forall x :: x in bag ==> l.Reached(x.node) && l.At(x.node) <= x.dist)
    && (forall x, v :: x in bag && v in visited && l.Reached(v) ==> l.At(v) <= x.dist)
  }

  /** What holds whenever the search takes its next queue entry. */
  ghost predicate Searching(E: set<Edge>, from: Node, l: Labels, visited: set<Node>, via: map<Node, seq<Edge>>,
          bag: multiset<Item>)
  {
    && AllLabelled(E, from, l, visited, via)
    && RelaxedFrom(E, l, visited)
    && Frontier(l, visited, bag)
  }

  /** What holds while the edges out of `u`, the latest visited waypoint, are being relaxed. */
  ghost predicate Expanding(E: set<Edge>, from: Node, l: Labels, visited: set<Node>, via: map<Node, seq<Edge>>,
          bag: multiset<Item>, u: Node)
  {
    && u in visited
    && AllLabelled(E, from, l, visited, via)
    && RelaxedFrom(E, l, visited - {u})
    && Frontier(l, visited, bag)
    && (forall v :: v in visited ==> l.At(v) <= l.At(u))
  }

  /** From `l` to `l'` no edge out of a visited waypoint stops being relaxed. */
  ghost predicate KeepsRelaxed(E: set<Edge>, visited: set<Node>, l: Labels, l': Labels) {
    forall d :: d in E && d.from in visited && l.Relaxed(d) ==> l'.Relaxed(d)
  }

  ghost predicate RelaxedFirst(l: Labels, out: seq<Edge>, k: nat)
    requires k <= |out|
  {
    forall i :: 0 <= i < k ==> l.Relaxed(out[i])
  }

  lemma OneMoreRelaxed(E: set<Edge>, visited: set<Node>, l: Labels, l': Labels, out: seq<Edge>, k: nat)
    requires k < |out| && KeepsRelaxed(E, visited, l, l') && RelaxedFirst(l, out, k) && l'.Relaxed(out[k])
    requires forall e :: e in out ==> e in E && e.from in visited
    ensures RelaxedFirst(l', out, k + 1)
  {
  }

  /** Once every edge out of `u` is relaxed the search goes on. */
  lemma Expanded(E: set<Edge>, from: Node, l: Labels, visited: set<Node>, via: map<Node, seq<Edge>>,
          bag: multiset<Item>, u: Node, out: seq<Edge>)
    requires Expanding(E, from, l, visited, via, bag, u)
    requires forall e :: e in E && e.from == u ==> e in out
    requires RelaxedFirst(l, out, |out|)
    ensures Searching(E, from, l, visited, via, bag)
  {
  }

  lemma StartSearching(E: set<Edge>, nodes: set<Node>, from: Node, l: Labels)
    requires from in nodes
    requires l == Labels((map n | n in nodes :: Infinite)[from := Finite(0.0)], map[], map[])
    ensures Searching(E, from, l, {}, map[from := []], multiset{Item(from, 0.0)})
  {
    assert IsWalk(E, [], from, from) && Length([]) == 0.0;
  }

  /** The least entry of the queue carries its waypoint's final label, and visiting that waypoint
      keeps everything true but the relaxation of its own edges. */
  lemma VisitLeast(E: set<Edge>, from: Node, l: Labels, visited: set<Node>, via: map<Node, seq<Edge>>,
          bag: multiset<Item>, x: Item)
    requires Searching(E, from, l, visited, via, bag) && x in bag && x.node !in visited
    requires forall y :: y in bag ==> x.dist <= y.dist
    ensures l.Reached(x.node) && l.At(x.node) == x.dist
    ensures forall n :: l.Reached(n) && n !in visited ==> x.dist <= l.At(n)
    ensures Expanding(E, from, l, visited + {x.node}, via, bag - multiset{x}, x.node)
  {
    var u := x.node;
    assert Item(u, l.At(u)) in bag;
    LabelsWithOneMore(E, from, l, visited, via, u);
    FrontierWithOneMore(l, visited, bag, x);
    assert visited + {u} - {u} == visited;
  }

  lemma LabelsWithOneMore(E: set<Edge>, from: Node, l: Labels, visited: set<Node>, via: map<Node, seq<Edge>>, u: Node)
    requires AllLabelled(E, from, l, visited, via) && l.Reached(u)
    ensures AllLabelled(E, from, l, visited + {u}, via)
  {
    forall n | l.Reached(n) ensures Labelled(E, from, l, visited + {u}, via, n) {
      assert Labelled(E, from, l, visited, via, n);
    }
  }

  lemma FrontierWithOneMore(l: Labels, visited: set<Node>, bag: multiset<Item>, x: Item)
    requires Frontier(l, visited, bag) && x in bag && l.Reached(x.node) && l.At(x.node) == x.dist
    requires forall y :: y in bag ==> x.dist <= y.dist
    ensures Frontier(l, visited + {x.node}, bag - multiset{x})
  {
    forall n | l.Reached(n) && n !in visited + {x.node} ensures Item(n, l.At(n)) in bag - multiset{x} {
      assert Item(n, l.At(n)) in bag;
    }
  }

  /** A stale entry can be dropped. */
  lemma DropStale(E: set<Edge>, from: Node, l: Labels, visited: set<Node>, via: map<Node, seq<Edge>>,
          bag: multiset<Item>, x: Item)
    requires Searching(E, from, l, visited, via, bag) && x.node in visited
    ensures Searching(E, from, l, visited, via, bag - multiset{x})
  {
    forall n | l.Reached(n) && n !in visited ensures Item(n, l.At(n)) in bag - multiset{x} {
      assert Item(n, l.At(n)) in bag;
    }
  }

  lemma ExtendedWalk(E: set<Edge>, w: seq<Edge>, e: Edge, a: Node)
    requires IsWalk(E, w, a, e.from) && e in E
    ensures IsWalk(E, w + [e], a, e.to)
    ensures Length(w + [e]) == Length(w) + e.metres
    ensures UsesEstimate(w + [e]) <==> UsesEstimate(w) || e.estimated
  {
    var r := w + [e];
    assert r[..|r| - 1] == w;
    if UsesEstimate(w) {
      var i :| 0 <= i < |w| && w[i].estimated;
      assert r[i].estimated;
    }
    if e.estimated {
      assert r[|w|].estimated;
    }
  }

  /** An edge out of the latest visited waypoint can only improve a waypoint not yet visited. */
  lemma ImprovesOnlyUnvisited(E: set<Edge>, from: Node, l: Labels, visited: set<Node>, via: map<Node, seq<Edge>>,
          bag: multiset<Item>, e: Edge)
    requires NonNegative(E) && Expanding(E, from, l, visited, via, bag, e.from)
    requires e in E && e.to in l.dist && l.ImprovedBy(e)
    ensures e.to !in visited && e.to != from
  {
    var u := e.from;
    assert Labelled(E, from, l, visited, via, u);
    NonNegativeLength(E, via[u], from, u);
  }

  /** Labels stay truthful when an improving edge is taken. */
  lemma RelaxKeepsLabels(E: set<Edge>, from: Node, l: Labels, visited: set<Node>, via: map<Node, seq<Edge>>, e: Edge)
    requires AllLabelled(E, from, l, visited, via)
    requires e in E && e.from in visited && e.to !in visited && e.to != from
    ensures e.from in via
    ensures AllLabelled(E, from, l.Through(e), visited, via[e.to := via[e.from] + [e]])
  {
    var u, t := e.from, e.to;
    assert Labelled(E, from, l, visited, via, u);
    ExtendedWalk(E, via[u], e, from);
    var l', via' := l.Through(e), via[t := via[u] + [e]];
    forall n | l'.Reached(n) ensures Labelled(E, from, l', visited, via', n) {
      if n == t {
        assert via'[t][..|via'[t]| - 1] == via[u];
      } else {
        assert Labelled(E, from, l, visited, via, n);
      }
    }
  }

  lemma RelaxKeepsFrontier(l: Labels, visited: set<Node>, bag: multiset<Item>, e: Edge)
    requires Frontier(l, visited, bag)
    requires l.Reached(e.from) && e.to in l.dist && l.ImprovedBy(e) && e.to !in visited && e.metres >= 0.0
    requires forall v :: v in visited ==> l.Reached(v) && l.At(v) <= l.At(e.from)
    ensures Frontier(l.Through(e), visited, bag + multiset{Item(e.to, l.At(e.from) + e.metres)})
  {
    var l' := l.Through(e);
    var bag' := bag + multiset{Item(e.to, l.At(e.from) + e.metres)};
    forall n | l'.Reached(n) && n !in visited ensures Item(n, l'.At(n)) in bag' {
      if n != e.to {
        assert Item(n, l.At(n)) in bag;
      }
    }
    forall x | x in bag' ensures l'.Reached(x.node) && l'.At(x.node) <= x.dist {
      if x in bag {
        assert l.Reached(x.node);
      }
    }
  }

  /** One improving edge out of `u`: the search's inner step. */
  lemma RelaxStep(E: set<Edge>, from: Node, l: Labels, visited: set<Node>, via: map<Node, seq<Edge>>,
          bag: multiset<Item>, e: Edge)
    requires NonNegative(E) && Expanding(E, from, l, visited, via, bag, e.from)
    requires e in E && e.to in l.dist && l.ImprovedBy(e)
    ensures e.from in via
    ensures Expanding(E, from, l.Through(e), visited, via[e.to := via[e.from] + [e]],
                      bag + multiset{Item(e.to, l.At(e.from) + e.metres)}, e.from)
    ensures l.Through(e).Relaxed(e)
    ensures KeepsRelaxed(E, visited, l, l.Through(e))
  {
    ImprovesOnlyUnvisited(E, from, l, visited, via, bag, e);
    RelaxKeepsLabels(E, from, l, visited, via, e);
    RelaxKeepsFrontier(l, visited, bag, e);
  }

  /** When the search stops at a waypoint whose label is `bound`, every walk out of the settled
      waypoints costs at least `bound`, so no walk to it is shorter. */
  lemma {:induction false} NoShorterWalk(E: set<Edge>, from: Node, l: Labels, settled: set<Node>, bound: real,
          w: seq<Edge>, n: Node)
    requires NonNegative(E) && RelaxedFrom(E, l, settled)
    requires forall v :: v in settled ==> l.Reached(v)
    requires from in settled && l.At(from) == 0.0
    requires forall v :: l.Reached(v) && v !in settled ==> bound <= l.At(v)
    requires IsWalk(E, w, from, n)
    ensures bound <= Length(w) || (n in settled && l.At(n) <= Length(w))
  {
    if w != [] {
      var e := w[|w| - 1];
      NoShorterWalk(E, from, l, settled, bound, w[..|w| - 1], e.from);
      if e.from in settled {
        assert l.Relaxed(e);
      }
    }
  }

  /** When the queue runs dry, the visited waypoints are all there is to reach. */
  lemma {:induction false} WalksStayVisited(E: set<Edge>, from: Node, l: Labels, visited: set<Node>, w: seq<Edge>,
          n: Node)
    requires RelaxedFrom(E, l, visited) && from in visited
    requires forall v :: l.Reached(v) <==> v in visited
    requires IsWalk(E, w, from, n)
    ensures n in visited
  {
    if w != [] {
      var e := w[|w| - 1];
      WalksStayVisited(E, from, l, visited, w[..|w| - 1], e.from);
      assert l.Relaxed(e);
    }
  }

  /** The search stopped because `to` was the least entry: its label is the distance. */
  lemma Settled(E: set<Edge>, from: Node, l: Labels, visited: set<Node>, via: map<Node, seq<Edge>>, to: Node)
    requires NonNegative(E) && AllLabelled(E, from, l, visited, via) && RelaxedFrom(E, l, visited)
    requires from in visited && to !in visited && l.Reached(to)
    requires forall n :: l.Reached(n) && n !in visited ==> l.At(to) <= l.At(n)
    ensures to in via && Reachable(E, from, to)
    ensures forall w :: IsWalk(E, w, from, to) ==> l.At(to) <= Length(w)
  {
    assert Labelled(E, from, l, visited, via, to);
    forall w | IsWalk(E, w, from, to) ensures l.At(to) <= Length(w) {
      NoShorterWalk(E, from, l, visited, l.At(to), w, to);
    }
  }

  /** The search has its answer: `to` is reached, by a shortest walk. */
  ghost predicate Arrived(E: set<Edge>, from: Node, to: Node, l: Labels, visited: set<Node>,
          via: map<Node, seq<Edge>>)
  {
    && AllLabelled(E, from, l, visited, via)
    && l.Reached(to) && to in via && Reachable(E, from, to)
    && forall w :: IsWalk(E, w, from, to) ==> l.At(to) <= Length(w)
  }

  lemma ArrivedAtLeast(E: set<Edge>, from: Node, l: Labels, visited: set<Node>, via: map<Node, seq<Edge>>, to: Node)
    requires NonNegative(E) && AllLabelled(E, from, l, visited, via) && RelaxedFrom(E, l, visited)
    requires from in visited && to !in visited && l.Reached(to)
    requires forall n :: l.Reached(n) && n !in visited ==> l.At(to) <= l.At(n)
    ensures Arrived(E, from, to, l, visited, via)
  {
    Settled(E, from, l, visited, via, to);
  }

  /** The search stopped because the queue ran dry before `to` was visited: nothing leads there. */
  lemma Exhausted(E: set<Edge>, from: Node, l: Labels, visited: set<Node>, to: Node)
    requires RelaxedFrom(E, l, visited) && from in visited && to !in visited
    requires forall v :: v in visited ==> l.Reached(v)
    requires Frontier(l, visited, multiset{})
    ensures !l.Reached(to) && !Reachable(E, from, to)
  {
    forall w ensures !IsWalk(E, w, from, to) {
      if IsWalk(E, w, from, to) {
        WalksStayVisited(E, from, l, visited, w, to);
      }
    }
  }

  lemma {:induction false} WaypointAt(a: Node, w: seq<Edge>, k: nat)
    requires k <= |w|
    ensures Waypoints(a, w)[k] == if k == 0 then a else w[k - 1].to
  {
    if w != [] && k < |w| {
      WaypointAt(a, w[..|w| - 1], k);
    }
  }
}
