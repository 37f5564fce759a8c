/** The binary min-heap behind the route search: the `container/heap` operations over a slice of
    queue entries, ordered by `dist` alone. */
module MinHeap {
  import opened Walks

  datatype Item = Item(node: Node, dist: real)

  function Parent(j: nat): (i: nat)
    requires j > 0
    ensures i < j
  {
    (j - 1) / 2
  }

  /** The entry at `j` is no smaller than its parent. */
  predicate Ordered(q: seq<Item>, j: nat)
    requires 0 < j < |q|
  {
    q[Parent(j)].dist <= q[j].dist
  }

  /** The entry at `c` is no smaller than its parent's parent. */
  predicate GrandOrdered(q: seq<Item>, c: nat)
    requires 0 < c < |q| && Parent(c) > 0
  {
    q[Parent(Parent(c))].dist <= q[c].dist
  }

  ghost predicate IsHeap(q: seq<Item>) {
    forall j :: 0 < j < |q| ==> Ordered(q, j)
  }

  /** A heap but for the entry at `hole`, which may be smaller than its parent. */
  ghost predicate HeapAbove(q: seq<Item>, hole: nat) {
    && hole < |q|
    && (forall j :: 0 < j < |q| && j != hole ==> Ordered(q, j))
    && (hole > 0 ==> forall c :: 0 < c < |q| && Parent(c) == hole ==> GrandOrdered(q, c))
  }

  /** A heap but for the entry at `hole`, which may be larger than its children. */
  ghost predicate HeapBelow(q: seq<Item>, hole: nat) {
    && (forall j :: 0 < j < |q| && Parent(j) != hole ==> Ordered(q, j))
    && (hole > 0 ==> forall c :: 0 < c < |q| && Parent(c) == hole ==> GrandOrdered(q, c))
  }

  function Swapped(q: seq<Item>, i: nat, j: nat): (r: seq<Item>)
    requires i < |q| && j < |q|
    ensures |r| == |q| && r[i] == q[j] && r[j] == q[i]
    ensures forall k :: 0 <= k < |q| && k != i && k != j ==> r[k] == q[k]
    ensures multiset(r) == multiset(q)
  {
    q[i := q[j]][j := q[i]]
  }

  /** In a heap the first entry is a minimum. */
  lemma {:induction false} RootIsMinimum(q: seq<Item>, k: nat)
    requires IsHeap(q) && k < |q|
    ensures q[0].dist <= q[k].dist
  {
    if k > 0 {
      assert Ordered(q, k);
      RootIsMinimum(q, Parent(k));
    }
  }

  lemma SwapUp(q: seq<Item>, j: nat)
    requires HeapAbove(q, j) && j > 0 && !Ordered(q, j)
    ensures HeapAbove(Swapped(q, Parent(j), j), Parent(j))
  {
    var i := Parent(j);
    var r := Swapped(q, i, j);
    forall c | 0 < c < |r| && c != i ensures Ordered(r, c) {
      if c != j {
        assert Ordered(q, c);
        if Parent(c) == j { assert GrandOrdered(q, c); }
      }
    }
    if i > 0 {
      assert Ordered(q, i);
      forall c | 0 < c < |r| && Parent(c) == i ensures GrandOrdered(r, c) {
        if c != j { assert Ordered(q, c); }
      }
    }
  }

  lemma SwapDown(q: seq<Item>, i: nat, j: nat)
    requires HeapBelow(q, i) && 0 < j < |q| && Parent(j) == i && !Ordered(q, j)
    requires forall c :: 0 < c < |q| && Parent(c) == i ==> q[j].dist <= q[c].dist
    ensures HeapBelow(Swapped(q, i, j), j)
  {
    var r := Swapped(q, i, j);
    forall c | 0 < c < |r| && Parent(c) != j ensures Ordered(r, c) {
      if c == i { assert GrandOrdered(q, j); }
      else if Parent(c) != i { assert Ordered(q, c); }
    }
    forall c | 0 < c < |r| && Parent(c) == j ensures GrandOrdered(r, c) {
      assert Ordered(q, c);
    }
  }

  class PriorityQueue {
    var items: seq<Item>

    ghost predicate Valid()
      reads this
    {
      IsHeap(items)
    }

    constructor (first: Item)
      ensures Valid() && items == [first]
    {
      items := [first];
    }

    /** Adds `x` and nothing else. */
    method Push(x: Item)
      requires Valid()
      modifies this
      ensures Valid()
      ensures multiset(items) == old(multiset(items)) + multiset{x}
    {
      ghost var was := items;
      items := items + [x];
      forall j | 0 < j < |was| ensures Ordered(items, j) {
        assert Ordered(was, j);
      }
      Up(|items| - 1);
    }

    /** Removes an entry that no other entry is below. */
    method Pop() returns (x: Item)
      requires Valid() && items != []
      modifies this
      ensures Valid()
      ensures x in old(items)
      ensures forall y :: y in old(items) ==> x.dist <= y.dist
      ensures multiset(items) == old(multiset(items)) - multiset{x}
      ensures |items| == |old(items)| - 1
    {
      ghost var was := items;
      forall y | y in was ensures was[0].dist <= y.dist {
        var k :| 0 <= k < |was| && was[k] == y;
        RootIsMinimum(was, k);
      }
      var n := |items| - 1;
      items := Swapped(items, 0, n);
      x := items[n];
      ghost var swapped := items;
      items := items[..n];
      assert swapped == items + [x];
      forall j | 0 < j < n && Parent(j) != 0 ensures Ordered(items, j) {
        assert Ordered(was, j);
      }
      Down(0);
    }

    /** Sifts the entry at `j0` towards the root. */
    method Up(j0: nat)
      requires HeapAbove(items, j0)
      modifies this
      ensures Valid()
      ensures multiset(items) == multiset(old(items))
    {
      var j := j0;
      while j > 0 && items[j].dist < items[Parent(j)].dist
        invariant HeapAbove(items, j)
        invariant multiset(items) == multiset(old(items))
      {
        SwapUp(items, j);
        items := Swapped(items, Parent(j), j);
        j := Parent(j);
      }
    }

    /** Sifts the entry at `i0` away from the root. */
    method Down(i0: nat)
      requires HeapBelow(items, i0)
      modifies this
      ensures Valid()
      ensures multiset(items) == multiset(old(items))
    {
      var i: nat := i0;
      while 2 * i + 1 < |items|
        invariant HeapBelow(items, i)
        invariant multiset(items) == multiset(old(items))
      {
        var j: nat := 2 * i + 1;
        if j + 1 < |items| && items[j + 1].dist < items[j].dist {
          j := j + 1;
        }
        if items[i].dist <= items[j].dist {
          forall c | 0 < c < |items| ensures Ordered(items, c) {
          }
          return;
        }
        SwapDown(items, i, j);
        items := Swapped(items, i, j);
        i := j;
      }
    }
  }
}
