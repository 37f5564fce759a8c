/** Strictly sorted lists of strings, and the sorting of a set into one. */
module Sorting {
  import opened Strings

  ghost predicate Ascending(keys: seq<string>) {
    forall i, j :: 0 <= i < j < |keys| ==> Below(keys[i], keys[j])
  }

  function Elements(keys: seq<string>): set<string> {
    set k | k in keys
  }

  /** Puts `key` where it belongs in the order. */
  function Insert(keys: seq<string>, key: string): (r: seq<string>) {
    if keys == [] then [key]
    else if Below(key, keys[0]) then [key] + keys
    else [keys[0]] + Insert(keys[1..], key)
  }

  lemma {:induction false} InsertKeepsOrder(keys: seq<string>, key: string)
    requires Ascending(keys) && key !in keys
    ensures Ascending(Insert(keys, key))
    ensures Elements(Insert(keys, key)) == Elements(keys) + {key}
  {
    if keys == [] {
    } else if Below(key, keys[0]) {
      forall j | 0 <= j < |keys| ensures Below(key, keys[j]) {
        if j > 0 { BelowTransitive(key, keys[0], keys[j]); }
      }
    } else {
      var rest := Insert(keys[1..], key);
      InsertKeepsOrder(keys[1..], key);
      BelowTotal(keys[0], key);
      assert keys == [keys[0]] + keys[1..];
      forall j | 0 <= j < |rest| ensures Below(keys[0], rest[j]) {
        assert rest[j] in Elements(rest);
      }
      assert Elements([keys[0]] + rest) == {keys[0]} + Elements(rest);
    }
  }

  /** There is only one ascending list of a given set. */
  lemma {:induction false} AscendingIsUnique(a: seq<string>, b: seq<string>)
    requires Ascending(a) && Ascending(b) && Elements(a) == Elements(b)
    ensures a == b
  {
    EmptyElements(a);
    EmptyElements(b);
    if a != [] {
      FirstIsLeast(a, b);
      FirstIsLeast(b, a);
      if Below(a[0], b[0]) {
        BelowTransitiveIrreflexive(a[0], b[0]);
      }
      TailElements(a);
      TailElements(b);
      AscendingIsUnique(a[1..], b[1..]);
      assert a == [a[0]] + a[1..] && b == [b[0]] + b[1..];
    }
  }

  lemma EmptyElements(a: seq<string>)
    ensures Elements(a) == {} <==> a == []
  {
    if a != [] {
      assert a[0] in Elements(a);
    }
  }

  lemma FirstIsLeast(a: seq<string>, b: seq<string>)
    requires Ascending(a) && a != [] && b != [] && Elements(a) == Elements(b)
    ensures a[0] == b[0] || Below(a[0], b[0])
  {
    assert b[0] in Elements(b);
    var i :| 0 <= i < |a| && a[i] == b[0];
  }

  lemma BelowTransitiveIrreflexive(s: string, t: string)
    requires Below(s, t)
    ensures !Below(t, s) && s != t
  {
    BelowIrreflexive(s);
    if Below(t, s) {
      BelowTransitive(s, t, s);
    }
  }

  lemma TailElements(a: seq<string>)
    requires Ascending(a) && a != []
    ensures Elements(a[1..]) == Elements(a) - {a[0]}
  {
    assert a == [a[0]] + a[1..];
    forall j | 1 <= j < |a| ensures a[j] != a[0] {
      BelowTransitiveIrreflexive(a[0], a[j]);
    }
  }

  /** The ascending list of a set of strings. */
  method SortedKeys(keys: set<string>) returns (sorted: seq<string>)
    ensures Ascending(sorted) && Elements(sorted) == keys
  {
    sorted := [];
    var rest := keys;
    while rest != {}
      invariant rest <= keys && Ascending(sorted) && Elements(sorted) == keys - rest
      decreases rest
    {
      var key :| key in rest;
      assert key !in Elements(sorted);
      InsertKeepsOrder(sorted, key);
      sorted := Insert(sorted, key);
      rest := rest - {key};
    }
  }

  // ---- sorting by any strict order ----

  /** `before` is a strict total order on `domain`. */
  ghost predicate Orders<T(!new)>(before: (T, T) -> bool, domain: set<T>) {
    && (forall x :: x in domain ==> !before(x, x))
    && (forall x, y :: x in domain && y in domain ==> before(x, y) || x == y || before(y, x))
    && (forall x, y, z :: x in domain && y in domain && z in domain && before(x, y) && before(y, z) ==> before(x, z))
  }

  ghost predicate Within<T>(items: seq<T>, domain: set<T>) {
    forall k :: 0 <= k < |items| ==> items[k] in domain
  }

  ghost predicate InOrder<T>(before: (T, T) -> bool, items: seq<T>) {
    forall i, j :: 0 <= i < j < |items| ==> before(items[i], items[j]) || items[i] == items[j]
  }

  function Place<T(==)>(before: (T, T) -> bool, items: seq<T>, x: T): (r: seq<T>) {
    if items == [] then [x]
    else if before(x, items[0]) || x == items[0] then [x] + items
    else [items[0]] + Place(before, items[1..], x)
  }

  lemma {:induction false} PlaceKeepsAll<T>(before: (T, T) -> bool, items: seq<T>, x: T)
    ensures multiset(Place(before, items, x)) == multiset(items) + multiset{x}
    ensures forall y :: y in Place(before, items, x) ==> y == x || y in items
  {
    if items != [] && !(before(x, items[0]) || x == items[0]) {
      PlaceKeepsAll(before, items[1..], x);
      assert items == [items[0]] + items[1..];
    }
  }

  lemma {:induction false} PlaceKeepsOrder<T(!new)>(before: (T, T) -> bool, domain: set<T>, items: seq<T>, x: T)
    requires Orders(before, domain) && Within(items, domain) && x in domain && InOrder(before, items)
    ensures InOrder(before, Place(before, items, x)) && Within(Place(before, items, x), domain)
  {
    var r := Place(before, items, x);
    if items != [] {
      if before(x, items[0]) || x == items[0] {
        forall i, j | 0 <= i < j < |r| ensures before(r[i], r[j]) || r[i] == r[j] {
          assert r[j] == items[j - 1] && (i > 0 ==> r[i] == items[i - 1]);
          assert j > 1 ==> before(items[0], items[j - 1]) || items[0] == items[j - 1];
        }
      } else {
        var rest := Place(before, items[1..], x);
        PlaceKeepsOrder(before, domain, items[1..], x);
        PlaceKeepsAll(before, items[1..], x);
        forall i, j | 0 <= i < j < |r| ensures before(r[i], r[j]) || r[i] == r[j] {
          assert r[j] == rest[j - 1] && rest[j - 1] in rest && (i > 0 ==> r[i] == rest[i - 1]);
          if i == 0 && r[j] != x {
            var k :| 0 <= k < |items[1..]| && items[1..][k] == r[j];
            assert items[k + 1] == r[j];
          }
        }
      }
    }
  }

  /** Sorts by `before`: the same elements, in order. */
  method SortBy<T(==, !new)>(before: (T, T) -> bool, ghost domain: set<T>, items: seq<T>) returns (sorted: seq<T>)
    requires Orders(before, domain) && Within(items, domain)
    ensures multiset(sorted) == multiset(items) && InOrder(before, sorted)
  {
    sorted := [];
    for k := 0 to |items|
      invariant multiset(sorted) == multiset(items[..k]) && InOrder(before, sorted) && Within(sorted, domain)
    {
      assert items[..k + 1] == items[..k] + [items[k]];
      PlaceKeepsOrder(before, domain, sorted, items[k]);
      PlaceKeepsAll(before, sorted, items[k]);
      sorted := Place(before, sorted, items[k]);
    }
    assert items[..|items|] == items;
  }
}
