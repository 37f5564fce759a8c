/** Reading one zone: the lists a repository returns, and the travel graph built from them. */
module ZoneReads {
  import opened Strings
  import opened Sorting
  import opened LocationCodes
  import opened Layout
  import Catalogues

  // ---- listings ----

  /** Walk order: by sequence hint, then by code. */
  predicate WalksBefore(a: Aisle, b: Aisle) {
    if a.sequenceHint != b.sequenceHint then a.sequenceHint < b.sequenceHint else Below(a.code, b.code)
  }

  ghost predicate IsAisleOf(c: Catalogue, zoneId: string, a: Aisle) {
    a.zoneId == zoneId && a.Id() in c.aisles && c.aisles[a.Id()] == a
  }

  ghost function AisleSet(c: Catalogue, zoneId: string): set<Aisle> {
    set k | k in c.aisles && c.aisles[k].zoneId == zoneId :: c.aisles[k]
  }

  lemma WalkOrderIsStrict(c: Catalogue, zoneId: string)
    requires Catalogues.Rooted(c)
    ensures Orders(WalksBefore, AisleSet(c, zoneId))
  {
    forall a | a in AisleSet(c, zoneId) ensures !WalksBefore(a, a) {
      BelowIrreflexive(a.code);
    }
    forall a, b | a in AisleSet(c, zoneId) && b in AisleSet(c, zoneId)
      ensures WalksBefore(a, b) || a == b || WalksBefore(b, a)
    {
      BelowTotal(a.code, b.code);
      assert Catalogues.AisleInPlace(a.Id(), a, c.zones.Keys) && Catalogues.AisleInPlace(b.Id(), b, c.zones.Keys);
    }
    forall a, b, d | a in AisleSet(c, zoneId) && b in AisleSet(c, zoneId) && d in AisleSet(c, zoneId)
        && WalksBefore(a, b) && WalksBefore(b, d)
      ensures WalksBefore(a, d)
    {
      if a.sequenceHint == b.sequenceHint == d.sequenceHint {
        BelowTransitive(a.code, b.code, d.code);
      }
    }
  }

  /** The lower sequence hint first, and of equal ones the code that sorts below the other. */
  ghost predicate ComesBefore(a: Aisle, b: Aisle) {
    a.sequenceHint < b.sequenceHint || (a.sequenceHint == b.sequenceHint && Below(a.code, b.code))
  }

  /** A zone's aisles, each once, in walk order. */
  ghost predicate ListsAisles(c: Catalogue, zoneId: string, list: seq<Aisle>) {
    && (forall i, j :: 0 <= i < j < |list| ==> list[i].Id() != list[j].Id() && ComesBefore(list[i], list[j]))
    && (forall a :: a in list <==> IsAisleOf(c, zoneId, a))
  }

  method AislesOfZone(c: Catalogue, zoneId: string) returns (list: seq<Aisle>)
    requires Catalogues.Rooted(c)
    ensures ListsAisles(c, zoneId, list)
  {
    list := [];
    var rest := c.aisles.Keys;
    while rest != {}
      invariant rest <= c.aisles.Keys
      invariant forall a :: a in list <==> IsAisleOf(c, zoneId, a) && a.Id() !in rest
      invariant forall i, j :: 0 <= i < j < |list| ==> list[i] != list[j]
      decreases rest
    {
      var k :| k in rest;
      assert Catalogues.AisleInPlace(k, c.aisles[k], c.zones.Keys);
      rest := rest - {k};
      if c.aisles[k].zoneId == zoneId {
        list := list + [c.aisles[k]];
      }
    }
    WalkOrderIsStrict(c, zoneId);
    forall k | 0 <= k < |list| ensures list[k] in AisleSet(c, zoneId) {
      assert list[k] in list;
      assert c.aisles[list[k].Id()] == list[k];
    }
    ghost var found := list;
    list := SortBy(WalksBefore, AisleSet(c, zoneId), list);
    SortedDistinct(c, zoneId, found, list);
  }

  lemma SortedDistinct(c: Catalogue, zoneId: string, found: seq<Aisle>, list: seq<Aisle>)
    requires multiset(list) == multiset(found) && InOrder(WalksBefore, list)
    requires forall i, j :: 0 <= i < j < |found| ==> found[i] != found[j]
    requires forall a :: a in found <==> IsAisleOf(c, zoneId, a)
    ensures ListsAisles(c, zoneId, list)
  {
    forall a ensures a in list <==> a in found {
      assert a in list <==> a in multiset(list);
      assert a in found <==> a in multiset(found);
    }
    DistinctSurvives(found, list);
    forall i, j | 0 <= i < j < |list| ensures list[i].Id() != list[j].Id() && WalksBefore(list[i], list[j]) {
      assert list[i] in list && list[j] in list;
    }
  }

  /** A rearrangement of a list without repeats has no repeats. */
  lemma DistinctSurvives<T>(a: seq<T>, b: seq<T>)
    requires multiset(a) == multiset(b)
    requires forall i, j :: 0 <= i < j < |a| ==> a[i] != a[j]
    ensures forall i, j :: 0 <= i < j < |b| ==> b[i] != b[j]
  {
    forall i, j | 0 <= i < j < |b| ensures b[i] != b[j] {
      if b[i] == b[j] {
        TwiceIsTwo(b, i, j);
        AtMostOnce(a, b[i]);
      }
    }
  }

  lemma TwiceIsTwo<T>(b: seq<T>, i: nat, j: nat)
    requires i < j < |b| && b[i] == b[j]
    ensures multiset(b)[b[i]] >= 2
  {
    assert b == b[..j] + [b[j]] + b[j + 1..];
    assert b[i] in multiset(b[..j]);
  }

  lemma {:induction false} AtMostOnce<T>(a: seq<T>, x: T)
    requires forall i, j :: 0 <= i < j < |a| ==> a[i] != a[j]
    ensures multiset(a)[x] <= 1
  {
    if a != [] {
      var n := |a| - 1;
      AtMostOnce(a[..n], x);
      assert a == a[..n] + [a[n]];
      if a[n] == x {
        assert x !in a[..n];
      }
    }
  }

  /** A zone's slots, each once. */
  ghost predicate ListsSlots(c: Catalogue, zoneId: string, list: seq<Slot>) {
    && (forall i, j :: 0 <= i < j < |list| ==> list[i].code.String() != list[j].code.String())
    && (forall s :: s in list <==>
       s.code.ZoneId() == zoneId && s.code.String() in c.slots && c.slots[s.code.String()] == s)
  }

  /** The stored codes that begin with the zone's id and a hyphen are the codes of that zone. */
  lemma PrefixFindsZone(c: Catalogue, zoneId: string, k: string)
    requires Catalogues.Rooted(c) && zoneId in c.zones && k in c.slots
    ensures HasPrefix(k, zoneId + "-") <==> c.slots[k].code.ZoneId() == zoneId
    ensures k == c.slots[k].code.String()
  {
    var z := c.zones[zoneId];
    assert Catalogues.ZoneInPlace(zoneId, z, c.sites.Keys);
    assert Catalogues.SlotInPlace(k, c.slots[k], c.sites.Keys, c.zones.Keys, c.aisles.Keys, c.types.Keys);
    ZonePrefixIsZoneId(c.slots[k].code, z.site, z.area, z.zone);
  }

  /** Ascending by printed code, as the repository lists them. */
  ghost predicate ByCode(list: seq<Slot>) {
    forall i, j :: 0 <= i < j < |list| ==> Below(list[i].code.String(), list[j].code.String())
  }

  /** The slots of a zone among the stored codes `keys`. */
  ghost predicate ListsSlotsOf(c: Catalogue, zoneId: string, keys: set<string>, list: seq<Slot>) {
    forall s :: s in list <==>
      s.code.ZoneId() == zoneId && s.code.String() in keys && s.code.String() in c.slots
        && c.slots[s.code.String()] == s
  }

  lemma ListOneMore(c: Catalogue, zoneId: string, keys: set<string>, list: seq<Slot>, k: string)
    requires ListsSlotsOf(c, zoneId, keys, list) && ByCode(list)
    requires (forall x :: x in keys ==> Below(x, k)) && k in c.slots && k == c.slots[k].code.String()
    ensures var longer := if c.slots[k].code.ZoneId() == zoneId then list + [c.slots[k]] else list;
            ListsSlotsOf(c, zoneId, keys + {k}, longer) && ByCode(longer)
  {
    forall i | 0 <= i < |list| ensures Below(list[i].code.String(), k) {
      assert list[i] in list;
    }
  }

  lemma ByCodeIsDistinct(list: seq<Slot>)
    requires ByCode(list)
    ensures forall i, j :: 0 <= i < j < |list| ==> list[i].code.String() != list[j].code.String()
  {
    forall i, j | 0 <= i < j < |list| ensures list[i].code.String() != list[j].code.String() {
      BelowIrreflexive(list[i].code.String());
    }
  }

  method SlotsOfZone(c: Catalogue, zoneId: string) returns (list: seq<Slot>)
    requires Catalogues.Rooted(c) && zoneId in c.zones
    ensures ListsSlots(c, zoneId, list) && ByCode(list)
  {
    var keys := SortedKeys(c.slots.Keys);
    list := [];
    ghost var seen := {};
    for i := 0 to |keys|
      invariant seen == Elements(keys[..i])
      invariant ListsSlotsOf(c, zoneId, seen, list) && ByCode(list)
    {
      assert keys[i] in Elements(keys);
      PrefixFindsZone(c, zoneId, keys[i]);
      KeysAreBelow(keys, i);
      ListOneMore(c, zoneId, seen, list, keys[i]);
      if HasPrefix(keys[i], zoneId + "-") {
        list := list + [c.slots[keys[i]]];
      }
      seen := seen + {keys[i]};
    }
    assert keys[..|keys|] == keys;
    ByCodeIsDistinct(list);
  }

  lemma KeysAreBelow(keys: seq<string>, i: nat)
    requires Ascending(keys) && i < |keys|
    ensures forall x :: x in Elements(keys[..i]) ==> Below(x, keys[i])
    ensures Elements(keys[..i + 1]) == Elements(keys[..i]) + {keys[i]}
  {
    assert keys[..i + 1] == keys[..i] + [keys[i]];
  }
}
