/** The travel graph of a stored zone, and the distance between two of its slots. */
module ZoneGraph {
  import opened Strings
  import opened Sorting
  import opened LocationCodes
  import opened Layout
  import opened Walks
  import opened TravelGraph
  import opened RouteLaws
  import opened ZoneReads
  import Catalogues
  import CatalogueLaws

  /** The bays that slots of the zone occupy along one of its aisles. */
  ghost function BaysOf(c: Catalogue, zoneId: string, aisleCode: string): set<string> {
    set k | k in c.slots && c.slots[k].code.ZoneId() == zoneId
      && c.slots[k].code.aisle == aisleCode :: c.slots[k].code.bay
  }

  function CentrelineM(a: Aisle): real {
    if a.centreline.Some? then a.centreline.value.length else 0.0
  }

  /** The graph's view of an aisle is the stored aisle with its occupied bays in order. */
  ghost predicate Describes(c: Catalogue, zoneId: string, a: Aisle, g: AisleGeom) {
    && g.aisleId == a.Id()
    && Ascending(g.bays) && Elements(g.bays) == BaysOf(c, zoneId, a.code)
    && g.oneWay == (a.direction == OneWay)
    && g.centrelineM == CentrelineM(a)
  }

  ghost predicate DescribesZone(c: Catalogue, zoneId: string, aisles: seq<Aisle>, geoms: seq<AisleGeom>) {
    && ListsAisles(c, zoneId, aisles)
    && |geoms| == |aisles|
    && forall k :: 0 <= k < |geoms| ==> Describes(c, zoneId, aisles[k], geoms[k])
  }

  function RefOf(x: CrossAisle): CrossAisleRef {
    CrossAisleRef(x.zoneId + "-" + x.fromAisle, x.zoneId + "-" + x.toAisle, x.atBay)
  }

  /** Exactly the zone's active cross-aisles. */
  ghost predicate DescribesLinks(c: Catalogue, zoneId: string, refs: seq<CrossAisleRef>) {
    forall r :: r in refs <==>
      exists k :: k in c.crossAisles && c.crossAisles[k].zoneId == zoneId && c.crossAisles[k].active
        && RefOf(c.crossAisles[k]) == r
  }

  ghost function BaySet(slots: seq<Slot>, aisleCode: string): set<string> {
    set s | s in slots && s.code.aisle == aisleCode :: s.code.bay
  }

  function Lookup(bays: map<string, set<string>>, aisleCode: string): set<string> {
    if aisleCode in bays then bays[aisleCode] else {}
  }

  lemma BaySetOneMore(slots: seq<Slot>, i: nat, aisleCode: string)
    requires i < |slots|
    ensures BaySet(slots[..i + 1], aisleCode) ==
            BaySet(slots[..i], aisleCode) + if slots[i].code.aisle == aisleCode then {slots[i].code.bay} else {}
  {
    assert slots[..i + 1] == slots[..i] + [slots[i]];
  }

  /** The bays occupied along each aisle, keyed by aisle code. */
  method BaysByAisle(slots: seq<Slot>) returns (bays: map<string, set<string>>)
    ensures forall a :: Lookup(bays, a) == BaySet(slots, a)
  {
    bays := map[];
    for i := 0 to |slots|
      invariant forall a :: Lookup(bays, a) == BaySet(slots[..i], a)
    {
      var code := slots[i].code;
      var more := bays[code.aisle := Lookup(bays, code.aisle) + {code.bay}];
      forall a ensures Lookup(more, a) == BaySet(slots[..i + 1], a) {
        BaySetOneMore(slots, i, a);
        assert Lookup(bays, a) == BaySet(slots[..i], a);
      }
      bays := more;
    }
    assert slots[..|slots|] == slots;
  }

  lemma BaysAreBaysOf(c: Catalogue, zoneId: string, slots: seq<Slot>, aisleCode: string)
    requires Catalogues.Rooted(c) && ListsSlots(c, zoneId, slots)
    ensures BaySet(slots, aisleCode) == BaysOf(c, zoneId, aisleCode)
  {
    forall k | k in c.slots && c.slots[k].code.ZoneId() == zoneId ensures c.slots[k] in slots {
      assert Catalogues.SlotInPlace(k, c.slots[k], c.sites.Keys, c.zones.Keys, c.aisles.Keys, c.types.Keys);
    }
    forall s | s in slots ensures s.code.String() in c.slots && c.slots[s.code.String()] == s
        && s.code.ZoneId() == zoneId {
    }
  }

  method GeomsOfZone(c: Catalogue, zoneId: string) returns (geoms: seq<AisleGeom>, ghost aisles: seq<Aisle>)
    requires Catalogues.Rooted(c) && zoneId in c.zones
    ensures DescribesZone(c, zoneId, aisles, geoms)
  {
    var list := AislesOfZone(c, zoneId);
    var slots := SlotsOfZone(c, zoneId);
    var baysByAisle := BaysByAisle(slots);
    geoms := [];
    for k := 0 to |list|
      invariant |geoms| == k
      invariant forall i :: 0 <= i < k ==> Describes(c, zoneId, list[i], geoms[i])
    {
      var a := list[k];
      BaysAreBaysOf(c, zoneId, slots, a.code);
      var bays := SortedKeys(Lookup(baysByAisle, a.code));
      geoms := geoms + [AisleGeom(a.Id(), bays, a.direction == OneWay, CentrelineM(a))];
    }
    aisles := list;
  }

  method LinksOfZone(c: Catalogue, zoneId: string) returns (refs: seq<CrossAisleRef>)
    ensures DescribesLinks(c, zoneId, refs)
  {
    refs := [];
    var rest := c.crossAisles.Keys;
    while rest != {}
      invariant rest <= c.crossAisles.Keys
      invariant forall r :: r in refs <==>
                  exists k :: k in c.crossAisles.Keys - rest && c.crossAisles[k].zoneId == zoneId
                    && c.crossAisles[k].active && RefOf(c.crossAisles[k]) == r
      decreases rest
    {
      var k :| k in rest;
      rest := rest - {k};
      if c.crossAisles[k].zoneId == zoneId && c.crossAisles[k].active {
        refs := refs + [RefOf(c.crossAisles[k])];
      }
    }
  }

  /** The graph of a stored zone, or that there is no such zone. */
  method BuildZoneGraph(c: Catalogue, zoneId: string)
    returns (r: Result<Graph>, ghost aisles: seq<Aisle>, ghost geoms: seq<AisleGeom>, ghost refs: seq<CrossAisleRef>)
    requires Catalogues.Rooted(c)
    ensures zoneId !in c.zones ==> r == Err(ZoneNotFound)
    ensures zoneId in c.zones ==>
              && r.Ok? && DescribesZone(c, zoneId, aisles, geoms) && DescribesLinks(c, zoneId, refs)
              && r.value.Valid() && r.value.nodes == NodesOfAisles(geoms)
              && r.value.EdgeSet() == MapEdges(geoms, refs, c.zones[zoneId].BayPitchM())
  {
    if zoneId !in c.zones {
      return Err(ZoneNotFound), [], [], [];
    }
    var described, links;
    described, aisles := GeomsOfZone(c, zoneId);
    links := LinksOfZone(c, zoneId);
    var g := Build(described, links, c.zones[zoneId].BayPitchM());
    return Ok(g), aisles, described, links;
  }

  /** The laws of distances along and between aisles apply to every stored zone. */
  lemma ZoneIsWellShaped(c: Catalogue, zoneId: string, aisles: seq<Aisle>, geoms: seq<AisleGeom>)
    requires DescribesZone(c, zoneId, aisles, geoms)
    ensures DistinctAisles(geoms)
    ensures forall k :: 0 <= k < |geoms| ==> DistinctBays(geoms[k])
  {
    forall k, m | 0 <= k < m < |geoms| ensures geoms[k].aisleId != geoms[m].aisleId {
      assert Describes(c, zoneId, aisles[k], geoms[k]) && Describes(c, zoneId, aisles[m], geoms[m]);
    }
    forall k | 0 <= k < |geoms| ensures DistinctBays(geoms[k]) {
      assert Describes(c, zoneId, aisles[k], geoms[k]);
      forall i, j | 0 <= i < j < |geoms[k].bays| ensures geoms[k].bays[i] != geoms[k].bays[j] {
        BelowIrreflexive(geoms[k].bays[i]);
      }
    }
  }

  function NodeOf(code: LocationCode): Node {
    Node(code.AisleId(), code.bay)
  }

  /** Every stored slot of the zone stands at a waypoint of its graph. */
  lemma SlotIsOnGraph(c: Catalogue, zoneId: string, aisles: seq<Aisle>, geoms: seq<AisleGeom>, k: string)
    requires Catalogues.Rooted(c) && DescribesZone(c, zoneId, aisles, geoms)
    requires k in c.slots && c.slots[k].code.ZoneId() == zoneId
    ensures NodeOf(c.slots[k].code) in NodesOfAisles(geoms)
  {
    var code := c.slots[k].code;
    CatalogueLaws.ChainOfCustody(c, k);
    var a := c.aisles[code.AisleId()];
    assert IsAisleOf(c, zoneId, a);
    var i :| 0 <= i < |aisles| && aisles[i] == a;
    assert Describes(c, zoneId, a, geoms[i]);
    assert code.bay in BaysOf(c, zoneId, a.code);
    assert code.bay in Elements(geoms[i].bays);
    var j :| 0 <= j < |geoms[i].bays| && geoms[i].bays[j] == code.bay;
  }

  // ---- the zone's map, told from what is stored ----

  /** Two occupied bays, the first below the second, with none between them. */
  ghost predicate NextBays(bays: set<string>, x: string, y: string) {
    x in bays && y in bays && Below(x, y) && forall b :: b in bays ==> !(Below(x, b) && Below(b, y))
  }

  /** One step along a stored aisle, to the next occupied bay, or back if traffic is two-way. Where the
      aisle has a centreline its length is shared out evenly over the gaps; elsewhere a gap is taken to be
      the zone's pitch, 1.2 m unless it is set. */
  ghost predicate AisleStep(c: Catalogue, zoneId: string, a: Aisle, e: Edge)
    requires zoneId in c.zones
  {
    && a.zoneId == zoneId && a.Id() in c.aisles && c.aisles[a.Id()] == a
    && e.from.aisleId == zoneId + "-" + a.code && e.to.aisleId == zoneId + "-" + a.code
    && var bays := BaysOf(c, zoneId, a.code);
    && (NextBays(bays, e.from.bay, e.to.bay) || (a.direction == TwoWay && NextBays(bays, e.to.bay, e.from.bay)))
    && StepMeasures(a, |bays| - 1, c.zones[zoneId].bayPitchM, e)
  }

  ghost predicate StepMeasures(a: Aisle, gaps: int, setPitch: real, e: Edge) {
    if a.centreline.Some? && a.centreline.value.length > 0.0
    then e.metres * gaps as real == a.centreline.value.length && !e.estimated
    else e.metres == (if setPitch > 0.0 then setPitch else 1.2) && e.estimated
  }

  /** One step across a stored, active cross-aisle, at a bay occupied in both aisles. */
  ghost predicate CrossStep(c: Catalogue, zoneId: string, k: CrossAisleKey, e: Edge)
    requires zoneId in c.zones
  {
    && k in c.crossAisles && c.crossAisles[k].zoneId == zoneId && c.crossAisles[k].active
    && var x := c.crossAisles[k];
    && x.atBay in BaysOf(c, zoneId, x.fromAisle) && x.atBay in BaysOf(c, zoneId, x.toAisle)
    && e.from.bay == x.atBay && e.to.bay == x.atBay
    && ((e.from.aisleId == zoneId + "-" + x.fromAisle && e.to.aisleId == zoneId + "-" + x.toAisle)
        || (e.from.aisleId == zoneId + "-" + x.toAisle && e.to.aisleId == zoneId + "-" + x.fromAisle))
    && e.metres == (if c.zones[zoneId].bayPitchM > 0.0 then c.zones[zoneId].bayPitchM else 1.2) && e.estimated
  }

  /** `E` holds exactly the steps of the stored zone. */
  ghost predicate IsZoneMap(c: Catalogue, zoneId: string, E: set<Edge>)
    requires zoneId in c.zones
  {
    forall e :: e in E <==> (exists a :: AisleStep(c, zoneId, a, e)) || (exists k :: CrossStep(c, zoneId, k, e))
  }

  lemma {:induction false} AscendingCounts(keys: seq<string>)
    requires Ascending(keys)
    ensures |Elements(keys)| == |keys|
  {
    if keys == [] {
      assert Elements(keys) == {};
    } else {
      var front, last := keys[..|keys| - 1], keys[|keys| - 1];
      AscendingCounts(front);
      assert keys == front + [last];
      forall k | k in front ensures k != last {
        BelowIrreflexive(last);
      }
      assert Elements(keys) == Elements(front) + {last};
    }
  }

  /** In a list of the bays in order, next bays are neighbours. */
  lemma NextAreNeighbours(keys: seq<string>, x: string, y: string)
    requires Ascending(keys)
    ensures NextBays(Elements(keys), x, y) <==> exists i :: 0 < i < |keys| && keys[i - 1] == x && keys[i] == y
  {
    if i :| 0 < i < |keys| && keys[i - 1] == x && keys[i] == y {
      forall b | b in Elements(keys) ensures !(Below(x, b) && Below(b, y)) {
        var m :| 0 <= m < |keys| && keys[m] == b;
        NotBetween(keys, i, m);
      }
      assert x in keys && y in keys;
    }
    if NextBays(Elements(keys), x, y) {
      var i :| 0 <= i < |keys| && keys[i] == x;
      var j :| 0 <= j < |keys| && keys[j] == y;
      InTheirOrder(keys, i, j);
      SomeBetween(keys, i, j);
      assert keys[j - 1] == x && keys[j] == y;
    }
  }

  lemma SomeBetween(keys: seq<string>, i: nat, j: nat)
    requires Ascending(keys) && i < j < |keys|
    ensures i + 1 < j ==> exists b :: b in Elements(keys) && Below(keys[i], b) && Below(b, keys[j])
  {
    assert i + 1 < j ==> keys[i + 1] in Elements(keys);
  }

  lemma NotBetween(keys: seq<string>, i: nat, m: nat)
    requires Ascending(keys) && 0 < i < |keys| && m < |keys|
    ensures !(Below(keys[i - 1], keys[m]) && Below(keys[m], keys[i]))
  {
    if Below(keys[i - 1], keys[m]) && Below(keys[m], keys[i]) {
      InTheirOrder(keys, i - 1, m);
      InTheirOrder(keys, m, i);
    }
  }

  lemma InTheirOrder(keys: seq<string>, i: nat, j: nat)
    requires Ascending(keys) && i < |keys| && j < |keys| && Below(keys[i], keys[j])
    ensures i < j
  {
    BelowIrreflexive(keys[i]);
    if j < i { BelowTransitive(keys[i], keys[j], keys[i]); }
  }

  lemma StepIsMeasured(c: Catalogue, zoneId: string, a: Aisle, g: AisleGeom, i: nat, e: Edge)
    requires zoneId in c.zones && Describes(c, zoneId, a, g) && 0 < i < |g.bays|
    ensures GapMeasures(g, c.zones[zoneId].BayPitchM(), i, e.metres, e.estimated) <==>
            StepMeasures(a, |BaysOf(c, zoneId, a.code)| - 1, c.zones[zoneId].bayPitchM, e)
  {
    AscendingCounts(g.bays);
  }

  lemma AisleStepIsGap(c: Catalogue, zoneId: string, a: Aisle, g: AisleGeom, e: Edge)
    requires zoneId in c.zones && IsAisleOf(c, zoneId, a) && Describes(c, zoneId, a, g)
    ensures AisleStep(c, zoneId, a, e) <==>
            exists i :: 0 < i < |g.bays| && LeadsAlong(g, c.zones[zoneId].BayPitchM(), i, e)
  {
    GapJoins(c, zoneId, a, g, e);
    forall i: nat | 0 < i < |g.bays|
      ensures GapMeasures(g, c.zones[zoneId].BayPitchM(), i, e.metres, e.estimated) <==>
              StepMeasures(a, |BaysOf(c, zoneId, a.code)| - 1, c.zones[zoneId].bayPitchM, e)
    {
      StepIsMeasured(c, zoneId, a, g, i, e);
    }
    if i :| 0 < i < |g.bays| && LeadsAlong(g, c.zones[zoneId].BayPitchM(), i, e) {
      assert Joins(g, i, e);
    }
    if AisleStep(c, zoneId, a, e) {
      var i :| 0 < i < |g.bays| && Joins(g, i, e);
      assert LeadsAlong(g, c.zones[zoneId].BayPitchM(), i, e);
    }
  }

  /** Where an edge of the described aisle leads, whatever it measures. */
  ghost predicate Joins(g: AisleGeom, i: nat, e: Edge)
    requires 0 < i < |g.bays|
  {
    || (e.from == Node(g.aisleId, g.bays[i - 1]) && e.to == Node(g.aisleId, g.bays[i]))
    || (!g.oneWay && e.from == Node(g.aisleId, g.bays[i]) && e.to == Node(g.aisleId, g.bays[i - 1]))
  }

  lemma GapJoins(c: Catalogue, zoneId: string, a: Aisle, g: AisleGeom, e: Edge)
    requires IsAisleOf(c, zoneId, a) && Describes(c, zoneId, a, g)
    ensures (exists i :: 0 < i < |g.bays| && Joins(g, i, e)) <==>
            var bays := BaysOf(c, zoneId, a.code);
            && e.from.aisleId == zoneId + "-" + a.code && e.to.aisleId == zoneId + "-" + a.code
            && (NextBays(bays, e.from.bay, e.to.bay) || (a.direction == TwoWay && NextBays(bays, e.to.bay, e.from.bay)))
  {
    NextAreNeighbours(g.bays, e.from.bay, e.to.bay);
    NextAreNeighbours(g.bays, e.to.bay, e.from.bay);
    assert e.from == Node(e.from.aisleId, e.from.bay) && e.to == Node(e.to.aisleId, e.to.bay);
    if i :| 0 < i < |g.bays| && g.bays[i - 1] == e.from.bay && g.bays[i] == e.to.bay {
      assert e.from.aisleId == g.aisleId && e.to.aisleId == g.aisleId ==> Joins(g, i, e);
    }
    if i :| 0 < i < |g.bays| && g.bays[i - 1] == e.to.bay && g.bays[i] == e.from.bay {
      assert e.from.aisleId == g.aisleId && e.to.aisleId == g.aisleId && !g.oneWay ==> Joins(g, i, e);
    }
  }

  /** A waypoint of the map is an occupied bay of the zone. */
  lemma WaypointIsOccupied(c: Catalogue, zoneId: string, aisles: seq<Aisle>, geoms: seq<AisleGeom>, aisle: string,
                           bay: string)
    requires Catalogues.Rooted(c) && DescribesZone(c, zoneId, aisles, geoms)
    ensures Node(zoneId + "-" + aisle, bay) in NodesOfAisles(geoms) <==> bay in BaysOf(c, zoneId, aisle)
  {
    var n := Node(zoneId + "-" + aisle, bay);
    if n in NodesOfAisles(geoms) {
      var m, i :| 0 <= m < |geoms| && 0 <= i < |geoms[m].bays| && n == Node(geoms[m].aisleId, geoms[m].bays[i]);
      assert Describes(c, zoneId, aisles[m], geoms[m]) && aisles[m] in aisles;
      SameTail(zoneId + "-", aisles[m].code, aisle);
      assert geoms[m].bays[i] in Elements(geoms[m].bays);
    }
    if bay in BaysOf(c, zoneId, aisle) {
      var k :| k in c.slots && c.slots[k].code.ZoneId() == zoneId && c.slots[k].code.aisle == aisle
        && c.slots[k].code.bay == bay;
      SlotIsOnGraph(c, zoneId, aisles, geoms, k);
      AisleIdOfSlot(c.slots[k].code);
    }
  }

  lemma SameTail(prefix: string, a: string, b: string)
    requires prefix + a == prefix + b
    ensures a == b
  {
    assert (prefix + a)[|prefix|..] == a && (prefix + b)[|prefix|..] == b;
  }

  lemma AisleIdOfSlot(code: LocationCode)
    ensures code.AisleId() == code.ZoneId() + "-" + code.aisle
  {
    JoinAppend([code.site, code.area, code.zone], [code.aisle]);
    assert [code.site, code.area, code.zone] + [code.aisle] == [code.site, code.area, code.zone, code.aisle];
  }

  lemma CrossStepLeadsAcross(c: Catalogue, zoneId: string, aisles: seq<Aisle>, geoms: seq<AisleGeom>, k: CrossAisleKey,
                             e: Edge)
    requires Catalogues.Rooted(c) && zoneId in c.zones && DescribesZone(c, zoneId, aisles, geoms)
    requires k in c.crossAisles && c.crossAisles[k].zoneId == zoneId && c.crossAisles[k].active
    ensures CrossStep(c, zoneId, k, e) <==>
            LeadsAcross(NodesOfAisles(geoms), RefOf(c.crossAisles[k]), c.zones[zoneId].BayPitchM(), e)
  {
    var x := c.crossAisles[k];
    WaypointIsOccupied(c, zoneId, aisles, geoms, x.fromAisle, x.atBay);
    WaypointIsOccupied(c, zoneId, aisles, geoms, x.toAisle, x.atBay);
    AcrossMeans(NodesOfAisles(geoms), RefOf(x), c.zones[zoneId].BayPitchM(), e);
  }

  lemma AcrossMeans(nodes: set<Node>, r: CrossAisleRef, pitch: real, e: Edge)
    ensures LeadsAcross(nodes, r, pitch, e) <==>
            && Node(r.fromAisleId, r.atBay) in nodes && Node(r.toAisleId, r.atBay) in nodes
            && e.metres == pitch && e.estimated && e.from.bay == r.atBay && e.to.bay == r.atBay
            && ((e.from.aisleId == r.fromAisleId && e.to.aisleId == r.toAisleId)
                || (e.from.aisleId == r.toAisleId && e.to.aisleId == r.fromAisleId))
  {
    assert e.from == Node(e.from.aisleId, e.from.bay) && e.to == Node(e.to.aisleId, e.to.bay);
  }

  /** The graph of a zone holds exactly the steps its stored aisles, slots and cross-aisles allow. */
  lemma ZoneMapIsStored(c: Catalogue, zoneId: string, aisles: seq<Aisle>, geoms: seq<AisleGeom>,
                        refs: seq<CrossAisleRef>)
    requires Catalogues.Rooted(c) && zoneId in c.zones
    requires DescribesZone(c, zoneId, aisles, geoms) && DescribesLinks(c, zoneId, refs)
    ensures IsZoneMap(c, zoneId, MapEdges(geoms, refs, c.zones[zoneId].BayPitchM()))
  {
    var pitch := c.zones[zoneId].BayPitchM();
    forall e
      ensures e in MapEdges(geoms, refs, pitch) <==>
              (exists a :: AisleStep(c, zoneId, a, e)) || (exists k :: CrossStep(c, zoneId, k, e))
    {
      EmittedExactly(geoms, refs, pitch, e);
      AisleStepsAre(c, zoneId, aisles, geoms, e);
      CrossStepsAre(c, zoneId, aisles, geoms, refs, e);
    }
  }

  lemma AisleStepsAre(c: Catalogue, zoneId: string, aisles: seq<Aisle>, geoms: seq<AisleGeom>, e: Edge)
    requires zoneId in c.zones && DescribesZone(c, zoneId, aisles, geoms)
    ensures (exists a :: AisleStep(c, zoneId, a, e)) <==>
            exists m, i :: 0 <= m < |geoms| && 0 < i < |geoms[m].bays|
                           && LeadsAlong(geoms[m], c.zones[zoneId].BayPitchM(), i, e)
  {
    forall m | 0 <= m < |geoms|
      ensures AisleStep(c, zoneId, aisles[m], e) <==>
              exists i :: 0 < i < |geoms[m].bays| && LeadsAlong(geoms[m], c.zones[zoneId].BayPitchM(), i, e)
    {
      assert aisles[m] in aisles;
      AisleStepIsGap(c, zoneId, aisles[m], geoms[m], e);
    }
    if a :| AisleStep(c, zoneId, a, e) {
      assert IsAisleOf(c, zoneId, a);
      var m :| 0 <= m < |aisles| && aisles[m] == a;
    }
  }

  lemma CrossStepsAre(c: Catalogue, zoneId: string, aisles: seq<Aisle>, geoms: seq<AisleGeom>, refs: seq<CrossAisleRef>,
                      e: Edge)
    requires Catalogues.Rooted(c) && zoneId in c.zones
    requires DescribesZone(c, zoneId, aisles, geoms) && DescribesLinks(c, zoneId, refs)
    ensures (exists k :: CrossStep(c, zoneId, k, e)) <==>
            exists r :: r in refs && LeadsAcross(NodesOfAisles(geoms), r, c.zones[zoneId].BayPitchM(), e)
  {
    if k :| CrossStep(c, zoneId, k, e) {
      LinkIsListed(c, zoneId, refs, k);
      CrossStepLeadsAcross(c, zoneId, aisles, geoms, k, e);
    }
    if r :| r in refs && LeadsAcross(NodesOfAisles(geoms), r, c.zones[zoneId].BayPitchM(), e) {
      var k := LinkIsStored(c, zoneId, refs, r);
      CrossStepLeadsAcross(c, zoneId, aisles, geoms, k, e);
    }
  }

  lemma LinkIsListed(c: Catalogue, zoneId: string, refs: seq<CrossAisleRef>, k: CrossAisleKey)
    requires DescribesLinks(c, zoneId, refs)
    requires k in c.crossAisles && c.crossAisles[k].zoneId == zoneId && c.crossAisles[k].active
    ensures RefOf(c.crossAisles[k]) in refs
  {
  }

  lemma LinkIsStored(c: Catalogue, zoneId: string, refs: seq<CrossAisleRef>, r: CrossAisleRef)
      returns (k: CrossAisleKey)
    requires DescribesLinks(c, zoneId, refs) && r in refs
    ensures k in c.crossAisles && c.crossAisles[k].zoneId == zoneId && c.crossAisles[k].active
    ensures RefOf(c.crossAisles[k]) == r
  {
    k :| k in c.crossAisles && c.crossAisles[k].zoneId == zoneId && c.crossAisles[k].active
      && RefOf(c.crossAisles[k]) == r;
  }

  // ---- asking for a distance ----

  datatype Estimate = Estimated(route: Route) | Unreachable | OffGraph | Declined(error: Error)

  /** The distance between two slots. In a rooted catalogue two stored slots of one zone always get a
      shortest route or the answer that there is none; no other failure can happen. */
  method EstimateTravelDistance(c: Catalogue, from: Address, to: Address)
    returns (r: Estimate, ghost aisles: seq<Aisle>, ghost geoms: seq<AisleGeom>, ghost refs: seq<CrossAisleRef>)
    requires Catalogues.Rooted(c)
    ensures from.String() !in c.slots || to.String() !in c.slots ==> r == Declined(LocationSlotNotFound)
    ensures from.String() in c.slots && to.String() in c.slots && from.ZoneId() != to.ZoneId()
            ==> r == Declined(NoRouteBetweenZones)
    ensures from.String() in c.slots && to.String() in c.slots && from.ZoneId() == to.ZoneId() ==>
              && from.ZoneId() in c.zones
              && DescribesZone(c, from.ZoneId(), aisles, geoms) && DescribesLinks(c, from.ZoneId(), refs)
              && var E := MapEdges(geoms, refs, c.zones[from.ZoneId()].BayPitchM());
              && IsZoneMap(c, from.ZoneId(), E)
              && var start := Node(from.ZoneId() + "-" + from.aisle, from.bay);
              && var end := Node(to.ZoneId() + "-" + to.aisle, to.bay);
              && (r.Unreachable? <==> !Reachable(E, start, end))
              && (r.Estimated? <==> Reachable(E, start, end))
              && (r.Estimated? ==> IsRoute(E, start, end, r.route))
  {
    aisles, geoms, refs := [], [], [];
    if from.String() !in c.slots {
      return Declined(LocationSlotNotFound), aisles, geoms, refs;
    }
    if to.String() !in c.slots {
      return Declined(LocationSlotNotFound), aisles, geoms, refs;
    }
    if from.ZoneId() != to.ZoneId() {
      return Declined(NoRouteBetweenZones), aisles, geoms, refs;
    }
    StoredCodeIsSlots(c, from);
    StoredCodeIsSlots(c, to);
    CatalogueLaws.ChainOfCustody(c, from.String());
    var graph;
    graph, aisles, geoms, refs := BuildZoneGraph(c, from.ZoneId());
    // The chain of custody found the zone, so the graph is always there.
    assert graph.Ok?;
    SlotIsOnGraph(c, from.ZoneId(), aisles, geoms, from.String());
    SlotIsOnGraph(c, from.ZoneId(), aisles, geoms, to.String());
    MapIsPositive(geoms, refs, c.zones[from.ZoneId()].BayPitchM());
    ZoneMapIsStored(c, from.ZoneId(), aisles, geoms, refs);
    var result := graph.value.Distance(NodeOf(from), NodeOf(to));
    match result {
      case Found(route) => r := Estimated(route);
      case NoRoute => r := Unreachable;
      case UnknownNode => r := OffGraph;
    }
  }

  lemma StoredCodeIsSlots(c: Catalogue, code: Address)
    requires Catalogues.Rooted(c) && code.String() in c.slots
    ensures c.slots[code.String()].code == code
  {
    var k := code.String();
    assert Catalogues.SlotInPlace(k, c.slots[k], c.sites.Keys, c.zones.Keys, c.aisles.Keys, c.types.Keys);
    PrintedCodesAreDistinct(code, c.slots[k].code);
  }
}
