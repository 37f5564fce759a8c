/** The drawing of a zone that a planner reads: one line per level, one stack per bay met while walking the
    aisles, and proof that each stored slot has exactly one place in it. */
module ZoneGrid {
  import opened Strings
  import opened Sorting
  import opened LocationCodes
  import opened Layout
  import opened ZoneReads
  import opened ZoneGraph
  import Catalogues
  import CatalogueLaws

  datatype Column = Column(aisleId: string, aisleCode: string, bay: string, sequenceHint: int)

  datatype Row = Row(level: string, cells: seq<seq<Slot>>)

  datatype Grid = Grid(zone: Zone, columns: seq<Column>, levels: seq<string>, rows: seq<Row>)

  datatype Coordinate = Coordinate(aisle: string, bay: string, level: string)

  function Spot(s: Slot): Coordinate {
    Coordinate(s.code.aisle, s.code.bay, s.code.level)
  }

  // ---- what a grid of a zone is ----

  ghost function LevelsOf(c: Catalogue, zoneId: string): set<string> {
    set k | k in c.slots && c.slots[k].code.ZoneId() == zoneId :: c.slots[k].code.level
  }

  ghost predicate StandsAt(code: LocationCode, spot: Coordinate) {
    code.aisle == spot.aisle && code.bay == spot.bay && code.level == spot.level
  }

  ghost function SlotsAt(c: Catalogue, zoneId: string, spot: Coordinate): set<Slot> {
    set k | k in c.slots && c.slots[k].code.ZoneId() == zoneId && StandsAt(c.slots[k].code, spot) :: c.slots[k]
  }

  predicate ColumnBefore(x: Column, y: Column) {
    if x.sequenceHint != y.sequenceHint then x.sequenceHint < y.sequenceHint
    else if x.aisleCode != y.aisleCode then Below(x.aisleCode, y.aisleCode)
    else Below(x.bay, y.bay)
  }

  /** The column of one bay of one aisle. */
  function ColumnOf(a: Aisle, bay: string): Column {
    Column(a.Id(), a.code, bay, a.sequenceHint)
  }

  ghost predicate IsColumnOf(c: Catalogue, zoneId: string, x: Column) {
    exists a :: IsAisleOf(c, zoneId, a) && x.bay in BaysOf(c, zoneId, a.code)
                && x.aisleId == zoneId + "-" + a.code && x.aisleCode == a.code && x.sequenceHint == a.sequenceHint
  }

  /** Aisles by sequence hint and then by code, and the bays of an aisle in order. */
  ghost predicate InWalkOrder(x: Column, y: Column) {
    || x.sequenceHint < y.sequenceHint
    || (x.sequenceHint == y.sequenceHint && x.aisleCode != y.aisleCode && Below(x.aisleCode, y.aisleCode))
    || (x.sequenceHint == y.sequenceHint && x.aisleCode == y.aisleCode && Below(x.bay, y.bay))
  }

  ghost predicate DrawsColumns(c: Catalogue, zoneId: string, columns: seq<Column>) {
    && (forall i, j :: 0 <= i < j < |columns| ==> InWalkOrder(columns[i], columns[j]))
    && (forall x :: x in columns <==> IsColumnOf(c, zoneId, x))
  }

  /** Bay, then level, then position. */
  predicate SlotBefore(s: Slot, t: Slot) {
    if s.code.bay != t.code.bay then Below(s.code.bay, t.code.bay)
    else if s.code.level != t.code.level then Below(s.code.level, t.code.level)
    else Below(s.code.position, t.code.position)
  }

  /** A cell holds exactly the slots at its coordinate, each once, by position. */
  ghost predicate DrawsCell(c: Catalogue, zoneId: string, spot: Coordinate, cell: seq<Slot>) {
    && (forall s :: s in cell <==> s in SlotsAt(c, zoneId, spot))
    && (forall i, j :: 0 <= i < j < |cell| ==> Below(cell[i].code.position, cell[j].code.position))
  }

  ghost predicate DrawsRow(c: Catalogue, zoneId: string, columns: seq<Column>, level: string, row: Row) {
    && row.level == level
    && |row.cells| == |columns|
    && forall k :: 0 <= k < |columns| ==> DrawsCell(c, zoneId, Coordinate(columns[k].aisleCode, columns[k].bay, level),
       row.cells[k])
  }

  ghost predicate Draws(c: Catalogue, zoneId: string, g: Grid) {
    && zoneId in c.zones && g.zone == c.zones[zoneId]
    && Ascending(g.levels) && Elements(g.levels) == LevelsOf(c, zoneId)
    && DrawsColumns(c, zoneId, g.columns)
    && |g.rows| == |g.levels|
    && forall r :: 0 <= r < |g.rows| ==> DrawsRow(c, zoneId, g.columns, g.levels[r], g.rows[r])
  }

  // ---- every slot is drawn exactly once ----

  /** The slot's aisle and bay head a column. */
  lemma ColumnIsDrawn(c: Catalogue, zoneId: string, columns: seq<Column>, key: string) returns (k: nat)
    requires Catalogues.Rooted(c) && DrawsColumns(c, zoneId, columns)
    requires key in c.slots && c.slots[key].code.ZoneId() == zoneId
    ensures k < |columns| && columns[k].aisleId == c.slots[key].code.AisleId()
    ensures columns[k].aisleCode == c.slots[key].code.aisle && columns[k].bay == c.slots[key].code.bay
  {
    var s := c.slots[key];
    CatalogueLaws.ChainOfCustody(c, key);
    var a := c.aisles[s.code.AisleId()];
    assert IsAisleOf(c, zoneId, a);
    assert s.code.bay in BaysOf(c, zoneId, a.code);
    var x := ColumnOf(a, s.code.bay);
    assert IsColumnOf(c, zoneId, x);
    k :| 0 <= k < |columns| && columns[k] == x;
  }

  /** The slot's level heads a row. */
  lemma LevelIsDrawn(c: Catalogue, zoneId: string, levels: seq<string>, key: string) returns (r: nat)
    requires Elements(levels) == LevelsOf(c, zoneId)
    requires key in c.slots && c.slots[key].code.ZoneId() == zoneId
    ensures r < |levels| && levels[r] == c.slots[key].code.level
  {
    assert c.slots[key].code.level in LevelsOf(c, zoneId);
    assert c.slots[key].code.level in Elements(levels);
    r :| 0 <= r < |levels| && levels[r] == c.slots[key].code.level;
  }

  /** The slot of the zone stands in the cell at its own aisle, bay and level. */
  lemma SlotIsDrawn(c: Catalogue, zoneId: string, g: Grid, key: string) returns (r: nat, k: nat)
    requires Catalogues.Rooted(c) && Draws(c, zoneId, g)
    requires key in c.slots && c.slots[key].code.ZoneId() == zoneId
    ensures r < |g.rows| && k < |g.columns| && k < |g.rows[r].cells|
    ensures g.columns[k].aisleId == c.slots[key].code.AisleId() && g.columns[k].bay == c.slots[key].code.bay
    ensures g.rows[r].level == c.slots[key].code.level
    ensures c.slots[key] in g.rows[r].cells[k]
  {
    k := ColumnIsDrawn(c, zoneId, g.columns, key);
    r := LevelIsDrawn(c, zoneId, g.levels, key);
    assert DrawsRow(c, zoneId, g.columns, g.levels[r], g.rows[r]);
    assert c.slots[key] in SlotsAt(c, zoneId, Coordinate(g.columns[k].aisleCode, g.columns[k].bay, g.levels[r]));
  }

  /** No slot is drawn twice, in two cells or within one. */
  lemma DrawnOnlyOnce(c: Catalogue, zoneId: string, g: Grid, r: nat, k: nat, i: nat, r': nat, k': nat, i': nat)
    requires Catalogues.Rooted(c) && Draws(c, zoneId, g)
    requires r < |g.rows| && k < |g.rows[r].cells| && i < |g.rows[r].cells[k]|
    requires r' < |g.rows| && k' < |g.rows[r'].cells| && i' < |g.rows[r'].cells[k']|
    requires g.rows[r].cells[k][i] == g.rows[r'].cells[k'][i']
    ensures r == r' && k == k' && i == i'
  {
    var s := g.rows[r].cells[k][i];
    assert DrawsRow(c, zoneId, g.columns, g.levels[r], g.rows[r]);
    assert DrawsRow(c, zoneId, g.columns, g.levels[r'], g.rows[r']);
    assert s in g.rows[r].cells[k] && s in g.rows[r'].cells[k'];
    assert s in SlotsAt(c, zoneId, Coordinate(g.columns[k].aisleCode, g.columns[k].bay, g.levels[r]));
    assert s in SlotsAt(c, zoneId, Coordinate(g.columns[k'].aisleCode, g.columns[k'].bay, g.levels[r']));
    BelowIrreflexive(g.levels[r]);
    SameColumn(c, zoneId, g.columns, k, k');
    if r == r' && k == k' && i != i' {
      SlotBeforeIrreflexive(s);
    }
  }

  lemma SlotBeforeIrreflexive(s: Slot)
    ensures !SlotBefore(s, s)
  {
    BelowIrreflexive(s.code.position);
  }

  /** Columns of the same aisle and bay are the same column. */
  lemma SameColumn(c: Catalogue, zoneId: string, columns: seq<Column>, k: nat, k': nat)
    requires Catalogues.Rooted(c) && DrawsColumns(c, zoneId, columns) && k < |columns| && k' < |columns|
    requires columns[k].aisleCode == columns[k'].aisleCode && columns[k].bay == columns[k'].bay
    ensures k == k'
  {
    assert columns[k] in columns && columns[k'] in columns;
    assert IsColumnOf(c, zoneId, columns[k]) && IsColumnOf(c, zoneId, columns[k']);
    BelowIrreflexive(columns[k].bay);
  }

  // ---- drawing it ----

  /** The slots of a list at one coordinate, in list order. */
  ghost function Standing(slots: seq<Slot>, spot: Coordinate): seq<Slot> {
    if slots == [] then []
    else
      Standing(slots[..|slots| - 1], spot) + if Spot(slots[|slots| - 1]) == spot then [slots[|slots| - 1]] else []
  }

  function CellAt(index: map<Coordinate, seq<Slot>>, spot: Coordinate): seq<Slot> {
    if spot in index then index[spot] else []
  }

  method IndexByCoordinate(slots: seq<Slot>) returns (index: map<Coordinate, seq<Slot>>)
    ensures forall spot :: CellAt(index, spot) == Standing(slots, spot)
  {
    index := map[];
    for i := 0 to |slots|
      invariant forall spot :: CellAt(index, spot) == Standing(slots[..i], spot)
    {
      assert slots[..i + 1][..i] == slots[..i];
      var spot := Spot(slots[i]);
      index := index[spot := CellAt(index, spot) + [slots[i]]];
    }
    assert slots[..|slots|] == slots;
  }

  lemma {:induction false} StandingExactly(slots: seq<Slot>, spot: Coordinate)
    requires forall i, j :: 0 <= i < j < |slots| ==> slots[i] != slots[j]
    ensures forall s :: s in Standing(slots, spot) <==> s in slots && Spot(s) == spot
    ensures forall i, j :: 0 <= i < j < |Standing(slots, spot)| ==> Standing(slots, spot)[i] != Standing(slots, spot)[j]
  {
    if slots != [] {
      var n := |slots| - 1;
      StandingExactly(slots[..n], spot);
      assert slots == slots[..n] + [slots[n]];
      assert slots[n] !in slots[..n];
    }
  }

  lemma CellOrderIsStrict(c: Catalogue, zoneId: string, spot: Coordinate)
    requires Catalogues.Rooted(c)
    ensures Orders(SlotBefore, SlotsAt(c, zoneId, spot))
  {
    var S := SlotsAt(c, zoneId, spot);
    forall s | s in S ensures !SlotBefore(s, s) {
      SlotBeforeIrreflexive(s);
    }
    forall s, t | s in S && t in S ensures SlotBefore(s, t) || s == t || SlotBefore(t, s) {
      BelowTotal(s.code.position, t.code.position);
      SamePlaceSameSlot(c, zoneId, s, t, spot);
    }
    forall s, t, u | s in S && t in S && u in S && SlotBefore(s, t) && SlotBefore(t, u) ensures SlotBefore(s, u) {
      BelowTransitive(s.code.position, t.code.position, u.code.position);
    }
  }

  lemma SamePlaceSameSlot(c: Catalogue, zoneId: string, s: Slot, t: Slot, spot: Coordinate)
    requires Catalogues.Rooted(c) && s in SlotsAt(c, zoneId, spot) && t in SlotsAt(c, zoneId, spot)
    ensures s.code.position == t.code.position ==> s == t
  {
    var k :| k in c.slots && c.slots[k] == s;
    var m :| m in c.slots && c.slots[m] == t;
    CatalogueLaws.ChainOfCustody(c, k);
    CatalogueLaws.ChainOfCustody(c, m);
    if s.code.position == t.code.position {
      assert s.code == t.code;
      assert Catalogues.SlotInPlace(k, s, c.sites.Keys, c.zones.Keys, c.aisles.Keys, c.types.Keys);
      assert Catalogues.SlotInPlace(m, t, c.sites.Keys, c.zones.Keys, c.aisles.Keys, c.types.Keys);
    }
  }

  lemma DistinctSlots(c: Catalogue, zoneId: string, slots: seq<Slot>)
    requires ListsSlots(c, zoneId, slots)
    ensures forall i, j :: 0 <= i < j < |slots| ==> slots[i] != slots[j]
  {
    forall i, j | 0 <= i < j < |slots| ensures slots[i] != slots[j] {
      assert slots[i].code.String() != slots[j].code.String();
    }
  }

  /** The slots found at a coordinate are all of them, each once, and their order is strict. */
  ghost predicate CellReady(c: Catalogue, zoneId: string, spot: Coordinate, found: seq<Slot>) {
    && (forall s :: s in found <==> s in SlotsAt(c, zoneId, spot))
    && (forall i, j :: 0 <= i < j < |found| ==> found[i] != found[j])
    && Orders(SlotBefore, SlotsAt(c, zoneId, spot))
  }

  lemma StandingIsReady(c: Catalogue, zoneId: string, spot: Coordinate, slots: seq<Slot>)
    requires Catalogues.Rooted(c) && ListsSlots(c, zoneId, slots)
    ensures CellReady(c, zoneId, spot, Standing(slots, spot))
  {
    DistinctSlots(c, zoneId, slots);
    StandingExactly(slots, spot);
    FoundIsSlotsAt(c, zoneId, spot, slots, Standing(slots, spot));
    CellOrderIsStrict(c, zoneId, spot);
  }

  method DrawCell(c: Catalogue, zoneId: string, spot: Coordinate, found: seq<Slot>) returns (cell: seq<Slot>)
    requires CellReady(c, zoneId, spot, found)
    ensures DrawsCell(c, zoneId, spot, cell)
  {
    assert forall k :: 0 <= k < |found| ==> found[k] in found;
    cell := SortBy(SlotBefore, SlotsAt(c, zoneId, spot), found);
    DistinctSurvives(found, cell);
    assert forall s :: s in cell <==> s in multiset(cell);
    assert forall s :: s in found <==> s in multiset(found);
  }

  lemma FoundIsSlotsAt(c: Catalogue, zoneId: string, spot: Coordinate, slots: seq<Slot>, found: seq<Slot>)
    requires Catalogues.Rooted(c) && ListsSlots(c, zoneId, slots)
    requires forall s :: s in found <==> s in slots && Spot(s) == spot
    ensures forall s :: s in found <==> s in SlotsAt(c, zoneId, spot)
  {
    forall k | k in c.slots && c.slots[k].code.ZoneId() == zoneId ensures c.slots[k] in slots {
      assert Catalogues.SlotInPlace(k, c.slots[k], c.sites.Keys, c.zones.Keys, c.aisles.Keys, c.types.Keys);
    }
  }

  /** The columns drawn for the first `k` aisles. */
  ghost predicate DrawsFirst(c: Catalogue, zoneId: string, aisles: seq<Aisle>, k: nat, columns: seq<Column>)
    requires k <= |aisles|
  {
    && (forall x :: x in columns <==> exists i :: 0 <= i < k && ColumnIsOf(c, zoneId, aisles[i], x))
    && (forall i, j :: 0 <= i < j < |columns| ==> ColumnBefore(columns[i], columns[j]))
  }

  lemma DrawsOneMore(c: Catalogue, zoneId: string, aisles: seq<Aisle>, k: nat, columns: seq<Column>, more: seq<Column>)
    requires k < |aisles| && DrawsFirst(c, zoneId, aisles, k, columns)
    requires forall i :: 0 <= i < k ==> WalksBefore(aisles[i], aisles[k])
    requires forall x :: x in more <==> ColumnIsOf(c, zoneId, aisles[k], x)
    requires forall i, j :: 0 <= i < j < |more| ==> ColumnBefore(more[i], more[j])
    ensures DrawsFirst(c, zoneId, aisles, k + 1, columns + more)
  {
    forall i, j | 0 <= i < |columns| && 0 <= j < |more| ensures ColumnBefore(columns[i], more[j]) {
      assert columns[i] in columns && more[j] in more;
      var m :| 0 <= m < k && ColumnIsOf(c, zoneId, aisles[m], columns[i]);
      assert WalksBefore(aisles[m], aisles[k]);
      BelowIrreflexive(aisles[k].code);
    }
  }

  lemma AllAislesDrawn(c: Catalogue, zoneId: string, aisles: seq<Aisle>, columns: seq<Column>)
    requires ListsAisles(c, zoneId, aisles) && DrawsFirst(c, zoneId, aisles, |aisles|, columns)
    ensures DrawsColumns(c, zoneId, columns)
  {
    forall x ensures x in columns <==> IsColumnOf(c, zoneId, x) {
      if x in columns {
        var i :| 0 <= i < |aisles| && ColumnIsOf(c, zoneId, aisles[i], x);
        assert aisles[i] in aisles;
      }
      if IsColumnOf(c, zoneId, x) {
        var a :| IsAisleOf(c, zoneId, a) && x.bay in BaysOf(c, zoneId, a.code) && x == ColumnOf(a, x.bay);
        var i :| 0 <= i < |aisles| && aisles[i] == a;
        assert ColumnIsOf(c, zoneId, aisles[i], x);
      }
    }
  }

  /** The columns of the zone: each aisle in walk order, and along it each occupied bay in order. */
  method DrawColumns(c: Catalogue, zoneId: string, aisles: seq<Aisle>, bays: map<string, set<string>>)
      returns (columns: seq<Column>)
    requires ListsAisles(c, zoneId, aisles)
    requires forall a :: Lookup(bays, a) == BaysOf(c, zoneId, a)
    ensures DrawsColumns(c, zoneId, columns)
  {
    columns := [];
    for k := 0 to |aisles|
      invariant DrawsFirst(c, zoneId, aisles, k, columns)
    {
      var a := aisles[k];
      var sorted := SortedKeys(Lookup(bays, a.code));
      var more := AisleColumns(a, sorted);
      forall x ensures x in more <==> ColumnIsOf(c, zoneId, a, x) {
        assert x.bay in sorted <==> x.bay in Elements(sorted);
      }
      DrawsOneMore(c, zoneId, aisles, k, columns, more);
      columns := columns + more;
    }
    AllAislesDrawn(c, zoneId, aisles, columns);
  }

  ghost predicate ColumnIsOf(c: Catalogue, zoneId: string, a: Aisle, x: Column) {
    x.bay in BaysOf(c, zoneId, a.code) && x == ColumnOf(a, x.bay)
  }

  method AisleColumns(a: Aisle, bays: seq<string>) returns (columns: seq<Column>)
    requires Ascending(bays)
    ensures |columns| == |bays| && forall i :: 0 <= i < |bays| ==> columns[i] == ColumnOf(a, bays[i])
    ensures forall i, j :: 0 <= i < j < |columns| ==> ColumnBefore(columns[i], columns[j])
    ensures forall x :: x in columns <==> x.bay in bays && x == ColumnOf(a, x.bay)
  {
    columns := [];
    for i := 0 to |bays|
      invariant |columns| == i && forall j :: 0 <= j < i ==> columns[j] == ColumnOf(a, bays[j])
    {
      columns := columns + [ColumnOf(a, bays[i])];
    }
  }

  method DrawRow(c: Catalogue, zoneId: string, columns: seq<Column>, level: string, index: map<Coordinate, seq<Slot>>)
    returns (row: Row)
    requires forall spot :: CellReady(c, zoneId, spot, CellAt(index, spot))
    ensures DrawsRow(c, zoneId, columns, level, row)
  {
    var cells := [];
    for k := 0 to |columns|
      invariant |cells| == k
      invariant forall i :: 0 <= i < k ==> DrawsCell(c, zoneId,
                Coordinate(columns[i].aisleCode, columns[i].bay, level), cells[i])
    {
      var spot := Coordinate(columns[k].aisleCode, columns[k].bay, level);
      var cell := DrawCell(c, zoneId, spot, CellAt(index, spot));
      cells := cells + [cell];
    }
    row := Row(level, cells);
  }

  lemma LevelsAreListed(c: Catalogue, zoneId: string, slots: seq<Slot>, levels: set<string>)
    requires Catalogues.Rooted(c) && ListsSlots(c, zoneId, slots)
    requires levels == set j | 0 <= j < |slots| :: slots[j].code.level
    ensures levels == LevelsOf(c, zoneId)
  {
    forall k | k in c.slots && c.slots[k].code.ZoneId() == zoneId ensures c.slots[k].code.level in levels {
      assert Catalogues.SlotInPlace(k, c.slots[k], c.sites.Keys, c.zones.Keys, c.aisles.Keys, c.types.Keys);
      var j :| 0 <= j < |slots| && slots[j] == c.slots[k];
    }
    forall l | l in levels ensures l in LevelsOf(c, zoneId) {
      var j :| 0 <= j < |slots| && l == slots[j].code.level;
      assert slots[j] in slots;
    }
  }

  method LevelSet(c: Catalogue, zoneId: string, slots: seq<Slot>) returns (levels: set<string>)
    requires Catalogues.Rooted(c) && ListsSlots(c, zoneId, slots)
    ensures levels == LevelsOf(c, zoneId)
  {
    levels := {};
    for i := 0 to |slots|
      invariant levels == set j | 0 <= j < i :: slots[j].code.level
    {
      levels := levels + {slots[i].code.level};
    }
    LevelsAreListed(c, zoneId, slots, levels);
  }

  /** The grid of a stored zone, or that there is no such zone. */
  method GetZoneGrid(c: Catalogue, zoneId: string) returns (r: Result<Grid>)
    requires Catalogues.Rooted(c)
    ensures zoneId !in c.zones ==> r == Err(ZoneNotFound)
    ensures zoneId in c.zones ==> r.Ok? && Draws(c, zoneId, r.value)
  {
    if zoneId !in c.zones {
      return Err(ZoneNotFound);
    }
    var aisles := AislesOfZone(c, zoneId);
    var slots := SlotsOfZone(c, zoneId);
    var index := IndexByCoordinate(slots);
    forall spot ensures CellReady(c, zoneId, spot, CellAt(index, spot)) {
      StandingIsReady(c, zoneId, spot, slots);
    }
    var bays := BaysByAisle(slots);
    forall a ensures Lookup(bays, a) == BaysOf(c, zoneId, a) {
      BaysAreBaysOf(c, zoneId, slots, a);
    }
    var levelSet := LevelSet(c, zoneId, slots);
    var levels := SortedKeys(levelSet);
    var columns := DrawColumns(c, zoneId, aisles, bays);
    var rows := [];
    for k := 0 to |levels|
      invariant |rows| == k
      invariant forall i :: 0 <= i < k ==> DrawsRow(c, zoneId, columns, levels[i], rows[i])
    {
      var row := DrawRow(c, zoneId, columns, levels[k], index);
      rows := rows + [row];
    }
    r := Ok(Grid(c.zones[zoneId], columns, levels, rows));
  }
}
