/** What becomes of one row of an import, told from the stored catalogue and the row alone. */
module ImportLaws {
  import opened LocationCodes
  import opened Placement
  import opened Layout
  import opened Catalogues
  import opened CatalogueLaws
  import Strings

  // ---- what a row needs ----

  /** The row's site is active, or can be created: a valid code always can. */
  predicate SiteUsable(c: Catalogue, code: Address) {
    code.site in c.sites ==> c.sites[code.site].status == Active
  }

  /** The row's zone is active, or its columns describe one. */
  predicate ZoneUsable(c: Catalogue, code: Address, row: ImportRow) {
    if code.ZoneId() in c.zones then c.zones[code.ZoneId()].status == Active else row.temperature.Known?
  }

  /** The row's aisle is active, or its columns describe one. */
  predicate AisleUsable(c: Catalogue, code: Address, row: ImportRow) {
    if code.AisleId() in c.aisles then c.aisles[code.AisleId()].status == Active
    else row.sequenceHint >= 0 && !row.direction.Unrecognised?
  }

  /** The zone the slot will stand in, as the placement rules see it. */
  function AttributesFor(c: Catalogue, code: Address, row: ImportRow): ZoneAttributes
    requires ZoneUsable(c, code, row)
  {
    if code.ZoneId() in c.zones then c.zones[code.ZoneId()].Attributes()
    else ZoneAttributes(code.ZoneId(), code.zone, row.temperature.value, row.hazmat)
  }

  /** No capacity given, or both its numbers positive. */
  predicate CapacityGiven(row: ImportRow) {
    (row.maxWeightKg == 0.0 && row.maxVolumeM3 == 0.0) || (row.maxWeightKg > 0.0 && row.maxVolumeM3 > 0.0)
  }

  /** Given its parents, the row's slot can be registered: its code is new, its kind is known with
      attributes and a capacity that fit, and no rule forbids that kind in that zone. */
  ghost predicate SlotUsable(c: Catalogue, code: Address, row: ImportRow, z: ZoneAttributes) {
    && code.String() !in c.slots
    && CapacityGiven(row)
    && row.locationType in c.types
    && FitsRole(c.types[row.locationType].role, row.dockFlow, row.activities)
    && (c.types[row.locationType].role in {Storage, Staging, Drop, Consolidation} ==>
          row.maxWeightKg != 0.0 || c.types[row.locationType].defaultCapacity != Capacity(0.0, 0.0))
    && Legal(c.rules.Values, row.locationType, z)
  }

  /** Given, and positive: a blank extent counts as 0. */
  predicate IsPositive(extent: Option<real>) {
    extent.Some? && extent.value > 0.0
  }

  /** The row gives a position, and its numbers do not make one: below ground, an extent that is not
      positive, or a negative pick sequence. */
  predicate BadGeometry(row: ImportRow) {
    && row.xM.Some?
    && (|| (row.zM.Some? && row.zM.value < 0.0)
        || !IsPositive(row.widthM) || !IsPositive(row.depthM) || !IsPositive(row.heightM)
        || (row.pickSequence.Some? && row.pickSequence.value < 0))
  }

  /** Everything up to the slot is in order. */
  ghost predicate SlotWillBeStored(c: Catalogue, code: Address, row: ImportRow) {
    && SiteUsable(c, code) && ZoneUsable(c, code, row) && AisleUsable(c, code, row)
    && SlotUsable(c, code, row, AttributesFor(c, code, row))
  }

  /** The first thing that is wrong with the row comes before anything it would create: every part
      ahead of it is stored already. */
  ghost predicate RefusedBeforeCreating(c: Catalogue, code: Address, row: ImportRow) {
    || !SiteUsable(c, code)
    || (code.site in c.sites && RefusedInSite(c, code, row))
  }

  ghost predicate RefusedInSite(c: Catalogue, code: Address, row: ImportRow) {
    || !ZoneUsable(c, code, row)
    || (code.ZoneId() in c.zones && RefusedInZone(c, code, row, AttributesFor(c, code, row)))
  }

  ghost predicate RefusedInZone(c: Catalogue, code: Address, row: ImportRow, z: ZoneAttributes) {
    || !AisleUsable(c, code, row)
    || (code.AisleId() in c.aisles && !SlotUsable(c, code, row, z))
  }

  // ---- what a row makes ----

  /** The row's site, if it was missing, named after its code unless the row names it. */
  function SiteMade(c: Catalogue, code: Address, row: ImportRow): Catalogue {
    if code.site in c.sites then c
    else c.(sites := c.sites[code.site :=
              Site(code.site, if row.siteName == "" then code.site else row.siteName, Active)],
            events := c.events + [SiteRegistered(code.site)])
  }

  /** The row's zone, if it was missing, as its columns describe it. */
  function ZoneMade(c: Catalogue, code: Address, row: ImportRow): Catalogue
    requires ZoneUsable(c, code, row)
  {
    if code.ZoneId() in c.zones then c
    else c.(zones := c.zones[code.ZoneId() :=
              Zone(code.site, code.area, code.zone, row.temperature.value, row.hazmat, Active, 0.0)],
            events := c.events + [ZoneRegistered(code.ZoneId(), code.site)])
  }

  /** The row's aisle, if it was missing, with traffic both ways unless its column says otherwise. */
  function AisleMade(c: Catalogue, code: Address, row: ImportRow): Catalogue
    requires AisleUsable(c, code, row)
  {
    if code.AisleId() in c.aisles then c
    else c.(aisles := c.aisles[code.AisleId() :=
              Aisle(code.ZoneId(), code.aisle, row.sequenceHint,
                    if row.direction.Known? then row.direction.value else TwoWay, Active, None)],
            events := c.events + [AisleRegistered(code.AisleId(), code.ZoneId())])
  }

  /** The row's slot, with the capacity its columns give, as a registration would store it. */
  ghost predicate SlotMade(c: Catalogue, c': Catalogue, code: Address, row: ImportRow) {
    && row.locationType in c.types && code.String() in c'.slots
    && c' == c.(slots := c.slots[code.String() := c'.slots[code.String()]],
                events := c.events + [LocationSlotRegistered(code.String())])
    && IsNewSlot(c'.slots[code.String()], code, c.types[row.locationType], Capacity(row.maxWeightKg, row.maxVolumeM3),
                 row.dockFlow, row.activities)
  }

  function OrZero(x: Option<real>): real {
    if x == None then 0.0 else x.value
  }

  /** The row's slot placed where its columns say, a blank one counting as 0; a row that gives no position
      places nothing. */
  function SlotPlaced(c: Catalogue, code: Address, row: ImportRow): Catalogue
    requires code.String() in c.slots
  {
    if row.xM == None then c
    else
      var s := c.slots[code.String()];
      c.(slots := c.slots[code.String() := s.(
           position := Some(Point(row.xM.value, OrZero(row.yM), OrZero(row.zM))),
           dimensions := Some(Dimensions(OrZero(row.widthM), OrZero(row.depthM), OrZero(row.heightM))),
           pickSequence := if row.pickSequence == None then s.pickSequence else row.pickSequence)],
         events := c.events + [LocationGeometryUpdated(code.String())])
  }

  // ---- stage by stage ----

  lemma SiteStage(c: Catalogue, code: Address, row: ImportRow)
    ensures EnsureSite(c, code, row).Ok? <==> SiteUsable(c, code)
    ensures SiteUsable(c, code) ==>
              var d := EnsureSite(c, code, row).value;
              && d == SiteMade(c, code, row)
              && d == c.(sites := d.sites, events := d.events)
              && code.site in d.sites && d.sites[code.site].status == Active
              && (code.site in c.sites ==> d == c)
  {
    assert code.site == code.Segments()[0];
    assert ValidSegment(code.Segments()[0]);
  }

  lemma ZoneStage(c: Catalogue, code: Address, row: ImportRow)
    ensures EnsureZone(c, code, row).Ok? <==> ZoneUsable(c, code, row)
    ensures ZoneUsable(c, code, row) ==>
              var d := EnsureZone(c, code, row).value;
              && d == ZoneMade(c, code, row)
              && d == c.(zones := d.zones, events := d.events)
              && code.ZoneId() in d.zones && d.zones[code.ZoneId()].status == Active
              && d.zones[code.ZoneId()].Attributes() == AttributesFor(c, code, row)
              && (code.ZoneId() in c.zones ==> d == c)
  {
    assert forall k :: 0 <= k < 3 ==> ValidSegment(code.Segments()[k]);
    assert code.site == code.Segments()[0] && code.area == code.Segments()[1] && code.zone == code.Segments()[2];
  }

  lemma AisleStage(c: Catalogue, code: Address, row: ImportRow)
    ensures EnsureAisle(c, code, row).Ok? <==> AisleUsable(c, code, row)
    ensures AisleUsable(c, code, row) ==>
              var d := EnsureAisle(c, code, row).value;
              && d == AisleMade(c, code, row)
              && d == c.(aisles := d.aisles, events := d.events)
              && code.AisleId() in d.aisles && d.aisles[code.AisleId()].status == Active
              && (code.AisleId() in c.aisles ==> d == c)
  {
    assert ValidSegment(code.Segments()[3]) && code.aisle == code.Segments()[3];
    assert code.ZoneId() != "" by { ZoneIdNotEmpty(code); }
  }

  lemma ZoneIdNotEmpty(code: LocationCode)
    ensures code.ZoneId() != ""
  {
    assert Strings.Join([code.site, code.area, code.zone]) ==
           code.site + "-" + Strings.Join([code.site, code.area, code.zone][1..]);
  }

  /** What the earlier stages have secured: the parents are active, and the zone is filed under its id. */
  ghost predicate ParentsReady(d: Catalogue, code: Address, z: ZoneAttributes) {
    && code.site in d.sites && d.sites[code.site].status == Active
    && code.ZoneId() in d.zones && d.zones[code.ZoneId()].status == Active
    && d.zones[code.ZoneId()].Attributes() == z && z.zoneId == code.ZoneId()
    && code.AisleId() in d.aisles && d.aisles[code.AisleId()].status == Active
  }

  lemma CapacityStage(row: ImportRow)
    ensures RowCapacity(row).Ok? <==> CapacityGiven(row)
    ensures CapacityGiven(row) ==> (RowCapacity(row).value.IsZero() <==> row.maxWeightKg == 0.0)
  {
  }

  lemma SlotStage(d: Catalogue, code: Address, row: ImportRow, z: ZoneAttributes)
    requires ParentsReady(d, code, z) && TypesRooted(d.types)
    ensures RegisterRow(d, code, row).Ok? <==> SlotUsable(d, code, row, z)
    ensures SlotUsable(d, code, row, z) ==>
              var e := RegisterRow(d, code, row).value;
              && SlotMade(d, e, code, row) && e.slots[code.String()].status == Active
  {
    CapacityStage(row);
    assert ResolveChain(d, code) == Ok(d.zones[code.ZoneId()]);
    if RegisterRow(d, code, row).Ok? {
      RegistrationStores(d, code, row.locationType, RowCapacity(row).value, row.dockFlow, row.activities);
      assert RowCapacity(row).value == Capacity(row.maxWeightKg, row.maxVolumeM3);
    }
  }

  lemma GeometryStage(e: Catalogue, code: Address, row: ImportRow)
    requires code.String() in e.slots && e.slots[code.String()].status == Active
    ensures RowGeometry(e, code, row).Ok? <==> !BadGeometry(row)
    ensures RowGeometry(e, code, row).Ok? ==>
              && RowGeometry(e, code, row).value == SlotPlaced(e, code, row)
              && RowGeometry(e, code, row).value.slots.Keys == e.slots.Keys
  {
  }

  // ---- the stages one after another ----

  /** What a row comes to from some stage on: it is imported, or its slot is kept though it is rejected,
      or it leaves the state alone. */
  ghost predicate Fate(c: Catalogue, o: RowOutcome, code: Address, imported: bool, kept: bool, same: bool) {
    && (o.error.None? <==> imported)
    && (code.String() in o.after.slots && code.String() !in c.slots && o.error.Some? <==> kept)
    && (o.error.Some? ==> (o.after == c <==> same))
  }

  lemma FateFromGeometry(e: Catalogue, code: Address, row: ImportRow)
    requires code.String() in e.slots && e.slots[code.String()].status == Active
    ensures var o := ImportFrom(GEOMETRY_STAGE, e, code, row);
            (o.error.None? <==> !BadGeometry(row)) && code.String() in o.after.slots
  {
    GeometryStage(e, code, row);
    assert RunStage(GEOMETRY_STAGE, e, code, row) == RowGeometry(e, code, row);
  }

  lemma FateFromSlot(d: Catalogue, code: Address, row: ImportRow, z: ZoneAttributes)
    requires ParentsReady(d, code, z) && TypesRooted(d.types)
    ensures var usable := SlotUsable(d, code, row, z);
            Fate(d, ImportFrom(SLOT_STAGE, d, code, row), code, usable && !BadGeometry(row),
              usable && BadGeometry(row), !usable)
  {
    SlotStage(d, code, row, z);
    var r := RegisterRow(d, code, row);
    assert RunStage(SLOT_STAGE, d, code, row) == r;
    if r.Ok? {
      FateFromGeometry(r.value, code, row);
      assert ImportFrom(SLOT_STAGE, d, code, row) == ImportFrom(GEOMETRY_STAGE, r.value, code, row);
    }
  }

  /** The parents of a slot, before its aisle's turn. */
  ghost predicate ZoneReady(d: Catalogue, code: Address, z: ZoneAttributes) {
    && code.site in d.sites && d.sites[code.site].status == Active
    && code.ZoneId() in d.zones && d.zones[code.ZoneId()].status == Active
    && d.zones[code.ZoneId()].Attributes() == z && z.zoneId == code.ZoneId()
  }

  lemma FateFromAisle(d: Catalogue, code: Address, row: ImportRow, z: ZoneAttributes)
    requires ZoneReady(d, code, z) && TypesRooted(d.types)
    ensures var usable := AisleUsable(d, code, row) && SlotUsable(d, code, row, z);
            Fate(d, ImportFrom(AISLE_STAGE, d, code, row), code, usable && !BadGeometry(row),
              usable && BadGeometry(row), RefusedInZone(d, code, row, z))
  {
    AisleStage(d, code, row);
    var r := EnsureAisle(d, code, row);
    assert RunStage(AISLE_STAGE, d, code, row) == r;
    if r.Ok? {
      FateFromSlot(r.value, code, row, z);
      LaterStagesAddOnly(AISLE_STAGE, r.value, code, row);
      assert ImportFrom(AISLE_STAGE, d, code, row) == ImportFrom(SLOT_STAGE, r.value, code, row);
    }
  }

  /** No stage takes back what an earlier one stored. */
  lemma LaterStagesAddOnly(stage: nat, d: Catalogue, code: Address, row: ImportRow)
    requires stage < SLOT_STAGE
    ensures AddsOnly(d, ImportFrom(stage + 1, d, code, row).after)
  {
    StagesEffect(stage + 1, d, code, row);
  }

  lemma FateFromZone(d: Catalogue, code: Address, row: ImportRow)
    requires code.site in d.sites && d.sites[code.site].status == Active
    requires TypesRooted(d.types) && ZonesRooted(d.zones, d.sites.Keys)
    ensures var usable := ZoneUsable(d, code, row) && AisleUsable(d, code, row)
            && SlotUsable(d, code, row, AttributesFor(d, code, row));
            Fate(d, ImportFrom(ZONE_STAGE, d, code, row), code, usable && !BadGeometry(row), usable && BadGeometry(row),
                 RefusedInSite(d, code, row))
  {
    ZoneStage(d, code, row);
    var r := EnsureZone(d, code, row);
    assert RunStage(ZONE_STAGE, d, code, row) == r;
    if r.Ok? {
      var z := AttributesFor(d, code, row);
      if code.ZoneId() in d.zones { assert ZoneInPlace(code.ZoneId(), d.zones[code.ZoneId()], d.sites.Keys); }
      FateFromAisle(r.value, code, row, z);
      LaterStagesAddOnly(ZONE_STAGE, r.value, code, row);
      assert ImportFrom(ZONE_STAGE, d, code, row) == ImportFrom(AISLE_STAGE, r.value, code, row);
    }
  }

  lemma MoreSites(zones: map<string, Zone>, sites: set<string>, more: set<string>)
    requires ZonesRooted(zones, sites) && sites <= more
    ensures ZonesRooted(zones, more)
  {
    forall k | k in zones ensures ZoneInPlace(k, zones[k], more) {
      assert ZoneInPlace(k, zones[k], sites);
    }
  }

  /** The state a row's later stages start from differs from the one before the row only in its sites. */
  lemma SameAfterSite(c: Catalogue, d: Catalogue, code: Address, row: ImportRow)
    requires d == c.(sites := d.sites, events := d.events) && SiteUsable(c, code)
    ensures ZoneUsable(d, code, row) == ZoneUsable(c, code, row)
            && AisleUsable(d, code, row) == AisleUsable(c, code, row)
    ensures RefusedInSite(d, code, row) == RefusedInSite(c, code, row)
    ensures SlotWillBeStored(c, code, row) <==> ZoneUsable(d, code, row) && AisleUsable(d, code, row)
                                                && SlotUsable(d, code, row, AttributesFor(d, code, row))
  {
  }

  lemma SiteMissing(c: Catalogue, d: Catalogue, o: RowOutcome, code: Address)
    requires code.site !in c.sites && code.site in d.sites && AddsOnly(d, o.after)
    ensures o.after != c
  {
  }

  lemma FateFromSite(c: Catalogue, code: Address, row: ImportRow)
    requires TypesRooted(c.types) && ZonesRooted(c.zones, c.sites.Keys)
    ensures Fate(c, ImportFrom(SITE_STAGE, c, code, row), code, SlotWillBeStored(c, code, row) && !BadGeometry(row),
                 SlotWillBeStored(c, code, row) && BadGeometry(row), RefusedBeforeCreating(c, code, row))
  {
    SiteStage(c, code, row);
    var r := EnsureSite(c, code, row);
    assert RunStage(SITE_STAGE, c, code, row) == r;
    if r.Ok? {
      var o := ImportFrom(ZONE_STAGE, r.value, code, row);
      assert ImportFrom(SITE_STAGE, c, code, row) == o;
      SameAfterSite(c, r.value, code, row);
      MoreSites(c.zones, c.sites.Keys, r.value.sites.Keys);
      FateFromZone(r.value, code, row);
      LaterStagesAddOnly(SITE_STAGE, r.value, code, row);
      if code.site !in c.sites { SiteMissing(c, r.value, o, code); }
    }
  }

  // ---- the fate of a row ----

  /** Whether a row is imported, leaves its slot behind though rejected, or leaves no trace, each exactly
      by what was stored before and what its columns say. */
  lemma RowFateExactly(c: Catalogue, row: ImportRow, code: Address)
    requires Rooted(c) && NewLocationCode(row.segments) == Code(code)
    ensures var o := ImportOne(c, row);
            && (o.error.None? <==> SlotWillBeStored(c, code, row) && !BadGeometry(row))
            && (KeptThoughRejected(c, o, code) <==> SlotWillBeStored(c, code, row) && BadGeometry(row))
            && (o.error.Some? ==> (o.after == c <==> RefusedBeforeCreating(c, code, row)))
  {
    FateFromSite(c, code, row);
  }

  /** The row's code is malformed, or the row is refused before anything is created. */
  ghost predicate LeavesNoTrace(c: Catalogue, row: ImportRow) {
    var parsed := NewLocationCode(row.segments);
    parsed.Refused? || RefusedBeforeCreating(c, parsed.code, row)
  }

  /** A rejected row is undone exactly when it is refused before anything is created. */
  lemma RejectedRowIsUndoneExactly(c: Catalogue, row: ImportRow)
    requires Rooted(c) && ImportOne(c, row).error.Some?
    ensures ImportOne(c, row).after == c <==> LeavesNoTrace(c, row)
  {
    var parsed := NewLocationCode(row.segments);
    if parsed.Code? {
      RowFateExactly(c, row, parsed.code);
    }
  }

  // ---- what a row leaves behind, exactly ----

  /** From the slot's turn on: nothing more, or the slot, placed unless its geometry is refused. */
  ghost predicate SlotLeaves(d: Catalogue, code: Address, row: ImportRow, z: ZoneAttributes, o: RowOutcome) {
    if !SlotUsable(d, code, row, z) then o.after == d && o.error.Some?
    else exists e :: SlotMade(d, e, code, row) && LeavesPlaced(e, code, row, o)
  }

  predicate LeavesPlaced(e: Catalogue, code: Address, row: ImportRow, o: RowOutcome)
    requires code.String() in e.slots
  {
    if BadGeometry(row) then o.after == e && o.error.Some? else o.after == SlotPlaced(e, code, row) && o.error.None?
  }

  ghost predicate AisleLeaves(d: Catalogue, code: Address, row: ImportRow, z: ZoneAttributes, o: RowOutcome) {
    if !AisleUsable(d, code, row) then o.after == d && o.error.Some?
    else SlotLeaves(AisleMade(d, code, row), code, row, z, o)
  }

  ghost predicate ZoneLeaves(d: Catalogue, code: Address, row: ImportRow, o: RowOutcome) {
    if !ZoneUsable(d, code, row) then o.after == d && o.error.Some?
    else AisleLeaves(ZoneMade(d, code, row), code, row, AttributesFor(d, code, row), o)
  }

  /** The whole effect of a row: its missing site, zone and aisle in turn, then its slot, then its place, as
      far as it gets. */
  ghost predicate RowLeaves(c: Catalogue, code: Address, row: ImportRow, o: RowOutcome) {
    if !SiteUsable(c, code) then o.after == c && o.error.Some?
    else ZoneLeaves(SiteMade(c, code, row), code, row, o)
  }

  lemma LeavesFromSlot(d: Catalogue, code: Address, row: ImportRow, z: ZoneAttributes)
    requires ParentsReady(d, code, z) && TypesRooted(d.types)
    ensures SlotLeaves(d, code, row, z, ImportFrom(SLOT_STAGE, d, code, row))
  {
    SlotStage(d, code, row, z);
    var r := RegisterRow(d, code, row);
    assert RunStage(SLOT_STAGE, d, code, row) == r;
    if r.Ok? {
      LeavesFromGeometry(r.value, code, row);
      assert ImportFrom(SLOT_STAGE, d, code, row) == ImportFrom(GEOMETRY_STAGE, r.value, code, row);
      assert SlotMade(d, r.value, code, row);
    }
  }

  lemma LeavesFromGeometry(e: Catalogue, code: Address, row: ImportRow)
    requires code.String() in e.slots && e.slots[code.String()].status == Active
    ensures LeavesPlaced(e, code, row, ImportFrom(GEOMETRY_STAGE, e, code, row))
  {
    GeometryStage(e, code, row);
    assert RunStage(GEOMETRY_STAGE, e, code, row) == RowGeometry(e, code, row);
  }

  lemma LeavesFromAisle(d: Catalogue, code: Address, row: ImportRow, z: ZoneAttributes)
    requires ZoneReady(d, code, z) && TypesRooted(d.types)
    ensures AisleLeaves(d, code, row, z, ImportFrom(AISLE_STAGE, d, code, row))
  {
    AisleStage(d, code, row);
    var r := EnsureAisle(d, code, row);
    assert RunStage(AISLE_STAGE, d, code, row) == r;
    if r.Ok? {
      LeavesFromSlot(r.value, code, row, z);
      assert ImportFrom(AISLE_STAGE, d, code, row) == ImportFrom(SLOT_STAGE, r.value, code, row);
    }
  }

  lemma LeavesFromZone(d: Catalogue, code: Address, row: ImportRow)
    requires code.site in d.sites && d.sites[code.site].status == Active
    requires TypesRooted(d.types) && ZonesRooted(d.zones, d.sites.Keys)
    ensures ZoneLeaves(d, code, row, ImportFrom(ZONE_STAGE, d, code, row))
  {
    ZoneStage(d, code, row);
    var r := EnsureZone(d, code, row);
    assert RunStage(ZONE_STAGE, d, code, row) == r;
    if r.Ok? {
      if code.ZoneId() in d.zones { assert ZoneInPlace(code.ZoneId(), d.zones[code.ZoneId()], d.sites.Keys); }
      LeavesFromAisle(r.value, code, row, AttributesFor(d, code, row));
      assert ImportFrom(ZONE_STAGE, d, code, row) == ImportFrom(AISLE_STAGE, r.value, code, row);
    }
  }

  /** Every row leaves exactly what its columns describe, as far as it gets, and nothing else: the stored
      entities field by field, and their events in order. */
  lemma RowLeavesExactly(c: Catalogue, row: ImportRow, code: Address)
    requires Rooted(c) && NewLocationCode(row.segments) == Code(code)
    ensures RowLeaves(c, code, row, ImportOne(c, row))
  {
    SiteStage(c, code, row);
    var r := EnsureSite(c, code, row);
    assert RunStage(SITE_STAGE, c, code, row) == r;
    if r.Ok? {
      MoreSites(c.zones, c.sites.Keys, r.value.sites.Keys);
      LeavesFromZone(r.value, code, row);
      assert ImportFrom(SITE_STAGE, c, code, row) == ImportFrom(ZONE_STAGE, r.value, code, row);
    }
  }

  // ---- rejected rows that leave something behind ----

  function PlainRow(locationType: string, z: real): ImportRow {
    Row(["W", "A", "Z", "L", "1", "1", "1"], "", Known(Ambient), false, 0, Blank, locationType, Blank, [], 0.0, 0.0,
        Some(0.0), Some(0.0), Some(z), Some(1.0), Some(1.0), Some(1.0), None)
  }

  const PLAIN_CODE := LocationCode("W", "A", "Z", "L", "1", "1", "1")

  lemma PlainRowParses(locationType: string, z: real)
    ensures PLAIN_CODE.Valid() && NewLocationCode(PlainRow(locationType, z).segments) == Code(PLAIN_CODE)
  {
    var segments := ["W", "A", "Z", "L", "1", "1", "1"];
    assert segments == PLAIN_CODE.Segments();
    assert forall k :: 0 <= k < SEGMENT_COUNT ==> ValidSegment(segments[k]);
  }

  const ONE_YARD := EMPTY_CATALOGUE.(types := map["YARD" := LocationType("YARD", Yard, NO_CAPACITY)],
                                     events := [LocationTypeRegistered("YARD")])

  lemma OneYardIsReachable()
    ensures Run(EMPTY_CATALOGUE, [AddType("YARD", Known(Yard), NO_CAPACITY)]) == ONE_YARD && Rooted(ONE_YARD)
  {
    var add := AddType("YARD", Known(Yard), NO_CAPACITY);
    RunOne(EMPTY_CATALOGUE, add);
    ReachableIsRooted([add]);
  }

  lemma YardWillBeStored()
    requires PLAIN_CODE.Valid()
    ensures SlotWillBeStored(ONE_YARD, PLAIN_CODE, PlainRow("YARD", -1.0)) && BadGeometry(PlainRow("YARD", -1.0))
  {
    assert FunctionalAttributesFor(Yard, Blank, []).Ok?;
    assert ONE_YARD.rules.Values == {};
  }

  /** With one kind of yard defined and nothing else stored, a row placed below ground is rejected, and
      its slot stays. */
  lemma RejectedRowKeepsItsSlot()
    ensures var c := Run(EMPTY_CATALOGUE, [AddType("YARD", Known(Yard), NO_CAPACITY)]);
            var o := ImportOne(c, PlainRow("YARD", -1.0));
            o.error.Some? && c.slots == map[] && PLAIN_CODE.String() in o.after.slots
  {
    OneYardIsReachable();
    PlainRowParses("YARD", -1.0);
    YardWillBeStored();
    RowFateExactly(ONE_YARD, PlainRow("YARD", -1.0), PLAIN_CODE);
  }

  /** The site, zone and aisle of the plain row, in a catalogue that has nothing else. */
  function PlainParents(): Catalogue {
    var z := Zone("W", "A", "Z", Ambient, false, Active, 0.0);
    var a := Aisle(z.Id(), "L", 0, TwoWay, Active, None);
    EMPTY_CATALOGUE.(sites := map["W" := Site("W", "W", Active)], zones := map[z.Id() := z], aisles := map[a.Id() := a],
                     events := [SiteRegistered("W"), ZoneRegistered(z.Id(), "W"), AisleRegistered(a.Id(), z.Id())])
  }

  lemma PlainSiteIsMade(code: Address)
    requires code == PLAIN_CODE
    ensures EnsureSite(EMPTY_CATALOGUE, code, PlainRow("YARD", 0.0))
            == Ok(EMPTY_CATALOGUE.(sites := PlainParents().sites, events := PlainParents().events[..1]))
  {
    assert ValidSegment(code.Segments()[0]);
    assert EMPTY_CATALOGUE.sites["W" := Site("W", "W", Active)] == PlainParents().sites;
    assert EMPTY_CATALOGUE.events + [SiteRegistered("W")] == PlainParents().events[..1];
  }

  lemma PlainZoneIsMade(c: Catalogue, code: Address)
    requires code == PLAIN_CODE && c == EMPTY_CATALOGUE.(sites := PlainParents().sites,
            events := PlainParents().events[..1])
    ensures EnsureZone(c, code, PlainRow("YARD", 0.0))
            == Ok(PlainParents().(aisles := map[], events := PlainParents().events[..2]))
  {
    assert forall k :: 0 <= k < 3 ==> ValidSegment(code.Segments()[k]);
    var z := Zone("W", "A", "Z", Ambient, false, Active, 0.0);
    assert c.zones[z.Id() := z] == PlainParents().zones;
    assert PlainParents().events[..1] + [ZoneRegistered(z.Id(), "W")] == PlainParents().events[..2];
  }

  lemma PlainAisleIsMade(c: Catalogue, code: Address)
    requires code == PLAIN_CODE && c == PlainParents().(aisles := map[], events := PlainParents().events[..2])
    ensures EnsureAisle(c, code, PlainRow("YARD", 0.0)) == Ok(PlainParents())
  {
    assert ValidSegment(code.Segments()[3]);
    ZoneIdNotEmpty(code);
    var a := Aisle(code.ZoneId(), "L", 0, TwoWay, Active, None);
    assert c.aisles[a.Id() := a] == PlainParents().aisles;
    assert PlainParents().events[..2] + [AisleRegistered(a.Id(), code.ZoneId())] == PlainParents().events;
  }

  lemma UnknownKindIsRefused(c: Catalogue, code: Address)
    requires c.types == map[]
    ensures RegisterRow(c, code, PlainRow("YARD", 0.0)).Err?
  {
  }

  /** A stage that succeeds hands over to the next, and one that fails ends the row. */
  lemma OneStageOn(stage: nat, c: Catalogue, code: Address, row: ImportRow, r: Result<Catalogue>)
    requires stage < GEOMETRY_STAGE && r == RunStage(stage, c, code, row)
    ensures r.Ok? ==> ImportFrom(stage, c, code, row) == ImportFrom(stage + 1, r.value, code, row)
    ensures r.Err? ==> ImportFrom(stage, c, code, row) == RowOutcome(c, code.String(), Some(r.error))
  {
  }

  /** In the empty catalogue a row of an unknown kind is rejected for its slot, and its site, zone and
      aisle stay, announced. */
  lemma RejectedRowKeepsItsParents()
    ensures var o := ImportOne(EMPTY_CATALOGUE, PlainRow("YARD", 0.0)); o.error.Some? && o.after == PlainParents()
  {
    PlainRowParses("YARD", 0.0);
    var row, code: Address := PlainRow("YARD", 0.0), PLAIN_CODE;
    var c1 := EMPTY_CATALOGUE.(sites := PlainParents().sites, events := PlainParents().events[..1]);
    var c2 := PlainParents().(aisles := map[], events := PlainParents().events[..2]);
    PlainSiteIsMade(code);
    OneStageOn(SITE_STAGE, EMPTY_CATALOGUE, code, row, Ok(c1));
    PlainZoneIsMade(c1, code);
    OneStageOn(ZONE_STAGE, c1, code, row, Ok(c2));
    PlainAisleIsMade(c2, code);
    OneStageOn(AISLE_STAGE, c2, code, row, Ok(PlainParents()));
    UnknownKindIsRefused(PlainParents(), code);
    OneStageOn(SLOT_STAGE, PlainParents(), code, row, RegisterRow(PlainParents(), code, row));
  }
}
