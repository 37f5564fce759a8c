/** What each use case does to the stored catalogue, and what every run of them keeps true. */
module Catalogues {
  import opened LocationCodes
  import opened Placement
  import opened Layout

  // ---- use cases as functions of the stored state; Err leaves the state as it was ----

  function RegisterSite(c: Catalogue, code: string, name: string): Result<Catalogue> {
    if code in c.sites then Err(DuplicateSite)
    else
      var s :- NewSite(code, name);
      Ok(c.(sites := c.sites[s.code := s], events := c.events + [SiteRegistered(s.code)]))
  }

  function RegisterZone(c: Catalogue, site: string, area: string, zone: string, temperature: Text<TemperatureClass>,
          hazmat: bool): Result<Catalogue>
  {
    if site !in c.sites then Err(SiteNotFound)
    else if c.sites[site].status != Active then Err(SiteNotActive)
    else
      var z :- NewZone(site, area, zone, temperature, hazmat);
      if z.Id() in c.zones then Err(DuplicateZone)
      else Ok(c.(zones := c.zones[z.Id() := z], events := c.events + [ZoneRegistered(z.Id(), z.site)]))
  }

  function RegisterAisle(c: Catalogue, zoneId: string, code: string, sequenceHint: int,
          direction: Text<Direction>): Result<Catalogue>
  {
    if zoneId !in c.zones then Err(ZoneNotFound)
    else if c.zones[zoneId].status != Active then Err(ZoneNotActive)
    else
      var a :- NewAisle(zoneId, code, sequenceHint, direction);
      if a.Id() in c.aisles then Err(DuplicateAisle)
      else Ok(c.(aisles := c.aisles[a.Id() := a], events := c.events + [AisleRegistered(a.Id(), a.zoneId)]))
  }

  /** Some aisle of the zone has this code. */
  predicate AisleInZone(c: Catalogue, zoneId: string, code: string) {
    exists k :: k in c.aisles && c.aisles[k].zoneId == zoneId && c.aisles[k].code == code
  }

  function RegisterCrossAisle(c: Catalogue, zoneId: string, fromAisle: string, toAisle: string,
          atBay: string): Result<Catalogue>
  {
    var key := NewCrossAisleKey(zoneId, fromAisle, toAisle, atBay);
    if zoneId !in c.zones then Err(ZoneNotFound)
    else if !AisleInZone(c, zoneId, fromAisle) || !AisleInZone(c, zoneId, toAisle) then Err(CrossAisleAisleMismatch)
    else if key in c.crossAisles then Err(DuplicateCrossAisle)
    else
      var x :- NewCrossAisle(zoneId, fromAisle, toAisle, atBay);
      Ok(c.(crossAisles := c.crossAisles[key := x], events := c.events + [CrossAisleRegistered(key)]))
  }

  function RegisterLocationType(c: Catalogue, name: string, role: Text<Role>, capacity: Capacity): Result<Catalogue> {
    if name in c.types then Err(DuplicateLocationType)
    else
      var t :- NewLocationType(name, role, capacity);
      Ok(c.(types := c.types[t.name := t], events := c.events + [LocationTypeRegistered(t.name)]))
  }

  function DefinePlacementRule(c: Catalogue, id: string, locationType: string, effect: Text<Effect>,
          where: ZonePredicate): Result<Catalogue>
  {
    if locationType !in c.types then Err(LocationTypeNotFound)
    else if id in c.rules then Err(DuplicatePlacementRule)
    else
      var r :- NewPlacementRule(id, locationType, effect, where);
      Ok(c.(rules := c.rules[r.id := r], events := c.events + [PlacementRuleDefined(r.id)]))
  }

  /** The chain of custody of a code: its site, zone and aisle all exist and are active. */
  function ResolveChain(c: Catalogue, code: Address): Result<Zone> {
    if code.site !in c.sites then Err(SiteNotFound)
    else if c.sites[code.site].status != Active then Err(SiteNotActive)
    else if code.ZoneId() !in c.zones then Err(ZoneNotFound)
    else if c.zones[code.ZoneId()].status != Active then Err(ZoneNotActive)
    else if code.AisleId() !in c.aisles then Err(AisleNotFound)
    else if c.aisles[code.AisleId()].status != Active then Err(AisleNotActive)
    else Ok(c.zones[code.ZoneId()])
  }

  ghost function RegisterLocationSlot(c: Catalogue, code: Address, typeName: string, override: Capacity,
                                      dockFlow: Text<DockFlow>, activities: seq<Text<Activity>>): Result<Catalogue>
  {
    if code.String() in c.slots then Err(DuplicateLocationCode)
    else
      var z :- ResolveChain(c, code);
      if typeName !in c.types then Err(LocationTypeNotFound)
      else
        var t := c.types[typeName];
        var functional :- FunctionalAttributesFor(t.role, dockFlow, activities);
        var s :- NewLocationSlot(code, t, override, functional, z.Attributes(),
            Legal(c.rules.Values, t.name, z.Attributes()));
        Ok(c.(slots := c.slots[code.String() := s], events := c.events + [LocationSlotRegistered(code.String())]))
  }

  function DecommissionLocationSlot(c: Catalogue, code: Address): Result<Catalogue> {
    if code.String() !in c.slots then Err(LocationSlotNotFound)
    else
      var s :- Decommission(c.slots[code.String()]);
      Ok(c.(slots := c.slots[code.String() := s], events := c.events + [LocationSlotDecommissioned(code.String())]))
  }

  function SetLocationGeometry(c: Catalogue, code: Address, position: Point, dimensions: Dimensions,
          pickSequence: Option<int>): Result<Catalogue>
  {
    if code.String() !in c.slots then Err(LocationSlotNotFound)
    else
      var s :- SetGeometry(c.slots[code.String()], position, dimensions, pickSequence);
      Ok(c.(slots := c.slots[code.String() := s], events := c.events + [LocationGeometryUpdated(code.String())]))
  }

  function SetAisleGeometry(c: Catalogue, aisleId: string, centreline: Segment): Result<Catalogue> {
    if aisleId !in c.aisles then Err(AisleNotFound)
    else
      var a :- SetCentreline(c.aisles[aisleId], centreline);
      Ok(c.(aisles := c.aisles[aisleId := a], events := c.events + [AisleGeometryUpdated(aisleId)]))
  }

  // ---- bulk import ----

  /** One row of an import. Geometry columns may be blank; a blank one counts as 0. */
  datatype Row = Row(segments: seq<string>, siteName: string, temperature: Text<TemperatureClass>, hazmat: bool,
                     sequenceHint: int, direction: Text<Direction>, locationType: string,
                     dockFlow: Text<DockFlow>, activities: seq<Text<Activity>>, maxWeightKg: real, maxVolumeM3: real,
                     xM: Option<real>, yM: Option<real>, zM: Option<real>,
                     widthM: Option<real>, depthM: Option<real>, heightM: Option<real>, pickSequence: Option<int>)

  type ImportRow = r: Row | |r.segments| == SEGMENT_COUNT
    witness Row(["A", "A", "A", "A", "A", "A", "A"], "", Blank, false, 0, Blank, "", Blank, [], 0.0, 0.0,
                None, None, None, None, None, None, None)

  function Deref(x: Option<real>): real {
    if x.Some? then x.value else 0.0
  }

  function EnsureSite(c: Catalogue, code: Address, row: ImportRow): Result<Catalogue> {
    if code.site in c.sites then
      if c.sites[code.site].status != Active then Err(SiteNotActive) else Ok(c)
    else
      RegisterSite(c, code.site, if row.siteName == "" then code.site else row.siteName)
  }

  function EnsureZone(c: Catalogue, code: Address, row: ImportRow): Result<Catalogue> {
    if code.ZoneId() in c.zones then
      if c.zones[code.ZoneId()].status != Active then Err(ZoneNotActive) else Ok(c)
    else
      var z :- NewZone(code.site, code.area, code.zone, row.temperature, row.hazmat);
      Ok(c.(zones := c.zones[z.Id() := z], events := c.events + [ZoneRegistered(z.Id(), z.site)]))
  }

  function EnsureAisle(c: Catalogue, code: Address, row: ImportRow): Result<Catalogue> {
    if code.AisleId() in c.aisles then
      if c.aisles[code.AisleId()].status != Active then Err(AisleNotActive) else Ok(c)
    else
      var a :- NewAisle(code.ZoneId(), code.aisle, row.sequenceHint,
            if row.direction.Blank? then Known(TwoWay) else row.direction);
      Ok(c.(aisles := c.aisles[a.Id() := a], events := c.events + [AisleRegistered(a.Id(), a.zoneId)]))
  }

  function RowCapacity(row: ImportRow): Result<Capacity> {
    if row.maxWeightKg != 0.0 || row.maxVolumeM3 != 0.0 then NewCapacity(row.maxWeightKg, row.maxVolumeM3)
    else Ok(NO_CAPACITY)
  }

  function RowGeometry(c: Catalogue, code: Address, row: ImportRow): Result<Catalogue> {
    if row.xM.None? then
      Ok(c)
    else
      var position :- NewPoint(row.xM.value, Deref(row.yM), Deref(row.zM));
      var dimensions :- NewDimensions(Deref(row.widthM), Deref(row.depthM), Deref(row.heightM));
      SetLocationGeometry(c, code, position, dimensions, row.pickSequence)
  }

  /** What a row leaves behind: the state after it, the code it names when it names one, and why it
      was rejected if it was. A rejected row keeps whatever it had already stored. */
  datatype RowOutcome = RowOutcome(after: Catalogue, code: string, error: Option<Error>)

  ghost function RegisterRow(c: Catalogue, code: Address, row: ImportRow): Result<Catalogue> {
    var capacity :- RowCapacity(row);
    RegisterLocationSlot(c, code, row.locationType, capacity, row.dockFlow, row.activities)
  }

  /** The stages a row goes through, in order. */
  const SITE_STAGE := 0
  const ZONE_STAGE := 1
  const AISLE_STAGE := 2
  const SLOT_STAGE := 3
  const GEOMETRY_STAGE := 4

  ghost function RunStage(stage: nat, c: Catalogue, code: Address, row: ImportRow): Result<Catalogue>
    requires stage <= GEOMETRY_STAGE
  {
    if stage == SITE_STAGE then EnsureSite(c, code, row)
    else if stage == ZONE_STAGE then EnsureZone(c, code, row)
    else if stage == AISLE_STAGE then EnsureAisle(c, code, row)
    else if stage == SLOT_STAGE then RegisterRow(c, code, row)
    else RowGeometry(c, code, row)
  }

  /** The stages from `stage` on, up to the first that fails. */
  ghost function ImportFrom(stage: nat, c: Catalogue, code: Address, row: ImportRow): RowOutcome
    requires stage <= GEOMETRY_STAGE
    decreases GEOMETRY_STAGE - stage
  {
    var r := RunStage(stage, c, code, row);
    if r.Err? then RowOutcome(c, code.String(), Some(r.error))
    else if stage == GEOMETRY_STAGE then RowOutcome(r.value, code.String(), None)
    else ImportFrom(stage + 1, r.value, code, row)
  }

  ghost function ImportOne(c: Catalogue, row: ImportRow): RowOutcome {
    var parsed := NewLocationCode(row.segments);
    if parsed.Refused? then RowOutcome(c, "", Some(MalformedCode(parsed.error)))
    else ImportFrom(SITE_STAGE, c, parsed.code, row)
  }

  /** The state after the first `k` rows. */
  ghost function ImportFirst(c: Catalogue, rows: seq<ImportRow>, k: nat): Catalogue
    requires k <= |rows|
  {
    if k == 0 then c else ImportOne(ImportFirst(c, rows, k - 1), rows[k - 1]).after
  }

  /** `states` are the states before, between and after the rows of an import. */
  ghost predicate Passes(rows: seq<ImportRow>, states: seq<Catalogue>) {
    && |states| == |rows| + 1
    && forall i :: 0 <= i < |rows| ==> states[i + 1] == ImportOne(states[i], rows[i]).after
  }

  /** How many of the first `k` rows were imported. */
  ghost function Imported(c: Catalogue, rows: seq<ImportRow>, k: nat): (n: nat)
    requires k <= |rows|
    ensures n <= k
  {
    if k == 0 then 0
    else Imported(c, rows, k - 1) + if ImportOne(ImportFirst(c, rows, k - 1), rows[k - 1]).error.None? then 1 else 0
  }

  ghost function ImportFacilityLayout(c: Catalogue, rows: seq<ImportRow>): Result<Catalogue> {
    if rows == [] then Err(EmptyImport)
    else
      var n, ok := |rows|, Imported(c, rows, |rows|);
      var after := ImportFirst(c, rows, n);
      Ok(after.(events := after.events + [FacilityLayoutImported(n, ok, n - ok)]))
  }

  // ---- runs ----

  datatype Command =
    | AddSite(code: string, name: string)
    | AddZone(site: string, area: string, zone: string, temperature: Text<TemperatureClass>, hazmat: bool)
    | AddAisle(zoneId: string, aisle: string, sequenceHint: int, direction: Text<Direction>)
    | AddCrossAisle(zoneId: string, fromAisle: string, toAisle: string, atBay: string)
    | AddType(name: string, role: Text<Role>, capacity: Capacity)
    | AddRule(id: string, locationType: string, effect: Text<Effect>, where: ZonePredicate)
    | AddSlot(address: Address, typeName: string, override: Capacity, dockFlow: Text<DockFlow>,
      activities: seq<Text<Activity>>)
    | RetireSlot(address: Address)
    | PlaceSlot(address: Address, position: Point, dimensions: Dimensions, pickSequence: Option<int>)
    | DrawAisle(aisleId: string, centreline: Segment)
    | Import(rows: seq<ImportRow>)

  ghost function Attempt(c: Catalogue, cmd: Command): Result<Catalogue> {
    match cmd
    case AddSite(code, name) => RegisterSite(c, code, name)
    case AddZone(site, area, zone, temperature, hazmat) => RegisterZone(c, site, area, zone, temperature, hazmat)
    case AddAisle(zoneId, aisle, hint, direction) => RegisterAisle(c, zoneId, aisle, hint, direction)
    case AddCrossAisle(zoneId, a, b, bay) => RegisterCrossAisle(c, zoneId, a, b, bay)
    case AddType(name, role, capacity) => RegisterLocationType(c, name, role, capacity)
    case AddRule(id, locationType, effect, where) => DefinePlacementRule(c, id, locationType, effect, where)
    case AddSlot(code, typeName, override, dockFlow, activities) =>
      RegisterLocationSlot(c, code, typeName, override, dockFlow, activities)
    case RetireSlot(code) => DecommissionLocationSlot(c, code)
    case PlaceSlot(code, position, dimensions, pick) => SetLocationGeometry(c, code, position, dimensions, pick)
    case DrawAisle(aisleId, centreline) => SetAisleGeometry(c, aisleId, centreline)
    case Import(rows) => ImportFacilityLayout(c, rows)
  }

  ghost function Step(c: Catalogue, cmd: Command): Catalogue {
    var r := Attempt(c, cmd);
    if r.Ok? then r.value else c
  }

  ghost function Run(c: Catalogue, cmds: seq<Command>): Catalogue {
    if cmds == [] then c else Step(Run(c, cmds[..|cmds| - 1]), cmds[|cmds| - 1])
  }

  // ---- chain of custody ----

  /** A zone is filed under its id and its site is among `sites`. */
  ghost predicate ZoneInPlace(k: string, z: Zone, sites: set<string>) {
    && k == z.Id() && ValidSegment(z.site) && ValidSegment(z.area) && ValidSegment(z.zone) && z.site in sites
  }

  ghost predicate AisleInPlace(k: string, a: Aisle, zones: set<string>) {
    && k == a.Id() && ValidSegment(a.code) && a.zoneId in zones
    && (a.centreline.Some? ==> a.centreline.value.Valid())
  }

  ghost predicate CrossAisleInPlace(k: CrossAisleKey, x: CrossAisle, aisles: set<string>) {
    && k == NewCrossAisleKey(x.zoneId, x.fromAisle, x.toAisle, x.atBay) && x.fromAisle != x.toAisle
    && x.zoneId + "-" + x.fromAisle in aisles && x.zoneId + "-" + x.toAisle in aisles
  }

  ghost predicate SlotInPlace(k: string, s: Slot, sites: set<string>, zones: set<string>, aisles: set<string>,
          types: set<string>)
  {
    && s.code.Valid() && k == s.code.String()
    && s.code.site in sites && s.code.ZoneId() in zones && s.code.AisleId() in aisles
    && s.locationType in types
  }

  ghost predicate RuleInPlace(k: string, r: PlacementRule, types: set<string>) {
    k == r.id && r.locationType in types && !r.where.Empty()
  }

  ghost predicate SitesRooted(sites: map<string, Site>) {
    forall k :: k in sites ==> k == sites[k].code && ValidSegment(k)
  }

  ghost predicate ZonesRooted(zones: map<string, Zone>, sites: set<string>) {
    forall k :: k in zones ==> ZoneInPlace(k, zones[k], sites)
  }

  ghost predicate AislesRooted(aisles: map<string, Aisle>, zones: set<string>) {
    forall k :: k in aisles ==> AisleInPlace(k, aisles[k], zones)
  }

  ghost predicate CrossAislesRooted(crossAisles: map<CrossAisleKey, CrossAisle>, aisles: set<string>) {
    forall k :: k in crossAisles ==> CrossAisleInPlace(k, crossAisles[k], aisles)
  }

  ghost predicate SlotsRooted(slots: map<string, Slot>, sites: set<string>, zones: set<string>, aisles: set<string>,
          types: set<string>)
  {
    forall k :: k in slots ==> SlotInPlace(k, slots[k], sites, zones, aisles, types)
  }

  ghost predicate TypesRooted(types: map<string, LocationType>) {
    forall k :: k in types ==> k == types[k].name && k != ""
  }

  ghost predicate RulesRooted(rules: map<string, PlacementRule>, types: set<string>) {
    forall k :: k in rules ==> RuleInPlace(k, rules[k], types)
  }

  /** Every stored aggregate is filed under its own identity and hangs off stored parents. */
  ghost predicate Rooted(c: Catalogue) {
    && SitesRooted(c.sites)
    && ZonesRooted(c.zones, c.sites.Keys)
    && AislesRooted(c.aisles, c.zones.Keys)
    && CrossAislesRooted(c.crossAisles, c.aisles.Keys)
    && SlotsRooted(c.slots, c.sites.Keys, c.zones.Keys, c.aisles.Keys, c.types.Keys)
    && TypesRooted(c.types)
    && RulesRooted(c.rules, c.types.Keys)
  }

  /** More parents never uproot anything. */
  lemma MoreParents(c: Catalogue, sites: set<string>, zones: set<string>, aisles: set<string>, types: set<string>)
    requires Rooted(c)
    requires c.sites.Keys <= sites && c.zones.Keys <= zones && c.aisles.Keys <= aisles && c.types.Keys <= types
    ensures ZonesRooted(c.zones, sites) && AislesRooted(c.aisles, zones) && CrossAislesRooted(c.crossAisles, aisles)
    ensures SlotsRooted(c.slots, sites, zones, aisles, types) && RulesRooted(c.rules, types)
  {
    forall k | k in c.zones ensures ZoneInPlace(k, c.zones[k], sites) {
      assert ZoneInPlace(k, c.zones[k], c.sites.Keys);
    }
    forall k | k in c.aisles ensures AisleInPlace(k, c.aisles[k], zones) {
      assert AisleInPlace(k, c.aisles[k], c.zones.Keys);
    }
    forall k | k in c.crossAisles ensures CrossAisleInPlace(k, c.crossAisles[k], aisles) {
      assert CrossAisleInPlace(k, c.crossAisles[k], c.aisles.Keys);
    }
    forall k | k in c.slots ensures SlotInPlace(k, c.slots[k], sites, zones, aisles, types) {
      assert SlotInPlace(k, c.slots[k], c.sites.Keys, c.zones.Keys, c.aisles.Keys, c.types.Keys);
    }
    forall k | k in c.rules ensures RuleInPlace(k, c.rules[k], types) {
      assert RuleInPlace(k, c.rules[k], c.types.Keys);
    }
  }

  // ---- history ----

  /** What may happen to one slot over time: its identity and kind are fixed, it may be placed, and it
      may be retired, after which nothing about it changes. */
  ghost predicate SlotHistory(s: Slot, s': Slot) {
    && s'.code == s.code && s'.locationType == s.locationType && s'.role == s.role
    && s'.functional == s.functional && s'.capacity == s.capacity
    && (s'.status == s.status || s'.status == Decommissioned)
    && (s.status == Decommissioned ==> s' == s)
  }

  ghost predicate AisleHistory(a: Aisle, a': Aisle) {
    && a' == a.(centreline := a'.centreline)
    && (a.status == Decommissioned ==> a' == a)
  }

  ghost predicate SubMap<K, V>(m: map<K, V>, m': map<K, V>) {
    forall k :: k in m ==> k in m' && m'[k] == m[k]
  }

  ghost predicate AislesHistory(m: map<string, Aisle>, m': map<string, Aisle>) {
    forall k :: k in m ==> k in m' && AisleHistory(m[k], m'[k])
  }

  ghost predicate SlotsHistory(m: map<string, Slot>, m': map<string, Slot>) {
    forall k :: k in m ==> k in m' && SlotHistory(m[k], m'[k])
  }

  /** The slot stands in a stored zone and no rule denies its kind there. */
  ghost predicate Obeys(s: Slot, rules: map<string, PlacementRule>, zones: map<string, Zone>) {
    && s.code.ZoneId() in zones
    && forall r :: r in rules ==> !rules[r].Denies(s.locationType, zones[s.code.ZoneId()].Attributes())
  }

  /** No slot of `slots'` that is not in `slots` is of a kind the rules deny in its zone. */
  ghost predicate NewSlotsObey(slots: map<string, Slot>, slots': map<string, Slot>, rules: map<string, PlacementRule>,
          zones: map<string, Zone>)
  {
    forall k :: k in slots' && k !in slots ==> Obeys(slots'[k], rules, zones)
  }

  /** `c'` is a later state than `c`: structure only grows, and no slot stored since is of a kind a
      Deny rule of `c` forbids in its zone. */
  ghost predicate Grows(c: Catalogue, c': Catalogue) {
    && SubMap(c.sites, c'.sites) && SubMap(c.zones, c'.zones) && SubMap(c.types, c'.types)
    && SubMap(c.rules, c'.rules) && SubMap(c.crossAisles, c'.crossAisles)
    && AislesHistory(c.aisles, c'.aisles)
    && SlotsHistory(c.slots, c'.slots)
    && NewSlotsObey(c.slots, c'.slots, c.rules, c'.zones)
    && c.events <= c'.events
  }

  lemma NewSlotsObeyTransitive(c: Catalogue, d: Catalogue, e: Catalogue)
    requires NewSlotsObey(c.slots, d.slots, c.rules, d.zones) && NewSlotsObey(d.slots, e.slots, d.rules, e.zones)
    requires SubMap(c.rules, d.rules) && SubMap(d.zones, e.zones) && SlotsHistory(d.slots, e.slots)
    ensures NewSlotsObey(c.slots, e.slots, c.rules, e.zones)
  {
    forall k | k in e.slots && k !in c.slots ensures Obeys(e.slots[k], c.rules, e.zones) {
      if k in d.slots {
        assert Obeys(d.slots[k], c.rules, d.zones);
        assert SlotHistory(d.slots[k], e.slots[k]);
      } else {
        assert Obeys(e.slots[k], d.rules, e.zones);
      }
    }
  }

  lemma SlotsHistoryTransitive(c: map<string, Slot>, d: map<string, Slot>, e: map<string, Slot>)
    requires SlotsHistory(c, d) && SlotsHistory(d, e)
    ensures SlotsHistory(c, e)
  {
    forall k | k in c ensures k in e && SlotHistory(c[k], e[k]) {
      assert SlotHistory(c[k], d[k]) && SlotHistory(d[k], e[k]);
    }
  }

  lemma AislesHistoryTransitive(c: map<string, Aisle>, d: map<string, Aisle>, e: map<string, Aisle>)
    requires AislesHistory(c, d) && AislesHistory(d, e)
    ensures AislesHistory(c, e)
  {
    forall k | k in c ensures k in e && AisleHistory(c[k], e[k]) {
      assert AisleHistory(c[k], d[k]) && AisleHistory(d[k], e[k]);
    }
  }

  lemma GrowsTransitive(c: Catalogue, d: Catalogue, e: Catalogue)
    requires Grows(c, d) && Grows(d, e)
    ensures Grows(c, e)
  {
    NewSlotsObeyTransitive(c, d, e);
    SlotsHistoryTransitive(c.slots, d.slots, e.slots);
    AislesHistoryTransitive(c.aisles, d.aisles, e.aisles);
  }

  lemma GrowsReflexive(c: Catalogue)
    ensures Grows(c, c)
  {
  }

  // ---- each use case keeps the chain of custody and only grows the map ----

  function WithSite(c: Catalogue, s: Site, e: Event): Catalogue {
    c.(sites := c.sites[s.code := s], events := c.events + [e])
  }

  lemma AddSiteRooted(c: Catalogue, s: Site, e: Event)
    requires Rooted(c) && ValidSegment(s.code)
    ensures Rooted(WithSite(c, s, e))
  {
    MoreParents(c, c.sites.Keys + {s.code}, c.zones.Keys, c.aisles.Keys, c.types.Keys);
  }

  lemma AddSiteGrows(c: Catalogue, s: Site, e: Event)
    requires s.code !in c.sites
    ensures Grows(c, WithSite(c, s, e))
  {
  }

  lemma AddSiteStep(c: Catalogue, code: string, name: string)
    requires Rooted(c) && RegisterSite(c, code, name).Ok?
    ensures var r := RegisterSite(c, code, name); Rooted(r.value) && Grows(c, r.value)
  {
    AddSiteRooted(c, NewSite(code, name).value, SiteRegistered(code));
    AddSiteGrows(c, NewSite(code, name).value, SiteRegistered(code));
  }

  function WithZone(c: Catalogue, z: Zone, e: Event): Catalogue {
    c.(zones := c.zones[z.Id() := z], events := c.events + [e])
  }

  lemma AddZoneRooted(c: Catalogue, z: Zone, e: Event)
    requires Rooted(c) && ZoneInPlace(z.Id(), z, c.sites.Keys)
    ensures Rooted(WithZone(c, z, e))
  {
    MoreParents(c, c.sites.Keys, c.zones.Keys + {z.Id()}, c.aisles.Keys, c.types.Keys);
  }

  lemma AddZoneGrows(c: Catalogue, z: Zone, e: Event)
    requires z.Id() !in c.zones
    ensures Grows(c, WithZone(c, z, e))
  {
  }

  function WithAisle(c: Catalogue, a: Aisle, e: Event): Catalogue {
    c.(aisles := c.aisles[a.Id() := a], events := c.events + [e])
  }

  lemma PutAisleRooted(c: Catalogue, a: Aisle, e: Event)
    requires Rooted(c) && AisleInPlace(a.Id(), a, c.zones.Keys)
    ensures Rooted(WithAisle(c, a, e))
  {
    MoreParents(c, c.sites.Keys, c.zones.Keys, c.aisles.Keys + {a.Id()}, c.types.Keys);
  }

  lemma PutAisleGrows(c: Catalogue, a: Aisle, e: Event)
    requires a.Id() in c.aisles ==> AisleHistory(c.aisles[a.Id()], a)
    ensures Grows(c, WithAisle(c, a, e))
  {
  }

  function WithSlot(c: Catalogue, s: Slot, e: Event): Catalogue {
    c.(slots := c.slots[s.code.String() := s], events := c.events + [e])
  }

  lemma PutSlotRooted(c: Catalogue, s: Slot, e: Event)
    requires Rooted(c) && SlotInPlace(s.code.String(), s, c.sites.Keys, c.zones.Keys, c.aisles.Keys, c.types.Keys)
    ensures Rooted(WithSlot(c, s, e))
  {
  }

  /** Storing a slot keeps history when it continues a stored slot's, or when the rules allow it. */
  lemma PutSlotGrows(c: Catalogue, s: Slot, e: Event)
    requires s.code.ZoneId() in c.zones
    requires s.code.String() in c.slots ==> SlotHistory(c.slots[s.code.String()], s)
    requires s.code.String() !in c.slots ==> Legal(c.rules.Values, s.locationType,
            c.zones[s.code.ZoneId()].Attributes())
    ensures Grows(c, WithSlot(c, s, e))
  {
    if s.code.String() !in c.slots {
      forall r | r in c.rules ensures !c.rules[r].Denies(s.locationType, c.zones[s.code.ZoneId()].Attributes()) {
        assert c.rules[r] in c.rules.Values;
      }
      assert Obeys(s, c.rules, c.zones);
    }
  }

  lemma AddZoneStep(c: Catalogue, site: string, area: string, zone: string, temperature: Text<TemperatureClass>,
          hazmat: bool)
    requires Rooted(c) && RegisterZone(c, site, area, zone, temperature, hazmat).Ok?
    ensures var r := RegisterZone(c, site, area, zone, temperature, hazmat); Rooted(r.value) && Grows(c, r.value)
  {
    var z := NewZone(site, area, zone, temperature, hazmat).value;
    AddZoneRooted(c, z, ZoneRegistered(z.Id(), z.site));
    AddZoneGrows(c, z, ZoneRegistered(z.Id(), z.site));
  }

  lemma AddAisleStep(c: Catalogue, zoneId: string, code: string, hint: int, direction: Text<Direction>)
    requires Rooted(c) && RegisterAisle(c, zoneId, code, hint, direction).Ok?
    ensures var r := RegisterAisle(c, zoneId, code, hint, direction); Rooted(r.value) && Grows(c, r.value)
  {
    var a := NewAisle(zoneId, code, hint, direction).value;
    PutAisleRooted(c, a, AisleRegistered(a.Id(), a.zoneId));
    PutAisleGrows(c, a, AisleRegistered(a.Id(), a.zoneId));
  }

  lemma AisleInZoneIsStored(c: Catalogue, zoneId: string, code: string)
    requires AislesRooted(c.aisles, c.zones.Keys) && AisleInZone(c, zoneId, code)
    ensures zoneId + "-" + code in c.aisles
  {
    var k :| k in c.aisles && c.aisles[k].zoneId == zoneId && c.aisles[k].code == code;
    assert AisleInPlace(k, c.aisles[k], c.zones.Keys);
  }

  lemma AddCrossAisleStep(c: Catalogue, zoneId: string, fromAisle: string, toAisle: string, atBay: string)
    requires Rooted(c) && RegisterCrossAisle(c, zoneId, fromAisle, toAisle, atBay).Ok?
    ensures var r := RegisterCrossAisle(c, zoneId, fromAisle, toAisle, atBay); Rooted(r.value) && Grows(c, r.value)
  {
    AisleInZoneIsStored(c, zoneId, fromAisle);
    AisleInZoneIsStored(c, zoneId, toAisle);
    PutCrossAisleKeeps(c, CrossAisle(zoneId, fromAisle, toAisle, atBay, true));
  }

  lemma PutCrossAisleKeeps(c: Catalogue, x: CrossAisle)
    requires Rooted(c)
    requires x.fromAisle != x.toAisle && x.zoneId + "-" + x.fromAisle in c.aisles
            && x.zoneId + "-" + x.toAisle in c.aisles
    requires NewCrossAisleKey(x.zoneId, x.fromAisle, x.toAisle, x.atBay) !in c.crossAisles
    ensures var key := NewCrossAisleKey(x.zoneId, x.fromAisle, x.toAisle, x.atBay);
            var c' := c.(crossAisles := c.crossAisles[key := x], events := c.events + [CrossAisleRegistered(key)]);
            Rooted(c') && Grows(c, c')
  {
    var key := NewCrossAisleKey(x.zoneId, x.fromAisle, x.toAisle, x.atBay);
    CrossAislesStayRooted(c.crossAisles, c.aisles.Keys, key, x);
  }

  lemma CrossAislesStayRooted(crossAisles: map<CrossAisleKey, CrossAisle>, aisles: set<string>, key: CrossAisleKey,
          x: CrossAisle)
    requires CrossAislesRooted(crossAisles, aisles) && key !in crossAisles && CrossAisleInPlace(key, x, aisles)
    ensures CrossAislesRooted(crossAisles[key := x], aisles) && SubMap(crossAisles, crossAisles[key := x])
  {
  }

  lemma TypesStayRooted(c: Catalogue, t: LocationType)
    requires Rooted(c) && t.name != ""
    ensures TypesRooted(c.types[t.name := t])
    ensures SlotsRooted(c.slots, c.sites.Keys, c.zones.Keys, c.aisles.Keys, c.types.Keys + {t.name})
    ensures RulesRooted(c.rules, c.types.Keys + {t.name})
  {
    MoreParents(c, c.sites.Keys, c.zones.Keys, c.aisles.Keys, c.types.Keys + {t.name});
  }

  lemma AddTypeStep(c: Catalogue, name: string, role: Text<Role>, capacity: Capacity)
    requires Rooted(c) && RegisterLocationType(c, name, role, capacity).Ok?
    ensures var r := RegisterLocationType(c, name, role, capacity); Rooted(r.value) && Grows(c, r.value)
  {
    TypesStayRooted(c, NewLocationType(name, role, capacity).value);
  }

  lemma RulesStayRooted(rules: map<string, PlacementRule>, types: set<string>, r: PlacementRule)
    requires RulesRooted(rules, types) && RuleInPlace(r.id, r, types) && r.id !in rules
    ensures RulesRooted(rules[r.id := r], types) && SubMap(rules, rules[r.id := r])
  {
  }

  lemma AddRuleStep(c: Catalogue, id: string, locationType: string, effect: Text<Effect>, where: ZonePredicate)
    requires Rooted(c) && DefinePlacementRule(c, id, locationType, effect, where).Ok?
    ensures var r := DefinePlacementRule(c, id, locationType, effect, where); Rooted(r.value) && Grows(c, r.value)
  {
    RulesStayRooted(c.rules, c.types.Keys, NewPlacementRule(id, locationType, effect, where).value);
  }

  lemma AddSlotStep(c: Catalogue, code: Address, typeName: string, override: Capacity, dockFlow: Text<DockFlow>,
          activities: seq<Text<Activity>>)
    requires Rooted(c) && RegisterLocationSlot(c, code, typeName, override, dockFlow, activities).Ok?
    ensures var r := RegisterLocationSlot(c, code, typeName, override, dockFlow, activities);
            Rooted(r.value) && Grows(c, r.value)
  {
    var s := RegisterLocationSlot(c, code, typeName, override, dockFlow, activities).value.slots[code.String()];
    assert s.code == code && s.locationType == typeName;
    PutSlotRooted(c, s, LocationSlotRegistered(code.String()));
    PutSlotGrows(c, s, LocationSlotRegistered(code.String()));
  }

  lemma RetireSlotStep(c: Catalogue, code: Address)
    requires Rooted(c) && DecommissionLocationSlot(c, code).Ok?
    ensures var r := DecommissionLocationSlot(c, code); Rooted(r.value) && Grows(c, r.value)
  {
    var k := code.String();
    assert SlotInPlace(k, c.slots[k], c.sites.Keys, c.zones.Keys, c.aisles.Keys, c.types.Keys);
    PutSlotRooted(c, Decommission(c.slots[k]).value, LocationSlotDecommissioned(k));
    PutSlotGrows(c, Decommission(c.slots[k]).value, LocationSlotDecommissioned(k));
  }

  lemma PlacedInHistory(s: Slot, position: Point, dimensions: Dimensions, pick: Option<int>)
    requires SetGeometry(s, position, dimensions, pick).Ok?
    ensures SlotHistory(s, SetGeometry(s, position, dimensions, pick).value)
  {
  }

  lemma PlaceSlotStep(c: Catalogue, code: Address, position: Point, dimensions: Dimensions, pick: Option<int>)
    requires Rooted(c) && SetLocationGeometry(c, code, position, dimensions, pick).Ok?
    ensures var r := SetLocationGeometry(c, code, position, dimensions, pick); Rooted(r.value) && Grows(c, r.value)
  {
    var k := code.String();
    var s := SetGeometry(c.slots[k], position, dimensions, pick).value;
    assert SlotInPlace(k, c.slots[k], c.sites.Keys, c.zones.Keys, c.aisles.Keys, c.types.Keys);
    PlacedInHistory(c.slots[k], position, dimensions, pick);
    PutSlotRooted(c, s, LocationGeometryUpdated(k));
    PutSlotGrows(c, s, LocationGeometryUpdated(k));
  }

  lemma DrawAisleStep(c: Catalogue, aisleId: string, centreline: Segment)
    requires Rooted(c) && SetAisleGeometry(c, aisleId, centreline).Ok?
    ensures var r := SetAisleGeometry(c, aisleId, centreline); Rooted(r.value) && Grows(c, r.value)
  {
    assert AisleInPlace(aisleId, c.aisles[aisleId], c.zones.Keys);
    var a := SetCentreline(c.aisles[aisleId], centreline).value;
    PutAisleRooted(c, a, AisleGeometryUpdated(aisleId));
    PutAisleGrows(c, a, AisleGeometryUpdated(aisleId));
  }

  lemma SlotCommandKeeps(c: Catalogue, cmd: Command)
    requires Rooted(c) && Attempt(c, cmd).Ok?
    requires cmd.AddSlot? || cmd.RetireSlot? || cmd.PlaceSlot?
    ensures Rooted(Attempt(c, cmd).value) && Grows(c, Attempt(c, cmd).value)
  {
    match cmd {
      case AddSlot(code, typeName, override, dockFlow, activities) =>
        AddSlotStep(c, code, typeName, override, dockFlow, activities);
      case RetireSlot(code) =>
        RetireSlotStep(c, code);
      case PlaceSlot(code, position, dimensions, pick) =>
        PlaceSlotStep(c, code, position, dimensions, pick);
    }
  }

  lemma StructureCommandKeeps(c: Catalogue, cmd: Command)
    requires Rooted(c) && Attempt(c, cmd).Ok?
    requires cmd.AddSite? || cmd.AddZone? || cmd.AddAisle? || cmd.AddCrossAisle? || cmd.DrawAisle? || cmd.AddType?
            || cmd.AddRule?
    ensures Rooted(Attempt(c, cmd).value) && Grows(c, Attempt(c, cmd).value)
  {
    match cmd {
      case AddSite(code, name) =>
        AddSiteStep(c, code, name);
      case AddZone(site, area, zone, temperature, hazmat) =>
        AddZoneStep(c, site, area, zone, temperature, hazmat);
      case AddAisle(zoneId, aisle, hint, direction) =>
        AddAisleStep(c, zoneId, aisle, hint, direction);
      case AddCrossAisle(zoneId, a, b, bay) =>
        AddCrossAisleStep(c, zoneId, a, b, bay);
      case DrawAisle(aisleId, centreline) =>
        DrawAisleStep(c, aisleId, centreline);
      case AddType(name, role, capacity) =>
        AddTypeStep(c, name, role, capacity);
      case AddRule(id, locationType, effect, where) =>
        AddRuleStep(c, id, locationType, effect, where);
    }
  }

  /** Every single-aggregate use case keeps the chain of custody and only grows the map. */
  lemma SimpleStepKeeps(c: Catalogue, cmd: Command)
    requires Rooted(c) && !cmd.Import?
    ensures Rooted(Step(c, cmd)) && Grows(c, Step(c, cmd))
  {
    if Attempt(c, cmd).Err? {
      GrowsReflexive(c);
    } else if cmd.AddSlot? || cmd.RetireSlot? || cmd.PlaceSlot? {
      SlotCommandKeeps(c, cmd);
    } else {
      StructureCommandKeeps(c, cmd);
    }
  }

  // ---- an import is a run of the single-aggregate use cases ----

  ghost predicate Simple(cmds: seq<Command>) {
    forall k :: 0 <= k < |cmds| ==> !cmds[k].Import?
  }

  lemma {:induction false} RunAppend(c: Catalogue, a: seq<Command>, b: seq<Command>)
    ensures Run(c, a + b) == Run(Run(c, a), b)
  {
    if b == [] {
      assert a + b == a;
    } else {
      assert (a + b)[..|a + b| - 1] == a + b[..|b| - 1];
      RunAppend(c, a, b[..|b| - 1]);
    }
  }

  lemma RunOne(c: Catalogue, cmd: Command)
    ensures Run(c, [cmd]) == Step(c, cmd)
  {
    assert [cmd][..0] == [];
  }

  /** What earlier stages have secured when a stage begins. */
  ghost predicate StageReady(stage: nat, c: Catalogue, code: Address) {
    && (stage == ZONE_STAGE ==> code.site in c.sites && c.sites[code.site].status == Active)
    && (stage == AISLE_STAGE ==> code.ZoneId() in c.zones && c.zones[code.ZoneId()].status == Active)
  }

  lemma ZoneStageIsRun(c: Catalogue, code: Address, row: ImportRow)
    requires code.site in c.sites && c.sites[code.site].status == Active && code.ZoneId() !in c.zones
    ensures Step(c, AddZone(code.site, code.area, code.zone, row.temperature, row.hazmat))
            == if EnsureZone(c, code, row).Ok? then EnsureZone(c, code, row).value else c
  {
  }

  lemma AisleStageIsRun(c: Catalogue, code: Address, row: ImportRow)
    requires code.ZoneId() in c.zones && c.zones[code.ZoneId()].status == Active && code.AisleId() !in c.aisles
    ensures Step(c, AddAisle(code.ZoneId(), code.aisle, row.sequenceHint,
                             if row.direction.Blank? then Known(TwoWay) else row.direction))
            == if EnsureAisle(c, code, row).Ok? then EnsureAisle(c, code, row).value else c
  {
  }

  lemma GeometryStageIsRun(c: Catalogue, code: Address, row: ImportRow)
    requires row.xM.Some? && RowGeometry(c, code, row).Ok?
    ensures Step(c, PlaceSlot(code, Point(row.xM.value, Deref(row.yM), Deref(row.zM)),
                              Dimensions(Deref(row.widthM), Deref(row.depthM), Deref(row.heightM)), row.pickSequence))
            == RowGeometry(c, code, row).value
  {
  }

  /** A parent's stage that succeeds is at most one use case. */
  lemma ParentStageIsRun(stage: nat, c: Catalogue, code: Address, row: ImportRow) returns (cmds: seq<Command>)
    requires stage <= AISLE_STAGE && StageReady(stage, c, code) && RunStage(stage, c, code, row).Ok?
    ensures Simple(cmds) && Run(c, cmds) == RunStage(stage, c, code, row).value
  {
    cmds := [];
    if stage == SITE_STAGE && code.site !in c.sites {
      cmds := [AddSite(code.site, if row.siteName == "" then code.site else row.siteName)];
    } else if stage == ZONE_STAGE && code.ZoneId() !in c.zones {
      cmds := [AddZone(code.site, code.area, code.zone, row.temperature, row.hazmat)];
      ZoneStageIsRun(c, code, row);
    } else if stage == AISLE_STAGE && code.AisleId() !in c.aisles {
      cmds := [AddAisle(code.ZoneId(), code.aisle, row.sequenceHint,
          if row.direction.Blank? then Known(TwoWay) else row.direction)];
      AisleStageIsRun(c, code, row);
    }
    if cmds != [] { RunOne(c, cmds[0]); }
  }

  /** And so is a stage of the slot itself. */
  lemma SlotStageIsRun(stage: nat, c: Catalogue, code: Address, row: ImportRow) returns (cmds: seq<Command>)
    requires AISLE_STAGE < stage <= GEOMETRY_STAGE && RunStage(stage, c, code, row).Ok?
    ensures Simple(cmds) && Run(c, cmds) == RunStage(stage, c, code, row).value
  {
    cmds := [];
    if stage == SLOT_STAGE {
      cmds := [AddSlot(code, row.locationType, RowCapacity(row).value, row.dockFlow, row.activities)];
    } else if row.xM.Some? {
      cmds := [PlaceSlot(code, Point(row.xM.value, Deref(row.yM), Deref(row.zM)),
                         Dimensions(Deref(row.widthM), Deref(row.depthM), Deref(row.heightM)), row.pickSequence)];
      GeometryStageIsRun(c, code, row);
    }
    if cmds != [] { RunOne(c, cmds[0]); }
  }

  lemma SiteIsSecured(c: Catalogue, code: Address, row: ImportRow)
    requires EnsureSite(c, code, row).Ok?
    ensures StageReady(ZONE_STAGE, EnsureSite(c, code, row).value, code)
  {
  }

  lemma ZoneIsSecured(c: Catalogue, code: Address, row: ImportRow)
    requires EnsureZone(c, code, row).Ok?
    ensures StageReady(AISLE_STAGE, EnsureZone(c, code, row).value, code)
  {
  }

  lemma StageSecures(stage: nat, c: Catalogue, code: Address, row: ImportRow)
    requires stage <= GEOMETRY_STAGE && RunStage(stage, c, code, row).Ok?
    ensures StageReady(stage + 1, RunStage(stage, c, code, row).value, code)
  {
    if stage == SITE_STAGE {
      SiteIsSecured(c, code, row);
    } else if stage == ZONE_STAGE {
      ZoneIsSecured(c, code, row);
    }
  }

  /** A stage that succeeds is at most one single-aggregate use case. */
  lemma StageIsRun(stage: nat, c: Catalogue, code: Address, row: ImportRow) returns (cmds: seq<Command>)
    requires stage <= GEOMETRY_STAGE && StageReady(stage, c, code) && RunStage(stage, c, code, row).Ok?
    ensures Simple(cmds) && Run(c, cmds) == RunStage(stage, c, code, row).value
    ensures StageReady(stage + 1, RunStage(stage, c, code, row).value, code)
  {
    StageSecures(stage, c, code, row);
    if stage <= AISLE_STAGE {
      cmds := ParentStageIsRun(stage, c, code, row);
    } else {
      cmds := SlotStageIsRun(stage, c, code, row);
    }
  }

  lemma {:induction false} StagesAreRun(stage: nat, c: Catalogue, code: Address, row: ImportRow)
      returns (cmds: seq<Command>)
    requires stage <= GEOMETRY_STAGE && StageReady(stage, c, code)
    ensures Simple(cmds) && Run(c, cmds) == ImportFrom(stage, c, code, row).after
    decreases GEOMETRY_STAGE - stage
  {
    cmds := [];
    var r := RunStage(stage, c, code, row);
    if r.Ok? {
      cmds := StageIsRun(stage, c, code, row);
      if stage < GEOMETRY_STAGE {
        var rest := StagesAreRun(stage + 1, r.value, code, row);
        RunAppend(c, cmds, rest);
        cmds := cmds + rest;
      }
    }
  }

  /** Whatever a row of an import leaves behind, registering the same parts one by one leaves too. */
  lemma RowIsRun(c: Catalogue, row: ImportRow) returns (cmds: seq<Command>)
    ensures Simple(cmds) && Run(c, cmds) == ImportOne(c, row).after
  {
    cmds := [];
    var parsed := NewLocationCode(row.segments);
    if parsed.Code? {
      cmds := StagesAreRun(SITE_STAGE, c, parsed.code, row);
    }
  }

  lemma {:induction false} ImportIsRun(c: Catalogue, rows: seq<ImportRow>, k: nat) returns (cmds: seq<Command>)
    requires k <= |rows|
    ensures Simple(cmds) && Run(c, cmds) == ImportFirst(c, rows, k)
  {
    cmds := [];
    if k > 0 {
      cmds := ImportIsRun(c, rows, k - 1);
      var rest := RowIsRun(ImportFirst(c, rows, k - 1), rows[k - 1]);
      RunAppend(c, cmds, rest);
      cmds := cmds + rest;
    }
  }

  lemma {:induction false} SimpleRunKeeps(c: Catalogue, cmds: seq<Command>)
    requires Rooted(c) && Simple(cmds)
    ensures Rooted(Run(c, cmds)) && Grows(c, Run(c, cmds))
  {
    GrowsReflexive(c);
    if cmds != [] {
      var before, last := Run(c, cmds[..|cmds| - 1]), cmds[|cmds| - 1];
      SimpleRunKeeps(c, cmds[..|cmds| - 1]);
      SimpleStepKeeps(before, last);
      GrowsTransitive(c, before, Step(before, last));
    }
  }

  /** Every use case, succeeding or not, keeps the chain of custody and only grows the map. */
  lemma StepKeeps(c: Catalogue, cmd: Command)
    requires Rooted(c)
    ensures Rooted(Step(c, cmd)) && Grows(c, Step(c, cmd))
  {
    if !cmd.Import? {
      SimpleStepKeeps(c, cmd);
    } else if cmd.rows == [] {
      GrowsReflexive(c);
    } else {
      var cmds := ImportIsRun(c, cmd.rows, |cmd.rows|);
      SimpleRunKeeps(c, cmds);
    }
  }

  /** The chain of custody holds after every run, and every run only grows the map. */
  lemma {:induction false} RunKeeps(c: Catalogue, cmds: seq<Command>)
    requires Rooted(c)
    ensures Rooted(Run(c, cmds)) && Grows(c, Run(c, cmds))
  {
    GrowsReflexive(c);
    if cmds != [] {
      var before := Run(c, cmds[..|cmds| - 1]);
      RunKeeps(c, cmds[..|cmds| - 1]);
      StepKeeps(before, cmds[|cmds| - 1]);
      GrowsTransitive(c, before, Step(before, cmds[|cmds| - 1]));
    }
  }
}
