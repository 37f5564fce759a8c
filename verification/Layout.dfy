/** The warehouse map: its aggregates, their constructors, and the stored catalogue. */
module Layout {
  import opened Strings
  import opened LocationCodes
  import opened Placement

  datatype Status = Active | UnderMaintenance | Decommissioned

  datatype Direction = OneWay | TwoWay

  datatype Error =
    | SiteNotFound | ZoneNotFound | AisleNotFound | LocationSlotNotFound | LocationTypeNotFound
    | SiteNotActive | ZoneNotActive | AisleNotActive
    | DuplicateSite | DuplicateZone | DuplicateAisle | DuplicateLocationType | DuplicatePlacementRule
    | DuplicateLocationCode | DuplicateCrossAisle | CrossAisleAisleMismatch | NoRouteBetweenZones | EmptyImport
    | EmptyCode | InvalidCode | EmptyName | UnknownTemperatureClass | UnknownDirection | NegativeSequenceHint
    | SameAisle | EmptyBay | EmptyRuleId | EmptyRuleLocationType | UnknownEffect | EmptyPredicate
    | UnknownLocationRole | InvalidCapacity | UnknownDockFlow | UnknownActivity | DockFlowRequired
    | ActivitiesRequired | FunctionalAttributesNotAllowed | ZoneMismatch | PlacementRuleViolated
    | AlreadyDecommissioned | SlotDecommissioned | AisleIsDecommissioned | InvalidZ | InvalidDimensions
    | NegativePickSequence | NotASegment | MalformedCode(error: CodeError)

  datatype Result<+T> = Ok(value: T) | Err(error: Error) {
    predicate IsFailure() { Err? }
    function PropagateFailure<U>(): Result<U>
      requires Err?
    {
      Err(error)
    }
    function Extract(): T
      requires Ok?
    {
      value
    }
  }

  // ---- geometry ----

  datatype Point = Point(x: real, y: real, z: real)

  datatype Dimensions = Dimensions(width: real, depth: real, height: real)

  /** A straight centreline. `length` is the square root of its squared extent. */
  datatype Segment = Segment(start: Point, end: Point, length: real) {
    function ExtentSquared(): real {
      Square(end.x - start.x) + Square(end.y - start.y) + Square(end.z - start.z)
    }

    predicate Valid() {
      start != end && length >= 0.0 && Square(length) == ExtentSquared()
    }
  }

  /** A centreline between two different points has positive length. */
  lemma SegmentHasLength(s: Segment)
    requires s.Valid()
    ensures s.length > 0.0
  {
    SquareSign(s.end.x - s.start.x);
    SquareSign(s.end.y - s.start.y);
    SquareSign(s.end.z - s.start.z);
    SquareSign(s.length);
  }

  function Times(a: real, b: real): real {
    a * b
  }

  function Square(d: real): real {
    Times(d, d)
  }

  lemma SquareSign(d: real)
    ensures Square(d) >= 0.0 && (Square(d) > 0.0 <==> d != 0.0)
  {
    if d != 0.0 {
      SameSignProduct(d, d);
    }
  }

  lemma SameSignProduct(a: real, b: real)
    requires (a > 0.0 && b > 0.0) || (a < 0.0 && b < 0.0)
    ensures Times(a, b) > 0.0
  {
  }

  function NewPoint(x: real, y: real, z: real): Result<Point> {
    if z < 0.0 then Err(InvalidZ) else Ok(Point(x, y, z))
  }

  function NewDimensions(width: real, depth: real, height: real): Result<Dimensions> {
    if width <= 0.0 || depth <= 0.0 || height <= 0.0 then Err(InvalidDimensions)
    else Ok(Dimensions(width, depth, height))
  }

  // ---- aggregates ----

  datatype Site = Site(code: string, name: string, status: Status)

  datatype Zone = Zone(site: string, area: string, zone: string, temperature: TemperatureClass, hazmat: bool,
                       status: Status, bayPitchM: real)
  {
    function Id(): string {
      Join([site, area, zone])
    }

    /** The pitch between adjacent bays, with the default when none is set. */
    function BayPitchM(): (p: real)
      ensures p > 0.0
      ensures bayPitchM > 0.0 ==> p == bayPitchM
      ensures bayPitchM <= 0.0 ==> p == 1.2
    {
      if bayPitchM <= 0.0 then 1.2 else bayPitchM
    }

    /** What a placement rule sees of the zone. */
    function Attributes(): ZoneAttributes {
      ZoneAttributes(Id(), zone, temperature, hazmat)
    }
  }

  datatype Aisle = Aisle(zoneId: string, code: string, sequenceHint: int, direction: Direction, status: Status,
                         centreline: Option<Segment>)
  {
    function Id(): string {
      zoneId + "-" + code
    }
  }

  datatype CrossAisle = CrossAisle(zoneId: string, fromAisle: string, toAisle: string, atBay: string, active: bool)

  /** A cross-aisle is the same connection whichever end is named first. */
  datatype CrossAisleKey = CrossAisleKey(zoneId: string, a: string, b: string, atBay: string)

  function NewCrossAisleKey(zoneId: string, fromAisle: string, toAisle: string, atBay: string): CrossAisleKey {
    if Below(toAisle, fromAisle) then CrossAisleKey(zoneId, toAisle, fromAisle, atBay)
    else CrossAisleKey(zoneId, fromAisle, toAisle, atBay)
  }

  /** Two pairs of aisles share a key exactly when they are the same pair in some order. */
  lemma CrossAisleKeyIsSymmetric(zoneId: string, a: string, b: string, c: string, d: string, atBay: string)
    ensures NewCrossAisleKey(zoneId, a, b, atBay) == NewCrossAisleKey(zoneId, c, d, atBay) <==>
            (a == c && b == d) || (a == d && b == c)
  {
    BelowTotal(a, b);
    BelowTotal(c, d);
    if Below(a, b) && Below(b, a) { BelowTransitive(a, b, a); }
    if Below(c, d) && Below(d, c) { BelowTransitive(c, d, c); }
    BelowIrreflexive(a);
    BelowIrreflexive(b);
  }

  datatype Role = Storage | Dock | Yard | WorkCenter | Drop | Staging | QC | Consolidation | Shipping {
    predicate RequiresCapacity() {
      this == Storage || this == Staging || this == Drop || this == Consolidation
    }
  }

  datatype Capacity = Capacity(maxWeightKg: real, maxVolumeM3: real) {
    predicate IsZero() {
      maxWeightKg == 0.0 && maxVolumeM3 == 0.0
    }
  }

  const NO_CAPACITY := Capacity(0.0, 0.0)

  function NewCapacity(maxWeightKg: real, maxVolumeM3: real): Result<Capacity> {
    if maxWeightKg <= 0.0 || maxVolumeM3 <= 0.0 then Err(InvalidCapacity) else Ok(Capacity(maxWeightKg, maxVolumeM3))
  }

  datatype LocationType = LocationType(name: string, role: Role, defaultCapacity: Capacity)

  datatype DockFlow = Inbound | Outbound | Both

  datatype Activity = Pack | Sort | Inspect | ValueAdded | Deconsolidate | Receive | Kit

  /** A dock's flow or a work centre's activities; both absent for every other role. */
  datatype Functional = Functional(dockFlow: Option<DockFlow>, activities: set<Activity>)

  function ParseActivities(names: seq<Text<Activity>>): (r: Result<set<Activity>>)
    ensures r.Ok? <==> forall k :: 0 <= k < |names| ==> names[k].Known?
    ensures r.Ok? ==> forall a :: a in r.value <==> Known(a) in names
  {
    if names == [] then
      Ok({})
    else
      var front :- ParseActivities(names[..|names| - 1]);
      if names[|names| - 1].Known? then Ok(front + {names[|names| - 1].value}) else Err(UnknownActivity)
  }

  /** A dock must have a flow, a work centre activities, and neither may have the other's; no other role has
      either. */
  predicate FitsRole(role: Role, dockFlow: Text<DockFlow>, activityNames: seq<Text<Activity>>) {
    && (forall k :: 0 <= k < |activityNames| ==> activityNames[k].Known?)
    && (dockFlow.Known? <==> role == Dock) && !dockFlow.Unrecognised?
    && (activityNames != [] <==> role == WorkCenter)
  }

  function FunctionalAttributesFor(role: Role, dockFlow: Text<DockFlow>,
          activityNames: seq<Text<Activity>>): (r: Result<Functional>)
    ensures r.Ok? <==> FitsRole(role, dockFlow, activityNames)
    ensures r.Ok? ==> r.value.dockFlow == if role == Dock then Some(dockFlow.value) else None
    ensures r.Ok? ==> forall a :: a in r.value.activities <==> role == WorkCenter && Known(a) in activityNames
  {
    if dockFlow.Unrecognised? then
      Err(UnknownDockFlow)
    else
      var activities :- ParseActivities(activityNames);
      if role == Dock then
        if dockFlow.Blank? then Err(DockFlowRequired)
        else if activityNames != [] then Err(FunctionalAttributesNotAllowed)
        else Ok(Functional(Some(dockFlow.value), {}))
      else if role == WorkCenter then
        if dockFlow.Known? then Err(FunctionalAttributesNotAllowed)
        else if activityNames == [] then Err(ActivitiesRequired)
        else Ok(Functional(None, activities))
      else if dockFlow.Known? || activityNames != [] then
        Err(FunctionalAttributesNotAllowed)
      else
        Ok(Functional(None, {}))
  }

  datatype Slot = Slot(code: LocationCode, locationType: string, role: Role, functional: Functional, capacity: Capacity,
                       status: Status, position: Option<Point>, dimensions: Option<Dimensions>,
                       pickSequence: Option<int>)

  // ---- constructors and updates ----

  predicate CodeChars(s: string) {
    forall k :: 0 <= k < |s| ==> IsCodeChar(s[k])
  }

  function NewSite(code: string, name: string): Result<Site> {
    if code == "" then Err(EmptyCode)
    else if !CodeChars(code) then Err(InvalidCode)
    else if name == "" then Err(EmptyName)
    else Ok(Site(code, name, Active))
  }

  function NewZone(site: string, area: string, zone: string, temperature: Text<TemperatureClass>,
          hazmat: bool): Result<Zone>
  {
    if site == "" || area == "" || zone == "" then Err(EmptyCode)
    else if !CodeChars(site) || !CodeChars(area) || !CodeChars(zone) then Err(InvalidCode)
    else if !temperature.Known? then Err(UnknownTemperatureClass)
    else Ok(Zone(site, area, zone, temperature.value, hazmat, Active, 0.0))
  }

  function NewAisle(zoneId: string, code: string, sequenceHint: int, direction: Text<Direction>): Result<Aisle> {
    if zoneId == "" || code == "" then Err(EmptyCode)
    else if !CodeChars(code) then Err(InvalidCode)
    else if sequenceHint < 0 then Err(NegativeSequenceHint)
    else if !direction.Known? then Err(UnknownDirection)
    else Ok(Aisle(zoneId, code, sequenceHint, direction.value, Active, None))
  }

  function NewCrossAisle(zoneId: string, fromAisle: string, toAisle: string, atBay: string): Result<CrossAisle> {
    if zoneId == "" || fromAisle == "" || toAisle == "" then Err(EmptyCode)
    else if fromAisle == toAisle then Err(SameAisle)
    else if atBay == "" then Err(EmptyBay)
    else Ok(CrossAisle(zoneId, fromAisle, toAisle, atBay, true))
  }

  function NewPlacementRule(id: string, locationType: string, effect: Text<Effect>,
          where: ZonePredicate): Result<PlacementRule>
  {
    if id == "" then Err(EmptyRuleId)
    else if locationType == "" then Err(EmptyRuleLocationType)
    else if !effect.Known? then Err(UnknownEffect)
    else if where.Empty() then Err(EmptyPredicate)
    else Ok(PlacementRule(id, locationType, effect.value, where))
  }

  function NewLocationType(name: string, role: Text<Role>, defaultCapacity: Capacity): Result<LocationType> {
    if name == "" then Err(EmptyName)
    else if !role.Known? then Err(UnknownLocationRole)
    else if role.value.RequiresCapacity() && defaultCapacity.IsZero() then Err(InvalidCapacity)
    else Ok(LocationType(name, role.value, defaultCapacity))
  }

  /** A new slot, refused when its kind may not stand in the zone. `legal` is the verdict of the
      placement rules. */
  function NewLocationSlot(code: LocationCode, t: LocationType, override: Capacity, functional: Functional,
                           z: ZoneAttributes, legal: bool): Result<Slot>
  {
    if t.name == "" then Err(LocationTypeNotFound)
    else if z.zoneId != code.ZoneId() then Err(ZoneMismatch)
    else
      var capacity := if override.IsZero() then t.defaultCapacity else override;
      if t.role.RequiresCapacity() && capacity.IsZero() then Err(InvalidCapacity)
      else if !legal then Err(PlacementRuleViolated)
      else Ok(Slot(code, t.name, t.role, functional, capacity, Active, None, None, None))
  }

  function Decommission(s: Slot): Result<Slot> {
    if s.status == Decommissioned then Err(AlreadyDecommissioned) else Ok(s.(status := Decommissioned))
  }

  function SetGeometry(s: Slot, position: Point, dimensions: Dimensions, pickSequence: Option<int>): Result<Slot> {
    if s.status == Decommissioned then Err(SlotDecommissioned)
    else if pickSequence.Some? && pickSequence.value < 0 then Err(NegativePickSequence)
    else Ok(s.(position := Some(position), dimensions := Some(dimensions),
               pickSequence := if pickSequence.Some? then pickSequence else s.pickSequence))
  }

  function SetCentreline(a: Aisle, centreline: Segment): Result<Aisle> {
    if a.status == Decommissioned then Err(AisleIsDecommissioned)
    else if !centreline.Valid() then Err(NotASegment)
    else Ok(a.(centreline := Some(centreline)))
  }

  // ---- why something is refused: always the first of its checks that fails ----

  lemma SiteRefused(code: string, name: string)
    ensures match NewSite(code, name)
            case Ok(_) => ValidSegment(code) && name != ""
            case Err(e) =>
              || (e == EmptyCode && code == "")
              || (e == InvalidCode && code != "" && !ValidSegment(code))
              || (e == EmptyName && ValidSegment(code) && name == "")
  {
  }

  lemma ZoneRefused(site: string, area: string, zone: string, temperature: Text<TemperatureClass>, hazmat: bool)
    ensures match NewZone(site, area, zone, temperature, hazmat)
            case Ok(_) => ValidSegment(site) && ValidSegment(area) && ValidSegment(zone) && temperature.Known?
            case Err(e) =>
              || (e == EmptyCode && "" in {site, area, zone})
              || (e == InvalidCode && "" !in {site, area, zone}
                  && !(ValidSegment(site) && ValidSegment(area) && ValidSegment(zone)))
              || (e == UnknownTemperatureClass && ValidSegment(site) && ValidSegment(area) && ValidSegment(zone)
                  && !temperature.Known?)
  {
  }

  lemma AisleRefused(zoneId: string, code: string, sequenceHint: int, direction: Text<Direction>)
    ensures match NewAisle(zoneId, code, sequenceHint, direction)
            case Ok(_) => zoneId != "" && ValidSegment(code) && sequenceHint >= 0 && direction.Known?
            case Err(e) =>
              || (e == EmptyCode && (zoneId == "" || code == ""))
              || (e == InvalidCode && zoneId != "" && code != "" && !ValidSegment(code))
              || (e == NegativeSequenceHint && zoneId != "" && ValidSegment(code) && sequenceHint < 0)
              || (e == UnknownDirection && zoneId != "" && ValidSegment(code) && sequenceHint >= 0 && !direction.Known?)
  {
  }

  lemma CrossAisleRefused(zoneId: string, fromAisle: string, toAisle: string, atBay: string)
    ensures match NewCrossAisle(zoneId, fromAisle, toAisle, atBay)
            case Ok(_) => "" !in {zoneId, fromAisle, toAisle, atBay} && fromAisle != toAisle
            case Err(e) =>
              || (e == EmptyCode && "" in {zoneId, fromAisle, toAisle})
              || (e == SameAisle && "" !in {zoneId, fromAisle, toAisle} && fromAisle == toAisle)
              || (e == EmptyBay && "" !in {zoneId, fromAisle, toAisle} && fromAisle != toAisle && atBay == "")
  {
  }

  lemma RuleRefused(id: string, locationType: string, effect: Text<Effect>, where: ZonePredicate)
    ensures match NewPlacementRule(id, locationType, effect, where)
            case Ok(_) => id != "" && locationType != "" && effect.Known? && where != ZonePredicate("", None, None)
            case Err(e) =>
              || (e == EmptyRuleId && id == "")
              || (e == EmptyRuleLocationType && id != "" && locationType == "")
              || (e == UnknownEffect && id != "" && locationType != "" && !effect.Known?)
              || (e == EmptyPredicate && id != "" && locationType != "" && effect.Known?
                  && where == ZonePredicate("", None, None))
  {
  }

  lemma TypeRefused(name: string, role: Text<Role>, capacity: Capacity)
    ensures match NewLocationType(name, role, capacity)
            case Ok(_) => name != "" && role.Known?
            case Err(e) =>
              || (e == EmptyName && name == "")
              || (e == UnknownLocationRole && name != "" && !role.Known?)
              || (e == InvalidCapacity && name != "" && role.Known? && capacity == Capacity(0.0, 0.0)
                  && role.value in {Storage, Staging, Drop, Consolidation})
  {
  }

  lemma FunctionalRefused(role: Role, dockFlow: Text<DockFlow>, activityNames: seq<Text<Activity>>)
    ensures match FunctionalAttributesFor(role, dockFlow, activityNames)
            case Ok(_) => FitsRole(role, dockFlow, activityNames)
            case Err(e) =>
              var known := forall k :: 0 <= k < |activityNames| ==> activityNames[k].Known?;
              || (e == UnknownDockFlow && dockFlow.Unrecognised?)
              || (e == UnknownActivity && !dockFlow.Unrecognised? && !known)
              || (e == DockFlowRequired && known && role == Dock && dockFlow.Blank?)
              || (e == ActivitiesRequired && role == WorkCenter && dockFlow.Blank? && activityNames == [])
              || (e == FunctionalAttributesNotAllowed && known && !dockFlow.Unrecognised?
                  && ((role != Dock && dockFlow.Known?) || (role != WorkCenter && activityNames != [])))
  {
    ActivitiesRefused(activityNames);
  }

  lemma {:induction false} ActivitiesRefused(names: seq<Text<Activity>>)
    ensures ParseActivities(names).Err? ==> ParseActivities(names).error == UnknownActivity
  {
    if names != [] { ActivitiesRefused(names[..|names| - 1]); }
  }

  lemma SlotRefused(code: LocationCode, t: LocationType, override: Capacity, functional: Functional, z: ZoneAttributes,
                    legal: bool)
    ensures match NewLocationSlot(code, t, override, functional, z, legal)
            case Ok(_) => legal
            case Err(e) =>
              || (e == LocationTypeNotFound && t.name == "")
              || (e == ZoneMismatch && t.name != "" && z.zoneId != code.ZoneId())
              || (e == InvalidCapacity && t.role in {Storage, Staging, Drop, Consolidation} && z.zoneId == code.ZoneId()
                  && override == Capacity(0.0, 0.0) && t.defaultCapacity == Capacity(0.0, 0.0))
              || (e == PlacementRuleViolated && t.name != "" && z.zoneId == code.ZoneId() && !legal)
  {
  }

  lemma GeometryRefused(s: Slot, position: Point, dimensions: Dimensions, pickSequence: Option<int>, x: real, y: real,
                        z: real)
    ensures match SetGeometry(s, position, dimensions, pickSequence)
            case Ok(_) => s.status != Decommissioned && (pickSequence.Some? ==> pickSequence.value >= 0)
            case Err(e) =>
              || (e == SlotDecommissioned && s.status == Decommissioned)
              || (e == NegativePickSequence && s.status != Decommissioned
                  && pickSequence.Some? && pickSequence.value < 0)
    ensures NewPoint(x, y, z) == if z >= 0.0 then Ok(Point(x, y, z)) else Err(InvalidZ)
    ensures NewDimensions(x, y, z)
            == if x > 0.0 && y > 0.0 && z > 0.0 then Ok(Dimensions(x, y, z)) else Err(InvalidDimensions)
    ensures NewCapacity(x, y) == if x > 0.0 && y > 0.0 then Ok(Capacity(x, y)) else Err(InvalidCapacity)
  {
  }

  // ---- the stored catalogue ----

  datatype Event =
    | SiteRegistered(site: string)
    | ZoneRegistered(zoneId: string, site: string)
    | AisleRegistered(aisleId: string, zoneId: string)
    | CrossAisleRegistered(key: CrossAisleKey)
    | LocationTypeRegistered(name: string)
    | PlacementRuleDefined(ruleId: string)
    | LocationSlotRegistered(code: string)
    | LocationSlotDecommissioned(code: string)
    | AisleGeometryUpdated(aisleId: string)
    | LocationGeometryUpdated(code: string)
    | FacilityLayoutImported(submitted: nat, imported: nat, rejected: nat)

  datatype Kind =
    | SiteKind | ZoneKind | AisleKind | CrossAisleKind | TypeKind | RuleKind | SlotKind | RetireKind
    | OtherKind

  function KindOf(e: Event): Kind {
    match e
    case SiteRegistered(_) => SiteKind
    case ZoneRegistered(_, _) => ZoneKind
    case AisleRegistered(_, _) => AisleKind
    case CrossAisleRegistered(_) => CrossAisleKind
    case LocationTypeRegistered(_) => TypeKind
    case PlacementRuleDefined(_) => RuleKind
    case LocationSlotRegistered(_) => SlotKind
    case LocationSlotDecommissioned(_) => RetireKind
    case _ => OtherKind
  }

  /** How many of the events are of a kind. */
  function Count(events: seq<Event>, kind: Kind): nat {
    |set i | 0 <= i < |events| && KindOf(events[i]) == kind|
  }

  lemma CountOneMore(events: seq<Event>, e: Event, kind: Kind)
    ensures Count(events + [e], kind) == Count(events, kind) + if KindOf(e) == kind then 1 else 0
  {
    var before := set i | 0 <= i < |events| && KindOf(events[i]) == kind;
    var after := set i | 0 <= i < |events + [e]| && KindOf((events + [e])[i]) == kind;
    assert after == before + if KindOf(e) == kind then {|events|} else {};
  }

  lemma CountNothing(events: seq<Event>, kind: Kind)
    ensures events == [] ==> Count(events, kind) == 0
  {
    var ofKind := set i | 0 <= i < |events| && KindOf(events[i]) == kind;
    assert forall i :: i in ofKind ==> i < |events|;
    assert events == [] ==> ofKind == {};
  }

  /** One map per repository, and the events published so far. */
  datatype Catalogue = Catalogue(
    sites: map<string, Site>,
    zones: map<string, Zone>,
    aisles: map<string, Aisle>,
    crossAisles: map<CrossAisleKey, CrossAisle>,
    slots: map<string, Slot>,
    types: map<string, LocationType>,
    rules: map<string, PlacementRule>,
    events: seq<Event>)

  const EMPTY_CATALOGUE := Catalogue(map[], map[], map[], map[], map[], map[], map[], [])
}
