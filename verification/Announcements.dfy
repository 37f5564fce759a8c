/** Where in the warehouse each thing is stored, and that its announcements say so: for every site and zone,
    as many things are stored there as events announced them there. */
module Announcements {
  import opened LocationCodes
  import opened Placement
  import opened Layout
  import opened Catalogues
  import opened CatalogueLaws

  /** What is stored of a kind under a scope: a site under its own code, its zones under it too, a zone's
      aisles and slots under the zone's id, and definitions under the empty scope. */
  function StoredIn(c: Catalogue, kind: Kind, scope: string): set<string> {
    match kind
    case SiteKind => set k | k in c.sites && k == scope
    case ZoneKind => ZonesUnder(c.zones, scope)
    case AisleKind => AislesUnder(c.aisles, scope)
    case TypeKind => if scope == "" then c.types.Keys else {}
    case RuleKind => if scope == "" then c.rules.Keys else {}
    case SlotKind => SlotsUnder(c.slots, scope)
    case RetireKind => RetiredUnder(c.slots, scope)
    case _ => {}
  }

  function ZonesUnder(zones: map<string, Zone>, site: string): set<string> {
    set k | k in zones && zones[k].site == site
  }

  function AislesUnder(aisles: map<string, Aisle>, zoneId: string): set<string> {
    set k | k in aisles && aisles[k].zoneId == zoneId
  }

  function SlotsUnder(slots: map<string, Slot>, zoneId: string): set<string> {
    set k | k in slots && slots[k].code.ZoneId() == zoneId
  }

  function RetiredUnder(slots: map<string, Slot>, zoneId: string): set<string> {
    set k | k in slots && slots[k].code.ZoneId() == zoneId && slots[k].status == Decommissioned
  }

  lemma OneMoreZone(zones: map<string, Zone>, k: string, z: Zone, site: string)
    requires k !in zones
    ensures ZonesUnder(zones[k := z], site) == ZonesUnder(zones, site) + if z.site == site then {k} else {}
  {
  }

  lemma OneMoreAisle(aisles: map<string, Aisle>, k: string, a: Aisle, zoneId: string)
    requires k in aisles ==> aisles[k].zoneId == a.zoneId
    ensures AislesUnder(aisles[k := a], zoneId) == AislesUnder(aisles, zoneId) + if a.zoneId == zoneId then {k} else {}
  {
  }

  lemma OneMoreSlot(slots: map<string, Slot>, k: string, s: Slot, zoneId: string)
    requires k in slots ==> slots[k].code == s.code
    requires k in slots && slots[k].status == Decommissioned ==> s.status == Decommissioned
    ensures SlotsUnder(slots[k := s], zoneId) == SlotsUnder(slots, zoneId)
            + if s.code.ZoneId() == zoneId then {k} else {}
    ensures RetiredUnder(slots[k := s], zoneId) == RetiredUnder(slots, zoneId)
            + if s.code.ZoneId() == zoneId && s.status == Decommissioned then {k} else {}
  {
  }

  /** The event announces something of a kind under a scope. */
  predicate Concerns(e: Event, kind: Kind, scope: string) {
    match kind
    case SiteKind => e == SiteRegistered(scope)
    case ZoneKind => e.ZoneRegistered? && e.site == scope
    case AisleKind => e.AisleRegistered? && e.zoneId == scope
    case TypeKind => e.LocationTypeRegistered? && scope == ""
    case RuleKind => e.PlacementRuleDefined? && scope == ""
    case SlotKind => e.LocationSlotRegistered? && ZoneOf(e.code) == scope
    case RetireKind => e.LocationSlotDecommissioned? && ZoneOf(e.code) == scope
    case _ => false
  }

  function CountIn(events: seq<Event>, kind: Kind, scope: string): nat {
    if events == [] then 0
    else
      CountIn(events[..|events| - 1], kind, scope) + if Concerns(events[|events| - 1], kind, scope) then 1 else 0
  }

  ghost predicate BalancedIn(c: Catalogue, c': Catalogue, kind: Kind, scope: string) {
    |StoredIn(c', kind, scope)| - |StoredIn(c, kind, scope)|
    == CountIn(c'.events, kind, scope) - CountIn(c.events, kind, scope)
  }

  /** One event, and either it concerns the scope and one thing is new there, or neither. */
  lemma OneAnnouncedIn(c: Catalogue, c': Catalogue, e: Event, k: string, kind: Kind, scope: string)
    requires c'.events == c.events + [e]
    requires StoredIn(c', kind, scope) == StoredIn(c, kind, scope) + if Concerns(e, kind, scope) then {k} else {}
    requires Concerns(e, kind, scope) ==> k !in StoredIn(c, kind, scope)
    ensures BalancedIn(c, c', kind, scope)
  {
    assert c'.events[..|c'.events| - 1] == c.events;
  }

  /** Nothing of the kind is touched, and the event is of another kind. */
  lemma AnotherKind(c: Catalogue, c': Catalogue, e: Event, kind: Kind, scope: string)
    requires c'.events == c.events + [e] && !Concerns(e, kind, scope)
    requires StoredIn(c', kind, scope) == StoredIn(c, kind, scope)
    ensures BalancedIn(c, c', kind, scope)
  {
    OneAnnouncedIn(c, c', e, "", kind, scope);
  }

  lemma SiteIn(c: Catalogue, k: string, s: Site, kind: Kind, scope: string)
    requires k !in c.sites
    ensures BalancedIn(c, c.(sites := c.sites[k := s], events := c.events + [SiteRegistered(k)]), kind, scope)
  {
    var c' := c.(sites := c.sites[k := s], events := c.events + [SiteRegistered(k)]);
    if kind == SiteKind {
      OneAnnouncedIn(c, c', SiteRegistered(k), k, kind, scope);
    } else {
      AnotherKind(c, c', SiteRegistered(k), kind, scope);
    }
  }

  lemma ZoneIn(c: Catalogue, k: string, z: Zone, kind: Kind, scope: string)
    requires k !in c.zones
    ensures BalancedIn(c, c.(zones := c.zones[k := z], events := c.events + [ZoneRegistered(k, z.site)]), kind, scope)
  {
    var c' := c.(zones := c.zones[k := z], events := c.events + [ZoneRegistered(k, z.site)]);
    if kind == ZoneKind {
      OneMoreZone(c.zones, k, z, scope);
      OneAnnouncedIn(c, c', ZoneRegistered(k, z.site), k, kind, scope);
    } else {
      AnotherKind(c, c', ZoneRegistered(k, z.site), kind, scope);
    }
  }

  lemma AisleIn(c: Catalogue, k: string, a: Aisle, kind: Kind, scope: string)
    requires k !in c.aisles
    ensures BalancedIn(c, c.(aisles := c.aisles[k := a], events := c.events + [AisleRegistered(k, a.zoneId)]), kind,
                       scope)
  {
    var c' := c.(aisles := c.aisles[k := a], events := c.events + [AisleRegistered(k, a.zoneId)]);
    if kind == AisleKind {
      OneMoreAisle(c.aisles, k, a, scope);
      OneAnnouncedIn(c, c', AisleRegistered(k, a.zoneId), k, kind, scope);
    } else {
      AnotherKind(c, c', AisleRegistered(k, a.zoneId), kind, scope);
    }
  }

  lemma AisleDrawnIn(c: Catalogue, k: string, a: Aisle, kind: Kind, scope: string)
    requires k in c.aisles && a.zoneId == c.aisles[k].zoneId
    ensures BalancedIn(c, c.(aisles := c.aisles[k := a], events := c.events + [AisleGeometryUpdated(k)]), kind, scope)
  {
    OneMoreAisle(c.aisles, k, a, scope);
    AislesRedrawn(c, c.aisles[k := a], AisleGeometryUpdated(k), kind, scope);
  }

  lemma AislesRedrawn(c: Catalogue, aisles: map<string, Aisle>, e: Event, kind: Kind, scope: string)
    requires AislesUnder(aisles, scope) == AislesUnder(c.aisles, scope) && e.AisleGeometryUpdated?
    ensures BalancedIn(c, c.(aisles := aisles, events := c.events + [e]), kind, scope)
  {
    AnotherKind(c, c.(aisles := aisles, events := c.events + [e]), e, kind, scope);
  }

  lemma TypeIn(c: Catalogue, k: string, t: LocationType, kind: Kind, scope: string)
    requires k !in c.types
    ensures BalancedIn(c, c.(types := c.types[k := t], events := c.events + [LocationTypeRegistered(k)]), kind, scope)
  {
    var c' := c.(types := c.types[k := t], events := c.events + [LocationTypeRegistered(k)]);
    if kind == TypeKind {
      OneAnnouncedIn(c, c', LocationTypeRegistered(k), k, kind, scope);
    } else {
      AnotherKind(c, c', LocationTypeRegistered(k), kind, scope);
    }
  }

  lemma RuleIn(c: Catalogue, k: string, r: PlacementRule, kind: Kind, scope: string)
    requires k !in c.rules
    ensures BalancedIn(c, c.(rules := c.rules[k := r], events := c.events + [PlacementRuleDefined(k)]), kind, scope)
  {
    var c' := c.(rules := c.rules[k := r], events := c.events + [PlacementRuleDefined(k)]);
    if kind == RuleKind {
      OneAnnouncedIn(c, c', PlacementRuleDefined(k), k, kind, scope);
    } else {
      AnotherKind(c, c', PlacementRuleDefined(k), kind, scope);
    }
  }

  lemma OtherThanSlots(c: Catalogue, slots: map<string, Slot>, e: Event, kind: Kind, scope: string)
    requires e.LocationSlotRegistered? || e.LocationSlotDecommissioned? || e.LocationGeometryUpdated?
    requires kind != SlotKind && kind != RetireKind
    ensures BalancedIn(c, c.(slots := slots, events := c.events + [e]), kind, scope)
  {
    AnotherKind(c, c.(slots := slots, events := c.events + [e]), e, kind, scope);
  }

  lemma SlotsAnnounced(c: Catalogue, slots: map<string, Slot>, e: Event, k: string, kind: Kind, scope: string)
    requires e.LocationSlotRegistered? || e.LocationSlotDecommissioned? || e.LocationGeometryUpdated?
    requires SlotsUnder(slots, scope)
             == SlotsUnder(c.slots, scope) + if Concerns(e, SlotKind, scope) then {k} else {}
    requires RetiredUnder(slots, scope)
             == RetiredUnder(c.slots, scope) + if Concerns(e, RetireKind, scope) then {k} else {}
    requires Concerns(e, SlotKind, scope) ==> k !in SlotsUnder(c.slots, scope)
    requires Concerns(e, RetireKind, scope) ==> k !in RetiredUnder(c.slots, scope)
    ensures BalancedIn(c, c.(slots := slots, events := c.events + [e]), kind, scope)
  {
    var c' := c.(slots := slots, events := c.events + [e]);
    if kind == SlotKind {
      OneAnnouncedIn(c, c', e, k, SlotKind, scope);
    } else if kind == RetireKind {
      OneAnnouncedIn(c, c', e, k, RetireKind, scope);
    } else {
      OtherThanSlots(c, slots, e, kind, scope);
    }
  }

  lemma SlotIn(c: Catalogue, k: string, s: Slot, kind: Kind, scope: string)
    requires k !in c.slots && s.status == Active && s.code.ZoneId() == ZoneOf(k)
    ensures BalancedIn(c, c.(slots := c.slots[k := s], events := c.events + [LocationSlotRegistered(k)]), kind, scope)
  {
    OneMoreSlot(c.slots, k, s, scope);
    SlotsAnnounced(c, c.slots[k := s], LocationSlotRegistered(k), k, kind, scope);
  }

  lemma SlotRetiredIn(c: Catalogue, k: string, s: Slot, kind: Kind, scope: string)
    requires k in c.slots && c.slots[k].status != Decommissioned && s == c.slots[k].(status := Decommissioned)
    requires s.code.ZoneId() == ZoneOf(k)
    ensures BalancedIn(c, c.(slots := c.slots[k := s], events := c.events + [LocationSlotDecommissioned(k)]), kind,
                       scope)
  {
    OneMoreSlot(c.slots, k, s, scope);
    SlotsAnnounced(c, c.slots[k := s], LocationSlotDecommissioned(k), k, kind, scope);
  }

  lemma SlotPlacedIn(c: Catalogue, k: string, s: Slot, kind: Kind, scope: string)
    requires k in c.slots && s.code == c.slots[k].code && s.status == c.slots[k].status
    ensures BalancedIn(c, c.(slots := c.slots[k := s], events := c.events + [LocationGeometryUpdated(k)]), kind, scope)
  {
    OneMoreSlot(c.slots, k, s, scope);
    SlotsAnnounced(c, c.slots[k := s], LocationGeometryUpdated(k), k, kind, scope);
  }

  /** An event that no scope counts, whatever it changes that no scope counts either. */
  lemma Uncounted(c: Catalogue, c': Catalogue, e: Event, kind: Kind, scope: string)
    requires e.CrossAisleRegistered? || e.FacilityLayoutImported?
    requires c' == c.(crossAisles := c'.crossAisles, events := c.events + [e])
    ensures BalancedIn(c, c', kind, scope)
  {
    OneAnnouncedIn(c, c', e, "", kind, scope);
  }

  lemma PlaceAnnounced(c: Catalogue, cmd: Command, kind: Kind, scope: string)
    requires (cmd.AddSite? || cmd.AddZone? || cmd.AddAisle? || cmd.DrawAisle?) && Attempt(c, cmd).Ok?
    ensures BalancedIn(c, Attempt(c, cmd).value, kind, scope)
  {
    match cmd {
      case AddSite(code, name) =>
        SiteExactly(c, code, name);
        SiteIn(c, code, Site(code, name, Active), kind, scope);
      case AddZone(site, area, zone, temperature, hazmat) =>
        ZoneExactly(c, site, area, zone, temperature, hazmat);
        var z := Zone(site, area, zone, temperature.value, hazmat, Active, 0.0);
        ZoneIn(c, z.Id(), z, kind, scope);
      case AddAisle(zoneId, code, hint, direction) =>
        AisleExactly(c, zoneId, code, hint, direction);
        AisleIn(c, zoneId + "-" + code, Aisle(zoneId, code, hint, direction.value, Active, None), kind, scope);
      case DrawAisle(aisleId, centreline) =>
        DrawingExactly(c, aisleId, centreline);
        AisleDrawnIn(c, aisleId, c.aisles[aisleId].(centreline := Some(centreline)), kind, scope);
    }
  }

  lemma DefinitionAnnounced(c: Catalogue, cmd: Command, kind: Kind, scope: string)
    requires Rooted(c) && Attempt(c, cmd).Ok?
    requires cmd.AddType? || cmd.AddRule? || cmd.AddCrossAisle?
    ensures BalancedIn(c, Attempt(c, cmd).value, kind, scope)
  {
    match cmd {
      case AddType(name, role, capacity) =>
        TypeExactly(c, name, role, capacity);
        TypeIn(c, name, LocationType(name, role.value, capacity), kind, scope);
      case AddRule(id, locationType, effect, where) =>
        RuleExactly(c, id, locationType, effect, where);
        RuleIn(c, id, PlacementRule(id, locationType, effect.value, where), kind, scope);
      case AddCrossAisle(zoneId, a, b, bay) =>
        CrossAisleExactly(c, zoneId, a, b, bay);
        var c' := RegisterCrossAisle(c, zoneId, a, b, bay).value;
        Uncounted(c, c', CrossAisleRegistered(NewCrossAisleKey(zoneId, a, b, bay)), kind, scope);
    }
  }

  lemma NewSlotAnnounced(c: Catalogue, code: Address, typeName: string, override: Capacity, dockFlow: Text<DockFlow>,
                         activities: seq<Text<Activity>>, kind: Kind, scope: string)
    requires RegisterLocationSlot(c, code, typeName, override, dockFlow, activities).Ok?
    ensures BalancedIn(c, RegisterLocationSlot(c, code, typeName, override, dockFlow, activities).value, kind, scope)
  {
    RegistrationStores(c, code, typeName, override, dockFlow, activities);
    ZoneOfAgrees(code);
    var s := RegisterLocationSlot(c, code, typeName, override, dockFlow, activities).value.slots[code.String()];
    SlotIn(c, code.String(), s, kind, scope);
  }

  lemma RetirementAnnounced(c: Catalogue, code: Address, kind: Kind, scope: string)
    requires Rooted(c) && DecommissionLocationSlot(c, code).Ok?
    ensures BalancedIn(c, DecommissionLocationSlot(c, code).value, kind, scope)
  {
    RetirementExactly(c, code);
    FiledUnderItsZone(c, code);
    SlotRetiredIn(c, code.String(), DecommissionLocationSlot(c, code).value.slots[code.String()], kind, scope);
  }

  lemma SlotAnnounced(c: Catalogue, cmd: Command, kind: Kind, scope: string)
    requires Rooted(c) && (cmd.AddSlot? || cmd.RetireSlot? || cmd.PlaceSlot?) && Attempt(c, cmd).Ok?
    ensures BalancedIn(c, Attempt(c, cmd).value, kind, scope)
  {
    var slots := Attempt(c, cmd).value.slots;
    match cmd {
      case AddSlot(code, typeName, override, dockFlow, activities) =>
        NewSlotAnnounced(c, code, typeName, override, dockFlow, activities, kind, scope);
      case RetireSlot(code) =>
        RetirementAnnounced(c, code, kind, scope);
      case PlaceSlot(code, position, dimensions, pick) =>
        PlacingExactly(c, code, position, dimensions, pick);
        SlotPlacedIn(c, code.String(), slots[code.String()], kind, scope);
    }
  }

  lemma FiledUnderItsZone(c: Catalogue, code: Address)
    requires Rooted(c) && code.String() in c.slots
    ensures ZoneOf(code.String()) == c.slots[code.String()].code.ZoneId()
  {
    var k := code.String();
    assert SlotInPlace(k, c.slots[k], c.sites.Keys, c.zones.Keys, c.aisles.Keys, c.types.Keys);
    ZoneOfAgrees(c.slots[k].code);
  }

  lemma SimpleAnnounced(c: Catalogue, cmd: Command, kind: Kind, scope: string)
    requires Rooted(c) && !cmd.Import?
    ensures BalancedIn(c, Step(c, cmd), kind, scope)
  {
    if Attempt(c, cmd).Ok? {
      if cmd.AddSite? || cmd.AddZone? || cmd.AddAisle? || cmd.DrawAisle? {
        PlaceAnnounced(c, cmd, kind, scope);
      } else if cmd.AddSlot? || cmd.RetireSlot? || cmd.PlaceSlot? {
        SlotAnnounced(c, cmd, kind, scope);
      } else {
        DefinitionAnnounced(c, cmd, kind, scope);
      }
    }
  }

  lemma {:induction false} SimpleRunAnnounced(c: Catalogue, cmds: seq<Command>, kind: Kind, scope: string)
    requires Rooted(c) && Simple(cmds)
    ensures BalancedIn(c, Run(c, cmds), kind, scope)
  {
    if cmds != [] {
      var shorter, last := cmds[..|cmds| - 1], cmds[|cmds| - 1];
      SimpleRunAnnounced(c, shorter, kind, scope);
      RunKeeps(c, shorter);
      SimpleAnnounced(Run(c, shorter), last, kind, scope);
    }
  }

  lemma ImportAnnounced(c: Catalogue, rows: seq<ImportRow>, kind: Kind, scope: string)
    requires Rooted(c) && rows != []
    ensures BalancedIn(c, ImportFacilityLayout(c, rows).value, kind, scope)
  {
    var cmds := ImportIsRun(c, rows, |rows|);
    SimpleRunAnnounced(c, cmds, kind, scope);
    var n, ok := |rows|, Imported(c, rows, |rows|);
    Uncounted(Run(c, cmds), ImportFacilityLayout(c, rows).value, FacilityLayoutImported(n, ok, n - ok), kind, scope);
  }

  lemma StepAnnounced(c: Catalogue, cmd: Command, kind: Kind, scope: string)
    requires Rooted(c)
    ensures BalancedIn(c, Step(c, cmd), kind, scope)
  {
    if !cmd.Import? {
      SimpleAnnounced(c, cmd, kind, scope);
    } else if cmd.rows != [] {
      ImportAnnounced(c, cmd.rows, kind, scope);
    }
  }

  /** Over every run, in every scope, as many things are stored, and as many slots retired, as events
      announced. */
  lemma {:induction false} RunAnnounced(c: Catalogue, cmds: seq<Command>, kind: Kind, scope: string)
    requires Rooted(c)
    ensures BalancedIn(c, Run(c, cmds), kind, scope)
  {
    if cmds != [] {
      var shorter, last := cmds[..|cmds| - 1], cmds[|cmds| - 1];
      RunAnnounced(c, shorter, kind, scope);
      RunKeeps(c, shorter);
      StepAnnounced(Run(c, shorter), last, kind, scope);
    }
  }
}
