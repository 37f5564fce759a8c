/** What the chain of custody, the placement rules and the lifecycle promise over whole runs. */
module CatalogueLaws {
  import opened Strings
  import opened LocationCodes
  import opened Placement
  import opened Layout
  import opened Catalogues

  // ---- chain of custody ----

  /** Every state a run reaches from the empty map is rooted. */
  lemma ReachableIsRooted(cmds: seq<Command>)
    ensures Rooted(Run(EMPTY_CATALOGUE, cmds))
  {
    RunKeeps(EMPTY_CATALOGUE, cmds);
  }

  /** A stored slot's site, zone and aisle are stored, and they are the ones its code spells out. */
  lemma ChainOfCustody(c: Catalogue, k: string)
    requires Rooted(c) && k in c.slots
    ensures var code := c.slots[k].code;
            && code.site in c.sites && c.sites[code.site].code == code.site
            && code.ZoneId() in c.zones
            && (var z := c.zones[code.ZoneId()]; z.site == code.site && z.area == code.area && z.zone == code.zone)
            && code.AisleId() in c.aisles
            && (var a := c.aisles[code.AisleId()]; a.zoneId == code.ZoneId() && a.code == code.aisle)
  {
    var code := c.slots[k].code;
    assert SlotInPlace(k, c.slots[k], c.sites.Keys, c.zones.Keys, c.aisles.Keys, c.types.Keys);
    var z, a := c.zones[code.ZoneId()], c.aisles[code.AisleId()];
    assert ZoneInPlace(code.ZoneId(), z, c.sites.Keys);
    assert AisleInPlace(code.AisleId(), a, c.zones.Keys);
    assert forall i :: 0 <= i < 4 ==> ValidSegment(code.Segments()[i]);
    assert [code.site, code.area, code.zone] == code.Segments()[..3];
    ZoneIdInjective([z.site, z.area, z.zone], [code.site, code.area, code.zone]);
    assert ValidSegment(code.Segments()[3]);
    AisleIdInjective(a.zoneId, a.code, code.ZoneId(), code.aisle);
  }

  // ---- registration, exactly ----

  /** The capacity asked for, or the kind's own when none is. */
  function CapacityOf(override: Capacity, standard: Capacity): Capacity {
    if override == Capacity(0.0, 0.0) then standard else override
  }

  /** The slot a registration stores: of the kind and role asked for, with its capacity, with a flow only at a
      dock and activities only at a work centre, active, and not placed yet. */
  predicate IsNewSlot(s: Slot, code: Address, t: LocationType, override: Capacity, dockFlow: Text<DockFlow>,
                      activities: seq<Text<Activity>>)
  {
    && s.code == code && s.locationType == t.name && s.role == t.role
    && s.capacity == CapacityOf(override, t.defaultCapacity)
    && s.functional.dockFlow == (if t.role == Dock && dockFlow.Known? then Some(dockFlow.value) else None)
    && (forall a :: a in s.functional.activities <==> t.role == WorkCenter && Known(a) in activities)
    && s.status == Active && s.position == None && s.dimensions == None && s.pickSequence == None
  }

  /** The code is new, its chain of custody is active, its kind is known with attributes and a capacity that
      fit its role, and the placement rules allow the kind in that zone. */
  ghost predicate Registrable(c: Catalogue, code: Address, typeName: string, override: Capacity,
                              dockFlow: Text<DockFlow>, activities: seq<Text<Activity>>)
  {
    && code.String() !in c.slots
    && code.site in c.sites && c.sites[code.site].status == Active
    && code.ZoneId() in c.zones && c.zones[code.ZoneId()].status == Active
    && code.AisleId() in c.aisles && c.aisles[code.AisleId()].status == Active
    && typeName in c.types
    && FitsRole(c.types[typeName].role, dockFlow, activities)
    && (c.types[typeName].role in {Storage, Staging, Drop, Consolidation} ==>
          CapacityOf(override, c.types[typeName].defaultCapacity) != Capacity(0.0, 0.0))
    && Legal(c.rules.Values, typeName, c.zones[code.ZoneId()].Attributes())
  }

  /** What a registration that succeeds stores and announces. */
  lemma RegistrationStores(c: Catalogue, code: Address, typeName: string, override: Capacity,
                           dockFlow: Text<DockFlow>, activities: seq<Text<Activity>>)
    requires RegisterLocationSlot(c, code, typeName, override, dockFlow, activities).Ok?
    ensures var c' := RegisterLocationSlot(c, code, typeName, override, dockFlow, activities).value;
            && typeName in c.types && code.String() !in c.slots && code.String() in c'.slots
            && c' == c.(slots := c.slots[code.String() := c'.slots[code.String()]],
                        events := c.events + [LocationSlotRegistered(code.String())])
            && IsNewSlot(c'.slots[code.String()], code, c.types[typeName], override, dockFlow, activities)
  {
  }

  /** A slot can be registered exactly when everything a registration needs is in place. */
  lemma RegistrationExactly(c: Catalogue, code: Address, typeName: string, override: Capacity,
                            dockFlow: Text<DockFlow>, activities: seq<Text<Activity>>)
    requires Rooted(c)
    ensures RegisterLocationSlot(c, code, typeName, override, dockFlow, activities).Ok? <==>
            Registrable(c, code, typeName, override, dockFlow, activities)
  {
    if code.ZoneId() in c.zones {
      assert ZoneInPlace(code.ZoneId(), c.zones[code.ZoneId()], c.sites.Keys);
    }
  }

  // ---- what the rules read of a zone ----

  /** Every field a rule sets is the stored zone's own. */
  predicate SelectsZone(where: ZonePredicate, z: Zone) {
    && (where.zoneCode == "" || where.zoneCode == z.zone)
    && (where.temperature == None || where.temperature == Some(z.temperature))
    && (where.hazmat == None || where.hazmat == Some(z.hazmat))
  }

  /** A kind may stand in a zone exactly when no Deny rule for the kind selects the zone and, if any Allow rule
      selects it, one of those is for the kind. */
  lemma LegalByFields(rules: set<PlacementRule>, locationType: string, z: Zone)
    ensures Legal(rules, locationType, z.Attributes()) <==>
            && (forall r :: r in rules && r.effect == Deny && r.locationType == locationType ==>
                  !SelectsZone(r.where, z))
            && ((exists r :: r in rules && r.effect == Allow && SelectsZone(r.where, z)) ==>
                  exists r :: r in rules && r.effect == Allow && SelectsZone(r.where, z)
                              && r.locationType == locationType)
  {
    forall r: PlacementRule ensures r.where.Matches(z.Attributes()) == SelectsZone(r.where, z) {
    }
  }

  // ---- the other use cases, exactly ----

  lemma SiteExactly(c: Catalogue, code: string, name: string)
    ensures RegisterSite(c, code, name).Ok? <==> code !in c.sites && ValidSegment(code) && name != ""
    ensures RegisterSite(c, code, name).Ok? ==>
              RegisterSite(c, code, name).value
              == c.(sites := c.sites[code := Site(code, name, Active)], events := c.events + [SiteRegistered(code)])
  {
  }

  lemma ZoneExactly(c: Catalogue, site: string, area: string, zone: string, temperature: Text<TemperatureClass>,
          hazmat: bool)
    ensures var r, id := RegisterZone(c, site, area, zone, temperature, hazmat), Join([site, area, zone]);
            && (r.Ok? <==> && site in c.sites && c.sites[site].status == Active
                           && ValidSegment(site) && ValidSegment(area) && ValidSegment(zone)
                           && temperature.Known? && id !in c.zones)
            && (r.Ok? ==> r.value == c.(
               zones := c.zones[id := Zone(site, area, zone, temperature.value, hazmat, Active, 0.0)],
               events := c.events + [ZoneRegistered(id, site)]))
  {
  }

  lemma AisleExactly(c: Catalogue, zoneId: string, code: string, hint: int, direction: Text<Direction>)
    ensures var r, id := RegisterAisle(c, zoneId, code, hint, direction), zoneId + "-" + code;
            && (r.Ok? <==> && zoneId in c.zones && c.zones[zoneId].status == Active && zoneId != ""
                           && ValidSegment(code) && hint >= 0 && direction.Known? && id !in c.aisles)
            && (r.Ok? ==> r.value == c.(
               aisles := c.aisles[id := Aisle(zoneId, code, hint, direction.value, Active, None)],
               events := c.events + [AisleRegistered(id, zoneId)]))
  {
  }

  lemma RuleExactly(c: Catalogue, id: string, locationType: string, effect: Text<Effect>, where: ZonePredicate)
    ensures var r := DefinePlacementRule(c, id, locationType, effect, where);
            && (r.Ok? <==> && id !in c.rules && id != "" && locationType in c.types && locationType != ""
                           && effect.Known? && !where.Empty())
            && (r.Ok? ==> r.value == c.(rules := c.rules[id := PlacementRule(id, locationType, effect.value, where)],
                                        events := c.events + [PlacementRuleDefined(id)]))
  {
  }

  lemma TypeExactly(c: Catalogue, name: string, role: Text<Role>, capacity: Capacity)
    ensures var r := RegisterLocationType(c, name, role, capacity);
            && (r.Ok? <==> && name !in c.types && name != "" && role.Known?
                           && (role.value in {Storage, Staging, Drop, Consolidation} ==>
                                 capacity != Capacity(0.0, 0.0)))
            && (r.Ok? ==> r.value == c.(types := c.types[name := LocationType(name, role.value, capacity)],
                                        events := c.events + [LocationTypeRegistered(name)]))
  {
  }

  /** A cross-aisle needs two different stored aisles of the zone and a bay, and is registered once for the
      pair, in whichever order they are named. */
  lemma CrossAisleExactly(c: Catalogue, zoneId: string, a: string, b: string, bay: string)
    requires Rooted(c)
    ensures var r := RegisterCrossAisle(c, zoneId, a, b, bay);
            && (r.Ok? <==> && zoneId in c.zones && zoneId + "-" + a in c.aisles && zoneId + "-" + b in c.aisles
                           && c.aisles[zoneId + "-" + a].zoneId == zoneId && c.aisles[zoneId + "-" + b].zoneId == zoneId
                           && a != b && bay != "" && zoneId != ""
                           && NewCrossAisleKey(zoneId, a, b, bay) !in c.crossAisles)
            && (r.Ok? ==> r.value == c.(
               crossAisles := c.crossAisles[NewCrossAisleKey(zoneId, a, b, bay) := CrossAisle(zoneId, a, b, bay, true)],
               events := c.events + [CrossAisleRegistered(NewCrossAisleKey(zoneId, a, b, bay))]))
  {
    AisleIsFiled(c, zoneId, a);
    AisleIsFiled(c, zoneId, b);
  }

  lemma AisleIsFiled(c: Catalogue, zoneId: string, code: string)
    requires AislesRooted(c.aisles, c.zones.Keys)
    ensures AisleInZone(c, zoneId, code) && code != "" <==>
            zoneId + "-" + code in c.aisles && c.aisles[zoneId + "-" + code].zoneId == zoneId
  {
    var k := zoneId + "-" + code;
    if AisleInZone(c, zoneId, code) {
      AisleInZoneIsStored(c, zoneId, code);
      assert AisleInPlace(k, c.aisles[k], c.zones.Keys);
    }
    if k in c.aisles && c.aisles[k].zoneId == zoneId {
      assert AisleInPlace(k, c.aisles[k], c.zones.Keys);
      assert k[|zoneId| + 1..] == code && c.aisles[k].Id()[|zoneId| + 1..] == c.aisles[k].code;
    }
  }

  lemma DrawingExactly(c: Catalogue, aisleId: string, centreline: Segment)
    ensures var r := SetAisleGeometry(c, aisleId, centreline);
            && (r.Ok? <==> aisleId in c.aisles && c.aisles[aisleId].status != Decommissioned && centreline.Valid())
            && (r.Ok? ==> r.value == c.(
               aisles := c.aisles[aisleId := c.aisles[aisleId].(centreline := Some(centreline))],
               events := c.events + [AisleGeometryUpdated(aisleId)]))
  {
  }

  /** The whole chain of custody of a code is active. */
  predicate ChainActive(c: Catalogue, code: Address) {
    && code.site in c.sites && c.sites[code.site].status == Active
    && code.ZoneId() in c.zones && c.zones[code.ZoneId()].status == Active
    && code.AisleId() in c.aisles && c.aisles[code.AisleId()].status == Active
  }

  /** A chain resolves exactly when it is active, and in a rooted catalogue to the zone the code spells. */
  lemma ChainExactly(c: Catalogue, code: Address)
    ensures ResolveChain(c, code).Ok? <==> ChainActive(c, code)
    ensures Rooted(c) && ResolveChain(c, code).Ok? ==>
              var z := ResolveChain(c, code).value; z.site == code.site && z.area == code.area && z.zone == code.zone
  {
    if Rooted(c) && ResolveChain(c, code).Ok? {
      var z := c.zones[code.ZoneId()];
      assert ZoneInPlace(code.ZoneId(), z, c.sites.Keys);
      assert forall i :: 0 <= i < 3 ==> ValidSegment(code.Segments()[i]);
      assert [code.site, code.area, code.zone] == code.Segments()[..3];
      ZoneIdInjective([z.site, z.area, z.zone], [code.site, code.area, code.zone]);
    }
  }

  lemma RetirementExactly(c: Catalogue, code: Address)
    ensures var r, k := DecommissionLocationSlot(c, code), code.String();
            && (r.Ok? <==> k in c.slots && c.slots[k].status != Decommissioned)
            && (r.Ok? ==> r.value == c.(slots := c.slots[k := c.slots[k].(status := Decommissioned)],
                                        events := c.events + [LocationSlotDecommissioned(k)]))
  {
  }

  lemma PlacingExactly(c: Catalogue, code: Address, position: Point, dimensions: Dimensions, pick: Option<int>)
    ensures var r, k := SetLocationGeometry(c, code, position, dimensions, pick), code.String();
            && (r.Ok? <==> k in c.slots && c.slots[k].status != Decommissioned && (pick.Some? ==> pick.value >= 0))
            && (r.Ok? ==>
                  && r.value == c.(slots := r.value.slots, events := c.events + [LocationGeometryUpdated(k)])
                  && r.value.slots == c.slots[k := c.slots[k].(
                     position := Some(position), dimensions := Some(dimensions),
                     pickSequence := if pick.Some? then pick else c.slots[k].pickSequence)])
  {
  }

  /** Some run of use cases leads from one state to the other, so every law of runs applies between them. */
  ghost predicate Reaches(c: Catalogue, c': Catalogue) {
    exists cmds :: Run(c, cmds) == c'
  }

  lemma ReachesItself(c: Catalogue)
    ensures Reaches(c, c)
  {
    assert Run(c, []) == c;
  }

  lemma StepReaches(c: Catalogue, cmd: Command)
    ensures Reaches(c, Step(c, cmd)) && Reaches(c, c)
  {
    RunOne(c, cmd);
    ReachesItself(c);
  }

  /** A reached state keeps the chain of custody, and everything stored, as the laws of runs say. */
  lemma ReachedIsKept(c: Catalogue, c': Catalogue)
    requires Rooted(c) && Reaches(c, c')
    ensures Rooted(c') && Grows(c, c')
  {
    var cmds :| Run(c, cmds) == c';
    RunKeeps(c, cmds);
  }

  // ---- placement rules over time ----

  /** Once a Deny rule is defined, no run registers a slot of its kind in a zone it matches. */
  lemma DenyHoldsForever(c: Catalogue, cmds: seq<Command>, ruleId: string, k: string)
    requires Rooted(c) && ruleId in c.rules
    requires k in Run(c, cmds).slots && k !in c.slots
    ensures var s, c' := Run(c, cmds).slots[k], Run(c, cmds);
            s.code.ZoneId() in c'.zones && !c.rules[ruleId].Denies(s.locationType,
              c'.zones[s.code.ZoneId()].Attributes())
  {
    RunKeeps(c, cmds);
    assert Obeys(Run(c, cmds).slots[k], c.rules, Run(c, cmds).zones);
  }

  /** And no later attempt to register one succeeds, whatever rules were added since. */
  lemma DeniedRegistrationFails(c: Catalogue, cmds: seq<Command>, ruleId: string, code: Address, override: Capacity,
                                dockFlow: Text<DockFlow>, activities: seq<Text<Activity>>)
    requires Rooted(c) && ruleId in c.rules && c.rules[ruleId].effect == Deny
    requires code.ZoneId() in Run(c, cmds).zones
            && c.rules[ruleId].where.Matches(Run(c, cmds).zones[code.ZoneId()].Attributes())
    ensures RegisterLocationSlot(Run(c, cmds), code, c.rules[ruleId].locationType, override, dockFlow, activities).Err?
  {
    RunKeeps(c, cmds);
    var c' := Run(c, cmds);
    assert c'.rules[ruleId] in c'.rules.Values;
    RegistrationExactly(c', code, c.rules[ruleId].locationType, override, dockFlow, activities);
  }

  /** The rules in force at some moment: no rule is ever taken back. */
  ghost predicate Between(before: map<string, PlacementRule>, rules: map<string, PlacementRule>,
                          after: map<string, PlacementRule>)
  {
    SubMap(before, rules) && SubMap(rules, after)
  }

  /** The slot was legal in its zone under the rules of some moment from `before` to `after`. */
  ghost predicate LegalOnce(s: Slot, before: map<string, PlacementRule>, after: map<string, PlacementRule>,
                            zones: map<string, Zone>)
  {
    && s.code.ZoneId() in zones
    && exists rules :: Between(before, rules, after)
                       && Legal(rules.Values, s.locationType, zones[s.code.ZoneId()].Attributes())
  }

  ghost predicate NewSlotsWereLegal(c: Catalogue, c': Catalogue) {
    forall k :: k in c'.slots && k !in c.slots ==> LegalOnce(c'.slots[k], c.rules, c'.rules, c'.zones)
  }

  lemma LegalOnceIsWider(s: Slot, c: Catalogue, d: Catalogue, s': Slot, c': Catalogue, d': Catalogue)
    requires LegalOnce(s, c.rules, d.rules, d.zones)
    requires SubMap(c'.rules, c.rules) && SubMap(d.rules, d'.rules) && SubMap(d.zones, d'.zones)
    requires s'.code == s.code && s'.locationType == s.locationType
    ensures LegalOnce(s', c'.rules, d'.rules, d'.zones)
  {
    var z := d.zones[s.code.ZoneId()].Attributes();
    var rules :| Between(c.rules, rules, d.rules) && Legal(rules.Values, s.locationType, z);
    SubMapTransitive(c'.rules, c.rules, rules);
    SubMapTransitive(rules, d.rules, d'.rules);
    assert Between(c'.rules, rules, d'.rules);
  }

  lemma SubMapTransitive<K, V>(a: map<K, V>, b: map<K, V>, c: map<K, V>)
    requires SubMap(a, b) && SubMap(b, c)
    ensures SubMap(a, c)
  {
  }

  lemma WereLegalTransitive(c: Catalogue, d: Catalogue, e: Catalogue)
    requires Grows(c, d) && Grows(d, e) && NewSlotsWereLegal(c, d) && NewSlotsWereLegal(d, e)
    ensures NewSlotsWereLegal(c, e)
  {
    forall k | k in e.slots && k !in c.slots ensures LegalOnce(e.slots[k], c.rules, e.rules, e.zones) {
      if k in d.slots {
        assert SlotHistory(d.slots[k], e.slots[k]);
        LegalOnceIsWider(d.slots[k], c, d, e.slots[k], c, e);
      } else {
        LegalOnceIsWider(e.slots[k], d, e, e.slots[k], c, e);
      }
    }
  }

  lemma SameSlotsWereLegal(c: Catalogue, c': Catalogue)
    requires c'.slots.Keys <= c.slots.Keys
    ensures NewSlotsWereLegal(c, c')
  {
  }

  lemma PutSlotWasLegal(c: Catalogue, s: Slot, e: Event)
    requires s.code.ZoneId() in c.zones
    requires Legal(c.rules.Values, s.locationType, c.zones[s.code.ZoneId()].Attributes())
    ensures NewSlotsWereLegal(c, WithSlot(c, s, e))
  {
    assert Between(c.rules, c.rules, c.rules);
    assert LegalOnce(s, c.rules, c.rules, c.zones);
  }

  lemma AddSlotWasLegal(c: Catalogue, code: Address, typeName: string, override: Capacity,
                        dockFlow: Text<DockFlow>, activities: seq<Text<Activity>>)
    requires Rooted(c) && RegisterLocationSlot(c, code, typeName, override, dockFlow, activities).Ok?
    ensures NewSlotsWereLegal(c, RegisterLocationSlot(c, code, typeName, override, dockFlow, activities).value)
  {
    RegistrationExactly(c, code, typeName, override, dockFlow, activities);
    var s := RegisterLocationSlot(c, code, typeName, override, dockFlow, activities).value.slots[code.String()];
    assert s.code == code && s.locationType == typeName;
    PutSlotWasLegal(c, s, LocationSlotRegistered(code.String()));
  }

  lemma SimpleStepWasLegal(c: Catalogue, cmd: Command)
    requires Rooted(c) && !cmd.Import?
    ensures NewSlotsWereLegal(c, Step(c, cmd))
  {
    if Attempt(c, cmd).Ok? && cmd.AddSlot? {
      AddSlotWasLegal(c, cmd.address, cmd.typeName, cmd.override, cmd.dockFlow, cmd.activities);
    } else {
      SlotCodesStay(c, cmd);
    }
  }

  lemma SlotCodesStay(c: Catalogue, cmd: Command)
    requires !cmd.Import? && (cmd.AddSlot? ==> Attempt(c, cmd).Err?)
    ensures Step(c, cmd).slots.Keys == c.slots.Keys
  {
  }

  lemma {:induction false} SimpleRunWasLegal(c: Catalogue, cmds: seq<Command>)
    requires Rooted(c) && Simple(cmds)
    ensures NewSlotsWereLegal(c, Run(c, cmds))
  {
    if cmds != [] {
      var shorter, last := cmds[..|cmds| - 1], cmds[|cmds| - 1];
      SimpleRunWasLegal(c, shorter);
      RunKeeps(c, shorter);
      StepKeeps(Run(c, shorter), last);
      SimpleStepWasLegal(Run(c, shorter), last);
      WereLegalTransitive(c, Run(c, shorter), Step(Run(c, shorter), last));
    }
  }

  lemma StepWasLegal(c: Catalogue, cmd: Command)
    requires Rooted(c)
    ensures NewSlotsWereLegal(c, Step(c, cmd))
  {
    if !cmd.Import? {
      SimpleStepWasLegal(c, cmd);
    } else if cmd.rows != [] {
      var cmds := ImportIsRun(c, cmd.rows, |cmd.rows|);
      SimpleRunWasLegal(c, cmds);
    }
  }

  /** Over every run, imports included, each new slot was legal in its zone under the rules in force at some
      moment of the run. */
  lemma {:induction false} EverySlotWasLegal(c: Catalogue, cmds: seq<Command>)
    requires Rooted(c)
    ensures NewSlotsWereLegal(c, Run(c, cmds))
  {
    if cmds != [] {
      var shorter, last := cmds[..|cmds| - 1], cmds[|cmds| - 1];
      EverySlotWasLegal(c, shorter);
      RunKeeps(c, shorter);
      StepKeeps(Run(c, shorter), last);
      StepWasLegal(Run(c, shorter), last);
      WereLegalTransitive(c, Run(c, shorter), Step(Run(c, shorter), last));
    }
  }

  /** Once a rule makes a zone an allow-list, every slot stored there later is of a kind that an Allow rule
      of the later state names for that zone. */
  lemma AllowListHoldsForever(c: Catalogue, cmds: seq<Command>, ruleId: string, k: string)
    requires Rooted(c) && ruleId in c.rules
    requires k in Run(c, cmds).slots && k !in c.slots
    ensures var c' := Run(c, cmds);
            var s := c'.slots[k];
            && s.code.ZoneId() in c'.zones
            && (c.rules[ruleId].OpensAllowList(c'.zones[s.code.ZoneId()].Attributes()) ==>
                  exists id :: id in c'.rules && c'.rules[id].locationType == s.locationType
                               && c'.rules[id].OpensAllowList(c'.zones[s.code.ZoneId()].Attributes()))
  {
    EverySlotWasLegal(c, cmds);
    var c' := Run(c, cmds);
    var s := c'.slots[k];
    assert LegalOnce(s, c.rules, c'.rules, c'.zones);
    var z := c'.zones[s.code.ZoneId()].Attributes();
    if c.rules[ruleId].OpensAllowList(z) {
      var rules :| Between(c.rules, rules, c'.rules) && Legal(rules.Values, s.locationType, z);
      NamedOnTheList(rules, c.rules, ruleId, s.locationType, z);
      var id :| id in rules && rules[id].locationType == s.locationType && rules[id].OpensAllowList(z);
      assert c'.rules[id] == rules[id];
    }
  }

  lemma NamedOnTheList(rules: map<string, PlacementRule>, before: map<string, PlacementRule>, ruleId: string,
                       locationType: string, z: ZoneAttributes)
    requires Legal(rules.Values, locationType, z) && SubMap(before, rules)
    requires ruleId in before && before[ruleId].OpensAllowList(z)
    ensures exists id :: id in rules && rules[id].locationType == locationType && rules[id].OpensAllowList(z)
  {
    assert rules[ruleId] in rules.Values;
    var r :| r in rules.Values && r.OpensAllowList(z) && r.locationType == locationType;
    var id :| id in rules && rules[id] == r;
  }

  // ---- lifecycle ----

  /** A retired slot stays stored and never changes again, and its code is never registered again. */
  lemma RetiredForever(c: Catalogue, cmds: seq<Command>, code: Address, typeName: string, override: Capacity,
                       dockFlow: Text<DockFlow>, activities: seq<Text<Activity>>)
    requires Rooted(c) && code.String() in c.slots && c.slots[code.String()].status == Decommissioned
    ensures code.String() in Run(c, cmds).slots && Run(c, cmds).slots[code.String()] == c.slots[code.String()]
    ensures RegisterLocationSlot(Run(c, cmds), code, typeName, override, dockFlow, activities)
            == Err(DuplicateLocationCode)
    ensures DecommissionLocationSlot(Run(c, cmds), code) == Err(AlreadyDecommissioned)
  {
    RunKeeps(c, cmds);
    assert SlotHistory(c.slots[code.String()], Run(c, cmds).slots[code.String()]);
  }

  // ---- what an import can and cannot touch ----

  /** `c'` has everything `c` has, unchanged. */
  ghost predicate AddsOnly(c: Catalogue, c': Catalogue) {
    && SubMap(c.sites, c'.sites) && SubMap(c.zones, c'.zones) && SubMap(c.aisles, c'.aisles)
    && SubMap(c.slots, c'.slots)
    && c'.types == c.types && c'.rules == c.rules && c'.crossAisles == c.crossAisles
  }

  /** What one row does to the slots, and nothing else: if it was imported its code is new and now
      stored; whether or not it was, no other slot appears. */
  ghost predicate RowEffect(c: Catalogue, o: RowOutcome, code: Address) {
    && AddsOnly(c, o.after)
    && o.code == code.String()
    && (o.error.None? ==> code.String() !in c.slots && code.String() in o.after.slots)
    && o.after.slots.Keys <= c.slots.Keys + {code.String()}
  }

  /** The row is reported rejected although its slot, absent before, is now stored. */
  ghost predicate KeptThoughRejected(c: Catalogue, o: RowOutcome, code: Address) {
    o.error.Some? && code.String() !in c.slots && code.String() in o.after.slots
  }

  lemma GeometryStageEffect(c: Catalogue, code: Address, row: ImportRow)
    ensures var o := ImportFrom(GEOMETRY_STAGE, c, code, row);
            && o.after == c.(slots := o.after.slots, events := o.after.events)
            && o.after.slots.Keys == c.slots.Keys
            && (forall k :: k in c.slots && k != code.String() ==> o.after.slots[k] == c.slots[k])
  {
  }

  lemma EnsureSiteEffect(c: Catalogue, code: Address, row: ImportRow)
    requires EnsureSite(c, code, row).Ok?
    ensures var d := EnsureSite(c, code, row).value; AddsOnly(c, d) && d.slots == c.slots
  {
  }

  lemma EnsureZoneEffect(c: Catalogue, code: Address, row: ImportRow)
    requires EnsureZone(c, code, row).Ok?
    ensures var d := EnsureZone(c, code, row).value; AddsOnly(c, d) && d.slots == c.slots
  {
  }

  lemma EnsureAisleEffect(c: Catalogue, code: Address, row: ImportRow)
    requires EnsureAisle(c, code, row).Ok?
    ensures var d := EnsureAisle(c, code, row).value; AddsOnly(c, d) && d.slots == c.slots
  {
  }

  lemma ParentStageEffect(stage: nat, c: Catalogue, code: Address, row: ImportRow)
    requires stage < SLOT_STAGE && RunStage(stage, c, code, row).Ok?
    ensures var d := RunStage(stage, c, code, row).value; AddsOnly(c, d) && d.slots == c.slots
  {
    if stage == SITE_STAGE {
      EnsureSiteEffect(c, code, row);
    } else if stage == ZONE_STAGE {
      EnsureZoneEffect(c, code, row);
    } else {
      EnsureAisleEffect(c, code, row);
    }
  }

  lemma SlotStageEffect(c: Catalogue, code: Address, row: ImportRow)
    requires RegisterRow(c, code, row).Ok?
    ensures var d := RegisterRow(c, code, row).value;
            AddsOnly(c, d) && code.String() !in c.slots && d.slots.Keys == c.slots.Keys + {code.String()}
  {
  }

  lemma LastStagesEffect(c: Catalogue, code: Address, row: ImportRow)
    requires RunStage(SLOT_STAGE, c, code, row).Ok?
    ensures RowEffect(c, ImportFrom(SLOT_STAGE, c, code, row), code)
  {
    var r := RunStage(SLOT_STAGE, c, code, row);
    SlotStageEffect(c, code, row);
    GeometryStageEffect(r.value, code, row);
  }

  lemma {:induction false} StagesEffect(stage: nat, c: Catalogue, code: Address, row: ImportRow)
    requires stage <= SLOT_STAGE
    ensures RowEffect(c, ImportFrom(stage, c, code, row), code)
    decreases SLOT_STAGE - stage
  {
    var r := RunStage(stage, c, code, row);
    if r.Ok? {
      if stage == SLOT_STAGE {
        LastStagesEffect(c, code, row);
      } else {
        ParentStageEffect(stage, c, code, row);
        StagesEffect(stage + 1, r.value, code, row);
      }
    }
  }

  /** What a row does to the catalogue: it only adds, at most its own slot, whose code was new if the row
      was imported. */
  lemma RowEffectHolds(c: Catalogue, code: Address, row: ImportRow)
    requires NewLocationCode(row.segments) == Code(code)
    ensures RowEffect(c, ImportOne(c, row), code)
  {
    StagesEffect(SITE_STAGE, c, code, row);
  }

  lemma AddsOnlyTransitive(c: Catalogue, d: Catalogue, e: Catalogue)
    requires AddsOnly(c, d) && AddsOnly(d, e)
    ensures AddsOnly(c, e)
  {
  }

  lemma OneRowAddsOnly(c: Catalogue, row: ImportRow)
    ensures AddsOnly(c, ImportOne(c, row).after)
  {
    var parsed := NewLocationCode(row.segments);
    if parsed.Code? {
      RowEffectHolds(c, parsed.code, row);
    }
  }

  /** Importing more rows never changes what was stored before them. */
  lemma {:induction false} ImportAddsOnly(rows: seq<ImportRow>, states: seq<Catalogue>, i: nat, k: nat)
    requires Passes(rows, states) && i <= k <= |rows|
    ensures AddsOnly(states[i], states[k])
    decreases k
  {
    if i < k {
      ImportAddsOnly(rows, states, i, k - 1);
      OneRowAddsOnly(states[k - 1], rows[k - 1]);
      AddsOnlyTransitive(states[i], states[k - 1], states[k]);
    }
  }

  lemma ImportedRowEffect(c: Catalogue, row: ImportRow, o: RowOutcome)
    requires o == ImportOne(c, row) && o.error.None?
    ensures o.code !in c.slots && o.code in o.after.slots
  {
    RowEffectHolds(c, NewLocationCode(row.segments).code, row);
  }

  /** An imported row's code is stored neither before the import nor by the rows before it, and it
      stays stored after the row. */
  lemma ImportedCodeIsNew(rows: seq<ImportRow>, states: seq<Catalogue>, i: nat, o: RowOutcome, k: nat)
    requires Passes(rows, states) && i < k <= |rows|
    requires o == ImportOne(states[i], rows[i]) && o.error.None?
    ensures o.code !in states[0].slots && o.code !in states[i].slots && o.code in states[k].slots
  {
    ImportedRowEffect(states[i], rows[i], o);
    ImportAddsOnly(rows, states, 0, i);
    ImportAddsOnly(rows, states, i + 1, k);
  }

  /** Imported rows have pairwise distinct codes. */
  lemma ImportedCodesAreDistinct(rows: seq<ImportRow>, states: seq<Catalogue>, i: nat, j: nat, o: RowOutcome,
          o': RowOutcome)
    ensures Passes(rows, states) && i < j < |rows| && o.error.None? && o'.error.None?
            && o == ImportOne(states[i], rows[i]) && o' == ImportOne(states[j], rows[j])
            ==> o.code != o'.code
  {
    if Passes(rows, states) && i < j < |rows| && o.error.None? && o'.error.None?
       && o == ImportOne(states[i], rows[i]) && o' == ImportOne(states[j], rows[j])
    {
      ImportedCodeIsNew(rows, states, i, o, j);
      ImportedCodeIsNew(rows, states, j, o', |rows|);
    }
  }

  // ---- announcements ----

  function Retired(slots: map<string, Slot>): set<string> {
    set k | k in slots && slots[k].status == Decommissioned
  }

  /** How many stored things of a kind there are. */
  function Stored(c: Catalogue, kind: Kind): nat {
    match kind
    case SiteKind => |c.sites|
    case ZoneKind => |c.zones|
    case AisleKind => |c.aisles|
    case CrossAisleKind => |c.crossAisles|
    case TypeKind => |c.types|
    case RuleKind => |c.rules|
    case SlotKind => |c.slots|
    case RetireKind => |Retired(c.slots)|
    case OtherKind => 0
  }

  /** Between `c` and `c'`, as many things of each kind were stored as were announced. */
  ghost predicate Balanced(c: Catalogue, c': Catalogue, kind: Kind) {
    Stored(c', kind) - Stored(c, kind) == Count(c'.events, kind) - Count(c.events, kind)
  }

  lemma OneAnnounced(c: Catalogue, c': Catalogue, e: Event, kind: Kind)
    requires c'.events == c.events + [e]
    requires Stored(c', kind) == Stored(c, kind) + if KindOf(e) == kind then 1 else 0
    ensures Balanced(c, c', kind)
  {
    CountOneMore(c.events, e, kind);
  }

  lemma RetiredSame(slots: map<string, Slot>, k: string, s: Slot)
    requires s.status == Decommissioned <==> k in slots && slots[k].status == Decommissioned
    ensures Retired(slots[k := s]) == Retired(slots)
  {
  }

  lemma RetiredOneMore(slots: map<string, Slot>, k: string, s: Slot)
    requires k in slots && slots[k].status != Decommissioned && s.status == Decommissioned
    ensures |Retired(slots[k := s])| == |Retired(slots)| + 1
  {
    assert Retired(slots[k := s]) == Retired(slots) + {k};
  }

  lemma AddSlotBalanced(c: Catalogue, code: Address, s: Slot, kind: Kind)
    requires code.String() !in c.slots && s.status == Active && kind != OtherKind
    ensures Balanced(c, c.(slots := c.slots[code.String() := s],
            events := c.events + [LocationSlotRegistered(code.String())]), kind)
  {
    RetiredSame(c.slots, code.String(), s);
    OneAnnounced(c, c.(slots := c.slots[code.String() := s],
                       events := c.events + [LocationSlotRegistered(code.String())]),
                 LocationSlotRegistered(code.String()), kind);
  }

  lemma RetireSlotBalanced(c: Catalogue, code: Address, kind: Kind)
    requires DecommissionLocationSlot(c, code).Ok? && kind != OtherKind
    ensures Balanced(c, DecommissionLocationSlot(c, code).value, kind)
  {
    var c' := DecommissionLocationSlot(c, code).value;
    RetiredOneMore(c.slots, code.String(), c'.slots[code.String()]);
    OneAnnounced(c, c', LocationSlotDecommissioned(code.String()), kind);
  }

  lemma PlaceSlotBalanced(c: Catalogue, code: Address, position: Point, dimensions: Dimensions, pick: Option<int>,
          kind: Kind)
    requires SetLocationGeometry(c, code, position, dimensions, pick).Ok? && kind != OtherKind
    ensures Balanced(c, SetLocationGeometry(c, code, position, dimensions, pick).value, kind)
  {
    var c' := SetLocationGeometry(c, code, position, dimensions, pick).value;
    RetiredSame(c.slots, code.String(), c'.slots[code.String()]);
    OneAnnounced(c, c', LocationGeometryUpdated(code.String()), kind);
  }

  lemma SlotStepBalanced(c: Catalogue, cmd: Command, kind: Kind)
    requires (cmd.AddSlot? || cmd.RetireSlot? || cmd.PlaceSlot?) && kind != OtherKind
    ensures Balanced(c, Step(c, cmd), kind)
  {
    var r := Attempt(c, cmd);
    if r.Err? { return; }
    match cmd {
      case AddSlot(code, typeName, override, dockFlow, activities) =>
        AddSlotBalanced(c, code, r.value.slots[code.String()], kind);
      case RetireSlot(code) =>
        RetireSlotBalanced(c, code, kind);
      case PlaceSlot(code, position, dimensions, pick) =>
        PlaceSlotBalanced(c, code, position, dimensions, pick, kind);
    }
  }

  lemma AddZoneBalanced(c: Catalogue, site: string, area: string, zone: string, temperature: Text<TemperatureClass>,
          hazmat: bool, kind: Kind)
    requires RegisterZone(c, site, area, zone, temperature, hazmat).Ok?
    ensures Balanced(c, RegisterZone(c, site, area, zone, temperature, hazmat).value, kind)
  {
    var z := NewZone(site, area, zone, temperature, hazmat).value;
    OneAnnounced(c, RegisterZone(c, site, area, zone, temperature, hazmat).value, ZoneRegistered(z.Id(), site), kind);
  }

  lemma AddAisleBalanced(c: Catalogue, zoneId: string, code: string, hint: int, direction: Text<Direction>, kind: Kind)
    requires RegisterAisle(c, zoneId, code, hint, direction).Ok?
    ensures Balanced(c, RegisterAisle(c, zoneId, code, hint, direction).value, kind)
  {
    var a := NewAisle(zoneId, code, hint, direction).value;
    OneAnnounced(c, RegisterAisle(c, zoneId, code, hint, direction).value, AisleRegistered(a.Id(), zoneId), kind);
  }

  lemma AddCrossAisleBalanced(c: Catalogue, zoneId: string, a: string, b: string, bay: string, kind: Kind)
    requires RegisterCrossAisle(c, zoneId, a, b, bay).Ok?
    ensures Balanced(c, RegisterCrossAisle(c, zoneId, a, b, bay).value, kind)
  {
    OneAnnounced(c, RegisterCrossAisle(c, zoneId, a, b, bay).value,
      CrossAisleRegistered(NewCrossAisleKey(zoneId, a, b, bay)), kind);
  }

  lemma PlaceStepBalanced(c: Catalogue, cmd: Command, kind: Kind)
    requires (cmd.AddSite? || cmd.AddZone? || cmd.AddAisle? || cmd.DrawAisle?) && kind != OtherKind
    ensures Balanced(c, Step(c, cmd), kind)
  {
    var r := Attempt(c, cmd);
    if r.Err? { return; }
    match cmd {
      case AddSite(code, name) =>
        OneAnnounced(c, r.value, SiteRegistered(code), kind);
      case AddZone(site, area, zone, temperature, hazmat) =>
        AddZoneBalanced(c, site, area, zone, temperature, hazmat, kind);
      case AddAisle(zoneId, aisle, hint, direction) =>
        AddAisleBalanced(c, zoneId, aisle, hint, direction, kind);
      case DrawAisle(aisleId, centreline) =>
        OneAnnounced(c, r.value, AisleGeometryUpdated(aisleId), kind);
    }
  }

  lemma DefinitionStepBalanced(c: Catalogue, cmd: Command, kind: Kind)
    requires (cmd.AddCrossAisle? || cmd.AddType? || cmd.AddRule?) && kind != OtherKind
    ensures Balanced(c, Step(c, cmd), kind)
  {
    var r := Attempt(c, cmd);
    if r.Err? { return; }
    match cmd {
      case AddCrossAisle(zoneId, a, b, bay) =>
        AddCrossAisleBalanced(c, zoneId, a, b, bay, kind);
      case AddType(name, role, capacity) =>
        OneAnnounced(c, r.value, LocationTypeRegistered(name), kind);
      case AddRule(id, locationType, effect, where) =>
        OneAnnounced(c, r.value, PlacementRuleDefined(id), kind);
    }
  }

  lemma SimpleStepBalanced(c: Catalogue, cmd: Command, kind: Kind)
    requires !cmd.Import? && kind != OtherKind
    ensures Balanced(c, Step(c, cmd), kind)
  {
    if cmd.AddSlot? || cmd.RetireSlot? || cmd.PlaceSlot? {
      SlotStepBalanced(c, cmd, kind);
    } else if cmd.AddCrossAisle? || cmd.AddType? || cmd.AddRule? {
      DefinitionStepBalanced(c, cmd, kind);
    } else {
      PlaceStepBalanced(c, cmd, kind);
    }
  }

  lemma {:induction false} SimpleRunBalanced(c: Catalogue, cmds: seq<Command>, kind: Kind)
    requires Simple(cmds) && kind != OtherKind
    ensures Balanced(c, Run(c, cmds), kind)
  {
    if cmds != [] {
      var before, last := Run(c, cmds[..|cmds| - 1]), cmds[|cmds| - 1];
      SimpleRunBalanced(c, cmds[..|cmds| - 1], kind);
      SimpleStepBalanced(before, last, kind);
      BalancedTransitive(c, before, Step(before, last), kind);
    }
  }

  lemma ImportBalanced(c: Catalogue, rows: seq<ImportRow>, kind: Kind)
    requires rows != [] && kind != OtherKind
    ensures Balanced(c, ImportFacilityLayout(c, rows).value, kind)
  {
    var cmds := ImportIsRun(c, rows, |rows|);
    SimpleRunBalanced(c, cmds, kind);
    var n, ok := |rows|, Imported(c, rows, |rows|);
    OneAnnounced(Run(c, cmds), ImportFacilityLayout(c, rows).value, FacilityLayoutImported(n, ok, n - ok), kind);
  }

  lemma StepBalanced(c: Catalogue, cmd: Command, kind: Kind)
    requires kind != OtherKind
    ensures Balanced(c, Step(c, cmd), kind)
  {
    if !cmd.Import? {
      SimpleStepBalanced(c, cmd, kind);
    } else if cmd.rows != [] {
      ImportBalanced(c, cmd.rows, kind);
    }
  }

  lemma BalancedTransitive(c: Catalogue, d: Catalogue, e: Catalogue, kind: Kind)
    requires Balanced(c, d, kind) && Balanced(d, e, kind)
    ensures Balanced(c, e, kind)
  {
  }

  /** Nothing is stored unannounced or announced without being stored: over every run, the number of
      aggregates of each kind, and of retired slots, moves exactly with the number of their events. */
  lemma {:induction false} RunBalanced(c: Catalogue, cmds: seq<Command>, kind: Kind)
    requires kind != OtherKind
    ensures Balanced(c, Run(c, cmds), kind)
  {
    if cmds != [] {
      var before, last := Run(c, cmds[..|cmds| - 1]), cmds[|cmds| - 1];
      RunBalanced(c, cmds[..|cmds| - 1], kind);
      StepBalanced(before, last, kind);
      BalancedTransitive(c, before, Step(before, last), kind);
    }
  }
}
