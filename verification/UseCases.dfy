/** The catalogue use cases as they run: each looks its parents up, refuses or stores, and announces.
    The fields are the repositories; a save and its event happen together. */
module UseCases {
  import opened Strings
  import opened Sorting
  import opened LocationCodes
  import opened Placement
  import opened Layout
  import Catalogues
  import CatalogueLaws

  type Spec = Result<Catalogue>

  /** The outcome of one call is the specified one: stored and reported alike. */
  ghost predicate Follows<T>(spec: Spec, before: Catalogue, after: Catalogue, r: Result<T>) {
    match spec
    case Ok(c) => after == c && r.Ok?
    case Err(e) => after == before && r == Err(e)
  }

  datatype RowResult = RowResult(index: nat, code: string, error: Option<Error>)

  datatype Report = Report(submitted: nat, imported: nat, rejected: nat, results: seq<RowResult>)

  /** How many rows of a report succeeded. */
  function Succeeded(results: seq<RowResult>): (n: nat)
    ensures n <= |results|
  {
    if results == [] then 0
    else Succeeded(results[..|results| - 1]) + if results[|results| - 1].error.None? then 1 else 0
  }

  /** How one row is imported: the state before it and the row give the state after it and its result. */
  type RowImport = (Catalogue, Catalogues.ImportRow) -> Catalogues.RowOutcome

  ghost predicate Did(f: RowImport, row: Catalogues.ImportRow, before: Catalogue, after: Catalogue, i: int,
          result: RowResult)
  {
    f(before, row) == Catalogues.RowOutcome(after, result.code, result.error) && result.index == i
  }

  ghost predicate DidNth(f: RowImport, rows: seq<Catalogues.ImportRow>, states: seq<Catalogue>,
          results: seq<RowResult>, i: int)
    requires |states| == |rows| + 1 && |results| == |rows|
  {
    0 <= i < |rows| ==> Did(f, rows[i], states[i], states[i + 1], i, results[i])
  }

  /** The results are what each row did, in row order, each starting from the state the last one left. */
  ghost predicate AllDid(f: RowImport, rows: seq<Catalogues.ImportRow>, states: seq<Catalogue>,
          results: seq<RowResult>) {
    && |states| == |rows| + 1 && |results| == |rows|
    && forall i {:trigger DidNth(f, rows, states, results, i)} :: DidNth(f, rows, states, results, i)
  }

  ghost predicate Reports(rows: seq<Catalogues.ImportRow>, states: seq<Catalogue>, results: seq<RowResult>) {
    AllDid(Catalogues.ImportOne, rows, states, results)
  }

  lemma OneMoreDid(f: RowImport, rows: seq<Catalogues.ImportRow>, i: nat, states: seq<Catalogue>,
          results: seq<RowResult>, after: Catalogue, result: RowResult)
    requires i < |rows| && AllDid(f, rows[..i], states, results) && Did(f, rows[i], states[i], after, i, result)
    ensures AllDid(f, rows[..i + 1], states + [after], results + [result])
  {
    var rows', states', results' := rows[..i + 1], states + [after], results + [result];
    forall k ensures DidNth(f, rows', states', results', k) {
      assert DidNth(f, rows[..i], states, results, k);
    }
  }

  /** The state after the first k rows, and how many of them succeeded, for any way of importing a row. */
  ghost function After(f: RowImport, c: Catalogue, rows: seq<Catalogues.ImportRow>, k: nat): Catalogue
    requires k <= |rows|
  {
    if k == 0 then c else f(After(f, c, rows, k - 1), rows[k - 1]).after
  }

  ghost function Successes(f: RowImport, c: Catalogue, rows: seq<Catalogues.ImportRow>, k: nat): nat
    requires k <= |rows|
  {
    if k == 0 then 0
    else Successes(f, c, rows, k - 1) + if f(After(f, c, rows, k - 1), rows[k - 1]).error.None? then 1 else 0
  }

  lemma {:induction false} AllDidAgrees(f: RowImport, c: Catalogue, rows: seq<Catalogues.ImportRow>,
          states: seq<Catalogue>, results: seq<RowResult>, k: nat)
    requires AllDid(f, rows, states, results) && states[0] == c && k <= |rows|
    ensures states[k] == After(f, c, rows, k) && Succeeded(results[..k]) == Successes(f, c, rows, k)
  {
    if k > 0 {
      AllDidAgrees(f, c, rows, states, results, k - 1);
      assert DidNth(f, rows, states, results, k - 1);
      SucceededOneMore(results, k);
    }
  }

  lemma {:induction false} AfterIsImportFirst(c: Catalogue, rows: seq<Catalogues.ImportRow>, k: nat)
    requires k <= |rows|
    ensures After(Catalogues.ImportOne, c, rows, k) == Catalogues.ImportFirst(c, rows, k)
    ensures Successes(Catalogues.ImportOne, c, rows, k) == Catalogues.Imported(c, rows, k)
  {
    if k > 0 { AfterIsImportFirst(c, rows, k - 1); }
  }

  lemma SucceededOneMore(results: seq<RowResult>, k: nat)
    requires 0 < k <= |results|
    ensures Succeeded(results[..k]) == Succeeded(results[..k - 1]) + if results[k - 1].error.None? then 1 else 0
  {
    assert results[..k][..k - 1] == results[..k - 1];
  }

  /** A report's states and counts are the specified ones. */
  lemma ReportAgrees(c: Catalogue, rows: seq<Catalogues.ImportRow>, states: seq<Catalogue>, results: seq<RowResult>,
          k: nat)
    requires Reports(rows, states, results) && states[0] == c && k <= |rows|
    ensures states[k] == Catalogues.ImportFirst(c, rows, k)
    ensures Succeeded(results[..k]) == Catalogues.Imported(c, rows, k)
  {
    AllDidAgrees(Catalogues.ImportOne, c, rows, states, results, k);
    AfterIsImportFirst(c, rows, k);
  }

  ghost predicate ListedById(rules: map<string, PlacementRule>, listed: seq<PlacementRule>) {
    exists ids :: Ascending(ids) && Elements(ids) == rules.Keys && ListedAs(rules, ids, listed)
  }

  ghost predicate ListedAs(rules: map<string, PlacementRule>, ids: seq<string>, listed: seq<PlacementRule>) {
    |listed| == |ids| && forall k :: 0 <= k < |ids| ==> ids[k] in rules && listed[k] == rules[ids[k]]
  }

  class LayoutService {
    var sites: map<string, Site>
    var zones: map<string, Zone>
    var aisles: map<string, Aisle>
    var crossAisles: map<CrossAisleKey, CrossAisle>
    var slots: map<string, Slot>
    var types: map<string, LocationType>
    var rules: map<string, PlacementRule>
    var events: seq<Event>

    function State(): Catalogue
      reads this
    {
      Catalogue(sites, zones, aisles, crossAisles, slots, types, rules, events)
    }

    method RegisterSite(code: string, name: string) returns (r: Result<Site>)
      modifies this
      ensures Follows(Catalogues.RegisterSite(old(State()), code, name), old(State()), State(), r)
      ensures r.Ok? <==> code !in old(sites) && ValidSegment(code) && name != ""
      ensures r.Ok? ==> r.value == Site(code, name, Active)
                        && State() == old(State()).(
                           sites := old(sites)[code := r.value],
                           events := old(events) + [SiteRegistered(code)])
      ensures CatalogueLaws.Reaches(old(State()), State())
    {
      CatalogueLaws.SiteExactly(State(), code, name);
      ghost var cmd := Catalogues.AddSite(code, name);
      CatalogueLaws.StepReaches(State(), cmd);
      if code in sites {
        return Err(DuplicateSite);
      }
      r := NewSite(code, name);
      if r.Ok? {
        sites := sites[r.value.code := r.value];
        events := events + [SiteRegistered(r.value.code)];
      }
    }

    method RegisterZone(site: string, area: string, zone: string, temperature: Text<TemperatureClass>,
            hazmat: bool) returns (r: Result<Zone>)
      modifies this
      ensures Follows(Catalogues.RegisterZone(old(State()), site, area, zone, temperature, hazmat), old(State()),
              State(), r)
      ensures r.Ok? <==> && site in old(sites) && old(sites)[site].status == Active
                         && ValidSegment(site) && ValidSegment(area) && ValidSegment(zone)
                         && temperature.Known? && Join([site, area, zone]) !in old(zones)
      ensures r.Ok? ==> r.value == Zone(site, area, zone, temperature.value, hazmat, Active, 0.0)
                        && State() == old(State()).(
                           zones := old(zones)[Join([site, area, zone]) := r.value],
                           events := old(events) + [ZoneRegistered(Join([site, area, zone]), site)])
      ensures CatalogueLaws.Reaches(old(State()), State())
    {
      CatalogueLaws.ZoneExactly(State(), site, area, zone, temperature, hazmat);
      ghost var cmd := Catalogues.AddZone(site, area, zone, temperature, hazmat);
      CatalogueLaws.StepReaches(State(), cmd);
      if site !in sites {
        return Err(SiteNotFound);
      }
      if sites[site].status != Active {
        return Err(SiteNotActive);
      }
      r := NewZone(site, area, zone, temperature, hazmat);
      if r.Err? {
        return;
      }
      var z := r.value;
      if z.Id() in zones {
        return Err(DuplicateZone);
      }
      zones := zones[z.Id() := z];
      events := events + [ZoneRegistered(z.Id(), z.site)];
    }

    method RegisterAisle(zoneId: string, code: string, sequenceHint: int, direction: Text<Direction>)
        returns (r: Result<Aisle>)
      modifies this
      ensures Follows(Catalogues.RegisterAisle(old(State()), zoneId, code, sequenceHint, direction), old(State()),
              State(), r)
      ensures r.Ok? <==> && zoneId in old(zones) && old(zones)[zoneId].status == Active && zoneId != ""
                         && ValidSegment(code) && sequenceHint >= 0 && direction.Known?
                         && zoneId + "-" + code !in old(aisles)
      ensures r.Ok? ==> r.value == Aisle(zoneId, code, sequenceHint, direction.value, Active, None)
                        && State() == old(State()).(
                           aisles := old(aisles)[zoneId + "-" + code := r.value],
                           events := old(events) + [AisleRegistered(zoneId + "-" + code, zoneId)])
      ensures CatalogueLaws.Reaches(old(State()), State())
    {
      CatalogueLaws.AisleExactly(State(), zoneId, code, sequenceHint, direction);
      ghost var cmd := Catalogues.AddAisle(zoneId, code, sequenceHint, direction);
      CatalogueLaws.StepReaches(State(), cmd);
      if zoneId !in zones {
        return Err(ZoneNotFound);
      }
      if zones[zoneId].status != Active {
        return Err(ZoneNotActive);
      }
      r := NewAisle(zoneId, code, sequenceHint, direction);
      if r.Err? {
        return;
      }
      var a := r.value;
      if a.Id() in aisles {
        return Err(DuplicateAisle);
      }
      aisles := aisles[a.Id() := a];
      events := events + [AisleRegistered(a.Id(), a.zoneId)];
    }

    method DefinePlacementRule(id: string, locationType: string, effect: Text<Effect>, where: ZonePredicate)
        returns (r: Result<PlacementRule>)
      modifies this
      ensures Follows(Catalogues.DefinePlacementRule(old(State()), id, locationType, effect, where), old(State()),
              State(), r)
      ensures r.Ok? <==> && id !in old(rules) && id != "" && locationType in old(types) && locationType != ""
                         && effect.Known? && !where.Empty()
      ensures r.Ok? ==> r.value == PlacementRule(id, locationType, effect.value, where)
                        && State() == old(State()).(
                           rules := old(rules)[id := r.value],
                           events := old(events) + [PlacementRuleDefined(id)])
      ensures CatalogueLaws.Reaches(old(State()), State())
    {
      CatalogueLaws.RuleExactly(State(), id, locationType, effect, where);
      ghost var cmd := Catalogues.AddRule(id, locationType, effect, where);
      CatalogueLaws.StepReaches(State(), cmd);
      if locationType !in types {
        return Err(LocationTypeNotFound);
      }
      if id in rules {
        return Err(DuplicatePlacementRule);
      }
      r := NewPlacementRule(id, locationType, effect, where);
      if r.Ok? {
        rules := rules[r.value.id := r.value];
        events := events + [PlacementRuleDefined(r.value.id)];
      }
    }

    /** Every rule, in ascending order of the ids they are stored under. */
    method ListRules() returns (listed: seq<PlacementRule>)
      ensures RuleSet(listed) == rules.Values
      ensures ListedById(rules, listed)
    {
      var ids := SortedKeys(rules.Keys);
      listed := [];
      for k := 0 to |ids|
        invariant ListedAs(rules, ids[..k], listed)
      {
        assert ids[k] in Elements(ids);
        listed := listed + [rules[ids[k]]];
      }
      assert ids[..|ids|] == ids;
      forall r | r in rules.Values ensures r in listed {
        var id :| id in rules && rules[id] == r;
        assert id in Elements(ids);
        var i :| 0 <= i < |ids| && ids[i] == id;
        assert listed[i] == r;
      }
    }

    /** Proves the code's site, zone and aisle exist and are active. */
    method ResolveChain(code: Address) returns (r: Result<Zone>)
      ensures r == Catalogues.ResolveChain(State(), code)
      ensures r.Ok? <==> CatalogueLaws.ChainActive(State(), code)
      ensures Catalogues.Rooted(State()) && r.Ok? ==>
                code.ZoneId() in zones && r.value == zones[code.ZoneId()]
                && r.value.site == code.site && r.value.area == code.area && r.value.zone == code.zone
    {
      CatalogueLaws.ChainExactly(State(), code);
      if code.site !in sites {
        return Err(SiteNotFound);
      }
      if sites[code.site].status != Active {
        return Err(SiteNotActive);
      }
      if code.ZoneId() !in zones {
        return Err(ZoneNotFound);
      }
      if zones[code.ZoneId()].status != Active {
        return Err(ZoneNotActive);
      }
      if code.AisleId() !in aisles {
        return Err(AisleNotFound);
      }
      if aisles[code.AisleId()].status != Active {
        return Err(AisleNotActive);
      }
      return Ok(zones[code.ZoneId()]);
    }

    method RegisterLocationSlot(code: Address, typeName: string, override: Capacity, dockFlow: Text<DockFlow>,
            activities: seq<Text<Activity>>)
      returns (r: Result<Slot>)
      modifies this
      ensures Follows(Catalogues.RegisterLocationSlot(old(State()), code, typeName, override, dockFlow, activities),
              old(State()), State(), r)
      ensures Catalogues.Rooted(old(State())) ==>
                (r.Ok? <==> CatalogueLaws.Registrable(old(State()), code, typeName, override, dockFlow, activities))
      ensures r.Ok? ==> && typeName in old(types)
                        && CatalogueLaws.IsNewSlot(r.value, code, old(types)[typeName], override, dockFlow, activities)
                        && State() == old(State()).(
                           slots := old(slots)[code.String() := r.value],
                           events := old(events) + [LocationSlotRegistered(code.String())])
      ensures CatalogueLaws.Reaches(old(State()), State())
    {
      RegistrationMeans(State(), code, typeName, override, dockFlow, activities);
      r := PrepareSlot(code, typeName, override, dockFlow, activities);
      if r.Ok? {
        slots := slots[code.String() := r.value];
        events := events + [LocationSlotRegistered(code.String())];
      }
    }

    /** The new slot, or the first check it fails. */
    method PrepareSlot(code: Address, typeName: string, override: Capacity, dockFlow: Text<DockFlow>,
            activities: seq<Text<Activity>>)
      returns (r: Result<Slot>)
      ensures match Catalogues.RegisterLocationSlot(State(), code, typeName, override, dockFlow, activities)
              case Ok(c) => r.Ok? && code.String() in c.slots && c.slots[code.String()] == r.value
              case Err(e) => r == Err(e)
    {
      if code.String() in slots {
        return Err(DuplicateLocationCode);
      }
      var parent := ResolveChain(code);
      if parent.Err? {
        return Err(parent.error);
      }
      if typeName !in types {
        return Err(LocationTypeNotFound);
      }
      var t := types[typeName];
      var functional := FunctionalAttributesFor(t.role, dockFlow, activities);
      if functional.Err? {
        return Err(functional.error);
      }
      var z := parent.value.Attributes();
      var permitted := Permits(t.name, z);
      r := NewLocationSlot(code, t, override, functional.value, z, permitted);
    }

    /** Asks the stored rules whether a kind may stand in a zone. */
    method Permits(locationType: string, z: ZoneAttributes) returns (permitted: bool)
      ensures permitted <==> Legal(rules.Values, locationType, z)
    {
      var listed := ListRules();
      var verdict := Check(listed, locationType, z);
      permitted := verdict.Permitted?;
    }

    method DecommissionLocationSlot(code: Address) returns (r: Result<Slot>)
      modifies this
      ensures Follows(Catalogues.DecommissionLocationSlot(old(State()), code), old(State()), State(), r)
      ensures r.Ok? <==> code.String() in old(slots) && old(slots)[code.String()].status != Decommissioned
      ensures r.Ok? ==> r.value == old(slots)[code.String()].(status := Decommissioned)
                        && State() == old(State()).(
                           slots := old(slots)[code.String() := r.value],
                           events := old(events) + [LocationSlotDecommissioned(code.String())])
      ensures CatalogueLaws.Reaches(old(State()), State())
    {
      CatalogueLaws.RetirementExactly(State(), code);
      ghost var cmd := Catalogues.RetireSlot(code);
      CatalogueLaws.StepReaches(State(), cmd);
      if code.String() !in slots {
        return Err(LocationSlotNotFound);
      }
      r := Decommission(slots[code.String()]);
      if r.Ok? {
        slots := slots[code.String() := r.value];
        events := events + [LocationSlotDecommissioned(code.String())];
      }
    }

    method SetLocationGeometry(code: Address, position: Point, dimensions: Dimensions,
            pickSequence: Option<int>) returns (r: Result<Slot>)
      modifies this
      ensures Follows(Catalogues.SetLocationGeometry(old(State()), code, position, dimensions, pickSequence),
              old(State()), State(), r)
      ensures r.Ok? <==> && code.String() in old(slots) && old(slots)[code.String()].status != Decommissioned
                         && (pickSequence.Some? ==> pickSequence.value >= 0)
      ensures r.Ok? ==> && r.value.position == Some(position) && r.value.dimensions == Some(dimensions)
                        && r.value.pickSequence ==
                           (if pickSequence.Some? then pickSequence else old(slots)[code.String()].pickSequence)
                        && Catalogues.SlotHistory(old(slots)[code.String()], r.value)
                        && State() == old(State()).(
                           slots := old(slots)[code.String() := r.value],
                           events := old(events) + [LocationGeometryUpdated(code.String())])
      ensures CatalogueLaws.Reaches(old(State()), State())
    {
      CatalogueLaws.PlacingExactly(State(), code, position, dimensions, pickSequence);
      ghost var cmd := Catalogues.PlaceSlot(code, position, dimensions, pickSequence);
      CatalogueLaws.StepReaches(State(), cmd);
      if code.String() !in slots {
        return Err(LocationSlotNotFound);
      }
      r := SetGeometry(slots[code.String()], position, dimensions, pickSequence);
      if r.Ok? {
        slots := slots[code.String() := r.value];
        events := events + [LocationGeometryUpdated(code.String())];
      }
    }

    method EnsureSite(code: Address, row: Catalogues.ImportRow) returns (r: Result<()>)
      modifies this
      ensures Follows(Catalogues.EnsureSite(old(State()), code, row), old(State()), State(), r)
    {
      if code.site in sites {
        r := if sites[code.site].status != Active then Err(SiteNotActive) else Ok(());
      } else {
        var s := NewSite(code.site, if row.siteName == "" then code.site else row.siteName);
        if s.Err? {
          r := Err(s.error);
        } else {
          sites := sites[s.value.code := s.value];
          events := events + [SiteRegistered(s.value.code)];
          r := Ok(());
        }
      }
    }

    method EnsureZone(code: Address, row: Catalogues.ImportRow) returns (r: Result<()>)
      modifies this
      ensures Follows(Catalogues.EnsureZone(old(State()), code, row), old(State()), State(), r)
    {
      if code.ZoneId() in zones {
        r := if zones[code.ZoneId()].status != Active then Err(ZoneNotActive) else Ok(());
      } else {
        var z := NewZone(code.site, code.area, code.zone, row.temperature, row.hazmat);
        if z.Err? {
          r := Err(z.error);
        } else {
          zones := zones[z.value.Id() := z.value];
          events := events + [ZoneRegistered(z.value.Id(), z.value.site)];
          r := Ok(());
        }
      }
    }

    method EnsureAisle(code: Address, row: Catalogues.ImportRow) returns (r: Result<()>)
      modifies this
      ensures Follows(Catalogues.EnsureAisle(old(State()), code, row), old(State()), State(), r)
    {
      if code.AisleId() in aisles {
        r := if aisles[code.AisleId()].status != Active then Err(AisleNotActive) else Ok(());
      } else {
        var direction := if row.direction.Blank? then Known(TwoWay) else row.direction;
        var a := NewAisle(code.ZoneId(), code.aisle, row.sequenceHint, direction);
        if a.Err? {
          r := Err(a.error);
        } else {
          aisles := aisles[a.value.Id() := a.value];
          events := events + [AisleRegistered(a.value.Id(), a.value.zoneId)];
          r := Ok(());
        }
      }
    }

    /** The row's own slot, once its parents exist. */
    method RegisterRow(code: Address, row: Catalogues.ImportRow) returns (r: Result<()>)
      modifies this
      ensures Follows(Catalogues.RegisterRow(old(State()), code, row), old(State()), State(), r)
    {
      var capacity := Ok(NO_CAPACITY);
      if row.maxWeightKg != 0.0 || row.maxVolumeM3 != 0.0 {
        capacity := NewCapacity(row.maxWeightKg, row.maxVolumeM3);
      }
      if capacity.Err? {
        return Err(capacity.error);
      }
      var s := RegisterLocationSlot(code, row.locationType, capacity.value, row.dockFlow, row.activities);
      return if s.Ok? then Ok(()) else Err(s.error);
    }

    method PlaceRow(code: Address, row: Catalogues.ImportRow) returns (r: Result<()>)
      modifies this
      ensures Follows(Catalogues.RowGeometry(old(State()), code, row), old(State()), State(), r)
    {
      if row.xM.None? {
        return Ok(());
      }
      var position := NewPoint(row.xM.value, Catalogues.Deref(row.yM), Catalogues.Deref(row.zM));
      if position.Err? {
        return Err(position.error);
      }
      var dimensions := NewDimensions(Catalogues.Deref(row.widthM), Catalogues.Deref(row.depthM),
          Catalogues.Deref(row.heightM));
      if dimensions.Err? {
        return Err(dimensions.error);
      }
      var s := SetLocationGeometry(code, position.value, dimensions.value, row.pickSequence);
      return if s.Ok? then Ok(()) else Err(s.error);
    }

    /** One stage of a row. */
    method RunStage(stage: nat, code: Address, row: Catalogues.ImportRow) returns (r: Result<()>)
      requires stage <= Catalogues.GEOMETRY_STAGE
      modifies this
      ensures Follows(Catalogues.RunStage(stage, old(State()), code, row), old(State()), State(), r)
    {
      if stage == Catalogues.SITE_STAGE {
        r := EnsureSite(code, row);
      } else if stage == Catalogues.ZONE_STAGE {
        r := EnsureZone(code, row);
      } else if stage == Catalogues.AISLE_STAGE {
        r := EnsureAisle(code, row);
      } else if stage == Catalogues.SLOT_STAGE {
        r := RegisterRow(code, row);
      } else {
        r := PlaceRow(code, row);
      }
    }

    /** One row, stage by stage, stopping at the first refusal; what was stored stays stored. */
    method ImportOne(row: Catalogues.ImportRow) returns (text: string, error: Option<Error>)
      modifies this
      ensures Catalogues.ImportOne(old(State()), row) == Catalogues.RowOutcome(State(), text, error)
    {
      var parsed := NewLocationCode(row.segments);
      if parsed.Refused? {
        return "", Some(MalformedCode(parsed.error));
      }
      text, error := parsed.code.String(), None;
      var stage := Catalogues.SITE_STAGE;
      ghost var outcome := Catalogues.ImportFrom(Catalogues.SITE_STAGE, State(), parsed.code, row);
      while stage <= Catalogues.GEOMETRY_STAGE
        invariant stage <= Catalogues.GEOMETRY_STAGE ==>
          outcome == Catalogues.ImportFrom(stage, State(), parsed.code, row)
        invariant stage > Catalogues.GEOMETRY_STAGE ==> outcome == Catalogues.RowOutcome(State(), text, None)
      {
        var r := RunStage(stage, parsed.code, row);
        if r.Err? {
          return text, Some(r.error);
        }
        stage := stage + 1;
      }
    }

    /** Processes every row, whatever happens to the others, and tallies the results. */
    method ImportRows(rows: seq<Catalogues.ImportRow>) returns (report: Report, ghost states: seq<Catalogue>)
      modifies this
      ensures Reports(rows, states, report.results)
      ensures states[0] == old(State()) && states[|rows|] == State()
      ensures report.submitted == |rows| && report.imported == Succeeded(report.results)
              && report.imported + report.rejected == |rows|
    {
      var imported, rejected, results := 0, 0, [];
      states := [State()];
      for i := 0 to |rows|
        invariant Reports(rows[..i], states, results)
        invariant states[0] == old(State()) && states[i] == State()
        invariant imported == Succeeded(results) && imported + rejected == i
      {
        var code, error := ImportOne(rows[i]);
        if error.Some? {
          rejected := rejected + 1;
        } else {
          imported := imported + 1;
        }
        assert (results + [RowResult(i, code, error)])[..i] == results;
        OneMoreDid(Catalogues.ImportOne, rows, i, states, results, State(), RowResult(i, code, error));
        results, states := results + [RowResult(i, code, error)], states + [State()];
      }
      assert rows[..|rows|] == rows;
      report := Report(|rows|, imported, rejected, results);
    }

    /** Imports the rows and closes with one import event carrying the counts. */
    method Import(rows: seq<Catalogues.ImportRow>) returns (r: Result<Report>, ghost states: seq<Catalogue>)
      modifies this
      ensures r.Ok? <==> rows != []
      ensures r.Err? ==> r.error == EmptyImport && State() == old(State())
      ensures r.Ok? ==> Reports(rows, states, r.value.results) && states[0] == old(State())
      ensures r.Ok? ==> r.value.submitted == |rows| && r.value.imported == Succeeded(r.value.results) &&
                        r.value.imported + r.value.rejected == |rows|
      ensures r.Ok? ==> State() == Closed(states[|rows|], r.value.submitted, r.value.imported, r.value.rejected)
      ensures CatalogueLaws.Reaches(old(State()), State())
    {
      CatalogueLaws.ReachesItself(State());
      if rows == [] {
        return Err(EmptyImport), [];
      }
      var report;
      ghost var before := State();
      report, states := ImportRows(rows);
      events := events + [FacilityLayoutImported(report.submitted, report.imported, report.rejected)];
      ImportReaches(before, rows, states, report.results);
      return Ok(report), states;
    }
  }

  function Closed(c: Catalogue, submitted: nat, imported: nat, rejected: nat): Catalogue {
    c.(events := c.events + [FacilityLayoutImported(submitted, imported, rejected)])
  }

  lemma ImportUnfolds(c: Catalogue, rows: seq<Catalogues.ImportRow>, after: Catalogue, ok: nat)
    requires rows != [] && after == Catalogues.ImportFirst(c, rows, |rows|)
            && ok == Catalogues.Imported(c, rows, |rows|)
    ensures Catalogues.ImportFacilityLayout(c, rows) == Ok(Closed(after, |rows|, ok, |rows| - ok))
  {
  }

  /** What the import leaves behind is what the catalogue's own account of an import says. */
  lemma ImportAgrees(c: Catalogue, rows: seq<Catalogues.ImportRow>, states: seq<Catalogue>, results: seq<RowResult>)
    requires rows != [] && Reports(rows, states, results) && states[0] == c
    ensures Catalogues.ImportFacilityLayout(c, rows) ==
            Ok(Closed(states[|rows|], |rows|, Succeeded(results), |rows| - Succeeded(results)))
  {
    ReportAgrees(c, rows, states, results, |rows|);
    assert results[..|rows|] == results;
    ImportUnfolds(c, rows, states[|rows|], Succeeded(results));
  }

  /** And that account is one step of the catalogue. */
  lemma ImportReaches(c: Catalogue, rows: seq<Catalogues.ImportRow>, states: seq<Catalogue>, results: seq<RowResult>)
    requires rows != [] && Reports(rows, states, results) && states[0] == c
    ensures CatalogueLaws.Reaches(c, Closed(states[|rows|], |rows|, Succeeded(results), |rows| - Succeeded(results)))
  {
    ImportAgrees(c, rows, states, results);
    CatalogueLaws.StepReaches(c, Catalogues.Import(rows));
  }

  /** What a registration can do, and that it is a step of the catalogue. */
  lemma RegistrationMeans(c: Catalogue, code: Address, typeName: string, override: Capacity,
                          dockFlow: Text<DockFlow>, activities: seq<Text<Activity>>)
    ensures var spec := Catalogues.RegisterLocationSlot(c, code, typeName, override, dockFlow, activities);
            && CatalogueLaws.Reaches(c, if spec.Ok? then spec.value else c)
            && (Catalogues.Rooted(c) ==>
                  (spec.Ok? <==> CatalogueLaws.Registrable(c, code, typeName, override, dockFlow, activities)))
            && (spec.Ok? ==>
                  && typeName in c.types && code.String() in spec.value.slots
                  && CatalogueLaws.IsNewSlot(spec.value.slots[code.String()], code, c.types[typeName], override,
                                             dockFlow, activities)
                  && spec.value == c.(slots := c.slots[code.String() := spec.value.slots[code.String()]],
                                      events := c.events + [LocationSlotRegistered(code.String())]))
  {
    CatalogueLaws.StepReaches(c, Catalogues.AddSlot(code, typeName, override, dockFlow, activities));
    var spec := Catalogues.RegisterLocationSlot(c, code, typeName, override, dockFlow, activities);
    if Catalogues.Rooted(c) {
      CatalogueLaws.RegistrationExactly(c, code, typeName, override, dockFlow, activities);
    }
    if spec.Ok? {
      CatalogueLaws.RegistrationStores(c, code, typeName, override, dockFlow, activities);
    }
  }
}
