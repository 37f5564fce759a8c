/** The catalogue-growth read model: what each event contributes, and the sum of contributions every
    store must show, each event id counted once. */
module Projections {
  import opened LocationCodes

  type EventId = nat

  datatype Counter =
    | Sites | Zones | Aisles | LocationTypes | Rules | Slots | Decommissioned
    | Imports | RowsSubmitted | RowsImported | RowsRejected

  /** The counters of one row. */
  datatype Counts = Counts(sites: int, zones: int, aisles: int, locationTypes: int, rules: int,
                           slots: int, decommissioned: int,
                           imports: int, rowsSubmitted: int, rowsImported: int, rowsRejected: int) {
    function Plus(c: Counts): Counts {
      Counts(sites + c.sites, zones + c.zones, aisles + c.aisles, locationTypes + c.locationTypes, rules + c.rules,
             slots + c.slots, decommissioned + c.decommissioned,
             imports + c.imports, rowsSubmitted + c.rowsSubmitted, rowsImported + c.rowsImported,
             rowsRejected + c.rowsRejected)
    }

    function Get(counter: Counter): int {
      match counter
      case Sites => sites
      case Zones => zones
      case Aisles => aisles
      case LocationTypes => locationTypes
      case Rules => rules
      case Slots => slots
      case Decommissioned => decommissioned
      case Imports => imports
      case RowsSubmitted => rowsSubmitted
      case RowsImported => rowsImported
      case RowsRejected => rowsRejected
    }
  }

  const ZERO := Counts(0, 0, 0, 0, 0, 0, 0, 0, 0, 0, 0)

  const SECONDS_PER_DAY := 86_400

  /** A row of the report: a scope and a UTC day. Times are whole seconds since the Unix epoch. */
  datatype RowKey = RowKey(scope: string, day: int)

  /** What one event adds, to which scope and at which time. */
  datatype Contribution = Contribution(scope: string, at: int, counts: Counts) {
    function Key(): RowKey {
      RowKey(scope, at / SECONDS_PER_DAY)
    }
  }

  // ---- events ----

  datatype EventType =
    | SiteRegistered | ZoneRegistered | AisleRegistered | LocationTypeRegistered | PlacementRuleDefined
    | LocationSlotRegistered | LocationSlotDecommissioned | FacilityLayoutImported
    | OtherType(name: string)

  datatype EventData = EventData(siteCode: string, zoneId: string, locationCode: string,
                                 submitted: int, imported: int, rejected: int)

  /** The data of an event, when it can be read as the shape the projector expects. */
  datatype Payload = Readable(data: EventData) | Unreadable

  datatype CloudEvent = CloudEvent(id: EventId, kind: EventType, at: int, payload: Payload)

  predicate IsCatalogChange(kind: EventType) {
    !kind.OtherType?
  }

  /** An event the projector can apply. */
  predicate Projects(e: CloudEvent) {
    IsCatalogChange(e.kind) && e.payload.Readable?
  }

  /** The projection method an event is routed to: its scope and its one increment; an import also adds
      its row tallies. */
  function ContributionOf(e: CloudEvent): Contribution
    requires Projects(e)
  {
    var d := e.payload.data;
    match e.kind
    case SiteRegistered => Contribution(d.siteCode, e.at, ZERO.(sites := 1))
    case ZoneRegistered => Contribution(d.siteCode, e.at, ZERO.(zones := 1))
    case AisleRegistered => Contribution(d.zoneId, e.at, ZERO.(aisles := 1))
    case LocationTypeRegistered => Contribution("", e.at, ZERO.(locationTypes := 1))
    case PlacementRuleDefined => Contribution("", e.at, ZERO.(rules := 1))
    case LocationSlotRegistered => Contribution(ZoneOf(d.locationCode), e.at, ZERO.(slots := 1))
    case LocationSlotDecommissioned => Contribution(ZoneOf(d.locationCode), e.at, ZERO.(decommissioned := 1))
    case FacilityLayoutImported =>
      Contribution("", e.at, ZERO.(imports := 1, rowsSubmitted := d.submitted, rowsImported := d.imported,
        rowsRejected := d.rejected))
  }

  /** Slot events count in the zone of the domain's own code, though the projector reads only its text. */
  lemma SlotEventsCountInTheirZone(e: CloudEvent, c: LocationCode)
    requires Projects(e) && (e.kind.LocationSlotRegistered? || e.kind.LocationSlotDecommissioned?)
    requires c.Valid() && e.payload.data.locationCode == c.String()
    ensures ContributionOf(e).scope == c.ZoneId()
  {
    ZoneOfAgrees(c);
  }

  // ---- the sum every store must show ----

  type Claims = map<EventId, Contribution>

  /** What a contribution adds to one counter of one row. */
  function Share(c: Contribution, key: RowKey, counter: Counter): int {
    if c.Key() == key then c.counts.Get(counter) else 0
  }

  /** The sum, for one counter of one row, of the contributions listed. */
  function Fold(claims: Claims, order: seq<EventId>, key: RowKey, counter: Counter): int
    requires forall id :: id in order ==> id in claims
  {
    if order == [] then 0
    else Fold(claims, order[..|order| - 1], key, counter) + Share(claims[order[|order| - 1]], key, counter)
  }

  predicate Distinct(order: seq<EventId>) {
    forall j, k :: 0 <= j < k < |order| ==> order[j] != order[k]
  }

  /** Every claimed event once, in some order. */
  ghost predicate Enumerates(order: seq<EventId>, ids: set<EventId>) {
    Distinct(order) && (forall id :: id in order <==> id in ids)
  }

  ghost function SomeOrder(ids: set<EventId>): (order: seq<EventId>)
    ensures Enumerates(order, ids)
  {
    if ids == {} then []
    else
      var id :| id in ids;
      var rest := SomeOrder(ids - {id});
      assert forall k :: 0 <= k < |rest| ==> rest[k] in rest;
      rest + [id]
  }

  ghost function Total(claims: Claims, key: RowKey, counter: Counter): int {
    Fold(claims, SomeOrder(claims.Keys), key, counter)
  }

  lemma {:induction false} FoldAppend(claims: Claims, a: seq<EventId>, b: seq<EventId>, key: RowKey, counter: Counter)
    requires forall id :: id in a ==> id in claims
    requires forall id :: id in b ==> id in claims
    ensures Fold(claims, a + b, key, counter) == Fold(claims, a, key, counter) + Fold(claims, b, key, counter)
  {
    if b == [] {
      assert a + b == a;
    } else {
      assert (a + b)[..|a + b| - 1] == a + b[..|b| - 1];
      FoldAppend(claims, a, b[..|b| - 1], key, counter);
    }
  }

  /** The same events, with one taken out of its place. */
  lemma WithoutOne(b: seq<EventId>, k: nat)
    requires Distinct(b) && k < |b|
    ensures b == b[..k] + [b[k]] + b[k + 1..] && Distinct(b[..k] + b[k + 1..])
    ensures forall id :: id in b[..k] + b[k + 1..] <==> id in b && id != b[k]
  {
    var rest := b[..k] + b[k + 1..];
    forall id | id in b && id != b[k] ensures id in rest {
      var j :| 0 <= j < |b| && b[j] == id;
      assert rest[if j < k then j else j - 1] == id;
    }
  }

  lemma HasMember(b: seq<EventId>)
    requires b != []
    ensures exists id :: id in b
  {
    assert b[0] in b;
  }

  lemma FoldWithoutOne(claims: Claims, b: seq<EventId>, k: nat, key: RowKey, counter: Counter)
    requires Distinct(b) && k < |b| && forall id :: id in b ==> id in claims
    ensures forall id :: id in b[..k] + b[k + 1..] ==> id in claims
    ensures Fold(claims, b, key, counter) == Fold(claims, b[..k] + b[k + 1..], key, counter)
            + Share(claims[b[k]], key, counter)
  {
    var left, right := b[..k], b[k + 1..];
    WithoutOne(b, k);
    FoldAppend(claims, left, right, key, counter);
    FoldAppend(claims, left + [b[k]], right, key, counter);
    assert (left + [b[k]])[..|left|] == left;
  }

  /** The sum does not depend on the order in which the events are listed. */
  lemma {:induction false} FoldIgnoresOrder(claims: Claims, a: seq<EventId>, b: seq<EventId>, key: RowKey,
          counter: Counter)
    requires Distinct(a) && Distinct(b) && forall id :: id in a <==> id in b
    requires forall id :: id in a ==> id in claims
    ensures Fold(claims, a, key, counter) == Fold(claims, b, key, counter)
  {
    if a == [] {
      if b != [] { HasMember(b); }
    } else {
      var rest, last := a[..|a| - 1], a[|a| - 1];
      assert a == rest + [last] && last in b;
      var k :| 0 <= k < |b| && b[k] == last;
      WithoutOne(b, k);
      FoldWithoutOne(claims, b, k, key, counter);
      forall id ensures id in rest <==> id in b[..k] + b[k + 1..] {
        assert id in rest <==> id in a && id != last;
      }
      FoldIgnoresOrder(claims, rest, b[..k] + b[k + 1..], key, counter);
    }
  }

  lemma {:induction false} FoldReadsOnly(claims: Claims, claims': Claims, order: seq<EventId>, key: RowKey,
          counter: Counter)
    requires forall id :: id in order ==> id in claims && id in claims' && claims[id] == claims'[id]
    ensures Fold(claims, order, key, counter) == Fold(claims', order, key, counter)
  {
    if order != [] { FoldReadsOnly(claims, claims', order[..|order| - 1], key, counter); }
  }

  lemma TotalIsFold(claims: Claims, order: seq<EventId>, key: RowKey, counter: Counter)
    requires Enumerates(order, claims.Keys)
    ensures Total(claims, key, counter) == Fold(claims, order, key, counter)
  {
    FoldIgnoresOrder(claims, SomeOrder(claims.Keys), order, key, counter);
  }

  lemma EnumerationGrows(order: seq<EventId>, ids: set<EventId>, id: EventId)
    requires Enumerates(order, ids) && id !in ids
    ensures Enumerates(order + [id], ids + {id})
  {
    assert forall k :: 0 <= k < |order| ==> order[k] in order;
  }

  lemma TotalAdds(claims: Claims, id: EventId, c: Contribution, key: RowKey, counter: Counter)
    requires id !in claims
    ensures Total(claims[id := c], key, counter) == Total(claims, key, counter) + Share(c, key, counter)
  {
    var order, claims' := SomeOrder(claims.Keys), claims[id := c];
    EnumerationGrows(order, claims.Keys, id);
    TotalIsFold(claims', order + [id], key, counter);
    FoldReadsOnly(claims, claims', order, key, counter);
    assert (order + [id])[..|order|] == order;
  }

  ghost predicate Touched(claims: Claims, key: RowKey) {
    exists id :: id in claims && claims[id].Key() == key
  }

  ghost predicate Sums(row: Counts, claims: Claims, key: RowKey) {
    forall counter: Counter :: row.Get(counter) == Total(claims, key, counter)
  }

  /** The rows of a store show a set of claims: a row for each key some claim falls in, and no other,
      each with the sum of those claims. */
  ghost predicate Shows(rows: map<RowKey, Counts>, claims: Claims) {
    forall key :: (key in rows <==> Touched(claims, key)) && (key in rows ==> Sums(rows[key], claims, key))
  }

  /** Adding a contribution to its row, inserting the row if it is not there. */
  function AddTo(rows: map<RowKey, Counts>, c: Contribution): map<RowKey, Counts> {
    rows[c.Key() := (if c.Key() in rows then rows[c.Key()] else ZERO).Plus(c.counts)]
  }

  lemma {:induction false} UntouchedIsZero(claims: Claims, order: seq<EventId>, key: RowKey, counter: Counter)
    requires (forall id :: id in order ==> id in claims) && !Touched(claims, key)
    ensures Fold(claims, order, key, counter) == 0
  {
    if order != [] { UntouchedIsZero(claims, order[..|order| - 1], key, counter); }
  }

  lemma GetPlus(a: Counts, b: Counts, counter: Counter)
    ensures a.Plus(b).Get(counter) == a.Get(counter) + b.Get(counter) && ZERO.Get(counter) == 0
  {
  }

  lemma TouchedAfter(claims: Claims, id: EventId, c: Contribution, key: RowKey)
    requires id !in claims
    ensures Touched(claims[id := c], key) <==> Touched(claims, key) || c.Key() == key
  {
    if Touched(claims, key) {
      var i :| i in claims && claims[i].Key() == key;
      assert claims[id := c][i].Key() == key;
    }
    if c.Key() == key {
      assert claims[id := c][id].Key() == key;
    }
  }

  lemma RowSums(rows: map<RowKey, Counts>, claims: Claims, id: EventId, c: Contribution, key: RowKey)
    requires Shows(rows, claims) && id !in claims && key in AddTo(rows, c)
    ensures Sums(AddTo(rows, c)[key], claims[id := c], key)
  {
    forall counter: Counter ensures AddTo(rows, c)[key].Get(counter) == Total(claims[id := c], key, counter) {
      TotalAdds(claims, id, c, key, counter);
      var was := if key in rows then rows[key] else ZERO;
      GetPlus(was, c.counts, counter);
      if key !in rows {
        UntouchedIsZero(claims, SomeOrder(claims.Keys), key, counter);
      } else {
        assert Sums(rows[key], claims, key);
      }
    }
  }

  /** Adding one unclaimed event's contribution keeps the rows equal to the sum of the claims. */
  lemma AddKeepsShowing(rows: map<RowKey, Counts>, claims: Claims, id: EventId, c: Contribution)
    requires Shows(rows, claims) && id !in claims
    ensures Shows(AddTo(rows, c), claims[id := c])
  {
    forall key ensures key in AddTo(rows, c) <==> Touched(claims[id := c], key) {
      TouchedAfter(claims, id, c, key);
    }
    forall key | key in AddTo(rows, c) ensures Sums(AddTo(rows, c)[key], claims[id := c], key) {
      RowSums(rows, claims, id, c, key);
    }
  }
}
