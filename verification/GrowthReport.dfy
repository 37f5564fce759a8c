/** The catalogue and its report together: what the use cases store is what the report, once caught up,
    adds up to. */
module GrowthReports {
  import opened Projections
  import L = Layout
  import K = Catalogues
  import Laws = CatalogueLaws
  import P = Pipelines

  // ---- domain events as CloudEvents ----

  function TypeOf(e: L.Event): EventType {
    match e
    case SiteRegistered(_) => SiteRegistered
    case ZoneRegistered(_, _) => ZoneRegistered
    case AisleRegistered(_, _) => AisleRegistered
    case CrossAisleRegistered(_) => OtherType("CrossAisleRegistered")
    case LocationTypeRegistered(_) => LocationTypeRegistered
    case PlacementRuleDefined(_) => PlacementRuleDefined
    case LocationSlotRegistered(_) => LocationSlotRegistered
    case LocationSlotDecommissioned(_) => LocationSlotDecommissioned
    case AisleGeometryUpdated(_) => OtherType("AisleGeometryUpdated")
    case LocationGeometryUpdated(_) => OtherType("LocationGeometryUpdated")
    case FacilityLayoutImported(_, _, _) => FacilityLayoutImported
  }

  const NO_DATA := EventData("", "", "", 0, 0, 0)

  function DataOf(e: L.Event): EventData {
    match e
    case SiteRegistered(site) => NO_DATA.(siteCode := site)
    case ZoneRegistered(zoneId, site) => NO_DATA.(zoneId := zoneId, siteCode := site)
    case AisleRegistered(_, zoneId) => NO_DATA.(zoneId := zoneId)
    case LocationSlotRegistered(code) => NO_DATA.(locationCode := code)
    case LocationSlotDecommissioned(code) => NO_DATA.(locationCode := code)
    case FacilityLayoutImported(submitted, imported, rejected) =>
      NO_DATA.(submitted := submitted, imported := imported, rejected := rejected)
    case _ => NO_DATA
  }

  /** The k-th event of the catalogue's history, under its own id. */
  function Encoded(e: L.Event, id: EventId, at: int): CloudEvent {
    CloudEvent(id, TypeOf(e), at, Readable(DataOf(e)))
  }

  /** Every event of a history is recorded, each under its own id, and nothing else is. */
  ghost predicate Records(recorded: map<EventId, CloudEvent>, events: seq<L.Event>, times: EventId -> int) {
    && (forall id: EventId :: id in recorded <==> id < |events|)
    && (forall id :: id in recorded ==> recorded[id] == Encoded(events[id], id, times(id)))
  }

  /** The kinds of change the report counts, and their counters. */
  predicate Reported(kind: L.Kind) {
    kind != L.CrossAisleKind && kind != L.OtherKind
  }

  function CounterOf(kind: L.Kind): Counter
    requires Reported(kind)
  {
    match kind
    case SiteKind => Sites
    case ZoneKind => Zones
    case AisleKind => Aisles
    case TypeKind => LocationTypes
    case RuleKind => Rules
    case SlotKind => Slots
    case RetireKind => Decommissioned
  }

  lemma OneEventCounts(e: L.Event, id: EventId, at: int, kind: L.Kind)
    requires Reported(kind)
    ensures var ce := Encoded(e, id, at);
            if Projects(ce) then ContributionOf(ce).counts.Get(CounterOf(kind)) == if L.KindOf(e) == kind then 1 else 0
            else L.KindOf(e) != kind
  {
  }

  // ---- adding up a report ----

  /** One counter added up over the rows listed. */
  function SumRows(rows: map<RowKey, Counts>, keys: seq<RowKey>, counter: Counter): int
    requires forall key :: key in keys ==> key in rows
  {
    if keys == [] then 0
    else SumRows(rows, keys[..|keys| - 1], counter) + rows[keys[|keys| - 1]].Get(counter)
  }

  predicate AllRowsOnce(keys: seq<RowKey>, rows: map<RowKey, Counts>) {
    && (forall j, k :: 0 <= j < k < |keys| ==> keys[j] != keys[k])
    && (forall key :: key in keys ==> key in rows) && (forall key :: key in rows ==> key in keys)
  }

  /** The contributions listed, whatever row they fall in. */
  function SumClaims(claims: Claims, order: seq<EventId>, counter: Counter): int
    requires forall id :: id in order ==> id in claims
  {
    if order == [] then 0
    else SumClaims(claims, order[..|order| - 1], counter) + claims[order[|order| - 1]].counts.Get(counter)
  }

  function SumFolds(claims: Claims, order: seq<EventId>, keys: seq<RowKey>, counter: Counter): int
    requires forall id :: id in order ==> id in claims
  {
    if keys == [] then 0
    else SumFolds(claims, order, keys[..|keys| - 1], counter) + Fold(claims, order, keys[|keys| - 1], counter)
  }

  function SumShares(c: Contribution, keys: seq<RowKey>, counter: Counter): int {
    if keys == [] then 0
    else SumShares(c, keys[..|keys| - 1], counter) + Share(c, keys[|keys| - 1], counter)
  }

  lemma {:induction false} ShareFallsOnce(c: Contribution, keys: seq<RowKey>, counter: Counter)
    requires forall j, k :: 0 <= j < k < |keys| ==> keys[j] != keys[k]
    ensures SumShares(c, keys, counter) == if c.Key() in keys then c.counts.Get(counter) else 0
  {
    if keys != [] {
      var rest := keys[..|keys| - 1];
      ShareFallsOnce(c, rest, counter);
      assert keys == rest + [keys[|keys| - 1]];
    }
  }

  lemma {:induction false} FoldsOfNothing(claims: Claims, keys: seq<RowKey>, counter: Counter)
    ensures SumFolds(claims, [], keys, counter) == 0
  {
    if keys != [] { FoldsOfNothing(claims, keys[..|keys| - 1], counter); }
  }

  lemma {:induction false} FoldsOneMore(claims: Claims, order: seq<EventId>, keys: seq<RowKey>, counter: Counter)
    requires order != [] && forall id :: id in order ==> id in claims
    ensures SumFolds(claims, order, keys, counter)
            == SumFolds(claims, order[..|order| - 1], keys, counter)
              + SumShares(claims[order[|order| - 1]], keys, counter)
  {
    if keys != [] { FoldsOneMore(claims, order, keys[..|keys| - 1], counter); }
  }

  /** Adding up row by row or event by event is the same. */
  lemma {:induction false} FoldsAreClaims(claims: Claims, order: seq<EventId>, keys: seq<RowKey>, counter: Counter)
    requires forall id :: id in order ==> id in claims && claims[id].Key() in keys
    requires forall j, k :: 0 <= j < k < |keys| ==> keys[j] != keys[k]
    ensures SumFolds(claims, order, keys, counter) == SumClaims(claims, order, counter)
  {
    if order == [] {
      FoldsOfNothing(claims, keys, counter);
    } else {
      FoldsAreClaims(claims, order[..|order| - 1], keys, counter);
      FoldsOneMore(claims, order, keys, counter);
      assert order[|order| - 1] in order;
      ShareFallsOnce(claims[order[|order| - 1]], keys, counter);
    }
  }

  lemma {:induction false} RowsAreFolds(rows: map<RowKey, Counts>, claims: Claims, order: seq<EventId>,
          keys: seq<RowKey>, counter: Counter)
    requires Shows(rows, claims) && Enumerates(order, claims.Keys) && forall key :: key in keys ==> key in rows
    ensures SumRows(rows, keys, counter) == SumFolds(claims, order, keys, counter)
  {
    if keys != [] {
      var key := keys[|keys| - 1];
      assert key in keys;
      RowsAreFolds(rows, claims, order, keys[..|keys| - 1], counter);
      assert Sums(rows[key], claims, key);
      TotalIsFold(claims, order, key, counter);
    }
  }

  /** A report added up over all its rows is its events added up. */
  lemma ReportAddsUp(rows: map<RowKey, Counts>, claims: Claims, order: seq<EventId>, keys: seq<RowKey>,
          counter: Counter)
    requires Shows(rows, claims) && Enumerates(order, claims.Keys) && AllRowsOnce(keys, rows)
    ensures SumRows(rows, keys, counter) == SumClaims(claims, order, counter)
  {
    RowsAreFolds(rows, claims, order, keys, counter);
    forall id | id in order ensures claims[id].Key() in keys {
      assert Touched(claims, claims[id].Key());
    }
    FoldsAreClaims(claims, order, keys, counter);
  }

  // ---- the history behind a report ----

  /** The claimed events among the first n, in the order they happened. */
  function ClaimedIds(claims: Claims, n: nat): seq<EventId> {
    if n == 0 then [] else ClaimedIds(claims, n - 1) + (if n - 1 in claims then [n - 1] else [])
  }

  lemma {:induction false} ClaimedIdsEnumerate(claims: Claims, n: nat)
    ensures Distinct(ClaimedIds(claims, n))
    ensures forall id :: id in ClaimedIds(claims, n) <==> id < n && id in claims
  {
    if n > 0 {
      ClaimedIdsEnumerate(claims, n - 1);
      var shorter := ClaimedIds(claims, n - 1);
      assert forall k :: 0 <= k < |shorter| ==> shorter[k] in shorter;
    }
  }

  /** An event adds one to its kind's counter when it is of that kind and not lost, and nothing otherwise. */
  predicate Weighs(claims: Claims, lost: set<EventId>, id: EventId, counter: Counter, ofKind: bool) {
    if id in claims then id !in lost && claims[id].counts.Get(counter) == if ofKind then 1 else 0
    else ofKind ==> id in lost
  }

  /** The lost ones among the first n events that are of a kind. */
  function LostOf(lost: set<EventId>, events: seq<L.Event>, n: nat, kind: L.Kind): set<EventId>
    requires n <= |events|
  {
    set id | id in lost && id < n && L.KindOf(events[id]) == kind
  }

  lemma LostOneMore(lost: set<EventId>, events: seq<L.Event>, n: nat, kind: L.Kind)
    requires n < |events|
    ensures |LostOf(lost, events, n + 1, kind)|
            == |LostOf(lost, events, n, kind)| + if n in lost && L.KindOf(events[n]) == kind then 1 else 0
  {
    var one := if n in lost && L.KindOf(events[n]) == kind then {n} else {};
    assert LostOf(lost, events, n + 1, kind) == LostOf(lost, events, n, kind) + one;
  }

  lemma SumOneMore(claims: Claims, n: nat, counter: Counter)
    ensures forall id :: id in ClaimedIds(claims, n) ==> id in claims
    ensures forall id :: id in ClaimedIds(claims, n + 1) ==> id in claims
    ensures SumClaims(claims, ClaimedIds(claims, n + 1), counter)
            == SumClaims(claims, ClaimedIds(claims, n), counter)
               + if n in claims then claims[n].counts.Get(counter) else 0
  {
    ClaimedIdsEnumerate(claims, n);
    ClaimedIdsEnumerate(claims, n + 1);
    var shorter, longer := ClaimedIds(claims, n), ClaimedIds(claims, n + 1);
    assert longer == if n in claims then shorter + [n] else shorter;
    assert n in claims ==> longer[..|longer| - 1] == shorter && longer[|longer| - 1] == n;
  }

  lemma {:induction false} HistoryIsCounted(claims: Claims, lost: set<EventId>, events: seq<L.Event>, n: nat,
          kind: L.Kind)
    requires n <= |events| && Reported(kind)
    requires forall id: EventId :: id < |events|
               ==> Weighs(claims, lost, id, CounterOf(kind), L.KindOf(events[id]) == kind)
    ensures forall id :: id in ClaimedIds(claims, n) ==> id in claims
    ensures SumClaims(claims, ClaimedIds(claims, n), CounterOf(kind)) + |LostOf(lost, events, n, kind)|
            == L.Count(events[..n], kind)
  {
    ClaimedIdsEnumerate(claims, n);
    if n == 0 {
      L.CountNothing(events[..0], kind);
    } else {
      HistoryIsCounted(claims, lost, events, n - 1, kind);
      assert Weighs(claims, lost, n - 1, CounterOf(kind), L.KindOf(events[n - 1]) == kind);
      LostOneMore(lost, events, n - 1, kind);
      SumOneMore(claims, n - 1, CounterOf(kind));
      L.CountOneMore(events[..n - 1], events[n - 1], kind);
      assert events[..n] == events[..n - 1] + [events[n - 1]];
    }
  }

  lemma RecordedWeighs(p: P.Pipeline, events: seq<L.Event>, times: EventId -> int, kind: L.Kind)
    requires P.Sound(p) && P.Drained(p) && Records(p.recorded, events, times) && Reported(kind)
    ensures forall id: EventId :: id < |events|
              ==> Weighs(p.projector.shared.claims, P.Lost(p), id, CounterOf(kind), L.KindOf(events[id]) == kind)
  {
    P.ClaimsAreRecorded(p);
    P.DrainedClaims(p);
    forall id: EventId | id < |events|
      ensures Weighs(p.projector.shared.claims, P.Lost(p), id, CounterOf(kind), L.KindOf(events[id]) == kind)
    {
      OneEventCounts(events[id], id, times(id), kind);
      assert p.recorded[id] == Encoded(events[id], id, times(id));
    }
  }

  /** From use case to report: after any sequence of commands, direct or imported, once their events have
      been recorded and the pipeline is drained, however it crashed, retried and gave up on the way, each of
      the report's totals falls short of the number of aggregates of that kind the catalogue stores by
      exactly the events of that kind that were given up and never applied. */
  lemma ReportFallsShortByTheLost(cmds: seq<K.Command>, times: EventId -> int, actions: seq<P.Action>,
          keys: seq<RowKey>, kind: L.Kind)
    requires Reported(kind)
    requires var p := P.Run(P.Start(), actions);
             && Records(p.recorded, K.Run(L.EMPTY_CATALOGUE, cmds).events, times)
             && P.Drained(p) && AllRowsOnce(keys, p.projector.shared.rollup)
    ensures var c, p := K.Run(L.EMPTY_CATALOGUE, cmds), P.Run(P.Start(), actions);
            SumRows(p.projector.shared.rollup, keys, CounterOf(kind))
            == Laws.Stored(c, kind) - |LostOf(P.Lost(p), c.events, |c.events|, kind)|
  {
    var c, p := K.Run(L.EMPTY_CATALOGUE, cmds), P.Run(P.Start(), actions);
    var t, n := p.projector.shared, |c.events|;
    P.RunKeeps(actions);
    RecordedWeighs(p, c.events, times, kind);
    HistoryIsCounted(t.claims, P.Lost(p), c.events, n, kind);
    P.ClaimsAreRecorded(p);
    ClaimedIdsEnumerate(t.claims, n);
    var order := ClaimedIds(t.claims, n);
    ReportAddsUp(t.rollup, t.claims, order, keys, CounterOf(kind));
    assert c.events[..n] == c.events;
    StoredIsCounted(cmds, kind);
  }

  /** So once the pipeline has caught up, each total is the number of aggregates of that kind the catalogue
      stores. */
  lemma ReportCountsTheCatalogue(cmds: seq<K.Command>, times: EventId -> int, actions: seq<P.Action>,
          keys: seq<RowKey>, kind: L.Kind)
    requires Reported(kind)
    requires var p := P.Run(P.Start(), actions);
             && Records(p.recorded, K.Run(L.EMPTY_CATALOGUE, cmds).events, times)
             && P.CaughtUp(p) && AllRowsOnce(keys, p.projector.shared.rollup)
    ensures SumRows(P.Run(P.Start(), actions).projector.shared.rollup, keys, CounterOf(kind))
            == Laws.Stored(K.Run(L.EMPTY_CATALOGUE, cmds), kind)
  {
    ReportFallsShortByTheLost(cmds, times, actions, keys, kind);
    P.CaughtUpLosesNothing(P.Run(P.Start(), actions));
  }

  lemma StoredIsCounted(cmds: seq<K.Command>, kind: L.Kind)
    requires kind != L.OtherKind
    ensures var c := K.Run(L.EMPTY_CATALOGUE, cmds); Laws.Stored(c, kind) == L.Count(c.events, kind)
  {
    Laws.RunBalanced(L.EMPTY_CATALOGUE, cmds, kind);
    L.CountNothing(L.EMPTY_CATALOGUE.events, kind);
    assert Laws.Retired(L.EMPTY_CATALOGUE.slots) == {};
  }
}
