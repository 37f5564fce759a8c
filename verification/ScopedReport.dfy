/** The report row by row, told from the catalogue's history: which scope and which day each event counts in,
    what it adds, and that each scope's rows add up to what is stored there. */
module ScopedReports {
  import opened LocationCodes
  import opened Projections
  import L = Layout
  import K = Catalogues
  import A = Announcements
  import G = GrowthReports
  import P = Pipelines
  import C = Consumers

  // ---- what one event tells ----

  /** How much an event of the history adds to a counter under a scope: sites and zones count under their
      site's code, aisles and slots under their zone's id, and definitions and imports under no name. */
  function Told(e: L.Event, scope: string, counter: Counter): int {
    match counter
    case Sites => if e.SiteRegistered? && e.site == scope then 1 else 0
    case Zones => if e.ZoneRegistered? && e.site == scope then 1 else 0
    case Aisles => if e.AisleRegistered? && e.zoneId == scope then 1 else 0
    case LocationTypes => if e.LocationTypeRegistered? && scope == "" then 1 else 0
    case Rules => if e.PlacementRuleDefined? && scope == "" then 1 else 0
    case Slots => if e.LocationSlotRegistered? && ZoneOf(e.code) == scope then 1 else 0
    case Decommissioned => if e.LocationSlotDecommissioned? && ZoneOf(e.code) == scope then 1 else 0
    case Imports => if e.FacilityLayoutImported? && scope == "" then 1 else 0
    case RowsSubmitted => if e.FacilityLayoutImported? && scope == "" then e.submitted else 0
    case RowsImported => if e.FacilityLayoutImported? && scope == "" then e.imported else 0
    case RowsRejected => if e.FacilityLayoutImported? && scope == "" then e.rejected else 0
  }

  /** A time, in seconds, falls on a UTC day. */
  predicate OnDay(at: int, day: int) {
    day * 86_400 <= at < (day + 1) * 86_400
  }

  /** What the first n events tell one row, but for the lost ones. */
  function TellRow(events: seq<L.Event>, n: nat, times: EventId -> int, lost: set<EventId>, key: RowKey,
          counter: Counter): int
    requires n <= |events|
  {
    if n == 0 then 0
    else
      TellRow(events, n - 1, times, lost, key, counter)
      + if n - 1 !in lost && OnDay(times(n - 1), key.day) then Told(events[n - 1], key.scope, counter) else 0
  }

  /** What the first n events tell a scope on all its days, but for the lost ones. */
  function TellScope(events: seq<L.Event>, n: nat, lost: set<EventId>, scope: string, counter: Counter): int
    requires n <= |events|
  {
    if n == 0 then 0
    else
      TellScope(events, n - 1, lost, scope, counter)
      + if n - 1 !in lost then Told(events[n - 1], scope, counter) else 0
  }

  /** The projector adds what the event tells, under its scope and on its day, and nothing elsewhere. */
  lemma OneIsTold(e: L.Event, id: EventId, at: int, scope: string, counter: Counter)
    ensures var ce := G.Encoded(e, id, at);
            if Projects(ce) then
              && ContributionOf(ce).at == at
              && (if ContributionOf(ce).scope == scope then ContributionOf(ce).counts.Get(counter) else 0)
                 == Told(e, scope, counter)
            else Told(e, scope, counter) == 0
  {
  }

  lemma DayOfTime(at: int, day: int)
    ensures at / 86_400 == day <==> OnDay(at, day)
  {
  }

  lemma OneShareIsTold(e: L.Event, id: EventId, at: int, key: RowKey, counter: Counter)
    ensures var ce := G.Encoded(e, id, at);
            if Projects(ce) then
              Share(ContributionOf(ce), key, counter) == if OnDay(at, key.day) then Told(e, key.scope, counter) else 0
            else Told(e, key.scope, counter) == 0
  {
    OneIsTold(e, id, at, key.scope, counter);
    DayOfTime(at, key.day);
  }

  // ---- what a drained report shows ----

  /** The claims are what the history's events contribute, but for the lost ones and those that no row counts. */
  ghost predicate Follows(claims: Claims, lost: set<EventId>, events: seq<L.Event>, times: EventId -> int) {
    forall id: EventId :: id < |events| ==> FollowsOne(claims, lost, id, G.Encoded(events[id], id, times(id)))
  }

  predicate FollowsOne(claims: Claims, lost: set<EventId>, id: EventId, ce: CloudEvent) {
    if id in claims then id !in lost && Projects(ce) && claims[id] == ContributionOf(ce)
    else id in lost || !Projects(ce)
  }

  lemma ClaimsFollow(p: P.Pipeline, events: seq<L.Event>, times: EventId -> int)
    requires P.Sound(p) && P.Drained(p) && G.Records(p.recorded, events, times)
    ensures Follows(p.projector.shared.claims, P.Lost(p), events, times)
  {
    P.ClaimsAreRecorded(p);
    P.DrainedClaims(p);
  }

  /** To one row the claim of an event, if there is one, adds what the event tells it. */
  predicate AddsToRow(claims: Claims, lost: set<EventId>, e: L.Event, id: EventId, at: int, key: RowKey,
          counter: Counter)
  {
    (if id in claims then Share(claims[id], key, counter) else 0)
    == if id !in lost && OnDay(at, key.day) then Told(e, key.scope, counter) else 0
  }

  /** And so it does to the scope as a whole. */
  predicate AddsToScope(claims: Claims, lost: set<EventId>, e: L.Event, id: EventId, scope: string, counter: Counter) {
    (if id in claims && claims[id].scope == scope then claims[id].counts.Get(counter) else 0)
    == if id !in lost then Told(e, scope, counter) else 0
  }

  lemma ShareFollows(claims: Claims, lost: set<EventId>, events: seq<L.Event>, times: EventId -> int, id: EventId,
          key: RowKey, counter: Counter)
    requires Follows(claims, lost, events, times) && id < |events|
    ensures AddsToRow(claims, lost, events[id], id, times(id), key, counter)
  {
    assert FollowsOne(claims, lost, id, G.Encoded(events[id], id, times(id)));
    OneShareIsTold(events[id], id, times(id), key, counter);
  }

  lemma ScopeFollows(claims: Claims, lost: set<EventId>, events: seq<L.Event>, times: EventId -> int, id: EventId,
          scope: string, counter: Counter)
    requires Follows(claims, lost, events, times) && id < |events|
    ensures AddsToScope(claims, lost, events[id], id, scope, counter)
  {
    assert FollowsOne(claims, lost, id, G.Encoded(events[id], id, times(id)));
    OneIsTold(events[id], id, times(id), scope, counter);
  }

  function Sum(worth: EventId -> int, n: nat): int {
    if n == 0 then 0 else Sum(worth, n - 1) + worth(n - 1)
  }

  lemma {:induction false} FoldIsSum(claims: Claims, n: nat, key: RowKey, counter: Counter, worth: EventId -> int)
    requires forall id: EventId :: worth(id) == if id in claims then Share(claims[id], key, counter) else 0
    ensures forall id :: id in G.ClaimedIds(claims, n) ==> id in claims
    ensures Fold(claims, G.ClaimedIds(claims, n), key, counter) == Sum(worth, n)
  {
    G.ClaimedIdsEnumerate(claims, n);
    if n > 0 {
      FoldIsSum(claims, n - 1, key, counter, worth);
      FoldOneMore(claims, n - 1, key, counter);
    }
  }

  lemma {:induction false} SumIsTold(events: seq<L.Event>, times: EventId -> int, lost: set<EventId>, n: nat,
          key: RowKey, counter: Counter, worth: EventId -> int)
    requires n <= |events|
    requires forall id: EventId :: id < n ==>
      worth(id) == if id !in lost && OnDay(times(id), key.day) then Told(events[id], key.scope, counter) else 0
    ensures Sum(worth, n) == TellRow(events, n, times, lost, key, counter)
  {
    if n > 0 { SumIsTold(events, times, lost, n - 1, key, counter, worth); }
  }

  lemma FoldIsTold(claims: Claims, lost: set<EventId>, events: seq<L.Event>, times: EventId -> int, n: nat, key: RowKey,
          counter: Counter)
    requires n <= |events|
    requires forall id: EventId :: id < n ==> AddsToRow(claims, lost, events[id], id, times(id), key, counter)
    ensures forall id :: id in G.ClaimedIds(claims, n) ==> id in claims
    ensures Fold(claims, G.ClaimedIds(claims, n), key, counter) == TellRow(events, n, times, lost, key, counter)
  {
    var worth := (id: EventId) => if id in claims then Share(claims[id], key, counter) else 0;
    FoldIsSum(claims, n, key, counter, worth);
    forall id: EventId | id < n
      ensures worth(id) == if id !in lost && OnDay(times(id), key.day) then Told(events[id], key.scope, counter) else 0
    {
      assert AddsToRow(claims, lost, events[id], id, times(id), key, counter);
    }
    SumIsTold(events, times, lost, n, key, counter, worth);
  }

  lemma FoldOneMore(claims: Claims, n: nat, key: RowKey, counter: Counter)
    ensures forall id :: id in G.ClaimedIds(claims, n) ==> id in claims
    ensures forall id :: id in G.ClaimedIds(claims, n + 1) ==> id in claims
    ensures Fold(claims, G.ClaimedIds(claims, n + 1), key, counter)
            == Fold(claims, G.ClaimedIds(claims, n), key, counter)
               + if n in claims then Share(claims[n], key, counter) else 0
  {
    G.ClaimedIdsEnumerate(claims, n);
    G.ClaimedIdsEnumerate(claims, n + 1);
    var shorter, longer := G.ClaimedIds(claims, n), G.ClaimedIds(claims, n + 1);
    assert longer == if n in claims then shorter + [n] else shorter;
    assert n in claims ==> longer[..|longer| - 1] == shorter && longer[|longer| - 1] == n;
  }

  lemma FoldsOneMore(claims: Claims, n: nat, keys: seq<RowKey>, counter: Counter)
    requires forall j, k :: 0 <= j < k < |keys| ==> keys[j] != keys[k]
    ensures forall id :: id in G.ClaimedIds(claims, n) ==> id in claims
    ensures forall id :: id in G.ClaimedIds(claims, n + 1) ==> id in claims
    ensures G.SumFolds(claims, G.ClaimedIds(claims, n + 1), keys, counter)
            == G.SumFolds(claims, G.ClaimedIds(claims, n), keys, counter)
               + if n in claims && claims[n].Key() in keys then claims[n].counts.Get(counter) else 0
  {
    G.ClaimedIdsEnumerate(claims, n);
    G.ClaimedIdsEnumerate(claims, n + 1);
    var shorter, longer := G.ClaimedIds(claims, n), G.ClaimedIds(claims, n + 1);
    assert longer == if n in claims then shorter + [n] else shorter;
    if n in claims {
      assert longer[..|longer| - 1] == shorter && longer[|longer| - 1] == n;
      G.FoldsOneMore(claims, longer, keys, counter);
      G.ShareFallsOnce(claims[n], keys, counter);
    }
  }

  /** Every counter of every row: after any sequence of use cases, once their events are recorded and the
      pipeline is drained, it is the sum of what the events of that day tell that scope, but for the lost
      ones; and no row shows anything else. */
  lemma RowIsTheHistory(cmds: seq<K.Command>, times: EventId -> int, actions: seq<P.Action>, key: RowKey,
          counter: Counter)
    requires var p := P.Run(P.Start(), actions);
             G.Records(p.recorded, K.Run(L.EMPTY_CATALOGUE, cmds).events, times) && P.Drained(p)
    ensures var p, events := P.Run(P.Start(), actions), K.Run(L.EMPTY_CATALOGUE, cmds).events;
            var rows := p.projector.shared.rollup;
            (if key in rows then rows[key].Get(counter) else 0)
            == TellRow(events, |events|, times, P.Lost(p), key, counter)
  {
    var p, events := P.Run(P.Start(), actions), K.Run(L.EMPTY_CATALOGUE, cmds).events;
    P.RunKeeps(actions);
    ClaimsFollow(p, events, times);
    var claims := p.projector.shared.claims;
    forall id: EventId | id < |events|
      ensures AddsToRow(claims, P.Lost(p), events[id], id, times(id), key, counter)
    {
      ShareFollows(claims, P.Lost(p), events, times, id, key, counter);
    }
    FoldIsTold(claims, P.Lost(p), events, times, |events|, key, counter);
    G.ClaimedIdsEnumerate(claims, |events|);
    P.ClaimsAreRecorded(p);
    C.RowIsFold(p.projector.shared, G.ClaimedIds(claims, |events|), key, counter);
  }

  // ---- one scope on all its days ----

  /** The rows of a scope, each once. */
  predicate ScopeRowsOnce(keys: seq<RowKey>, rows: map<RowKey, Counts>, scope: string) {
    && (forall j, k :: 0 <= j < k < |keys| ==> keys[j] != keys[k])
    && (forall key :: key in keys ==> key in rows && key.scope == scope)
    && (forall key :: key in rows && key.scope == scope ==> key in keys)
  }

  lemma OneMoreTold(claims: Claims, lost: set<EventId>, events: seq<L.Event>, n: nat, keys: seq<RowKey>, scope: string,
          counter: Counter)
    requires n < |events| && AddsToScope(claims, lost, events[n], n, scope, counter)
    requires n in claims ==> (claims[n].Key() in keys <==> claims[n].scope == scope)
    ensures TellScope(events, n + 1, lost, scope, counter)
            == TellScope(events, n, lost, scope, counter)
               + if n in claims && claims[n].Key() in keys then claims[n].counts.Get(counter) else 0
  {
  }

  lemma {:induction false} ScopeIsTold(claims: Claims, lost: set<EventId>, events: seq<L.Event>, n: nat,
          keys: seq<RowKey>, scope: string, counter: Counter)
    requires n <= |events|
    requires forall id: EventId :: id < n ==> AddsToScope(claims, lost, events[id], id, scope, counter)
    requires forall j, k :: 0 <= j < k < |keys| ==> keys[j] != keys[k]
    requires forall id :: id in claims ==> (claims[id].Key() in keys <==> claims[id].scope == scope)
    ensures forall id :: id in G.ClaimedIds(claims, n) ==> id in claims
    ensures G.SumFolds(claims, G.ClaimedIds(claims, n), keys, counter) == TellScope(events, n, lost, scope, counter)
  {
    G.ClaimedIdsEnumerate(claims, n);
    if n == 0 {
      G.FoldsOfNothing(claims, keys, counter);
    } else {
      var id: EventId := n - 1;
      ScopeIsTold(claims, lost, events, n - 1, keys, scope, counter);
      FoldsOneMore(claims, id, keys, counter);
      OneMoreTold(claims, lost, events, id, keys, scope, counter);
    }
  }

  /** The rows of a scope add up to what the whole history tells it, but for the lost events: zones under
      their site, slots under their zone, and so on, and for imports the numbers of rows they reported. */
  lemma ScopeIsTheHistory(cmds: seq<K.Command>, times: EventId -> int, actions: seq<P.Action>, keys: seq<RowKey>,
          scope: string, counter: Counter)
    requires var p := P.Run(P.Start(), actions);
             && G.Records(p.recorded, K.Run(L.EMPTY_CATALOGUE, cmds).events, times) && P.Drained(p)
             && ScopeRowsOnce(keys, p.projector.shared.rollup, scope)
    ensures var p, events := P.Run(P.Start(), actions), K.Run(L.EMPTY_CATALOGUE, cmds).events;
            G.SumRows(p.projector.shared.rollup, keys, counter)
            == TellScope(events, |events|, P.Lost(p), scope, counter)
  {
    var p, events := P.Run(P.Start(), actions), K.Run(L.EMPTY_CATALOGUE, cmds).events;
    P.RunKeeps(actions);
    ClaimsFollow(p, events, times);
    var t := p.projector.shared;
    var order := G.ClaimedIds(t.claims, |events|);
    G.ClaimedIdsEnumerate(t.claims, |events|);
    P.ClaimsAreRecorded(p);
    forall id | id in t.claims ensures t.claims[id].Key() in keys <==> t.claims[id].scope == scope {
      assert Touched(t.claims, t.claims[id].Key());
    }
    G.RowsAreFolds(t.rollup, t.claims, order, keys, counter);
    forall id: EventId | id < |events| ensures AddsToScope(t.claims, P.Lost(p), events[id], id, scope, counter) {
      ScopeFollows(t.claims, P.Lost(p), events, times, id, scope, counter);
    }
    ScopeIsTold(t.claims, P.Lost(p), events, |events|, keys, scope, counter);
  }

  // ---- what is stored in a scope ----

  /** The lost ones among the first n events that announce something of a kind under a scope. */
  function LostIn(lost: set<EventId>, events: seq<L.Event>, n: nat, kind: L.Kind, scope: string): set<EventId>
    requires n <= |events|
  {
    set id | id in lost && id < n && A.Concerns(events[id], kind, scope)
  }

  lemma {:induction false} ToldIsCounted(events: seq<L.Event>, n: nat, lost: set<EventId>, kind: L.Kind, scope: string)
    requires n <= |events| && G.Reported(kind)
    ensures TellScope(events, n, lost, scope, G.CounterOf(kind)) + |LostIn(lost, events, n, kind, scope)|
            == A.CountIn(events[..n], kind, scope)
  {
    if n == 0 {
      assert LostIn(lost, events, 0, kind, scope) == {};
    } else {
      ToldIsCounted(events, n - 1, lost, kind, scope);
      assert events[..n][..n - 1] == events[..n - 1];
      OneToldIsCounted(events[n - 1], kind, scope);
      LostOneMore(lost, events, n - 1, kind, scope);
    }
  }

  lemma OneToldIsCounted(e: L.Event, kind: L.Kind, scope: string)
    requires G.Reported(kind)
    ensures Told(e, scope, G.CounterOf(kind)) == if A.Concerns(e, kind, scope) then 1 else 0
  {
  }

  lemma LostOneMore(lost: set<EventId>, events: seq<L.Event>, n: nat, kind: L.Kind, scope: string)
    requires n < |events|
    ensures |LostIn(lost, events, n + 1, kind, scope)|
            == |LostIn(lost, events, n, kind, scope)|
               + if n in lost && A.Concerns(events[n], kind, scope) then 1 else 0
  {
    var one := if n in lost && A.Concerns(events[n], kind, scope) then {n} else {};
    assert LostIn(lost, events, n + 1, kind, scope) == LostIn(lost, events, n, kind, scope) + one;
  }

  /** From use case to report, scope by scope: the report's sites, zones, aisles, definitions, slots and
      retired slots under each scope fall short of what the catalogue stores there by exactly the events
      that were lost. */
  lemma ScopeCountsTheCatalogue(cmds: seq<K.Command>, times: EventId -> int, actions: seq<P.Action>,
          keys: seq<RowKey>, kind: L.Kind, scope: string)
    requires G.Reported(kind)
    requires var p := P.Run(P.Start(), actions);
             && G.Records(p.recorded, K.Run(L.EMPTY_CATALOGUE, cmds).events, times) && P.Drained(p)
             && ScopeRowsOnce(keys, p.projector.shared.rollup, scope)
    ensures var c, p := K.Run(L.EMPTY_CATALOGUE, cmds), P.Run(P.Start(), actions);
            G.SumRows(p.projector.shared.rollup, keys, G.CounterOf(kind))
            == |A.StoredIn(c, kind, scope)| - |LostIn(P.Lost(p), c.events, |c.events|, kind, scope)|
  {
    var c, p := K.Run(L.EMPTY_CATALOGUE, cmds), P.Run(P.Start(), actions);
    ScopeIsTheHistory(cmds, times, actions, keys, scope, G.CounterOf(kind));
    ToldIsCounted(c.events, |c.events|, P.Lost(p), kind, scope);
    assert c.events[..|c.events|] == c.events;
    StoredIsAnnounced(cmds, kind, scope);
  }

  lemma StoredIsAnnounced(cmds: seq<K.Command>, kind: L.Kind, scope: string)
    ensures var c := K.Run(L.EMPTY_CATALOGUE, cmds);
            |A.StoredIn(c, kind, scope)| == A.CountIn(c.events, kind, scope)
  {
    EmptyIsRooted();
    A.RunAnnounced(L.EMPTY_CATALOGUE, cmds, kind, scope);
    assert A.StoredIn(L.EMPTY_CATALOGUE, kind, scope) == {};
  }

  lemma EmptyIsRooted()
    ensures K.Rooted(L.EMPTY_CATALOGUE)
  {
  }
}
