# Verification of the facility layout service

A Dafny model of the service's three hard parts, with proofs about every input, every run or every
reachable state.

**Travel.** `Walks`, `MinHeap`, `ShortestPath`, `TravelGraph` and `RouteLaws` model the travel graph:
the weighted map built from aisles and cross-aisles, the binary heap, and the shortest-path search with
its lazily deleted queue entries, early exit and path reconstruction. The search is proved against
walks: a returned route is a real walk of least length, with that walk's estimate flag, and "no route"
means that no walk exists. On top come the laws of distances in any such map, and `ZoneGraph` tells the
map of a stored zone, edge by edge, from the catalogue alone. `Geometry` adds the distance from a point
to a centreline.

**Catalogue.** `LocationCodes`, `Placement`, `Layout` and `Catalogues` model the catalogue as a state
machine whose steps are the use cases; each use case is one atomic step. `CatalogueLaws` proves what
every run keeps: chain of custody, placement rules, lifecycle, what an import can touch, and that as
many things are stored as were announced. `ImportLaws` tells the fate of every row of an import, and all
it leaves behind, from the catalogue and the row alone. `UseCases` is the imperative service proved
against those steps. `ZoneReads`, `ZoneGraph` and `ZoneGrid` are the read models whose totality rests on
the chain of custody.

**Events.** `UnitsOfWork` models nested transactions and the outbox writes. `OutboxRelays` models any
number of relays draining the outbox; `RelayPasses` is one relay's pass, proved to be a run of that
machine while other relays and writers act between its calls. `Projections` and `ProjectionStores` model
the report's stores, `Consumers` any number of projector workers, and `ConsumerLoops` one worker as the
program runs it. `Recordings` shows that what units of work commit is what the pipeline starts from,
`Pipelines` joins the rest from commit to report, and `GrowthReports` closes the circle: a report that
has caught up adds up to what the catalogue stores, and `ScopedReports`, with `Announcements`, says so
row by row: which scope and day each event counts in, and what it adds. `Progress` shows that from every
reachable state the pipeline can still be drained, losing nothing that was not lost already.
`Idempotency` is the Idempotency-Key protocol among concurrent requests, and `IdempotencyMiddleware` one
request through it.

In the event machines every call to a database, a broker or a topic may fail, and a failed call may have
taken effect all the same. A Postgres transaction with a failed statement is aborted and can only be
rolled back; an insert that conflicts on a unique key waits for the transaction holding that key; an
acknowledged send has been appended. Encodings and hashes are taken to be injective, event ids unique.

Where the code and its comments differ, the model follows the code:

- The relay's comment promises per-aggregate order with two overlapping relays
  (`internal/adapters/outbound/postgres/outbox_relay.go:25-29`). Two relays can send a higher row first:
  `OutboxRelays.TwoRelaysReorder` is such a run, without any failure. `OutboxRelays.OrderExactly` says
  when a claim preserves the order of two rows, and `OutboxRelays.OneRelayKeepsOrder` that one relay always
  does.
- The import is documented as atomic per row
  (`internal/application/usecases/import_facility_layout.go:72-75`). A row whose geometry alone is refused is
  reported as rejected although its slot stays stored (`ImportLaws.RejectedRowKeepsItsSlot`), and a row of an
  unknown kind leaves the site, zone and aisle it created (`ImportLaws.RejectedRowKeepsItsParents`).
  `ImportLaws.RowFateExactly` and `ImportLaws.RejectedRowIsUndoneExactly` give the exact conditions, on the
  catalogue and the row before the import.
- Saves and outbox rows are said to be atomic for any nesting
  (`internal/adapters/outbound/postgres/unit_of_work.go:47-50`). When an event does not encode inside a
  joined unit whose error the outer scope swallows, as the idempotency middleware does, the save commits
  without its rows: `UnitsOfWork.SwallowedEncodingError`. `UnitsOfWork.WholeExactly` gives the exact
  condition. The gap is latent: the encoders in use fail only on an event type outside the service's own
  names, an invalid envelope such as an empty subject, or data that does not marshal
  (`internal/adapters/outbound/kafka/publisher.go:107-144`), and no event of the service is known to be any
  of these.
- A request answered with 500 may have been committed
  (`internal/adapters/inbound/http/idempotency.go:262-265`): `Idempotency.FailedThoughStored` is such a run.
  `Idempotency.FailedThoughStoredExactly` says of every run when that happens,
  `Idempotency.RetryAfterHiddenCommit` that a retry then gets the stored response, and
  `Idempotency.FreshRunCommits` that otherwise a free key can still be committed.

## Model

| member | source | states |
|---|---|---|
| `MinHeap.RootIsMinimum` | internal/domain/travel/graph.go:244-250 | In a queue ordered between each entry and its parent, no entry lies below the root. |
| `MinHeap.PriorityQueue.Push` | internal/domain/travel/graph.go:252-252 | Pushing adds exactly that entry to the multiset of entries and keeps the heap order. |
| `MinHeap.PriorityQueue.Pop` | internal/domain/travel/graph.go:253-259 | Popping removes exactly one entry, one that no other entry is below, and keeps the heap order. |
| `ShortestPath.RelaxStep` | internal/domain/travel/graph.go:209-217 | Relaxing an edge keeps every label justified by a real walk with that walk's length and flag, keeps visited waypoints settled, and keeps a queue entry for every labelled unvisited waypoint. |
| `ShortestPath.NoShorterWalk` | internal/domain/travel/graph.go:200-217 | Once the least queue entry is taken, no walk to an unvisited waypoint is shorter than it, and none to a visited one shorter than its label. |
| `ShortestPath.Settled` | internal/domain/travel/graph.go:200-208 | The early exit is sound: when the target leaves the queue its label is the length of a shortest walk. |
| `ShortestPath.Exhausted` | internal/domain/travel/graph.go:200-222 | When the queue empties without the target, no walk leads there. |
| `TravelGraph.Graph.TakeNext` | internal/domain/travel/graph.go:200-217 | Taking the least entry drops a stale one, ends the search at the target with a shortest walk, or visits and expands a waypoint and keeps all the search relies on; each time fewer waypoints or entries are left. |
| `TravelGraph.Graph.Search` | internal/domain/travel/graph.go:183-217 | The search ends, labels the target exactly when it is reachable, and then with the length of a shortest walk. |
| `TravelGraph.ReadBack` | internal/domain/travel/graph.go:220-232 | Following predecessors from the target ends at the start, never meets a missing predecessor, and yields the waypoints of the labelled walk backwards. |
| `TravelGraph.Reverse` | internal/domain/travel/graph.go:228-236 | Swapping from both ends reverses the route. |
| `TravelGraph.Graph.Distance` | internal/domain/travel/graph.go:177-238 | Unknown nodes are reported exactly for waypoints not on the map, no route exactly when no directed walk exists; otherwise the route's nodes, metres and estimate flag are those of one real walk and no walk is shorter. |
| `TravelGraph.Graph.AddAisle` | internal/domain/travel/graph.go:94-115 | Adding an aisle adds its bays and, between adjacent bays, an edge each way, or only forward on a one-way aisle. |
| `TravelGraph.Graph.AddCrossAisle` | internal/domain/travel/graph.go:116-127 | A cross-aisle adds an edge each way, and nothing when one of its ends is not on the map. |
| `TravelGraph.Build` | internal/domain/travel/graph.go:94-143 | The built graph has exactly the bays of the aisles as waypoints and exactly the emitted edges. |
| `TravelGraph.EmittedAre` | internal/domain/travel/graph.go:94-143 | An edge is emitted exactly when it is a gap between adjacent bays in a permitted direction or joins two existing ends of a cross-aisle. |
| `TravelGraph.EmittedExactly` | internal/domain/travel/graph.go:94-151 | The map edge by edge: an edge leads to the next bay of an aisle, or back unless it is one-way, or across a cross-aisle both of whose ends exist; along an aisle of known length it measures an even share of that length, elsewhere and across aisles the pitch, as an estimate. |
| `TravelGraph.EmittedPositive` | internal/domain/travel/graph.go:137-151 | With a positive pitch every edge has positive length. |
| `RouteLaws.RouteHasDistance` | internal/domain/travel/graph.go:177-238 | The metres of a returned route are the distance the laws below speak of. |
| `Walks.TriangleInequality` | internal/domain/travel/graph.go:177-238 | Going through a third waypoint is never shorter. |
| `RouteLaws.TwoWayDistancesAgree` | internal/domain/travel/graph.go:94-128 | With no one-way aisle every distance is the same in both directions. |
| `RouteLaws.CrossAisleNeverLengthens` | internal/domain/travel/graph.go:116-127 | One more cross-aisle keeps reachable pairs reachable and lengthens no distance. |
| `RouteLaws.WalkAlongAisle` | internal/domain/travel/graph.go:94-143 | Without cross-aisles every walk stays in its aisle and costs at least one gap per bay; on a one-way aisle it never leads back. |
| `RouteLaws.DistanceAlongAisle` | internal/domain/travel/graph.go:94-143 | Without cross-aisles the distance between two bays is the number of gaps times the gap length, and there is a route exactly when the aisle allows that direction. |
| `RouteLaws.RouteAlongAisle` | internal/domain/travel/graph.go:94-143 | A route between two bays of an aisle without cross-aisles measures one pitch per bay passed and is an estimate unless no bay is passed, or, where the aisle's length is known, that many even shares of it and is no estimate. |
| `RouteLaws.GapsMultiply` | internal/domain/travel/graph.go:137-143 | The gap-by-gap length used by the laws is the number of gaps times the gap length. |
| `RouteLaws.NoRouteBetweenAisles` | internal/domain/travel/graph.go:94-128 | Aisles joined by no cross-aisle are unreachable from each other. |
| `RouteLaws.MeasuredAisleLength` | internal/domain/travel/graph.go:133-143 | First bay to last bay of a measured aisle is exactly its centreline length. |
| `Geometry.ClampedVertexIsLowest` | internal/domain/shared/geometry.go:170-185 | Clamping the projection to the segment picks the lowest point of the squared distance on it. |
| `Geometry.NothingOnTheSegmentIsNearer` | internal/domain/shared/geometry.go:163-195 | The point measured to lies on the segment, and no point of the segment is nearer by the squares of the three coordinate differences, also when the ends coincide. |
| `Layout.SegmentHasLength` | internal/domain/shared/geometry.go:128-136 | A centreline between different points has positive length. |
| `Layout.Zone.BayPitchM` | internal/domain/zone/zone.go:158-163 | The pitch handed to the graph is the zone's own when positive and 1.2 m otherwise. |
| `LocationCodes.ParseExactly` | internal/domain/shared/location_code.go:62-87 | A text parses to a code exactly when it is that valid code's printed form: parsing and printing undo each other. |
| `LocationCodes.RefusalNamesTheSegment` | internal/domain/shared/location_code.go:38-60 | A refused code names the first of its seven segments that is empty or leaves the alphabet of ASCII capitals and digits. |
| `LocationCodes.PrintedCodesAreDistinct` | internal/domain/shared/location_code.go:83-87 | Two valid codes that print alike are equal. |
| `LocationCodes.ZonePrefixIsZoneId` | internal/adapters/outbound/memory/repos.go:255-271 | Listing slots by the text prefix of a zone finds exactly the codes of that zone. |
| `LocationCodes.AislePrefixIsAisleId` | internal/adapters/outbound/memory/repos.go:250-271 | Listing slots by the text prefix of an aisle finds exactly the codes of that aisle. |
| `LocationCodes.ZoneOfAgrees` | internal/adapters/inbound/kafka/analytics_consumer.go:398-404 | The projector's reading of a printed code is the domain's zone id. |
| `LocationCodes.ZoneIdInjective` | internal/domain/zone/zone.go:118-122 | A zone id names one site, area and zone. |
| `LocationCodes.AisleIdInjective` | internal/domain/aisle/aisle.go:88-90 | An aisle id names one zone id and one aisle code. |
| `Strings.BelowExactly` | internal/application/usecases/get_zone_grid.go:119-126 | One text sorts below another exactly when, at the first place they differ, it ends or has the lesser character. |
| `Layout.CrossAisleKeyIsSymmetric` | internal/adapters/outbound/memory/repos.go:153-164 | Two cross-aisle keys are equal exactly when they join the same two aisles of the zone at the same bay, in either order. |
| `Placement.Check` | internal/domain/placement/rules.go:28-55 | One pass over the rules permits a placement exactly when no rule denies it and any matching allow-list names it; it names a denying rule or exactly the allow-list. |
| `Placement.VerdictByFields` | internal/domain/placement/placement.go:159-174 | What a verdict means by the rules' own fields: who denies, when there is an allow-list and what is on it, where a rule selects a zone exactly when every field it sets is the zone's. |
| `Placement.AllowRules` | internal/domain/placement/rules.go:57-69 | The described rules are exactly the matching Allow rules. |
| `Placement.OrderIsIrrelevant` | internal/domain/placement/rules.go:28-55 | Correct verdicts on the same rules listed in two orders agree: both permit, both name a denying rule among them, or both name the same allow-list. |
| `Placement.DenyIsForever` | internal/domain/placement/rules.go:28-55 | A denied placement stays denied under any larger set of rules. |
| `Catalogues.StepKeeps` | internal/application/usecases/register_location_slot.go:178-213 | Every use case keeps the chain of custody, stored keys equal to ids, known types and rules, and only ever adds to or lawfully changes what is stored. |
| `Catalogues.RunKeeps` | internal/application/usecases/register_location_slot.go:85-136 | The same over any run of use cases from any rooted state. |
| `Catalogues.ImportIsRun` | internal/application/usecases/import_facility_layout.go:99-185 | Whatever an import leaves behind, some sequence of single registrations leaves too. |
| `CatalogueLaws.ReachableIsRooted` | internal/application/usecases/register_location_slot.go:178-213 | Every state reachable from the empty catalogue has an unbroken chain of custody. |
| `CatalogueLaws.ChainOfCustody` | internal/application/usecases/register_location_slot.go:178-213 | A stored slot's site, zone and aisle are stored, and are the ones its code spells out. |
| `CatalogueLaws.RegistrationExactly` | internal/application/usecases/register_location_slot.go:85-136 | A registration succeeds exactly when the code is new, its parents are active, its type is known with fitting attributes and capacity, and the placement rules allow it. |
| `CatalogueLaws.RegistrationStores` | internal/domain/slot/location_slot.go:79-122 | A registration that succeeds adds exactly one active slot with one event: its code, kind and role as asked for, the capacity asked for or else the kind's own, the flow only at a dock, the activities only at a work centre, and no geometry. |
| `CatalogueLaws.LegalByFields` | internal/domain/placement/placement.go:159-174 | A kind may stand in a zone exactly when no Deny rule for it selects the zone's stored fields and any allow-list that selects them names the kind. |
| `Layout.FunctionalAttributesFor` | internal/domain/slot/functional.go:101-155 | Succeeds exactly when a dock has a known flow and no activities, a work centre known activities and no flow, and any other role neither; it then keeps exactly those given. |
| `Layout.FunctionalRefused` | internal/domain/slot/functional.go:101-155 | A refusal names why: an unknown flow or activity, one that is required and missing, or one the role may not have. |
| `Layout.SlotRefused` | internal/domain/slot/location_slot.go:79-122 | A refused slot names its first failing check: no kind, the wrong zone, no capacity where the role needs one, or the placement rules. |
| `CatalogueLaws.TypeExactly` | internal/domain/placement/placement.go:88-100 | A location type is stored exactly as given when its name is new and not empty, its role known, and a capacity is given if the role is storage, staging, drop or consolidation. |
| `CatalogueLaws.CrossAisleExactly` | internal/application/usecases/register_cross_aisle.go:28-60 | A cross-aisle is stored exactly as given when both aisles are stored in the zone, they differ, the bay is named and the pair is not joined there yet. |
| `CatalogueLaws.DrawingExactly` | internal/application/usecases/set_aisle_geometry.go:24-45 | A centreline is stored on exactly that aisle unless it is unknown or retired or the line has no extent. |
| `CatalogueLaws.DenyHoldsForever` | internal/application/usecases/define_placement_rule.go:23-55 | After a Deny rule is defined, no slot stored later, directly or by import, is of the denied type in a matching zone. |
| `CatalogueLaws.DeniedRegistrationFails` | internal/application/usecases/define_placement_rule.go:23-55 | Every later attempt at a denied registration fails, whatever rules were added since. |
| `CatalogueLaws.EverySlotWasLegal` | internal/application/usecases/register_location_slot.go:85-136 | Over every run, imports included, each new slot was legal in its zone under the rules in force at some moment of that run. |
| `CatalogueLaws.AllowListHoldsForever` | internal/application/usecases/define_placement_rule.go:23-55 | Once an Allow rule makes a zone an allow-list, every slot stored there later is of a kind that a matching Allow rule of the later state names. |
| `CatalogueLaws.RetiredForever` | internal/application/usecases/decommission_location_slot.go:22-39 | A retired slot never changes again, its code is never registered again and it cannot be retired twice. |
| `CatalogueLaws.RowEffectHolds` | internal/application/usecases/import_facility_layout.go:130-185 | A row only adds, at most its own slot, and an imported row's code was new. |
| `ImportLaws.SiteStage` | internal/application/usecases/import_facility_layout.go:198-224 | The site stage succeeds exactly when the site is active or new; it leaves an active site, and changes nothing when one was stored. |
| `ImportLaws.ZoneStage` | internal/application/usecases/import_facility_layout.go:226-249 | The zone stage succeeds exactly when the zone is active, or new with a known temperature class; it leaves an active zone with the expected attributes, and changes nothing when one was stored. |
| `ImportLaws.AisleStage` | internal/application/usecases/import_facility_layout.go:251-278 | The aisle stage succeeds exactly when the aisle is active, or new with a valid hint and direction; it leaves an active aisle, and changes nothing when one was stored. |
| `ImportLaws.RowFateExactly` | internal/application/usecases/import_facility_layout.go:130-185 | Told from the catalogue and the row alone: exactly when the row is imported, exactly when it is rejected and its slot stays, and exactly when a rejected row changes nothing. |
| `ImportLaws.RowLeavesExactly` | internal/application/usecases/import_facility_layout.go:130-278 | All a row leaves behind, field by field with its events in order, as far as it gets: the missing site, named after its code unless the row names it, the zone and the aisle its columns describe, the slot with the capacity given, and its place with blank numbers as 0. |
| `ImportLaws.RejectedRowIsUndoneExactly` | internal/application/usecases/import_facility_layout.go:72-185 | A rejected row leaves the catalogue as it was exactly when its code is malformed or it is refused before anything is created. |
| `ImportLaws.RejectedRowKeepsItsSlot` | internal/application/usecases/import_facility_layout.go:130-185 | A concrete row below ground is rejected and its slot stays stored. |
| `ImportLaws.RejectedRowKeepsItsParents` | internal/application/usecases/import_facility_layout.go:130-185 | A concrete row of an unknown kind is rejected, and the site, zone and aisle it created stay, with their events. |
| `CatalogueLaws.ImportAddsOnly` | internal/application/usecases/import_facility_layout.go:99-126 | No row changes anything stored before it. |
| `CatalogueLaws.ImportedCodeIsNew` | internal/application/usecases/import_facility_layout.go:99-185 | An imported row's code was stored neither before the import nor by an earlier row, and stays stored. |
| `CatalogueLaws.ImportedCodesAreDistinct` | internal/application/usecases/import_facility_layout.go:99-185 | Imported rows have pairwise distinct codes. |
| `CatalogueLaws.RunBalanced` | internal/application/usecases/register_location_slot.go:85-136 | Over any run, the number of stored aggregates of each kind and of retired slots moves exactly with the number of their events. |
| `Announcements.RunAnnounced` | internal/application/usecases/register_location_slot.go:85-136 | Over any run and in every scope, as many things are stored, and as many slots retired, as events announced there: zones under their site, aisles and slots under their zone. |
| `CatalogueLaws.ReachedIsKept` | internal/application/usecases/register_location_slot.go:85-136 | What a service call reaches from a rooted catalogue is rooted, and has only grown or lawfully changed. |
| `UseCases.LayoutService.RegisterSite` | internal/application/usecases/register_site.go:26-49 | Succeeds exactly for a valid new code with a name; then the site is stored active and one event announces it, otherwise nothing changes; the change is a step of the catalogue, so every law of its runs applies. |
| `UseCases.LayoutService.RegisterZone` | internal/application/usecases/register_zone.go:23-59 | Succeeds exactly when the site is active, the codes are valid, the temperature class is known and the zone id is new; then exactly that zone and one event are added, otherwise nothing changes; the change is a step of the catalogue, so every law of its runs applies. |
| `UseCases.LayoutService.RegisterAisle` | internal/application/usecases/register_aisle.go:23-59 | Succeeds exactly when the zone is active, code, sequence hint and direction are valid and the aisle id is new; then exactly that aisle and one event are added, otherwise nothing changes; the change is a step of the catalogue, so every law of its runs applies. |
| `UseCases.LayoutService.DefinePlacementRule` | internal/application/usecases/define_placement_rule.go:23-55 | Succeeds exactly when the id is new, the location type is defined, the effect is known and the predicate is not empty; then exactly that rule and one event are added, otherwise nothing changes; the change is a step of the catalogue, so every law of its runs applies. |
| `UseCases.LayoutService.ListRules` | internal/adapters/outbound/memory/repos.go:346-355 | Lists exactly the stored rules, in ascending order of their ids. |
| `UseCases.LayoutService.ResolveChain` | internal/application/usecases/register_location_slot.go:178-213 | Succeeds exactly when the code's site, zone and aisle are all stored and active; in a rooted catalogue the zone returned is the one the code spells out. |
| `UseCases.LayoutService.RegisterLocationSlot` | internal/application/usecases/register_location_slot.go:85-136 | From a rooted catalogue it succeeds exactly when the code is new, the chain of custody active, the kind known with fitting attributes and capacity, and the rules allow it; then exactly the slot asked for and one event are added, otherwise the first failing check is returned and nothing changes; the change is a step of the catalogue, so every law of its runs applies. |
| `UseCases.LayoutService.DecommissionLocationSlot` | internal/application/usecases/decommission_location_slot.go:22-39 | Succeeds exactly for a stored slot that is not retired; then only its status changes and one event announces it, otherwise nothing changes; the change is a step of the catalogue, so every law of its runs applies. |
| `UseCases.LayoutService.SetLocationGeometry` | internal/application/usecases/set_location_geometry.go:26-53 | Succeeds exactly for a stored slot that is not retired with a valid pick sequence; then only its geometry changes, an absent pick sequence keeping the old one, and one event announces it, otherwise nothing changes; the change is a step of the catalogue, so every law of its runs applies. |
| `UseCases.LayoutService.ImportOne` | internal/application/usecases/import_facility_layout.go:130-185 | One row ends with the state, code and error the row's specification gives, parents and slot kept included. |
| `UseCases.LayoutService.ImportRows` | internal/application/usecases/import_facility_layout.go:99-126 | The results are the rows' own outcomes in order, and succeeded plus rejected is the number of rows. |
| `UseCases.LayoutService.Import` | internal/application/usecases/import_facility_layout.go:99-126 | An empty import is refused; any other reports every row in order with matching counts and closes with one import event. |
| `UseCases.ImportAgrees` | internal/application/usecases/import_facility_layout.go:99-185 | The imperative import leaves exactly what the catalogue's import step specifies. |
| `Sorting.SortedKeys` | internal/application/usecases/get_zone_grid.go:119-126 | The sorted keys are strictly ascending and exactly the given set. |
| `Sorting.AscendingIsUnique` | internal/application/usecases/get_zone_grid.go:119-126 | A set has only one strictly ascending listing. |
| `ZoneReads.AislesOfZone` | internal/application/usecases/get_site_layout.go:101-108 | Lists the zone's aisles, each once, by sequence hint and then code. |
| `ZoneReads.SlotsOfZone` | internal/adapters/outbound/memory/repos.go:255-271 | Lists the zone's slots, each once, in ascending order of their codes. |
| `ZoneGraph.BuildZoneGraph` | internal/application/usecases/travel_graph_builder.go:18-79 | The graph describes each aisle of the zone with its occupied bays in order, and each cross-aisle, at the zone's pitch. |
| `ZoneGraph.ZoneMapIsStored` | internal/application/usecases/travel_graph_builder.go:18-79 | The edges of a zone's graph, told from the catalogue: from occupied bay to next occupied bay of a stored aisle, measuring an even share of its centreline or else the zone's pitch as an estimate, and across active cross-aisles at a bay occupied in both aisles. |
| `ZoneGraph.ZoneIsWellShaped` | internal/application/usecases/travel_graph_builder.go:18-79 | Stored zones give distinct aisles with distinct bays, so the laws of distances apply to them. |
| `ZoneGraph.SlotIsOnGraph` | internal/application/usecases/estimate_travel_distance.go:36-68 | Every stored slot of the zone stands at a waypoint of its graph. |
| `ZoneGraph.EstimateTravelDistance` | internal/application/usecases/estimate_travel_distance.go:36-68 | Two stored slots of one zone get a shortest route, or the answer that there is none, in exactly the map that the stored aisles, slots and cross-aisles spell out, never another failure; slots of different zones and unknown slots are declined. |
| `ZoneGrid.GetZoneGrid` | internal/application/usecases/get_zone_grid.go:53-117 | The grid's levels ascend, its columns are exactly the occupied bays, aisles by sequence hint and code and bays in order, rows align with columns, and each cell lists exactly its slots by position. |
| `ZoneGrid.SlotIsDrawn` | internal/application/usecases/get_zone_grid.go:53-117 | Every slot of the zone stands in the cell of its own aisle, bay and level. |
| `ZoneGrid.DrawnOnlyOnce` | internal/application/usecases/get_zone_grid.go:53-117 | No slot is drawn in two cells or twice in one. |
| `UnitsOfWork.Session.PublishEvent` | internal/adapters/outbound/postgres/outbox_publisher.go:43-60 | Enqueues one row per encoder under one new id, stopping at the first encoding or insert failure with the rows before it kept. |
| `UnitsOfWork.Session.Execute` | internal/adapters/outbound/postgres/unit_of_work.go:64-92 | A nested unit joins; an outermost one makes all its work visible at once when its commit is applied, and none of it after an error, a panic or an aborted transaction. When it commits, earlier rows stay, and every event published on its path has exactly one row per encoder under its own id if errors propagate or every event encoded. |
| `UnitsOfWork.AbortIsFinal` | internal/adapters/outbound/postgres/unit_of_work.go:64-92 | After a failed statement nothing in the unit can make it committable again. |
| `UnitsOfWork.WholeExactly` | internal/adapters/outbound/postgres/unit_of_work.go:64-92 | A unit that can still commit holds all its saves and all its events' rows exactly when every event on its path encoded. |
| `UnitsOfWork.CommittedUnitIsWhole` | internal/adapters/outbound/postgres/unit_of_work.go:47-92 | However units nest, one whose bodies propagate errors leaves all its saves and rows in the store, or the store unchanged. |
| `UnitsOfWork.SwallowedEncodingError` | internal/adapters/outbound/postgres/outbox_publisher.go:43-50 | A joined unit that fails to encode, inside a scope that goes on, commits its save without any row. |
| `UnitsOfWork.OneRowPerEncoder` | internal/adapters/outbound/postgres/outbox_publisher.go:29-60 | The rows under an event's id are exactly one per encoder, in order, and no other event has that id. |
| `UnitsOfWork.CommittedEventsAreWhole` | internal/adapters/outbound/postgres/outbox_publisher.go:29-60 | However units nest, when every event on the path encodes, what commits has under each new event's id exactly one row per encoder in order, and earlier rows stay as they were. |
| `Recordings.CommitsAreRecords` | internal/adapters/outbound/postgres/outbox_publisher.go:43-60 | Every history of units of work that propagate errors or encode every event, with relays and projectors in between, is a run of the pipeline that records each committed event once with its two rows; the pipeline then holds exactly the committed rows. |
| `Recordings.ReportCoversTheCommits` | internal/adapters/outbound/postgres/unit_of_work.go:47-92 | When that pipeline is drained, the events counted are exactly the catalogue events that units committed, except the lost ones. |
| `OutboxRelays.RunKeeps` | internal/adapters/outbound/postgres/outbox_relay.go:92-155 | Any interleaving of writers and relays keeps: published rows are on the log, entries are rows, batches are ascending, unpublished and exclusive, sent rows are ordered up to locked ones, and the log only grows. |
| `OutboxRelays.PublishedRowsAreOnTheLog` | internal/adapters/outbound/postgres/outbox_relay.go:22-29 | In every run with any number of relays and crashes, a row committed as published is on the log and every log entry is a committed row's message and topic. |
| `OutboxRelays.OneRelayKeepsOrder` | internal/adapters/outbound/postgres/outbox_relay.go:25-29 | With one relay, a row visible when a pass claimed a higher row is on the log before that row, across crashes, failed sends and redeliveries. |
| `OutboxRelays.OrderExactly` | internal/adapters/outbound/postgres/outbox_relay.go:99-106 | A claim preserves the order of two visible rows, in every continuation before the next claim, exactly when the lower one was not skipped as locked or was already sent. |
| `OutboxRelays.TwoRelaysReorder` | internal/adapters/outbound/postgres/outbox_relay.go:25-29 | Two relays without any failure can send the higher of two visible rows first. |
| `OutboxRelays.OnePassDrains` | internal/adapters/outbound/postgres/outbox_relay.go:64-84 | After any run, once no pass is open, one undisturbed pass publishes everything still waiting. |
| `OutboxRelays.RowIsSentTwice` | internal/adapters/outbound/postgres/outbox_relay.go:128-146 | Delivery is only at least once: a concrete run in which a send reported as failed was appended all the same, and the next pass sends the row again. |
| `RelayPasses.OutboxRelay.RelayOnce` | internal/adapters/outbound/postgres/outbox_relay.go:92-155 | A pass amid others is a run of the machine, and its calls decide it: it claims the first free rows up to its batch size, publishes up to the first send not acknowledged or mark that fails, succeeds exactly when it got through the batch and its commit reports success, and leaves exactly the rows it marked published when the commit takes effect, after a recorded failed send too, and none otherwise. |
| `Projections.SlotEventsCountInTheirZone` | internal/adapters/inbound/kafka/analytics_consumer.go:367-404 | Slot events are counted in the zone of the domain's own location code. |
| `Projections.FoldIgnoresOrder` | internal/adapters/outbound/analyticsstore/postgres_projection.go:140-171 | A report row's sum does not depend on the order in which events arrived. |
| `Projections.AddKeepsShowing` | internal/adapters/outbound/analyticsstore/postgres_projection.go:140-171 | Adding one unclaimed event's increments keeps every row, and the set of rows, equal to the sum over the claimed events. |
| `ProjectionStores.DeliveriesConverge` | internal/adapters/outbound/analyticsstore/memory_store.go:46-77 | Deliveries of the same events, repeated and reordered at will, lead to the same report. |
| `ProjectionStores.SameClaimsSameRows` | internal/adapters/outbound/analyticsstore/memory_store.go:61-77 | The in-memory and the transactional store show the same rows once they have applied the same events. |
| `ProjectionStores.MemoryStore.Mutate` | internal/adapters/outbound/analyticsstore/memory_store.go:46-77 | Applies an event once; a repeated id changes neither rows nor watermark. |
| `ProjectionStores.MemoryStore.Query` | internal/adapters/outbound/analyticsstore/memory_store.go:131-147 | Returns exactly the rows of the days and scope asked for, each once, each the sum of its events. |
| `ProjectionStores.MemoryStore.FreshnessLag` | internal/adapters/outbound/analyticsstore/memory_store.go:152-168 | The lag is measured from the latest applied event, zero before the first and never negative. |
| `ProjectionStores.PostgresProjection.Apply` | internal/adapters/outbound/analyticsstore/postgres_projection.go:32-86 | Whatever fails, claim and increment happen together or not at all, and exactly then when the commit takes effect; it succeeds exactly when nothing it needs fails; a claimed id changes nothing. |
| `ProjectionStores.ConsumedEventsRepo.IsProcessed` | internal/adapters/outbound/analyticsstore/consumed_events_repo.go:24-33 | Unless the query fails, says exactly whether some call in the ledger's history recorded the id. |
| `ProjectionStores.ConsumedEventsRepo.MarkProcessed` | internal/adapters/outbound/analyticsstore/consumed_events_repo.go:37-45 | Over the ledger's whole history an id is reported as new at most once, by the first call that recorded it; a failed call reports nothing and may still have recorded it. |
| `Consumers.RunKeeps` | internal/adapters/inbound/kafka/analytics_consumer.go:164-332 | Any interleaving of workers, redeliveries, ambiguous failures and crashes keeps the rollup equal to the claims, consumed events claimed, claims backed by messages, and everything below each position and the committed offset settled. |
| `Consumers.NoEventIsLost` | internal/adapters/inbound/kafka/analytics_consumer.go:164-210 | Every message below the committed offset does not project, is claimed or is dead-lettered; a value that is no CloudEvent is dead-lettered; consumed events are processed events. |
| `Consumers.RollupIsTheFold` | internal/adapters/outbound/analyticsstore/postgres_projection.go:75-86 | In every run each counter of each row is the plain sum over a set of logged events, each counted once. |
| `Consumers.CleanRunsDeadLetterPoison` | internal/adapters/inbound/kafka/analytics_consumer.go:189-228 | When no call fails and nothing is cancelled, only messages that can never be handled are dead-lettered. |
| `Consumers.FailedCallsMayTakeEffect` | internal/adapters/inbound/kafka/analytics_consumer.go:294-332 | A failed apply, record, dead-letter write or offset commit may have taken effect, unknown to the worker, which tries again, gives up or is gone. |
| `ConsumerLoops.AnalyticsConsumer.HandleMessage` | internal/adapters/inbound/kafka/analytics_consumer.go:294-332 | An attempt ends handled, failed with retries left or exhausted, or as no CloudEvent, the last exactly for such values, and fails only by a failed call or an event that cannot be read; in the worker's own steps an event is recorded as consumed only after it was applied. |
| `ConsumerLoops.AnalyticsConsumer.HandleWithRetry` | internal/adapters/inbound/kafka/analytics_consumer.go:214-228 | At most three attempts; a message is given up only as no CloudEvent, when the context was cancelled between attempts, or after three attempts the last of which failed. |
| `ConsumerLoops.AnalyticsConsumer.DlqPublish` | internal/adapters/inbound/kafka/analytics_consumer.go:424-437 | At most 40 sends, another one only after the topic was not ready; success means the last send succeeded and the message is on the dead-letter topic. |
| `ConsumerLoops.AnalyticsConsumer.HandleFetched` | internal/adapters/inbound/kafka/analytics_consumer.go:189-210 | The offset is passed only when the message was handled or, once given up, dead-lettered, and then everything up to it is settled; it stops only when a call failed. |
| `ConsumerLoops.AnalyticsConsumer.Run` | internal/adapters/inbound/kafka/analytics_consumer.go:164-177 | A worker starts at the offset committed at the moment it joined and handles message after message, with at most 53 calls on each of those waiting from the start; it stops only when its context is cancelled or a fetch, a dead-letter write or a commit fails, and everything it passed over is settled. |
| `Pipelines.RunKeeps` | internal/adapters/outbound/postgres/outbox_publisher.go:23-60 | From commit to projection, rows carry recorded events, every recorded event has its analytics row, and all that is relayed to the analytics topic is read. |
| `Pipelines.RecordedOnBothTopics` | internal/adapters/outbound/postgres/outbox_publisher.go:43-60 | Recording an event adds exactly one unpublished row for each of the two topics. |
| `Pipelines.OnlyAnalyticsIsRead` | internal/adapters/inbound/kafka/analytics_consumer.go:85-91 | The projector reads exactly what is sent to the analytics topic, in order, and nothing sent elsewhere. |
| `Pipelines.ReportIsTheFold` | internal/adapters/outbound/analyticsstore/postgres_projection.go:75-86 | In every run of commits, relays, redeliveries, failures and crashes the report is the plain sum over a set of committed events, each once, that contains every catalogue event below the committed offset not dead-lettered. |
| `Pipelines.DrainedReportIsExact` | internal/adapters/inbound/kafka/analytics_consumer.go:189-228 | Once every row is published and the topic committed, whatever was dead-lettered, the report is the sum over exactly the committed catalogue events that were not dead-lettered without ever being applied; it is complete exactly when every dead-lettered event was applied all the same. |
| `Pipelines.CaughtUpReportIsComplete` | internal/adapters/inbound/kafka/analytics_consumer.go:85-91 | Once every row is published, the topic committed and only poison dead-lettered, the report is the sum over exactly the committed catalogue events. |
| `GrowthReports.ReportAddsUp` | internal/adapters/outbound/analyticsstore/postgres_projection.go:140-171 | Adding a report up row by row or event by event is the same. |
| `GrowthReports.ReportFallsShortByTheLost` | internal/adapters/inbound/kafka/analytics_consumer.go:367-392 | After any sequence of use cases, once their events are recorded and the pipeline is drained, each total of the report falls short of the stored aggregates of that kind by exactly the number of lost events of that kind. |
| `GrowthReports.ReportCountsTheCatalogue` | internal/adapters/inbound/kafka/analytics_consumer.go:367-392 | After any sequence of use cases, once their events are recorded and projected, each total of the report is the number of aggregates of that kind the catalogue stores. |
| `ScopedReports.RowIsTheHistory` | internal/adapters/inbound/kafka/analytics_consumer.go:367-392 | Every counter of every row of a drained report is the sum, over the history's events of that day that were not lost, of what the event tells that scope: one zone under its site, one slot under its zone, an import's submitted, imported and rejected rows under the empty scope; no other row shows anything. |
| `ScopedReports.ScopeIsTheHistory` | internal/adapters/inbound/kafka/analytics_consumer.go:367-392 | The rows of a scope add up to what the whole history tells that scope, the numbers of rows of its imports included, but for the lost events. |
| `ScopedReports.ScopeCountsTheCatalogue` | internal/adapters/inbound/kafka/analytics_consumer.go:367-392 | Under each scope the report's sites, zones, aisles, definitions, slots and retired slots fall short of what the catalogue stores there by exactly the lost events. |
| `Progress.CanCatchUpExactly` | internal/adapters/inbound/kafka/analytics_consumer.go:85-91 | From every reachable state of the pipeline, whatever is open, crashed or under way, some continuation catches up exactly when only poison was dead-lettered, and then one that records nothing more. |
| `Progress.DrainsLosingNothingMore` | internal/adapters/inbound/kafka/analytics_consumer.go:164-228 | From every reachable state, whatever is open, failed or was given up, some continuation drains the pipeline, records nothing more and loses no event that was not lost already. |
| `Progress.EveryHistoryCanBeReported` | internal/adapters/inbound/kafka/analytics_consumer.go:367-392 | For every sequence of use cases there is a run of the pipeline that records exactly its events and catches up, so that the report's totals are the catalogue's. |
| `Idempotency.RunKeeps` | internal/adapters/inbound/http/idempotency.go:77-276 | Any interleaving of requests keeps: committed rows have outcomes, one committed effect per key, one open holder per key, and answers that agree with the rows; no effect and no answer is ever taken back. |
| `Idempotency.EffectsCommitAtMostOnce` | internal/adapters/inbound/http/idempotency.go:34-56 | At most one handler run per key commits its writes, and every committed row has a recorded outcome, that run's. |
| `Idempotency.AcceptedAnswersAgree` | internal/adapters/inbound/http/idempotency.go:157-208 | Two accepted answers for one key have the same body and the same response, whatever their routes. |
| `Idempotency.OutcomesAreFinal` | internal/adapters/inbound/http/idempotency.go:34-56 | A stored outcome never changes and nothing more is committed for its key. |
| `Idempotency.LaterAnswersReplay` | internal/adapters/inbound/http/idempotency.go:157-208 | Once a response is stored, every answer for the key is that response to the same body, 422 to another body, or a failure. |
| `Idempotency.RetryIsAnswered` | internal/adapters/inbound/http/idempotency.go:123-208 | A retry of a stored key never waits and, when nothing fails, is answered from the row without storing anything. |
| `Idempotency.StoredByOwnCommit` | internal/adapters/inbound/http/idempotency.go:218-276 | In every run, a request's writes are stored exactly when one of its own steps was an applied commit, and are marked as told exactly as that commit reported: nothing else leaves a trace. |
| `Idempotency.FailedThoughStoredExactly` | internal/adapters/inbound/http/idempotency.go:262-265 | In every run, a request told of a failure has its writes stored exactly when one of its own steps was a commit that was applied although it reported an error. |
| `Idempotency.RetryAfterHiddenCommit` | internal/adapters/inbound/http/idempotency.go:123-208 | At any later time, a retry after such a failure is answered with exactly the stored response and stores nothing more. |
| `Idempotency.FreshRunCommits` | internal/adapters/inbound/http/idempotency.go:218-276 | From every sound state, so from every reachable one, a key neither stored nor held can be committed by a fresh request, whose answer is its handler's response. |
| `Idempotency.FailedThoughStored` | internal/adapters/inbound/http/idempotency.go:218-276 | A concrete run ends with the client told 500 and its slot registered. |
| `Idempotency.WaitersProceed` | internal/adapters/inbound/http/idempotency.go:58-76 | A waiting insert waits for one transaction only; when that one ends, it goes through, finding the row if it was committed and taking the key if not. |
| `Idempotency.NobodyIsStuck` | internal/adapters/inbound/http/idempotency.go:58-137 | From every sound state, so from every reachable one, however the open transactions wait for each other and whatever the handlers do, some order of steps without a failure answers every open request; only one whose handler's transaction was aborted is answered with a failure. |
| `IdempotencyMiddleware.Middleware.ReplayCachedResponse` | internal/adapters/inbound/http/idempotency.go:157-208 | The answer comes from the stored row of the same key, its response to the same body, 422 to another; it fails only by a failed call. |
| `IdempotencyMiddleware.Middleware.RunFreshRequest` | internal/adapters/inbound/http/idempotency.go:218-276 | A handler that returns, unaborted and with no failed call, is answered with its own response, its writes and that response committed; every failure, by a failed call, a panic or an aborted transaction, is answered 500. |
| `IdempotencyMiddleware.Middleware.Serve` | internal/adapters/inbound/http/idempotency.go:77-137 | Amid any other requests the request ends with one answer that agrees with what is stored: 400 for a missing key or an unreadable body, otherwise 500 only by a failed call, a panic or an aborted handler; an accepted answer is its own handler's, committed, when it took the key, and else the stored one. It makes at most five calls, but for those that found the key held by another transaction. |

## Left out

- Floating point: metres, weights and coordinates are exact reals, and a segment carries its length as a
  non-negative number whose square is its squared extent.
- Interleavings of catalogue use cases: each use case is one atomic step, since the code checks for
  duplicates outside the transaction and promises nothing about concurrent registrations.
- Aggregates are values, as rehydrated from Postgres; the sharing of stored objects by the in-memory
  repositories, which lets a failed geometry update still change a stored slot, is not captured.
- Failures of catalogue repositories and of their publisher: the use cases of `UseCases` store and
  announce together; what a failing store leaves is the subject of `UnitsOfWork` alone.
- Registration of location types, cross-aisles and aisle geometry is modelled as catalogue steps only,
  not also as imperative methods; fixed structures, the site layout's nesting, listings by role and
  decommissioning of sites, zones and aisles are not modelled.
- Sorting is modelled by insertion; only the resulting order matters, and Go's sort is not part of this model.
- The graph is not drawn: the sorted listings of all nodes and edges, SVG, HTTP routing, DTOs, MCP tools,
  the web front end, metrics and logging.
- Contents of events beyond what the projector reads, CloudEvents encoding, SHA-256 and JSON.
- Kafka partitions, rebalancing timeouts and backoff timing; one topic partition, whose workers share
  one committed offset, stands for each.
- The endless loop around a relay pass: each pass is modelled, and passes follow each other freely.
- The Postgres reader's own freshness query: only the in-memory store's freshness is modelled.
- Contexts that never end: a worker's and a request's context end at an arbitrary time, so an endless loop is covered by its finite prefixes, and the database's own waiting is the `Blocked` condition of the machine.
