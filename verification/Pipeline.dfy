/** The whole road of an event: recorded with its outbox rows in one transaction, relayed to the topics,
    and projected into the report. */
module Pipelines {
  import opened Projections
  import R = OutboxRelays
  import C = Consumers

  const EVENTS_TOPIC := "warehouse.facility.events"
  const ANALYTICS_TOPIC := "warehouse.facility.analytics"

  type Raw = C.Raw

  /** `recorded` is every event some transaction has committed. */
  datatype Pipeline = Pipeline(recorded: map<EventId, CloudEvent>, relays: R.Relays<Raw>, projector: C.Projector)

  /** Commit of an event with its row per topic, under one fresh event id; a step of some relay; a step
      of some projector worker; or a value in the retired format turning up on the analytics topic. */
  datatype Action =
    | Record(event: CloudEvent, eventsRow: nat, analyticsRow: nat)
    | Relay(relay: R.Action<Raw>)
    | Project(project: C.Action)
    | Stray

  function Start(): Pipeline {
    Pipeline(map[], R.Start(), C.Start())
  }

  predicate MayRecord(p: Pipeline, e: CloudEvent, eventsRow: nat, analyticsRow: nat) {
    e.id !in p.recorded && eventsRow != analyticsRow && eventsRow !in p.relays.outbox
      && analyticsRow !in p.relays.outbox
  }

  function WithRows(s: R.Relays<Raw>, e: CloudEvent, eventsRow: nat, analyticsRow: nat): R.Relays<Raw> {
    R.Do(R.Do(s, R.Enqueue(eventsRow, EVENTS_TOPIC, C.Event(e))), R.Enqueue(analyticsRow, ANALYTICS_TOPIC, C.Event(e)))
  }

  /** What a relay's step puts on the analytics topic. */
  function Delivered(s: R.Relays<Raw>, s': R.Relays<Raw>, c: C.Projector): C.Projector {
    if |s'.log| > |s.log| && s'.log[|s'.log| - 1].topic == ANALYTICS_TOPIC
    then C.Do(c, C.Append(s'.log[|s'.log| - 1].message)) else c
  }

  function Do(p: Pipeline, a: Action): Pipeline {
    match a
    case Record(e, eventsRow, analyticsRow) =>
      if !MayRecord(p, e, eventsRow, analyticsRow) then p
      else p.(recorded := p.recorded[e.id := e], relays := WithRows(p.relays, e, eventsRow, analyticsRow))
    case Relay(r) =>
      if r.Enqueue? then p
      else
        var relays := R.Do(p.relays, r);
        p.(relays := relays, projector := Delivered(p.relays, relays, p.projector))
    case Project(c) =>
      if c.Append? then p else p.(projector := C.Do(p.projector, c))
    case Stray => p.(projector := C.Do(p.projector, C.Append(C.NotCloudEvent)))
  }

  function Run(p: Pipeline, actions: seq<Action>): Pipeline {
    if actions == [] then p else Do(Run(p, actions[..|actions| - 1]), actions[|actions| - 1])
  }

  // ---- what every run keeps ----

  predicate IsRecorded(recorded: map<EventId, CloudEvent>, m: Raw) {
    m.Event? ==> m.event.id in recorded && recorded[m.event.id] == m.event
  }

  ghost predicate RowsRecorded(recorded: map<EventId, CloudEvent>, outbox: map<nat, R.Row<Raw>>) {
    forall r :: r in outbox ==> IsRecorded(recorded, outbox[r].message)
  }

  ghost predicate TopicRecorded(recorded: map<EventId, CloudEvent>, topic: seq<Raw>) {
    forall k :: 0 <= k < |topic| ==> IsRecorded(recorded, topic[k])
  }

  ghost predicate HasRow(outbox: map<nat, R.Row<Raw>>, e: CloudEvent) {
    exists r :: r in outbox && outbox[r].topic == ANALYTICS_TOPIC && outbox[r].message == C.Event(e)
  }

  ghost predicate RecordedHaveRows(recorded: map<EventId, CloudEvent>, outbox: map<nat, R.Row<Raw>>) {
    forall id :: id in recorded ==> recorded[id].id == id && HasRow(outbox, recorded[id])
  }

  /** Everything relayed to the analytics topic is what the projector reads. */
  ghost predicate Reaches(log: seq<R.Entry<Raw>>, topic: seq<Raw>) {
    forall k :: 0 <= k < |log| && log[k].topic == ANALYTICS_TOPIC ==> log[k].message in topic
  }

  ghost predicate Sound(p: Pipeline) {
    && R.Sound(p.relays) && C.Sound(p.projector)
    && RowsRecorded(p.recorded, p.relays.outbox)
    && TopicRecorded(p.recorded, p.projector.shared.log)
    && RecordedHaveRows(p.recorded, p.relays.outbox)
    && Reaches(p.relays.log, p.projector.shared.log)
  }

  /** A step that records nothing leaves every row in place, marked published or not, and appends to the
      log at most one message of a row. */
  lemma RelayStep(s: R.Relays<Raw>, a: R.Action<Raw>)
    requires R.Sound(s) && !a.Enqueue?
    ensures var s' := R.Do(s, a);
            && R.Sound(s') && s'.outbox.Keys == s.outbox.Keys
            && (forall r :: r in s.outbox ==>
               s'.outbox[r].topic == s.outbox[r].topic && s'.outbox[r].message == s.outbox[r].message)
            && (s'.log == s.log || (|s'.log| == |s.log| + 1 && s'.log[..|s.log|] == s.log))
  {
    R.StepKeeps(s, a);
  }

  lemma ProjectorStep(c: C.Projector, a: C.Action)
    requires !a.Append?
    ensures C.Do(c, a).shared.log == c.shared.log
  {
  }

  lemma RowsStay(outbox: map<nat, R.Row<Raw>>, outbox': map<nat, R.Row<Raw>>)
    requires forall r :: r in outbox ==>
      r in outbox' && outbox'[r].topic == outbox[r].topic && outbox'[r].message == outbox[r].message
    ensures forall e :: HasRow(outbox, e) ==> HasRow(outbox', e)
  {
    forall e | HasRow(outbox, e) ensures HasRow(outbox', e) {
      var r :| r in outbox && outbox[r].topic == ANALYTICS_TOPIC && outbox[r].message == C.Event(e);
      assert outbox'[r].topic == ANALYTICS_TOPIC;
    }
  }

  lemma RowsAreAdded(s: R.Relays<Raw>, e: CloudEvent, eventsRow: nat, analyticsRow: nat)
    requires R.Sound(s) && eventsRow != analyticsRow && eventsRow !in s.outbox && analyticsRow !in s.outbox
    ensures var s' := WithRows(s, e, eventsRow, analyticsRow);
            && R.Sound(s') && s'.log == s.log
            && s'.outbox == s.outbox[eventsRow := R.Row(EVENTS_TOPIC, C.Event(e), false)]
                                    [analyticsRow := R.Row(ANALYTICS_TOPIC, C.Event(e), false)]
  {
    R.StepKeeps(s, R.Enqueue(eventsRow, EVENTS_TOPIC, C.Event(e)));
    R.StepKeeps(R.Do(s, R.Enqueue(eventsRow, EVENTS_TOPIC, C.Event(e))),
      R.Enqueue(analyticsRow, ANALYTICS_TOPIC, C.Event(e)));
  }

  lemma NewRowsHold(recorded: map<EventId, CloudEvent>, outbox: map<nat, R.Row<Raw>>, e: CloudEvent, eventsRow: nat,
          analyticsRow: nat)
    requires RowsRecorded(recorded, outbox) && RecordedHaveRows(recorded, outbox)
    requires e.id !in recorded && eventsRow != analyticsRow && eventsRow !in outbox && analyticsRow !in outbox
    ensures var outbox' := outbox[eventsRow := R.Row(EVENTS_TOPIC, C.Event(e), false)][analyticsRow :=
            R.Row(ANALYTICS_TOPIC, C.Event(e), false)];
            RowsRecorded(recorded[e.id := e], outbox') && RecordedHaveRows(recorded[e.id := e], outbox')
  {
    var outbox' := outbox[eventsRow := R.Row(EVENTS_TOPIC, C.Event(e), false)][analyticsRow :=
        R.Row(ANALYTICS_TOPIC, C.Event(e), false)];
    RowsStay(outbox, outbox');
    assert outbox'[analyticsRow].topic == ANALYTICS_TOPIC;
    assert HasRow(outbox', e);
  }

  lemma RecordKeeps(p: Pipeline, e: CloudEvent, eventsRow: nat, analyticsRow: nat)
    requires Sound(p) && MayRecord(p, e, eventsRow, analyticsRow)
    ensures Sound(Do(p, Record(e, eventsRow, analyticsRow)))
  {
    RowsAreAdded(p.relays, e, eventsRow, analyticsRow);
    NewRowsHold(p.recorded, p.relays.outbox, e, eventsRow, analyticsRow);
  }

  lemma RelayKeeps(p: Pipeline, a: R.Action<Raw>)
    requires Sound(p) && !a.Enqueue?
    ensures Sound(Do(p, Relay(a)))
  {
    var s, s' := p.relays, R.Do(p.relays, a);
    RelayStep(s, a);
    SameRowsRecorded(p.recorded, s.outbox, s'.outbox);
    if s'.log != s.log && s'.log[|s.log|].topic == ANALYTICS_TOPIC {
      assert IsRecorded(p.recorded, s'.outbox[s'.log[|s.log|].id].message);
      DeliveryKeeps(p.recorded, p.projector, s.log, s'.log);
    }
  }

  lemma SameRowsRecorded(recorded: map<EventId, CloudEvent>, outbox: map<nat, R.Row<Raw>>,
          outbox': map<nat, R.Row<Raw>>)
    requires outbox'.Keys == outbox.Keys
    requires forall r :: r in outbox ==>
      outbox'[r].topic == outbox[r].topic && outbox'[r].message == outbox[r].message
    requires RowsRecorded(recorded, outbox) && RecordedHaveRows(recorded, outbox)
    ensures RowsRecorded(recorded, outbox') && RecordedHaveRows(recorded, outbox')
  {
    RowsStay(outbox, outbox');
  }

  lemma DeliveryKeeps(recorded: map<EventId, CloudEvent>, c: C.Projector, log: seq<R.Entry<Raw>>,
          log': seq<R.Entry<Raw>>)
    requires C.Sound(c) && TopicRecorded(recorded, c.shared.log) && Reaches(log, c.shared.log)
    requires |log'| == |log| + 1 && log'[..|log|] == log && IsRecorded(recorded, log'[|log|].message)
    ensures var c' := C.Do(c, C.Append(log'[|log|].message));
            C.Sound(c') && TopicRecorded(recorded, c'.shared.log) && Reaches(log', c'.shared.log)
  {
    var m := log'[|log|].message;
    C.StepKeeps(c, C.Append(m));
    var topic := c.shared.log + [m];
    assert topic[|topic| - 1] == m;
    ReachesMore(log, log', c.shared.log, topic);
  }

  lemma ReachesMore(log: seq<R.Entry<Raw>>, log': seq<R.Entry<Raw>>, topic: seq<Raw>, topic': seq<Raw>)
    requires Reaches(log, topic) && topic <= topic'
    requires |log'| == |log| + 1 && log'[..|log|] == log && log'[|log|].message in topic'
    ensures Reaches(log', topic')
  {
    forall k | 0 <= k < |log'| && log'[k].topic == ANALYTICS_TOPIC ensures log'[k].message in topic' {
      if k < |log| { assert log'[k] == log[k]; }
    }
  }

  lemma StepKeeps(p: Pipeline, a: Action)
    requires Sound(p)
    ensures Sound(Do(p, a))
  {
    match a {
      case Record(e, eventsRow, analyticsRow) =>
        if MayRecord(p, e, eventsRow, analyticsRow) { RecordKeeps(p, e, eventsRow, analyticsRow); }
      case Relay(r) =>
        if !r.Enqueue? { RelayKeeps(p, r); }
      case Project(c) =>
        C.StepKeeps(p.projector, c);
        if !c.Append? { ProjectorStep(p.projector, c); }
      case Stray =>
        C.StepKeeps(p.projector, C.Append(C.NotCloudEvent));
    }
  }

  lemma {:induction false} RunKeeps(actions: seq<Action>)
    ensures Sound(Run(Start(), actions))
  {
    if actions == [] {
      C.StartIsSound();
    } else {
      RunKeeps(actions[..|actions| - 1]);
      StepKeeps(Run(Start(), actions[..|actions| - 1]), actions[|actions| - 1]);
    }
  }

  // ---- which topic is read ----

  /** An event is recorded with one unpublished row on each of the two topics. */
  lemma RecordedOnBothTopics(p: Pipeline, e: CloudEvent, eventsRow: nat, analyticsRow: nat)
    requires Sound(p) && MayRecord(p, e, eventsRow, analyticsRow)
    ensures Do(p, Record(e, eventsRow, analyticsRow)).relays.outbox
            == p.relays.outbox[eventsRow := R.Row("warehouse.facility.events", C.Event(e), false)]
                              [analyticsRow := R.Row("warehouse.facility.analytics", C.Event(e), false)]
  {
    RowsAreAdded(p.relays, e, eventsRow, analyticsRow);
  }

  /** The projector reads what a relay sends to the analytics topic, message by message, and nothing of what it
      sends elsewhere; a stray value is read like any other. */
  lemma OnlyAnalyticsIsRead(p: Pipeline, r: R.Action<Raw>)
    requires R.Sound(p.relays) && !r.Enqueue?
    ensures var before, sent := p.projector.shared.log, Do(p, Relay(r)).relays.log;
            Do(p, Relay(r)).projector.shared.log ==
            if sent != p.relays.log && sent[|p.relays.log|].topic == "warehouse.facility.analytics"
            then before + [sent[|p.relays.log|].message] else before
    ensures Do(p, Stray).projector.shared.log == p.projector.shared.log + [C.NotCloudEvent]
  {
    RelayStep(p.relays, r);
  }

  // ---- end to end ----

  /** The contributions of a set of recorded events. */
  function ContributionsOf(recorded: map<EventId, CloudEvent>, ids: set<EventId>): Claims
    requires forall id :: id in ids ==> id in recorded && Projects(recorded[id])
  {
    map id | id in ids :: ContributionOf(recorded[id])
  }

  ghost predicate Counted(p: Pipeline, ids: set<EventId>) {
    forall id :: id in ids ==> id in p.recorded && Projects(p.recorded[id])
  }

  lemma ClaimsAreRecorded(p: Pipeline)
    requires Sound(p)
    ensures var claims := p.projector.shared.claims;
            Counted(p, claims.Keys) && claims == ContributionsOf(p.recorded, claims.Keys)
  {
    var t := p.projector.shared;
    forall id | id in t.claims ensures id in p.recorded && Projects(p.recorded[id])
        && t.claims[id] == ContributionOf(p.recorded[id]) {
      assert C.Backed(t.log, id, t.claims[id]);
      var k :| 0 <= k < |t.log| && C.Projecting(t.log[k]) && t.log[k].event.id == id
          && ContributionOf(t.log[k].event) == t.claims[id];
      assert IsRecorded(p.recorded, t.log[k]);
    }
  }

  /** In every run of commits, relays, redeliveries, failures and crashes, the report equals the plain
      sum over a set of committed catalogue events, each counted once, in whatever order they are added;
      the set contains every event on the topic below the committed offset that is not dead-lettered. */
  lemma ReportIsTheFold(actions: seq<Action>, order: seq<EventId>, key: RowKey, counter: Counter)
    requires Enumerates(order, Run(Start(), actions).projector.shared.claims.Keys)
    ensures var p := Run(Start(), actions);
            var t := p.projector.shared;
            && Counted(p, t.claims.Keys)
            && (if key in t.rollup then t.rollup[key].Get(counter) else 0)
               == Fold(ContributionsOf(p.recorded, t.claims.Keys), order, key, counter)
            && (forall k :: 0 <= k < t.committed && k < |t.log| && k !in t.dlq && C.CatalogEvent(t.log[k])
                            ==> t.log[k].event.id in t.claims && p.recorded[t.log[k].event.id] == t.log[k].event)
  {
    var p := Run(Start(), actions);
    var t := p.projector.shared;
    RunKeeps(actions);
    ClaimsAreRecorded(p);
    C.RowIsFold(t, order, key, counter);
    forall k | 0 <= k < t.committed && k < |t.log| && k !in t.dlq && C.CatalogEvent(t.log[k])
      ensures t.log[k].event.id in t.claims && p.recorded[t.log[k].event.id] == t.log[k].event
    {
      assert C.Settled(t, k) && IsRecorded(p.recorded, t.log[k]);
    }
  }

  /** Every row is published and the group has committed the whole topic. */
  predicate Drained(p: Pipeline) {
    && (forall r :: r in p.relays.outbox ==> p.relays.outbox[r].published)
    && p.projector.shared.committed == |p.projector.shared.log|
  }

  /** Drained, with nothing but poison dead-lettered. */
  ghost predicate CaughtUp(p: Pipeline) {
    && Drained(p)
    && (forall j :: 0 <= j < |p.projector.shared.dlq| ==> DeadIsPoison(p.projector.shared, p.projector.shared.dlq[j]))
  }

  predicate DeadIsPoison(t: C.Shared, k: C.Offset) {
    k < |t.log| && C.IsPoison(t.log[k])
  }

  function Projectable(recorded: map<EventId, CloudEvent>): set<EventId> {
    set id | id in recorded && Projects(recorded[id])
  }

  /** A message that carries the event can be projected. */
  predicate Carries(t: C.Shared, k: C.Offset, id: EventId) {
    k < |t.log| && C.Projecting(t.log[k]) && t.log[k].event.id == id
  }

  ghost predicate DeadLettered(t: C.Shared, id: EventId) {
    exists j :: 0 <= j < |t.dlq| && Carries(t, t.dlq[j], id)
  }

  /** Catalogue events that were given up and that no attempt had applied. */
  ghost function Lost(p: Pipeline): set<EventId> {
    set id | id in p.recorded && Projects(p.recorded[id]) && DeadLettered(p.projector.shared, id)
             && id !in p.projector.shared.claims
  }

  lemma RecordedIsClaimed(p: Pipeline, id: EventId)
    requires Sound(p) && Drained(p) && id in p.recorded && Projects(p.recorded[id])
    ensures id in p.projector.shared.claims || DeadLettered(p.projector.shared, id)
  {
    var t, e := p.projector.shared, p.recorded[id];
    assert HasRow(p.relays.outbox, e);
    var r :| r in p.relays.outbox && p.relays.outbox[r].topic == ANALYTICS_TOPIC
        && p.relays.outbox[r].message == C.Event(e);
    assert R.OnLog(p.relays.log, r);
    var m :| 0 <= m < |p.relays.log| && p.relays.log[m].id == r;
    assert p.relays.log[m].message in t.log;
    var k :| 0 <= k < |t.log| && t.log[k] == C.Event(e);
    assert C.Settled(t, k) && Carries(t, k, id);
    if k in t.dlq {
      var j :| 0 <= j < |t.dlq| && t.dlq[j] == k;
      assert DeadLettered(t, id);
    }
  }

  /** In a drained pipeline the claimed events are all the catalogue events but the lost ones. */
  lemma DrainedClaims(p: Pipeline)
    requires Sound(p) && Drained(p)
    ensures p.projector.shared.claims.Keys == Projectable(p.recorded) - Lost(p)
  {
    ClaimsAreRecorded(p);
    forall id | id in Projectable(p.recorded) - Lost(p) ensures id in p.projector.shared.claims {
      RecordedIsClaimed(p, id);
    }
  }

  lemma CaughtUpLosesNothing(p: Pipeline)
    requires CaughtUp(p)
    ensures Lost(p) == {}
  {
  }

  lemma CaughtUpClaims(p: Pipeline)
    requires Sound(p) && CaughtUp(p)
    ensures p.projector.shared.claims.Keys == Projectable(p.recorded)
  {
    DrainedClaims(p);
    CaughtUpLosesNothing(p);
  }

  /** In a drained pipeline, whatever was dead-lettered on the way, the report is the sum over exactly the
      committed catalogue events that were not lost; so it is complete exactly when every event
      dead-lettered had been applied all the same. */
  lemma DrainedReportIsExact(actions: seq<Action>, order: seq<EventId>, key: RowKey, counter: Counter)
    requires Drained(Run(Start(), actions))
    requires var p := Run(Start(), actions); Enumerates(order, Projectable(p.recorded) - Lost(p))
    ensures var p := Run(Start(), actions);
            var t := p.projector.shared;
            && t.claims.Keys == Projectable(p.recorded) - Lost(p)
            && (if key in t.rollup then t.rollup[key].Get(counter) else 0)
               == Fold(ContributionsOf(p.recorded, Projectable(p.recorded) - Lost(p)), order, key, counter)
            && (t.claims.Keys == Projectable(p.recorded) <==>
                  forall id :: id in Projectable(p.recorded) && DeadLettered(t, id) ==> id in t.claims)
  {
    var p := Run(Start(), actions);
    RunKeeps(actions);
    ClaimsAreRecorded(p);
    DrainedClaims(p);
    C.RowIsFold(p.projector.shared, order, key, counter);
    assert forall id :: id in Lost(p) ==> id in Projectable(p.recorded);
  }

  /** Nothing lost and nothing doubled: once the pipeline has caught up, the report is the sum over
      exactly the committed catalogue events. */
  lemma CaughtUpReportIsComplete(actions: seq<Action>, order: seq<EventId>, key: RowKey, counter: Counter)
    requires CaughtUp(Run(Start(), actions))
    requires Enumerates(order, Projectable(Run(Start(), actions).recorded))
    ensures var p := Run(Start(), actions);
            var t := p.projector.shared;
            && t.claims.Keys == Projectable(p.recorded)
            && (if key in t.rollup then t.rollup[key].Get(counter) else 0)
               == Fold(ContributionsOf(p.recorded, Projectable(p.recorded)), order, key, counter)
  {
    var p := Run(Start(), actions);
    RunKeeps(actions);
    CaughtUpLosesNothing(p);
    assert Projectable(p.recorded) - Lost(p) == Projectable(p.recorded);
    DrainedReportIsExact(actions, order, key, counter);
  }
}
