/** From a session's commits to the pipeline's first step: whatever a unit of work leaves committed is a
    sequence of recorded events, each with its two rows. */
module Recordings {
  import opened Projections
  import opened UnitsOfWork
  import R = OutboxRelays
  import C = Consumers
  import P = Pipelines

  /** One encoder per topic, in the order the publisher is given them. */
  const TOPICS := [P.EVENTS_TOPIC, P.ANALYTICS_TOPIC]

  /** What happens over time: a unit of work, whose commit takes effect or not, or something elsewhere in
      the pipeline. */
  datatype Move = Unit(body: Body, applies: bool) | Elsewhere(action: P.Action)

  /** What sessions have committed, and the next free event id. */
  datatype Ledger = Ledger(store: Store, nextId: nat)

  function Play(l: Ledger, m: Move): Ledger {
    match m
    case Elsewhere(_) => l
    case Unit(body, applies) =>
      Ledger(After(TOPICS, body, l.store, l.nextId, applies),
             Eval(TOPICS, body, Tx(l.store, false, l.nextId)).0.nextId)
  }

  function PlayAll(moves: seq<Move>): Ledger {
    if moves == [] then Ledger(Store(map[], []), 0) else Play(PlayAll(moves[..|moves| - 1]), moves[|moves| - 1])
  }

  /** A unit that propagates errors, or on whose path every event encodes. */
  predicate Encodes(l: Ledger, body: Body) {
    Propagates(body) || AllEncode(TOPICS, body, Tx(l.store, false, l.nextId))
  }

  predicate MayPlay(l: Ledger, m: Move) {
    match m
    case Unit(body, _) => Encodes(l, body)
    case Elsewhere(a) => !a.Record?
  }

  ghost predicate Plays(moves: seq<Move>) {
    forall k :: 0 <= k < |moves| ==> MayPlay(PlayAll(moves[..k]), moves[k])
  }

  // ---- how the committed rows appear in the pipeline ----

  /** The i-th row committed gets the serial number rowId(i); numbers need not ascend. */
  ghost predicate Injective(rowId: nat -> nat) {
    forall i: nat, j: nat :: rowId(i) == rowId(j) ==> i == j
  }

  /** How a domain event becomes a CloudEvent under its id. */
  ghost predicate KeepsIds(of: (string, nat) -> CloudEvent) {
    forall event: string, id: nat :: of(event, id).id == id
  }

  ghost predicate RowMirrored(p: P.Pipeline, row: OutboxRow, r: nat, of: (string, nat) -> CloudEvent) {
    && r in p.relays.outbox && p.relays.outbox[r].topic == row.topic
    && p.relays.outbox[r].message == C.Event(of(row.event, row.eventId))
    && row.eventId in p.recorded && p.recorded[row.eventId] == of(row.event, row.eventId)
  }

  ghost predicate HasId(outbox: seq<OutboxRow>, id: nat) {
    exists i :: 0 <= i < |outbox| && outbox[i].eventId == id
  }

  ghost predicate IsSerial(outbox: seq<OutboxRow>, rowId: nat -> nat, r: nat) {
    exists i: nat :: i < |outbox| && rowId(i) == r
  }

  /** The pipeline holds exactly the committed rows, published or not, and has recorded exactly their events. */
  ghost predicate Mirrors(p: P.Pipeline, outbox: seq<OutboxRow>, rowId: nat -> nat, of: (string, nat) -> CloudEvent) {
    && (forall i: nat :: i < |outbox| ==> RowMirrored(p, outbox[i], rowId(i), of))
    && (forall r :: r in p.relays.outbox ==> IsSerial(outbox, rowId, r))
    && (forall id :: id in p.recorded ==> HasId(outbox, id))
  }

  // ---- one event ----

  /** From `p` to `p'` one event is recorded, with its two rows. */
  ghost predicate Records(p: P.Pipeline, p': P.Pipeline, e: CloudEvent, eventsRow: nat, analyticsRow: nat) {
    && p'.recorded == p.recorded[e.id := e]
    && p'.relays.outbox == p.relays.outbox[eventsRow := R.Row(P.EVENTS_TOPIC, C.Event(e), false)]
                                          [analyticsRow := R.Row(P.ANALYTICS_TOPIC, C.Event(e), false)]
  }

  lemma RecordsOne(p: P.Pipeline, e: CloudEvent, eventsRow: nat, analyticsRow: nat) returns (actions: seq<P.Action>)
    requires P.Sound(p) && P.MayRecord(p, e, eventsRow, analyticsRow)
    ensures OnlyRecords(actions)
    ensures P.Sound(P.Run(p, actions)) && Records(p, P.Run(p, actions), e, eventsRow, analyticsRow)
  {
    var a := P.Record(e, eventsRow, analyticsRow);
    P.StepKeeps(p, a);
    P.RowsAreAdded(p.relays, e, eventsRow, analyticsRow);
    assert P.Run(p, []) == p;
    PushStep(p, [], a);
    actions := [] + [a];
  }

  lemma RowsAreMirrored(p: P.Pipeline, p': P.Pipeline, outbox: seq<OutboxRow>, event: string, id: nat,
                        rowId: nat -> nat, of: (string, nat) -> CloudEvent)
    requires Mirrors(p, outbox, rowId, of) && Injective(rowId) && KeepsIds(of) && !HasId(outbox, id)
    requires Records(p, p', of(event, id), rowId(|outbox|), rowId(|outbox| + 1))
    ensures var outbox' := outbox + RowsOf(TOPICS, event, id);
            forall i: nat :: i < |outbox'| ==> RowMirrored(p', outbox'[i], rowId(i), of)
  {
    var n, outbox' := |outbox|, outbox + RowsOf(TOPICS, event, id);
    assert outbox'[n] == OutboxRow(P.EVENTS_TOPIC, event, id);
    assert outbox'[n + 1] == OutboxRow(P.ANALYTICS_TOPIC, event, id);
    assert RowMirrored(p', outbox'[n], rowId(n), of) && RowMirrored(p', outbox'[n + 1], rowId(n + 1), of);
    forall i: nat | i < |outbox'| ensures RowMirrored(p', outbox'[i], rowId(i), of) {
      if i < n { assert RowMirrored(p, outbox[i], rowId(i), of); }
    }
  }

  lemma MayRecordNext(p: P.Pipeline, outbox: seq<OutboxRow>, e: CloudEvent, rowId: nat -> nat,
                      of: (string, nat) -> CloudEvent)
    requires Mirrors(p, outbox, rowId, of) && Injective(rowId) && !HasId(outbox, e.id)
    ensures P.MayRecord(p, e, rowId(|outbox|), rowId(|outbox| + 1))
  {
  }

  lemma RecordsEvent(p: P.Pipeline, outbox: seq<OutboxRow>, event: string, id: nat, rowId: nat -> nat,
                     of: (string, nat) -> CloudEvent) returns (actions: seq<P.Action>)
    requires P.Sound(p) && Mirrors(p, outbox, rowId, of) && Injective(rowId) && KeepsIds(of) && !HasId(outbox, id)
    ensures OnlyRecords(actions)
    ensures P.Sound(P.Run(p, actions)) && Mirrors(P.Run(p, actions), outbox + RowsOf(TOPICS, event, id), rowId, of)
  {
    var e, n := of(event, id), |outbox|;
    MayRecordNext(p, outbox, e, rowId, of);
    actions := RecordsOne(p, e, rowId(n), rowId(n + 1));
    var p', outbox' := P.Run(p, actions), outbox + RowsOf(TOPICS, event, id);
    RowsAreMirrored(p, p', outbox, event, id, rowId, of);
    SerialsStay(p.relays.outbox, p'.relays.outbox, outbox, outbox', rowId);
    IdsStay(p.recorded, p'.recorded, outbox, outbox', id);
  }

  lemma SerialsStay(rows: map<nat, R.Row<P.Raw>>, rows': map<nat, R.Row<P.Raw>>, outbox: seq<OutboxRow>,
                    outbox': seq<OutboxRow>, rowId: nat -> nat)
    requires |outbox'| == |outbox| + 2
    requires rows'.Keys <= rows.Keys + {rowId(|outbox|), rowId(|outbox| + 1)}
    requires forall r :: r in rows ==> IsSerial(outbox, rowId, r)
    ensures forall r :: r in rows' ==> IsSerial(outbox', rowId, r)
  {
    forall r | r in rows' ensures IsSerial(outbox', rowId, r) {
      if r in rows {
        var i: nat :| i < |outbox| && rowId(i) == r;
        assert i < |outbox'|;
      }
    }
  }

  lemma IdsStay(recorded: map<EventId, CloudEvent>, recorded': map<EventId, CloudEvent>, outbox: seq<OutboxRow>,
                outbox': seq<OutboxRow>, id: nat)
    requires recorded'.Keys == recorded.Keys + {id} && outbox <= outbox' && |outbox| < |outbox'|
    requires outbox'[|outbox|].eventId == id
    requires forall x :: x in recorded ==> HasId(outbox, x)
    ensures forall x :: x in recorded' ==> HasId(outbox', x)
  {
    forall x | x in recorded' ensures HasId(outbox', x) {
      if x in recorded {
        var i :| 0 <= i < |outbox| && outbox[i].eventId == x;
        assert outbox'[i].eventId == x;
      }
    }
  }

  // ---- one unit ----

  predicate OnlyRecords(actions: seq<P.Action>) {
    forall k :: 0 <= k < |actions| ==> actions[k].Record?
  }

  lemma {:induction false} RowsUnderFinds(outbox: seq<OutboxRow>, id: nat)
    requires RowsUnder(outbox, id) == []
    ensures !HasId(outbox, id)
  {
    if outbox != [] {
      RowsUnderFinds(outbox[..|outbox| - 1], id);
      assert forall i :: 0 <= i < |outbox| - 1 ==> outbox[..|outbox| - 1][i] == outbox[i];
    }
  }

  lemma PushStep(p: P.Pipeline, actions: seq<P.Action>, a: P.Action)
    ensures P.Run(p, actions + [a]) == P.Do(P.Run(p, actions), a)
  {
    assert (actions + [a])[..|actions|] == actions;
  }

  lemma {:induction false} RunAppend(p: P.Pipeline, a: seq<P.Action>, b: seq<P.Action>)
    ensures P.Run(p, a + b) == P.Run(P.Run(p, a), b)
  {
    if b == [] {
      assert a + b == a;
    } else {
      assert (a + b)[..|a + b| - 1] == a + b[..|b| - 1];
      RunAppend(p, a, b[..|b| - 1]);
    }
  }

  /** One write, after those before it. */
  lemma RecordsWrite(p: P.Pipeline, before: Store, writes: seq<Write>, w: Write, from: nat, rowId: nat -> nat,
                     of: (string, nat) -> CloudEvent) returns (actions: seq<P.Action>)
    requires P.Sound(p) && Mirrors(p, Replay(TOPICS, before, writes).outbox, rowId, of)
    requires Injective(rowId) && KeepsIds(of) && IdsBelow(before.outbox, from)
    requires w.Enqueue? ==> w.eventId >= from
    requires forall k :: 0 <= k < |writes| && writes[k].Enqueue? && w.Enqueue? ==> writes[k].eventId != w.eventId
    ensures OnlyRecords(actions) && P.Sound(P.Run(p, actions))
    ensures Mirrors(P.Run(p, actions), Apply(TOPICS, Replay(TOPICS, before, writes), w).outbox, rowId, of)
  {
    if w.Enqueue? {
      NoRowYet(TOPICS, before, writes, from, w.eventId);
      RowsUnderFinds(Replay(TOPICS, before, writes).outbox, w.eventId);
      actions := RecordsEvent(p, Replay(TOPICS, before, writes).outbox, w.event, w.eventId, rowId, of);
    } else {
      actions := [];
      assert P.Run(p, []) == p;
    }
  }

  /** The writes of a unit, one after another. */
  lemma {:induction false} RecordsWrites(p: P.Pipeline, before: Store, writes: seq<Write>, from: nat, to: nat,
                                         rowId: nat -> nat, of: (string, nat) -> CloudEvent)
      returns (actions: seq<P.Action>)
    requires P.Sound(p) && Mirrors(p, before.outbox, rowId, of) && Injective(rowId) && KeepsIds(of)
    requires IdsBelow(before.outbox, from) && FreshIds(writes, from, to)
    ensures OnlyRecords(actions)
    ensures var p' := P.Run(p, actions); P.Sound(p') && Mirrors(p', Replay(TOPICS, before, writes).outbox, rowId, of)
  {
    actions := [];
    if writes != [] {
      var last, shorter := writes[|writes| - 1], writes[..|writes| - 1];
      actions := RecordsWrites(p, before, shorter, from, to, rowId, of);
      var next := RecordsWrite(P.Run(p, actions), before, shorter, last, from, rowId, of);
      RunAppend(p, actions, next);
      actions := actions + next;
    }
  }

  lemma RecordsUnit(p: P.Pipeline, l: Ledger, body: Body, applies: bool, rowId: nat -> nat,
                    of: (string, nat) -> CloudEvent) returns (actions: seq<P.Action>)
    requires P.Sound(p) && Mirrors(p, l.store.outbox, rowId, of) && Injective(rowId) && KeepsIds(of)
    requires IdsBelow(l.store.outbox, l.nextId) && Encodes(l, body)
    ensures OnlyRecords(actions)
    ensures var p', l' := P.Run(p, actions), Play(l, Unit(body, applies));
            P.Sound(p') && Mirrors(p', l'.store.outbox, rowId, of)
  {
    var t := Tx(l.store, false, l.nextId);
    var (t', outcome) := Eval(TOPICS, body, t);
    actions := [];
    if outcome == Succeeded && !t'.aborted && applies {
      if Propagates(body) { PropagatingEncodes(TOPICS, body, t); }
      UnitIsWhole(TOPICS, body, t);
      WritesUseFreshIds(TOPICS, body, t);
      actions := RecordsWrites(p, l.store, Writes(TOPICS, body, t), l.nextId, t'.nextId, rowId, of);
    }
  }

  lemma PlayKeepsIdsBelow(l: Ledger, m: Move)
    requires IdsBelow(l.store.outbox, l.nextId)
    ensures IdsBelow(Play(l, m).store.outbox, Play(l, m).nextId)
  {
    if m.Unit? { EvalKeepsIdsBelow(TOPICS, m.body, Tx(l.store, false, l.nextId)); }
  }

  lemma {:induction false} PlayedIdsBelow(moves: seq<Move>)
    ensures IdsBelow(PlayAll(moves).store.outbox, PlayAll(moves).nextId)
  {
    if moves != [] {
      PlayedIdsBelow(moves[..|moves| - 1]);
      PlayKeepsIdsBelow(PlayAll(moves[..|moves| - 1]), moves[|moves| - 1]);
    }
  }

  // ---- whole histories ----

  /** Relays and projectors leave the committed rows and the recorded events as they are. */
  lemma ElsewhereMirrors(p: P.Pipeline, a: P.Action, outbox: seq<OutboxRow>, rowId: nat -> nat,
                         of: (string, nat) -> CloudEvent)
    requires P.Sound(p) && Mirrors(p, outbox, rowId, of) && !a.Record?
    ensures P.Sound(P.Do(p, a)) && Mirrors(P.Do(p, a), outbox, rowId, of)
  {
    P.StepKeeps(p, a);
    if a.Relay? && !a.relay.Enqueue? { P.RelayStep(p.relays, a.relay); }
    forall i: nat | i < |outbox| ensures RowMirrored(P.Do(p, a), outbox[i], rowId(i), of) {
      assert RowMirrored(p, outbox[i], rowId(i), of);
    }
  }

  /** The steps of a history that are not units, in order. */
  function Elsewheres(moves: seq<Move>): seq<P.Action> {
    if moves == [] then []
    else
      Elsewheres(moves[..|moves| - 1]) +
      match moves[|moves| - 1]
      case Unit(_, _) => []
      case Elsewhere(a) => [a]
  }

  /** The steps of a run that record nothing, in order. */
  function WithoutRecords(actions: seq<P.Action>): seq<P.Action> {
    if actions == [] then []
    else
      WithoutRecords(actions[..|actions| - 1])
      + if actions[|actions| - 1].Record? then [] else [actions[|actions| - 1]]
  }

  lemma {:induction false} RecordsAreLeftOut(a: seq<P.Action>, b: seq<P.Action>)
    requires OnlyRecords(b)
    ensures WithoutRecords(a + b) == WithoutRecords(a)
  {
    if b == [] {
      assert a + b == a;
    } else {
      assert (a + b)[..|a + b| - 1] == a + b[..|b| - 1];
      RecordsAreLeftOut(a, b[..|b| - 1]);
    }
  }

  lemma OneElsewhere(actions: seq<P.Action>, a: P.Action)
    requires !a.Record?
    ensures WithoutRecords(actions + [a]) == WithoutRecords(actions) + [a]
  {
    assert (actions + [a])[..|actions|] == actions;
  }

  /** Every history of units of work, nested, failing, panicking or rolled back, with relays and projectors
      acting in between, is a run of the pipeline: the same steps elsewhere in the same order, and between
      them, for each event a committed unit published, one step that records it with its two rows. The
      pipeline then holds exactly the rows the sessions committed. */
  lemma {:induction false} CommitsAreRecords(moves: seq<Move>, rowId: nat -> nat, of: (string, nat) -> CloudEvent)
      returns (actions: seq<P.Action>)
    requires Plays(moves) && Injective(rowId) && KeepsIds(of)
    ensures WithoutRecords(actions) == Elsewheres(moves)
    ensures var p := P.Run(P.Start(), actions);
            P.Sound(p) && Mirrors(p, PlayAll(moves).store.outbox, rowId, of)
  {
    actions := [];
    if moves == [] {
      C.StartIsSound();
    } else {
      var last, shorter := moves[|moves| - 1], moves[..|moves| - 1];
      ShorterPlays(moves);
      actions := CommitsAreRecords(shorter, rowId, of);
      var p := P.Run(P.Start(), actions);
      match last {
        case Unit(body, applies) =>
          PlayedIdsBelow(shorter);
          var records := RecordsUnit(p, PlayAll(shorter), body, applies, rowId, of);
          RunAppend(P.Start(), actions, records);
          RecordsAreLeftOut(actions, records);
          actions := actions + records;
        case Elsewhere(a) =>
          ElsewhereMirrors(p, a, PlayAll(shorter).store.outbox, rowId, of);
          PushStep(P.Start(), actions, a);
          OneElsewhere(actions, a);
          actions := actions + [a];
      }
    }
  }

  lemma ShorterPlays(moves: seq<Move>)
    requires moves != [] && Plays(moves)
    ensures Plays(moves[..|moves| - 1]) && MayPlay(PlayAll(moves[..|moves| - 1]), moves[|moves| - 1])
  {
    var shorter := moves[..|moves| - 1];
    forall k | 0 <= k < |shorter| ensures MayPlay(PlayAll(shorter[..k]), shorter[k]) {
      assert shorter[..k] == moves[..k];
    }
  }

  /** From commit to report: when such a pipeline is drained, the events its report counts are exactly the
      catalogue events that units of work committed, except those that were lost. */
  lemma ReportCoversTheCommits(moves: seq<Move>, rowId: nat -> nat, of: (string, nat) -> CloudEvent)
      returns (actions: seq<P.Action>)
    requires Plays(moves) && Injective(rowId) && KeepsIds(of)
    ensures WithoutRecords(actions) == Elsewheres(moves)
    ensures var p, outbox := P.Run(P.Start(), actions), PlayAll(moves).store.outbox;
            P.Drained(p) ==> forall i: nat :: i < |outbox| ==>
              (outbox[i].eventId in p.projector.shared.claims <==>
               Projects(of(outbox[i].event, outbox[i].eventId)) && outbox[i].eventId !in P.Lost(p))
    ensures var p, outbox := P.Run(P.Start(), actions), PlayAll(moves).store.outbox;
            forall id :: id in p.projector.shared.claims ==> HasId(outbox, id)
  {
    actions := CommitsAreRecords(moves, rowId, of);
    var p, outbox := P.Run(P.Start(), actions), PlayAll(moves).store.outbox;
    P.ClaimsAreRecorded(p);
    if P.Drained(p) {
      P.DrainedClaims(p);
      forall i: nat | i < |outbox|
        ensures outbox[i].eventId in p.projector.shared.claims <==>
                Projects(of(outbox[i].event, outbox[i].eventId)) && outbox[i].eventId !in P.Lost(p)
      {
        assert RowMirrored(p, outbox[i], rowId(i), of);
      }
    }
  }
}
