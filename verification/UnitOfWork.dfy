/** Transactions around a use case's saves and events: nested units join the outermost one, and an
    event is enqueued as one outbox row per encoder under one id. */
module UnitsOfWork {
  type Topic = string

  /** One encoded event waiting in the outbox. */
  datatype OutboxRow = OutboxRow(topic: Topic, event: string, eventId: nat)

  /** What a session can read: stored aggregates and enqueued events. */
  datatype Store = Store(saved: map<string, string>, outbox: seq<OutboxRow>)

  /** How publishing an event can go wrong: encoding it for one topic, or inserting that row. */
  datatype Fault = NoFault | EncodeFails(at: nat) | InsertFails(at: nat)

  /** The body of a unit of work, as a decision tree: after each call the body goes on with `ok` or,
      having received an error, with `err`. The faults are the environment's choices. */
  datatype Body =
    | Return(success: bool)
    | Panic
    | Save(key: string, value: string, fails: bool, ok: Body, err: Body)
    | Publish(event: string, fault: Fault, ok: Body, err: Body)
    | Nested(inner: Body, ok: Body, err: Body)

  datatype Outcome = Succeeded | Failed | Panicked

  /** An open transaction. After a failed statement it is aborted: every later statement fails too and
      it can only be rolled back. */
  datatype Tx = Tx(work: Store, aborted: bool, nextId: nat)

  /** The rows of one event, for the encoders in order. */
  function RowsOf(encoders: seq<Topic>, event: string, eventId: nat): (rows: seq<OutboxRow>)
    ensures |rows| == |encoders|
    ensures forall k :: 0 <= k < |rows| ==> rows[k] == OutboxRow(encoders[k], event, eventId)
  {
    seq(|encoders|, k requires 0 <= k < |encoders| => OutboxRow(encoders[k], event, eventId))
  }

  function Min(a: nat, b: nat): nat {
    if a < b then a else b
  }

  /** How many rows a publish manages to insert, and whether it succeeds. */
  function Inserted(encoders: seq<Topic>, aborted: bool, fault: Fault): nat {
    if aborted then 0
    else match fault
      case NoFault => |encoders|
      case EncodeFails(at) => Min(at, |encoders|)
      case InsertFails(at) => Min(at, |encoders|)
  }

  /** Does some statement of a publish fail, aborting the transaction? With no encoder there is no
      statement; an encoding error before the first statement stops it from being issued. */
  predicate StatementFails(encoders: seq<Topic>, aborted: bool, fault: Fault) {
    match fault
    case NoFault => aborted && encoders != []
    case EncodeFails(at) => aborted && encoders != [] && at > 0
    case InsertFails(at) => (aborted && encoders != []) || at < |encoders|
  }

  predicate EncodingFails(encoders: seq<Topic>, aborted: bool, fault: Fault) {
    fault.EncodeFails? && fault.at < |encoders| && !StatementFails(encoders, aborted, fault)
  }

  function Published(encoders: seq<Topic>, t: Tx, event: string, fault: Fault): Tx {
    var rows := RowsOf(encoders, event, t.nextId)[..Inserted(encoders, t.aborted, fault)];
    Tx(t.work.(outbox := t.work.outbox + rows), t.aborted || StatementFails(encoders, t.aborted, fault), t.nextId + 1)
  }

  /** What running a body inside an open transaction does. */
  function Eval(encoders: seq<Topic>, body: Body, t: Tx): (Tx, Outcome) {
    match body
    case Return(success) => (t, if success then Succeeded else Failed)
    case Panic => (t, Panicked)
    case Save(key, value, fails, ok, err) =>
      if fails || t.aborted then Eval(encoders, err, t.(aborted := true))
      else Eval(encoders, ok, t.(work := t.work.(saved := t.work.saved[key := value])))
    case Publish(event, fault, ok, err) =>
      var t' := Published(encoders, t, event, fault);
      if StatementFails(encoders, t.aborted, fault) || EncodingFails(encoders, t.aborted, fault)
      then Eval(encoders, err, t') else Eval(encoders, ok, t')
    case Nested(inner, ok, err) =>
      var (t', outcome) := Eval(encoders, inner, t);
      match outcome
      case Panicked => (t', Panicked)
      case Succeeded => Eval(encoders, ok, t')
      case Failed => Eval(encoders, err, t')
  }

  // ---- what a committed unit leaves behind ----

  /** The writes a body asks for when nothing goes wrong in the database, in order; an event counts as
      all its rows. */
  datatype Write = Put(key: string, value: string) | Enqueue(event: string, eventId: nat)

  function Apply(encoders: seq<Topic>, s: Store, w: Write): Store {
    match w
    case Put(key, value) => s.(saved := s.saved[key := value])
    case Enqueue(event, eventId) => s.(outbox := s.outbox + RowsOf(encoders, event, eventId))
  }

  function Replay(encoders: seq<Topic>, s: Store, writes: seq<Write>): Store {
    if writes == [] then s else Apply(encoders, Replay(encoders, s, writes[..|writes| - 1]), writes[|writes| - 1])
  }

  /** The writes along the path a body takes, and the next free id after them. */
  function Writes(encoders: seq<Topic>, body: Body, t: Tx): seq<Write> {
    match body
    case Return(_) => []
    case Panic => []
    case Save(key, value, fails, ok, err) =>
      if fails || t.aborted then Writes(encoders, err, t.(aborted := true))
      else [Put(key, value)] + Writes(encoders, ok, t.(work := t.work.(saved := t.work.saved[key := value])))
    case Publish(event, fault, ok, err) =>
      var t' := Published(encoders, t, event, fault);
      [Enqueue(event, t.nextId)] +
      (if StatementFails(encoders, t.aborted, fault) || EncodingFails(encoders, t.aborted, fault)
       then Writes(encoders, err, t') else Writes(encoders, ok, t'))
    case Nested(inner, ok, err) =>
      var (t', outcome) := Eval(encoders, inner, t);
      Writes(encoders, inner, t) +
      match outcome
      case Panicked => []
      case Succeeded => Writes(encoders, ok, t')
      case Failed => Writes(encoders, err, t')
  }

  /** Every event met along the path encodes for every topic. */
  predicate AllEncode(encoders: seq<Topic>, body: Body, t: Tx) {
    match body
    case Return(_) => true
    case Panic => true
    case Save(key, value, fails, ok, err) =>
      if fails || t.aborted then AllEncode(encoders, err, t.(aborted := true))
      else AllEncode(encoders, ok, t.(work := t.work.(saved := t.work.saved[key := value])))
    case Publish(event, fault, ok, err) =>
      var t' := Published(encoders, t, event, fault);
      && !EncodingFails(encoders, t.aborted, fault)
      && (if StatementFails(encoders, t.aborted, fault) then AllEncode(encoders, err, t')
         else AllEncode(encoders, ok, t'))
    case Nested(inner, ok, err) =>
      var (t', outcome) := Eval(encoders, inner, t);
      && AllEncode(encoders, inner, t)
      && match outcome
         case Panicked => true
         case Succeeded => AllEncode(encoders, ok, t')
         case Failed => AllEncode(encoders, err, t')
  }

  lemma {:induction false} ReplayAppend(encoders: seq<Topic>, s: Store, a: seq<Write>, b: seq<Write>)
    ensures Replay(encoders, s, a + b) == Replay(encoders, Replay(encoders, s, a), b)
  {
    if b == [] {
      assert a + b == a;
    } else {
      assert (a + b)[..|a + b| - 1] == a + b[..|b| - 1];
      ReplayAppend(encoders, s, a, b[..|b| - 1]);
    }
  }

  lemma ReplayFirst(encoders: seq<Topic>, s: Store, w: Write, rest: seq<Write>)
    ensures Replay(encoders, s, [w] + rest) == Replay(encoders, Apply(encoders, s, w), rest)
  {
    ReplayAppend(encoders, s, [w], rest);
    assert [w][..0] == [];
    assert Replay(encoders, s, []) == s;
  }

  /** Once aborted, a transaction stays aborted. */
  lemma {:induction false} AbortIsFinal(encoders: seq<Topic>, body: Body, t: Tx)
    requires t.aborted
    ensures Eval(encoders, body, t).0.aborted
  {
    match body {
      case Return(_) =>
      case Panic =>
      case Save(key, value, fails, ok, err) =>
        AbortIsFinal(encoders, err, t);
      case Publish(event, fault, ok, err) =>
        var t' := Published(encoders, t, event, fault);
        AbortIsFinal(encoders, ok, t');
        AbortIsFinal(encoders, err, t');
      case Nested(inner, ok, err) =>
        var t' := Eval(encoders, inner, t).0;
        AbortIsFinal(encoders, inner, t);
        AbortIsFinal(encoders, ok, t');
        AbortIsFinal(encoders, err, t');
    }
  }

  lemma PublishedWhole(encoders: seq<Topic>, t: Tx, event: string, fault: Fault)
    requires !t.aborted && !StatementFails(encoders, t.aborted, fault) && !EncodingFails(encoders, t.aborted, fault)
    ensures Published(encoders, t, event, fault).work == Apply(encoders, t.work, Enqueue(event, t.nextId))
    ensures !Published(encoders, t, event, fault).aborted
  {
    assert RowsOf(encoders, event, t.nextId)[..|encoders|] == RowsOf(encoders, event, t.nextId);
  }

  /** When no encoding fails, a transaction that can still commit holds every write of the body, in
      order, and each event with one row per encoder under one id. */
  lemma {:induction false} UnitIsWhole(encoders: seq<Topic>, body: Body, t: Tx)
    requires !Eval(encoders, body, t).0.aborted && AllEncode(encoders, body, t)
    ensures Eval(encoders, body, t).0.work == Replay(encoders, t.work, Writes(encoders, body, t))
  {
    if t.aborted { AbortIsFinal(encoders, body, t); }
    match body {
      case Return(_) =>
      case Panic =>
      case Save(key, value, fails, ok, err) =>
        if fails {
          AbortIsFinal(encoders, err, t.(aborted := true));
        } else {
          var t' := t.(work := t.work.(saved := t.work.saved[key := value]));
          UnitIsWhole(encoders, ok, t');
          ReplayFirst(encoders, t.work, Put(key, value), Writes(encoders, ok, t'));
        }
      case Publish(event, fault, ok, err) =>
        var t' := Published(encoders, t, event, fault);
        if StatementFails(encoders, t.aborted, fault) {
          AbortIsFinal(encoders, err, t');
        } else {
          PublishedWhole(encoders, t, event, fault);
          UnitIsWhole(encoders, ok, t');
          ReplayFirst(encoders, t.work, Enqueue(event, t.nextId), Writes(encoders, ok, t'));
        }
      case Nested(inner, ok, err) =>
        var (t', outcome) := Eval(encoders, inner, t);
        if t'.aborted {
          AbortIsFinal(encoders, ok, t');
          AbortIsFinal(encoders, err, t');
        }
        UnitIsWhole(encoders, inner, t);
        match outcome {
          case Panicked =>
            assert Writes(encoders, inner, t) + [] == Writes(encoders, inner, t);
          case Succeeded =>
            UnitIsWhole(encoders, ok, t');
            ReplayAppend(encoders, t.work, Writes(encoders, inner, t), Writes(encoders, ok, t'));
          case Failed =>
            UnitIsWhole(encoders, err, t');
            ReplayAppend(encoders, t.work, Writes(encoders, inner, t), Writes(encoders, err, t'));
        }
    }
  }

  function RowCount(encoders: seq<Topic>, writes: seq<Write>): nat {
    if writes == [] then 0
    else (if writes[0].Enqueue? then |encoders| else 0) + RowCount(encoders, writes[1..])
  }

  lemma {:induction false} RowCountAppend(encoders: seq<Topic>, a: seq<Write>, b: seq<Write>)
    ensures RowCount(encoders, a + b) == RowCount(encoders, a) + RowCount(encoders, b)
  {
    if a == [] {
      assert a + b == b;
    } else {
      assert (a + b)[1..] == a[1..] + b;
      RowCountAppend(encoders, a[1..], b);
    }
  }

  lemma {:induction false} ReplayLength(encoders: seq<Topic>, s: Store, writes: seq<Write>)
    ensures |Replay(encoders, s, writes).outbox| == |s.outbox| + RowCount(encoders, writes)
  {
    if writes != [] {
      var last := |writes| - 1;
      ReplayLength(encoders, s, writes[..last]);
      RowCountAppend(encoders, writes[..last], [writes[last]]);
      assert writes == writes[..last] + [writes[last]];
    }
  }

  /** Rows go missing exactly when some event on the path fails to encode. */
  lemma {:induction false} RowsGoMissing(encoders: seq<Topic>, body: Body, t: Tx)
    requires !Eval(encoders, body, t).0.aborted
    ensures |Eval(encoders, body, t).0.work.outbox| <= |t.work.outbox| + RowCount(encoders, Writes(encoders, body, t))
    ensures |Eval(encoders, body, t).0.work.outbox| == |t.work.outbox| + RowCount(encoders, Writes(encoders, body, t))
            <==> AllEncode(encoders, body, t)
  {
    if t.aborted { AbortIsFinal(encoders, body, t); }
    match body {
      case Return(_) =>
      case Panic =>
      case Save(key, value, fails, ok, err) =>
        if fails {
          AbortIsFinal(encoders, err, t.(aborted := true));
        } else {
          var t' := t.(work := t.work.(saved := t.work.saved[key := value]));
          RowsGoMissing(encoders, ok, t');
          RowCountAppend(encoders, [Put(key, value)], Writes(encoders, ok, t'));
        }
      case Publish(event, fault, ok, err) =>
        var t' := Published(encoders, t, event, fault);
        if StatementFails(encoders, t.aborted, fault) {
          AbortIsFinal(encoders, err, t');
        } else {
          var rest := if EncodingFails(encoders, t.aborted, fault) then err else ok;
          RowsGoMissing(encoders, rest, t');
          RowCountAppend(encoders, [Enqueue(event, t.nextId)], Writes(encoders, rest, t'));
        }
      case Nested(inner, ok, err) =>
        var (t', outcome) := Eval(encoders, inner, t);
        if t'.aborted {
          AbortIsFinal(encoders, ok, t');
          AbortIsFinal(encoders, err, t');
        }
        RowsGoMissing(encoders, inner, t);
        if outcome == Panicked {
          assert Writes(encoders, inner, t) + [] == Writes(encoders, inner, t);
        } else {
          var rest := if outcome == Succeeded then ok else err;
          RowsGoMissing(encoders, rest, t');
          RowCountAppend(encoders, Writes(encoders, inner, t), Writes(encoders, rest, t'));
        }
    }
  }

  /** A transaction that can still commit holds every write its body asked for, in order and each
      event with all its rows, exactly when every event on the way encoded. */
  lemma WholeExactly(encoders: seq<Topic>, body: Body, t: Tx)
    requires !Eval(encoders, body, t).0.aborted
    ensures Eval(encoders, body, t).0.work == Replay(encoders, t.work, Writes(encoders, body, t))
            <==> AllEncode(encoders, body, t)
  {
    RowsGoMissing(encoders, body, t);
    ReplayLength(encoders, t.work, Writes(encoders, body, t));
    if AllEncode(encoders, body, t) {
      UnitIsWhole(encoders, body, t);
    }
  }

  /** A body that never succeeds after a call on its way has failed, as every use case is written. */
  predicate Propagates(body: Body) {
    match body
    case Return(_) => true
    case Panic => true
    case Save(_, _, _, ok, err) => Propagates(ok) && GivesUp(err)
    case Publish(_, _, ok, err) => Propagates(ok) && GivesUp(err)
    case Nested(inner, ok, err) => Propagates(inner) && Propagates(ok) && GivesUp(err)
  }

  predicate GivesUp(body: Body) {
    body == Return(false) || body == Panic
  }

  lemma {:induction false} PropagatingEncodes(encoders: seq<Topic>, body: Body, t: Tx)
    requires Propagates(body) && Eval(encoders, body, t).1 == Succeeded
    ensures AllEncode(encoders, body, t)
  {
    match body {
      case Return(_) =>
      case Panic =>
      case Save(key, value, _, ok, _) =>
        PropagatingEncodes(encoders, ok, t.(work := t.work.(saved := t.work.saved[key := value])));
      case Publish(event, fault, ok, _) =>
        PropagatingEncodes(encoders, ok, Published(encoders, t, event, fault));
      case Nested(inner, ok, _) =>
        PropagatingEncodes(encoders, inner, t);
        PropagatingEncodes(encoders, ok, Eval(encoders, inner, t).0);
    }
  }

  /** What an outermost unit leaves committed; `applies` is whether its commit, once asked for, takes effect. */
  function After(encoders: seq<Topic>, body: Body, before: Store, nextId: nat, applies: bool): Store {
    var (t, outcome) := Eval(encoders, body, Tx(before, false, nextId));
    if outcome == Succeeded && !t.aborted && applies then t.work else before
  }

  /** All or none: however units are nested, one whose body propagates errors leaves either all its saves
      and all its events' rows behind, in order, or the store as it was. */
  lemma CommittedUnitIsWhole(encoders: seq<Topic>, body: Body, before: Store, nextId: nat, applies: bool)
    requires Propagates(body)
    ensures After(encoders, body, before, nextId, applies) == before
            || After(encoders, body, before, nextId, applies)
               == Replay(encoders, before, Writes(encoders, body, Tx(before, false, nextId)))
  {
    var t := Tx(before, false, nextId);
    var (t', outcome) := Eval(encoders, body, t);
    if outcome == Succeeded && !t'.aborted {
      PropagatingEncodes(encoders, body, t);
      WholeExactly(encoders, body, t);
    }
  }

  /** The gap: a unit that joins an outer scope and fails because an event does not encode leaves its
      save behind when the outer body goes on and commits. */
  lemma SwallowedEncodingError(before: Store)
    ensures var unit := Save("slot", "registered", false,
                             Publish("SlotRegistered", EncodeFails(0), Return(true), Return(false)), Return(false));
            var joined := Nested(unit, Return(true), Return(true));
            var (t, outcome) := Eval(["events", "analytics"], joined, Tx(before, false, 0));
            && Propagates(unit) && outcome == Succeeded && !t.aborted
            && t.work == before.(saved := before.saved["slot" := "registered"])
            && !AllEncode(["events", "analytics"], joined, Tx(before, false, 0))
  {
    var encoders := ["events", "analytics"];
    var t := Tx(before, false, 0);
    var t1 := t.(work := before.(saved := before.saved["slot" := "registered"]));
    var publish := Publish("SlotRegistered", EncodeFails(0), Return(true), Return(false));
    var unit := Save("slot", "registered", false, publish, Return(false));
    assert Published(encoders, t1, "SlotRegistered", EncodeFails(0)).work.outbox == before.outbox;
    assert Eval(encoders, publish, t1) == (t1.(nextId := 1), Failed);
    assert Eval(encoders, unit, t) == (t1.(nextId := 1), Failed);
    assert !AllEncode(encoders, publish, t1);
    assert !AllEncode(encoders, unit, t);
  }

  // ---- one id per event ----

  /** The rows of the outbox carrying an id. */
  function RowsUnder(outbox: seq<OutboxRow>, eventId: nat): seq<OutboxRow> {
    if outbox == [] then []
    else RowsUnder(outbox[..|outbox| - 1], eventId)
         + (if outbox[|outbox| - 1].eventId == eventId then [outbox[|outbox| - 1]] else [])
  }

  lemma {:induction false} RowsUnderAppend(a: seq<OutboxRow>, b: seq<OutboxRow>, eventId: nat)
    ensures RowsUnder(a + b, eventId) == RowsUnder(a, eventId) + RowsUnder(b, eventId)
  {
    if b == [] {
      assert a + b == a;
    } else {
      assert (a + b)[..|a + b| - 1] == a + b[..|b| - 1];
      RowsUnderAppend(a, b[..|b| - 1], eventId);
    }
  }

  lemma {:induction false} RowsUnderUniform(rows: seq<OutboxRow>, eventId: nat, all: bool)
    requires forall k :: 0 <= k < |rows| ==> (rows[k].eventId == eventId) == all
    ensures RowsUnder(rows, eventId) == if all then rows else []
  {
    if rows != [] {
      RowsUnderUniform(rows[..|rows| - 1], eventId, all);
      assert rows == rows[..|rows| - 1] + [rows[|rows| - 1]];
    }
  }

  /** The ids the writes use lie in [from, to) and rise strictly. */
  ghost predicate FreshIds(writes: seq<Write>, from: nat, to: nat) {
    && from <= to
    && (forall k :: 0 <= k < |writes| && writes[k].Enqueue? ==> from <= writes[k].eventId < to)
    && (forall j, k :: 0 <= j < k < |writes| && writes[j].Enqueue? && writes[k].Enqueue?
          ==> writes[j].eventId < writes[k].eventId)
  }

  lemma FreshThenFresh(a: seq<Write>, b: seq<Write>, from: nat, mid: nat, to: nat)
    requires FreshIds(a, from, mid) && FreshIds(b, mid, to)
    ensures FreshIds(a + b, from, to)
  {
    var c := a + b;
    forall k | 0 <= k < |c| && c[k].Enqueue? ensures from <= c[k].eventId < to {
      assert c[k] == if k < |a| then a[k] else b[k - |a|];
    }
    forall j, k | 0 <= j < k < |c| && c[j].Enqueue? && c[k].Enqueue? ensures c[j].eventId < c[k].eventId {
      assert c[j] == if j < |a| then a[j] else b[j - |a|];
      assert c[k] == if k < |a| then a[k] else b[k - |a|];
    }
  }

  lemma {:induction false} WritesUseFreshIds(encoders: seq<Topic>, body: Body, t: Tx)
    ensures FreshIds(Writes(encoders, body, t), t.nextId, Eval(encoders, body, t).0.nextId)
  {
    match body {
      case Return(_) =>
      case Panic =>
      case Save(key, value, fails, ok, err) =>
        if fails || t.aborted {
          WritesUseFreshIds(encoders, err, t.(aborted := true));
        } else {
          var t' := t.(work := t.work.(saved := t.work.saved[key := value]));
          WritesUseFreshIds(encoders, ok, t');
          FreshThenFresh([Put(key, value)], Writes(encoders, ok, t'), t.nextId, t.nextId,
            Eval(encoders, ok, t').0.nextId);
        }
      case Publish(event, fault, ok, err) =>
        var t' := Published(encoders, t, event, fault);
        var rest := if StatementFails(encoders, t.aborted, fault)
            || EncodingFails(encoders, t.aborted, fault) then err else ok;
        WritesUseFreshIds(encoders, rest, t');
        FreshThenFresh([Enqueue(event, t.nextId)], Writes(encoders, rest, t'), t.nextId, t'.nextId,
          Eval(encoders, rest, t').0.nextId);
      case Nested(inner, ok, err) =>
        var (t', outcome) := Eval(encoders, inner, t);
        WritesUseFreshIds(encoders, inner, t);
        if outcome == Panicked {
          FreshThenFresh(Writes(encoders, inner, t), [], t.nextId, t'.nextId, t'.nextId);
        } else {
          var rest := if outcome == Succeeded then ok else err;
          WritesUseFreshIds(encoders, rest, t');
          FreshThenFresh(Writes(encoders, inner, t), Writes(encoders, rest, t'), t.nextId, t'.nextId,
            Eval(encoders, rest, t').0.nextId);
        }
    }
  }

  lemma RowsUnderApply(encoders: seq<Topic>, s: Store, w: Write, id: nat)
    ensures RowsUnder(Apply(encoders, s, w).outbox, id)
            == RowsUnder(s.outbox, id) + (if w.Enqueue? && w.eventId == id then RowsOf(encoders, w.event, id) else [])
  {
    if w.Enqueue? {
      var rows := RowsOf(encoders, w.event, w.eventId);
      RowsUnderAppend(s.outbox, rows, id);
      RowsUnderUniform(rows, id, w.eventId == id);
    }
  }

  /** After the writes, the rows under the id of an enqueued event are exactly one per encoder, in the
      encoders' order, all for that event. */
  lemma {:induction false} OneRowPerEncoder(encoders: seq<Topic>, s: Store, writes: seq<Write>, from: nat, to: nat,
          k: nat)
    requires FreshIds(writes, from, to) && k < |writes| && writes[k].Enqueue?
    requires forall r :: r in s.outbox ==> r.eventId < from
    ensures RowsUnder(Replay(encoders, s, writes).outbox, writes[k].eventId)
            == RowsOf(encoders, writes[k].event, writes[k].eventId)
  {
    var last := |writes| - 1;
    var shorter := writes[..last];
    RowsUnderApply(encoders, Replay(encoders, s, shorter), writes[last], writes[k].eventId);
    if k < last {
      OneRowPerEncoder(encoders, s, shorter, from, to, k);
    } else {
      NoRowYet(encoders, s, shorter, from, writes[k].eventId);
    }
  }

  lemma {:induction false} NoRowYet(encoders: seq<Topic>, s: Store, writes: seq<Write>, from: nat, id: nat)
    requires id >= from && forall r :: r in s.outbox ==> r.eventId < from
    requires forall k :: 0 <= k < |writes| && writes[k].Enqueue? ==> writes[k].eventId != id
    ensures RowsUnder(Replay(encoders, s, writes).outbox, id) == []
  {
    if writes == [] {
      RowsUnderUniform(s.outbox, id, false);
    } else {
      var last := |writes| - 1;
      NoRowYet(encoders, s, writes[..last], from, id);
      RowsUnderApply(encoders, Replay(encoders, s, writes[..last]), writes[last], id);
    }
  }

  // ---- what a session's commit leaves under each id ----

  ghost predicate IdsBelow(outbox: seq<OutboxRow>, n: nat) {
    forall r :: r in outbox ==> r.eventId < n
  }

  lemma PublishedKeepsIdsBelow(encoders: seq<Topic>, t: Tx, event: string, fault: Fault)
    requires IdsBelow(t.work.outbox, t.nextId)
    ensures var t' := Published(encoders, t, event, fault); IdsBelow(t'.work.outbox, t'.nextId)
  {
    var rows := RowsOf(encoders, event, t.nextId)[..Inserted(encoders, t.aborted, fault)];
    assert forall k :: 0 <= k < |rows| ==> rows[k].eventId == t.nextId;
  }

  lemma {:induction false} EvalKeepsIdsBelow(encoders: seq<Topic>, body: Body, t: Tx)
    requires IdsBelow(t.work.outbox, t.nextId)
    ensures var t' := Eval(encoders, body, t).0; IdsBelow(t'.work.outbox, t'.nextId) && t'.nextId >= t.nextId
  {
    match body {
      case Return(_) =>
      case Panic =>
      case Save(key, value, fails, ok, err) =>
        if fails || t.aborted { EvalKeepsIdsBelow(encoders, err, t.(aborted := true)); }
        else { EvalKeepsIdsBelow(encoders, ok, t.(work := t.work.(saved := t.work.saved[key := value]))); }
      case Publish(event, fault, ok, err) =>
        PublishedKeepsIdsBelow(encoders, t, event, fault);
        EvalKeepsIdsBelow(encoders, ok, Published(encoders, t, event, fault));
        EvalKeepsIdsBelow(encoders, err, Published(encoders, t, event, fault));
      case Nested(inner, ok, err) =>
        EvalKeepsIdsBelow(encoders, inner, t);
        EvalKeepsIdsBelow(encoders, ok, Eval(encoders, inner, t).0);
        EvalKeepsIdsBelow(encoders, err, Eval(encoders, inner, t).0);
    }
  }

  /** Each enqueued event has exactly one row per encoder under its id. */
  ghost predicate EventsAreWhole(encoders: seq<Topic>, outbox: seq<OutboxRow>, writes: seq<Write>) {
    forall k :: 0 <= k < |writes| && writes[k].Enqueue?
      ==> RowsUnder(outbox, writes[k].eventId) == RowsOf(encoders, writes[k].event, writes[k].eventId)
  }

  ghost predicate EarlierRowsStay(before: seq<OutboxRow>, outbox: seq<OutboxRow>, nextId: nat) {
    forall id :: 0 <= id < nextId ==> RowsUnder(outbox, id) == RowsUnder(before, id)
  }

  lemma {:induction false} OtherIdsKeepTheirRows(encoders: seq<Topic>, s: Store, writes: seq<Write>, id: nat)
    requires forall k :: 0 <= k < |writes| && writes[k].Enqueue? ==> writes[k].eventId != id
    ensures RowsUnder(Replay(encoders, s, writes).outbox, id) == RowsUnder(s.outbox, id)
  {
    if writes != [] {
      var last := |writes| - 1;
      OtherIdsKeepTheirRows(encoders, s, writes[..last], id);
      RowsUnderApply(encoders, Replay(encoders, s, writes[..last]), writes[last], id);
    }
  }

  /** For any nesting of units over a store whose ids lie below the next free one: when every event on the
      way encodes, what commits has exactly one row per encoder, in order, under the id of each event it
      enqueued, and under every earlier id the rows it had. */
  lemma CommittedEventsAreWhole(encoders: seq<Topic>, body: Body, before: Store, nextId: nat)
    requires IdsBelow(before.outbox, nextId)
    ensures var t := Tx(before, false, nextId);
            var t' := Eval(encoders, body, t).0;
            !t'.aborted && AllEncode(encoders, body, t) ==>
              && EventsAreWhole(encoders, t'.work.outbox, Writes(encoders, body, t))
              && EarlierRowsStay(before.outbox, t'.work.outbox, nextId)
  {
    var t := Tx(before, false, nextId);
    var t', writes := Eval(encoders, body, t).0, Writes(encoders, body, t);
    if !t'.aborted && AllEncode(encoders, body, t) {
      UnitIsWhole(encoders, body, t);
      WritesUseFreshIds(encoders, body, t);
      forall k | 0 <= k < |writes| && writes[k].Enqueue?
        ensures RowsUnder(t'.work.outbox, writes[k].eventId) == RowsOf(encoders, writes[k].event, writes[k].eventId)
      {
        OneRowPerEncoder(encoders, before, writes, nextId, t'.nextId, k);
      }
      forall id | 0 <= id < nextId ensures RowsUnder(t'.work.outbox, id) == RowsUnder(before.outbox, id) {
        OtherIdsKeepTheirRows(encoders, before, writes, id);
      }
    }
  }

  // ---- a session ----

  class Session {
    const encoders: seq<Topic>
    var committed: Store
    var nextId: nat
    var tx: Tx
    var open: bool
    /** Every store other sessions have been able to see, oldest first. */
    ghost var visible: seq<Store>

    ghost predicate Valid()
      reads this
    {
      && visible != [] && visible[|visible| - 1] == committed
      && IdsBelow(committed.outbox, nextId)
      && (if open then IdsBelow(tx.work.outbox, tx.nextId) else tx == Tx(committed, false, nextId))
    }

    constructor (encoders: seq<Topic>)
      ensures Valid() && !open && this.encoders == encoders && committed == Store(map[], []) && visible == [committed]
    {
      this.encoders := encoders;
      committed := Store(map[], []);
      nextId := 0;
      tx := Tx(Store(map[], []), false, 0);
      open := false;
      visible := [Store(map[], [])];
    }

    /** Enqueues an event: one row per encoder, all under one fresh id, stopping at the first failure. */
    method PublishEvent(event: string, fault: Fault) returns (ok: bool)
      requires Valid() && open
      modifies this`tx
      ensures Valid() && tx == Published(encoders, old(tx), event, fault)
      ensures ok <==>
        !StatementFails(encoders, old(tx).aborted, fault) && !EncodingFails(encoders, old(tx).aborted, fault)
    {
      PublishedKeepsIdsBelow(encoders, tx, event, fault);
      var eventId := tx.nextId;
      tx := tx.(nextId := tx.nextId + 1);
      for k := 0 to |encoders|
        invariant fault.EncodeFails? || fault.InsertFails? ==> k <= fault.at
        invariant old(tx).aborted ==> k == 0
        invariant tx == Tx(old(tx).work.(outbox := old(tx).work.outbox + RowsOf(encoders, event, eventId)[..k]),
                  old(tx).aborted, old(tx).nextId + 1)
      {
        if fault == EncodeFails(k) {
          return false;
        }
        if tx.aborted || fault == InsertFails(k) {
          tx := tx.(aborted := true);
          return false;
        }
        tx := tx.(work := tx.work.(outbox := tx.work.outbox + [OutboxRow(encoders[k], event, eventId)]));
      }
      return true;
    }

    /** Runs a body against the open transaction. */
    method Perform(body: Body) returns (outcome: Outcome)
      requires Valid() && open
      modifies this
      ensures Valid() && open && committed == old(committed) && visible == old(visible) && nextId == old(nextId)
      ensures (tx, outcome) == Eval(encoders, body, old(tx))
      decreases body, 0
    {
      match body {
        case Return(success) =>
          outcome := if success then Succeeded else Failed;
        case Panic =>
          outcome := Panicked;
        case Save(key, value, fails, ok, err) =>
          if fails || tx.aborted {
            tx := tx.(aborted := true);
            outcome := Perform(err);
          } else {
            tx := tx.(work := tx.work.(saved := tx.work.saved[key := value]));
            outcome := Perform(ok);
          }
        case Publish(event, fault, ok, err) =>
          var enqueued := PublishEvent(event, fault);
          if enqueued {
            outcome := Perform(ok);
          } else {
            outcome := Perform(err);
          }
        case Nested(inner, ok, err) =>
          // A unit of work begun inside another joins it; its commit outcome is the outer one's.
          var result := Execute(inner, true, true, true);
          match result {
            case Panicked => outcome := Panicked;
            case Succeeded => outcome := Perform(ok);
            case Failed => outcome := Perform(err);
          }
      }
    }

    /** Runs a body in one transaction, or in the one already open. `begins` says whether a new
        transaction can be opened, `commitReturns` says whether the
        commit call reports success, `commitApplies` whether it took effect when it did not. */
    method Execute(body: Body, begins: bool, commitReturns: bool, commitApplies: bool) returns (outcome: Outcome)
      requires Valid()
      modifies this
      ensures Valid() && open == old(open)
      ensures old(open) ==> committed == old(committed) && visible == old(visible) && nextId == old(nextId)
      ensures old(open) ==> (tx, outcome) == Eval(encoders, body, old(tx))
      ensures !old(open) && !begins ==> outcome == Failed && unchanged(this)
      ensures !old(open) && begins ==>
                var t := Tx(old(committed), false, old(nextId));
                var (t', inner) := Eval(encoders, body, t);
                var applies := commitReturns || commitApplies;
                && committed == After(encoders, body, old(committed), old(nextId), applies)
                && visible ==
                   (if inner == Succeeded && !t'.aborted && applies then old(visible) + [committed] else old(visible))
                && outcome == (if inner == Succeeded && (t'.aborted || !commitReturns) then Failed else inner)
                && nextId == t'.nextId
      ensures !old(open) && |visible| > |old(visible)|
              && (Propagates(body) || AllEncode(encoders, body, Tx(old(committed), false, old(nextId)))) ==>
                && EventsAreWhole(encoders, committed.outbox,
                   Writes(encoders, body, Tx(old(committed), false, old(nextId))))
                && EarlierRowsStay(old(committed).outbox, committed.outbox, old(nextId))
      decreases body, 1
    {
      if open {
        outcome := Perform(body);
        return;
      }
      if !begins {
        return Failed;
      }
      tx := Tx(committed, false, nextId);
      open := true;
      CommittedEventsAreWhole(encoders, body, committed, nextId);
      EvalKeepsIdsBelow(encoders, body, tx);
      if Propagates(body) && Eval(encoders, body, tx).1 == Succeeded {
        PropagatingEncodes(encoders, body, tx);
      }
      outcome := Perform(body);
      nextId := tx.nextId;
      open := false;
      if outcome == Succeeded {
        if tx.aborted {
          outcome := Failed;
        } else {
          if commitReturns || commitApplies {
            committed := tx.work;
            visible := visible + [committed];
          }
          if !commitReturns {
            outcome := Failed;
          }
        }
      }
      tx := Tx(committed, false, nextId);
    }
  }
}
