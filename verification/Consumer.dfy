/** The analytics projector: any number of workers reading one topic with at-least-once delivery, each
    handling its message in up to three attempts, dead-lettering what it cannot handle, and committing
    the group's offset. Every call to a store, the dead-letter topic or the broker may fail, and may have
    taken effect although it reported failure. */
module Consumers {
  import opened Projections
  import opened ProjectionStores

  type WorkerId = nat
  type Offset = nat

  const MAX_ATTEMPTS := 3

  /** A message value: not a CloudEvents 1.0 event, or one. */
  datatype Raw = NotCloudEvent | Event(event: CloudEvent)

  datatype Phase =
    | Idle       // about to fetch
    | Checking   // about to ask whether the event was consumed
    | Applying   // about to apply it to the projection
    | Marking    // applied, about to record it as consumed
    | Waiting    // an attempt failed, backing off
    | Dead       // about to publish to the dead-letter topic
    | Handled    // about to commit the offset

  datatype Worker = Worker(pos: Offset, attempt: nat, phase: Phase)

  /** What all workers share: the topic, the analytical tables, the dead-letter topic (as source
      offsets) and the group's committed offset. `claims` is analytics_processed_events together with
      what each event added. */
  datatype Shared = Shared(log: seq<Raw>, claims: Claims, rollup: map<RowKey, Counts>, consumed: set<EventId>,
                           dlq: seq<Offset>, committed: Offset)

  datatype Projector = Projector(shared: Shared, workers: map<WorkerId, Worker>)

  datatype Action =
    | Append(raw: Raw)
    | Join(worker: WorkerId)
    | Fetch(worker: WorkerId)
    | Check(worker: WorkerId, ok: bool)
    | Apply(worker: WorkerId, applied: bool, ok: bool)
    | MarkConsumed(worker: WorkerId, applied: bool, ok: bool)
    | Retry(worker: WorkerId)
    | GiveUp(worker: WorkerId)
    | DeadLetter(worker: WorkerId, appended: bool, ok: bool)
    | CommitOffset(worker: WorkerId, applied: bool, ok: bool)
    | Stop(worker: WorkerId)

  function Start(): Projector {
    Projector(Shared([], map[], map[], {}, [], 0), map[])
  }

  // ---- steps ----

  predicate CatalogEvent(raw: Raw) {
    raw.Event? && IsCatalogChange(raw.event.kind)
  }

  predicate Projecting(raw: Raw) {
    raw.Event? && Projects(raw.event)
  }

  /** A worker in a phase of handling the message at its position. */
  predicate In(s: Projector, w: WorkerId, phase: Phase) {
    w in s.workers && s.workers[w].phase == phase && s.workers[w].pos < |s.shared.log|
  }

  function MessageOf(s: Projector, w: WorkerId): Raw
    requires w in s.workers && s.workers[w].pos < |s.shared.log|
  {
    s.shared.log[s.workers[w].pos]
  }

  /** What follows a failed attempt: another one, or the dead-letter topic after the last. */
  function AfterFailure(w: Worker): Worker {
    w.(phase := if w.attempt < MAX_ATTEMPTS then Waiting else Dead)
  }

  /** The first thing an attempt does: a value that is no CloudEvent goes to the dead-letter topic
      without retry, and an event outside the projection is acknowledged untouched. */
  function Decoded(raw: Raw): Phase {
    if raw.NotCloudEvent? then Dead else if !IsCatalogChange(raw.event.kind) then Handled else Checking
  }

  /** After the consumed check: a consumed event is done; unreadable data fails the attempt. */
  function Checked(t: Shared, w: Worker, e: CloudEvent, ok: bool): Worker {
    if !ok then AfterFailure(w)
    else if e.id in t.consumed then w.(phase := Handled)
    else if !Projects(e) then AfterFailure(w)
    else w.(phase := Applying)
  }

  /** Claims the event and adds its contribution, unless it is claimed already. */
  function ApplyEvent(t: Shared, e: CloudEvent): Shared
    requires Projects(e)
  {
    t.(claims := ClaimOnce(t.claims, e.id, ContributionOf(e)),
       rollup := if e.id in t.claims then t.rollup else AddTo(t.rollup, ContributionOf(e)))
  }

  function Do(s: Projector, a: Action): Projector {
    var t := s.shared;
    match a
    case Append(raw) => s.(shared := t.(log := t.log + [raw]))
    case Join(w) =>
      if w in s.workers then s else s.(workers := s.workers[w := Worker(t.committed, 0, Idle)])
    case Fetch(w) =>
      if !In(s, w, Idle) then s
      else s.(workers := s.workers[w := s.workers[w].(attempt := 1, phase := Decoded(MessageOf(s, w)))])
    case Check(w, ok) =>
      if !In(s, w, Checking) || !CatalogEvent(MessageOf(s, w)) then s
      else s.(workers := s.workers[w := Checked(t, s.workers[w], MessageOf(s, w).event, ok)])
    case Apply(w, applied, ok) =>
      if !In(s, w, Applying) || !Projecting(MessageOf(s, w)) then s
      else Projector(if applied || ok then ApplyEvent(t, MessageOf(s, w).event) else t,
                     s.workers[w := if ok then s.workers[w].(phase := Marking) else AfterFailure(s.workers[w])])
    case MarkConsumed(w, applied, ok) =>
      if !In(s, w, Marking) || !Projecting(MessageOf(s, w)) then s
      else Projector(if applied || ok then t.(consumed := t.consumed + {MessageOf(s, w).event.id}) else t,
                     s.workers[w := if ok then s.workers[w].(phase := Handled) else AfterFailure(s.workers[w])])
    case Retry(w) =>
      if !In(s, w, Waiting) then s
      else s.(workers := s.workers[w := s.workers[w].(attempt := s.workers[w].attempt + 1,
        phase := Decoded(MessageOf(s, w)))])
    case GiveUp(w) =>
      if !In(s, w, Waiting) then s else s.(workers := s.workers[w := s.workers[w].(phase := Dead)])
    case DeadLetter(w, appended, ok) =>
      if !In(s, w, Dead) then s
      else Projector(if appended || ok then t.(dlq := t.dlq + [s.workers[w].pos]) else t,
                     if ok then s.workers[w := s.workers[w].(phase := Handled)] else s.workers)
    case CommitOffset(w, applied, ok) =>
      if !In(s, w, Handled) then s
      else Projector(if applied || ok then t.(committed := s.workers[w].pos + 1) else t,
                     if ok then s.workers[w := Worker(s.workers[w].pos + 1, 0, Idle)] else s.workers - {w})
    case Stop(w) => s.(workers := s.workers - {w})
  }

  function Run(s: Projector, actions: seq<Action>): Projector {
    if actions == [] then s else Do(Run(s, actions[..|actions| - 1]), actions[|actions| - 1])
  }

  // ---- what every run keeps ----

  /** A message needs no more work: it does not project, or its event is claimed, or it is on the
      dead-letter topic. */
  predicate Settled(t: Shared, k: Offset) {
    && k < |t.log|
    && (k in t.dlq || (t.log[k].Event? && (!IsCatalogChange(t.log[k].event.kind) || t.log[k].event.id in t.claims)))
  }

  predicate SettledBelow(t: Shared, n: Offset) {
    n <= |t.log| && forall k :: 0 <= k < n ==> Settled(t, k)
  }

  predicate PhaseSound(t: Shared, w: Worker) {
    w.pos < |t.log| && 1 <= w.attempt <= MAX_ATTEMPTS &&
    match w.phase
    case Idle => false
    case Checking => CatalogEvent(t.log[w.pos])
    case Applying => Projecting(t.log[w.pos])
    case Marking => Projecting(t.log[w.pos]) && t.log[w.pos].event.id in t.claims
    case Waiting => CatalogEvent(t.log[w.pos]) && w.attempt < MAX_ATTEMPTS
    case Dead => true
    case Handled => Settled(t, w.pos)
  }

  predicate WorkerSound(t: Shared, w: Worker) {
    SettledBelow(t, w.pos) && (w.phase == Idle || PhaseSound(t, w))
  }

  predicate WorkersSound(t: Shared, workers: map<WorkerId, Worker>) {
    forall w :: w in workers ==> WorkerSound(t, workers[w])
  }

  /** Some message on the log is this event and adds this. */
  ghost predicate Backed(log: seq<Raw>, id: EventId, c: Contribution) {
    exists k :: 0 <= k < |log| && Projecting(log[k]) && log[k].event.id == id && ContributionOf(log[k].event) == c
  }

  ghost predicate SharedSound(t: Shared) {
    && Shows(t.rollup, t.claims)
    && t.consumed <= t.claims.Keys
    && (forall id :: id in t.claims ==> Backed(t.log, id, t.claims[id]))
    && SettledBelow(t, t.committed)
    && (forall k :: 0 <= k < |t.dlq| ==> t.dlq[k] < |t.log|)
  }

  ghost predicate Sound(s: Projector) {
    SharedSound(s.shared) && WorkersSound(s.shared, s.workers)
  }

  /** The log, the claims, the consumed set and the dead letters only grow. */
  predicate Grows(t: Shared, t': Shared) {
    && t.log <= t'.log
    && (forall id :: id in t.claims ==> id in t'.claims && t'.claims[id] == t.claims[id])
    && t.dlq <= t'.dlq
    && t.consumed <= t'.consumed
  }

  lemma SettledStays(t: Shared, t': Shared, n: Offset)
    requires Grows(t, t') && SettledBelow(t, n)
    ensures SettledBelow(t', n)
  {
    forall k | 0 <= k < n ensures Settled(t', k) {
      assert Settled(t, k);
    }
  }

  lemma WorkersStay(t: Shared, t': Shared, workers: map<WorkerId, Worker>)
    requires Grows(t, t') && WorkersSound(t, workers)
    ensures WorkersSound(t', workers)
  {
    forall w | w in workers ensures WorkerSound(t', workers[w]) {
      SettledStays(t, t', workers[w].pos);
    }
  }

  lemma BackedStays(log: seq<Raw>, longer: seq<Raw>)
    requires log <= longer
    ensures forall id, c :: Backed(log, id, c) ==> Backed(longer, id, c)
  {
    forall id, c | Backed(log, id, c) ensures Backed(longer, id, c) {
      var k :| 0 <= k < |log| && Projecting(log[k]) && log[k].event.id == id && ContributionOf(log[k].event) == c;
      assert longer[k] == log[k];
    }
  }

  lemma AppendKeeps(t: Shared, raw: Raw)
    requires SharedSound(t)
    ensures var t' := t.(log := t.log + [raw]); SharedSound(t') && Grows(t, t')
  {
    var t' := t.(log := t.log + [raw]);
    BackedStays(t.log, t'.log);
    SettledStays(t, t', t.committed);
  }

  lemma ApplyKeeps(t: Shared, k: Offset)
    requires SharedSound(t) && k < |t.log| && Projecting(t.log[k])
    ensures var t' := ApplyEvent(t, t.log[k].event); SharedSound(t') && Grows(t, t') && t.log[k].event.id in t'.claims
  {
    var e := t.log[k].event;
    if e.id !in t.claims {
      var t' := ApplyEvent(t, e);
      AddKeepsShowing(t.rollup, t.claims, e.id, ContributionOf(e));
      SettledStays(t, t', t.committed);
      assert Backed(t.log, e.id, ContributionOf(e));
    }
  }

  lemma ConsumeKeeps(t: Shared, id: EventId)
    requires SharedSound(t) && id in t.claims
    ensures var t' := t.(consumed := t.consumed + {id}); SharedSound(t') && Grows(t, t')
  {
    SettledStays(t, t.(consumed := t.consumed + {id}), t.committed);
  }

  lemma DeadLetterKeeps(t: Shared, k: Offset)
    requires SharedSound(t) && k < |t.log|
    ensures var t' := t.(dlq := t.dlq + [k]); SharedSound(t') && Grows(t, t') && Settled(t', k)
  {
    var t' := t.(dlq := t.dlq + [k]);
    assert t'.dlq[|t.dlq|] == k;
    SettledStays(t, t', t.committed);
  }

  lemma CommitKeeps(t: Shared, n: Offset)
    requires SharedSound(t) && SettledBelow(t, n)
    ensures var t' := t.(committed := n); SharedSound(t') && Grows(t, t')
  {
    SettledStays(t, t.(committed := n), n);
  }

  /** One worker's step: the shared state after it is sound and grown, and so is the worker. */
  lemma WorkerStepKeeps(s: Projector, w: WorkerId, t': Shared, x: Worker)
    requires Sound(s) && SharedSound(t') && Grows(s.shared, t') && WorkerSound(t', x)
    ensures Sound(Projector(t', s.workers[w := x])) && Sound(Projector(t', s.workers))
            && Sound(Projector(t', s.workers - {w}))
  {
    WorkersStay(s.shared, t', s.workers);
  }

  lemma FetchStepKeeps(s: Projector, w: WorkerId)
    requires Sound(s)
    ensures Sound(Do(s, Fetch(w))) && Sound(Do(s, Retry(w))) && Sound(Do(s, GiveUp(w)))
  {
    if w in s.workers && s.workers[w].pos < |s.shared.log| {
      var x := s.workers[w];
      assert WorkerSound(s.shared, x);
      var phase := Decoded(MessageOf(s, w));
      if x.phase == Idle {
        WorkerStepKeeps(s, w, s.shared, x.(attempt := 1, phase := phase));
      } else if x.phase == Waiting {
        WorkerStepKeeps(s, w, s.shared, x.(attempt := x.attempt + 1, phase := phase));
        WorkerStepKeeps(s, w, s.shared, x.(phase := Dead));
      }
    }
  }

  lemma CheckStepKeeps(s: Projector, w: WorkerId, ok: bool)
    requires Sound(s)
    ensures Sound(Do(s, Check(w, ok)))
  {
    if In(s, w, Checking) {
      assert WorkerSound(s.shared, s.workers[w]);
      WorkerStepKeeps(s, w, s.shared, Checked(s.shared, s.workers[w], MessageOf(s, w).event, ok));
    }
  }

  /** After an application that may or may not have taken effect. */
  lemma AppliedKeeps(s: Projector, w: WorkerId, t': Shared, ok: bool)
    requires Sound(s) && In(s, w, Applying) && SharedSound(t') && Grows(s.shared, t')
    requires Projecting(MessageOf(s, w)) && (ok ==> MessageOf(s, w).event.id in t'.claims)
    ensures Sound(Projector(t', s.workers[w := if ok then s.workers[w].(phase := Marking)
            else AfterFailure(s.workers[w])]))
  {
    var x := s.workers[w];
    assert WorkerSound(s.shared, x);
    SettledStays(s.shared, t', x.pos);
    WorkerStepKeeps(s, w, t', if ok then x.(phase := Marking) else AfterFailure(x));
  }

  lemma ApplyStepKeeps(s: Projector, w: WorkerId, applied: bool, ok: bool)
    requires Sound(s)
    ensures Sound(Do(s, Apply(w, applied, ok)))
  {
    if In(s, w, Applying) && Projecting(MessageOf(s, w)) {
      if applied || ok {
        ApplyKeeps(s.shared, s.workers[w].pos);
        AppliedKeeps(s, w, ApplyEvent(s.shared, MessageOf(s, w).event), ok);
      } else {
        AppliedKeeps(s, w, s.shared, ok);
      }
    }
  }

  lemma MarkStepKeeps(s: Projector, w: WorkerId, applied: bool, ok: bool)
    requires Sound(s)
    ensures Sound(Do(s, MarkConsumed(w, applied, ok)))
  {
    if In(s, w, Marking) {
      var x, id := s.workers[w], MessageOf(s, w).event.id;
      assert WorkerSound(s.shared, x);
      ConsumeKeeps(s.shared, id);
      var t' := if applied || ok then s.shared.(consumed := s.shared.consumed + {id}) else s.shared;
      SettledStays(s.shared, t', x.pos);
      WorkerStepKeeps(s, w, t', if ok then x.(phase := Handled) else AfterFailure(x));
    }
  }

  lemma DeadLetterStepKeeps(s: Projector, w: WorkerId, appended: bool, ok: bool)
    requires Sound(s)
    ensures Sound(Do(s, DeadLetter(w, appended, ok)))
  {
    if In(s, w, Dead) {
      var x := s.workers[w];
      assert WorkerSound(s.shared, x);
      DeadLetterKeeps(s.shared, x.pos);
      var t' := if appended || ok then s.shared.(dlq := s.shared.dlq + [x.pos]) else s.shared;
      SettledStays(s.shared, t', x.pos);
      WorkerStepKeeps(s, w, t', if ok then x.(phase := Handled) else x);
    }
  }

  lemma CommitStepKeeps(s: Projector, w: WorkerId, applied: bool, ok: bool)
    requires Sound(s)
    ensures Sound(Do(s, CommitOffset(w, applied, ok)))
  {
    if In(s, w, Handled) {
      var n := s.workers[w].pos + 1;
      assert WorkerSound(s.shared, s.workers[w]);
      CommitKeeps(s.shared, n);
      var t' := if applied || ok then s.shared.(committed := n) else s.shared;
      SettledStays(s.shared, t', n);
      WorkerStepKeeps(s, w, t', Worker(n, 0, Idle));
    }
  }

  lemma StepKeeps(s: Projector, a: Action)
    requires Sound(s)
    ensures Sound(Do(s, a))
  {
    match a {
      case Append(raw) =>
        AppendKeeps(s.shared, raw);
        WorkersStay(s.shared, s.shared.(log := s.shared.log + [raw]), s.workers);
      case Join(w) => WorkerStepKeeps(s, w, s.shared, Worker(s.shared.committed, 0, Idle));
      case Fetch(w) => FetchStepKeeps(s, w);
      case Check(w, ok) => CheckStepKeeps(s, w, ok);
      case Apply(w, applied, ok) => ApplyStepKeeps(s, w, applied, ok);
      case MarkConsumed(w, applied, ok) => MarkStepKeeps(s, w, applied, ok);
      case Retry(w) => FetchStepKeeps(s, w);
      case GiveUp(w) => FetchStepKeeps(s, w);
      case DeadLetter(w, appended, ok) => DeadLetterStepKeeps(s, w, appended, ok);
      case CommitOffset(w, applied, ok) => CommitStepKeeps(s, w, applied, ok);
      case Stop(w) =>
    }
  }

  lemma {:induction false} RunKeeps(s: Projector, actions: seq<Action>)
    requires Sound(s)
    ensures Sound(Run(s, actions))
  {
    if actions != [] {
      RunKeeps(s, actions[..|actions| - 1]);
      StepKeeps(Run(s, actions[..|actions| - 1]), actions[|actions| - 1]);
    }
  }

  lemma StartIsSound()
    ensures Sound(Start())
  {
    assert forall key :: !Touched(map[], key);
  }

  lemma {:induction false} RunAppend(s: Projector, a: seq<Action>, b: seq<Action>)
    ensures Run(s, a + b) == Run(Run(s, a), b)
  {
    if b == [] {
      assert a + b == a;
    } else {
      assert (a + b)[..|a + b| - 1] == a + b[..|b| - 1];
      RunAppend(s, a, b[..|b| - 1]);
    }
  }

  // ---- the guarantees ----

  /** No event is lost: in every run, each message below the committed offset does not project, or its
      event is claimed, or it is on the dead-letter topic; a value that is no CloudEvent is on the
      dead-letter topic. What is recorded as consumed has been applied. */
  lemma NoEventIsLost(actions: seq<Action>, k: Offset)
    ensures var t := Run(Start(), actions).shared;
            && t.committed <= |t.log| && t.consumed <= t.claims.Keys
            && (k < t.committed && t.log[k].NotCloudEvent? ==> k in t.dlq)
            && (k < t.committed && CatalogEvent(t.log[k]) ==> t.log[k].event.id in t.claims || k in t.dlq)
  {
    StartIsSound();
    RunKeeps(Start(), actions);
    assert k < Run(Start(), actions).shared.committed ==> Settled(Run(Start(), actions).shared, k);
  }

  /** Effects are counted exactly once: in every run, each counter of each report row is the plain sum,
      in any order, over a set of events that are on the log, each counted once. */
  lemma RollupIsTheFold(actions: seq<Action>, order: seq<EventId>, key: RowKey, counter: Counter)
    requires Enumerates(order, Run(Start(), actions).shared.claims.Keys)
    ensures var t := Run(Start(), actions).shared;
            && (forall id :: id in order ==> Backed(t.log, id, t.claims[id]))
            && (if key in t.rollup then t.rollup[key].Get(counter) else 0) == Fold(t.claims, order, key, counter)
  {
    StartIsSound();
    RunKeeps(Start(), actions);
    RowIsFold(Run(Start(), actions).shared, order, key, counter);
  }

  lemma RowIsFold(t: Shared, order: seq<EventId>, key: RowKey, counter: Counter)
    requires Shows(t.rollup, t.claims) && Enumerates(order, t.claims.Keys)
    ensures (if key in t.rollup then t.rollup[key].Get(counter) else 0) == Fold(t.claims, order, key, counter)
  {
    TotalIsFold(t.claims, order, key, counter);
    if key in t.rollup {
      assert Sums(t.rollup[key], t.claims, key);
    } else {
      UntouchedIsZero(t.claims, order, key, counter);
    }
  }

  // ---- calls that fail may have taken effect ----

  /** A failed apply may have claimed the event, a failed record may have stored it, a failed dead-letter write
      may have appended the message and a failed commit may have moved the group's offset; the worker knows
      nothing of it and tries again, gives up, or is gone. */
  lemma FailedCallsMayTakeEffect(s: Projector, w: WorkerId)
    requires w in s.workers && s.workers[w].pos < |s.shared.log| && Projecting(s.shared.log[s.workers[w].pos])
    ensures var id := s.shared.log[s.workers[w].pos].event.id;
            match s.workers[w].phase
            case Applying =>
              var s' := Do(s, Apply(w, true, false));
              id in s'.shared.claims && w in s'.workers && s'.workers[w].phase in {Waiting, Dead}
            case Marking =>
              var s' := Do(s, MarkConsumed(w, true, false));
              id in s'.shared.consumed && w in s'.workers && s'.workers[w].phase in {Waiting, Dead}
            case Dead =>
              var s' := Do(s, DeadLetter(w, true, false));
              s'.shared.dlq == s.shared.dlq + [s.workers[w].pos] && s'.workers == s.workers
            case Handled =>
              var s' := Do(s, CommitOffset(w, true, false));
              s'.shared.committed == s.workers[w].pos + 1 && w !in s'.workers
            case _ => true
  {
  }

  // ---- what reaches the dead-letter topic ----

  /** A message no retry can handle: not a CloudEvent, or a catalogue event with unreadable data. */
  predicate IsPoison(raw: Raw) {
    raw.NotCloudEvent? || (IsCatalogChange(raw.event.kind) && raw.event.payload.Unreadable?)
  }

  /** A step in which no call fails and no worker gives up early. */
  predicate Clean(a: Action) {
    match a
    case Check(_, ok) => ok
    case Apply(_, _, ok) => ok
    case MarkConsumed(_, _, ok) => ok
    case GiveUp(_) => false
    case _ => true
  }

  ghost predicate OnlyPoison(s: Projector) {
    && (forall k :: 0 <= k < |s.shared.dlq| ==>
       s.shared.dlq[k] < |s.shared.log| && IsPoison(s.shared.log[s.shared.dlq[k]]))
    && (forall w :: w in s.workers ==> TurnsPoison(s.shared.log, s.workers[w]))
  }

  predicate TurnsPoison(log: seq<Raw>, w: Worker) {
    w.phase.Dead? || w.phase.Waiting? ==> w.pos < |log| && IsPoison(log[w.pos])
  }

  lemma CleanStepKeeps(s: Projector, a: Action)
    requires OnlyPoison(s) && Clean(a)
    ensures OnlyPoison(Do(s, a))
  {
    if !a.Append? && a.worker in s.workers {
      assert TurnsPoison(s.shared.log, s.workers[a.worker]);
    }
  }

  /** When no call fails, only messages that can never be handled are dead-lettered. */
  lemma {:induction false} CleanRunsDeadLetterPoison(actions: seq<Action>)
    requires forall k :: 0 <= k < |actions| ==> Clean(actions[k])
    ensures OnlyPoison(Run(Start(), actions))
  {
    if actions != [] {
      CleanRunsDeadLetterPoison(actions[..|actions| - 1]);
      CleanStepKeeps(Run(Start(), actions[..|actions| - 1]), actions[|actions| - 1]);
    }
  }
}
