/** One projector worker as the program runs it, with other workers and the topic moving in between. */
module ConsumerLoops {
  import opened Projections
  import opened Consumers

  /** How a call ends. A failed one may have taken effect; a failed dead-letter write may be due to a
      topic that is not ready yet. */
  datatype Outcome = Succeeds | Fails(applied: bool, notReady: bool)

  /** The surroundings of one call: what happens elsewhere before it, and how it ends. */
  datatype Tick = Tick(others: seq<Action>, outcome: Outcome, cancelled: bool)

  datatype HandleResult = Done | Failed | NotAnEvent

  /** Why a worker stops: its context was cancelled, the reader failed, or a message could be neither
      finished nor given up. */
  datatype RunEnd = ContextEnded | FetchFailed | MessageFailed

  const DLQ_ATTEMPTS := 40

  predicate NotBy(actions: seq<Action>, w: WorkerId) {
    forall k :: 0 <= k < |actions| && !actions[k].Append? ==> actions[k].worker != w
  }

  lemma StepGrows(s: Projector, a: Action)
    ensures Grows(s.shared, Do(s, a).shared)
  {
  }

  lemma {:induction false} OthersLeaveTheWorker(s: Projector, others: seq<Action>, w: WorkerId)
    requires NotBy(others, w)
    ensures var s' := Run(s, others);
            && Grows(s.shared, s'.shared)
            && (w in s'.workers <==> w in s.workers) && (w in s.workers ==> s'.workers[w] == s.workers[w])
  {
    if others != [] {
      OthersLeaveTheWorker(s, others[..|others| - 1], w);
      StepGrows(Run(s, others[..|others| - 1]), others[|others| - 1]);
    }
  }

  /** A dead-letter write that is worth repeating: it failed only because the topic is not ready yet. */
  predicate TopicNotReady(tick: Tick) {
    tick.outcome.Fails? && tick.outcome.notReady && !tick.cancelled
  }

  class AnalyticsConsumer {
    const me: WorkerId
    const env: nat -> Tick
    /** The call by which the surrounding context has been cancelled, at the latest. */
    ghost const ends: nat
    var now: nat
    var world: Projector
    ghost var start: Projector
    /** Everything that has happened since `start`. */
    ghost var trace: seq<Action>

    constructor (me: WorkerId, env: nat -> Tick, ghost ends: nat, world: Projector)
      requires Sound(world) && forall k :: NotBy(env(k).others, me)
      requires forall k: nat :: k >= ends ==> env(k).cancelled
      ensures Valid() && ContextEnds()
      ensures this.me == me && this.env == env && this.world == world && start == world
    {
      this.me, this.env, this.ends, this.world, now, start, trace := me, env, ends, world, 0, world, [];
    }

    /** The context is cancelled at some time, and stays so. */
    ghost predicate ContextEnds() {
      forall k: nat :: k >= ends ==> env(k).cancelled
    }

    ghost predicate LastCallFailed()
      reads this`now
    {
      now > 0 && env(now - 1).outcome.Fails?
    }

    ghost predicate LastCallCancelled()
      reads this`now
    {
      now > 0 && env(now - 1).cancelled
    }

    ghost predicate Valid()
      reads this
    {
      && Sound(world) && world == Consumers.Run(start, trace)
      && forall k :: NotBy(env(k).others, me)
    }

    /** At a message, in a phase of handling it, on some attempt. */
    ghost predicate At(pos: Offset, raw: Raw, attempt: nat, phase: Phase)
      reads this
    {
      && Valid() && pos < |world.shared.log| && world.shared.log[pos] == raw
      && me in world.workers && world.workers[me] == Worker(pos, attempt, phase)
    }

    /** Since `before`, this worker has recorded nothing as consumed. */
    ghost predicate Unmarked(before: seq<Action>, t: seq<Action>) {
      forall k :: |before| <= k < |t| && t[k].MarkConsumed? ==> t[k].worker != me
    }

    /** Since `before`, this worker has recorded nothing as consumed, and it has just applied an event. */
    ghost predicate JustApplied(before: seq<Action>, t: seq<Action>) {
      && before <= t && |before| < |t| && Unmarked(before, t) && t[|t| - 1] == Apply(me, false, true)
    }

    /** Since `before`, whatever this worker recorded as consumed it had applied first, successfully. */
    ghost predicate AppliedFirst(before: seq<Action>, t: seq<Action>) {
      forall k :: |before| <= k < |t| && t[k].MarkConsumed? && t[k].worker == me ==> AppliedBy(before, t, k)
    }

    ghost predicate AppliedBy(before: seq<Action>, t: seq<Action>, k: int) {
      exists j :: |before| <= j < k && j < |t| && t[j] == Apply(me, false, true)
    }

    method Step(a: Action)
      requires Valid()
      modifies this`world, this`trace
      ensures old(trace) <= trace
      ensures Valid() && world == Do(old(world), a) && trace == old(trace) + [a]
    {
      StepKeeps(world, a);
      RunAppend(start, trace, [a]);
      assert [a][..0] == [];
      assert Consumers.Run(world, [a][..0]) == world;
      world := Do(world, a);
      trace := trace + [a];
    }

    /** Lets the others act, and says how this worker's next call will end. */
    method Wait() returns (outcome: Outcome, cancelled: bool)
      requires Valid()
      modifies this`world, this`trace, this`now
      ensures old(trace) <= trace
      ensures Valid() && Grows(old(world).shared, world.shared)
      ensures (me in world.workers <==> me in old(world).workers)
      ensures me in world.workers ==> world.workers[me] == old(world).workers[me]
      ensures now == old(now) + 1 && outcome == env(old(now)).outcome && cancelled == env(old(now)).cancelled
      ensures Unmarked(old(trace), trace)
    {
      var tick := env(now);
      now := now + 1;
      RunKeeps(world, tick.others);
      RunAppend(start, trace, tick.others);
      OthersLeaveTheWorker(world, tick.others, me);
      world := Consumers.Run(world, tick.others);
      trace := trace + tick.others;
      return tick.outcome, tick.cancelled;
    }

    method WaitAt(ghost pos: Offset, raw: Raw, ghost attempt: nat, ghost phase: Phase) returns (outcome: Outcome,
            cancelled: bool)
      requires At(pos, raw, attempt, phase)
      modifies this`world, this`trace, this`now
      ensures old(trace) <= trace
      ensures At(pos, raw, attempt, phase)
      ensures now == old(now) + 1 && outcome == env(old(now)).outcome && cancelled == env(old(now)).cancelled
      ensures Unmarked(old(trace), trace)
    {
      outcome, cancelled := Wait();
    }

    method CallIsProcessed(ghost pos: Offset, raw: Raw, ghost attempt: nat) returns (ok: bool, already: bool)
      requires At(pos, raw, attempt, Checking) && CatalogEvent(raw)
      modifies this`world, this`trace, this`now
      ensures old(trace) <= trace && now >= old(now)
      ensures ok && already ==> At(pos, raw, attempt, Handled)
      ensures ok && !already && Projecting(raw) ==> At(pos, raw, attempt, Applying)
      ensures !ok || (!already && !Projecting(raw)) ==> At(pos, raw, attempt, FailedPhase(attempt))
      ensures Unmarked(old(trace), trace)
      ensures now == old(now) + 1 && (ok <==> !LastCallFailed())
    {
      var outcome, cancelled := WaitAt(pos, raw, attempt, Checking);
      ok, already := outcome.Succeeds?, raw.event.id in world.shared.consumed;
      Step(Check(me, ok));
    }

    method CallApply(ghost pos: Offset, raw: Raw, ghost attempt: nat) returns (ok: bool)
      requires At(pos, raw, attempt, Applying) && Projecting(raw)
      modifies this`world, this`trace, this`now
      ensures old(trace) <= trace && now >= old(now)
      ensures At(pos, raw, attempt, if ok then Marking else FailedPhase(attempt))
      ensures if ok then JustApplied(old(trace), trace) else AppliedFirst(old(trace), trace)
      ensures now == old(now) + 1 && (ok <==> !LastCallFailed())
    {
      var outcome, cancelled := WaitAt(pos, raw, attempt, Applying);
      ok := outcome.Succeeds?;
      Step(Apply(me, !ok && outcome.applied, ok));
      UnmarkedIsApplied(old(trace), trace);
    }

    lemma MarkingEnds(s: Projector, pos: Offset, attempt: nat, a: Action)
      requires pos < |s.shared.log| && Projecting(s.shared.log[pos]) && a.MarkConsumed? && a.worker == me
      requires me in s.workers && s.workers[me] == Worker(pos, attempt, Marking)
      ensures var s' := Do(s, a);
              && s'.shared.log == s.shared.log && me in s'.workers
              && s'.workers[me] == Worker(pos, attempt, if a.ok then Handled else FailedPhase(attempt))
    {
    }

    /** Records the event as consumed, after it has been applied since `before`. */
    method CallMarkProcessed(ghost pos: Offset, raw: Raw, ghost attempt: nat, ghost before: seq<Action>)
      returns (ok: bool)
      requires At(pos, raw, attempt, Marking) && Projecting(raw) && JustApplied(before, trace)
      modifies this`world, this`trace, this`now
      ensures old(trace) <= trace && now >= old(now)
      ensures At(pos, raw, attempt, if ok then Handled else FailedPhase(attempt))
      ensures before <= trace && AppliedFirst(before, trace)
      ensures now == old(now) + 1 && (ok <==> !LastCallFailed())
    {
      var outcome, cancelled := WaitAt(pos, raw, attempt, Marking);
      ok := outcome.Succeeds?;
      var a := MarkConsumed(me, !ok && outcome.applied, ok);
      MarkingEnds(world, pos, attempt, a);
      MarkedLast(before, old(trace), trace, a);
      Step(a);
    }

    lemma UnmarkedIsApplied(before: seq<Action>, t: seq<Action>)
      requires Unmarked(before, t)
      ensures AppliedFirst(before, t)
    {
    }

    lemma UnmarkedThenApplied(before: seq<Action>, mid: seq<Action>, t: seq<Action>)
      requires before <= mid <= t && Unmarked(before, mid) && AppliedFirst(mid, t)
      ensures AppliedFirst(before, t)
    {
      assert forall k :: 0 <= k < |mid| ==> mid[k] == t[k];
      forall k | |before| <= k < |t| && t[k].MarkConsumed? && t[k].worker == me ensures AppliedBy(before, t, k) {
        assert AppliedBy(mid, t, k);
      }
    }

    lemma MarkedLast(before: seq<Action>, applied: seq<Action>, t: seq<Action>, a: Action)
      requires JustApplied(before, applied) && applied <= t && Unmarked(applied, t)
      ensures before <= t + [a] && AppliedFirst(before, t + [a])
    {
      var done := t + [a];
      assert done[|applied| - 1] == Apply(me, false, true);
      assert forall k :: 0 <= k < |applied| ==> applied[k] == done[k];
      assert AppliedBy(before, done, |done| - 1);
    }

    /** Applies the event and only then records it as consumed. */
    method ApplyThenMark(ghost pos: Offset, raw: Raw, ghost attempt: nat) returns (ok: bool)
      requires At(pos, raw, attempt, Applying) && Projecting(raw)
      modifies this`world, this`trace, this`now
      ensures old(trace) <= trace && now >= old(now) && AppliedFirst(old(trace), trace)
      ensures At(pos, raw, attempt, if ok then Handled else FailedPhase(attempt))
      ensures !ok ==> LastCallFailed()
      ensures now <= old(now) + 2
    {
      ghost var before := trace;
      ok := CallApply(pos, raw, attempt);
      if ok {
        ok := CallMarkProcessed(pos, raw, attempt, before);
      }
    }

    /** One attempt: decode, skip what does not project or is consumed already, apply, and only then
        record it as consumed. */
    method HandleMessage(ghost pos: Offset, raw: Raw, ghost attempt: nat) returns (r: HandleResult)
      requires At(pos, raw, attempt, Decoded(raw))
      modifies this`world, this`trace, this`now
      ensures old(trace) <= trace && now >= old(now)
      ensures At(pos, raw, attempt, ResultPhase(r, attempt))
      ensures r == NotAnEvent <==> raw.NotCloudEvent?
      ensures AppliedFirst(old(trace), trace)
      ensures r == Failed ==> LastCallFailed() || !Projecting(raw)
      ensures now <= old(now) + 3
    {
      ghost var before := trace;
      if raw.NotCloudEvent? {
        return NotAnEvent;
      }
      if !IsCatalogChange(raw.event.kind) {
        return Done;
      }
      var ok, alreadyProcessed := CallIsProcessed(pos, raw, attempt);
      UnmarkedIsApplied(before, trace);
      if !ok {
        return Failed;
      }
      if alreadyProcessed {
        return Done;
      }
      if raw.event.payload.Unreadable? {
        return Failed;
      }
      ghost var checked := trace;
      ok := ApplyThenMark(pos, raw, attempt);
      UnmarkedThenApplied(before, checked, trace);
      return if ok then Done else Failed;
    }

    /** Begins another attempt, or stops trying when the surrounding context is cancelled. */
    method TryAgain(ghost pos: Offset, raw: Raw, ghost attempt: nat) returns (again: bool)
      requires At(pos, raw, attempt, Waiting)
      modifies this`world, this`trace, this`now
      ensures old(trace) <= trace && now >= old(now)
      ensures if again then At(pos, raw, attempt + 1, Decoded(raw)) else At(pos, raw, attempt, Dead)
      ensures again <==> !LastCallCancelled()
      ensures now == old(now) + 1
    {
      var outcome, cancelled := WaitAt(pos, raw, attempt, Waiting);
      if cancelled {
        Step(GiveUp(me));
      } else {
        Step(Retry(me));
      }
      again := !cancelled;
    }

    /** Why a message is given up, after the call before `at`: it is no CloudEvent, or the context was cancelled
        between attempts, or three attempts were made and the last one failed, by a call or because the event
        cannot be read. */
    ghost predicate GivesUp(raw: Raw, attempt: nat, at: nat) {
      || raw.NotCloudEvent?
      || (at > 0 && env(at - 1).cancelled)
      || (attempt == 3 && ((at > 0 && env(at - 1).outcome.Fails?) || !Projecting(raw)))
    }

    /** Up to three attempts, fewer when the surrounding context is cancelled; a value that is no
        CloudEvent is not retried. */
    method HandleWithRetry(ghost pos: Offset, raw: Raw) returns (handled: bool, ghost attempt: nat)
      requires At(pos, raw, 1, Decoded(raw))
      modifies this`world, this`trace, this`now
      ensures old(trace) <= trace && now >= old(now)
      ensures attempt <= 3 && At(pos, raw, attempt, if handled then Handled else Dead)
      ensures raw.NotCloudEvent? ==> attempt == 1
      ensures !handled ==> GivesUp(raw, attempt, now)
      ensures now <= old(now) + 11
    {
      attempt := 1;
      var tries := 1;
      var r := HandleMessage(pos, raw, 1);
      while r == Failed && tries < MAX_ATTEMPTS
        invariant 1 <= tries <= MAX_ATTEMPTS && attempt == tries && At(pos, raw, attempt, ResultPhase(r, attempt))
        invariant raw.NotCloudEvent? ==> attempt == 1
        invariant (r == NotAnEvent <==> raw.NotCloudEvent?) && (r == Failed ==> LastCallFailed() || !Projecting(raw))
        invariant old(trace) <= trace && old(now) <= now <= old(now) + 4 * (tries - 1) + 3
      {
        var again := TryAgain(pos, raw, attempt);
        if !again {
          return false, attempt;
        }
        tries, attempt := tries + 1, attempt + 1;
        r := HandleMessage(pos, raw, attempt);
      }
      handled := r == Done;
    }

    /** Every write in this span of calls failed only because the topic was not ready. */
    ghost predicate NotReadyDuring(from: nat, to: int) {
      forall t: nat {:trigger TopicNotReady(env(t))} :: from <= t < to ==> TopicNotReady(env(t))
    }

    lemma NotReadyOneMore(from: nat, to: nat)
      requires NotReadyDuring(from, to) && TopicNotReady(env(to))
      ensures NotReadyDuring(from, to + 1)
    {
    }

    /** Writes the message to the dead-letter topic, again while that topic is still being created. */
    method DlqPublish(ghost pos: Offset, raw: Raw, ghost attempt: nat) returns (ok: bool)
      requires At(pos, raw, attempt, Dead)
      modifies this`world, this`trace, this`now
      ensures old(trace) <= trace
      ensures At(pos, raw, attempt, if ok then Handled else Dead)
      ensures ok ==> pos in world.shared.dlq
      ensures 1 <= now - old(now) <= 40
      ensures NotReadyDuring(old(now), now - 1)
      ensures if ok then env(now - 1).outcome.Succeeds? else LastCallFailed()
      ensures !ok ==> !TopicNotReady(env(now - 1)) || now - old(now) == 40
    {
      ghost var from := now;
      for tries := 0 to DLQ_ATTEMPTS
        invariant At(pos, raw, attempt, Dead) && now == from + tries && old(trace) <= trace
        invariant NotReadyDuring(from, now)
      {
        var again;
        ok, again := WriteDlq(pos, raw, attempt);
        if !again {
          return ok;
        }
        NotReadyOneMore(from, now - 1);
      }
      assert TopicNotReady(env(now - 1));
      return false;
    }

    /** One write to the dead-letter topic; `again` says that only the topic was not ready. */
    method WriteDlq(ghost pos: Offset, raw: Raw, ghost attempt: nat) returns (ok: bool, again: bool)
      requires At(pos, raw, attempt, Dead)
      modifies this`world, this`trace, this`now
      ensures old(trace) <= trace && now == old(now) + 1
      ensures At(pos, raw, attempt, if ok then Handled else Dead)
      ensures ok ==> pos in world.shared.dlq
      ensures (ok <==> env(old(now)).outcome.Succeeds?) && (again <==> TopicNotReady(env(old(now))))
      ensures again <==>
        env(old(now)).outcome.Fails? && env(old(now)).outcome.notReady && !env(old(now)).cancelled
    {
      var outcome, cancelled := WaitAt(pos, raw, attempt, Dead);
      ok := outcome.Succeeds?;
      again := !ok && outcome.notReady && !cancelled;
      Step(DeadLetter(me, !ok && outcome.applied, ok));
      assert ok ==> world.shared.dlq[|world.shared.dlq| - 1] == pos;
    }

    /** Acknowledges the message: the group will not be given it again. */
    method CallCommit(ghost pos: Offset, raw: Raw, ghost attempt: nat) returns (ok: bool)
      requires At(pos, raw, attempt, Handled)
      modifies this`world, this`trace, this`now
      ensures old(trace) <= trace
      ensures Valid() && SettledBelow(world.shared, pos)
      ensures ok ==> Resting(pos + 1) && world.shared.committed == pos + 1
      ensures now == old(now) + 1 && (!ok ==> LastCallFailed())
    {
      var outcome, cancelled := WaitAt(pos, raw, attempt, Handled);
      ok := outcome.Succeeds?;
      assert WorkerSound(world.shared, world.workers[me]);
      Step(CommitOffset(me, !ok && outcome.applied, ok));
    }

    /** Between messages, everything below `pos` being settled. */
    ghost predicate Resting(pos: Offset)
      reads this
    {
      Valid() && me in world.workers && world.workers[me] == Worker(pos, 0, Idle) && SettledBelow(world.shared, pos)
    }

    /** Handles one fetched message and commits past it. It fails, leaving the message to be read again,
        only when the dead-letter write or the commit fails. */
    method HandleFetched(ghost pos: Offset, raw: Raw)
      returns (ok: bool, handled: bool, published: bool, ghost attempt: nat, ghost at: nat)
      requires At(pos, raw, 1, Decoded(raw))
      modifies this`world, this`trace, this`now
      ensures old(trace) <= trace && now > old(now)
      ensures !ok ==> LastCallFailed()
      ensures Valid() && SettledBelow(world.shared, pos)
      ensures ok ==> Resting(pos + 1) && (handled || published)
      ensures handled ==> !published
      ensures !handled ==> old(now) <= at < now && GivesUp(raw, attempt, at)
      ensures !handled && !published ==> !ok && At(pos, raw, attempt, Dead)
      ensures now <= old(now) + 52
    {
      published := false;
      handled, attempt := HandleWithRetry(pos, raw);
      at := now;
      if !handled {
        published := DlqPublish(pos, raw, attempt);
        if !published {
          assert WorkerSound(world.shared, world.workers[me]);
          return false, false, false, attempt, at;
        }
      }
      ok := CallCommit(pos, raw, attempt);
    }

    /** Asks for the next message once; `over` says that none will come. */
    method Poll(pos: Offset) returns (fetched: bool, raw: Raw, over: bool)
      requires Resting(pos) && ContextEnds()
      modifies this`world, this`trace, this`now
      ensures old(trace) <= trace && now == old(now) + 1
      ensures if fetched then At(pos, raw, 1, Decoded(raw)) else Resting(pos)
      ensures !over ==> old(now) < ends
      ensures over ==> !fetched && (LastCallCancelled() || LastCallFailed())
      ensures !over ==> (fetched <==> pos < |world.shared.log|)
      ensures |old(world).shared.log| <= |world.shared.log|
    {
      var outcome, cancelled := Wait();
      assert WorkerSound(world.shared, world.workers[me]);
      over := cancelled || outcome.Fails?;
      fetched, raw := !over && pos < |world.shared.log|, NotCloudEvent;
      if fetched {
        raw := world.shared.log[pos];
        Step(Fetch(me));
      }
    }

    /** Waits for the next message until there is one, the context is cancelled or the reader fails. */
    method FetchMessage(pos: Offset) returns (fetched: bool, raw: Raw)
      requires Resting(pos) && ContextEnds()
      modifies this`world, this`trace, this`now
      ensures old(trace) <= trace && now > old(now)
      ensures if fetched then At(pos, raw, 1, Decoded(raw)) else Resting(pos)
      ensures fetched ==> old(now) < ends
      ensures !fetched ==> LastCallCancelled() || LastCallFailed()
      ensures pos < |old(world).shared.log| ==> now == old(now) + 1
    {
      var over;
      fetched, raw, over := Poll(pos);
      while !fetched && !over
        invariant if fetched then At(pos, raw, 1, Decoded(raw)) else Resting(pos)
        invariant now > old(now) && old(trace) <= trace
        invariant over ==> !fetched && (LastCallCancelled() || LastCallFailed())
        invariant fetched ==> old(now) < ends
        invariant pos < |old(world).shared.log| ==> now == old(now) + 1 && (fetched || over)
        decreases if now < ends then ends - now else 0, !over
      {
        fetched, raw, over := Poll(pos);
      }
    }

    /** How the last call before the end went. */
    ghost predicate EndedBy(end: RunEnd)
      reads this`now
    {
      match end
      case ContextEnded => LastCallCancelled()
      case FetchFailed => LastCallFailed()
      case MessageFailed => LastCallFailed()
    }

    /** Everything below `pos` is settled, and the worker goes no further. */
    ghost predicate Stopped(pos: Offset, end: RunEnd)
      reads this
    {
      Valid() && SettledBelow(world.shared, pos) && EndedBy(end)
    }

    /** Fetches one message and handles it; unless it can be passed over, the worker stops. */
    method HandleNext(pos: Offset) returns (ok: bool, end: RunEnd)
      requires Resting(pos) && ContextEnds()
      modifies this`world, this`trace, this`now
      ensures old(trace) <= trace && now > old(now)
      ensures if ok then Resting(pos + 1) && old(now) < ends else Stopped(pos, end)
      ensures pos < |old(world).shared.log| ==> now <= old(now) + 53
    {
      var fetched, raw := FetchMessage(pos);
      end := MessageFailed;
      if !fetched {
        return false, if env(now - 1).cancelled then ContextEnded else FetchFailed;
      }
      var handled, published;
      ghost var attempt, at;
      ok, handled, published, attempt, at := HandleFetched(pos, raw);
    }

    /** At step k this worker joined, when the group's committed offset was `first`. */
    ghost predicate JoinedFrom(first: Offset, t: seq<Action>, k: int)
      reads this`start
    {
      0 <= k < |t| && t[k] == Join(me) && Consumers.Run(start, t[..k]).shared.committed == first
    }

    ghost predicate JoinedAt(first: Offset, before: seq<Action>, t: seq<Action>)
      reads this`start
    {
      exists k :: |before| <= k && JoinedFrom(first, t, k)
    }

    /** Joins the group at its committed offset. */
    method JoinGroup() returns (first: Offset)
      requires Valid() && me !in world.workers
      modifies this`world, this`trace, this`now
      ensures old(trace) <= trace && now > old(now)
      ensures Resting(first) && JoinedAt(first, old(trace), trace)
      ensures now == old(now) + 1
    {
      var outcome, cancelled := Wait();
      first := world.shared.committed;
      Step(Join(me));
      assert trace[..|trace| - 1] + [Join(me)] == trace;
      assert JoinedFrom(first, trace, |trace| - 1);
    }

    lemma JoinedStays(first: Offset, before: seq<Action>, t: seq<Action>, later: seq<Action>)
      requires JoinedAt(first, before, t) && t <= later
      ensures JoinedAt(first, before, later)
    {
      var k :| |before| <= k && JoinedFrom(first, t, k);
      assert later[..k] == t[..k];
      assert JoinedFrom(first, later, k);
    }

    lemma {:induction false} LogGrows(s: Projector, a: seq<Action>, b: seq<Action>)
      requires a <= b
      ensures |Consumers.Run(s, a).shared.log| <= |Consumers.Run(s, b).shared.log|
      decreases |b|
    {
      if |a| < |b| {
        LogGrows(s, a, b[..|b| - 1]);
        StepGrows(Consumers.Run(s, b[..|b| - 1]), b[|b| - 1]);
      } else {
        assert a == b;
      }
    }

    /** Handles the messages from `first` on, one after another, until one cannot be finished or there will
        be no more. */
    method HandleAll(first: Offset) returns (passed: nat, end: RunEnd)
      requires Resting(first) && ContextEnds()
      modifies this`world, this`trace, this`now
      ensures old(trace) <= trace && now > old(now)
      ensures Stopped(first + passed, end)
      ensures first + passed < |old(world).shared.log| ==> now <= old(now) + 53 * (passed + 1)
    {
      passed, end := 0, ContextEnded;
      var ok := true;
      while ok
        invariant old(trace) <= trace && (ok ==> now >= old(now)) && (!ok ==> now > old(now))
        invariant if ok then Resting(first + passed) else Stopped(first + passed, end)
        invariant first + passed < |old(world).shared.log| ==>
                    now <= old(now) + 53 * (if ok then passed else passed + 1)
        invariant ok && first + passed == |old(world).shared.log| ==> now <= old(now) + 53 * passed
        decreases if now < ends then ends - now else 0, ok
      {
        LogGrows(start, old(trace), trace);
        ok, end := HandleNext(first + passed);
        if ok {
          passed := passed + 1;
        }
      }
    }

    /** Joins the group at its committed offset and handles message after message until its context is
        cancelled or a call it cannot do without fails. Everything it passed over is settled, and as long as
        there were messages waiting from the start it spends at most 53 calls on each. */
    method Run() returns (first: Offset, passed: nat, end: RunEnd)
      requires Valid() && ContextEnds() && me !in world.workers
      modifies this`world, this`trace, this`now
      ensures old(trace) <= trace && now > old(now)
      ensures Valid() && me !in world.workers
      ensures SettledBelow(world.shared, first + passed) && EndedBy(end)
      ensures JoinedAt(first, old(trace), trace)
      ensures first + passed < |old(world).shared.log| ==> now <= old(now) + 53 * (passed + 1) + 1
    {
      first := JoinGroup();
      ghost var joined := trace;
      LogGrows(start, old(trace), joined);
      passed, end := HandleAll(first);
      Leave(first + passed);
      JoinedStays(first, old(trace), joined, trace);
    }

    method Leave(ghost pos: Offset)
      requires Valid() && SettledBelow(world.shared, pos)
      modifies this`world, this`trace
      ensures old(trace) <= trace
      ensures Valid() && me !in world.workers && SettledBelow(world.shared, pos)
    {
      Step(Stop(me));
    }
  }

  /** Where a failed attempt leaves a worker. */
  function FailedPhase(attempt: nat): Phase {
    if attempt < MAX_ATTEMPTS then Waiting else Dead
  }

  function ResultPhase(r: HandleResult, attempt: nat): Phase {
    match r
    case Done => Handled
    case Failed => FailedPhase(attempt)
    case NotAnEvent => Dead
  }
}
