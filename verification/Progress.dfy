/** That the pipeline can always go on: from every reachable state, whatever passes are open, steps that do not
    fail publish, read and settle everything, and give up nothing but poison. */
module Progress {
  import opened Projections
  import R = OutboxRelays
  import C = Consumers
  import P = Pipelines
  import L = Layout
  import K = Catalogues
  import G = GrowthReports

  // ---- one worker handling one message ----

  /** What failure-free steps of a worker leave alone: the log and, until it commits, the offset; and whatever
      they dead-letter is poison. */
  ghost predicate Steady(s: C.Projector, s': C.Projector) {
    && s'.shared.log == s.shared.log && s'.shared.committed == s.shared.committed
    && OnlyPoisonAdded(s.shared, s'.shared)
  }

  /** Between `t` and `t'` nothing was taken back, and what was dead-lettered is poison. */
  ghost predicate OnlyPoisonAdded(t: C.Shared, t': C.Shared) {
    && t.log <= t'.log && t.claims.Keys <= t'.claims.Keys && t.dlq <= t'.dlq
    && forall j :: |t.dlq| <= j < |t'.dlq| ==> P.DeadIsPoison(t', t'.dlq[j])
  }

  ghost predicate OnlyPoison(t: C.Shared) {
    forall j :: 0 <= j < |t.dlq| ==> P.DeadIsPoison(t, t.dlq[j])
  }

  predicate At(s: C.Projector, w: C.WorkerId, pos: C.Offset, attempt: nat, phase: C.Phase) {
    pos < |s.shared.log| && w in s.workers && s.workers[w] == C.Worker(pos, attempt, phase)
  }

  lemma Fetches(s: C.Projector, w: C.WorkerId, pos: C.Offset)
    requires At(s, w, pos, 0, C.Idle)
    ensures var s' := C.Do(s, C.Fetch(w)); Steady(s, s') && At(s', w, pos, 1, C.Decoded(s.shared.log[pos]))
  {
  }

  lemma Checks(s: C.Projector, w: C.WorkerId, pos: C.Offset, attempt: nat)
    requires At(s, w, pos, attempt, C.Checking) && C.CatalogEvent(s.shared.log[pos])
    ensures var s' := C.Do(s, C.Check(w, true));
            && Steady(s, s') && s'.shared == s.shared
            && s'.workers[w] == C.Checked(s.shared, s.workers[w], s.shared.log[pos].event, true) && w in s'.workers
  {
  }

  lemma Applies(s: C.Projector, w: C.WorkerId, pos: C.Offset, attempt: nat)
    requires At(s, w, pos, attempt, C.Applying) && C.Projecting(s.shared.log[pos])
    ensures var s' := C.Do(s, C.Apply(w, true, true)); Steady(s, s') && At(s', w, pos, attempt, C.Marking)
  {
  }

  lemma Marks(s: C.Projector, w: C.WorkerId, pos: C.Offset, attempt: nat)
    requires At(s, w, pos, attempt, C.Marking) && C.Projecting(s.shared.log[pos])
    ensures var s' := C.Do(s, C.MarkConsumed(w, true, true)); Steady(s, s') && At(s', w, pos, attempt, C.Handled)
  {
  }

  lemma Retries(s: C.Projector, w: C.WorkerId, pos: C.Offset, attempt: nat)
    requires At(s, w, pos, attempt, C.Waiting)
    ensures var s' := C.Do(s, C.Retry(w));
            Steady(s, s') && s'.shared == s.shared && At(s', w, pos, attempt + 1, C.Decoded(s.shared.log[pos]))
  {
  }

  lemma DeadLetters(s: C.Projector, w: C.WorkerId, pos: C.Offset, attempt: nat)
    requires At(s, w, pos, attempt, C.Dead) && C.IsPoison(s.shared.log[pos])
    ensures var s' := C.Do(s, C.DeadLetter(w, true, true)); Steady(s, s') && At(s', w, pos, attempt, C.Handled)
  {
  }

  lemma Commits(s: C.Projector, w: C.WorkerId, pos: C.Offset, attempt: nat)
    requires At(s, w, pos, attempt, C.Handled)
    ensures var s' := C.Do(s, C.CommitOffset(w, true, true));
            && s'.shared == s.shared.(committed := pos + 1)
            && w in s'.workers && s'.workers[w] == C.Worker(pos + 1, 0, C.Idle)
  {
  }

  lemma Push(s: C.Projector, actions: seq<C.Action>, a: C.Action)
    ensures C.Run(s, actions + [a]) == C.Do(C.Run(s, actions), a)
  {
    assert (actions + [a])[..|actions|] == actions;
  }

  ghost predicate NoAppends(actions: seq<C.Action>) {
    forall k :: 0 <= k < |actions| ==> !actions[k].Append?
  }

  lemma SteadyThen(s: C.Projector, s': C.Projector, s'': C.Projector)
    requires Steady(s, s') && Steady(s', s'')
    ensures Steady(s, s'')
  {
  }

  /** A readable catalogue event, not consumed yet, is applied and recorded. */
  lemma HandlesReadable(s: C.Projector, w: C.WorkerId, pos: C.Offset) returns (actions: seq<C.Action>)
    requires At(s, w, pos, 1, C.Applying) && C.Projecting(s.shared.log[pos])
    ensures NoAppends(actions) && Steady(s, C.Run(s, actions)) && At(C.Run(s, actions), w, pos, 1, C.Handled)
  {
    var s1 := C.Do(s, C.Apply(w, true, true));
    var s2 := C.Do(s1, C.MarkConsumed(w, true, true));
    Applies(s, w, pos, 1);
    Marks(s1, w, pos, 1);
    SteadyThen(s, s1, s2);
    assert C.Run(s, []) == s;
    Push(s, [], C.Apply(w, true, true));
    assert [] + [C.Apply(w, true, true)] == [C.Apply(w, true, true)];
    Push(s, [C.Apply(w, true, true)], C.MarkConsumed(w, true, true));
    actions := [C.Apply(w, true, true)] + [C.MarkConsumed(w, true, true)];
  }

  /** Poison that is retried: attempts go on until the last, and then the message is dead-lettered. */
  lemma {:induction false} HandlesUnreadable(s: C.Projector, w: C.WorkerId, pos: C.Offset, attempt: nat)
      returns (actions: seq<C.Action>)
    requires At(s, w, pos, attempt, C.Checking) && 1 <= attempt <= C.MAX_ATTEMPTS
    requires C.CatalogEvent(s.shared.log[pos]) && C.IsPoison(s.shared.log[pos])
            && s.shared.log[pos].event.id !in s.shared.consumed
    ensures NoAppends(actions) && Steady(s, C.Run(s, actions))
    ensures exists last :: At(C.Run(s, actions), w, pos, last, C.Handled)
    decreases C.MAX_ATTEMPTS - attempt
  {
    var s1 := C.Do(s, C.Check(w, true));
    Checks(s, w, pos, attempt);
    assert C.Run(s, []) == s;
    Push(s, [], C.Check(w, true));
    assert [] + [C.Check(w, true)] == [C.Check(w, true)];
    if attempt == C.MAX_ATTEMPTS {
      DeadLetters(s1, w, pos, attempt);
      SteadyThen(s, s1, C.Do(s1, C.DeadLetter(w, true, true)));
      Push(s, [C.Check(w, true)], C.DeadLetter(w, true, true));
      actions := [C.Check(w, true)] + [C.DeadLetter(w, true, true)];
    } else {
      var s2 := C.Do(s1, C.Retry(w));
      Retries(s1, w, pos, attempt);
      Push(s, [C.Check(w, true)], C.Retry(w));
      var rest := HandlesUnreadable(s2, w, pos, attempt + 1);
      SteadyThen(s, s1, s2);
      SteadyThen(s, s2, C.Run(s2, rest));
      var start := [C.Check(w, true)] + [C.Retry(w)];
      C.RunAppend(s, start, rest);
      actions := start + rest;
    }
  }

  /** From its decoded message a worker gets to the point of committing past it. */
  lemma HandlesDecoded(s: C.Projector, w: C.WorkerId, pos: C.Offset) returns (actions: seq<C.Action>)
    requires pos < |s.shared.log| && At(s, w, pos, 1, C.Decoded(s.shared.log[pos]))
    ensures NoAppends(actions) && Steady(s, C.Run(s, actions))
    ensures exists last :: At(C.Run(s, actions), w, pos, last, C.Handled)
  {
    var raw := s.shared.log[pos];
    actions := [];
    assert C.Run(s, []) == s;
    if raw.NotCloudEvent? {
      DeadLetters(s, w, pos, 1);
      Push(s, [], C.DeadLetter(w, true, true));
      actions := [] + [C.DeadLetter(w, true, true)];
      assert At(C.Run(s, actions), w, pos, 1, C.Handled);
    } else if !IsCatalogChange(raw.event.kind) {
      assert At(C.Run(s, actions), w, pos, 1, C.Handled);
    } else if raw.event.id !in s.shared.consumed && !Projects(raw.event) {
      actions := HandlesUnreadable(s, w, pos, 1);
    } else {
      var s1 := C.Do(s, C.Check(w, true));
      Checks(s, w, pos, 1);
      Push(s, [], C.Check(w, true));
      actions := [] + [C.Check(w, true)];
      if raw.event.id in s.shared.consumed {
        assert At(C.Run(s, actions), w, pos, 1, C.Handled);
      } else {
        var rest := HandlesReadable(s1, w, pos);
        SteadyThen(s, s1, C.Run(s1, rest));
        C.RunAppend(s, actions, rest);
        actions := actions + rest;
        assert At(C.Run(s, actions), w, pos, 1, C.Handled);
      }
    }
  }

  /** A worker whose position is the committed offset. */
  predicate Reading(s: C.Projector, w: C.WorkerId) {
    w in s.workers && s.workers[w] == C.Worker(s.shared.committed, 0, C.Idle)
  }

  lemma HandlesOne(s: C.Projector, w: C.WorkerId) returns (actions: seq<C.Action>)
    requires Reading(s, w) && s.shared.committed < |s.shared.log|
    ensures NoAppends(actions)
    ensures var s' := C.Run(s, actions);
            && Reading(s', w) && s'.shared.committed == s.shared.committed + 1 && s'.shared.log == s.shared.log
            && OnlyPoisonAdded(s.shared, s'.shared)
  {
    var pos := s.shared.committed;
    var s1 := C.Do(s, C.Fetch(w));
    Fetches(s, w, pos);
    assert C.Run(s, []) == s;
    Push(s, [], C.Fetch(w));
    var start := [] + [C.Fetch(w)];
    var rest := HandlesDecoded(s1, w, pos);
    var s2 := C.Run(s1, rest);
    var last :| At(s2, w, pos, last, C.Handled);
    Commits(s2, w, pos, last);
    SteadyThen(s, s1, s2);
    C.RunAppend(s, start, rest);
    Push(s, start + rest, C.CommitOffset(w, true, true));
    actions := start + rest + [C.CommitOffset(w, true, true)];
  }

  lemma {:induction false} ReadsToTheEnd(s: C.Projector, w: C.WorkerId) returns (actions: seq<C.Action>)
    requires Reading(s, w) && s.shared.committed <= |s.shared.log|
    ensures NoAppends(actions)
    ensures var s' := C.Run(s, actions);
            && s'.shared.committed == |s'.shared.log| && s'.shared.log == s.shared.log
            && OnlyPoisonAdded(s.shared, s'.shared)
    decreases |s.shared.log| - s.shared.committed
  {
    actions := [];
    assert C.Run(s, []) == s;
    if s.shared.committed < |s.shared.log| {
      actions := HandlesOne(s, w);
      var rest := ReadsToTheEnd(C.Run(s, actions), w);
      C.RunAppend(s, actions, rest);
      actions := actions + rest;
    }
  }

  // ---- the whole pipeline ----

  lemma {:induction false} RunAppend(p: P.Pipeline, a: seq<P.Action>, b: seq<P.Action>)
    ensures P.Run(p, a + b) == P.Run(P.Run(p, a), b)
  {
    if b == [] {
      assert a + b == a;
    } else {
      assert (a + b)[..|a + b| - 1] == a + b[..|b| - 1];
      RunAppend(p, a, b[..|b| - 1]);
    }
  }

  function Projecting(actions: seq<C.Action>): (lifted: seq<P.Action>)
    ensures |lifted| == |actions| && forall k :: 0 <= k < |actions| ==> lifted[k] == P.Project(actions[k])
  {
    seq(|actions|, k requires 0 <= k < |actions| => P.Project(actions[k]))
  }

  lemma {:induction false} ProjectorRuns(p: P.Pipeline, actions: seq<C.Action>)
    requires NoAppends(actions)
    ensures P.Run(p, Projecting(actions)) == p.(projector := C.Run(p.projector, actions))
  {
    if actions != [] {
      var n := |actions| - 1;
      ProjectorRuns(p, actions[..n]);
      assert Projecting(actions)[..n] == Projecting(actions[..n]);
    }
  }

  function Relaying(actions: seq<R.Action<P.Raw>>): (lifted: seq<P.Action>)
    ensures |lifted| == |actions| && forall k :: 0 <= k < |actions| ==> lifted[k] == P.Relay(actions[k])
  {
    seq(|actions|, k requires 0 <= k < |actions| => P.Relay(actions[k]))
  }

  ghost predicate NoEnqueues(actions: seq<R.Action<P.Raw>>) {
    forall k :: 0 <= k < |actions| ==> !actions[k].Enqueue?
  }

  /** A relay's steps only add to what the projector reads. */
  ghost predicate OnlyLonger(c: C.Projector, c': C.Projector) {
    && c' == c.(shared := c.shared.(log := c'.shared.log)) && c.shared.log <= c'.shared.log
  }

  lemma {:induction false} RelaysRun(p: P.Pipeline, actions: seq<R.Action<P.Raw>>)
    requires NoEnqueues(actions)
    ensures var p' := P.Run(p, Relaying(actions));
            p'.recorded == p.recorded && p'.relays == R.Run(p.relays, actions) && OnlyLonger(p.projector, p'.projector)
  {
    if actions != [] {
      var n := |actions| - 1;
      RelaysRun(p, actions[..n]);
      assert Relaying(actions)[..n] == Relaying(actions[..n]);
    }
  }

  lemma {:induction false} SendsEnqueueNothing(r: R.RelayId, n: nat)
    ensures NoEnqueues(R.Sends(r, n))
  {
    if n > 0 { SendsEnqueueNothing(r, n - 1); }
  }

  /** One undisturbed relay pass publishes all that waits. */
  lemma Publishes(p: P.Pipeline) returns (actions: seq<P.Action>)
    requires p.relays.passes == map[]
    ensures var p' := P.Run(p, actions);
            && p'.recorded == p.recorded && OnlyLonger(p.projector, p'.projector)
            && forall r :: r in p'.relays.outbox ==> p'.relays.outbox[r].published
  {
    var n := |R.Unlocked(p.relays)|;
    var steps: seq<R.Action<P.Raw>> := [R.Claim(0, n)] + R.Finish(0, n);
    R.DrainsAll(p.relays, 0);
    SendsEnqueueNothing(0, n);
    RelaysRun(p, steps);
    actions := Relaying(steps);
  }

  /** A worker takes over at the committed offset and reads to the end. */
  lemma Reads(p: P.Pipeline) returns (actions: seq<P.Action>)
    requires p.projector.shared.committed <= |p.projector.shared.log|
    ensures var p' := P.Run(p, actions);
            && p'.recorded == p.recorded && p'.relays == p.relays
            && p'.projector.shared.committed == |p'.projector.shared.log|
            && OnlyPoisonAdded(p.projector.shared, p'.projector.shared)
  {
    var c := p.projector;
    var c1 := C.Do(c, C.Stop(0));
    var c2 := C.Do(c1, C.Join(0));
    assert C.Run(c, []) == c;
    Push(c, [], C.Stop(0));
    Push(c, [] + [C.Stop(0)], C.Join(0));
    var start := [] + [C.Stop(0)] + [C.Join(0)];
    var rest := ReadsToTheEnd(c2, 0);
    C.RunAppend(c, start, rest);
    ProjectorRuns(p, start + rest);
    actions := Projecting(start + rest);
  }

  lemma PoisonAddedTransitive(t: C.Shared, t': C.Shared, t'': C.Shared)
    requires OnlyPoisonAdded(t, t') && OnlyPoisonAdded(t', t'')
    ensures OnlyPoisonAdded(t, t'')
  {
    forall j | |t.dlq| <= j < |t''.dlq| ensures P.DeadIsPoison(t'', t''.dlq[j]) {
      if j < |t'.dlq| { assert P.DeadIsPoison(t', t'.dlq[j]); }
    }
  }

  lemma StillOnlyPoison(t: C.Shared, t': C.Shared)
    requires OnlyPoison(t) && OnlyPoisonAdded(t, t')
    ensures OnlyPoison(t')
  {
    forall j | 0 <= j < |t'.dlq| ensures P.DeadIsPoison(t', t'.dlq[j]) {
      if j < |t.dlq| { assert P.DeadIsPoison(t, t.dlq[j]); }
    }
  }

  /** Giving up only poison loses no event. */
  lemma NothingMoreIsLost(p: P.Pipeline, p': P.Pipeline)
    requires P.Sound(p) && p'.recorded == p.recorded
    requires OnlyPoisonAdded(p.projector.shared, p'.projector.shared)
    ensures P.Lost(p') <= P.Lost(p)
  {
    var t, t' := p.projector.shared, p'.projector.shared;
    forall id | id in P.Lost(p') ensures id in P.Lost(p) {
      var j :| 0 <= j < |t'.dlq| && P.Carries(t', t'.dlq[j], id);
      assert P.Carries(t, t.dlq[j], id);
    }
  }

  /** Whatever passes are open can be rolled back. */
  lemma {:induction false} CrashesAll(p: P.Pipeline) returns (actions: seq<P.Action>)
    ensures P.Run(p, actions) == p.(relays := p.relays.(passes := map[]))
    decreases |p.relays.passes|
  {
    actions := [];
    assert P.Run(p, []) == p;
    if p.relays.passes != map[] {
      var r :| r in p.relays.passes;
      var a := P.Relay(R.Crash(r));
      var p1 := P.Do(p, a);
      assert p1 == p.(relays := p.relays.(passes := p.relays.passes - {r}));
      assert p1.relays.passes.Keys == p.relays.passes.Keys - {r};
      assert |p1.relays.passes| == |p1.relays.passes.Keys| && |p.relays.passes| == |p.relays.passes.Keys|;
      var rest := CrashesAll(p1);
      assert [a][..0] == [] && P.Run(p, [a][..0]) == p;
      RunAppend(p, [a], rest);
      actions := [a] + rest;
    }
  }

  /** Open passes are rolled back, one undisturbed pass publishes, and one worker reads to the end. */
  lemma Drains(p: P.Pipeline) returns (actions: seq<P.Action>)
    requires P.Sound(p)
    ensures var p' := P.Run(p, actions);
            P.Drained(p') && p'.recorded == p.recorded && OnlyPoisonAdded(p.projector.shared, p'.projector.shared)
  {
    var crash := CrashesAll(p);
    var p0 := P.Run(p, crash);
    var publish := Publishes(p0);
    var p1 := P.Run(p0, publish);
    var read := Reads(p1);
    PoisonAddedTransitive(p.projector.shared, p1.projector.shared, P.Run(p1, read).projector.shared);
    RunAppend(p, crash, publish);
    RunAppend(p, crash + publish, read);
    actions := crash + publish + read;
  }

  /** From every reachable state, whatever crashed, failed, is open or was given up, some continuation drains
      the pipeline, records nothing more and loses no event that was not lost already. */
  lemma DrainsLosingNothingMore(before: seq<P.Action>) returns (actions: seq<P.Action>)
    ensures var p := P.Run(P.Start(), before);
            var p' := P.Run(p, actions);
            P.Drained(p') && p'.recorded == p.recorded && P.Lost(p') <= P.Lost(p)
  {
    var p := P.Run(P.Start(), before);
    P.RunKeeps(before);
    actions := Drains(p);
    NothingMoreIsLost(p, P.Run(p, actions));
  }

  lemma CatchesUp(p: P.Pipeline) returns (actions: seq<P.Action>)
    requires P.Sound(p) && OnlyPoison(p.projector.shared)
    ensures P.CaughtUp(P.Run(p, actions)) && P.Run(p, actions).recorded == p.recorded
  {
    actions := Drains(p);
    StillOnlyPoison(p.projector.shared, P.Run(p, actions).projector.shared);
  }

  /** The pipeline can still catch up exactly as long as nothing but poison has been dead-lettered, whatever
      crashed, failed or is under way; and it can do so with nothing more recorded. */
  lemma CanCatchUpExactly(before: seq<P.Action>)
    ensures var p := P.Run(P.Start(), before);
            && (OnlyPoison(p.projector.shared) <==> exists actions :: P.CaughtUp(P.Run(p, actions)))
            && (OnlyPoison(p.projector.shared)
                ==> exists actions :: P.CaughtUp(P.Run(p, actions)) && P.Run(p, actions).recorded == p.recorded)
  {
    var p := P.Run(P.Start(), before);
    P.RunKeeps(before);
    if OnlyPoison(p.projector.shared) {
      var actions := CatchesUp(p);
      assert P.CaughtUp(P.Run(p, actions));
    } else {
      forall actions ensures !P.CaughtUp(P.Run(p, actions)) {
        DeadLettersStay(p, actions);
      }
    }
  }

  lemma DeadLettersStay(p: P.Pipeline, actions: seq<P.Action>)
    requires P.Sound(p) && !OnlyPoison(p.projector.shared)
    ensures !P.CaughtUp(P.Run(p, actions))
  {
    var k :| 0 <= k < |p.projector.shared.dlq| && !P.DeadIsPoison(p.projector.shared, p.projector.shared.dlq[k]);
    DeadLetterKept(p, actions, k);
    assert P.Run(p, actions).projector.shared.dlq[k] == p.projector.shared.dlq[k];
  }

  lemma {:induction false} DeadLetterKept(p: P.Pipeline, actions: seq<P.Action>, k: nat)
    requires P.Sound(p) && k < |p.projector.shared.dlq| && !P.DeadIsPoison(p.projector.shared,
            p.projector.shared.dlq[k])
    ensures var t := P.Run(p, actions).projector.shared;
            k < |t.dlq| && t.dlq[k] == p.projector.shared.dlq[k] && !P.DeadIsPoison(t, t.dlq[k]) && t.dlq[k] < |t.log|
  {
    if actions != [] {
      DeadLetterKept(p, actions[..|actions| - 1], k);
      OneStepKeepsDeadLetter(P.Run(p, actions[..|actions| - 1]), actions[|actions| - 1]);
    }
  }

  lemma OneStepKeepsDeadLetter(p: P.Pipeline, a: P.Action)
    ensures p.projector.shared.log <= P.Do(p, a).projector.shared.log
    ensures p.projector.shared.dlq <= P.Do(p, a).projector.shared.dlq
  {
  }

  // ---- every history can be reported ----

  ghost predicate RowsBelow(p: P.Pipeline, n: nat) {
    forall r :: r in p.relays.outbox ==> r < n
  }

  /** The first n events of a history recorded. */
  ghost predicate HasRecorded(p: P.Pipeline, events: seq<L.Event>, times: EventId -> int, n: nat)
    requires n <= |events|
  {
    && G.Records(p.recorded, events[..n], times) && RowsBelow(p, 2 * n)
    && p.relays.passes == map[] && p.projector == C.Start()
  }

  lemma NothingRecorded(events: seq<L.Event>, times: EventId -> int)
    requires events == []
    ensures G.Records(P.Start().recorded, events, times)
  {
    var recorded := P.Start().recorded;
    assert forall id :: id !in recorded;
  }

  lemma RecordsOneMore(p: P.Pipeline, events: seq<L.Event>, times: EventId -> int, n: nat)
    requires n < |events| && HasRecorded(p, events, times, n)
    ensures HasRecorded(P.Do(p, P.Record(G.Encoded(events[n], n, times(n)), 2 * n, 2 * n + 1)), events, times, n + 1)
  {
    var e := G.Encoded(events[n], n, times(n));
    assert |events[..n]| == n && |events[..n + 1]| == n + 1;
    assert P.MayRecord(p, e, 2 * n, 2 * n + 1);
    var p' := P.Do(p, P.Record(e, 2 * n, 2 * n + 1));
    assert p'.recorded == p.recorded[n := e];
    forall id | id in p'.recorded ensures p'.recorded[id] == G.Encoded(events[..n + 1][id], id, times(id)) {
      if id != n { assert p.recorded[id] == G.Encoded(events[..n][id], id, times(id)); }
    }
  }

  lemma PushStep(p: P.Pipeline, actions: seq<P.Action>, a: P.Action)
    ensures P.Run(p, actions + [a]) == P.Do(P.Run(p, actions), a)
  {
    assert (actions + [a])[..|actions|] == actions;
  }

  /** Event after event is recorded, each with its two rows. */
  lemma {:induction false} RecordsAll(events: seq<L.Event>, times: EventId -> int, n: nat)
          returns (actions: seq<P.Action>)
    requires n <= |events|
    ensures HasRecorded(P.Run(P.Start(), actions), events, times, n)
  {
    actions := [];
    if n == 0 {
      assert P.Run(P.Start(), []) == P.Start();
      NothingRecorded(events[..0], times);
    } else {
      var m := n - 1;
      actions := RecordsAll(events, times, m);
      RecordsOneMore(P.Run(P.Start(), actions), events, times, m);
      var a := P.Record(G.Encoded(events[m], m, times(m)), 2 * m, 2 * m + 1);
      PushStep(P.Start(), actions, a);
      actions := actions + [a];
    }
  }

  /** For every sequence of use cases there is a run of the pipeline that records exactly its events and
      catches up with them. */
  lemma EveryHistoryCanBeReported(cmds: seq<K.Command>, times: EventId -> int) returns (actions: seq<P.Action>)
    ensures var p := P.Run(P.Start(), actions);
            G.Records(p.recorded, K.Run(L.EMPTY_CATALOGUE, cmds).events, times) && P.CaughtUp(p)
  {
    var events := K.Run(L.EMPTY_CATALOGUE, cmds).events;
    var record := RecordsAll(events, times, |events|);
    assert events[..|events|] == events;
    P.RunKeeps(record);
    assert OnlyPoison(P.Run(P.Start(), record).projector.shared);
    var rest := CatchesUp(P.Run(P.Start(), record));
    RunAppend(P.Start(), record, rest);
    actions := record + rest;
  }
}
