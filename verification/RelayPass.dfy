/** One relay's pass as the program runs it, with every other relay and writer acting in between. */
module RelayPasses {
  import opened OutboxRelays

  /** Send was acknowledged, or failed: then the broker may have appended the message all the same, and
      recording the failure on the row may fail too. */
  datatype SendResult = Acknowledged | Failed(appended: bool, recorded: bool)

  /** A commit that reports an error may still have been applied. */
  datatype CommitResult = Committed | Unclear(applied: bool)

  ghost predicate NotBy<M>(actions: seq<Action<M>>, r: RelayId) {
    forall k :: 0 <= k < |actions| && !actions[k].Enqueue? ==> RelayOf(actions[k]) != r
  }

  /** The steps of one relay in a run. */
  ghost function StepsOf<M>(actions: seq<Action<M>>, r: RelayId): seq<Action<M>> {
    if actions == [] then []
    else StepsOf(actions[..|actions| - 1], r)
         + (var a := actions[|actions| - 1]; if !a.Enqueue? && RelayOf(a) == r then [a] else [])
  }

  lemma {:induction false} OthersTakeNoStep<M>(actions: seq<Action<M>>, others: seq<Action<M>>, r: RelayId)
    requires NotBy(others, r)
    ensures StepsOf(actions + others, r) == StepsOf(actions, r)
  {
    if others == [] {
      assert actions + others == actions;
    } else {
      assert (actions + others)[..|actions + others| - 1] == actions + others[..|others| - 1];
      OthersTakeNoStep(actions, others[..|others| - 1], r);
    }
  }

  /** What steps of others leave of a relay's pass and of the tables. */
  ghost predicate Later<M>(r: RelayId, s: Relays<M>, s': Relays<M>) {
    && (r in s.passes <==> r in s'.passes)
    && (r in s.passes ==> s'.passes[r] == s.passes[r])
    && s.log <= s'.log
    && (forall id :: id in s.outbox ==> id in s'.outbox && (s.outbox[id].published ==> s'.outbox[id].published))
  }

  lemma {:induction false} OthersLeaveThePass<M>(r: RelayId, s: Relays<M>, others: seq<Action<M>>)
    requires NotBy(others, r)
    ensures Later(r, s, Run(s, others))
  {
    if others != [] {
      var before, a := others[..|others| - 1], others[|others| - 1];
      OthersLeaveThePass(r, s, before);
      var s1 := Run(s, before);
      assert Later(r, s1, Do(s1, a));
    }
  }

  /** How a pass can end after its last marked row. */
  ghost predicate IsEnding<M>(r: RelayId, ending: seq<Action<M>>) {
    || ending == [Commit(r)] || ending == [Crash(r)] || ending == [Deliver(r), Crash(r)]
    || exists appended :: ending == [Refuse(r, appended), Commit(r)] || ending == [Refuse(r, appended), Crash(r)]
  }

  /** A pass claims once, sends and marks row after row, and then ends, successfully by its commit. */
  ghost predicate IsPass<M(!new)>(steps: seq<Action<M>>, r: RelayId, limit: nat, published: nat, ok: bool) {
    exists ending :: IsEnding(r, ending) && (ok ==> ending == [Commit(r)])
                     && steps == [Claim(r, limit)] + Sends(r, published) + ending
  }

  /** Row k of the batch goes through: its send is acknowledged and its mark succeeds. */
  predicate Goes(sends: seq<SendResult>, marks: seq<bool>, k: nat) {
    (k < |sends| ==> sends[k].Acknowledged?) && (k < |marks| ==> marks[k])
  }

  /** Of n rows, exactly those before k go through; row k, if there is one, is the first that does not. */
  ghost predicate StopsAt(sends: seq<SendResult>, marks: seq<bool>, n: nat, k: nat) {
    && k <= n
    && (forall j: nat :: j < k ==> Goes(sends, marks, j))
    && (k < n ==> !Goes(sends, marks, k))
  }

  /** The pass keeps what it marked: it got through the batch or could record its failed send, and its
      commit took effect. */
  predicate Keeps(sends: seq<SendResult>, n: nat, k: nat, commit: CommitResult) {
    && (k == n || (k < |sends| && sends[k].Failed? && sends[k].recorded))
    && (commit.Committed? || commit.applied)
  }

  /** The first `limit` rows, in order, of those waiting and locked by nobody. */
  ghost predicate IsClaim<M>(s: Relays<M>, rows: seq<nat>, limit: nat) {
    && Ascending(rows) && |rows| <= limit
    && (forall k :: 0 <= k < |rows| ==> Free(s, rows[k]))
    && (forall id :: Free(s, id) && id !in rows ==> |rows| == limit && forall k :: 0 <= k < |rows| ==> rows[k] < id)
  }

  ghost predicate Free<M>(s: Relays<M>, id: nat) {
    id in s.outbox && !s.outbox[id].published && forall q :: q in s.passes ==> id !in s.passes[q].batch
  }

  lemma ClaimIsExact<M(!new)>(s: Relays<M>, limit: nat)
    ensures IsClaim(s, Lowest(Unlocked(s), limit), limit)
  {
    var rows := Lowest(Unlocked(s), limit);
    LowestAscends(Unlocked(s), limit);
    forall id | Free(s, id) && id !in rows ensures |rows| == limit && forall k :: 0 <= k < |rows| ==> rows[k] < id {
      assert id in Unlocked(s);
      LowestLeavesHigher(Unlocked(s), limit, id);
    }
  }

  /** Whatever is not chosen lies above everything chosen, and only because the limit was reached. */
  lemma {:induction false} LowestLeavesHigher(ids: set<nat>, limit: nat, id: nat)
    requires id in ids && id !in Lowest(ids, limit)
    ensures |Lowest(ids, limit)| == limit
    ensures forall k :: 0 <= k < |Lowest(ids, limit)| ==> Lowest(ids, limit)[k] < id
    decreases limit
  {
    if limit > 0 {
      var m, rest := Least(ids), Lowest(ids - {Least(ids)}, limit - 1);
      assert Lowest(ids, limit) == [m] + rest;
      assert id != m by { assert ([m] + rest)[0] == m; }
      assert id !in rest by { assert forall k :: 0 <= k < |rest| ==> ([m] + rest)[k + 1] == rest[k]; }
      LowestLeavesHigher(ids - {m}, limit - 1, id);
    }
  }

  class OutboxRelay<M(!new)> {
    const me: RelayId
    const batchSize: nat
    /** The outbox table, the log and everyone's open passes. */
    var world: Relays<M>
    /** Everything that has happened since the pass began. */
    ghost var trace: seq<Action<M>>
    ghost var start: Relays<M>

    constructor (me: RelayId, batchSize: nat, world: Relays<M>)
      ensures this.me == me && this.batchSize == batchSize && this.world == world
    {
      this.me := me;
      this.batchSize := batchSize;
      this.world := world;
      this.trace := [];
      this.start := world;
    }

    ghost predicate Valid()
      reads this
    {
      Sound(world) && world == Run(start, trace)
    }

    /** One step of this relay. */
    method Step(a: Action<M>)
      requires Valid() && !a.Enqueue? && RelayOf(a) == me
      modifies this
      ensures Valid() && start == old(start) && world == Do(old(world), a)
      ensures StepsOf(trace, me) == StepsOf(old(trace), me) + [a]
    {
      StepKeeps(world, a);
      RunAppend(start, trace, [a]);
      RunOne(world, a);
      assert (trace + [a])[..|trace + [a]| - 1] == trace;
      world := Do(world, a);
      trace := trace + [a];
    }

    /** What others do meanwhile. */
    method Wait(others: seq<Action<M>>)
      requires Valid() && NotBy(others, me)
      modifies this
      ensures Valid() && start == old(start) && Later(me, old(world), world) && world == Run(old(world), others)
      ensures StepsOf(trace, me) == StepsOf(old(trace), me)
    {
      RunKeeps(world, others);
      RunAppend(start, trace, others);
      OthersTakeNoStep(trace, others, me);
      OthersLeaveThePass(me, world, others);
      world := Run(world, others);
      trace := trace + others;
    }

    /** In the middle of a pass over `rows`, of which the first k are sent and marked. */
    ghost predicate Midway(rows: seq<nat>, k: nat)
      reads this
    {
      && Valid() && k <= |rows|
      && me in world.passes && world.passes[me].batch == rows && world.passes[me].next == k
      && !world.passes[me].sent && !world.passes[me].failed
      && StepsOf(trace, me) == [Claim(me, batchSize)] + Sends(me, k)
    }

    /** After the pass: its locks are gone and what it marked is on the log. */
    ghost predicate Over(rows: seq<nat>, k: nat, ok: bool)
      reads this
    {
      && Valid() && me !in world.passes && k <= |rows|
      && (forall j :: 0 <= j < k ==> OnLog(world.log, rows[j]))
      && IsPass(StepsOf(trace, me), me, batchSize, k, ok)
    }

    /** Of the batch, exactly the first k rows are published if the pass keeps them, and none if it does not. */
    ghost predicate Left(rows: seq<nat>, k: nat, keeps: bool)
      reads this
    {
      forall j :: 0 <= j < |rows| ==>
        rows[j] in world.outbox && (world.outbox[rows[j]].published <==> keeps && j < k)
    }

    /** What others do in the middle of the pass. */
    method WaitMidway(rows: seq<nat>, k: nat, others: seq<Action<M>>)
      requires Midway(rows, k) && NotBy(others, me)
      modifies this
      ensures start == old(start) && Midway(rows, k)
    {
      Wait(others);
    }

    method ClaimBatch() returns (rows: seq<nat>)
      requires Valid() && me !in world.passes && StepsOf(trace, me) == []
      modifies this
      ensures start == old(start) && Midway(rows, 0) && IsClaim(old(world), rows, batchSize)
    {
      ClaimIsExact(world, batchSize);
      Step(Claim(me, batchSize));
      rows := world.passes[me].batch;
      assert StepsOf(trace, me) == [Claim(me, batchSize)] + Sends(me, 0);
    }

    lemma MarkedExactly(p: Pass)
      requires p.next <= |p.batch| && Ascending(p.batch)
      ensures forall j :: 0 <= j < |p.batch| ==> (p.batch[j] in Marked(p) <==> j < p.next)
    {
      forall j | 0 <= j < |p.batch| ensures p.batch[j] in Marked(p) <==> j < p.next {
        if j < p.next { assert Marked(p)[j] == p.batch[j]; }
        if p.batch[j] in Marked(p) {
          var i :| 0 <= i < p.next && Marked(p)[i] == p.batch[j];
          assert p.batch[i] == p.batch[j];
        }
      }
    }

    /** Ends the pass with its last steps, `ending`, the last of which commits or rolls back. */
    method End(rows: seq<nat>, ghost k: nat, ghost was: seq<Action<M>>, last: Action<M>)
      requires Valid() && k <= |rows| && me in world.passes && world.passes[me].batch == rows
              && world.passes[me].next == k
      requires last == Crash(me) || (last == Commit(me) && MayCommit(world.passes[me]))
      requires StepsOf(trace, me) == [Claim(me, batchSize)] + Sends(me, k) + was && IsEnding(me, was + [last])
      modifies this
      ensures start == old(start) && Over(rows, k, was == [] && last == Commit(me))
      ensures Left(rows, k, last == Commit(me))
    {
      assert Holds(world.outbox, world.passes[me]) && HasSent(world.log, world.passes[me]);
      MarkedExactly(world.passes[me]);
      Step(last);
      assert StepsOf(trace, me) == [Claim(me, batchSize)] + Sends(me, k) + (was + [last]);
    }

    /** Sends one row and marks it. On a failed send it records the failure and commits what is marked. */
    method SendRow(rows: seq<nat>, k: nat, sent: SendResult, marks: bool, commit: CommitResult) returns (marked: bool)
      requires Midway(rows, k) && k < |rows|
      modifies this
      ensures start == old(start)
      ensures marked <==> sent.Acknowledged? && marks
      ensures if marked then Midway(rows, k + 1) else Over(rows, k, false)
      ensures !marked ==> Left(rows, k, sent.Failed? && sent.recorded && (commit.Committed? || commit.applied))
    {
      assert Holds(world.outbox, world.passes[me]);
      ghost var before := [Claim(me, batchSize)] + Sends<M>(me, k);
      match sent
      case Failed(appended, recorded) =>
        Step(Refuse(me, appended));
        assert StepsOf(trace, me) == before + [Refuse(me, appended)];
        // A failed bookkeeping statement leaves the transaction aborted, so its commit rolls back.
        var last: Action<M> := if recorded && (commit.Committed? || commit.applied) then Commit(me) else Crash(me);
        assert [Refuse(me, appended)] + [last] == [Refuse(me, appended), last];
        End(rows, k, [Refuse(me, appended)], last);
        marked := false;
      case Acknowledged =>
        Step(Deliver(me));
        assert StepsOf(trace, me) == before + [Deliver(me)];
        if marks {
          Step(Mark(me));
          assert StepsOf(trace, me) == [Claim(me, batchSize)] + Sends(me, k + 1);
        } else {
          ghost var was: seq<Action<M>> := [Deliver(me)];
          assert was + [Crash(me)] == [Deliver(me), Crash(me)];
          End(rows, k, was, Crash(me));
        }
        marked := marks;
    }

    /** Row k of the batch, after others have acted. */
    method TryRow(rows: seq<nat>, k: nat, sends: seq<SendResult>, marks: seq<bool>, commit: CommitResult,
            others: seq<Action<M>>)
        returns (marked: bool)
      requires Midway(rows, k) && k < |rows| && NotBy(others, me)
      modifies this
      ensures start == old(start) && (marked <==> Goes(sends, marks, k))
      ensures if marked then Midway(rows, k + 1)
              else Over(rows, k, false) && Left(rows, k, Keeps(sends, |rows|, k, commit))
    {
      WaitMidway(rows, k, others);
      var sent := if k < |sends| then sends[k] else Acknowledged;
      marked := SendRow(rows, k, sent, k >= |marks| || marks[k], commit);
    }

    /** Sends the batch row by row, up to the first failure. */
    method SendBatch(rows: seq<nat>, sends: seq<SendResult>, marks: seq<bool>, commit: CommitResult,
            others: nat -> seq<Action<M>>)
        returns (published: nat, sentAll: bool)
      requires Midway(rows, 0)
      requires forall k :: NotBy(others(k), me)
      modifies this
      ensures start == old(start)
      ensures StopsAt(sends, marks, |rows|, published) && (sentAll <==> published == |rows|)
      ensures if sentAll then Midway(rows, published) else Over(rows, published, false)
      ensures !sentAll ==> Left(rows, published, Keeps(sends, |rows|, published, commit))
    {
      published := 0;
      while published < |rows|
        invariant start == old(start) && published <= |rows| && Midway(rows, published)
        invariant forall j: nat :: j < published ==> Goes(sends, marks, j)
      {
        var marked := TryRow(rows, published, sends, marks, commit, others(published + 1));
        if !marked {
          return published, false;
        }
        published := published + 1;
      }
      return published, true;
    }

    /** Commits a pass that has sent its whole batch. */
    method CommitBatch(rows: seq<nat>, commit: CommitResult) returns (ok: bool)
      requires Midway(rows, |rows|)
      modifies this
      ensures start == old(start) && Over(rows, |rows|, ok) && (ok <==> commit.Committed?)
      ensures Left(rows, |rows|, commit.Committed? || commit.applied)
    {
      var last: Action<M> := if commit.Committed? || commit.applied then Commit(me) else Crash(me);
      assert StepsOf(trace, me) == [Claim(me, batchSize)] + Sends(me, |rows|) + [];
      End(rows, |rows|, [], last);
      ok := commit.Committed?;
    }

    /** Claims the first batchSize free rows, sends each in order and marks it, and commits. On the first
        failed send it records the failure, commits what it marked and stops. `others` are the steps taken
        elsewhere before the claim, before each row and before the commit. How far the pass gets, whether it
        succeeds and which of its rows end up published is decided by how its calls end, and by nothing else. */
    method RelayOnce(begins: bool, sends: seq<SendResult>, marks: seq<bool>, commit: CommitResult,
            others: nat -> seq<Action<M>>)
        returns (published: nat, ok: bool, ghost batch: seq<nat>)
      requires Sound(world) && me !in world.passes
      requires forall k :: NotBy(others(k), me)
      modifies this
      ensures start == old(world) && world == Run(start, trace)
      ensures !begins ==> world == old(world) && !ok && published == 0
      ensures begins ==> IsClaim(Run(old(world), others(0)), batch, batchSize)
      ensures begins ==> StopsAt(sends, marks, |batch|, published)
      ensures ok <==> begins && published == |batch| && commit.Committed?
      ensures begins ==> Over(batch, published, ok) && Left(batch, published, Keeps(sends, |batch|, published, commit))
    {
      start, trace, published, ok, batch := world, [], 0, false, [];
      if !begins {
        return;
      }
      Wait(others(0));
      assert world == Run(old(world), others(0));
      var rows := ClaimBatch();
      batch := rows;
      var sentAll;
      published, sentAll := SendBatch(rows, sends, marks, commit, others);
      if sentAll {
        WaitMidway(rows, published, others(published + 1));
        ok := CommitBatch(rows, commit);
      }
    }
  }
}
