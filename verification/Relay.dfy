/** The transactional outbox and the relays that drain it: committed rows, an append-only log, and any
    number of relay passes that claim, send, mark and commit, and may crash at any point. */
module OutboxRelays {
  type Topic = string
  type RelayId = nat

  datatype Row<M> = Row(topic: Topic, message: M, published: bool)

  /** A message on the log. `seen` and `skipped` are history: the rows committed when the pass that sent
      it claimed its batch, and the unpublished ones among them that another pass held locked. */
  datatype Entry<M> = Entry(id: nat, topic: Topic, message: M, seen: set<nat>, skipped: set<nat>)

  /** An open relay transaction: it holds the locks on `batch`, has marked batch[..next], and `sent`
      says whether batch[next] has been sent but not yet marked. */
  datatype Pass = Pass(batch: seq<nat>, next: nat, sent: bool, failed: bool, seen: set<nat>, skipped: set<nat>)

  datatype Relays<M> = Relays(outbox: map<nat, Row<M>>, log: seq<Entry<M>>, passes: map<RelayId, Pass>)

  /** What can happen. Rows become visible in any id order. The broker may append a message more than
      once before acknowledging it, and may append one it then reports as failed. A crash, a failed
      UPDATE and a failed commit all roll the pass back. */
  datatype Action<M> =
    | Enqueue(id: nat, topic: Topic, message: M)
    | Claim(relay: RelayId, limit: nat)
    | Deliver(relay: RelayId)
    | Refuse(relay: RelayId, appended: bool)
    | Mark(relay: RelayId)
    | Commit(relay: RelayId)
    | Crash(relay: RelayId)

  function Start<M>(): Relays<M> {
    Relays(map[], [], map[])
  }

  // ---- claiming ----

  lemma {:induction false} FindLeast(ids: set<nat>) returns (m: nat)
    requires ids != {}
    ensures m in ids && forall x :: x in ids ==> m <= x
  {
    var y :| y in ids;
    m := y;
    var rest := ids - {y};
    if rest != {} {
      var least := FindLeast(rest);
      m := if y <= least then y else least;
    }
    assert forall x :: x in ids ==> x == y || x in rest;
  }

  lemma LeastExists(ids: set<nat>)
    requires ids != {}
    ensures exists m :: m in ids && forall x :: x in ids ==> m <= x
  {
    var m := FindLeast(ids);
  }

  function Least(ids: set<nat>): (m: nat)
    requires ids != {}
    ensures m in ids && forall x :: x in ids ==> m <= x
  {
    LeastExists(ids);
    var m :| m in ids && forall x :: x in ids ==> m <= x;
    m
  }

  /** The lowest ids, at most `limit` of them, in ascending order. */
  function Lowest(ids: set<nat>, limit: nat): (r: seq<nat>)
    ensures |r| == if limit < |ids| then limit else |ids|
    ensures forall k :: 0 <= k < |r| ==> r[k] in ids
    decreases limit
  {
    if limit == 0 || ids == {} then []
    else [Least(ids)] + Lowest(ids - {Least(ids)}, limit - 1)
  }

  ghost predicate Ascending(ids: seq<nat>) {
    forall j, k :: 0 <= j < k < |ids| ==> ids[j] < ids[k]
  }

  lemma {:induction false} LowestAscends(ids: set<nat>, limit: nat)
    ensures Ascending(Lowest(ids, limit))
    decreases limit
  {
    if limit != 0 && ids != {} {
      var r, rest := Lowest(ids, limit), Lowest(ids - {Least(ids)}, limit - 1);
      LowestAscends(ids - {Least(ids)}, limit - 1);
      forall j, k | 0 <= j < k < |r| ensures r[j] < r[k] {
        assert r[k] == rest[k - 1] && r[k] in ids - {r[0]};
        assert j > 0 ==> r[j] == rest[j - 1];
      }
    }
  }

  /** No id is passed over: whatever lies below a chosen id was chosen before it. */
  lemma {:induction false} LowestSkipsNone(ids: set<nat>, limit: nat, k: nat, x: nat)
    requires k < |Lowest(ids, limit)| && x in ids && x < Lowest(ids, limit)[k]
    ensures x in Lowest(ids, limit)[..k]
    decreases limit
  {
    var r, m := Lowest(ids, limit), Least(ids);
    if x == m {
      assert r[..k][0] == m;
    } else {
      LowestSkipsNone(ids - {m}, limit - 1, k - 1, x);
      assert r[..k] == [m] + r[1..][..k - 1];
    }
  }

  predicate IsLocked(passes: map<RelayId, Pass>, id: nat) {
    exists r :: r in passes && id in passes[r].batch
  }

  function Unlocked<M>(s: Relays<M>): set<nat> {
    set id | id in s.outbox && !s.outbox[id].published && !IsLocked(s.passes, id)
  }

  function Skipped<M>(s: Relays<M>): set<nat> {
    set id | id in s.outbox && !s.outbox[id].published && IsLocked(s.passes, id)
  }

  function NewPass<M>(s: Relays<M>, limit: nat): Pass {
    Pass(Lowest(Unlocked(s), limit), 0, false, false, s.outbox.Keys, Skipped(s))
  }

  // ---- steps ----

  /** A pass that has a row to send. */
  predicate Sending<M>(s: Relays<M>, r: RelayId) {
    && r in s.passes && !s.passes[r].failed && s.passes[r].next < |s.passes[r].batch|
    && s.passes[r].batch[s.passes[r].next] in s.outbox
  }

  function EntryOf<M>(s: Relays<M>, r: RelayId): Entry<M>
    requires Sending(s, r)
  {
    var p := s.passes[r];
    var id := p.batch[p.next];
    Entry(id, s.outbox[id].topic, s.outbox[id].message, p.seen, p.skipped)
  }

  function Publish<M>(outbox: map<nat, Row<M>>, ids: seq<nat>): map<nat, Row<M>> {
    map id | id in outbox :: if id in ids then outbox[id].(published := true) else outbox[id]
  }

  predicate MayCommit(p: Pass) {
    p.failed || p.next >= |p.batch|
  }

  function Marked(p: Pass): seq<nat> {
    if p.next <= |p.batch| then p.batch[..p.next] else p.batch
  }

  function Do<M>(s: Relays<M>, a: Action<M>): Relays<M> {
    match a
    case Enqueue(id, topic, message) =>
      if id in s.outbox then s else s.(outbox := s.outbox[id := Row(topic, message, false)])
    case Claim(r, limit) =>
      if r in s.passes then s else s.(passes := s.passes[r := NewPass(s, limit)])
    case Deliver(r) =>
      if Sending(s, r)
      then s.(log := s.log + [EntryOf(s, r)], passes := s.passes[r := s.passes[r].(sent := true)])
      else s
    case Refuse(r, appended) =>
      if Sending(s, r)
      then s.(log := if appended then s.log + [EntryOf(s, r)] else s.log,
        passes := s.passes[r := s.passes[r].(failed := true)])
      else s
    case Mark(r) =>
      if Sending(s, r) && s.passes[r].sent
      then s.(passes := s.passes[r := s.passes[r].(next := s.passes[r].next + 1, sent := false)])
      else s
    case Commit(r) =>
      if r in s.passes && MayCommit(s.passes[r])
      then Relays(Publish(s.outbox, Marked(s.passes[r])), s.log, s.passes - {r})
      else s
    case Crash(r) => s.(passes := s.passes - {r})
  }

  function Run<M>(s: Relays<M>, actions: seq<Action<M>>): Relays<M> {
    if actions == [] then s else Do(Run(s, actions[..|actions| - 1]), actions[|actions| - 1])
  }

  // ---- what every run keeps ----

  ghost predicate Before<M>(log: seq<Entry<M>>, id: nat, k: int) {
    exists m :: 0 <= m < k && m < |log| && log[m].id == id
  }

  ghost predicate OnLog<M>(log: seq<Entry<M>>, id: nat) {
    Before(log, id, |log|)
  }

  /** Every entry was sent from a committed row, with that row's topic and message. */
  ghost predicate EntriesAreRows<M>(outbox: map<nat, Row<M>>, log: seq<Entry<M>>) {
    forall k :: 0 <= k < |log| ==>
      log[k].id in outbox && outbox[log[k].id].topic == log[k].topic && outbox[log[k].id].message == log[k].message
  }

  ghost predicate PublishedAreLogged<M>(outbox: map<nat, Row<M>>, log: seq<Entry<M>>) {
    forall id :: id in outbox && outbox[id].published ==> OnLog(log, id)
  }

  /** Lower rows that were visible and not locked elsewhere when an entry's batch was claimed are on the
      log before it. */
  ghost predicate InOrder<M>(log: seq<Entry<M>>) {
    forall k, i :: 0 <= k < |log| && i in log[k].seen && i !in log[k].skipped && i < log[k].id ==> Before(log, i, k)
  }

  /** The batch of an open pass: unpublished rows, ascending. */
  ghost predicate Holds<M>(outbox: map<nat, Row<M>>, p: Pass) {
    && p.next <= |p.batch|
    && (forall k :: 0 <= k < |p.batch| ==> p.batch[k] in outbox && !outbox[p.batch[k]].published)
    && Ascending(p.batch)
  }

  /** What an open pass has sent. */
  ghost predicate HasSent<M>(log: seq<Entry<M>>, p: Pass) {
    && (forall k :: 0 <= k < p.next && k < |p.batch| ==> OnLog(log, p.batch[k]))
    && (p.sent && p.next < |p.batch| ==> OnLog(log, p.batch[p.next]))
  }

  /** A lower row seen at the claim is locked elsewhere, or on the log, or earlier in the batch. */
  ghost predicate Covers<M>(log: seq<Entry<M>>, p: Pass) {
    forall k, i :: 0 <= k < |p.batch| && i in p.seen && i !in p.skipped && i < p.batch[k]
      ==> OnLog(log, i) || i in p.batch[..k]
  }

  ghost predicate PassesAreSound<M>(s: Relays<M>) {
    forall r :: r in s.passes ==>
      Holds(s.outbox, s.passes[r]) && HasSent(s.log, s.passes[r]) && Covers(s.log, s.passes[r])
  }

  /** No row is claimed by two passes. */
  ghost predicate LocksAreExclusive(passes: map<RelayId, Pass>) {
    forall q, r, id :: q in passes && r in passes && id in passes[q].batch && id in passes[r].batch ==> q == r
  }

  ghost predicate Sound<M>(s: Relays<M>) {
    && EntriesAreRows(s.outbox, s.log)
    && PublishedAreLogged(s.outbox, s.log)
    && InOrder(s.log)
    && PassesAreSound(s)
    && LocksAreExclusive(s.passes)
  }

  lemma LongerLog<M>(log: seq<Entry<M>>, more: seq<Entry<M>>)
    ensures forall id, k :: Before(log, id, k) ==> Before(log + more, id, k)
    ensures forall id :: OnLog(log, id) ==> OnLog(log + more, id)
    ensures forall id, k :: k <= |log| && Before(log + more, id, k) ==> Before(log, id, k)
  {
    forall id, k | Before(log, id, k) ensures Before(log + more, id, k) {
      var m :| 0 <= m < k && m < |log| && log[m].id == id;
      assert (log + more)[m].id == id;
    }
    forall id | OnLog(log, id) ensures OnLog(log + more, id) {
      var m :| 0 <= m < |log| && log[m].id == id;
      assert (log + more)[m].id == id;
    }
    forall id, k | k <= |log| && Before(log + more, id, k) ensures Before(log, id, k) {
      var m :| 0 <= m < k && m < |log + more| && (log + more)[m].id == id;
      assert log[m].id == id;
    }
  }

  lemma EnqueueKeeps<M>(s: Relays<M>, id: nat, topic: Topic, message: M)
    requires Sound(s)
    ensures Sound(Do(s, Enqueue(id, topic, message)))
  {
  }

  lemma ClaimKeeps<M>(s: Relays<M>, r: RelayId, limit: nat)
    requires Sound(s)
    ensures Sound(Do(s, Claim(r, limit)))
  {
    if r !in s.passes {
      var s' := Do(s, Claim(r, limit));
      var p := NewPass(s, limit);
      LowestAscends(Unlocked(s), limit);
      forall k, i | 0 <= k < |p.batch| && i in p.seen && i !in p.skipped && i < p.batch[k]
        ensures OnLog(s.log, i) || i in p.batch[..k]
      {
        assert s.outbox[i].published || i in Unlocked(s);
        if i in Unlocked(s) { LowestSkipsNone(Unlocked(s), limit, k, i); }
      }
      forall id | id in p.batch ensures id in Unlocked(s) {
      }
      forall q, q', id | q in s'.passes && q' in s'.passes && id in s'.passes[q].batch && id in s'.passes[q'].batch
        ensures q == q'
      {
        if q != r { assert s.passes[q] == s'.passes[q] && (q' == r ==> IsLocked(s.passes, id)); }
        if q' != r { assert s.passes[q'] == s'.passes[q'] && (q == r ==> IsLocked(s.passes, id)); }
      }
    }
  }

  /** Sending the next row of a pass keeps the log sound and in order. */
  lemma SendKeeps<M>(s: Relays<M>, r: RelayId)
    requires Sound(s) && Sending(s, r)
    ensures var log := s.log + [EntryOf(s, r)];
            && EntriesAreRows(s.outbox, log) && PublishedAreLogged(s.outbox, log) && InOrder(log)
            && (forall q :: q in s.passes ==> HasSent(log, s.passes[q]) && Covers(log, s.passes[q]))
            && OnLog(log, EntryOf(s, r).id)
  {
    var p, e := s.passes[r], EntryOf(s, r);
    var log := s.log + [e];
    assert Covers(s.log, p) && HasSent(s.log, p) && p.next < |p.batch|;
    LongerLog(s.log, [e]);
    assert log[|s.log|] == e;
    forall k, i | 0 <= k < |log| && i in log[k].seen && i !in log[k].skipped && i < log[k].id
        ensures Before(log, i, k) {
      if k < |s.log| {
        assert log[k] == s.log[k];
        assert Before(s.log, i, k);
      } else {
        assert OnLog(s.log, i);
      }
    }
  }

  /** Replacing one pass by a later stage of it, with the log no shorter. */
  lemma PassKeeps<M>(s: Relays<M>, r: RelayId, log: seq<Entry<M>>, p: Pass)
    requires Sound(s) && r in s.passes
    requires p.batch == s.passes[r].batch && p.seen == s.passes[r].seen && p.skipped == s.passes[r].skipped
    requires EntriesAreRows(s.outbox, log) && PublishedAreLogged(s.outbox, log) && InOrder(log)
    requires forall q :: q in s.passes ==> HasSent(log, s.passes[q]) && Covers(log, s.passes[q])
    requires p.next <= |p.batch| && HasSent(log, p)
    ensures Sound(Relays(s.outbox, log, s.passes[r := p]))
  {
    assert Holds(s.outbox, s.passes[r]) && Covers(log, s.passes[r]);
    var passes := s.passes[r := p];
    assert forall q :: q in passes ==> q in s.passes && passes[q].batch == s.passes[q].batch;
  }

  lemma DeliverKeeps<M>(s: Relays<M>, r: RelayId)
    requires Sound(s)
    ensures Sound(Do(s, Deliver(r)))
  {
    if Sending(s, r) {
      SendKeeps(s, r);
      PassKeeps(s, r, s.log + [EntryOf(s, r)], s.passes[r].(sent := true));
    }
  }

  lemma RefuseKeeps<M>(s: Relays<M>, r: RelayId, appended: bool)
    requires Sound(s)
    ensures Sound(Do(s, Refuse(r, appended)))
  {
    if Sending(s, r) {
      if appended { SendKeeps(s, r); }
      PassKeeps(s, r, if appended then s.log + [EntryOf(s, r)] else s.log, s.passes[r].(failed := true));
    }
  }

  lemma MarkKeeps<M>(s: Relays<M>, r: RelayId)
    requires Sound(s)
    ensures Sound(Do(s, Mark(r)))
  {
    if Sending(s, r) && s.passes[r].sent {
      assert HasSent(s.log, s.passes[r]);
      PassKeeps(s, r, s.log, s.passes[r].(next := s.passes[r].next + 1, sent := false));
    }
  }

  lemma CommitKeeps<M>(s: Relays<M>, r: RelayId)
    requires Sound(s)
    ensures Sound(Do(s, Commit(r)))
  {
    if r in s.passes && MayCommit(s.passes[r]) {
      var s', p := Do(s, Commit(r)), s.passes[r];
      forall id | id in Marked(p) ensures OnLog(s.log, id) {
        var k :| 0 <= k < p.next && Marked(p)[k] == id;
        assert p.batch[k] == id;
      }
      forall q | q in s'.passes ensures Holds(s'.outbox, s'.passes[q]) {
        forall k | 0 <= k < |s'.passes[q].batch| ensures s'.passes[q].batch[k] !in Marked(p) {
          assert s.passes[q].batch[k] in s.passes[q].batch;
          assert forall id :: id in Marked(p) ==> id in p.batch;
        }
      }
    }
  }

  lemma StepKeeps<M>(s: Relays<M>, a: Action<M>)
    requires Sound(s)
    ensures Sound(Do(s, a))
  {
    match a {
      case Enqueue(id, topic, message) => EnqueueKeeps(s, id, topic, message);
      case Claim(r, limit) => ClaimKeeps(s, r, limit);
      case Deliver(r) => DeliverKeeps(s, r);
      case Refuse(r, appended) => RefuseKeeps(s, r, appended);
      case Mark(r) => MarkKeeps(s, r);
      case Commit(r) => CommitKeeps(s, r);
      case Crash(r) =>
    }
  }

  lemma StepAppends<M>(s: Relays<M>, a: Action<M>)
    ensures s.log <= Do(s, a).log
  {
  }

  /** Every run keeps the tables, the log and the passes sound, and only appends to the log. */
  lemma {:induction false} RunKeeps<M>(s: Relays<M>, actions: seq<Action<M>>)
    requires Sound(s)
    ensures Sound(Run(s, actions)) && s.log <= Run(s, actions).log
  {
    if actions != [] {
      RunKeeps(s, actions[..|actions| - 1]);
      StepAppends(Run(s, actions[..|actions| - 1]), actions[|actions| - 1]);
      StepKeeps(Run(s, actions[..|actions| - 1]), actions[|actions| - 1]);
    }
  }

  lemma {:induction false} RunAppend<M>(s: Relays<M>, a: seq<Action<M>>, b: seq<Action<M>>)
    ensures Run(s, a + b) == Run(Run(s, a), b)
  {
    if b == [] {
      assert a + b == a;
    } else {
      assert (a + b)[..|a + b| - 1] == a + b[..|b| - 1];
      RunAppend(s, a, b[..|b| - 1]);
    }
  }

  lemma RunOne<M>(s: Relays<M>, a: Action<M>)
    ensures Run(s, [a]) == Do(s, a)
  {
    assert [a][..0] == [];
    assert Run(s, []) == s;
  }

  // ---- at-least-once delivery ----

  /** In every run, with any number of relays, crashes and failed sends: a row committed as published is
      on the log, and every log entry is a committed row's topic and message. */
  lemma PublishedRowsAreOnTheLog<M>(actions: seq<Action<M>>)
    ensures var s := Run(Start(), actions);
            && (forall id :: id in s.outbox && s.outbox[id].published ==> OnLog(s.log, id))
            && (forall k :: 0 <= k < |s.log| ==>
               s.log[k].id in s.outbox && s.outbox[s.log[k].id].message == s.log[k].message
               && s.outbox[s.log[k].id].topic == s.log[k].topic)
  {
    RunKeeps(Start(), actions);
  }

  /** Enough sends and marks to finish a batch of n rows, then the commit. */
  function Sends<M>(r: RelayId, n: nat): seq<Action<M>> {
    if n == 0 then [] else Sends(r, n - 1) + [Deliver(r), Mark(r)]
  }

  /** The entries a pass appends for its next n rows. */
  function EntriesOf<M>(outbox: map<nat, Row<M>>, p: Pass, n: nat): (es: seq<Entry<M>>)
    requires p.next + n <= |p.batch| && forall k :: 0 <= k < |p.batch| ==> p.batch[k] in outbox
    ensures |es| == n && forall k :: 0 <= k < n ==> es[k].id == p.batch[p.next + k]
  {
    if n == 0 then []
    else
      var id := p.batch[p.next + n - 1];
      EntriesOf(outbox, p, n - 1) + [Entry(id, outbox[id].topic, outbox[id].message, p.seen, p.skipped)]
  }

  lemma SendOne<M>(s: Relays<M>, r: RelayId)
    requires Sending(s, r) && !s.passes[r].sent
    ensures Run(s, [Deliver(r), Mark(r)])
            == s.(log := s.log + [EntryOf(s, r)], passes := s.passes[r := s.passes[r].(next := s.passes[r].next + 1)])
  {
    var s1 := Do(s, Deliver(r));
    RunAppend(s, [Deliver(r)], [Mark(r)]);
    var pair: seq<Action<M>> := [Deliver(r), Mark(r)];
    assert [Deliver(r)] + [Mark(r)] == pair;
    RunOne(s, Deliver(r));
    RunOne(s1, Mark(r));
  }

  /** After n undisturbed sends and marks of a pass. */
  function Sent<M>(s: Relays<M>, r: RelayId, n: nat): Relays<M>
    requires CanSend(s, r, n)
  {
    var p := s.passes[r];
    Relays(s.outbox, s.log + EntriesOf(s.outbox, p, n), s.passes[r := p.(next := p.next + n)])
  }

  predicate CanSend<M>(s: Relays<M>, r: RelayId, n: nat) {
    && r in s.passes && !s.passes[r].failed && !s.passes[r].sent && s.passes[r].next + n <= |s.passes[r].batch|
    && (forall k :: 0 <= k < |s.passes[r].batch| ==> s.passes[r].batch[k] in s.outbox)
  }

  lemma SentOneMore<M>(s: Relays<M>, r: RelayId, n: nat)
    requires n > 0 && CanSend(s, r, n)
    ensures Run(Sent(s, r, n - 1), [Deliver(r), Mark(r)]) == Sent(s, r, n)
  {
    var p, s1 := s.passes[r], Sent(s, r, n - 1);
    SendOne(s1, r);
    assert s1.passes[r] == p.(next := p.next + n - 1);
    assert s1.log + [EntryOf(s1, r)] == s.log + EntriesOf(s.outbox, p, n);
    assert s1.passes[r := p.(next := p.next + n)] == s.passes[r := p.(next := p.next + n)];
  }

  lemma {:induction false} SendsAdvance<M>(s: Relays<M>, r: RelayId, n: nat)
    requires CanSend(s, r, n)
    ensures Run(s, Sends(r, n)) == Sent(s, r, n)
  {
    if n == 0 {
      assert s.passes[r := s.passes[r]] == s.passes;
      assert s.log + EntriesOf(s.outbox, s.passes[r], 0) == s.log;
    } else {
      SendsAdvance(s, r, n - 1);
      RunAppend(s, Sends(r, n - 1), [Deliver(r), Mark(r)]);
      SentOneMore(s, r, n);
    }
  }

  function Finish<M>(r: RelayId, n: nat): seq<Action<M>> {
    Sends(r, n) + [Commit(r)]
  }

  /** An undisturbed pass publishes its batch. */
  lemma FinishPublishes<M>(s: Relays<M>, r: RelayId)
    requires r in s.passes && s.passes[r].next == 0 && CanSend(s, r, |s.passes[r].batch|)
    ensures var p := s.passes[r];
            Run(s, Finish(r, |p.batch|))
            == Relays(Publish(s.outbox, p.batch), s.log + EntriesOf(s.outbox, p, |p.batch|), s.passes - {r})
  {
    var p := s.passes[r];
    var n := |p.batch|;
    SendsAdvance(s, r, n);
    RunAppend(s, Sends(r, n), [Commit(r)]);
    var sent := Sent(s, r, n);
    RunOne(sent, Commit(r));
    assert p.batch[..n] == p.batch;
    assert sent.passes - {r} == s.passes - {r};
  }

  /** Nothing is lost: however a run went, once no pass is open one undisturbed pass over enough rows
      publishes everything still waiting. */
  lemma OnePassDrains<M>(actions: seq<Action<M>>, r: RelayId)
    requires Run(Start(), actions).passes == map[]
    ensures var s := Run(Start(), actions);
            var n := |Unlocked(s)|;
            var s' := Run(s, [Claim(r, n)] + Finish(r, n));
            s'.passes == map[] && s'.outbox.Keys == s.outbox.Keys
            && forall id :: id in s'.outbox ==> s'.outbox[id].published
  {
    DrainsAll(Run(Start(), actions), r);
  }

  /** An undisturbed pass of a relay that holds nothing. */
  lemma PassPublishes<M>(s: Relays<M>, r: RelayId, limit: nat)
    requires r !in s.passes
    ensures var p := NewPass(s, limit);
            Run(s, [Claim(r, limit)] + Finish(r, |p.batch|))
            == Relays(Publish(s.outbox, p.batch), s.log + EntriesOf(s.outbox, p, |p.batch|), s.passes)
  {
    var p := NewPass(s, limit);
    var s1 := Do(s, Claim(r, limit));
    ClaimOpens(s, r, limit);
    RunAppend(s, [Claim(r, limit)], Finish(r, |p.batch|));
    RunOne(s, Claim(r, limit));
    FinishPublishes(s1, r);
  }

  lemma ClaimOpens<M>(s: Relays<M>, r: RelayId, limit: nat)
    requires r !in s.passes
    ensures var s1 := Do(s, Claim(r, limit));
            && r in s1.passes && s1.passes[r] == NewPass(s, limit) && s1.passes - {r} == s.passes
            && s1.outbox == s.outbox && s1.log == s.log && CanSend(s1, r, |s1.passes[r].batch|)
  {
  }

  lemma DrainsAll<M>(s: Relays<M>, r: RelayId)
    requires s.passes == map[]
    ensures var n := |Unlocked(s)|;
            var s' := Run(s, [Claim(r, n)] + Finish(r, n));
            s'.passes == map[] && s'.outbox.Keys == s.outbox.Keys
            && forall id :: id in s'.outbox ==> s'.outbox[id].published
  {
    var n := |Unlocked(s)|;
    PassPublishes(s, r, n);
    LowestTakesAll(Unlocked(s), n);
    PublishedAll(s.outbox, Unlocked(s), NewPass(s, n).batch);
  }

  lemma PublishedAll<M>(outbox: map<nat, Row<M>>, waiting: set<nat>, ids: seq<nat>)
    requires forall id :: id in outbox && !outbox[id].published ==> id in waiting
    requires forall id :: id in waiting ==> id in ids
    ensures var after := Publish(outbox, ids);
            after.Keys == outbox.Keys && forall id :: id in after ==> after[id].published
  {
  }

  lemma {:induction false} LowestTakesAll(ids: set<nat>, limit: nat)
    requires limit == |ids|
    ensures forall x :: x in ids ==> x in Lowest(ids, limit)
    decreases limit
  {
    if limit != 0 {
      LowestTakesAll(ids - {Least(ids)}, limit - 1);
    }
  }

  // ---- order ----

  function RelayOf<M>(a: Action<M>): RelayId
    requires !a.Enqueue?
  {
    a.relay
  }

  ghost predicate OnlyRelay<M>(actions: seq<Action<M>>, r: RelayId) {
    forall k :: 0 <= k < |actions| && !actions[k].Enqueue? ==> RelayOf(actions[k]) == r
  }

  ghost predicate SkipsNothing<M>(s: Relays<M>, r: RelayId) {
    && s.passes.Keys <= {r}
    && (r in s.passes ==> s.passes[r].skipped == {})
    && (forall k :: 0 <= k < |s.log| ==> s.log[k].skipped == {})
  }

  lemma StepSkipsNothing<M>(s: Relays<M>, a: Action<M>, r: RelayId)
    requires SkipsNothing(s, r) && (!a.Enqueue? ==> RelayOf(a) == r)
    ensures SkipsNothing(Do(s, a), r)
  {
  }

  /** With one relay nothing is ever skipped. */
  lemma {:induction false} OneRelaySkipsNothing<M>(actions: seq<Action<M>>, r: RelayId)
    requires OnlyRelay(actions, r)
    ensures SkipsNothing(Run(Start(), actions), r)
  {
    if actions != [] {
      var before, a := actions[..|actions| - 1], actions[|actions| - 1];
      OneRelaySkipsNothing(before, r);
      StepSkipsNothing(Run(Start(), before), a, r);
    }
  }

  /** With one relay, a row visible when the pass that sent a higher row claimed its batch is on the log
      before that entry, across any crashes, failed sends and redeliveries. */
  lemma OneRelayKeepsOrder<M>(actions: seq<Action<M>>, r: RelayId, k: nat, i: nat)
    requires OnlyRelay(actions, r)
    ensures var log := Run(Start(), actions).log;
            k < |log| && i in log[k].seen && i < log[k].id ==> Before(log, i, k)
  {
    OneRelaySkipsNothing(actions, r);
    RunKeeps(Start(), actions);
  }

  ghost predicate Precedes<M>(log: seq<Entry<M>>, i: nat, j: nat) {
    forall k :: 0 <= k < |log| && log[k].id == j ==> Before(log, i, k)
  }

  ghost predicate NoClaims<M>(actions: seq<Action<M>>) {
    forall k :: 0 <= k < |actions| ==> !actions[k].Claim?
  }

  /** Between claims, whatever is newly sent carries the history of the pass that holds it. */
  ghost predicate SentBy<M>(s: Relays<M>, s': Relays<M>) {
    && s.log <= s'.log
    && (forall q :: q in s'.passes ==> q in s.passes && s'.passes[q].batch == s.passes[q].batch
                                       && s'.passes[q].seen == s.passes[q].seen
                                       && s'.passes[q].skipped == s.passes[q].skipped)
    && (forall k :: |s.log| <= k < |s'.log| ==> Accounted(s, s'.log[k]))
  }

  ghost predicate Accounted<M>(s: Relays<M>, e: Entry<M>) {
    exists q :: Sender(s, q, e)
  }

  ghost predicate Sender<M>(s: Relays<M>, q: RelayId, e: Entry<M>) {
    q in s.passes && e.id in s.passes[q].batch && e.seen == s.passes[q].seen && e.skipped == s.passes[q].skipped
  }

  lemma StepWithoutClaim<M>(s: Relays<M>, a: Action<M>)
    requires !a.Claim?
    ensures SentBy(s, Do(s, a))
  {
    if Do(s, a).log != s.log {
      assert Sender(s, RelayOf(a), EntryOf(s, RelayOf(a)));
    }
  }

  lemma SentByTransitive<M>(s: Relays<M>, s1: Relays<M>, s2: Relays<M>)
    requires SentBy(s, s1) && SentBy(s1, s2)
    ensures SentBy(s, s2)
  {
    forall k | |s.log| <= k < |s2.log| ensures Accounted(s, s2.log[k]) {
      if k < |s1.log| {
        assert s2.log[k] == s1.log[k];
      } else {
        assert Accounted(s1, s2.log[k]);
        var q :| Sender(s1, q, s2.log[k]);
        assert Sender(s, q, s2.log[k]);
      }
    }
  }

  lemma {:induction false} WithoutClaims<M>(s: Relays<M>, actions: seq<Action<M>>)
    requires NoClaims(actions)
    ensures SentBy(s, Run(s, actions))
  {
    if actions != [] {
      var before, a := actions[..|actions| - 1], actions[|actions| - 1];
      WithoutClaims(s, before);
      StepWithoutClaim(Run(s, before), a);
      SentByTransitive(s, Run(s, before), Run(s, actions));
    }
  }

  lemma NewOnLog<M>(log: seq<Entry<M>>, longer: seq<Entry<M>>, k: nat)
    requires log <= longer && k < |longer| && !OnLog(log, longer[k].id)
    ensures k >= |log|
  {
  }

  /** When a claim preserves the order of two visible rows i < j, with j in the claimed batch and not yet
      sent: exactly when i was not skipped over because another relay held it, or was sent already.
      Otherwise the pass can put j on the log first. */
  lemma OrderExactly<M>(s: Relays<M>, r: RelayId, limit: nat, i: nat, j: nat)
    requires Sound(s) && r !in s.passes && i in s.outbox && i < j
    requires j in NewPass(s, limit).batch && !OnLog(s.log, j)
    ensures (forall actions :: NoClaims(actions) ==> Precedes(Run(Do(s, Claim(r, limit)), actions).log, i, j))
            <==> (i !in Skipped(s) || OnLog(s.log, i))
  {
    if i !in Skipped(s) || OnLog(s.log, i) {
      forall actions | NoClaims(actions) ensures Precedes(Run(Do(s, Claim(r, limit)), actions).log, i, j) {
        UnskippedPrecedes(s, r, limit, i, j, actions);
      }
    } else {
      var actions := SkippedMayFollow(s, r, limit, i, j);
      assert NoClaims(actions);
    }
  }

  lemma UnskippedPrecedes<M>(s: Relays<M>, r: RelayId, limit: nat, i: nat, j: nat, actions: seq<Action<M>>)
    requires Sound(s) && r !in s.passes && i in s.outbox && i < j
    requires j in NewPass(s, limit).batch && !OnLog(s.log, j)
    requires i !in Skipped(s) || OnLog(s.log, i)
    requires NoClaims(actions)
    ensures Precedes(Run(Do(s, Claim(r, limit)), actions).log, i, j)
  {
    var s1 := Do(s, Claim(r, limit));
    var s2 := Run(s1, actions);
    StepKeeps(s, Claim(r, limit));
    RunKeeps(s1, actions);
    WithoutClaims(s1, actions);
    forall k | 0 <= k < |s2.log| && s2.log[k].id == j ensures Before(s2.log, i, k) {
      NewOnLog(s.log, s2.log, k);
      if OnLog(s.log, i) {
        var m :| 0 <= m < |s.log| && s.log[m].id == i;
        assert s2.log[m].id == i;
      } else {
        assert Accounted(s1, s2.log[k]);
        var q :| Sender(s1, q, s2.log[k]);
        assert r in s1.passes && j in s1.passes[r].batch;
        assert q == r;
      }
    }
  }

  lemma ClaimedAreUnlocked<M>(s: Relays<M>, limit: nat)
    ensures forall id :: id in NewPass(s, limit).batch ==> id in s.outbox && !IsLocked(s.passes, id)
  {
    assert forall id :: id in NewPass(s, limit).batch ==> id in Unlocked(s);
  }

  lemma SkippedMayFollow<M>(s: Relays<M>, r: RelayId, limit: nat, i: nat, j: nat) returns (actions: seq<Action<M>>)
    requires r !in s.passes && i in Skipped(s) && !OnLog(s.log, i)
    requires j in NewPass(s, limit).batch
    ensures NoClaims(actions) && !Precedes(Run(Do(s, Claim(r, limit)), actions).log, i, j)
  {
    var p := NewPass(s, limit);
    var s1 := s.(passes := s.passes[r := p]);
    var n :| 0 <= n < |p.batch| && p.batch[n] == j;
    actions := Sends(r, n + 1);
    ClaimedAreUnlocked(s, limit);
    assert CanSend(s1, r, n + 1);
    SendsClaimNothing<M>(r, n + 1);
    SendsAdvance(s1, r, n + 1);
    SentWithout(s1, r, n + 1, i);
    FollowsNothing(Sent(s1, r, n + 1).log, i, j, |s.log| + n);
  }

  lemma FollowsNothing<M>(log: seq<Entry<M>>, i: nat, j: nat, k: nat)
    requires k < |log| && log[k].id == j && !OnLog(log, i)
    ensures !Precedes(log, i, j)
  {
    assert !Before(log, i, k);
  }

  lemma SentWithout<M>(s: Relays<M>, r: RelayId, n: nat, i: nat)
    requires CanSend(s, r, n) && i !in s.passes[r].batch && !OnLog(s.log, i)
    ensures !OnLog(Sent(s, r, n).log, i)
  {
    var p, log := s.passes[r], Sent(s, r, n).log;
    forall m | 0 <= m < |log| ensures log[m].id != i {
      if m < |s.log| {
        assert log[m] == s.log[m];
      } else {
        assert log[m].id == p.batch[p.next + m - |s.log|];
      }
    }
  }

  lemma {:induction false} SendsClaimNothing<M>(r: RelayId, n: nat)
    ensures NoClaims(Sends<M>(r, n))
  {
    if n > 0 { SendsClaimNothing<M>(r, n - 1); }
  }

  /** Two relays that have each claimed one of two rows, the lower one by relay 0. */
  function Overlap<M>(topic: Topic, first: M, second: M): Relays<M> {
    Relays(map[1 := Row(topic, first, false), 2 := Row(topic, second, false)], [],
           map[0 := Pass([1], 0, false, false, {1, 2}, {}), 1 := Pass([2], 0, false, false, {1, 2}, {1})])
  }

  function OverlapRun<M>(topic: Topic, first: M, second: M): seq<Action<M>> {
    [Enqueue(1, topic, first), Enqueue(2, topic, second)] + [Claim(0, 1)] + [Claim(1, 1)]
  }

  lemma FirstClaim<M>(s: Relays<M>)
    requires s.passes == map[] && s.outbox.Keys == {1, 2} && forall id :: id in s.outbox ==> !s.outbox[id].published
    ensures Do(s, Claim(0, 1)) == s.(passes := map[0 := Pass([1], 0, false, false, {1, 2}, {})])
  {
    assert Unlocked(s) == {1, 2} && Skipped(s) == {};
    assert Lowest({1, 2}, 1) == [1];
  }

  lemma SecondClaim<M>(s: Relays<M>)
    requires s.passes == map[0 := Pass([1], 0, false, false, {1, 2}, {})]
    requires s.outbox.Keys == {1, 2} && forall id :: id in s.outbox ==> !s.outbox[id].published
    ensures Do(s, Claim(1, 1)) == s.(passes := s.passes[1 := Pass([2], 0, false, false, {1, 2}, {1})])
  {
    assert 1 in s.passes[0].batch;
    assert IsLocked(s.passes, 1) && !IsLocked(s.passes, 2);
    assert Unlocked(s) == {2} && Skipped(s) == {1};
    assert Lowest({2}, 1) == [2];
  }

  lemma OverlapIsReached<M>(topic: Topic, first: M, second: M)
    ensures Run(Start(), OverlapRun(topic, first, second)) == Overlap(topic, first, second)
  {
    var s2 := Relays(map[1 := Row(topic, first, false), 2 := Row(topic, second, false)], [], map[]);
    var rows: seq<Action<M>> := [Enqueue(1, topic, first), Enqueue(2, topic, second)];
    assert rows[..1][..0] == [];
    assert Run(Start(), rows[..1][..0]) == Start<M>();
    assert Run(Start(), rows) == s2;
    FirstClaim(s2);
    SecondClaim(Do(s2, Claim(0, 1)));
    RunAppend(Start(), rows, [Claim(0, 1)]);
    RunAppend(Start(), rows + [Claim(0, 1)], [Claim(1, 1)]);
    RunOne(s2, Claim(0, 1));
    RunOne(Do(s2, Claim(0, 1)), Claim(1, 1));
  }

  function HigherSent<M>(topic: Topic, first: M, second: M): Relays<M> {
    Relays(map[1 := Row(topic, first, false), 2 := Row(topic, second, true)], [Entry(2, topic, second, {1, 2}, {1})],
           map[0 := Pass([1], 0, false, false, {1, 2}, {})])
  }

  lemma HigherIsSent<M>(topic: Topic, first: M, second: M)
    ensures Run(Overlap(topic, first, second), Finish(1, 1)) == HigherSent(topic, first, second)
  {
    var s := Overlap(topic, first, second);
    FinishPublishes(s, 1);
    assert EntriesOf(s.outbox, s.passes[1], 1) == [Entry(2, topic, second, {1, 2}, {1})];
    assert Publish(s.outbox, [2]) == HigherSent(topic, first, second).outbox;
    assert s.passes - {1} == HigherSent(topic, first, second).passes;
  }

  lemma LowerFollows<M>(topic: Topic, first: M, second: M)
    ensures Run(HigherSent(topic, first, second), Finish(0, 1))
            == Relays(map[1 := Row(topic, first, true), 2 := Row(topic, second, true)],
                      [Entry(2, topic, second, {1, 2}, {1}), Entry(1, topic, first, {1, 2}, {})], map[])
  {
    var s := HigherSent(topic, first, second);
    FinishPublishes(s, 0);
    assert EntriesOf(s.outbox, s.passes[0], 1) == [Entry(1, topic, first, {1, 2}, {})];
    assert Publish(s.outbox, [1]) == map[1 := Row(topic, first, true), 2 := Row(topic, second, true)];
    assert s.passes - {0} == map[];
  }

  /** The overlap of a rolling deploy: two relays, no failure, and the higher of two rows that were both
      visible from the start is sent first. */
  lemma TwoRelaysReorder<M>(topic: Topic, first: M, second: M)
    ensures Run(Start(), OverlapRun(topic, first, second) + Finish(1, 1) + Finish(0, 1))
            == Relays(map[1 := Row(topic, first, true), 2 := Row(topic, second, true)],
                      [Entry(2, topic, second, {1, 2}, {1}), Entry(1, topic, first, {1, 2}, {})], map[])
  {
    OverlapIsReached(topic, first, second);
    HigherIsSent(topic, first, second);
    LowerFollows(topic, first, second);
    RunAppend(Start(), OverlapRun(topic, first, second) + Finish(1, 1), Finish(0, 1));
    RunAppend(Start(), OverlapRun(topic, first, second), Finish(1, 1));
  }

  // ---- a row can be sent more than once ----

  function Refused<M>(topic: Topic, m: M): Relays<M> {
    Relays(map[1 := Row(topic, m, false)], [Entry(1, topic, m, {1}, {})], map[])
  }

  function RefusedRun<M>(topic: Topic, m: M): seq<Action<M>> {
    [Enqueue(1, topic, m)] + [Claim(0, 1)] + [Refuse(0, true)] + [Commit(0)]
  }

  lemma OnlyClaim<M>(s: Relays<M>)
    requires s.passes == map[] && s.outbox.Keys == {1} && !s.outbox[1].published
    ensures Do(s, Claim(0, 1)) == s.(passes := map[0 := Pass([1], 0, false, false, {1}, {})])
  {
    assert Unlocked(s) == {1} && Skipped(s) == {};
    assert Lowest({1}, 1) == [1];
  }

  lemma RefusedAndCommitted<M>(s: Relays<M>)
    requires s.passes == map[0 := Pass([1], 0, false, false, {1}, {})] && 1 in s.outbox && s.log == []
    ensures Do(Do(s, Refuse(0, true)), Commit(0))
            == Relays(s.outbox, [Entry(1, s.outbox[1].topic, s.outbox[1].message, {1}, {})], map[])
  {
    var s' := Do(s, Refuse(0, true));
    assert s'.passes == map[0 := Pass([1], 0, false, true, {1}, {})];
    assert Publish(s.outbox, []) == s.outbox;
    assert s'.passes - {0} == map[];
  }

  lemma RefusedIsReached<M>(topic: Topic, m: M)
    ensures Run(Start(), RefusedRun(topic, m)) == Refused(topic, m)
  {
    var s1 := Relays(map[1 := Row(topic, m, false)], [], map[]);
    RunOne(Start<M>(), Enqueue(1, topic, m));
    assert Do(Start<M>(), Enqueue(1, topic, m)) == s1;
    RunOne(s1, Claim(0, 1));
    OnlyClaim(s1);
    var s2 := Do(s1, Claim(0, 1));
    RunOne(s2, Refuse(0, true));
    RunOne(Do(s2, Refuse(0, true)), Commit(0));
    RefusedAndCommitted(s2);
    RunAppend(Start(), [Enqueue(1, topic, m)], [Claim(0, 1)]);
    RunAppend(Start(), [Enqueue(1, topic, m)] + [Claim(0, 1)], [Refuse(0, true)]);
    RunAppend(Start(), [Enqueue(1, topic, m)] + [Claim(0, 1)] + [Refuse(0, true)], [Commit(0)]);
  }

  /** Delivery is at least once and no more: a send that is reported as failed but was appended all the same is
      made again by the next pass, so that one row has two entries on the log. */
  lemma RowIsSentTwice<M>(topic: Topic, m: M)
    ensures Run(Start(), RefusedRun(topic, m) + [Claim(0, 1)] + Finish(0, 1))
            == Relays(map[1 := Row(topic, m, true)], [Entry(1, topic, m, {1}, {}), Entry(1, topic, m, {1}, {})], map[])
  {
    var s := Refused(topic, m);
    RefusedIsReached(topic, m);
    OnlyClaim(s);
    var s' := s.(passes := map[0 := Pass([1], 0, false, false, {1}, {})]);
    RunOne(s, Claim(0, 1));
    FinishPublishes(s', 0);
    assert EntriesOf(s'.outbox, s'.passes[0], 1) == [Entry(1, topic, m, {1}, {})];
    assert Publish(s'.outbox, [1]) == map[1 := Row(topic, m, true)];
    assert s'.passes - {0} == map[];
    RunAppend(Start(), RefusedRun(topic, m), [Claim(0, 1)]);
    RunAppend(Start(), RefusedRun(topic, m) + [Claim(0, 1)], Finish(0, 1));
  }
}
