/** One request through the idempotency middleware, step by step, with every other request in between. */
module IdempotencyMiddleware {
  import opened Placement
  import opened Idempotency

  /** The surroundings of one call: what other requests do before it, and how it ends. A commit that
      fails may have been applied. */
  datatype Tick = Tick(others: seq<Action>, ok: bool, applied: bool)

  /** How the wrapped handler ends. */
  datatype HandlerEnd = Returned(run: HandlerRun) | Panicked

  predicate NotBy(actions: seq<Action>, id: RequestId) {
    forall k :: 0 <= k < |actions| ==> actions[k].id != id
  }

  lemma OneLeavesTheSession(s: Server, a: Action, id: RequestId)
    requires a.id != id
    ensures var s' := Do(s, a);
            (id in s'.sessions <==> id in s.sessions) && (id in s.sessions ==> s'.sessions[id] == s.sessions[id])
            && (id in s'.arrived <==> id in s.arrived)
  {
  }

  lemma {:induction false} OthersLeaveTheSession(s: Server, others: seq<Action>, id: RequestId)
    requires NotBy(others, id)
    ensures var s' := Run(s, others);
            (id in s'.sessions <==> id in s.sessions) && (id in s.sessions ==> s'.sessions[id] == s.sessions[id])
            && (id in s'.arrived <==> id in s.arrived)
  {
    if others != [] {
      OthersLeaveTheSession(s, others[..|others| - 1], id);
      OneLeavesTheSession(Run(s, others[..|others| - 1]), others[|others| - 1], id);
    }
  }

  /** The server after the others have acted before each of n calls, the first of them number `first`. */
  ghost function After(w: Server, env: nat -> Tick, first: nat, n: nat): Server {
    if n == 0 then w else Run(After(w, env, first, n - 1), env(first + n - 1).others)
  }

  class Middleware {
    const me: RequestId
    const request: Request
    const env: nat -> Tick
    /** The call by which the request's context has ended, at the latest. */
    ghost const ends: nat
    var now: nat
    var world: Server
    ghost var start: Server
    /** Everything that has happened since `start`. */
    ghost var trace: seq<Action>

    constructor (me: RequestId, request: Request, env: nat -> Tick, ghost ends: nat, world: Server)
      requires Sound(world) && me !in world.sessions && me !in world.arrived && forall k :: NotBy(env(k).others, me)
      requires forall k: nat :: k >= ends ==> !env(k).ok
      ensures Valid() && ContextEnds() && me !in this.world.sessions && me !in this.world.arrived
      ensures this.me == me && this.request == request && this.env == env && this.world == world && start == world
    {
      this.me, this.request, this.env, this.ends, this.world := me, request, env, ends, world;
      now, start, trace := 0, world, [];
    }

    /** The request's context ends at some time, and every call fails from then on. */
    ghost predicate ContextEnds() {
      forall k: nat :: k >= ends ==> !env(k).ok
    }

    ghost predicate Valid()
      reads this
    {
      Sound(world) && world == Run(start, trace) && forall k :: NotBy(env(k).others, me)
    }

    /** In the middle of the request. */
    ghost predicate At(x: Session)
      reads this
    {
      Valid() && me in world.sessions && world.sessions[me] == x && x.request == request
    }

    /** After the request: it is answered, and its transaction is over. */
    ghost predicate Answered(kind: Kind, response: Response)
      reads this
    {
      && Valid() && me !in world.sessions
      && Answer(me, request, kind, response) in world.answers
         && AnswerSound(world.rows, Answer(me, request, kind, response))
    }

    method Step(a: Action)
      requires Valid()
      modifies this`world, this`trace
      ensures Valid() && world == Do(old(world), a)
    {
      StepKeeps(world, a);
      RunAppend(start, trace, [a]);
      assert [a][..0] == [];
      assert Run(world, [a][..0]) == world;
      world := Do(world, a);
      trace := trace + [a];
    }

    method Wait() returns (ok: bool, applied: bool)
      requires Valid()
      modifies this`world, this`trace, this`now
      ensures Valid() && (me in world.sessions <==> me in old(world).sessions)
      ensures me in world.sessions ==> world.sessions[me] == old(world).sessions[me]
      ensures me in world.arrived <==> me in old(world).arrived
      ensures now == old(now) + 1 && ok == env(old(now)).ok
      ensures world == Run(old(world), env(old(now)).others)
    {
      var tick := env(now);
      now := now + 1;
      RunKeeps(world, tick.others);
      RunAppend(start, trace, tick.others);
      OthersLeaveTheSession(world, tick.others, me);
      world := Run(world, tick.others);
      trace := trace + tick.others;
      return tick.ok, tick.applied;
    }

    /** A step that ended the request with an answer. */
    lemma EndedBy(kind: Kind, response: Response)
      requires Valid() && me !in world.sessions && world.answers != []
      requires world.answers[|world.answers| - 1] == Answer(me, request, kind, response)
      ensures Answered(kind, response)
    {
      assert AnswerSound(world.rows, world.answers[|world.answers| - 1]);
    }

    /** The server after the call numbered `at`, which opens the request's transaction. */
    ghost function Opened(w: Server, at: nat, readable: bool): Server {
      Do(Run(w, env(at).others), Arrive(me, request, readable, true))
    }

    /** Reads the request and opens its transaction. */
    method Open(readable: bool) returns (started: bool, response: Response)
      requires Valid() && me !in world.sessions && me !in world.arrived
      modifies this`world, this`trace, this`now
      ensures if started then At(Begun(request)) && request.key != "" && readable else Answered(Failed, response)
      ensures started <==> request.key != "" && readable && !LastCallFailed()
      ensures now == old(now) + 1 && (started ==> world == Opened(old(world), old(now), readable))
      ensures request.key == "" ==> response == KEY_REQUIRED
      ensures request.key != "" && !readable ==> response == MALFORMED
      ensures !started && request.key != "" && readable ==> response == INTERNAL && LastCallFailed()
    {
      var begins, _ := Wait();
      Step(Arrive(me, request, readable, begins));
      started := request.key != "" && readable && begins;
      response := if request.key == "" then KEY_REQUIRED else if !readable then MALFORMED else INTERNAL;
      if !started {
        EndedBy(Failed, response);
      }
    }

    ghost predicate LastCallFailed()
      reads this`now
    {
      now > 0 && !env(now - 1).ok
    }

    /** The request has made n calls since the one numbered `first`, and done nothing else. */
    ghost predicate Asked(w: Server, first: nat, n: nat)
      reads this
    {
      now == first + n && world == After(w, env, first, n)
    }

    /** Looks once whether the insert still waits for another transaction. */
    method StillWaiting(ghost w: Server, ghost first: nat, ghost n: nat) returns (ok: bool, waiting: bool)
      requires At(Begun(request)) && ContextEnds() && Asked(w, first, n)
      modifies this`world, this`trace, this`now
      ensures At(Begun(request)) && Asked(w, first, n + 1)
      ensures if ok then old(now) < ends else LastCallFailed()
      ensures waiting <==> Blocked(world, me)
    {
      var applied;
      ok, applied := Wait();
      waiting := Blocked(world, me);
    }

    /** After each of the n calls another transaction held the key. */
    ghost predicate WaitedOnly(w: Server, first: nat, n: nat) {
      forall k: nat :: 0 < k <= n ==> Blocked(After(w, env, first, k), me)
    }

    lemma OneMoreWait(w: Server, first: nat, n: nat)
      requires n > 0 && WaitedOnly(w, first, n - 1) && Blocked(After(w, env, first, n), me)
      ensures WaitedOnly(w, first, n)
    {
    }

    /** Waits while another transaction holds the key and the context lasts. */
    method AwaitKey() returns (ok: bool)
      requires At(Begun(request)) && ContextEnds()
      modifies this`world, this`trace, this`now
      ensures At(Begun(request)) && now > old(now)
      ensures if ok then !Blocked(world, me) else LastCallFailed()
      ensures WaitedOnly(old(world), old(now), now - old(now) - 1)
    {
      var waiting;
      ghost var asked: nat := 1;
      ok, waiting := StillWaiting(world, now, 0);
      while ok && waiting
        invariant At(Begun(request)) && Asked(old(world), old(now), asked) && asked > 0
        invariant if ok then waiting <==> Blocked(world, me) else LastCallFailed()
        invariant WaitedOnly(old(world), old(now), asked - 1)
        decreases if now < ends then ends - now else 0, ok
      {
        OneMoreWait(old(world), old(now), asked);
        ok, waiting := StillWaiting(old(world), old(now), asked);
        asked := asked + 1;
      }
    }

    /** Inserts the key's row, waiting as long as another transaction holds the key and the context lasts. */
    method InsertKey() returns (ok: bool, inserted: bool, ghost waited: nat)
      requires At(Begun(request)) && ContextEnds()
      modifies this`world, this`trace, this`now
      ensures !ok ==> Answered(Failed, INTERNAL) && LastCallFailed()
      ensures ok && inserted ==> At(Inserted(request, Row(request.route, request.body, None)))
      ensures ok && !inserted ==> At(Found(request))
      ensures now == old(now) + 1 + waited && WaitedOnly(old(world), old(now), waited)
    {
      ok := AwaitKey();
      waited := now - old(now) - 1;
      inserted := request.key !in world.rows;
      Step(Insert(me, ok));
      if !ok {
        EndedBy(Failed, INTERNAL);
      }
    }

    /** Answers a request whose key is taken, from the stored row. */
    method ReplayCachedResponse() returns (kind: Kind, response: Response)
      requires At(Found(request))
      modifies this`world, this`trace, this`now
      ensures Answered(kind, response) && (kind == Failed ==> response == INTERNAL && LastCallFailed())
      ensures now == old(now) + 1
      ensures kind == Accepted ==>
        world.rows[request.key].body == request.body && world.rows[request.key].outcome == Some(response)
      ensures kind == Reused ==>
        request.key in world.rows && world.rows[request.key].body != request.body && response.status == 422
    {
      var ok, applied := Wait();
      kind, response := Failed, INTERNAL;
      if ok && request.key in world.rows {
        var row := world.rows[request.key];
        if row.body != request.body {
          kind, response := Reused, KEY_REUSED;
        } else if row.outcome.Some? {
          kind, response := Accepted, row.outcome.value;
        }
      }
      assert (kind, response) == ReadAnswer(world.rows, request, ok);
      Step(Read(me, ok));
      EndedBy(kind, response);
    }

    /** Records the handler's outcome on the row and commits it together with the handler's writes. */
    method Persist(row: Row, run: HandlerRun) returns (kind: Kind, response: Response)
      requires At(Ran(request, row, run))
      modifies this`world, this`trace, this`now
      ensures Answered(kind, response) && kind != Reused && (kind == Failed ==> response == INTERNAL)
      ensures kind == Failed ==> run.aborted || LastCallFailed()
      ensures now <= old(now) + 2
      ensures kind == Accepted ==> response == run.response && !run.aborted
                                   && Effect(me, request, response, run.writes, true) in world.effects
    {
      var ok, applied := Wait();
      Step(Update(me, ok));
      if run.aborted || !ok {
        EndedBy(Failed, INTERNAL);
        return Failed, INTERNAL;
      }
      kind, response := CommitUpdated(row.(outcome := Some(run.response)), run);
    }

    method CommitUpdated(row: Row, run: HandlerRun) returns (kind: Kind, response: Response)
      requires At(Updated(request, row, run)) && !run.aborted
      modifies this`world, this`trace, this`now
      ensures Answered(kind, response) && kind != Reused && (kind == Failed ==> response == INTERNAL)
      ensures kind == Failed ==> LastCallFailed()
      ensures now == old(now) + 1
      ensures kind == Accepted ==>
        response == run.response && Effect(me, request, response, run.writes, true) in world.effects
    {
      var ok, applied := Wait();
      Step(Commit(me, applied, ok));
      kind, response := if ok then Accepted else Failed, if ok then run.response else INTERNAL;
      EndedBy(kind, response);
      assert ok ==> world.effects[|world.effects| - 1] == Effect(me, request, run.response, run.writes, true);
    }

    /** Runs the handler inside the transaction that holds the key; a panic rolls everything back. */
    method RunFreshRequest(row: Row, handler: HandlerEnd) returns (kind: Kind, response: Response)
      requires At(Inserted(request, row))
      modifies this`world, this`trace, this`now
      ensures Answered(kind, response) && kind != Reused && (kind == Failed ==> response == INTERNAL)
      ensures kind == Failed ==> handler.Panicked? || handler.run.aborted || LastCallFailed()
      ensures now <= old(now) + 3
      ensures kind == Accepted ==> handler.Returned? && response == handler.run.response && !handler.run.aborted
                                   && Effect(me, request, response, handler.run.writes, true) in world.effects
    {
      var _, _ := Wait();
      match handler
      case Panicked =>
        Step(Panic(me));
        EndedBy(Failed, INTERNAL);
        return Failed, INTERNAL;
      case Returned(run) =>
        Step(Handle(me, run));
        kind, response := Persist(row, run);
    }

    /** The whole request. Whatever happens in between, the answer agrees with what is stored, and the
        handler's writes are committed before its response is given. A keyed, readable request fails only by
        a failed call, a panic or an aborted handler; `ran` says whether it was this request that took the
        key and ran its handler. It makes at most five calls, but for those `waited` ones that found the key
        held by another transaction. */
    method Serve(readable: bool, handler: HandlerEnd)
      returns (kind: Kind, response: Response, ghost ran: bool, ghost waited: nat)
      requires Valid() && ContextEnds() && me !in world.sessions && me !in world.arrived
      modifies this`world, this`trace, this`now
      ensures Answered(kind, response)
      ensures request.key == "" || !readable ==> kind == Failed && response.status == 400
      ensures request.key != "" && readable && kind == Failed ==>
        response.status == 500 && (handler.Panicked? || handler.run.aborted || LastCallFailed())
      ensures kind == Accepted && ran ==>
        && handler.Returned? && response == handler.run.response
        && Effect(me, request, response, handler.run.writes, true) in world.effects
      ensures kind == Accepted && !ran ==>
        world.rows[request.key].body == request.body && world.rows[request.key].outcome == Some(response)
      ensures kind == Reused ==>
        !ran && world.rows[request.key].body != request.body && response.status == 422
      ensures kind != Failed ==> request.key in world.rows
      ensures now <= old(now) + 5 + waited
      ensures waited > 0 ==> WaitedOnly(Opened(old(world), old(now), readable), old(now) + 1, waited)
    {
      var started;
      ran, waited := false, 0;
      started, response := Open(readable);
      if !started {
        kind := Failed;
        return;
      }
      var ok, inserted;
      ok, inserted, waited := InsertKey();
      if !ok {
        return Failed, INTERNAL, false, waited;
      }
      ran := inserted;
      if inserted {
        kind, response := RunFreshRequest(Row(request.route, request.body, None), handler);
      } else {
        kind, response := ReplayCachedResponse();
      }
    }
  }
}
