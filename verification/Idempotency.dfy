/** The Idempotency-Key protocol: concurrent requests, each in its own transaction, serialised per key by
    the unique index. The first request of a key runs the handler inside its transaction and commits the
    response with the handler's writes; every later one replays it or is refused. */
module Idempotency {
  import opened Placement

  type Key = string
  type RequestId = nat

  datatype Response = Response(status: int, headers: string, body: string)

  /** A request to a protected route. The body stands for its hash. */
  datatype Request = Request(key: Key, route: string, body: string)

  /** A row of idempotency_keys; the outcome columns are NULL until the row is updated. */
  datatype Row = Row(route: string, body: string, outcome: Option<Response>)

  /** What one run of the handler does inside the transaction: its response, its writes, and whether one
      of its statements failed, which aborts the transaction whatever the handler answers. */
  datatype HandlerRun = HandlerRun(response: Response, writes: seq<string>, aborted: bool)

  /** How far a request has got. From the insert to the commit its transaction holds the key. */
  datatype Session =
    | Begun(request: Request)
    | Inserted(request: Request, row: Row)
    | Ran(request: Request, row: Row, run: HandlerRun)
    | Updated(request: Request, row: Row, run: HandlerRun)
    | Found(request: Request)

  datatype Kind = Accepted | Reused | Failed

  datatype Answer = Answer(id: RequestId, request: Request, kind: Kind, response: Response)

  /** The committed writes of one handler run, and whether the commit that stored them reported success. */
  datatype Effect = Effect(id: RequestId, request: Request, response: Response, writes: seq<string>, told: bool)

  /** `arrived` are the requests that have come in so far; each comes once. */
  datatype Server = Server(rows: map<Key, Row>, effects: seq<Effect>, sessions: map<RequestId, Session>,
                           answers: seq<Answer>, arrived: set<RequestId>)

  const KEY_REQUIRED := Response(400, "", "idempotency-key-required")
  const MALFORMED := Response(400, "", "malformed-request-body")
  const KEY_REUSED := Response(422, "", "idempotency-key-reused")
  const INTERNAL := Response(500, "", "internal-error")

  datatype Action =
    | Arrive(id: RequestId, request: Request, readable: bool, begins: bool)
    | Insert(id: RequestId, ok: bool)
    | Handle(id: RequestId, run: HandlerRun)
    | Panic(id: RequestId)
    | Update(id: RequestId, ok: bool)
    | Commit(id: RequestId, applied: bool, ok: bool)
    | Read(id: RequestId, ok: bool)
    | Crash(id: RequestId)

  function Start(): Server {
    Server(map[], [], map[], [], {})
  }

  // ---- steps ----

  /** The transaction has inserted the key's row and not yet ended. */
  predicate Holds(x: Session) {
    x.Inserted? || x.Ran? || x.Updated?
  }

  /** Another transaction holds the key: an insert of the same key waits for it to end. */
  predicate Blocked(s: Server, id: RequestId) {
    && id in s.sessions
    && exists other :: other in s.sessions && other != id && Holds(s.sessions[other])
                       && s.sessions[other].request.key == s.sessions[id].request.key
  }

  /** Ends a request with an answer; its transaction is rolled back unless it committed. */
  function Finish(s: Server, id: RequestId, kind: Kind, response: Response): Server
    requires id in s.sessions
  {
    s.(sessions := s.sessions - {id}, answers := s.answers + [Answer(id, s.sessions[id].request, kind, response)])
  }

  /** What a later request of a committed key is answered: its body decides, not its route. */
  function Replayed(row: Row, request: Request): (Kind, Response) {
    if row.body != request.body then (Reused, KEY_REUSED)
    else match row.outcome
      case Some(response) => (Accepted, response)
      case None => (Failed, INTERNAL)
  }

  /** Turned away before any transaction is open. */
  function TurnAway(s: Server, id: RequestId, request: Request, response: Response): Server {
    s.(answers := s.answers + [Answer(id, request, Failed, response)], arrived := s.arrived + {id})
  }

  function DoArrive(s: Server, id: RequestId, request: Request, readable: bool, begins: bool): Server {
    if id in s.arrived then s
    else if request.key == "" then TurnAway(s, id, request, KEY_REQUIRED)
    else if !readable then TurnAway(s, id, request, MALFORMED)
    else if !begins then TurnAway(s, id, request, INTERNAL)
    else s.(sessions := s.sessions[id := Begun(request)], arrived := s.arrived + {id})
  }

  function DoInsert(s: Server, id: RequestId, ok: bool): Server {
    if id !in s.sessions || !s.sessions[id].Begun? then s
    else if !ok then Finish(s, id, Failed, INTERNAL)
    else if Blocked(s, id) then s
    else
      var request := s.sessions[id].request;
      if request.key in s.rows then s.(sessions := s.sessions[id := Found(request)])
      else s.(sessions := s.sessions[id := Inserted(request, Row(request.route, request.body, None))])
  }

  function DoUpdate(s: Server, id: RequestId, ok: bool): Server {
    if id !in s.sessions || !s.sessions[id].Ran? then s
    else
      var x := s.sessions[id];
      if x.run.aborted || !ok then Finish(s, id, Failed, INTERNAL)
      else s.(sessions := s.sessions[id := Updated(x.request, x.row.(outcome := Some(x.run.response)), x.run)])
  }

  function DoCommit(s: Server, id: RequestId, applied: bool, ok: bool): Server {
    if id !in s.sessions || !s.sessions[id].Updated? then s
    else
      var x := s.sessions[id];
      var s' := if applied || ok
                then s.(rows := s.rows[x.request.key := x.row],
                        effects := s.effects + [Effect(id, x.request, x.run.response, x.run.writes, ok)])
                else s;
      if ok then Finish(s', id, Accepted, x.run.response) else Finish(s', id, Failed, INTERNAL)
  }

  function ReadAnswer(rows: map<Key, Row>, request: Request, ok: bool): (Kind, Response) {
    if !ok || request.key !in rows then (Failed, INTERNAL) else Replayed(rows[request.key], request)
  }

  function DoRead(s: Server, id: RequestId, ok: bool): Server {
    if id !in s.sessions || !s.sessions[id].Found? then s
    else
      var (kind, response) := ReadAnswer(s.rows, s.sessions[id].request, ok);
      Finish(s, id, kind, response)
  }

  function Do(s: Server, a: Action): Server {
    match a
    case Arrive(id, request, readable, begins) => DoArrive(s, id, request, readable, begins)
    case Insert(id, ok) => DoInsert(s, id, ok)
    case Handle(id, run) =>
      if id in s.sessions && s.sessions[id].Inserted?
      then s.(sessions := s.sessions[id := Ran(s.sessions[id].request, s.sessions[id].row, run)]) else s
    case Panic(id) =>
      if id in s.sessions && s.sessions[id].Inserted? then Finish(s, id, Failed, INTERNAL) else s
    case Update(id, ok) => DoUpdate(s, id, ok)
    case Commit(id, applied, ok) => DoCommit(s, id, applied, ok)
    case Read(id, ok) => DoRead(s, id, ok)
    case Crash(id) => s.(sessions := s.sessions - {id})
  }

  function Run(s: Server, actions: seq<Action>): Server {
    if actions == [] then s else Do(Run(s, actions[..|actions| - 1]), actions[|actions| - 1])
  }

  // ---- what every run keeps ----

  /** A committed row belongs to a committed handler run and holds that run's body and response. */
  ghost predicate RowsHaveOutcomes(rows: map<Key, Row>, effects: seq<Effect>) {
    forall key :: key in rows ==> rows[key].outcome.Some? && HasEffect(effects, key, rows[key])
  }

  ghost predicate HasEffect(effects: seq<Effect>, key: Key, row: Row) {
    exists k :: 0 <= k < |effects| && effects[k].request == Request(key, row.route, row.body)
      && row.outcome == Some(effects[k].response)
  }

  /** Every committed handler run left its key's row, and no key has two. */
  ghost predicate OneEffectPerKey(rows: map<Key, Row>, effects: seq<Effect>) {
    && (forall k :: 0 <= k < |effects| ==> effects[k].request.key in rows)
    && (forall j, k :: 0 <= j < k < |effects| ==> effects[j].request.key != effects[k].request.key)
  }

  predicate SessionSound(rows: map<Key, Row>, x: Session) {
    match x
    case Begun(_) => true
    case Inserted(request, row) => request.key !in rows && row == Row(request.route, request.body, None)
    case Ran(request, row, _) => request.key !in rows && row == Row(request.route, request.body, None)
    case Updated(request, row, run) =>
      request.key !in rows && !run.aborted && row == Row(request.route, request.body, Some(run.response))
    case Found(request) => request.key in rows
  }

  predicate SessionsSound(rows: map<Key, Row>, sessions: map<RequestId, Session>) {
    forall id :: id in sessions ==> SessionSound(rows, sessions[id])
  }

  predicate SameKeyHeld(x: Session, y: Session) {
    Holds(x) && Holds(y) && x.request.key == y.request.key
  }

  /** At most one open transaction holds a key. */
  predicate OneHolder(sessions: map<RequestId, Session>) {
    forall i, j :: i in sessions && j in sessions && SameKeyHeld(sessions[i], sessions[j]) ==> i == j
  }

  /** An accepted answer is the stored response of the same key and body; a refusal is for another body. */
  predicate AnswerSound(rows: map<Key, Row>, a: Answer) {
    match a.kind
    case Accepted => a.request.key in rows && rows[a.request.key].body == a.request.body
      && rows[a.request.key].outcome == Some(a.response)
    case Reused => a.request.key in rows && rows[a.request.key].body != a.request.body && a.response == KEY_REUSED
    case Failed => a.response in {KEY_REQUIRED, MALFORMED, INTERNAL}
  }

  predicate AnswersSound(rows: map<Key, Row>, answers: seq<Answer>) {
    forall k :: 0 <= k < |answers| ==> AnswerSound(rows, answers[k])
  }

  ghost predicate Sound(s: Server) {
    && RowsHaveOutcomes(s.rows, s.effects)
    && OneEffectPerKey(s.rows, s.effects)
    && SessionsSound(s.rows, s.sessions)
    && OneHolder(s.sessions)
    && AnswersSound(s.rows, s.answers)
  }

  lemma FinishKeeps(s: Server, id: RequestId, kind: Kind, response: Response)
    requires Sound(s) && id in s.sessions && AnswerSound(s.rows, Answer(id, s.sessions[id].request, kind, response))
    ensures Sound(Finish(s, id, kind, response))
  {
  }

  lemma ArriveKeeps(s: Server, id: RequestId, request: Request, readable: bool, begins: bool)
    requires Sound(s)
    ensures Sound(DoArrive(s, id, request, readable, begins))
  {
  }

  lemma InsertKeeps(s: Server, id: RequestId, ok: bool)
    requires Sound(s)
    ensures Sound(DoInsert(s, id, ok))
  {
    if id in s.sessions && s.sessions[id].Begun? && !ok {
      FinishKeeps(s, id, Failed, INTERNAL);
    }
  }

  lemma HandleKeeps(s: Server, id: RequestId, run: HandlerRun)
    requires Sound(s)
    ensures Sound(Do(s, Handle(id, run))) && Sound(Do(s, Panic(id)))
  {
    if id in s.sessions && s.sessions[id].Inserted? {
      assert SessionSound(s.rows, s.sessions[id]);
      FinishKeeps(s, id, Failed, INTERNAL);
    }
  }

  lemma UpdateKeeps(s: Server, id: RequestId, ok: bool)
    requires Sound(s)
    ensures Sound(DoUpdate(s, id, ok))
  {
    if id in s.sessions && s.sessions[id].Ran? {
      assert SessionSound(s.rows, s.sessions[id]);
      if s.sessions[id].run.aborted || !ok { FinishKeeps(s, id, Failed, INTERNAL); }
    }
  }

  /** A commit adds one row with its outcome and one effect; nobody else held that key. */
  lemma AppliedKeeps(s: Server, id: RequestId, told: bool)
    requires Sound(s) && id in s.sessions && s.sessions[id].Updated?
    ensures var x := s.sessions[id];
            Sound(Server(s.rows[x.request.key := x.row],
                         s.effects + [Effect(id, x.request, x.run.response, x.run.writes, told)],
                         s.sessions - {id}, s.answers, s.arrived))
  {
    var x := s.sessions[id];
    var key, e := x.request.key, Effect(id, x.request, x.run.response, x.run.writes, told);
    var rows, effects := s.rows[key := x.row], s.effects + [e];
    assert SessionSound(s.rows, x);
    forall k | k in rows ensures rows[k].outcome.Some? && HasEffect(effects, k, rows[k]) {
      if k == key {
        assert effects[|s.effects|] == e;
      } else {
        assert HasEffect(s.effects, k, s.rows[k]);
        var m :| 0 <= m < |s.effects| && s.effects[m].request == Request(k, s.rows[k].route, s.rows[k].body)
            && s.rows[k].outcome == Some(s.effects[m].response);
        assert effects[m] == s.effects[m];
      }
    }
    forall i | i in s.sessions - {id} ensures SessionSound(rows, s.sessions[i]) {
      assert SessionSound(s.rows, s.sessions[i]);
    }
    forall k | 0 <= k < |s.answers| ensures AnswerSound(rows, s.answers[k]) {
      assert AnswerSound(s.rows, s.answers[k]);
    }
  }

  lemma CommitKeeps(s: Server, id: RequestId, applied: bool, ok: bool)
    requires Sound(s)
    ensures Sound(DoCommit(s, id, applied, ok))
  {
    if id in s.sessions && s.sessions[id].Updated? {
      if applied || ok {
        AppliedKeeps(s, id, ok);
      }
    }
  }

  lemma ReadKeeps(s: Server, id: RequestId, ok: bool)
    requires Sound(s)
    ensures Sound(DoRead(s, id, ok))
  {
    if id in s.sessions && s.sessions[id].Found? {
      assert SessionSound(s.rows, s.sessions[id]);
      var (kind, response) := ReadAnswer(s.rows, s.sessions[id].request, ok);
      FinishKeeps(s, id, kind, response);
    }
  }

  lemma StepKeeps(s: Server, a: Action)
    requires Sound(s)
    ensures Sound(Do(s, a))
  {
    match a {
      case Arrive(id, request, readable, begins) => ArriveKeeps(s, id, request, readable, begins);
      case Insert(id, ok) => InsertKeeps(s, id, ok);
      case Handle(id, run) => HandleKeeps(s, id, run);
      case Panic(id) => HandleKeeps(s, id, HandlerRun(INTERNAL, [], false));
      case Update(id, ok) => UpdateKeeps(s, id, ok);
      case Commit(id, applied, ok) => CommitKeeps(s, id, applied, ok);
      case Read(id, ok) => ReadKeeps(s, id, ok);
      case Crash(id) =>
    }
  }

  lemma StepAppends(s: Server, a: Action)
    ensures s.effects <= Do(s, a).effects && s.answers <= Do(s, a).answers
  {
  }

  /** Every run keeps rows, effects, sessions and answers sound, and takes nothing back. */
  lemma {:induction false} RunKeeps(s: Server, actions: seq<Action>)
    requires Sound(s)
    ensures Sound(Run(s, actions)) && s.effects <= Run(s, actions).effects && s.answers <= Run(s, actions).answers
  {
    if actions != [] {
      RunKeeps(s, actions[..|actions| - 1]);
      StepAppends(Run(s, actions[..|actions| - 1]), actions[|actions| - 1]);
      StepKeeps(Run(s, actions[..|actions| - 1]), actions[|actions| - 1]);
    }
  }

  lemma {:induction false} RunAppend(s: Server, a: seq<Action>, b: seq<Action>)
    ensures Run(s, a + b) == Run(Run(s, a), b)
  {
    if b == [] {
      assert a + b == a;
    } else {
      assert (a + b)[..|a + b| - 1] == a + b[..|b| - 1];
      RunAppend(s, a, b[..|b| - 1]);
    }
  }

  // ---- the guarantees ----

  /** Under any interleaving, at most one handler run per key ever commits its writes, and every
      committed row has its outcome. */
  lemma EffectsCommitAtMostOnce(actions: seq<Action>, j: nat, k: nat)
    ensures var s := Run(Start(), actions);
            && (j < k < |s.effects| ==> s.effects[j].request.key != s.effects[k].request.key)
            && (forall key :: key in s.rows ==> s.rows[key].outcome.Some?)
            && (forall m :: 0 <= m < |s.effects| ==> var e := s.effects[m];
                  e.request.key in s.rows && s.rows[e.request.key]
                    == Row(e.request.route, e.request.body, Some(e.response)))
  {
    var s := Run(Start(), actions);
    RunKeeps(Start(), actions);
    forall m | 0 <= m < |s.effects|
      ensures var e := s.effects[m];
        e.request.key in s.rows && s.rows[e.request.key] == Row(e.request.route, e.request.body, Some(e.response))
    {
      EffectIsItsRow(s, m);
    }
  }

  lemma EffectIsItsRow(s: Server, m: nat)
    requires Sound(s) && m < |s.effects|
    ensures var e := s.effects[m];
            e.request.key in s.rows && s.rows[e.request.key] == Row(e.request.route, e.request.body, Some(e.response))
  {
    var key := s.effects[m].request.key;
    assert HasEffect(s.effects, key, s.rows[key]);
    var k :| 0 <= k < |s.effects| && s.effects[k].request == Request(key, s.rows[key].route, s.rows[key].body)
             && s.rows[key].outcome == Some(s.effects[k].response);
    assert k == m;
  }

  /** Two accepted answers for one key have the same body and the same response, whatever routes they
      were sent to: the route is not compared. */
  lemma AcceptedAnswersAgree(actions: seq<Action>, j: nat, k: nat)
    ensures var answers := Run(Start(), actions).answers;
            j < |answers| && k < |answers| && answers[j].kind == Accepted && answers[k].kind == Accepted
            && answers[j].request.key == answers[k].request.key
            ==> answers[j].request.body == answers[k].request.body && answers[j].response == answers[k].response
  {
    var s := Run(Start(), actions);
    RunKeeps(Start(), actions);
    if j < |s.answers| && k < |s.answers| {
      assert AnswerSound(s.rows, s.answers[j]) && AnswerSound(s.rows, s.answers[k]);
    }
  }

  /** Only a commit that is applied changes what is stored: a panic, a failed statement, an aborted
      transaction, a refusal or a crash leaves no trace. */
  lemma OnlyAppliedCommitsStore(s: Server, a: Action)
    ensures (Do(s, a).rows, Do(s, a).effects) != (s.rows, s.effects)
            <==> a.Commit? && (a.applied || a.ok) && a.id in s.sessions && s.sessions[a.id].Updated?
  {
    if a.Commit? && (a.applied || a.ok) && a.id in s.sessions && s.sessions[a.id].Updated? {
      assert |Do(s, a).effects| == |s.effects| + 1;
    }
  }

  /** A stored outcome is final: no later step changes the row or commits anything more for its key. */
  lemma {:induction false} OutcomesAreFinal(s: Server, actions: seq<Action>, key: Key)
    requires Sound(s) && key in s.rows
    ensures var s' := Run(s, actions);
            && key in s'.rows && s'.rows[key] == s.rows[key]
            && s.effects <= s'.effects
            && (forall k :: |s.effects| <= k < |s'.effects| ==> s'.effects[k].request.key != key)
  {
    if actions != [] {
      var before, a := actions[..|actions| - 1], actions[|actions| - 1];
      OutcomesAreFinal(s, before, key);
      RunKeeps(s, before);
      var s1 := Run(s, before);
      OnlyAppliedCommitsStore(s1, a);
      if a.Commit? && a.id in s1.sessions {
        assert SessionSound(s1.rows, s1.sessions[a.id]);
      }
    }
  }

  /** Once a key's response is stored, every answer ever given for the key is that response to the same
      body, or a refusal of another body, or a failure that stored nothing. */
  lemma LaterAnswersReplay(before: seq<Action>, later: seq<Action>, key: Key, k: nat)
    requires key in Run(Start(), before).rows
    ensures var row := Run(Start(), before).rows[key];
            var answers := Run(Run(Start(), before), later).answers;
            k < |answers| && answers[k].request.key == key ==>
              match answers[k].kind
              case Accepted => answers[k].request.body == row.body && Some(answers[k].response) == row.outcome
              case Reused => answers[k].request.body != row.body && answers[k].response.status == 422
              case Failed => answers[k].response.status in {400, 500}
  {
    var s := Run(Start(), before);
    var s' := Run(s, later);
    RunKeeps(Start(), before);
    RunKeeps(s, later);
    OutcomesAreFinal(s, later, key);
    if k < |s'.answers| && s'.answers[k].request.key == key {
      assert AnswerSound(s'.rows, s'.answers[k]);
    }
  }

  /** A retry of a stored key never waits and, when nothing fails, is answered from the row at once: the
      stored response for the same body on any route, 422 for another body; nothing is stored. */
  lemma RetryIsAnswered(s: Server, id: RequestId, request: Request)
    requires Sound(s) && Accounted(s) && request.key in s.rows && request.key != "" && id !in s.arrived
    ensures var s' := Run(s, [Arrive(id, request, true, true), Insert(id, true), Read(id, true)]);
            var row := s.rows[request.key];
            && s'.rows == s.rows && s'.effects == s.effects
            && s'.answers == s.answers + [
               if row.body == request.body then Answer(id, request, Accepted, row.outcome.value)
               else Answer(id, request, Reused, KEY_REUSED)]
  {
    var actions := [Arrive(id, request, true, true), Insert(id, true), Read(id, true)];
    var s1 := Do(s, actions[0]);
    ArriveKeeps(s, id, request, true, true);
    assert !Blocked(s1, id) by {
      forall other | other in s1.sessions && other != id && Holds(s1.sessions[other])
          ensures s1.sessions[other].request.key != request.key {
        assert SessionSound(s1.rows, s1.sessions[other]);
      }
    }
    var s2 := Do(s1, actions[1]);
    assert s2.sessions[id] == Found(request);
    assert actions[..2][..1] == actions[..1] && actions[..1][..0] == [] && actions[..3] == actions;
    assert Run(s, actions[..1][..0]) == s;
    assert Run(s, actions[..1]) == s1;
    assert Run(s, actions[..2]) == s2;
    assert actions[..3][..2] == actions[..2];
  }

  /** A request waits for one transaction only: whatever ends it, by commit or by rollback, the waiting
      insert then goes through, finding the key's row if it was committed and taking the key if not. */
  lemma WaitersProceed(s: Server, id: RequestId, holder: RequestId, a: Action)
    requires Sound(s) && id in s.sessions && s.sessions[id].Begun? && holder in s.sessions && holder != id
    requires Holds(s.sessions[holder]) && s.sessions[holder].request.key == s.sessions[id].request.key
    requires a.id == holder && holder !in Do(s, a).sessions
    ensures Do(s, Insert(id, true)) == s
    ensures var request, s' := s.sessions[id].request, Do(s, a);
            var s'' := Do(s', Insert(id, true));
            id in s''.sessions
            && s''.sessions[id] == if request.key in s'.rows then Found(request)
                                   else Inserted(request, Row(request.route, request.body, None))
  {
    assert Blocked(s, id);
    var s' := Do(s, a);
    assert id in s'.sessions && s'.sessions[id] == s.sessions[id];
    forall other | other in s'.sessions && other != id && Holds(s'.sessions[other])
      ensures s'.sessions[other].request.key != s.sessions[id].request.key
    {
      assert other in s.sessions && s.sessions[other] == s'.sessions[other];
      assert SameKeyHeld(s.sessions[other], s.sessions[holder]) ==> other == holder;
    }
    assert !Blocked(s', id);
  }

  // ---- nobody is stuck ----

  /** What a request does next when no call fails. */
  function NextStep(x: Session, id: RequestId, run: HandlerRun): Action {
    match x
    case Begun(_) => Insert(id, true)
    case Inserted(_, _) => Handle(id, run)
    case Ran(_, _, _) => Update(id, true)
    case Updated(_, _, _) => Commit(id, true, true)
    case Found(_) => Read(id, true)
  }

  function StepsLeft(x: Session): nat {
    match x
    case Begun(_) => 4
    case Inserted(_, _) => 3
    case Ran(_, _, _) => 2
    case Updated(_, _, _) => 1
    case Found(_) => 1
  }

  /** The request can move: it does not wait for another transaction. */
  predicate CanMove(s: Server, id: RequestId) {
    id in s.sessions && (s.sessions[id].Begun? ==> !Blocked(s, id))
  }

  /** The run of the handler that decides the answer: the one it has had, or the one to come. */
  function RunOf(x: Session, run: HandlerRun): HandlerRun {
    if x.Ran? || x.Updated? then x.run else run
  }

  /** Request `id` has ended with one answer, a failure only if its handler's transaction was aborted. */
  ghost predicate EndedAlone(s: Server, s': Server, id: RequestId, run: HandlerRun)
    requires id in s.sessions
  {
    && s'.sessions == s.sessions - {id}
    && |s'.answers| == |s.answers| + 1 && s'.answers[..|s.answers|] == s.answers
    && (var a := s'.answers[|s.answers|];
        && a.id == id && a.request == s.sessions[id].request
        && (a.kind == Failed ==> RunOf(s.sessions[id], run).aborted))
  }

  /** Request `id` has come closer to its end, and nothing else has changed. */
  ghost predicate MovedOn(s: Server, s': Server, id: RequestId, run: HandlerRun)
    requires id in s.sessions
  {
    && CanMove(s', id) && s'.answers == s.answers && s'.sessions == s.sessions[id := s'.sessions[id]]
    && s'.sessions[id].request == s.sessions[id].request && StepsLeft(s'.sessions[id]) < StepsLeft(s.sessions[id])
    && RunOf(s'.sessions[id], run) == RunOf(s.sessions[id], run)
  }

  lemma StepForward(s: Server, id: RequestId, run: HandlerRun)
    requires Sound(s) && CanMove(s, id)
    ensures var s' := Do(s, NextStep(s.sessions[id], id, run));
            EndedAlone(s, s', id, run) || MovedOn(s, s', id, run)
  {
    assert SessionSound(s.rows, s.sessions[id]);
  }

  lemma EndedLater(s: Server, s1: Server, s2: Server, id: RequestId, run: HandlerRun)
    requires id in s.sessions && MovedOn(s, s1, id, run) && EndedAlone(s1, s2, id, run)
    ensures EndedAlone(s, s2, id, run)
  {
    assert s1.sessions - {id} == s.sessions - {id};
  }

  /** Nothing fails or crashes, nobody new arrives, and each handler does what it is said to do. */
  predicate Smooth(actions: seq<Action>, runs: RequestId -> HandlerRun) {
    forall k :: 0 <= k < |actions| ==> IsSmooth(actions[k], runs)
  }

  predicate IsSmooth(a: Action, runs: RequestId -> HandlerRun) {
    match a
    case Insert(_, ok) => ok
    case Handle(id, run) => run == runs(id)
    case Update(_, ok) => ok
    case Commit(_, applied, ok) => applied && ok
    case Read(_, ok) => ok
    case _ => false
  }

  /** One step forward, as a run. */
  lemma Moves(s: Server, id: RequestId, runs: RequestId -> HandlerRun) returns (first: seq<Action>)
    requires Sound(s) && CanMove(s, id)
    ensures var s' := Run(s, first);
            Smooth(first, runs) && Sound(s') && (EndedAlone(s, s', id, runs(id)) || MovedOn(s, s', id, runs(id)))
  {
    var a := NextStep(s.sessions[id], id, runs(id));
    StepForward(s, id, runs(id));
    StepKeeps(s, a);
    RunOne(s, a);
    first := [a];
  }

  lemma RunOne(s: Server, a: Action)
    ensures Run(s, [a]) == Do(s, a)
  {
    assert [a][..0] == [];
    assert Run(s, [a][..0]) == s;
  }

  /** A request that can move can be brought to its end, whatever its handler does. */
  lemma {:induction false} EndsOne(s: Server, id: RequestId, runs: RequestId -> HandlerRun)
      returns (actions: seq<Action>)
    requires Sound(s) && CanMove(s, id)
    ensures Smooth(actions, runs) && EndedAlone(s, Run(s, actions), id, runs(id))
    decreases StepsLeft(s.sessions[id])
  {
    actions := Moves(s, id, runs);
    var s1 := Run(s, actions);
    if id in s1.sessions {
      var rest := EndsOne(s1, id, runs);
      EndedLater(s, s1, Run(s1, rest), id, runs(id));
      RunAppend(s, actions, rest);
      actions := actions + rest;
    }
  }

  /** While any request is open, one can move: if a transaction holds a key, that one, and if none does, all. */
  lemma SomeoneCanMove(s: Server) returns (id: RequestId)
    requires s.sessions != map[]
    ensures CanMove(s, id)
  {
    if holder :| holder in s.sessions && Holds(s.sessions[holder]) {
      id := holder;
    } else {
      id :| id in s.sessions;
    }
  }

  /** A request open in s has been answered since. */
  ghost predicate AnsweredSince(s: Server, s': Server, id: RequestId, run: HandlerRun)
    requires id in s.sessions
  {
    exists k :: |s.answers| <= k < |s'.answers| && AnswersRequest(s'.answers[k], id, s.sessions[id], run)
  }

  predicate AnswersRequest(a: Answer, id: RequestId, x: Session, run: HandlerRun) {
    a.id == id && a.request == x.request && (a.kind == Failed ==> RunOf(x, run).aborted)
  }

  /** No request is open any more, and every one open in s has been answered. */
  ghost predicate AllAnswered(s: Server, s': Server, runs: RequestId -> HandlerRun) {
    && s'.sessions == map[] && s.answers <= s'.answers
    && forall id :: id in s.sessions ==> AnsweredSince(s, s', id, runs(id))
  }

  /** From every reachable state, however the open transactions wait for each other, and whatever the
      handlers still to run will do, there is an order in which every open request is answered, without any
      failure; and only requests whose handler's transaction was aborted are answered with one. */
  lemma {:induction false} NobodyIsStuck(s: Server, runs: RequestId -> HandlerRun) returns (actions: seq<Action>)
    requires Sound(s)
    ensures Smooth(actions, runs) && AllAnswered(s, Run(s, actions), runs)
    decreases |s.sessions|
  {
    actions := [];
    assert Run(s, []) == s;
    if s.sessions != map[] {
      var id := SomeoneCanMove(s);
      actions := EndsOne(s, id, runs);
      var s1 := Run(s, actions);
      RunKeeps(s, actions);
      FewerSessions(s.sessions, id);
      var rest := NobodyIsStuck(s1, runs);
      AnsweredByThen(s, s1, Run(s1, rest), id, runs);
      RunAppend(s, actions, rest);
      actions := actions + rest;
    }
  }

  lemma FewerSessions(sessions: map<RequestId, Session>, id: RequestId)
    requires id in sessions
    ensures |sessions - {id}| < |sessions|
  {
    assert (sessions - {id}).Keys == sessions.Keys - {id};
    assert |(sessions - {id}).Keys| == |sessions - {id}| && |sessions.Keys| == |sessions|;
  }

  lemma AnsweredByThen(s: Server, s1: Server, s2: Server, id: RequestId, runs: RequestId -> HandlerRun)
    requires id in s.sessions && EndedAlone(s, s1, id, runs(id)) && AllAnswered(s1, s2, runs)
    ensures AllAnswered(s, s2, runs)
  {
    forall other | other in s.sessions ensures AnsweredSince(s, s2, other, runs(other)) {
      if other == id {
        assert s2.answers[|s.answers|] == s1.answers[|s.answers|];
        assert AnswersRequest(s2.answers[|s.answers|], id, s.sessions[id], runs(id));
      } else {
        assert s1.sessions[other] == s.sessions[other];
        var k :| |s1.answers| <= k < |s2.answers|
            && AnswersRequest(s2.answers[k], other, s1.sessions[other], runs(other));
        assert AnswersRequest(s2.answers[k], other, s.sessions[other], runs(other));
      }
    }
  }

  // ---- what a failure hides ----

  /** Requests are accounted for: a request in progress has neither answer nor effect yet, and one that has
      an effect was told of success or of failure as its commit reported. */
  ghost predicate Accounted(s: Server) {
    && s.sessions.Keys <= s.arrived
    && (forall id :: id in s.sessions ==> s.sessions[id].request.key != "")
    && (forall m :: 0 <= m < |s.effects| ==> s.effects[m].request.key != "")
    && (forall k :: 0 <= k < |s.answers| ==> s.answers[k].id in s.arrived && s.answers[k].id !in s.sessions)
    && (forall m :: 0 <= m < |s.effects| ==> s.effects[m].id in s.arrived && s.effects[m].id !in s.sessions)
    && (forall k, m :: 0 <= k < |s.answers| && 0 <= m < |s.effects| && s.answers[k].id == s.effects[m].id
          ==>
          s.answers[k].kind == (if s.effects[m].told then Accepted else Failed)
          && s.answers[k].request == s.effects[m].request)
  }

  lemma FinishAccounts(s: Server, id: RequestId, kind: Kind, response: Response)
    requires Accounted(s) && id in s.sessions
    ensures Accounted(Finish(s, id, kind, response))
  {
  }

  lemma CommitAccounts(s: Server, id: RequestId, applied: bool, ok: bool)
    requires Accounted(s)
    ensures Accounted(DoCommit(s, id, applied, ok))
  {
    if id in s.sessions && s.sessions[id].Updated? && !applied && !ok {
      FinishAccounts(s, id, Failed, INTERNAL);
    }
  }

  lemma MoveAccounts(s: Server, id: RequestId, x: Session)
    requires Accounted(s) && id in s.sessions && x.request == s.sessions[id].request
    ensures Accounted(s.(sessions := s.sessions[id := x]))
  {
  }

  lemma InsertAccounts(s: Server, id: RequestId, ok: bool)
    requires Accounted(s)
    ensures Accounted(DoInsert(s, id, ok))
  {
    if id in s.sessions {
      var request := s.sessions[id].request;
      FinishAccounts(s, id, Failed, INTERNAL);
      MoveAccounts(s, id, if request.key in s.rows then Found(request)
        else Inserted(request, Row(request.route, request.body, None)));
    }
  }

  lemma UpdateAccounts(s: Server, id: RequestId, ok: bool)
    requires Accounted(s)
    ensures Accounted(DoUpdate(s, id, ok))
  {
    if id in s.sessions && s.sessions[id].Ran? {
      var x := s.sessions[id];
      FinishAccounts(s, id, Failed, INTERNAL);
      MoveAccounts(s, id, Updated(x.request, x.row.(outcome := Some(x.run.response)), x.run));
    }
  }

  lemma HandleAccounts(s: Server, id: RequestId, run: HandlerRun)
    requires Accounted(s)
    ensures Accounted(Do(s, Handle(id, run))) && Accounted(Do(s, Panic(id)))
  {
    if id in s.sessions && s.sessions[id].Inserted? {
      FinishAccounts(s, id, Failed, INTERNAL);
      MoveAccounts(s, id, Ran(s.sessions[id].request, s.sessions[id].row, run));
    }
  }

  lemma ReadAccounts(s: Server, id: RequestId, ok: bool)
    requires Accounted(s)
    ensures Accounted(DoRead(s, id, ok))
  {
    if id in s.sessions {
      var (kind, response) := ReadAnswer(s.rows, s.sessions[id].request, ok);
      FinishAccounts(s, id, kind, response);
    }
  }

  lemma ArriveAccounts(s: Server, id: RequestId, request: Request, readable: bool, begins: bool)
    requires Accounted(s)
    ensures Accounted(DoArrive(s, id, request, readable, begins))
  {
  }

  lemma StepAccounts(s: Server, a: Action)
    requires Accounted(s)
    ensures Accounted(Do(s, a))
  {
    match a {
      case Arrive(id, request, readable, begins) => ArriveAccounts(s, id, request, readable, begins);
      case Insert(id, ok) => InsertAccounts(s, id, ok);
      case Handle(id, run) => HandleAccounts(s, id, run);
      case Panic(id) => HandleAccounts(s, id, HandlerRun(INTERNAL, [], false));
      case Update(id, ok) => UpdateAccounts(s, id, ok);
      case Commit(id, applied, ok) => CommitAccounts(s, id, applied, ok);
      case Read(id, ok) => ReadAccounts(s, id, ok);
      case Crash(id) =>
    }
  }

  lemma {:induction false} RunAccounts(actions: seq<Action>)
    ensures Accounted(Run(Start(), actions))
  {
    if actions != [] {
      RunAccounts(actions[..|actions| - 1]);
      StepAccounts(Run(Start(), actions[..|actions| - 1]), actions[|actions| - 1]);
    }
  }

  /** At step m of the run a request's commit was applied; `told` is whether it also reported success. */
  ghost predicate CommittedAt(actions: seq<Action>, m: nat, id: RequestId, told: bool) {
    && m < |actions| && actions[m].Commit? && actions[m].id == id
    && (actions[m].applied || actions[m].ok) && actions[m].ok == told
    && (var s := Run(Start(), actions[..m]); id in s.sessions && s.sessions[id].Updated?)
  }

  ghost predicate Stored(s: Server, id: RequestId, told: bool) {
    exists m :: 0 <= m < |s.effects| && s.effects[m].id == id && s.effects[m].told == told
  }

  ghost predicate Commits(actions: seq<Action>, id: RequestId, told: bool) {
    exists m :: CommittedAt(actions, m, id, told)
  }

  lemma StoredStep(s: Server, a: Action, id: RequestId, told: bool)
    ensures Stored(Do(s, a), id, told) <==>
            Stored(s, id, told) || (a.Commit? && a.id == id && (a.applied || a.ok) && a.ok == told
                                    && id in s.sessions && s.sessions[id].Updated?)
  {
    var s' := Do(s, a);
    if Stored(s, id, told) {
      var m :| 0 <= m < |s.effects| && s.effects[m].id == id && s.effects[m].told == told;
      StepAppends(s, a);
      assert s'.effects[m] == s.effects[m];
    }
    if a.Commit? && a.id == id && (a.applied || a.ok) && a.ok == told && id in s.sessions && s.sessions[id].Updated? {
      assert s'.effects[|s.effects|].id == id && s'.effects[|s.effects|].told == told;
    }
  }

  lemma CommitsStep(actions: seq<Action>, id: RequestId, told: bool)
    requires actions != []
    ensures var n := |actions| - 1;
            Commits(actions, id, told) <==> Commits(actions[..n], id, told) || CommittedAt(actions, n, id, told)
  {
    var n := |actions| - 1;
    forall m: nat | m < n ensures CommittedAt(actions, m, id, told) == CommittedAt(actions[..n], m, id, told) {
      assert actions[..n][..m] == actions[..m];
    }
    if Commits(actions[..n], id, told) {
      var m :| CommittedAt(actions[..n], m, id, told);
      assert CommittedAt(actions, m, id, told);
    }
  }

  /** A request's writes are stored exactly by an applied commit of its own in the run. */
  lemma {:induction false} StoredByOwnCommit(actions: seq<Action>, id: RequestId, told: bool)
    ensures Stored(Run(Start(), actions), id, told) <==> Commits(actions, id, told)
  {
    if actions != [] {
      var n := |actions| - 1;
      StoredByOwnCommit(actions[..n], id, told);
      StoredStep(Run(Start(), actions[..n]), actions[n], id, told);
      CommitsStep(actions, id, told);
    }
  }

  /** In every run, a request told of a failure has its writes stored exactly when one of its own steps was
      a commit that was applied although it reported an error; there is no other way, and never with an
      accepted answer. */
  lemma FailedThoughStoredExactly(actions: seq<Action>, k: nat)
    requires k < |Run(Start(), actions).answers| && Run(Start(), actions).answers[k].kind == Failed
    ensures var s := Run(Start(), actions);
            var id := s.answers[k].id;
            (exists m :: 0 <= m < |s.effects| && s.effects[m].id == id) <==> Commits(actions, id, false)
  {
    var s := Run(Start(), actions);
    var id := s.answers[k].id;
    RunAccounts(actions);
    StoredByOwnCommit(actions, id, false);
    if m :| 0 <= m < |s.effects| && s.effects[m].id == id {
      assert Stored(s, id, false);
    }
  }

  /** After such a failure, at any later time, a retry is answered with exactly the response that was
      stored, and stores nothing more. */
  lemma RetryAfterHiddenCommit(actions: seq<Action>, k: nat, m: nat, retry: RequestId)
    requires var s := Run(Start(), actions);
             k < |s.answers| && s.answers[k].kind == Failed && m < |s.effects| && s.effects[m].id == s.answers[k].id
             && retry !in s.arrived
    ensures var s, request := Run(Start(), actions), Run(Start(), actions).answers[k].request;
            var s' := Run(s, [Arrive(retry, request, true, true), Insert(retry, true), Read(retry, true)]);
            && s'.rows == s.rows && s'.effects == s.effects
            && s'.answers == s.answers + [Answer(retry, request, Accepted, s.effects[m].response)]
  {
    var s := Run(Start(), actions);
    RunKeeps(Start(), actions);
    RunAccounts(actions);
    EffectIsItsRow(s, m);
    RetryIsAnswered(s, retry, s.answers[k].request);
  }

  /** Any other failure leaves the key free, unless another request holds or has committed it: a new run of
      the handler can still commit, and its answer is the handler's. */
  lemma FreshRunCommits(s: Server, id: RequestId, request: Request, run: HandlerRun)
    requires Sound(s) && Accounted(s) && request.key != "" && request.key !in s.rows && id !in s.arrived && !run.aborted
    requires forall other ::
      other in s.sessions && Holds(s.sessions[other]) ==> s.sessions[other].request.key != request.key
    ensures var s' := Run(s, FreshRun(id, request, run));
            && s'.rows == s.rows[request.key := Row(request.route, request.body, Some(run.response))]
            && s'.effects == s.effects + [Effect(id, request, run.response, run.writes, true)]
            && s'.answers == s.answers + [Answer(id, request, Accepted, run.response)]
  {
    var s1 := s.(sessions := s.sessions[id := Begun(request)], arrived := s.arrived + {id});
    FreshInsert(s, id, request);
    var s2 := Do(s1, Insert(id, true));
    HandledAndUpdated(s2, id, request, Row(request.route, request.body, None), run);
    var s3 := Do(s2, Handle(id, run));
    RunFive(s, FreshRun(id, request, run), s1, s2, s3, Do(s3, Update(id, true)));
  }

  lemma HandledAndUpdated(s: Server, id: RequestId, request: Request, row: Row, run: HandlerRun)
    requires id in s.sessions && s.sessions[id] == Inserted(request, row) && !run.aborted
    ensures var s' := Do(Do(s, Handle(id, run)), Update(id, true));
            && id in s'.sessions && s'.sessions[id] == Updated(request, row.(outcome := Some(run.response)), run)
            && s'.rows == s.rows && s'.effects == s.effects && s'.answers == s.answers
  {
  }

  lemma FreshInsert(s: Server, id: RequestId, request: Request)
    requires Accounted(s) && request.key != "" && request.key !in s.rows && id !in s.arrived
    requires forall other ::
      other in s.sessions && Holds(s.sessions[other]) ==> s.sessions[other].request.key != request.key
    ensures var s1 := s.(sessions := s.sessions[id := Begun(request)], arrived := s.arrived + {id});
            && Do(s, Arrive(id, request, true, true)) == s1
            && Do(s1, Insert(id, true))
               == s1.(sessions := s.sessions[id := Inserted(request, Row(request.route, request.body, None))])
  {
    var s1 := s.(sessions := s.sessions[id := Begun(request)], arrived := s.arrived + {id});
    assert !Blocked(s1, id);
    var inserted := Inserted(request, Row(request.route, request.body, None));
    assert s1.sessions[id := inserted] == s.sessions[id := inserted];
  }

  function FreshRun(id: RequestId, request: Request, run: HandlerRun): seq<Action> {
    [Arrive(id, request, true, true), Insert(id, true), Handle(id, run), Update(id, true), Commit(id, true, true)]
  }

  lemma RunFive(s: Server, a: seq<Action>, s1: Server, s2: Server, s3: Server, s4: Server)
    requires |a| == 5 && s1 == Do(s, a[0]) && s2 == Do(s1, a[1]) && s3 == Do(s2, a[2]) && s4 == Do(s3, a[3])
    ensures Run(s, a) == Do(s4, a[4])
  {
    assert a[..5] == a && a[..5][..4] == a[..4] && a[..4][..3] == a[..3] && a[..3][..2] == a[..2]
        && a[..2][..1] == a[..1] && a[..1][..0] == [];
    assert Run(s, a[..1][..0]) == s;
    assert Run(s, a[..1]) == s1;
    assert Run(s, a[..2]) == s2;
    assert Run(s, a[..3]) == s3;
    assert Run(s, a[..4]) == s4;
  }

  /** Such a run, from the start: the client is told 500 and the slot is registered. */
  lemma FailedThoughStored()
    ensures var request := Request("key-1", "POST /locations", "slot");
            var created := Response(201, "", "registered");
            Run(Start(), [Arrive(0, request, true, true), Insert(0, true),
                          Handle(0, HandlerRun(created, ["slot"], false)),
                          Update(0, true), Commit(0, true, false)])
            == Server(map["key-1" := Row("POST /locations", "slot", Some(created))],
                      [Effect(0, request, created, ["slot"], false)], map[],
                      [Answer(0, request, Failed, INTERNAL)], {0})
  {
    var request := Request("key-1", "POST /locations", "slot");
    var created := Response(201, "", "registered");
    var run := HandlerRun(created, ["slot"], false);
    var row := Row("POST /locations", "slot", None);
    var actions := [Arrive(0, request, true, true), Insert(0, true), Handle(0, run), Update(0, true),
        Commit(0, true, false)];
    var s1 := Server(map[], [], map[0 := Begun(request)], [], {0});
    assert !Blocked(s1, 0);
    var s2 := s1.(sessions := map[0 := Inserted(request, row)]);
    var s3 := s1.(sessions := map[0 := Ran(request, row, run)]);
    var s4 := s1.(sessions := map[0 := Updated(request, row.(outcome := Some(created)), run)]);
    RunFive(Start(), actions, s1, s2, s3, s4);
  }
}
