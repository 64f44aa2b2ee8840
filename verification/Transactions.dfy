/** Any number of clients stepping over the shared server state. A server method
    runs under the server's guard, so it is one atomic step here, except commit and
    rollback: their loops run table by table while the guard is held, and clients
    that need no guard step in between. The lock discipline is that of table.h and
    exceptions.h: a transaction takes a table by trylock at its first access and
    keeps it to the end; a client outside a transaction blocks in Table::lock for
    one request. The steps BareGet and FallBack are where the handlers leave it. A
    session that is closed, by BYE, by an ERROR or by an exception nobody handles, takes
    no more steps: close_connection rolls nothing back. */
module Transactions {
  import opened Messages
  import opened Wrappers
  import opened Tables
  import opened Handlers
  import opened Servers

  datatype Phase =
    | Idle
    | Waiting(req: Message)            // has found the table, is in Table::lock
    | Locked(req: Message)             // holds the mutex, will look the table up again
    | Found(req: Message)              // will carry the request out
    | Finishing(table: string)         // has replied, will unlock
    | Committing(todo: set<string>)    // in the commit loop, under the guard
    | RollingBack(todo: set<string>)   // in the rollback loop, under the guard

  /** What a GET of a transaction found in a cell, and whether the lock was its own. */
  datatype Glimpse = Glimpse(cell: CellRef, found: Option<string>, locked: bool)

  /** `start`, `trace`, `glimpses`, `writes` and `misread` record, for the current
      transaction, the stack at BEGIN, the requests on the stack and the tables answered
      since, what its GETs found in cells it had not set, what it last set cells to, and
      whether a GET found something else in a cell it had set. They are history and no
      step reads them. */
  datatype Session = Session(stack: Stack, open: bool, phase: Phase, last: Response,
                             start: Stack, trace: seq<Event>,
                             glimpses: seq<Glimpse>, writes: map<CellRef, string>, misread: bool)
  {
    function Answer(response: Response): Session {
      this.(last := response, open := open && !response.Closes())
    }

    /** No history. */
    function Forget(): Session {
      this.(trace := [], glimpses := [], writes := map[], misread := false)
    }

    function Note(req: Message, response: Response): Session {
      this.(trace := trace + [Event(req, response)]).Answer(response)
    }

    /** What a GET that found this, or a SET of the top of the stack, adds to the history. */
    function Keep(req: Message, found: Option<string>, locked: bool): Session
      requires req.messageType == SET ==> stack != []
    {
      var cell := At(req.Table(), req.Key());
      if req.messageType == SET then this.(writes := writes[cell := Top(stack)])
      else if cell in writes then this.(misread := misread || found != Some(writes[cell]))
      else this.(glimpses := glimpses + [Glimpse(cell, found, locked)])
    }
  }

  /** The log: what was made permanent, in order. A request outside a transaction is
      a transaction of its own. A transaction is recorded with the stack it began
      with, its requests with their replies, and the stack it ended with. */
  datatype Entry =
    | Creation(name: string)
    | Transaction(client: ClientId, start: Stack, trace: seq<Event>, end: Stack)

  /** `serial` is history too: the database as the log's entries make it, in which all
      the SETs of a transaction count from its commit on. */
  datatype System = System(server: ServerState, guard: Option<ClientId>, sessions: seq<Session>,
                           log: seq<Entry>, serial: Db)
  {
    function Put(c: ClientId, q: Session): System
      requires c < |sessions|
    {
      this.(sessions := sessions[c := q])
    }
  }

  const INIT := System(ServerState(map[], map[], map[]), None, [], [], map[])

  datatype Action =
    | Connect
    | Create(c: ClientId, name: string)
    | Begin(c: ClientId)
    | OnStack(c: ClientId, req: Message)
    | Access(c: ClientId, req: Message)
    | BareGet(c: ClientId, req: Message)
    | FallBack(c: ClientId, req: Message)
    | StartAuto(c: ClientId, req: Message)
    | Acquire(c: ClientId)
    | Refind(c: ClientId)
    | Operate(c: ClientId)
    | Release(c: ClientId)
    | StartCommit(c: ClientId)
    | CommitTable(c: ClientId, table: string)
    | EndCommit(c: ClientId)
    | StartRollback(c: ClientId)
    | RollbackTable(c: ClientId, table: string)
    | EndRollback(c: ClientId)
    | Bye(c: ClientId)

  // ----- When a step can be taken -----

  predicate Resting(s: System, c: ClientId) {
    c < |s.sessions| && s.sessions[c].phase == Idle
  }

  /** A client able to make a request that needs the guard. */
  predicate Ready(s: System, c: ClientId) {
    Resting(s, c) && s.sessions[c].open && s.guard == None
  }

  predicate Enabled(s: System, a: Action) {
    match a
    case Connect => true
    case Create(c, name) => Ready(s, c) && IsIdentifier(name)
    case Begin(c) => Ready(s, c)
    case OnStack(c, req) => Resting(s, c) && s.sessions[c].open && IsStackRequest(req.messageType)
    case Access(c, req) => Ready(s, c) && s.server.InTransaction(c) && IsTableRequest(req.messageType)
    case BareGet(c, req) => Ready(s, c) && s.server.InTransaction(c) && req.messageType == GET
    case FallBack(c, req) => Ready(s, c) && s.server.InTransaction(c) && FallsBack(s, c, req)
    case StartAuto(c, req) => Ready(s, c) && !s.server.InTransaction(c) && IsTableRequest(req.messageType)
    case Acquire(c) =>
      && c < |s.sessions| && s.sessions[c].phase.Waiting?
      && var t := s.sessions[c].phase.req.Table(); t in s.server.tables && s.server.tables[t].holder == None
    case Refind(c) => c < |s.sessions| && s.sessions[c].phase.Locked? && s.guard == None
    case Operate(c) =>
      && c < |s.sessions| && s.sessions[c].phase.Found?
      && Operable(s.server.tables, s.sessions[c].stack, s.sessions[c].phase.req)
    case Release(c) =>
      && c < |s.sessions| && s.sessions[c].phase.Finishing? && s.guard == None
      && s.sessions[c].phase.table in s.server.tables
    case StartCommit(c) => Ready(s, c)
    case CommitTable(c, t) =>
      c < |s.sessions| && s.sessions[c].phase.Committing? && t in s.sessions[c].phase.todo && t in s.server.tables
    case EndCommit(c) => c < |s.sessions| && s.sessions[c].phase == Committing({})
    case StartRollback(c) => Ready(s, c)
    case RollbackTable(c, t) =>
      c < |s.sessions| && s.sessions[c].phase.RollingBack? && t in s.sessions[c].phase.todo && t in s.server.tables
    case EndRollback(c) => c < |s.sessions| && s.sessions[c].phase == RollingBack({})
    case Bye(c) => Resting(s, c) && s.sessions[c].open
  }

  /** A SET that has passed its checks and whose trylock fails: somebody holds the
      mutex, if only the client itself. */
  predicate FallsBack(s: System, c: ClientId, req: Message)
    requires c < |s.sessions|
  {
    && req.messageType == SET && Precheck(req.Table() in s.server.tables, s.sessions[c].stack, req) == None
    && s.server.tables[req.Table()].holder != None
  }

  // ----- What a step does -----

  /** The request has passed its checks and can be carried out on its table. */
  predicate Operable(tables: TableMap, stack: Stack, req: Message) {
    IsTableRequest(req.messageType) && req.Table() in tables && (req.messageType == SET ==> stack != [])
  }

  datatype TableOutcome = TableOutcome(response: Response, table: TableState, stack: Stack)

  /** A GET or SET on the table itself, through its overlay. */
  function OperateOn(ts: TableState, stack: Stack, req: Message): TableOutcome
    requires req.messageType == SET ==> stack != []
  {
    if req.messageType == SET then
      TableOutcome(Acknowledged, ts.Set(req.Key(), Top(stack)), Popped(stack))
    else match ts.Get(req.Key())
      case Some(v) => TableOutcome(Fetched(v), ts, stack + [v])
      case None => TableOutcome(Refused(NoKey), ts, stack)
  }

  /** A transaction's request on a table, whatever was done about its lock. */
  function DoRequest(s: System, c: ClientId, req: Message): System
    requires c < |s.sessions| && Operable(s.server.tables, s.sessions[c].stack, req)
  {
    var q, t := s.sessions[c], req.Table();
    var o := OperateOn(s.server.tables[t], q.stack, req);
    var q' := q.Keep(req, s.server.tables[t].Get(req.Key()), t in s.server.LocksOf(c));
    s.(server := s.server.WithTable(t, o.table)).Put(c, q'.(stack := o.stack).Note(req, o.response))
  }

  function DoAccess(s: System, c: ClientId, req: Message): System
    requires Enabled(s, Access(c, req))
  {
    var q, t := s.sessions[c], req.Table();
    match Precheck(t in s.server.tables, q.stack, req)
    case Some(response) => s.Put(c, q.Note(req, response))
    case None =>
      if t in s.server.LocksOf(c) then DoRequest(s, c, req)
      else if s.server.tables[t].holder == None then DoRequest(s.(server := s.server.Acquire(t, c)), c, req)
      else s.Put(c, q.Answer(Refused(LockBusy)))
  }

  /** A GET that takes no lock, as handle_get_request does inside a transaction. */
  function DoBareGet(s: System, c: ClientId, req: Message): System
    requires Enabled(s, BareGet(c, req))
  {
    match Precheck(req.Table() in s.server.tables, s.sessions[c].stack, req)
    case Some(response) => s.Put(c, s.sessions[c].Note(req, response))
    case None => DoRequest(s, c, req)
  }

  /** The fallback of handle_set_request: Table::lock, also inside a transaction.
      What follows is as outside one: the value is committed on the spot, ahead of the
      transaction, and the table released. */
  function DoFallBack(s: System, c: ClientId, req: Message): System
    requires Enabled(s, FallBack(c, req))
  {
    s.Put(c, s.sessions[c].(phase := Waiting(req)))
  }

  function DoStack(s: System, c: ClientId, req: Message): System
    requires Enabled(s, OnStack(c, req))
  {
    var q := s.sessions[c];
    var o := ServeStack(q.stack, req);
    var q1 := q.(stack := o.stack);
    s.Put(c, if s.server.InTransaction(c) then q1.Note(req, o.response) else q1.Answer(o.response))
  }

  function DoStartAuto(s: System, c: ClientId, req: Message): System
    requires Enabled(s, StartAuto(c, req))
  {
    var q := s.sessions[c];
    match Precheck(req.Table() in s.server.tables, q.stack, req)
    case Some(response) => s.Put(c, q.Answer(response))
    case None => s.Put(c, q.(phase := Waiting(req)))
  }

  /** A request that took its lock by blocking: a SET is committed at once. Outside a
      transaction it is one of its own; inside, it is one more request of it. */
  function DoOperate(s: System, c: ClientId): System
    requires Enabled(s, Operate(c))
  {
    var q := s.sessions[c];
    var req := q.phase.req;
    var t, k := req.Table(), req.Key();
    var o := OperateOn(s.server.tables[t], q.stack, req);
    var s1 := s.(server := s.server.WithTable(t, if req.messageType == SET then o.table.Commit() else o.table));
    if s.server.InTransaction(c) then
      var q' := q.Keep(req, s.server.tables[t].Get(k), false);
      s1.Put(c, q'.(stack := o.stack, phase := Finishing(t)).Note(req, o.response))
    else
      s1.(log := s.log + [Transaction(c, q.stack, [Event(req, o.response)], o.stack)],
          serial := if req.messageType == SET then Override(s.serial, map[At(t, k) := Top(q.stack)]) else s.serial)
        .Put(c, q.(stack := o.stack, phase := Finishing(t)).Answer(o.response))
  }

  function DoCreate(s: System, c: ClientId, name: string): System
    requires Enabled(s, Create(c, name))
  {
    var q := s.sessions[c];
    if name in s.server.tables then s.Put(c, q.Answer(Refused(TableExists)))
    else
      s.(server := s.server.Create(name), log := s.log + [Creation(name)], serial := s.serial[name := map[]])
       .Put(c, q.Answer(Acknowledged))
  }

  function DoBegin(s: System, c: ClientId): System
    requires Enabled(s, Begin(c))
  {
    var q := s.sessions[c];
    if s.server.InTransaction(c) then s.Put(c, q.Answer(Refused(AlreadyInTransaction)))
    else
      s.(server := s.server.Begin(c)).Put(c, q.(start := q.stack).Forget().Answer(Acknowledged))
  }

  /** Commit takes its place in the log when it enters its loop. */
  function DoStartCommit(s: System, c: ClientId): System
    requires Enabled(s, StartCommit(c))
  {
    var q := s.sessions[c];
    if s.server.InTransaction(c) then
      s.(guard := Some(c), log := s.log + [Transaction(c, q.start, q.trace, q.stack)],
         serial := Override(s.serial, q.writes))
       .Put(c, q.(phase := Committing(s.server.LocksOf(c))))
    else
      s.(server := s.server.(active := s.server.active[c := false])).Put(c, q.Answer(Refused(NoTransaction)))
  }

  function DoStartRollback(s: System, c: ClientId): System
    requires Enabled(s, StartRollback(c))
  {
    if s.server.InTransaction(c) then
      s.(guard := Some(c)).Put(c, s.sessions[c].(phase := RollingBack(s.server.LocksOf(c))))
    else s
  }

  function DoEnd(s: System, c: ClientId, response: Response): System
    requires c < |s.sessions|
  {
    s.(server := s.server.EndTransaction(c), guard := None)
     .Put(c, s.sessions[c].(phase := Idle).Forget().Answer(response))
  }

  /** handle_bye_request: the session is closed, and nothing is rolled back. */
  function DoBye(s: System, c: ClientId): System
    requires Enabled(s, Bye(c))
  {
    s.Put(c, s.sessions[c].Answer(Acknowledged).(open := false))
  }

  function Apply(s: System, a: Action): System
    requires Enabled(s, a)
  {
    match a
    case Connect => s.(sessions := s.sessions + [Session([], true, Idle, Acknowledged, [], [], [], map[], false)])
    case Create(c, name) => DoCreate(s, c, name)
    case Begin(c) => DoBegin(s, c)
    case OnStack(c, req) => DoStack(s, c, req)
    case Access(c, req) => DoAccess(s, c, req)
    case BareGet(c, req) => DoBareGet(s, c, req)
    case FallBack(c, req) => DoFallBack(s, c, req)
    case StartAuto(c, req) => DoStartAuto(s, c, req)
    case Acquire(c) =>
      var q := s.sessions[c];
      var t := q.phase.req.Table();
      s.(server := s.server.WithTable(t, s.server.tables[t].Lock(c))).Put(c, q.(phase := Locked(q.phase.req)))
    case Refind(c) => s.Put(c, s.sessions[c].(phase := Found(s.sessions[c].phase.req)))
    case Operate(c) => DoOperate(s, c)
    case Release(c) =>
      var q := s.sessions[c];
      var t := q.phase.table;
      s.(server := s.server.WithTable(t, s.server.tables[t].Unlock())).Put(c, q.(phase := Idle))
    case StartCommit(c) => DoStartCommit(s, c)
    case CommitTable(c, t) =>
      var q := s.sessions[c];
      s.(server := s.server.CommitTable(t)).Put(c, q.(phase := Committing(q.phase.todo - {t})))
    case EndCommit(c) => DoEnd(s, c, Acknowledged)
    case StartRollback(c) => DoStartRollback(s, c)
    case RollbackTable(c, t) =>
      var q := s.sessions[c];
      s.(server := s.server.RollbackTable(t)).Put(c, q.(phase := RollingBack(q.phase.todo - {t})))
    case EndRollback(c) => DoEnd(s, c, Refused(RolledBack))
    case Bye(c) => DoBye(s, c)
  }

  // ----- Runs -----

  function Run(s: System, actions: seq<Action>): Option<System> {
    if actions == [] then Some(s)
    else
      var a := actions[|actions| - 1];
      match Run(s, actions[..|actions| - 1])
      case None => None
      case Some(s1) => if Enabled(s1, a) then Some(Apply(s1, a)) else None
  }

  /** Every step of the run, with the state it is taken from, satisfies p. */
  ghost predicate Throughout(s: System, actions: seq<Action>, p: (System, Action) -> bool) {
    Run(s, actions).Some? &&
    (actions != [] ==>
       var front := actions[..|actions| - 1];
       Throughout(s, front, p) && p(Run(s, front).value, actions[|actions| - 1]))
  }

  /** No SET falls back to the blocking lock. */
  predicate NoFallback(actions: seq<Action>) {
    forall i :: 0 <= i < |actions| ==> !actions[i].FallBack?
  }

  /** A lock-free GET keeps the discipline when the client holds the table anyway. */
  predicate Disciplined(s: System, a: Action) {
    && !a.FallBack?
    && (a.BareGet? ==> a.req.Table() in s.server.LocksOf(a.c))
  }

  /** The actions form a run from s in which every access is covered by a lock. */
  ghost predicate CoveredRun(s: System, actions: seq<Action>) {
    Throughout(s, actions, Disciplined)
  }

  lemma RunAppend(s: System, actions: seq<Action>, a: Action)
    ensures Run(s, actions + [a]) ==
            match Run(s, actions)
            case None => None
            case Some(s1) => if Enabled(s1, a) then Some(Apply(s1, a)) else None
  {
    assert (actions + [a])[..|actions|] == actions;
  }

  lemma {:induction false} RunConcat(s: System, a: seq<Action>, b: seq<Action>)
    ensures Run(s, a + b) == match Run(s, a) case None => None case Some(s1) => Run(s1, b)
  {
    hide Enabled, Apply;
    if b == [] {
      assert a + b == a;
    } else {
      RunConcat(s, a, b[..|b| - 1]);
      assert (a + b)[..|a + b| - 1] == a + b[..|b| - 1];
    }
  }

  lemma {:induction false} ThroughoutPrefix(s: System, actions: seq<Action>, more: seq<Action>,
                                            p: (System, Action) -> bool)
    requires Throughout(s, actions + more, p)
    ensures Throughout(s, actions, p)
  {
    hide Run;
    if more == [] {
      assert actions + more == actions;
    } else {
      assert (actions + more)[..|actions + more| - 1] == actions + more[..|more| - 1];
      ThroughoutPrefix(s, actions, more[..|more| - 1], p);
    }
  }

  lemma RunPrepend(s: System, a: Action, rest: seq<Action>)
    requires Enabled(s, a)
    ensures Run(s, [a] + rest) == Run(Apply(s, a), rest)
  {
    hide Enabled, Apply;
    RunAppend(s, [], a);
    assert [] + [a] == [a];
    RunConcat(s, [a], rest);
  }

  /** s' is s after one possible step a. */
  ghost predicate Steps(s: System, a: Action, s': System) {
    Enabled(s, a) && Apply(s, a) == s'
  }

  /** A run from its successive states. */
  lemma {:induction false} Chain(s: System, actions: seq<Action>, states: seq<System>)
    requires |states| == |actions| + 1 && states[0] == s
    requires forall i :: 0 <= i < |actions| ==> Steps(states[i], actions[i], states[i + 1])
    ensures Run(s, actions) == Some(states[|actions|])
  {
    hide Enabled, Apply;
    if actions != [] {
      var n := |actions| - 1;
      Chain(s, actions[..n], states[..n + 1]);
      assert Steps(states[n], actions[n], states[n + 1]);
    }
  }
}
