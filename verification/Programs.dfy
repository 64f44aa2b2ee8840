/** What a client gets when nobody stands in its way: a transaction sees its own changes
    over the committed data, may come back to a table it has, and any program of
    assignments that has a meaning runs to its commit. */
module Programs {
  import opened Wrappers
  import opened Numerals
  import opened Messages
  import opened Tables
  import opened Handlers
  import opened Servers
  import opened Transactions
  import opened Locking
  import opened Settling
  import opened Endings
  import opened Compiler
  import opened Applications
  import opened Witnesses

  // ----- One access -----

  /** What client c sees: the committed data under its own pending changes. */
  function View(s: System, c: ClientId): Machine
    requires c < |s.sessions|
  {
    Machine(Overlaid(s, c, CommittedDb(s)), s.sessions[c].stack)
  }

  predicate Checked(s: System, c: ClientId, req: Message)
    requires c < |s.sessions| && IsTableRequest(req.messageType)
  {
    Precheck(req.Table() in s.server.tables, s.sessions[c].stack, req) == None
  }

  /** Nobody else holds the table. */
  predicate Free(s: System, c: ClientId, t: string) {
    t in s.server.tables ==> s.server.tables[t].holder in {None, Some(c)}
  }

  lemma IdleOwns(s: System, c: ClientId, t: string)
    requires LockInv(s) && Resting(s, c) && t in s.server.tables
    ensures t in s.server.LocksOf(c) <==> s.server.tables[t].holder == Some(c)
    ensures s.server.tables[t].holder == None ==> s.server.tables[t].overlay == map[]
  {
    hide LockInv, SessionOk;
    OwnFacts(s, c);
    TableFacts(s, t);
    assert Owned(s, c) == s.server.LocksOf(c);
  }

  lemma TakingShowsNothing(s: System, c: ClientId, t: string)
    requires c < |s.sessions| && t in s.server.tables && s.server.tables[t].overlay == map[]
    requires t !in s.server.LocksOf(c)
    ensures View(s.(server := s.server.Acquire(t, c)), c) == View(s, c)
  {
    var s' := s.(server := s.server.Acquire(t, c));
    var db := CommittedDb(s);
    assert CommittedDb(s') == db;
    forall u | u in db ensures Overlaid(s', c, db)[u] == Overlaid(s, c, db)[u] {
      if u == t { assert s'.server.tables[t].Visible() == db[t]; }
    }
  }

  /** What DoRequest leaves, for a table the client has. */
  lemma RequestLeaves(s: System, c: ClientId, req: Message)
    requires c < |s.sessions| && Operable(s.server.tables, s.sessions[c].stack, req)
    ensures var s', o := DoRequest(s, c, req), OperateOn(s.server.tables[req.Table()], s.sessions[c].stack, req);
            && s'.server == s.server.WithTable(req.Table(), o.table) && c < |s'.sessions|
            && s'.sessions[c].stack == o.stack && s'.sessions[c].last == o.response
  {
    hide OperateOn;
  }

  /** Changing one locked table changes it in the view, to what is visible there. */
  lemma ViewOfChange(s: System, s': System, c: ClientId, t: string, ts: TableState)
    requires c < |s.sessions| && c < |s'.sessions| && t in s.server.tables && t in s.server.LocksOf(c)
    requires s'.server == s.server.WithTable(t, ts) && ts.data == s.server.tables[t].data
    ensures CommittedDb(s') == CommittedDb(s)
    ensures View(s, c).db[t] == s.server.tables[t].Visible()
    ensures View(s', c).db == View(s, c).db[t := ts.Visible()]
  {
    assert CommittedDb(s') == CommittedDb(s);
    var v := View(s, c).db[t := ts.Visible()];
    assert View(s', c).db.Keys == v.Keys;
    forall u | u in v ensures View(s', c).db[u] == v[u] {
    }
  }

  /** With the table in the lock set a request is served as to a lone client. */
  lemma HeldIsServed(s: System, c: ClientId, req: Message)
    requires c < |s.sessions| && IsTableRequest(req.messageType) && Checked(s, c, req)
    requires Operable(s.server.tables, s.sessions[c].stack, req) && req.Table() in s.server.LocksOf(c)
    ensures var s' := DoRequest(s, c, req);
            && c < |s'.sessions| && CommittedDb(s') == CommittedDb(s) && s'.server.locks == s.server.locks
            && Serve(View(s, c), req) == Outcome(s'.sessions[c].last, View(s', c))
  {
    hide DoRequest, Overlaid, CommittedDb, ServerState.LocksOf, Precheck;
    var s', t := DoRequest(s, c, req), req.Table();
    var ts := s.server.tables[t];
    RequestLeaves(s, c, req);
    ViewOfChange(s, s', c, t, OperateOn(ts, s.sessions[c].stack, req).table);
    ViewHasTables(s, c);
    CheckedHasTable(s, c, req);
    if req.messageType == SET {
      SetIsVisible(ts, req.Key(), Top(s.sessions[c].stack));
    } else {
      assert View(s, c).db[t := ts.Visible()] == View(s, c).db;
    }
  }

  lemma ViewHasTables(s: System, c: ClientId)
    requires c < |s.sessions|
    ensures View(s, c).db.Keys == s.server.tables.Keys
  {
  }

  lemma CheckedHasTable(s: System, c: ClientId, req: Message)
    requires c < |s.sessions| && IsTableRequest(req.messageType) && Checked(s, c, req)
    ensures Precheck(true, s.sessions[c].stack, req) == None
    ensures Operable(s.server.tables, s.sessions[c].stack, req)
  {
  }

  /** An access, exactly: it fails if and only if another client holds the table, and then
      changes nothing; otherwise, whether the table was free or the client's already, the
      reply, the stack and what the client sees are those of a client alone with its
      view, and the table is in its lock set from then on. */
  lemma AccessIsServed(s: System, c: ClientId, req: Message)
    requires LockInv(s) && Enabled(s, Access(c, req)) && Checked(s, c, req)
    ensures var s' := DoAccess(s, c, req);
            && c < |s'.sessions| && CommittedDb(s') == CommittedDb(s)
            && (s'.sessions[c].last == Refused(LockBusy) <==> !Free(s, c, req.Table()))
            && (Free(s, c, req.Table()) ==>
                 && req.Table() in s'.server.LocksOf(c)
                 && Serve(View(s, c), req) == Outcome(s'.sessions[c].last, View(s', c)))
            && (!Free(s, c, req.Table()) ==> s'.server == s.server && View(s', c) == View(s, c))
  {
    hide LockInv, DoRequest, Overlaid;
    var t := req.Table();
    IdleOwns(s, c, t);
    ServedIsNotBusy(View(s, c), req);
    if t in s.server.LocksOf(c) {
      HeldIsServed(s, c, req);
    } else if s.server.tables[t].holder == None {
      var s1 := s.(server := s.server.Acquire(t, c));
      TakingShowsNothing(s, c, t);
      TakingKeepsData(s, c, t);
      HeldIsServed(s1, c, req);
    } else {
      assert CommittedDb(DoAccess(s, c, req)) == CommittedDb(s);
      SameView(s, DoAccess(s, c, req), c);
    }
  }

  lemma TakingKeepsData(s: System, c: ClientId, t: string)
    requires t in s.server.tables
    ensures CommittedDb(s.(server := s.server.Acquire(t, c))) == CommittedDb(s)
  {
  }

  lemma SameView(s: System, s': System, c: ClientId)
    requires s'.server == s.server && c < |s.sessions| && c < |s'.sessions|
    requires s'.sessions[c].stack == s.sessions[c].stack
    ensures View(s', c) == View(s, c)
  {
  }

  lemma ServedIsNotBusy(m: Machine, req: Message)
    requires IsTableRequest(req.messageType)
    ensures Serve(m, req).response != Refused(LockBusy)
  {
  }

  // ----- A run of requests in a transaction -----

  function StepOf(c: ClientId, req: Message): Action {
    if IsTableRequest(req.messageType) then Access(c, req) else OnStack(c, req)
  }

  function StepsOf(c: ClientId, reqs: seq<Message>): seq<Action> {
    if reqs == [] then [] else StepsOf(c, reqs[..|reqs| - 1]) + [StepOf(c, reqs[|reqs| - 1])]
  }

  predicate OnValues(reqs: seq<Message>) {
    forall i :: 0 <= i < |reqs| ==> IsTableRequest(reqs[i].messageType) || IsStackRequest(reqs[i].messageType)
  }

  /** Nobody else holds a table the requests are about. */
  predicate Unhindered(s: System, c: ClientId, reqs: seq<Message>) {
    forall i :: 0 <= i < |reqs| && IsTableRequest(reqs[i].messageType) ==> Free(s, c, reqs[i].Table())
  }

  /** c is in a transaction and can go on. */
  ghost predicate Working(s: System, c: ClientId) {
    LockInv(s) && Ready(s, c) && s.server.InTransaction(c)
  }

  /** From s to s' only c has done anything, and nothing of it is committed. */
  ghost predicate OnlyWorked(s: System, s': System, c: ClientId) {
    && Working(s, c) && Working(s', c) && |s'.sessions| == |s.sessions|
    && s'.log == s.log && s'.serial == s.serial && CommittedDb(s') == CommittedDb(s)
    && s'.sessions[c].start == s.sessions[c].start
    && (forall d :: 0 <= d < |s.sessions| && d != c ==> s'.sessions[d] == s.sessions[d])
    && forall t :: Free(s, c, t) ==> Free(s', c, t)
  }

  /** c's record has these requests more, and all of them went well. */
  ghost predicate Recorded(q: Session, q': Session, reqs: seq<Message>) {
    && q.trace <= q'.trace
    && var more := q'.trace[|q.trace|..]; RequestsOf(more) == reqs && AllOk(more)
  }

  /** One request that is served well in c's view is taken without hindrance. */
  lemma StepIsServed(s: System, c: ClientId, req: Message)
    requires Working(s, c) && OnValues([req]) && Unhindered(s, c, [req])
    requires Serve(View(s, c), req).response.Ok()
    ensures Enabled(s, StepOf(c, req)) && var s' := Apply(s, StepOf(c, req));
            && OnlyWorked(s, s', c) && View(s', c) == Serve(View(s, c), req).machine
            && s'.sessions[c].trace == s.sessions[c].trace + [Event(req, Serve(View(s, c), req).response)]
  {
    hide LockInv, View, DoAccess, DoStack;
    assert [req][0] == req;
    if IsTableRequest(req.messageType) {
      AccessStepIsServed(s, c, req);
    } else {
      StackStepIsServed(s, c, req);
    }
  }

  lemma StackStepIsServed(s: System, c: ClientId, req: Message)
    requires Working(s, c) && IsStackRequest(req.messageType) && Serve(View(s, c), req).response.Ok()
    ensures Enabled(s, OnStack(c, req)) && var s' := DoStack(s, c, req);
            && OnlyWorked(s, s', c) && View(s', c) == Serve(View(s, c), req).machine
            && s'.sessions[c].trace == s.sessions[c].trace + [Event(req, Serve(View(s, c), req).response)]
  {
    hide LockInv, ServeStack, LocalStep;
    OnStackStep(s, c, req);
    LocalStepKeepsLockInv(s, DoStack(s, c, req), c);
    assert CommittedDb(DoStack(s, c, req)) == CommittedDb(s);
  }

  lemma AccessStepIsServed(s: System, c: ClientId, req: Message)
    requires Working(s, c) && IsTableRequest(req.messageType) && Free(s, c, req.Table())
    requires Serve(View(s, c), req).response.Ok()
    ensures Enabled(s, Access(c, req)) && var s' := DoAccess(s, c, req);
            && OnlyWorked(s, s', c) && View(s', c) == Serve(View(s, c), req).machine
            && s'.sessions[c].trace == s.sessions[c].trace + [Event(req, Serve(View(s, c), req).response)]
  {
    hide LockInv, LocalStep, DoAccess, View;
    ServedIsChecked(s, c, req);
    AccessIsServed(s, c, req);
    AccessStep(s, c, req);
    LocalStepKeepsLockInv(s, DoAccess(s, c, req), c);
    AccessMoves(s, c, req);
  }

  lemma ServedIsChecked(s: System, c: ClientId, req: Message)
    requires c < |s.sessions| && IsTableRequest(req.messageType) && Serve(View(s, c), req).response.Ok()
    ensures Checked(s, c, req)
  {
    hide OperateOn;
    ViewHasTables(s, c);
    FailedCheckIsNotOk(req.Table() in s.server.tables, s.sessions[c].stack, req);
  }

  lemma FailedCheckIsNotOk(found: bool, stack: Stack, req: Message)
    requires IsTableRequest(req.messageType)
    ensures Precheck(found, stack, req).Some? ==> !Precheck(found, stack, req).value.Ok()
  {
  }

  /** c's request leaves all but its own session, tables and locks alone, and is recorded. */
  ghost predicate Moved(s: System, s': System, c: ClientId, req: Message)
    requires c < |s.sessions|
  {
    && |s'.sessions| == |s.sessions| && s'.guard == s.guard && s'.server.active == s.server.active
    && s'.log == s.log && s'.serial == s.serial
    && (forall d :: 0 <= d < |s.sessions| && d != c ==> s'.sessions[d] == s.sessions[d])
    && s'.sessions[c].start == s.sessions[c].start && s'.sessions[c].phase == s.sessions[c].phase
    && s'.sessions[c].trace == s.sessions[c].trace + [Event(req, s'.sessions[c].last)]
    && (s'.sessions[c].last.Ok() ==> s'.sessions[c].open == s.sessions[c].open)
    && forall t :: Free(s, c, t) ==> Free(s', c, t)
  }

  lemma RequestMoves(s: System, c: ClientId, req: Message)
    requires c < |s.sessions| && Operable(s.server.tables, s.sessions[c].stack, req)
    ensures Moved(s, DoRequest(s, c, req), c, req)
  {
    hide OperateOn;
    OperateKeepsHolder(s.server.tables[req.Table()], s.sessions[c].stack, req);
  }

  /** What an access that gets its table does to the rest of the state. */
  lemma AccessMoves(s: System, c: ClientId, req: Message)
    requires Working(s, c) && Enabled(s, Access(c, req)) && Checked(s, c, req) && Free(s, c, req.Table())
    ensures Moved(s, DoAccess(s, c, req), c, req)
  {
    hide LockInv, Precheck, DoRequest;
    CheckedHasTable(s, c, req);
    IdleOwns(s, c, req.Table());
    if req.Table() in s.server.LocksOf(c) {
      RequestMoves(s, c, req);
    } else {
      RequestMoves(s.(server := s.server.Acquire(req.Table(), c)), c, req);
    }
  }

  lemma OperateKeepsHolder(ts: TableState, stack: Stack, req: Message)
    requires req.messageType == SET ==> stack != []
    ensures OperateOn(ts, stack, req).table.holder == ts.holder
  {
  }

  /** Requests that a lone client with c's view would have acknowledged throughout are,
      when nobody else holds their tables, a run of c alone that is acknowledged
      throughout, with the same effect on what c sees. */
  lemma {:induction false} RequestsAreServed(s: System, c: ClientId, reqs: seq<Message>)
    requires Working(s, c) && OnValues(reqs) && Unhindered(s, c, reqs) && RunAll(View(s, c), reqs).Some?
    ensures Run(s, StepsOf(c, reqs)).Some? && var s' := Run(s, StepsOf(c, reqs)).value;
            && OnlyWorked(s, s', c) && Recorded(s.sessions[c], s'.sessions[c], reqs)
            && View(s', c) == RunAll(View(s, c), reqs).value
  {
    hide Serve, Enabled, Apply, View, LockInv, CommittedDb, Recorded;
    if reqs == [] {
      NothingRecorded(s.sessions[c]);
    } else {
      var front, req := reqs[..|reqs| - 1], reqs[|reqs| - 1];
      assert forall i :: 0 <= i < |front| ==> front[i] == reqs[i];
      RequestsAreServed(s, c, front);
      hide OnlyWorked;
      OneMoreIsServed(s, Run(s, StepsOf(c, front)).value, c, front, req);
      RunAppend(s, StepsOf(c, front), StepOf(c, req));
      assert reqs == front + [req];
    }
  }

  lemma NothingRecorded(q: Session)
    ensures Recorded(q, q, [])
  {
    assert q.trace[|q.trace|..] == [];
  }

  lemma OneMoreIsServed(s: System, s1: System, c: ClientId, front: seq<Message>, req: Message)
    requires OnlyWorked(s, s1, c) && Recorded(s.sessions[c], s1.sessions[c], front)
    requires OnValues([req]) && Unhindered(s, c, [req]) && Serve(View(s1, c), req).response.Ok()
    ensures Enabled(s1, StepOf(c, req)) && var s2 := Apply(s1, StepOf(c, req));
            && OnlyWorked(s, s2, c) && Recorded(s.sessions[c], s2.sessions[c], front + [req])
            && View(s2, c) == Serve(View(s1, c), req).machine
  {
    hide Serve, Enabled, Apply, View, LockInv, CommittedDb, Recorded;
    assert Unhindered(s1, c, [req]);
    StepIsServed(s1, c, req);
    var s2 := Apply(s1, StepOf(c, req));
    WorkedOn(s, s1, s2, c);
    RecordedMore(s.sessions[c], s1.sessions[c], s2.sessions[c], front, req);
  }

  lemma WorkedOn(s: System, s1: System, s2: System, c: ClientId)
    requires OnlyWorked(s, s1, c) && OnlyWorked(s1, s2, c)
    ensures OnlyWorked(s, s2, c)
  {
    hide LockInv, CommittedDb, Free;
  }

  lemma RecordedMore(q: Session, q1: Session, q2: Session, reqs: seq<Message>, req: Message)
    requires Recorded(q, q1, reqs) && |q2.trace| == |q1.trace| + 1 && q1.trace <= q2.trace
    requires var e := q2.trace[|q1.trace|]; e.req == req && e.response.Ok()
    ensures Recorded(q, q2, reqs + [req])
  {
    var more, all := q1.trace[|q.trace|..], q2.trace[|q.trace|..];
    assert all == more + [q2.trace[|q1.trace|]];
    assert all[..|all| - 1] == more;
  }

  // ----- A whole program -----

  lemma BeginShowsCommitted(s: System, c: ClientId)
    requires LockInv(s) && Ready(s, c) && !s.server.InTransaction(c)
    ensures Enabled(s, Begin(c)) && var s' := DoBegin(s, c);
            && Working(s', c) && View(s', c) == Machine(CommittedDb(s), s.sessions[c].stack)
            && s'.server.tables == s.server.tables && s'.log == s.log && |s'.sessions| == |s.sessions|
            && s'.sessions[c].start == s.sessions[c].stack && s'.sessions[c].trace == []
            && forall d :: 0 <= d < |s.sessions| && d != c ==> s'.sessions[d] == s.sessions[d]
  {
    hide LockInv, LocalStep;
    var s' := DoBegin(s, c);
    BeginStep(s, c);
    LocalStepKeepsLockInv(s, s', c);
    assert Overlaid(s', c, CommittedDb(s')) == CommittedDb(s);
  }

  /** What the commit loop leaves committed is what the client saw. */
  lemma CommitPublishesView(s: System, c: ClientId, s': System)
    requires c < |s.sessions| && s'.server == s.server.Commit(c)
    ensures CommittedDb(s') == View(s, c).db
    ensures !s'.server.InTransaction(c) && s'.server.LocksOf(c) == {}
    ensures forall t :: t in s.server.LocksOf(c) && t in s.server.tables ==> s'.server.tables[t].holder == None
    ensures forall t :: t in s.server.tables && t !in s.server.LocksOf(c) ==> s'.server.tables[t] == s.server.tables[t]
  {
    var db := View(s, c).db;
    forall t | t in s.server.tables ensures CommittedDb(s')[t] == db[t] {
    }
    assert CommittedDb(s') == db;
  }

  lemma {:induction false} Listing(names: set<string>) returns (order: seq<string>)
    ensures NoRepeats(order) && Elements(order) == names
  {
    if names == {} {
      order := [];
    } else {
      var t :| t in names;
      var rest := Listing(names - {t});
      order := rest + [t];
      assert t !in Elements(rest);
      assert forall u :: u in names ==> u in Elements(rest) || u == t;
    }
  }

  lemma {:induction false} CompiledOnValues(e: Expr)
    ensures OnValues(Compile(e))
  {
    match e
    case Lit(_) =>
    case Cell(_, _) =>
    case Bin(op, l, r) =>
      CompiledOnValues(l);
      CompiledOnValues(r);
      assert IsStackRequest(op.Request());
  }

  lemma {:induction false} ProgramOnValues(p: seq<Stmt>)
    ensures OnValues(CompileAll(p))
  {
    if p != [] {
      ProgramOnValues(p[..|p| - 1]);
      CompiledOnValues(p[|p| - 1].e);
    }
  }

  predicate IsEntryOf(entry: Entry, c: ClientId, p: seq<Stmt>, stack: Stack) {
    Completed(entry, p) && entry.client == c && entry.start == entry.end == stack
  }

  /** From s to s' the program p has been a transaction of c, now committed, which turned
      the committed data into db. */
  ghost predicate Committed(s: System, s': System, c: ClientId, p: seq<Stmt>, db: Db) {
    && c < |s.sessions| == |s'.sessions| && CommittedDb(s') == db && s'.guard == None && LockInv(s')
    && |s'.log| == |s.log| + 1 && s.log <= s'.log
    && IsEntryOf(s'.log[|s.log|], c, p, s.sessions[c].stack)
    && s'.sessions[c].stack == s.sessions[c].stack && Ready(s', c) && !s'.server.InTransaction(c)
    && (forall d :: 0 <= d < |s.sessions| && d != c ==> s'.sessions[d] == s.sessions[d])
    && forall t :: t in s.server.tables && s.server.tables[t].holder == None ==>
         t in s'.server.tables && s'.server.tables[t].holder == None
  }

  lemma {:induction false} StepsAreDirect(c: ClientId, reqs: seq<Message>)
    ensures NoFallback(StepsOf(c, reqs))
  {
    if reqs != [] { StepsAreDirect(c, reqs[..|reqs| - 1]); }
  }

  lemma {:induction false} RoundsAreDirect(c: ClientId, order: seq<string>)
    ensures NoFallback(Rounds(c, order, true))
  {
    if order != [] { RoundsAreDirect(c, order[..|order| - 1]); }
  }

  lemma ProgramHasNoFallback(c: ClientId, reqs: seq<Message>, order: seq<string>)
    ensures NoFallback([Begin(c)] + (StepsOf(c, reqs) + ([StartCommit(c)] + (Rounds(c, order, true) + [EndCommit(c)]))))
  {
    StepsAreDirect(c, reqs);
    RoundsAreDirect(c, order);
  }

  lemma WorkIsCompleted(s: System, s': System, c: ClientId, p: seq<Stmt>)
    requires c < |s.sessions| && c < |s'.sessions| && s.sessions[c].trace == []
    requires Recorded(s.sessions[c], s'.sessions[c], CompileAll(p))
    requires forall i :: 0 <= i < |p| ==> p[i].WellFormed()
    requires s'.sessions[c].start == s'.sessions[c].stack
    ensures IsEntryOf(TransactionOf(s', c), c, p, s'.sessions[c].stack)
  {
    hide CompileAll, RequestsOf;
    assert s'.sessions[c].trace[0..] == s'.sessions[c].trace;
  }

  /** A table nobody held when c went to work is free again when c has committed. */
  lemma WorkIsReleased(s: System, s': System, after: System, c: ClientId, t: string)
    requires OnlyWorked(s, s', c) && Free(s, c, t) && t in s.server.tables && after.server == s'.server.Commit(c)
    ensures t in after.server.tables && after.server.tables[t].holder == None
  {
    hide LockInv;
    assert t in CommittedDb(s);
    IdleOwns(s', c, t);
  }

  /** Any program that has a meaning on the committed data, and whose tables nobody holds,
      runs from BEGIN to the end of COMMIT with every request acknowledged: the committed
      data becomes what the assignments make of it, and the log has it as completed. */
  lemma ProgramCompletes(s: System, c: ClientId, p: seq<Stmt>) returns (actions: seq<Action>)
    requires LockInv(s) && Ready(s, c) && !s.server.InTransaction(c)
    requires (forall i :: 0 <= i < |p| ==> p[i].WellFormed()) && ExecAll(CommittedDb(s), p).Some?
    requires Unhindered(s, c, CompileAll(p))
    ensures Run(s, actions).Some? && NoFallback(actions)
    ensures Committed(s, Run(s, actions).value, c, p, ExecAll(CommittedDb(s), p).value)
  {
    hide LockInv, Run, RunAll, ExecAll, CompileAll, Overlaid, CommittedDb, NoFallback, RequestsOf;
    var reqs := CompileAll(p);
    var s0 := DoBegin(s, c);
    BeginShowsCommitted(s, c);
    assert Unhindered(s0, c, reqs);
    ProgramOnValues(p);
    CompileAllCorrect(View(s0, c), p);
    RequestsAreServed(s0, c, reqs);
    var s1 := Run(s0, StepsOf(c, reqs)).value;
    var order := Listing(s1.server.LocksOf(c));
    var ending := [StartCommit(c)] + (Rounds(c, order, true) + [EndCommit(c)]);
    LoopIsAtomic(s1, c, order, true);
    LocksStayInOrder(s1, ending);
    var s2 := Run(s1, ending).value;
    actions := [Begin(c)] + (StepsOf(c, reqs) + ending);
    RunConcat(s0, StepsOf(c, reqs), ending);
    RunPrepend(s, Begin(c), StepsOf(c, reqs) + ending);
    ProgramHasNoFallback(c, reqs, order);
    WorkIsCompleted(s0, s1, c, p);
    CommitPublishesView(s1, c, s2);
    forall t | t in s.server.tables && s.server.tables[t].holder == None
      ensures t in s2.server.tables && s2.server.tables[t].holder == None
    {
      assert Free(s0, c, t);
      WorkIsReleased(s0, s1, s2, c, t);
    }
  }

  lemma IncrementExecutes(db: Db, cell: CellRef, v: int)
    requires Applications.Value(db, cell) == Some(v) && InIntRange(v + 1)
    ensures cell.table in db && ExecAll(db, Increment(cell)) == Some(Store(db, cell, v + 1))
  {
    hide ToString, Stoi, ExecAll;
    ExecOne(db, Bump(cell, Add, Lit(1)));
    StoiInvertsToString(1);
    var text := CellText(db, cell.table, cell.key).value;
    assert Eval(db, Bin(Add, Cell(cell.table, cell.key), Lit(1))) == ApplyOp(Add, text, ToString(1));
  }

  /** An increment of a cell that holds a number runs to its commit when nobody holds the
      table: GET, PUSH 1, ADD and SET of the same table are all acknowledged, the log has
      one completed increment more, and the cell holds one more. */
  lemma IncrementCompletes(s: System, c: ClientId, cell: CellRef, v: int) returns (actions: seq<Action>)
    requires LockInv(s) && Ready(s, c) && !s.server.InTransaction(c)
    requires IsIdentifier(cell.table) && IsIdentifier(cell.key) && Free(s, c, cell.table)
    requires Applications.Value(CommittedDb(s), cell) == Some(v) && InIntRange(v + 1)
    ensures Run(s, actions).Some? && NoFallback(actions)
    ensures Committed(s, Run(s, actions).value, c, Increment(cell), Store(CommittedDb(s), cell, v + 1))
    ensures Applications.Value(CommittedDb(Run(s, actions).value), cell) == Some(v + 1)
  {
    hide LockInv, Run, CommittedDb, Applications.Value, Store, Committed, NoFallback, Free;
    IncrementExecutes(CommittedDb(s), cell, v);
    IncrementRequests(cell);
    assert Cell(cell.table, cell.key).WellFormed() && Lit(1).WellFormed();
    actions := ProgramCompletes(s, c, Increment(cell));
    StoreAt(CommittedDb(s), cell, v + 1, cell);
    CommittedIs(s, Run(s, actions).value, c, Increment(cell), Store(CommittedDb(s), cell, v + 1));
  }

  lemma CommittedIs(s: System, s': System, c: ClientId, p: seq<Stmt>, db: Db)
    requires Committed(s, s', c, p, db)
    ensures CommittedDb(s') == db
  {
  }

  // ----- Requests that block for their table -----

  /** A request that has its table by Table::lock is served as to a client alone with the
      committed data, and what it sets is committed. */
  lemma BlockedIsServed(s: System, c: ClientId)
    requires LockInv(s) && Enabled(s, Operate(c))
    ensures var s', q := DoOperate(s, c), s.sessions[c];
            && c < |s'.sessions|
            && Serve(Machine(CommittedDb(s), q.stack), q.phase.req) ==
               Outcome(s'.sessions[c].last, Machine(CommittedDb(s'), s'.sessions[c].stack))
  {
    hide LockInv, DoOperate, TableOk, CommittedDb, Precheck;
    OwnFacts(s, c);
    var s', q := DoOperate(s, c), s.sessions[c];
    var ts := s.server.tables[q.phase.req.Table()];
    OwnedIsClean(s, c, q.phase.req.Table());
    PassedChecks(s, q.stack, q.phase.req);
    OperateLeaves(s, c);
    if q.phase.req.messageType == SET {
      SetIsVisible(ts, q.phase.req.Key(), Top(q.stack));
    } else {
      assert CommittedDb(s)[q.phase.req.Table() := ts.data] == CommittedDb(s);
    }
  }

  /** What the request leaves of the table, the stack and the committed data. */
  lemma OperateLeaves(s: System, c: ClientId)
    requires Enabled(s, Operate(c))
    ensures var s', q, req := DoOperate(s, c), s.sessions[c], s.sessions[c].phase.req;
            var ts := s.server.tables[req.Table()];
            var o := OperateOn(ts, q.stack, req);
            && c < |s'.sessions| && s'.sessions[c].stack == o.stack && s'.sessions[c].last == o.response
            && CommittedDb(s).Keys == s.server.tables.Keys && CommittedDb(s)[req.Table()] == ts.data
            && CommittedDb(s') ==
               CommittedDb(s)[req.Table() := if req.messageType == SET then o.table.Commit().data else o.table.data]
  {
    hide OperateOn, Override, Session.Keep;
    var s', req := DoOperate(s, c), s.sessions[c].phase.req;
    var o := OperateOn(s.server.tables[req.Table()], s.sessions[c].stack, req);
    var data := if req.messageType == SET then o.table.Commit().data else o.table.data;
    assert CommittedDb(s').Keys == CommittedDb(s)[req.Table() := data].Keys;
  }

  lemma PassedChecks(s: System, stack: Stack, req: Message)
    requires Passed(s, stack, req)
    ensures req.Table() in s.server.tables && Precheck(true, stack, req) == None
    ensures IsTableRequest(req.messageType)
  {
  }

  lemma OwnedIsClean(s: System, c: ClientId, t: string)
    requires LockInv(s) && c < |s.sessions| && t in Owned(s, c) && t !in s.server.LocksOf(c)
    ensures t in s.server.tables && s.server.tables[t].overlay == map[]
  {
    hide LockInv, SessionOk;
    OwnFacts(s, c);
  }

  function AutoRun(c: ClientId, req: Message): seq<Action> {
    [StartAuto(c, req), Acquire(c), Refind(c), Operate(c), Release(c)]
  }

  lemma StartAutoTo(s: System, c: ClientId, req: Message)
    requires Ready(s, c) && !s.server.InTransaction(c) && IsTableRequest(req.messageType) && Checked(s, c, req)
    ensures Steps(s, StartAuto(c, req), s.Put(c, s.sessions[c].(phase := Waiting(req))))
  {
  }

  /** The client with its table locked by Table::lock, and looked up again. */
  function WithLock(s: System, c: ClientId, req: Message): System
    requires c < |s.sessions| && req.Table() in s.server.tables
  {
    var t := req.Table();
    s.(server := s.server.WithTable(t, s.server.tables[t].Lock(c))).Put(c, s.sessions[c].(phase := Found(req)))
  }

  lemma AutoEnters(s: System, c: ClientId, req: Message)
    requires Ready(s, c) && !s.server.InTransaction(c) && IsTableRequest(req.messageType)
    requires Checked(s, c, req) && req.Table() in s.server.tables && s.server.tables[req.Table()].holder == None
    ensures Run(s, AutoRun(c, req)[..3]) == Some(WithLock(s, c, req))
  {
    hide Steps, Precheck, Run;
    var t := req.Table();
    var s1 := s.Put(c, s.sessions[c].(phase := Waiting(req)));
    var s2 := s1.(server := s1.server.WithTable(t, s1.server.tables[t].Lock(c)))
                .Put(c, s1.sessions[c].(phase := Locked(req)));
    var s3 := s2.Put(c, s2.sessions[c].(phase := Found(req)));
    StartAutoTo(s, c, req);
    AcquireTo(s1, c, req);
    RefindTo(s2, c, req);
    Chain(s, AutoRun(c, req)[..3], [s, s1, s2, s3]);
    assert s3.sessions == WithLock(s, c, req).sessions;
  }

  lemma LockedIsReady(s: System, c: ClientId, req: Message)
    requires Ready(s, c) && IsTableRequest(req.messageType)
    requires Checked(s, c, req) && Operable(s.server.tables, s.sessions[c].stack, req)
    ensures var s' := WithLock(s, c, req); CommittedDb(s') == CommittedDb(s) && Enabled(s', Operate(c))
  {
    hide Precheck;
    assert CommittedDb(WithLock(s, c, req)) == CommittedDb(s);
  }

  /** What a request outside a transaction leaves, and its release after that. */
  lemma OperateEnds(s: System, c: ClientId)
    requires Enabled(s, Operate(c)) && s.guard == None && !s.server.InTransaction(c)
    ensures var s', t := DoOperate(s, c), s.sessions[c].phase.req.Table();
            && s'.guard == None && |s'.sessions| == |s.sessions| && s'.sessions[c].phase == Finishing(t)
            && t in s'.server.tables && |s'.log| == |s.log| + 1
  {
    hide OperateOn, Override;
  }

  lemma ReleaseKeepsData(s: System, t: string)
    requires t in s.server.tables
    ensures CommittedDb(s.(server := s.server.WithTable(t, s.server.tables[t].Unlock()))) == CommittedDb(s)
  {
  }

  lemma AutoLeaves(s: System, c: ClientId)
    requires Enabled(s, Operate(c)) && s.guard == None && !s.server.InTransaction(c)
    ensures Run(s, [Operate(c), Release(c)]).Some? && var s' := Run(s, [Operate(c), Release(c)]).value;
            var s1, t := DoOperate(s, c), s.sessions[c].phase.req.Table();
            && c < |s'.sessions| && c < |s1.sessions| && s'.sessions[c] == s1.sessions[c].(phase := Idle)
            && |s'.log| == |s.log| + 1 && CommittedDb(s') == CommittedDb(s1)
            && t in s'.server.tables && s'.server.tables[t].holder == None
  {
    hide DoOperate, Run;
    var s1, t := DoOperate(s, c), s.sessions[c].phase.req.Table();
    OperateEnds(s, c);
    assert Steps(s, Operate(c), s1);
    hide Steps, CommittedDb;
    ReleaseTo(s1, c, t);
    ReleaseKeepsData(s1, t);
    var s2 := s1.(server := s1.server.WithTable(t, s1.server.tables[t].Unlock()))
                .Put(c, s1.sessions[c].(phase := Idle));
    Chain(s, [Operate(c), Release(c)], [s, s1, s2]);
    SameData(s2, s1.(server := s2.server));
  }

  lemma SameData(s: System, s': System)
    requires s'.server == s.server
    ensures CommittedDb(s') == CommittedDb(s)
  {
  }

  /** A request outside a transaction that passes its checks and whose table is free runs
      through, is answered as to a client alone with the committed data, commits what it
      sets, and leaves the table free. */
  lemma AutoCompletes(s: System, c: ClientId, req: Message)
    requires LockInv(s) && Ready(s, c) && !s.server.InTransaction(c) && IsTableRequest(req.messageType)
    requires Checked(s, c, req) && s.server.tables[req.Table()].holder == None
    ensures Run(s, AutoRun(c, req)).Some? && var s' := Run(s, AutoRun(c, req)).value;
            && c < |s'.sessions| && s'.sessions[c].phase == Idle && |s'.log| == |s.log| + 1
            && Serve(Machine(CommittedDb(s), s.sessions[c].stack), req) ==
               Outcome(s'.sessions[c].last, Machine(CommittedDb(s'), s'.sessions[c].stack))
            && req.Table() in s'.server.tables && s'.server.tables[req.Table()].holder == None
  {
    hide LockInv, Run, CommittedDb, DoOperate, Serve, Precheck;
    CheckedHasTable(s, c, req);
    AutoEnters(s, c, req);
    LockedIsReady(s, c, req);
    var s1 := WithLock(s, c, req);
    LocksStayInOrder(s, AutoRun(c, req)[..3]);
    BlockedIsServed(s1, c);
    AutoLeaves(s1, c);
    RunConcat(s, AutoRun(c, req)[..3], [Operate(c), Release(c)]);
    assert AutoRun(c, req) == AutoRun(c, req)[..3] + [Operate(c), Release(c)];
  }
}
