/** Serializability, exactly. For every run, whatever lock-free GETs and blocking
    fallbacks it makes: when the log's transactions, run one at a time in commit order,
    read the values they read, get the replies they got and end with the stacks they ended
    with; and when what that leaves is the database there is. In runs whose accesses are
    covered by locks it always is. */
module Serializability {
  import opened Wrappers
  import opened Messages
  import opened Tables
  import opened Handlers
  import opened Transactions
  import opened Locking
  import opened SerialRuns
  import opened OpenTransactions
  import opened Settling
  import opened PendingChanges

  // ----- What a step logs -----

  /** What is made permanent as a transaction of its own, by a commit or by a request
      outside a transaction, read what the log so far makes of the database. */
  ghost predicate ReadsHold(s: System, a: Action) {
    match a
    case StartCommit(c) => Open(s, c) ==> ReadsAlike(s.sessions[c], s.serial)
    case Operate(c) =>
      c < |s.sessions| && s.sessions[c].phase.Found? && !s.server.InTransaction(c) ==>
        var req := s.sessions[c].phase.req;
        req.messageType == SET || (req.Table() in s.server.tables &&
          CellText(s.serial, req.Table(), req.Key()) == s.server.tables[req.Table()].Get(req.Key()))
    case _ => true
  }

  /** A commit whose transaction was told of no table missing that has been created. */
  ghost predicate RefusalsHold(s: System, a: Action) {
    a.StartCommit? && Open(s, a.c) ==>
      var trace := s.sessions[a.c].trace;
      forall i :: 0 <= i < |trace| && ToldMissing(trace[i]) ==> Creation(trace[i].req.Table()) !in s.log
  }

  /** The tables there are are those the log creates, and those of the serial database. */
  ghost predicate TablesLogged(s: System) {
    s.serial.Keys == s.server.tables.Keys && forall name :: name in s.server.tables <==> Creation(name) in s.log
  }

  lemma TablesLoggedStep(s: System, a: Action)
    requires LockInv(s) && TablesLogged(s) && Enabled(s, a)
    ensures TablesLogged(Apply(s, a))
  {
    hide LockInv, LocalStep, Precheck, OperateOn, ServeStack, Override;
    if a.Access? {
      AccessKeepsTables(s, a.c, a.req);
    } else if a.BareGet? {
      BareGetKeepsRest(s, a.c, a.req);
    } else if a.Operate? {
      OperateKeepsTables(s, a.c);
    } else {
      OthersKeepTables(s, a);
    }
  }

  lemma OthersKeepTables(s: System, a: Action)
    requires TablesLogged(s) && Enabled(s, a) && !a.Access? && !a.BareGet? && !a.Operate?
    ensures TablesLogged(Apply(s, a))
  {
    hide Precheck, ServeStack, Override, DoAccess, DoBareGet, DoOperate, DoStack, DoStartAuto;
    if a.StartCommit? { OverrideKeys(s.serial, s.sessions[a.c].writes); }
    if a.OnStack? || a.StartAuto? { OnlySessions(s, a); }
  }

  lemma OnlySessions(s: System, a: Action)
    requires Enabled(s, a) && (a.OnStack? || a.StartAuto?)
    ensures Apply(s, a) == s.(sessions := Apply(s, a).sessions)
  {
    hide Precheck, ServeStack;
  }

  lemma OperateKeepsTables(s: System, c: ClientId)
    requires Enabled(s, Operate(c)) && TablesLogged(s)
    ensures TablesLogged(DoOperate(s, c))
  {
    hide OperateOn, Precheck, Override;
    var req := s.sessions[c].phase.req;
    if req.messageType == SET {
      OverrideKeys(s.serial, map[At(req.Table(), req.Key()) := Top(s.sessions[c].stack)]);
    }
    assert forall name :: Creation(name) in DoOperate(s, c).log <==> Creation(name) in s.log;
  }

  lemma OverrideKeys(db: Db, writes: map<CellRef, string>)
    ensures Override(db, writes).Keys == db.Keys
  {
  }

  lemma BareGetKeepsRest(s: System, c: ClientId, req: Message)
    requires Enabled(s, BareGet(c, req))
    ensures DoBareGet(s, c, req).log == s.log && DoBareGet(s, c, req).serial == s.serial
    ensures DoBareGet(s, c, req).server.tables.Keys == s.server.tables.Keys
  {
    hide OperateOn;
  }

  /** Everything a run keeps. */
  ghost predicate InOrder(s: System) {
    TransactionsOk(s) && LinksOk(s, false) && TablesLogged(s)
  }

  ghost predicate KeepsLog(s: System, s': System) {
    s'.log == s.log && s'.serial == s.serial
  }

  /** The log has one more entry, which run alone on the serial database gives the next
      one, if what its transaction read and was told holds. */
  ghost predicate AddsEntry(s: System, s': System, readsHold: bool, refusalsHold: bool) {
    s'.log != [] && s'.log == s.log + [s'.log[|s'.log| - 1]] &&
    var entry := s'.log[|s'.log| - 1];
    && SerialEntry(s.serial, ForgivenEntry(entry)) == (if readsHold then Some(s'.serial) else None)
    && SerialEntry(s.serial, entry) == (if readsHold && refusalsHold then Some(s'.serial) else None)
  }

  lemma CreateAdds(s: System, c: ClientId, name: string)
    requires TablesLogged(s) && Enabled(s, Create(c, name)) && name !in s.server.tables
    ensures AddsEntry(s, DoCreate(s, c, name), true, true)
  {
    hide Replay;
    assert name !in s.serial;
  }

  lemma StartCommitAdds(s: System, c: ClientId)
    requires TransactionsOk(s) && TablesLogged(s) && Enabled(s, StartCommit(c)) && s.server.InTransaction(c)
    ensures AddsEntry(s, DoStartCommit(s, c), ReadsHold(s, StartCommit(c)), RefusalsHold(s, StartCommit(c)))
  {
    hide LockInv, Replay, ReadsAlike, ToldProperly, Override;
    var q := s.sessions[c];
    assert TransactionOk(s, c) && HasTables(s, s.serial);
    assert PlaysBack(q, s.serial);
    ReplayForgiven(Machine(s.serial, q.start), q.trace);
    assert RefusalsHold(s, StartCommit(c)) <==> StillMissing(s.serial, q.trace);
  }

  lemma OperateAdds(s: System, c: ClientId)
    requires LockInv(s) && TablesLogged(s) && Enabled(s, Operate(c)) && !s.server.InTransaction(c)
    ensures AddsEntry(s, DoOperate(s, c), ReadsHold(s, Operate(c)), true)
  {
    hide LockInv, Serve, ServeStack, Override, TablesLogged;
    var s', q := DoOperate(s, c), s.sessions[c];
    OperateIsServed(s, c);
    var e := Event(q.phase.req, s'.sessions[c].last);
    assert !ToldMissing(e);
    ReplayAppend(Machine(s.serial, q.stack), [], e);
    ForgivenTraceAppend([], e);
    assert [] + [e] == [e];
  }

  /** Outside a transaction a request does to the serial database what it does to a lone
      client, if it reads there what it read. */
  lemma OperateIsServed(s: System, c: ClientId)
    requires LockInv(s) && TablesLogged(s) && Enabled(s, Operate(c)) && !s.server.InTransaction(c)
    ensures var s', q := DoOperate(s, c), s.sessions[c];
            var o := Serve(Machine(s.serial, q.stack), q.phase.req);
            && (o.response == s'.sessions[c].last <==> ReadsHold(s, Operate(c)))
            && (o.response == s'.sessions[c].last ==> o.machine == Machine(s'.serial, s'.sessions[c].stack))
  {
    hide LockInv, Override, TableOk;
    OwnFacts(s, c);
    var q := s.sessions[c];
    PassedHasTable(s, q.stack, q.phase.req);
    if q.phase.req.messageType == SET {
      OverrideSingle(s.serial, q.phase.req.Table(), q.phase.req.Key(), Top(q.stack));
    }
  }

  /** Every step either leaves the log and the database it makes as they are, or logs an
      entry that leads from the one to the next, provided that what its transaction read
      and was told holds. */
  lemma SerialStep(s: System, a: Action)
    requires InOrder(s) && Enabled(s, a)
    ensures InOrder(Apply(s, a))
    ensures
      || (KeepsLog(s, Apply(s, a)) && ReadsHold(s, a) && RefusalsHold(s, a))
      || AddsEntry(s, Apply(s, a), ReadsHold(s, a), RefusalsHold(s, a))
  {
    TransactionsStep(s, a);
    LinksStep(s, a, false);
    TablesLoggedStep(s, a);
    hide LockInv, LeavesLog, AddsEntry, TablesLogged, LinksOk, TransactionOk;
    if IsQuiet(s, a) {
      QuietKeepsLog(s, a);
    } else if a.Create? {
      CreateAdds(s, a.c, a.name);
    } else if a.StartCommit? {
      StartCommitAdds(s, a.c);
    } else if s.server.InTransaction(a.c) {
      OperateKeepsLog(s, a.c);
    } else {
      OperateAdds(s, a.c);
    }
  }

  lemma QuietKeepsLog(s: System, a: Action)
    requires LockInv(s) && Enabled(s, a) && IsQuiet(s, a)
    ensures KeepsLog(s, Apply(s, a)) && ReadsHold(s, a) && RefusalsHold(s, a)
  {
    hide LockInv, Enabled, Apply, Settled;
    QuietSettled(s, a);
  }

  lemma OperateKeepsLog(s: System, c: ClientId)
    requires Enabled(s, Operate(c)) && s.server.InTransaction(c)
    ensures KeepsLog(s, DoOperate(s, c)) && ReadsHold(s, Operate(c)) && RefusalsHold(s, Operate(c))
  {
    hide OperateOn;
  }

  // ----- Whole runs -----

  /** Whatever the run makes permanent as a transaction read what the log so far makes of
      the database. */
  ghost predicate CleanRun(actions: seq<Action>) {
    Throughout(INIT, actions, ReadsHold)
  }

  /** For every run. The log, without the replies that a table is missing, has a serial
      run with the same values read, the same replies and the same stacks exactly when
      each commit's transaction, and each request outside one, read what the commits
      before it had made of the database; with those replies too exactly when none of the
      tables was created before the commit. What it leaves is that database. */
  lemma {:induction false} SerialExactly(actions: seq<Action>)
    requires Run(INIT, actions).Some?
    ensures var s := Run(INIT, actions).value;
            && Serial(Forgiven(s.log)) == (if CleanRun(actions) then Some(s.serial) else None)
            && Serial(s.log) ==
               (if CleanRun(actions) && Throughout(INIT, actions, RefusalsHold) then Some(s.serial) else None)
            && InOrder(s)
  {
    hide Enabled, Apply, ReadsHold, RefusalsHold, InOrder, SerialEntry;
    if actions == [] {
      InitialState();
    } else {
      var front, a := actions[..|actions| - 1], actions[|actions| - 1];
      SerialExactly(front);
      var s, s' := Run(INIT, front).value, Run(INIT, actions).value;
      SerialStep(s, a);
      if s'.log != s.log {
        var entry := s'.log[|s'.log| - 1];
        SerialAppend(s.log, entry);
        ForgivenAppend(s.log, entry);
        SerialAppend(Forgiven(s.log), ForgivenEntry(entry));
      }
    }
  }

  lemma InitialState()
    ensures InOrder(INIT) && INIT.serial == Settled(INIT)
  {
  }

  // ----- When the serial database is the one there is -----

  /** The serial database and the settled one have the same in a cell. */
  predicate InStepAt(s: System, cell: CellRef) {
    CellText(s.serial, cell.table, cell.key) == CellText(Settled(s), cell.table, cell.key)
  }

  /** When they have after a step, given whether they had before: a SET that fell back
      puts a cell out of step, unless the value was there already; its transaction's
      commit puts it back, if by then the cell still holds what the transaction last set
      it to, committed or pending; a SET outside a transaction puts it back in any case;
      nothing else matters. */
  ghost predicate InStepAfter(s: System, a: Action, cell: CellRef, before: bool)
    requires Enabled(s, a)
  {
    match a
    case Operate(c) =>
      var q, req := s.sessions[c], s.sessions[c].phase.req;
      if req.messageType == SET && cell == At(req.Table(), req.Key()) then
        s.server.InTransaction(c) ==> CellText(s.serial, cell.table, cell.key) == Some(Top(q.stack))
      else before
    case StartCommit(c) =>
      if Open(s, c) && cell in s.sessions[c].writes then StillThere(s, c, cell) else before
    case _ => before
  }

  /** The cell holds what c's transaction last set it to, or that is pending there. */
  ghost predicate StillThere(s: System, c: ClientId, cell: CellRef)
    requires c < |s.sessions| && cell in s.sessions[c].writes
  {
    CellText(Overlaid(s, c, CommittedDb(s)), cell.table, cell.key) == Some(s.sessions[c].writes[cell])
  }

  lemma AgreementStep(s: System, a: Action, cell: CellRef)
    requires InOrder(s) && Enabled(s, a)
    ensures InStepAt(Apply(s, a), cell) <==> InStepAfter(s, a, cell, InStepAt(s, cell))
  {
    hide LockInv, LinksOk, TransactionOk, Settled, StillThere, Override;
    if IsQuiet(s, a) {
      QuietAgreement(s, a, cell);
    } else if a.Create? {
      CreateAgreement(s, a.c, a.name, cell);
    } else if a.StartCommit? {
      StartCommitAgreement(s, a.c, cell);
    } else {
      OperateAgreement(s, a.c, cell);
    }
  }

  lemma QuietAgreement(s: System, a: Action, cell: CellRef)
    requires LockInv(s) && Enabled(s, a) && IsQuiet(s, a)
    ensures InStepAt(Apply(s, a), cell) <==> InStepAfter(s, a, cell, InStepAt(s, cell))
  {
    hide LockInv, Enabled, Apply, Settled;
    QuietSettled(s, a);
    QuietCommit(s, a);
  }

  lemma QuietCommit(s: System, a: Action)
    requires Enabled(s, a) && IsQuiet(s, a)
    ensures a.StartCommit? ==> !Open(s, a.c)
  {
  }

  lemma CreateAgreement(s: System, c: ClientId, name: string, cell: CellRef)
    requires LockInv(s) && TablesLogged(s) && Enabled(s, Create(c, name)) && name !in s.server.tables
    ensures InStepAt(DoCreate(s, c, name), cell) <==> InStepAt(s, cell)
  {
    hide LockInv, Settled;
    CreateSettled(s, c, name);
    SettledKeys(s);
    assert name !in s.serial;
  }

  lemma OperateAgreement(s: System, c: ClientId, cell: CellRef)
    requires LockInv(s) && TablesLogged(s) && Enabled(s, Operate(c))
    ensures InStepAt(DoOperate(s, c), cell) <==> InStepAfter(s, Operate(c), cell, InStepAt(s, cell))
  {
    hide LockInv, Settled, Override, OperateOn, Precheck, Session.Keep;
    OperateSettled(s, c);
    SettledKeys(s);
    var q, req := s.sessions[c], s.sessions[c].phase.req;
    if req.messageType == SET {
      OverrideSingle(s.serial, req.Table(), req.Key(), Top(q.stack));
    }
  }

  lemma StartCommitAgreement(s: System, c: ClientId, cell: CellRef)
    requires LockInv(s) && LinksOk(s, false) && TablesLogged(s)
    requires Enabled(s, StartCommit(c)) && s.server.InTransaction(c)
    ensures InStepAt(DoStartCommit(s, c), cell) <==> InStepAfter(s, StartCommit(c), cell, InStepAt(s, cell))
  {
    hide LockInv, Settled, CommittedDb, Overlaid, Override;
    StartCommitSettles(s, c);
    SettledKeys(s);
    assert LinkOk(s, c, false);
    OverlaidText(s, c, Settled(s), cell);
    if cell.table in s.serial {
      OverrideText(s.serial, s.sessions[c].writes, cell.table, cell.key);
    } else {
      OverrideHas(s.serial, s.sessions[c].writes, cell.table);
    }
  }

  /** Only a cell the transaction has set differs from the database in what it sees. */
  lemma OverlaidText(s: System, c: ClientId, db: Db, cell: CellRef)
    requires LockInv(s) && c < |s.sessions| && OverlaysRecorded(s, c) && db == Settled(s)
    requires s.guard == None && s.server.InTransaction(c) && s.sessions[c].phase == Idle
    ensures cell !in s.sessions[c].writes ==>
              CellText(Overlaid(s, c, db), cell.table, cell.key) == CellText(db, cell.table, cell.key)
    ensures cell in s.sessions[c].writes && cell.table !in db ==>
              CellText(Overlaid(s, c, db), cell.table, cell.key) == None
  {
    hide LockInv;
    OwnFacts(s, c);
    GuardFreeIsCalm(s);
    CalmIsCommitted(s);
  }

  /** Whether a cell is in step after a run: what the last step of the run to matter for
      it says, if there is one. */
  ghost predicate InStepAfterRun(actions: seq<Action>, cell: CellRef)
    requires Run(INIT, actions).Some?
  {
    actions == [] ||
    var front := actions[..|actions| - 1];
    InStepAfter(Run(INIT, front).value, actions[|actions| - 1], cell, InStepAfterRun(front, cell))
  }

  ghost predicate EndsInStep(actions: seq<Action>)
    requires Run(INIT, actions).Some?
  {
    forall cell :: InStepAfterRun(actions, cell)
  }

  lemma {:induction false} AgreementRun(actions: seq<Action>, cell: CellRef)
    requires Run(INIT, actions).Some?
    ensures InStepAt(Run(INIT, actions).value, cell) <==> InStepAfterRun(actions, cell)
  {
    hide Enabled, Apply, InStepAt, InStepAfter, InOrder, Settled, CleanRun;
    if actions == [] {
      InitiallyInStep(cell);
    } else {
      var front, a := actions[..|actions| - 1], actions[|actions| - 1];
      AgreementRun(front, cell);
      SerialExactly(front);
      AgreementStep(Run(INIT, front).value, a, cell);
      assert Run(INIT, actions).value == Apply(Run(INIT, front).value, a);
    }
  }

  lemma InitiallyInStep(cell: CellRef)
    ensures InStepAt(INIT, cell)
  {
    InitialState();
  }

  /** For every run, fallbacks included: the log has a serial run that leaves the settled
      database if and only if what was made permanent had read what the log made of the
      database, and each cell's last SET that fell back, commit or SET outside a
      transaction left it in step. */
  lemma SettledExactly(actions: seq<Action>)
    requires Run(INIT, actions).Some?
    ensures var s := Run(INIT, actions).value;
            Serial(Forgiven(s.log)) == Some(Settled(s)) <==>
            CleanRun(actions) && EndsInStep(actions)
  {
    hide Run, CleanRun, Settled, InStepAt, EndsInStep, TransactionsOk, LinksOk;
    SerialExactly(actions);
    InStepEverywhere(Run(INIT, actions).value);
    AgreementAtEnd(actions);
  }

  lemma AgreementAtEnd(actions: seq<Action>)
    requires Run(INIT, actions).Some?
    ensures EndsInStep(actions) <==> forall cell :: InStepAt(Run(INIT, actions).value, cell)
  {
    hide Run, InStepAt, InStepAfter;
    forall cell ensures InStepAt(Run(INIT, actions).value, cell) <==> InStepAfterRun(actions, cell) {
      AgreementRun(actions, cell);
    }
  }

  /** A commit by a transaction with SETs that fell back, when nobody else's are out of
      step: its log has a serial run that leaves the database there is if and only if what
      it read holds and each cell it set still has what it was last set to. */
  lemma CommitAfterFallbacks(actions: seq<Action>, c: ClientId)
    requires Run(INIT, actions).Some? && CleanRun(actions)
    requires var s := Run(INIT, actions).value;
             && Enabled(s, StartCommit(c)) && Open(s, c)
             && forall cell :: cell !in s.sessions[c].writes ==> InStepAt(s, cell)
    ensures var s := Run(INIT, actions).value;
            var s' := DoStartCommit(s, c);
            Serial(Forgiven(s'.log)) == Some(Settled(s')) <==>
            ReadsAlike(s.sessions[c], s.serial) &&
            forall cell :: cell in s.sessions[c].writes ==> StillThere(s, c, cell)
  {
    hide Run, Settled, ReadsAlike, StillThere, TransactionsOk, LinksOk, Override;
    var s := Run(INIT, actions).value;
    var s' := DoStartCommit(s, c);
    SerialExactly(actions);
    SerialStep(s, StartCommit(c));
    CommitLogs(s, c);
    forall cell ensures InStepAt(s', cell) <==> (cell in s.sessions[c].writes ==> StillThere(s, c, cell)) {
      AgreementStep(s, StartCommit(c), cell);
    }
    InStepEverywhere(s');
  }

  /** What a commit's entry makes of the serial run. */
  lemma CommitLogs(s: System, c: ClientId)
    requires TransactionsOk(s) && TablesLogged(s) && Enabled(s, StartCommit(c)) && Open(s, c)
    requires Serial(Forgiven(s.log)) == Some(s.serial)
    ensures var s' := DoStartCommit(s, c);
            Serial(Forgiven(s'.log)) == if ReadsAlike(s.sessions[c], s.serial) then Some(s'.serial) else None
  {
    hide TransactionsOk, TablesLogged, Override, SerialEntry, ReadsAlike;
    StartCommitAdds(s, c);
    var entry := DoStartCommit(s, c).log[|s.log|];
    ForgivenAppend(s.log, entry);
    SerialAppend(Forgiven(s.log), ForgivenEntry(entry));
  }

  /** The databases are the same when they are in step at every cell. */
  lemma InStepEverywhere(s: System)
    requires TablesLogged(s)
    ensures s.serial == Settled(s) <==> forall cell :: InStepAt(s, cell)
  {
    hide SettledTable;
    SettledKeys(s);
    if forall cell :: InStepAt(s, cell) {
      forall t | t in s.serial ensures s.serial[t] == Settled(s)[t] {
        forall k ensures k in s.serial[t] <==> k in Settled(s)[t]
                 ensures k in s.serial[t] ==> s.serial[t][k] == Settled(s)[t][k] {
          assert InStepAt(s, At(t, k));
        }
      }
    }
  }

  // ----- Runs without fallbacks -----

  /** The serial database is the settled one, and every open transaction's writes are
      pending in tables it has locked. */
  ghost predicate Tidy(s: System) {
    s.serial == Settled(s) && LinksOk(s, true)
  }

  lemma TidyStep(s: System, a: Action)
    requires InOrder(s) && Plain(s) && Tidy(s) && Enabled(s, a) && !a.FallBack?
    ensures Tidy(Apply(s, a))
  {
    hide LockInv, TransactionOk, LinksOk, Plain, Settled, Apply, Enabled, InStepAt;
    LinksStep(s, a, true);
    SerialStep(s, a);
    InStepEverywhere(s);
    forall cell ensures InStepAt(Apply(s, a), cell) {
      AgreementStep(s, a, cell);
      TidyStaysInStep(s, a, cell);
    }
    InStepEverywhere(Apply(s, a));
  }

  lemma TidyStaysInStep(s: System, a: Action, cell: CellRef)
    requires LockInv(s) && Plain(s) && LinksOk(s, true) && InStepAt(s, cell) && Enabled(s, a) && !a.FallBack?
    ensures InStepAfter(s, a, cell, true)
  {
    hide LockInv, Settled, Precheck, OperateOn;
    if a.Operate? {
      assert NoTransactionFor(s, a.c);
    } else if a.StartCommit? && Open(s, a.c) && cell in s.sessions[a.c].writes {
      assert LinkOk(s, a.c, true);
      PendingIsThere(s, a.c, cell);
    }
  }

  lemma PendingIsThere(s: System, c: ClientId, cell: CellRef)
    requires c < |s.sessions| && OverlaysRecorded(s, c) && WritesPending(s, c) && cell in s.sessions[c].writes
    ensures StillThere(s, c, cell)
  {
    assert s.server.tables[cell.table].overlay[cell.key] == s.sessions[c].writes[cell];
  }

  lemma {:induction false} TidyRun(actions: seq<Action>)
    requires Run(INIT, actions).Some? && NoFallback(actions)
    ensures InOrder(Run(INIT, actions).value) && Tidy(Run(INIT, actions).value)
  {
    hide Enabled, Apply, InOrder, Tidy, Plain, LockInv;
    SerialExactly(actions);
    if actions == [] {
      InitiallyTidy();
    } else {
      var front, a := actions[..|actions| - 1], actions[|actions| - 1];
      TidyRun(front);
      PlainRun(front);
      TidyStep(Run(INIT, front).value, a);
    }
  }

  lemma InitiallyTidy()
    ensures Tidy(INIT)
  {
    InitialState();
  }

  /** A commit whose transaction's lock-free GETs found what is committed now. */
  ghost predicate GlimpsesHold(s: System, a: Action) {
    a.StartCommit? && Open(s, a.c) ==>
      var glimpses := s.sessions[a.c].glimpses;
      forall i :: 0 <= i < |glimpses| && !glimpses[i].locked ==> Holds(CommittedDb(s), glimpses[i])
  }

  /** Without fallbacks only lock-free GETs can read anything else. */
  lemma TidyReads(s: System, a: Action)
    requires LockInv(s) && Plain(s) && Tidy(s) && Enabled(s, a)
    ensures ReadsHold(s, a) <==> GlimpsesHold(s, a)
  {
    hide LockInv, Settled, CommittedDb, OperateOn, Holds;
    if a.StartCommit? {
      GuardFreeIsCalm(s);
      CalmIsCommitted(s);
      assert Open(s, a.c) ==> LinkOk(s, a.c, true);
    } else if a.Operate? && !s.server.InTransaction(a.c) {
      OperateReadsSettled(s, a.c);
    }
  }

  lemma OperateReadsSettled(s: System, c: ClientId)
    requires LockInv(s) && s.serial == Settled(s) && Enabled(s, Operate(c)) && !s.server.InTransaction(c)
    ensures ReadsHold(s, Operate(c))
  {
    hide LockInv, Settled, OperateOn;
    OperateSettled(s, c);
  }

  lemma {:induction false} TidyReadsThroughout(actions: seq<Action>)
    requires Run(INIT, actions).Some? && NoFallback(actions)
    ensures CleanRun(actions) <==> Throughout(INIT, actions, GlimpsesHold)
  {
    hide Enabled, Apply, InOrder, Tidy, Plain, LockInv, ReadsHold, GlimpsesHold;
    if actions != [] {
      var front, a := actions[..|actions| - 1], actions[|actions| - 1];
      TidyReadsThroughout(front);
      TidyRun(front);
      PlainRun(front);
      TidyReads(Run(INIT, front).value, a);
    }
  }

  /** For every run without fallbacks, whatever lock-free GETs it makes: the same, where
      the condition is that each commit finds in the committed data what its transaction's
      lock-free GETs found, and what the serial run leaves is the settled database. */
  lemma SerialWithoutFallbacks(actions: seq<Action>)
    requires Run(INIT, actions).Some? && NoFallback(actions)
    ensures var s := Run(INIT, actions).value;
            var hold, told := Throughout(INIT, actions, GlimpsesHold), Throughout(INIT, actions, RefusalsHold);
            && Serial(Forgiven(s.log)) == (if hold then Some(Settled(s)) else None)
            && Serial(s.log) == (if hold && told then Some(Settled(s)) else None)
  {
    hide Run, CleanRun, InOrder, Settled, LinksOk;
    SerialExactly(actions);
    TidyRun(actions);
    TidyReadsThroughout(actions);
  }

  // ----- Covered runs -----

  /** Every GET of the transaction was made under the lock. */
  predicate ReadLocked(q: Session) {
    forall i :: 0 <= i < |q.glimpses| ==> q.glimpses[i].locked
  }

  predicate AllLocked(s: System) {
    forall c :: 0 <= c < |s.sessions| ==> ReadLocked(s.sessions[c])
  }

  lemma CoveredStep(s: System, a: Action)
    requires LockInv(s) && Plain(s) && AllLocked(s) && Enabled(s, a) && Disciplined(s, a)
    ensures AllLocked(Apply(s, a)) && GlimpsesHold(s, a)
  {
    hide LockInv, Plain, Apply, ReadLocked, Enabled, SessionOk, TableOk;
    if a == Connect {
      ConnectReadsLocked(s);
    } else {
      StepIsLocal(s, a);
      assert ReadLocked(s.sessions[a.c]);
      OwnReadsLocked(s, a);
      CommitGlimpses(s, a);
    }
  }

  lemma CommitGlimpses(s: System, a: Action)
    requires a.StartCommit? && Open(s, a.c) ==> ReadLocked(s.sessions[a.c])
    ensures GlimpsesHold(s, a)
  {
  }

  lemma ConnectReadsLocked(s: System)
    requires AllLocked(s)
    ensures AllLocked(Apply(s, Connect))
  {
  }

  lemma OwnReadsLocked(s: System, a: Action)
    requires LockInv(s) && Plain(s) && Enabled(s, a) && Disciplined(s, a) && a != Connect
    requires a.c < |s.sessions| && ReadLocked(s.sessions[a.c])
    ensures a.c < |Apply(s, a).sessions| && ReadLocked(Apply(s, a).sessions[a.c])
  {
    hide LockInv, Plain, Precheck, OperateOn, DoRequest, Override;
    match a
    case Access(c, req) => AccessReadsLocked(s, c, req);
    case BareGet(c, req) => BareGetReadsLocked(s, c, req);
    case Operate(c) =>
      hide DoAccess, DoBareGet;
      AutoStaysOutside(s, a);
    case _ => OtherReadsLocked(s, a);
  }

  lemma OtherReadsLocked(s: System, a: Action)
    requires Enabled(s, a) && a != Connect && !a.Access? && !a.BareGet? && !a.Operate?
    requires a.c < |s.sessions| && ReadLocked(s.sessions[a.c])
    ensures a.c < |Apply(s, a).sessions| && ReadLocked(Apply(s, a).sessions[a.c])
  {
    hide Precheck, ServeStack, Override, DoAccess, DoBareGet, DoOperate;
  }

  lemma AccessReadsLocked(s: System, c: ClientId, req: Message)
    requires Enabled(s, Access(c, req)) && ReadLocked(s.sessions[c])
    ensures c < |DoAccess(s, c, req).sessions| && ReadLocked(DoAccess(s, c, req).sessions[c])
  {
    hide DoRequest, ReadLocked;
    var t, q := req.Table(), s.sessions[c];
    NoteReadsLocked(q, req, Refused(LockBusy));
    match Precheck(t in s.server.tables, q.stack, req)
    case Some(response) => NoteReadsLocked(q, req, response);
    case None =>
      if t in s.server.LocksOf(c) {
        RequestReadsLocked(s, c, req);
      } else if s.server.tables[t].holder == None {
        RequestReadsLocked(s.(server := s.server.Acquire(t, c)), c, req);
      }
  }

  lemma BareGetReadsLocked(s: System, c: ClientId, req: Message)
    requires Enabled(s, BareGet(c, req)) && ReadLocked(s.sessions[c]) && req.Table() in s.server.LocksOf(c)
    ensures c < |DoBareGet(s, c, req).sessions| && ReadLocked(DoBareGet(s, c, req).sessions[c])
  {
    hide DoRequest, ReadLocked;
    match Precheck(req.Table() in s.server.tables, s.sessions[c].stack, req)
    case Some(response) => NoteReadsLocked(s.sessions[c], req, response);
    case None => RequestReadsLocked(s, c, req);
  }

  lemma NoteReadsLocked(q: Session, req: Message, response: Response)
    requires ReadLocked(q)
    ensures ReadLocked(q.Note(req, response)) && ReadLocked(q.Answer(response))
  {
  }

  lemma RequestReadsLocked(s: System, c: ClientId, req: Message)
    requires c < |s.sessions| && ReadLocked(s.sessions[c]) && Operable(s.server.tables, s.sessions[c].stack, req)
    requires req.Table() in s.server.LocksOf(c)
    ensures c < |DoRequest(s, c, req).sessions| && ReadLocked(DoRequest(s, c, req).sessions[c])
  {
    hide OperateOn;
  }

  /** Covered runs are clean: there are no lock-free GETs to check. */
  lemma {:induction false} CoveredIsClean(actions: seq<Action>)
    requires CoveredRun(INIT, actions)
    ensures Run(INIT, actions).Some? && NoFallback(actions) && CleanRun(actions)
    ensures Throughout(INIT, actions, GlimpsesHold) && AllLocked(Run(INIT, actions).value)
  {
    hide Enabled, Apply, AllLocked, LockInv, Plain, ReadsHold, GlimpsesHold, CleanRun;
    if actions == [] {
      assert AllLocked(INIT) by { InitiallyAllLocked(); }
    } else {
      var front, a := actions[..|actions| - 1], actions[|actions| - 1];
      CoveredIsClean(front);
      PlainRun(front);
      CoveredStep(Run(INIT, front).value, a);
      assert actions == front + [a];
    }
    TidyReadsThroughout(actions);
  }

  lemma InitiallyAllLocked()
    ensures AllLocked(INIT)
  {
  }

  lemma CleanPrefix(actions: seq<Action>, more: seq<Action>)
    requires CleanRun(actions + more)
    ensures CleanRun(actions)
  {
    ThroughoutPrefix(INIT, actions, more, ReadsHold);
  }

  /** Serializability: after any covered run the log has a serial run with the same
      values read, the same replies and the same stacks, apart from replies that a
      table is missing; with those too exactly when none of the tables was created
      between the reply and the commit. When no commit is inside its loop the
      committed data of all tables is exactly what the serial run leaves. */
  lemma Serializable(actions: seq<Action>)
    requires CoveredRun(INIT, actions)
    ensures Run(INIT, actions).Some?
    ensures var s := Run(INIT, actions).value;
            && Serial(Forgiven(s.log)) == Some(Settled(s))
            && Serial(s.log) == (if Throughout(INIT, actions, RefusalsHold) then Some(Settled(s)) else None)
            && (Calm(s) ==> CommittedDb(s) == Settled(s))
  {
    hide Run, CleanRun, Calm, Settled, CommittedDb, InOrder;
    CoveredIsClean(actions);
    SerialWithoutFallbacks(actions);
    if Calm(Run(INIT, actions).value) {
      CalmIsCommitted(Run(INIT, actions).value);
    }
  }

  /** The check that a GET or SET fails when its table is missing. */
  predicate IsToldMissing(s: System, a: Action) {
    && Enabled(s, a) && (a.Access? || a.BareGet? || a.StartAuto?)
    && Precheck(a.req.Table() in s.server.tables, s.sessions[a.c].stack, a.req) == Some(Refused(NoTable))
  }

  /** A GET or SET is told that its table is missing, in a transaction or outside, with
      the lock or without, exactly while the log has not created it. */
  lemma MissingIsNotLogged(actions: seq<Action>, a: Action)
    requires Run(INIT, actions).Some?
    requires var s := Run(INIT, actions).value;
             Enabled(s, a) && (a.Access? || a.BareGet? || a.StartAuto?) && a.req.Valid()
    ensures var s := Run(INIT, actions).value;
            && (IsToldMissing(s, a) <==> Creation(a.req.Table()) !in s.log)
            && (IsToldMissing(s, a) ==> Apply(s, a).sessions[a.c].last == Refused(NoTable))
  {
    hide Run, CleanRun, LockInv, LinksOk, TransactionOk, Serial, OperateOn;
    SerialExactly(actions);
  }
}
