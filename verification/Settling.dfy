/** The database a state stands for: committed data, except that a table still to be
    published by a commit loop already counts with its pending changes. What each step
    does to it. */
module Settling {
  import opened Wrappers
  import opened Messages
  import opened Tables
  import opened Handlers
  import opened Transactions
  import opened Locking

  predicate Publishing(s: System, holder: Option<ClientId>) {
    holder.Some? && holder.value < |s.sessions| && s.sessions[holder.value].phase.Committing?
  }

  /** Committed data, except that a table still to be published by a commit loop
      already counts with its pending changes. */
  function SettledTable(s: System, t: string): Data
    requires t in s.server.tables
  {
    var ts := s.server.tables[t];
    if Publishing(s, ts.holder) then ts.Visible() else ts.data
  }

  function Settled(s: System): Db {
    map t | t in s.server.tables :: SettledTable(s, t)
  }

  function CommittedDb(s: System): Db {
    map t | t in s.server.tables :: s.server.tables[t].data
  }

  /** No commit is inside its loop. */
  ghost predicate Calm(s: System) {
    forall c :: 0 <= c < |s.sessions| ==> !s.sessions[c].phase.Committing?
  }

  lemma CalmIsCommitted(s: System)
    requires Calm(s)
    ensures Settled(s) == CommittedDb(s)
  {
  }

  /** With the guard free no commit is inside its loop. */
  lemma GuardFreeIsCalm(s: System)
    requires LockInv(s) && s.guard == None
    ensures Calm(s)
  {
    forall c | 0 <= c < |s.sessions| ensures !s.sessions[c].phase.Committing? {
      assert SessionOk(s, c);
    }
  }

  /** db with c's pending changes: what c would see. */
  function Overlaid(s: System, c: ClientId, db: Db): Db {
    map t | t in db ::
      if t in s.server.LocksOf(c) && t in s.server.tables then s.server.tables[t].Visible() else db[t]
  }

  lemma SetIsVisible(ts: TableState, k: string, v: string)
    ensures ts.Set(k, v).Visible() == ts.Visible()[k := v]
    ensures ts.overlay == map[] ==> ts.Visible() == ts.data
    ensures ts.overlay == map[] ==> ts.Set(k, v).Commit().data == ts.data[k := v]
  {
  }

  // ----- Steps that make nothing permanent -----

  lemma AccessKeepsTables(s: System, c: ClientId, req: Message)
    requires Enabled(s, Access(c, req))
    ensures DoAccess(s, c, req).log == s.log && DoAccess(s, c, req).serial == s.serial
    ensures DoAccess(s, c, req).server.tables.Keys == s.server.tables.Keys
    ensures c < |DoAccess(s, c, req).sessions| && DoAccess(s, c, req).sessions[c].phase == Idle
    ensures s.server.LocksOf(c) <= DoAccess(s, c, req).server.LocksOf(c)
  {
    hide OperateOn;
  }

  /** The log, the database it makes and the settled database are as they were. */
  ghost predicate LeavesLog(s: System, s': System) {
    s'.log == s.log && s'.serial == s.serial && Settled(s') == Settled(s)
  }

  /** A local step of c that keeps the settled contents of c's tables keeps the
      settled database. */
  lemma SettledFrame(s: System, s': System, c: ClientId)
    requires LockInv(s) && LocalStep(s, s', c)
    requires s'.server.tables.Keys == s.server.tables.Keys
    requires forall t :: t in Owned(s, c) + Owned(s', c) ==>
               t in s.server.tables && SettledTable(s', t) == SettledTable(s, t)
    ensures Settled(s') == Settled(s)
  {
    hide LockInv, SettledTable, SessionOk, TableOk;
    forall t | t in s.server.tables ensures SettledTable(s', t) == SettledTable(s, t) {
      if t in Owned(s, c) + Owned(s', c) {
      } else {
        SettledElsewhere(s, s', c, t);
      }
    }
  }

  /** A local step does not move the database at tables the client does not own. */
  lemma SettledElsewhere(s: System, s': System, c: ClientId, t: string)
    requires LockInv(s) && LocalStep(s, s', c)
    requires t in s.server.tables && t !in Owned(s, c) && t !in Owned(s', c)
    ensures t in s'.server.tables && SettledTable(s', t) == SettledTable(s, t)
  {
    TableFacts(s, t);
  }

  /** The steps that make nothing permanent. */
  predicate IsQuiet(s: System, a: Action) {
    match a
    case Connect => true
    case Create(c, name) => name in s.server.tables
    case Operate(_) => false
    case StartCommit(c) => !s.server.InTransaction(c)
    case _ => true
  }

  lemma QuietSettled(s: System, a: Action)
    requires LockInv(s) && Enabled(s, a) && IsQuiet(s, a)
    ensures LeavesLog(s, Apply(s, a))
  {
    var s' := Apply(s, a);
    if a == Connect {
      forall t | t in s.server.tables ensures SettledTable(s', t) == SettledTable(s, t) {
        TableFacts(s, t);
      }
      assert Settled(s') == Settled(s);
    } else if a.Access? {
      hide LockInv, LocalStep, Precheck, Enabled, Apply;
      StepIsLocal(s, a);
      AccessSettled(s, a.c, a.req);
      SettledFrame(s, s', a.c);
    } else {
      hide LockInv, LocalStep, Precheck;
      StepIsLocal(s, a);
      OwnFacts(s, a.c);
      QuietOwnTables(s, a);
      SettledFrame(s, s', a.c);
    }
  }

  ghost predicate OwnTablesSettled(s: System, s': System, c: ClientId)
    requires c < |s.sessions| && c < |s'.sessions|
  {
    && s'.log == s.log && s'.serial == s.serial && s'.server.tables.Keys == s.server.tables.Keys
    && forall t :: t in Owned(s, c) + Owned(s', c) ==>
         t in s.server.tables && SettledTable(s', t) == SettledTable(s, t)
  }

  lemma AccessSettled(s: System, c: ClientId, req: Message)
    requires LockInv(s) && Enabled(s, Access(c, req))
    ensures c < |DoAccess(s, c, req).sessions| && OwnTablesSettled(s, DoAccess(s, c, req), c)
  {
    hide LockInv, Precheck, DoAccess, TableOk, SessionOk;
    OwnFacts(s, c);
    AccessStep(s, c, req);
    AccessKeepsTables(s, c, req);
    forall t | t in s.server.tables ensures DoAccess(s, c, req).server.tables[t].data == s.server.tables[t].data {
      AccessKeepsData(s, c, req, t);
    }
  }

  lemma RequestKeepsData(s: System, c: ClientId, req: Message, t: string)
    requires c < |s.sessions| && Operable(s.server.tables, s.sessions[c].stack, req) && t in s.server.tables
    ensures var s' := DoRequest(s, c, req);
            && t in s'.server.tables && s'.server.tables[t].data == s.server.tables[t].data
            && s'.server.locks == s.server.locks && s'.server.active == s.server.active
            && |s'.sessions| == |s.sessions| && s'.sessions[c].phase == s.sessions[c].phase
  {
  }

  lemma AccessKeepsData(s: System, c: ClientId, req: Message, t: string)
    requires Enabled(s, Access(c, req)) && t in s.server.tables
    ensures var s' := DoAccess(s, c, req);
            && t in s'.server.tables && s'.server.tables[t].data == s.server.tables[t].data
            && s.server.LocksOf(c) <= s'.server.LocksOf(c) && s'.server.InTransaction(c)
            && c < |s'.sessions| && s'.sessions[c].phase == Idle
  {
    hide DoRequest;
    if Precheck(req.Table() in s.server.tables, s.sessions[c].stack, req) == None {
      if req.Table() in s.server.LocksOf(c) {
        RequestKeepsData(s, c, req, t);
      } else if s.server.tables[req.Table()].holder == None {
        RequestKeepsData(s.(server := s.server.Acquire(req.Table(), c)), c, req, t);
      }
    }
  }

  lemma QuietOwnTables(s: System, a: Action)
    requires LockInv(s) && Enabled(s, a) && IsQuiet(s, a) && a != Connect && !a.Access?
    ensures a.c < |s.sessions| && a.c < |Apply(s, a).sessions| && OwnTablesSettled(s, Apply(s, a), a.c)
  {
    hide LockInv, Enabled, Apply, OwnTablesSettled;
    if a.CommitTable? || a.RollbackTable? {
      LoopOwnTables(s, a.c, a.table, a);
    } else if IsEnding(a) {
      EndingOwnTables(s, a);
    } else {
      RequestOwnTables(s, a);
    }
  }

  predicate IsEnding(a: Action) {
    a.StartCommit? || a.EndCommit? || a.StartRollback? || a.EndRollback? || a.CommitTable? || a.RollbackTable?
  }

  lemma EndingOwnTables(s: System, a: Action)
    requires LockInv(s) && Enabled(s, a) && IsQuiet(s, a) && IsEnding(a) && !a.CommitTable? && !a.RollbackTable?
    ensures a.c < |s.sessions| && a.c < |Apply(s, a).sessions| && OwnTablesSettled(s, Apply(s, a), a.c)
  {
    hide LockInv;
    OwnFacts(s, a.c);
  }

  lemma RequestOwnTables(s: System, a: Action)
    requires LockInv(s) && Enabled(s, a) && IsQuiet(s, a) && a != Connect && !a.Access? && !IsEnding(a)
    ensures a.c < |s.sessions| && a.c < |Apply(s, a).sessions| && OwnTablesSettled(s, Apply(s, a), a.c)
  {
    hide LockInv, OwnTablesSettled, Enabled, Apply;
    if a.Acquire? {
      AcquireOwnTables(s, a.c);
    } else if IsAuto(a) {
      AutoOwnTables(s, a);
    } else {
      SessionOwnTables(s, a);
    }
  }

  lemma AutoOwnTables(s: System, a: Action)
    requires LockInv(s) && Enabled(s, a) && IsQuiet(s, a) && IsAuto(a) && !a.Acquire?
    ensures a.c < |s.sessions| && a.c < |Apply(s, a).sessions| && OwnTablesSettled(s, Apply(s, a), a.c)
  {
    hide LockInv, Precheck, TableOk, SessionOk, Override, TableState.Visible;
    OwnFacts(s, a.c);
  }

  lemma AcquireOwnTables(s: System, c: ClientId)
    requires LockInv(s) && Enabled(s, Acquire(c))
    ensures var s' := Apply(s, Acquire(c)); c < |s.sessions| == |s'.sessions| && OwnTablesSettled(s, s', c)
  {
    hide LockInv, Precheck, TableOk, SessionOk;
    OwnFacts(s, c);
  }

  /** Steps that change the client's session and no table. */
  lemma SessionOwnTables(s: System, a: Action)
    requires LockInv(s) && Enabled(s, a) && IsQuiet(s, a)
    requires a != Connect && !a.Access? && !IsEnding(a) && !IsAuto(a)
    ensures a.c < |s.sessions| && a.c < |Apply(s, a).sessions| && OwnTablesSettled(s, Apply(s, a), a.c)
  {
    hide LockInv, Precheck, ServeStack, OperateOn, TableOk, SessionOk;
    OwnFacts(s, a.c);
    if a.BareGet? {
      BareGetChangesSession(s, a.c, a.req);
    }
  }

  /** One round of the commit or the rollback loop moves no settled contents. */
  lemma LoopOwnTables(s: System, c: ClientId, t: string, a: Action)
    requires LockInv(s) && Enabled(s, a) && (a == CommitTable(c, t) || a == RollbackTable(c, t))
    ensures c < |s.sessions| == |Apply(s, a).sessions| && OwnTablesSettled(s, Apply(s, a), c)
  {
    hide LockInv;
    OwnFacts(s, c);
    assert t in Owned(s, c);
  }

  // ----- Steps that do -----

  lemma SettledKeys(s: System)
    ensures Settled(s).Keys == s.server.tables.Keys
  {
  }

  lemma CreateSettled(s: System, c: ClientId, name: string)
    requires LockInv(s) && Enabled(s, Create(c, name)) && name !in s.server.tables
    ensures Settled(DoCreate(s, c, name)) == Settled(s)[name := map[]]
  {
    hide LockInv, SettledTable;
    var s' := DoCreate(s, c, name);
    forall t | t in s.server.tables ensures SettledTable(s', t) == SettledTable(s, t) {
      CreateElsewhere(s, c, name, t);
    }
    NewTableSettled(s', name);
  }

  lemma NewTableSettled(s: System, name: string)
    requires name in s.server.tables && s.server.tables[name] == NEW_TABLE
    ensures SettledTable(s, name) == map[]
  {
  }

  lemma CreateElsewhere(s: System, c: ClientId, name: string, t: string)
    requires Enabled(s, Create(c, name)) && name !in s.server.tables && t in s.server.tables
    ensures t in DoCreate(s, c, name).server.tables && SettledTable(DoCreate(s, c, name), t) == SettledTable(s, t)
  {
  }

  /** Entering the commit loop is the moment what c sees becomes the settled database,
      which until then is the committed one. */
  lemma StartCommitSettles(s: System, c: ClientId)
    requires LockInv(s) && Enabled(s, StartCommit(c)) && s.server.InTransaction(c)
    ensures Settled(DoStartCommit(s, c)) == Overlaid(s, c, Settled(s))
    ensures Settled(s) == CommittedDb(s)
  {
    var s' := DoStartCommit(s, c);
    OwnFacts(s, c);
    GuardFreeIsCalm(s);
    CalmIsCommitted(s);
    forall t | t in s.server.tables ensures Settled(s')[t] == Overlaid(s, c, Settled(s))[t] {
      TableFacts(s, t);
    }
  }

  /** What such a request does to the database. */
  lemma OperateSettled(s: System, c: ClientId)
    requires LockInv(s) && Enabled(s, Operate(c))
    ensures var q, s' := s.sessions[c], DoOperate(s, c);
            var t, k := q.phase.req.Table(), q.phase.req.Key();
            && t in Settled(s) && s.server.tables[t] == TableState(Settled(s)[t], map[], Some(c))
            && Settled(s') ==
               if q.phase.req.messageType == SET then Settled(s)[t := Settled(s)[t][k := Top(q.stack)]] else Settled(s)
  {
    hide LockInv, LocalStep, SettledTable, OperateOn, Precheck;
    var s' := DoOperate(s, c);
    var t := s.sessions[c].phase.req.Table();
    OperateOwnTable(s, c);
    forall u | u in s.server.tables && u != t ensures SettledTable(s', u) == SettledTable(s, u) {
      OperateElsewhere(s, c, u);
    }
  }

  lemma OperateElsewhere(s: System, c: ClientId, u: string)
    requires LockInv(s) && Enabled(s, Operate(c)) && u in s.server.tables && u != s.sessions[c].phase.req.Table()
    ensures u in DoOperate(s, c).server.tables && SettledTable(DoOperate(s, c), u) == SettledTable(s, u)
  {
    hide LockInv, OperateOn, Precheck;
  }

  lemma OperateOwnTable(s: System, c: ClientId)
    requires LockInv(s) && Enabled(s, Operate(c))
    ensures var q, s' := s.sessions[c], DoOperate(s, c);
            var t, k := q.phase.req.Table(), q.phase.req.Key();
            var ts := s.server.tables[t];
            && ts == TableState(ts.data, map[], Some(c)) && SettledTable(s, t) == ts.data
            && SettledTable(s', t) == if q.phase.req.messageType == SET then ts.data[k := Top(q.stack)] else ts.data
  {
    hide LockInv, Precheck;
    var q := s.sessions[c];
    var t, k := q.phase.req.Table(), q.phase.req.Key();
    OwnFacts(s, c);
    assert t in Owned(s, c);
    if q.phase.req.messageType == SET {
      SetIsVisible(s.server.tables[t], k, Top(q.stack));
    }
  }
}
