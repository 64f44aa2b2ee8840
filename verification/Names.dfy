/** What the checks on names keep: every table and every key there ever is, committed,
    pending or of the serial database, is an identifier. */
module Names {
  import opened Wrappers
  import opened Messages
  import opened Tables
  import opened Handlers
  import opened Transactions
  import opened Locking
  import opened Replies

  predicate Named(data: Data) {
    forall k :: k in data ==> IsIdentifier(k)
  }

  predicate NamedDb(db: Db) {
    forall t :: t in db ==> IsIdentifier(t) && Named(db[t])
  }

  predicate NamedWrites(writes: map<CellRef, string>) {
    forall cell :: cell in writes ==> IsIdentifier(cell.table) && IsIdentifier(cell.key)
  }

  predicate NamedTable(t: string, ts: TableState) {
    IsIdentifier(t) && Named(ts.data) && Named(ts.overlay)
  }

  ghost predicate NamedTables(s: System) {
    forall t :: t in s.server.tables ==> NamedTable(t, s.server.tables[t])
  }

  ghost predicate NamedSessions(s: System) {
    forall c :: 0 <= c < |s.sessions| ==> NamedWrites(s.sessions[c].writes)
  }

  ghost predicate AllNamed(s: System) {
    NamedTables(s) && NamedSessions(s) && NamedDb(s.serial)
  }

  lemma OverrideNamed(db: Db, writes: map<CellRef, string>)
    requires NamedDb(db) && NamedWrites(writes)
    ensures NamedDb(Override(db, writes))
  {
    forall t | t in db ensures Named(db[t] + KeysOf(writes, t)) {
      forall k | k in KeysOf(writes, t) ensures IsIdentifier(k) {
        assert At(t, k) in writes;
      }
    }
  }

  lemma OperationNamed(ts: TableState, stack: Stack, req: Message)
    requires NamedTable(req.Table(), ts) && (req.messageType == SET ==> stack != [] && IsIdentifier(req.Key()))
    ensures NamedTable(req.Table(), OperateOn(ts, stack, req).table)
    ensures NamedTable(req.Table(), OperateOn(ts, stack, req).table.Commit())
  {
    hide IsIdentifier;
  }

  lemma KeepNamed(q: Session, req: Message, found: Option<string>, locked: bool)
    requires NamedWrites(q.writes)
    requires req.messageType == SET ==> q.stack != [] && IsIdentifier(req.Table()) && IsIdentifier(req.Key())
    ensures NamedWrites(q.Keep(req, found, locked).writes)
  {
    hide IsIdentifier;
  }

  lemma RequestNamed(s: System, c: ClientId, req: Message)
    requires AllNamed(s) && c < |s.sessions| && Operable(s.server.tables, s.sessions[c].stack, req)
    requires req.messageType == SET ==> IsIdentifier(req.Table()) && IsIdentifier(req.Key())
    ensures AllNamed(DoRequest(s, c, req))
  {
    hide IsIdentifier, NamedTable, NamedWrites, OperateOn, NamedDb, Session.Keep;
    OperationNamed(s.server.tables[req.Table()], s.sessions[c].stack, req);
    KeepNamed(s.sessions[c], req, s.server.tables[req.Table()].Get(req.Key()), req.Table() in s.server.LocksOf(c));
  }

  lemma AccessNamed(s: System, c: ClientId, req: Message)
    requires AllNamed(s) && Enabled(s, Access(c, req))
    ensures AllNamed(DoAccess(s, c, req))
  {
    hide IsIdentifier, NamedWrites, NamedDb, DoRequest, Precheck;
    var t, q := req.Table(), s.sessions[c];
    CheckLaw(t in s.server.tables, q.stack, req);
    if Precheck(t in s.server.tables, q.stack, req) == None {
      if t in s.server.LocksOf(c) {
        RequestNamed(s, c, req);
      } else if s.server.tables[t].holder == None {
        RequestNamed(s.(server := s.server.Acquire(t, c)), c, req);
      }
    }
  }

  lemma BareGetNamed(s: System, c: ClientId, req: Message)
    requires AllNamed(s) && Enabled(s, BareGet(c, req))
    ensures AllNamed(DoBareGet(s, c, req))
  {
    hide IsIdentifier, NamedTable, NamedWrites, NamedDb, DoRequest, Precheck;
    CheckLaw(req.Table() in s.server.tables, s.sessions[c].stack, req);
    if Precheck(req.Table() in s.server.tables, s.sessions[c].stack, req) == None {
      RequestNamed(s, c, req);
    }
  }

  lemma OperateNamed(s: System, c: ClientId)
    requires LockInv(s) && AllNamed(s) && Enabled(s, Operate(c))
    ensures AllNamed(DoOperate(s, c))
  {
    hide LockInv, IsIdentifier, NamedTable, NamedWrites, OperateOn, NamedDb, Session.Keep, Precheck, Override, TableOk;
    OwnFacts(s, c);
    var q, req := s.sessions[c], s.sessions[c].phase.req;
    var t, k := req.Table(), req.Key();
    CheckLaw(t in s.server.tables, q.stack, req);
    OperationNamed(s.server.tables[t], q.stack, req);
    KeepNamed(q, req, s.server.tables[t].Get(k), false);
    if req.messageType == SET {
      OneNamed(t, k, Top(q.stack));
      OverrideNamed(s.serial, map[At(t, k) := Top(q.stack)]);
    }
  }

  lemma OneNamed(t: string, k: string, v: string)
    requires IsIdentifier(t) && IsIdentifier(k)
    ensures NamedWrites(map[At(t, k) := v])
  {
    hide IsIdentifier;
  }

  lemma LoopNamed(s: System, c: ClientId, t: string, a: Action)
    requires AllNamed(s) && Enabled(s, a) && (a == CommitTable(c, t) || a == RollbackTable(c, t))
    ensures AllNamed(Apply(s, a))
  {
    hide IsIdentifier, NamedWrites, NamedDb;
  }

  lemma CreateNamed(s: System, c: ClientId, name: string)
    requires AllNamed(s) && Enabled(s, Create(c, name))
    ensures AllNamed(DoCreate(s, c, name))
  {
    hide IsIdentifier, NamedWrites;
  }

  /** The other steps make no new names. */
  lemma OtherNamed(s: System, a: Action)
    requires AllNamed(s) && Enabled(s, a) && !a.Access? && !a.BareGet? && !a.Operate? && !a.Create?
    requires !a.CommitTable? && !a.RollbackTable?
    ensures AllNamed(Apply(s, a))
  {
    hide AllNamed, Apply, Enabled;
    if a.StartCommit? {
      StartCommitNamed(s, a.c);
    } else if a.Acquire? || a.Release? {
      LockNamed(s, a);
    } else {
      SessionNamed(s, a);
    }
  }

  lemma StartCommitNamed(s: System, c: ClientId)
    requires AllNamed(s) && Enabled(s, StartCommit(c))
    ensures AllNamed(Apply(s, StartCommit(c)))
  {
    hide IsIdentifier, NamedDb, Override, NamedTable;
    OverrideNamed(s.serial, s.sessions[c].writes);
  }

  lemma LockNamed(s: System, a: Action)
    requires AllNamed(s) && Enabled(s, a) && (a.Acquire? || a.Release?)
    ensures AllNamed(Apply(s, a))
  {
    hide IsIdentifier, NamedDb, NamedWrites;
  }

  lemma SessionNamed(s: System, a: Action)
    requires AllNamed(s) && Enabled(s, a)
    requires a == Connect || a.Begin? || a.OnStack? || a.FallBack? || a.StartAuto? || a.Refind? || a.EndCommit?
      || a.StartRollback? || a.EndRollback? || a.Bye?
    ensures AllNamed(Apply(s, a))
  {
    hide IsIdentifier, NamedDb, NamedTable, Precheck, ServeStack;
  }

  lemma NamedStep(s: System, a: Action)
    requires LockInv(s) && AllNamed(s) && Enabled(s, a)
    ensures AllNamed(Apply(s, a))
  {
    hide LockInv, AllNamed, Precheck;
    match a
    case Access(c, req) => AccessNamed(s, c, req);
    case BareGet(c, req) => BareGetNamed(s, c, req);
    case Operate(c) => OperateNamed(s, c);
    case Create(c, name) => CreateNamed(s, c, name);
    case CommitTable(c, t) => LoopNamed(s, c, t, a);
    case RollbackTable(c, t) => LoopNamed(s, c, t, a);
    case _ => OtherNamed(s, a);
  }

  /** In every run, whatever anyone does about locks, every table's name and every key of
      its committed data, its pending changes and the serial database is an identifier. */
  lemma {:induction false} NamesAreIdentifiers(actions: seq<Action>)
    requires Run(INIT, actions).Some?
    ensures var s := Run(INIT, actions).value;
            LockInv(s) && AllNamed(s)
  {
    hide Enabled, Apply, AllNamed, LockInv;
    LocksAlwaysInOrder(actions);
    if actions == [] {
      assert AllNamed(INIT) by { InitiallyNamed(); }
    } else {
      NamesAreIdentifiers(actions[..|actions| - 1]);
      NamedStep(Run(INIT, actions[..|actions| - 1]).value, actions[|actions| - 1]);
    }
  }

  lemma InitiallyNamed()
    ensures AllNamed(INIT)
  {
  }
}
