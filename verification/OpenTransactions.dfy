/** What holds of every transaction still open, in every state and whatever anyone does
    about locks: run alone on any database, it gets the replies it got exactly when its
    GETs find there what they found, and then it ends with its stack and its writes. */
module OpenTransactions {
  import opened Wrappers
  import opened Messages
  import opened Tables
  import opened Handlers
  import opened Transactions
  import opened Locking
  import opened SerialRuns

  /** What a GET found is what the database holds. */
  predicate Holds(db: Db, g: Glimpse) {
    g.cell.table in db && CellText(db, g.cell.table, g.cell.key) == g.found
  }

  predicate AllHold(db: Db, glimpses: seq<Glimpse>) {
    forall i :: 0 <= i < |glimpses| ==> Holds(db, glimpses[i])
  }

  lemma AllHoldAppend(db: Db, glimpses: seq<Glimpse>, g: Glimpse)
    ensures AllHold(db, glimpses + [g]) <==> AllHold(db, glimpses) && Holds(db, g)
  {
    var all := glimpses + [g];
    assert all[|glimpses|] == g && forall i :: 0 <= i < |glimpses| ==> all[i] == glimpses[i];
  }

  /** Every GET would find in db what it found. */
  predicate ReadsAlike(q: Session, db: Db) {
    !q.misread && AllHold(db, q.glimpses)
  }

  /** The transaction of q, run alone from db. */
  ghost predicate PlaysBack(q: Session, db: Db) {
    Replay(Machine(db, q.start), ForgivenTrace(q.trace)) ==
    if ReadsAlike(q, db) then Some(Machine(Override(db, q.writes), q.stack)) else None
  }

  /** The client is in a transaction that is not ending. */
  predicate Open(s: System, c: ClientId) {
    c < |s.sessions| && s.server.InTransaction(c) && !Ending(s.sessions[c].phase)
  }

  predicate HasTables(s: System, db: Db) {
    s.server.tables.Keys <= db.Keys
  }

  /** An open transaction plays back on every database that has the tables there are. */
  ghost predicate TransactionOk(s: System, c: ClientId)
    requires c < |s.sessions|
  {
    Open(s, c) ==>
      && ToldProperly(s.sessions[c].trace)
      && forall db :: HasTables(s, db) ==> PlaysBack(s.sessions[c], db)
  }

  ghost predicate TransactionsOk(s: System) {
    LockInv(s) && forall c :: 0 <= c < |s.sessions| ==> TransactionOk(s, c)
  }

  // ----- Transactions a step leaves alone -----

  predicate SameHistory(q: Session, q': Session) {
    && q'.stack == q.stack && q'.start == q.start && q'.trace == q.trace
    && q'.glimpses == q.glimpses && q'.writes == q.writes && q'.misread == q.misread
  }

  lemma UndisturbedTransaction(s: System, s': System, d: ClientId)
    requires d < |s.sessions| && d < |s'.sessions| && TransactionOk(s, d)
    requires Open(s', d) ==> Open(s, d) && SameHistory(s.sessions[d], s'.sessions[d])
    requires s.server.tables.Keys <= s'.server.tables.Keys
    ensures TransactionOk(s', d)
  {
    hide Replay, ReadsAlike, Override;
    if Open(s', d) {
      forall db | HasTables(s', db) ensures PlaysBack(s'.sessions[d], db) {
        assert HasTables(s, db) && PlaysBack(s.sessions[d], db);
        SameReads(s.sessions[d], s'.sessions[d], db);
      }
    }
  }

  /** A local step of c after which its own transaction is in order. */
  lemma LocalTransactionsOk(s: System, s': System, c: ClientId)
    requires TransactionsOk(s) && LocalStep(s, s', c) && TransactionOk(s', c)
    ensures TransactionsOk(s')
  {
    hide PlaysBack, SessionOk, TableOk, LockInv;
    LocalStepKeepsLockInv(s, s', c);
    forall d | 0 <= d < |s'.sessions| ensures TransactionOk(s', d) {
      if d != c {
        UndisturbedTransaction(s, s', d);
      }
    }
  }

  /** A local step of c after which its transaction is over, not yet begun, or as it was. */
  lemma QuietTransactions(s: System, s': System, c: ClientId)
    requires TransactionsOk(s) && LocalStep(s, s', c)
    requires Open(s', c) ==> Open(s, c) && SameHistory(s.sessions[c], s'.sessions[c])
    ensures TransactionsOk(s')
  {
    hide PlaysBack, SessionOk, TableOk, LockInv;
    assert TransactionOk(s, c);
    UndisturbedTransaction(s, s', c);
    LocalTransactionsOk(s, s', c);
  }

  // ----- Requests recorded in a transaction -----

  /** From q to q' a reply e is recorded that is, whatever the database, the one its
      request gets from a lone client, given what was found. */
  ghost predicate Extends(q: Session, q': Session, e: Event, db: Db) {
    && (ReadsAlike(q', db) ==> ReadsAlike(q, db))
    && (ReadsAlike(q, db) ==>
         var o := Serve(Machine(Override(db, q.writes), q.stack), e.req);
         && (o.response == e.response <==> ReadsAlike(q', db))
         && (o.response == e.response ==> o.machine == Machine(Override(db, q'.writes), q'.stack)))
  }

  lemma ExtendTransaction(s: System, s': System, c: ClientId, e: Event)
    requires Open(s, c) && TransactionOk(s, c) && |s'.sessions| == |s.sessions|
    requires s'.server.tables.Keys == s.server.tables.Keys
    requires var q, q' := s.sessions[c], s'.sessions[c];
             && q'.start == q.start && q'.trace == q.trace + [e]
             && (ToldMissing(e) ==> IsTableRequest(e.req.messageType) && e.req.Valid())
             && if ToldMissing(e) then SameHistory(q.(trace := q'.trace), q')
                else forall db :: HasTables(s, db) ==> Extends(q, q', e, db)
    ensures TransactionOk(s', c)
  {
    hide Serve, ReadsAlike, Override;
    var q, q' := s.sessions[c], s'.sessions[c];
    ForgivenTraceAppend(q.trace, e);
    forall db | Open(s', c) && HasTables(s', db) ensures PlaysBack(q', db) {
      assert HasTables(s, db) && PlaysBack(q, db);
      if ToldMissing(e) {
        assert ReadsAlike(q', db) == ReadsAlike(q, db) by { SameReads(q, q', db); }
      } else {
        assert Extends(q, q', e, db);
        ReplayAppend(Machine(db, q.start), ForgivenTrace(q.trace), e);
      }
    }
  }

  lemma SameReads(q: Session, q': Session, db: Db)
    requires q'.glimpses == q.glimpses && q'.misread == q.misread
    ensures ReadsAlike(q', db) == ReadsAlike(q, db)
  {
  }

  /** A reply that depends on neither the keys of the database nor the history. */
  lemma PlainlyExtends(q: Session, q': Session, e: Event, db: Db)
    requires q'.glimpses == q.glimpses && q'.writes == q.writes && q'.misread == q.misread
    requires var o := Serve(Machine(Override(db, q.writes), q.stack), e.req);
             o.response == e.response && o.machine == Machine(Override(db, q.writes), q'.stack)
    ensures Extends(q, q', e, db)
  {
    hide Serve, Override;
  }

  lemma OnStackTransactions(s: System, c: ClientId, req: Message)
    requires TransactionsOk(s) && Enabled(s, OnStack(c, req))
    ensures TransactionsOk(DoStack(s, c, req))
  {
    hide ServeStack, LocalStep, LockInv, PlaysBack, Override, Extends;
    var s' := DoStack(s, c, req);
    OnStackStep(s, c, req);
    if s.server.InTransaction(c) {
      var e := Event(req, ServeStack(s.sessions[c].stack, req).response);
      StackReplies(s.sessions[c].stack, req);
      forall db | HasTables(s, db) ensures Extends(s.sessions[c], s'.sessions[c], e, db) {
        PlainlyExtends(s.sessions[c], s'.sessions[c], e, db);
      }
      assert TransactionOk(s, c);
      ExtendTransaction(s, s', c, e);
      LocalTransactionsOk(s, s', c);
    } else {
      QuietTransactions(s, s', c);
    }
  }

  lemma StackReplies(stack: Stack, req: Message)
    ensures ServeStack(stack, req).response != Refused(NoTable)
  {
  }

  /** A request that fails its checks gets the same reply on every database that has
      the tables there are, except that a missing table may have been created. */
  lemma RejectedTransactions(s: System, c: ClientId, req: Message)
    requires TransactionsOk(s) && Ready(s, c) && s.server.InTransaction(c) && IsTableRequest(req.messageType)
    requires Precheck(req.Table() in s.server.tables, s.sessions[c].stack, req).Some?
    ensures var response := Precheck(req.Table() in s.server.tables, s.sessions[c].stack, req).value;
            TransactionsOk(s.Put(c, s.sessions[c].Note(req, response)))
  {
    hide LocalStep, LockInv, PlaysBack, Replay, Extends;
    var e := Event(req, Precheck(req.Table() in s.server.tables, s.sessions[c].stack, req).value);
    var s' := s.Put(c, s.sessions[c].Note(req, e.response));
    RejectStep(s, c, s'.sessions[c]);
    forall db | HasTables(s, db) && !ToldMissing(e) ensures Extends(s.sessions[c], s'.sessions[c], e, db) {
      PlainlyExtends(s.sessions[c], s'.sessions[c], e, db);
    }
    assert TransactionOk(s, c);
    ExtendTransaction(s, s', c, e);
    LocalTransactionsOk(s, s', c);
  }

  /** A request carried out on a table: alone on a database with the transaction's writes
      made, c would get its reply exactly when the GET finds there what it found. */
  lemma KeepExtends(q: Session, q': Session, ts: TableState, req: Message, locked: bool, db: Db)
    requires IsTableRequest(req.messageType) && (req.messageType == SET ==> q.stack != [])
    requires Precheck(true, q.stack, req) == None && req.Table() in db
    requires var o := OperateOn(ts, q.stack, req);
             SameHistory(q.Keep(req, ts.Get(req.Key()), locked)
                          .(stack := o.stack, trace := q.trace + [Event(req, o.response)]), q')
    ensures var e := Event(req, OperateOn(ts, q.stack, req).response);
            !ToldMissing(e) && Extends(q, q', e, db)
  {
    hide Override, AllHold;
    var t, k := req.Table(), req.Key();
    OverrideText(db, q.writes, t, k);
    OverrideHas(db, q.writes, t);
    if req.messageType == SET {
      OverrideOne(db, q.writes, t, k, Top(q.stack));
    } else if At(t, k) !in q.writes {
      AllHoldAppend(db, q.glimpses, Glimpse(At(t, k), ts.Get(k), locked));
    }
  }

  lemma OverrideHas(db: Db, writes: map<CellRef, string>, t: string)
    ensures t in Override(db, writes) <==> t in db
  {
  }

  lemma PassedHasTable(s: System, stack: Stack, req: Message)
    requires Passed(s, stack, req)
    ensures req.Table() in s.server.tables && Precheck(true, stack, req) == None
  {
  }

  /** A step of c that carries a request out on a table and records it. */
  lemma KeepTransactions(s: System, s': System, c: ClientId, req: Message, locked: bool)
    requires TransactionsOk(s) && Open(s, c) && LocalStep(s, s', c)
    requires s'.server.tables.Keys == s.server.tables.Keys
    requires Passed(s, s.sessions[c].stack, req)
    requires var q, ts := s.sessions[c], s.server.tables[req.Table()];
             && (req.messageType == SET ==> q.stack != [])
             && var o := OperateOn(ts, q.stack, req);
                SameHistory(q.Keep(req, ts.Get(req.Key()), locked)
                             .(stack := o.stack, trace := q.trace + [Event(req, o.response)]), s'.sessions[c])
    ensures TransactionsOk(s')
  {
    hide LockInv, PlaysBack, Extends, OperateOn, SessionOk, TableOk, Precheck;
    PassedHasTable(s, s.sessions[c].stack, req);
    var q, q', ts := s.sessions[c], s'.sessions[c], s.server.tables[req.Table()];
    var e := Event(req, OperateOn(ts, q.stack, req).response);
    KeepExtends(q, q', ts, req, locked, map[req.Table() := map[]]);
    forall db | HasTables(s, db) ensures Extends(q, q', e, db) {
      KeepExtends(q, q', ts, req, locked, db);
    }
    assert TransactionOk(s, c);
    ExtendTransaction(s, s', c, e);
    LocalTransactionsOk(s, s', c);
  }

  /** Taking a free table changes nothing a transaction has on record. */
  lemma TakeTableTransactions(s: System, c: ClientId, t: string)
    requires TransactionsOk(s) && Ready(s, c) && s.server.InTransaction(c)
    requires t in s.server.tables && s.server.tables[t].holder == None
    ensures TransactionsOk(s.(server := s.server.Acquire(t, c)))
  {
    hide LocalStep, LockInv;
    TakeTableStep(s, c, t);
    QuietTransactions(s, s.(server := s.server.Acquire(t, c)), c);
  }

  lemma RequestTransactions(s: System, c: ClientId, req: Message)
    requires TransactionsOk(s) && Ready(s, c) && s.server.InTransaction(c)
    requires Operable(s.server.tables, s.sessions[c].stack, req)
    requires Precheck(req.Table() in s.server.tables, s.sessions[c].stack, req) == None
    requires req.messageType == GET || req.Table() in s.server.LocksOf(c)
    ensures TransactionsOk(DoRequest(s, c, req))
  {
    hide LocalStep, LockInv, OperateOn, TransactionOk, Precheck;
    RequestStep(s, c, req);
    KeepTransactions(s, DoRequest(s, c, req), c, req, req.Table() in s.server.LocksOf(c));
  }

  lemma AccessTransactions(s: System, c: ClientId, req: Message)
    requires TransactionsOk(s) && Enabled(s, Access(c, req))
    ensures TransactionsOk(DoAccess(s, c, req))
  {
    hide TransactionsOk, OperateOn;
    var q, t := s.sessions[c], req.Table();
    if Precheck(t in s.server.tables, q.stack, req).Some? {
      RejectedTransactions(s, c, req);
    } else if t in s.server.LocksOf(c) {
      RequestTransactions(s, c, req);
    } else if s.server.tables[t].holder == None {
      TakeTableTransactions(s, c, t);
      RequestTransactions(s.(server := s.server.Acquire(t, c)), c, req);
    } else {
      UnrecordedTransactions(s, c, q.Answer(Refused(LockBusy)));
    }
  }

  /** A reply that is not recorded. */
  lemma UnrecordedTransactions(s: System, c: ClientId, q: Session)
    requires TransactionsOk(s) && Resting(s, c) && q.phase == Idle && SameHistory(s.sessions[c], q)
    ensures TransactionsOk(s.Put(c, q))
  {
    hide LocalStep, LockInv;
    RejectStep(s, c, q);
    QuietTransactions(s, s.Put(c, q), c);
  }

  lemma BareGetTransactions(s: System, c: ClientId, req: Message)
    requires TransactionsOk(s) && Enabled(s, BareGet(c, req))
    ensures TransactionsOk(DoBareGet(s, c, req))
  {
    hide TransactionsOk, OperateOn;
    if Precheck(req.Table() in s.server.tables, s.sessions[c].stack, req).Some? {
      RejectedTransactions(s, c, req);
    } else {
      RequestTransactions(s, c, req);
    }
  }

  /** A request that blocked for its lock: inside a transaction it is recorded like any
      other. */
  lemma OperateTransactions(s: System, c: ClientId)
    requires TransactionsOk(s) && Enabled(s, Operate(c))
    ensures TransactionsOk(DoOperate(s, c))
  {
    hide LocalStep, LockInv, OperateOn, TransactionOk, Precheck;
    OwnFacts(s, c);
    OperateStep(s, c);
    if s.server.InTransaction(c) {
      KeepTransactions(s, DoOperate(s, c), c, s.sessions[c].phase.req, false);
    } else {
      QuietTransactions(s, DoOperate(s, c), c);
    }
  }

  lemma BeginTransactions(s: System, c: ClientId)
    requires TransactionsOk(s) && Enabled(s, Begin(c))
    ensures TransactionsOk(DoBegin(s, c))
  {
    hide LocalStep, LockInv;
    var s' := DoBegin(s, c);
    if s.server.InTransaction(c) {
      UnrecordedTransactions(s, c, s'.sessions[c]);
    } else {
      BeginStep(s, c);
      forall db | HasTables(s', db) ensures PlaysBack(s'.sessions[c], db) {
        OverrideNothing(db);
      }
      LocalTransactionsOk(s, s', c);
    }
  }

  lemma ConnectTransactions(s: System)
    requires TransactionsOk(s)
    ensures TransactionsOk(Apply(s, Connect))
  {
    hide PlaysBack, Precheck;
    var s' := Apply(s, Connect);
    ConnectStep(s);
    assert NoTransactionFor(s, |s.sessions|);
    forall d | 0 <= d < |s'.sessions| ensures TransactionOk(s', d) {
      if d < |s.sessions| {
        UndisturbedTransaction(s, s', d);
      }
    }
  }

  /** The other steps leave their client's history alone, or outside a transaction. */
  predicate KeepsHistory(a: Action) {
    !a.Connect? && !a.Begin? && !a.OnStack? && !a.Access? && !a.BareGet? && !a.Operate?
  }

  lemma HistoryKept(s: System, a: Action)
    requires Enabled(s, a) && KeepsHistory(a)
    ensures a.c < |s.sessions| && a.c < |Apply(s, a).sessions|
    ensures Open(Apply(s, a), a.c) ==> Open(s, a.c) && SameHistory(s.sessions[a.c], Apply(s, a).sessions[a.c])
  {
    hide Precheck, Override;
  }

  /** Every step keeps every open transaction in order. */
  lemma TransactionsStep(s: System, a: Action)
    requires TransactionsOk(s) && Enabled(s, a)
    ensures TransactionsOk(Apply(s, a))
  {
    if KeepsHistory(a) {
      hide LocalStep, LockInv, Enabled, Apply, TransactionOk, Open, SameHistory;
      StepIsLocal(s, a);
      HistoryKept(s, a);
      QuietTransactions(s, Apply(s, a), a.c);
    } else {
      hide TransactionsOk;
      match a
      case Connect => ConnectTransactions(s);
      case Begin(c) => BeginTransactions(s, c);
      case OnStack(c, req) => OnStackTransactions(s, c, req);
      case Access(c, req) => AccessTransactions(s, c, req);
      case BareGet(c, req) => BareGetTransactions(s, c, req);
      case Operate(c) => OperateTransactions(s, c);
    }
  }
}
