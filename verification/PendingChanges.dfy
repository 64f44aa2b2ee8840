/** What a transaction has pending in the tables it has locked is what it recorded, and
    what it read there is still there. */
module PendingChanges {
  import opened Wrappers
  import opened Messages
  import opened Tables
  import opened Handlers
  import opened Transactions
  import opened Locking
  import opened OpenTransactions
  import opened Settling

  /** A pending change of a locked table is the transaction's last write of the key, and
      every write is of a table there is. */
  ghost predicate OverlaysRecorded(s: System, c: ClientId)
    requires c < |s.sessions|
  {
    var writes := s.sessions[c].writes;
    && (forall cell :: cell in writes ==> cell.table in s.server.tables)
    && forall t, k :: t in s.server.LocksOf(c) && t in s.server.tables && k in s.server.tables[t].overlay ==>
      At(t, k) in writes && writes[At(t, k)] == s.server.tables[t].overlay[k]
  }

  /** What was read under the lock is still the committed data. */
  ghost predicate LockedReadsHold(s: System, c: ClientId)
    requires c < |s.sessions|
  {
    var glimpses := s.sessions[c].glimpses;
    forall i :: 0 <= i < |glimpses| && glimpses[i].locked ==>
      glimpses[i].cell.table in s.server.LocksOf(c) && Holds(CommittedDb(s), glimpses[i])
  }

  /** Every write is pending in a locked table, and none was read back otherwise. */
  ghost predicate WritesPending(s: System, c: ClientId)
    requires c < |s.sessions|
  {
    && !s.sessions[c].misread
    && forall cell :: cell in s.sessions[c].writes ==>
         && cell.table in s.server.LocksOf(c) && cell.table in s.server.tables
         && cell.key in s.server.tables[cell.table].overlay
  }

  /** A transaction's record fits its locked tables; in a run without fallbacks, `plain`,
      also the other way round. */
  ghost predicate LinkOk(s: System, c: ClientId, plain: bool)
    requires c < |s.sessions|
  {
    Open(s, c) ==> OverlaysRecorded(s, c) && LockedReadsHold(s, c) && (plain ==> WritesPending(s, c))
  }

  ghost predicate LinksOk(s: System, plain: bool) {
    forall c :: 0 <= c < |s.sessions| ==> LinkOk(s, c, plain)
  }

  lemma HoldsAt(s: System, g: Glimpse)
    ensures Holds(CommittedDb(s), g) <==>
            g.cell.table in s.server.tables &&
            g.found == (if g.cell.key in s.server.tables[g.cell.table].data
                        then Some(s.server.tables[g.cell.table].data[g.cell.key]) else None)
  {
  }

  // ----- Steps -----

  /** A step that leaves c's record and its locked tables alone. */
  lemma LinkFrame(s: System, s': System, c: ClientId, plain: bool)
    requires c < |s.sessions| && c < |s'.sessions| && LinkOk(s, c, plain)
    requires s.server.tables.Keys <= s'.server.tables.Keys
    requires Open(s', c) ==> Open(s, c) && s'.server.LocksOf(c) == s.server.LocksOf(c)
    requires Open(s', c) ==>
               s'.sessions[c].glimpses == s.sessions[c].glimpses && s'.sessions[c].writes == s.sessions[c].writes
               && s'.sessions[c].misread == s.sessions[c].misread
    requires Open(s', c) ==> forall t :: t in s.server.LocksOf(c) ==>
               t in s.server.tables && t in s'.server.tables
               && s'.server.tables[t].data == s.server.tables[t].data
               && s'.server.tables[t].overlay == s.server.tables[t].overlay
    ensures LinkOk(s', c, plain)
  {
    hide CommittedDb, Holds;
    if Open(s', c) {
      var glimpses := s.sessions[c].glimpses;
      forall i | 0 <= i < |glimpses| && glimpses[i].locked ensures Holds(CommittedDb(s'), glimpses[i]) {
        HoldsAt(s, glimpses[i]);
        HoldsAt(s', glimpses[i]);
      }
    }
  }

  /** A local step of c after which its own record is in order. */
  lemma LocalLinks(s: System, s': System, c: ClientId, plain: bool)
    requires LockInv(s) && LinksOk(s, plain) && LocalStep(s, s', c) && LinkOk(s', c, plain)
    ensures LinksOk(s', plain)
  {
    hide LinkOk, SessionOk, TableOk, LockInv;
    forall d | 0 <= d < |s'.sessions| ensures LinkOk(s', d, plain) {
      if d != c {
        if Open(s, d) {
          OthersTables(s, s', c, d);
        }
        LinkFrame(s, s', d, plain);
      }
    }
  }

  /** A local step of c leaves what another transaction has locked alone. */
  lemma OthersTables(s: System, s': System, c: ClientId, d: ClientId)
    requires LockInv(s) && LocalStep(s, s', c) && c != d && d < |s.sessions| && Open(s, d)
    ensures forall t :: t in s.server.LocksOf(d) ==>
              t in s.server.tables && t in s'.server.tables && s'.server.tables[t] == s.server.tables[t]
  {
    hide SessionOk, TableOk, LockInv;
    OwnFacts(s, d);
    OwnersDisjoint(s, c, d);
    OwnFacts(s, c);
    forall t | t in s.server.LocksOf(d)
      ensures t in s.server.tables && t in s'.server.tables && s'.server.tables[t] == s.server.tables[t]
    {
      assert t in Owned(s, d);
    }
  }

  /** A request of c on a table it has locked, or a GET of one it has not. */
  lemma RequestLinks(s: System, c: ClientId, req: Message, plain: bool)
    requires Ready(s, c) && s.server.InTransaction(c) && LinkOk(s, c, plain)
    requires Operable(s.server.tables, s.sessions[c].stack, req)
    requires req.messageType == GET || req.Table() in s.server.LocksOf(c)
    ensures LinkOk(DoRequest(s, c, req), c, plain)
  {
    hide CommittedDb, Holds, OverlaysRecorded, WritesPending;
    var s', q, t, k := DoRequest(s, c, req), s.sessions[c], req.Table(), req.Key();
    RequestOverlays(s, c, req);
    if plain {
      RequestPending(s, c, req);
    }
    forall i | 0 <= i < |s'.sessions[c].glimpses| && s'.sessions[c].glimpses[i].locked
      ensures s'.sessions[c].glimpses[i].cell.table in s'.server.LocksOf(c)
      ensures Holds(CommittedDb(s'), s'.sessions[c].glimpses[i])
    {
      var g := s'.sessions[c].glimpses[i];
      HoldsAt(s', g);
      if i < |q.glimpses| {
        HoldsAt(s, g);
      } else {
        LockedGetFinds(s, c, t, k);
      }
    }
  }

  /** Under the lock, a GET of a cell the transaction has not set finds committed data. */
  lemma LockedGetFinds(s: System, c: ClientId, t: string, k: string)
    requires c < |s.sessions| && OverlaysRecorded(s, c)
    requires t in s.server.LocksOf(c) && t in s.server.tables && At(t, k) !in s.sessions[c].writes
    ensures s.server.tables[t].Get(k) ==
            if k in s.server.tables[t].data then Some(s.server.tables[t].data[k]) else None
  {
  }

  lemma RequestOverlays(s: System, c: ClientId, req: Message)
    requires Ready(s, c) && s.server.InTransaction(c) && OverlaysRecorded(s, c)
    requires Operable(s.server.tables, s.sessions[c].stack, req)
    requires req.messageType == GET || req.Table() in s.server.LocksOf(c)
    ensures OverlaysRecorded(DoRequest(s, c, req), c)
  {
  }

  lemma RequestPending(s: System, c: ClientId, req: Message)
    requires Ready(s, c) && s.server.InTransaction(c) && OverlaysRecorded(s, c) && WritesPending(s, c)
    requires Operable(s.server.tables, s.sessions[c].stack, req)
    requires req.messageType == GET || req.Table() in s.server.LocksOf(c)
    ensures WritesPending(DoRequest(s, c, req), c)
  {
  }

  lemma AccessLinks(s: System, c: ClientId, req: Message, plain: bool)
    requires LockInv(s) && Enabled(s, Access(c, req)) && LinkOk(s, c, plain)
    ensures c < |DoAccess(s, c, req).sessions| && LinkOk(DoAccess(s, c, req), c, plain)
  {
    hide LockInv, LinkOk, OperateOn, Precheck;
    var t := req.Table();
    OwnFacts(s, c);
    assert Owned(s, c) == s.server.LocksOf(c);
    CheckedIsOperable(t in s.server.tables, s.sessions[c].stack, req);
    if Precheck(t in s.server.tables, s.sessions[c].stack, req).Some? {
      LinkFrame(s, DoAccess(s, c, req), c, plain);
    } else if t in s.server.LocksOf(c) {
      RequestLinks(s, c, req, plain);
    } else if s.server.tables[t].holder == None {
      TakeTableLinks(s, c, t, plain);
      RequestLinks(s.(server := s.server.Acquire(t, c)), c, req, plain);
    } else {
      LinkFrame(s, DoAccess(s, c, req), c, plain);
    }
  }

  lemma CheckedIsOperable(found: bool, stack: Stack, req: Message)
    requires IsTableRequest(req.messageType)
    ensures Precheck(found, stack, req) == None ==> found && (req.messageType == SET ==> stack != [])
  {
  }

  lemma TakeTableLinks(s: System, c: ClientId, t: string, plain: bool)
    requires LockInv(s) && Ready(s, c) && s.server.InTransaction(c) && LinkOk(s, c, plain)
    requires t in s.server.tables && s.server.tables[t].holder == None
    ensures LinkOk(s.(server := s.server.Acquire(t, c)), c, plain)
  {
    hide LockInv, CommittedDb, Holds;
    var s' := s.(server := s.server.Acquire(t, c));
    TableFacts(s, t);
    forall i | 0 <= i < |s.sessions[c].glimpses| && s.sessions[c].glimpses[i].locked
      ensures Holds(CommittedDb(s'), s.sessions[c].glimpses[i])
    {
      HoldsAt(s, s.sessions[c].glimpses[i]);
      HoldsAt(s', s.sessions[c].glimpses[i]);
    }
  }

  lemma BareGetLinks(s: System, c: ClientId, req: Message, plain: bool)
    requires LockInv(s) && Enabled(s, BareGet(c, req)) && LinkOk(s, c, plain)
    ensures c < |DoBareGet(s, c, req).sessions| && LinkOk(DoBareGet(s, c, req), c, plain)
  {
    hide LockInv, LinkOk, OperateOn, Precheck;
    OwnFacts(s, c);
    assert Owned(s, c) == s.server.LocksOf(c);
    CheckedIsOperable(req.Table() in s.server.tables, s.sessions[c].stack, req);
    if Precheck(req.Table() in s.server.tables, s.sessions[c].stack, req).Some? {
      LinkFrame(s, DoBareGet(s, c, req), c, plain);
    } else {
      RequestLinks(s, c, req, plain);
    }
  }

  /** A request that blocked for its lock is on a table the transaction has not locked. */
  lemma OperateLinks(s: System, c: ClientId, plain: bool)
    requires LockInv(s) && Enabled(s, Operate(c)) && LinkOk(s, c, plain) && (plain ==> Plain(s))
    ensures c < |DoOperate(s, c).sessions| && LinkOk(DoOperate(s, c), c, plain)
  {
    hide LockInv, DoOperate, OverlaysRecorded, LockedReadsHold, WritesPending;
    OperateRecords(s, c);
    if s.server.InTransaction(c) {
      assert plain ==> NoTransactionFor(s, c);
      OperateTables(s, c);
      OperateOverlays(s, c);
      OperateReads(s, c);
    }
  }

  /** What such a request adds to the record. */
  lemma OperateRecords(s: System, c: ClientId)
    requires Enabled(s, Operate(c))
    ensures var s', q, req := DoOperate(s, c), s.sessions[c], s.sessions[c].phase.req;
            && |s'.sessions| == |s.sessions| && s'.server.locks == s.server.locks && s'.server.active == s.server.active
            && !Ending(s'.sessions[c].phase)
            && (s.server.InTransaction(c) ==>
                 var k := q.Keep(req, s.server.tables[req.Table()].Get(req.Key()), false);
                 s'.sessions[c].glimpses == k.glimpses && s'.sessions[c].writes == k.writes)
  {
    hide OperateOn, Precheck;
  }

  lemma OperateOverlays(s: System, c: ClientId)
    requires LockInv(s) && Enabled(s, Operate(c)) && s.server.InTransaction(c) && OverlaysRecorded(s, c)
    ensures c < |DoOperate(s, c).sessions| && OverlaysRecorded(DoOperate(s, c), c)
  {
    hide LockInv, DoOperate, TableState.Get;
    OperateRecords(s, c);
    OperateTables(s, c);
    var s', req := DoOperate(s, c), s.sessions[c].phase.req;
    forall u, k | u in s.server.LocksOf(c) && u in s'.server.tables && k in s'.server.tables[u].overlay
      ensures At(u, k) in s'.sessions[c].writes && s'.sessions[c].writes[At(u, k)] == s'.server.tables[u].overlay[k]
    {
      assert u != req.Table();
    }
  }

  lemma OperateReads(s: System, c: ClientId)
    requires LockInv(s) && Enabled(s, Operate(c)) && s.server.InTransaction(c) && LockedReadsHold(s, c)
    ensures c < |DoOperate(s, c).sessions| && LockedReadsHold(DoOperate(s, c), c)
  {
    hide LockInv, DoOperate, CommittedDb, Holds;
    OperateRecords(s, c);
    OperateTables(s, c);
    var s', q := DoOperate(s, c), s.sessions[c];
    forall i | 0 <= i < |s'.sessions[c].glimpses| && s'.sessions[c].glimpses[i].locked
      ensures i < |q.glimpses| && s'.sessions[c].glimpses[i] == q.glimpses[i]
      ensures Holds(CommittedDb(s'), s'.sessions[c].glimpses[i])
    {
      HoldsAt(s, q.glimpses[i]);
      HoldsAt(s', q.glimpses[i]);
    }
  }

  lemma OperateTables(s: System, c: ClientId)
    requires LockInv(s) && Enabled(s, Operate(c))
    ensures var t := s.sessions[c].phase.req.Table();
            && t !in s.server.LocksOf(c) && DoOperate(s, c).server.tables.Keys == s.server.tables.Keys
            && forall u :: u in s.server.tables && u != t ==> DoOperate(s, c).server.tables[u] == s.server.tables[u]
  {
    hide LockInv, OperateOn, Precheck;
    OwnFacts(s, c);
  }

  lemma KeptLinks(s: System, a: Action, plain: bool)
    requires LockInv(s) && Enabled(s, a) && KeepsHistory(a) && a.c < |s.sessions| && LinkOk(s, a.c, plain)
    ensures a.c < |Apply(s, a).sessions| && LinkOk(Apply(s, a), a.c, plain)
  {
    hide LockInv, LinkOk, Enabled, Apply, SameHistory;
    HistoryKept(s, a);
    KeptTables(s, a);
    SameHistoryMeans(s.sessions[a.c], Apply(s, a).sessions[a.c]);
    LinkFrame(s, Apply(s, a), a.c, plain);
  }

  lemma SameHistoryMeans(q: Session, q': Session)
    ensures SameHistory(q, q') ==>
              q'.glimpses == q.glimpses && q'.writes == q.writes && q'.misread == q.misread
  {
  }

  lemma KeptTables(s: System, a: Action)
    requires LockInv(s) && Enabled(s, a) && KeepsHistory(a) && a.c < |s.sessions|
    ensures s.server.tables.Keys <= Apply(s, a).server.tables.Keys
    ensures Open(Apply(s, a), a.c) ==>
              Apply(s, a).server.LocksOf(a.c) == s.server.LocksOf(a.c)
              && forall t :: t in s.server.LocksOf(a.c) ==>
                   t in s.server.tables && t in Apply(s, a).server.tables
                   && Apply(s, a).server.tables[t].data == s.server.tables[t].data
                   && Apply(s, a).server.tables[t].overlay == s.server.tables[t].overlay
  {
    hide LockInv, Precheck, Override, TableOk, Passed;
    OwnFacts(s, a.c);
  }

  lemma SimpleLinks(s: System, a: Action, plain: bool)
    requires LockInv(s) && Enabled(s, a) && (a.Begin? || a.OnStack?) && LinkOk(s, a.c, plain)
    ensures a.c < |Apply(s, a).sessions| && LinkOk(Apply(s, a), a.c, plain)
  {
    hide LockInv, ServeStack, LinkOk;
    OwnFacts(s, a.c);
    assert Owned(s, a.c) == s.server.LocksOf(a.c);
    if a.Begin? && !s.server.InTransaction(a.c) {
      FreshLink(DoBegin(s, a.c), a.c, plain);
    } else {
      LinkFrame(s, Apply(s, a), a.c, plain);
    }
  }

  lemma FreshLink(s: System, c: ClientId, plain: bool)
    requires c < |s.sessions| && s.server.LocksOf(c) == {} && s.sessions[c].glimpses == []
    requires s.sessions[c].writes == map[] && !s.sessions[c].misread
    ensures LinkOk(s, c, plain)
  {
  }

  lemma ConnectLinks(s: System, plain: bool)
    requires LockInv(s) && LinksOk(s, plain)
    ensures LinksOk(Apply(s, Connect), plain)
  {
    hide LinkOk, LockInv;
    var s' := Apply(s, Connect);
    NewcomerIsOutside(s);
    forall d | 0 <= d < |s'.sessions| ensures LinkOk(s', d, plain) {
      if d < |s.sessions| {
        OwnFacts(s, d);
        assert s.sessions[d].phase == s'.sessions[d].phase;
        LinkFrame(s, s', d, plain);
      } else {
        FreshLink(s', d, plain);
      }
    }
  }

  lemma NewcomerIsOutside(s: System)
    requires LockInv(s)
    ensures s.server.LocksOf(|s.sessions|) == {}
  {
    assert NoTransactionFor(s, |s.sessions|);
  }

  /** Every step, whatever anyone does about locks; without fallbacks nobody in a
      transaction blocks for one. */
  lemma LinksStep(s: System, a: Action, plain: bool)
    requires LockInv(s) && LinksOk(s, plain) && Enabled(s, a) && (plain ==> Plain(s))
    ensures LinksOk(Apply(s, a), plain)
  {
    if a == Connect {
      ConnectLinks(s, plain);
    } else {
      hide LockInv, LinkOk, LocalStep, Plain;
      StepIsLocal(s, a);
      match a {
        case Access(c, req) => AccessLinks(s, c, req, plain);
        case BareGet(c, req) => BareGetLinks(s, c, req, plain);
        case Operate(c) => OperateLinks(s, c, plain);
        case Begin(c) => SimpleLinks(s, a, plain);
        case OnStack(c, req) => SimpleLinks(s, a, plain);
        case _ => KeptLinks(s, a, plain);
      }
      LocalLinks(s, Apply(s, a), a.c, plain);
    }
  }
}
