/** Who holds what, in every reachable state: mutual exclusion, and no pending
    change on a table that nobody holds. */
module Locking {
  import opened Messages
  import opened Wrappers
  import opened Tables
  import opened Handlers
  import opened Transactions

  /** The tables a client owns at its point of progress: its lock set, less what an
      ending transaction has released, and the table of a request that blocks. */
  function Owned(s: System, c: ClientId): set<string>
    requires c < |s.sessions|
  {
    match s.sessions[c].phase
    case Idle => s.server.LocksOf(c)
    case Waiting(_) => s.server.LocksOf(c)
    case Locked(req) => s.server.LocksOf(c) + {req.Table()}
    case Found(req) => s.server.LocksOf(c) + {req.Table()}
    case Finishing(t) => s.server.LocksOf(c) + {t}
    case Committing(todo) => todo
    case RollingBack(todo) => todo
  }

  predicate Ending(p: Phase) {
    p.Committing? || p.RollingBack?
  }

  /** A client between the steps of a request outside a transaction. */
  predicate Auto(p: Phase) {
    p.Waiting? || p.Locked? || p.Found? || p.Finishing?
  }

  /** The request has passed the checks made before locking. */
  predicate Passed(s: System, stack: Stack, req: Message) {
    IsTableRequest(req.messageType) && Precheck(req.Table() in s.server.tables, stack, req) == None
  }

  ghost predicate SessionOk(s: System, c: ClientId)
    requires c < |s.sessions|
  {
    var q := s.sessions[c];
    && (!s.server.InTransaction(c) ==> s.server.LocksOf(c) == {})
    && (q.phase != Idle ==> q.open)
    && match q.phase
       case Idle => true
       case Waiting(req) => Passed(s, q.stack, req)
       case Locked(req) => Passed(s, q.stack, req) && req.Table() !in s.server.LocksOf(c)
       case Found(req) => Passed(s, q.stack, req) && req.Table() !in s.server.LocksOf(c)
       case Finishing(t) => t !in s.server.LocksOf(c)
       case Committing(todo) => s.server.InTransaction(c) && todo <= s.server.LocksOf(c) && s.guard == Some(c)
       case RollingBack(todo) => s.server.InTransaction(c) && todo <= s.server.LocksOf(c) && s.guard == Some(c)
  }

  predicate NoTransactionFor(s: System, c: ClientId) {
    !s.server.InTransaction(c) && s.server.LocksOf(c) == {}
  }

  /** A table is held by exactly the client that owns it, and has pending changes only
      when it is in a transaction's lock set. */
  ghost predicate TableOk(s: System, t: string)
    requires t in s.server.tables
  {
    var ts := s.server.tables[t];
    match ts.holder
    case None => ts.overlay == map[]
    case Some(c) => c < |s.sessions| && t in Owned(s, c) && (t !in s.server.LocksOf(c) ==> ts.overlay == map[])
  }

  ghost predicate LockInv(s: System) {
    && (forall c :: 0 <= c < |s.sessions| ==> SessionOk(s, c))
    && (forall c, t :: 0 <= c < |s.sessions| && t in Owned(s, c) ==>
          t in s.server.tables && s.server.tables[t].holder == Some(c))
    && (forall t :: t in s.server.tables ==> TableOk(s, t))
    && (s.guard.Some? ==> s.guard.value < |s.sessions| && Ending(s.sessions[s.guard.value].phase))
    && (forall c: nat :: c >= |s.sessions| ==> NoTransactionFor(s, c))
  }

  /** A step of client c that respects the others: it changes only c's session, c's
      lock set and the tables c owns before or after it, all left in order. */
  ghost predicate LocalStep(s: System, s': System, c: ClientId) {
    && c < |s.sessions| == |s'.sessions|
    && (forall d :: 0 <= d < |s.sessions| && d != c ==> s'.sessions[d] == s.sessions[d])
    && (forall d: nat :: d != c ==>
          s'.server.LocksOf(d) == s.server.LocksOf(d) && s'.server.InTransaction(d) == s.server.InTransaction(d))
    && (s'.guard == s.guard || (s.guard in {None, Some(c)} && s'.guard in {None, Some(c)}))
    && (s'.guard == Some(c) ==> Ending(s'.sessions[c].phase))
    && s.server.tables.Keys <= s'.server.tables.Keys
    && (forall t :: t in s'.server.tables && t !in s.server.tables ==> s'.server.tables[t] == NEW_TABLE)
    && (forall t :: t in s.server.tables && t !in Owned(s, c) && t !in Owned(s', c) ==>
          s'.server.tables[t] == s.server.tables[t])
    && (forall t :: t in Owned(s', c) && t !in Owned(s, c) ==>
          t in s.server.tables && s.server.tables[t].holder == None)
    && (forall t :: t in Owned(s, c) && t !in Owned(s', c) && t in s.server.tables ==> TableOk(s', t))
    && SessionOk(s', c)
    && (forall t :: t in Owned(s', c) ==>
          t in s'.server.tables && s'.server.tables[t].holder == Some(c) && TableOk(s', t))
  }

  lemma LocalStepKeepsLockInv(s: System, s': System, c: ClientId)
    requires LockInv(s) && LocalStep(s, s', c)
    ensures LockInv(s')
  {
    hide Precheck;
    forall d | 0 <= d < |s'.sessions| ensures SessionOk(s', d) {
      if d != c {
        assert SessionOk(s, d);
        OtherSessionOk(s, s', c, d);
      }
    }
    forall d, t | 0 <= d < |s'.sessions| && t in Owned(s', d)
      ensures t in s'.server.tables && s'.server.tables[t].holder == Some(d)
    {
      if d != c {
        assert t in Owned(s, d);
        assert s.server.tables[t].holder == Some(d);
        assert t !in Owned(s, c) && t !in Owned(s', c);
      }
    }
    forall t | t in s'.server.tables ensures TableOk(s', t) {
      if t !in Owned(s, c) && t !in Owned(s', c) && t in s.server.tables {
        assert TableOk(s, t);
        if s.server.tables[t].holder.Some? {
          var d := s.server.tables[t].holder.value;
          assert t in Owned(s, d) && d != c;
          assert Owned(s', d) == Owned(s, d);
        }
      }
    }
    forall d: nat | d >= |s'.sessions| ensures NoTransactionFor(s', d) {
      assert NoTransactionFor(s, d);
    }
  }

  lemma OtherSessionOk(s: System, s': System, c: ClientId, d: ClientId)
    requires LocalStep(s, s', c) && d != c && d < |s.sessions| && SessionOk(s, d)
    ensures SessionOk(s', d)
  {
    match s.sessions[d].phase
    case Waiting(req) => assert Passed(s, s.sessions[d].stack, req);
    case Locked(req) => assert Passed(s, s.sessions[d].stack, req);
    case Found(req) => assert Passed(s, s.sessions[d].stack, req);
    case _ =>
  }

  /** What client c's own part of the invariant says in s. */
  lemma OwnFacts(s: System, c: ClientId)
    requires LockInv(s) && c < |s.sessions|
    ensures SessionOk(s, c)
    ensures forall t :: t in Owned(s, c) ==>
              t in s.server.tables && s.server.tables[t].holder == Some(c) && TableOk(s, t)
    ensures s.guard == Some(c) ==> Ending(s.sessions[c].phase)
  {
  }

  lemma TableFacts(s: System, t: string)
    requires LockInv(s) && t in s.server.tables
    ensures TableOk(s, t)
  {
  }

  lemma ConnectStep(s: System)
    requires LockInv(s)
    ensures LockInv(Apply(s, Connect))
  {
    var s' := Apply(s, Connect);
    assert NoTransactionFor(s, |s.sessions|);
    forall d | 0 <= d < |s'.sessions| ensures SessionOk(s', d) {
      if d < |s.sessions| { assert SessionOk(s, d); }
    }
    forall t | t in s'.server.tables ensures TableOk(s', t) {
      assert TableOk(s, t);
    }
    assert Owned(s', |s.sessions|) == {};
    forall d: nat | d >= |s'.sessions| ensures NoTransactionFor(s', d) {
      assert NoTransactionFor(s, d);
    }
    forall d, t | 0 <= d < |s'.sessions| && t in Owned(s', d)
      ensures t in s'.server.tables && s'.server.tables[t].holder == Some(d)
    {
      assert t in Owned(s, d);
    }
  }

  lemma CreateStep(s: System, c: ClientId, name: string)
    requires LockInv(s) && Enabled(s, Create(c, name))
    ensures LocalStep(s, DoCreate(s, c, name), c)
  {
    hide LockInv;
    OwnFacts(s, c);
  }

  lemma BeginStep(s: System, c: ClientId)
    requires LockInv(s) && Enabled(s, Begin(c))
    ensures LocalStep(s, DoBegin(s, c), c)
  {
    hide LockInv;
    OwnFacts(s, c);
  }

  lemma OnStackStep(s: System, c: ClientId, req: Message)
    requires LockInv(s) && Enabled(s, OnStack(c, req))
    ensures LocalStep(s, DoStack(s, c, req), c)
  {
    hide ServeStack, LockInv;
    OwnFacts(s, c);
  }

  lemma TakeTableStep(s: System, c: ClientId, t: string)
    requires LockInv(s) && Ready(s, c) && s.server.InTransaction(c)
    requires t in s.server.tables && s.server.tables[t].holder == None
    ensures LocalStep(s, s.(server := s.server.Acquire(t, c)), c)
  {
    hide LockInv, Precheck;
    OwnFacts(s, c);
    TableFacts(s, t);
  }

  lemma RequestStep(s: System, c: ClientId, req: Message)
    requires LockInv(s) && Ready(s, c) && s.server.InTransaction(c)
    requires Operable(s.server.tables, s.sessions[c].stack, req)
    requires req.messageType == GET || req.Table() in s.server.LocksOf(c)
    ensures LocalStep(s, DoRequest(s, c, req), c)
  {
    hide LockInv, Precheck;
    OwnFacts(s, c);
    var s' := DoRequest(s, c, req);
    if req.messageType == GET { assert s'.server.tables == s.server.tables; }
  }

  lemma RejectStep(s: System, c: ClientId, q: Session)
    requires LockInv(s) && Resting(s, c) && q.phase == Idle
    ensures LocalStep(s, s.Put(c, q), c)
  {
    hide LockInv;
    OwnFacts(s, c);
  }

  lemma AccessStep(s: System, c: ClientId, req: Message)
    requires LockInv(s) && Enabled(s, Access(c, req))
    ensures LocalStep(s, DoAccess(s, c, req), c)
  {
    hide LocalStep, LockInv;
    var q, t := s.sessions[c], req.Table();
    var check := Precheck(t in s.server.tables, q.stack, req);
    if check.Some? || (t !in s.server.LocksOf(c) && s.server.tables[t].holder != None) {
      RejectStep(s, c, DoAccess(s, c, req).sessions[c]);
    } else if t in s.server.LocksOf(c) {
      RequestStep(s, c, req);
    } else {
      var s1 := s.(server := s.server.Acquire(t, c));
      TakeTableStep(s, c, t);
      LocalStepKeepsLockInv(s, s1, c);
      RequestStep(s1, c, req);
      LocalStepsCompose(s, s1, DoRequest(s1, c, req), c);
    }
  }

  lemma LocalStepsCompose(s: System, s1: System, s2: System, c: ClientId)
    requires LocalStep(s, s1, c) && LocalStep(s1, s2, c)
    requires s1.server.tables.Keys == s.server.tables.Keys && s2.server.tables.Keys == s.server.tables.Keys
    requires Owned(s, c) <= Owned(s1, c) == Owned(s2, c) && s1.guard == s.guard == s2.guard
    ensures LocalStep(s, s2, c)
  {
    hide SessionOk, TableOk;
  }

  lemma BareGetStep(s: System, c: ClientId, req: Message)
    requires LockInv(s) && Enabled(s, BareGet(c, req))
    ensures LocalStep(s, DoBareGet(s, c, req), c)
  {
    hide Precheck, LocalStep, LockInv;
    var s' := DoBareGet(s, c, req);
    BareGetChangesSession(s, c, req);
    RejectStep(s, c, s'.sessions[c]);
  }

  lemma BareGetChangesSession(s: System, c: ClientId, req: Message)
    requires Enabled(s, BareGet(c, req))
    ensures var s' := DoBareGet(s, c, req);
            |s'.sessions| == |s.sessions| && s' == s.Put(c, s'.sessions[c]) && s'.sessions[c].phase == Idle
  {
    if Precheck(req.Table() in s.server.tables, s.sessions[c].stack, req) == None {
      assert s.server.tables[req.Table() := s.server.tables[req.Table()]] == s.server.tables;
    }
  }

  lemma ByeStep(s: System, c: ClientId)
    requires LockInv(s) && Enabled(s, Bye(c))
    ensures LocalStep(s, DoBye(s, c), c)
  {
    hide LocalStep, LockInv;
    RejectStep(s, c, DoBye(s, c).sessions[c]);
  }

  lemma FallBackStep(s: System, c: ClientId, req: Message)
    requires LockInv(s) && Enabled(s, FallBack(c, req))
    ensures LocalStep(s, DoFallBack(s, c, req), c)
  {
    hide Precheck, LockInv;
    OwnFacts(s, c);
  }

  lemma StartAutoStep(s: System, c: ClientId, req: Message)
    requires LockInv(s) && Enabled(s, StartAuto(c, req))
    ensures LocalStep(s, DoStartAuto(s, c, req), c)
  {
    hide LockInv;
    OwnFacts(s, c);
  }

  lemma AcquireStep(s: System, c: ClientId)
    requires LockInv(s) && Enabled(s, Acquire(c))
    ensures LocalStep(s, Apply(s, Acquire(c)), c)
  {
    hide LockInv, Precheck, DoOperate, DoAccess, DoBareGet, DoStack, DoStartAuto;
    OwnFacts(s, c);
    TableFacts(s, s.sessions[c].phase.req.Table());
  }

  lemma RefindStep(s: System, c: ClientId)
    requires LockInv(s) && Enabled(s, Refind(c))
    ensures LocalStep(s, Apply(s, Refind(c)), c)
  {
    hide LockInv, Precheck, DoOperate, DoAccess, DoBareGet, DoStack, DoStartAuto;
    OwnFacts(s, c);
  }

  lemma OperateStep(s: System, c: ClientId)
    requires LockInv(s) && Enabled(s, Operate(c))
    ensures LocalStep(s, DoOperate(s, c), c)
  {
    hide LockInv, Precheck, DoOperate;
    OwnFacts(s, c);
    OperateShape(s, c);
  }

  lemma OperateShape(s: System, c: ClientId)
    requires Enabled(s, Operate(c))
    ensures var s', t := DoOperate(s, c), s.sessions[c].phase.req.Table();
            && |s'.sessions| == |s.sessions| && s' == s'.Put(c, s'.sessions[c]) && s'.guard == s.guard
            && (forall d :: 0 <= d < |s.sessions| && d != c ==> s'.sessions[d] == s.sessions[d])
            && s'.sessions[c].phase == Finishing(t) && s'.sessions[c].open == s.sessions[c].open
            && s'.server == s.server.WithTable(t, s'.server.tables[t])
            && s'.server.tables[t].holder == s.server.tables[t].holder
            && (s.server.tables[t].overlay == map[] ==> s'.server.tables[t].overlay == map[])
  {
    var s' := DoOperate(s, c);
    assert s'.sessions[c := s'.sessions[c]] == s'.sessions;
  }

  lemma ReleaseStep(s: System, c: ClientId)
    requires LockInv(s) && Enabled(s, Release(c))
    ensures LocalStep(s, Apply(s, Release(c)), c)
  {
    hide LockInv, Precheck, DoOperate, DoAccess, DoBareGet, DoStack, DoStartAuto;
    OwnFacts(s, c);
  }

  lemma StartEndingStep(s: System, c: ClientId, a: Action)
    requires LockInv(s) && Enabled(s, a) && (a == StartCommit(c) || a == StartRollback(c))
    ensures LocalStep(s, Apply(s, a), c)
  {
    hide LockInv, Precheck, DoOperate, DoAccess, DoBareGet, DoStack, DoStartAuto;
    OwnFacts(s, c);
  }

  lemma LoopStep(s: System, c: ClientId, t: string, a: Action)
    requires LockInv(s) && Enabled(s, a) && (a == CommitTable(c, t) || a == RollbackTable(c, t))
    ensures LocalStep(s, Apply(s, a), c)
  {
    hide LockInv, LocalStep;
    var rest := s.sessions[c].phase.todo - {t};
    if a.CommitTable? {
      RoundStep(s, c, t, s.server.tables[t].Commit().Unlock(), Committing(rest));
    } else {
      RoundStep(s, c, t, s.server.tables[t].Rollback().Unlock(), RollingBack(rest));
    }
  }

  lemma RoundStep(s: System, c: ClientId, t: string, ts: TableState, phase: Phase)
    requires LockInv(s) && c < |s.sessions| && Ending(s.sessions[c].phase) && t in s.sessions[c].phase.todo
    requires t in s.server.tables && ts.holder == None && ts.overlay == map[]
    requires phase == s.sessions[c].phase.(todo := s.sessions[c].phase.todo - {t})
    ensures LocalStep(s, s.(server := s.server.WithTable(t, ts)).Put(c, s.sessions[c].(phase := phase)), c)
  {
    hide LockInv, Passed;
    OwnFacts(s, c);
  }

  lemma EndStep(s: System, c: ClientId, a: Action)
    requires LockInv(s) && Enabled(s, a) && (a == EndCommit(c) || a == EndRollback(c))
    ensures LocalStep(s, Apply(s, a), c)
  {
    hide LockInv, LocalStep;
    OverStep(s, c, if a.EndCommit? then Acknowledged else Refused(RolledBack));
  }

  lemma OverStep(s: System, c: ClientId, response: Response)
    requires LockInv(s) && c < |s.sessions| && s.sessions[c].phase in {Committing({}), RollingBack({})}
    requires !response.Closes()
    ensures LocalStep(s, DoEnd(s, c, response), c)
  {
    hide LockInv, Passed;
    OwnFacts(s, c);
  }

  /** Every step of a client respects the others. */
  lemma StepIsLocal(s: System, a: Action)
    requires LockInv(s) && Enabled(s, a) && a != Connect
    ensures LocalStep(s, Apply(s, a), a.c)
  {
    hide LocalStep, LockInv, ServeStack;
    match a
    case Create(c, name) => CreateStep(s, c, name);
    case Begin(c) => BeginStep(s, c);
    case OnStack(c, req) => OnStackStep(s, c, req);
    case Access(c, req) => AccessStep(s, c, req);
    case BareGet(c, req) => BareGetStep(s, c, req);
    case FallBack(c, req) => FallBackStep(s, c, req);
    case StartAuto(c, req) => StartAutoStep(s, c, req);
    case Acquire(c) => AcquireStep(s, c);
    case Refind(c) => RefindStep(s, c);
    case Operate(c) => OperateStep(s, c);
    case Release(c) => ReleaseStep(s, c);
    case StartCommit(c) => StartEndingStep(s, c, a);
    case CommitTable(c, t) => LoopStep(s, c, t, a);
    case EndCommit(c) => EndStep(s, c, a);
    case StartRollback(c) => StartEndingStep(s, c, a);
    case RollbackTable(c, t) => LoopStep(s, c, t, a);
    case EndRollback(c) => EndStep(s, c, a);
    case Bye(c) => ByeStep(s, c);
  }

  lemma LockInvStep(s: System, a: Action)
    requires LockInv(s) && Enabled(s, a)
    ensures LockInv(Apply(s, a))
  {
    hide LockInv, LocalStep, Enabled, Apply;
    if a == Connect {
      ConnectStep(s);
    } else {
      StepIsLocal(s, a);
      LocalStepKeepsLockInv(s, Apply(s, a), a.c);
    }
  }

  /** Every reachable state, covered accesses or not, blocking fallbacks included: a
      table has at most one owner, every owned table exists and is held by its owner
      (so the commit loop never meets a missing table), and a table that is in no
      transaction's lock set has no pending change. */
  lemma LocksAlwaysInOrder(actions: seq<Action>)
    requires Run(INIT, actions).Some?
    ensures LockInv(Run(INIT, actions).value)
  {
    LocksStayInOrder(INIT, actions);
  }

  lemma {:induction false} LocksStayInOrder(s: System, actions: seq<Action>)
    requires LockInv(s) && Run(s, actions).Some?
    ensures LockInv(Run(s, actions).value)
  {
    hide LockInv, Enabled, Apply;
    if actions != [] {
      var front := actions[..|actions| - 1];
      LocksStayInOrder(s, front);
      LockInvStep(Run(s, front).value, actions[|actions| - 1]);
    }
  }

  /** Two clients never own the same table. */
  lemma MutualExclusion(actions: seq<Action>, c: ClientId, d: ClientId)
    requires Run(INIT, actions).Some?
    requires var s := Run(INIT, actions).value; c < |s.sessions| && d < |s.sessions| && c != d
    ensures var s := Run(INIT, actions).value; Owned(s, c) !! Owned(s, d)
  {
    hide Run;
    LocksAlwaysInOrder(actions);
    OwnersDisjoint(Run(INIT, actions).value, c, d);
  }

  lemma OwnersDisjoint(s: System, c: ClientId, d: ClientId)
    requires LockInv(s) && c < |s.sessions| && d < |s.sessions| && c != d
    ensures Owned(s, c) !! Owned(s, d)
  {
    forall t | t in Owned(s, c) ensures t !in Owned(s, d) {
      assert s.server.tables[t].holder == Some(c);
    }
  }

  // ----- Runs without fallbacks -----

  /** Nobody inside a transaction blocks in Table::lock. */
  predicate Plain(s: System) {
    forall c :: 0 <= c < |s.sessions| && Auto(s.sessions[c].phase) ==> NoTransactionFor(s, c)
  }

  lemma LocalStepKeepsPlain(s: System, s': System, c: ClientId)
    requires Plain(s) && LocalStep(s, s', c)
    requires Auto(s'.sessions[c].phase) ==> NoTransactionFor(s', c)
    ensures Plain(s')
  {
    hide SessionOk, TableOk;
  }

  predicate IsAuto(a: Action) {
    a.StartAuto? || a.Acquire? || a.Refind? || a.Operate? || a.Release?
  }

  /** The steps of a request outside a transaction leave their client outside one. */
  lemma AutoStaysOutside(s: System, a: Action)
    requires LockInv(s) && Plain(s) && Enabled(s, a) && IsAuto(a)
    ensures NoTransactionFor(s, a.c) && NoTransactionFor(Apply(s, a), a.c)
  {
    hide LockInv, Precheck, OperateOn, TableOk, Passed;
    OwnFacts(s, a.c);
  }

  lemma PlainStep(s: System, a: Action)
    requires LockInv(s) && Plain(s) && Enabled(s, a) && !a.FallBack?
    ensures Plain(Apply(s, a))
  {
    hide LockInv, LocalStep, Plain;
    if a == Connect {
      PlainConnect(s);
    } else {
      StepIsLocal(s, a);
      if IsAuto(a) {
        AutoStaysOutside(s, a);
      } else {
        EntersNoLock(s, a);
      }
      LocalStepKeepsPlain(s, Apply(s, a), a.c);
    }
  }

  lemma PlainConnect(s: System)
    requires Plain(s)
    ensures Plain(Apply(s, Connect))
  {
    forall c | 0 <= c < |s.sessions| && Auto(s.sessions[c].phase) ensures NoTransactionFor(Apply(s, Connect), c) {
      assert NoTransactionFor(s, c);
    }
  }

  lemma EntersNoLock(s: System, a: Action)
    requires LockInv(s) && Enabled(s, a) && a != Connect && !a.FallBack? && !IsAuto(a)
    ensures a.c < |Apply(s, a).sessions| && !Auto(Apply(s, a).sessions[a.c].phase)
  {
    hide LockInv, Precheck, OperateOn, ServeStack, Override;
    if a.Access? {
      AccessStaysIdle(s, a.c, a.req);
    } else if a.BareGet? {
      BareGetChangesSession(s, a.c, a.req);
    } else {
      hide DoAccess, DoBareGet, DoOperate, DoStartAuto;
    }
  }

  lemma AccessStaysIdle(s: System, c: ClientId, req: Message)
    requires Enabled(s, Access(c, req))
    ensures c < |DoAccess(s, c, req).sessions| && DoAccess(s, c, req).sessions[c].phase == Idle
  {
    hide Precheck, OperateOn;
  }

  lemma {:induction false} PlainRun(actions: seq<Action>)
    requires Run(INIT, actions).Some? && NoFallback(actions)
    ensures LockInv(Run(INIT, actions).value) && Plain(Run(INIT, actions).value)
  {
    hide Enabled, Apply, LockInv, Plain;
    if actions == [] {
      InitialLocks();
    } else {
      var front, a := actions[..|actions| - 1], actions[|actions| - 1];
      PlainRun(front);
      LockInvStep(Run(INIT, front).value, a);
      PlainStep(Run(INIT, front).value, a);
    }
  }

  lemma InitialLocks()
    ensures LockInv(INIT) && Plain(INIT)
  {
  }
}
