/** Deadlock: a state can come to rest exactly when nobody waits in a cycle and no closed
    session is still in a transaction; both are for ever, and under the lock discipline
    there is no cycle. */
module Progress {
  import opened Wrappers
  import opened Tables
  import opened Handlers
  import opened Transactions
  import opened Locking

  // ----- Who waits for whom -----

  /** The client that c cannot move past: the holder of the table it is blocked on in
      Table::lock, which may be c itself, or of the guard it needs. */
  function Blocker(s: System, c: ClientId): Option<ClientId>
    requires c < |s.sessions|
  {
    match s.sessions[c].phase
    case Waiting(req) => if req.Table() in s.server.tables then s.server.tables[req.Table()].holder else None
    case Idle => s.guard
    case Locked(_) => s.guard
    case Finishing(_) => s.guard
    case _ => None
  }

  predicate WaitsFor(s: System, c: ClientId, d: ClientId) {
    c < |s.sessions| && Blocker(s, c) == Some(d)
  }

  ghost predicate WaitPath(s: System, path: seq<ClientId>) {
    |path| >= 2 && forall i :: 0 <= i < |path| - 1 ==> WaitsFor(s, path[i], path[i + 1])
  }

  /** A cycle of waits of any length; [c, c] is a client that waits for itself. */
  ghost predicate WaitCycle(s: System, path: seq<ClientId>) {
    WaitPath(s, path) && path[0] == path[|path| - 1]
  }

  ghost predicate Deadlocked(s: System) {
    exists path :: WaitCycle(s, path)
  }

  // ----- Under the discipline nobody waits in a cycle -----

  function Rank(s: System, c: ClientId): nat
    requires c < |s.sessions|
  {
    var p := s.sessions[c].phase;
    if p.Waiting? then 2 else if Ending(p) then 0 else 1
  }

  lemma WaitsDescend(s: System, c: ClientId, d: ClientId)
    requires LockInv(s) && Plain(s) && WaitsFor(s, c, d)
    ensures d < |s.sessions| && Rank(s, d) < Rank(s, c)
  {
    hide Precheck;
    if s.sessions[c].phase.Waiting? {
      TableFacts(s, s.sessions[c].phase.req.Table());
    }
  }

  lemma {:induction false} PathDescends(s: System, path: seq<ClientId>)
    requires LockInv(s) && Plain(s) && WaitPath(s, path)
    ensures path[0] < |s.sessions| && path[|path| - 1] < |s.sessions|
    ensures Rank(s, path[|path| - 1]) + |path| - 1 <= Rank(s, path[0])
  {
    hide LockInv, Plain, Rank, WaitsFor;
    assert WaitsFor(s, path[0], path[1]);
    WaitsDescend(s, path[0], path[1]);
    WaiterExists(s, path[0], path[1]);
    if |path| > 2 {
      forall i | 0 <= i < |path[1..]| - 1 ensures WaitsFor(s, path[1..][i], path[1..][i + 1]) {
        assert WaitsFor(s, path[i + 1], path[i + 2]);
      }
      PathDescends(s, path[1..]);
    }
  }

  lemma WaiterExists(s: System, c: ClientId, d: ClientId)
    requires WaitsFor(s, c, d)
    ensures c < |s.sessions|
  {
  }

  /** Without fallbacks no reachable state has a cycle of waits, and no chain of waits
      is longer than two hops. */
  lemma NoWaitCycle(actions: seq<Action>, path: seq<ClientId>)
    requires Run(INIT, actions).Some? && NoFallback(actions) && WaitPath(Run(INIT, actions).value, path)
    ensures path[0] != path[|path| - 1] && |path| <= 3
  {
    hide Run, LockInv, Plain;
    PlainRun(actions);
    PathDescends(Run(INIT, actions).value, path);
  }

  /** Without fallbacks a client blocked on a table owns none, and does not hold the
      guard. */
  lemma NoHoldAndWait(actions: seq<Action>, c: ClientId)
    requires Run(INIT, actions).Some? && NoFallback(actions)
    requires var s := Run(INIT, actions).value; c < |s.sessions| && s.sessions[c].phase.Waiting?
    ensures var s := Run(INIT, actions).value;
            s.guard != Some(c) && forall t :: t in s.server.tables ==> s.server.tables[t].holder != Some(c)
  {
    hide Run, LockInv;
    PlainRun(actions);
    var s := Run(INIT, actions).value;
    OwnFacts(s, c);
    forall t | t in s.server.tables ensures s.server.tables[t].holder != Some(c) {
      TableFacts(s, t);
    }
  }

  /** Everyone on a cycle is blocked on a table the next one holds. */
  lemma OnCycle(s: System, path: seq<ClientId>, i: nat)
    requires LockInv(s) && WaitCycle(s, path) && i < |path| - 1
    ensures path[i] < |s.sessions| && s.sessions[path[i]].phase.Waiting?
    ensures var t := s.sessions[path[i]].phase.req.Table();
            t in s.server.tables && s.server.tables[t].holder == Some(path[i + 1])
  {
    var j := if i + 1 < |path| - 1 then i + 1 else 0;
    assert WaitsFor(s, path[i], path[i + 1]) && WaitsFor(s, path[j], path[j + 1]);
    assert path[j] == path[i + 1];
  }

  // ----- Clients that never take a step again -----

  /** A closed session whose transaction nobody ends. */
  predicate Gone(s: System, c: ClientId) {
    c < |s.sessions| && !s.sessions[c].open && s.server.InTransaction(c)
  }

  ghost predicate Stranded(s: System) {
    exists c :: Gone(s, c)
  }

  /** c is in Table::lock for a table that one of the group holds. */
  predicate BlockedBy(s: System, c: ClientId, group: set<ClientId>) {
    && c < |s.sessions| && s.sessions[c].phase.Waiting?
    && var t := s.sessions[c].phase.req.Table();
       t in s.server.tables && HeldBy(s.server.tables[t], group)
  }

  /** Everyone in the group is gone, or blocked by somebody in it. */
  ghost predicate Stuck(s: System, group: set<ClientId>) {
    forall c :: c in group ==> Gone(s, c) || BlockedBy(s, c, group)
  }

  /** The sessions of the group and the tables it holds are as they were. */
  ghost predicate SameFor(s: System, s': System, group: set<ClientId>) {
    && (forall c :: c in group ==>
          (&& c < |s.sessions| && c < |s'.sessions| && s'.sessions[c] == s.sessions[c]
           && s'.server.InTransaction(c) == s.server.InTransaction(c)))
    && (forall t :: t in s.server.tables && HeldBy(s.server.tables[t], group) ==>
          t in s'.server.tables && s'.server.tables[t] == s.server.tables[t])
  }

  predicate HeldBy(ts: TableState, group: set<ClientId>) {
    ts.holder.Some? && ts.holder.value in group
  }

  lemma StuckHasNoStep(s: System, a: Action, c: ClientId, group: set<ClientId>)
    requires LockInv(s) && Enabled(s, a) && a != Connect && (Gone(s, c) || BlockedBy(s, c, group))
    ensures a.c != c
  {
    hide LockInv, Precheck, Operable;
    OwnFacts(s, c);
  }

  lemma StuckExists(s: System, group: set<ClientId>)
    requires Stuck(s, group)
    ensures forall c :: c in group ==> c < |s.sessions|
  {
  }

  /** No step touches a stuck group: nobody in it has one, and nobody else can release a
      table it holds. */
  lemma StuckStep(s: System, a: Action, group: set<ClientId>)
    requires LockInv(s) && Enabled(s, a) && Stuck(s, group)
    ensures SameFor(s, Apply(s, a), group)
  {
    hide LockInv, Enabled, Apply, Gone, BlockedBy, SessionOk, TableOk;
    StuckExists(s, group);
    if a == Connect {
      ConnectKeeps(s);
    } else {
      StepIsLocal(s, a);
      if a.c in group {
        StuckHasNoStep(s, a, a.c, group);
      }
      forall t | t in s.server.tables && HeldBy(s.server.tables[t], group)
        ensures t in Apply(s, a).server.tables && Apply(s, a).server.tables[t] == s.server.tables[t]
      {
        OthersKeepTable(s, Apply(s, a), a.c, t, s.server.tables[t].holder.value);
      }
    }
  }

  lemma ConnectKeeps(s: System)
    ensures var s' := Apply(s, Connect);
            |s'.sessions| > |s.sessions| && s'.server == s.server
            && forall c :: 0 <= c < |s.sessions| ==> s'.sessions[c] == s.sessions[c]
  {
  }

  /** A step of c leaves a table that d holds alone. */
  lemma OthersKeepTable(s: System, s': System, c: ClientId, t: string, d: ClientId)
    requires LockInv(s) && LocalStep(s, s', c) && t in s.server.tables && s.server.tables[t].holder == Some(d) && c != d
    ensures t in s'.server.tables && s'.server.tables[t] == s.server.tables[t]
  {
    hide LockInv, SessionOk, TableOk;
    OwnFacts(s, c);
  }

  lemma SameForStaysStuck(s: System, s': System, group: set<ClientId>)
    requires Stuck(s, group) && SameFor(s, s', group)
    ensures Stuck(s', group)
  {
  }

  /** A stuck group is for ever: after every run, whatever anyone does, its sessions and
      the tables it holds are as they were. */
  lemma {:induction false} StuckForever(s: System, actions: seq<Action>, group: set<ClientId>)
    requires LockInv(s) && Stuck(s, group) && Run(s, actions).Some?
    ensures LockInv(Run(s, actions).value) && Stuck(Run(s, actions).value, group)
    ensures SameFor(s, Run(s, actions).value, group)
  {
    hide LockInv, Enabled, Apply, Gone, BlockedBy;
    if actions == [] {
      StuckExists(s, group);
    } else {
      var front, a := actions[..|actions| - 1], actions[|actions| - 1];
      StuckForever(s, front, group);
      LockInvStep(Run(s, front).value, a);
      StuckStep(Run(s, front).value, a, group);
      SameForStaysStuck(Run(s, front).value, Run(s, actions).value, group);
    }
  }

  function Members(path: seq<ClientId>): set<ClientId> {
    set c | c in path
  }

  lemma CycleIsStuck(s: System, path: seq<ClientId>)
    requires LockInv(s) && WaitCycle(s, path)
    ensures Stuck(s, Members(path))
  {
    hide LockInv, WaitCycle, Gone;
    assert |path| >= 2 && path[0] == path[|path| - 1] by { CycleShape(s, path); }
    forall c | c in Members(path) ensures BlockedBy(s, c, Members(path)) {
      var i :| 0 <= i < |path| && path[i] == c;
      var j := if i == |path| - 1 then 0 else i;
      OnCycle(s, path, j);
      assert path[j + 1] in path;
    }
  }

  lemma CycleShape(s: System, path: seq<ClientId>)
    requires WaitCycle(s, path)
    ensures |path| >= 2 && path[0] == path[|path| - 1]
  {
  }

  /** Clients that wait in a cycle are as they are after every run, and wait in it. */
  lemma DeadlockIsForever(s: System, actions: seq<Action>, path: seq<ClientId>)
    requires LockInv(s) && WaitCycle(s, path) && Run(s, actions).Some?
    ensures LockInv(Run(s, actions).value) && WaitCycle(Run(s, actions).value, path)
    ensures SameFor(s, Run(s, actions).value, Members(path))
  {
    hide LockInv, Run, Stuck;
    CycleIsStuck(s, path);
    StuckForever(s, actions, Members(path));
    var s' := Run(s, actions).value;
    forall i | 0 <= i < |path| - 1 ensures WaitsFor(s', path[i], path[i + 1]) {
      OnCycle(s, path, i);
      assert path[i] in path && path[i + 1] in path;
    }
  }

  // ----- Work left -----

  /** How many more steps a client's current request and transaction can take. */
  function Weight(s: System, c: ClientId): nat
    requires c < |s.sessions|
  {
    var open := if s.server.InTransaction(c) then |s.server.LocksOf(c)| + 2 else 0;
    match s.sessions[c].phase
    case Idle => open
    case Waiting(_) => open + 4
    case Locked(_) => open + 3
    case Found(_) => open + 2
    case Finishing(_) => open + 1
    case Committing(todo) => |todo| + 1
    case RollingBack(todo) => |todo| + 1
  }

  function WorkUpTo(s: System, n: nat): nat
    requires n <= |s.sessions|
  {
    if n == 0 then 0 else WorkUpTo(s, n - 1) + Weight(s, n - 1)
  }

  function Work(s: System): nat {
    WorkUpTo(s, |s.sessions|)
  }

  /** A step that carries a pending operation or an open transaction toward its end. */
  predicate Finishes(s: System, a: Action) {
    match a
    case Acquire(_) => true
    case Refind(_) => true
    case Operate(_) => true
    case Release(_) => true
    case CommitTable(_, _) => true
    case EndCommit(_) => true
    case RollbackTable(_, _) => true
    case EndRollback(_) => true
    case StartCommit(c) => s.server.InTransaction(c)
    case StartRollback(c) => s.server.InTransaction(c)
    case _ => false
  }

  /** Nobody is inside an operation or a transaction. */
  ghost predicate Quiescent(s: System) {
    forall c :: 0 <= c < |s.sessions| ==> Weight(s, c) == 0
  }

  lemma {:induction false} LessWork(s: System, s': System, c: ClientId, n: nat)
    requires LocalStep(s, s', c) && n <= |s.sessions| && Weight(s', c) < Weight(s, c)
    ensures c < n ==> WorkUpTo(s', n) < WorkUpTo(s, n)
    ensures c >= n ==> WorkUpTo(s', n) == WorkUpTo(s, n)
  {
    hide Weight, LocalStep;
    LocalStepSessions(s, s', c);
    if n > 0 {
      LessWork(s, s', c, n - 1);
      if n - 1 != c {
        SameWeight(s, s', c, n - 1);
      }
    }
  }

  lemma SameWeight(s: System, s': System, c: ClientId, d: ClientId)
    requires LocalStep(s, s', c) && d < |s.sessions| && d != c
    ensures d < |s'.sessions| && Weight(s', d) == Weight(s, d)
  {
    hide SessionOk, TableOk;
  }

  lemma {:induction false} NoWork(s: System, n: nat)
    requires n <= |s.sessions|
    ensures WorkUpTo(s, n) == 0 <==> forall c :: 0 <= c < n ==> Weight(s, c) == 0
  {
    if n > 0 { NoWork(s, n - 1); }
  }

  lemma RemoveOne(todo: set<string>, t: string)
    requires t in todo
    ensures |todo - {t}| == |todo| - 1
  {
  }

  lemma FinishingStepWorks(s: System, a: Action)
    requires LockInv(s) && Enabled(s, a) && Finishes(s, a)
    ensures LockInv(Apply(s, a)) && |Apply(s, a).sessions| == |s.sessions|
    ensures Work(Apply(s, a)) < Work(s)
  {
    hide LockInv, LocalStep, Enabled, Apply, Finishes;
    LockInvStep(s, a);
    FinishesHasClient(s, a);
    StepIsLocal(s, a);
    LocalStepSessions(s, Apply(s, a), a.c);
    if a.CommitTable? || a.RollbackTable? {
      LoopWeighsLess(s, a.c, a.table, a);
    } else {
      FinishingWeighsLess(s, a);
    }
    LessWork(s, Apply(s, a), a.c, |s.sessions|);
  }

  lemma FinishesHasClient(s: System, a: Action)
    requires Finishes(s, a)
    ensures a != Connect
  {
  }

  lemma LocalStepSessions(s: System, s': System, c: ClientId)
    requires LocalStep(s, s', c)
    ensures c < |s.sessions| == |s'.sessions|
  {
  }

  lemma LoopWeighsLess(s: System, c: ClientId, t: string, a: Action)
    requires Enabled(s, a) && (a == CommitTable(c, t) || a == RollbackTable(c, t))
    ensures c < |s.sessions| == |Apply(s, a).sessions| && Weight(Apply(s, a), c) < Weight(s, c)
  {
    RemoveOne(s.sessions[c].phase.todo, t);
  }

  lemma FinishingWeighsLess(s: System, a: Action)
    requires Enabled(s, a) && Finishes(s, a) && !a.CommitTable? && !a.RollbackTable?
    ensures a.c < |s.sessions| == |Apply(s, a).sessions| && Weight(Apply(s, a), a.c) < Weight(s, a.c)
  {
    hide Precheck, OperateOn;
  }

  // ----- Without cycles and without gone sessions everyone can finish -----

  /** A finishing step closes no cycle. */
  lemma FinishingKeepsAcyclic(s: System, a: Action, path: seq<ClientId>)
    requires LockInv(s) && Enabled(s, a) && Finishes(s, a) && WaitCycle(Apply(s, a), path)
    ensures WaitCycle(s, path)
  {
    hide LockInv, Enabled, Apply, Finishes, SessionOk, TableOk;
    FinishesHasClient(s, a);
    var s', c := Apply(s, a), a.c;
    LockInvStep(s, a);
    StepIsLocal(s, a);
    FinisherNotWaiting(s, a);
    forall i | 0 <= i < |path| - 1 ensures WaitsFor(s, path[i], path[i + 1]) {
      OnCycle(s', path, i);
      var j := if i + 1 < |path| - 1 then i + 1 else 0;
      OnCycle(s', path, j);
      HolderBefore(s, s', c, s'.sessions[path[i]].phase.req.Table(), path[i + 1]);
    }
  }

  lemma FinisherNotWaiting(s: System, a: Action)
    requires Enabled(s, a) && Finishes(s, a)
    ensures a.c < |Apply(s, a).sessions| && !Apply(s, a).sessions[a.c].phase.Waiting?
  {
    hide Precheck, OperateOn;
  }

  /** After a step of c, a table another client holds is one it held before. */
  lemma HolderBefore(s: System, s': System, c: ClientId, t: string, d: ClientId)
    requires LockInv(s) && LockInv(s') && LocalStep(s, s', c)
    requires t in s'.server.tables && s'.server.tables[t].holder == Some(d) && c != d
    ensures t in s.server.tables && s.server.tables[t].holder == Some(d)
  {
    hide LockInv, SessionOk;
    TableFacts(s', t);
    assert Owned(s', d) == Owned(s, d);
    OwnFacts(s, d);
  }

  lemma {:induction false} DistinctBound(path: seq<ClientId>, n: nat)
    requires NoRepeats(path) && forall i :: 0 <= i < |path| ==> path[i] < n
    ensures |path| <= n
  {
    if path != [] {
      if n - 1 in path {
        var i :| 0 <= i < |path| && path[i] == n - 1;
        var rest := path[..i] + path[i + 1..];
        assert forall j :: 0 <= j < |rest| ==> rest[j] == if j < i then path[j] else path[j + 1];
        DistinctBound(rest, n - 1);
      } else {
        assert n > 0 by { assert path[0] < n; }
        forall i | 0 <= i < |path| ensures path[i] < n - 1 { assert path[i] in path; }
        DistinctBound(path, n - 1);
      }
    }
  }

  /** A finishing step strands nobody. */
  lemma FinishingStrandsNobody(s: System, a: Action)
    requires LockInv(s) && Enabled(s, a) && Finishes(s, a) && !Stranded(s)
    ensures !Stranded(Apply(s, a))
  {
    hide LockInv, Enabled, Apply, Finishes, SessionOk, TableOk;
    FinishesHasClient(s, a);
    StepIsLocal(s, a);
    FinisherStaysOpen(s, a);
    forall c ensures !Gone(Apply(s, a), c) {
      assert !Gone(s, c);
    }
  }

  lemma FinisherStaysOpen(s: System, a: Action)
    requires LockInv(s) && Enabled(s, a) && Finishes(s, a)
    ensures a.c < |Apply(s, a).sessions| && Apply(s, a).sessions[a.c].open
  {
    hide LockInv, Precheck, Override, DoAccess, DoBareGet, DoStack, DoStartAuto;
    OwnFacts(s, a.c);
  }

  /** Some client can take a finishing step: the one the guard is with, or the one a
      chain of waits ends at. */
  lemma SomeoneCanFinish(s: System, c: ClientId) returns (a: Action)
    requires LockInv(s) && !Deadlocked(s) && !Stranded(s) && c < |s.sessions| && Weight(s, c) > 0
    ensures Enabled(s, a) && Finishes(s, a)
  {
    if s.guard.Some? {
      a := FinishEnding(s, s.guard.value);
    } else {
      a := Chase(s, [c]);
    }
  }

  /** Follows the waits from the end of a chain. */
  lemma Chase(s: System, path: seq<ClientId>) returns (a: Action)
    requires LockInv(s) && !Deadlocked(s) && !Stranded(s) && s.guard == None && path != [] && NoRepeats(path)
    requires forall i :: 0 <= i < |path| ==> path[i] < |s.sessions|
    requires forall i :: 0 <= i < |path| - 1 ==> WaitsFor(s, path[i], path[i + 1])
    requires Weight(s, path[|path| - 1]) > 0
    ensures Enabled(s, a) && Finishes(s, a)
    decreases |s.sessions| - |path|
  {
    hide LockInv, Deadlocked, Stranded, WaitsFor;
    var c := path[|path| - 1];
    DistinctBound(path, |s.sessions|);
    OwnFacts(s, c);
    if s.sessions[c].phase.Waiting? {
      var t := s.sessions[c].phase.req.Table();
      match s.server.tables[t].holder {
        case None => a := Acquire(c);
        case Some(d) =>
          HolderHasWork(s, t, d);
          var longer := path + [d];
          assert WaitsFor(s, c, d) by { WaitsForHolder(s, c, d); }
          forall i | 0 <= i < |longer| - 1 ensures WaitsFor(s, longer[i], longer[i + 1]) {
            if i < |path| - 1 { assert longer[i] == path[i] && longer[i + 1] == path[i + 1]; }
          }
          if d in path {
            var i :| 0 <= i < |path| && path[i] == d;
            CycleFound(s, longer, i);
          }
          DistinctBound(longer, |s.sessions|);
          a := Chase(s, longer);
      }
    } else {
      NotGone(s, c);
      a := FinishOwn(s, c);
    }
  }

  lemma NotGone(s: System, c: ClientId)
    requires !Stranded(s)
    ensures !Gone(s, c)
  {
  }

  lemma WaitsForHolder(s: System, c: ClientId, d: ClientId)
    requires c < |s.sessions| && s.sessions[c].phase.Waiting?
    requires var t := s.sessions[c].phase.req.Table(); t in s.server.tables && s.server.tables[t].holder == Some(d)
    ensures WaitsFor(s, c, d)
  {
  }

  lemma CycleFound(s: System, path: seq<ClientId>, i: nat)
    requires i < |path| - 1 && path[i] == path[|path| - 1]
    requires forall j :: 0 <= j < |path| - 1 ==> WaitsFor(s, path[j], path[j + 1])
    ensures Deadlocked(s)
  {
    var cycle := path[i..];
    forall j | 0 <= j < |cycle| - 1 ensures WaitsFor(s, cycle[j], cycle[j + 1]) {
      assert WaitsFor(s, path[i + j], path[i + j + 1]);
    }
    assert WaitCycle(s, cycle);
  }

  lemma HolderHasWork(s: System, t: string, d: ClientId)
    requires LockInv(s) && s.guard == None && t in s.server.tables && s.server.tables[t].holder == Some(d)
    ensures d < |s.sessions| && Weight(s, d) > 0
  {
    hide LockInv;
    TableFacts(s, t);
    OwnFacts(s, d);
  }

  lemma FinishEnding(s: System, c: ClientId) returns (a: Action)
    requires LockInv(s) && s.guard == Some(c)
    ensures Enabled(s, a) && Finishes(s, a)
  {
    match s.sessions[c].phase
    case Committing(todo) =>
      if todo == {} {
        a := EndCommit(c);
      } else {
        var t :| t in todo;
        assert t in Owned(s, c);
        a := CommitTable(c, t);
      }
    case RollingBack(todo) =>
      if todo == {} {
        a := EndRollback(c);
      } else {
        var t :| t in todo;
        assert t in Owned(s, c);
        a := RollbackTable(c, t);
      }
  }

  /** With the guard free, a client that is not blocked can move on. */
  lemma FinishOwn(s: System, c: ClientId) returns (a: Action)
    requires LockInv(s) && s.guard == None && c < |s.sessions| && Weight(s, c) > 0
    requires !s.sessions[c].phase.Waiting? && !Gone(s, c)
    ensures Enabled(s, a) && Finishes(s, a)
  {
    hide LockInv, SessionOk;
    match s.sessions[c].phase
    case Idle => a := StartRollback(c);
    case Locked(_) => a := Refind(c);
    case Found(req) => a := Operate(c); FoundCanOperate(s, c);
    case Finishing(t) => a := Release(c); FinishingCanRelease(s, c);
    case Committing(_) => EndingHasGuard(s, c);
    case RollingBack(_) => EndingHasGuard(s, c);
  }

  lemma EndingHasGuard(s: System, c: ClientId)
    requires LockInv(s) && c < |s.sessions| && Ending(s.sessions[c].phase)
    ensures s.guard == Some(c)
  {
    assert SessionOk(s, c);
  }

  lemma FoundCanOperate(s: System, c: ClientId)
    requires LockInv(s) && c < |s.sessions| && s.sessions[c].phase.Found?
    ensures Enabled(s, Operate(c))
  {
    hide LockInv;
    OwnFacts(s, c);
  }

  lemma FinishingCanRelease(s: System, c: ClientId)
    requires LockInv(s) && s.guard == None && c < |s.sessions| && s.sessions[c].phase.Finishing?
    ensures Enabled(s, Release(c))
  {
    hide LockInv;
    OwnFacts(s, c);
    assert s.sessions[c].phase.table in Owned(s, c);
  }

  /** From a state with no cycle and no gone session, a run of finishing steps, no longer
      than the work left, brings every client to rest outside a transaction. Any step of
      the run could be taken by whichever client is able to: each one reduces the work
      left, closes no cycle and strands nobody, and while any is left someone is able to. */
  lemma Drain(s: System) returns (actions: seq<Action>)
    requires LockInv(s) && !Deadlocked(s) && !Stranded(s)
    ensures ComesToRest(s, actions) && |actions| <= Work(s)
    decreases Work(s)
  {
    hide Run, LockInv, Enabled, Apply, Finishes, WaitCycle, Stranded;
    NoWork(s, |s.sessions|);
    if Work(s) == 0 {
      actions := [];
      RunNothing(s);
    } else {
      var c :| 0 <= c < |s.sessions| && Weight(s, c) != 0;
      var a := SomeoneCanFinish(s, c);
      FinishingStepWorks(s, a);
      FinishingStrandsNobody(s, a);
      var s' := Apply(s, a);
      if path :| WaitCycle(s', path) {
        FinishingKeepsAcyclic(s, a, path);
      }
      var rest := Drain(s');
      RunPrepend(s, a, rest);
      actions := [a] + rest;
    }
  }

  lemma RunNothing(s: System)
    ensures Run(s, []) == Some(s)
  {
  }

  /** The actions are a run after which nobody is inside a request or a transaction. */
  ghost predicate ComesToRest(s: System, actions: seq<Action>) {
    Run(s, actions).Some? && Quiescent(Run(s, actions).value)
  }

  /** Exactly: a reachable state, fallbacks and closed sessions included, can come to rest
      if and only if nobody waits in a cycle and no closed session is in a transaction. */
  lemma DrainsExactly(before: seq<Action>)
    requires Run(INIT, before).Some?
    ensures var s := Run(INIT, before).value;
            (exists more :: ComesToRest(s, more)) <==> !Deadlocked(s) && !Stranded(s)
  {
    hide Run, LockInv, WaitCycle, ComesToRest, Gone;
    LocksAlwaysInOrder(before);
    var s := Run(INIT, before).value;
    if !Deadlocked(s) && !Stranded(s) {
      var more := Drain(s);
    } else if Deadlocked(s) {
      var path :| WaitCycle(s, path);
      CycleIsStuck(s, path);
      CycleShape(s, path);
      assert path[0] in Members(path);
      StuckNeverRests(s, Members(path), path[0]);
    } else {
      var c :| Gone(s, c);
      StuckNeverRests(s, {c}, c);
    }
  }

  lemma StuckNeverRests(s: System, group: set<ClientId>, c: ClientId)
    requires LockInv(s) && Stuck(s, group) && c in group
    ensures forall more :: !ComesToRest(s, more)
  {
    hide Run, LockInv, Stuck;
    forall more ensures !ComesToRest(s, more) {
      if Run(s, more).Some? {
        StuckForever(s, more, group);
        NotAtRest(Run(s, more).value, group, c);
      }
    }
  }

  lemma NotAtRest(s: System, group: set<ClientId>, c: ClientId)
    requires LockInv(s) && Stuck(s, group) && c in group
    ensures !Quiescent(s)
  {
    hide LockInv;
    assert Gone(s, c) || BlockedBy(s, c, group);
    OwnFacts(s, c);
    assert Weight(s, c) > 0;
  }

  lemma NotDeadlocked(actions: seq<Action>)
    requires Run(INIT, actions).Some? && NoFallback(actions)
    ensures LockInv(Run(INIT, actions).value) && !Deadlocked(Run(INIT, actions).value)
  {
    hide Run, LockInv, Plain;
    PlainRun(actions);
    if path :| WaitCycle(Run(INIT, actions).value, path) {
      NoWaitCycle(actions, path);
    }
  }

  /** Deadlock freedom under the discipline: without fallbacks a reachable state can come
      to rest if and only if no closed session is in a transaction. */
  lemma DrainsWithoutFallbacks(actions: seq<Action>)
    requires Run(INIT, actions).Some? && NoFallback(actions)
    ensures var s := Run(INIT, actions).value; (exists more :: ComesToRest(s, more)) <==> !Stranded(s)
  {
    hide Run, LockInv, ComesToRest, Deadlocked, Stranded;
    NotDeadlocked(actions);
    DrainsExactly(actions);
  }

  /** A reachable state in which no finishing step is enabled has nothing to finish, or a
      cycle of waits, or a closed session in a transaction. */
  lemma StuckMeansDone(actions: seq<Action>)
    requires Run(INIT, actions).Some?
    requires forall a :: Enabled(Run(INIT, actions).value, a) ==> !Finishes(Run(INIT, actions).value, a)
    ensures var s := Run(INIT, actions).value;
            Quiescent(s) || Stranded(s) || (!NoFallback(actions) && Deadlocked(s))
  {
    hide Run, Enabled, Finishes, Deadlocked, Stranded, LockInv, NoFallback;
    LocksAlwaysInOrder(actions);
    var s := Run(INIT, actions).value;
    if NoFallback(actions) {
      NotDeadlocked(actions);
    }
    if !Deadlocked(s) && !Stranded(s) {
      if c :| 0 <= c < |s.sessions| && Weight(s, c) != 0 {
        var a := SomeoneCanFinish(s, c);
        assert false;
      }
    }
  }
}
