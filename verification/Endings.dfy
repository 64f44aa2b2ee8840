/** Commit and rollback seen table by table: what each round of their loops shows,
    what a whole loop amounts to, and what a rolled-back transaction leaves behind. */
module Endings {
  import opened Wrappers
  import opened Tables
  import opened Handlers
  import opened Servers
  import opened Transactions
  import opened Locking
  import opened Settling

  /** One round of the commit loop: the table is released showing exactly its contents
      in the serial order, that order and those contents do not move, and the tables
      still to do stay locked by the committing client. */
  lemma CommitRound(s: System, c: ClientId, t: string)
    requires LockInv(s) && Enabled(s, CommitTable(c, t))
    ensures var s' := Apply(s, CommitTable(c, t));
            && s'.server.tables[t].holder == None && s'.server.tables[t].overlay == map[]
            && s'.server.tables[t].data == s'.server.tables[t].Visible() == Settled(s)[t]
            && s'.log == s.log && Settled(s') == Settled(s)
            && s'.sessions[c].phase == Committing(s.sessions[c].phase.todo - {t})
            && forall u :: u in s.sessions[c].phase.todo && u != t ==>
                 u in s'.server.tables && s'.server.tables[u].holder == Some(c)
  {
    hide LockInv, TableOk;
    QuietSettled(s, CommitTable(c, t));
    OwnFacts(s, c);
    assert forall u :: u in s.sessions[c].phase.todo ==> u in Owned(s, c);
  }

  // ----- A loop with nobody stepping in -----

  function Rounds(c: ClientId, order: seq<string>, commit: bool): seq<Action> {
    if order == [] then []
    else
      var t := order[|order| - 1];
      Rounds(c, order[..|order| - 1], commit) + [Round(c, t, commit)]
  }

  function Round(c: ClientId, t: string, commit: bool): Action {
    if commit then CommitTable(c, t) else RollbackTable(c, t)
  }

  function Elements(order: seq<string>): set<string> {
    set t | t in order
  }

  function EndingPhase(commit: bool, todo: set<string>): Phase {
    if commit then Committing(todo) else RollingBack(todo)
  }

  /** The state part way through a loop. */
  function MidLoop(s: System, c: ClientId, done: set<string>, commit: bool): System
    requires c < |s.sessions|
  {
    s.(server := if commit then s.server.CommitTables(done) else s.server.RollbackTables(done))
     .Put(c, s.sessions[c].(phase := EndingPhase(commit, s.server.LocksOf(c) - done)))
  }

  lemma {:induction false} RoundsReach(s: System, c: ClientId, order: seq<string>, commit: bool)
    requires c < |s.sessions| && s.sessions[c].phase == EndingPhase(commit, s.server.LocksOf(c))
    requires NoRepeats(order) && Elements(order) <= s.server.LocksOf(c) <= s.server.tables.Keys
    ensures Run(s, Rounds(c, order, commit)) == Some(MidLoop(s, c, Elements(order), commit))
  {
    hide Enabled, Apply;
    if order == [] {
      LoopStart(s.server);
      assert Elements(order) == {} && s.server.LocksOf(c) - {} == s.server.LocksOf(c);
      assert s.sessions[c := s.sessions[c]] == s.sessions;
    } else {
      var front, t := order[..|order| - 1], order[|order| - 1];
      assert Elements(order) == Elements(front) + {t} && t !in Elements(front);
      RoundsReach(s, c, front, commit);
      MidLoopRound(s, c, Elements(front), t, commit);
      RunAppend(s, Rounds(c, front, commit), Round(c, t, commit));
    }
  }

  lemma MidLoopRound(s: System, c: ClientId, done: set<string>, t: string, commit: bool)
    requires c < |s.sessions| && done <= s.server.LocksOf(c) <= s.server.tables.Keys
    requires t in s.server.LocksOf(c) && t !in done
    ensures Enabled(MidLoop(s, c, done, commit), Round(c, t, commit))
    ensures Apply(MidLoop(s, c, done, commit), Round(c, t, commit)) == MidLoop(s, c, done + {t}, commit)
  {
    LoopRound(s.server, done, t);
    assert s.server.LocksOf(c) - done - {t} == s.server.LocksOf(c) - (done + {t});
    var s', m := Apply(MidLoop(s, c, done, commit), Round(c, t, commit)), MidLoop(s, c, done + {t}, commit);
    assert s'.sessions == m.sessions;
  }

  /** c's transaction as the log records it. */
  function TransactionOf(s: System, c: ClientId): Entry
    requires c < |s.sessions|
  {
    Transaction(c, s.sessions[c].start, s.sessions[c].trace, s.sessions[c].stack)
  }

  /** The loops in any order, from their first step to their last: what Server's
      commit_transaction and rollback_transaction do as one atomic step. */
  lemma LoopIsAtomic(s: System, c: ClientId, order: seq<string>, commit: bool)
    requires LockInv(s) && Ready(s, c) && s.server.InTransaction(c)
    requires NoRepeats(order) && Elements(order) == s.server.LocksOf(c)
    ensures var start := if commit then StartCommit(c) else StartRollback(c);
            var end := if commit then EndCommit(c) else EndRollback(c);
            var r := Run(s, [start] + (Rounds(c, order, commit) + [end]));
            && r.Some?
            && r.value.server == (if commit then s.server.Commit(c) else s.server.Rollback(c))
            && r.value.guard == None
            && r.value.log == s.log + (if commit then [TransactionOf(s, c)] else [])
            && r.value.sessions[c].phase == Idle && r.value.sessions[c].stack == s.sessions[c].stack
            && (commit ==> r.value.sessions[c].last == Acknowledged && r.value.sessions[c].open)
            && (!commit ==> r.value.sessions[c].last == Refused(RolledBack))
            && |r.value.sessions| == |s.sessions|
            && forall d :: 0 <= d < |s.sessions| && d != c ==> r.value.sessions[d] == s.sessions[d]
  {
    hide Run, Override, LockInv, MidLoop, Elements, NoRepeats;
    var start := if commit then StartCommit(c) else StartRollback(c);
    var end := if commit then EndCommit(c) else EndRollback(c);
    OwnFacts(s, c);
    assert Owned(s, c) == s.server.LocksOf(c);
    var s1 := Apply(s, start);
    RoundsReach(s1, c, order, commit);
    LoopEnds(s1, c, commit);
    RunAppend(s1, Rounds(c, order, commit), end);
    RunPrepend(s, start, Rounds(c, order, commit) + [end]);
    var s2 := Apply(MidLoop(s1, c, s1.server.LocksOf(c), commit), end);
    forall d | 0 <= d < |s.sessions| && d != c ensures s2.sessions[d] == s.sessions[d] {
      assert s1.sessions[d] == s.sessions[d];
    }
  }

  /** The step after the last round. */
  lemma LoopEnds(s: System, c: ClientId, commit: bool)
    requires c < |s.sessions| && s.sessions[c].phase == EndingPhase(commit, s.server.LocksOf(c))
    ensures var end := if commit then EndCommit(c) else EndRollback(c);
            var m := MidLoop(s, c, s.server.LocksOf(c), commit);
            && Enabled(m, end) && var s' := Apply(m, end);
               && s'.server == (if commit then s.server.Commit(c) else s.server.Rollback(c))
               && s'.guard == None && s'.log == s.log && |s'.sessions| == |s.sessions|
               && s'.sessions[c] == s.sessions[c].(phase := Idle).Forget()
                                     .Answer(if commit then Acknowledged else Refused(RolledBack))
               && forall d :: 0 <= d < |s.sessions| && d != c ==> s'.sessions[d] == s.sessions[d]
  {
    assert s.server.LocksOf(c) - s.server.LocksOf(c) == {};
  }

  // ----- The log -----

  /** The log only grows: what is made permanent stays, in its place. */
  lemma {:induction false} LogGrows(s: System, actions: seq<Action>)
    requires Run(s, actions).Some?
    ensures s.log <= Run(s, actions).value.log
  {
    if actions != [] {
      LogGrows(s, actions[..|actions| - 1]);
      LogStep(Run(s, actions[..|actions| - 1]).value, actions[|actions| - 1]);
    }
  }

  lemma LogStep(s: System, a: Action)
    requires Enabled(s, a)
    ensures s.log <= Apply(s, a).log
  {
    hide Precheck, ServeStack, OperateOn;
  }

  // ----- Rolled-back transactions -----

  /** c holds t inside a transaction that has not begun to commit. */
  predicate HoldsPending(s: System, c: ClientId, t: string) {
    && c < |s.sessions| && t in s.server.tables && t in s.server.LocksOf(c) && t in Owned(s, c)
    && s.server.InTransaction(c) && !s.sessions[c].phase.Committing?
  }

  /** Whatever anyone does, the committed data of a table held by a transaction stays
      put until that transaction commits or gives the table up. */
  lemma FrozenStep(s: System, a: Action, c: ClientId, t: string)
    requires LockInv(s) && Enabled(s, a) && HoldsPending(s, c, t)
    requires a != StartCommit(c) && a != RollbackTable(c, t)
    ensures var s' := Apply(s, a);
            LockInv(s') && HoldsPending(s', c, t) && s'.server.tables[t].data == s.server.tables[t].data
  {
    hide LockInv, HoldsPending;
    LockInvStep(s, a);
    if a != Connect && a.c != c {
      OthersFreeze(s, a, c, t);
    } else {
      OwnFreeze(s, a, c, t);
    }
  }

  lemma OthersFreeze(s: System, a: Action, c: ClientId, t: string)
    requires LockInv(s) && Enabled(s, a) && HoldsPending(s, c, t) && a != Connect && a.c != c
    ensures HoldsPending(Apply(s, a), c, t) && Apply(s, a).server.tables[t] == s.server.tables[t]
  {
    hide Precheck, Apply, Enabled;
    StepIsLocal(s, a);
    OwnersDisjoint(s, c, a.c);
    assert s.server.tables[t].holder == Some(c);
  }

  lemma OwnFreeze(s: System, a: Action, c: ClientId, t: string)
    requires LockInv(s) && Enabled(s, a) && HoldsPending(s, c, t) && (a == Connect || a.c == c)
    requires a != StartCommit(c) && a != RollbackTable(c, t)
    ensures HoldsPending(Apply(s, a), c, t) && Apply(s, a).server.tables[t].data == s.server.tables[t].data
  {
    hide LockInv, Precheck, ServeStack, TableOk, DoAccess, DoBareGet, Override, OperateOn;
    OwnFacts(s, c);
    if a.Access? {
      AccessKeepsData(s, c, a.req, t);
    } else if a.BareGet? {
      BareGetChangesSession(s, c, a.req);
    }
  }

  lemma {:induction false} FrozenRun(s: System, actions: seq<Action>, c: ClientId, t: string)
    requires LockInv(s) && HoldsPending(s, c, t) && Run(s, actions).Some?
    requires StartCommit(c) !in actions && RollbackTable(c, t) !in actions
    ensures var s' := Run(s, actions).value;
            LockInv(s') && HoldsPending(s', c, t) && s'.server.tables[t].data == s.server.tables[t].data
  {
    hide LockInv, HoldsPending, Enabled, Apply;
    if actions != [] {
      var front, a := actions[..|actions| - 1], actions[|actions| - 1];
      assert a in actions;
      FrozenRun(s, front, c, t);
      FrozenStep(Run(s, front).value, a, c, t);
    }
  }

  /** Rollback leaves no trace: from any moment a transaction holds a table, however
      everyone's steps interleave and whatever it sets, when its rollback reaches the
      table the table is free and shows exactly the committed data of that moment. */
  lemma RollbackRestores(before: seq<Action>, actions: seq<Action>, c: ClientId, t: string)
    requires Run(INIT, before).Some? && HoldsPending(Run(INIT, before).value, c, t)
    requires var s := Run(INIT, before).value;
             Run(s, actions).Some? && Enabled(Run(s, actions).value, RollbackTable(c, t))
    requires StartCommit(c) !in actions && RollbackTable(c, t) !in actions
    ensures var s := Run(INIT, before).value;
            var s' := Apply(Run(s, actions).value, RollbackTable(c, t));
            s'.server.tables[t] == TableState(s.server.tables[t].data, map[], None)
            && s'.server.tables[t].Visible() == s.server.tables[t].data
  {
    hide Run, HoldsPending;
    LocksAlwaysInOrder(before);
    FrozenRun(Run(INIT, before).value, actions, c, t);
  }
}
