/** Single steps in closed form, and a common beginning, for the concrete runs that show
    what goes wrong. */
module Witnesses {
  import opened Wrappers
  import opened Messages
  import opened Tables
  import opened Handlers
  import opened Servers
  import opened Transactions

  const FRESH := Session([], true, Idle, Acknowledged, [], [], [], map[], false)

  lemma ConnectTo(s: System)
    ensures Steps(s, Connect, s.(sessions := s.sessions + [FRESH]))
  {
  }

  lemma CreateTo(s: System, c: ClientId, name: string)
    requires Ready(s, c) && IsIdentifier(name) && name !in s.server.tables
    ensures Steps(s, Create(c, name),
                  s.(server := s.server.Create(name), log := s.log + [Creation(name)],
                     serial := s.serial[name := map[]])
                   .Put(c, s.sessions[c].(last := Acknowledged)))
  {
  }

  lemma BeginTo(s: System, c: ClientId)
    requires Ready(s, c) && !s.server.InTransaction(c)
    ensures var q := s.sessions[c];
            Steps(s, Begin(c), s.(server := s.server.Begin(c))
                                .Put(c, q.(start := q.stack, last := Acknowledged).Forget()))
  {
  }

  lemma PushTo(s: System, c: ClientId, v: string)
    requires Resting(s, c) && s.sessions[c].open && v != ""
    ensures var q, req := s.sessions[c].(stack := s.sessions[c].stack + [v]), Message(PUSH, [v]);
            Steps(s, OnStack(c, req),
                  s.Put(c, if s.server.InTransaction(c) then q.Note(req, Acknowledged) else q.Answer(Acknowledged)))
  {
  }

  /** A SET in a transaction that takes the table's lock. */
  lemma SetTo(s: System, c: ClientId, t: string, k: string)
    requires Ready(s, c) && s.server.InTransaction(c) && s.sessions[c].stack != []
    requires IsIdentifier(t) && IsIdentifier(k)
    requires t in s.server.tables && t !in s.server.LocksOf(c) && s.server.tables[t].holder == None
    ensures var q, req := s.sessions[c], Message(SET, [t, k]);
            var server := s.server.Acquire(t, c);
            var q' := q.(stack := Popped(q.stack), writes := q.writes[At(t, k) := Top(q.stack)]);
            Steps(s, Access(c, req), s.(server := server.WithTable(t, server.tables[t].Set(k, Top(q.stack))))
                                      .Put(c, q'.Note(req, Acknowledged)))
  {
  }

  /** A GET of a table that is not there. */
  lemma MissingTo(s: System, c: ClientId, t: string, k: string)
    requires Ready(s, c) && s.server.InTransaction(c) && IsIdentifier(t) && k != "" && t !in s.server.tables
    ensures var req := Message(GET, [t, k]);
            Steps(s, Access(c, req), s.Put(c, s.sessions[c].Note(req, Refused(NoTable))))
  {
  }

  /** What a GET that finds this adds to a session that has not set the cell. */
  function Saw(q: Session, t: string, k: string, found: Option<string>, locked: bool): Session {
    var req := Message(GET, [t, k]);
    var q' := q.(glimpses := q.glimpses + [Glimpse(At(t, k), found, locked)]);
    match found
    case Some(v) => q'.(stack := q.stack + [v]).Note(req, Fetched(v))
    case None => q'.Note(req, Refused(NoKey))
  }

  /** A lock-free GET. */
  lemma GlanceTo(s: System, c: ClientId, t: string, k: string)
    requires Ready(s, c) && s.server.InTransaction(c) && IsIdentifier(t) && k != ""
    requires t in s.server.tables && t !in s.server.LocksOf(c) && At(t, k) !in s.sessions[c].writes
    ensures Steps(s, BareGet(c, Message(GET, [t, k])),
                  s.Put(c, Saw(s.sessions[c], t, k, s.server.tables[t].Get(k), false)))
  {
    assert s.server.tables[t := s.server.tables[t]] == s.server.tables;
  }

  /** A GET that takes the table's lock. */
  lemma GetTo(s: System, c: ClientId, t: string, k: string)
    requires Ready(s, c) && s.server.InTransaction(c) && IsIdentifier(t) && k != ""
    requires t in s.server.tables && t !in s.server.LocksOf(c) && s.server.tables[t].holder == None
    requires At(t, k) !in s.sessions[c].writes
    ensures Steps(s, Access(c, Message(GET, [t, k])),
                  s.(server := s.server.Acquire(t, c))
                   .Put(c, Saw(s.sessions[c], t, k, s.server.tables[t].Get(k), true)))
  {
    var tables := s.server.Acquire(t, c).tables;
    assert tables[t := tables[t]] == tables;
  }

  lemma StartCommitTo(s: System, c: ClientId)
    requires Ready(s, c) && s.server.InTransaction(c)
    ensures var q := s.sessions[c];
            Steps(s, StartCommit(c),
                  s.(guard := Some(c), log := s.log + [Transaction(c, q.start, q.trace, q.stack)],
                     serial := Override(s.serial, q.writes))
                   .Put(c, q.(phase := Committing(s.server.LocksOf(c)))))
  {
  }

  lemma CommitTableTo(s: System, c: ClientId, t: string)
    requires c < |s.sessions| && s.sessions[c].phase == Committing({t}) && t in s.server.tables
    ensures Steps(s, CommitTable(c, t),
                  s.(server := s.server.CommitTable(t)).Put(c, s.sessions[c].(phase := Committing({}))))
  {
    assert {t} - {t} == {};
  }

  lemma EndCommitTo(s: System, c: ClientId)
    requires c < |s.sessions| && s.sessions[c].phase == Committing({})
    ensures var q := s.sessions[c].(phase := Idle, last := Acknowledged).Forget();
            Steps(s, EndCommit(c), s.(server := s.server.EndTransaction(c), guard := None).Put(c, q))
  {
  }

  lemma StartRollbackTo(s: System, c: ClientId)
    requires Ready(s, c) && s.server.InTransaction(c)
    ensures Steps(s, StartRollback(c),
                  s.(guard := Some(c)).Put(c, s.sessions[c].(phase := RollingBack(s.server.LocksOf(c)))))
  {
  }

  lemma RollbackTableTo(s: System, c: ClientId, t: string)
    requires c < |s.sessions| && s.sessions[c].phase == RollingBack({t}) && t in s.server.tables
    ensures Steps(s, RollbackTable(c, t),
                  s.(server := s.server.RollbackTable(t)).Put(c, s.sessions[c].(phase := RollingBack({}))))
  {
    assert {t} - {t} == {};
  }

  lemma EndRollbackTo(s: System, c: ClientId)
    requires c < |s.sessions| && s.sessions[c].phase == RollingBack({})
    ensures var q := s.sessions[c].(phase := Idle, last := Refused(RolledBack)).Forget();
            Steps(s, EndRollback(c), s.(server := s.server.EndTransaction(c), guard := None).Put(c, q))
  {
  }

  lemma FallBackTo(s: System, c: ClientId, t: string, k: string)
    requires Ready(s, c) && s.server.InTransaction(c) && s.sessions[c].stack != []
    requires IsIdentifier(t) && IsIdentifier(k) && t in s.server.tables && s.server.tables[t].holder != None
    ensures var req := Message(SET, [t, k]);
            Steps(s, FallBack(c, req), s.Put(c, s.sessions[c].(phase := Waiting(req))))
  {
  }

  /** A SET outside a transaction that passes its checks. */
  lemma StartSetTo(s: System, c: ClientId, t: string, k: string)
    requires Ready(s, c) && !s.server.InTransaction(c) && s.sessions[c].stack != []
    requires IsIdentifier(t) && IsIdentifier(k) && t in s.server.tables
    ensures var req := Message(SET, [t, k]);
            Steps(s, StartAuto(c, req), s.Put(c, s.sessions[c].(phase := Waiting(req))))
  {
  }

  /** A GET outside a transaction that passes its checks. */
  lemma StartGetTo(s: System, c: ClientId, t: string, k: string)
    requires Ready(s, c) && !s.server.InTransaction(c) && IsIdentifier(t) && k != "" && t in s.server.tables
    ensures var req := Message(GET, [t, k]);
            Steps(s, StartAuto(c, req), s.Put(c, s.sessions[c].(phase := Waiting(req))))
  {
  }

  lemma AcquireTo(s: System, c: ClientId, req: Message)
    requires c < |s.sessions| && s.sessions[c].phase == Waiting(req)
    requires req.Table() in s.server.tables && s.server.tables[req.Table()].holder == None
    ensures Steps(s, Acquire(c),
                  s.(server := s.server.WithTable(req.Table(), s.server.tables[req.Table()].Lock(c)))
                   .Put(c, s.sessions[c].(phase := Locked(req))))
  {
  }

  lemma RefindTo(s: System, c: ClientId, req: Message)
    requires c < |s.sessions| && s.sessions[c].phase == Locked(req) && s.guard == None
    ensures Steps(s, Refind(c), s.Put(c, s.sessions[c].(phase := Found(req))))
  {
  }

  /** A SET that has its lock by blocking is committed at once. */
  function Stored(s: System, t: string, k: string, v: string): ServerState
    requires t in s.server.tables
  {
    s.server.WithTable(t, s.server.tables[t].Set(k, v).Commit())
  }

  /** Inside a transaction. */
  lemma EscapeTo(s: System, c: ClientId, t: string, k: string)
    requires c < |s.sessions| && s.sessions[c].phase == Found(Message(SET, [t, k])) && s.server.InTransaction(c)
    requires s.sessions[c].stack != [] && t in s.server.tables
    ensures var q := s.sessions[c];
            var q' := q.(stack := Popped(q.stack), phase := Finishing(t), writes := q.writes[At(t, k) := Top(q.stack)]);
            Steps(s, Operate(c), s.(server := Stored(s, t, k, Top(q.stack)))
                                  .Put(c, q'.Note(Message(SET, [t, k]), Acknowledged)))
  {
  }

  /** Outside one. */
  lemma AutoSetTo(s: System, c: ClientId, t: string, k: string)
    requires c < |s.sessions| && s.sessions[c].phase == Found(Message(SET, [t, k])) && !s.server.InTransaction(c)
    requires s.sessions[c].stack != [] && t in s.server.tables
    ensures var q := s.sessions[c];
            var q' := q.(stack := Popped(q.stack), phase := Finishing(t)).Answer(Acknowledged);
            var entry := Transaction(c, q.stack, [Event(Message(SET, [t, k]), Acknowledged)], Popped(q.stack));
            Steps(s, Operate(c),
                  s.(server := Stored(s, t, k, Top(q.stack)), log := s.log + [entry],
                     serial := Override(s.serial, map[At(t, k) := Top(q.stack)])).Put(c, q'))
  {
  }

  lemma ReleaseTo(s: System, c: ClientId, t: string)
    requires c < |s.sessions| && s.sessions[c].phase == Finishing(t) && s.guard == None && t in s.server.tables
    ensures Steps(s, Release(c), s.(server := s.server.WithTable(t, s.server.tables[t].Unlock()))
                                  .Put(c, s.sessions[c].(phase := Idle)))
  {
  }

  lemma ByeTo(s: System, c: ClientId)
    requires Resting(s, c) && s.sessions[c].open
    ensures Steps(s, Bye(c), s.Put(c, s.sessions[c].(last := Acknowledged, open := false)))
  {
  }

  /** What the end of client 0's transaction does to the maps of the two clients. */
  lemma FirstEnds(s: ServerState, locks: set<string>, others: set<string>, active: bool, other: bool)
    requires s.locks == map[0 := locks, 1 := others] && s.active == map[0 := active, 1 := other]
    ensures s.EndTransaction(0) == ServerState(s.tables, map[0 := {}, 1 := others], map[0 := false, 1 := other])
  {
    assert s.locks[0 := {}] == map[0 := {}, 1 := others];
    assert s.active[0 := false] == map[0 := false, 1 := other];
  }

  /** And of client 1's. */
  lemma SecondEnds(s: ServerState, locks: set<string>, others: set<string>, active: bool, other: bool)
    requires s.locks == map[0 := others, 1 := locks] && s.active == map[0 := other, 1 := active]
    ensures s.EndTransaction(1) == ServerState(s.tables, map[0 := others, 1 := {}], map[0 := other, 1 := false])
  {
    assert s.locks[1 := {}] == map[0 := others, 1 := {}];
    assert s.active[1 := false] == map[0 := other, 1 := false];
  }

  /** One more step of a run. */
  lemma Then(s: System, actions: seq<Action>, s1: System, a: Action, s2: System)
    requires Run(s, actions) == Some(s1) && Steps(s1, a, s2)
    ensures Run(s, actions + [a]) == Some(s2)
  {
    hide Enabled, Apply;
    RunAppend(s, actions, a);
  }

  // ----- A common beginning -----

  const SET_T := Message(SET, ["t", "k"])
  const SET_U := Message(SET, ["u", "k"])
  const GET_T := Message(GET, ["t", "k"])

  const NO_LOCKS: map<ClientId, set<string>> := map[0 := {}, 1 := {}]
  const BOTH_OPEN := map[0 := true, 1 := true]
  const TABLES_MADE := [Creation("t"), Creation("u")]
  const TWO_TABLES := map["t" := NEW_TABLE, "u" := NEW_TABLE]
  const EMPTY_DB: Db := map["t" := map[], "u" := map[]]

  /** Two clients in a transaction each, and two empty tables. */
  const TO_BEGUN := [Connect, Connect, Create(0, "t"), Create(0, "u"), Begin(0), Begin(1)]
  const BEGUN :=
    System(ServerState(TWO_TABLES, NO_LOCKS, BOTH_OPEN), None, [FRESH, FRESH], TABLES_MADE, EMPTY_DB)

  lemma ReachTables()
    ensures Run(INIT, [Connect, Connect, Create(0, "t"), Create(0, "u")]) ==
            Some(BEGUN.(server := ServerState(TWO_TABLES, map[], map[])))
  {
    hide Steps, Run;
    var s1 := INIT.(sessions := [FRESH]);
    var s2 := INIT.(sessions := [FRESH, FRESH]);
    var s3 := System(ServerState(map["t" := NEW_TABLE], map[], map[]), None, [FRESH, FRESH],
                     [Creation("t")], map["t" := map[]]);
    var s4 := BEGUN.(server := ServerState(TWO_TABLES, map[], map[]));
    assert [] + [FRESH] == [FRESH] && [FRESH] + [FRESH] == [FRESH, FRESH];
    ConnectTo(INIT);
    ConnectTo(s1);
    CreateTo(s2, 0, "t");
    assert Steps(s2, Create(0, "t"), s3) by {
      assert [] + [Creation("t")] == [Creation("t")] && s2.Put(0, FRESH) == s2;
    }
    CreateTo(s3, 0, "u");
    assert Steps(s3, Create(0, "u"), s4) by {
      assert [Creation("t")] + [Creation("u")] == TABLES_MADE && s3.Put(0, FRESH) == s3;
      assert s3.server.Create("u").tables == TWO_TABLES && s3.serial["u" := map[]] == EMPTY_DB;
    }
    Chain(INIT, [Connect, Connect, Create(0, "t"), Create(0, "u")], [INIT, s1, s2, s3, s4]);
  }

  lemma ReachBegun()
    ensures Run(INIT, TO_BEGUN) == Some(BEGUN)
  {
    hide Steps, Run;
    ReachTables();
    var s4 := BEGUN.(server := ServerState(TWO_TABLES, map[], map[]));
    var s5 := BEGUN.(server := ServerState(TWO_TABLES, map[0 := {}], map[0 := true]));
    BeginTo(s4, 0);
    assert Steps(s4, Begin(0), s5) by { assert s4.Put(0, FRESH) == s4; }
    BeginTo(s5, 1);
    assert Steps(s5, Begin(1), BEGUN) by { assert s5.Put(1, FRESH) == s5; }
    Chain(s4, [Begin(0), Begin(1)], [s4, s5, BEGUN]);
    RunConcat(INIT, [Connect, Connect, Create(0, "t"), Create(0, "u")], [Begin(0), Begin(1)]);
    assert TO_BEGUN == [Connect, Connect, Create(0, "t"), Create(0, "u")] + [Begin(0), Begin(1)];
  }
}
