/** The lock-free GET that handle_get_request performs inside a transaction, and a
    reply that a table is missing: when what a transaction was told no longer holds. */
module StaleReplies {
  import opened Wrappers
  import opened Messages
  import opened Tables
  import opened Handlers
  import opened Servers
  import opened Transactions
  import opened Locking
  import opened SerialRuns
  import opened OpenTransactions
  import opened Settling
  import opened Serializability
  import opened Witnesses

  /** A lock-free GET of a table c does not hold gives c, now, what a transaction alone
      on the settled database would get, exactly when no pending change of another
      client's transaction gives the key a value other than its settled one. Whether
      the log keeps a serial run is decided at the commit, in SerialExactly. */
  lemma LockFreeGetIsServed(s: System, c: ClientId, req: Message)
    requires LockInv(s) && Enabled(s, BareGet(c, req)) && req.Table() !in s.server.LocksOf(c)
    requires Precheck(req.Table() in s.server.tables, s.sessions[c].stack, req) == None
    ensures var s', t, k := DoBareGet(s, c, req), req.Table(), req.Key();
            var ts, view := s.server.tables[t], Overlaid(s, c, Settled(s));
            Serve(Machine(view, s.sessions[c].stack), req) ==
              Outcome(s'.sessions[c].last, Machine(view, s'.sessions[c].stack))
            <==> Publishing(s, ts.holder) || k !in ts.overlay || CellText(Settled(s), t, k) == Some(ts.overlay[k])
  {
    var view, t := Overlaid(s, c, Settled(s)), req.Table();
    assert view[t] == SettledTable(s, t);
  }

  /** A run stops being serializable at a commit whose transaction's lock-free GETs no
      longer hold, whatever comes after. */
  lemma StaleCommit(actions: seq<Action>, c: ClientId, more: seq<Action>)
    requires Run(INIT, actions).Some? && Run(INIT, actions + [StartCommit(c)] + more).Some?
    requires !ReadsHold(Run(INIT, actions).value, StartCommit(c))
    ensures var log := Run(INIT, actions + [StartCommit(c)] + more).value.log;
            Serial(log) == None && Serial(Forgiven(log)) == None
  {
    hide Run, ReadsHold, InOrder;
    var upTo := actions + [StartCommit(c)];
    assert upTo[..|upTo| - 1] == actions;
    if Throughout(INIT, upTo + more, ReadsHold) {
      ThroughoutPrefix(INIT, upTo, more, ReadsHold);
    }
    SerialExactly(upTo + more);
  }

  // ----- The runs -----

  const PUSH_FIVE := Message(PUSH, ["5"])
  const WRITTEN := [Event(PUSH_FIVE, Acknowledged), Event(SET_T, Acknowledged)]
  const FIVE := map[At("t", "k") := "5"]
  const WRITER := Session([], true, Idle, Acknowledged, [], WRITTEN, [], FIVE, false)
  const PENDING := TableState(map[], map["k" := "5"], Some(0))

  const T_LOCKED: map<ClientId, set<string>> := map[0 := {"t"}, 1 := {}]
  const PENDING_SERVER := ServerState(map["t" := PENDING, "u" := NEW_TABLE], T_LOCKED, BOTH_OPEN)

  const HAS_FIVE := Session(["5"], true, Idle, Acknowledged, [], [Event(PUSH_FIVE, Acknowledged)], [], map[], false)

  lemma WriterPushes(reader: Session)
    ensures Steps(BEGUN.(sessions := [FRESH, reader]), OnStack(0, PUSH_FIVE), BEGUN.(sessions := [HAS_FIVE, reader]))
  {
    hide Steps, Override;
    var s := BEGUN.(sessions := [FRESH, reader]);
    PushTo(s, 0, "5");
    assert [] + ["5"] == ["5"] && [] + [Event(PUSH_FIVE, Acknowledged)] == HAS_FIVE.trace;
    assert s.Put(0, HAS_FIVE) == BEGUN.(sessions := [HAS_FIVE, reader]);
  }

  lemma TakesT(s: System)
    requires s.server == BEGUN.server
    ensures var server := s.server.Acquire("t", 0);
            server.WithTable("t", server.tables["t"].Set("k", "5")) == PENDING_SERVER
  {
    assert {} + {"t"} == {"t"};
  }

  /** Client 0 sets the cell, whatever client 1 did before. */
  lemma WriterSets(reader: Session) returns (mid: System)
    ensures var s := BEGUN.(sessions := [FRESH, reader]);
            && Steps(s, OnStack(0, PUSH_FIVE), mid)
            && Steps(mid, Access(0, SET_T), s.(server := PENDING_SERVER, sessions := [WRITER, reader]))
  {
    hide Steps, Override, ServerState.Acquire;
    WriterPushes(reader);
    mid := BEGUN.(sessions := [HAS_FIVE, reader]);
    SetTo(mid, 0, "t", "k");
    assert Popped(["5"]) == [];
    assert HAS_FIVE.trace + [Event(SET_T, Acknowledged)] == WRITTEN && map[][At("t", "k") := "5"] == FIVE;
    TakesT(mid);
    assert mid.sessions[0 := WRITER] == [WRITER, reader];
  }

  // ----- A dirty read -----

  const LOOKED := [OnStack(0, PUSH_FIVE), Access(0, SET_T), BareGet(1, GET_T)]
  const ROLLED_BACK := [EndCommit(1), StartRollback(0), RollbackTable(0, "t"), EndRollback(0)]

  /** Client 0 sets a cell and rolls back; client 1 reads it without a lock meanwhile
      and commits. */
  const DIRTY_RUN := TO_BEGUN + LOOKED + [StartCommit(1)] + ROLLED_BACK

  const SET_DONE := BEGUN.(server := PENDING_SERVER, sessions := [WRITER, FRESH])
  const READ_FIVE := [Event(GET_T, Fetched("5"))]
  const READER :=
    Session(["5"], true, Idle, Fetched("5"), [], READ_FIVE, [Glimpse(At("t", "k"), Some("5"), false)], map[], false)
  const GLANCED := SET_DONE.(sessions := [WRITER, READER])
  const DIRTY_LOG := TABLES_MADE + [Transaction(1, [], READ_FIVE, ["5"])]
  const READER_GONE := FRESH.(stack := ["5"])
  const WRITER_GONE := FRESH.(last := Refused(RolledBack))
  const ONE_CLOSED := map[0 := true, 1 := false]
  const BOTH_CLOSED := map[0 := false, 1 := false]

  const DIRTY_END :=
    System(ServerState(TWO_TABLES, NO_LOCKS, BOTH_CLOSED), None, [WRITER_GONE, READER_GONE], DIRTY_LOG, EMPTY_DB)

  lemma ReachGlanced()
    ensures Run(INIT, TO_BEGUN + LOOKED) == Some(GLANCED)
  {
    hide Steps, Run, Override;
    ReachBegun();
    var mid := WriterSets(FRESH);
    GlanceTo(SET_DONE, 1, "t", "k");
    assert [] + ["5"] == ["5"] && [] + READ_FIVE == READ_FIVE;
    assert [] + [Glimpse(At("t", "k"), Some("5"), false)] == READER.glimpses;
    assert SET_DONE.Put(1, READER) == GLANCED;
    assert Steps(SET_DONE, BareGet(1, GET_T), GLANCED);
    Chain(BEGUN, LOOKED, [BEGUN, mid, SET_DONE, GLANCED]);
    RunConcat(INIT, TO_BEGUN, LOOKED);
  }

  const READER_CLOSED :=
    GLANCED.(server := PENDING_SERVER.(active := ONE_CLOSED), sessions := [WRITER, READER_GONE], log := DIRTY_LOG)

  lemma ReachReaderClosed()
    ensures Run(GLANCED, [StartCommit(1), EndCommit(1)]) == Some(READER_CLOSED)
  {
    hide Steps, Run, Override;
    var s1 := GLANCED.(guard := Some(1), sessions := [WRITER, READER.(phase := Committing({}))], log := DIRTY_LOG);
    StartCommitTo(GLANCED, 1);
    OverrideNothing(EMPTY_DB);
    assert Steps(GLANCED, StartCommit(1), s1) by { assert GLANCED.Put(1, s1.sessions[1]).sessions == s1.sessions; }
    EndCommitTo(s1, 1);
    assert Steps(s1, EndCommit(1), READER_CLOSED) by {
      assert s1.Put(1, READER_GONE).sessions == READER_CLOSED.sessions;
      SecondEnds(s1.server, {}, {"t"}, true, true);
    }
    Chain(GLANCED, [StartCommit(1), EndCommit(1)], [GLANCED, s1, READER_CLOSED]);
  }

  const ROLLING := READER_CLOSED.(guard := Some(0), sessions := [WRITER.(phase := RollingBack({"t"})), READER_GONE])
  const ROLLED := ROLLING.(server := ROLLING.server.(tables := TWO_TABLES),
                           sessions := [WRITER.(phase := RollingBack({})), READER_GONE])

  lemma RollsBack()
    ensures Steps(READER_CLOSED, StartRollback(0), ROLLING)
    ensures Steps(ROLLING, RollbackTable(0, "t"), ROLLED)
  {
    hide Steps, Override;
    StartRollbackTo(READER_CLOSED, 0);
    assert READER_CLOSED.Put(0, ROLLING.sessions[0]).sessions == ROLLING.sessions;
    RollbackTableTo(ROLLING, 0, "t");
    assert ROLLING.Put(0, ROLLED.sessions[0]).sessions == ROLLED.sessions;
    assert PENDING.Rollback().Unlock() == NEW_TABLE;
    assert ROLLING.server.RollbackTable("t") == ROLLED.server;
  }

  lemma RolledEnds()
    ensures Steps(ROLLED, EndRollback(0), DIRTY_END)
  {
    hide Steps, Override;
    EndRollbackTo(ROLLED, 0);
    assert ROLLED.Put(0, WRITER_GONE).sessions == DIRTY_END.sessions;
    FirstEnds(ROLLED.server, {"t"}, {}, true, false);
  }

  lemma ReachDirtyEnd()
    ensures Run(GLANCED, [StartCommit(1)] + ROLLED_BACK) == Some(DIRTY_END)
  {
    hide Steps, Run, Override;
    ReachReaderClosed();
    RollsBack();
    RolledEnds();
    var rest := [StartRollback(0), RollbackTable(0, "t"), EndRollback(0)];
    Chain(READER_CLOSED, rest, [READER_CLOSED, ROLLING, ROLLED, DIRTY_END]);
    RunConcat(GLANCED, [StartCommit(1), EndCommit(1)], rest);
    assert [StartCommit(1)] + ROLLED_BACK == [StartCommit(1), EndCommit(1)] + rest;
  }

  /** The lock-free GET breaks serializability: the run is possible, only its lock-free
      GET is undisciplined, and its log has no serial run, because client 1 committed
      a read of a value that was never made permanent. */
  lemma LockFreeGetReadsDirty()
    ensures Run(INIT, DIRTY_RUN) == Some(DIRTY_END)
    ensures Serial(DIRTY_END.log) == None && Serial(Forgiven(DIRTY_END.log)) == None
    ensures DIRTY_END.sessions[1].stack == ["5"] && DIRTY_END.server.tables["t"] == NEW_TABLE
    ensures forall i :: 0 <= i < |DIRTY_RUN| && i != 8 ==> !DIRTY_RUN[i].BareGet? && !DIRTY_RUN[i].FallBack?
  {
    hide Run, Serial, Forgiven, Override;
    ReachGlanced();
    ReachDirtyEnd();
    var upTo := TO_BEGUN + LOOKED;
    assert upTo + ([StartCommit(1)] + ROLLED_BACK) == DIRTY_RUN;
    RunConcat(INIT, upTo, [StartCommit(1)] + ROLLED_BACK);
    assert !Holds(GLANCED.serial, GLANCED.sessions[1].glimpses[0]);
    StaleCommit(upTo, 1, ROLLED_BACK);
  }

  // ----- A read that is not repeatable -----

  const COMMITTED := [OnStack(0, PUSH_FIVE), Access(0, SET_T), StartCommit(0), CommitTable(0, "t"), EndCommit(0)]

  /** Client 1 looks for a key before client 0 sets it and commits; then it commits. */
  const STALE_RUN := TO_BEGUN + [BareGet(1, GET_T)] + COMMITTED + [StartCommit(1)]

  const READ_NONE := [Event(GET_T, Refused(NoKey))]
  const EARLY_READER :=
    Session([], true, Idle, Refused(NoKey), [], READ_NONE, [Glimpse(At("t", "k"), None, false)], map[], false)
  const WRITTEN_LOG := TABLES_MADE + [Transaction(0, [], WRITTEN, [])]
  const WRITTEN_DB: Db := map["t" := map["k" := "5"], "u" := map[]]
  const WRITTEN_TABLES := map["t" := TableState(map["k" := "5"], map[], None), "u" := NEW_TABLE]
  const WRITE_DONE :=
    System(ServerState(WRITTEN_TABLES, NO_LOCKS, map[0 := false, 1 := true]), None, [FRESH, EARLY_READER],
           WRITTEN_LOG, WRITTEN_DB)

  const EARLY := BEGUN.(sessions := [FRESH, EARLY_READER])
  const EARLY_SET := SET_DONE.(sessions := [WRITER, EARLY_READER])
  const PUBLISHING :=
    EARLY_SET.(guard := Some(0), sessions := [WRITER.(phase := Committing({"t"})), EARLY_READER],
               log := WRITTEN_LOG, serial := WRITTEN_DB)
  const PUBLISHED :=
    PUBLISHING.(server := EARLY_SET.server.(tables := WRITTEN_TABLES),
                sessions := [WRITER.(phase := Committing({})), EARLY_READER])

  lemma ReachEarly()
    ensures Run(INIT, TO_BEGUN + [BareGet(1, GET_T)]) == Some(EARLY)
  {
    hide Steps, Run, Override;
    ReachBegun();
    GlanceTo(BEGUN, 1, "t", "k");
    assert [] + READ_NONE == READ_NONE && [] + [Glimpse(At("t", "k"), None, false)] == EARLY_READER.glimpses;
    assert BEGUN.Put(1, EARLY_READER) == EARLY;
    Then(INIT, TO_BEGUN, BEGUN, BareGet(1, GET_T), EARLY);
  }

  /** The serial database after one write of the cell. */
  lemma WriteOf(v: string)
    ensures Override(EMPTY_DB, map[At("t", "k") := v]) == map["t" := map["k" := v], "u" := map[]]
  {
    hide Override;
    OverrideSingle(EMPTY_DB, "t", "k", v);
  }

  lemma StartsPublishing()
    ensures Steps(EARLY_SET, StartCommit(0), PUBLISHING)
  {
    hide Steps, Override;
    StartCommitTo(EARLY_SET, 0);
    WriteOf("5");
    assert EARLY_SET.Put(0, PUBLISHING.sessions[0]).sessions == PUBLISHING.sessions;
  }

  lemma Publishes()
    ensures Steps(PUBLISHING, CommitTable(0, "t"), PUBLISHED)
  {
    hide Steps;
    CommitTableTo(PUBLISHING, 0, "t");
    assert PUBLISHING.Put(0, PUBLISHED.sessions[0]).sessions == PUBLISHED.sessions;
    assert PENDING.Commit().Unlock() == TableState(map["k" := "5"], map[], None);
    assert PUBLISHING.server.CommitTable("t") == PUBLISHED.server;
  }

  lemma PublishedEnds()
    ensures Steps(PUBLISHED, EndCommit(0), WRITE_DONE)
  {
    hide Steps, Override;
    EndCommitTo(PUBLISHED, 0);
    assert PUBLISHED.Put(0, FRESH).sessions == WRITE_DONE.sessions;
    FirstEnds(PUBLISHED.server, {"t"}, {}, true, true);
  }

  lemma ReachWritten()
    ensures Run(EARLY, COMMITTED) == Some(WRITE_DONE)
  {
    hide Steps, Run, Override;
    var mid := WriterSets(EARLY_READER);
    StartsPublishing();
    Publishes();
    PublishedEnds();
    Chain(EARLY, COMMITTED, [EARLY, mid, EARLY_SET, PUBLISHING, PUBLISHED, WRITE_DONE]);
  }

  /** A lock-free GET that was right when it was made can be wrong by the commit: every
      step is possible, the key had no pending change, and the log has no serial run. */
  lemma LockFreeGetGoesStale()
    ensures Run(INIT, STALE_RUN).Some? && Serial(Run(INIT, STALE_RUN).value.log) == None
    ensures Run(INIT, STALE_RUN[..6]) == Some(BEGUN) && BEGUN.server.tables["t"] == NEW_TABLE
    ensures STALE_RUN[6] == BareGet(1, GET_T)
  {
    hide Run, Serial, Forgiven, Override;
    ReachBegun();
    ReachEarly();
    ReachWritten();
    var upTo := TO_BEGUN + [BareGet(1, GET_T)] + COMMITTED;
    RunConcat(INIT, TO_BEGUN + [BareGet(1, GET_T)], COMMITTED);
    StartCommitTo(WRITE_DONE, 1);
    Then(INIT, upTo, WRITE_DONE, StartCommit(1), Apply(WRITE_DONE, StartCommit(1)));
    assert STALE_RUN[..6] == TO_BEGUN && upTo + [StartCommit(1)] + [] == STALE_RUN;
    assert !Holds(WRITE_DONE.serial, WRITE_DONE.sessions[1].glimpses[0]);
    StaleCommit(upTo, 1, []);
  }

  // ----- A table that was missing -----

  /** Client 1 is told that a table is missing, client 0 creates it, client 1 commits;
      no step leaves the discipline. */
  const MISSING_RUN := [Connect, Connect, Begin(1), Access(1, GET_T), Create(0, "t"), StartCommit(1)]

  const TOLD := [Event(GET_T, Refused(NoTable))]
  const ASKER := Session([], true, Idle, Refused(NoTable), [], TOLD, [], map[], false)
  const CREATED :=
    System(ServerState(map["t" := NEW_TABLE], map[1 := {}], map[1 := true]), None, [FRESH, ASKER],
           [Creation("t")], map["t" := map[]])

  lemma ReachCreated()
    ensures Run(INIT, MISSING_RUN[..5]) == Some(CREATED)
  {
    hide Steps, Run, Override;
    var s1 := INIT.(sessions := [FRESH]);
    var s2 := INIT.(sessions := [FRESH, FRESH]);
    var s3 := s2.(server := ServerState(map[], map[1 := {}], map[1 := true]));
    var s4 := s3.(sessions := [FRESH, ASKER]);
    ConnectTo(INIT);
    ConnectTo(s1);
    assert [] + [FRESH] == [FRESH] && [FRESH] + [FRESH] == [FRESH, FRESH];
    BeginTo(s2, 1);
    assert Steps(s2, Begin(1), s3) by { assert [FRESH, FRESH][1 := FRESH] == [FRESH, FRESH]; }
    MissingTo(s3, 1, "t", "k");
    assert Steps(s3, Access(1, GET_T), s4) by {
      assert [] + TOLD == TOLD;
      assert s3.Put(1, ASKER) == s4;
    }
    CreateTo(s4, 0, "t");
    assert Steps(s4, Create(0, "t"), CREATED) by {
      assert s4.Put(0, FRESH) == s4 && [] + [Creation("t")] == [Creation("t")];
    }
    Chain(INIT, MISSING_RUN[..5], [INIT, s1, s2, s3, s4, CREATED]);
  }

  /** A covered run whose log has no serial run with the reply that a table is missing,
      and has one without it. */
  lemma MissingTableIsCreated()
    ensures CoveredRun(INIT, MISSING_RUN)
    ensures var log := Run(INIT, MISSING_RUN).value.log; Serial(log) == None && Serial(Forgiven(log)).Some?
  {
    hide Run, Serial, Forgiven, Settled, CommittedDb, CoveredRun, Calm, Override;
    ReachCreated();
    StartCommitTo(CREATED, 1);
    Then(INIT, MISSING_RUN[..5], CREATED, StartCommit(1), Apply(CREATED, StartCommit(1)));
    assert MISSING_RUN[..5] + [StartCommit(1)] == MISSING_RUN;
    NothingBare(MISSING_RUN);
    assert ToldMissing(CREATED.sessions[1].trace[0]);
    assert Creation("t") in CREATED.log by { assert CREATED.log[0] == Creation("t"); }
    assert !RefusalsHold(CREATED, StartCommit(1));
    Serializable(MISSING_RUN);
  }

  /** A run with no lock-free GET and no fallback is covered. */
  lemma {:induction false} NothingBare(actions: seq<Action>)
    requires Run(INIT, actions).Some?
    requires forall i :: 0 <= i < |actions| ==> !actions[i].BareGet? && !actions[i].FallBack?
    ensures CoveredRun(INIT, actions)
  {
    if actions != [] { NothingBare(actions[..|actions| - 1]); }
  }
}
