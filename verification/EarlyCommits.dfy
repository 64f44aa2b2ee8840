/** A SET that fell back to the blocking lock and got it: its value is committed ahead of
    its transaction. Such a transaction can still be serializable, and need not be. */
module EarlyCommits {
  import opened Wrappers
  import opened Messages
  import opened Tables
  import opened Handlers
  import opened Servers
  import opened Transactions
  import opened Locking
  import opened SerialRuns
  import opened Settling
  import opened Witnesses

  /** A SET that fell back is committed on the spot, ahead of its transaction: whatever
      else the transaction did is undone by a rollback, and this is not. */
  lemma FallbackEscapesRollback(actions: seq<Action>, c: ClientId)
    requires Run(INIT, actions).Some? && Enabled(Run(INIT, actions).value, Operate(c))
    requires var s := Run(INIT, actions).value; s.server.InTransaction(c) && s.sessions[c].phase.req.messageType == SET
    ensures var s := Run(INIT, actions).value;
            var q, s' := s.sessions[c], DoOperate(s, c);
            var t, k := q.phase.req.Table(), q.phase.req.Key();
            && s'.server.tables[t].data == s.server.tables[t].data[k := Top(q.stack)]
            && s'.server.Rollback(c).tables[t] == s'.server.tables[t]
            && forall u :: u in s.server.LocksOf(c) ==>
                 u in s'.server.tables && s'.server.Rollback(c).tables[u].Visible() == s.server.tables[u].data
  {
    hide Run, LockInv, Precheck;
    LocksAlwaysInOrder(actions);
    var s := Run(INIT, actions).value;
    OwnFacts(s, c);
    assert s.sessions[c].phase.req.Table() in Owned(s, c);
    assert forall u :: u in s.server.LocksOf(c) ==> u in Owned(s, c);
  }

  // ----- A run that is serializable -----

  const PUSH_FIVE := Message(PUSH, ["5"])

  /** Client 1 reads t under its lock and commits; client 0's SET of t waits for that,
      is committed ahead of client 0's transaction, and then that commits. */
  const TO_BLOCKED := TO_BEGUN + [Access(1, GET_T), OnStack(0, PUSH_FIVE), FallBack(0, SET_T)]
  const READER_ENDS := [StartCommit(1), CommitTable(1, "t"), EndCommit(1)]
  const SET_GOES_ON := [Acquire(0), Refind(0), Operate(0), Release(0)]
  const EARLY_RUN := TO_BLOCKED + READER_ENDS + SET_GOES_ON + [StartCommit(0)]

  const READ_NONE := [Event(GET_T, Refused(NoKey))]
  const READER :=
    Session([], true, Idle, Refused(NoKey), [], READ_NONE, [Glimpse(At("t", "k"), None, true)], map[], false)
  const T_READ := TableState(map[], map[], Some(1))
  const READING :=
    BEGUN.(server := ServerState(map["t" := T_READ, "u" := NEW_TABLE], map[0 := {}, 1 := {"t"}], BOTH_OPEN),
           sessions := [FRESH, READER])

  const PUSHED := [Event(PUSH_FIVE, Acknowledged)]
  const SETTER := Session(["5"], true, Idle, Acknowledged, [], PUSHED, [], map[], false)
  const BLOCKED := READING.(sessions := [SETTER.(phase := Waiting(SET_T)), READER])

  lemma ReachBlocked()
    ensures Run(INIT, TO_BLOCKED) == Some(BLOCKED)
  {
    hide Steps, Run, Override;
    ReachBegun();
    GetTo(BEGUN, 1, "t", "k");
    assert Steps(BEGUN, Access(1, GET_T), READING) by {
      assert [] + READ_NONE == READ_NONE && [] + [Glimpse(At("t", "k"), None, true)] == READER.glimpses;
      assert {} + {"t"} == {"t"} && BEGUN.server.Acquire("t", 1) == READING.server;
      assert BEGUN.sessions[1 := READER] == READING.sessions;
    }
    var pushed := READING.(sessions := [SETTER, READER]);
    PushTo(READING, 0, "5");
    assert Steps(READING, OnStack(0, PUSH_FIVE), pushed) by {
      assert [] + ["5"] == ["5"] && [] + PUSHED == PUSHED;
      assert READING.Put(0, SETTER) == pushed;
    }
    FallBackTo(pushed, 0, "t", "k");
    assert Steps(pushed, FallBack(0, SET_T), BLOCKED) by {
      assert pushed.Put(0, SETTER.(phase := Waiting(SET_T))) == BLOCKED;
    }
    Chain(BEGUN, [Access(1, GET_T), OnStack(0, PUSH_FIVE), FallBack(0, SET_T)], [BEGUN, READING, pushed, BLOCKED]);
    RunConcat(INIT, TO_BEGUN, [Access(1, GET_T), OnStack(0, PUSH_FIVE), FallBack(0, SET_T)]);
  }

  const READ_LOG := TABLES_MADE + [Transaction(1, [], READ_NONE, [])]
  const READER_GONE := map[0 := true, 1 := false]
  const FREED :=
    System(ServerState(TWO_TABLES, NO_LOCKS, READER_GONE), None, [SETTER.(phase := Waiting(SET_T)), FRESH],
           READ_LOG, EMPTY_DB)

  lemma ReachFreed()
    ensures Run(BLOCKED, READER_ENDS) == Some(FREED)
  {
    hide Steps, Run, Override;
    var waiter := SETTER.(phase := Waiting(SET_T));
    var s1 := BLOCKED.(guard := Some(1), sessions := [waiter, READER.(phase := Committing({"t"}))], log := READ_LOG);
    var s2 := s1.(server := BLOCKED.server.(tables := TWO_TABLES),
                  sessions := [waiter, READER.(phase := Committing({}))]);
    StartCommitTo(BLOCKED, 1);
    OverrideNothing(EMPTY_DB);
    assert Steps(BLOCKED, StartCommit(1), s1) by { assert BLOCKED.sessions[1 := s1.sessions[1]] == s1.sessions; }
    CommitTableTo(s1, 1, "t");
    assert Steps(s1, CommitTable(1, "t"), s2) by {
      assert s1.sessions[1 := s2.sessions[1]] == s2.sessions;
      ReadTableCommits();
    }
    EndCommitTo(s2, 1);
    assert Steps(s2, EndCommit(1), FREED) by {
      assert s2.sessions[1 := FRESH] == FREED.sessions;
      SecondEnds(s2.server, {"t"}, {}, true, true);
    }
    Chain(BLOCKED, READER_ENDS, [BLOCKED, s1, s2, FREED]);
  }

  lemma ReadTableCommits()
    ensures BLOCKED.server.CommitTable("t") == BLOCKED.server.(tables := TWO_TABLES)
  {
    assert T_READ.Commit().Unlock() == NEW_TABLE;
  }

  const WRITTEN := [Event(PUSH_FIVE, Acknowledged), Event(SET_T, Acknowledged)]
  const FIVE := map[At("t", "k") := "5"]
  const SET_EARLY := Session([], true, Idle, Acknowledged, [], WRITTEN, [], FIVE, false)
  const FIVE_TABLE := TableState(map["k" := "5"], map[], None)
  const SET_DONE :=
    FREED.(server := FREED.server.(tables := map["t" := FIVE_TABLE, "u" := NEW_TABLE]), sessions := [SET_EARLY, FRESH])

  const SET_FOUND :=
    FREED.(server := FREED.server.WithTable("t", NEW_TABLE.Lock(0)),
           sessions := [SETTER.(phase := Found(SET_T)), FRESH])

  lemma ReachSetFound()
    ensures Run(FREED, [Acquire(0), Refind(0)]) == Some(SET_FOUND)
  {
    hide Steps, Run, Override;
    var s1 := SET_FOUND.(sessions := [SETTER.(phase := Locked(SET_T)), FRESH]);
    AcquireTo(FREED, 0, SET_T);
    assert Steps(FREED, Acquire(0), s1) by { assert FREED.sessions[0 := s1.sessions[0]] == s1.sessions; }
    RefindTo(s1, 0, SET_T);
    assert Steps(s1, Refind(0), SET_FOUND) by { assert s1.sessions[0 := SET_FOUND.sessions[0]] == SET_FOUND.sessions; }
    Chain(FREED, [Acquire(0), Refind(0)], [FREED, s1, SET_FOUND]);
  }

  const SET_HELD :=
    SET_FOUND.(server := FREED.server.WithTable("t", FIVE_TABLE.Lock(0)),
               sessions := [SET_EARLY.(phase := Finishing("t")), FRESH])

  lemma CommitsEarly()
    ensures Steps(SET_FOUND, Operate(0), SET_HELD)
  {
    hide Steps, Override;
    EscapeTo(SET_FOUND, 0, "t", "k");
    assert SET_FOUND.sessions[0 := SET_HELD.sessions[0]] == SET_HELD.sessions;
    assert Popped(["5"]) == [] && PUSHED + [Event(SET_T, Acknowledged)] == WRITTEN;
    assert map[][At("t", "k") := "5"] == FIVE;
    FiveStored();
    WithTwice(FREED.server, NEW_TABLE.Lock(0), FIVE_TABLE.Lock(0));
  }

  lemma ReachSetDone()
    ensures Run(FREED, SET_GOES_ON) == Some(SET_DONE)
  {
    hide Steps, Run, Override;
    ReachSetFound();
    CommitsEarly();
    ReleaseTo(SET_HELD, 0, "t");
    assert Steps(SET_HELD, Release(0), SET_DONE) by {
      assert SET_HELD.sessions[0 := SET_EARLY] == SET_DONE.sessions;
      WithTwice(FREED.server, FIVE_TABLE.Lock(0), FIVE_TABLE);
      assert FREED.server.WithTable("t", FIVE_TABLE).tables == SET_DONE.server.tables;
    }
    Chain(SET_FOUND, [Operate(0), Release(0)], [SET_FOUND, SET_HELD, SET_DONE]);
    RunConcat(FREED, [Acquire(0), Refind(0)], [Operate(0), Release(0)]);
    assert SET_GOES_ON == [Acquire(0), Refind(0)] + [Operate(0), Release(0)];
  }

  lemma WithTwice(s: ServerState, a: TableState, b: TableState)
    ensures s.WithTable("t", a).WithTable("t", b) == s.WithTable("t", b)
  {
    assert s.tables["t" := a]["t" := b] == s.tables["t" := b];
  }

  lemma FiveStored()
    ensures NEW_TABLE.Lock(0).Set("k", "5").Commit() == FIVE_TABLE.Lock(0)
  {
  }

  /** One write of the cell, in a database that has nothing in u and at most k in t. */
  lemma CellWritten(db: Db, data: Data, v: string)
    requires db == map["t" := data, "u" := map[]] && data.Keys <= {"k"}
    ensures Override(db, map[At("t", "k") := v]) == db["t" := data["k" := v]] == map["t" := map["k" := v], "u" := map[]]
  {
    hide Override;
    OverrideSingle(db, "t", "k", v);
    assert data["k" := v] == map["k" := v];
  }

  lemma ReachEarly()
    ensures Run(INIT, TO_BLOCKED + READER_ENDS + SET_GOES_ON) == Some(SET_DONE)
  {
    hide Run;
    ReachBlocked();
    ReachFreed();
    ReachSetDone();
    RunConcat(INIT, TO_BLOCKED, READER_ENDS);
    RunConcat(INIT, TO_BLOCKED + READER_ENDS, SET_GOES_ON);
  }

  const FIVE_DB: Db := map["t" := map["k" := "5"], "u" := map[]]
  const EARLY_END :=
    SET_DONE.(guard := Some(0), sessions := [SET_EARLY.(phase := Committing({})), FRESH],
              log := READ_LOG + [Transaction(0, [], WRITTEN, [])], serial := FIVE_DB)

  /** The serial runs of the two logs, entry by entry. */
  lemma ReadLogRuns()
    ensures Serial(READ_LOG) == Some(EMPTY_DB)
  {
    hide Serve;
    TablesMadeRun();
    SerialAppend(TABLES_MADE, Transaction(1, [], READ_NONE, []));
    ReplayAppend(Machine(EMPTY_DB, []), [], READ_NONE[0]);
    assert [] + READ_NONE == READ_NONE && [] + [READ_NONE[0]] == READ_NONE;
    assert Serve(Machine(EMPTY_DB, []), GET_T) == Outcome(Refused(NoKey), Machine(EMPTY_DB, [])) by { GetFindsNone(); }
  }

  lemma GetFindsNone()
    ensures Serve(Machine(EMPTY_DB, []), GET_T) == Outcome(Refused(NoKey), Machine(EMPTY_DB, []))
  {
  }

  lemma TablesMadeRun()
    ensures Serial(TABLES_MADE) == Some(EMPTY_DB)
  {
    hide Serial, Replay;
    SerialNothing();
    SerialAppend([], Creation("t"));
    SerialAppend([Creation("t")], Creation("u"));
    assert [] + [Creation("t")] == [Creation("t")] && [Creation("t")] + [Creation("u")] == TABLES_MADE;
    assert map["t" := map[]]["u" := map[]] == EMPTY_DB;
  }

  /** PUSH 5, SET t k on a database with the two tables. */
  lemma WrittenRuns(data: Data)
    ensures var db: Db := map["t" := data, "u" := map[]];
            SerialEntry(db, Transaction(0, [], WRITTEN, [])) == Some(db["t" := data["k" := "5"]])
  {
    hide Serve;
    var db: Db := map["t" := data, "u" := map[]];
    var m1 := Machine(db, ["5"]);
    ReplayAppend(Machine(db, []), [], WRITTEN[0]);
    ReplayAppend(Machine(db, []), [WRITTEN[0]], WRITTEN[1]);
    assert [] + [WRITTEN[0]] == [WRITTEN[0]] && [WRITTEN[0]] + [WRITTEN[1]] == WRITTEN;
    PushServed(db);
    SetServed(db);
  }

  lemma PushServed(db: Db)
    ensures Serve(Machine(db, []), PUSH_FIVE) == Outcome(Acknowledged, Machine(db, ["5"]))
  {
    assert [] + ["5"] == ["5"];
  }

  lemma SetServed(db: Db)
    requires "t" in db
    ensures Serve(Machine(db, ["5"]), SET_T) ==
            Outcome(Acknowledged, Machine(db["t" := db["t"]["k" := "5"]], []))
  {
    assert Popped(["5"]) == [];
  }

  /** The run is possible, its SET was committed ahead of its transaction, and its log has
      a serial run that leaves the database there is. */
  lemma EarlyCommitIsSerializable()
    ensures Run(INIT, EARLY_RUN) == Some(EARLY_END)
    ensures SET_DONE.server.tables["t"].data["k"] == "5" && SET_DONE.log == READ_LOG
    ensures Serial(EARLY_END.log) == Some(Settled(EARLY_END))
  {
    hide Steps, Run, Serial, SerialEntry, Override;
    ReachEarly();
    StartCommitTo(SET_DONE, 0);
    assert Steps(SET_DONE, StartCommit(0), EARLY_END) by {
      CellWritten(EMPTY_DB, map[], "5");
      assert SET_DONE.sessions[0 := EARLY_END.sessions[0]] == EARLY_END.sessions;
    }
    Then(INIT, TO_BLOCKED + READER_ENDS + SET_GOES_ON, SET_DONE, StartCommit(0), EARLY_END);
    ReadLogRuns();
    WrittenRuns(map[]);
    SerialAppend(READ_LOG, Transaction(0, [], WRITTEN, []));
    CellWritten(EMPTY_DB, map[], "5");
    assert FIVE_DB == Settled(EARLY_END);
  }

  // ----- A run that is not -----

  const PUSH_SEVEN := Message(PUSH, ["7"])

  /** The same, but before client 0 commits client 1 sets the cell again. */
  const OVERWRITES := [OnStack(1, PUSH_SEVEN), StartAuto(1, SET_T), Acquire(1), Refind(1), Operate(1), Release(1)]
  const LATE_RUN := TO_BLOCKED + READER_ENDS + SET_GOES_ON + OVERWRITES + [StartCommit(0)]

  const HAS_SEVEN := FRESH.(stack := ["7"])
  const OTHER_SET := Transaction(1, ["7"], [Event(SET_T, Acknowledged)], [])
  const SEVEN_TABLE := TableState(map["k" := "7"], map[], None)
  const SEVEN_DB: Db := map["t" := map["k" := "7"], "u" := map[]]
  const OVERWRITTEN :=
    SET_DONE.(server := SET_DONE.server.(tables := map["t" := SEVEN_TABLE, "u" := NEW_TABLE]),
              log := READ_LOG + [OTHER_SET], serial := SEVEN_DB)

  const OTHER_LOCKED := SET_DONE.(server := SET_DONE.server.WithTable("t", FIVE_TABLE.Lock(1)),
                                  sessions := [SET_EARLY, HAS_SEVEN.(phase := Found(SET_T))])

  lemma ReachOtherLocked()
    ensures Run(SET_DONE, OVERWRITES[..4]) == Some(OTHER_LOCKED)
  {
    hide Steps, Run, Override;
    var s1 := SET_DONE.(sessions := [SET_EARLY, HAS_SEVEN]);
    var s2 := SET_DONE.(sessions := [SET_EARLY, HAS_SEVEN.(phase := Waiting(SET_T))]);
    var s3 := OTHER_LOCKED.(sessions := [SET_EARLY, HAS_SEVEN.(phase := Locked(SET_T))]);
    PushTo(SET_DONE, 1, "7");
    assert Steps(SET_DONE, OnStack(1, PUSH_SEVEN), s1) by {
      assert [] + ["7"] == ["7"] && SET_DONE.sessions[1 := HAS_SEVEN] == s1.sessions;
    }
    StartSetTo(s1, 1, "t", "k");
    assert Steps(s1, StartAuto(1, SET_T), s2) by { assert s1.sessions[1 := s2.sessions[1]] == s2.sessions; }
    AcquireTo(s2, 1, SET_T);
    assert Steps(s2, Acquire(1), s3) by { assert s2.sessions[1 := s3.sessions[1]] == s3.sessions; }
    RefindTo(s3, 1, SET_T);
    assert Steps(s3, Refind(1), OTHER_LOCKED) by {
      assert s3.sessions[1 := OTHER_LOCKED.sessions[1]] == OTHER_LOCKED.sessions;
    }
    Chain(SET_DONE, OVERWRITES[..4], [SET_DONE, s1, s2, s3, OTHER_LOCKED]);
  }

  const OTHER_HELD :=
    OVERWRITTEN.(server := SET_DONE.server.WithTable("t", SEVEN_TABLE.Lock(1)),
                 sessions := [SET_EARLY, FRESH.(phase := Finishing("t"))])

  lemma SetsSeven()
    ensures Steps(OTHER_LOCKED, Operate(1), OTHER_HELD)
  {
    hide Steps, Override;
    AutoSetTo(OTHER_LOCKED, 1, "t", "k");
    CellWritten(EMPTY_DB, map[], "7");
    assert Popped(["7"]) == [];
    assert OTHER_LOCKED.sessions[1 := OTHER_HELD.sessions[1]] == OTHER_HELD.sessions;
    SevenStored();
    WithTwice(SET_DONE.server, FIVE_TABLE.Lock(1), SEVEN_TABLE.Lock(1));
  }

  lemma ReachOverwritten()
    ensures Run(SET_DONE, OVERWRITES) == Some(OVERWRITTEN)
  {
    hide Steps, Run, Override;
    ReachOtherLocked();
    SetsSeven();
    ReleaseTo(OTHER_HELD, 1, "t");
    assert Steps(OTHER_HELD, Release(1), OVERWRITTEN) by {
      assert OTHER_HELD.sessions[1 := FRESH] == OVERWRITTEN.sessions;
      WithTwice(SET_DONE.server, SEVEN_TABLE.Lock(1), SEVEN_TABLE);
      assert SET_DONE.server.WithTable("t", SEVEN_TABLE).tables == OVERWRITTEN.server.tables;
    }
    Chain(OTHER_LOCKED, [Operate(1), Release(1)], [OTHER_LOCKED, OTHER_HELD, OVERWRITTEN]);
    RunConcat(SET_DONE, OVERWRITES[..4], [Operate(1), Release(1)]);
    assert OVERWRITES == OVERWRITES[..4] + [Operate(1), Release(1)];
  }

  lemma SevenStored()
    ensures FIVE_TABLE.Lock(1).Set("k", "7").Commit() == SEVEN_TABLE.Lock(1)
  {
  }

  const LATE_END :=
    OVERWRITTEN.(guard := Some(0), sessions := [SET_EARLY.(phase := Committing({})), FRESH],
                 log := READ_LOG + [OTHER_SET] + [Transaction(0, [], WRITTEN, [])], serial := FIVE_DB)

  /** The run is possible, and no serial run of its log leaves the database there is: by
      commit order client 0's SET comes last, and the cell holds what client 1 set. */
  lemma OverwrittenIsNotSerializable()
    ensures Run(INIT, LATE_RUN) == Some(LATE_END)
    ensures Serial(LATE_END.log) == Some(FIVE_DB) && Settled(LATE_END) == SEVEN_DB != FIVE_DB
  {
    hide Steps, Run, Serial, SerialEntry, Override;
    ReachEarly();
    ReachOverwritten();
    RunConcat(INIT, TO_BLOCKED + READER_ENDS + SET_GOES_ON, OVERWRITES);
    StartCommitTo(OVERWRITTEN, 0);
    assert Steps(OVERWRITTEN, StartCommit(0), LATE_END) by {
      CellWritten(SEVEN_DB, map["k" := "7"], "5");
      assert OVERWRITTEN.sessions[0 := LATE_END.sessions[0]] == LATE_END.sessions;
    }
    Then(INIT, TO_BLOCKED + READER_ENDS + SET_GOES_ON + OVERWRITES, OVERWRITTEN, StartCommit(0), LATE_END);
    ReadLogRuns();
    OtherSetRuns();
    SerialAppend(READ_LOG, OTHER_SET);
    WrittenRuns(map["k" := "7"]);
    SerialAppend(READ_LOG + [OTHER_SET], Transaction(0, [], WRITTEN, []));
    CellWritten(SEVEN_DB, map["k" := "7"], "5");
    assert FIVE_DB["t"]["k"] != SEVEN_DB["t"]["k"];
  }

  lemma OtherSetRuns()
    ensures SerialEntry(EMPTY_DB, OTHER_SET) == Some(SEVEN_DB)
  {
    ReplayAppend(Machine(EMPTY_DB, ["7"]), [], Event(SET_T, Acknowledged));
    assert [] + [Event(SET_T, Acknowledged)] == [Event(SET_T, Acknowledged)] && Popped(["7"]) == [];
    assert EMPTY_DB["t" := map["k" := "7"]] == SEVEN_DB;
  }
}
