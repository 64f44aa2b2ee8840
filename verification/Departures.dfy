/** A client that says BYE, or is gone for any other reason, inside a transaction: nobody
    ends the transaction, and whoever needs its tables waits for ever. */
module Departures {
  import opened Wrappers
  import opened Messages
  import opened Tables
  import opened Handlers
  import opened Servers
  import opened Transactions
  import opened Locking
  import opened Progress
  import opened Witnesses

  /** A client that waits for a table of a transaction whose client is gone waits after
      every run, and the table stays locked as it is. */
  lemma GoneBlocks(s: System, c: ClientId, d: ClientId, more: seq<Action>)
    requires LockInv(s) && Gone(s, c) && BlockedBy(s, d, {c}) && Run(s, more).Some?
    ensures var s', t := Run(s, more).value, s.sessions[d].phase.req.Table();
            && d < |s'.sessions| && s'.sessions[d] == s.sessions[d]
            && t in s'.server.tables && s'.server.tables[t] == s.server.tables[t]
  {
    hide Run, LockInv;
    assert Stuck(s, {c, d});
    StuckForever(s, more, {c, d});
  }

  // ----- A run -----

  const PUSH_ONE := Message(PUSH, ["1"])

  /** BEGIN, PUSH 1, SET t k, BYE by client 0; then client 1, outside a transaction,
      reads t. */
  const TO_GONE := TO_BEGUN + [OnStack(0, PUSH_ONE), Access(0, SET_T), Bye(0)]
  const LEFT_RUN := TO_GONE + [StartCommit(1), EndCommit(1), StartAuto(1, GET_T)]

  const PUSHED := Session(["1"], true, Idle, Acknowledged, [], [Event(PUSH_ONE, Acknowledged)], [], map[], false)
  const LEAVER :=
    Session([], true, Idle, Acknowledged, [], [Event(PUSH_ONE, Acknowledged), Event(SET_T, Acknowledged)], [],
            map[At("t", "k") := "1"], false)
  const T_LEFT := TableState(map[], map["k" := "1"], Some(0))
  const LEFT_SERVER :=
    ServerState(map["t" := T_LEFT, "u" := NEW_TABLE], map[0 := {"t"}, 1 := {}], BOTH_OPEN)
  const GONE := BEGUN.(server := LEFT_SERVER, sessions := [LEAVER.(open := false), FRESH])

  lemma ReachGone()
    ensures Run(INIT, TO_GONE) == Some(GONE)
  {
    hide Steps, Run, Override;
    ReachBegun();
    var s1 := BEGUN.(sessions := [PUSHED, FRESH]);
    var s2 := GONE.(sessions := [LEAVER, FRESH]);
    PushTo(BEGUN, 0, "1");
    assert Steps(BEGUN, OnStack(0, PUSH_ONE), s1) by {
      assert [] + ["1"] == ["1"] && [] + [Event(PUSH_ONE, Acknowledged)] == PUSHED.trace;
      assert BEGUN.sessions[0 := PUSHED] == s1.sessions;
    }
    SetTo(s1, 0, "t", "k");
    assert Steps(s1, Access(0, SET_T), s2) by {
      assert Popped(["1"]) == [] && PUSHED.trace + [Event(SET_T, Acknowledged)] == LEAVER.trace;
      assert map[][At("t", "k") := "1"] == LEAVER.writes && s1.sessions[0 := LEAVER] == s2.sessions;
      TakesT(s1);
    }
    ByeTo(s2, 0);
    assert Steps(s2, Bye(0), GONE) by { assert s2.sessions[0 := GONE.sessions[0]] == GONE.sessions; }
    Chain(BEGUN, [OnStack(0, PUSH_ONE), Access(0, SET_T), Bye(0)], [BEGUN, s1, s2, GONE]);
    RunConcat(INIT, TO_BEGUN, [OnStack(0, PUSH_ONE), Access(0, SET_T), Bye(0)]);
  }

  lemma TakesT(s: System)
    requires s.server == BEGUN.server
    ensures var server := s.server.Acquire("t", 0);
            server.WithTable("t", server.tables["t"].Set("k", "1")) == LEFT_SERVER
  {
    assert {} + {"t"} == {"t"};
  }

  const WAITER := FRESH.(phase := Waiting(GET_T))
  const LEFT :=
    GONE.(server := LEFT_SERVER.(active := map[0 := true, 1 := false]), sessions := [LEAVER.(open := false), WAITER],
          log := TABLES_MADE + [Transaction(1, [], [], [])])

  lemma ReachLeft()
    ensures Run(GONE, [StartCommit(1), EndCommit(1), StartAuto(1, GET_T)]) == Some(LEFT)
  {
    hide Steps, Run, Override;
    var s1 := GONE.(guard := Some(1), sessions := [LEAVER.(open := false), FRESH.(phase := Committing({}))],
                    log := LEFT.log);
    var s2 := LEFT.(sessions := GONE.sessions);
    StartCommitTo(GONE, 1);
    OverrideNothing(EMPTY_DB);
    assert Steps(GONE, StartCommit(1), s1) by { assert GONE.sessions[1 := s1.sessions[1]] == s1.sessions; }
    EndCommitTo(s1, 1);
    assert Steps(s1, EndCommit(1), s2) by {
      assert s1.sessions[1 := FRESH] == GONE.sessions;
      SecondEnds(LEFT_SERVER, {}, {"t"}, true, true);
    }
    StartGetTo(s2, 1, "t", "k");
    assert Steps(s2, StartAuto(1, GET_T), LEFT) by { assert s2.sessions[1 := WAITER] == LEFT.sessions; }
    Chain(GONE, [StartCommit(1), EndCommit(1), StartAuto(1, GET_T)], [GONE, s1, s2, LEFT]);
  }

  /** The run is possible; client 0 is gone in its transaction, and client 1 waits for ever. */
  lemma ByeLeavesTableLocked(more: seq<Action>)
    ensures Run(INIT, LEFT_RUN) == Some(LEFT) && Gone(LEFT, 0) && NoFallback(LEFT_RUN)
    ensures Run(LEFT, more).Some? ==>
              |Run(LEFT, more).value.sessions| >= 2 && Run(LEFT, more).value.sessions[1] == WAITER
  {
    hide Run;
    ReachGone();
    ReachLeft();
    RunConcat(INIT, TO_GONE, [StartCommit(1), EndCommit(1), StartAuto(1, GET_T)]);
    assert TO_GONE + [StartCommit(1), EndCommit(1), StartAuto(1, GET_T)] == LEFT_RUN;
    if Run(LEFT, more).Some? {
      LocksAlwaysInOrder(LEFT_RUN);
      GoneBlocks(LEFT, 0, 1, more);
    }
  }
}
