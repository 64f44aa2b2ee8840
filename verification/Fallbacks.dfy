/** The blocking fallback of handle_set_request: when lock_table fails it calls
    Table::lock, also inside a transaction that holds tables. When that is a deadlock. */
module Fallbacks {
  import opened Wrappers
  import opened Messages
  import opened Tables
  import opened Handlers
  import opened Servers
  import opened Transactions
  import opened Progress
  import opened Witnesses

  /** d is c, or waits for a client that waits ... for c. */
  ghost predicate Reaches(s: System, d: ClientId, c: ClientId) {
    d == c || exists path :: WaitPath(s, path) && path[0] == d && path[|path| - 1] == c
  }

  /** A SET that falls back deadlocks if and only if the table's holder is the client
      itself or waits, through any number of others, for it. Then, by
      DeadlockIsForever, none of them ever takes a step again. */
  lemma FallbackDeadlocks(actions: seq<Action>, c: ClientId, req: Message)
    requires Run(INIT, actions).Some? && Enabled(Run(INIT, actions).value, FallBack(c, req))
    requires !Deadlocked(Run(INIT, actions).value)
    ensures var s := Run(INIT, actions).value;
            Deadlocked(DoFallBack(s, c, req)) <==> Reaches(s, s.server.tables[req.Table()].holder.value, c)
  {
    hide Run, Reaches, Deadlocked, WaitCycle;
    var s := Run(INIT, actions).value;
    var s', d := DoFallBack(s, c, req), s.server.tables[req.Table()].holder.value;
    assert BlocksOnly(s, s', c, d);
    if Reaches(s, d, c) {
      ReachingCloses(s, s', c, d);
    }
    if Deadlocked(s') {
      CycleReaches(s, s', c, d);
    }
  }

  /** From s to s', c has come to wait for d, which nobody waited for it before, and
      everyone else waits as before. */
  ghost predicate BlocksOnly(s: System, s': System, c: ClientId, d: ClientId) {
    && c < |s.sessions| == |s'.sessions| && Blocker(s, c) == None && Blocker(s', c) == Some(d)
    && forall e :: 0 <= e < |s.sessions| && e != c ==> Blocker(s', e) == Blocker(s, e)
  }

  lemma ReachingCloses(s: System, s': System, c: ClientId, d: ClientId)
    requires BlocksOnly(s, s', c, d) && Reaches(s, d, c)
    ensures Deadlocked(s')
  {
    if d == c {
      assert WaitsFor(s', c, c);
      assert WaitCycle(s', [c, c]);
    } else {
      var path :| WaitPath(s, path) && path[0] == d && path[|path| - 1] == c;
      var cycle := [c] + path;
      forall i | 0 <= i < |cycle| - 1 ensures WaitsFor(s', cycle[i], cycle[i + 1]) {
        if i > 0 {
          assert WaitsFor(s, path[i - 1], path[i]);
        }
      }
      assert WaitCycle(s', cycle);
    }
  }

  lemma CycleReaches(s: System, s': System, c: ClientId, d: ClientId)
    requires BlocksOnly(s, s', c, d) && !Deadlocked(s) && Deadlocked(s')
    ensures Reaches(s, d, c)
  {
    hide Reaches;
    var cycle :| WaitCycle(s', cycle);
    var last := |cycle| - 1;
    if forall i :: 0 <= i < last ==> cycle[i] != c {
      AvoidingIsOld(s, s', c, d, cycle);
    } else {
      var i :| 0 <= i < last && cycle[i] == c;
      assert WaitsFor(s', cycle[i], cycle[i + 1]);
      var round := cycle[i + 1..] + cycle[1..i + 1];
      forall j | 0 <= j < |round| - 1 ensures WaitsFor(s', round[j], round[j + 1]) {
        var k := i + 1 + j;
        if k < last {
          assert WaitsFor(s', cycle[k], cycle[k + 1]);
        } else {
          assert WaitsFor(s', cycle[k - last], cycle[k - last + 1]);
        }
      }
      WayBack(s, s', c, d, round);
    }
  }

  /** A cycle that c is not on was there before. */
  lemma AvoidingIsOld(s: System, s': System, c: ClientId, d: ClientId, cycle: seq<ClientId>)
    requires BlocksOnly(s, s', c, d) && WaitCycle(s', cycle) && forall i :: 0 <= i < |cycle| - 1 ==> cycle[i] != c
    ensures Deadlocked(s)
  {
    forall i | 0 <= i < |cycle| - 1 ensures WaitsFor(s, cycle[i], cycle[i + 1]) {
      assert WaitsFor(s', cycle[i], cycle[i + 1]);
    }
    assert WaitCycle(s, cycle);
  }

  /** A chain of waits from d to c, up to where it first comes to c. */
  lemma WayBack(s: System, s': System, c: ClientId, d: ClientId, round: seq<ClientId>)
    requires BlocksOnly(s, s', c, d) && round != [] && round[0] == d && round[|round| - 1] == c
    requires forall j :: 0 <= j < |round| - 1 ==> WaitsFor(s', round[j], round[j + 1])
    ensures Reaches(s, d, c)
    decreases |round|
  {
    if j :| 0 <= j < |round| - 1 && round[j] == c {
      WayBack(s, s', c, d, round[..j + 1]);
    } else if |round| > 1 {
      forall j | 0 <= j < |round| - 1 ensures WaitsFor(s, round[j], round[j + 1]) {
        assert WaitsFor(s', round[j], round[j + 1]);
      }
      assert WaitPath(s, round);
    }
  }

  // ----- Two reachable deadlocks -----

  const PUSH_ONE := Message(PUSH, ["1"])
  const PUSHED := [Event(PUSH_ONE, Acknowledged)]

  /** A client at its transaction's start, after one value pushed, and after two. */
  const ONE_PUSHED := Session(["1"], true, Idle, Acknowledged, [], PUSHED, [], map[], false)
  const TWO_PUSHED := Session(["1", "1"], true, Idle, Acknowledged, [], PUSHED + PUSHED, [], map[], false)

  lemma PushTwice(s: System, c: ClientId) returns (mid: System)
    requires c < |s.sessions| && s.sessions[c] == FRESH && s.server.InTransaction(c)
    ensures Steps(s, OnStack(c, PUSH_ONE), mid) && Steps(mid, OnStack(c, PUSH_ONE), s.Put(c, TWO_PUSHED))
  {
    hide Steps, Override;
    mid := s.Put(c, ONE_PUSHED);
    PushTo(s, c, "1");
    assert [] + ["1"] == ["1"] && [] + PUSHED == PUSHED && ["1"] + ["1"] == ["1", "1"];
    PushTo(mid, c, "1");
    assert mid.Put(c, TWO_PUSHED) == s.Put(c, TWO_PUSHED);
  }

  const TO_PUSHED := [OnStack(0, PUSH_ONE), OnStack(0, PUSH_ONE), OnStack(1, PUSH_ONE), OnStack(1, PUSH_ONE)]
  const PUSHED_STATE := BEGUN.(sessions := [TWO_PUSHED, TWO_PUSHED])

  lemma ReachPushed()
    ensures Run(BEGUN, TO_PUSHED) == Some(PUSHED_STATE)
  {
    hide Steps, Run, Override;
    var s1 := PushTwice(BEGUN, 0);
    var s2 := BEGUN.Put(0, TWO_PUSHED);
    var s3 := PushTwice(s2, 1);
    assert s2.Put(1, TWO_PUSHED).sessions == PUSHED_STATE.sessions;
    Chain(BEGUN, TO_PUSHED, [BEGUN, s1, s2, s3, PUSHED_STATE]);
  }

  const T_HELD := TableState(map[], map["k" := "1"], Some(0))
  const U_HELD := TableState(map[], map["k" := "1"], Some(1))
  const SETTER :=
    Session(["1"], true, Idle, Acknowledged, [], PUSHED + PUSHED + [Event(SET_T, Acknowledged)], [],
            map[At("t", "k") := "1"], false)
  const OTHER_SETTER :=
    SETTER.(trace := PUSHED + PUSHED + [Event(SET_U, Acknowledged)], writes := map[At("u", "k") := "1"])

  /** Client 0 has set a key of t and client 1 one of u; both have a value left. */
  const HELD :=
    System(ServerState(map["t" := T_HELD, "u" := U_HELD], map[0 := {"t"}, 1 := {"u"}], BOTH_OPEN),
           None, [SETTER, OTHER_SETTER], TABLES_MADE, EMPTY_DB)
  const TO_HELD := TO_BEGUN + TO_PUSHED + [Access(0, SET_T), Access(1, SET_U)]

  const HALF_HELD :=
    BEGUN.(server := ServerState(map["t" := T_HELD, "u" := NEW_TABLE], map[0 := {"t"}, 1 := {}], BOTH_OPEN),
           sessions := [SETTER, TWO_PUSHED])

  lemma FirstSets()
    ensures Steps(PUSHED_STATE, Access(0, SET_T), HALF_HELD)
  {
    hide Steps;
    assert Popped(["1", "1"]) == ["1"] && {} + {"t"} == {"t"};
    SetTo(PUSHED_STATE, 0, "t", "k");
    assert PUSHED_STATE.Put(0, SETTER).sessions == HALF_HELD.sessions;
    var taken := PUSHED_STATE.server.Acquire("t", 0);
    assert taken.WithTable("t", taken.tables["t"].Set("k", "1")) == HALF_HELD.server;
  }

  lemma SecondSets()
    ensures Steps(HALF_HELD, Access(1, SET_U), HELD)
  {
    hide Steps;
    assert Popped(["1", "1"]) == ["1"] && {} + {"u"} == {"u"};
    SetTo(HALF_HELD, 1, "u", "k");
    assert HALF_HELD.Put(1, OTHER_SETTER).sessions == HELD.sessions;
    var taken := HALF_HELD.server.Acquire("u", 1);
    assert taken.WithTable("u", taken.tables["u"].Set("k", "1")) == HELD.server;
  }

  lemma ReachHeld()
    ensures Run(INIT, TO_HELD) == Some(HELD)
  {
    hide Steps, Run;
    ReachBegun();
    ReachPushed();
    RunConcat(INIT, TO_BEGUN, TO_PUSHED);
    FirstSets();
    SecondSets();
    Chain(PUSHED_STATE, [Access(0, SET_T), Access(1, SET_U)], [PUSHED_STATE, HALF_HELD, HELD]);
    RunConcat(INIT, TO_BEGUN + TO_PUSHED, [Access(0, SET_T), Access(1, SET_U)]);
  }

  /** A second SET of the same table in one transaction: the client waits for itself. */
  lemma SecondSetDeadlocks()
    ensures Run(INIT, TO_HELD + [FallBack(0, SET_T)]).Some?
    ensures WaitCycle(Run(INIT, TO_HELD + [FallBack(0, SET_T)]).value, [0, 0])
  {
    hide Steps, Run, Override;
    ReachHeld();
    FallBackTo(HELD, 0, "t", "k");
    var s := HELD.Put(0, SETTER.(phase := Waiting(SET_T)));
    Then(INIT, TO_HELD, HELD, FallBack(0, SET_T), s);
    assert WaitsFor(s, 0, 0);
  }

  /** Two transactions that set each other's tables. */
  lemma CrossedSetsDeadlock()
    ensures Run(INIT, TO_HELD + [FallBack(0, SET_U)] + [FallBack(1, SET_T)]).Some?
    ensures WaitCycle(Run(INIT, TO_HELD + [FallBack(0, SET_U)] + [FallBack(1, SET_T)]).value, [0, 1, 0])
  {
    hide Steps, Run, Override;
    ReachHeld();
    FallBackTo(HELD, 0, "u", "k");
    var s1 := HELD.Put(0, SETTER.(phase := Waiting(SET_U)));
    Then(INIT, TO_HELD, HELD, FallBack(0, SET_U), s1);
    FallBackTo(s1, 1, "t", "k");
    var s2 := s1.Put(1, OTHER_SETTER.(phase := Waiting(SET_T)));
    Then(INIT, TO_HELD + [FallBack(0, SET_U)], s1, FallBack(1, SET_T), s2);
    assert WaitsFor(s2, 0, 1) && WaitsFor(s2, 1, 0);
  }
}
