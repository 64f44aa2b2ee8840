/** The server's shared state (server.cpp): the named tables, each client's lock
    set, and which clients are in a transaction. Every method here runs under the
    server's guard, so it is one atomic step; the state functions say what it does. */
module Servers {
  import opened Wrappers
  import opened Tables

  type TableMap = map<string, TableState>

  datatype ServerState = ServerState(
    tables: TableMap,
    locks: map<ClientId, set<string>>,
    active: map<ClientId, bool>)
  {
    function LocksOf(c: ClientId): set<string> {
      if c in locks then locks[c] else {}
    }

    predicate InTransaction(c: ClientId) {
      c in active && active[c]
    }

    /** Every name in a lock set is a created table whose mutex that client holds. */
    ghost predicate LocksHeld() {
      forall c, t :: c in locks && t in locks[c] ==> t in tables && tables[t].holder == Some(c)
    }

    function Create(name: string): ServerState {
      this.(tables := tables[name := NEW_TABLE])
    }

    function Begin(c: ClientId): ServerState {
      this.(active := active[c := true], locks := locks[c := {}])
    }

    function WithTable(name: string, ts: TableState): ServerState {
      this.(tables := tables[name := ts])
    }

    /** lock_table, when the trylock succeeds. */
    function Acquire(name: string, c: ClientId): ServerState
      requires name in tables
    {
      WithTable(name, tables[name].Lock(c)).(locks := locks[c := LocksOf(c) + {name}])
    }

    /** unlock_table, when the client has the table in its lock set. */
    function Release(name: string, c: ClientId): ServerState
      requires name in tables
    {
      WithTable(name, tables[name].Unlock()).(locks := locks[c := LocksOf(c) - {name}])
    }

    /** One round of the commit loop, and one of the rollback loop. */
    function CommitTable(name: string): ServerState
      requires name in tables
    {
      WithTable(name, tables[name].Commit().Unlock())
    }

    function RollbackTable(name: string): ServerState
      requires name in tables
    {
      WithTable(name, tables[name].Rollback().Unlock())
    }

    /** What follows either loop. */
    function EndTransaction(c: ClientId): ServerState {
      this.(locks := locks[c := {}], active := active[c := false])
    }

    /** The whole commit loop, over a set of tables. */
    function CommitTables(names: set<string>): ServerState {
      this.(tables := map t | t in tables :: if t in names then tables[t].Commit().Unlock() else tables[t])
    }

    function RollbackTables(names: set<string>): ServerState {
      this.(tables := map t | t in tables :: if t in names then tables[t].Rollback().Unlock() else tables[t])
    }

    function Commit(c: ClientId): ServerState {
      CommitTables(LocksOf(c)).EndTransaction(c)
    }

    function Rollback(c: ClientId): ServerState {
      RollbackTables(LocksOf(c)).EndTransaction(c)
    }
  }

  /** The next round of a loop over a set does one more table of it. */
  lemma LoopRound(s: ServerState, done: set<string>, t: string)
    requires t in s.tables && t !in done
    ensures s.CommitTables(done).CommitTable(t) == s.CommitTables(done + {t})
    ensures s.RollbackTables(done).RollbackTable(t) == s.RollbackTables(done + {t})
  {
  }

  lemma LoopStart(s: ServerState)
    ensures s.CommitTables({}) == s && s.RollbackTables({}) == s
  {
    assert s.CommitTables({}).tables == s.tables;
    assert s.RollbackTables({}).tables == s.tables;
  }

  lemma EndingKeepsLocksHeld(s: ServerState, c: ClientId)
    requires s.LocksHeld()
    ensures s.Commit(c).LocksHeld() && s.Rollback(c).LocksHeld()
  {
  }

  /** Rollback leaves no trace: the tables of the lock set show their committed data
      and are free, the lock set is empty, and nothing else changed; commit instead
      makes what the client saw the committed data. */
  lemma WhatEndingDoes(s: ServerState, c: ClientId, t: string)
    requires t in s.tables
    ensures var r := s.Rollback(c);
            && r.tables.Keys == s.tables.Keys && r.LocksOf(c) == {} && !r.InTransaction(c)
            && r.tables[t].data == s.tables[t].data
            && (t in s.LocksOf(c) ==> r.tables[t].Visible() == s.tables[t].data && r.tables[t].holder == None)
            && (t !in s.LocksOf(c) ==> r.tables[t] == s.tables[t])
            && forall d :: d != c ==> r.LocksOf(d) == s.LocksOf(d) && r.InTransaction(d) == s.InTransaction(d)
    ensures var r := s.Commit(c);
            && r.tables.Keys == s.tables.Keys && r.LocksOf(c) == {} && !r.InTransaction(c)
            && r.tables[t].Visible() == s.tables[t].Visible()
            && (t in s.LocksOf(c) ==> r.tables[t].data == s.tables[t].Visible() && r.tables[t].holder == None)
            && (t !in s.LocksOf(c) ==> r.tables[t] == s.tables[t])
            && forall d :: d != c ==> r.LocksOf(d) == s.LocksOf(d) && r.InTransaction(d) == s.InTransaction(d)
  {
  }

  /** What locking and unlocking do: the table passes from free to the client and its
      lock set and back, with its contents as they were, and nothing else changes; so
      after an unlock any client can lock it. */
  lemma LockThenUnlock(s: ServerState, name: string, c: ClientId)
    requires name in s.tables
    ensures var r := s.Acquire(name, c);
            && r.tables[name] == s.tables[name].(holder := Some(c)) && r.LocksOf(c) == s.LocksOf(c) + {name}
            && OnlyLockMoved(s, r, name, c)
    ensures var r := s.Release(name, c);
            && r.tables[name] == s.tables[name].(holder := None) && r.LocksOf(c) == s.LocksOf(c) - {name}
            && OnlyLockMoved(s, r, name, c)
  {
  }

  ghost predicate OnlyLockMoved(s: ServerState, r: ServerState, name: string, c: ClientId) {
    && r.tables.Keys == s.tables.Keys && r.active == s.active
    && (forall t :: t in s.tables && t != name ==> r.tables[t] == s.tables[t])
    && forall d :: d != c ==> r.LocksOf(d) == s.LocksOf(d)
  }

  class Server {
    var tables: map<string, Table>
    var transactionLocks: map<ClientId, set<string>>
    var inTransaction: map<ClientId, bool>

    constructor ()
      ensures Valid() && State() == ServerState(map[], map[], map[])
    {
      tables, transactionLocks, inTransaction := map[], map[], map[];
    }

    function State(): ServerState
      reads this, tables.Values
    {
      ServerState(map t | t in tables :: tables[t].State(), transactionLocks, inTransaction)
    }

    ghost predicate Distinct()
      reads this
    {
      forall t, u :: t in tables && u in tables && t != u ==> tables[t] != tables[u]
    }

    ghost predicate Valid()
      reads this, tables.Values
    {
      Distinct() && State().LocksHeld()
    }

    /** create_table: false is the "Table already exists" exception. */
    method CreateTable(name: string) returns (ok: bool)
      requires Valid()
      modifies this
      ensures Valid() && ok == (name !in old(State()).tables)
      ensures State() == if ok then old(State()).Create(name) else old(State())
    {
      if name in tables {
        return false;
      }
      ghost var before := State();
      var table := new Table(name);
      tables := tables[name := table];
      assert State().tables == before.Create(name).tables;
      return true;
    }

    /** find_table: None is the "Table not found" exception. */
    method FindTable(name: string) returns (table: Option<Table>)
      requires Valid()
      ensures table == if name in tables then Some(tables[name]) else None
    {
      if name !in tables {
        return None;
      }
      return Some(tables[name]);
    }

    /** begin_transaction: false when one is already active for the client. */
    method BeginTransaction(c: ClientId) returns (ok: bool)
      requires Valid()
      modifies this
      ensures Valid() && ok == !old(State()).InTransaction(c)
      ensures ok ==> State() == old(State()).Begin(c)
      ensures !ok ==> State() == old(State())
    {
      if c in inTransaction && inTransaction[c] {
        return false;
      }
      ghost var before := State();
      inTransaction := inTransaction[c := true];
      transactionLocks := transactionLocks[c := {}];
      assert State().tables == before.tables;
      return true;
    }

    /** is_transaction_active */
    method IsTransactionActive(c: ClientId) returns (active: bool)
      requires Valid()
      ensures active == State().InTransaction(c)
    {
      active := c in inTransaction && inTransaction[c];
    }

    /** lock_table: None is the "Table does not exist" exception. */
    method LockTable(name: string, c: ClientId) returns (locked: Option<bool>)
      requires Valid()
      modifies this, tables.Values
      ensures Valid() && tables == old(tables)
      ensures locked == None <==> name !in old(State()).tables
      ensures locked.Some? ==> locked.value == (old(State()).tables[name].holder == None)
      ensures State() == if locked == Some(true) then old(State()).Acquire(name, c) else old(State())
    {
      if name !in tables {
        return None;
      }
      ghost var before := State();
      var acquired := TryTable(name, c);
      if acquired {
        AddLock(name, c);
      }
      return Some(acquired);
    }

    /** it->second->trylock() */
    method TryTable(name: string, c: ClientId) returns (acquired: bool)
      requires Distinct() && name in tables
      modifies tables[name]
      ensures Distinct() && acquired == (old(State()).tables[name].holder == None)
      ensures State() ==
              if acquired then old(State()).WithTable(name, old(State()).tables[name].Lock(c)) else old(State())
    {
      ghost var before := State();
      assert before.tables[name] == tables[name].State();
      acquired := tables[name].TryLock(c);
      assert State().tables ==
             if acquired then before.WithTable(name, before.tables[name].Lock(c)).tables else before.tables;
    }

    /** transaction_locks[client_id].insert(table_name) */
    method AddLock(name: string, c: ClientId)
      modifies this
      ensures tables == old(tables)
      ensures State() == old(State()).(locks := old(State()).locks[c := old(State()).LocksOf(c) + {name}])
    {
      ghost var before := State();
      var mine := if c in transactionLocks then transactionLocks[c] else {};
      transactionLocks := transactionLocks[c := mine + {name}];
      assert State().tables == before.tables;
    }

    /** unlock_table: does nothing unless the table is in the client's lock set. */
    method UnlockTable(name: string, c: ClientId)
      requires Valid()
      modifies this, tables.Values
      ensures Valid() && tables == old(tables)
      ensures State() ==
              if name in old(State()).tables && name in old(State()).LocksOf(c) then old(State()).Release(name, c)
              else old(State())
      ensures name in old(State()).LocksOf(c) ==> name in tables && tables[name].holder == None
    {
      ghost var before := State();
      if name in tables && c in transactionLocks && name in transactionLocks[c] {
        assert before.tables[name] == tables[name].State() && before.tables[name].holder == Some(c);
        tables[name].Unlock(c);
        transactionLocks := transactionLocks[c := transactionLocks[c] - {name}];
        assert State().tables == before.Release(name, c).tables;
      }
    }

    /** commit_transaction: false when the client has no transaction. The loop never
        meets a missing table. */
    method CommitTransaction(c: ClientId) returns (ok: bool)
      requires Valid()
      modifies this, tables.Values
      ensures Valid() && ok == old(State()).InTransaction(c)
      ensures ok ==> State() == old(State()).Commit(c)
      ensures !ok ==> State() == old(State()).(active := old(State()).active[c := false])
    {
      ghost var before := State();
      if !(c in inTransaction && inTransaction[c]) {
        inTransaction := inTransaction[c := false];
        assert State().tables == before.tables;
        return false;
      }
      var todo := if c in transactionLocks then transactionLocks[c] else {};
      ghost var done: set<string> := {};
      LoopStart(before);
      while todo != {}
        invariant Distinct() && tables == old(tables) && State() == before.CommitTables(done)
        invariant done + todo == before.LocksOf(c) && done !! todo
        decreases todo
      {
        var t :| t in todo;
        LoopRound(before, done, t);
        CommitAndUnlock(t, c);
        todo, done := todo - {t}, done + {t};
      }
      assert done == before.LocksOf(c);
      EndingKeepsLocksHeld(before, c);
      FinishTransaction(c);
      return true;
    }

    method CommitAndUnlock(t: string, ghost c: ClientId)
      requires Distinct() && t in tables && tables[t].holder == Some(c)
      modifies tables[t]
      ensures State() == old(State()).CommitTable(t)
    {
      ghost var before := State();
      tables[t].CommitChanges();
      tables[t].Unlock(c);
      assert State().tables == before.CommitTable(t).tables;
    }

    /** rollback_transaction: does nothing when the client has no transaction. */
    method RollbackTransaction(c: ClientId)
      requires Valid()
      modifies this, tables.Values
      ensures Valid()
      ensures State() == if old(State()).InTransaction(c) then old(State()).Rollback(c) else old(State())
    {
      ghost var before := State();
      if !(c in inTransaction && inTransaction[c]) {
        return;
      }
      var todo := if c in transactionLocks then transactionLocks[c] else {};
      ghost var done: set<string> := {};
      LoopStart(before);
      while todo != {}
        invariant Distinct() && tables == old(tables) && State() == before.RollbackTables(done)
        invariant done + todo == before.LocksOf(c) && done !! todo
        decreases todo
      {
        var t :| t in todo;
        LoopRound(before, done, t);
        if t in tables {
          RollbackAndUnlock(t, c);
        }
        todo, done := todo - {t}, done + {t};
      }
      assert done == before.LocksOf(c);
      EndingKeepsLocksHeld(before, c);
      FinishTransaction(c);
    }

    method RollbackAndUnlock(t: string, ghost c: ClientId)
      requires Distinct() && t in tables && tables[t].holder == Some(c)
      modifies tables[t]
      ensures State() == old(State()).RollbackTable(t)
    {
      ghost var before := State();
      tables[t].RollbackChanges();
      tables[t].Unlock(c);
      assert State().tables == before.RollbackTable(t).tables;
    }

    /** The end of commit and of rollback: the lock set is cleared. */
    method FinishTransaction(c: ClientId)
      requires Distinct() && State().EndTransaction(c).LocksHeld()
      modifies this
      ensures Valid() && tables == old(tables) && State() == old(State()).EndTransaction(c)
    {
      ghost var before := State();
      transactionLocks := transactionLocks[c := {}];
      inTransaction := inTransaction[c := false];
      assert State().tables == before.tables;
    }
  }
}
