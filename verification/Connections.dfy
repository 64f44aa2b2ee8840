/** The request handlers of client_connection.cpp on the shared objects, under the
    lock discipline of Transactions. Each is one client's step as the code takes it:
    the ghost argument s is the state of the whole system, and the contract says the
    objects end as the step says. A request outside a transaction is cut where its
    handler may block: each piece starts when the blocking call returns. */
module Connections {
  import opened Messages
  import opened Wrappers
  import opened Tables
  import opened Handlers
  import opened ValueStacks
  import opened Servers
  import opened Transactions
  import opened Locking

  /** What a request outside a transaction makes of its table and the stack. */
  function AutoOutcome(ts: TableState, stack: Stack, req: Message): TableOutcome
    requires req.messageType == SET ==> stack != []
  {
    var o := OperateOn(ts, stack, req);
    o.(table := if req.messageType == SET then o.table.Commit() else o.table)
  }

  lemma OutcomeKeepsHolder(ts: TableState, stack: Stack, req: Message)
    requires req.messageType == SET ==> stack != []
    ensures AutoOutcome(ts, stack, req).table.holder == ts.holder
  {
  }

  lemma OperateResult(s: System, c: ClientId, req: Message)
    requires Enabled(s, Refind(c)) && s.sessions[c].phase == Locked(req) && Enabled(Apply(s, Refind(c)), Operate(c))
    ensures var s' := DoOperate(Apply(s, Refind(c)), c);
            && Operable(s.server.tables, s.sessions[c].stack, req) && |s'.sessions| == |s.sessions|
            && var o := AutoOutcome(s.server.tables[req.Table()], s.sessions[c].stack, req);
               && s'.server == s.server.WithTable(req.Table(), o.table)
               && s'.sessions[c].stack == o.stack && s'.sessions[c].last == o.response
  {
    hide OperateOn, Precheck;
  }

  class ClientConnection {
    const server: Server
    const clientFd: ClientId
    const stack: ValueStack

    constructor (server: Server, clientFd: ClientId)
      ensures this.server == server && this.clientFd == clientFd
      ensures fresh(stack) && stack.stack == []
    {
      this.server, this.clientFd := server, clientFd;
      stack := new ValueStack();
    }

    /** The objects are in the state s says. */
    ghost predicate In(s: System)
      reads server, server.tables.Values, stack
    {
      && server.Valid() && server.State() == s.server
      && clientFd < |s.sessions| && s.sessions[clientFd].stack == stack.stack
    }

    /** handle_begin_request */
    method HandleBegin(ghost s: System) returns (response: Response)
      requires In(s) && Enabled(s, Begin(clientFd))
      modifies server
      ensures In(Apply(s, Begin(clientFd))) && response == Apply(s, Begin(clientFd)).sessions[clientFd].last
    {
      var ok := server.BeginTransaction(clientFd);
      return if ok then Acknowledged else Refused(AlreadyInTransaction);
    }

    /** handle_create_request */
    method HandleCreate(req: Message, ghost s: System) returns (response: Response)
      requires req.messageType == CREATE && req.Valid()
      requires In(s) && Enabled(s, Create(clientFd, req.Table()))
      modifies server
      ensures In(Apply(s, Create(clientFd, req.Table())))
      ensures response == Apply(s, Create(clientFd, req.Table())).sessions[clientFd].last
    {
      var ok := server.CreateTable(req.Table());
      return if ok then Acknowledged else Refused(TableExists);
    }

    /** The checks of handle_get_request and handle_set_request before locking. */
    method Check(req: Message) returns (rejected: Option<Response>)
      requires server.Valid() && IsTableRequest(req.messageType)
      ensures rejected == Precheck(req.Table() in server.State().tables, stack.stack, req)
    {
      if !req.Valid() {
        return Some(Faulted(BadFormat, true));
      }
      var table := server.FindTable(req.Table());
      if table.None? {
        return Some(Refused(NoTable));
      }
      if req.messageType == SET {
        var tableOk := IsValidUsername(req.Table());
        var keyOk := IsValidUsername(req.Key());
        if !tableOk || !keyOk {
          return Some(Faulted(BadName, true));
        }
        var empty := stack.IsEmpty();
        if empty {
          return Some(Refused(EmptyStack));
        }
      }
      return None;
    }

    /** The table part of both handlers, with the lock in hand. */
    method CarryOut(table: Table, req: Message) returns (response: Response)
      requires Operable(map[req.Table() := table.State()], stack.stack, req)
      modifies table, stack
      ensures TableOutcome(response, table.State(), stack.stack) == OperateOn(old(table.State()), old(stack.stack), req)
    {
      if req.messageType == SET {
        var value := stack.GetTop();
        var ok := stack.Pop();
        table.Set(req.Key(), value.value);
        return Acknowledged;
      }
      var found := table.Get(req.Key());
      assert found == table.State().Get(req.Key());
      if found.None? {
        return Refused(NoKey);
      }
      stack.Push(found.value);
      return Fetched(found.value);
    }

    /** A GET or SET inside a transaction: the table is the client's already, or is
        taken by trylock, or the request fails. */
    method HandleAccess(req: Message, ghost s: System) returns (response: Response)
      requires In(s) && Enabled(s, Access(clientFd, req))
      modifies server, server.tables.Values, stack
      ensures In(DoAccess(s, clientFd, req)) && response == DoAccess(s, clientFd, req).sessions[clientFd].last
    {
      var rejected := Check(req);
      if rejected.Some? {
        return rejected.value;
      }
      var name := req.Table();
      if !(clientFd in server.transactionLocks && name in server.transactionLocks[clientFd]) {
        var locked := server.LockTable(name, clientFd);
        if locked == Some(false) {
          return Refused(LockBusy);
        }
      }
      ghost var before := server.State();
      response := OperateHeld(name, req);
      assert DoAccess(s, clientFd, req).server ==
             before.WithTable(name, OperateOn(before.tables[name], old(stack.stack), req).table);
    }

    /** CarryOut on a table of the server that this client holds. */
    method OperateHeld(name: string, req: Message) returns (response: Response)
      requires server.Valid() && name == req.Table() && Operable(server.State().tables, stack.stack, req)
      modifies server.tables.Values, stack
      ensures server.Valid()
      ensures var o := OperateOn(old(server.State()).tables[name], old(stack.stack), req);
              && response == o.response && stack.stack == o.stack
              && server.State() == old(server.State()).WithTable(name, o.table)
    {
      ghost var before := server.State();
      ghost var o := OperateOn(before.tables[name], stack.stack, req);
      response := CarryOut(server.tables[name], req);
      assert server.State().tables == before.WithTable(name, o.table).tables;
    }

    /** A GET or SET outside a transaction, up to Table::lock: None when it goes on. */
    method EnterAuto(req: Message, ghost s: System) returns (reply: Option<Response>)
      requires In(s) && Enabled(s, StartAuto(clientFd, req))
      ensures In(DoStartAuto(s, clientFd, req))
      ensures match reply
              case None => DoStartAuto(s, clientFd, req).sessions[clientFd].phase == Waiting(req)
              case Some(r) => DoStartAuto(s, clientFd, req) == s.Put(clientFd, s.sessions[clientFd].Answer(r))
    {
      reply := Check(req);
    }

    /** Table::lock returns: the table is free, and now this client's. */
    method TakeLock(req: Message, ghost s: System)
      requires In(s) && Enabled(s, Acquire(clientFd)) && s.sessions[clientFd].phase == Waiting(req)
      modifies server.tables.Values
      ensures In(Apply(s, Acquire(clientFd)))
    {
      var name := req.Table();
      server.tables[name].Lock(clientFd);
      assert server.State().tables == s.server.WithTable(name, s.server.tables[name].Lock(clientFd)).tables;
    }

    /** find_table returns for the second time: the request is carried out, and a SET
        committed, with the lock in hand. */
    method OperateAuto(req: Message, ghost s: System) returns (response: Response)
      requires In(s) && Enabled(s, Refind(clientFd)) && s.sessions[clientFd].phase == Locked(req)
      requires Enabled(Apply(s, Refind(clientFd)), Operate(clientFd))
      modifies server.tables.Values, stack
      ensures var s' := DoOperate(Apply(s, Refind(clientFd)), clientFd);
              In(s') && response == s'.sessions[clientFd].last
    {
      hide OperateOn, Precheck;
      OperateResult(s, clientFd, req);
      response := OperateFree(req.Table(), req);
    }

    /** CarryOut, and for a SET commit_changes, on a table of the server. */
    method OperateFree(name: string, req: Message) returns (response: Response)
      requires server.Valid() && name == req.Table() && Operable(server.State().tables, stack.stack, req)
      modifies server.tables.Values, stack
      ensures server.Valid()
      ensures var o := AutoOutcome(old(server.State()).tables[name], old(stack.stack), req);
              && response == o.response && stack.stack == o.stack
              && server.State() == old(server.State()).WithTable(name, o.table)
    {
      hide AutoOutcome;
      ghost var before := server.State();
      ghost var o := AutoOutcome(before.tables[name], stack.stack, req);
      OutcomeKeepsHolder(before.tables[name], stack.stack, req);
      response := CarryOutAndCommit(server.tables[name], req);
      assert server.State().tables == before.WithTable(name, o.table).tables;
    }

    method CarryOutAndCommit(table: Table, req: Message) returns (response: Response)
      requires Operable(map[req.Table() := table.State()], stack.stack, req)
      modifies table, stack
      ensures TableOutcome(response, table.State(), stack.stack) ==
              AutoOutcome(old(table.State()), old(stack.stack), req)
    {
      response := CarryOut(table, req);
      if req.messageType == SET {
        table.CommitChanges();
      }
    }

    /** is_transaction_active returns: the table is released. */
    method ReleaseAuto(name: string, ghost s: System)
      requires In(s) && LockInv(s) && Enabled(s, Release(clientFd)) && s.sessions[clientFd].phase == Finishing(name)
      modifies server.tables.Values
      ensures In(Apply(s, Release(clientFd)))
    {
      hide LockInv, TableOk, Passed, Precheck;
      OwnFacts(s, clientFd);
      assert name in Owned(s, clientFd);
      server.tables[name].Unlock(clientFd);
      assert server.State().tables == s.server.WithTable(name, s.server.tables[name].Unlock()).tables;
    }

    /** handle_commit_request: the whole commit loop under the guard. */
    method HandleCommit(ghost s: System) returns (response: Response)
      requires In(s) && Enabled(s, StartCommit(clientFd))
      modifies server, server.tables.Values
      ensures server.Valid()
      ensures response == if s.server.InTransaction(clientFd) then Acknowledged else Refused(NoTransaction)
      ensures server.State() ==
              if s.server.InTransaction(clientFd) then s.server.Commit(clientFd) else DoStartCommit(s, clientFd).server
    {
      var ok := server.CommitTransaction(clientFd);
      return if ok then Acknowledged else Refused(NoTransaction);
    }
  }
}
