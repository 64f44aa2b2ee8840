/** What each request is answered, and what it does at that moment: the checks of GET and
    SET, the two on a client that runs alone, and the requests about tables,
    transactions and the session. */
module Replies {
  import opened Wrappers
  import opened Messages
  import opened Tables
  import opened Handlers
  import opened Servers
  import opened Transactions

  // ----- The checks -----

  /** The request has a table's name and a key. */
  predicate Addresses(req: Message) {
    |req.args| == 2 && IsIdentifier(req.args[0]) && req.args[1] != ""
  }

  /** The checks before locking, exactly. A GET needs a table's name, a key and that table;
      a SET also a key that is an identifier, and a value. Bad names end the session, a
      missing table or value does not. */
  lemma CheckLaw(found: bool, stack: Stack, req: Message)
    requires IsTableRequest(req.messageType)
    ensures var r, isSet := Precheck(found, stack, req), req.messageType == SET;
            && (r == None <==> Addresses(req) && found && (isSet ==> IsIdentifier(req.args[1]) && stack != []))
            && (r.Some? && r.value.Closes() <==>
                 !Addresses(req) || (found && isSet && !IsIdentifier(req.args[1])))
            && (r == Some(Refused(NoTable)) <==> Addresses(req) && !found)
            && (r == Some(Refused(EmptyStack)) <==>
                 Addresses(req) && found && isSet && IsIdentifier(req.args[1]) && stack == [])
            && (r.Some? ==> r.value.Refused? || r.value.Closes())
  {
    hide IsIdentifier;
  }

  /** Nothing has changed but c's last reply, and whether its session goes on. */
  ghost predicate OnlyAnswered(s: System, s': System, c: ClientId, response: Response)
    requires c < |s.sessions|
  {
    && s' == s.(sessions := s'.sessions) && |s'.sessions| == |s.sessions|
    && (forall d :: 0 <= d < |s.sessions| && d != c ==> s'.sessions[d] == s.sessions[d])
    && s'.sessions[c].stack == s.sessions[c].stack && s'.sessions[c].phase == Idle
    && s'.sessions[c].last == response && s'.sessions[c].open == (s.sessions[c].open && !response.Closes())
  }

  /** A GET or SET that fails its checks, in a transaction or outside, with the lock or
      without: its reply is all it does. */
  lemma FailedCheckAnswers(s: System, a: Action)
    requires Enabled(s, a) && (a.Access? || a.BareGet? || a.StartAuto?)
    requires Precheck(a.req.Table() in s.server.tables, s.sessions[a.c].stack, a.req).Some?
    ensures OnlyAnswered(s, Apply(s, a), a.c,
                         Precheck(a.req.Table() in s.server.tables, s.sessions[a.c].stack, a.req).value)
  {
    hide Precheck, DoRequest, ServerState.Acquire;
  }

  /** A SET of an existing table with a key that is no identifier, in a transaction or
      outside: the session is closed, and no table, no lock and no stack changes. */
  lemma BadKeyCloses(s: System, a: Action)
    requires Enabled(s, a) && (a.Access? || a.StartAuto?) && a.req.messageType == SET && Addresses(a.req)
    requires a.req.args[0] in s.server.tables && !IsIdentifier(a.req.args[1])
    ensures OnlyAnswered(s, Apply(s, a), a.c, Faulted(BadName, true)) && !Apply(s, a).sessions[a.c].open
    ensures !Enabled(s, FallBack(a.c, a.req))
  {
    hide IsIdentifier, Apply, Precheck;
    CheckLaw(true, s.sessions[a.c].stack, a.req);
    BadKey(s.sessions[a.c].stack, a.req);
    FailedCheckAnswers(s, a);
  }

  lemma BadKey(stack: Stack, req: Message)
    requires req.messageType == SET && Addresses(req) && !IsIdentifier(req.args[1])
    ensures Precheck(true, stack, req) == Some(Faulted(BadName, true)) && req.Table() == req.args[0]
  {
    hide IsIdentifier;
  }

  // ----- What can be asked -----

  /** An open session between requests, with the guard free, can have any request served:
      there is a step that takes it. */
  lemma EveryRequestIsTaken(s: System, c: ClientId, req: Message)
    requires Ready(s, c) && req.Valid()
    ensures req.messageType in {PUSH, POP, TOP, ADD, SUB, MUL, DIV} ==> Enabled(s, OnStack(c, req))
    ensures req.messageType in {GET, SET} && s.server.InTransaction(c) ==> Enabled(s, Access(c, req))
    ensures req.messageType in {GET, SET} && !s.server.InTransaction(c) ==> Enabled(s, StartAuto(c, req))
    ensures req.messageType == GET && s.server.InTransaction(c) ==> Enabled(s, BareGet(c, req))
    ensures req.messageType == CREATE ==> Enabled(s, Create(c, req.args[0]))
    ensures req.messageType == BEGIN ==> Enabled(s, Begin(c))
    ensures req.messageType == COMMIT ==> Enabled(s, StartCommit(c))
    ensures req.messageType == BYE ==> Enabled(s, Bye(c))
  {
  }

  // ----- GET and SET alone -----

  /** GET and SET of a table there is: GET pushes the value of the cell, or fails for want
      of one and keeps the session; SET stores the top of the stack in the cell, in no
      other, and removes it. */
  lemma TableRequestLaw(m: Machine, t: string, k: string, v: string)
    requires t in m.db && IsIdentifier(t) && IsIdentifier(k)
    ensures var o := Serve(m, Message(GET, [t, k]));
            && o.machine.db == m.db && !o.response.Closes()
            && (CellText(m.db, t, k) == Some(v) ==> o.response == Fetched(v) && o.machine.stack == m.stack + [v])
            && (CellText(m.db, t, k) == None ==> o.response == Refused(NoKey) && o.machine.stack == m.stack)
    ensures var o := Serve(m.(stack := m.stack + [v]), Message(SET, [t, k]));
            && o.response == Acknowledged && o.machine.stack == m.stack && o.machine.db.Keys == m.db.Keys
            && forall u, j :: CellText(o.machine.db, u, j) == if u == t && j == k then Some(v) else CellText(m.db, u, j)
  {
    hide IsIdentifier;
    NotEmpty(k);
    assert Popped(m.stack + [v]) == m.stack;
  }

  lemma NotEmpty(s: string)
    requires IsIdentifier(s)
    ensures s != ""
  {
  }

  // ----- Tables, transactions, sessions -----

  /** CREATE makes an empty table that is nobody's, unless there is one of that name, and
      changes no other. */
  lemma CreateAnswers(s: System, c: ClientId, name: string)
    requires Enabled(s, Create(c, name))
    ensures var s' := DoCreate(s, c, name);
            if name in s.server.tables then OnlyAnswered(s, s', c, Refused(TableExists))
            else
              && c < |s'.sessions| && s'.sessions[c].last == Acknowledged && s'.sessions[c].open
              && s'.server.tables.Keys == s.server.tables.Keys + {name}
              && s'.server.tables[name].Visible() == map[] && s'.server.tables[name].holder == None
              && (forall t :: t in s.server.tables ==> s'.server.tables[t] == s.server.tables[t])
              && s'.server.locks == s.server.locks && s'.server.active == s.server.active
  {
  }

  /** BEGIN opens a transaction with nothing locked, unless the client is in one, and
      changes no table and no other client's transaction. */
  lemma BeginAnswers(s: System, c: ClientId)
    requires Enabled(s, Begin(c))
    ensures var s' := DoBegin(s, c);
            if s.server.InTransaction(c) then OnlyAnswered(s, s', c, Refused(AlreadyInTransaction))
            else
              && c < |s'.sessions| && s'.sessions[c].last == Acknowledged && s'.sessions[c].open
              && s'.sessions[c].stack == s.sessions[c].stack
              && s'.server.InTransaction(c) && s'.server.LocksOf(c) == {} && s'.server.tables == s.server.tables
              && forall d :: d != c ==>
                   && s'.server.InTransaction(d) == s.server.InTransaction(d)
                   && s'.server.LocksOf(d) == s.server.LocksOf(d)
  {
  }

  /** COMMIT outside a transaction fails and changes no table and no lock. */
  lemma CommitOutsideAnswers(s: System, c: ClientId)
    requires Enabled(s, StartCommit(c)) && !s.server.InTransaction(c)
    ensures var s' := DoStartCommit(s, c);
            && OnlyAnswered(s, s'.(server := s.server), c, Refused(NoTransaction))
            && s'.server.tables == s.server.tables && s'.server.locks == s.server.locks
            && forall d :: s'.server.InTransaction(d) == s.server.InTransaction(d)
  {
  }

  /** BYE is acknowledged and closes the session, and does nothing else. */
  lemma ByeAnswers(s: System, c: ClientId)
    requires Enabled(s, Bye(c))
    ensures var s' := DoBye(s, c);
            && s' == s.(sessions := s'.sessions) && |s'.sessions| == |s.sessions|
            && s'.sessions[c] == s.sessions[c].(last := Acknowledged, open := false)
            && forall d :: 0 <= d < |s.sessions| && d != c ==> s'.sessions[d] == s.sessions[d]
  {
  }
}
