/** The values on a client's stack over a whole session, told from its replies alone: what
    each acknowledged request pushed that has not been removed since. */
module Histories {
  import opened Wrappers
  import opened Messages
  import opened Tables
  import opened Handlers
  import opened Transactions
  import opened Compiler
  import opened StackLaws
  import opened Accounting

  function Cut(stack: Stack, n: nat): Stack {
    if n <= |stack| then stack[..|stack| - n] else []
  }

  /** The result of an acknowledged operation on the two topmost values. */
  function ResultOf(t: MessageType, stack: Stack): string
    requires IsArithmetic(t)
  {
    var n := |stack|;
    if n < 2 then "" else match ApplyOp(OpOf(t), stack[n - 2], stack[n - 1]) case Some(v) => v case None => ""
  }

  /** The values after a reply: PUSH and GET add one, POP and SET remove the last one, an
      operation replaces the last two by its result, a failed one loses what it had
      already taken, and no other reply is about them. */
  function ValuesAfter(stack: Stack, e: Event): Stack {
    match e.response
    case Acknowledged =>
      if e.req.messageType == PUSH then stack + e.req.args
      else if e.req.messageType in {POP, SET} then Cut(stack, 1)
      else if IsArithmetic(e.req.messageType) then Cut(stack, 2) + [ResultOf(e.req.messageType, stack)]
      else stack
    case Fetched(v) => stack + [v]
    case Refused(why) => Cut(stack, Dropped(why))
    case Lost(why) => Cut(stack, Dropped(why))
    case _ => stack
  }

  function Values(start: Stack, replies: seq<Event>): Stack {
    if replies == [] then start
    else ValuesAfter(Values(start, replies[..|replies| - 1]), replies[|replies| - 1])
  }

  // ----- One step -----

  lemma StackRequestAfter(stack: Stack, req: Message)
    requires IsStackRequest(req.messageType)
    ensures var o := ServeStack(stack, req); o.stack == ValuesAfter(stack, Event(req, o.response))
  {
    if IsArithmetic(req.messageType) {
      ArithmeticAfter(stack, req);
    } else if req.messageType == PUSH && |req.args| == 1 {
      assert req.args == [req.args[0]];
    }
  }

  lemma ArithmeticAfter(stack: Stack, req: Message)
    requires IsArithmetic(req.messageType)
    ensures var o := ServeStack(stack, req); o.stack == ValuesAfter(stack, Event(req, o.response))
  {
    hide Numerals.Stoi, Numerals.ToString, Compute;
    var n := |stack|;
    assert OpOf(req.messageType).Request() == req.messageType;
    if n >= 1 {
      assert Top(stack) == stack[n - 1] && Popped(stack) == stack[..n - 1];
    }
    if n >= 2 {
      assert Top(Popped(stack)) == stack[n - 2] && Popped(Popped(stack)) == stack[..n - 2];
    }
  }

  lemma OperationAfter(ts: TableState, stack: Stack, req: Message)
    requires IsTableRequest(req.messageType) && (req.messageType == SET ==> stack != [])
    ensures var o := OperateOn(ts, stack, req); o.stack == ValuesAfter(stack, Event(req, o.response))
  {
  }

  lemma CheckAfter(found: bool, stack: Stack, req: Message)
    requires IsTableRequest(req.messageType)
    ensures match Precheck(found, stack, req)
            case None => req.messageType == SET ==> stack != []
            case Some(r) => ValuesAfter(stack, Event(req, r)) == stack
  {
  }

  lemma AccessAfter(s: System, c: ClientId, req: Message)
    requires Enabled(s, Access(c, req))
    ensures var s' := DoAccess(s, c, req);
            && c < |s'.sessions|
            && s'.sessions[c].stack == ValuesAfter(s.sessions[c].stack, Event(req, s'.sessions[c].last))
  {
    hide OperateOn, ValuesAfter;
    var stack, t := s.sessions[c].stack, req.Table();
    CheckAfter(t in s.server.tables, stack, req);
    if Precheck(t in s.server.tables, stack, req) == None {
      OperationAfter(s.server.tables[t], stack, req);
      OperationAfter(s.server.tables[t].Lock(c), stack, req);
      BusyAfter(stack, req);
    }
  }

  lemma BusyAfter(stack: Stack, req: Message)
    ensures ValuesAfter(stack, Event(req, Refused(LockBusy))) == stack
  {
  }

  lemma BareGetAfter(s: System, c: ClientId, req: Message)
    requires Enabled(s, BareGet(c, req))
    ensures var s' := DoBareGet(s, c, req);
            && c < |s'.sessions|
            && s'.sessions[c].stack == ValuesAfter(s.sessions[c].stack, Event(req, s'.sessions[c].last))
  {
    hide OperateOn, ValuesAfter;
    var stack, t := s.sessions[c].stack, req.Table();
    CheckAfter(t in s.server.tables, stack, req);
    if Precheck(t in s.server.tables, stack, req) == None {
      OperationAfter(s.server.tables[t], stack, req);
    }
  }

  lemma OperateAfter(s: System, c: ClientId)
    requires Enabled(s, Operate(c))
    ensures var s', req := DoOperate(s, c), s.sessions[c].phase.req;
            && c < |s'.sessions|
            && s'.sessions[c].stack == ValuesAfter(s.sessions[c].stack, Event(req, s'.sessions[c].last))
  {
    hide OperateOn, ValuesAfter, Override;
    var req := s.sessions[c].phase.req;
    OperationAfter(s.server.tables[req.Table()], s.sessions[c].stack, req);
  }

  lemma OnStackAfter(s: System, c: ClientId, req: Message)
    requires Enabled(s, OnStack(c, req))
    ensures var s', o := DoStack(s, c, req), ServeStack(s.sessions[c].stack, req);
            && c < |s'.sessions| && s'.sessions[c].last == o.response
            && s'.sessions[c].stack == o.stack == ValuesAfter(s.sessions[c].stack, Event(req, o.response))
  {
    hide ServeStack, ValuesAfter;
    StackRequestAfter(s.sessions[c].stack, req);
  }

  /** A step changes the values of the client whose request it answers, as its reply says,
      and nobody else's. */
  lemma StepAfter(s: System, a: Action, c: ClientId)
    requires Enabled(s, a) && c < |s.sessions|
    ensures var s', replies := Apply(s, a), StepReplies(s, a, c);
            && c < |s'.sessions| && |replies| <= 1
            && s'.sessions[c].stack ==
               if replies == [] then s.sessions[c].stack else ValuesAfter(s.sessions[c].stack, replies[0])
  {
    if !OnValues(a) {
      hide Enabled, Apply, Removed, Added;
      OtherAccounted(s, a, c);
      if StepReplies(s, a, c) != [] {
        NothingAfter(s.sessions[c].stack, StepReplies(s, a, c)[0]);
      }
    } else if a.c != c {
      hide Enabled, Apply, ValuesAfter;
      OthersAccounted(s, a, c);
    } else {
      hide ServeStack, OperateOn, ValuesAfter, Precheck, DoAccess, DoBareGet, DoStack, DoOperate;
      match a
      case OnStack(_, req) => OnStackAfter(s, c, req);
      case Access(_, req) => AccessAfter(s, c, req);
      case BareGet(_, req) => BareGetAfter(s, c, req);
      case Operate(_) => OperateAfter(s, c);
    }
  }

  /** A reply that removes and adds nothing. */
  lemma NothingAfter(stack: Stack, e: Event)
    requires Removed(e) == Added(e) == 0
    ensures ValuesAfter(stack, e) == stack
  {
  }

  // ----- Whole sessions -----

  /** Over any run, whatever the other clients do, a client's stack is what its replies
      say. */
  lemma {:induction false} StackIsHistory(s: System, actions: seq<Action>, c: ClientId)
    requires Run(s, actions).Some? && c < |s.sessions|
    ensures c < |Run(s, actions).value.sessions|
    ensures Run(s, actions).value.sessions[c].stack == Values(s.sessions[c].stack, Replies(s, actions, c))
  {
    hide Enabled, Apply, StepReplies, ValuesAfter;
    if actions != [] {
      var front, a := actions[..|actions| - 1], actions[|actions| - 1];
      StackIsHistory(s, front, c);
      StepAfter(Run(s, front).value, a, c);
      var before, step := Replies(s, front, c), StepReplies(Run(s, front).value, a, c);
      if step == [] {
        assert before + step == before;
      } else {
        assert (before + step)[..|before + step| - 1] == before;
      }
    }
  }

  /** In any session, at any moment of any run: TOP answers the value of the last PUSH, GET
      or result that has not been removed, and POP removes it; both are refused exactly
      when there is none. Every other request on the stack is answered as on the values
      there are. */
  lemma {:induction false} StackReplies(s: System, actions: seq<Action>, c: ClientId, i: nat)
    requires Run(s, actions).Some? && c < |s.sessions| && i < |Replies(s, actions, c)|
    requires IsStackRequest(Replies(s, actions, c)[i].req.messageType)
    ensures var replies := Replies(s, actions, c);
            var e, values := replies[i], Values(s.sessions[c].stack, replies[..i]);
            && e.response == ServeStack(values, e.req).response
            && (e.req.messageType == TOP ==>
                 e.response == if values == [] then Refused(EmptyStack) else Answered(values[|values| - 1]))
            && (e.req.messageType == POP ==>
                 e.response == if values == [] then Refused(EmptyStack) else Acknowledged)
  {
    hide Enabled, Apply, StepReplies, Values;
    var front, a := actions[..|actions| - 1], actions[|actions| - 1];
    var before, step := Replies(s, front, c), StepReplies(Run(s, front).value, a, c);
    if i < |before| {
      StackReplies(s, front, c, i);
      assert (before + step)[..i] == before[..i];
    } else {
      StackIsHistory(s, front, c);
      StepAfter(Run(s, front).value, a, c);
      StepServesStack(Run(s, front).value, a, c);
      assert (before + step)[..i] == before && (before + step)[i] == step[0];
    }
  }

  /** Only OnStack answers a request on the stack. */
  lemma StepServesStack(s: System, a: Action, c: ClientId)
    requires Enabled(s, a) && c < |s.sessions| && StepReplies(s, a, c) != []
    ensures var e := StepReplies(s, a, c)[0];
            IsStackRequest(e.req.messageType) ==> e.response == ServeStack(s.sessions[c].stack, e.req).response
  {
    hide ServeStack, OperateOn, Precheck, Override;
    if a.OnStack? {
      hide Enabled, Apply;
      OnStackServed(s, a, c);
    } else {
      hide Apply;
    }
  }

  lemma OnStackServed(s: System, a: Action, c: ClientId)
    requires Enabled(s, a) && a.OnStack? && a.c == c
    ensures StepReplies(s, a, c) == [Event(a.req, ServeStack(s.sessions[c].stack, a.req).response)]
  {
    hide ServeStack;
  }
}
