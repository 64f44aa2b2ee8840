/** The height of a client's value stack over a whole session, transactions and
    failures included. */
module Accounting {
  import opened Wrappers
  import opened Numerals
  import opened Messages
  import opened Tables
  import opened Handlers
  import opened Transactions

  /** How many operands a refused or lost arithmetic request took off the stack. */
  function Dropped(why: Reason): nat {
    match why
    case NoLeftOperand | BadLeftOperand | HugeLeftOperand => 1
    case ZeroDivisor | Overflow => 2
    case _ => 0
  }

  /** How many entries a request removed, and how many it then added. */
  function Removed(e: Event): nat {
    match e.response
    case Acknowledged =>
      if e.req.messageType in {POP, SET} then 1 else if IsArithmetic(e.req.messageType) then 2 else 0
    case Refused(why) => Dropped(why)
    case Lost(why) => Dropped(why)
    case _ => 0
  }

  function Added(e: Event): nat {
    match e.response
    case Fetched(_) => 1
    case Acknowledged => if e.req.messageType == PUSH || IsArithmetic(e.req.messageType) then 1 else 0
    case _ => 0
  }

  function Height(h: int, replies: seq<Event>): int {
    if replies == [] then h
    else var e := replies[|replies| - 1]; Height(h, replies[..|replies| - 1]) - Removed(e) + Added(e)
  }

  /** The least height the stack was cut down to. */
  function LowWater(h: int, replies: seq<Event>): int {
    if replies == [] then h
    else
      var front := replies[..|replies| - 1];
      var cut := Height(h, front) - Removed(replies[|replies| - 1]);
      if cut < LowWater(h, front) then cut else LowWater(h, front)
  }

  // ----- The replies of a session -----

  const BEGIN_REQUEST := Message(BEGIN, [])
  const COMMIT_REQUEST := Message(COMMIT, [])
  const BYE_REQUEST := Message(BYE, [])

  /** The request a step of client c answers, if it answers one. A rollback answers
      the failed transaction as a whole. */
  function AnsweredBy(s: System, a: Action): Option<Message>
    requires Enabled(s, a)
  {
    match a
    case Create(_, name) => Some(Message(CREATE, [name]))
    case Begin(_) => Some(BEGIN_REQUEST)
    case OnStack(_, req) => Some(req)
    case Access(_, req) => Some(req)
    case BareGet(_, req) => Some(req)
    case StartAuto(c, req) => if Apply(s, a).sessions[c].phase == Idle then Some(req) else None
    case Operate(c) => Some(s.sessions[c].phase.req)
    case StartCommit(c) => if s.server.InTransaction(c) then None else Some(COMMIT_REQUEST)
    case EndCommit(_) => Some(COMMIT_REQUEST)
    case EndRollback(_) => Some(COMMIT_REQUEST)
    case Bye(_) => Some(BYE_REQUEST)
    case _ => None
  }

  /** The requests of client c answered in a run, with the replies sent. */
  function Replies(s: System, actions: seq<Action>, c: ClientId): seq<Event>
    requires Run(s, actions).Some?
  {
    if actions == [] then []
    else
      var front, a := actions[..|actions| - 1], actions[|actions| - 1];
      Replies(s, front, c) + StepReplies(Run(s, front).value, a, c)
  }

  function StepReplies(s: System, a: Action, c: ClientId): seq<Event>
    requires Enabled(s, a)
  {
    if a == Connect || a.c != c then []
    else match AnsweredBy(s, a)
      case None => []
      case Some(req) => [Event(req, Apply(s, a).sessions[c].last)]
  }

  // ----- One step -----

  /** The stack after a reply e that is accounted for. */
  ghost predicate Accounted(before: Stack, e: Event, after: Stack) {
    && Removed(e) <= |before| && |after| == |before| - Removed(e) + Added(e)
    && after[..|before| - Removed(e)] == before[..|before| - Removed(e)]
  }

  lemma StackAccounted(stack: Stack, req: Message)
    requires IsStackRequest(req.messageType)
    ensures var o := ServeStack(stack, req); Accounted(stack, Event(req, o.response), o.stack)
  {
    hide Stoi, Compute, ToString;
  }

  lemma OperationAccounted(ts: TableState, stack: Stack, req: Message)
    requires IsTableRequest(req.messageType) && (req.messageType == SET ==> stack != [])
    ensures var o := OperateOn(ts, stack, req); Accounted(stack, Event(req, o.response), o.stack)
  {
  }

  /** A checked request that is refused, or answered without touching its table. */
  lemma CheckAccounted(found: bool, stack: Stack, req: Message)
    requires IsTableRequest(req.messageType)
    ensures match Precheck(found, stack, req)
            case None => req.messageType == SET ==> stack != []
            case Some(r) =>
              Accounted(stack, Event(req, r), stack) && Removed(Event(req, r)) == Added(Event(req, r)) == 0
  {
  }

  lemma AccessAccounted(s: System, c: ClientId, req: Message)
    requires Enabled(s, Access(c, req))
    ensures var s' := DoAccess(s, c, req);
            && c < |s'.sessions|
            && Accounted(s.sessions[c].stack, Event(req, s'.sessions[c].last), s'.sessions[c].stack)
  {
    hide OperateOn, Accounted;
    var stack, t := s.sessions[c].stack, req.Table();
    CheckAccounted(t in s.server.tables, stack, req);
    if Precheck(t in s.server.tables, stack, req) == None {
      OperationAccounted(s.server.tables[t], stack, req);
      OperationAccounted(s.server.tables[t].Lock(c), stack, req);
      BusyAccounted(stack, req);
    }
  }

  lemma BusyAccounted(stack: Stack, req: Message)
    ensures Accounted(stack, Event(req, Refused(LockBusy)), stack)
  {
  }

  lemma BareGetAccounted(s: System, c: ClientId, req: Message)
    requires Enabled(s, BareGet(c, req))
    ensures var s' := DoBareGet(s, c, req);
            && c < |s'.sessions|
            && Accounted(s.sessions[c].stack, Event(req, s'.sessions[c].last), s'.sessions[c].stack)
  {
    hide OperateOn, Accounted;
    var stack, t := s.sessions[c].stack, req.Table();
    CheckAccounted(t in s.server.tables, stack, req);
    if Precheck(t in s.server.tables, stack, req) == None {
      OperationAccounted(s.server.tables[t], stack, req);
    }
  }

  predicate OnValues(a: Action) {
    a.OnStack? || a.Access? || a.BareGet? || a.Operate?
  }

  /** The other steps, of any client, leave the stacks alone, and so do their replies. */
  lemma OtherAccounted(s: System, a: Action, c: ClientId)
    requires Enabled(s, a) && c < |s.sessions| && !OnValues(a)
    ensures c < |Apply(s, a).sessions| && Apply(s, a).sessions[c].stack == s.sessions[c].stack
    ensures forall e :: e in StepReplies(s, a, c) ==> Removed(e) == Added(e) == 0
  {
    hide Removed, Added, Enabled, Apply, AnsweredBy;
    OtherStacks(s, a, c);
    if a != Connect && a.c == c && AnsweredBy(s, a).Some? {
      OtherReplies(s, a);
    }
  }

  lemma OtherStacks(s: System, a: Action, c: ClientId)
    requires Enabled(s, a) && c < |s.sessions| && !OnValues(a)
    ensures c < |Apply(s, a).sessions| && Apply(s, a).sessions[c].stack == s.sessions[c].stack
  {
    hide Precheck, OperateOn;
  }

  lemma OtherReplies(s: System, a: Action)
    requires Enabled(s, a) && !OnValues(a) && a != Connect && AnsweredBy(s, a).Some?
    ensures a.c < |Apply(s, a).sessions|
    ensures var e := Event(AnsweredBy(s, a).value, Apply(s, a).sessions[a.c].last); Removed(e) == Added(e) == 0
  {
    if a.StartAuto? {
      hide Apply, Enabled, Removed, Added;
      RefusalReplies(s, a.c, a.req);
    } else if IsEnd(a) {
      hide Apply, Enabled, Removed, Added;
      EndReplies(s, a);
    } else {
      hide DoAccess, DoBareGet, DoStack, DoOperate, DoStartAuto;
    }
  }

  predicate IsEnd(a: Action) {
    a.StartCommit? || a.EndCommit? || a.EndRollback?
  }

  lemma EndReplies(s: System, a: Action)
    requires Enabled(s, a) && IsEnd(a) && AnsweredBy(s, a).Some?
    ensures a.c < |Apply(s, a).sessions|
    ensures var e := Event(COMMIT_REQUEST, Apply(s, a).sessions[a.c].last); Removed(e) == Added(e) == 0
  {
  }

  lemma RefusalReplies(s: System, c: ClientId, req: Message)
    requires Enabled(s, StartAuto(c, req)) && AnsweredBy(s, StartAuto(c, req)).Some?
    ensures var s' := Apply(s, StartAuto(c, req));
            c < |s'.sessions| && var e := Event(req, s'.sessions[c].last); Removed(e) == Added(e) == 0
  {
    hide Precheck;
    CheckAccounted(req.Table() in s.server.tables, s.sessions[c].stack, req);
  }

  /** A step on values leaves the stacks of all others alone. */
  lemma OthersAccounted(s: System, a: Action, c: ClientId)
    requires Enabled(s, a) && c < |s.sessions| && OnValues(a) && a.c != c
    ensures c < |Apply(s, a).sessions| && Apply(s, a).sessions[c] == s.sessions[c]
  {
    hide OperateOn, ServeStack, Precheck;
  }

  /** A step leaves the stacks alone but for the client whose request it answers, and
      that one changes as the reply accounts for. */
  lemma StepAccounted(s: System, a: Action, c: ClientId)
    requires Enabled(s, a) && c < |s.sessions|
    ensures var s', replies := Apply(s, a), StepReplies(s, a, c);
            && c < |s'.sessions|
            && if replies == [] then s'.sessions[c].stack == s.sessions[c].stack
               else |replies| == 1 && Accounted(s.sessions[c].stack, replies[0], s'.sessions[c].stack)
  {
    if !OnValues(a) {
      hide Enabled, Apply;
      OtherAccounted(s, a, c);
    } else if a.c != c {
      hide Enabled, Apply;
      OthersAccounted(s, a, c);
    } else {
      hide ServeStack, OperateOn, Accounted, Precheck;
      match a
      case OnStack(_, req) => StackAccounted(s.sessions[c].stack, req);
      case Access(_, req) => AccessAccounted(s, c, req);
      case BareGet(_, req) => BareGetAccounted(s, c, req);
      case Operate(_) =>
        var req := s.sessions[c].phase.req;
        OperationAccounted(s.server.tables[req.Table()], s.sessions[c].stack, req);
    }
  }

  // ----- Whole sessions -----

  /** Over any run, whatever the other clients do, the height of a client's stack is
      what the replies of its session account for - operands dropped by failed
      arithmetic, refused locks, commits and rollbacks included - and no entry below
      the lowest cut ever changes. */
  lemma {:induction false} StackAccounting(s: System, actions: seq<Action>, c: ClientId)
    requires Run(s, actions).Some? && c < |s.sessions|
    ensures c < |Run(s, actions).value.sessions|
    ensures var start, end := s.sessions[c].stack, Run(s, actions).value.sessions[c].stack;
            var replies := Replies(s, actions, c);
            var low := LowWater(|start|, replies);
            && |end| == Height(|start|, replies)
            && 0 <= low <= |start| && low <= |end| && end[..low] == start[..low]
  {
    hide Enabled, Apply, StepReplies, Removed, Added;
    if actions != [] {
      var front, a := actions[..|actions| - 1], actions[|actions| - 1];
      StackAccounting(s, front, c);
      StepAccounted(Run(s, front).value, a, c);
      ReplyAccounted(s.sessions[c].stack, Run(s, front).value.sessions[c].stack,
                     Run(s, actions).value.sessions[c].stack, Replies(s, front, c),
                     StepReplies(Run(s, front).value, a, c));
    }
  }

  ghost predicate AccountedFor(start: Stack, replies: seq<Event>, end: Stack) {
    var low := LowWater(|start|, replies);
    && |end| == Height(|start|, replies)
    && 0 <= low <= |start| && low <= |end| && end[..low] == start[..low]
  }

  lemma ReplyAccounted(start: Stack, mid: Stack, end: Stack, replies: seq<Event>, last: seq<Event>)
    requires AccountedFor(start, replies, mid)
    requires if last == [] then end == mid else |last| == 1 && Accounted(mid, last[0], end)
    ensures AccountedFor(start, replies + last, end)
  {
    hide Removed, Added;
    if last == [] {
      assert replies + last == replies;
    } else {
      var all, e := replies + last, last[0];
      assert all[..|all| - 1] == replies && all[|all| - 1] == e;
      var low, cut := LowWater(|start|, all), |mid| - Removed(e);
      assert end[..low] == end[..cut][..low] && mid[..low] == mid[..cut][..low];
      assert mid[..low] == mid[..LowWater(|start|, replies)][..low];
      assert start[..low] == start[..LowWater(|start|, replies)][..low];
    }
  }
}
