/** What one request does, on its own, to a value stack and a database: the
    meaning of the handlers of client_connection.cpp for a client that runs alone. */
module Handlers {
  import opened Numerals
  import opened Messages
  import opened Wrappers
  import opened Tables

  type Db = map<string, Data>
  type Stack = seq<string>

  datatype Reason =
    | BadFormat | Unsupported | NoValue | BadName
    | EmptyStack | NoTable | NoKey | LockBusy
    | TableExists | AlreadyInTransaction | NoTransaction | RolledBack
    | NoRightOperand | NoLeftOperand
    | BadRightOperand | BadLeftOperand
    | HugeRightOperand | HugeLeftOperand
    | ZeroDivisor | Overflow

  /** The reply to a request. Fetched is the OK of a GET, with the value it pushed;
      Refused is FAILED; Faulted is ERROR, which usually closes the session; Lost
      stands for an exception no handler catches or an int overflow, after which the
      session is gone. */
  datatype Response =
    | Acknowledged
    | Fetched(value: string)
    | Answered(value: string)
    | Refused(why: Reason)
    | Faulted(why: Reason, closes: bool)
    | Lost(why: Reason)
  {
    predicate Ok() {
      Acknowledged? || Fetched?
    }

    predicate Closes() {
      Lost? || (Faulted? && closes)
    }
  }

  datatype StackOutcome = StackOutcome(response: Response, stack: Stack)

  function Top(stack: Stack): string
    requires stack != []
  {
    stack[|stack| - 1]
  }

  function Popped(stack: Stack): Stack
    requires stack != []
  {
    stack[..|stack| - 1]
  }

  predicate IsArithmetic(t: MessageType) {
    t in {ADD, SUB, MUL, DIV}
  }

  predicate IsStackRequest(t: MessageType) {
    t in {PUSH, POP, TOP} || IsArithmetic(t)
  }

  predicate IsTableRequest(t: MessageType) {
    t in {GET, SET}
  }

  function Magnitude(a: int): nat {
    if a < 0 then -a else a
  }

  /** C++ division: the quotient truncated toward zero. */
  function TruncDiv(a: int, b: int): int
    requires b != 0
  {
    var q := Magnitude(a) / Magnitude(b);
    if (a < 0) == (b < 0) then q else -q
  }

  lemma TruncDivTowardZero(a: int, b: int)
    requires b != 0
    ensures var r := a - TruncDiv(a, b) * b;
            Magnitude(r) < Magnitude(b) && (r == 0 || (r < 0 <==> a < 0))
  {
    var x: int, y: int := Magnitude(a), Magnitude(b);
    var q: int := x / y;
    assert x == q * y + x % y;
    assert TruncDiv(a, b) * b == if a < 0 then -(q * y) else q * y by {
      assert q * -y == -(q * y) && -q * y == -(q * y) && -q * -y == q * y;
    }
  }

  datatype Computed = Result(v: int) | DivideByZero | OutOfInt

  /** The switch of handle_arithmetic_request; a result outside int is undefined. */
  function Compute(t: MessageType, left: int, right: int): Computed
    requires IsArithmetic(t)
  {
    if t == DIV && right == 0 then DivideByZero
    else
      var v :=
        if t == ADD then left + right
        else if t == SUB then left - right
        else if t == MUL then left * right
        else TruncDiv(left, right);
      if InIntRange(v) then Result(v) else OutOfInt
  }

  /** handle_arithmetic_request: the right operand is on top. A failed check leaves
      popped whatever was popped before it. */
  function Arithmetic(stack: Stack, t: MessageType): StackOutcome
    requires IsArithmetic(t)
  {
    if stack == [] then StackOutcome(Refused(NoRightOperand), stack)
    else match Stoi(Top(stack))
      case InvalidArgument => StackOutcome(Refused(BadRightOperand), stack)
      case OutOfRange => StackOutcome(Lost(HugeRightOperand), stack)
      case Value(right) =>
        var stack1 := Popped(stack);
        if stack1 == [] then StackOutcome(Refused(NoLeftOperand), stack1)
        else match Stoi(Top(stack1))
          case InvalidArgument => StackOutcome(Refused(BadLeftOperand), stack1)
          case OutOfRange => StackOutcome(Lost(HugeLeftOperand), stack1)
          case Value(left) =>
            var stack2 := Popped(stack1);
            match Compute(t, left, right)
            case DivideByZero => StackOutcome(Refused(ZeroDivisor), stack2)
            case OutOfInt => StackOutcome(Lost(Overflow), stack2)
            case Result(v) => StackOutcome(Acknowledged, stack2 + [ToString(v)])
  }

  /** The requests that touch only the stack. */
  function ServeStack(stack: Stack, req: Message): StackOutcome {
    if !req.Valid() then StackOutcome(Faulted(BadFormat, true), stack)
    else match req.messageType
      case PUSH =>
        if req.args[0] == "" then StackOutcome(Faulted(NoValue, false), stack)
        else StackOutcome(Acknowledged, stack + [req.args[0]])
      case POP =>
        if stack == [] then StackOutcome(Refused(EmptyStack), stack)
        else StackOutcome(Acknowledged, Popped(stack))
      case TOP =>
        if stack == [] then StackOutcome(Refused(EmptyStack), stack)
        else StackOutcome(Answered(Top(stack)), stack)
      case ADD | SUB | MUL | DIV => Arithmetic(stack, req.messageType)
      case _ => StackOutcome(Faulted(Unsupported, true), stack)
  }

  /** The checks a GET or SET makes before it goes for the table's lock. */
  function Precheck(found: bool, stack: Stack, req: Message): Option<Response>
    requires IsTableRequest(req.messageType)
  {
    if !req.Valid() then Some(Faulted(BadFormat, true))
    else if !found then Some(Refused(NoTable))
    else if req.messageType == GET then None
    else if !(IsIdentifier(req.Table()) && IsIdentifier(req.Key())) then Some(Faulted(BadName, true))
    else if stack == [] then Some(Refused(EmptyStack))
    else None
  }

  // ----- Cells of a database -----

  datatype CellRef = At(table: string, key: string)

  function CellText(db: Db, table: string, key: string): Option<string> {
    if table in db && key in db[table] then Some(db[table][key]) else None
  }

  /** What the writes leave in the keys of one table. */
  function KeysOf(writes: map<CellRef, string>, table: string): Data {
    map cell | cell in writes && cell.table == table :: cell.key := writes[cell]
  }

  /** The database with the writes made in it. */
  function Override(db: Db, writes: map<CellRef, string>): Db {
    map t | t in db :: db[t] + KeysOf(writes, t)
  }

  lemma OverrideText(db: Db, writes: map<CellRef, string>, t: string, k: string)
    requires t in db
    ensures CellText(Override(db, writes), t, k) ==
            if At(t, k) in writes then Some(writes[At(t, k)]) else CellText(db, t, k)
  {
    assert k in KeysOf(writes, t) <==> At(t, k) in writes by {
      if At(t, k) in writes { assert At(t, k).key in KeysOf(writes, t); }
    }
  }

  lemma OverrideNothing(db: Db)
    ensures Override(db, map[]) == db
  {
    forall t | t in db ensures db[t] + KeysOf(map[], t) == db[t] {
      assert KeysOf(map[], t) == map[];
    }
  }

  /** One more write is one more update. */
  lemma OverrideOne(db: Db, writes: map<CellRef, string>, t: string, k: string, v: string)
    requires t in db
    ensures var w := Override(db, writes); Override(db, writes[At(t, k) := v]) == w[t := w[t][k := v]]
  {
    hide KeysOf;
    var w, w' := Override(db, writes), Override(db, writes[At(t, k) := v]);
    forall u | u in db ensures w'[u] == if u == t then w[t][k := v] else w[u] {
      KeysOfOne(writes, t, k, v, u);
      UnionOne(db[u], KeysOf(writes, u), k, v);
    }
  }

  lemma OverrideSingle(db: Db, t: string, k: string, v: string)
    requires t in db
    ensures Override(db, map[At(t, k) := v]) == db[t := db[t][k := v]]
  {
    hide Override;
    OverrideNothing(db);
    OverrideOne(db, map[], t, k, v);
  }

  lemma UnionOne(d: Data, e: Data, k: string, v: string)
    ensures d + e[k := v] == (d + e)[k := v]
  {
  }

  lemma KeysOfOne(writes: map<CellRef, string>, t: string, k: string, v: string, u: string)
    ensures KeysOf(writes[At(t, k) := v], u) == if u == t then KeysOf(writes, t)[k := v] else KeysOf(writes, u)
  {
    var writes' := writes[At(t, k) := v];
    forall j | j in KeysOf(writes, u) ensures j in KeysOf(writes', u) {
      assert At(u, j) in writes';
    }
    if u == t {
      assert At(t, k) in writes';
      forall j | j in KeysOf(writes', t) && j != k ensures j in KeysOf(writes, t) {
        assert At(t, j) in writes;
      }
    } else {
      forall j | j in KeysOf(writes', u) ensures j in KeysOf(writes, u) {
        assert At(u, j) in writes;
      }
    }
  }

  datatype Machine = Machine(db: Db, stack: Stack)
  datatype Outcome = Outcome(response: Response, machine: Machine)

  /** Any stack or table request, served to a client that runs alone. */
  function Serve(m: Machine, req: Message): Outcome {
    if !IsTableRequest(req.messageType) then
      var o := ServeStack(m.stack, req);
      Outcome(o.response, m.(stack := o.stack))
    else
      var t, k := req.Table(), req.Key();
      match Precheck(t in m.db, m.stack, req)
      case Some(response) => Outcome(response, m)
      case None =>
        if req.messageType == SET then
          Outcome(Acknowledged, Machine(m.db[t := m.db[t][k := Top(m.stack)]], Popped(m.stack)))
        else if k in m.db[t] then
          Outcome(Fetched(m.db[t][k]), m.(stack := m.stack + [m.db[t][k]]))
        else Outcome(Refused(NoKey), m)
  }

  // ----- Runs of requests -----

  datatype Event = Event(req: Message, response: Response)

  /** Runs the recorded requests from m; None when some response would differ. */
  function Replay(m: Machine, trace: seq<Event>): Option<Machine> {
    if trace == [] then Some(m)
    else
      var e := trace[|trace| - 1];
      match Replay(m, trace[..|trace| - 1])
      case None => None
      case Some(m1) =>
        var o := Serve(m1, e.req);
        if o.response == e.response then Some(o.machine) else None
  }

  lemma ReplayAppend(m: Machine, trace: seq<Event>, e: Event)
    ensures Replay(m, trace + [e]) ==
            match Replay(m, trace)
            case None => None
            case Some(m1) =>
              if Serve(m1, e.req).response == e.response then Some(Serve(m1, e.req).machine) else None
  {
    assert (trace + [e])[..|trace|] == trace;
  }
}
