/** Arithmetic expressions over literals and table cells, and the postfix request
    programs that compute them on the server's stack. */
module Compiler {
  import opened Numerals
  import opened Messages
  import opened Wrappers
  import opened Handlers

  datatype Op = Add | Sub | Mul | Div {
    function Request(): MessageType {
      match this
      case Add => ADD
      case Sub => SUB
      case Mul => MUL
      case Div => DIV
    }
  }

  datatype Expr = Lit(n: int) | Cell(table: string, key: string) | Bin(op: Op, left: Expr, right: Expr) {
    /** Every cell is addressed by names a GET request may carry. */
    predicate WellFormed() {
      match this
      case Lit(_) => true
      case Cell(t, k) => IsIdentifier(t) && k != ""
      case Bin(_, l, r) => l.WellFormed() && r.WellFormed()
    }
  }

  /** The value of a tree of text values: operands are read as numerals, the
      operation is carried out on ints, the result is a numeral. */
  function Eval(db: Db, e: Expr): Option<string> {
    match e
    case Lit(n) => Some(ToString(n))
    case Cell(t, k) => CellText(db, t, k)
    case Bin(op, l, r) =>
      match (Eval(db, l), Eval(db, r))
      case (Some(a), Some(b)) => ApplyOp(op, a, b)
      case _ => None
  }

  function ApplyOp(op: Op, a: string, b: string): Option<string> {
    match (Stoi(a), Stoi(b))
    case (Value(x), Value(y)) =>
      (match Compute(op.Request(), x, y)
       case Result(v) => Some(ToString(v))
       case _ => None)
    case _ => None
  }

  function Compile(e: Expr): seq<Message> {
    match e
    case Lit(n) => [Message(PUSH, [ToString(n)])]
    case Cell(t, k) => [Message(GET, [t, k])]
    case Bin(op, l, r) => Compile(l) + Compile(r) + [Message(op.Request(), [])]
  }

  datatype Stmt = Assign(table: string, key: string, e: Expr) {
    predicate WellFormed() {
      IsIdentifier(table) && IsIdentifier(key) && e.WellFormed()
    }
  }

  function CompileStmt(s: Stmt): seq<Message> {
    Compile(s.e) + [Message(SET, [s.table, s.key])]
  }

  function CompileAll(p: seq<Stmt>): seq<Message> {
    if p == [] then [] else CompileAll(p[..|p| - 1]) + CompileStmt(p[|p| - 1])
  }

  function ExecStmt(db: Db, s: Stmt): Option<Db> {
    match Eval(db, s.e)
    case Some(v) => if s.table in db then Some(db[s.table := db[s.table][s.key := v]]) else None
    case None => None
  }

  function ExecAll(db: Db, p: seq<Stmt>): Option<Db> {
    if p == [] then Some(db)
    else match ExecAll(db, p[..|p| - 1])
      case None => None
      case Some(db1) => ExecStmt(db1, p[|p| - 1])
  }

  /** The machine after the requests if every one is acknowledged. */
  function RunAll(m: Machine, reqs: seq<Message>): Option<Machine> {
    if reqs == [] then Some(m)
    else match RunAll(m, reqs[..|reqs| - 1])
      case None => None
      case Some(m1) =>
        var o := Serve(m1, reqs[|reqs| - 1]);
        if o.response.Ok() then Some(o.machine) else None
  }

  lemma {:induction false} RunAllConcat(m: Machine, a: seq<Message>, b: seq<Message>)
    ensures RunAll(m, a + b) == match RunAll(m, a) case None => None case Some(m1) => RunAll(m1, b)
  {
    hide Serve;
    if b == [] {
      assert a + b == a;
    } else {
      var front := b[..|b| - 1];
      RunAllConcat(m, a, front);
      assert (a + b)[..|a + b| - 1] == a + front;
    }
  }

  lemma RunOne(m: Machine, req: Message)
    ensures RunAll(m, [req]) == var o := Serve(m, req); if o.response.Ok() then Some(o.machine) else None
  {
    assert [req][..0] == [];
  }

  /** Compiler correctness: the program of e is acknowledged throughout exactly when
      e has a value, and then it leaves the old stack plus that value. */
  lemma {:induction false} CompileCorrect(m: Machine, e: Expr)
    requires e.WellFormed()
    ensures RunAll(m, Compile(e)) ==
            match Eval(m.db, e) case None => None case Some(v) => Some(m.(stack := m.stack + [v]))
    decreases e
  {
    hide RunAll, ApplyOp;
    match e
    case Lit(n) =>
      RunOne(m, Message(PUSH, [ToString(n)]));
    case Cell(t, k) =>
      RunOne(m, Message(GET, [t, k]));
    case Bin(op, l, r) =>
      CompileCorrect(m, l);
      RunAllConcat(m, Compile(l), Compile(r));
      RunAllConcat(m, Compile(l) + Compile(r), [Message(op.Request(), [])]);
      match Eval(m.db, l) {
        case None =>
        case Some(a) =>
          var m1 := m.(stack := m.stack + [a]);
          CompileCorrect(m1, r);
          match Eval(m.db, r) {
            case None =>
            case Some(b) => BinaryStep(m, op, a, b);
          }
      }
  }

  lemma BinaryStep(m: Machine, op: Op, a: string, b: string)
    ensures RunAll(m.(stack := m.stack + [a] + [b]), [Message(op.Request(), [])]) ==
            match ApplyOp(op, a, b) case None => None case Some(v) => Some(m.(stack := m.stack + [v]))
  {
    var m2 := m.(stack := m.stack + [a] + [b]);
    RunOne(m2, Message(op.Request(), []));
    assert Popped(m2.stack) == m.stack + [a];
    assert Popped(m.stack + [a]) == m.stack;
  }

  /** The same for a whole program of assignments: it is acknowledged throughout
      exactly when every assignment is defined, its effect on the database is that
      of the assignments, and the stack is as before. */
  lemma {:induction false} CompileAllCorrect(m: Machine, p: seq<Stmt>)
    requires forall i :: 0 <= i < |p| ==> p[i].WellFormed()
    ensures RunAll(m, CompileAll(p)) ==
            match ExecAll(m.db, p) case None => None case Some(db) => Some(Machine(db, m.stack))
  {
    if p != [] {
      var front, s := p[..|p| - 1], p[|p| - 1];
      CompileAllCorrect(m, front);
      RunAllConcat(m, CompileAll(front), CompileStmt(s));
      if ExecAll(m.db, front).Some? {
        StmtStep(Machine(ExecAll(m.db, front).value, m.stack), s);
      }
    }
  }

  lemma StmtStep(m: Machine, s: Stmt)
    requires s.WellFormed()
    ensures RunAll(m, CompileStmt(s)) ==
            match ExecStmt(m.db, s) case None => None case Some(db) => Some(Machine(db, m.stack))
  {
    hide RunAll, Eval, Compile;
    CompileCorrect(m, s.e);
    var set_ := Message(SET, [s.table, s.key]);
    RunAllConcat(m, Compile(s.e), [set_]);
    match Eval(m.db, s.e) {
      case None =>
      case Some(v) =>
        RunOne(m.(stack := m.stack + [v]), set_);
        assert Popped(m.stack + [v]) == m.stack;
    }
  }

  // ----- Pure arithmetic -----

  /** v is the result of the operation on integers; a quotient is truncated toward
      zero: the remainder is smaller than the divisor and has the dividend's sign. */
  predicate Means(op: Op, x: int, y: int, v: int) {
    match op
    case Add => v == x + y
    case Sub => v == x - y
    case Mul => v == x * y
    case Div => y != 0 && Magnitude(x - v * y) < Magnitude(y) && (x == v * y || (x - v * y < 0 <==> x < 0))
  }

  /** The handler's switch computes the operation, left operand first: it has a result
      exactly when that is an int, and fails exactly on a zero divisor or outside int. */
  lemma ComputeMeans(op: Op, x: int, y: int, v: int)
    ensures Compute(op.Request(), x, y) == Result(v) <==> InIntRange(v) && Means(op, x, y, v)
    ensures Compute(op.Request(), x, y) == DivideByZero <==> op == Div && y == 0
    ensures Means(op, x, y, v) && !InIntRange(v) ==> Compute(op.Request(), x, y) == OutOfInt
  {
    if op == Div && y != 0 {
      TruncDivTowardZero(x, y);
      if Means(op, x, y, v) {
        QuotientUnique(x, y, v, TruncDiv(x, y));
      }
    }
  }

  lemma QuotientUnique(x: int, y: int, v: int, w: int)
    requires Means(Div, x, y, v) && Means(Div, x, y, w)
    ensures v == w
  {
    var r, s := x - v * y, x - w * y;
    assert (w - v) * y == r - s;
    if v != w {
      ProductAtLeast(w - v, y);
      assert false;
    }
  }

  lemma ProductAtLeast(d: int, y: int)
    requires d != 0
    ensures Magnitude(d * y) >= Magnitude(y)
  {
    var m: int, z: int := Magnitude(d), Magnitude(y);
    assert m * z == z + (m - 1) * z;
    assert (m - 1) * z >= 0;
    ProductSigns(d, y);
  }

  lemma ProductSigns(d: int, y: int)
    ensures Magnitude(d * y) == Magnitude(d) * Magnitude(y)
  {
    var m: int, z: int := Magnitude(d), Magnitude(y);
    assert d * y == if (d < 0) == (y < 0) then m * z else -(m * z);
  }

  /** v is the value of an expression over literals, in the integers, with every
      literal and intermediate in the int range. */
  ghost predicate Denotes(e: Expr, v: int) {
    && InIntRange(v)
    && match e
       case Lit(n) => v == n
       case Cell(_, _) => false
       case Bin(op, l, r) => exists x, y :: Denotes(l, x) && Denotes(r, y) && Means(op, x, y, v)
  }

  /** An arithmetic tree inside the int range with no zero divisor compiles to a
      program that pushes the numeral of its value. */
  lemma ArithmeticCorrect(m: Machine, e: Expr, v: int)
    requires Denotes(e, v)
    ensures RunAll(m, Compile(e)) == Some(m.(stack := m.stack + [ToString(v)]))
  {
    hide RunAll, Eval, Compile;
    DenotesIsEval(m.db, e, v);
    CompileCorrect(m, e);
  }

  lemma {:induction false} DenotesIsEval(db: Db, e: Expr, v: int)
    requires Denotes(e, v)
    ensures Eval(db, e) == Some(ToString(v)) && e.WellFormed()
  {
    hide Compute, Means, Stoi, ToString;
    if e.Bin? {
      var x, y :| Denotes(e.left, x) && Denotes(e.right, y) && Means(e.op, x, y, v);
      DenotesIsEval(db, e.left, x);
      DenotesIsEval(db, e.right, y);
      StoiInvertsToString(x);
      StoiInvertsToString(y);
      ComputeMeans(e.op, x, y, v);
    }
  }
}
