/** What the requests on the value stack do and answer, in terms of the values on it:
    a stack, last in first out, and arithmetic on the numbers its texts start with. */
module StackLaws {
  import opened Numerals
  import opened Messages
  import opened Handlers
  import opened Compiler

  /** PUSH takes one value; without one, or with an empty one, nothing is pushed, and only
      the wrong number of arguments ends the session. */
  lemma PushLaw(stack: Stack, req: Message)
    requires req.messageType == PUSH
    ensures var o := ServeStack(stack, req);
            && (forall v :: req.args == [v] && v != "" ==> o == StackOutcome(Acknowledged, stack + [v]))
            && (req.args == [""] ==> o.stack == stack && o.response.Faulted? && !o.response.Closes())
            && (|req.args| != 1 ==> o.stack == stack && o.response.Faulted? && o.response.Closes())
  {
  }

  /** TOP answers the value pushed last and POP takes it away, on every stack but the
      empty one, which both refuse. */
  lemma TopAndPopLaw(stack: Stack, v: string, top: Message, pop: Message)
    requires top.messageType == TOP && pop.messageType == POP
    ensures ServeStack(stack + [v], top) == StackOutcome(Answered(v), stack + [v])
    ensures ServeStack(stack + [v], pop) == StackOutcome(Acknowledged, stack)
    ensures ServeStack([], top) == ServeStack([], pop) == StackOutcome(Refused(EmptyStack), [])
  {
    assert Popped(stack + [v]) == stack;
  }

  predicate Int32(x: int) {
    -2147483648 <= x <= 2147483647
  }

  /** The text starts with a number in the int range. */
  ghost predicate ReadsInt(s: string, x: int) {
    Reads(s, x) && Int32(x)
  }

  function OpOf(t: MessageType): Op
    requires IsArithmetic(t)
  {
    match t
    case ADD => Add
    case SUB => Sub
    case MUL => Mul
    case DIV => Div
  }

  /** v is the int that the operation gives on the numbers two texts start with. */
  ghost predicate Gives(op: Op, left: string, right: string, v: int) {
    Int32(v) && exists x, y :: ReadsInt(left, x) && ReadsInt(right, y) && Means(op, x, y, v)
  }

  ghost predicate HasResult(op: Op, left: string, right: string) {
    exists v :: Gives(op, left, right, v)
  }

  ghost predicate IsInt(s: string) {
    exists x :: ReadsInt(s, x)
  }

  /** std::stoi, in these terms. */
  lemma StoiIsInt(s: string)
    ensures forall x :: Stoi(s) == StoiResult.Value(x) <==> ReadsInt(s, x)
    ensures Stoi(s).Value? <==> IsInt(s)
    ensures Stoi(s).InvalidArgument? <==> NoNumber(s)
  {
    hide Stoi, Reads, NoNumber;
    StoiReads(s);
    forall x | Stoi(s) == StoiResult.Value(x) ensures ReadsInt(s, x) {
      var y :| Reads(s, y);
      assert Stoi(s) == InInt(y);
    }
  }

  /** An arithmetic request, exactly. It is refused, which keeps the session, with no value
      gone when there is no operand or the top is no number; with one gone when there is
      no second operand or that is no number; with both gone when the divisor is zero. It
      is acknowledged when there is a result, which takes the place of the two. In every
      other case a number is outside int, and the session is lost. */
  lemma ArithmeticLaw(stack: Stack, req: Message)
    requires IsArithmetic(req.messageType)
    ensures var o, n := ServeStack(stack, req), |stack|;
            && (o.response.Refused? && |o.stack| == n <==> n == 0 || NoNumber(stack[n - 1]))
            && (o.response.Refused? && |o.stack| == n - 1 <==>
                 n >= 1 && IsInt(stack[n - 1]) && (n == 1 || NoNumber(stack[n - 2])))
            && (o.response.Refused? && |o.stack| == n - 2 <==>
                 n >= 2 && req.messageType == DIV && IsInt(stack[n - 2]) && ReadsInt(stack[n - 1], 0))
            && (o.response.Refused? ==> n - 2 <= |o.stack| <= n && o.stack == stack[..|o.stack|])
            && (o.response == Acknowledged <==>
                 n >= 2 && HasResult(OpOf(req.messageType), stack[n - 2], stack[n - 1]))
            && (n >= 2 ==> forall v :: Gives(OpOf(req.messageType), stack[n - 2], stack[n - 1], v) ==>
                 o.stack == stack[..n - 2] + [ToString(v)])
            && (o.response == Acknowledged || o.response.Refused? || o.response.Lost?)
            && (o.response.Closes() <==> o.response.Lost?)
  {
    hide Stoi, Compute, ToString, NoNumber, Reads, IsInt, Means, Int32;
    var n, op := |stack|, OpOf(req.messageType);
    assert op.Request() == req.messageType;
    if n >= 1 {
      StoiIsInt(stack[n - 1]);
      assert Top(stack) == stack[n - 1] && Popped(stack) == stack[..n - 1];
    }
    if n >= 2 {
      StoiIsInt(stack[n - 2]);
      assert Top(Popped(stack)) == stack[n - 2] && Popped(Popped(stack)) == stack[..n - 2];
      GivesComputed(op, stack[n - 2], stack[n - 1]);
    }
  }

  /** The operation has a result exactly when the switch has one. */
  lemma GivesComputed(op: Op, left: string, right: string)
    ensures forall v :: Gives(op, left, right, v) <==>
              Stoi(left).Value? && Stoi(right).Value? && Compute(op.Request(), Stoi(left).v, Stoi(right).v) == Result(v)
    ensures Stoi(left).Value? && Stoi(right).Value? ==>
              (Compute(op.Request(), Stoi(left).v, Stoi(right).v) == DivideByZero <==> op == Div && Stoi(right).v == 0)
  {
    hide Stoi, Compute, Means, ReadsInt;
    StoiIsInt(left);
    StoiIsInt(right);
    forall v ensures Gives(op, left, right, v) <==>
      Stoi(left).Value? && Stoi(right).Value? && Compute(op.Request(), Stoi(left).v, Stoi(right).v) == Result(v)
    {
      if Stoi(left).Value? && Stoi(right).Value? {
        ComputeMeans(op, Stoi(left).v, Stoi(right).v, v);
        assert ReadsInt(left, Stoi(left).v) && ReadsInt(right, Stoi(right).v);
      }
    }
    if Stoi(left).Value? && Stoi(right).Value? {
      ComputeMeans(op, Stoi(left).v, Stoi(right).v, 0);
    }
  }
}
