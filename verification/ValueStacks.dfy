/** The value stack object and the handlers that work on it alone. */
module ValueStacks {
  import opened Numerals
  import opened Messages
  import opened Wrappers
  import opened Handlers

  class ValueStack {
    var stack: seq<string>

    constructor ()
      ensures stack == []
    {
      stack := [];
    }

    method IsEmpty() returns (empty: bool)
      ensures empty == (stack == [])
    {
      empty := |stack| == 0;
    }

    method Push(value: string)
      modifies this
      ensures stack == old(stack) + [value]
    {
      stack := stack + [value];
    }

    /** get_top: None is the exception on an empty stack. */
    method GetTop() returns (value: Option<string>)
      ensures value == if stack == [] then None else Some(Top(stack))
    {
      if |stack| == 0 {
        return None;
      }
      return Some(stack[|stack| - 1]);
    }

    /** pop: false is the exception on an empty stack. */
    method Pop() returns (ok: bool)
      modifies this
      ensures ok == (old(stack) != [])
      ensures stack == if ok then Popped(old(stack)) else old(stack)
    {
      if |stack| == 0 {
        return false;
      }
      stack := stack[..|stack| - 1];
      return true;
    }
  }

  method HandlePush(stack: ValueStack, req: Message) returns (response: Response)
    requires req.messageType == PUSH && req.Valid()
    modifies stack
    ensures StackOutcome(response, stack.stack) == ServeStack(old(stack.stack), req)
    ensures req.args != [""] ==> response == Acknowledged && stack.stack == old(stack.stack) + req.args
    ensures req.args == [""] ==> response.Faulted? && !response.Closes() && stack.stack == old(stack.stack)
  {
    if req.args[0] == "" {
      return Faulted(NoValue, false);
    }
    stack.Push(req.args[0]);
    return Acknowledged;
  }

  method HandlePop(stack: ValueStack, req: Message) returns (response: Response)
    requires req.messageType == POP
    modifies stack
    ensures StackOutcome(response, stack.stack) == ServeStack(old(stack.stack), req)
    ensures response == if old(stack.stack) == [] then Refused(EmptyStack) else Acknowledged
    ensures forall rest, v :: old(stack.stack) == rest + [v] ==> stack.stack == rest
  {
    var ok := stack.Pop();
    return if ok then Acknowledged else Refused(EmptyStack);
  }

  method HandleTop(stack: ValueStack, req: Message) returns (response: Response)
    requires req.messageType == TOP
    ensures StackOutcome(response, stack.stack) == ServeStack(stack.stack, req)
    ensures stack.stack == [] ==> response == Refused(EmptyStack)
    ensures stack.stack != [] ==> response == Answered(stack.stack[|stack.stack| - 1])
  {
    var empty := stack.IsEmpty();
    if empty {
      return Refused(EmptyStack);
    }
    var top := stack.GetTop();
    return Answered(top.value);
  }

  method HandleArithmetic(stack: ValueStack, req: Message) returns (response: Response)
    requires IsArithmetic(req.messageType)
    modifies stack
    ensures StackOutcome(response, stack.stack) == ServeStack(old(stack.stack), req)
  {
    var empty := stack.IsEmpty();
    if empty {
      return Refused(NoRightOperand);
    }
    var top := stack.GetTop();
    var right;
    match Stoi(top.value) {
      case InvalidArgument => return Refused(BadRightOperand);
      case OutOfRange => return Lost(HugeRightOperand);
      case Value(v) => right := v;
    }
    var ok := stack.Pop();
    empty := stack.IsEmpty();
    if empty {
      return Refused(NoLeftOperand);
    }
    top := stack.GetTop();
    var left;
    match Stoi(top.value) {
      case InvalidArgument => return Refused(BadLeftOperand);
      case OutOfRange => return Lost(HugeLeftOperand);
      case Value(v) => left := v;
    }
    ok := stack.Pop();
    match Compute(req.messageType, left, right) {
      case DivideByZero => return Refused(ZeroDivisor);
      case OutOfInt => return Lost(Overflow);
      case Result(v) => stack.Push(ToString(v));
    }
    return Acknowledged;
  }
}
