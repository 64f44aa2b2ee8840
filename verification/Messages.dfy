/** Messages, their validity and their accessors (message.cpp), and the user
    name scan of client_connection.cpp. A char stands for one byte. */
module Messages {
  const MAX_ENCODED_LEN: nat := 1024

  datatype MessageType =
    | NONE
    | LOGIN | CREATE | PUSH | POP | TOP | SET | GET
    | ADD | SUB | MUL | DIV | BEGIN | COMMIT | BYE
    | OK | FAILED | ERROR | DATA

  predicate IsLetter(ch: char) {
    'a' <= ch <= 'z' || 'A' <= ch <= 'Z'
  }

  predicate IsWordChar(ch: char) {
    IsLetter(ch) || '0' <= ch <= '9' || ch == '_'
  }

  /** The pattern ^[a-zA-Z][a-zA-Z0-9_]*$ */
  predicate IsIdentifier(s: string) {
    s != "" && IsLetter(s[0]) && forall i :: 0 <= i < |s| ==> IsWordChar(s[i])
  }

  datatype Message = Message(messageType: MessageType, args: seq<string>) {
    predicate Valid() {
      match messageType
      case LOGIN | PUSH => |args| == 1
      case CREATE => |args| == 1 && IsIdentifier(args[0])
      case SET | GET => |args| == 2 && IsIdentifier(args[0]) && args[1] != ""
      case DATA => |args| == 1 && args[0] != ""
      case FAILED | ERROR => args != [] && args[0] != ""
      case _ => true
    }

    function Username(): string {
      if messageType == LOGIN && args != [] then args[0] else ""
    }

    function Table(): string {
      if messageType in {CREATE, SET, GET} && |args| >= 1 then args[0] else ""
    }

    function Key(): string {
      if messageType in {SET, GET} && |args| >= 2 then args[1] else ""
    }
  }

  /** The mutable Message object that decode fills in. */
  class MessageObject {
    var messageType: MessageType
    var args: seq<string>

    constructor ()
      ensures Contents() == Message(NONE, [])
    {
      messageType, args := NONE, [];
    }

    function Contents(): Message
      reads this
    {
      Message(messageType, args)
    }

    method SetMessageType(t: MessageType)
      modifies this
      ensures Contents() == old(Contents()).(messageType := t)
    {
      messageType := t;
    }

    method PushArg(arg: string)
      modifies this
      ensures Contents() == old(Contents()).(args := old(args) + [arg])
    {
      args := args + [arg];
    }

    method ClearArgs()
      modifies this
      ensures Contents() == old(Contents()).(args := [])
    {
      args := [];
    }
  }

  /** is_valid_username: accepts exactly the identifiers. */
  method IsValidUsername(username: string) returns (valid: bool)
    ensures valid == IsIdentifier(username)
  {
    if username == "" || !IsLetter(username[0]) {
      return false;
    }
    for i := 0 to |username|
      invariant forall k :: 0 <= k < i ==> IsWordChar(username[k])
    {
      if !IsWordChar(username[i]) {
        return false;
      }
    }
    return true;
  }
}
