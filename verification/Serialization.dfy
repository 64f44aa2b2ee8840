/** The wire format (message_serialization.cpp): a printer and a tokenizing
    parser over a string stream. */
module Serialization {
  import opened Numerals
  import opened Messages

  datatype CodecError = NoNewline | TooLong | InvalidMessage
  datatype Result<+T> = Ok(value: T) | Err(error: CodecError)

  function TypeName(t: MessageType): string {
    match t
    case NONE => "NONE"
    case LOGIN => "LOGIN"
    case CREATE => "CREATE"
    case PUSH => "PUSH"
    case POP => "POP"
    case TOP => "TOP"
    case SET => "SET"
    case GET => "GET"
    case ADD => "ADD"
    case SUB => "SUB"
    case MUL => "MUL"
    case DIV => "DIV"
    case BEGIN => "BEGIN"
    case COMMIT => "COMMIT"
    case BYE => "BYE"
    case OK => "OK"
    case FAILED => "FAILED"
    case ERROR => "ERROR"
    case DATA => "DATA"
  }

  function TypeOf(name: string): MessageType {
    if name == "LOGIN" then LOGIN
    else if name == "CREATE" then CREATE
    else if name == "PUSH" then PUSH
    else if name == "POP" then POP
    else if name == "TOP" then TOP
    else if name == "SET" then SET
    else if name == "GET" then GET
    else if name == "ADD" then ADD
    else if name == "SUB" then SUB
    else if name == "MUL" then MUL
    else if name == "DIV" then DIV
    else if name == "BEGIN" then BEGIN
    else if name == "COMMIT" then COMMIT
    else if name == "BYE" then BYE
    else if name == "OK" then OK
    else if name == "FAILED" then FAILED
    else if name == "ERROR" then ERROR
    else if name == "DATA" then DATA
    else NONE
  }

  // ----- The printer -----

  function ArgText(args: seq<string>): string {
    if args == [] then "" else " " + args[0] + ArgText(args[1..])
  }

  function Encoded(m: Message): string {
    TypeName(m.messageType) + ArgText(m.args) + "\n"
  }

  method Encode(msg: Message) returns (r: Result<string>)
    ensures r == if |Encoded(msg)| <= MAX_ENCODED_LEN then Ok(Encoded(msg)) else Err(TooLong)
  {
    var stream := TypeName(msg.messageType);
    for i := 0 to |msg.args|
      invariant stream + ArgText(msg.args[i..]) == TypeName(msg.messageType) + ArgText(msg.args)
    {
      assert msg.args[i..][1..] == msg.args[i + 1..];
      assert stream + (" " + msg.args[i] + ArgText(msg.args[i + 1..]))
          == stream + " " + msg.args[i] + ArgText(msg.args[i + 1..]);
      stream := stream + " " + msg.args[i];
    }
    stream := stream + "\n";
    assert stream == Encoded(msg);
    return if |stream| > MAX_ENCODED_LEN then Err(TooLong) else Ok(stream);
  }

  // ----- The parser -----

  function TakeWord(s: string): string {
    if s == "" || IsSpace(s[0]) then "" else [s[0]] + TakeWord(s[1..])
  }

  function DropWord(s: string): (r: string)
    ensures |r| <= |s|
    ensures s != "" && !IsSpace(s[0]) ==> |r| < |s|
  {
    if s == "" || IsSpace(s[0]) then s else DropWord(s[1..])
  }

  function Before(s: string, delim: char): string {
    if s == "" || s[0] == delim then "" else [s[0]] + Before(s[1..], delim)
  }

  function After(s: string, delim: char): string {
    if s == "" then "" else if s[0] == delim then s[1..] else After(s[1..], delim)
  }

  /** The whitespace-separated words of s, which is what >> yields until it fails. */
  function Words(s: string): seq<string>
    decreases |s|
  {
    var t := SkipSpaces(s);
    SkipSpacesShortens(s);
    if t == "" then [] else [TakeWord(t)] + Words(DropWord(t))
  }

  lemma {:induction false} SkipSpacesShortens(s: string)
    ensures |SkipSpaces(s)| <= |s|
    ensures SkipSpaces(s) != "" ==> !IsSpace(SkipSpaces(s)[0])
  {
    if s != "" && IsSpace(s[0]) { SkipSpacesShortens(s[1..]); }
  }

  predicate StartsWith(s: string, ch: char) {
    s != "" && s[0] == ch
  }

  /** The arguments read from the text after the command word. */
  function ParsedArgs(rest: string): seq<string> {
    var body := if StartsWith(rest, ' ') then rest[1..] else rest;
    if StartsWith(body, '\"') then [Before(body[1..], '\"')] else Words(body)
  }

  function Parsed(s: string): Message {
    var t := SkipSpaces(s);
    Message(TypeOf(TakeWord(t)), ParsedArgs(DropWord(t)))
  }

  function Decoded(s: string): Result<Message> {
    if s == "" || s[|s| - 1] != '\n' then Err(NoNewline)
    else if |s| > MAX_ENCODED_LEN then Err(TooLong)
    else if Parsed(s).Valid() then Ok(Parsed(s))
    else Err(InvalidMessage)
  }

  /** The part of std::istringstream that decode uses; `rest` is what is unread.
      Peek on an exhausted stream is EOF, modelled by StartsWith being false. */
  class InputStream {
    var rest: string

    constructor (text: string)
      ensures rest == text
    {
      rest := text;
    }

    /** ss >> word: fails, leaving nothing, when only blanks remain. */
    method Extract() returns (ok: bool, word: string)
      modifies this
      ensures word == TakeWord(SkipSpaces(old(rest))) && ok == (word != "")
      ensures rest == DropWord(SkipSpaces(old(rest)))
      ensures ok == (SkipSpaces(old(rest)) != "")
      ensures |rest| <= |old(rest)| && (ok ==> |rest| < |old(rest)|)
    {
      SkipSpacesShortens(rest);
      while rest != "" && IsSpace(rest[0])
        invariant SkipSpaces(rest) == SkipSpaces(old(rest)) && |rest| <= |old(rest)|
        decreases |rest|
      {
        rest := rest[1..];
      }
      word := "";
      ghost var start := rest;
      while rest != "" && !IsSpace(rest[0])
        invariant word + TakeWord(rest) == TakeWord(start)
        invariant DropWord(rest) == DropWord(start)
        invariant |word| + |rest| == |start|
        decreases |rest|
      {
        assert word + ([rest[0]] + TakeWord(rest[1..])) == word + [rest[0]] + TakeWord(rest[1..]);
        word := word + [rest[0]];
        rest := rest[1..];
      }
      assert word == TakeWord(start);
      ok := word != "";
    }

    /** ss.get() or ss.ignore() */
    method Skip()
      modifies this
      ensures rest == if old(rest) == "" then "" else old(rest)[1..]
    {
      if rest != "" {
        rest := rest[1..];
      }
    }

    /** std::getline(ss, line, delim) */
    method GetLine(delim: char) returns (line: string)
      modifies this
      ensures line == Before(old(rest), delim) && rest == After(old(rest), delim)
    {
      line := "";
      while rest != "" && rest[0] != delim
        invariant line + Before(rest, delim) == Before(old(rest), delim)
        invariant After(rest, delim) == After(old(rest), delim)
        decreases |rest|
      {
        assert line + ([rest[0]] + Before(rest[1..], delim)) == line + [rest[0]] + Before(rest[1..], delim);
        line := line + [rest[0]];
        rest := rest[1..];
      }
      assert line == Before(old(rest), delim);
      if rest != "" {
        rest := rest[1..];
      }
    }
  }

  /** while (ss >> arg) msg.push_arg(arg); */
  method PushWords(ss: InputStream, msg: MessageObject)
    modifies ss, msg
    ensures msg.Contents() == old(msg.Contents()).(args := old(msg.args) + Words(old(ss.rest)))
  {
    ghost var before, text := msg.args, ss.rest;
    var ok, arg := ss.Extract();
    while ok
      invariant ok ==> arg != "" && msg.args + ([arg] + Words(ss.rest)) == before + Words(text)
      invariant !ok ==> msg.args == before + Words(text)
      invariant msg.messageType == old(msg.messageType)
      decreases |ss.rest| + (if ok then 1 else 0)
    {
      ghost var args, rest := msg.args + [arg], ss.rest;
      assert msg.args + ([arg] + Words(rest)) == args + Words(rest);
      msg.PushArg(arg);
      ok, arg := ss.Extract();
      assert Words(rest) == if ok then [arg] + Words(ss.rest) else [];
    }
  }

  /** decode: fills msg in, also when it then reports the message as invalid. */
  method Decode(encoded: string, msg: MessageObject) returns (r: Result<Message>)
    modifies msg
    ensures r == Decoded(encoded)
    ensures r.Err? && r.error != InvalidMessage ==> msg.Contents() == old(msg.Contents())
    ensures r.Ok? || r.error == InvalidMessage ==> msg.Contents() == Parsed(encoded)
  {
    if encoded == "" || encoded[|encoded| - 1] != '\n' {
      return Err(NoNewline);
    }
    if |encoded| > MAX_ENCODED_LEN {
      return Err(TooLong);
    }
    msg.ClearArgs();
    var ss := new InputStream(encoded);
    var ok, name := ss.Extract();
    msg.SetMessageType(TypeOf(name));
    ghost var rest := ss.rest;
    if StartsWith(ss.rest, ' ') {
      ss.Skip();
    }
    if StartsWith(ss.rest, '\"') {
      ss.Skip();
      var arg := ss.GetLine('\"');
      msg.PushArg(arg);
      arg := ss.GetLine('\n');
      assert msg.args == ParsedArgs(rest);
    } else {
      PushWords(ss, msg);
      assert msg.args == ParsedArgs(rest);
    }
    assert msg.Contents() == Parsed(encoded);
    return if msg.Contents().Valid() then Ok(msg.Contents()) else Err(InvalidMessage);
  }

  // ----- Words and printing -----

  /** A word: non-empty and free of whitespace. */
  predicate IsWord(w: string) {
    w != "" && forall i :: 0 <= i < |w| ==> !IsSpace(w[i])
  }

  function AllWords(args: seq<string>): seq<string> {
    if args == [] then [] else Words(args[0]) + AllWords(args[1..])
  }

  lemma {:induction false} TakeWordStops(w: string, rest: string)
    requires forall i :: 0 <= i < |w| ==> !IsSpace(w[i])
    requires rest == "" || IsSpace(rest[0])
    ensures TakeWord(w + rest) == w && DropWord(w + rest) == rest
  {
    if w == "" {
      assert w + rest == rest;
    } else {
      assert (w + rest)[1..] == w[1..] + rest;
      TakeWordStops(w[1..], rest);
    }
  }

  lemma {:induction false} TakeDropWord(s: string)
    ensures s == TakeWord(s) + DropWord(s)
    ensures forall i :: 0 <= i < |TakeWord(s)| ==> !IsSpace(TakeWord(s)[i])
    ensures DropWord(s) == "" || IsSpace(DropWord(s)[0])
  {
    if s != "" && !IsSpace(s[0]) { TakeDropWord(s[1..]); }
  }

  lemma WordsAfterWord(w: string, rest: string)
    requires IsWord(w) && (rest == "" || IsSpace(rest[0]))
    ensures Words(w + rest) == [w] + Words(rest)
  {
    TakeWordStops(w, rest);
    assert (w + rest)[0] == w[0];
  }

  lemma WordsAfterBlank(blank: char, s: string)
    requires IsSpace(blank)
    ensures Words([blank] + s) == Words(s)
  {
    assert ([blank] + s)[1..] == s;
  }

  lemma NoWords()
    ensures Words("") == []
  {
  }

  /** A blank between two texts separates their words. */
  lemma {:induction false} WordsSplit(a: string, sp: char, b: string)
    requires IsSpace(sp)
    ensures Words(a + [sp] + b) == Words(a) + Words(b)
    decreases |a|
  {
    hide Words;
    if a == "" {
      NoWords();
      assert a + [sp] + b == [sp] + b && Words(a) + Words(b) == Words(b);
      WordsAfterBlank(sp, b);
    } else if IsSpace(a[0]) {
      assert a + [sp] + b == [a[0]] + (a[1..] + [sp] + b);
      WordsSplit(a[1..], sp, b);
      WordsAfterBlank(a[0], a[1..] + [sp] + b);
      assert a == [a[0]] + a[1..];
      WordsAfterBlank(a[0], a[1..]);
    } else {
      var w, rest := TakeWord(a), DropWord(a);
      TakeDropWord(a);
      WordsSplit(rest, sp, b);
      WordsAfterWord(w, rest);
      assert a + [sp] + b == w + (rest + [sp] + b);
      WordsAfterWord(w, rest + [sp] + b);
      assert [w] + (Words(rest) + Words(b)) == [w] + Words(rest) + Words(b);
    }
  }

  lemma {:induction false} WordsOfArgText(args: seq<string>)
    ensures Words(ArgText(args)) == AllWords(args)
  {
    hide Words;
    NoWords();
    if args != [] {
      var rest := ArgText(args[1..]);
      WordsOfArgText(args[1..]);
      WordsAfterBlank(' ', args[0] + rest);
      assert ArgText(args) == [' '] + (args[0] + rest);
      if rest == "" {
        assert args[0] + rest == args[0] && Words(args[0]) + [] == Words(args[0]);
      } else {
        assert args[0] + rest == args[0] + [' '] + rest[1..];
        WordsSplit(args[0], ' ', rest[1..]);
        assert rest == [' '] + rest[1..];
        WordsAfterBlank(' ', rest[1..]);
      }
    }
  }

  lemma {:induction false} WordsOfWord(w: string)
    requires IsWord(w)
    ensures Words(w) == [w]
  {
    assert w + "" == w;
    WordsAfterWord(w, "");
  }

  lemma {:induction false} WordsAreWords(s: string)
    ensures forall i :: 0 <= i < |Words(s)| ==> IsWord(Words(s)[i])
    decreases |s|
  {
    var t := SkipSpaces(s);
    SkipSpacesShortens(s);
    if t != "" {
      TakeDropWord(t);
      WordsAreWords(DropWord(t));
    }
  }

  lemma {:induction false} AllWordsFixed(args: seq<string>)
    requires forall i :: 0 <= i < |args| ==> IsWord(args[i])
    ensures AllWords(args) == args
  {
    if args != [] {
      WordsOfWord(args[0]);
      AllWordsFixed(args[1..]);
    }
  }

  lemma {:induction false} AllWordsAreWords(args: seq<string>)
    ensures forall i :: 0 <= i < |AllWords(args)| ==> IsWord(AllWords(args)[i])
  {
    if args != [] {
      WordsAreWords(args[0]);
      AllWordsAreWords(args[1..]);
    }
  }

  /** Printing the words of a text that starts with a blank never makes it longer. */
  lemma {:induction false} ReprintShortens(s: string)
    requires s == "" || IsSpace(s[0])
    ensures |ArgText(Words(s))| <= |s|
    decreases |s|
  {
    var t := SkipSpaces(s);
    SkipSpacesShortens(s);
    if t != "" {
      var w, rest := TakeWord(t), DropWord(t);
      TakeDropWord(t);
      ReprintShortens(rest);
      assert Words(s)[1..] == Words(rest);
      assert |t| < |s| by { SkipSpacesShortens(s[1..]); }
    }
  }

  lemma TypeNameIsWord(t: MessageType)
    ensures IsWord(TypeName(t)) && !IsSpace(TypeName(t)[0])
    ensures TypeOf(TypeName(t)) == t
  {
    hide TypeOf;
    TypeOfTypeName(t);
  }

  lemma TypeOfTypeName(t: MessageType)
    ensures TypeOf(TypeName(t)) == t
  {
    if t in {LOGIN, CREATE, PUSH, POP, TOP, SET} {
    } else if t in {GET, ADD, SUB, MUL, DIV, BEGIN} {
    }
  }

  /** The two tables are inverse to each other, on the types and on the known names. */
  lemma NamesInvert(t: MessageType, name: string)
    ensures TypeOf(TypeName(t)) == t
    ensures TypeName(TypeOf(name)) == name <==> TypeOf(name) != NONE || name == "NONE"
  {
    hide TypeOf;
    TypeOfTypeName(t);
    KnownNames(name);
    TypeOfTypeName(TypeOf(name));
  }

  // ----- What decode makes of a printed message -----

  predicate QuoteFree(args: seq<string>) {
    args != [] ==> !StartsWith(args[0], '\"')
  }

  lemma ParsedOfEncoded(m: Message)
    ensures Parsed(Encoded(m)) == Message(m.messageType, ParsedArgs(ArgText(m.args) + "\n"))
  {
    var name, rest := TypeName(m.messageType), ArgText(m.args) + "\n";
    TypeNameIsWord(m.messageType);
    assert Encoded(m) == name + rest;
    assert IsSpace(rest[0]);
    TakeWordStops(name, rest);
  }

  lemma ParsedArgsOfArgText(args: seq<string>)
    requires QuoteFree(args)
    ensures ParsedArgs(ArgText(args) + "\n") == AllWords(args)
  {
    var rest := ArgText(args) + "\n";
    assert rest == ArgText(args) + ['\n'] + "";
    WordsSplit(ArgText(args), '\n', "");
    WordsOfArgText(args);
    assert AllWords(args) + Words("") == AllWords(args);
    if args != [] {
      assert rest == [' '] + rest[1..];
      WordsAfterBlank(' ', rest[1..]);
      FirstArgByte(args);
    }
  }

  /** The byte after the first blank is a quote only if an argument starts with it. */
  lemma FirstArgByte(args: seq<string>)
    requires args != []
    ensures var body := (ArgText(args) + "\n")[1..];
            body != "" && body[0] == if args[0] != "" then args[0][0] else if |args| > 1 then ' ' else '\n'
  {
    if args[0] == "" && |args| > 1 {
      assert ArgText(args) == " " + "" + (" " + args[1] + ArgText(args[1..][1..]));
    }
  }

  /** decode after encode re-tokenizes: it succeeds exactly when the message made
      of the words of the arguments is valid, and then yields that message. */
  lemma DecodeOfEncode(m: Message)
    requires |Encoded(m)| <= MAX_ENCODED_LEN && QuoteFree(m.args)
    ensures var r := Message(m.messageType, AllWords(m.args));
            Decoded(Encoded(m)) == if r.Valid() then Ok(r) else Err(InvalidMessage)
  {
    ParsedOfEncoded(m);
    ParsedArgsOfArgText(m.args);
  }

  predicate Printable(args: seq<string>) {
    QuoteFree(args) && forall i :: 0 <= i < |args| ==> IsWord(args[i])
  }

  /** Which valid messages survive the wire unchanged: exactly those whose
      arguments are all words, the first not starting with a quote. */
  lemma RoundTrip(m: Message)
    requires |Encoded(m)| <= MAX_ENCODED_LEN && m.Valid()
    ensures Decoded(Encoded(m)) == Ok(m) <==> Printable(m.args)
  {
    if QuoteFree(m.args) {
      DecodeOfEncode(m);
      AllWordsAreWords(m.args);
      if Printable(m.args) { AllWordsFixed(m.args); }
    } else {
      ParsedOfEncoded(m);
      var rest := ArgText(m.args) + "\n";
      assert rest[1..][0] == m.args[0][0];
      BeforeHasNoDelim(rest[1..][1..], '\"');
      assert !StartsWith(ParsedArgs(rest)[0], '\"');
    }
  }

  lemma {:induction false} BeforeHasNoDelim(s: string, delim: char)
    ensures delim !in Before(s, delim)
  {
    if s != "" && s[0] != delim { BeforeHasNoDelim(s[1..], delim); }
  }

  /** Reprinting an accepted line with a known command: the canonical form is
      never longer than the line, and it stands for the same message exactly when
      the arguments are printable, whatever blanks the line used. */
  lemma CanonicalForm(s: string)
    requires Decoded(s).Ok? && Decoded(s).value.messageType != NONE
    ensures var m := Decoded(s).value;
            && |Encoded(m)| <= |s|
            && (Decoded(Encoded(m)) == Ok(m) <==> Printable(m.args))
  {
    var m := Decoded(s).value;
    var t := SkipSpaces(s);
    SkipSpacesShortens(s);
    TakeDropWord(t);
    KnownNames(TakeWord(t));
    EndsInNewline(s, DropWord(t));
    ReprintedArgsLength(DropWord(t));
    RoundTrip(m);
  }

  lemma ReprintedArgsLength(rest: string)
    requires rest != "" && IsSpace(rest[0]) && rest[|rest| - 1] == '\n'
    ensures |ArgText(ParsedArgs(rest))| + 1 <= |rest|
  {
    if rest[0] == ' ' && StartsWith(rest[1..], '\"') {
      var arg := Before(rest[1..][1..], '\"');
      BeforeIsPrefix(rest[1..][1..], '\"');
      assert ArgText([arg]) == " " + arg + ArgText([]);
    } else {
      var front := rest[..|rest| - 1];
      assert rest == front + ['\n'] + "";
      WordsSplit(front, '\n', "");
      assert front != "" ==> front[0] == rest[0];
      ReprintShortens(front);
      assert rest == [rest[0]] + rest[1..];
      WordsAfterBlank(rest[0], rest[1..]);
      assert Words(front) + Words("") == Words(front);
      assert ParsedArgs(rest) == Words(front);
    }
  }

  lemma KnownNames(name: string)
    ensures TypeOf(name) != NONE ==> TypeName(TypeOf(name)) == name
  {
    var t := TypeOf(name);
    if t in {LOGIN, CREATE, PUSH, POP, TOP, SET} {
    } else if t in {GET, ADD, SUB, MUL, DIV, BEGIN} {
    }
  }

  lemma {:induction false} SkipSpacesIsSuffix(s: string)
    ensures |SkipSpaces(s)| <= |s| && SkipSpaces(s) == s[|s| - |SkipSpaces(s)|..]
  {
    if s != "" && IsSpace(s[0]) { SkipSpacesIsSuffix(s[1..]); }
  }

  lemma EndsInNewline(s: string, rest: string)
    requires s != "" && s[|s| - 1] == '\n'
    requires var t := SkipSpaces(s); t != "" && rest == DropWord(t)
    ensures rest != "" && IsSpace(rest[0]) && rest[|rest| - 1] == '\n'
  {
    var t := SkipSpaces(s);
    SkipSpacesIsSuffix(s);
    TakeDropWord(t);
    assert t[|t| - 1] == '\n';
    assert TakeWord(t) + "" == TakeWord(t);
  }

  lemma {:induction false} BeforeIsPrefix(s: string, delim: char)
    ensures Before(s, delim) <= s
    ensures delim !in s ==> Before(s, delim) == s
  {
    if s != "" && s[0] != delim { BeforeIsPrefix(s[1..], delim); }
  }
}
