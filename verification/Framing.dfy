/** Messages over the buffered stream: read_message, and the request loop of
    chat_with_client (client_connection.cpp). */
module Framing {
  import opened Messages
  import opened Serialization
  import opened Rio

  datatype Received =
    | Got(m: Message)
    | Disconnected
    | ReadFailed
    | Rejected(error: CodecError)

  /** The longest line read_message can take: its buffer less the terminator. */
  const MAX_LINE: nat := MAX_ENCODED_LEN - 1

  /** std::string(buf) for a buffer holding these bytes and a terminator. */
  function CText(bytes: string): string {
    Before(bytes, '\0')
  }

  /** What read_message makes of the stream ahead. */
  function ReceivedFrom(stream: string): Received {
    if stream == "" then Disconnected
    else match Decoded(CText(Line(stream, MAX_LINE)))
      case Ok(m) => Got(m)
      case Err(e) => Rejected(e)
  }

  function Unread(stream: string): string {
    stream[|Line(stream, MAX_LINE)|..]
  }

  /** std::string(buf), for a terminator no later than n */
  method StringOf(buf: array<char>, ghost n: nat) returns (text: string)
    requires n < buf.Length && buf[n] == '\0'
    ensures text == CText(buf[..n])
  {
    text := "";
    var i := 0;
    while buf[i] != '\0'
      invariant i <= n && text + CText(buf[i..n]) == CText(buf[..n])
      decreases n - i
    {
      assert buf[i..n] == [buf[i]] + buf[i + 1..n];
      assert text + ([buf[i]] + CText(buf[i + 1..n])) == text + [buf[i]] + CText(buf[i + 1..n]);
      text := text + [buf[i]];
      i := i + 1;
    }
    if i < n { assert buf[i..n][0] == '\0'; }
  }

  method ReadMessage(rp: Reader) returns (r: Received)
    requires rp.Valid()
    modifies rp, rp.fd, rp.buf
    ensures rp.Valid()
    ensures Failure !in old(rp.fd.script) ==> r != ReadFailed
    ensures r != ReadFailed ==> r == ReceivedFrom(old(rp.Pending())) && rp.Pending() == Unread(old(rp.Pending()))
    ensures |rp.Pending()| <= |old(rp.Pending())|
    ensures Failure in rp.fd.script ==> Failure in old(rp.fd.script)
  {
    var result, text := ReadText(rp);
    if result <= 0 {
      return if result == 0 then Disconnected else ReadFailed;
    }
    var msg := new MessageObject();
    var decoded := Decode(text, msg);
    return match decoded case Ok(m) => Got(m) case Err(e) => Rejected(e);
  }

  /** The reading half of read_message: one line, as a C string. */
  method ReadText(rp: Reader) returns (result: int, text: string)
    requires rp.Valid()
    modifies rp, rp.fd, rp.buf
    ensures rp.Valid()
    ensures Failure !in old(rp.fd.script) ==> result >= 0
    ensures result >= 0 ==> rp.Pending() == Unread(old(rp.Pending()))
    ensures result == 0 <==> result >= 0 && old(rp.Pending()) == ""
    ensures result > 0 ==> text == CText(Line(old(rp.Pending()), MAX_LINE))
    ensures |rp.Pending()| <= |old(rp.Pending())|
    ensures Failure in rp.fd.script ==> Failure in old(rp.fd.script)
  {
    var buf := new char[MAX_ENCODED_LEN];
    result := rp.RioReadlineb(buf, MAX_ENCODED_LEN);
    text := "";
    if result > 0 {
      text := StringOf(buf, result);
    }
  }

  // ----- The request loop -----

  datatype Ending = Bye | Stopped(why: Received) | NotLogin | BadLogin

  /** The requests of a session up to BYE, or up to the first failed read. */
  function Requests(stream: string): (seq<Message>, Ending)
    decreases |stream|
  {
    var r := ReceivedFrom(stream);
    if !r.Got? then ([], Stopped(r))
    else if r.m.messageType == BYE then ([], Bye)
    else
      assert |Line(stream, MAX_LINE)| > 0;
      var (later, end) := Requests(Unread(stream));
      ([r.m] + later, end)
  }

  /** while ((request = read_message()), request.get_message_type() != BYE):
      the requests handled do not depend on how the bytes arrived. */
  method ServeRequests(rp: Reader) returns (requests: seq<Message>, end: Ending)
    requires rp.Valid()
    modifies rp, rp.fd, rp.buf
    ensures Failure !in old(rp.fd.script) ==> end != Stopped(ReadFailed)
    ensures end != Stopped(ReadFailed) ==> (requests, end) == Requests(old(rp.Pending()))
    ensures end == Stopped(ReadFailed) ==> requests <= Requests(old(rp.Pending())).0
  {
    ghost var whole := Requests(rp.Pending());
    requests := [];
    RequestsStep([], rp.Pending());
    var request := ReadMessage(rp);
    while request.Got? && request.m.messageType != BYE
      invariant rp.Valid()
      invariant request.Got? ==> whole == Joined(requests, request.m, rp.Pending())
      invariant !request.Got? && request != ReadFailed ==> whole == (requests, Stopped(request))
      invariant request == ReadFailed ==> requests <= whole.0
      invariant request == ReadFailed ==> Failure in old(rp.fd.script)
      invariant Failure in rp.fd.script ==> Failure in old(rp.fd.script)
      decreases |rp.Pending()| + (if request.Got? then 1 else 0)
    {
      requests := requests + [request.m];
      RequestsStep(requests, rp.Pending());
      request := ReadMessage(rp);
    }
    end := if request.Got? then Bye else Stopped(request);
  }

  function After(requests: seq<Message>, r: (seq<Message>, Ending)): (seq<Message>, Ending) {
    (requests + r.0, r.1)
  }

  /** The outcome when `requests` are handled, m was just read and `stream` is ahead. */
  function Joined(requests: seq<Message>, m: Message, stream: string): (seq<Message>, Ending) {
    if m.messageType == BYE then (requests, Bye) else After(requests + [m], Requests(stream))
  }

  lemma RequestsStep(requests: seq<Message>, stream: string)
    ensures var r := ReceivedFrom(stream);
            After(requests, Requests(stream)) ==
            if r.Got? then Joined(requests, r.m, Unread(stream)) else (requests, Stopped(r))
    ensures After([], Requests(stream)) == Requests(stream)
    ensures ReceivedFrom(stream).Got? ==> |Unread(stream)| < |stream|
  {
    assert [] + Requests(stream).0 == Requests(stream).0;
    assert requests + [] == requests;
    var r := ReceivedFrom(stream);
    if r.Got? {
      var later := Requests(Unread(stream)).0;
      assert requests + ([r.m] + later) == requests + [r.m] + later;
    }
  }

  /** A session: the first request must be a LOGIN with a valid user name. */
  function Session(stream: string): (seq<Message>, Ending) {
    var r := ReceivedFrom(stream);
    if !r.Got? then ([], Stopped(r))
    else if r.m.messageType != LOGIN then ([], NotLogin)
    else if !IsIdentifier(r.m.Username()) then ([], BadLogin)
    else Requests(Unread(stream))
  }

  /** chat_with_client */
  method ChatWithClient(rp: Reader) returns (requests: seq<Message>, end: Ending)
    requires rp.Valid()
    modifies rp, rp.fd, rp.buf
    ensures Failure !in old(rp.fd.script) ==> end != Stopped(ReadFailed)
    ensures end != Stopped(ReadFailed) ==> (requests, end) == Session(old(rp.Pending()))
    ensures end == Stopped(ReadFailed) ==> requests <= Session(old(rp.Pending())).0
  {
    hide Requests;
    var request := ReadMessage(rp);
    if !request.Got? {
      return [], Stopped(request);
    }
    if request.m.messageType != LOGIN {
      return [], NotLogin;
    }
    var valid := IsValidUsername(request.m.Username());
    if !valid {
      return [], BadLogin;
    }
    requests, end := ServeRequests(rp);
  }

  // ----- Framing -----

  lemma {:induction false} LineExact(front: string, rest: string, max: nat)
    requires front != "" && front[|front| - 1] == '\n' && |front| <= max
    requires forall i :: 0 <= i < |front| - 1 ==> front[i] != '\n'
    ensures Line(front + rest, max) == front
  {
    assert (front + rest)[1..] == front[1..] + rest;
    if front[0] != '\n' {
      LineExact(front[1..], rest, max - 1);
    }
  }

  lemma {:induction false} LineShape(s: string, max: nat)
    ensures var line := Line(s, max); forall i :: 0 <= i < |line| - 1 ==> line[i] != '\n'
  {
    if s != "" && max != 0 && s[0] != '\n' {
      LineShape(s[1..], max - 1);
      assert Line(s, max)[1..] == Line(s[1..], max - 1);
    }
  }

  predicate NulFree(args: seq<string>) {
    forall i :: 0 <= i < |args| ==> '\0' !in args[i]
  }

  /** A message the peer can read back: what read_message needs of it. */
  predicate Sendable(m: Message) {
    m.Valid() && Printable(m.args) && NulFree(m.args) && |Encoded(m)| <= MAX_LINE
  }

  lemma {:induction false} ArgTextBytes(args: seq<string>, bad: char)
    requires bad != ' ' && forall i :: 0 <= i < |args| ==> bad !in args[i]
    ensures bad !in ArgText(args)
  {
    if args != [] { ArgTextBytes(args[1..], bad); }
  }

  lemma {:induction false} ArgTextKeeps(args: seq<string>, bad: char, i: nat)
    requires i < |args| && bad in args[i]
    ensures bad in ArgText(args)
  {
    if i > 0 { ArgTextKeeps(args[1..], bad, i - 1); }
  }

  lemma TypeNameBytes(t: MessageType)
    ensures '\0' !in TypeName(t)
  {
  }

  lemma EncodedHasOneNewline(m: Message)
    requires Printable(m.args)
    ensures var e := Encoded(m);
            e != "" && e[|e| - 1] == '\n' && forall i :: 0 <= i < |e| - 1 ==> e[i] != '\n'
  {
    TypeNameIsWord(m.messageType);
    ArgTextBytes(m.args, '\n');
  }

  lemma EncodedNul(m: Message)
    ensures '\0' in Encoded(m) <==> !NulFree(m.args)
  {
    TypeNameBytes(m.messageType);
    if NulFree(m.args) {
      ArgTextBytes(m.args, '\0');
    } else {
      var i :| 0 <= i < |m.args| && '\0' in m.args[i];
      ArgTextKeeps(m.args, '\0', i);
    }
  }

  /** Which encodable messages the server receives as sent, whatever follows them
      on the wire. encode and decode allow 1024 bytes, the reader only 1023. */
  lemma ReceivedExactly(m: Message, rest: string)
    requires m.Valid() && |Encoded(m)| <= MAX_ENCODED_LEN
    ensures ReceivedFrom(Encoded(m) + rest) == Got(m) <==> Sendable(m)
    ensures Sendable(m) ==> Unread(Encoded(m) + rest) == rest
  {
    var stream := Encoded(m) + rest;
    if Sendable(m) {
      EncodedHasOneNewline(m);
      LineExact(Encoded(m), rest, MAX_LINE);
      EncodedNul(m);
      BeforeIsPrefix(Encoded(m), '\0');
      RoundTrip(m);
    } else if ReceivedFrom(stream) == Got(m) {
      AcceptedLine(stream);
      ReceivedArePrintable(m, rest, Line(stream, MAX_LINE));
      EncodedHasOneNewline(m);
      WholeEncoding(Encoded(m), rest);
      EncodedNul(m);
      assert false;
    }
  }

  /** Any line within the limit and without NULs is decoded as it stands, whatever follows
      it; a stream that ends within a line is rejected, and an empty one is the end. */
  lemma RawLines(line: string, rest: string)
    requires line != "" && '\n' !in line[..|line| - 1] && '\0' !in line && |line| <= 1023
    ensures line[|line| - 1] == '\n' ==>
              Unread(line + rest) == rest &&
              ReceivedFrom(line + rest) == match Decoded(line) case Ok(m) => Got(m) case Err(e) => Rejected(e)
    ensures line[|line| - 1] != '\n' ==> ReceivedFrom(line) == Rejected(NoNewline) && Unread(line) == ""
    ensures ReceivedFrom("") == Disconnected
  {
    hide Decoded;
    if line[|line| - 1] == '\n' {
      forall i | 0 <= i < |line| - 1 ensures line[i] != '\n' { assert line[..|line| - 1][i] == line[i]; }
      LineExact(line, rest, MAX_LINE);
      NulFreeText(line);
    } else {
      UnfinishedIsRejected(line);
    }
  }

  lemma UnfinishedIsRejected(s: string)
    requires s != "" && '\n' !in s[..|s| - 1] && s[|s| - 1] != '\n' && '\0' !in s && |s| <= MAX_LINE
    ensures ReceivedFrom(s) == Rejected(NoNewline) && Unread(s) == ""
  {
    forall i | 0 <= i < |s| ensures s[i] != '\n' {
      if i < |s| - 1 { assert s[..|s| - 1][i] == s[i]; }
    }
    LineLength(s, MAX_LINE, |s|);
    assert Line(s, MAX_LINE) == s;
    NulFreeText(s);
  }

  const LONGEST_WORD := seq(1018, _ => 'a')

  /** The off-by-one at its input: a PUSH of 1018 bytes encodes to exactly 1024, and the
      server takes it for a line that does not end. */
  lemma LongestPushIsLost()
    ensures var m := Message(PUSH, [LONGEST_WORD]);
            m.Valid() && |Encoded(m)| == MAX_ENCODED_LEN && ReceivedFrom(Encoded(m)) == Rejected(NoNewline)
  {
    var m := Message(PUSH, [LONGEST_WORD]);
    assert ArgText(m.args) == " " + LONGEST_WORD + ArgText([]);
    assert Encoded(m) == "PUSH " + LONGEST_WORD + "\n";
    var body := "PUSH " + LONGEST_WORD;
    LineOfBody(body, "\n", MAX_LINE);
    NulFreeText(body);
  }

  /** With no newline in sight a line is as much as fits. */
  lemma {:induction false} LineOfBody(body: string, rest: string, max: nat)
    requires |body| == max && '\n' !in body
    ensures Line(body + rest, max) == body
  {
    if body != "" {
      assert (body + rest)[0] == body[0] && (body + rest)[1..] == body[1..] + rest;
      LineOfBody(body[1..], rest, max - 1);
    }
  }

  lemma NulFreeText(s: string)
    requires '\0' !in s
    ensures CText(s) == s
  {
    BeforeIsPrefix(s, '\0');
  }

  /** An accepted line is complete and holds no NUL. */
  lemma AcceptedLine(stream: string)
    requires ReceivedFrom(stream).Got?
    ensures var line := Line(stream, MAX_LINE);
            && line != "" && line[|line| - 1] == '\n' && '\0' !in line && CText(line) == line
            && Parsed(line) == ReceivedFrom(stream).m
  {
    var line := Line(stream, MAX_LINE);
    LineShape(stream, MAX_LINE);
    BeforeIsPrefix(line, '\0');
    BeforeHasNoDelim(line, '\0');
    var text := CText(line);
    assert text[|text| - 1] == '\n' && text[|text| - 1] == line[|text| - 1];
  }

  /** A message read from the front of its own encoding had printable arguments. */
  lemma ReceivedArePrintable(m: Message, rest: string, line: string)
    requires line <= Encoded(m) + rest && line != "" && line[|line| - 1] == '\n'
    requires Parsed(line) == m
    ensures Printable(m.args)
  {
    hide ParsedArgs, TypeOf;
    var name, tail := TypeName(m.messageType), ArgText(m.args) + "\n" + rest;
    TypeNameIsWord(m.messageType);
    if m.args != [] {
      assert Encoded(m) + rest == name + tail;
      assert line[|line| - 1] == (name + tail)[|line| - 1];
      assert |line| > |name|;
      var after := line[|name|..];
      PrefixSplits(line, name, tail);
      TakeWordStops(name, after);
      ParsedArgsArePrintable(m.args, rest, after);
    }
  }

  lemma PrefixSplits(line: string, name: string, tail: string)
    requires line <= name + tail && |line| >= |name|
    ensures line == name + line[|name|..] && line[|name|..] <= tail
  {
    assert line == (name + tail)[..|line|];
  }

  lemma ParsedArgsArePrintable(args: seq<string>, rest: string, after: string)
    requires args != [] && after <= ArgText(args) + "\n" + rest
    requires after != "" && after[|after| - 1] == '\n' && ParsedArgs(after) == args
    ensures Printable(args)
  {
    var tail := ArgText(args) + "\n" + rest;
    FirstArgByte(args);
    assert tail[0] == ' ';
    assert |after| >= 2 && after[1] == tail[1];
    if StartsWith(after[1..], '\"') {
      BeforeHasNoDelim(after[1..][1..], '\"');
    }
    WordsAreWords(after[1..]);
  }

  lemma WholeEncoding(e: string, rest: string)
    requires e != "" && e[|e| - 1] == '\n' && forall i :: 0 <= i < |e| - 1 ==> e[i] != '\n'
    requires var line := Line(e + rest, MAX_LINE); line != "" && line[|line| - 1] == '\n'
    ensures Line(e + rest, MAX_LINE) == e
  {
    var line := Line(e + rest, MAX_LINE);
    LineShape(e + rest, MAX_LINE);
    assert line[|line| - 1] == (e + rest)[|line| - 1];
    assert |line| >= |e| && line[|e| - 1] == e[|e| - 1];
  }

  function EncodedAll(ms: seq<Message>): string {
    if ms == [] then "" else Encoded(ms[0]) + EncodedAll(ms[1..])
  }

  /** End to end: the concatenated encodings of sendable messages are read back as
      exactly that list, then end of file; with a BYE, up to the BYE; with anything that
      is no message, up to that. */
  lemma FramingRoundTrip(ms: seq<Message>, bye: Message, rest: string)
    requires forall i :: 0 <= i < |ms| ==> Sendable(ms[i]) && ms[i].messageType != BYE
    requires Sendable(bye) && bye.messageType == BYE
    ensures Requests(EncodedAll(ms)) == (ms, Stopped(Disconnected))
    ensures Requests(EncodedAll(ms) + (Encoded(bye) + rest)) == (ms, Bye)
    ensures !ReceivedFrom(rest).Got? ==> Requests(EncodedAll(ms) + rest) == (ms, Stopped(ReceivedFrom(rest)))
  {
    RequestsOfAll(ms, "");
    RequestsOfAll(ms, rest);
    assert ms + [] == ms;
    assert EncodedAll(ms) + "" == EncodedAll(ms) && ms + [] == ms;
    RequestsOfBye(bye, rest);
    RequestsOfAll(ms, Encoded(bye) + rest);
  }

  lemma {:induction false} RequestsOfAll(ms: seq<Message>, tail: string)
    requires forall i :: 0 <= i < |ms| ==> Sendable(ms[i]) && ms[i].messageType != BYE
    ensures Requests(EncodedAll(ms) + tail) == (ms + Requests(tail).0, Requests(tail).1)
  {
    hide Requests, Sendable, Encoded;
    if ms == [] {
      assert EncodedAll(ms) + tail == tail && ms + Requests(tail).0 == Requests(tail).0;
    } else {
      RequestsOfAll(ms[1..], tail);
      NextRequest(ms[0], EncodedAll(ms[1..]) + tail);
      assert EncodedAll(ms) + tail == Encoded(ms[0]) + (EncodedAll(ms[1..]) + tail);
      assert [ms[0]] + (ms[1..] + Requests(tail).0) == ms + Requests(tail).0;
    }
  }

  lemma RequestsOfBye(bye: Message, rest: string)
    requires Sendable(bye) && bye.messageType == BYE
    ensures Requests(Encoded(bye) + rest) == ([], Bye)
  {
    ReceivedExactly(bye, rest);
  }

  lemma NextRequest(m: Message, later: string)
    requires Sendable(m) && m.messageType != BYE
    ensures Requests(Encoded(m) + later) == ([m] + Requests(later).0, Requests(later).1)
  {
    ReceivedExactly(m, later);
  }

  /** A session that opens with a LOGIN of a valid user name gets as far as its requests;
      one that opens with anything else serves none. */
  lemma SessionRoundTrip(first: Message, later: string)
    requires Sendable(first)
    ensures first.messageType == LOGIN && IsIdentifier(first.args[0]) ==>
              Session(Encoded(first) + later) == Requests(later)
    ensures first.messageType == LOGIN && !IsIdentifier(first.args[0]) ==>
              Session(Encoded(first) + later) == ([], BadLogin)
    ensures first.messageType != LOGIN ==> Session(Encoded(first) + later) == ([], NotLogin)
  {
    hide Requests;
    ReceivedExactly(first, later);
  }

  /** Sending a LOGIN and a list with rio_writen, and reading them with the server's
      loop, gives the list back, whatever short counts and interruptions happen on both
      sides. */
  method Exchange(login: Message, ms: seq<Message>, sent: Sink, arrival: seq<Event>)
    returns (got: seq<Message>, end: Ending)
    requires sent.written == "" && Failure !in sent.script && Short(0) !in sent.script && Failure !in arrival
    requires Sendable(login) && login.messageType == LOGIN && IsIdentifier(login.Username())
    requires forall i :: 0 <= i < |ms| ==> Sendable(ms[i]) && ms[i].messageType != BYE
    modifies sent
    ensures got == ms && end == Stopped(Disconnected)
  {
    hide Requests, Session, Encoded;
    SendAll([login] + ms, sent);
    assert sent.written == Encoded(login) + EncodedAll(ms) by {
      assert ([login] + ms)[1..] == ms;
      assert sent.written == "" + EncodedAll([login] + ms);
    }
    var fd := new Source(sent.written, arrival);
    var rp := new Reader(fd);
    SessionRoundTrip(login, EncodedAll(ms));
    ByeIsSendable();
    got, end := ChatWithClient(rp);
    FramingRoundTrip(ms, Message(BYE, []), "");
  }

  lemma ByeIsSendable()
    ensures Sendable(Message(BYE, []))
  {
    assert Encoded(Message(BYE, [])) == "BYE\n";
  }

  /** send_message for each message of a list: encode, then rio_writen. */
  method SendAll(ms: seq<Message>, sent: Sink)
    requires Failure !in sent.script && Short(0) !in sent.script
    requires forall i :: 0 <= i < |ms| ==> |Encoded(ms[i])| <= MAX_ENCODED_LEN
    modifies sent
    ensures sent.written == old(sent.written) + EncodedAll(ms)
  {
    hide Encoded;
    for i := 0 to |ms|
      invariant sent.written + EncodedAll(ms[i..]) == old(sent.written) + EncodedAll(ms)
      invariant Failure !in sent.script && Short(0) !in sent.script
    {
      var text := Encode(ms[i]);
      assert ms[i..][1..] == ms[i + 1..];
      ghost var before := sent.written;
      var rc := RioWriten(sent, text.value);
      assert before + (Encoded(ms[i]) + EncodedAll(ms[i + 1..])) == before + Encoded(ms[i]) + EncodedAll(ms[i + 1..]);
    }
    assert EncodedAll(ms[|ms|..]) == "";
  }
}
