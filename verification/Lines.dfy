/** The lines of the protocol, spelled out: what each command word stands for, which
    characters separate and name things, and how many arguments a command takes. */
module Lines {
  import opened Numerals
  import opened Messages
  import opened Serialization

  // ----- Commands -----

  /** The command word of each type of message. */
  predicate Spelled(name: string, t: MessageType) {
    SpelledRequest(name, t) || SpelledOperation(name, t) || SpelledReply(name, t)
  }

  predicate SpelledRequest(name: string, t: MessageType) {
    || (name == "LOGIN" && t == LOGIN) || (name == "CREATE" && t == CREATE) || (name == "BEGIN" && t == BEGIN)
    || (name == "COMMIT" && t == COMMIT) || (name == "SET" && t == SET) || (name == "GET" && t == GET)
    || (name == "BYE" && t == BYE)
  }

  predicate SpelledOperation(name: string, t: MessageType) {
    || (name == "PUSH" && t == PUSH) || (name == "POP" && t == POP) || (name == "TOP" && t == TOP)
    || (name == "ADD" && t == ADD) || (name == "SUB" && t == SUB) || (name == "MUL" && t == MUL)
    || (name == "DIV" && t == DIV)
  }

  predicate SpelledReply(name: string, t: MessageType) {
    || (name == "OK" && t == OK) || (name == "FAILED" && t == FAILED) || (name == "ERROR" && t == ERROR)
    || (name == "DATA" && t == DATA)
  }

  lemma RequestsSpelled(name: string, t: MessageType)
    requires t in {LOGIN, CREATE, BEGIN, COMMIT, SET, GET, BYE}
    ensures Spelled(name, t) <==> TypeName(t) == name
  {
  }

  lemma OthersSpelled(name: string, t: MessageType)
    requires t in {PUSH, POP, TOP, ADD, SUB, MUL, DIV, OK, FAILED, ERROR, DATA}
    ensures Spelled(name, t) <==> TypeName(t) == name
  {
  }

  /** The two name tables are the spelling, and an unknown word is no command. */
  lemma TablesSpell(name: string, t: MessageType)
    ensures Spelled(name, t) <==> TypeOf(name) == t && t != NONE
    ensures Spelled(name, t) <==> TypeName(t) == name && t != NONE
  {
    hide TypeOf, TypeName;
    if t in {LOGIN, CREATE, BEGIN, COMMIT, SET, GET, BYE} {
      hide Spelled;
      RequestsSpelled(name, t);
    } else if t != NONE {
      hide Spelled;
      OthersSpelled(name, t);
    }
    NamesInvert(t, name);
  }

  // ----- Arguments -----

  predicate AllBlank(s: string) {
    forall i :: 0 <= i < |s| ==> s[i] in BLANKS
  }

  predicate BlankFirst(s: string) {
    s == "" || s[0] in BLANKS
  }

  predicate BlankFree(w: string) {
    w != "" && forall i :: 0 <= i < |w| ==> w[i] !in BLANKS
  }

  /** The words in the text, each after at least one blank. */
  ghost predicate Spaced(text: string, words: seq<string>)
    decreases |words|, 1
  {
    if words == [] then AllBlank(text)
    else exists blanks, rest :: SpacedFrom(text, words, blanks, rest)
  }

  ghost predicate SpacedFrom(text: string, words: seq<string>, blanks: string, rest: string)
    requires words != []
    decreases |words|, 0
  {
    && text == blanks + words[0] + rest && blanks != "" && AllBlank(blanks)
    && BlankFree(words[0]) && BlankFirst(rest) && Spaced(rest, words[1..])
  }

  lemma {:induction false} BlanksHaveNoWords(s: string)
    requires AllBlank(s)
    ensures Words(s) == []
  {
    assert s + "" == s;
    SkipsAllBlanks(s, "");
  }

  /** The words read are the words there are. */
  lemma {:induction false} WordsAreSpaced(text: string, words: seq<string>)
    requires Spaced(text, words)
    ensures Words(text) == words
    decreases |words|
  {
    if words == [] {
      BlanksHaveNoWords(text);
    } else {
      var blanks, rest :| SpacedFrom(text, words, blanks, rest);
      WordsAreSpaced(rest, words[1..]);
      FirstWord(text, blanks, words[0], rest);
    }
  }

  lemma FirstWord(text: string, blanks: string, w: string, rest: string)
    requires text == blanks + w + rest && AllBlank(blanks) && BlankFree(w) && BlankFirst(rest)
    ensures Words(text) == [w] + Words(rest)
  {
    assert text == blanks + (w + rest) && (w + rest)[0] == w[0];
    SkipsAllBlanks(blanks, w + rest);
    forall i | 0 <= i < |w| ensures !IsSpace(w[i]) { BlankIsSpace(w[i]); }
    TakeWordStops(w, rest);
  }

  /** Every text that starts with a blank is spaced words. */
  lemma {:induction false} EveryTextIsSpaced(text: string)
    requires BlankFirst(text)
    ensures Spaced(text, Words(text))
    decreases |text|
  {
    var blanks := BlanksThenRest(text);
    var t := SkipSpaces(text);
    SkipSpacesShortens(text);
    if t == "" {
      assert text == blanks;
    } else {
      var w, rest := TakeWord(t), DropWord(t);
      TakeDropWord(t);
      assert BlankFree(w);
      assert blanks != "" by { assert text[0] in BLANKS; }
      EveryTextIsSpaced(rest);
      assert text == blanks + w + rest;
      assert Words(text)[1..] == Words(rest);
      assert SpacedFrom(text, Words(text), blanks, rest);
    }
  }

  /** A quote counts as one only right after a single blank. */
  predicate Quoted(text: string) {
    |text| >= 2 && text[0] == ' ' && text[1] == '\"'
  }

  lemma ArgsAreSpaced(text: string, words: seq<string>)
    requires Spaced(text, words) && BlankFirst(text) && !Quoted(text)
    ensures ParsedArgs(text) == words
  {
    WordsAreSpaced(text, words);
    if StartsWith(text, ' ') {
      assert text == [' '] + text[1..];
      WordsAfterBlank(' ', text[1..]);
    }
  }

  // ----- Whole lines -----

  lemma CommandOfLine(blanks: string, name: string, text: string)
    requires AllBlank(blanks) && BlankFree(name) && BlankFirst(text)
    ensures Parsed(blanks + name + text) == Message(TypeOf(name), ParsedArgs(text))
  {
    assert blanks + name + text == blanks + (name + text) && (name + text)[0] == name[0];
    SkipsAllBlanks(blanks, name + text);
    forall i | 0 <= i < |name| ensures !IsSpace(name[i]) { BlankIsSpace(name[i]); }
    TakeWordStops(name, text);
  }

  /** What decode makes of a line, at its limits. */
  lemma LineLimits(line: string)
    ensures line == "" || line[|line| - 1] != '\n' ==> Decoded(line) == Err(NoNewline)
    ensures line != "" && line[|line| - 1] == '\n' && |line| > 1024 ==> Decoded(line) == Err(TooLong)
    ensures line != "" && line[|line| - 1] == '\n' && |line| <= 1024 ==>
              Decoded(line) == if Parsed(line).Valid() then Ok(Parsed(line)) else Err(InvalidMessage)
  {
  }

  /** Blanks, a word, and the text of its arguments, within the limits. */
  predicate IsLine(line: string, blanks: string, name: string, text: string) {
    && line == blanks + name + text && AllBlank(blanks) && BlankFree(name) && BlankFirst(text)
    && text != "" && text[|text| - 1] == '\n' && |line| <= 1024
  }

  function Checked(m: Message): Result<Message> {
    if m.Valid() then Ok(m) else Err(InvalidMessage)
  }

  /** A command line with its arguments separated by blanks of any kind and number. */
  lemma LineStandsFor(line: string, blanks: string, name: string, text: string, words: seq<string>)
    requires IsLine(line, blanks, name, text) && Spaced(text, words) && !Quoted(text)
    ensures forall t :: Spelled(name, t) ==> Decoded(line) == Checked(Message(t, words))
    ensures (forall t :: !Spelled(name, t)) ==> Decoded(line) == Checked(Message(NONE, words))
  {
    hide Parsed, TypeOf, TypeName, ParsedArgs, Spaced, Spelled;
    CommandOfLine(blanks, name, text);
    ArgsAreSpaced(text, words);
    forall t ensures Spelled(name, t) <==> TypeOf(name) == t && t != NONE {
      TablesSpell(name, t);
    }
    assert Parsed(line) == Message(TypeOf(name), words);
    assert line[|line| - 1] == '\n';
    if TypeOf(name) != NONE { assert Spelled(name, TypeOf(name)); }
  }

  /** A command line with one argument in quotes, which may hold blanks; what follows the
      closing quote is ignored, and without one the argument is all the rest. */
  lemma QuotedLineStandsFor(line: string, blanks: string, name: string, arg: string, more: string)
    requires IsLine(line, blanks, name, " \"" + arg + more) && '\"' !in arg
    requires more == "" || more[0] == '\"'
    ensures forall t :: Spelled(name, t) ==> Decoded(line) == Checked(Message(t, [arg]))
  {
    hide Parsed, TypeOf, TypeName, Spelled;
    var text := " \"" + arg + more;
    CommandOfLine(blanks, name, text);
    assert text[1..] == "\"" + arg + more && text[1..][1..] == arg + more;
    BeforeStops(arg, more, '\"');
    forall t ensures Spelled(name, t) <==> TypeOf(name) == t && t != NONE {
      TablesSpell(name, t);
    }
    assert Parsed(line) == Message(TypeOf(name), [arg]);
    assert line[|line| - 1] == '\n';
  }

  lemma {:induction false} BeforeStops(s: string, more: string, delim: char)
    requires delim !in s && (more == "" || more[0] == delim)
    ensures Before(s + more, delim) == s
  {
    if s == "" {
      assert s + more == more;
    } else {
      assert (s + more)[1..] == s[1..] + more;
      BeforeStops(s[1..], more, delim);
    }
  }

  // ----- Which lines are messages -----

  /** An identifier: a letter, then letters, digits and underscores. */
  lemma IdentifierCharacters(s: string)
    ensures IsIdentifier(s) <==>
            s != "" && s[0] !in "0123456789_" &&
            forall i :: 0 <= i < |s| ==>
              'a' <= s[i] <= 'z' || 'A' <= s[i] <= 'Z' || s[i] in "0123456789" || s[i] == '_'
  {
    forall i | 0 <= i < |s| ensures s[i] in "0123456789" <==> '0' <= s[i] <= '9' {
      BlankIsSpace(s[i]);
    }
  }

  /** How many words each command takes, and where the first has to be an identifier. */
  predicate Takes(t: MessageType, words: seq<string>) {
    && (t in {LOGIN, PUSH, DATA} ==> |words| == 1)
    && (t == CREATE ==> |words| == 1 && IsIdentifier(words[0]))
    && (t in {SET, GET} ==> |words| == 2 && IsIdentifier(words[0]))
    && (t in {FAILED, ERROR} ==> words != [])
  }

  lemma {:induction false} SpacedWordsAreWords(text: string, words: seq<string>)
    requires Spaced(text, words)
    ensures forall i :: 0 <= i < |words| ==> BlankFree(words[i])
    decreases |words|
  {
    if words != [] {
      var blanks, rest :| SpacedFrom(text, words, blanks, rest);
      SpacedWordsAreWords(rest, words[1..]);
      assert forall i :: 1 <= i < |words| ==> words[i] == words[1..][i - 1];
    }
  }

  lemma TakesIsValid(t: MessageType, words: seq<string>)
    requires forall i :: 0 <= i < |words| ==> BlankFree(words[i])
    ensures Message(t, words).Valid() <==> Takes(t, words)
  {
    hide IsIdentifier;
  }

  /** Which command lines are accepted: a command with as many words as it takes stands
      for the message with that type and those words, and with others for none. */
  lemma AcceptedLines(line: string, blanks: string, name: string, t: MessageType, text: string, words: seq<string>)
    requires IsLine(line, blanks, name, text) && Spaced(text, words) && !Quoted(text) && Spelled(name, t)
    ensures Decoded(line) == if Takes(t, words) then Ok(Message(t, words)) else Err(InvalidMessage)
  {
    hide Decoded, Spelled, Takes;
    LineStandsFor(line, blanks, name, text, words);
    SpacedWordsAreWords(text, words);
    TakesIsValid(t, words);
  }

  // ----- The requests as clients send them -----

  lemma NoArguments()
    ensures Spaced("\n", [])
  {
  }

  lemma OneArgument(v: string)
    requires BlankFree(v)
    ensures Spaced(" " + v + "\n", [v])
  {
    NoArguments();
    assert SpacedFrom(" " + v + "\n", [v], " ", "\n");
  }

  lemma TwoArguments(v: string, w: string)
    requires BlankFree(v) && BlankFree(w)
    ensures Spaced(" " + v + " " + w + "\n", [v, w])
  {
    OneArgument(w);
    assert " " + v + " " + w + "\n" == " " + v + (" " + w + "\n");
    assert [v, w][1..] == [w];
    assert SpacedFrom(" " + v + " " + w + "\n", [v, w], " ", " " + w + "\n");
  }

  lemma PrintedArguments(v: string, w: string)
    ensures ArgText([]) == "" && ArgText([v]) == " " + v && ArgText([v, w]) == " " + v + " " + w
  {
    assert [v, w][1..] == [w] && [w][1..] == [] && [v][1..] == [];
  }

  predicate Bare(name: string, t: MessageType) {
    (name, t) in {("POP", POP), ("TOP", TOP), ("ADD", ADD), ("SUB", SUB), ("MUL", MUL), ("DIV", DIV),
                  ("BEGIN", BEGIN), ("COMMIT", COMMIT), ("BYE", BYE), ("OK", OK)}
  }

  lemma BareSpelled(name: string, t: MessageType)
    requires Bare(name, t)
    ensures Spelled(name, t) && Takes(t, []) && BlankFree(name) && |name| <= 6
  {
  }

  /** The requests without arguments, and the reply OK. */
  lemma BareLine(name: string, t: MessageType)
    requires Bare(name, t)
    ensures Decoded(name + "\n") == Ok(Message(t, [])) && Encoded(Message(t, [])) == name + "\n"
  {
    hide Decoded, Spelled, Takes, Bare, Spaced;
    BareSpelled(name, t);
    NoArguments();
    assert name + "\n" == "" + name + "\n";
    AcceptedLines(name + "\n", "", name, t, "\n", []);
    TablesSpell(name, t);
    PrintedArguments("", "");
  }

  lemma ArgumentSpelled(name: string, t: MessageType, words: seq<string>)
    requires (name, t) in {("LOGIN", LOGIN), ("CREATE", CREATE), ("PUSH", PUSH), ("DATA", DATA),
                           ("GET", GET), ("SET", SET)}
    requires |words| == if t in {GET, SET} then 2 else 1
    requires t in {CREATE, GET, SET} ==> IsIdentifier(words[0])
    ensures Spelled(name, t) && Takes(t, words) && BlankFree(name)
  {
    hide IsIdentifier;
  }

  lemma IdentifierIsBlankFree(s: string)
    requires IsIdentifier(s)
    ensures BlankFree(s) && s[0] != '\"'
  {
    forall i | 0 <= i < |s| ensures s[i] !in BLANKS { BlankIsSpace(s[i]); }
  }

  /** The requests and the reply with one argument. */
  lemma OneArgumentLine(name: string, t: MessageType, v: string)
    requires (name, t) in {("LOGIN", LOGIN), ("CREATE", CREATE), ("PUSH", PUSH), ("DATA", DATA)}
    requires BlankFree(v) && v[0] != '\"' && |name + " " + v + "\n"| <= 1024 && (t == CREATE ==> IsIdentifier(v))
    ensures Decoded(name + " " + v + "\n") == Ok(Message(t, [v]))
    ensures Encoded(Message(t, [v])) == name + " " + v + "\n"
  {
    hide Decoded, Spaced, Spelled, Takes, IsIdentifier;
    ArgumentSpelled(name, t, [v]);
    OneArgument(v);
    var line, text := name + " " + v + "\n", " " + v + "\n";
    assert line == "" + name + text;
    AcceptedLines(line, "", name, t, text, [v]);
    TablesSpell(name, t);
    PrintedArguments(v, "");
  }

  /** GET and SET. */
  lemma TableLine(name: string, t: MessageType, table: string, key: string)
    requires (name, t) in {("GET", GET), ("SET", SET)}
    requires IsIdentifier(table) && BlankFree(key) && |name + " " + table + " " + key + "\n"| <= 1024
    ensures Decoded(name + " " + table + " " + key + "\n") == Ok(Message(t, [table, key]))
    ensures Encoded(Message(t, [table, key])) == name + " " + table + " " + key + "\n"
  {
    hide Decoded, Spaced, Spelled, Takes, IsIdentifier;
    ArgumentSpelled(name, t, [table, key]);
    IdentifierIsBlankFree(table);
    TwoArguments(table, key);
    var line, text := name + " " + table + " " + key + "\n", " " + table + " " + key + "\n";
    assert line == "" + name + text;
    AcceptedLines(line, "", name, t, text, [table, key]);
    TablesSpell(name, t);
    PrintedArguments(table, key);
  }
}
