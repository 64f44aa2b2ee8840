/** The layers together: a program of assignments is compiled to requests, printed,
    carried over the wire in arbitrary pieces, read back and served. */
module EndToEnd {
  import opened Numerals
  import opened Messages
  import opened Serialization
  import opened Framing
  import opened Wrappers
  import opened Handlers
  import opened Compiler

  /** Names and literals that fit a request line. */
  predicate FitsExpr(e: Expr) {
    match e
    case Lit(n) => InIntRange(n)
    case Cell(t, k) => FitsNames(t, k)
    case Bin(_, l, r) => FitsExpr(l) && FitsExpr(r)
  }

  predicate FitsNames(table: string, key: string) {
    IsIdentifier(table) && IsIdentifier(key) && |table| + |key| <= 1000
  }

  predicate FitsAll(p: seq<Stmt>) {
    forall i :: 0 <= i < |p| ==> FitsNames(p[i].table, p[i].key) && FitsExpr(p[i].e)
  }

  predicate AllSendable(ms: seq<Message>) {
    forall i :: 0 <= i < |ms| ==> Sendable(ms[i]) && ms[i].messageType != BYE
  }

  lemma NumeralIsWord(n: int)
    requires InIntRange(n)
    ensures IsWord(ToString(n)) && '\0' !in ToString(n) && !StartsWith(ToString(n), '\"') && |ToString(n)| <= 64
  {
    TextLength(n, 10);
    DigitsArePlain(if n < 0 then -n else n);
  }

  lemma DigitsArePlain(v: nat)
    ensures forall i :: 0 <= i < |Digits(v, 10)| ==>
              !IsSpace(Digits(v, 10)[i]) && Digits(v, 10)[i] != '\0' && Digits(v, 10)[i] != '\"'
  {
    DecimalDigits(v);
  }

  lemma IdentifierIsWord(s: string)
    requires IsIdentifier(s)
    ensures IsWord(s) && '\0' !in s && !StartsWith(s, '\"')
  {
  }

  lemma PushSendable(n: int)
    requires InIntRange(n)
    ensures Sendable(Message(PUSH, [ToString(n)]))
  {
    hide ToString, IsWord;
    NumeralIsWord(n);
    assert ArgText([ToString(n)]) == " " + ToString(n) + ArgText([]);
  }

  lemma NamesSendable(t: MessageType, table: string, key: string)
    requires t in {GET, SET} && FitsNames(table, key)
    ensures Sendable(Message(t, [table, key]))
  {
    hide IsWord, IsIdentifier;
    IdentifierIsWord(table);
    IdentifierIsWord(key);
    assert key != "" by { NonEmpty(key); }
    assert [table, key][1..] == [key] && [key][1..] == [];
    assert ArgText([table, key]) == " " + table + (" " + key + ArgText([]));
  }

  lemma NonEmpty(s: string)
    requires IsIdentifier(s)
    ensures s != ""
  {
  }

  lemma OpSendable(op: Op)
    ensures Sendable(Message(op.Request(), [])) && op.Request() != BYE
  {
    assert ArgText([]) == "";
  }

  lemma {:induction false} CompiledSendable(e: Expr)
    requires FitsExpr(e)
    ensures AllSendable(Compile(e)) && e.WellFormed()
  {
    hide Sendable;
    match e
    case Lit(n) => PushSendable(n);
    case Cell(t, k) => NamesSendable(GET, t, k); NonEmpty(k);
    case Bin(op, l, r) =>
      CompiledSendable(l);
      CompiledSendable(r);
      OpSendable(op);
  }

  lemma StmtSendable(s: Stmt)
    requires FitsNames(s.table, s.key) && FitsExpr(s.e)
    ensures AllSendable(CompileStmt(s)) && s.WellFormed()
  {
    hide Sendable, Compile, FitsExpr;
    CompiledSendable(s.e);
    NamesSendable(SET, s.table, s.key);
  }

  lemma {:induction false} ProgramSendable(p: seq<Stmt>)
    requires FitsAll(p)
    ensures AllSendable(CompileAll(p)) && forall i :: 0 <= i < |p| ==> p[i].WellFormed()
  {
    hide Sendable, CompileStmt, FitsExpr, FitsNames;
    if p != [] {
      var front, s := p[..|p| - 1], p[|p| - 1];
      assert forall i :: 0 <= i < |front| ==> front[i] == p[i];
      ProgramSendable(front);
      StmtSendable(s);
    }
  }

  /** The bytes of a program's requests, read back by the server however they arrive
      and served in turn, have the effect of its assignments, and are acknowledged
      throughout exactly when every assignment is defined. */
  lemma ProgramOverTheWire(m: Machine, p: seq<Stmt>)
    requires FitsAll(p)
    ensures Requests(EncodedAll(CompileAll(p))) == (CompileAll(p), Stopped(Disconnected))
    ensures RunAll(m, Requests(EncodedAll(CompileAll(p))).0) ==
            match ExecAll(m.db, p) case None => None case Some(db) => Some(Machine(db, m.stack))
  {
    hide Requests, RunAll, ExecAll, CompileAll, Sendable, EncodedAll, FitsAll;
    ProgramSendable(p);
    CompileAllCorrect(m, p);
    ByeIsSendable();
    FramingRoundTrip(CompileAll(p), Message(BYE, []), "");
  }
}
