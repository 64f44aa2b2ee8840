/** What serializability buys the clients: increments are not lost and transfers
    keep the total, over every interleaving. */
module Applications {
  import opened Numerals
  import opened Messages
  import opened Wrappers
  import opened Handlers
  import opened Transactions
  import opened SerialRuns
  import opened Settling
  import opened Serializability
  import opened Endings
  import opened Compiler

  // ----- Log entries that are completed programs -----

  function RequestsOf(trace: seq<Event>): seq<Message> {
    if trace == [] then [] else RequestsOf(trace[..|trace| - 1]) + [trace[|trace| - 1].req]
  }

  predicate AllOk(trace: seq<Event>) {
    forall i :: 0 <= i < |trace| ==> trace[i].response.Ok()
  }

  /** The transaction is the program p, every request of it acknowledged. */
  predicate Completed(entry: Entry, p: seq<Stmt>) {
    && entry.Transaction? && RequestsOf(entry.trace) == CompileAll(p)
    && AllOk(entry.trace)
    && (forall i :: 0 <= i < |p| ==> p[i].WellFormed())
  }

  lemma {:induction false} ReplayIsRun(m: Machine, trace: seq<Event>)
    requires AllOk(trace) && Replay(m, trace).Some?
    ensures RunAll(m, RequestsOf(trace)) == Replay(m, trace)
  {
    hide Serve;
    if trace != [] {
      var front, e := trace[..|trace| - 1], trace[|trace| - 1];
      assert forall i :: 0 <= i < |front| ==> front[i] == trace[i];
      ReplayIsRun(m, front);
      assert RequestsOf(trace)[..|RequestsOf(trace)| - 1] == RequestsOf(front);
    }
  }

  /** A completed program does to the serial database what its assignments say. */
  lemma CompletedEntry(db: Db, entry: Entry, p: seq<Stmt>)
    requires Completed(entry, p) && SerialEntry(db, ForgivenEntry(entry)).Some?
    ensures SerialEntry(db, ForgivenEntry(entry)) == ExecAll(db, p)
  {
    hide Replay, RunAll, ExecAll, CompileAll, RequestsOf;
    var m := Machine(db, entry.start);
    NothingToForgive(entry.trace);
    ReplayIsRun(m, entry.trace);
    CompileAllCorrect(m, p);
  }

  lemma {:induction false} NothingToForgive(trace: seq<Event>)
    requires AllOk(trace)
    ensures ForgivenTrace(trace) == trace
  {
    if trace != [] {
      assert forall i :: 0 <= i < |trace| - 1 ==> trace[..|trace| - 1][i] == trace[i];
      NothingToForgive(trace[..|trace| - 1]);
      assert trace[|trace| - 1].response.Ok();
      assert trace == trace[..|trace| - 1] + [trace[|trace| - 1]];
    }
  }

  // ----- Cells -----

  function Value(db: Db, cell: CellRef): Option<int> {
    match CellText(db, cell.table, cell.key)
    case None => None
    case Some(text) => match Stoi(text) case Value(v) => Some(v) case _ => None
  }

  function Store(db: Db, cell: CellRef, v: int): Db
    requires cell.table in db
  {
    db[cell.table := db[cell.table][cell.key := ToString(v)]]
  }

  /** An acknowledged SET of the cell. */
  predicate Sets(e: Event, cell: CellRef) {
    e.req == Message(SET, [cell.table, cell.key]) && e.response == Acknowledged
  }

  predicate SetsNowhere(trace: seq<Event>, cell: CellRef) {
    forall i :: 0 <= i < |trace| ==> !Sets(trace[i], cell)
  }

  /** No acknowledged SET of the cell: the entry leaves it as it is. */
  predicate LeavesAlone(entry: Entry, cell: CellRef) {
    entry.Transaction? ==> SetsNowhere(entry.trace, cell)
  }

  lemma ServeKeepsCell(m: Machine, e: Event, cell: CellRef)
    requires Serve(m, e.req).response == e.response && !Sets(e, cell)
    ensures CellText(Serve(m, e.req).machine.db, cell.table, cell.key) == CellText(m.db, cell.table, cell.key)
  {
    hide ServeStack;
    if e.req.messageType == SET && e.response == Acknowledged {
      assert e.req.args == [e.req.Table(), e.req.Key()];
    }
  }

  lemma {:induction false} ReplayKeepsCell(m: Machine, trace: seq<Event>, cell: CellRef)
    requires Replay(m, ForgivenTrace(trace)).Some? && SetsNowhere(trace, cell)
    ensures CellText(Replay(m, ForgivenTrace(trace)).value.db, cell.table, cell.key) ==
            CellText(m.db, cell.table, cell.key)
  {
    hide Serve, CellText, Sets;
    if trace != [] {
      var front, e := trace[..|trace| - 1], trace[|trace| - 1];
      assert forall i :: 0 <= i < |front| ==> front[i] == trace[i];
      if !ToldMissing(e) {
        ReplayAppend(m, ForgivenTrace(front), e);
        ReplayKeepsCell(m, front, cell);
        ServeKeepsCell(Replay(m, ForgivenTrace(front)).value, e, cell);
      } else {
        ReplayKeepsCell(m, front, cell);
      }
    }
  }

  lemma EntryKeepsCell(db: Db, entry: Entry, cell: CellRef)
    requires SerialEntry(db, ForgivenEntry(entry)).Some? && LeavesAlone(entry, cell)
    ensures var db' := SerialEntry(db, ForgivenEntry(entry)).value;
            CellText(db, cell.table, cell.key).Some? ==>
              CellText(db', cell.table, cell.key) == CellText(db, cell.table, cell.key)
  {
    hide Replay, ForgivenTrace, SetsNowhere;
    if entry.Transaction? {
      ReplayKeepsCell(Machine(db, entry.start), entry.trace, cell);
    }
  }

  // ----- Assignments that add to a cell -----

  /** cell := cell + e, or cell := cell - e */
  function Bump(cell: CellRef, op: Op, e: Expr): Stmt {
    Assign(cell.table, cell.key, Bin(op, Cell(cell.table, cell.key), e))
  }

  lemma BumpAdds(db: Db, cell: CellRef, op: Op, e: Expr, d: int)
    requires op in {Add, Sub} && Denotes(e, d) && Value(db, cell).Some?
    requires ExecStmt(db, Bump(cell, op, e)).Some?
    ensures var v := Value(db, cell).value + if op == Add then d else -d;
            InIntRange(v) && ExecStmt(db, Bump(cell, op, e)) == Some(Store(db, cell, v))
  {
    hide ToString, Stoi, InIntRange, Denotes;
    DenotesIsEval(db, e, d);
    DenotesIsInt(e, d);
    StoiInvertsToString(d);
    var text := CellText(db, cell.table, cell.key).value;
    assert Eval(db, Bin(op, Cell(cell.table, cell.key), e)) == ApplyOp(op, text, ToString(d));
    assert Stoi(text) == StoiResult.Value(Value(db, cell).value) && Stoi(ToString(d)) == StoiResult.Value(d);
  }

  lemma DenotesIsInt(e: Expr, d: int)
    requires Denotes(e, d)
    ensures InIntRange(d)
  {
  }

  lemma StoreAt(db: Db, cell: CellRef, v: int, other: CellRef)
    requires cell.table in db && InIntRange(v)
    ensures Value(Store(db, cell, v), other) == if other == cell then Some(v) else Value(db, other)
    ensures CellText(Store(db, cell, v), other.table, other.key) ==
            if other == cell then Some(ToString(v)) else CellText(db, other.table, other.key)
  {
    hide ToString, Stoi;
    StoiInvertsToString(v);
  }

  lemma ExecOne(db: Db, s: Stmt)
    ensures ExecAll(db, [s]) == ExecStmt(db, s)
  {
    assert [s][..0] == [];
  }

  // ----- Increments -----

  /** GET, PUSH 1, ADD, SET: the transaction of incr_value. */
  function Increment(cell: CellRef): seq<Stmt> {
    [Bump(cell, Add, Lit(1))]
  }

  lemma IncrementRequests(cell: CellRef)
    ensures CompileAll(Increment(cell)) ==
            [Message(GET, [cell.table, cell.key]), Message(PUSH, ["1"]), Message(ADD, []),
             Message(SET, [cell.table, cell.key])]
  {
    var p := Increment(cell);
    assert p[..0] == [];
    assert ToString(1) == "1";
    assert CompileAll(p) == CompileAll([]) + CompileStmt(p[0]);
    var cellExpr := Cell(cell.table, cell.key);
    assert Compile(Bin(Add, cellExpr, Lit(1))) == Compile(cellExpr) + Compile(Lit(1)) + [Message(ADD, [])];
  }

  function Increments(log: seq<Entry>, cell: CellRef): nat {
    if log == [] then 0
    else Increments(log[..|log| - 1], cell) + if Completed(log[|log| - 1], Increment(cell)) then 1 else 0
  }

  /** Every entry increments the cell or leaves it alone. */
  predicate OnlyIncrements(log: seq<Entry>, cell: CellRef) {
    forall i :: 0 <= i < |log| ==> Completed(log[i], Increment(cell)) || LeavesAlone(log[i], cell)
  }

  /** The serial run of a log, replies that a table is missing forgiven, from db. */
  function SerialFrom(db: Db, log: seq<Entry>): Option<Db> {
    if log == [] then Some(db)
    else match SerialFrom(db, log[..|log| - 1])
      case None => None
      case Some(d) => SerialEntry(d, ForgivenEntry(log[|log| - 1]))
  }

  lemma {:induction false} SerialSplit(first: seq<Entry>, log: seq<Entry>)
    requires Serial(Forgiven(first)).Some?
    ensures Serial(Forgiven(first + log)) == SerialFrom(Serial(Forgiven(first)).value, log)
  {
    hide SerialEntry, ForgivenEntry;
    if log == [] {
      assert first + log == first;
    } else {
      var front, entry := log[..|log| - 1], log[|log| - 1];
      SerialSplit(first, front);
      assert first + log == (first + front) + [entry];
      ForgivenAppend(first + front, entry);
      SerialAppend(Forgiven(first + front), ForgivenEntry(entry));
    }
  }

  lemma IncrementEntry(db: Db, entry: Entry, cell: CellRef, v: int)
    requires Completed(entry, Increment(cell)) && SerialEntry(db, ForgivenEntry(entry)).Some?
    requires InIntRange(v) && CellText(db, cell.table, cell.key) == Some(ToString(v))
    ensures InIntRange(v + 1)
    ensures CellText(SerialEntry(db, ForgivenEntry(entry)).value, cell.table, cell.key) == Some(ToString(v + 1))
  {
    hide ToString, Stoi, SerialEntry, Completed;
    var e := Lit(1);
    CompletedEntry(db, entry, Increment(cell));
    ExecOne(db, Bump(cell, Add, e));
    StoiInvertsToString(v);
    BumpAdds(db, cell, Add, e, 1);
    StoreAt(db, cell, v + 1, cell);
  }

  lemma {:induction false} CountIncrements(db: Db, log: seq<Entry>, cell: CellRef, v: int)
    requires SerialFrom(db, log).Some? && OnlyIncrements(log, cell)
    requires InIntRange(v) && CellText(db, cell.table, cell.key) == Some(ToString(v))
    ensures InIntRange(v + Increments(log, cell))
    ensures CellText(SerialFrom(db, log).value, cell.table, cell.key) == Some(ToString(v + Increments(log, cell)))
  {
    hide ToString, SerialEntry, Completed, LeavesAlone, CellText;
    if log != [] {
      var front, entry := log[..|log| - 1], log[|log| - 1];
      CountIncrements(db, front, cell, v);
      var mid := SerialFrom(db, front).value;
      if Completed(entry, Increment(cell)) {
        IncrementEntry(mid, entry, cell, v + Increments(front, cell));
      } else {
        EntryKeepsCell(mid, entry, cell);
      }
    }
  }

  /** No lost update: between two moments of any covered run, indeed of any clean one,
      if the transactions made permanent in between either incremented the cell or left
      it alone, its numeral in the serial database went up by exactly the number of
      increments. Without fallbacks that is the settled database and, with no commit
      inside its loop, the committed one. */
  lemma NoLostUpdate(before: seq<Action>, after: seq<Action>, made: seq<Entry>, cell: CellRef, v: int)
    requires CleanRun(before + after) && Run(INIT, before).Some? && Run(INIT, before + after).Some?
    requires var s, s' := Run(INIT, before).value, Run(INIT, before + after).value;
             && InIntRange(v) && CellText(s.serial, cell.table, cell.key) == Some(ToString(v))
             && s'.log == s.log + made && OnlyIncrements(made, cell)
    ensures var s', w := Run(INIT, before + after).value, v + Increments(made, cell);
            && InIntRange(w) && CellText(s'.serial, cell.table, cell.key) == Some(ToString(w))
            && (NoFallback(before + after) ==> CellText(Settled(s'), cell.table, cell.key) == Some(ToString(w)))
            && (NoFallback(before + after) && Calm(s') ==>
                 CellText(CommittedDb(s'), cell.table, cell.key) == Some(ToString(w)))
  {
    hide Run, CleanRun, ToString, CellText, OnlyIncrements;
    LaterSerial(before, after);
    SerialIsCommitted(before + after);
    var s, s' := Run(INIT, before).value, Run(INIT, before + after).value;
    assert s'.log[|s.log|..] == made;
    CountIncrements(s.serial, made, cell, v);
  }

  /** Without fallbacks the serial database is the one there is. */
  lemma SerialIsCommitted(actions: seq<Action>)
    requires Run(INIT, actions).Some?
    ensures var s := Run(INIT, actions).value;
            NoFallback(actions) ==> s.serial == Settled(s) && (Calm(s) ==> s.serial == CommittedDb(s))
  {
    hide Run, Settled, CommittedDb, Calm;
    if NoFallback(actions) {
      TidyRun(actions);
      if Calm(Run(INIT, actions).value) {
        CalmIsCommitted(Run(INIT, actions).value);
      }
    }
  }

  /** The serial database at a later moment is the earlier one run through the log
      entries in between. */
  lemma LaterSerial(before: seq<Action>, after: seq<Action>)
    requires CleanRun(before + after) && Run(INIT, before).Some? && Run(INIT, before + after).Some?
    ensures var s, s' := Run(INIT, before).value, Run(INIT, before + after).value;
            s.log <= s'.log && SerialFrom(s.serial, s'.log[|s.log|..]) == Some(s'.serial)
  {
    hide Run, CleanRun, Serial, InOrder;
    CleanPrefix(before, after);
    SerialExactly(before);
    SerialExactly(before + after);
    var s, s' := Run(INIT, before).value, Run(INIT, before + after).value;
    RunConcat(INIT, before, after);
    LogGrows(s, after);
    assert s'.log == s.log + s'.log[|s.log|..];
    SerialSplit(s.log, s'.log[|s.log|..]);
  }

  // ----- Transfers -----

  /** Debit two cells and credit a third with the sum. */
  function Transfer(src1: CellRef, src2: CellRef, dst: CellRef, d1: int, d2: int): seq<Stmt> {
    [Bump(src1, Sub, Lit(d1)), Bump(src2, Sub, Lit(d2)), Bump(dst, Add, Bin(Add, Lit(d1), Lit(d2)))]
  }

  /** Every balance is a numeral. */
  predicate Numeric(db: Db, cells: seq<CellRef>) {
    forall i :: 0 <= i < |cells| ==> Value(db, cells[i]).Some?
  }

  function Total(db: Db, cells: seq<CellRef>): int
    requires Numeric(db, cells)
  {
    if cells == [] then 0
    else Total(db, cells[..|cells| - 1]) + Value(db, cells[|cells| - 1]).value
  }

  lemma {:induction false} StoreTotal(db: Db, cells: seq<CellRef>, cell: CellRef, v: int)
    requires NoRepeats(cells) && Numeric(db, cells) && Value(db, cell).Some? && InIntRange(v)
    ensures cell.table in db && Numeric(Store(db, cell, v), cells)
    ensures Total(Store(db, cell, v), cells) ==
            Total(db, cells) + if cell in cells then v - Value(db, cell).value else 0
  {
    hide Value, Store, InIntRange;
    assert cell.table in db by { InDb(db, cell); }
    forall i | 0 <= i < |cells| ensures Value(Store(db, cell, v), cells[i]).Some? {
      StoreAt(db, cell, v, cells[i]);
    }
    if cells != [] {
      var front, last := cells[..|cells| - 1], cells[|cells| - 1];
      StoreTotal(db, front, cell, v);
      StoreAt(db, cell, v, last);
      assert cell in cells <==> cell in front || cell == last;
      assert cell == last ==> cell !in front;
    }
  }

  lemma InDb(db: Db, cell: CellRef)
    requires Value(db, cell).Some?
    ensures cell.table in db
  {
  }

  /** One debit or credit of a listed cell moves the total by its amount. */
  lemma BumpTotal(db: Db, cells: seq<CellRef>, cell: CellRef, op: Op, e: Expr, d: int)
    requires NoRepeats(cells) && Numeric(db, cells) && cell in cells
    requires op in {Add, Sub} && Denotes(e, d) && ExecStmt(db, Bump(cell, op, e)).Some?
    ensures var db' := ExecStmt(db, Bump(cell, op, e)).value;
            && Numeric(db', cells)
            && Total(db', cells) == Total(db, cells) + (if op == Add then d else -d)
  {
    hide Value, ExecStmt, Store, InIntRange, Denotes;
    BumpAdds(db, cell, op, e, d);
    StoreTotal(db, cells, cell, Value(db, cell).value + if op == Add then d else -d);
  }

  lemma TransferKeepsTotal(db: Db, cells: seq<CellRef>, src1: CellRef, src2: CellRef, dst: CellRef, d1: int, d2: int)
    requires NoRepeats(cells) && Numeric(db, cells) && src1 in cells && src2 in cells && dst in cells
    requires InIntRange(d1) && InIntRange(d2) && InIntRange(d1 + d2)
    requires ExecAll(db, Transfer(src1, src2, dst, d1, d2)).Some?
    ensures var db' := ExecAll(db, Transfer(src1, src2, dst, d1, d2)).value;
            Numeric(db', cells) && Total(db', cells) == Total(db, cells)
  {
    hide ExecStmt, Numeric, Total;
    var p := Transfer(src1, src2, dst, d1, d2);
    assert p[..3] == p && p[..2][..1] == p[..1] && p[..3][..2] == p[..2] && p[..1][..0] == [];
    assert ExecAll(db, p[..1]) == ExecStmt(db, p[0]);
    BumpTotal(db, cells, src1, Sub, Lit(d1), d1);
    var db1 := ExecStmt(db, p[0]).value;
    BumpTotal(db1, cells, src2, Sub, Lit(d2), d2);
    var db2 := ExecStmt(db1, p[1]).value;
    assert ExecAll(db, p[..2]) == Some(db2);
    assert Denotes(Lit(d1), d1) && Denotes(Lit(d2), d2) && Means(Add, d1, d2, d1 + d2);
    BumpTotal(db2, cells, dst, Add, Bin(Add, Lit(d1), Lit(d2)), d1 + d2);
  }

  /** The entry is a completed transfer among listed cells. */
  ghost predicate IsTransfer(entry: Entry, cells: seq<CellRef>) {
    exists src1, src2, dst, d1, d2 :: IsTransferOf(entry, cells, src1, src2, dst, d1, d2)
  }

  predicate IsTransferOf(entry: Entry, cells: seq<CellRef>,
                         src1: CellRef, src2: CellRef, dst: CellRef, d1: int, d2: int)
  {
    && src1 in cells && src2 in cells && dst in cells
    && InIntRange(d1) && InIntRange(d2) && InIntRange(d1 + d2)
    && Completed(entry, Transfer(src1, src2, dst, d1, d2))
  }

  ghost predicate OnlyTransfers(log: seq<Entry>, cells: seq<CellRef>) {
    forall i :: 0 <= i < |log| ==>
      IsTransfer(log[i], cells) || forall j :: 0 <= j < |cells| ==> LeavesAlone(log[i], cells[j])
  }

  lemma {:induction false} SameTotal(db: Db, db': Db, cells: seq<CellRef>)
    requires Numeric(db, cells) && forall i :: 0 <= i < |cells| ==> Value(db', cells[i]) == Value(db, cells[i])
    ensures Numeric(db', cells) && Total(db', cells) == Total(db, cells)
  {
    hide Value;
    if cells != [] { SameTotal(db, db', cells[..|cells| - 1]); }
  }

  lemma {:induction false} TransfersKeepTotal(db: Db, log: seq<Entry>, cells: seq<CellRef>)
    requires NoRepeats(cells) && Numeric(db, cells)
    requires SerialFrom(db, log).Some? && OnlyTransfers(log, cells)
    ensures Numeric(SerialFrom(db, log).value, cells)
    ensures Total(SerialFrom(db, log).value, cells) == Total(db, cells)
  {
    hide SerialEntry, LeavesAlone, Total, Value, CellText, Completed;
    if log != [] {
      var front, entry := log[..|log| - 1], log[|log| - 1];
      TransfersKeepTotal(db, front, cells);
      EntryKeepsTotal(SerialFrom(db, front).value, entry, cells);
    }
  }

  lemma EntryKeepsTotal(db: Db, entry: Entry, cells: seq<CellRef>)
    requires NoRepeats(cells) && Numeric(db, cells) && SerialEntry(db, ForgivenEntry(entry)).Some?
    requires IsTransfer(entry, cells) || forall j :: 0 <= j < |cells| ==> LeavesAlone(entry, cells[j])
    ensures Numeric(SerialEntry(db, ForgivenEntry(entry)).value, cells)
    ensures Total(SerialEntry(db, ForgivenEntry(entry)).value, cells) == Total(db, cells)
  {
    hide SerialEntry, LeavesAlone, Total, Completed, ExecAll, Transfer, InIntRange;
    if IsTransfer(entry, cells) {
      var src1, src2, dst, d1, d2 :| IsTransferOf(entry, cells, src1, src2, dst, d1, d2);
      CompletedEntry(db, entry, Transfer(src1, src2, dst, d1, d2));
      TransferKeepsTotal(db, cells, src1, src2, dst, d1, d2);
    } else {
      var db' := SerialEntry(db, ForgivenEntry(entry)).value;
      forall i | 0 <= i < |cells| ensures Value(db', cells[i]) == Value(db, cells[i]) {
        EntryKeepsCell(db, entry, cells[i]);
      }
      SameTotal(db, db', cells);
    }
  }

  /** Money conservation: between two moments of any covered run, indeed of any clean
      one, if the transactions made permanent in between were transfers among the listed
      balances or left them alone, and whatever was rolled back or is still open, the
      balances have the same total in the serial database. Without fallbacks that is the
      settled database and, with no commit inside its loop, the committed one. */
  lemma MoneyConserved(before: seq<Action>, after: seq<Action>, made: seq<Entry>, cells: seq<CellRef>)
    requires CleanRun(before + after) && Run(INIT, before).Some? && Run(INIT, before + after).Some?
    requires var s, s' := Run(INIT, before).value, Run(INIT, before + after).value;
             && NoRepeats(cells) && Numeric(s.serial, cells)
             && s'.log == s.log + made && OnlyTransfers(made, cells)
    ensures var s, s' := Run(INIT, before).value, Run(INIT, before + after).value;
            && Numeric(s'.serial, cells) && Total(s'.serial, cells) == Total(s.serial, cells)
            && (NoFallback(before + after) ==>
                 Numeric(Settled(s'), cells) && Total(Settled(s'), cells) == Total(s.serial, cells))
            && (NoFallback(before + after) && Calm(s') ==>
                 Numeric(CommittedDb(s'), cells) && Total(CommittedDb(s'), cells) == Total(s.serial, cells))
  {
    hide Run, CleanRun, Numeric, Total, OnlyTransfers, Settled, CommittedDb, Calm;
    LaterSerial(before, after);
    SerialIsCommitted(before + after);
    var s, s' := Run(INIT, before).value, Run(INIT, before + after).value;
    assert s'.log[|s.log|..] == made;
    TransfersKeepTotal(s.serial, made, cells);
  }
}
