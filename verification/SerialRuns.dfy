/** The serial run of a log: its transactions one at a time, each alone. */
module SerialRuns {
  import opened Wrappers
  import opened Messages
  import opened Handlers
  import opened Transactions

  /** Runs the log's entries one at a time, each transaction alone from the stack it
      began with; None when a reply, a value read or a final stack would differ from
      the recorded one. */
  function Serial(log: seq<Entry>): Option<Db> {
    if log == [] then Some(map[])
    else match Serial(log[..|log| - 1])
      case None => None
      case Some(db) => SerialEntry(db, log[|log| - 1])
  }

  function SerialEntry(db: Db, entry: Entry): Option<Db> {
    match entry
    case Creation(name) => if name in db then None else Some(db[name := map[]])
    case Transaction(_, start, trace, end) =>
      match Replay(Machine(db, start), trace)
      case None => None
      case Some(m) => if m.stack == end then Some(m.db) else None
  }

  lemma SerialNothing()
    ensures Serial([]) == Some(map[])
  {
  }

  lemma SerialAppend(log: seq<Entry>, entry: Entry)
    ensures Serial(log + [entry]) ==
            match Serial(log) case None => None case Some(db) => SerialEntry(db, entry)
  {
    assert (log + [entry])[..|log|] == log;
  }

  /** What a serial run of the log says of each transaction: alone on the database its
      predecessors left, from the stack it began with, it got every reply and every
      value it has on record, ended with its stack, and left the next database. */
  lemma {:induction false} SerialMeans(log: seq<Entry>, i: nat)
    requires Serial(log).Some? && i < |log| && log[i].Transaction?
    ensures Serial(log[..i]).Some? && Serial(log[..i + 1]).Some?
    ensures Replay(Machine(Serial(log[..i]).value, log[i].start), log[i].trace) ==
            Some(Machine(Serial(log[..i + 1]).value, log[i].end))
  {
    hide Replay;
    if i == |log| - 1 {
      assert log[..i + 1] == log;
    } else {
      var front := log[..|log| - 1];
      SerialMeans(front, i);
      assert front[..i] == log[..i] && front[..i + 1] == log[..i + 1];
    }
  }

  // ----- Replies that a table is missing -----

  predicate ToldMissing(e: Event) {
    e.response == Refused(NoTable)
  }

  /** The trace without the replies that a table is missing. */
  function ForgivenTrace(trace: seq<Event>): seq<Event> {
    if trace == [] then []
    else
      var front, e := trace[..|trace| - 1], trace[|trace| - 1];
      if ToldMissing(e) then ForgivenTrace(front) else ForgivenTrace(front) + [e]
  }

  function ForgivenEntry(entry: Entry): Entry {
    if entry.Transaction? then entry.(trace := ForgivenTrace(entry.trace)) else entry
  }

  /** The log without the replies that a table is missing. */
  function Forgiven(log: seq<Entry>): seq<Entry> {
    if log == [] then [] else Forgiven(log[..|log| - 1]) + [ForgivenEntry(log[|log| - 1])]
  }

  lemma ForgivenTraceAppend(trace: seq<Event>, e: Event)
    ensures ForgivenTrace(trace + [e]) == if ToldMissing(e) then ForgivenTrace(trace) else ForgivenTrace(trace) + [e]
  {
    assert (trace + [e])[..|trace|] == trace;
  }

  lemma ForgivenAppend(log: seq<Entry>, entry: Entry)
    ensures Forgiven(log + [entry]) == Forgiven(log) + [ForgivenEntry(entry)]
  {
    assert (log + [entry])[..|log|] == log;
  }

  /** None of the tables the trace was told are missing is in the database. */
  predicate StillMissing(db: Db, trace: seq<Event>) {
    forall i :: 0 <= i < |trace| && ToldMissing(trace[i]) ==> trace[i].req.Table() !in db
  }

  /** Only a valid GET or SET is told that its table is missing. */
  predicate ToldProperly(trace: seq<Event>) {
    forall i :: 0 <= i < |trace| && ToldMissing(trace[i]) ==>
      IsTableRequest(trace[i].req.messageType) && trace[i].req.Valid()
  }

  lemma ServeKeepsKeys(m: Machine, req: Message)
    ensures Serve(m, req).machine.db.Keys == m.db.Keys
  {
    hide ServeStack;
  }

  lemma ServeMissing(m: Machine, req: Message)
    requires IsTableRequest(req.messageType) && req.Valid()
    ensures Serve(m, req).response == Refused(NoTable) <==> req.Table() !in m.db
    ensures req.Table() !in m.db ==> Serve(m, req).machine == m
  {
  }

  /** A trace replays exactly when it does without the missing-table replies and the
      tables they were about are still missing. */
  lemma {:induction false} ReplayForgiven(m: Machine, trace: seq<Event>)
    requires ToldProperly(trace)
    ensures Replay(m, trace) == if StillMissing(m.db, trace) then Replay(m, ForgivenTrace(trace)) else None
    ensures Replay(m, ForgivenTrace(trace)).Some? ==> Replay(m, ForgivenTrace(trace)).value.db.Keys == m.db.Keys
  {
    hide Serve;
    if trace != [] {
      var front, e := trace[..|trace| - 1], trace[|trace| - 1];
      assert trace == front + [e];
      ReplayForgiven(m, front);
      ForgivenTraceAppend(front, e);
      if Replay(m, ForgivenTrace(front)).Some? {
        var m1 := Replay(m, ForgivenTrace(front)).value;
        if ToldMissing(e) {
          ServeMissing(m1, e.req);
        } else {
          ReplayAppend(m, ForgivenTrace(front), e);
          ServeKeepsKeys(m1, e.req);
        }
      } else if !ToldMissing(e) {
        ReplayAppend(m, ForgivenTrace(front), e);
      }
    }
  }
}
