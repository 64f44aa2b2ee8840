/** A table: committed data under an overlay of pending changes, and a mutex
    (table.cpp). A mutex is an optional owner. */
module Tables {
  import opened Wrappers

  type Data = map<string, string>
  type ClientId = nat

  datatype TableState = TableState(data: Data, overlay: Data, holder: Option<ClientId>) {
    /** What a reader of the table sees. */
    function Visible(): Data {
      data + overlay
    }

    function Get(key: string): Option<string> {
      if key in overlay then Some(overlay[key])
      else if key in data then Some(data[key])
      else None
    }

    function Set(key: string, value: string): TableState {
      this.(overlay := overlay[key := value])
    }

    function Commit(): TableState {
      this.(data := data + overlay, overlay := map[])
    }

    function Rollback(): TableState {
      this.(overlay := map[])
    }

    function Lock(c: ClientId): TableState {
      this.(holder := Some(c))
    }

    function Unlock(): TableState {
      this.(holder := None)
    }
  }

  const NEW_TABLE := TableState(map[], map[], None)

  class Table {
    const name: string
    var data: map<string, string>
    var temporaryChanges: map<string, string>
    var holder: Option<ClientId>

    constructor (name: string)
      ensures State() == NEW_TABLE && this.name == name
    {
      this.name := name;
      data, temporaryChanges, holder := map[], map[], None;
    }

    function State(): TableState
      reads this
    {
      TableState(data, temporaryChanges, holder)
    }

    /** lock: blocks while the mutex is held, so it returns only from a state in
        which it is free. */
    method Lock(c: ClientId)
      requires holder == None
      modifies this
      ensures State() == old(State()).Lock(c)
    {
      holder := Some(c);
    }

    /** unlock: only the holder may. */
    method Unlock(ghost c: ClientId)
      requires holder == Some(c)
      modifies this
      ensures State() == old(State()).Unlock()
    {
      holder := None;
    }

    /** trylock: false on a held mutex, also for its holder. */
    method TryLock(c: ClientId) returns (acquired: bool)
      modifies this
      ensures acquired == (old(holder) == None)
      ensures State() == if acquired then old(State()).Lock(c) else old(State())
    {
      acquired := holder == None;
      if acquired {
        holder := Some(c);
      }
    }

    method Set(key: string, value: string)
      modifies this
      ensures State() == old(State()).Set(key, value)
    {
      temporaryChanges := temporaryChanges[key := value];
    }

    /** get: None is the "Cannot find key" exception. */
    method Get(key: string) returns (value: Option<string>)
      ensures value == if key in State().Visible() then Some(State().Visible()[key]) else None
    {
      if key in temporaryChanges {
        return Some(temporaryChanges[key]);
      }
      if key in data {
        return Some(data[key]);
      }
      return None;
    }

    method HasKey(key: string) returns (found: bool)
      ensures found <==> State().Get(key).Some?
    {
      found := key in data || key in temporaryChanges;
    }

    /** commit_changes: the copy loop never changes what a reader sees. */
    method CommitChanges()
      modifies this
      ensures State() == old(State()).Commit()
      ensures State().Visible() == old(State()).Visible()
    {
      var todo := temporaryChanges.Keys;
      ghost var done: set<string> := {};
      while todo != {}
        invariant temporaryChanges == old(temporaryChanges) && holder == old(holder)
        invariant done + todo == temporaryChanges.Keys && done !! todo
        invariant data.Keys == old(data.Keys) + done
        invariant forall k :: k in data ==>
          data[k] == if k in done then temporaryChanges[k] else old(data)[k]
        invariant data + temporaryChanges == old(data + temporaryChanges)
        decreases todo
      {
        var k :| k in todo;
        data := data[k := temporaryChanges[k]];
        todo, done := todo - {k}, done + {k};
      }
      assert data == old(data + temporaryChanges);
      temporaryChanges := map[];
    }

    method RollbackChanges()
      modifies this
      ensures State() == old(State()).Rollback()
    {
      temporaryChanges := map[];
    }
  }

  // ----- A table as a log -----

  datatype TableOp = SetOp(key: string, value: string) | CommitOp | RollbackOp

  function AfterOp(ts: TableState, op: TableOp): TableState {
    match op
    case SetOp(k, v) => ts.Set(k, v)
    case CommitOp => ts.Commit()
    case RollbackOp => ts.Rollback()
  }

  function AfterOps(ts: TableState, ops: seq<TableOp>): TableState {
    if ops == [] then ts else AfterOp(AfterOps(ts, ops[..|ops| - 1]), ops[|ops| - 1])
  }

  ghost predicate CommitAfter(ops: seq<TableOp>, i: nat) {
    exists k :: i < k < |ops| && ops[k] == CommitOp
  }

  /** Operation j undoes operation i: a rollback with no commit between them. */
  ghost predicate Cancels(ops: seq<TableOp>, i: nat, j: nat) {
    i < j < |ops| && ops[j] == RollbackOp && !CommitAfter(ops[..j], i)
  }

  /** Operation i is a set of key that no later rollback cancelled. */
  ghost predicate Standing(ops: seq<TableOp>, key: string, i: nat) {
    i < |ops| && ops[i].SetOp? && ops[i].key == key && forall j :: i < j < |ops| ==> !Cancels(ops, i, j)
  }

  ghost predicate IsLastStanding(ops: seq<TableOp>, key: string, i: nat) {
    Standing(ops, key, i) && forall j :: i < j < |ops| ==> !Standing(ops, key, j)
  }

  /** r is the value of the last standing set of key; none when there is none. */
  ghost predicate LogValue(ops: seq<TableOp>, key: string, r: Option<string>) {
    match r
    case None => forall i: nat :: !Standing(ops, key, i)
    case Some(v) => exists i: nat :: IsLastStanding(ops, key, i) && ops[i].value == v
  }

  lemma StandingAppend(ops: seq<TableOp>, op: TableOp, key: string, i: nat)
    requires i < |ops|
    ensures op != RollbackOp ==> (Standing(ops + [op], key, i) <==> Standing(ops, key, i))
    ensures op == RollbackOp ==> (Standing(ops + [op], key, i) <==> Standing(ops, key, i) && CommitAfter(ops, i))
  {
    var ops' := ops + [op];
    assert ops'[..|ops|] == ops;
    assert forall j :: i < j < |ops| ==> ops'[..j] == ops[..j];
    assert forall j :: i < j < |ops| ==> (Cancels(ops', i, j) <==> Cancels(ops, i, j));
    assert Cancels(ops', i, |ops|) <==> op == RollbackOp && !CommitAfter(ops, i);
    if Standing(ops', key, i) {
      assert forall j :: i < j < |ops| ==> !Cancels(ops', i, j);
      assert !Cancels(ops', i, |ops|);
    }
  }

  lemma CommitAfterAppend(ops: seq<TableOp>, op: TableOp, i: nat)
    ensures CommitAfter(ops + [op], i) <==> CommitAfter(ops, i) || (op == CommitOp && i < |ops|)
  {
    var ops' := ops + [op];
    if CommitAfter(ops, i) {
      var k :| i < k < |ops| && ops[k] == CommitOp;
      assert ops'[k] == CommitOp;
    }
    if op == CommitOp && i < |ops| { assert ops'[|ops|] == CommitOp; }
  }

  /** Logs with the same standing sets have the same value. */
  lemma SameStanding(a: seq<TableOp>, b: seq<TableOp>, key: string, r: Option<string>)
    requires forall i: nat :: Standing(a, key, i) <==> Standing(b, key, i)
    requires forall i: nat :: Standing(a, key, i) && Standing(b, key, i) ==> a[i] == b[i]
    requires LogValue(a, key, r)
    ensures LogValue(b, key, r)
  {
    if r.Some? {
      var i: nat :| IsLastStanding(a, key, i) && a[i].value == r.value;
      assert forall j :: i < j < |b| ==> !Standing(b, key, j) by {
        forall j | i < j < |b| ensures !Standing(b, key, j) {
          if j < |a| { assert !Standing(a, key, j); }
        }
      }
      assert IsLastStanding(b, key, i);
    }
  }

  /** Appending op keeps the standing sets, up to a set of the key itself. */
  lemma AppendKeeps(ops: seq<TableOp>, op: TableOp, key: string, r: Option<string>)
    requires op != RollbackOp && !(op.SetOp? && op.key == key)
    requires LogValue(ops, key, r)
    ensures LogValue(ops + [op], key, r)
  {
    forall i: nat ensures Standing(ops + [op], key, i) <==> Standing(ops, key, i) {
      if i < |ops| { StandingAppend(ops, op, key, i); }
    }
    SameStanding(ops, ops + [op], key, r);
  }

  /** What op does to the log that ends in a rollback. */
  lemma AppendBeforeRollback(ops: seq<TableOp>, op: TableOp, key: string, r: Option<string>)
    requires LogValue(if op == CommitOp then ops else ops + [RollbackOp], key, r)
    ensures LogValue(ops + [op] + [RollbackOp], key, r)
  {
    var before := if op == CommitOp then ops else ops + [RollbackOp];
    var after := ops + [op] + [RollbackOp];
    forall i: nat ensures Standing(after, key, i) <==> Standing(before, key, i) {
      CommitAfterAppend(ops, op, i);
      if i < |ops| {
        StandingAppend(ops + [op], RollbackOp, key, i);
        StandingAppend(ops, op, key, i);
        StandingAppend(ops, RollbackOp, key, i);
      } else if i == |ops| {
        StandingAppend(ops + [op], RollbackOp, key, i);
      }
    }
    SameStanding(before, after, key, r);
  }

  function CommittedValue(ts: TableState, key: string): Option<string> {
    if key in ts.data then Some(ts.data[key]) else None
  }

  /** For every history of sets, commits and rollbacks, get returns the last set of
      the key not cancelled by a rollback, and the committed value is what get
      would return after one more rollback. */
  lemma {:induction false} TableRefinesLog(ops: seq<TableOp>, key: string)
    ensures LogValue(ops, key, AfterOps(NEW_TABLE, ops).Get(key))
    ensures LogValue(ops + [RollbackOp], key, CommittedValue(AfterOps(NEW_TABLE, ops), key))
  {
    if ops == [] {
      assert !Standing([RollbackOp], key, 0);
    } else {
      var front, op := ops[..|ops| - 1], ops[|ops| - 1];
      assert ops == front + [op];
      TableRefinesLog(front, key);
      var ts := AfterOps(NEW_TABLE, front);
      assert op != CommitOp ==> CommittedValue(AfterOp(ts, op), key) == CommittedValue(ts, key);
      AppendBeforeRollback(front, op, key, if op == CommitOp then ts.Get(key) else CommittedValue(ts, key));
      match op
      case SetOp(k, v) =>
        if k == key {
          assert IsLastStanding(ops, key, |front|);
        } else {
          AppendKeeps(front, op, key, ts.Get(key));
        }
      case CommitOp => AppendKeeps(front, op, key, ts.Get(key));
      case RollbackOp =>
    }
  }
}
