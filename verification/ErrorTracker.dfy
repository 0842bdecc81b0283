/**
 * The tracked errors: items in Dynamo with a list of the open ones beside them, and rows in Postgres. One call
 * after another.
 */
module ErrorTracker {
  import opened Wrappers
  import opened Lists
  import opened Stores

  datatype ErrorItem = ErrorItem(reason: Option<string>, status: Status)

  datatype Errors = Errors(items: map<string, ErrorItem>, openErrorIds: Option<seq<string>>,
                           rows: map<string, ErrorItem>)

  datatype Op = CreateOp(id: string, reason: string) | SetStatusOp(id: string, status: Status)

  // A call that finds no list throws when it comes to it.
  function Perform(e: Errors, op: Op): Errors {
    match op
    case CreateOp(id, reason) =>
      var item := ErrorItem(Some(reason), Open);
      if e.openErrorIds.None? then e.(items := e.items[id := item])
      else Errors(e.items[id := item], Some(Track(e.openErrorIds.value, id, false)),
                  e.rows[id := if id in e.rows then ErrorItem(Some(reason), e.rows[id].status) else item])
    case SetStatusOp(id, status) =>
      if e.openErrorIds.None? then e
      else Errors(e.items[id := ErrorItem(if id in e.items then e.items[id].reason else None, status)],
                  Some(Track(e.openErrorIds.value, id, !status.Open?)),
                  if id in e.rows then e.rows[id := e.rows[id].(status := status)] else e.rows)
  }

  class ErrorTrackerService {
    var items: map<string, ErrorItem>
    var openErrorIds: Option<seq<string>>
    var rows: map<string, ErrorItem>

    ghost function Now(): Errors
      reads this
    {
      Errors(items, openErrorIds, rows)
    }

    constructor (items: map<string, ErrorItem>, openErrorIds: Option<seq<string>>, rows: map<string, ErrorItem>)
      ensures Now() == Errors(items, openErrorIds, rows)
    {
      this.items, this.openErrorIds, this.rows := items, openErrorIds, rows;
    }

    // false: TypeError, there is no list
    method AddOpenErrorId(id: string) returns (ok: bool)
      modifies `openErrorIds
      ensures ok <==> old(openErrorIds).Some?
      ensures openErrorIds == if ok then Some(Track(old(openErrorIds).value, id, false)) else None
    {
      if openErrorIds.None? {
        return false;
      }
      if id !in openErrorIds.value {
        openErrorIds := Some(openErrorIds.value + [id]);
      }
      return true;
    }

    method RemoveOpenErrorId(id: string) returns (ok: bool)
      modifies `openErrorIds
      ensures ok <==> old(openErrorIds).Some?
      ensures openErrorIds == if ok then Some(Track(old(openErrorIds).value, id, true)) else None
    {
      if openErrorIds.None? {
        return false;
      }
      if id in openErrorIds.value {
        openErrorIds := Some(Without(openErrorIds.value, id));
      } else {
        WithoutAbsent(openErrorIds.value, id);
      }
      return true;
    }

    method Create(id: string, reason: string) returns (ok: bool)
      modifies this
      ensures ok <==> old(openErrorIds).Some?
      ensures Now() == Perform(old(Now()), CreateOp(id, reason))
    {
      items := items[id := ErrorItem(Some(reason), Open)];
      ok := AddOpenErrorId(id);
      if ok {
        rows := rows[id := ErrorItem(Some(reason), if id in rows then rows[id].status else Open)];
      }
    }

    method SetErrorStatus(id: string, status: Status) returns (ok: bool)
      modifies this
      ensures ok <==> old(openErrorIds).Some?
      ensures Now() == Perform(old(Now()), SetStatusOp(id, status))
    {
      if status.Open? {
        ok := AddOpenErrorId(id);
      } else {
        ok := RemoveOpenErrorId(id);
      }
      if ok {
        items := items[id := ErrorItem(if id in items then items[id].reason else None, status)];
        if id in rows {
          rows := rows[id := rows[id].(status := status)];
        }
      }
    }
  }

  // The list has the ids of the open items, each once.
  ghost predicate OpenListExact(e: Errors) {
    && e.openErrorIds.Some? && Distinct(e.openErrorIds.value)
    && forall id :: id in e.openErrorIds.value <==> id in e.items && e.items[id].status.Open?
  }

  function PerformAll(e: Errors, ops: seq<Op>): Errors
    decreases |ops|
  {
    if ops == [] then e else PerformAll(Perform(e, ops[0]), ops[1..])
  }

  lemma PerformKeeps(e: Errors, op: Op)
    requires OpenListExact(e)
    ensures OpenListExact(Perform(e, op))
  {
    TrackSets(e.openErrorIds.value, op.id, op.SetStatusOp? && !op.status.Open?);
  }

  // After any calls the list is exact.
  lemma {:induction false} OpenListStaysExact(e: Errors, ops: seq<Op>)
    requires OpenListExact(e)
    ensures OpenListExact(PerformAll(e, ops))
    decreases |ops|
  {
    if ops != [] {
      PerformKeeps(e, ops[0]);
      OpenListStaysExact(Perform(e, ops[0]), ops[1..]);
    }
  }

  // Every row has the status of its item.
  ghost predicate RowsAgree(e: Errors) {
    forall id :: id in e.rows ==> id in e.items && e.rows[id].status == e.items[id].status
  }

  // An error that is recorded, resolved and recorded again: open in Dynamo, resolved in Postgres.
  lemma ReopenedRowStaysResolved(id: string, reason: string)
    ensures !RowsAgree(PerformAll(Errors(map[], Some([]), map[]),
                                  [CreateOp(id, reason), SetStatusOp(id, Resolved), CreateOp(id, reason)]))
  {
    var ops := [CreateOp(id, reason), SetStatusOp(id, Resolved), CreateOp(id, reason)];
    var e1 := Perform(Errors(map[], Some([]), map[]), ops[0]);
    var e2 := Perform(e1, ops[1]);
    var e3 := Perform(e2, ops[2]);
    assert ops[1..][1..] == ops[2..] && ops[2..][1..] == [];
    assert PerformAll(e2, ops[2..]) == e3 && PerformAll(e1, ops[1..]) == e3;
    assert e3.rows[id].status == Resolved && e3.items[id].status == Open;
  }

  // An error that comes back keeps its old status in Postgres: the two stores go on to agree exactly if it had no
  // row, or an open one. Setting a status always brings them together.
  lemma RowsAgreeExactly(e: Errors, op: Op)
    requires RowsAgree(e)
    ensures RowsAgree(Perform(e, op)) <==> (op.CreateOp? && op.id in e.rows ==> e.rows[op.id].status.Open?)
  {
    var e' := Perform(e, op);
    if op.CreateOp? && op.id in e.rows {
      assert e'.rows[op.id].status == e.rows[op.id].status && e'.items[op.id].status.Open?;
    }
  }

  // The i-th call is the last that recorded this error.
  ghost predicate LastRecorded(ops: seq<Op>, i: int, id: string) {
    && 0 <= i < |ops| && ops[i].CreateOp? && ops[i].id == id
    && forall j :: i < j < |ops| && ops[j].CreateOp? ==> ops[j].id != id
  }

  lemma {:induction false} PerformAllSnoc(e: Errors, ops: seq<Op>, op: Op)
    ensures PerformAll(e, ops + [op]) == Perform(PerformAll(e, ops), op)
    decreases |ops|
  {
    if ops == [] {
      assert [op][1..] == [] && [] + [op] == [op];
      assert PerformAll(Perform(e, op), []) == Perform(e, op);
    } else {
      assert (ops + [op])[1..] == ops[1..] + [op];
      PerformAllSnoc(Perform(e, ops[0]), ops[1..], op);
    }
  }

  lemma PerformReason(e: Errors, op: Op)
    requires e.openErrorIds.Some?
    ensures var e' := Perform(e, op);
      && e'.openErrorIds.Some?
      && (op.CreateOp? ==> op.id in e'.items && e'.items[op.id].reason == Some(op.reason)
                           && op.id in e'.rows && e'.rows[op.id].reason == Some(op.reason))
      && (forall id :: id in e.items && (op.CreateOp? ==> id != op.id) ==>
            id in e'.items && e'.items[id].reason == e.items[id].reason)
      && (forall id :: id in e.rows && (op.CreateOp? ==> id != op.id) ==>
            id in e'.rows && e'.rows[id].reason == e.rows[id].reason)
  {}

  // After any calls both stores give the reason of the last call that recorded the error, whatever statuses were set.
  lemma {:induction false} LastReasonStays(e: Errors, ops: seq<Op>, i: int, id: string)
    requires e.openErrorIds.Some? && LastRecorded(ops, i, id)
    ensures var e' := PerformAll(e, ops);
      && e'.openErrorIds.Some?
      && id in e'.items && e'.items[id].reason == Some(ops[i].reason)
      && id in e'.rows && e'.rows[id].reason == Some(ops[i].reason)
    decreases |ops|
  {
    var n := |ops| - 1;
    var before := ops[..n];
    assert ops == before + [ops[n]];
    PerformAllSnoc(e, before, ops[n]);
    ListStays(e, before);
    PerformReason(PerformAll(e, before), ops[n]);
    hide Perform, PerformAll;
    if i < n {
      assert LastRecorded(before, i, id);
      LastReasonStays(e, before, i, id);
    }
  }

  lemma {:induction false} ListStays(e: Errors, ops: seq<Op>)
    requires e.openErrorIds.Some?
    ensures PerformAll(e, ops).openErrorIds.Some?
    decreases |ops|
  {
    if ops != [] {
      ListStays(Perform(e, ops[0]), ops[1..]);
    }
  }
}
