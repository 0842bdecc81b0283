/**
 * The loops as functions are runs of the state machine: whatever the awaits answer, a process that runs alone comes to
 * where the function says, with the stores that the function gives.
 */
module Following {
  import opened Wrappers
  import opened Keys
  import opened Receipts
  import opened Stores
  import opened Protocol
  import opened Handling
  import opened Receiving
  import opened Draining

  // Where a process is when the body of the loop over the actions has thrown.
  function AfterThrow(s: Stores, owner: Owner, r: Receipt, i: nat): State {
    if owner.Stream? then Alone(s, Running(owner, r, Fail(i, OpenInDynamo))) else Idle(s)
  }

  // Its await rejects.
  lemma Reject(chain: Chain, s: Stores, owner: Owner, r: Receipt, i: nat, stage: Stage, answer: Answer,
               tookEffect: bool)
    requires i < |Actions(r)|
    ensures var p := At(owner, r, i, stage);
      Goes(chain, Alone(s, p), AfterThrow(if tookEffect then Perform(chain, s, p, answer) else s, owner, r, i))
  {
    hide Perform;
    var p := At(owner, r, i, stage);
    Step(chain, Alone(s, p), Rejects(0, answer, tookEffect));
    var q := Running(owner, r, Fail(i, OpenInDynamo));
    assert map[0 := p][0 := q] == map[0 := q] && map[0 := p] - {0} == map[];
  }

  // One of the two saves.
  lemma SaveIsRun(chain: Chain, w: World, owner: Owner, r: Receipt, i: nat, kind: FundsKind)
    requires i < |Actions(r)|
    ensures var (ok, w') := SaveRecord(chain, w, Cast(chain, r, i), kind);
      var from, to := if kind == DepositFunds then SaveDeposit else SaveToken,
                      if kind == DepositFunds then SaveToken else Record;
      Goes(chain, Alone(w.stores, At(owner, r, i, from)),
           if ok then Alone(w'.stores, At(owner, r, i, to)) else AfterThrow(w'.stores, owner, r, i))
  {
    var a, from := Cast(chain, r, i), if kind == DepositFunds then SaveDeposit else SaveToken;
    hide Cast, FundsOf, PutFunds, Goes;
    var reply := NextReply(w);
    if FundsOf(chain, a, kind).Throws? {
      Reject(chain, w.stores, owner, r, i, from, NO, false);
    } else if FundsOf(chain, a, kind).value.None? || reply == Passes {
      SaveSucceeds(chain, w.stores, owner, r, i, kind);
    } else {
      Reject(chain, w.stores, owner, r, i, from, NO, reply == RejectsAfter);
    }
  }

  lemma RowIsRun(chain: Chain, w: World, owner: Owner, r: Receipt, i: nat, cells: seq<Cell>)
    requires i < |Actions(r)|
    ensures var (q, w') := SaveRow(w, Cast(chain, r, i), cells);
      Goes(chain, Alone(w.stores, At(owner, r, i, Record)),
           if q.Returns? then Alone(w'.stores, AtAction(owner, r, i + 1)) else AfterThrow(w'.stores, owner, r, i))
  {
    hide Cast, SaveLedger, Goes, SavedForm, AtAction;
    var answer := NO.(results := SavedForm(cells));
    if NextReply(w) == Passes {
      Succeed(chain, w.stores, At(owner, r, i, Record), answer);
    } else {
      Reject(chain, w.stores, owner, r, i, Record, answer, NextReply(w) == RejectsAfter);
    }
  }

  lemma SaveAllIsRun(chain: Chain, w: World, owner: Owner, r: Receipt, i: nat, cells: seq<Cell>)
    requires i < |Actions(r)|
    ensures var (q, w') := SaveAll(chain, w, Cast(chain, r, i), cells);
      Goes(chain, Alone(w.stores, At(owner, r, i, SaveDeposit)),
           if q.Returns? then Alone(w'.stores, AtAction(owner, r, i + 1)) else AfterThrow(w'.stores, owner, r, i))
  {
    hide Cast, SaveRecord, SaveRow, Goes, AtAction, AfterThrow, Alone, At;
    var a, st := Cast(chain, r, i), Alone(w.stores, At(owner, r, i, SaveDeposit));
    SaveIsRun(chain, w, owner, r, i, DepositFunds);
    var (deposit, w1) := SaveRecord(chain, w, a, DepositFunds);
    if deposit {
      SaveIsRun(chain, w1, owner, r, i, TokenFunds);
      var (token, w2) := SaveRecord(chain, w1, a, TokenFunds);
      var st1 := Alone(w1.stores, At(owner, r, i, SaveToken));
      if token {
        RowIsRun(chain, w2, owner, r, i, cells);
        var (q, w3) := SaveRow(w2, a, cells);
        var end :=
          if q.Returns? then Alone(w3.stores, AtAction(owner, r, i + 1)) else AfterThrow(w3.stores, owner, r, i);
        GoesOn(chain, st1, Alone(w2.stores, At(owner, r, i, Record)), end);
        GoesOn(chain, st, st1, end);
      } else {
        GoesOn(chain, st, st1, AfterThrow(w2.stores, owner, r, i));
      }
    }
  }

  lemma RunAndSaveIsRun(chain: Chain, w: World, owner: Owner, r: Receipt, i: nat)
    requires i < |Actions(r)|
    ensures var (q, w') := RunAndSave(chain, w, Cast(chain, r, i));
      Goes(chain, Alone(w.stores, At(owner, r, i, Handlers)),
           if q.Returns? then Alone(w'.stores, AtAction(owner, r, i + 1)) else AfterThrow(w'.stores, owner, r, i))
  {
    hide Cast, SaveAll, Goes, AtAction, AfterThrow;
    var st := Alone(w.stores, At(owner, r, i, Handlers));
    if NextReply(w) != Passes {
      Reject(chain, w.stores, owner, r, i, Handlers, NO, false);
    } else {
      Succeed(chain, w.stores, At(owner, r, i, Handlers), NO);
      var w1 := Awaited(w).(results := Tail(w.results));
      SaveAllIsRun(chain, w1, owner, r, i, NextCells(w.results));
      var (q, w') := SaveAll(chain, w1, Cast(chain, r, i), NextCells(w.results));
      GoesOn(chain, st, Alone(w.stores, At(owner, r, i, SaveDeposit)),
             if q.Returns? then Alone(w'.stores, AtAction(owner, r, i + 1)) else AfterThrow(w'.stores, owner, r, i));
    }
  }

  // The ledger check and what follows it.
  lemma HandleIsRun(chain: Chain, enableFailedDao: bool, w: World, owner: Owner, r: Receipt, i: nat)
    requires i < |Actions(r)|
    ensures var (q, w') := Handle(chain, enableFailedDao, w, Cast(chain, r, i));
      Goes(chain, Alone(w.stores, At(owner, r, i, Check)),
           if q.Returns? then Alone(w'.stores, AtAction(owner, r, i + 1)) else AfterThrow(w'.stores, owner, r, i))
  {
    hide Cast, RunAndSave, Goes, AtAction, AfterThrow, LedgerKeyOf;
    var a, st := Cast(chain, r, i), Alone(w.stores, At(owner, r, i, Check));
    if Blocked(enableFailedDao, a) {
      Reject(chain, w.stores, owner, r, i, Check, NO, false);
    } else {
      var (row, w1) := CheckLedger(w, a);
      Succeed(chain, w.stores, At(owner, r, i, Check), if row.Some? then YES else NO);
      if row.None? && !a.failed {
        RunAndSaveIsRun(chain, w1, owner, r, i);
        var (q, w') := RunAndSave(chain, w1, a);
        GoesOn(chain, st, Alone(w.stores, At(owner, r, i, Handlers)),
               if q.Returns? then Alone(w'.stores, AtAction(owner, r, i + 1)) else AfterThrow(w'.stores, owner, r, i));
      }
    }
  }

  lemma FetchThenHandleIsRun(chain: Chain, enableFailedDao: bool, w: World, owner: Owner, r: Receipt, i: nat)
    requires i < |Actions(r)|
    ensures var (ok, w') := FetchThenHandle(chain, enableFailedDao, w, Cast(chain, r, i));
      Goes(chain, Alone(w.stores, AtAction(owner, r, i)),
           if ok then Alone(w'.stores, AtAction(owner, r, i + 1)) else AfterThrow(w'.stores, owner, r, i))
  {
    hide Cast, Handle, Goes, AfterThrow;
    var st := Alone(w.stores, AtAction(owner, r, i));
    if NextReply(w) != Passes {
      Reject(chain, w.stores, owner, r, i, Fetch, NO, false);
    } else {
      Succeed(chain, w.stores, At(owner, r, i, Fetch), NO);
      HandleIsRun(chain, enableFailedDao, Awaited(w), owner, r, i);
      var (q, w') := Handle(chain, enableFailedDao, Awaited(w), Cast(chain, r, i));
      GoesOn(chain, st, Alone(w.stores, At(owner, r, i, Check)),
             if q.Returns? then Alone(w'.stores, AtAction(owner, r, i + 1)) else AfterThrow(w'.stores, owner, r, i));
    }
  }

  // The loop over the actions from the i-th on, whatever its awaits answer.
  lemma {:induction false} LoopIsRun(chain: Chain, enableFailedDao: bool, w: World, owner: Owner, r: Receipt, i: nat)
    requires i <= |Actions(r)|
    ensures var stop := HandleEach(chain, enableFailedDao, w, CastAll(chain, r)[i..]);
      Goes(chain, Alone(w.stores, AtAction(owner, r, i)),
           if i + stop.n == |Actions(r)| then Alone(stop.world.stores, AtAction(owner, r, |Actions(r)|))
           else AfterThrow(stop.world.stores, owner, r, i + stop.n))
    decreases |Actions(r)| - i
  {
    hide Actions, Cast, FetchThenHandle, Goes, AfterThrow, AtAction, HandleEach;
    var actions := CastAll(chain, r);
    if i == |Actions(r)| {
      HandleEachNone(chain, enableFailedDao, w, actions);
      GoesNowhere(chain, Alone(w.stores, AtAction(owner, r, i)));
    } else {
      HandleEachHead(chain, enableFailedDao, w, actions, i);
      FetchThenHandleIsRun(chain, enableFailedDao, w, owner, r, i);
      var (ok, w') := FetchThenHandle(chain, enableFailedDao, w, actions[i]);
      if ok {
        LoopIsRun(chain, enableFailedDao, w', owner, r, i + 1);
        var stop := HandleEach(chain, enableFailedDao, w', actions[i + 1..]);
        GoesOn(chain, Alone(w.stores, AtAction(owner, r, i)), Alone(w'.stores, AtAction(owner, r, i + 1)),
               if i + 1 + stop.n == |Actions(r)| then Alone(stop.world.stores, AtAction(owner, r, |Actions(r)|))
               else AfterThrow(stop.world.stores, owner, r, i + 1 + stop.n));
      }
    }
  }

  // A worker whose action threw records the error in both stores, deletes the entry and goes on with the batch.
  lemma FailureIsRun(chain: Chain, s: Stores, batch: seq<nat>, r: Receipt, i: nat)
    requires i < |Actions(r)| && batch != []
    ensures var id := ActionId(r.receiptId, i);
      var s' := Remove(CreatePostgres(CreateDynamo(s, id, r), id, r), batch[0]);
      Goes(chain, AfterThrow(s, Stream(batch), r, i),
           if |batch| == 1 then Idle(s') else Alone(s', Waiting(Stream(batch[1..]))))
  {
    hide Goes, CreateDynamo, CreatePostgres;
    var owner, id := Stream(batch), ActionId(r.receiptId, i);
    var s1 := CreateDynamo(s, id, r);
    var s2 := CreatePostgres(s1, id, r);
    var start := AfterThrow(s, owner, r, i);
    Succeed(chain, s, Running(owner, r, Fail(i, OpenInDynamo)), NO);
    Succeed(chain, s1, Running(owner, r, Fail(i, ListOpenId)), NO);
    Succeed(chain, s1, Running(owner, r, Fail(i, OpenInPostgres)), NO);
    Succeed(chain, s2, Running(owner, r, Fail(i, SaveFailedState)), NO);
    Succeed(chain, s2, Running(owner, r, Delete), NO);
    GoesOn(chain, start, Alone(s1, Running(owner, r, Fail(i, ListOpenId))),
           Alone(s1, Running(owner, r, Fail(i, OpenInPostgres))));
    GoesOn(chain, start, Alone(s1, Running(owner, r, Fail(i, OpenInPostgres))),
           Alone(s2, Running(owner, r, Fail(i, SaveFailedState))));
    GoesOn(chain, start, Alone(s2, Running(owner, r, Fail(i, SaveFailedState))), Alone(s2, Running(owner, r, Delete)));
    GoesOn(chain, start, Alone(s2, Running(owner, r, Delete)),
           if |batch| == 1 then Idle(Remove(s2, batch[0]))
           else Alone(Remove(s2, batch[0]), Waiting(Stream(batch[1..]))));
  }

  // One whose actions are all handled deletes the entry and goes on likewise.
  lemma FinishIsRun(chain: Chain, s: Stores, batch: seq<nat>, r: Receipt)
    requires batch != []
    ensures Goes(chain, Alone(s, AtAction(Stream(batch), r, |Actions(r)|)),
                 if |batch| == 1 then Idle(Remove(s, batch[0]))
                 else Alone(Remove(s, batch[0]), Waiting(Stream(batch[1..]))))
  {
    hide Goes;
    var owner := Stream(batch);
    Succeed(chain, s, Running(owner, r, Finish), NO);
    Succeed(chain, s, Running(owner, r, Delete), NO);
    GoesOn(chain, Alone(s, Running(owner, r, Finish)), Alone(s, Running(owner, r, Delete)),
           if |batch| == 1 then Idle(Remove(s, batch[0])) else Alone(Remove(s, batch[0]), Waiting(Stream(batch[1..]))));
  }
}
