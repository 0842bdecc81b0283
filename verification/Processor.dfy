/**
 * The loops of the indexer processor as they run between a worker's start and its end, without interleaving:
 * what each call leaves behind, whatever its awaits answer.
 */
module Processor {
  import opened Wrappers
  import opened Keys
  import opened Receipts
  import opened Stores
  import opened Lists
  import opened Handling
  import opened Receiving

  // ---------- the processor ----------

  // The live entry ids from `from` on, in stream order.
  function LiveFrom(s: Stores, from: nat): (ids: seq<nat>)
    ensures forall id :: id in ids <==> from <= id < |s.log| && id in s.live
    ensures forall i, j :: 0 <= i < j < |ids| ==> ids[i] < ids[j]
    decreases |s.log| - from
  {
    if from >= |s.log| then []
    else
      var rest := LiveFrom(s, from + 1);
      assert forall i :: 0 <= i < |rest| ==> rest[i] in rest;
      if from in s.live then [from] + rest else rest
  }

  function FirstOf(ids: seq<nat>, n: nat): (first: seq<nat>)
    ensures first <= ids && |first| == (if n < |ids| then n else |ids|)
    ensures forall id :: id in first ==> id in ids
  {
    if n < |ids| then ids[..n] else ids
  }

  function Ids(entries: seq<nat>): set<nat> {
    set id | id in entries
  }

  class IndexerProcessor {
    const chain: Chain
    const enableFailedDao: bool
    var stores: Stores
    var replies: seq<Reply>      // what the next awaits answer; once used up, they pass
    var results: seq<seq<Cell>>  // what the contract handlers return next

    constructor (chain: Chain, enableFailedDao: bool, stores: Stores, replies: seq<Reply>, results: seq<seq<Cell>>)
      ensures this.chain == chain && this.enableFailedDao == enableFailedDao
      ensures this.stores == stores && this.replies == replies && this.results == results
    {
      this.chain, this.enableFailedDao := chain, enableFailedDao;
      this.stores, this.replies, this.results := stores, replies, results;
    }

    ghost function Now(): World
      reads this
    {
      World(stores, replies, results)
    }

    method Await() returns (reply: Reply)
      modifies `replies
      ensures reply == NextReply(old(Now())) && replies == Tail(old(replies))
    {
      if replies == [] {
        reply := Passes;
      } else {
        reply, replies := replies[0], replies[1..];
      }
    }

    method RunHandlers() returns (cells: seq<Cell>)
      modifies `results
      ensures cells == NextCells(old(results)) && results == Tail(old(results))
    {
      if results == [] {
        cells := [];
      } else {
        cells, results := results[0], results[1..];
      }
    }

    ghost predicate Ready(a: TransactionAction)
      reads this
    {
      Inv(chain, stores) && Known(chain, stores, a)
    }

    method HandleTransactionAction(a: TransactionAction) returns (r: Outcome<seq<Cell>>)
      modifies this
      ensures Handle(chain, enableFailedDao, old(Now()), a) == (r, Now())
      ensures old(Ready(a)) ==> HandledWell(chain, old(stores), stores, a, NextCells(old(results)), r)
    {
      hide Inv, Known, HandledWell;
      if Ready(a) {
        HandleKeeps(chain, enableFailedDao, Now(), a);
      }
      if Blocked(enableFailedDao, a) {
        return Throws;
      }
      var row := ReadLedger(a);
      if row.Some? {
        return Returns(row.value);
      }
      if a.failed {
        return Returns([]);
      }
      r := RunHandlersAndSave(a);
    }

    method ReadLedger(a: TransactionAction) returns (row: Option<seq<Cell>>)
      modifies `replies
      ensures CheckLedger(old(Now()), a) == (row, Now())
    {
      var read := Await();
      row := if read == Passes && LedgerKeyOf(a) in stores.ledger then Some(stores.ledger[LedgerKeyOf(a)]) else None;
    }

    method RunHandlersAndSave(a: TransactionAction) returns (r: Outcome<seq<Cell>>)
      modifies this
      ensures RunAndSave(chain, old(Now()), a) == (r, Now())
    {
      hide SaveRecord, SaveRow;
      var handled := Await();
      if handled != Passes {
        return Throws;
      }
      var cells := RunHandlers();
      var deposit := SaveFundsRecord(a, DepositFunds);
      if !deposit {
        return Throws;
      }
      var token := SaveFundsRecord(a, TokenFunds);
      if !token {
        return Throws;
      }
      r := SaveLedgerRow(a, cells);
    }

    method SaveLedgerRow(a: TransactionAction, cells: seq<Cell>) returns (r: Outcome<seq<Cell>>)
      modifies `stores, `replies
      ensures SaveRow(old(Now()), a, cells) == (r, Now())
    {
      var reply := Await();
      if reply != RejectsBefore {
        stores := SaveLedger(stores, a, SavedForm(cells));
      }
      r := if reply == Passes then Returns(cells) else Throws;
    }

    method SaveFundsRecord(a: TransactionAction, kind: FundsKind) returns (ok: bool)
      modifies `stores, `replies
      ensures SaveRecord(chain, old(Now()), a, kind) == (ok, Now())
      ensures old(Ready(a)) && !a.failed ==>
        && Inv(chain, stores) && (stores == old(stores) || stores == SaveFunds(chain, old(stores), a, kind))
        && (ok ==> FundsStored(chain, stores, a, kind))
    {
      hide Inv, Known, FundsOf, SaveFunds;
      if Ready(a) && !a.failed {
        SaveRecordKeeps(chain, Now(), a, kind);
      }
      match FundsOf(chain, a, kind)
      case Throws => return false;
      case Returns(None) => return true;
      case Returns(Some(f)) =>
        var reply := Await();
        if reply != RejectsBefore {
          stores := PutFunds(stores, f);
        }
        return reply == Passes;
    }

    // handleTransactionActions: one by one, up to the first failure; n counts the actions handled.
    method HandleTransactionActions(actions: seq<TransactionAction>)
      returns (hashes: seq<string>, cells: seq<Cell>, success: bool, n: nat)
      modifies this
      ensures HandleAll(chain, enableFailedDao, old(Now()), actions) == Outcomes(cells, n, success, Now())
      ensures n <= |actions| && hashes == HandledHashes(actions, n)
      ensures old(Inv(chain, stores) && AllKnown(chain, stores, actions)) ==>
        AllHandledWell(chain, old(stores), actions, Outcomes(cells, n, success, Now()))
    {
      hide Inv, Handle, HandleAll, Hashes, HandledWell, AllHandledWell, AllKnown, Truthy;
      ghost var whole := HandleAll(chain, enableFailedDao, Now(), actions);
      if Inv(chain, stores) && AllKnown(chain, stores, actions) {
        HandleAllKeeps(chain, enableFailedDao, Now(), actions);
      }
      hashes, cells, n := [], [], 0;
      NoHashes(actions);
      assert actions[0..] == actions;
      while n < |actions|
        invariant n <= |actions|
        invariant hashes == Hashes(actions[..n])
        invariant var rest := HandleAll(chain, enableFailedDao, Now(), actions[n..]);
          whole == Outcomes(cells + rest.cells, n + rest.n, rest.success, rest.world)
      {
        var a := actions[n];
        HandleAllHead(chain, enableFailedDao, Now(), actions, n);
        OneMoreHash(actions, n);
        var r := HandleTransactionAction(a);
        if r.Throws? {
          return Without(hashes, a.transactionHash), cells, false, n;
        }
        cells := cells + Truthy(r.value);
        hashes := hashes + [a.transactionHash];
        n := n + 1;
      }
      HandleAllNone(chain, enableFailedDao, Now(), actions);
      assert actions[..n] == actions;
      success := true;
    }

    // Handling the same actions again, with the ledger reads answered where it matters, gives the same truthy results.
    method HandleTwice(actions: seq<TransactionAction>, again: seq<Reply>)
      returns (first: seq<Cell>, second: seq<Cell>, success: bool)
      requires Inv(chain, stores) && AllKnown(chain, stores, actions) && DistinctRows(actions)
      requires ReadsAnswered(actions, again)
      modifies this
      ensures success ==> second == first
    {
      hide Inv, Known, Handle, AllKnown, AllHandledWell;
      ghost var start := Now();
      var hashes, n;
      hashes, first, success, n := HandleTransactionActions(actions);
      second := [];
      if success {
        HandleTwiceExactly(chain, enableFailedDao, start, actions, again);
        assert SecondAlike(chain, enableFailedDao, HandleAll(chain, enableFailedDao, start, actions), actions, again,
                           results);
        replies := again;
        hashes, second, success, n := HandleTransactionActions(actions);
      }
    }

    // ---------- receipts and errors ----------

    // getTransactionAction and handleTransactionAction; false: the loop body threw.
    method FetchAndHandle(receipt: Receipt, i: nat) returns (ok: bool)
      requires Inv(chain, stores) && Replayable(stores, receipt) && i < |Actions(receipt)|
      modifies this
      ensures Inv(chain, stores) && Grows(old(stores), stores) && OnlyFunds(old(stores), stores)
      ensures ok ==> Done(stores, Cast(chain, receipt, i))
      ensures FetchThenHandle(chain, enableFailedDao, old(Now()), Cast(chain, receipt, i)) == (ok, Now())
    {
      hide Handle;
      ReplayedIsKnown(chain, stores, receipt, i);
      var fetched := Await();
      if fetched != Passes {
        return false;
      }
      ghost var before := stores;
      var r := HandleTransactionAction(Cast(chain, receipt, i));
      assert HandledWell(chain, before, stores, Cast(chain, receipt, i), NextCells(old(results)), r);
      ok := r.Returns?;
    }

    // handleNewError; false: it rejected.
    method HandleNewError(r: Receipt, i: nat) returns (ok: bool)
      requires Inv(chain, stores) && Appended(stores, r) && i < |Actions(r)|
      modifies `stores, `replies
      ensures Inv(chain, stores) && Grows(old(stores), stores)
      ensures stores == old(stores).(dynamo := stores.dynamo, postgres := stores.postgres)
      ensures ok ==>
        stores == CreatePostgres(CreateDynamo(old(stores), ActionId(r.receiptId, i), r), ActionId(r.receiptId, i), r)
      ensures ok ==> Settled(chain, stores, r)
      ensures ok <==> PassFrom(old(replies), 0, 3)
      ensures ok ==> replies == old(Tail(Tail(Tail(replies))))
    {
      ThreePass(replies);
      GrowsRefl(stores);
      hide PassFrom, Inv, Grows, StoredForm;
      var id := ActionId(r.receiptId, i);
      assert ErrorOf(id, r);
      CreateDynamoKeeps(chain, stores, id, r);
      var reply := Await();
      if reply != RejectsBefore {
        stores := CreateDynamo(stores, id, r);
      }
      if reply != Passes {
        return false;
      }
      var listed := Await();
      if listed != Passes {
        return false;
      }
      CreatePostgresKeeps(chain, stores, id, r);
      GrowsTrans(old(stores), stores, CreatePostgres(stores, id, r));
      reply := Await();
      if reply != RejectsBefore {
        stores := CreatePostgres(stores, id, r);
      }
      ok := reply == Passes;
    }

    // How far the loop over the actions gets, if the state could be saved before it.
    ghost function LoopOver(receipt: Receipt): Stop
      reads this
    {
      HandleEach(chain, enableFailedDao, Awaited(Now()), CastAll(chain, receipt))
    }

    // The error of the i-th action is open in Dynamo and has its row in Postgres.
    ghost predicate ErrorRecorded(r: Receipt, i: nat)
      reads this
    {
      var id := r.receiptId + "-" + Decimal(i);
      && id in stores.dynamo && stores.dynamo[id] == ErrorRecord(Some(StoredForm(r, ViaDynamo)), Open)
      && id in stores.postgres && stores.postgres[id].receipt == Some(StoredForm(r, ViaPostgres))
    }

    // handleReceipt: true when every action was handled, false when an error was recorded for one.
    method HandleReceipt(r: Receipt) returns (out: Outcome<bool>)
      requires Inv(chain, stores) && Appended(stores, r)
      modifies this
      ensures Inv(chain, stores) && Grows(old(stores), stores)
      ensures stores.log == old(stores.log) && stores.live == old(stores.live)
      ensures out == Returns(true) ==>
        AllDone(chain, stores, r) && stores.dynamo == old(stores.dynamo) && stores.postgres == old(stores.postgres)
      ensures out.Returns? ==> Settled(chain, stores, r)
      // it returns true exactly if the loop comes to the end, and false exactly if it does not and the three awaits
      // that record the error and the one that saves the state pass
      ensures var stop := old(LoopOver(r));
        && (out == Returns(true) <==>
              old(NextReply(Now())) == Passes && stop.n == |Actions(r)| && PassFrom(stop.world.replies, 0, 2))
        && (out == Returns(false) <==>
              old(NextReply(Now())) == Passes && stop.n < |Actions(r)| && PassFrom(stop.world.replies, 0, 4))
      ensures out == Returns(false) ==>
        DoneUpTo(chain, stores, r, old(LoopOver(r)).n) && ErrorRecorded(r, old(LoopOver(r)).n)
      // if all awaits pass, it returns whether no action is stuck; if at most one rejects, and that is not the first,
      // it returns, or all is done
      ensures AllPass(old(replies)) ==>
        AllPass(replies) && out == Returns(NoneStuck(chain, enableFailedDao, CastAll(chain, r)))
      ensures AtMostOneRejects(old(replies)) && old(NextReply(Now())) == Passes
                && NoneStuck(chain, enableFailedDao, CastAll(chain, r)) ==>
        out.Returns? || AllDone(chain, stores, r)
    {
      hide Inv, Grows, Actions, Cast, Done, DoneUpTo, ErrorOf, StoredForm, FormOf, Settled, Handle, FetchThenHandle,
           PassFrom, AllPass, AtMostOneRejects, Stuck, NoneStuck, HandleEach;
      ghost var actions := CastAll(chain, r);
      ghost var stop := LoopOver(r);
      AppendedReplayable(stores, r);
      LoopEnds(chain, enableFailedDao, Now(), r);
      NothingDoneYet(chain, stores, r);
      GrowsRefl(stores);
      var reply := Await();
      if reply != Passes {
        return Throws;
      }
      var i := 0;
      assert actions[0..] == actions;
      while i < |Actions(r)|
        invariant i <= |Actions(r)|
        invariant Inv(chain, stores) && Grows(old(stores), stores) && OnlyFunds(old(stores), stores)
        invariant DoneUpTo(chain, stores, r, i)
        invariant var rest := HandleEach(chain, enableFailedDao, Now(), actions[i..]);
          stop == Stop(i + rest.n, rest.world)
      {
        AppendedGrows(old(stores), stores, r);
        AppendedReplayable(stores, r);
        HandleEachHead(chain, enableFailedDao, Now(), actions, i);
        ghost var before := stores;
        var ok := FetchAndHandle(r, i);
        GrowsTrans(old(stores), before, stores);
        AppendedGrows(before, stores, r);
        if !ok {
          assert stop == Stop(i, Now());
          DoneStays(chain, before, stores, r, i);
          FourPass(replies);
          ghost var failed := stores;
          out := RecordAndGiveUp(r, i);
          GrowsTrans(old(stores), failed, stores);
          return;
        }
        OneMoreDone(chain, before, stores, r, i);
        i := i + 1;
      }
      HandleEachNone(chain, enableFailedDao, Now(), actions);
      assert stop == Stop(i, Now());
      DoneIsSettled(chain, stores, r);
      TwoPass(replies);
      reply := Await();
      if reply != Passes {
        return Throws;
      }
      reply := Await();
      out := if reply == Passes then Returns(true) else Throws;
    }

    // The catch: record the error, save the state.
    method RecordAndGiveUp(r: Receipt, i: nat) returns (out: Outcome<bool>)
      requires Inv(chain, stores) && Appended(stores, r) && i < |Actions(r)| && DoneUpTo(chain, stores, r, i)
      modifies `stores, `replies
      ensures Inv(chain, stores) && Grows(old(stores), stores)
      ensures stores == old(stores).(dynamo := stores.dynamo, postgres := stores.postgres)
      ensures out == if PassFrom(old(replies), 0, 4) then Returns(false) else Throws
      ensures out.Returns? ==> DoneUpTo(chain, stores, r, i) && ErrorRecorded(r, i) && Settled(chain, stores, r)
      ensures AllPass(old(replies)) ==> AllPass(replies)
    {
      FourPass(replies);
      hide Inv, Grows, Done, DoneUpTo, Settled, PassFrom, AllPass, StoredForm;
      ghost var before := stores;
      var recorded := HandleNewError(r, i);
      if !recorded {
        return Throws;
      }
      DoneStays(chain, before, stores, r, i);
      var saved := Await();
      out := if saved == Passes then Returns(false) else Throws;
    }

    // One entry of the batch: handle it, then delete it. It is gone only after its receipt was settled.
    method HandleEntry(id: nat) returns (ok: bool, ghost gone: bool)
      requires Inv(chain, stores) && id < |stores.log|
      modifies this
      ensures Inv(chain, stores) && Grows(old(stores), stores) && stores.log == old(stores.log)
      ensures stores.live == if gone then old(stores.live) - {id} else old(stores.live)
      ensures gone ==> stores.log[id].Some? && Settled(chain, stores, stores.log[id].value)
      ensures ok ==> gone
      ensures stores.log[id].None? ==> !ok && !gone
      ensures AllPass(old(replies)) ==> AllPass(replies) && (ok <==> stores.log[id].Some?)
    {
      hide Inv, Grows, Settled, AllPass, AtMostOneRejects, PassFrom, HandleEach, NoneStuck;
      GrowsRefl(stores);
      if stores.log[id].None? {
        return false, false;  // parseJSON gave null, and the handler threw
      }
      LoggedIsAppended(stores, id);
      var out := HandleReceipt(stores.log[id].value);
      if out.Throws? {
        return false, false;
      }
      ghost var handled := stores;
      RepliesGoOn(replies);
      RemoveKeeps(chain, stores, id);
      GrowsTrans(old(stores), stores, Remove(stores, id));
      RemoveSettles(chain, stores, id);
      var reply := Await();
      if reply == RejectsBefore {
        return false, false;
      }
      stores := Remove(stores, id);
      return reply == Passes, true;
    }

    // handleStream: read a batch, then handle and delete its entries in order; false: it stopped at a rejection.
    method HandleStream(maxItems: nat) returns (ok: bool, ghost batch: seq<nat>, ghost k: nat)
      requires Inv(chain, stores)
      modifies this
      ensures Inv(chain, stores) && Grows(old(stores), stores) && stores.log == old(stores.log)
      // the batch is read if the first await passes; it is what the stream holds, up to so many entries
      ensures var entries := LiveFrom(old(stores), 0);
        && batch <= entries
        && |batch| == if old(NextReply(Now())) != Passes then 0
                      else if maxItems < |entries| then maxItems else |entries|
      ensures k <= |batch| && (ok ==> k == |batch|)
      // exactly the first k entries of the batch are gone, and none of their receipts is lost
      ensures stores.live == old(stores.live) - Ids(batch[..k])
      ensures AllSettled(chain, stores, batch[..k])
      // if all awaits pass, it goes on up to the first entry that is no JSON, and reports success without one
      ensures AllPass(old(replies)) ==>
        (ok <==> k == |batch|)
        && (k < |batch| ==> batch[k] < |stores.log| && stores.log[batch[k]].None?)
    {
      hide Inv, Grows, AllSettled, Settled, Ids, AllPass;
      GrowsRefl(stores);
      NoneSettledYet(chain, stores);
      NoIds(stores.live);
      batch, k := [], 0;
      RepliesGoOn(replies);
      var reply := Await();
      if reply != Passes {
        return false, batch, k;
      }
      var entries := FirstOf(LiveFrom(stores, 0), maxItems);
      batch := entries;
      var i := 0;
      while i < |entries|
        invariant i == k <= |entries| && batch == entries
        invariant Inv(chain, stores) && Grows(old(stores), stores) && stores.log == old(stores.log)
        invariant stores.live == old(stores.live) - Ids(batch[..k])
        invariant AllSettled(chain, stores, batch[..k])
        invariant AllPass(old(replies)) ==> AllPass(replies)
      {
        assert entries[i] in LiveFrom(old(stores), 0);
        ghost var before := stores;
        ghost var gone;
        ok, gone := HandleEntry(entries[i]);
        GrowsTrans(old(stores), before, stores);
        StaySettled(chain, before, stores, batch[..k]);
        if gone {
          OneMoreGone(chain, stores, batch, k);
          k := k + 1;
        }
        if !ok {
          return false, batch, k;
        }
        i := i + 1;
      }
      ok := true;
    }

    function ErrorStore(s: Stores, useDynamo: bool): Errors {
      if useDynamo then s.dynamo else s.postgres
    }

    // resolveError: replay the stored receipt, then mark the error resolved in both stores.
    method ResolveError(id: string, useDynamo: bool) returns (out: Outcome<()>)
      requires Inv(chain, stores)
      modifies this
      ensures Inv(chain, stores) && Grows(old(stores), stores) && stores.log == old(stores.log)
        && stores.live == old(stores.live)
      ensures out.Returns? ==> id in ErrorStore(old(stores), useDynamo) && id in stores.dynamo
      ensures out.Returns? ==> forall r :: Appended(stores, r) && ErrorOf(id, r) ==> AllDone(chain, stores, r)
      ensures id !in ErrorStore(old(stores), useDynamo) ==> out.Throws? && stores == old(stores)
      ensures id in ErrorStore(old(stores), useDynamo) && ErrorStore(old(stores), useDynamo)[id].status == Resolved ==>
        stores == old(stores)
      ensures out.Returns? && ErrorStore(old(stores), useDynamo)[id].status == Open ==>
        stores.dynamo[id].status == Resolved && (id in stores.postgres ==> stores.postgres[id].status == Resolved)
      // an error that is not resolved yet: it returns exactly if the loop comes to the end and the four awaits after
      // it pass
      ensures var errors := ErrorStore(old(stores), useDynamo);
        id in errors && errors[id].status != Resolved ==>
          && errors[id].receipt.Some?
          && var stop := old(LoopOver(errors[id].receipt.value));
          && (out.Returns? <==> old(NextReply(Now())) == Passes && stop.n == |Actions(errors[id].receipt.value)|
                                && PassFrom(stop.world.replies, 0, 4))
      // if all awaits pass, it returns unless there is no such error, or one that is not resolved has a stuck action
      ensures var errors := ErrorStore(old(stores), useDynamo);
        AllPass(old(replies)) ==>
          (out.Returns? <==>
             id in errors
             && (errors[id].status == Resolved
                 || (errors[id].receipt.Some?
                     && NoneStuck(chain, enableFailedDao, CastAll(chain, errors[id].receipt.value)))))
    {
      hide Inv, Grows, ErrorOf, FormOf, Cast, LedgerKeyOf, Actions, Stuck, NoneStuck, AllPass, PassFrom, HandleEach,
           Carries;
      GrowsRefl(stores);
      RepliesGoOn(replies);
      ghost var r;
      if id in ErrorStore(stores, useDynamo) {
        r := CarriedReceipt(chain, stores, ErrorStore(stores, useDynamo), id);
        LoopEnds(chain, enableFailedDao, Now(), ErrorStore(stores, useDynamo)[id].receipt.value);
      }
      var reply := Await();
      var errors := ErrorStore(stores, useDynamo);
      if reply != Passes || id !in errors {
        return Throws;
      }
      var e := errors[id];
      if e.status == Resolved || e.receipt.None? {
        return Returns(());
      }
      var ok := Replay(e.receipt.value, r);
      if !ok {
        return Throws;
      }
      FourPass(replies);
      ghost var replayed := stores;
      out := MarkResolved(id, r);
      GrowsTrans(old(stores), replayed, stores);
    }

    // The loop over the stored receipt's actions; false: one of them threw.
    method Replay(receipt: Receipt, ghost r: Receipt) returns (ok: bool)
      requires Inv(chain, stores) && Appended(stores, r) && FormOf(receipt, r)
      modifies this
      ensures Inv(chain, stores) && Grows(old(stores), stores) && OnlyFunds(old(stores), stores)
      ensures ok ==> AllDone(chain, stores, r)
      ensures var stop := old(HandleEach(chain, enableFailedDao, Now(), CastAll(chain, receipt)));
        (ok <==> stop.n == |Actions(receipt)|) && Now() == stop.world
    {
      hide Inv, Grows, Cast, Done, DoneUpTo, Actions, FormOf, HandleEach, FetchThenHandle;
      ghost var actions := CastAll(chain, receipt);
      ghost var stop := HandleEach(chain, enableFailedDao, Now(), actions);
      GrowsRefl(stores);
      NothingDoneYet(chain, stores, receipt);
      var i := 0;
      assert actions[0..] == actions;
      while i < |Actions(receipt)|
        invariant i <= |Actions(receipt)|
        invariant Inv(chain, stores) && Grows(old(stores), stores) && OnlyFunds(old(stores), stores)
        invariant DoneUpTo(chain, stores, receipt, i)
        invariant var rest := HandleEach(chain, enableFailedDao, Now(), actions[i..]);
          stop == Stop(i + rest.n, rest.world)
      {
        assert Replayable(stores, receipt);
        HandleEachHead(chain, enableFailedDao, Now(), actions, i);
        ghost var before := stores;
        var handled := FetchAndHandle(receipt, i);
        GrowsTrans(old(stores), before, stores);
        if !handled {
          return false;
        }
        OneMoreDone(chain, before, stores, receipt, i);
        i := i + 1;
      }
      HandleEachNone(chain, enableFailedDao, Now(), actions);
      TwinsDone(chain, stores, receipt, r);
      ok := true;
    }

    // setErrorStatus(id, Resolved) and the cache clearing after it.
    method MarkResolved(id: string, ghost r: Receipt) returns (out: Outcome<()>)
      requires Inv(chain, stores) && Appended(stores, r) && ErrorOf(id, r) && AllDone(chain, stores, r)
        && id in stores.dynamo
      modifies `stores, `replies
      ensures Inv(chain, stores) && Grows(old(stores), stores)
      ensures stores == old(stores).(dynamo := stores.dynamo, postgres := stores.postgres)
      ensures out.Returns? ==> stores == MarkPostgres(MarkDynamo(old(stores), id), id)
      ensures out.Returns? <==> PassFrom(old(replies), 0, 4)
    {
      FourPass(replies);
      ThreePass(replies);
      GrowsRefl(stores);
      hide Inv, Grows, PassFrom;
      var unlisted := Await();
      if unlisted != Passes {
        return Throws;
      }
      MarkDynamoKeeps(chain, stores, id, r);
      var reply := Await();
      if reply != RejectsBefore {
        stores := MarkDynamo(stores, id);
      }
      if reply != Passes {
        return Throws;
      }
      MarkPostgresKeeps(chain, stores, id, r);
      GrowsTrans(old(stores), stores, MarkPostgres(stores, id));
      reply := Await();
      if reply != RejectsBefore {
        stores := MarkPostgres(stores, id);
      }
      if reply != Passes {
        return Throws;
      }
      reply := Await();
      out := if reply == Passes then Returns(()) else Throws;
    }
  }

  lemma NoHashes(actions: seq<TransactionAction>)
    ensures Hashes(actions[..0]) == []
  {}

  lemma OneMoreHash(actions: seq<TransactionAction>, n: nat)
    requires n < |actions|
    ensures Hashes(actions[..n + 1]) == Hashes(actions[..n]) + [actions[n].transactionHash]
  {}

  lemma NothingDoneYet(chain: Chain, s: Stores, r: Receipt)
    ensures DoneUpTo(chain, s, r, 0)
  {}

  lemma OneMoreDone(chain: Chain, s: Stores, s': Stores, r: Receipt, i: nat)
    requires Grows(s, s') && i < |Actions(r)| && DoneUpTo(chain, s, r, i) && Done(s', Cast(chain, r, i))
    ensures DoneUpTo(chain, s', r, i + 1)
  {}

  lemma DoneStays(chain: Chain, s: Stores, s': Stores, r: Receipt, i: nat)
    requires Grows(s, s') && i <= |Actions(r)| && DoneUpTo(chain, s, r, i)
    ensures DoneUpTo(chain, s', r, i)
  {}

  lemma TwoPass(replies: seq<Reply>)
    ensures PassFrom(replies, 0, 2) <==>
      (replies == [] || replies[0] == Passes) && (Tail(replies) == [] || Tail(replies)[0] == Passes)
    ensures AllPass(replies) ==> PassFrom(replies, 0, 2) && AllPass(Tail(Tail(replies)))
    ensures AllPass(replies) ==> AllPass(Tail(replies))
  {
    PassHead(replies, 2);
    PassHead(Tail(replies), 1);
    PassNone(Tail(Tail(replies)));
  }

  lemma ThreePass(replies: seq<Reply>)
    ensures PassFrom(replies, 0, 3) <==>
      && (replies == [] || replies[0] == Passes)
      && (Tail(replies) == [] || Tail(replies)[0] == Passes)
      && (Tail(Tail(replies)) == [] || Tail(Tail(replies))[0] == Passes)
  {
    PassHead(replies, 3);
    TwoPass(Tail(replies));
  }

  lemma FourPass(replies: seq<Reply>)
    ensures var rest := Tail(Tail(Tail(replies)));
      && (PassFrom(replies, 0, 4) <==> PassFrom(replies, 0, 3) && (rest == [] || rest[0] == Passes))
      && (AllPass(replies) ==> PassFrom(replies, 0, 4) && AllPass(rest) && AllPass(Tail(rest)))
  {
    TwoPass(replies);
    TwoPass(Tail(replies));
    ThreePass(replies);
    PassHead(replies, 4);
    ThreePass(Tail(replies));
  }

  // How the loop over a receipt's actions ends.
  lemma LoopEnds(chain: Chain, enableFailedDao: bool, w: World, r: Receipt)
    requires Inv(chain, w.stores) && Replayable(w.stores, r)
    ensures var actions := CastAll(chain, r);
      var stop := HandleEach(chain, enableFailedDao, Awaited(w), actions);
      && (AllPass(w.replies) ==>
            && NextReply(w) == Passes && AllPass(stop.world.replies)
            && (stop.n == |actions| <==> NoneStuck(chain, enableFailedDao, actions)))
      && (AtMostOneRejects(w.replies) && NoneStuck(chain, enableFailedDao, actions) && stop.n < |actions| ==>
            AllPass(stop.world.replies))
  {
    hide Inv, Actions, Cast, Handle, FetchThenHandle, AllPass, AtMostOneRejects, Stuck, HandleEach, Known;
    var actions := CastAll(chain, r);
    forall a | a in actions ensures Known(chain, w.stores, a) {
      var i :| 0 <= i < |actions| && actions[i] == a;
      ReplayedIsKnown(chain, w.stores, r, i);
    }
    RepliesGoOn(w.replies);
    HandleEachEnds(chain, enableFailedDao, Awaited(w), actions);
    var n := HandleEach(chain, enableFailedDao, Awaited(w), actions).n;
    assert actions[..|actions|] == actions;
    assert n < |actions| ==> actions[n] in actions;
  }

  lemma DoneIsSettled(chain: Chain, s: Stores, r: Receipt)
    requires DoneUpTo(chain, s, r, |Actions(r)|)
    ensures AllDone(chain, s, r) && Settled(chain, s, r)
  {}

  // A receipt that is appended, or what a store gives back of it.
  ghost predicate Replayable(s: Stores, receipt: Receipt) {
    exists r :: Appended(s, r) && FormOf(receipt, r)
  }

  lemma AppendedReplayable(s: Stores, r: Receipt)
    requires Appended(s, r)
    ensures Replayable(s, r)
  {
    assert FormOf(r, r);
  }

  lemma ReplayedIsKnown(chain: Chain, s: Stores, receipt: Receipt, i: nat)
    requires Replayable(s, receipt) && i < |Actions(receipt)|
    ensures Known(chain, s, Cast(chain, receipt, i))
  {
    var r :| Appended(s, r) && FormOf(receipt, r);
    FormCasts(chain, receipt, r);
  }

  // None of these entries' receipts is lost.
  ghost predicate AllSettled(chain: Chain, s: Stores, ids: seq<nat>) {
    forall id :: id in ids ==> id < |s.log| && s.log[id].Some? && Settled(chain, s, s.log[id].value)
  }

  lemma NoIds(live: set<nat>)
    ensures live - Ids([]) == live
  {}

  lemma NoneSettledYet(chain: Chain, s: Stores)
    ensures AllSettled(chain, s, [])
  {}

  lemma StaySettled(chain: Chain, s: Stores, s': Stores, ids: seq<nat>)
    requires Inv(chain, s') && Grows(s, s') && AllSettled(chain, s, ids)
    ensures AllSettled(chain, s', ids)
  {
    forall id | id in ids ensures Settled(chain, s', s'.log[id].value) {
      SettledStays(chain, s, s', s.log[id].value);
    }
  }

  lemma OneMoreGone(chain: Chain, s: Stores, batch: seq<nat>, k: nat)
    requires k < |batch| && AllSettled(chain, s, batch[..k])
    requires batch[k] < |s.log| && s.log[batch[k]].Some? && Settled(chain, s, s.log[batch[k]].value)
    ensures AllSettled(chain, s, batch[..k + 1])
    ensures forall live: set<nat> :: live - Ids(batch[..k + 1]) == live - Ids(batch[..k]) - {batch[k]}
  {
    assert batch[..k + 1] == batch[..k] + [batch[k]];
    assert Ids(batch[..k + 1]) == Ids(batch[..k]) + {batch[k]};
  }

  // Deleting an entry leaves its receipt settled.
  lemma RemoveSettles(chain: Chain, s: Stores, id: nat)
    requires id < |s.log| && s.log[id].Some? && Settled(chain, s, s.log[id].value)
    ensures Settled(chain, Remove(s, id), s.log[id].value)
  {}

  lemma LoggedIsAppended(s: Stores, id: nat)
    requires id < |s.log| && s.log[id].Some?
    ensures Appended(s, s.log[id].value)
  {
    assert s.log[id] in s.log;
  }

  lemma TwinsDone(chain: Chain, s: Stores, receipt: Receipt, r: Receipt)
    requires FormOf(receipt, r) && DoneUpTo(chain, s, receipt, |Actions(receipt)|)
    ensures AllDone(chain, s, r)
  {
    FormDone(chain, s, receipt, r);
  }

  // The one receipt that an error id names and its record carries.
  lemma CarriedReceipt(chain: Chain, s: Stores, errors: Errors, id: string) returns (r: Receipt)
    requires Inv(chain, s) && (errors == s.dynamo || errors == s.postgres) && id in errors
    ensures Appended(s, r) && ErrorOf(id, r) && errors[id].receipt.Some? && FormOf(errors[id].receipt.value, r)
    ensures forall q :: Appended(s, q) && ErrorOf(id, q) ==> q == r
    ensures errors[id].status != Open ==> AllDone(chain, s, r)
    ensures id in s.dynamo
  {
    var medium := if errors == s.dynamo then ViaDynamo else ViaPostgres;
    r :| Carries(chain, s, id, errors[id], r, medium);
    StoredIsForm(r, medium);
    forall q | Appended(s, q) && ErrorOf(id, q) ensures q == r {
      ErrorOfIsUnique(s, id, r, q);
    }
  }
}
