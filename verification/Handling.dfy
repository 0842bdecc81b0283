/**
 * Handling actions, as a function of what the stores hold, what the awaits answer and what the handlers return.
 */
module Handling {
  import opened Wrappers
  import opened Keys
  import opened Receipts
  import opened Stores
  import opened Lists

  // An await passes, or rejects before or after its write took effect.
  datatype Reply = Passes | RejectsBefore | RejectsAfter

  // What the next awaits answer (once used up, they pass), and what the contract handlers return next.
  datatype World = World(stores: Stores, replies: seq<Reply>, results: seq<seq<Cell>>)

  function NextReply(w: World): Reply {
    if w.replies == [] then Passes else w.replies[0]
  }

  function Tail<T>(xs: seq<T>): seq<T> {
    if xs == [] then [] else xs[1..]
  }

  function Awaited(w: World): World {
    w.(replies := Tail(w.replies))
  }

  function NextCells(results: seq<seq<Cell>>): seq<Cell> {
    if results == [] then [] else results[0]
  }

  // ---------- result lists ----------

  // `actionResults.filter((result) => result)`
  function Truthy(cells: seq<Cell>): seq<Cell> {
    if cells == [] then [] else (if cells[0].Result? then [cells[0]] else []) + Truthy(cells[1..])
  }

  // What the table gives back for a stored list: undefined elements have become null.
  function SavedForm(cells: seq<Cell>): seq<Cell> {
    seq(|cells|, i requires 0 <= i < |cells| => if cells[i] == Undefined then Null else cells[i])
  }

  lemma {:induction false} SavedFormTruthy(cells: seq<Cell>)
    ensures Truthy(SavedForm(cells)) == Truthy(cells)
  {
    if cells != [] {
      assert SavedForm(cells)[1..] == SavedForm(cells[1..]);
      SavedFormTruthy(cells[1..]);
    }
  }

  function RowResults(s: Stores, a: TransactionAction): seq<Cell> {
    if LedgerKeyOf(a) in s.ledger then Truthy(s.ledger[LedgerKeyOf(a)]) else []
  }

  // The truthy results that the ledger holds for a list of actions.
  function LedgerResults(s: Stores, actions: seq<TransactionAction>): seq<Cell> {
    if actions == [] then [] else RowResults(s, actions[0]) + LedgerResults(s, actions[1..])
  }

  ghost predicate EachDone(s: Stores, actions: seq<TransactionAction>) {
    forall a :: a in actions ==> Done(s, a)
  }

  // No two of the actions share a ledger row.
  ghost predicate DistinctRows(actions: seq<TransactionAction>) {
    forall i, j :: 0 <= i < j < |actions| ==> LedgerKeyOf(actions[i]) != LedgerKeyOf(actions[j])
  }

  // ---------- transaction hashes ----------

  function Hashes(actions: seq<TransactionAction>): (hashes: seq<string>)
    ensures |hashes| == |actions|
    ensures forall i :: 0 <= i < |hashes| ==> hashes[i] == actions[i].transactionHash
  {
    seq(|actions|, i requires 0 <= i < |actions| => actions[i].transactionHash)
  }

  // The hashes returned when the first n actions were handled and the next one, if any, failed.
  function HandledHashes(actions: seq<TransactionAction>, n: nat): seq<string>
    requires n <= |actions|
  {
    if n == |actions| then Hashes(actions) else Without(Hashes(actions[..n]), actions[n].transactionHash)
  }

  ghost predicate Contiguous(actions: seq<TransactionAction>) {
    forall i, j, k :: 0 <= i < j < k < |actions| && actions[i].transactionHash == actions[k].transactionHash
      ==> actions[j].transactionHash == actions[i].transactionHash
  }

  // A returned hash has no action left unhandled, exactly when no other transaction straddles the failed action.
  lemma HandledHashesComplete(actions: seq<TransactionAction>, n: nat)
    requires n <= |actions|
    ensures (forall h, j :: h in HandledHashes(actions, n) && n <= j < |actions| ==> actions[j].transactionHash != h)
       <==> (forall i, j :: 0 <= i < n < j < |actions| && actions[i].transactionHash == actions[j].transactionHash
               ==> actions[i].transactionHash == actions[n].transactionHash)
  {
    if n < |actions| {
      var before := Hashes(actions[..n]);
      forall i, j | 0 <= i < n < j < |actions| && actions[i].transactionHash == actions[j].transactionHash
        && actions[i].transactionHash != actions[n].transactionHash
        ensures actions[i].transactionHash in HandledHashes(actions, n)
      {
        assert before[i] == actions[i].transactionHash;
      }
      forall h, j | h in HandledHashes(actions, n) && n <= j < |actions| && actions[j].transactionHash == h
        ensures exists i :: 0 <= i < n < j && actions[i].transactionHash == h != actions[n].transactionHash
      {
        var i :| 0 <= i < n && before[i] == h;
        assert actions[i].transactionHash == h;
      }
    }
  }

  lemma ContiguousIsComplete(actions: seq<TransactionAction>, n: nat)
    requires n <= |actions| && Contiguous(actions)
    ensures forall h, j :: h in HandledHashes(actions, n) && n <= j < |actions| ==> actions[j].transactionHash != h
  {
    HandledHashesComplete(actions, n);
  }

  // ---------- one action ----------

  predicate Blocked(enableFailedDao: bool, a: TransactionAction) {
    enableFailedDao && "astro-failed-test" <= a.receiverId
  }

  // A read that rejects counts as "not found".
  function CheckLedger(w: World, a: TransactionAction): (Option<seq<Cell>>, World) {
    (if NextReply(w) == Passes && LedgerKeyOf(a) in w.stores.ledger then Some(w.stores.ledger[LedgerKeyOf(a)])
     else None, Awaited(w))
  }

  // One of the two saves of saveDaoFunds; false: it rejected, or threw before it was sent.
  function SaveRecord(chain: Chain, w: World, a: TransactionAction, kind: FundsKind): (bool, World) {
    match FundsOf(chain, a, kind)
    case Throws => (false, w)
    case Returns(None) => (true, w)
    case Returns(Some(f)) =>
      (NextReply(w) == Passes,
       Awaited(w).(stores := if NextReply(w) == RejectsBefore then w.stores else PutFunds(w.stores, f)))
  }

  function SaveRow(w: World, a: TransactionAction, cells: seq<Cell>): (Outcome<seq<Cell>>, World) {
    (if NextReply(w) == Passes then Returns(cells) else Throws,
     Awaited(w).(stores :=
       if NextReply(w) == RejectsBefore then w.stores else SaveLedger(w.stores, a, SavedForm(cells))))
  }

  // saveDaoFunds and the ledger save.
  function SaveAll(chain: Chain, w: World, a: TransactionAction, cells: seq<Cell>): (Outcome<seq<Cell>>, World) {
    var (deposit, w1) := SaveRecord(chain, w, a, DepositFunds);
    if !deposit then (Throws, w1)
    else
      var (token, w2) := SaveRecord(chain, w1, a, TokenFunds);
      if !token then (Throws, w2) else SaveRow(w2, a, cells)
  }

  // The contract handlers and the saves.
  function RunAndSave(chain: Chain, w: World, a: TransactionAction): (Outcome<seq<Cell>>, World) {
    if NextReply(w) != Passes then (Throws, Awaited(w))
    else SaveAll(chain, Awaited(w).(results := Tail(w.results)), a, NextCells(w.results))
  }

  // handleTransactionAction
  function Handle(chain: Chain, enableFailedDao: bool, w: World, a: TransactionAction): (Outcome<seq<Cell>>, World) {
    if Blocked(enableFailedDao, a) then (Throws, w)
    else
      var (row, w1) := CheckLedger(w, a);
      if row.Some? then (Returns(row.value), w1)
      else if a.failed then (Returns([]), w1)
      else RunAndSave(chain, w1, a)
  }

  ghost predicate PassFrom(replies: seq<Reply>, from: nat, to: nat) {
    forall k :: from <= k < to && k < |replies| ==> replies[k] == Passes
  }

  // How many treasury records it saves.
  function Saves(chain: Chain, a: TransactionAction): nat
    requires CanFund(chain, a)
  {
    (if FundsOf(chain, a, DepositFunds).value.Some? then 1 else 0)
    + (if FundsOf(chain, a, TokenFunds).value.Some? then 1 else 0)
  }

  lemma SaveRecordReturns(chain: Chain, w: World, a: TransactionAction, kind: FundsKind)
    ensures var (ok, w') := SaveRecord(chain, w, a, kind);
      && (ok <==> FundsOf(chain, a, kind).Returns? && (FundsOf(chain, a, kind).value.Some? ==> NextReply(w) == Passes))
      && w'.replies ==
           if FundsOf(chain, a, kind).Returns? && FundsOf(chain, a, kind).value.Some? then Tail(w.replies)
           else w.replies
  {
    hide FundsOf;
  }

  lemma PassHead(replies: seq<Reply>, n: nat)
    requires n > 0
    ensures PassFrom(replies, 0, n) <==> (replies == [] || replies[0] == Passes) && PassFrom(Tail(replies), 0, n - 1)
  {
    if replies != [] {
      assert forall k :: 1 <= k < |replies| ==> replies[k] == Tail(replies)[k - 1];
      assert forall k :: 0 <= k < |Tail(replies)| ==> replies[k + 1] == Tail(replies)[k];
    }
  }

  lemma PassTail(replies: seq<Reply>, from: nat, to: nat)
    requires 0 < from
    ensures PassFrom(replies, from, to) <==> to == 0 || PassFrom(Tail(replies), from - 1, to - 1)
  {
    if replies != [] {
      assert forall k :: 1 <= k < |replies| ==> replies[k] == Tail(replies)[k - 1];
      assert forall k :: 0 <= k < |Tail(replies)| ==> replies[k + 1] == Tail(replies)[k];
    }
  }

  lemma SaveAllReturns(chain: Chain, w: World, a: TransactionAction, cells: seq<Cell>)
    ensures SaveAll(chain, w, a, cells).0.Returns?
      <==> CanFund(chain, a) && PassFrom(w.replies, 0, 1 + Saves(chain, a))
  {
    hide FundsOf, SaveRecord, PassFrom;
    SaveRecordReturns(chain, w, a, DepositFunds);
    var w1 := SaveRecord(chain, w, a, DepositFunds).1;
    SaveRecordReturns(chain, w1, a, TokenFunds);
    if CanFund(chain, a) {
      PassHead(w.replies, 1 + Saves(chain, a));
      if Saves(chain, a) > 0 {
        PassHead(Tail(w.replies), Saves(chain, a));
      }
      if Saves(chain, a) > 1 {
        PassHead(Tail(Tail(w.replies)), 1);
      }
      PassNone(Tail(Tail(Tail(w.replies))));
      PassNone(Tail(Tail(w.replies)));
      PassNone(Tail(w.replies));
    }
  }

  lemma PassNone(replies: seq<Reply>)
    ensures PassFrom(replies, 0, 0)
  {}

  // Handling an action returns exactly if it is not barred, and its transaction failed, or its row is read, or its
  // amounts can be read and every await after the read of the ledger passes: the handlers, the saves and the row.
  lemma HandleReturnsExactly(chain: Chain, enableFailedDao: bool, w: World, a: TransactionAction)
    ensures Handle(chain, enableFailedDao, w, a).0.Returns?
      <==> && !(enableFailedDao && "astro-failed-test" <= a.receiverId)
           && (|| a.failed
               || (LedgerKeyOf(a) in w.stores.ledger && PassFrom(w.replies, 0, 1))
               || (CanFund(chain, a) && PassFrom(w.replies, 1, 3 + Saves(chain, a))))
  {
    hide FundsOf, SaveAll, LedgerKeyOf, PassFrom, CanFund;
    PassHead(w.replies, 1);
    PassNone(Tail(w.replies));
    if CanFund(chain, a) {
      PassTail(w.replies, 1, 3 + Saves(chain, a));
      PassHead(Tail(w.replies), 2 + Saves(chain, a));
    }
    SaveAllReturns(chain, Awaited(Awaited(w)).(results := Tail(w.results)), a, NextCells(w.results));
  }

  // What handleTransactionActions has when it returns; n counts the actions handled.
  datatype Outcomes = Outcomes(cells: seq<Cell>, n: nat, success: bool, world: World)

  function HandleAll(chain: Chain, enableFailedDao: bool, w: World, actions: seq<TransactionAction>): Outcomes
    decreases |actions|
  {
    if actions == [] then Outcomes([], 0, true, w)
    else
      var (r, w1) := Handle(chain, enableFailedDao, w, actions[0]);
      if r.Throws? then Outcomes([], 0, false, w1)
      else
        var rest := HandleAll(chain, enableFailedDao, w1, actions[1..]);
        rest.(cells := Truthy(r.value) + rest.cells, n := rest.n + 1)
  }

  lemma HandleAllHead(chain: Chain, enableFailedDao: bool, w: World, actions: seq<TransactionAction>, n: nat)
    requires n < |actions|
    ensures var (r, w1) := Handle(chain, enableFailedDao, w, actions[n]);
      var h, rest :=
        HandleAll(chain, enableFailedDao, w, actions[n..]), HandleAll(chain, enableFailedDao, w1, actions[n + 1..]);
      h == if r.Throws? then Outcomes([], 0, false, w1)
           else rest.(cells := Truthy(r.value) + rest.cells, n := rest.n + 1)
  {
    hide Handle;
    assert actions[n..][0] == actions[n] && actions[n..][1..] == actions[n + 1..];
  }

  lemma HandleAllNone(chain: Chain, enableFailedDao: bool, w: World, actions: seq<TransactionAction>)
    ensures HandleAll(chain, enableFailedDao, w, actions[|actions|..]) == Outcomes([], 0, true, w)
  {}

  // ---------- what one action leaves behind ----------

  // Nothing but the ledger and the funds may differ between the two.
  ghost predicate OnlyFunds(before: Stores, after: Stores) {
    after == before.(ledger := after.ledger, funds := after.funds)
  }

  // The first n of the writes that handling an action makes: deposit record, token record, ledger row.
  function Written(chain: Chain, s: Stores, a: TransactionAction, cells: seq<Cell>, n: nat): Stores {
    if n == 0 then s
    else if n == 1 then SaveFunds(chain, s, a, DepositFunds)
    else if n == 2 then SaveFunds(chain, SaveFunds(chain, s, a, DepositFunds), a, TokenFunds)
    else SaveLedger(SaveFunds(chain, SaveFunds(chain, s, a, DepositFunds), a, TokenFunds), a, SavedForm(cells))
  }

  // Some of these writes were made, in this order.
  ghost predicate WrittenSoFar(chain: Chain, s: Stores, s': Stores, a: TransactionAction, cells: seq<Cell>) {
    exists n :: 0 <= n <= 3 && s' == Written(chain, s, a, cells, n)
  }

  // It returned the stored row, nothing for a failed transaction, or what the handlers returned after all writes.
  ghost predicate HandledNow(chain: Chain, s: Stores, s': Stores, a: TransactionAction, cells: seq<Cell>,
                             returned: seq<Cell>)
  {
    || (s' == s && LedgerKeyOf(a) in s.ledger && returned == s.ledger[LedgerKeyOf(a)])
    || (s' == s && a.failed && returned == [])
    || (!a.failed && returned == cells && s' == Written(chain, s, a, cells, 3))
  }

  lemma SaveRecordKeeps(chain: Chain, w: World, a: TransactionAction, kind: FundsKind)
    requires Inv(chain, w.stores) && Known(chain, w.stores, a) && !a.failed
    ensures var (ok, w') := SaveRecord(chain, w, a, kind);
      && Inv(chain, w'.stores) && Grows(w.stores, w'.stores) && w'.stores == w.stores.(funds := w'.stores.funds)
      && (w'.stores == w.stores || w'.stores == SaveFunds(chain, w.stores, a, kind))
      && (ok ==> FundsStored(chain, w'.stores, a, kind) && w'.stores == SaveFunds(chain, w.stores, a, kind))
  {
    hide Inv, Grows, Known, FundsOf, KeyOf;
    SaveFundsKeeps(chain, w.stores, a, kind);
    GrowsRefl(w.stores);
    if FundsOf(chain, a, kind).Returns? {
      SaveFundsStores(chain, w.stores, a, kind);
    }
  }

  lemma OneRowChanged(s: Stores, s': Stores, a: TransactionAction, cells: seq<Cell>)
    requires s'.ledger == s.ledger || s'.ledger == s.ledger[LedgerKeyOf(a) := SavedForm(cells)]
    ensures s'.ledger - {LedgerKeyOf(a)} == s.ledger - {LedgerKeyOf(a)}
    ensures s'.ledger == s.ledger[LedgerKeyOf(a) := SavedForm(cells)] ==> RowResults(s', a) == Truthy(cells)
  {
    SavedFormTruthy(cells);
  }

  lemma SaveRowKeeps(chain: Chain, w: World, a: TransactionAction, cells: seq<Cell>)
    requires Inv(chain, w.stores) && Known(chain, w.stores, a) && !a.failed
    requires FundsStored(chain, w.stores, a, DepositFunds) && FundsStored(chain, w.stores, a, TokenFunds)
    ensures var (r, w') := SaveRow(w, a, cells);
      && Inv(chain, w'.stores) && Grows(w.stores, w'.stores)
      && (w'.stores == w.stores || w'.stores == SaveLedger(w.stores, a, SavedForm(cells)))
      && (r.Returns? ==>
          r.value == cells && w'.stores == SaveLedger(w.stores, a, SavedForm(cells)) && Done(w'.stores, a))
  {
    SaveLedgerKeeps(chain, w.stores, a, SavedForm(cells));
    GrowsRefl(w.stores);
    hide Inv, Grows, Known, FundsStored;
  }

  lemma StoredGrows(chain: Chain, s: Stores, s': Stores, a: TransactionAction, kind: FundsKind)
    requires Grows(s, s') && FundsStored(chain, s, a, kind)
    ensures FundsStored(chain, s', a, kind)
  {}

  lemma SaveAllKeeps(chain: Chain, w: World, a: TransactionAction, cells: seq<Cell>)
    requires Inv(chain, w.stores) && Known(chain, w.stores, a) && !a.failed
    ensures var (r, w') := SaveAll(chain, w, a, cells);
      && Inv(chain, w'.stores) && Grows(w.stores, w'.stores)
      && WrittenSoFar(chain, w.stores, w'.stores, a, cells)
      && (r.Returns? ==> r.value == cells && w'.stores == Written(chain, w.stores, a, cells, 3) && Done(w'.stores, a))
  {
    hide Inv, Grows, Known, Done, LedgerKeyOf, FundsOf, SaveFunds, SaveLedger, FundsStored, SaveRecord, SaveRow;
    var (deposit, w1) := SaveRecord(chain, w, a, DepositFunds);
    SaveRecordKeeps(chain, w, a, DepositFunds);
    assert w1.stores == Written(chain, w.stores, a, cells, 0) || w1.stores == Written(chain, w.stores, a, cells, 1);
    if deposit {
      KnownGrows(chain, w.stores, w1.stores, a);
      var (token, w2) := SaveRecord(chain, w1, a, TokenFunds);
      SaveRecordKeeps(chain, w1, a, TokenFunds);
      GrowsTrans(w.stores, w1.stores, w2.stores);
      assert w2.stores == Written(chain, w.stores, a, cells, 1) || w2.stores == Written(chain, w.stores, a, cells, 2);
      if token {
        KnownGrows(chain, w1.stores, w2.stores, a);
        StoredGrows(chain, w1.stores, w2.stores, a, DepositFunds);
        var (r, w3) := SaveRow(w2, a, cells);
        SaveRowKeeps(chain, w2, a, cells);
        GrowsTrans(w.stores, w2.stores, w3.stores);
        assert w3.stores == Written(chain, w.stores, a, cells, 2) || w3.stores == Written(chain, w.stores, a, cells, 3);
      }
    }
  }

  lemma WrittenLedger(chain: Chain, s: Stores, a: TransactionAction, cells: seq<Cell>)
    ensures forall n ::
      0 <= n <= 2 ==> OnlyFunds(s, Written(chain, s, a, cells, n)) && Written(chain, s, a, cells, n).ledger == s.ledger
    ensures var s' :=
      Written(chain, s, a, cells, 3); OnlyFunds(s, s') && s'.ledger == s.ledger[LedgerKeyOf(a) := SavedForm(cells)]
  {
    hide FundsOf, LedgerKeyOf;
  }

  // The writes touch the treasury records and the action's own row only.
  lemma WrittenFrame(chain: Chain, s: Stores, s': Stores, a: TransactionAction, cells: seq<Cell>)
    requires WrittenSoFar(chain, s, s', a, cells)
    ensures OnlyFunds(s, s') && s'.ledger - {LedgerKeyOf(a)} == s.ledger - {LedgerKeyOf(a)}
    ensures s' == Written(chain, s, a, cells, 3) ==> RowResults(s', a) == Truthy(cells)
  {
    hide FundsOf, LedgerKeyOf, Written, OnlyFunds;
    WrittenLedger(chain, s, a, cells);
    OneRowChanged(s, s', a, cells);
  }

  ghost predicate HandledWell(chain: Chain, s: Stores, s': Stores, a: TransactionAction, cells: seq<Cell>,
                              r: Outcome<seq<Cell>>)
  {
    && Inv(chain, s') && Grows(s, s') && OnlyFunds(s, s')
    && s'.ledger - {LedgerKeyOf(a)} == s.ledger - {LedgerKeyOf(a)}
    && WrittenSoFar(chain, s, s', a, cells)
    && (r.Returns? ==>
        Done(s', a) && Truthy(r.value) == RowResults(s', a) && HandledNow(chain, s, s', a, cells, r.value))
  }

  // A failed action never reached the ledger.
  lemma HandledHasNotFailed(chain: Chain, s: Stores, a: TransactionAction)
    requires Inv(chain, s) && Known(chain, s, a) && LedgerKeyOf(a) in s.ledger
    ensures !a.failed
  {
    var b :| Handled(chain, s, LedgerKeyOf(a), b);
    LedgerKeyDeterminesSource(a, b);
    AlikeBySource(chain, s, a, b);
  }

  lemma RunAndSaveKeeps(chain: Chain, w: World, a: TransactionAction)
    requires Inv(chain, w.stores) && Known(chain, w.stores, a) && !a.failed
    ensures var (r, w') := RunAndSave(chain, w, a);
      var cells := NextCells(w.results);
      && Inv(chain, w'.stores) && Grows(w.stores, w'.stores)
      && WrittenSoFar(chain, w.stores, w'.stores, a, cells)
      && (r.Returns? ==> r.value == cells && w'.stores == Written(chain, w.stores, a, cells, 3) && Done(w'.stores, a))
  {
    hide Inv, Grows, Known, SaveAll, Done;
    assert w.stores == Written(chain, w.stores, a, NextCells(w.results), 0);
    GrowsRefl(w.stores);
    SaveAllKeeps(chain, Awaited(w).(results := Tail(w.results)), a, NextCells(w.results));
  }

  // An action that is not handled, or not again, leaves everything.
  lemma NothingWritten(chain: Chain, s: Stores, a: TransactionAction, cells: seq<Cell>, r: Outcome<seq<Cell>>)
    requires Inv(chain, s) && Known(chain, s, a)
    requires r.Throws? || (LedgerKeyOf(a) in s.ledger && r.value == s.ledger[LedgerKeyOf(a)])
      || (a.failed && r.value == [])
    ensures HandledWell(chain, s, s, a, cells, r)
  {
    hide Inv, Known, Grows;
    assert s == Written(chain, s, a, cells, 0);
    GrowsRefl(s);
    if LedgerKeyOf(a) in s.ledger {
      HandledHasNotFailed(chain, s, a);
    }
  }

  lemma RunAndSaveWell(chain: Chain, w: World, a: TransactionAction)
    requires Inv(chain, w.stores) && Known(chain, w.stores, a) && !a.failed
    ensures var (r, w') := RunAndSave(chain, w, a); HandledWell(chain, w.stores, w'.stores, a, NextCells(w.results), r)
  {
    RunAndSaveKeeps(chain, w, a);
    hide Inv, Known, Grows, RunAndSave, Written, LedgerKeyOf, Done;
    WrittenFrame(chain, w.stores, RunAndSave(chain, w, a).1.stores, a, NextCells(w.results));
  }

  // Handling an action makes its writes in order, up to some point if it throws; if it returns, the action is done,
  // and its truthy results are those of its row.
  lemma HandleKeeps(chain: Chain, enableFailedDao: bool, w: World, a: TransactionAction)
    requires Inv(chain, w.stores) && Known(chain, w.stores, a)
    ensures var (r, w') := Handle(chain, enableFailedDao, w, a);
      HandledWell(chain, w.stores, w'.stores, a, NextCells(w.results), r)
  {
    hide Inv, Known, HandledWell, RunAndSave, LedgerKeyOf;
    if Blocked(enableFailedDao, a) || CheckLedger(w, a).0.Some? || a.failed {
      NothingWritten(chain, w.stores, a, NextCells(w.results), Handle(chain, enableFailedDao, w, a).0);
    } else {
      RunAndSaveWell(chain, Awaited(w), a);
    }
  }

  // ---------- a list of actions ----------

  ghost predicate SameRow(s: Stores, s': Stores, key: LedgerKey) {
    && (key in s.ledger <==> key in s'.ledger)
    && (key in s.ledger ==> s'.ledger[key] == s.ledger[key])
  }

  lemma SaveRecordFrame(chain: Chain, w: World, a: TransactionAction, kind: FundsKind)
    ensures SaveRecord(chain, w, a, kind).1.stores.ledger == w.stores.ledger
  {
    hide FundsOf;
  }

  lemma SaveAllFrame(chain: Chain, w: World, a: TransactionAction, cells: seq<Cell>, key: LedgerKey)
    requires key != LedgerKeyOf(a)
    ensures SameRow(w.stores, SaveAll(chain, w, a, cells).1.stores, key)
  {
    hide SaveRecord, SavedForm, LedgerKeyOf;
    SaveRecordFrame(chain, w, a, DepositFunds);
    SaveRecordFrame(chain, SaveRecord(chain, w, a, DepositFunds).1, a, TokenFunds);
  }

  // Handling one action leaves the rows of all others.
  lemma HandleFrame(chain: Chain, enableFailedDao: bool, w: World, a: TransactionAction, key: LedgerKey)
    requires key != LedgerKeyOf(a)
    ensures SameRow(w.stores, Handle(chain, enableFailedDao, w, a).1.stores, key)
  {
    SaveAllFrame(chain, Awaited(Awaited(w)).(results := Tail(w.results)), a, NextCells(w.results), key);
    hide SaveAll, LedgerKeyOf;
  }

  lemma {:induction false} HandleAllFrame(chain: Chain, enableFailedDao: bool, w: World,
                                          actions: seq<TransactionAction>, key: LedgerKey)
    requires forall a :: a in actions ==> key != LedgerKeyOf(a)
    ensures SameRow(w.stores, HandleAll(chain, enableFailedDao, w, actions).world.stores, key)
    decreases |actions|
  {
    if actions != [] {
      hide Handle, LedgerKeyOf;
      HandleFrame(chain, enableFailedDao, w, actions[0], key);
      HandleAllFrame(chain, enableFailedDao, Handle(chain, enableFailedDao, w, actions[0]).1, actions[1..], key);
    }
  }

  ghost predicate AllKnown(chain: Chain, s: Stores, actions: seq<TransactionAction>) {
    forall a :: a in actions ==> Known(chain, s, a)
  }

  lemma AllKnownGrow(chain: Chain, s: Stores, s': Stores, actions: seq<TransactionAction>)
    requires Grows(s, s') && AllKnown(chain, s, actions)
    ensures AllKnown(chain, s', actions)
  {
    forall a | a in actions ensures Known(chain, s', a) {
      KnownGrows(chain, s, s', a);
    }
  }

  ghost predicate AllHandledWell(chain: Chain, s: Stores, actions: seq<TransactionAction>, h: Outcomes) {
    && Inv(chain, h.world.stores) && Grows(s, h.world.stores) && OnlyFunds(s, h.world.stores)
    && h.n <= |actions| && (h.success <==> h.n == |actions|)
    && EachDone(h.world.stores, actions[..h.n])
    && (DistinctRows(actions) ==> h.cells == LedgerResults(h.world.stores, actions[..h.n]))
  }

  // A prefix is handled in order, up to the first failure; its actions are done, and the results are their rows'.
  lemma {:induction false} HandleAllKeeps(chain: Chain, enableFailedDao: bool, w: World,
                                          actions: seq<TransactionAction>)
    requires Inv(chain, w.stores) && AllKnown(chain, w.stores, actions)
    ensures AllHandledWell(chain, w.stores, actions, HandleAll(chain, enableFailedDao, w, actions))
    decreases |actions|
  {
    hide Inv, Grows, Known, Handle, WrittenSoFar, HandledNow;
    var h := HandleAll(chain, enableFailedDao, w, actions);
    if actions == [] {
      GrowsRefl(w.stores);
    } else {
      var (r, w1) := Handle(chain, enableFailedDao, w, actions[0]);
      HandleKeeps(chain, enableFailedDao, w, actions[0]);
      if r.Returns? {
        AllKnownGrow(chain, w.stores, w1.stores, actions);
        HandleAllKeeps(chain, enableFailedDao, w1, actions[1..]);
        var rest := HandleAll(chain, enableFailedDao, w1, actions[1..]);
        GrowsTrans(w.stores, w1.stores, h.world.stores);
        assert actions[..h.n][1..] == actions[1..][..rest.n] && actions[..h.n][0] == actions[0];
        DoneGrows(w1.stores, h.world.stores, actions[0]);
        if DistinctRows(actions) {
          HandleAllFrame(chain, enableFailedDao, w1, actions[1..], LedgerKeyOf(actions[0]));
        }
      }
    }
  }

  lemma DoneGrows(s: Stores, s': Stores, a: TransactionAction)
    requires Grows(s, s') && Done(s, a)
    ensures Done(s', a)
  {}

  // ---------- handling a list twice ----------

  // Every ledger read is answered, but for actions of failed transactions, where it does not matter.
  ghost predicate ReadsAnswered(actions: seq<TransactionAction>, replies: seq<Reply>) {
    forall i :: 0 <= i < |actions| && i < |replies| ==> replies[i] == Passes || actions[i].failed
  }

  ghost predicate NoneBlocked(enableFailedDao: bool, actions: seq<TransactionAction>) {
    forall a :: a in actions ==> !Blocked(enableFailedDao, a)
  }

  // A done action whose read is answered, or that failed, is not handled again.
  lemma HandleAgain(chain: Chain, enableFailedDao: bool, w: World, a: TransactionAction)
    requires Inv(chain, w.stores) && Known(chain, w.stores, a) && Done(w.stores, a) && !Blocked(enableFailedDao, a)
    requires NextReply(w) == Passes || a.failed
    ensures var (r, w') := Handle(chain, enableFailedDao, w, a);
      w' == Awaited(w) && r.Returns? && Truthy(r.value) == RowResults(w.stores, a)
  {
    if LedgerKeyOf(a) in w.stores.ledger {
      HandledHasNotFailed(chain, w.stores, a);
    }
  }

  // So the same results come back, and nothing changes.
  lemma {:induction false} AgainAlike(chain: Chain, enableFailedDao: bool, w: World, actions: seq<TransactionAction>)
    requires Inv(chain, w.stores) && AllKnown(chain, w.stores, actions) && EachDone(w.stores, actions)
    requires NoneBlocked(enableFailedDao, actions) && ReadsAnswered(actions, w.replies)
    ensures var h := HandleAll(chain, enableFailedDao, w, actions);
      h.success && h.world.stores == w.stores && h.cells == LedgerResults(w.stores, actions)
    decreases |actions|
  {
    hide Inv, Known, Done, Handle, RowResults, Blocked;
    if actions != [] {
      HandleAgain(chain, enableFailedDao, w, actions[0]);
      AgainAlike(chain, enableFailedDao, Awaited(w), actions[1..]);
    }
  }

  // The same awaits over stores with the same rows, whatever they hold.
  ghost predicate SameButResults(w: World, v: World) {
    && w.replies == v.replies && w.stores.ledger.Keys == v.stores.ledger.Keys
    && v.stores == w.stores.(ledger := v.stores.ledger)
  }

  lemma SaveRecordAlike(chain: Chain, w: World, v: World, a: TransactionAction, kind: FundsKind)
    requires SameButResults(w, v)
    ensures var (ok, w'), (ok', v') := SaveRecord(chain, w, a, kind), SaveRecord(chain, v, a, kind);
      ok == ok' && SameButResults(w', v')
  {
    hide FundsOf;
  }

  lemma SaveRowAlike(w: World, v: World, a: TransactionAction, cells: seq<Cell>, other: seq<Cell>)
    requires SameButResults(w, v)
    ensures var (r, w'), (q, v') := SaveRow(w, a, cells), SaveRow(v, a, other);
      (r.Returns? <==> q.Returns?) && SameButResults(w', v')
  {
    hide SavedForm, LedgerKeyOf;
  }

  lemma SaveAllAlike(chain: Chain, w: World, v: World, a: TransactionAction, cells: seq<Cell>, other: seq<Cell>)
    requires SameButResults(w, v)
    ensures var (r, w'), (q, v') := SaveAll(chain, w, a, cells), SaveAll(chain, v, a, other);
      (r.Returns? <==> q.Returns?) && SameButResults(w', v')
  {
    hide SaveRecord, SaveRow, SameButResults;
    var (deposit, w1) := SaveRecord(chain, w, a, DepositFunds);
    var v1 := SaveRecord(chain, v, a, DepositFunds).1;
    SaveRecordAlike(chain, w, v, a, DepositFunds);
    if deposit {
      var (token, w2) := SaveRecord(chain, w1, a, TokenFunds);
      var v2 := SaveRecord(chain, v1, a, TokenFunds).1;
      SaveRecordAlike(chain, w1, v1, a, TokenFunds);
      if token {
        SaveRowAlike(w2, v2, a, cells, other);
      }
    }
  }

  lemma HandleAlike(chain: Chain, enableFailedDao: bool, w: World, v: World, a: TransactionAction)
    requires SameButResults(w, v)
    ensures var (r, w'), (q, v') := Handle(chain, enableFailedDao, w, a), Handle(chain, enableFailedDao, v, a);
      (r.Returns? <==> q.Returns?) && SameButResults(w', v')
  {
    SaveAllAlike(chain, Awaited(Awaited(w)).(results := Tail(w.results)),
                 Awaited(Awaited(v)).(results := Tail(v.results)), a,
                 NextCells(w.results), NextCells(v.results));
    hide SaveAll, LedgerKeyOf;
  }

  // Whether a list succeeds does not depend on what the handlers return.
  lemma {:induction false} SuccessAlike(chain: Chain, enableFailedDao: bool, w: World, v: World,
                                        actions: seq<TransactionAction>)
    requires SameButResults(w, v)
    ensures HandleAll(chain, enableFailedDao, w, actions).success <==>
      HandleAll(chain, enableFailedDao, v, actions).success
    decreases |actions|
  {
    if actions != [] {
      hide Handle, SameButResults;
      HandleAlike(chain, enableFailedDao, w, v, actions[0]);
      SuccessAlike(chain, enableFailedDao, Handle(chain, enableFailedDao, w, actions[0]).1,
                   Handle(chain, enableFailedDao, v, actions[0]).1, actions[1..]);
    }
  }

  // An action that did not fail, and whose read rejects, is handled again, with what the handlers return this time.
  lemma HandleAnew(chain: Chain, enableFailedDao: bool, w: World, a: TransactionAction)
    requires NextReply(w) != Passes && !a.failed
    ensures var r := Handle(chain, enableFailedDao, w, a).0; r.Returns? ==> r.value == NextCells(w.results)
  {}

  // At the first such read, the results of a run that succeeds are as many as the handlers like.
  lemma {:induction false} AgainDiffers(chain: Chain, enableFailedDao: bool, s: Stores, replies: seq<Reply>,
                                        cells: seq<Cell>, actions: seq<TransactionAction>)
    requires Inv(chain, s) && AllKnown(chain, s, actions) && EachDone(s, actions)
    requires NoneBlocked(enableFailedDao, actions) && !ReadsAnswered(actions, replies)
    requires HandleAll(chain, enableFailedDao, World(s, replies, []), actions).success
    ensures var h := HandleAll(chain, enableFailedDao, World(s, replies, [cells]), actions);
      h.success && |h.cells| >= |Truthy(cells)|
    decreases |actions|
  {
    hide Inv, Known, Done, Handle, RowResults, Blocked;
    var w, v := World(s, replies, []), World(s, replies, [cells]);
    SuccessAlike(chain, enableFailedDao, w, v, actions);
    if NextReply(w) == Passes || actions[0].failed {
      HandleAgain(chain, enableFailedDao, w, actions[0]);
      HandleAgain(chain, enableFailedDao, v, actions[0]);
      assert !ReadsAnswered(actions[1..], Tail(replies)) by {
        var i :| 0 <= i < |actions| && i < |replies| && replies[i] != Passes && !actions[i].failed;
        assert actions[1..][i - 1] == actions[i] && Tail(replies)[i - 1] == replies[i];
      }
      AgainDiffers(chain, enableFailedDao, s, Tail(replies), cells, actions[1..]);
    } else {
      HandleAnew(chain, enableFailedDao, v, actions[0]);
    }
  }

  // That many results.
  function Many(n: nat): (cells: seq<Cell>)
    ensures |Truthy(cells)| == n
  {
    if n == 0 then [] else [Result("")] + Many(n - 1)
  }

  // Handling a list a second time gives the same truthy results, whatever the handlers return then, exactly if its
  // ledger reads are answered where it matters, or it does not succeed.
  lemma HandleTwiceExactly(chain: Chain, enableFailedDao: bool, w: World, actions: seq<TransactionAction>,
                           again: seq<Reply>)
    requires Inv(chain, w.stores) && AllKnown(chain, w.stores, actions) && DistinctRows(actions)
    requires HandleAll(chain, enableFailedDao, w, actions).success
    ensures var first := HandleAll(chain, enableFailedDao, w, actions);
      var second := HandleAll(chain, enableFailedDao, World(first.world.stores, again, []), actions);
      (forall results :: SecondAlike(chain, enableFailedDao, first, actions, again, results))
      <==> ReadsAnswered(actions, again) || !second.success
  {
    hide Inv, Known, Handle, Done, LedgerKeyOf;
    var first := HandleAll(chain, enableFailedDao, w, actions);
    var s := first.world.stores;
    HandleAllKeeps(chain, enableFailedDao, w, actions);
    assert actions[..|actions|] == actions;
    AllKnownGrow(chain, w.stores, s, actions);
    SuccessUnblocks(chain, enableFailedDao, w, actions);
    if ReadsAnswered(actions, again) {
      forall results ensures SecondAlike(chain, enableFailedDao, first, actions, again, results) {
        AgainAlike(chain, enableFailedDao, World(s, again, results), actions);
      }
    } else if HandleAll(chain, enableFailedDao, World(s, again, []), actions).success {
      var cells := Many(|first.cells| + 1);
      AgainDiffers(chain, enableFailedDao, s, again, cells, actions);
      assert !SecondAlike(chain, enableFailedDao, first, actions, again, [cells]);
    } else {
      forall results ensures SecondAlike(chain, enableFailedDao, first, actions, again, results) {
        SuccessAlike(chain, enableFailedDao, World(s, again, []), World(s, again, results), actions);
      }
    }
  }

  ghost predicate SecondAlike(chain: Chain, enableFailedDao: bool, first: Outcomes, actions: seq<TransactionAction>,
                              again: seq<Reply>, results: seq<seq<Cell>>)
  {
    var second := HandleAll(chain, enableFailedDao, World(first.world.stores, again, results), actions);
    second.success ==> second.cells == first.cells
  }

  lemma {:induction false} SuccessUnblocks(chain: Chain, enableFailedDao: bool, w: World,
                                           actions: seq<TransactionAction>)
    requires HandleAll(chain, enableFailedDao, w, actions).success
    ensures NoneBlocked(enableFailedDao, actions)
    decreases |actions|
  {
    if actions != [] {
      SuccessUnblocks(chain, enableFailedDao, Handle(chain, enableFailedDao, w, actions[0]).1, actions[1..]);
    }
  }
}
