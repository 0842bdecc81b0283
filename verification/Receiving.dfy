/**
 * The loop over a receipt's actions, as workers and resolvers run it, and when it comes to its end, by what the
 * awaits answer.
 */
module Receiving {
  import opened Wrappers
  import opened Keys
  import opened Receipts
  import opened Stores
  import opened Handling

  function CastAll(chain: Chain, r: Receipt): (actions: seq<TransactionAction>)
    ensures |actions| == |Actions(r)|
    ensures forall i :: 0 <= i < |actions| ==> actions[i] == Cast(chain, r, i)
  {
    seq(|Actions(r)|, i requires 0 <= i < |Actions(r)| => Cast(chain, r, i))
  }

  // getTransactionAction and handleTransactionAction; false: one of them threw.
  function FetchThenHandle(chain: Chain, enableFailedDao: bool, w: World, a: TransactionAction): (bool, World) {
    if NextReply(w) != Passes then (false, Awaited(w))
    else
      var (r, w') := Handle(chain, enableFailedDao, Awaited(w), a);
      (r.Returns?, w')
  }

  // Where the loop stops: at the first action that throws, or at the end.
  datatype Stop = Stop(n: nat, world: World)

  function HandleEach(chain: Chain, enableFailedDao: bool, w: World, actions: seq<TransactionAction>): (stop: Stop)
    ensures stop.n <= |actions|
    decreases |actions|
  {
    if actions == [] then Stop(0, w)
    else
      var (ok, w') := FetchThenHandle(chain, enableFailedDao, w, actions[0]);
      if !ok then Stop(0, w')
      else
        var rest := HandleEach(chain, enableFailedDao, w', actions[1..]);
        rest.(n := rest.n + 1)
  }

  lemma HandleEachHead(chain: Chain, enableFailedDao: bool, w: World, actions: seq<TransactionAction>, n: nat)
    requires n < |actions|
    ensures var (ok, w') := FetchThenHandle(chain, enableFailedDao, w, actions[n]);
      var rest := HandleEach(chain, enableFailedDao, w', actions[n + 1..]);
      HandleEach(chain, enableFailedDao, w, actions[n..]) == if ok then rest.(n := rest.n + 1) else Stop(0, w')
  {
    hide FetchThenHandle;
    assert actions[n..][0] == actions[n] && actions[n..][1..] == actions[n + 1..];
  }

  lemma HandleEachNone(chain: Chain, enableFailedDao: bool, w: World, actions: seq<TransactionAction>)
    ensures HandleEach(chain, enableFailedDao, w, actions[|actions|..]) == Stop(0, w)
  {}

  // ---------- what the awaits answer ----------

  ghost predicate AllPass(replies: seq<Reply>) {
    forall k :: 0 <= k < |replies| ==> replies[k] == Passes
  }

  ghost predicate AtMostOneRejects(replies: seq<Reply>) {
    forall i, j :: 0 <= i < j < |replies| ==> replies[i] == Passes || replies[j] == Passes
  }

  lemma RepliesGoOn(replies: seq<Reply>)
    ensures AllPass(replies) ==> AllPass(Tail(replies)) && AtMostOneRejects(replies)
    ensures AtMostOneRejects(replies) ==> AtMostOneRejects(Tail(replies))
    ensures AtMostOneRejects(replies) && replies != [] && replies[0] != Passes ==> AllPass(Tail(replies))
    ensures AllPass(replies) ==> replies == [] || replies[0] == Passes
  {}

  // Whatever the awaits answer, it cannot be handled: it is barred, or an amount of it cannot be read.
  ghost predicate Stuck(chain: Chain, enableFailedDao: bool, a: TransactionAction) {
    Blocked(enableFailedDao, a) || (!a.failed && !CanFund(chain, a))
  }

  ghost predicate NoneStuck(chain: Chain, enableFailedDao: bool, actions: seq<TransactionAction>) {
    forall a :: a in actions ==> !Stuck(chain, enableFailedDao, a)
  }

  // How it ends, given what the awaits before it answer and what the ones after it will: with all passing it returns
  // unless it is stuck, and with at most one rejection and not stuck, a throw has used the rejection up.
  ghost predicate EndsWell(before: seq<Reply>, after: seq<Reply>, stuck: bool, ok: bool) {
    && (AllPass(before) ==> AllPass(after) && (ok <==> !stuck))
    && (AtMostOneRejects(before) ==> AtMostOneRejects(after))
    && (AtMostOneRejects(before) && !stuck && !ok ==> AllPass(after))
  }

  lemma SaveRecordEnds(chain: Chain, w: World, a: TransactionAction, kind: FundsKind)
    ensures var (ok, w') := SaveRecord(chain, w, a, kind);
      EndsWell(w.replies, w'.replies, FundsOf(chain, a, kind).Throws?, ok)
  {
    hide FundsOf, AllPass, AtMostOneRejects;
    RepliesGoOn(w.replies);
  }

  lemma SaveAllEnds(chain: Chain, w: World, a: TransactionAction, cells: seq<Cell>)
    ensures var (r, w') := SaveAll(chain, w, a, cells);
      EndsWell(w.replies, w'.replies, !CanFund(chain, a), r.Returns?)
  {
    hide FundsOf, AllPass, AtMostOneRejects, SaveRecord, SavedForm, LedgerKeyOf;
    var (deposit, w1) := SaveRecord(chain, w, a, DepositFunds);
    var (token, w2) := SaveRecord(chain, w1, a, TokenFunds);
    SaveRecordEnds(chain, w, a, DepositFunds);
    SaveRecordEnds(chain, w1, a, TokenFunds);
    RepliesGoOn(w2.replies);
    RepliesGoOn(w.replies);
    RepliesGoOn(w1.replies);
  }

  // An action in the ledger has amounts that can be read.
  lemma LedgerIsFundable(chain: Chain, s: Stores, a: TransactionAction)
    requires Inv(chain, s) && Known(chain, s, a) && LedgerKeyOf(a) in s.ledger
    ensures CanFund(chain, a)
  {
    hide FundsOf, Known;
    var b :| Handled(chain, s, LedgerKeyOf(a), b);
    LedgerKeyDeterminesSource(a, b);
    AlikeBySource(chain, s, a, b);
    assert FundsAlike(FundsOf(chain, a, DepositFunds), FundsOf(chain, b, DepositFunds));
    assert FundsAlike(FundsOf(chain, a, TokenFunds), FundsOf(chain, b, TokenFunds));
  }

  lemma HandleEnds(chain: Chain, enableFailedDao: bool, w: World, a: TransactionAction)
    requires Inv(chain, w.stores) && Known(chain, w.stores, a)
    ensures var (r, w') := Handle(chain, enableFailedDao, w, a);
      EndsWell(w.replies, w'.replies, Stuck(chain, enableFailedDao, a), r.Returns?)
  {
    hide Inv, Known, CanFund, AllPass, AtMostOneRejects, SaveAll, Blocked, LedgerKeyOf;
    if LedgerKeyOf(a) in w.stores.ledger {
      LedgerIsFundable(chain, w.stores, a);
    }
    RepliesGoOn(w.replies);
    RepliesGoOn(Tail(w.replies));
    SaveAllEnds(chain, Awaited(Awaited(w)).(results := Tail(w.results)), a, NextCells(w.results));
  }

  lemma FetchThenHandleEnds(chain: Chain, enableFailedDao: bool, w: World, a: TransactionAction)
    requires Inv(chain, w.stores) && Known(chain, w.stores, a)
    ensures var (ok, w') := FetchThenHandle(chain, enableFailedDao, w, a);
      && EndsWell(w.replies, w'.replies, Stuck(chain, enableFailedDao, a), ok)
      && Inv(chain, w'.stores) && Grows(w.stores, w'.stores)
  {
    hide Inv, Known, Grows, Handle, Stuck, AllPass, AtMostOneRejects;
    GrowsRefl(w.stores);
    RepliesGoOn(w.replies);
    HandleEnds(chain, enableFailedDao, Awaited(w), a);
    HandleKeeps(chain, enableFailedDao, Awaited(w), a);
  }

  // With all awaits passing, the loop stops at the first action that is stuck, if there is one; with at most one
  // rejection and no action stuck, it comes to the end or has used the rejection up.
  lemma {:induction false} HandleEachEnds(chain: Chain, enableFailedDao: bool, w: World,
                                          actions: seq<TransactionAction>)
    requires Inv(chain, w.stores) && AllKnown(chain, w.stores, actions)
    ensures var stop := HandleEach(chain, enableFailedDao, w, actions);
      && (AllPass(w.replies) ==>
            && AllPass(stop.world.replies) && NoneStuck(chain, enableFailedDao, actions[..stop.n])
            && (stop.n < |actions| ==> Stuck(chain, enableFailedDao, actions[stop.n])))
      && (AtMostOneRejects(w.replies) ==> AtMostOneRejects(stop.world.replies))
      && (AtMostOneRejects(w.replies) && NoneStuck(chain, enableFailedDao, actions) && stop.n < |actions| ==>
            AllPass(stop.world.replies))
    decreases |actions|
  {
    hide Inv, Known, Grows, FetchThenHandle, Stuck, AllPass, AtMostOneRejects;
    if actions != [] {
      var (ok, w') := FetchThenHandle(chain, enableFailedDao, w, actions[0]);
      FetchThenHandleEnds(chain, enableFailedDao, w, actions[0]);
      if ok {
        AllKnownGrow(chain, w.stores, w'.stores, actions);
        HandleEachEnds(chain, enableFailedDao, w', actions[1..]);
        var n := HandleEach(chain, enableFailedDao, w, actions).n;
        assert actions[..n] == [actions[0]] + actions[1..][..n - 1];
      }
    }
  }
}
