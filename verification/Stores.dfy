/**
 * What outlives a process: the receipt stream, the ledger of handled actions, the treasury records and the
 * two error stores. Each write is one function; each is shown to keep the invariant of the stores.
 */
module Stores {
  import opened Wrappers
  import opened Keys
  import opened Receipts

  // One element of a handler's result list.
  datatype Cell = Undefined | Null | Result(tag: string)

  datatype Status = Open | InProgress | Resolved

  datatype ErrorRecord = ErrorRecord(receipt: Option<Receipt>, status: Status)

  type Errors = map<string, ErrorRecord>

  // `log` is every entry ever appended (None: not JSON), its index the entry id; `live` is what the stream still holds.
  datatype Stores = Stores(
    log: seq<Option<Receipt>>,
    live: set<nat>,
    ledger: map<LedgerKey, seq<Cell>>,
    funds: map<FundsKey, FundsRecord>,
    dynamo: Errors,
    postgres: Errors)

  const EMPTY := Stores([], {}, map[], map[], map[], map[])

  // ---------- the writes ----------

  function Append(s: Stores, entry: Option<Receipt>): Stores {
    s.(log := s.log + [entry], live := s.live + {|s.log|})
  }

  function PutFunds(s: Stores, f: FundsRecord): Stores {
    s.(funds := s.funds[KeyOf(f) := f])
  }

  function SaveFunds(chain: Chain, s: Stores, a: TransactionAction, kind: FundsKind): Stores {
    match FundsOf(chain, a, kind)
    case Returns(Some(f)) => PutFunds(s, f)
    case _ => s
  }

  function SaveLedger(s: Stores, a: TransactionAction, results: seq<Cell>): Stores {
    s.(ledger := s.ledger[LedgerKeyOf(a) := results])
  }

  // ErrorTrackerDynamoService.create
  function CreateDynamo(s: Stores, id: string, r: Receipt): Stores {
    s.(dynamo := s.dynamo[id := ErrorRecord(Some(StoredForm(r, ViaDynamo)), Open)])
  }

  // errorRepository.save without a status: a new row is open, an old one keeps its status.
  function CreatePostgres(s: Stores, id: string, r: Receipt): Stores {
    var status := if id in s.postgres then s.postgres[id].status else Open;
    s.(postgres := s.postgres[id := ErrorRecord(Some(StoredForm(r, ViaPostgres)), status)])
  }

  // A save of the status alone merges into the record, or creates one that carries nothing.
  function MarkDynamo(s: Stores, id: string): Stores {
    s.(dynamo := s.dynamo[id :=
      if id in s.dynamo then s.dynamo[id].(status := Resolved) else ErrorRecord(None, Resolved)])
  }

  function MarkPostgres(s: Stores, id: string): Stores {
    if id in s.postgres then s.(postgres := s.postgres[id := s.postgres[id].(status := Resolved)]) else s
  }

  function Remove(s: Stores, entry: nat): Stores {
    s.(live := s.live - {entry})
  }

  // ---------- what the stores mean ----------

  ghost predicate Appended(s: Stores, r: Receipt) {
    Some(r) in s.log
  }

  // Receipt ids name receipts, and (receiptId, index) is the primary key of the indexer's actions.
  ghost predicate DistinctIndices(r: Receipt) {
    forall i, j :: 0 <= i < j < |Actions(r)| ==> Actions(r)[i].index != Actions(r)[j].index
  }

  ghost predicate LogOk(s: Stores) {
    && (forall r :: Appended(s, r) ==> DistinctIndices(r))
    && (forall r, q :: Appended(s, r) && Appended(s, q) && r.receiptId == q.receiptId ==> r == q)
    && (forall id :: id in s.live ==> id < |s.log|)
  }

  ghost predicate Known(chain: Chain, s: Stores, a: TransactionAction) {
    exists r, i: nat :: Appended(s, r) && i < |Actions(r)| && Replayed(a, Cast(chain, r, i))
  }

  // The action as it was appended.
  ghost predicate Original(chain: Chain, s: Stores, a: TransactionAction) {
    exists r, i: nat :: Appended(s, r) && i < |Actions(r)| && a == Cast(chain, r, i)
  }

  // An action is done when it is in the ledger or its transaction failed.
  ghost predicate Done(s: Stores, a: TransactionAction) {
    LedgerKeyOf(a) in s.ledger || a.failed
  }

  ghost predicate DoneUpTo(chain: Chain, s: Stores, r: Receipt, n: nat)
    requires n <= |Actions(r)|
  {
    forall i :: 0 <= i < n ==> Done(s, Cast(chain, r, i))
  }

  ghost predicate AllDone(chain: Chain, s: Stores, r: Receipt) {
    DoneUpTo(chain, s, r, |Actions(r)|)
  }

  // The record an action stands for, if any, has been stored.
  ghost predicate FundsStored(chain: Chain, s: Stores, a: TransactionAction, kind: FundsKind) {
    match FundsOf(chain, a, kind)
    case Throws => false
    case Returns(None) => true
    case Returns(Some(f)) => KeyOf(f) in s.funds
  }

  // A ledger row stands for a known action whose funds were stored before it.
  ghost predicate Handled(chain: Chain, s: Stores, key: LedgerKey, a: TransactionAction) {
    && Known(chain, s, a) && !a.failed && LedgerKeyOf(a) == key
    && FundsStored(chain, s, a, DepositFunds) && FundsStored(chain, s, a, TokenFunds)
  }

  ghost predicate LedgerOk(chain: Chain, s: Stores) {
    forall key :: key in s.ledger ==> exists a :: Handled(chain, s, key, a)
  }

  ghost predicate Origin(chain: Chain, s: Stores, key: FundsKey, f: FundsRecord) {
    exists a :: Known(chain, s, a) && !a.failed && KeyOf(f) == key && FundsOf(chain, a, f.kind) == Returns(Some(f))
  }

  ghost predicate FundsOk(chain: Chain, s: Stores) {
    forall key :: key in s.funds ==> Origin(chain, s, key, s.funds[key])
  }

  // An error id names the receipt whose action failed.
  ghost predicate ErrorOf(id: string, r: Receipt) {
    exists i: nat :: id == ActionId(r.receiptId, i)
  }

  ghost predicate Carries(chain: Chain, s: Stores, id: string, e: ErrorRecord, r: Receipt, medium: Medium) {
    && Appended(s, r) && ErrorOf(id, r) && e.receipt == Some(StoredForm(r, medium))
    && (e.status == Open || (e.status == Resolved && AllDone(chain, s, r)))
  }

  ghost predicate ErrorsOk(chain: Chain, s: Stores, errors: Errors, medium: Medium) {
    forall id :: id in errors ==> exists r :: Carries(chain, s, id, errors[id], r, medium)
  }

  // An open error carries the receipt.
  ghost predicate Tracked(errors: Errors, r: Receipt, medium: Medium) {
    exists id :: id in errors && errors[id] == ErrorRecord(Some(StoredForm(r, medium)), Open)
  }

  ghost predicate TrackedOrDone(chain: Chain, s: Stores, errors: Errors, r: Receipt, medium: Medium) {
    AllDone(chain, s, r) || Tracked(errors, r, medium)
  }

  // The receipt no longer needs its stream entry.
  ghost predicate Settled(chain: Chain, s: Stores, r: Receipt) {
    TrackedOrDone(chain, s, s.dynamo, r, ViaDynamo) && TrackedOrDone(chain, s, s.postgres, r, ViaPostgres)
  }

  ghost predicate NothingLost(chain: Chain, s: Stores) {
    forall id :: 0 <= id < |s.log| && s.log[id].Some? && id !in s.live ==> Settled(chain, s, s.log[id].value)
  }

  ghost predicate Inv(chain: Chain, s: Stores) {
    && LogOk(s)
    && LedgerOk(chain, s)
    && FundsOk(chain, s)
    && ErrorsOk(chain, s, s.dynamo, ViaDynamo)
    && ErrorsOk(chain, s, s.postgres, ViaPostgres)
    && s.postgres.Keys <= s.dynamo.Keys
    && NothingLost(chain, s)
  }

  // ---------- what no write undoes ----------

  ghost predicate ErrorsGrow(errors: Errors, errors': Errors) {
    && errors.Keys <= errors'.Keys
    && forall id :: id in errors ==> errors'[id].receipt == errors[id].receipt
  }

  ghost predicate Grows(s: Stores, s': Stores) {
    && s.log <= s'.log
    && s.ledger.Keys <= s'.ledger.Keys
    && s.funds.Keys <= s'.funds.Keys
    && ErrorsGrow(s.dynamo, s'.dynamo)
    && ErrorsGrow(s.postgres, s'.postgres)
  }

  lemma GrowsRefl(s: Stores)
    ensures Grows(s, s)
  {}

  lemma GrowsTrans(s: Stores, t: Stores, u: Stores)
    requires Grows(s, t) && Grows(t, u)
    ensures Grows(s, u)
  {}

  lemma AppendedGrows(s: Stores, s': Stores, r: Receipt)
    requires Grows(s, s') && Appended(s, r)
    ensures Appended(s', r)
  {
    var id :| 0 <= id < |s.log| && s.log[id] == Some(r);
    assert s'.log[id] == Some(r);
  }

  lemma KnownGrows(chain: Chain, s: Stores, s': Stores, a: TransactionAction)
    requires Grows(s, s') && Known(chain, s, a)
    ensures Known(chain, s', a)
  {
    var r, i: nat :| Appended(s, r) && i < |Actions(r)| && Replayed(a, Cast(chain, r, i));
    AppendedGrows(s, s', r);
  }

  lemma CarriesGrows(chain: Chain, s: Stores, s': Stores, id: string, e: ErrorRecord, r: Receipt, medium: Medium)
    requires Grows(s, s') && Carries(chain, s, id, e, r, medium)
    ensures Carries(chain, s', id, e, r, medium)
  {
    AppendedGrows(s, s', r);
  }

  lemma ErrorsStayOk(chain: Chain, s: Stores, s': Stores, errors: Errors, medium: Medium)
    requires Grows(s, s') && ErrorsOk(chain, s, errors, medium)
    ensures ErrorsOk(chain, s', errors, medium)
  {
    forall id | id in errors ensures exists r :: Carries(chain, s', id, errors[id], r, medium) {
      var r :| Carries(chain, s, id, errors[id], r, medium);
      CarriesGrows(chain, s, s', id, errors[id], r, medium);
    }
  }

  lemma OriginGrows(chain: Chain, s: Stores, s': Stores, key: FundsKey, f: FundsRecord)
    requires Grows(s, s') && Origin(chain, s, key, f)
    ensures Origin(chain, s', key, f)
  {
    var a :| Known(chain, s, a) && !a.failed && KeyOf(f) == key && FundsOf(chain, a, f.kind) == Returns(Some(f));
    KnownGrows(chain, s, s', a);
  }

  lemma KindOfFunds(chain: Chain, a: TransactionAction, kind: FundsKind)
    requires FundsOf(chain, a, kind).Returns? && FundsOf(chain, a, kind).value.Some?
    ensures FundsOf(chain, a, kind).value.value.kind == kind
  {}

  lemma FundsStayOk(chain: Chain, s: Stores, s': Stores)
    requires Grows(s, s') && FundsOk(chain, s) && s'.funds == s.funds
    ensures FundsOk(chain, s')
  {
    forall key | key in s.funds ensures Origin(chain, s', key, s.funds[key]) {
      OriginGrows(chain, s, s', key, s.funds[key]);
    }
  }

  lemma LedgerStaysOk(chain: Chain, s: Stores, s': Stores)
    requires Grows(s, s') && LedgerOk(chain, s) && s'.ledger == s.ledger
    ensures LedgerOk(chain, s')
  {
    forall key | key in s.ledger ensures exists a :: Handled(chain, s', key, a) {
      var a :| Handled(chain, s, key, a);
      KnownGrows(chain, s, s', a);
      assert Handled(chain, s', key, a);
    }
  }

  lemma ReplayedSource(chain: Chain, r: Receipt, i: nat, a: TransactionAction)
    requires i < |Actions(r)| && Replayed(a, Cast(chain, r, i))
    ensures a.receiptId == r.receiptId && a.index == Actions(r)[i].index
  {}

  // Two known actions with the same receipt and position are replays of one action.
  lemma KnownBySource(chain: Chain, s: Stores, a: TransactionAction, b: TransactionAction)
    returns (c: TransactionAction)
    requires LogOk(s) && Known(chain, s, a) && Known(chain, s, b)
    requires a.receiptId == b.receiptId && a.index == b.index
    ensures Replayed(a, c) && Replayed(b, c) && Original(chain, s, c)
  {
    var r, i: nat :| Appended(s, r) && i < |Actions(r)| && Replayed(a, Cast(chain, r, i));
    var q, j: nat :| Appended(s, q) && j < |Actions(q)| && Replayed(b, Cast(chain, q, j));
    ReplayedSource(chain, r, i, a);
    ReplayedSource(chain, q, j, b);
    hide Cast, Replayed, Actions;
    assert r == q;
    assert DistinctIndices(r);
    assert i == j;
    c := Cast(chain, r, i);
  }

  // So they are done alike, and stand for the same records.
  lemma AlikeBySource(chain: Chain, s: Stores, a: TransactionAction, b: TransactionAction)
    requires LogOk(s) && Known(chain, s, a) && Known(chain, s, b)
    requires a.receiptId == b.receiptId && a.index == b.index
    ensures LedgerKeyOf(a) == LedgerKeyOf(b) && a.failed == b.failed
    ensures forall kind :: FundsAlike(FundsOf(chain, a, kind), FundsOf(chain, b, kind))
  {
    var c := KnownBySource(chain, s, a, b);
    ReplayedKeepsRecords(chain, a, c);
    ReplayedKeepsRecords(chain, b, c);
  }

  // A receipt is done with any form of it.
  lemma FormDone(chain: Chain, s: Stores, q: Receipt, r: Receipt)
    requires FormOf(q, r)
    ensures AllDone(chain, s, q) <==> AllDone(chain, s, r)
  {
    FormCasts(chain, q, r);
    forall i | 0 <= i < |Actions(r)| ensures Done(s, Cast(chain, q, i)) <==> Done(s, Cast(chain, r, i)) {
      ReplayedKeepsRecords(chain, Cast(chain, q, i), Cast(chain, r, i));
    }
  }

  // Receipts that one store keeps alike are done alike.
  lemma SameFormDone(chain: Chain, s: Stores, q: Receipt, r: Receipt, medium: Medium)
    requires StoredForm(q, medium) == StoredForm(r, medium) && AllDone(chain, s, q)
    ensures AllDone(chain, s, r)
  {
    hide AllDone, FormOf;
    StoredIsForm(q, medium);
    StoredIsForm(r, medium);
    FormDone(chain, s, StoredForm(q, medium), q);
    FormDone(chain, s, StoredForm(r, medium), r);
  }

  lemma StoredIsForm(r: Receipt, medium: Medium)
    ensures FormOf(StoredForm(r, medium), r)
  {}

  // An error id names one appended receipt only.
  lemma ErrorOfIsUnique(s: Stores, id: string, r: Receipt, q: Receipt)
    requires LogOk(s) && Appended(s, r) && Appended(s, q) && ErrorOf(id, r) && ErrorOf(id, q)
    ensures r == q
  {
    var i: nat :| id == ActionId(r.receiptId, i);
    var j: nat :| id == ActionId(q.receiptId, j);
    ActionIdInjective(r.receiptId, i, q.receiptId, j);
  }

  // Being tracked, once given up, was given up for being done.
  lemma TrackedStays(chain: Chain, s: Stores, s': Stores, errors: Errors, errors': Errors, r: Receipt, medium: Medium)
    requires Grows(s, s') && ErrorsGrow(errors, errors') && ErrorsOk(chain, s', errors', medium)
    requires TrackedOrDone(chain, s, errors, r, medium)
    ensures TrackedOrDone(chain, s', errors', r, medium)
  {
    if !AllDone(chain, s, r) {
      var id :| id in errors && errors[id] == ErrorRecord(Some(StoredForm(r, medium)), Open);
      var q :| Carries(chain, s', id, errors'[id], q, medium);
      if errors'[id].status != Open {
        SameFormDone(chain, s', q, r, medium);
      }
    }
  }

  lemma SettledStays(chain: Chain, s: Stores, s': Stores, r: Receipt)
    requires Grows(s, s') && ErrorsOk(chain, s', s'.dynamo, ViaDynamo) && ErrorsOk(chain, s', s'.postgres, ViaPostgres)
    requires Settled(chain, s, r)
    ensures Settled(chain, s', r)
  {
    TrackedStays(chain, s, s', s.dynamo, s'.dynamo, r, ViaDynamo);
    TrackedStays(chain, s, s', s.postgres, s'.postgres, r, ViaPostgres);
  }

  // For a write that touches neither the log nor the stream, nothing is lost.
  lemma NothingLostStays(chain: Chain, s: Stores, s': Stores)
    requires Inv(chain, s) && Grows(s, s') && s'.log == s.log && s'.live == s.live
    requires ErrorsOk(chain, s', s'.dynamo, ViaDynamo) && ErrorsOk(chain, s', s'.postgres, ViaPostgres)
    ensures NothingLost(chain, s')
  {
    forall id | 0 <= id < |s'.log| && s'.log[id].Some? && id !in s'.live ensures Settled(chain, s', s'.log[id].value) {
      SettledStays(chain, s, s', s.log[id].value);
    }
  }

  // ---------- every write keeps the invariant ----------

  lemma EmptyInv(chain: Chain)
    ensures Inv(chain, EMPTY)
  {}

  ghost predicate MayAppend(s: Stores, entry: Option<Receipt>) {
    entry.Some? ==>
      && DistinctIndices(entry.value)
      && forall q :: Appended(s, q) && q.receiptId == entry.value.receiptId ==> q == entry.value
  }

  lemma AppendKeeps(chain: Chain, s: Stores, entry: Option<Receipt>)
    requires Inv(chain, s) && MayAppend(s, entry)
    ensures Inv(chain, Append(s, entry)) && Grows(s, Append(s, entry))
  {
    hide ErrorsOk, FundsOk, LedgerOk, Settled;
    var s' := Append(s, entry);
    assert forall r :: Appended(s', r) <==> Appended(s, r) || entry == Some(r);
    ErrorsStayOk(chain, s, s', s.dynamo, ViaDynamo);
    ErrorsStayOk(chain, s, s', s.postgres, ViaPostgres);
    FundsStayOk(chain, s, s');
    LedgerStaysOk(chain, s, s');
    forall id | 0 <= id < |s'.log| && s'.log[id].Some? && id !in s'.live ensures Settled(chain, s', s'.log[id].value) {
      SettledStays(chain, s, s', s.log[id].value);
    }
  }

  lemma SaveFundsKeeps(chain: Chain, s: Stores, a: TransactionAction, kind: FundsKind)
    requires Inv(chain, s) && Known(chain, s, a) && !a.failed
    ensures Inv(chain, SaveFunds(chain, s, a, kind)) && Grows(s, SaveFunds(chain, s, a, kind))
  {
    if FundsOf(chain, a, kind).Returns? && FundsOf(chain, a, kind).value.Some? {
      KindOfFunds(chain, a, kind);
      PutFundsKeeps(chain, s, PutFunds(s, FundsOf(chain, a, kind).value.value), a, FundsOf(chain, a, kind).value.value);
    }
  }

  lemma SaveFundsStores(chain: Chain, s: Stores, a: TransactionAction, kind: FundsKind)
    requires FundsOf(chain, a, kind).Returns?
    ensures FundsStored(chain, SaveFunds(chain, s, a, kind), a, kind)
  {}

  lemma PutFundsKeeps(chain: Chain, s: Stores, s': Stores, a: TransactionAction, f: FundsRecord)
    requires Inv(chain, s) && Known(chain, s, a) && !a.failed && FundsOf(chain, a, f.kind) == Returns(Some(f))
    requires s' == PutFunds(s, f)
    ensures Inv(chain, s') && Grows(s, s')
  {
    hide ErrorsOk, NothingLost, LedgerOk, LogOk, Known;
    KnownGrows(chain, s, s', a);
    assert Origin(chain, s', KeyOf(f), f);
    forall key | key in s'.funds ensures Origin(chain, s', key, s'.funds[key]) {
      if key != KeyOf(f) {
        OriginGrows(chain, s, s', key, s.funds[key]);
      }
    }
    OtherWritesKeep(chain, s, s');
    LedgerStaysOk(chain, s, s');
  }

  // What a write that leaves the error stores, the log and the stream alone need not prove again.
  lemma OtherWritesKeep(chain: Chain, s: Stores, s': Stores)
    requires Inv(chain, s) && Grows(s, s')
    requires s'.log == s.log && s'.live == s.live && s'.dynamo == s.dynamo && s'.postgres == s.postgres
    ensures LogOk(s') && NothingLost(chain, s')
    ensures ErrorsOk(chain, s', s'.dynamo, ViaDynamo) && ErrorsOk(chain, s', s'.postgres, ViaPostgres)
  {
    ErrorsStayOk(chain, s, s', s.dynamo, ViaDynamo);
    ErrorsStayOk(chain, s, s', s.postgres, ViaPostgres);
    NothingLostStays(chain, s, s');
    assert forall r :: Appended(s', r) <==> Appended(s, r);
  }

  lemma SaveLedgerKeeps(chain: Chain, s: Stores, a: TransactionAction, results: seq<Cell>)
    requires Inv(chain, s) && Known(chain, s, a) && !a.failed
    requires FundsStored(chain, s, a, DepositFunds) && FundsStored(chain, s, a, TokenFunds)
    ensures Inv(chain, SaveLedger(s, a, results)) && Grows(s, SaveLedger(s, a, results))
    ensures Done(SaveLedger(s, a, results), a)
  {
    hide ErrorsOk, NothingLost, FundsOk, LogOk, Known, FundsOf;
    var s' := SaveLedger(s, a, results);
    forall key | key in s'.ledger ensures exists b :: Handled(chain, s', key, b) {
      if key == LedgerKeyOf(a) {
        KnownGrows(chain, s, s', a);
        assert Handled(chain, s', key, a);
      } else {
        var b :| Handled(chain, s, key, b);
        KnownGrows(chain, s, s', b);
        assert Handled(chain, s', key, b);
      }
    }
    OtherWritesKeep(chain, s, s');
    FundsStayOk(chain, s, s');
  }

  // A write to one error store.
  lemma ErrorWriteKeeps(chain: Chain, s: Stores, s': Stores)
    requires Inv(chain, s) && Grows(s, s')
    requires s' == s.(dynamo := s'.dynamo, postgres := s'.postgres)
    requires ErrorsOk(chain, s', s'.dynamo, ViaDynamo) && ErrorsOk(chain, s', s'.postgres, ViaPostgres)
      && s'.postgres.Keys <= s'.dynamo.Keys
    ensures Inv(chain, s')
  {
    hide ErrorsOk, FundsOk, LedgerOk, NothingLost;
    NothingLostStays(chain, s, s');
    FundsStayOk(chain, s, s');
    LedgerStaysOk(chain, s, s');
    assert forall r :: Appended(s', r) <==> Appended(s, r);
  }

  // The record of an error id, if there is one, carries the receipt the id names.
  lemma RecordOf(chain: Chain, s: Stores, errors: Errors, id: string, r: Receipt, medium: Medium)
    requires LogOk(s) && ErrorsOk(chain, s, errors, medium) && Appended(s, r) && ErrorOf(id, r) && id in errors
    ensures Carries(chain, s, id, errors[id], r, medium)
  {
    var q :| Carries(chain, s, id, errors[id], q, medium);
    ErrorOfIsUnique(s, id, r, q);
  }

  lemma ErrorUpdateOk(chain: Chain, s: Stores, s': Stores, errors: Errors, id: string, e: ErrorRecord, r: Receipt,
                      medium: Medium)
    requires Grows(s, s') && ErrorsOk(chain, s, errors, medium) && Carries(chain, s', id, e, r, medium)
    ensures ErrorsOk(chain, s', errors[id := e], medium)
  {
    ErrorsStayOk(chain, s, s', errors, medium);
    var errors' := errors[id := e];
    forall k | k in errors' ensures exists q :: Carries(chain, s', k, errors'[k], q, medium) {
      if k == id {
        assert Carries(chain, s', k, errors'[k], r, medium);
      } else {
        var q :| Carries(chain, s', k, errors[k], q, medium);
        assert Carries(chain, s', k, errors'[k], q, medium);
      }
    }
  }

  lemma CreateDynamoKeeps(chain: Chain, s: Stores, id: string, r: Receipt)
    requires Inv(chain, s) && Appended(s, r) && ErrorOf(id, r)
    ensures Inv(chain, CreateDynamo(s, id, r)) && Grows(s, CreateDynamo(s, id, r))
    ensures Tracked(CreateDynamo(s, id, r).dynamo, r, ViaDynamo) && id in CreateDynamo(s, id, r).dynamo
  {
    hide ErrorsOk, FundsOk, LedgerOk, NothingLost, LogOk;
    var s' := CreateDynamo(s, id, r);
    if id in s.dynamo {
      RecordOf(chain, s, s.dynamo, id, r, ViaDynamo);
    }
    ErrorsStayOk(chain, s, s', s.postgres, ViaPostgres);
    ErrorUpdateOk(chain, s, s', s.dynamo, id, s'.dynamo[id], r, ViaDynamo);
    ErrorWriteKeeps(chain, s, s');
  }

  lemma CreatePostgresKeeps(chain: Chain, s: Stores, id: string, r: Receipt)
    requires Inv(chain, s) && Appended(s, r) && ErrorOf(id, r) && id in s.dynamo
    ensures Inv(chain, CreatePostgres(s, id, r)) && Grows(s, CreatePostgres(s, id, r))
    ensures TrackedOrDone(chain, CreatePostgres(s, id, r), CreatePostgres(s, id, r).postgres, r, ViaPostgres)
  {
    hide ErrorsOk, FundsOk, LedgerOk, NothingLost, LogOk;
    var s' := CreatePostgres(s, id, r);
    if id in s.postgres {
      RecordOf(chain, s, s.postgres, id, r, ViaPostgres);
    }
    PostgresWriteKeeps(chain, s, s', id, s'.postgres[id], r);
    if s'.postgres[id].status == Open {
      assert Tracked(s'.postgres, r, ViaPostgres);
    }
  }

  lemma PostgresWriteKeeps(chain: Chain, s: Stores, s': Stores, id: string, e: ErrorRecord, r: Receipt)
    requires Inv(chain, s) && Carries(chain, s, id, e, r, ViaPostgres) && id in s.dynamo
    requires id in s.postgres ==> e.receipt == s.postgres[id].receipt
    requires s' == s.(postgres := s.postgres[id := e])
    ensures Inv(chain, s') && Grows(s, s')
  {
    hide ErrorsOk, FundsOk, LedgerOk, NothingLost, LogOk, Appended, Carries;
    CarriesGrows(chain, s, s', id, e, r, ViaPostgres);
    ErrorsStayOk(chain, s, s', s.dynamo, ViaDynamo);
    ErrorUpdateOk(chain, s, s', s.postgres, id, e, r, ViaPostgres);
    ErrorWriteKeeps(chain, s, s');
  }

  lemma MarkDynamoKeeps(chain: Chain, s: Stores, id: string, r: Receipt)
    requires Inv(chain, s) && Appended(s, r) && ErrorOf(id, r) && AllDone(chain, s, r) && id in s.dynamo
    ensures Inv(chain, MarkDynamo(s, id)) && Grows(s, MarkDynamo(s, id))
  {
    hide ErrorsOk, FundsOk, LedgerOk, NothingLost, LogOk;
    var s' := MarkDynamo(s, id);
    RecordOf(chain, s, s.dynamo, id, r, ViaDynamo);
    ErrorsStayOk(chain, s, s', s.postgres, ViaPostgres);
    ErrorUpdateOk(chain, s, s', s.dynamo, id, s'.dynamo[id], r, ViaDynamo);
    ErrorWriteKeeps(chain, s, s');
  }

  lemma MarkPostgresKeeps(chain: Chain, s: Stores, id: string, r: Receipt)
    requires Inv(chain, s) && Appended(s, r) && ErrorOf(id, r) && AllDone(chain, s, r)
    ensures Inv(chain, MarkPostgres(s, id)) && Grows(s, MarkPostgres(s, id))
  {
    if id in s.postgres {
      RecordOf(chain, s, s.postgres, id, r, ViaPostgres);
      PostgresWriteKeeps(chain, s, MarkPostgres(s, id), id, s.postgres[id].(status := Resolved), r);
    }
  }

  lemma RemoveKeeps(chain: Chain, s: Stores, entry: nat)
    requires Inv(chain, s) && entry < |s.log| && (s.log[entry].Some? ==> Settled(chain, s, s.log[entry].value))
    ensures Inv(chain, Remove(s, entry)) && Grows(s, Remove(s, entry))
  {
    hide ErrorsOk, FundsOk, LedgerOk, Settled;
    var s' := Remove(s, entry);
    ErrorsStayOk(chain, s, s', s.dynamo, ViaDynamo);
    ErrorsStayOk(chain, s, s', s.postgres, ViaPostgres);
    FundsStayOk(chain, s, s');
    LedgerStaysOk(chain, s, s');
    assert forall r :: Appended(s', r) <==> Appended(s, r);
    forall id | 0 <= id < |s'.log| && s'.log[id].Some? && id !in s'.live ensures Settled(chain, s', s'.log[id].value) {
      SettledStays(chain, s, s', s.log[id].value);
    }
  }
}
