/**
 * From the stream to the balance: what the daily balances of a DAO add up to once everything has drained, as they
 * are collected from the DAO's partition of the table.
 */
module Treasury {
  import opened Wrappers
  import opened Keys
  import opened Receipts
  import opened Stores
  import opened Protocol
  import opened Sums
  import opened Accounting
  import opened DailyBalance
  import Paging

  // A stored record as the balance reads it.
  function AsReceipt(f: FundsRecord): FundsReceipt {
    FundsReceipt(if f.receiverId.Some? then f.receiverId.value else "", f.amount, f.timestamp)
  }

  function Read(s: Stores, keys: seq<FundsKey>): (receipts: seq<FundsReceipt>)
    requires forall key :: key in keys ==> key in s.funds
    ensures |receipts| == |keys|
    ensures forall i :: 0 <= i < |keys| ==> receipts[i] == AsReceipt(s.funds[keys[i]])
  {
    seq(|keys|, i requires 0 <= i < |keys| => AsReceipt(s.funds[keys[i]]))
  }

  // ---------- what a balance asks for ----------

  function EntityType(kind: FundsKind): string {
    if kind == DepositFunds then "DaoFundsReceipt" else "DaoFundsTokenReceipt"
  }

  function RecordId(f: FundsRecord): string {
    if f.kind == DepositFunds then DepositId(f.timestamp, f.receiptId, f.index)
    else TokenDepositId(f.tokenId, f.timestamp, f.receiptId, f.index)
  }

  // All deposits, or the records that start with the token and a dash.
  function Asked(kind: FundsKind, token: string): string {
    if kind == DepositFunds then "" else Dash(token, "")
  }

  predicate Selects(kind: FundsKind, daoId: string, token: string, f: FundsRecord) {
    f.kind == kind && f.daoId == daoId && Asked(kind, token) <= RecordId(f)
  }

  // The sort keys of the DAO's partition; of other types there may be any.
  ghost predicate PartitionOf(s: Stores, daoId: string, partition: set<string>, kind: FundsKind) {
    forall id :: EntityId(EntityType(kind), "") <= id ==> (id in partition <==> FundsKey(daoId, id) in s.funds)
  }

  function InPartition(daoId: string, ids: seq<string>): (keys: seq<FundsKey>)
    ensures |keys| == |ids| && forall i :: 0 <= i < |keys| ==> keys[i] == FundsKey(daoId, ids[i])
  {
    seq(|ids|, i requires 0 <= i < |ids| => FundsKey(daoId, ids[i]))
  }

  lemma SelectedId(f: FundsRecord, kind: FundsKind, token: string)
    ensures KeyOf(f) == FundsKey(f.daoId, EntityId(EntityType(f.kind), RecordId(f)))
    ensures EntityId(EntityType(kind), Asked(kind, token)) <= KeyOf(f).entityId <==>
      f.kind == kind && Asked(kind, token) <= RecordId(f)
    ensures EntityId(EntityType(kind), "") <= EntityId(EntityType(kind), Asked(kind, token))
  {
    PrefixSelectsType(EntityType(kind), Asked(kind, token), EntityType(f.kind), RecordId(f));
    assert |EntityType(DepositFunds)| != |EntityType(TokenFunds)|;
  }

  ghost predicate DistinctKeys(keys: seq<FundsKey>) {
    forall i, j :: 0 <= i < j < |keys| ==> keys[i] != keys[j]
  }

  // The complete collection is the DAO's stored records that are selected, each once.
  lemma CollectedKeys(chain: Chain, s: Stores, daoId: string, partition: set<string>, kind: FundsKind, token: string)
    requires Inv(chain, s) && PartitionOf(s, daoId, partition, kind)
    ensures var keys :=
      InPartition(daoId, Paging.Ordered(Paging.Matching(partition, EntityId(EntityType(kind), Asked(kind, token)))));
      && DistinctKeys(keys)
      && forall key :: key in keys <==> key in s.funds && Selects(kind, daoId, token, s.funds[key])
  {
    hide Inv, Selects;
    var prefix := EntityId(EntityType(kind), Asked(kind, token));
    var range := Paging.Matching(partition, prefix);
    var ids := Paging.Ordered(range);
    var keys := InPartition(daoId, ids);
    Paging.OrderedDistinct(range);
    forall key ensures key in keys <==> key in s.funds && Selects(kind, daoId, token, s.funds[key]) {
      if key in keys {
        var i :| 0 <= i < |keys| && keys[i] == key;
        assert ids[i] in ids && ids[i] in range;
        CollectedIsSelected(chain, s, daoId, partition, kind, token, key.entityId);
      }
      if key in s.funds && Selects(kind, daoId, token, s.funds[key]) {
        SelectedIsCollected(chain, s, daoId, partition, kind, token, key);
        var i :| 0 <= i < |ids| && ids[i] == key.entityId;
        assert keys[i] == key;
      }
    }
  }

  lemma StoredUnderItsKey(chain: Chain, s: Stores, key: FundsKey)
    requires Inv(chain, s) && key in s.funds
    ensures KeyOf(s.funds[key]) == key
  {
    assert Origin(chain, s, key, s.funds[key]);
  }

  lemma CollectedIsSelected(chain: Chain, s: Stores, daoId: string, partition: set<string>, kind: FundsKind,
                            token: string, id: string)
    requires Inv(chain, s) && PartitionOf(s, daoId, partition, kind)
    requires id in partition && EntityId(EntityType(kind), Asked(kind, token)) <= id
    ensures FundsKey(daoId, id) in s.funds && Selects(kind, daoId, token, s.funds[FundsKey(daoId, id)])
  {
    hide Inv;
    assert EntityId(EntityType(kind), "") <= id;
    var f := s.funds[FundsKey(daoId, id)];
    StoredUnderItsKey(chain, s, FundsKey(daoId, id));
    SelectedId(f, kind, token);
  }

  lemma SelectedIsCollected(chain: Chain, s: Stores, daoId: string, partition: set<string>, kind: FundsKind,
                            token: string, key: FundsKey)
    requires Inv(chain, s) && PartitionOf(s, daoId, partition, kind)
    requires key in s.funds && Selects(kind, daoId, token, s.funds[key])
    ensures key.partitionId == daoId
    ensures key.entityId in Paging.Matching(partition, EntityId(EntityType(kind), Asked(kind, token)))
  {
    hide Inv;
    StoredUnderItsKey(chain, s, key);
    SelectedId(s.funds[key], kind, token);
    assert EntityId(EntityType(kind), "") <= key.entityId;
  }

  // ---------- sums ----------

  // What a record adds to the balance of a day.
  ghost function ChangeBy(kind: FundsKind, daoId: string, token: string, day: nat): FundsRecord -> int {
    (f: FundsRecord) => if Selects(kind, daoId, token, f) && DayOf(AsReceipt(f)) <= day then Signed(f, daoId) else 0
  }

  ghost function KeySet(keys: seq<FundsKey>): set<FundsKey> {
    set key | key in keys
  }

  lemma ChangeIsSigned(f: FundsRecord, daoId: string)
    requires f.daoId == daoId && daoId != ""
    ensures Change(AsReceipt(f), daoId) == Signed(f, daoId)
  {}

  lemma EmptySum(weight: FundsKey -> int)
    ensures Sum({}, weight) == 0
  {}

  // The running sum of a day is the sum of the records up to that day.
  lemma {:induction false} RunningSumIsSum(s: Stores, daoId: string, keys: seq<FundsKey>, weight: FundsKey -> int,
                                           day: nat)
    requires DistinctKeys(keys) && daoId != ""
    requires forall key :: key in keys ==> key in s.funds && s.funds[key].daoId == daoId
    requires forall key :: key in keys ==>
      weight(key) == if DayOf(AsReceipt(s.funds[key])) <= day then Signed(s.funds[key], daoId) else 0
    ensures RunningSum(Read(s, keys), daoId, day) == Sum(KeySet(keys), weight)
  {
    hide DayOf, Change, Signed, AsReceipt, Sum;
    if keys == [] {
      assert KeySet(keys) == {};
      EmptySum(weight);
    } else {
      var rest := keys[1..];
      RunningSumIsSum(s, daoId, rest, weight, day);
      assert Read(s, keys)[1..] == Read(s, rest);
      SumRemove(KeySet(keys), weight, keys[0]);
      assert KeySet(keys) - {keys[0]} == KeySet(rest);
      ChangeIsSigned(s.funds[keys[0]], daoId);
    }
  }

  // Once drained, whatever order they are read in, the running sum of the selected records of a DAO is, for every
  // day, the signed sum of the distinct actions they stand for, up to that day.
  lemma SumOfRecordsIsOfActions(chain: Chain, st: State, errors: Errors, daoId: string, kind: FundsKind, token: string,
                                keys: seq<FundsKey>, day: nat)
    requires Drained(chain, st, errors) && KeysReadable(st.stores, kind) && daoId != "" && DistinctKeys(keys)
    requires forall key :: key in keys <==> key in st.stores.funds && Selects(kind, daoId, token, st.stores.funds[key])
    ensures RunningSum(Read(st.stores, keys), daoId, day)
      == WeightOfActions(chain, st.stores, kind, ChangeBy(kind, daoId, token, day))
  {
    hide DayOf, RunningSum, Drained, Signed, RecordId, WeightOfActions;
    var s := st.stores;
    var change := ChangeBy(kind, daoId, token, day);
    var weight := (key: FundsKey) => if key in s.funds then change(s.funds[key]) else 0;
    RunningSumIsSum(s, daoId, keys, weight, day);
    SumIgnoresZeros(StoredKeys(s, kind), KeySet(keys), weight);
    SumsAlike(StoredKeys(s, kind), weight, key => if key in s.funds then change(s.funds[key]) else 0);
    ChangeIgnoresArgs(kind, daoId, token, day);
    EveryWeightAgrees(chain, st, errors, kind, change);
  }

  lemma ChangeIgnoresArgs(kind: FundsKind, daoId: string, token: string, day: nat)
    ensures ArgsFree(ChangeBy(kind, daoId, token, day))
  {
    hide DayOf, DepositId, TokenDepositId;
    forall f: FundsRecord
      ensures RecordId(Bare(f)) == RecordId(f) && AsReceipt(Bare(f)) == AsReceipt(f)
        && Signed(Bare(f), daoId) == Signed(f, daoId)
      ensures Bare(f).kind == f.kind && Bare(f).daoId == f.daoId
    {}
  }

  // ---------- the reported balance ----------

  // What one of the two daily balances collects.
  ghost function Collected(partition: set<string>, kind: FundsKind, token: string, tableName: string, limits: seq<nat>,
                           strict: bool)
    : Outcome<seq<string>>
  {
    Paging.CollectByType(partition, EntityType(kind), Asked(kind, token), tableName, limits, strict)
  }

  ghost predicate PagesFit(partition: set<string>, kind: FundsKind, token: string, tableName: string, limits: seq<nat>,
                           strict: bool)
  {
    Paging.LaterPagesFit(partition, EntityType(kind), Asked(kind, token), tableName,
                         Paging.FirstPage(partition, EntityType(kind), Asked(kind, token), limits), strict)
  }

  // If the pages fit, what is collected is the selected records.
  lemma CollectedIsComplete(chain: Chain, s: Stores, daoId: string, kind: FundsKind, token: string,
                            partition: set<string>, tableName: string, limits: seq<nat>, strict: bool)
    requires Inv(chain, s) && PartitionOf(s, daoId, partition, kind)
      && PagesFit(partition, kind, token, tableName, limits, strict)
    ensures Collected(partition, kind, token, tableName, limits, strict).Returns?
    ensures var keys := InPartition(daoId, Collected(partition, kind, token, tableName, limits, strict).value);
      && DistinctKeys(keys)
      && forall key :: key in keys <==> key in s.funds && Selects(kind, daoId, token, s.funds[key])
  {
    hide Inv, Selects, PartitionOf;
    Paging.ByTypeIsComplete(partition, EntityType(kind), Asked(kind, token), tableName, limits, strict);
    CollectedKeys(chain, s, daoId, partition, kind, token);
  }

  // What is reported for a day, against the running sum.
  lemma ReportedOn(receipts: seq<FundsReceipt>, owner: string, today: nat, yearAgo: nat, day: nat)
    requires day in Balances(receipts, owner, today, yearAgo)
    ensures Balances(receipts, owner, today, yearAgo)[day] == RunningSum(receipts, owner, day)
      <==> day > today || RunningSum(receipts, owner, day) != 0
           || forall e :: 0 <= e <= day ==> !ClosesAt(receipts, owner, e, true)
  {
    hide DayOf, RunningSum, LastNonZero, ClosesAt;
    ReportedIsSum(receipts, owner, day);
  }

  // If the pages fit, collecting does not throw, and the balance reported for any day is the signed sum of the
  // distinct actions up to that day whose records are selected, exactly when the day is past the grid, or that sum is
  // not zero, or no day so far closed at anything else.
  lemma ReportedBalanceIsOfActions(chain: Chain, st: State, errors: Errors, daoId: string, kind: FundsKind,
                                   token: string,
                                   partition: set<string>, tableName: string, limits: seq<nat>, strict: bool,
                                   today: nat, yearAgo: nat, day: nat)
    requires Drained(chain, st, errors) && KeysReadable(st.stores, kind) && daoId != ""
    requires PartitionOf(st.stores, daoId, partition, kind)
    requires PagesFit(partition, kind, token, tableName, limits, strict)
    ensures Collected(partition, kind, token, tableName, limits, strict).Returns?
    ensures var keys := InPartition(daoId, Collected(partition, kind, token, tableName, limits, strict).value);
      var total := WeightOfActions(chain, st.stores, kind, ChangeBy(kind, daoId, token, day));
      && (forall key :: key in keys ==> key in st.stores.funds)
      && var receipts := Read(st.stores, keys);
      && var balances := Balances(receipts, daoId, today, yearAgo);
      && (day in balances <==> HasReceipt(receipts, day) || OnGrid(receipts, day, today, yearAgo))
      && (day in balances ==>
            (balances[day] == total
             <==> day > today || total != 0 || forall e :: 0 <= e <= day ==> !ClosesAt(receipts, daoId, e, true)))
  {
    ReachableInv(chain, st);
    hide DayOf, RunningSum, ClosesAt, LastNonZero, WeightOfActions, ChangeBy, Drained, Inv, Collected, PagesFit,
         Selects;
    hide PartitionOf, KeysReadable, OnGrid;
    CollectedIsComplete(chain, st.stores, daoId, kind, token, partition, tableName, limits, strict);
    var keys := InPartition(daoId, Collected(partition, kind, token, tableName, limits, strict).value);
    var receipts := Read(st.stores, keys);
    SumOfRecordsIsOfActions(chain, st, errors, daoId, kind, token, keys, day);
    DaysReported(receipts, daoId, today, yearAgo, day);
    hide Balances;
    if day in Balances(receipts, daoId, today, yearAgo) {
      ReportedOn(receipts, daoId, today, yearAgo, day);
    }
  }

  lemma DaysReported(receipts: seq<FundsReceipt>, owner: string, today: nat, yearAgo: nat, day: nat)
    ensures day in Balances(receipts, owner, today, yearAgo)
      <==> HasReceipt(receipts, day) || OnGrid(receipts, day, today, yearAgo)
  {}

  // ---------- what that sum is ----------

  ghost function DepositBy(daoId: string, day: nat): FundsRecord -> int {
    (f: FundsRecord) => if DayOf(AsReceipt(f)) <= day then Signed(f, daoId) else 0
  }

  // For deposits, that of all the DAO's actions up to the day.
  lemma SelectedDepositsAreAll(chain: Chain, s: Stores, daoId: string, token: string, day: nat)
    ensures WeightOfActions(chain, s, DepositFunds, ChangeBy(DepositFunds, daoId, token, day))
      == WeightOfActions(chain, s, DepositFunds, DepositBy(daoId, day))
  {
    hide Eligible, DayOf;
    var change, ofDao := ChangeBy(DepositFunds, daoId, token, day), DepositBy(daoId, day);
    forall a | IsEligible(chain, a, DepositFunds)
      ensures change(RecordFor(chain, a, DepositFunds)) == ofDao(RecordFor(chain, a, DepositFunds))
    {
      RecordSource(chain, a, DepositFunds);
    }
    SumsAlike(Eligible(chain, s, DepositFunds),
              a => if IsEligible(chain, a, DepositFunds) then change(RecordFor(chain, a, DepositFunds)) else 0,
              a => if IsEligible(chain, a, DepositFunds) then ofDao(RecordFor(chain, a, DepositFunds)) else 0);
  }

  ghost function TokenBy(daoId: string, token: string, day: nat): FundsRecord -> int {
    (f: FundsRecord) => if f.tokenId == token && DayOf(AsReceipt(f)) <= day then Signed(f, daoId) else 0
  }

  ghost function ForeignBy(daoId: string, token: string, day: nat): FundsRecord -> int {
    (f: FundsRecord) =>
      if Selects(TokenFunds, daoId, token, f) && f.tokenId != token && DayOf(AsReceipt(f)) <= day then Signed(f, daoId)
        else 0
  }

  // For a token, that of the actions on the token up to the day, and of those on other tokens that the prefix selects.
  lemma SelectedTokenAndForeign(chain: Chain, s: Stores, daoId: string, token: string, day: nat)
    ensures WeightOfActions(chain, s, TokenFunds, ChangeBy(TokenFunds, daoId, token, day))
      == WeightOfActions(chain, s, TokenFunds, TokenBy(daoId, token, day))
         + WeightOfActions(chain, s, TokenFunds, ForeignBy(daoId, token, day))
  {
    var selected, ofToken, foreign :=
      ChangeBy(TokenFunds, daoId, token, day), TokenBy(daoId, token, day), ForeignBy(daoId, token, day);
    var actions := Eligible(chain, s, TokenFunds);
    hide Eligible;
    forall a | a in actions
      ensures var f := RecordFor(chain, a, TokenFunds); selected(f) == ofToken(f) + foreign(f)
    {
      RecordSource(chain, a, TokenFunds);
      TokenWeight(RecordFor(chain, a, TokenFunds), daoId, token, day);
    }
    SumAdds(actions,
            a => if IsEligible(chain, a, TokenFunds) then ofToken(RecordFor(chain, a, TokenFunds)) else 0,
            a => if IsEligible(chain, a, TokenFunds) then foreign(RecordFor(chain, a, TokenFunds)) else 0,
            a => if IsEligible(chain, a, TokenFunds) then selected(RecordFor(chain, a, TokenFunds)) else 0);
  }

  lemma TokenWeight(f: FundsRecord, daoId: string, token: string, day: nat)
    requires f.kind == TokenFunds
    ensures ChangeBy(TokenFunds, daoId, token, day)(f)
      == TokenBy(daoId, token, day)(f) + ForeignBy(daoId, token, day)(f)
  {
    TokenPrefixSelects(token, f.tokenId, f.timestamp, f.receiptId, f.index);
  }
}
