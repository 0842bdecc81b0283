/**
 * Exactly-once accounting: what the treasury records amount to once everything has drained.
 */
module Accounting {
  import opened Wrappers
  import opened Keys
  import opened Receipts
  import opened Stores
  import opened Protocol
  import opened Sums

  predicate IsEligible(chain: Chain, a: TransactionAction, kind: FundsKind) {
    !a.failed && FundsOf(chain, a, kind).Returns? && FundsOf(chain, a, kind).value.Some?
  }

  // The distinct actions of all appended receipts that stand for a record of this kind.
  ghost function Eligible(chain: Chain, s: Stores, kind: FundsKind): (actions: set<TransactionAction>)
    ensures forall a :: a in actions ==> IsEligible(chain, a, kind)
  {
    set id, i | 0 <= id < |s.log| && s.log[id].Some? && 0 <= i < |Actions(s.log[id].value)|
                && IsEligible(chain, Cast(chain, s.log[id].value, i), kind)
      :: Cast(chain, s.log[id].value, i)
  }

  ghost function RecordFor(chain: Chain, a: TransactionAction, kind: FundsKind): FundsRecord
    requires IsEligible(chain, a, kind)
  {
    FundsOf(chain, a, kind).value.value
  }

  // The keys of the stored records of this kind.
  ghost function StoredKeys(s: Stores, kind: FundsKind): set<FundsKey> {
    set key | key in s.funds && s.funds[key].kind == kind
  }

  // Income counts up, spending down, as the daily balance does.
  function Signed(f: FundsRecord, daoId: string): int {
    if f.daoId != daoId then 0 else if f.receiverId == Some(daoId) then f.amount else -f.amount
  }

  ghost function StoredTotal(s: Stores, kind: FundsKind, daoId: string): int {
    Sum(StoredKeys(s, kind), key => if key in s.funds then Signed(s.funds[key], daoId) else 0)
  }

  ghost function ActionTotal(chain: Chain, s: Stores, kind: FundsKind, daoId: string): int {
    Sum(Eligible(chain, s, kind),
        a => if IsEligible(chain, a, kind) then Signed(RecordFor(chain, a, kind), daoId) else 0)
  }

  // Receipt ids are base58 hashes; the token keys need that much of them.
  ghost predicate KeysReadable(s: Stores, kind: FundsKind) {
    kind == TokenFunds ==> forall r :: Appended(s, r) ==> '-' !in r.receiptId
  }

  lemma EligibleIsOriginal(chain: Chain, s: Stores, kind: FundsKind, a: TransactionAction)
    ensures a in Eligible(chain, s, kind) <==> Original(chain, s, a) && IsEligible(chain, a, kind)
  {
    if Original(chain, s, a) && IsEligible(chain, a, kind) {
      var r, i: nat :| Appended(s, r) && i < |Actions(r)| && a == Cast(chain, r, i);
      var id :| 0 <= id < |s.log| && s.log[id] == Some(r);
      assert Cast(chain, s.log[id].value, i) == a;
    } else if a in Eligible(chain, s, kind) {
      var id, i :| 0 <= id < |s.log| && s.log[id].Some? && 0 <= i < |Actions(s.log[id].value)|
        && a == Cast(chain, s.log[id].value, i) && IsEligible(chain, a, kind);
      assert Appended(s, s.log[id].value);
    }
  }

  lemma OriginalIsKnown(chain: Chain, s: Stores, a: TransactionAction)
    requires Original(chain, s, a)
    ensures Known(chain, s, a)
  {}

  lemma OriginalBySource(chain: Chain, s: Stores, a: TransactionAction, b: TransactionAction)
    requires LogOk(s) && Original(chain, s, a) && Original(chain, s, b)
    requires a.receiptId == b.receiptId && a.index == b.index
    ensures a == b
  {
    var r, i: nat :| Appended(s, r) && i < |Actions(r)| && a == Cast(chain, r, i);
    var q, j: nat :| Appended(s, q) && j < |Actions(q)| && b == Cast(chain, q, j);
    assert r == q;
    assert DistinctIndices(r);
  }

  // Two appended actions whose records share a key are one action.
  lemma SameKeySameAction(chain: Chain, s: Stores, kind: FundsKind, a: TransactionAction, b: TransactionAction)
    requires LogOk(s) && KeysReadable(s, kind) && Original(chain, s, a) && Original(chain, s, b)
    requires IsEligible(chain, a, kind) && IsEligible(chain, b, kind)
    requires KeyOf(RecordFor(chain, a, kind)) == KeyOf(RecordFor(chain, b, kind))
    ensures a == b
  {
    RecordSource(chain, a, kind);
    RecordSource(chain, b, kind);
    KnownReadable(chain, s, kind, a);
    KnownReadable(chain, s, kind, b);
    KeyDeterminesSource(RecordFor(chain, a, kind), RecordFor(chain, b, kind));
    OriginalBySource(chain, s, a, b);
  }

  lemma KnownReadable(chain: Chain, s: Stores, kind: FundsKind, a: TransactionAction)
    requires KeysReadable(s, kind) && Known(chain, s, a)
    ensures kind == TokenFunds ==> '-' !in a.receiptId
  {
    var r, i: nat :| Appended(s, r) && i < |Actions(r)| && Replayed(a, Cast(chain, r, i));
    ReplayedSource(chain, r, i, a);
  }

  lemma RecordSource(chain: Chain, a: TransactionAction, kind: FundsKind)
    requires IsEligible(chain, a, kind)
    ensures var f := RecordFor(chain, a, kind); f.kind == kind && f.receiptId == a.receiptId && f.index == a.index
  {}

  // What is known to come from one source makes records alike.
  lemma AlikeRecords(chain: Chain, s: Stores, kind: FundsKind, a: TransactionAction, b: TransactionAction)
    requires LogOk(s) && Known(chain, s, a) && Known(chain, s, b) && a.receiptId == b.receiptId && a.index == b.index
    requires IsEligible(chain, a, kind)
    ensures IsEligible(chain, b, kind) && Bare(RecordFor(chain, b, kind)) == Bare(RecordFor(chain, a, kind))
  {
    hide FundsOf, Known, LogOk, Bare;
    AlikeBySource(chain, s, a, b);
    assert FundsAlike(FundsOf(chain, a, kind), FundsOf(chain, b, kind));
  }

  // The action whose ledger row an action finds.
  lemma RowOf(chain: Chain, s: Stores, a: TransactionAction, kind: FundsKind) returns (b: TransactionAction)
    requires Inv(chain, s) && LedgerKeyOf(a) in s.ledger
    ensures Known(chain, s, b) && LedgerKeyOf(b) == LedgerKeyOf(a) && FundsStored(chain, s, b, kind)
  {
    hide Known, FundsStored;
    b :| Handled(chain, s, LedgerKeyOf(a), b);
  }

  // The action that a record was made of.
  lemma OriginOf(chain: Chain, s: Stores, key: FundsKey) returns (c: TransactionAction)
    requires Inv(chain, s) && key in s.funds
    ensures Known(chain, s, c) && KeyOf(s.funds[key]) == key
    ensures IsEligible(chain, c, s.funds[key].kind) && RecordFor(chain, c, s.funds[key].kind) == s.funds[key]
  {
    hide Known, KeyOf, FundsOf;
    var g := s.funds[key];
    c :| Known(chain, s, c) && !c.failed && KeyOf(g) == key && FundsOf(chain, c, g.kind) == Returns(Some(g));
  }

  // An eligible action that is done has its own record stored, but for its args, which a replay may have cut.
  lemma DoneHasItsRecord(chain: Chain, s: Stores, kind: FundsKind, a: TransactionAction)
    requires Inv(chain, s) && KeysReadable(s, kind) && Original(chain, s, a) && IsEligible(chain, a, kind) && Done(s, a)
    ensures var f := RecordFor(chain, a, kind); KeyOf(f) in s.funds && Bare(s.funds[KeyOf(f)]) == Bare(f)
  {
    InvLog(chain, s);
    hide FundsOf, KeyOf, Inv, Original, Known, Bare, LedgerKeyOf, KeysReadable, LogOk;
    var b := RowOf(chain, s, a, kind);
    LedgerKeyDeterminesSource(a, b);
    OriginalIsKnown(chain, s, a);
    AlikeRecords(chain, s, kind, a, b);
    BareKey(RecordFor(chain, b, kind), RecordFor(chain, a, kind));
    StoredIsOwn(chain, s, kind, a, KeyOf(RecordFor(chain, a, kind)));
  }

  // A record under an action's key is that action's record.
  lemma StoredIsOwn(chain: Chain, s: Stores, kind: FundsKind, a: TransactionAction, key: FundsKey)
    requires Inv(chain, s) && KeysReadable(s, kind) && Original(chain, s, a) && IsEligible(chain, a, kind)
    requires key == KeyOf(RecordFor(chain, a, kind)) && key in s.funds
    ensures Bare(s.funds[key]) == Bare(RecordFor(chain, a, kind))
  {
    InvLog(chain, s);
    hide FundsOf, KeyOf, Inv, Original, Known, Bare, KeysReadable, LogOk;
    var g, f := s.funds[key], RecordFor(chain, a, kind);
    var c := OriginOf(chain, s, key);
    KeyKind(f, g);
    OriginalIsKnown(chain, s, a);
    RecordSource(chain, a, kind);
    RecordSource(chain, c, g.kind);
    KnownReadable(chain, s, kind, a);
    KnownReadable(chain, s, kind, c);
    KeyDeterminesSource(f, g);
    AlikeRecords(chain, s, kind, a, c);
  }

  // The entity type in a key tells the kind of its record.
  lemma KeyKind(f: FundsRecord, g: FundsRecord)
    requires KeyOf(f) == KeyOf(g)
    ensures f.kind == g.kind
  {
    if f.kind != g.kind {
      var d, t := if f.kind == DepositFunds then f else g, if f.kind == DepositFunds then g else f;
      assert |"DaoFundsReceipt"| != |"DaoFundsTokenReceipt"|;
      EntityIdInjective("DaoFundsReceipt", DepositId(d.timestamp, d.receiptId, d.index),
                        "DaoFundsTokenReceipt", TokenDepositId(t.tokenId, t.timestamp, t.receiptId, t.index));
    }
  }

  ghost predicate Drained(chain: Chain, st: State, errors: Errors) {
    && Reachable(chain, st) && st.stores.live == {}
    && (errors == st.stores.dynamo || errors == st.stores.postgres)
    && forall id :: id in errors ==> errors[id].status != Open
  }

  lemma DrainedHasRecord(chain: Chain, st: State, errors: Errors, kind: FundsKind, a: TransactionAction)
    requires Drained(chain, st, errors) && KeysReadable(st.stores, kind) && a in Eligible(chain, st.stores, kind)
    ensures var f := RecordFor(chain, a, kind);
      KeyOf(f) in st.stores.funds && Bare(st.stores.funds[KeyOf(f)]) == Bare(f)
        && st.stores.funds[KeyOf(f)].kind == kind
  {
    ReachableInv(chain, st);
    EligibleIsOriginal(chain, st.stores, kind, a);
    var r, i: nat :| Appended(st.stores, r) && i < |Actions(r)| && a == Cast(chain, r, i);
    DrainedMeansDone(chain, st, errors, r);
    hide Inv, Drained;
    DoneHasItsRecord(chain, st.stores, kind, a);
    RecordSource(chain, a, kind);
    BareKey(st.stores.funds[KeyOf(RecordFor(chain, a, kind))], RecordFor(chain, a, kind));
  }

  lemma OriginalOf(chain: Chain, s: Stores, c: TransactionAction) returns (a: TransactionAction)
    requires Known(chain, s, c)
    ensures Original(chain, s, a) && Replayed(c, a)
  {
    hide Cast, Replayed;
    var r, i: nat :| Appended(s, r) && i < |Actions(r)| && Replayed(c, Cast(chain, r, i));
    a := Cast(chain, r, i);
  }

  // Every stored record is that of an eligible action, drained or not, but for its args.
  lemma RecordHasAction(chain: Chain, s: Stores, kind: FundsKind, key: FundsKey)
    requires Inv(chain, s) && key in StoredKeys(s, kind)
    ensures exists a :: a in Eligible(chain, s, kind) && KeyOf(RecordFor(chain, a, kind)) == key
                        && Bare(RecordFor(chain, a, kind)) == Bare(s.funds[key])
  {
    InvLog(chain, s);
    hide FundsOf, KeyOf, Inv, Original, Known, Bare, LogOk, Eligible, Recast, LedgerKeyOf;
    var c := OriginOf(chain, s, key);
    var a := OriginalOf(chain, s, c);
    OriginalIsKnown(chain, s, a);
    ReplayedKeepsRecords(chain, c, a);
    AlikeRecords(chain, s, kind, c, a);
    EligibleIsOriginal(chain, s, kind, a);
    BareKey(s.funds[key], RecordFor(chain, a, kind));
  }

  // It does not depend on the args.
  ghost predicate ArgsFree(weight: FundsRecord -> int) {
    forall f :: weight(f) == weight(Bare(f))
  }

  // Once the stream is empty and one error store has no open record, the records of a kind stand one to one for
  // the eligible actions; so, whatever is read off a record but its args, its sum over the records is that over the
  // actions.
  lemma EveryWeightAgrees(chain: Chain, st: State, errors: Errors, kind: FundsKind, weight: FundsRecord -> int)
    requires Drained(chain, st, errors) && KeysReadable(st.stores, kind) && ArgsFree(weight)
    ensures |StoredKeys(st.stores, kind)| == |Eligible(chain, st.stores, kind)|
    ensures WeightStored(st.stores, kind, weight) == WeightOfActions(chain, st.stores, kind, weight)
  {
    var s := st.stores;
    ReachableInv(chain, st);
    var actions, keys := Eligible(chain, s, kind), StoredKeys(s, kind);
    var key := (a: TransactionAction) =>
      if IsEligible(chain, a, kind) then KeyOf(RecordFor(chain, a, kind)) else FundsKey("", "");
    hide Drained, Inv, KeyOf, Original;
    forall a | a in actions
      ensures key(a) in keys && Bare(s.funds[key(a)]) == Bare(RecordFor(chain, a, kind))
      ensures weight(s.funds[key(a)]) == weight(RecordFor(chain, a, kind))
    {
      DrainedHasRecord(chain, st, errors, kind, a);
    }
    forall a, b | a in actions && b in actions && key(a) == key(b) ensures a == b {
      EligibleIsOriginal(chain, s, kind, a);
      EligibleIsOriginal(chain, s, kind, b);
      InvLog(chain, s);
      SameKeySameAction(chain, s, kind, a, b);
    }
    forall k | k in keys ensures exists a :: a in actions && key(a) == k {
      RecordHasAction(chain, s, kind, k);
    }
    SumAlong(actions, keys, key,
             a => if IsEligible(chain, a, kind) then weight(RecordFor(chain, a, kind)) else 0,
             k => if k in s.funds then weight(s.funds[k]) else 0);
  }

  ghost function WeightStored(s: Stores, kind: FundsKind, weight: FundsRecord -> int): int {
    Sum(StoredKeys(s, kind), key => if key in s.funds then weight(s.funds[key]) else 0)
  }

  ghost function WeightOfActions(chain: Chain, s: Stores, kind: FundsKind, weight: FundsRecord -> int): int {
    Sum(Eligible(chain, s, kind), a => if IsEligible(chain, a, kind) then weight(RecordFor(chain, a, kind)) else 0)
  }

  // Each eligible action has its record, there are no others, and every DAO's signed totals are the same.
  lemma ExactlyOnce(chain: Chain, st: State, errors: Errors, kind: FundsKind, daoId: string)
    requires Drained(chain, st, errors) && KeysReadable(st.stores, kind)
    ensures forall a :: a in Eligible(chain, st.stores, kind) ==>
      var f := RecordFor(chain, a, kind); KeyOf(f) in st.stores.funds && Bare(st.stores.funds[KeyOf(f)]) == Bare(f)
    ensures |StoredKeys(st.stores, kind)| == |Eligible(chain, st.stores, kind)|
    ensures StoredTotal(st.stores, kind, daoId) == ActionTotal(chain, st.stores, kind, daoId)
  {
    var s := st.stores;
    var signed := (f: FundsRecord) => Signed(f, daoId);
    EveryWeightAgrees(chain, st, errors, kind, signed);
    forall a | a in Eligible(chain, s, kind)
      ensures KeyOf(RecordFor(chain, a, kind)) in s.funds
      ensures Bare(s.funds[KeyOf(RecordFor(chain, a, kind))]) == Bare(RecordFor(chain, a, kind))
    {
      DrainedHasRecord(chain, st, errors, kind, a);
    }
    SumsAlike(StoredKeys(s, kind), key => if key in s.funds then signed(s.funds[key]) else 0,
              key => if key in s.funds then Signed(s.funds[key], daoId) else 0);
    SumsAlike(Eligible(chain, s, kind),
              a => if IsEligible(chain, a, kind) then signed(RecordFor(chain, a, kind)) else 0,
              a => if IsEligible(chain, a, kind) then Signed(RecordFor(chain, a, kind), daoId) else 0);
  }

  lemma InvLog(chain: Chain, s: Stores)
    requires Inv(chain, s)
    ensures LogOk(s)
  {}

  // The item codec keeps the args of every appended action.
  ghost predicate ArgsSurvive(chain: Chain, s: Stores) {
    forall a :: Original(chain, s, a) ==> Recast(a) == a
  }

  // Then the records are those of the actions in every field.
  lemma RecordsAreWhole(chain: Chain, st: State, errors: Errors, kind: FundsKind, a: TransactionAction)
    requires Drained(chain, st, errors) && KeysReadable(st.stores, kind) && ArgsSurvive(chain, st.stores)
    requires a in Eligible(chain, st.stores, kind)
    ensures var f := RecordFor(chain, a, kind); KeyOf(f) in st.stores.funds && st.stores.funds[KeyOf(f)] == f
  {
    var s, f := st.stores, RecordFor(chain, a, kind);
    ReachableInv(chain, st);
    InvLog(chain, s);
    hide FundsOf, KeyOf, Inv, Original, Known, Bare, LogOk, Eligible, LedgerKeyOf, Drained;
    DrainedHasRecord(chain, st, errors, kind, a);
    EligibleIsOriginal(chain, s, kind, a);
    var c := OriginOf(chain, s, KeyOf(f));
    var o := OriginalOf(chain, s, c);
    RecordSource(chain, c, kind);
    RecordSource(chain, a, kind);
    BareKey(f, s.funds[KeyOf(f)]);
    OriginalBySource(chain, s, a, o);
  }

  // ---------- what the records say about the money ----------

  predicate Transfers(a: TransactionAction, kind: FundsKind) {
    match kind
    case DepositFunds => a.kind == Transfer || a.kind == FunctionCall
    case TokenFunds =>
      a.kind == FunctionCall && a.args.Some?
        && a.methodName in [Some("ft_mint"), Some("ft_transfer"), Some("ft_transfer_call")]
  }

  function AmountOf(a: TransactionAction, kind: FundsKind): Quantity
    requires Transfers(a, kind)
  {
    match kind
    case DepositFunds => a.deposit
    case TokenFunds => a.args.value.amount
  }

  function RecipientOf(a: TransactionAction, kind: FundsKind): Option<string>
    requires Transfers(a, kind)
  {
    match kind
    case DepositFunds => Some(a.receiverId)
    case TokenFunds => if a.args.value.receiverId.Some? then a.args.value.receiverId else a.args.value.accountId
  }

  // A record is made exactly for a positive amount that moves to or from a DAO of the factory.
  lemma EligibleMeans(chain: Chain, a: TransactionAction, kind: FundsKind)
    ensures IsEligible(chain, a, kind) <==>
      && !a.failed && Transfers(a, kind) && AmountOf(a, kind).Units? && AmountOf(a, kind).n > 0
      && (IsDaoContract(chain, a.predecessorId)
          || (RecipientOf(a, kind).Some? && IsDaoContract(chain, RecipientOf(a, kind).value)))
  {}

  // By how much an action changes what an account has.
  function TrueChange(a: TransactionAction, kind: FundsKind, accountId: string): int {
    if !Transfers(a, kind) || !AmountOf(a, kind).Units? || AmountOf(a, kind).n <= 0 then 0
    else
      var n := AmountOf(a, kind).n;
      (if RecipientOf(a, kind) == Some(accountId) then n else 0) - (if a.predecessorId == accountId then n else 0)
  }

  predicate PaidByDao(chain: Chain, a: TransactionAction, kind: FundsKind, accountId: string) {
    Transfers(a, kind) && RecipientOf(a, kind) == Some(accountId) && IsDaoContract(chain, a.predecessorId)
  }

  // A DAO's records show what an action changed, exactly unless a DAO of the factory pays it: such income is
  // recorded for the sender only, and a payment to itself counts as income.
  lemma RecordShowsChange(chain: Chain, a: TransactionAction, kind: FundsKind, daoId: string)
    requires IsEligible(chain, a, kind) && IsDaoContract(chain, daoId)
    ensures Signed(RecordFor(chain, a, kind), daoId) == TrueChange(a, kind, daoId) <==>
      !PaidByDao(chain, a, kind, daoId)
  {
    EligibleMeans(chain, a, kind);
  }

  // A transfer from one DAO of the factory to another: the receiver gains, and its records show nothing.
  lemma IncomeFromDaoIsMissed(chain: Chain, a: TransactionAction)
    requires a.kind == Transfer && !a.failed && a.deposit == Units(1)
    requires a.predecessorId == "a." + chain.contractName && a.receiverId == "b." + chain.contractName
    ensures IsEligible(chain, a, DepositFunds)
    ensures Signed(RecordFor(chain, a, DepositFunds), a.receiverId) == 0
      && TrueChange(a, DepositFunds, a.receiverId) == 1
  {
    assert a.predecessorId[1..] == "." + chain.contractName == a.receiverId[1..];
    assert IsDaoContract(chain, a.predecessorId) && IsDaoContract(chain, a.receiverId);
    assert a.predecessorId[0] != a.receiverId[0];
  }

  // The distinct actions of all appended receipts that did not fail, recorded or not.
  ghost function Happened(chain: Chain, s: Stores): set<TransactionAction> {
    set id, i | 0 <= id < |s.log| && s.log[id].Some? && 0 <= i < |Actions(s.log[id].value)|
                && !Cast(chain, s.log[id].value, i).failed
      :: Cast(chain, s.log[id].value, i)
  }

  lemma HappenedIsOriginal(chain: Chain, s: Stores, a: TransactionAction)
    ensures a in Happened(chain, s) <==> Original(chain, s, a) && !a.failed
  {
    if Original(chain, s, a) && !a.failed {
      var r, i: nat :| Appended(s, r) && i < |Actions(r)| && a == Cast(chain, r, i);
      var id :| 0 <= id < |s.log| && s.log[id] == Some(r);
      assert Cast(chain, s.log[id].value, i) == a;
    } else if a in Happened(chain, s) {
      var id, i :| 0 <= id < |s.log| && s.log[id].Some? && 0 <= i < |Actions(s.log[id].value)|
        && a == Cast(chain, s.log[id].value, i) && !a.failed;
      assert Appended(s, s.log[id].value);
    }
  }

  ghost function TrueTotal(chain: Chain, s: Stores, kind: FundsKind, daoId: string): int {
    Sum(Happened(chain, s), a => TrueChange(a, kind, daoId))
  }

  // What the records of a DAO show beside what an action changed: a payment to itself as income, and income from
  // another DAO of the factory not at all.
  function Misshown(chain: Chain, a: TransactionAction, kind: FundsKind, daoId: string): int {
    if !IsEligible(chain, a, kind) || !PaidByDao(chain, a, kind, daoId) || !AmountOf(a, kind).Units? then 0
    else if a.predecessorId == daoId then AmountOf(a, kind).n
    else -AmountOf(a, kind).n
  }

  ghost function MisshownTotal(chain: Chain, s: Stores, kind: FundsKind, daoId: string): int {
    Sum(Happened(chain, s), a => Misshown(chain, a, kind, daoId))
  }

  ghost function ShownBy(chain: Chain, kind: FundsKind, daoId: string): TransactionAction -> int {
    (a: TransactionAction) => if IsEligible(chain, a, kind) then Signed(RecordFor(chain, a, kind), daoId) else 0
  }

  lemma ShownOrMisshown(chain: Chain, a: TransactionAction, kind: FundsKind, daoId: string)
    requires IsDaoContract(chain, daoId) && !a.failed
    ensures ShownBy(chain, kind, daoId)(a) == TrueChange(a, kind, daoId) + Misshown(chain, a, kind, daoId)
  {
    EligibleMeans(chain, a, kind);
  }

  // Once drained, the records of a DAO sum up to what all actions on the chain brought it and took from it, and what
  // they misshow; so they show the money exactly if what they misshow sums up to nothing.
  lemma RecordsShowTheMoney(chain: Chain, st: State, errors: Errors, kind: FundsKind, daoId: string)
    requires Drained(chain, st, errors) && KeysReadable(st.stores, kind) && IsDaoContract(chain, daoId)
    ensures StoredTotal(st.stores, kind, daoId)
      == TrueTotal(chain, st.stores, kind, daoId) + MisshownTotal(chain, st.stores, kind, daoId)
    ensures StoredTotal(st.stores, kind, daoId) == TrueTotal(chain, st.stores, kind, daoId)
      <==> MisshownTotal(chain, st.stores, kind, daoId) == 0
  {
    ExactlyOnce(chain, st, errors, kind, daoId);
    hide Drained, Reachable, Inv, Original, Misshown, TrueChange, IsEligible;
    var s, shown := st.stores, ShownBy(chain, kind, daoId);
    var happened, eligible := Happened(chain, s), Eligible(chain, s, kind);
    forall a ensures a in eligible <==> a in happened && IsEligible(chain, a, kind) {
      HappenedIsOriginal(chain, s, a);
      EligibleIsOriginal(chain, s, kind, a);
      EligibleMeans(chain, a, kind);
    }
    hide Happened, Eligible;
    SumsAlike(eligible, a => if IsEligible(chain, a, kind) then Signed(RecordFor(chain, a, kind), daoId) else 0, shown);
    SumIgnoresZeros(happened, eligible, shown);
    forall a | a in happened
      ensures shown(a) == TrueChange(a, kind, daoId) + Misshown(chain, a, kind, daoId)
    {
      HappenedIsOriginal(chain, s, a);
      ShownOrMisshown(chain, a, kind, daoId);
    }
    SumAdds(happened, a => TrueChange(a, kind, daoId), a => Misshown(chain, a, kind, daoId), shown);
  }
}
