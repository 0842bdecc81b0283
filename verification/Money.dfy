/**
 * The treasury over receipts: what the records and the daily balances say of the money that the receipts in the
 * stream moved, read off the receipts alone.
 */
module Money {
  import opened Wrappers
  import opened Keys
  import opened Receipts
  import opened Stores
  import opened Protocol
  import opened Sums
  import opened Accounting
  import opened Treasury
  import opened Draining
  import DailyBalance

  // ---------- what receipts move ----------

  // The i-th action of an appended receipt.
  datatype Position = Position(receipt: Receipt, i: nat)

  ghost predicate InReceipt(p: Position) {
    p.receipt.action.Some? && p.i < |p.receipt.action.value.actions|
  }

  ghost function ActionAt(p: Position): ReceiptAction
    requires InReceipt(p)
  {
    p.receipt.action.value.actions[p.i]
  }

  ghost function Positions(s: Stores): (positions: set<Position>)
    ensures forall p: Position :: p in positions <==> Some(p.receipt) in s.log && InReceipt(p)
  {
    var positions := set id, i | 0 <= id < |s.log| && s.log[id].Some? && s.log[id].value.action.Some?
                                 && 0 <= i < |s.log[id].value.action.value.actions|
                       :: Position(s.log[id].value, i);
    assert forall p: Position :: Some(p.receipt) in s.log && InReceipt(p) ==>
      exists id :: 0 <= id < |s.log| && s.log[id] == Some(p.receipt) && p == Position(s.log[id].value, p.i);
    positions
  }

  // An amount that goes from one account to another; `token` is empty for NEAR.
  datatype Move = Move(from: string, to: Option<string>, token: string, amount: int)

  ghost function MoveAt(chain: Chain, p: Position, kind: FundsKind): Option<Move>
    requires InReceipt(p)
  {
    var a := ActionAt(p);
    if p.receipt.transactionHash in chain.failed || a.args.None? then None
    else
      var args := a.args.value;
      match kind
      case DepositFunds =>
        if a.kind in {Transfer, FunctionCall} && args.deposit.Units? && args.deposit.n > 0
        then Some(Move(a.predecessorId, Some(a.receiverId), "", args.deposit.n))
        else None
      case TokenFunds =>
        if a.kind == FunctionCall && args.methodName in {Some("ft_mint"), Some("ft_transfer"), Some("ft_transfer_call")}
           && args.json.Some? && args.json.value.amount.Units? && args.json.value.amount.n > 0
        then
          var to := if args.json.value.receiverId.Some? then args.json.value.receiverId else args.json.value.accountId;
          Some(Move(a.predecessorId, to, a.receiverId, args.json.value.amount.n))
        else None
  }

  // An account of the factory, which is what a DAO is.
  ghost predicate IsDao(chain: Chain, account: string) {
    exists name: string :: account == name + "." + chain.contractName
  }

  lemma DaoContractIsDao(chain: Chain, account: string)
    ensures IsDaoContract(chain, account) <==> IsDao(chain, account)
  {
    var suffix := "." + chain.contractName;
    if IsDaoContract(chain, account) {
      var name := account[..|account| - |suffix|];
      assert account == name + suffix == name + "." + chain.contractName;
    }
    if IsDao(chain, account) {
      var name :| account == name + "." + chain.contractName;
      assert account == name + suffix;
    }
  }

  // By how much a move changes what an account has.
  ghost function Gain(m: Option<Move>, account: string): int {
    if m.None? then 0
    else (if m.value.to == Some(account) then m.value.amount else 0)
         - (if m.value.from == account then m.value.amount else 0)
  }

  // What the records of a DAO show beside that: if a DAO pays it, nothing of the income, and a payment to itself as
  // income.
  ghost function Surplus(chain: Chain, m: Option<Move>, daoId: string): int {
    if m.None? || m.value.to != Some(daoId) || !IsDao(chain, m.value.from) then 0
    else if m.value.from == daoId then m.value.amount
    else -m.value.amount
  }

  // ---------- positions and actions ----------

  lemma CastMoves(chain: Chain, p: Position, kind: FundsKind, account: string)
    requires InReceipt(p) && p.receipt.transactionHash !in chain.failed
    ensures p.i < |Actions(p.receipt)|
    ensures var a := Cast(chain, p.receipt, p.i);
      && !a.failed && TrueChange(a, kind, account) == Gain(MoveAt(chain, p, kind), account)
      && Misshown(chain, a, kind, account) == Surplus(chain, MoveAt(chain, p, kind), account)
  {
    var a := Cast(chain, p.receipt, p.i);
    EligibleMeans(chain, a, kind);
    DaoContractIsDao(chain, a.predecessorId);
    hide IsDaoContract, IsDao, FundsOf, IsEligible;
  }

  lemma SamePosition(chain: Chain, s: Stores, p: Position, q: Position)
    requires LogOk(s) && p in Positions(s) && q in Positions(s)
    requires p.i < |Actions(p.receipt)| && q.i < |Actions(q.receipt)|
    requires Cast(chain, p.receipt, p.i) == Cast(chain, q.receipt, q.i)
    ensures p == q
  {
    var a, b := Cast(chain, p.receipt, p.i), Cast(chain, q.receipt, q.i);
    assert a.receiptId == b.receiptId && a.index == b.index;
    assert Appended(s, p.receipt) && Appended(s, q.receipt);
    assert DistinctIndices(p.receipt);
  }

  lemma PositionOf(chain: Chain, s: Stores, a: TransactionAction) returns (p: Position)
    requires a in Happened(chain, s)
    ensures p in Positions(s) && p.i < |Actions(p.receipt)| && Cast(chain, p.receipt, p.i) == a
    ensures p.receipt.transactionHash !in chain.failed
  {
    HappenedIsOriginal(chain, s, a);
    var r, i: nat :| Appended(s, r) && i < |Actions(r)| && a == Cast(chain, r, i);
    p := Position(r, i);
  }

  ghost function Succeeded(chain: Chain, s: Stores): set<Position> {
    set p | p in Positions(s) && p.receipt.transactionHash !in chain.failed
  }

  lemma NothingHappened(chain: Chain, s: Stores)
    ensures Succeeded(chain, s) == {} ==> Happened(chain, s) == {}
  {
    if a :| a in Happened(chain, s) {
      var p := PositionOf(chain, s, a);
      assert p in Succeeded(chain, s);
    }
  }

  lemma SucceededHappened(chain: Chain, s: Stores, p: Position)
    requires p in Succeeded(chain, s)
    ensures p.i < |Actions(p.receipt)| && Cast(chain, p.receipt, p.i) in Happened(chain, s)
  {
    assert Appended(s, p.receipt);
    HappenedIsOriginal(chain, s, Cast(chain, p.receipt, p.i));
  }

  // Positions whose transaction did not fail stand one to one for the actions.
  lemma SumOverPositions(chain: Chain, s: Stores, weight: TransactionAction -> int, over: Position -> int)
    requires LogOk(s)
    requires forall p :: p in Positions(s) ==>
      p.i < |Actions(p.receipt)|
      && over(p) == if p.receipt.transactionHash in chain.failed then 0 else weight(Cast(chain, p.receipt, p.i))
    ensures Sum(Happened(chain, s), weight) == Sum(Positions(s), over)
  {
    var positions := Succeeded(chain, s);
    hide Cast, LogOk, Happened, Positions;
    SumIgnoresZeros(Positions(s), positions, over);
    if positions == {} {
      NothingHappened(chain, s);
      return;
    }
    var some :| some in positions;
    var default := Cast(chain, some.receipt, some.i);
    var cast := (p: Position) => if p.i < |Actions(p.receipt)| then Cast(chain, p.receipt, p.i) else default;
    forall p | p in positions ensures cast(p) in Happened(chain, s) && over(p) == weight(cast(p)) {
      SucceededHappened(chain, s, p);
    }
    forall p, q | p in positions && q in positions && cast(p) == cast(q) ensures p == q {
      SamePosition(chain, s, p, q);
    }
    forall a | a in Happened(chain, s) ensures exists p :: p in positions && cast(p) == a {
      var p := PositionOf(chain, s, a);
      assert p in positions && cast(p) == a;
    }
    SumAlong(positions, Happened(chain, s), cast, over, weight);
  }

  // ---------- the records of a DAO ----------

  ghost function TotalGain(chain: Chain, s: Stores, kind: FundsKind, daoId: string): int {
    Sum(Positions(s), p => if InReceipt(p) then Gain(MoveAt(chain, p, kind), daoId) else 0)
  }

  ghost function TotalSurplus(chain: Chain, s: Stores, kind: FundsKind, daoId: string): int {
    Sum(Positions(s), p => if InReceipt(p) then Surplus(chain, MoveAt(chain, p, kind), daoId) else 0)
  }

  // Once drained, a DAO's records sum up to what all receipts brought it and took from it, and that surplus.
  lemma RecordsShowReceipts(chain: Chain, st: State, errors: Errors, kind: FundsKind, daoId: string)
    requires Drained(chain, st, errors) && KeysReadable(st.stores, kind) && IsDao(chain, daoId)
    ensures StoredTotal(st.stores, kind, daoId)
      == TotalGain(chain, st.stores, kind, daoId) + TotalSurplus(chain, st.stores, kind, daoId)
    ensures StoredTotal(st.stores, kind, daoId) == TotalGain(chain, st.stores, kind, daoId)
      <==> TotalSurplus(chain, st.stores, kind, daoId) == 0
  {
    var s := st.stores;
    DaoContractIsDao(chain, daoId);
    RecordsShowTheMoney(chain, st, errors, kind, daoId);
    ReachableInv(chain, st);
    InvLog(chain, s);
    hide Drained, Inv, LogOk, Cast, MoveAt, Gain, Surplus, TrueChange, Misshown, Happened;
    forall p | p in Positions(s) && p.receipt.transactionHash !in chain.failed
      ensures p.i < |Actions(p.receipt)|
      ensures TrueChange(Cast(chain, p.receipt, p.i), kind, daoId) == Gain(MoveAt(chain, p, kind), daoId)
      ensures Misshown(chain, Cast(chain, p.receipt, p.i), kind, daoId) == Surplus(chain, MoveAt(chain, p, kind), daoId)
    {
      CastMoves(chain, p, kind, daoId);
    }
    forall p | p in Positions(s) && p.receipt.transactionHash in chain.failed
      ensures Gain(MoveAt(chain, p, kind), daoId) == 0 == Surplus(chain, MoveAt(chain, p, kind), daoId)
    {
      FailedMovesNothing(chain, p, kind, daoId);
    }
    SumOverPositions(chain, s, a => TrueChange(a, kind, daoId),
                     p => if InReceipt(p) then Gain(MoveAt(chain, p, kind), daoId) else 0);
    SumOverPositions(chain, s, a => Misshown(chain, a, kind, daoId),
                     p => if InReceipt(p) then Surplus(chain, MoveAt(chain, p, kind), daoId) else 0);
  }

  lemma FailedMovesNothing(chain: Chain, p: Position, kind: FundsKind, account: string)
    requires InReceipt(p) && p.receipt.transactionHash in chain.failed
    ensures Gain(MoveAt(chain, p, kind), account) == 0 == Surplus(chain, MoveAt(chain, p, kind), account)
  {}

  // ---------- when the stream drains ----------

  // BigInt throws on an amount that counts, or a token goes from outside the factory to no one.
  ghost predicate UnreadableAt(chain: Chain, p: Position)
    requires InReceipt(p)
  {
    var a := ActionAt(p);
    a.args.Some?
    && var args := a.args.value;
    || (a.kind in {Transfer, FunctionCall} && args.deposit == Unreadable)
    || (&& a.kind == FunctionCall && args.json.Some?
        && args.methodName in {Some("ft_mint"), Some("ft_transfer"), Some("ft_transfer_call")}
        && var json := args.json.value;
        || json.amount == Unreadable
        || (json.amount.Units? && json.amount.n > 0 && !IsDao(chain, a.predecessorId)
            && json.receiverId == None && json.accountId == None))
  }

  lemma UnreadableMeans(chain: Chain, p: Position)
    requires InReceipt(p)
    ensures p.i < |Actions(p.receipt)|
    ensures CanFund(chain, Cast(chain, p.receipt, p.i)) <==> !UnreadableAt(chain, p)
  {
    DaoContractIsDao(chain, ActionAt(p).predecessorId);
    hide IsDao, IsDaoContract;
  }

  // From a reachable state some run drains the stream and both error stores, exactly if every entry can be parsed, and
  // the amounts in every receipt whose transaction did not fail can be read.
  lemma DrainsByReceipts(chain: Chain, st: State)
    requires Reachable(chain, st)
    ensures CanDrain(chain, st)
      <==> && (forall id :: 0 <= id < |st.stores.log| ==> st.stores.log[id].Some?)
           && forall p :: p in Positions(st.stores) && p.receipt.transactionHash !in chain.failed ==>
                !UnreadableAt(chain, p)
  {
    var s := st.stores;
    DrainsExactly(chain, st);
    hide CanDrain, Reachable, CanFund, UnreadableAt;
    if Readable(chain, s) {
      forall p | p in Positions(s) && p.receipt.transactionHash !in chain.failed ensures !UnreadableAt(chain, p) {
        UnreadableMeans(chain, p);
        assert Appended(s, p.receipt) && Original(chain, s, Cast(chain, p.receipt, p.i));
      }
    }
    if forall p :: p in Positions(s) && p.receipt.transactionHash !in chain.failed ==> !UnreadableAt(chain, p) {
      forall a | Original(chain, s, a) ensures a.failed || CanFund(chain, a) {
        var r, i: nat :| Appended(s, r) && i < |Actions(r)| && a == Cast(chain, r, i);
        assert Position(r, i) in Positions(s);
        UnreadableMeans(chain, Position(r, i));
      }
    }
  }

  // ---------- which records there are ----------

  // A move to or from a DAO is recorded: for the payer if that is a DAO, for the recipient otherwise.
  ghost predicate Recorded(chain: Chain, m: Option<Move>) {
    m.Some? && (IsDao(chain, m.value.from) || (m.value.to.Some? && IsDao(chain, m.value.to.value)))
  }

  ghost function Owner(chain: Chain, m: Move): Option<string> {
    if IsDao(chain, m.from) then Some(m.from) else m.to
  }

  ghost function RecordAt(chain: Chain, p: Position, kind: FundsKind): FundsRecord
    requires InReceipt(p) && Recorded(chain, MoveAt(chain, p, kind))
  {
    var r, a, m := p.receipt, ActionAt(p), MoveAt(chain, p, kind).value;
    FundsRecord(
      kind := kind,
      daoId := Owner(chain, m).value,
      receiptId := r.receiptId,
      index := a.index,
      predecessorId := m.from,
      receiverId := m.to,
      tokenId := m.token,
      amount := m.amount,
      methodName := a.args.value.methodName,
      args := a.args.value.json,
      transactionHash := r.transactionHash,
      timestamp := r.timestamp)
  }

  // Where it is stored: in the partition of its DAO, under its type and, in this order, the token, the time, the
  // receipt and the position.
  ghost function KeyAt(chain: Chain, p: Position, kind: FundsKind): FundsKey
    requires InReceipt(p) && Recorded(chain, MoveAt(chain, p, kind))
  {
    var r, a, m := p.receipt, ActionAt(p), MoveAt(chain, p, kind).value;
    var source := Decimal(r.timestamp) + "-" + r.receiptId + "-" + Decimal(a.index);
    FundsKey(Owner(chain, m).value,
             if kind == DepositFunds then "DaoFundsReceipt:" + source
             else "DaoFundsTokenReceipt:" + a.receiverId + "-" + source)
  }

  lemma DashedSource(time: string, receiptId: string, position: string)
    ensures Dash(time, Dash(receiptId, position)) == time + "-" + receiptId + "-" + position
  {}

  lemma DashedToken(token: string, source: string)
    ensures EntityId("DaoFundsTokenReceipt", Dash(token, source)) == "DaoFundsTokenReceipt:" + token + "-" + source
    ensures EntityId("DaoFundsReceipt", source) == "DaoFundsReceipt:" + source
  {
    assert "DaoFundsTokenReceipt" + ":" == "DaoFundsTokenReceipt:" && "DaoFundsReceipt" + ":" == "DaoFundsReceipt:";
    assert "DaoFundsTokenReceipt" + ":" + (token + "-" + source) == "DaoFundsTokenReceipt" + ":" + token + "-" + source;
  }

  lemma KeyOfRecord(chain: Chain, p: Position, kind: FundsKind)
    requires InReceipt(p) && Recorded(chain, MoveAt(chain, p, kind))
    ensures KeyOf(RecordAt(chain, p, kind)) == KeyAt(chain, p, kind)
  {
    TokenOfMove(chain, p, kind);
    hide MoveAt, IsDao, Recorded, Decimal;
    var r, a := p.receipt, ActionAt(p);
    DashedSource(Decimal(r.timestamp), r.receiptId, Decimal(a.index));
    DashedToken(a.receiverId, DepositId(r.timestamp, r.receiptId, a.index));
  }

  lemma RecordOfPosition(chain: Chain, p: Position, kind: FundsKind)
    requires InReceipt(p)
    ensures p.i < |Actions(p.receipt)|
    ensures var a := Cast(chain, p.receipt, p.i);
      && (IsEligible(chain, a, kind) <==> Recorded(chain, MoveAt(chain, p, kind)))
      && (IsEligible(chain, a, kind) ==> RecordFor(chain, a, kind) == RecordAt(chain, p, kind))
  {
    var a := Cast(chain, p.receipt, p.i);
    EligibleMeans(chain, a, kind);
    DaoContractIsDao(chain, a.predecessorId);
    if Transfers(a, kind) && RecipientOf(a, kind).Some? {
      DaoContractIsDao(chain, RecipientOf(a, kind).value);
    }
    hide IsDaoContract, IsDao;
  }

  // Once drained, the records of a kind are exactly those of the moves of all receipts, in every field but the args.
  lemma RecordsAreOfReceipts(chain: Chain, st: State, errors: Errors, kind: FundsKind)
    requires Drained(chain, st, errors) && KeysReadable(st.stores, kind)
    ensures forall p :: p in Positions(st.stores) && Recorded(chain, MoveAt(chain, p, kind)) ==>
      HoldsRecord(st.stores, KeyAt(chain, p, kind), RecordAt(chain, p, kind))
    ensures forall key :: key in st.stores.funds && st.stores.funds[key].kind == kind ==>
      exists p :: p in Positions(st.stores) && Recorded(chain, MoveAt(chain, p, kind))
                  && key == KeyAt(chain, p, kind) && HoldsRecord(st.stores, key, RecordAt(chain, p, kind))
  {
    var s := st.stores;
    ReachableInv(chain, st);
    hide Drained, Inv, Cast, MoveAt, Recorded, RecordAt, IsEligible, KeyOf, KeyAt, Bare, KeysReadable;
    forall p | p in Positions(s) && Recorded(chain, MoveAt(chain, p, kind))
      ensures HoldsRecord(s, KeyAt(chain, p, kind), RecordAt(chain, p, kind))
    {
      RecordOfPosition(chain, p, kind);
      KeyOfRecord(chain, p, kind);
      var a := Cast(chain, p.receipt, p.i);
      assert Appended(s, p.receipt);
      EligibleIsOriginal(chain, s, kind, a);
      DrainedHasRecord(chain, st, errors, kind, a);
    }
    forall key | key in s.funds && s.funds[key].kind == kind
      ensures exists p :: p in Positions(s) && Recorded(chain, MoveAt(chain, p, kind))
                          && key == KeyAt(chain, p, kind) && HoldsRecord(s, key, RecordAt(chain, p, kind))
    {
      RecordHasAction(chain, s, kind, key);
      var a :| a in Eligible(chain, s, kind) && KeyOf(RecordFor(chain, a, kind)) == key
               && Bare(RecordFor(chain, a, kind)) == Bare(s.funds[key]);
      EligibleHappened(chain, s, kind, a);
      var p := PositionOf(chain, s, a);
      RecordOfPosition(chain, p, kind);
      KeyOfRecord(chain, p, kind);
    }
  }

  ghost predicate HoldsRecord(s: Stores, key: FundsKey, f: FundsRecord) {
    key in s.funds && Bare(s.funds[key]) == Bare(f)
  }

  lemma EligibleHappened(chain: Chain, s: Stores, kind: FundsKind, a: TransactionAction)
    requires a in Eligible(chain, s, kind)
    ensures a in Happened(chain, s)
  {
    EligibleIsOriginal(chain, s, kind, a);
    HappenedIsOriginal(chain, s, a);
  }

  // ---------- the ledger ----------

  ghost function RowAt(p: Position): LedgerKey
    requires InReceipt(p)
  {
    LedgerKey(p.receipt.transactionHash,
              "HandledReceiptAction:" + p.receipt.receiptId + "-" + Decimal(ActionAt(p).index))
  }

  lemma RowOfPosition(chain: Chain, p: Position)
    requires InReceipt(p)
    ensures p.i < |Actions(p.receipt)| && LedgerKeyOf(Cast(chain, p.receipt, p.i)) == RowAt(p)
  {
    var r, position := p.receipt.receiptId, Decimal(ActionAt(p).index);
    assert "HandledReceiptAction" + ":" == "HandledReceiptAction:";
    assert "HandledReceiptAction:" + (r + "-" + position) == "HandledReceiptAction:" + r + "-" + position;
  }

  // Once drained, the ledger has a row for every position of every receipt whose transaction did not fail, and no
  // other.
  lemma LedgerIsOfReceipts(chain: Chain, st: State, errors: Errors, key: LedgerKey)
    requires Drained(chain, st, errors)
    ensures key in st.stores.ledger <==>
      exists p :: p in Positions(st.stores) && p.receipt.transactionHash !in chain.failed && key == RowAt(p)
  {
    var s := st.stores;
    ReachableInv(chain, st);
    if p :| p in Positions(s) && p.receipt.transactionHash !in chain.failed && key == RowAt(p) {
      assert Appended(s, p.receipt);
      DrainedMeansDone(chain, st, errors, p.receipt);
      RowOfPosition(chain, p);
      NotFailed(chain, p);
      hide LedgerKeyOf, Cast;
      assert Done(s, Cast(chain, p.receipt, p.i));
    }
    if key in s.ledger {
      var p := PositionOfRow(chain, s, key);
      assert key == RowAt(p);
    }
  }

  lemma NotFailed(chain: Chain, p: Position)
    requires InReceipt(p) && p.i < |Actions(p.receipt)|
    ensures Cast(chain, p.receipt, p.i).failed <==> p.receipt.transactionHash in chain.failed
  {}

  lemma PositionOfRow(chain: Chain, s: Stores, key: LedgerKey) returns (p: Position)
    requires Inv(chain, s) && key in s.ledger
    ensures p in Positions(s) && p.receipt.transactionHash !in chain.failed && key == RowAt(p)
  {
    hide LedgerKeyOf, Cast, Known, Original, Replayed;
    var b :| Handled(chain, s, key, b);
    var a := OriginalOf(chain, s, b);
    ReplayedKeepsRecords(chain, b, a);
    HappenedIsOriginal(chain, s, a);
    p := PositionOf(chain, s, a);
    RowOfPosition(chain, p);
  }

  // ---------- the daily balances ----------

  // Receipts carry nanoseconds; days are UTC days.
  ghost function DayAt(p: Position): nat {
    p.receipt.timestamp / 1000000 / 86400000
  }

  // What the query for a token reads: actions on it, and on those others whose record ids start like its own do.
  ghost predicate ReadFor(p: Position, kind: FundsKind, token: string)
    requires InReceipt(p)
  {
    var tokenId := ActionAt(p).receiverId;
    || kind == DepositFunds || tokenId == token || ForeignRead(p, token)
  }

  ghost predicate ForeignRead(p: Position, token: string)
    requires InReceipt(p)
  {
    var r, a := p.receipt, ActionAt(p);
    || token + "-" <= a.receiverId
    || (a.receiverId + "-" <= token
        && token[|a.receiverId| + 1..] + "-" <= DepositId(r.timestamp, r.receiptId, a.index))
  }

  // What the records of a DAO show of a move; others have none.
  ghost function Shown(chain: Chain, m: Option<Move>, daoId: string): int {
    if IsDao(chain, daoId) then Gain(m, daoId) + Surplus(chain, m, daoId) else 0
  }

  ghost function ShownBy(chain: Chain, kind: FundsKind, daoId: string, token: string, day: nat): Position -> int {
    (p: Position) =>
      if InReceipt(p) && ReadFor(p, kind, token) && DayAt(p) <= day then Shown(chain, MoveAt(chain, p, kind), daoId)
      else 0
  }

  // The money that all receipts moved, up to a day, as far as the query reads it and the records show it.
  ghost function MoneyBy(chain: Chain, s: Stores, kind: FundsKind, daoId: string, token: string, day: nat): int {
    Sum(Positions(s), ShownBy(chain, kind, daoId, token, day))
  }

  lemma SignedIsShown(chain: Chain, p: Position, kind: FundsKind, daoId: string)
    requires InReceipt(p) && Recorded(chain, MoveAt(chain, p, kind))
    ensures Signed(RecordAt(chain, p, kind), daoId) == Shown(chain, MoveAt(chain, p, kind), daoId)
  {
    hide IsDao;
  }

  lemma UnrecordedShowsNothing(chain: Chain, m: Option<Move>, daoId: string)
    requires !Recorded(chain, m)
    ensures Shown(chain, m, daoId) == 0
  {
    hide IsDao;
  }

  lemma TokenOfMove(chain: Chain, p: Position, kind: FundsKind)
    requires InReceipt(p) && MoveAt(chain, p, kind).Some?
    ensures MoveAt(chain, p, kind).value.token == if kind == DepositFunds then "" else ActionAt(p).receiverId
  {}

  lemma DashIsDash(a: string)
    ensures Dash(a, "") == a + "-"
  {}

  lemma SelectedIsRead(chain: Chain, p: Position, kind: FundsKind, daoId: string, token: string)
    requires InReceipt(p) && Recorded(chain, MoveAt(chain, p, kind))
    ensures var f := RecordAt(chain, p, kind);
      Selects(kind, daoId, token, f) <==> f.daoId == daoId && ReadFor(p, kind, token)
  {
    hide IsDao, MoveAt;
    var f, r, a := RecordAt(chain, p, kind), p.receipt, ActionAt(p);
    TokenOfMove(chain, p, kind);
    if kind == TokenFunds {
      TokenPrefixSelects(token, a.receiverId, r.timestamp, r.receiptId, a.index);
      DashIsDash(token);
      DashIsDash(a.receiverId);
      if a.receiverId + "-" <= token {
        DashIsDash(token[|a.receiverId| + 1..]);
      }
    }
  }

  lemma DayOfRecord(chain: Chain, p: Position, kind: FundsKind)
    requires InReceipt(p) && Recorded(chain, MoveAt(chain, p, kind))
    ensures DailyBalance.DayOf(AsReceipt(RecordAt(chain, p, kind))) == DayAt(p)
  {
    hide IsDao, MoveAt;
  }

  lemma ChangeOfPosition(chain: Chain, p: Position, kind: FundsKind, daoId: string, token: string, day: nat)
    requires InReceipt(p)
    ensures var change := ChangeBy(kind, daoId, token, day);
      ShownBy(chain, kind, daoId, token, day)(p)
      == if Recorded(chain, MoveAt(chain, p, kind)) then change(RecordAt(chain, p, kind)) else 0
  {
    hide IsDao, MoveAt, Shown, Selects, DayAt, DailyBalance.DayOf, Signed, ReadFor, Recorded;
    var m := MoveAt(chain, p, kind);
    if Recorded(chain, m) {
      SignedIsShown(chain, p, kind, daoId);
      SelectedIsRead(chain, p, kind, daoId, token);
      DayOfRecord(chain, p, kind);
      NotOfDao(RecordAt(chain, p, kind), daoId);
    } else {
      UnrecordedShowsNothing(chain, m, daoId);
    }
  }

  lemma NotOfDao(f: FundsRecord, daoId: string)
    ensures f.daoId != daoId ==> Signed(f, daoId) == 0
  {}

  // The sum over the records that a query selects is the sum over the positions that it reads.
  lemma WeightIsOfReceipts(chain: Chain, s: Stores, kind: FundsKind, daoId: string, token: string, day: nat)
    requires LogOk(s)
    ensures WeightOfActions(chain, s, kind, ChangeBy(kind, daoId, token, day))
      == MoneyBy(chain, s, kind, daoId, token, day)
  {
    var change, shown := ChangeBy(kind, daoId, token, day), ShownBy(chain, kind, daoId, token, day);
    var weight := (a: TransactionAction) => if IsEligible(chain, a, kind) then change(RecordFor(chain, a, kind)) else 0;
    var happened, eligible := Happened(chain, s), Eligible(chain, s, kind);
    hide LogOk, Cast, MoveAt, Recorded, RecordAt, IsEligible, ChangeBy, ShownBy, Happened, Eligible, Positions;
    forall a ensures a in eligible <==> a in happened && IsEligible(chain, a, kind) {
      HappenedIsOriginal(chain, s, a);
      EligibleIsOriginal(chain, s, kind, a);
      EligibleMeans(chain, a, kind);
    }
    SumsAlike(eligible, weight, a => if IsEligible(chain, a, kind) then change(RecordFor(chain, a, kind)) else 0);
    SumIgnoresZeros(happened, eligible, weight);
    forall p | p in Positions(s)
      ensures p.i < |Actions(p.receipt)|
      ensures shown(p) == if p.receipt.transactionHash in chain.failed then 0 else weight(Cast(chain, p.receipt, p.i))
    {
      ChangeOfPosition(chain, p, kind, daoId, token, day);
      RecordOfPosition(chain, p, kind);
      FailedIsUnrecorded(chain, p, kind);
    }
    SumOverPositions(chain, s, weight, shown);
  }

  lemma FailedIsUnrecorded(chain: Chain, p: Position, kind: FundsKind)
    requires InReceipt(p)
    ensures p.receipt.transactionHash in chain.failed ==> !Recorded(chain, MoveAt(chain, p, kind))
  {}

  // For a token: the money on the token itself, and that on the others that are read with it.
  ghost function MoneyOf(chain: Chain, s: Stores, daoId: string, token: string, day: nat): int {
    Sum(Positions(s), (p: Position) =>
      if InReceipt(p) && ActionAt(p).receiverId == token && DayAt(p) <= day
      then Shown(chain, MoveAt(chain, p, TokenFunds), daoId) else 0)
  }

  ghost function ForeignMoneyOf(chain: Chain, s: Stores, daoId: string, token: string, day: nat): int {
    Sum(Positions(s), (p: Position) =>
      if InReceipt(p) && ActionAt(p).receiverId != token && ForeignRead(p, token) && DayAt(p) <= day
      then Shown(chain, MoveAt(chain, p, TokenFunds), daoId) else 0)
  }

  lemma TokenMoneyAndForeign(chain: Chain, s: Stores, daoId: string, token: string, day: nat)
    ensures MoneyBy(chain, s, TokenFunds, daoId, token, day)
      == MoneyOf(chain, s, daoId, token, day) + ForeignMoneyOf(chain, s, daoId, token, day)
  {
    hide Shown, MoveAt, Positions;
    SumAdds(Positions(s),
            (p: Position) =>
              if InReceipt(p) && ActionAt(p).receiverId == token && DayAt(p) <= day
              then Shown(chain, MoveAt(chain, p, TokenFunds), daoId) else 0,
            (p: Position) =>
              if InReceipt(p) && ActionAt(p).receiverId != token && ForeignRead(p, token) && DayAt(p) <= day
              then Shown(chain, MoveAt(chain, p, TokenFunds), daoId) else 0,
            ShownBy(chain, TokenFunds, daoId, token, day));
  }

  // Some move that the records show is read for the query and falls on the day.
  ghost predicate MovedOn(chain: Chain, s: Stores, kind: FundsKind, daoId: string, token: string, day: nat) {
    exists p :: p in Positions(s) && ReadOn(chain, p, kind, daoId, token, day)
  }

  ghost predicate ReadOn(chain: Chain, p: Position, kind: FundsKind, daoId: string, token: string, day: nat) {
    && InReceipt(p) && Recorded(chain, MoveAt(chain, p, kind))
    && Owner(chain, MoveAt(chain, p, kind).value) == Some(daoId)
    && ReadFor(p, kind, token) && DayAt(p) == day
  }

  lemma HeldIsSelected(chain: Chain, s: Stores, p: Position, kind: FundsKind, daoId: string, token: string,
                       key: FundsKey, day: nat)
    requires InReceipt(p) && Recorded(chain, MoveAt(chain, p, kind)) && HoldsRecord(s, key, RecordAt(chain, p, kind))
    ensures Selects(kind, daoId, token, s.funds[key]) && DailyBalance.DayOf(AsReceipt(s.funds[key])) == day
      <==> ReadOn(chain, p, kind, daoId, token, day)
  {
    var f := RecordAt(chain, p, kind);
    SelectedIsRead(chain, p, kind, daoId, token);
    DayOfRecord(chain, p, kind);
    OwnerOfRecord(chain, p, kind);
    hide IsDao, MoveAt, RecordAt, ReadFor, Recorded, DayAt;
    BareKey(s.funds[key], f);
  }

  lemma OwnerOfRecord(chain: Chain, p: Position, kind: FundsKind)
    requires InReceipt(p) && Recorded(chain, MoveAt(chain, p, kind))
    ensures Owner(chain, MoveAt(chain, p, kind).value) == Some(RecordAt(chain, p, kind).daoId)
  {
    hide IsDao, MoveAt;
  }

  lemma ReadDayIsMoved(chain: Chain, st: State, errors: Errors, kind: FundsKind, daoId: string, token: string,
                       key: FundsKey)
    requires Drained(chain, st, errors) && KeysReadable(st.stores, kind)
    requires key in st.stores.funds && Selects(kind, daoId, token, st.stores.funds[key])
    ensures MovedOn(chain, st.stores, kind, daoId, token, DailyBalance.DayOf(AsReceipt(st.stores.funds[key])))
  {
    var s := st.stores;
    RecordsAreOfReceipts(chain, st, errors, kind);
    hide Drained, KeysReadable, MoveAt, RecordAt, Recorded, ReadOn, KeyAt, DailyBalance.DayOf, HoldsRecord;
    var p :| p in Positions(s) && Recorded(chain, MoveAt(chain, p, kind))
             && key == KeyAt(chain, p, kind) && HoldsRecord(s, key, RecordAt(chain, p, kind));
    HeldIsSelected(chain, s, p, kind, daoId, token, key, DailyBalance.DayOf(AsReceipt(s.funds[key])));
  }

  lemma MovedDayIsRead(chain: Chain, st: State, errors: Errors, kind: FundsKind, daoId: string, token: string,
                       day: nat)
    returns (key: FundsKey)
    requires Drained(chain, st, errors) && KeysReadable(st.stores, kind)
    requires MovedOn(chain, st.stores, kind, daoId, token, day)
    ensures key in st.stores.funds && Selects(kind, daoId, token, st.stores.funds[key])
    ensures DailyBalance.DayOf(AsReceipt(st.stores.funds[key])) == day
  {
    var s := st.stores;
    RecordsAreOfReceipts(chain, st, errors, kind);
    hide Drained, KeysReadable, MoveAt, RecordAt, Recorded, ReadOn, KeyAt, DailyBalance.DayOf, HoldsRecord;
    var p :| p in Positions(s) && ReadOn(chain, p, kind, daoId, token, day);
    RecordedIfRead(chain, p, kind, daoId, token, day);
    key := KeyAt(chain, p, kind);
    HeldIsSelected(chain, s, p, kind, daoId, token, key, day);
    HeldIsStored(s, key, RecordAt(chain, p, kind));
  }

  // The days of the collected records are those of the moves that are read.
  lemma ReadDays(chain: Chain, st: State, errors: Errors, kind: FundsKind, daoId: string, token: string,
                 keys: seq<FundsKey>, day: nat)
    requires Drained(chain, st, errors) && KeysReadable(st.stores, kind)
    requires forall key :: key in keys <==> key in st.stores.funds && Selects(kind, daoId, token, st.stores.funds[key])
    ensures DailyBalance.HasReceipt(Read(st.stores, keys), day) <==> MovedOn(chain, st.stores, kind, daoId, token, day)
  {
    var s, receipts := st.stores, Read(st.stores, keys);
    hide Drained, KeysReadable, DailyBalance.DayOf, MovedOn, Selects, AsReceipt;
    if DailyBalance.HasReceipt(receipts, day) {
      var k :| 0 <= k < |receipts| && DailyBalance.DayOf(receipts[k]) == day;
      assert keys[k] in keys;
      ReadDayIsMoved(chain, st, errors, kind, daoId, token, keys[k]);
    }
    if MovedOn(chain, s, kind, daoId, token, day) {
      var key := MovedDayIsRead(chain, st, errors, kind, daoId, token, day);
      var k :| 0 <= k < |keys| && keys[k] == key;
      assert receipts[k] in receipts;
    }
  }

  lemma RecordedIfRead(chain: Chain, p: Position, kind: FundsKind, daoId: string, token: string, day: nat)
    requires InReceipt(p) && ReadOn(chain, p, kind, daoId, token, day)
    ensures Recorded(chain, MoveAt(chain, p, kind))
  {}

  lemma HeldIsStored(s: Stores, key: FundsKey, f: FundsRecord)
    requires HoldsRecord(s, key, f)
    ensures key in s.funds
  {}

  ghost function MovedDays(chain: Chain, s: Stores, kind: FundsKind, daoId: string, token: string): nat -> bool {
    (e: nat) => MovedOn(chain, s, kind, daoId, token, e)
  }

  ghost function MoneyByDay(chain: Chain, s: Stores, kind: FundsKind, daoId: string, token: string): nat -> int {
    (e: nat) => MoneyBy(chain, s, kind, daoId, token, e)
  }

  // The day is reported exactly if something moved on it, or it is on the grid, which starts with the first such day
  // or else a year ago; and what is reported is the money so far exactly when the day is past the grid, or that money
  // is not zero, or it was zero on every day so far on which something moved.
  ghost predicate ShowsRight(balances: map<nat, int>, today: nat, yearAgo: nat, day: nat, moved: nat -> bool,
                             money: nat -> int)
  {
    && (day in balances <==>
          moved(day)
          || (day <= today
              && if exists e: nat :: moved(e) then exists e: nat :: e <= day && moved(e) else yearAgo <= day))
    && (day in balances ==>
          (balances[day] == money(day)
           <==> day > today || money(day) != 0 || forall e: nat :: e <= day && moved(e) ==> money(e) == 0))
  }

  // From the receipts to the reported balance: if the pages fit, collecting does not throw, and the balances show the
  // money that all receipts moved.
  lemma BalanceShowsReceipts(chain: Chain, st: State, errors: Errors, daoId: string, kind: FundsKind, token: string,
                             partition: set<string>, tableName: string, limits: seq<nat>, strict: bool,
                             today: nat, yearAgo: nat, day: nat)
    requires Drained(chain, st, errors) && KeysReadable(st.stores, kind) && daoId != ""
    requires PartitionOf(st.stores, daoId, partition, kind)
    requires PagesFit(partition, kind, token, tableName, limits, strict)
    ensures Collected(partition, kind, token, tableName, limits, strict).Returns?
    ensures var keys := InPartition(daoId, Collected(partition, kind, token, tableName, limits, strict).value);
      (forall key :: key in keys ==> key in st.stores.funds)
      && ShowsRight(DailyBalance.Balances(Read(st.stores, keys), daoId, today, yearAgo), today, yearAgo, day,
                    MovedDays(chain, st.stores, kind, daoId, token), MoneyByDay(chain, st.stores, kind, daoId, token))
  {
    var s := st.stores;
    ReachableInv(chain, st);
    CollectedIsComplete(chain, s, daoId, kind, token, partition, tableName, limits, strict);
    var keys := InPartition(daoId, Collected(partition, kind, token, tableName, limits, strict).value);
    hide Drained, Inv, KeysReadable, PartitionOf, PagesFit, Collected, Selects, MoneyBy, MovedOn, ShowsRight;
    hide DailyBalance.Balances, DailyBalance.HasReceipt, DailyBalance.RunningSum;
    DaysOfReceipts(chain, st, errors, kind, daoId, token, keys);
    BalanceOfDays(Read(s, keys), daoId, today, yearAgo, day, MovedDays(chain, s, kind, daoId, token),
                  MoneyByDay(chain, s, kind, daoId, token));
  }

  lemma DaysOfReceipts(chain: Chain, st: State, errors: Errors, kind: FundsKind, daoId: string, token: string,
                       keys: seq<FundsKey>)
    requires Drained(chain, st, errors) && KeysReadable(st.stores, kind) && daoId != "" && DistinctKeys(keys)
    requires forall key :: key in keys <==> key in st.stores.funds && Selects(kind, daoId, token, st.stores.funds[key])
    ensures var receipts := Read(st.stores, keys);
      DayByDay(receipts, daoId, MovedDays(chain, st.stores, kind, daoId, token),
               MoneyByDay(chain, st.stores, kind, daoId, token))
  {
    var s := st.stores;
    ReachableInv(chain, st);
    InvLog(chain, s);
    hide Drained, Inv, LogOk, KeysReadable, Selects, ChangeBy, WeightOfActions, MoneyBy, MovedOn, DistinctKeys;
    hide DailyBalance.HasReceipt, DailyBalance.RunningSum;
    forall e: nat
      ensures DailyBalance.HasReceipt(Read(s, keys), e) <==> MovedOn(chain, s, kind, daoId, token, e)
      ensures DailyBalance.RunningSum(Read(s, keys), daoId, e) == MoneyBy(chain, s, kind, daoId, token, e)
    {
      ReadDays(chain, st, errors, kind, daoId, token, keys, e);
      SumOfRecordsIsOfActions(chain, st, errors, daoId, kind, token, keys, e);
      WeightIsOfReceipts(chain, s, kind, daoId, token, e);
    }
  }

  // The receipts have these days and these running sums.
  ghost predicate DayByDay(receipts: seq<DailyBalance.FundsReceipt>, owner: string, moved: nat -> bool,
                           money: nat -> int)
  {
    && (forall e: nat :: DailyBalance.HasReceipt(receipts, e) == moved(e))
    && (forall e: nat :: DailyBalance.RunningSum(receipts, owner, e) == money(e))
  }

  // What is reported depends on the days that have receipts and their sums only.
  lemma BalanceOfDays(receipts: seq<DailyBalance.FundsReceipt>, owner: string, today: nat, yearAgo: nat, day: nat,
                      moved: nat -> bool, money: nat -> int)
    requires DayByDay(receipts, owner, moved, money)
    ensures ShowsRight(DailyBalance.Balances(receipts, owner, today, yearAgo), today, yearAgo, day, moved, money)
  {
    GridOfDays(receipts, day, today, yearAgo);
    DaysReported(receipts, owner, today, yearAgo, day);
    hide DailyBalance.DayOf, DailyBalance.Balances, DailyBalance.HasReceipt, DailyBalance.RunningSum,
         DailyBalance.OnGrid;
    if day in DailyBalance.Balances(receipts, owner, today, yearAgo) {
      ReportedOn(receipts, owner, today, yearAgo, day);
      assert forall e: nat :: DailyBalance.ClosesAt(receipts, owner, e, true) == (moved(e) && money(e) != 0);
    }
  }

  lemma GridOfDays(receipts: seq<DailyBalance.FundsReceipt>, day: nat, today: nat, yearAgo: nat)
    ensures DailyBalance.OnGrid(receipts, day, today, yearAgo)
      <==> day <= today
           && if exists e: nat :: DailyBalance.HasReceipt(receipts, e)
              then exists e: nat :: e <= day && DailyBalance.HasReceipt(receipts, e)
              else yearAgo <= day
  {
    hide DailyBalance.DayOf;
    if receipts != [] {
      assert receipts[0] in receipts && DailyBalance.HasReceipt(receipts, DailyBalance.DayOf(receipts[0]));
    }
    if r :| r in receipts && DailyBalance.DayOf(r) <= day {
      assert DailyBalance.HasReceipt(receipts, DailyBalance.DayOf(r));
    }
  }
}
