/**
 * Receipt entries, the transaction actions cast from them, and the treasury records an action stands for.
 */
module Receipts {
  import opened Wrappers
  import opened Keys
  import Codec

  // What BigInt makes of an amount string: absent or empty, not a number, or a number.
  datatype Quantity = Missing | Unreadable | Units(n: int)

  // The three properties that are read are strings; `rest` is what else the object holds.
  datatype ArgsJson = ArgsJson(amount: Quantity, receiverId: Option<string>, accountId: Option<string>,
                               rest: Codec.Json)

  // `others` stands for every other property of an action's args.
  datatype Args = Args(methodName: Option<string>, deposit: Quantity, json: Option<ArgsJson>,
                       others: map<string, string>)

  datatype Kind =
    | CreateAccount | DeployContract | FunctionCall | Transfer | Stake | AddKey | DeleteKey | DeleteAccount
    | UnknownKind

  datatype ReceiptAction = ReceiptAction(kind: Kind, args: Option<Args>, predecessorId: string, receiverId: string,
                                         index: nat)

  datatype ActionReceipt = ActionReceipt(signerId: string, actions: seq<ReceiptAction>)

  datatype Receipt = Receipt(
    receiptId: string,
    blockHash: string,
    timestamp: nat,
    predecessorId: string,
    receiverId: string,
    transactionHash: string,
    action: Option<ActionReceipt>)

  // `receipt.action?.actions`: a receipt without an action has nothing to loop over.
  function Actions(r: Receipt): seq<ReceiptAction> {
    if r.action.Some? then r.action.value.actions else []
  }

  datatype TransactionAction = TransactionAction(
    receiverId: string,
    signerId: string,
    txSignerId: string,
    predecessorId: string,
    transactionHash: string,
    blockHash: string,
    kind: Kind,
    methodName: Option<string>,
    args: Option<ArgsJson>,
    deposit: Quantity,
    timestamp: nat,
    receiptId: string,
    index: nat,
    failed: bool,
    successValue: Option<string>)

  // What the chain says once and for all: which transactions failed, and the value each receipt returned.
  datatype Chain = Chain(contractName: string, failed: set<string>, returned: map<string, string>)

  // mapReceiptEntryActionArgs keeps three properties of every action's args.
  function TrimArgs(a: ReceiptAction): ReceiptAction {
    a.(args := Some(match a.args
                    case None => Args(None, Missing, None, map[])
                    case Some(x) => Args(x.methodName, x.deposit, x.json, map[])))
  }

  function TrimAll(actions: seq<ReceiptAction>): (t: seq<ReceiptAction>)
    ensures |t| == |actions|
    ensures forall i :: 0 <= i < |t| ==> t[i] == TrimArgs(actions[i])
  {
    seq(|actions|, i requires 0 <= i < |actions| => TrimArgs(actions[i]))
  }

  function Trim(r: Receipt): Receipt {
    if r.action.None? then r
    else r.(action := Some(r.action.value.(actions := TrimAll(r.action.value.actions))))
  }

  // castTransactionAction for the i-th action of a receipt.
  function Cast(chain: Chain, r: Receipt, i: nat): TransactionAction
    requires i < |Actions(r)|
  {
    var a := Actions(r)[i];
    TransactionAction(
      a.receiverId,
      a.predecessorId,
      r.action.value.signerId,
      a.predecessorId,
      r.transactionHash,
      r.blockHash,
      a.kind,
      if a.args.Some? then a.args.value.methodName else None,
      if a.args.Some? then a.args.value.json else None,
      if a.args.Some? && a.args.value.deposit != Missing then a.args.value.deposit else Units(0),
      r.timestamp,
      r.receiptId,
      a.index,
      r.transactionHash in chain.failed,
      if r.receiptId in chain.returned then Some(chain.returned[r.receiptId]) else None)
  }

  // Who does what in the i-th action of a receipt, where and when, and what came of it.
  ghost predicate Shows(chain: Chain, r: Receipt, i: nat, t: TransactionAction) {
    && r.action.Some? && i < |r.action.value.actions|
    && var a := r.action.value.actions[i];
    && t.predecessorId == t.signerId == a.predecessorId && t.receiverId == a.receiverId
    && t.txSignerId == r.action.value.signerId
    && t.transactionHash == r.transactionHash && t.blockHash == r.blockHash && t.timestamp == r.timestamp
    && t.receiptId == r.receiptId && t.index == a.index && t.kind == a.kind
    && (t.failed <==> r.transactionHash in chain.failed)
    && (forall value :: t.successValue == Some(value) <==>
          r.receiptId in chain.returned && chain.returned[r.receiptId] == value)
    && match a.args
       case None => t.methodName == None && t.args == None && t.deposit == Units(0)
       case Some(args) =>
         t.methodName == args.methodName && t.args == args.json
         && t.deposit == if args.deposit == Missing then Units(0) else args.deposit
  }

  // Replaying the trimmed receipt replays the same actions: those that the receipt shows.
  lemma TrimCastsAlike(chain: Chain, r: Receipt)
    ensures |Actions(Trim(r))| == |Actions(r)|
    ensures forall i :: 0 <= i < |Actions(r)| ==> Cast(chain, Trim(r), i) == Cast(chain, r, i)
    ensures forall i :: 0 <= i < |Actions(r)| ==> Shows(chain, r, i, Cast(chain, Trim(r), i))
  {
    forall i | 0 <= i < |Actions(r)|
      ensures Cast(chain, Trim(r), i) == Cast(chain, r, i) && Shows(chain, r, i, Cast(chain, Trim(r), i))
    {
      assert Actions(Trim(r))[i] == TrimArgs(Actions(r)[i]);
    }
  }

  // What comes back of an action's args: the item codec keeps strings, and may cut arrays in arrays.
  function Recoded(args: Option<ArgsJson>): Option<ArgsJson> {
    if args.None? then None else Some(args.value.(rest := Codec.Denormalize(Codec.Encode(args.value.rest))))
  }

  function RestoreArgs(a: ReceiptAction): ReceiptAction {
    var trimmed := TrimArgs(a);
    trimmed.(args := Some(trimmed.args.value.(json := Recoded(trimmed.args.value.json))))
  }

  function RestoreAll(actions: seq<ReceiptAction>): (t: seq<ReceiptAction>)
    ensures |t| == |actions|
    ensures forall i :: 0 <= i < |t| ==> t[i] == RestoreArgs(actions[i])
  {
    seq(|actions|, i requires 0 <= i < |actions| => RestoreArgs(actions[i]))
  }

  // The receipt of an error as it is read back: trimmed, encoded and decoded.
  function Restored(r: Receipt): Receipt {
    if r.action.None? then r
    else r.(action := Some(r.action.value.(actions := RestoreAll(r.action.value.actions))))
  }

  // The read-back receipt casts to the same actions but for their args, which went through the codec.
  lemma RestoredCasts(chain: Chain, r: Receipt, i: nat)
    requires i < |Actions(r)|
    ensures |Actions(Restored(r))| == |Actions(r)|
    ensures Cast(chain, Restored(r), i) == Cast(chain, r, i).(args := Recoded(Cast(chain, r, i).args))
  {
    assert Actions(Restored(r))[i] == RestoreArgs(Actions(r)[i]);
  }

  ghost predicate ArgsKept(args: Option<ArgsJson>) {
    args.None? || Codec.Kept(args.value.rest, false)
  }

  ghost predicate ArgsAreTrees(r: Receipt) {
    forall a :: a in Actions(r) && a.args.Some? && a.args.value.json.Some? ==> Codec.Tree(a.args.value.json.value.rest)
  }

  lemma RecodedKept(args: Option<ArgsJson>)
    requires args.Some? ==> Codec.Tree(args.value.rest)
    ensures Recoded(args) == args <==> ArgsKept(args)
  {
    if args.Some? {
      Codec.DecodesBack(args.value.rest, false);
    }
  }

  // So it casts to the very same actions exactly if the codec keeps all their args.
  lemma RestoredCastsAlikeExactly(chain: Chain, r: Receipt)
    requires ArgsAreTrees(r)
    ensures |Actions(Restored(r))| == |Actions(r)|
    ensures (forall i :: 0 <= i < |Actions(r)| ==> Cast(chain, Restored(r), i) == Cast(chain, r, i))
      <==> forall i :: 0 <= i < |Actions(r)| ==> ArgsKept(Cast(chain, r, i).args)
  {
    forall i | 0 <= i < |Actions(r)|
      ensures Cast(chain, Restored(r), i) == Cast(chain, r, i) <==> ArgsKept(Cast(chain, r, i).args)
    {
      assert Actions(r)[i] in Actions(r);
      RestoredCasts(chain, r, i);
      RecodedKept(Cast(chain, r, i).args);
    }
  }

  // Where an error's receipt is stored: Postgres keeps it trimmed, in Dynamo it goes through the item codec too.
  datatype Medium = ViaDynamo | ViaPostgres

  function StoredForm(r: Receipt, medium: Medium): Receipt {
    if medium == ViaDynamo then Restored(r) else Trim(r)
  }

  // An action as it is replayed: perhaps with args that went through the codec.
  function Recast(a: TransactionAction): TransactionAction {
    a.(args := Recoded(a.args))
  }

  predicate Replayed(a: TransactionAction, original: TransactionAction) {
    a == original || a == Recast(original)
  }

  // A receipt, or what either store gives back of it.
  predicate FormOf(q: Receipt, r: Receipt) {
    q == r || q == Trim(r) || q == Restored(r)
  }

  lemma FormCasts(chain: Chain, q: Receipt, r: Receipt)
    requires FormOf(q, r)
    ensures q.receiptId == r.receiptId && |Actions(q)| == |Actions(r)|
    ensures forall i :: 0 <= i < |Actions(r)| ==> Replayed(Cast(chain, q, i), Cast(chain, r, i))
  {
    TrimCastsAlike(chain, r);
    forall i | 0 <= i < |Actions(r)| ensures Replayed(Cast(chain, Restored(r), i), Cast(chain, r, i)) {
      RestoredCasts(chain, r, i);
    }
    if r.action.Some? {
      assert |Actions(Restored(r))| == |Actions(r)|;
    }
  }

  // Two receipts with the same trimmed form cast to the same actions.
  lemma TwinsCastAlike(chain: Chain, p: Receipt, r: Receipt)
    requires Trim(p) == Trim(r)
    ensures |Actions(p)| == |Actions(r)|
    ensures forall i :: 0 <= i < |Actions(r)| ==> Cast(chain, p, i) == Cast(chain, r, i)
  {
    TrimCastsAlike(chain, p);
    TrimCastsAlike(chain, r);
  }

  // The part of an action that trimming keeps: all but the other properties of its args, which may be missing.
  ghost predicate SameButOthers(a: ReceiptAction, b: ReceiptAction) {
    && a.kind == b.kind && a.predecessorId == b.predecessorId && a.receiverId == b.receiverId && a.index == b.index
    && (match a.args case None => None case Some(x) => x.methodName)
       == (match b.args case None => None case Some(x) => x.methodName)
    && (match a.args case None => Missing case Some(x) => x.deposit)
       == (match b.args case None => Missing case Some(x) => x.deposit)
    && (match a.args case None => None case Some(x) => x.json)
       == (match b.args case None => None case Some(x) => x.json)
  }

  // Receipts have one trimmed form exactly if they differ in such properties alone.
  lemma TrimForgetsExactly(p: Receipt, r: Receipt)
    ensures Trim(p) == Trim(r) <==>
      && p.(action := None) == r.(action := None) && (p.action.None? <==> r.action.None?)
      && (p.action.Some? ==>
            && p.action.value.signerId == r.action.value.signerId && |Actions(p)| == |Actions(r)|
            && forall i :: 0 <= i < |Actions(p)| ==> SameButOthers(Actions(p)[i], Actions(r)[i]))
  {
    if p.action.Some? && r.action.Some? {
      forall i | 0 <= i < |Actions(p)| && i < |Actions(r)|
        ensures TrimArgs(Actions(p)[i]) == TrimArgs(Actions(r)[i]) <==> SameButOthers(Actions(p)[i], Actions(r)[i])
      {}
      var once, again := TrimAll(Actions(p)), TrimAll(Actions(r));
      assert once == again <==> |once| == |again| && forall i :: 0 <= i < |once| && i < |again| ==> once[i] == again[i];
      TrimmedActions(p);
      TrimmedActions(r);
      hide TrimAll;
      assert Trim(p).(action := None) == p.(action := None) && Trim(r).(action := None) == r.(action := None);
      assert Trim(p) == Trim(r) <==> Trim(p).(action := None) == Trim(r).(action := None)
                                     && Trim(p).action == Trim(r).action;
    }
  }

  lemma TrimmedActions(r: Receipt)
    requires r.action.Some?
    ensures Trim(r) == r.(action := Some(ActionReceipt(r.action.value.signerId, TrimAll(Actions(r)))))
  {}

  lemma TrimIdempotent(r: Receipt)
    ensures Trim(Trim(r)) == Trim(r)
  {
    if r.action.Some? {
      var once := TrimAll(Actions(r));
      assert forall i :: 0 <= i < |once| ==> TrimArgs(once[i]) == once[i];
      assert TrimAll(once) == once;
    }
  }

  // ---------- the treasury records of an action (saveDaoFunds) ----------

  datatype FundsKind = DepositFunds | TokenFunds

  datatype FundsRecord = FundsRecord(
    kind: FundsKind,
    daoId: string,
    receiptId: string,
    index: nat,
    predecessorId: string,
    receiverId: Option<string>,
    tokenId: string,
    amount: int,
    methodName: Option<string>,
    args: Option<ArgsJson>,
    transactionHash: string,
    timestamp: nat)

  predicate IsDaoContract(chain: Chain, account: string) {
    EndsWith(account, "." + chain.contractName)
  }

  // What saveDaoFunds stores under one of the two record types; it throws on an amount that is no number,
  // and on a token transfer from outside the factory that names no receiver.
  function FundsOf(chain: Chain, a: TransactionAction, kind: FundsKind): Outcome<Option<FundsRecord>> {
    match kind
    case DepositFunds =>
      if (a.kind != Transfer && a.kind != FunctionCall) || a.deposit == Missing then Returns(None)
      else if a.deposit == Unreadable then Throws
      else if a.deposit.n > 0 && (IsDaoContract(chain, a.predecessorId) || IsDaoContract(chain, a.receiverId)) then
        var daoId := if IsDaoContract(chain, a.predecessorId) then a.predecessorId else a.receiverId;
        Returns(Some(FundsRecord(DepositFunds, daoId, a.receiptId, a.index, a.predecessorId, Some(a.receiverId),
                                 "", a.deposit.n, a.methodName, a.args, a.transactionHash, a.timestamp)))
      else Returns(None)
    case TokenFunds =>
      if a.kind != FunctionCall
         || a.methodName !in [Some("ft_mint"), Some("ft_transfer"), Some("ft_transfer_call")]
         || a.args.None? || a.args.value.amount == Missing
      then Returns(None)
      else if a.args.value.amount == Unreadable then Throws
      else if a.args.value.amount.n <= 0 then Returns(None)
      else
        var receiver := if a.args.value.receiverId.Some? then a.args.value.receiverId else a.args.value.accountId;
        if !IsDaoContract(chain, a.predecessorId) && receiver.None? then Throws
        else if IsDaoContract(chain, a.predecessorId) || IsDaoContract(chain, receiver.value) then
          var daoId := if IsDaoContract(chain, a.predecessorId) then a.predecessorId else receiver.value;
          Returns(Some(FundsRecord(TokenFunds, daoId, a.receiptId, a.index, a.predecessorId, receiver,
                                   a.receiverId, a.args.value.amount.n, a.methodName, a.args, a.transactionHash,
                                   a.timestamp)))
        else Returns(None)
  }

  // Neither of the two throws.
  predicate CanFund(chain: Chain, a: TransactionAction) {
    FundsOf(chain, a, DepositFunds).Returns? && FundsOf(chain, a, TokenFunds).Returns?
  }

  // partitionId and entityId of a record (the two castDtoToModel functions).
  datatype FundsKey = FundsKey(partitionId: string, entityId: string)

  function KeyOf(f: FundsRecord): FundsKey {
    match f.kind
    case DepositFunds =>
      FundsKey(f.daoId, EntityId("DaoFundsReceipt", DepositId(f.timestamp, f.receiptId, f.index)))
    case TokenFunds =>
      FundsKey(f.daoId, EntityId("DaoFundsTokenReceipt", TokenDepositId(f.tokenId, f.timestamp, f.receiptId, f.index)))
  }

  // A record's key determines its kind and the receipt and position it came from.
  lemma KeyDeterminesSource(f: FundsRecord, g: FundsRecord)
    requires KeyOf(f) == KeyOf(g)
    requires f.kind == TokenFunds ==> '-' !in f.receiptId
    requires g.kind == TokenFunds ==> '-' !in g.receiptId
    ensures f.kind == g.kind && f.receiptId == g.receiptId && f.index == g.index
  {
    var idF := if f.kind == DepositFunds then DepositId(f.timestamp, f.receiptId, f.index)
               else TokenDepositId(f.tokenId, f.timestamp, f.receiptId, f.index);
    var idG := if g.kind == DepositFunds then DepositId(g.timestamp, g.receiptId, g.index)
               else TokenDepositId(g.tokenId, g.timestamp, g.receiptId, g.index);
    var tF := if f.kind == DepositFunds then "DaoFundsReceipt" else "DaoFundsTokenReceipt";
    var tG := if g.kind == DepositFunds then "DaoFundsReceipt" else "DaoFundsTokenReceipt";
    EntityIdInjective(tF, idF, tG, idG);
    assert |tF| == |tG|;
    if f.kind == DepositFunds {
      DepositIdInjective(f.timestamp, f.receiptId, f.index, g.timestamp, g.receiptId, g.index);
    } else {
      TokenDepositIdInjective(f.tokenId, f.timestamp, f.receiptId, f.index, g.tokenId, g.timestamp, g.receiptId,
                              g.index);
    }
  }

  // The ledger row of an action (check and save of the handled-receipt-action service).
  datatype LedgerKey = LedgerKey(partitionId: string, entityId: string)

  function LedgerKeyOf(a: TransactionAction): LedgerKey {
    LedgerKey(a.transactionHash, EntityId("HandledReceiptAction", ActionId(a.receiptId, a.index)))
  }

  lemma LedgerKeyDeterminesSource(a: TransactionAction, b: TransactionAction)
    requires LedgerKeyOf(a) == LedgerKeyOf(b)
    ensures a.receiptId == b.receiptId && a.index == b.index
  {
    EntityIdInjective("HandledReceiptAction", ActionId(a.receiptId, a.index), "HandledReceiptAction",
                      ActionId(b.receiptId, b.index));
    ActionIdInjective(a.receiptId, a.index, b.receiptId, b.index);
  }

  // A record without its args.
  function Bare(f: FundsRecord): FundsRecord {
    f.(args := None)
  }

  // Both throw, both make no record, or they make the same record but for its args.
  ghost predicate FundsAlike(o: Outcome<Option<FundsRecord>>, p: Outcome<Option<FundsRecord>>) {
    match (o, p)
    case (Throws, Throws) => true
    case (Returns(None), Returns(None)) => true
    case (Returns(Some(f)), Returns(Some(g))) => Bare(f) == Bare(g)
    case _ => false
  }

  // Whatever the codec does to the args: a replayed action has the same ledger row, and stands for the same treasury
  // records but for their args, under the same keys, or throws alike.
  lemma ReplayedKeepsRecords(chain: Chain, a: TransactionAction, original: TransactionAction)
    requires Replayed(a, original)
    ensures LedgerKeyOf(a) == LedgerKeyOf(original) && a.failed == original.failed
    ensures a.receiptId == original.receiptId && a.index == original.index
    ensures forall kind :: FundsAlike(FundsOf(chain, a, kind), FundsOf(chain, original, kind))
  {
    forall kind ensures FundsAlike(FundsOf(chain, a, kind), FundsOf(chain, original, kind)) {
      if kind == DepositFunds {
        assert FundsAlike(FundsOf(chain, a, DepositFunds), FundsOf(chain, original, DepositFunds));
      } else {
        assert FundsAlike(FundsOf(chain, a, TokenFunds), FundsOf(chain, original, TokenFunds));
      }
    }
  }

  lemma BareKey(f: FundsRecord, g: FundsRecord)
    requires Bare(f) == Bare(g)
    ensures KeyOf(f) == KeyOf(g) && f.kind == g.kind && f.receiptId == g.receiptId && f.index == g.index
      && f.daoId == g.daoId
    ensures f.amount == g.amount && f.receiverId == g.receiverId && f.tokenId == g.tokenId && f.timestamp == g.timestamp
  {
    assert Bare(f).receiptId == f.receiptId && Bare(g).receiptId == g.receiptId;
    assert Bare(f).kind == f.kind && Bare(g).kind == g.kind;
  }
}
