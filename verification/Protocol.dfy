/**
 * The ingestion protocol as a state machine: any number of stream workers and error resolvers, switching at
 * every await. An await may succeed, reject before its write took effect, or reject after it did; a process
 * may disappear at any time, and a restart is a new process.
 */
module Protocol {
  import opened Wrappers
  import opened Keys
  import opened Receipts
  import opened Stores

  // The awaits of handleTransactionAction and of the fetch before it.
  datatype Stage = Fetch | Check | Handlers | SaveDeposit | SaveToken | Record

  // The awaits of handleNewError and the state save after it.
  datatype FailStage = OpenInDynamo | ListOpenId | OpenInPostgres | SaveFailedState

  // The awaits of setErrorStatus.
  datatype MarkStage = UnlistOpenId | MarkInDynamo | MarkInPostgres

  datatype Pc = Act(i: nat, stage: Stage) | Fail(i: nat, fail: FailStage) | Finish | Delete | Mark(mark: MarkStage)

  // A worker holds the entry ids it read and has not finished; a resolver holds an error id.
  datatype Owner = Stream(batch: seq<nat>) | Resolver(errorId: string)

  // Waiting: before the first save of a receipt, or before the read of the error record.
  datatype Process = Waiting(owner: Owner) | Running(owner: Owner, receipt: Receipt, pc: Pc)

  datatype State = State(stores: Stores, processes: map<nat, Process>)

  // What the world answers to an await: was the ledger row found, which error store was read, what the handlers
  // returned.
  datatype Answer = Answer(found: bool, fromPostgres: bool, results: seq<Cell>)

  datatype Event =
    | Appends(entry: Option<Receipt>)
    | Reads(id: nat, batch: seq<nat>)
    | Retries(id: nat, errorId: string)
    | Crashes(id: nat)
    | Succeeds(id: nat, answer: Answer)
    | Rejects(id: nat, answer: Answer, tookEffect: bool)

  // ---------- one process ----------

  predicate InRange(p: Process) {
    p.Running? && (p.pc.Act? || p.pc.Fail?) ==> p.pc.i < |Actions(p.receipt)|
  }

  function ErrorId(p: Process): string
    requires p.Running? && p.pc.Fail?
  {
    ActionId(p.receipt.receiptId, p.pc.i)
  }

  function PerformAction(chain: Chain, s: Stores, a: TransactionAction, stage: Stage, results: seq<Cell>): Stores {
    match stage
    case SaveDeposit => SaveFunds(chain, s, a, DepositFunds)
    case SaveToken => SaveFunds(chain, s, a, TokenFunds)
    case Record => SaveLedger(s, a, results)
    case _ => s
  }

  // The write that the pending await performs.
  function Perform(chain: Chain, s: Stores, p: Process, answer: Answer): Stores
    requires InRange(p)
  {
    if p.Waiting? then s
    else match p.pc
      case Act(i, stage) => PerformAction(chain, s, Cast(chain, p.receipt, i), stage, answer.results)
      case Fail(i, OpenInDynamo) => CreateDynamo(s, ErrorId(p), p.receipt)
      case Fail(i, OpenInPostgres) => CreatePostgres(s, ErrorId(p), p.receipt)
      case Delete => if p.owner.Stream? && p.owner.batch != [] then Remove(s, p.owner.batch[0]) else s
      case Mark(MarkInDynamo) => if p.owner.Resolver? then MarkDynamo(s, p.owner.errorId) else s
      case Mark(MarkInPostgres) => if p.owner.Resolver? then MarkPostgres(s, p.owner.errorId) else s
      case _ => s
  }

  // The await and the code up to the next one can get through without throwing.
  predicate CanSucceed(chain: Chain, s: Stores, p: Process, answer: Answer)
    requires InRange(p)
  {
    match p
    case Waiting(Stream(batch)) => batch != [] && batch[0] < |s.log| && s.log[batch[0]].Some?
    case Waiting(Resolver(errorId)) => errorId in (if answer.fromPostgres then s.postgres else s.dynamo)
    case Running(_, r, Act(i, Check)) => answer.found ==> LedgerKeyOf(Cast(chain, r, i)) in s.ledger
    case Running(_, r, Act(i, SaveDeposit)) => FundsOf(chain, Cast(chain, r, i), DepositFunds).Returns?
    case Running(_, r, Act(i, SaveToken)) => FundsOf(chain, Cast(chain, r, i), TokenFunds).Returns?
    case _ => true
  }

  // The loop over a receipt's actions goes to action i, or past the last one.
  function AtAction(owner: Owner, r: Receipt, i: nat): Process {
    Running(owner, r, if i < |Actions(r)| then Act(i, Fetch) else if owner.Stream? then Finish else Mark(UnlistOpenId))
  }

  // Where a process goes when its await succeeds; None: it has ended.
  function Advance(chain: Chain, s: Stores, p: Process, answer: Answer): Option<Process>
    requires InRange(p) && CanSucceed(chain, s, p, answer)
  {
    match p
    case Waiting(Stream(batch)) => Some(AtAction(p.owner, s.log[batch[0]].value, 0))
    case Waiting(Resolver(errorId)) =>
      var e := (if answer.fromPostgres then s.postgres else s.dynamo)[errorId];
      if e.status == Resolved || e.receipt.None? then None else Some(AtAction(p.owner, e.receipt.value, 0))
    case Running(owner, r, pc) =>
      match pc
      case Act(i, Fetch) => Some(p.(pc := Act(i, Check)))
      case Act(i, Check) =>
        if answer.found || Cast(chain, r, i).failed then Some(AtAction(owner, r, i + 1))
          else Some(p.(pc := Act(i, Handlers)))
      case Act(i, Handlers) => Some(p.(pc := Act(i, SaveDeposit)))
      case Act(i, SaveDeposit) => Some(p.(pc := Act(i, SaveToken)))
      case Act(i, SaveToken) => Some(p.(pc := Act(i, Record)))
      case Act(i, Record) => Some(AtAction(owner, r, i + 1))
      case Fail(i, OpenInDynamo) => Some(p.(pc := Fail(i, ListOpenId)))
      case Fail(i, ListOpenId) => Some(p.(pc := Fail(i, OpenInPostgres)))
      case Fail(i, OpenInPostgres) => Some(p.(pc := Fail(i, SaveFailedState)))
      case Fail(i, SaveFailedState) => Some(p.(pc := Delete))
      case Finish => Some(p.(pc := Delete))
      case Delete => if owner.Stream? && |owner.batch| > 1 then Some(Waiting(Stream(owner.batch[1..]))) else None
      case Mark(UnlistOpenId) => Some(p.(pc := Mark(MarkInDynamo)))
      case Mark(MarkInDynamo) => Some(p.(pc := Mark(MarkInPostgres)))
      case Mark(MarkInPostgres) => None
  }

  // A worker catches a rejection inside the action loop; any other rejection ends the process.
  function AfterRejection(p: Process): Option<Process> {
    if p.Running? && p.owner.Stream? && p.pc.Act? then Some(p.(pc := Fail(p.pc.i, OpenInDynamo))) else None
  }

  // ---------- runs ----------

  predicate Enabled(chain: Chain, st: State, e: Event) {
    match e
    case Appends(entry) => true
    case Reads(id, batch) => id !in st.processes && batch != [] && forall k :: k in batch ==> k in st.stores.live
    case Retries(id, errorId) => id !in st.processes
    case Crashes(id) => id in st.processes
    case Succeeds(id, answer) =>
      id in st.processes && InRange(st.processes[id]) && CanSucceed(chain, st.stores, st.processes[id], answer)
    case Rejects(id, answer, tookEffect) => id in st.processes && InRange(st.processes[id])
  }

  function Put(processes: map<nat, Process>, id: nat, p: Option<Process>): map<nat, Process> {
    if p.Some? then processes[id := p.value] else processes - {id}
  }

  function Apply(chain: Chain, st: State, e: Event): State
    requires Enabled(chain, st, e)
  {
    match e
    case Appends(entry) => st.(stores := Append(st.stores, entry))
    case Reads(id, batch) => st.(processes := st.processes[id := Waiting(Stream(batch))])
    case Retries(id, errorId) => st.(processes := st.processes[id := Waiting(Resolver(errorId))])
    case Crashes(id) => st.(processes := st.processes - {id})
    case Succeeds(id, answer) =>
      var p := st.processes[id];
      State(Perform(chain, st.stores, p, answer), Put(st.processes, id, Advance(chain, st.stores, p, answer)))
    case Rejects(id, answer, tookEffect) =>
      var p := st.processes[id];
      State(if tookEffect then Perform(chain, st.stores, p, answer) else st.stores,
            Put(st.processes, id, AfterRejection(p)))
  }

  // Entries obey the rules of the indexer that appends them.
  ghost predicate Allowed(chain: Chain, st: State, e: Event) {
    && Enabled(chain, st, e)
    && (e.Appends? ==> MayAppend(st.stores, e.entry))
  }

  // The events can happen in this order from st, and lead to st'.
  ghost predicate Leads(chain: Chain, st: State, events: seq<Event>, st': State)
    decreases |events|
  {
    if events == [] then st' == st
    else Allowed(chain, st, events[0]) && Leads(chain, Apply(chain, st, events[0]), events[1..], st')
  }

  const INITIAL := State(EMPTY, map[])

  ghost predicate Reachable(chain: Chain, st: State) {
    exists events :: Leads(chain, INITIAL, events, st)
  }

  // ---------- what holds at each point of a process ----------

  ghost predicate Replays(s: Stores, owner: Owner, receipt: Receipt) {
    match owner
    case Stream(batch) => batch != [] && batch[0] < |s.log| && s.log[batch[0]] == Some(receipt)
    case Resolver(errorId) =>
      errorId in s.dynamo && exists r :: Appended(s, r) && FormOf(receipt, r) && ErrorOf(errorId, r)
  }

  ghost predicate PcFine(chain: Chain, s: Stores, p: Process)
    requires p.Running? && InRange(p)
  {
    match p.pc
    case Act(i, stage) =>
      var a := Cast(chain, p.receipt, i);
      && DoneUpTo(chain, s, p.receipt, i)
      && (stage in {Handlers, SaveDeposit, SaveToken, Record} ==> !a.failed)
      && (stage in {SaveToken, Record} ==> FundsStored(chain, s, a, DepositFunds))
      && (stage == Record ==> FundsStored(chain, s, a, TokenFunds))
    case Fail(i, stage) =>
      && p.owner.Stream?
      && (stage != OpenInDynamo ==> ErrorId(p) in s.dynamo && TrackedOrDone(chain, s, s.dynamo, p.receipt, ViaDynamo))
      && (stage == SaveFailedState ==> Settled(chain, s, p.receipt))
    case Finish => p.owner.Stream? && AllDone(chain, s, p.receipt)
    case Delete => p.owner.Stream? && Settled(chain, s, p.receipt)
    case Mark(_) => p.owner.Resolver? && AllDone(chain, s, p.receipt)
  }

  ghost predicate OwnerFine(s: Stores, owner: Owner) {
    owner.Stream? ==> owner.batch != [] && forall k :: k in owner.batch ==> k < |s.log|
  }

  ghost predicate Fine(chain: Chain, s: Stores, p: Process) {
    && InRange(p)
    && OwnerFine(s, p.owner)
    && (p.Running? ==> Replays(s, p.owner, p.receipt) && PcFine(chain, s, p))
  }

  ghost predicate AllFine(chain: Chain, s: Stores, processes: map<nat, Process>) {
    forall id :: id in processes ==> Fine(chain, s, processes[id])
  }

  ghost predicate StateInv(chain: Chain, st: State) {
    Inv(chain, st.stores) && AllFine(chain, st.stores, st.processes)
  }

  // No step of another process disturbs what a process relies on.
  lemma FineStays(chain: Chain, s: Stores, s': Stores, p: Process)
    requires Grows(s, s') && Inv(chain, s') && Fine(chain, s, p)
    ensures Fine(chain, s', p)
  {
    hide LogOk, LedgerOk, FundsOk, NothingLost, ErrorsOk;
    if p.Running? {
      ReplaysStays(s, s', p.owner, p.receipt);
      if p.pc.Fail? || p.pc.Delete? {
        if TrackedOrDone(chain, s, s.dynamo, p.receipt, ViaDynamo) {
          TrackedStays(chain, s, s', s.dynamo, s'.dynamo, p.receipt, ViaDynamo);
        }
        if Settled(chain, s, p.receipt) {
          SettledStays(chain, s, s', p.receipt);
        }
      }
    }
  }

  lemma ReplaysStays(s: Stores, s': Stores, owner: Owner, receipt: Receipt)
    requires Grows(s, s') && Replays(s, owner, receipt)
    ensures Replays(s', owner, receipt)
  {
    if owner.Resolver? {
      var r :| Appended(s, r) && FormOf(receipt, r) && ErrorOf(owner.errorId, r);
      AppendedGrows(s, s', r);
    }
  }

  // A running process works on known actions.
  lemma RunningKnown(chain: Chain, s: Stores, p: Process, i: nat)
    requires Fine(chain, s, p) && p.Running? && i < |Actions(p.receipt)|
    ensures Known(chain, s, Cast(chain, p.receipt, i))
  {
    match p.owner
    case Stream(batch) => assert Appended(s, p.receipt);
    case Resolver(errorId) =>
      var r :| Appended(s, r) && FormOf(p.receipt, r) && ErrorOf(errorId, r);
      FormCasts(chain, p.receipt, r);
  }

  // The write of a pending await keeps the invariant of the stores and undoes nothing. First, inside the action loop:
  lemma FundsWrite(chain: Chain, s: Stores, p: Process, kind: FundsKind)
    requires Inv(chain, s) && Fine(chain, s, p) && p.Running? && p.pc.Act? && p.pc.stage in {SaveDeposit, SaveToken}
    ensures var s' := SaveFunds(chain, s, Cast(chain, p.receipt, p.pc.i), kind); Inv(chain, s') && Grows(s, s')
  {
    RunningKnown(chain, s, p, p.pc.i);
    SaveFundsKeeps(chain, s, Cast(chain, p.receipt, p.pc.i), kind);
  }

  lemma RecordWrite(chain: Chain, s: Stores, p: Process, results: seq<Cell>)
    requires Inv(chain, s) && Fine(chain, s, p) && p.Running? && p.pc.Act? && p.pc.stage == Record
    ensures var a := Cast(chain, p.receipt, p.pc.i); var s' := SaveLedger(s, a, results);
      Inv(chain, s') && Grows(s, s') && Done(s', a)
  {
    RunningKnown(chain, s, p, p.pc.i);
    SaveLedgerKeeps(chain, s, Cast(chain, p.receipt, p.pc.i), results);
  }

  lemma ActionWrite(chain: Chain, s: Stores, p: Process, answer: Answer)
    requires Inv(chain, s) && Fine(chain, s, p) && p.Running? && p.pc.Act?
    ensures var s' := PerformAction(chain, s, Cast(chain, p.receipt, p.pc.i), p.pc.stage, answer.results);
      Inv(chain, s') && Grows(s, s')
  {
    hide Inv, Grows, Fine, SaveFunds, SaveLedger, Cast;
    match p.pc.stage
    case SaveDeposit => FundsWrite(chain, s, p, DepositFunds);
    case SaveToken => FundsWrite(chain, s, p, TokenFunds);
    case Record => RecordWrite(chain, s, p, answer.results);
    case _ => GrowsRefl(s);
  }

  // In handleNewError:
  lemma FailureWrite(chain: Chain, s: Stores, p: Process, answer: Answer)
    requires Inv(chain, s) && Fine(chain, s, p) && p.Running? && p.pc.Fail?
    ensures var s' := Perform(chain, s, p, answer);
      && Inv(chain, s') && Grows(s, s')
      && (p.pc.fail == OpenInDynamo ==> ErrorId(p) in s'.dynamo && Tracked(s'.dynamo, p.receipt, ViaDynamo))
      && (p.pc.fail == OpenInPostgres ==> TrackedOrDone(chain, s', s'.postgres, p.receipt, ViaPostgres))
  {
    assert Appended(s, p.receipt);
    assert ErrorOf(ErrorId(p), p.receipt);
    match p.pc.fail
    case OpenInDynamo => CreateDynamoKeeps(chain, s, ErrorId(p), p.receipt);
    case OpenInPostgres => CreatePostgresKeeps(chain, s, ErrorId(p), p.receipt);
    case _ =>
  }

  // In setErrorStatus:
  lemma MarkWrite(chain: Chain, s: Stores, p: Process, answer: Answer)
    requires Inv(chain, s) && Fine(chain, s, p) && p.Running? && p.pc.Mark?
    ensures Inv(chain, Perform(chain, s, p, answer)) && Grows(s, Perform(chain, s, p, answer))
  {
    var r :| Appended(s, r) && FormOf(p.receipt, r) && ErrorOf(p.owner.errorId, r);
    FormDone(chain, s, p.receipt, r);
    match p.pc.mark
    case MarkInDynamo => MarkDynamoKeeps(chain, s, p.owner.errorId, r);
    case MarkInPostgres => MarkPostgresKeeps(chain, s, p.owner.errorId, r);
    case UnlistOpenId =>
  }

  lemma PerformKeeps(chain: Chain, s: Stores, p: Process, answer: Answer)
    requires Inv(chain, s) && Fine(chain, s, p)
    ensures Inv(chain, Perform(chain, s, p, answer)) && Grows(s, Perform(chain, s, p, answer))
  {
    if p.Running? {
      match p.pc
      case Act(_, _) => ActionWrite(chain, s, p, answer);
      case Fail(_, _) => FailureWrite(chain, s, p, answer);
      case Mark(_) => MarkWrite(chain, s, p, answer);
      case Delete => RemoveKeeps(chain, s, p.owner.batch[0]);
      case Finish =>
    }
  }

  lemma AtActionFine(chain: Chain, s: Stores, owner: Owner, r: Receipt, i: nat)
    requires i <= |Actions(r)| && DoneUpTo(chain, s, r, i) && Replays(s, owner, r)
    requires OwnerFine(s, owner)
    ensures Fine(chain, s, AtAction(owner, r, i))
  {}

  // A stage that stays with its action.
  lemma StageFine(chain: Chain, s: Stores, p: Process, stage: Stage)
    requires Fine(chain, s, p) && p.Running? && p.pc.Act?
    requires PcFine(chain, s, p.(pc := Act(p.pc.i, stage)))
    ensures Fine(chain, s, p.(pc := Act(p.pc.i, stage)))
  {}

  lemma CheckFine(chain: Chain, s: Stores, p: Process, answer: Answer)
    requires Fine(chain, s, p) && CanSucceed(chain, s, p, answer) && p.Running? && p.pc.Act? && p.pc.stage == Check
    ensures Fine(chain, s, Advance(chain, s, p, answer).value)
  {
    if answer.found || Cast(chain, p.receipt, p.pc.i).failed {
      NextActionFine(chain, s, s, p);
    } else {
      StageFine(chain, s, p, Handlers);
    }
  }

  lemma FundsStageFine(chain: Chain, s: Stores, p: Process, kind: FundsKind)
    requires Inv(chain, s) && Fine(chain, s, p) && p.Running? && p.pc.Act?
    requires p.pc.stage == if kind == DepositFunds then SaveDeposit else SaveToken
    requires FundsOf(chain, Cast(chain, p.receipt, p.pc.i), kind).Returns?
    ensures Fine(chain, SaveFunds(chain, s, Cast(chain, p.receipt, p.pc.i), kind),
                 p.(pc := Act(p.pc.i, if kind == DepositFunds then SaveToken else Record)))
  {
    var a := Cast(chain, p.receipt, p.pc.i);
    var s' := SaveFunds(chain, s, a, kind);
    FundsWrite(chain, s, p, kind);
    SaveFundsStores(chain, s, a, kind);
    FineStays(chain, s, s', p);
    StageFine(chain, s', p, if kind == DepositFunds then SaveToken else Record);
  }

  lemma NextActionFine(chain: Chain, s: Stores, s': Stores, p: Process)
    requires Grows(s, s') && OwnerFine(s, p.owner) && p.Running? && Replays(s, p.owner, p.receipt)
    requires p.pc.Act? && InRange(p) && DoneUpTo(chain, s, p.receipt, p.pc.i)
      && Done(s', Cast(chain, p.receipt, p.pc.i))
    ensures Fine(chain, s', AtAction(p.owner, p.receipt, p.pc.i + 1))
  {
    ReplaysStays(s, s', p.owner, p.receipt);
    assert DoneUpTo(chain, s', p.receipt, p.pc.i + 1);
    AtActionFine(chain, s', p.owner, p.receipt, p.pc.i + 1);
  }

  lemma ActionFine(chain: Chain, s: Stores, p: Process, answer: Answer)
    requires Inv(chain, s) && Fine(chain, s, p) && CanSucceed(chain, s, p, answer) && p.Running? && p.pc.Act?
    ensures Fine(chain, Perform(chain, s, p, answer), Advance(chain, s, p, answer).value)
  {
    match p.pc.stage
    case SaveDeposit => FundsStageFine(chain, s, p, DepositFunds);
    case SaveToken => FundsStageFine(chain, s, p, TokenFunds);
    case Record =>
      RecordWrite(chain, s, p, answer.results);
      NextActionFine(chain, s, Perform(chain, s, p, answer), p);
    case Check => CheckFine(chain, s, p, answer);
    case Fetch => StageFine(chain, s, p, Check);
    case Handlers => StageFine(chain, s, p, SaveDeposit);
  }

  lemma FailureFine(chain: Chain, s: Stores, p: Process, answer: Answer)
    requires Inv(chain, s) && Fine(chain, s, p) && p.Running? && p.pc.Fail?
    ensures Fine(chain, Perform(chain, s, p, answer), Advance(chain, s, p, answer).value)
  {
    hide LogOk, LedgerOk, FundsOk, NothingLost, ErrorsOk, Grows;
    FailureWrite(chain, s, p, answer);
    FineStays(chain, s, Perform(chain, s, p, answer), p);
  }

  lemma ReadErrorFine(chain: Chain, s: Stores, p: Process, answer: Answer)
    requires Inv(chain, s) && Fine(chain, s, p) && CanSucceed(chain, s, p, answer) && p.Waiting? && p.owner.Resolver?
    ensures var q := Advance(chain, s, p, answer); q.Some? ==> Fine(chain, s, q.value)
  {
    var errors := if answer.fromPostgres then s.postgres else s.dynamo;
    var id := p.owner.errorId;
    var medium := if answer.fromPostgres then ViaPostgres else ViaDynamo;
    var r :| Carries(chain, s, id, errors[id], r, medium);
    StoredIsForm(r, medium);
    assert Replays(s, p.owner, StoredForm(r, medium));
  }

  lemma FinishFine(chain: Chain, s: Stores, p: Process, answer: Answer)
    requires Fine(chain, s, p) && p.Running? && p.pc.Finish?
    ensures Fine(chain, Perform(chain, s, p, answer), Advance(chain, s, p, answer).value)
  {}

  // A process that only has to mark its error keeps what it needs for that.
  lemma MarkerFine(chain: Chain, s: Stores, s': Stores, p: Process, mark: MarkStage)
    requires Grows(s, s') && p.Running? && p.owner.Resolver? && Replays(s, p.owner, p.receipt)
      && AllDone(chain, s, p.receipt)
    ensures Fine(chain, s', p.(pc := Mark(mark)))
  {
    ReplaysStays(s, s', p.owner, p.receipt);
    assert AllDone(chain, s', p.receipt);
  }

  lemma MarkFine(chain: Chain, s: Stores, p: Process, answer: Answer)
    requires Inv(chain, s) && Fine(chain, s, p) && p.Running? && p.pc.Mark?
    ensures var q := Advance(chain, s, p, answer); q.Some? ==> Fine(chain, Perform(chain, s, p, answer), q.value)
  {
    MarkWrite(chain, s, p, answer);
    match p.pc.mark
    case UnlistOpenId => MarkerFine(chain, s, Perform(chain, s, p, answer), p, MarkInDynamo);
    case MarkInDynamo => MarkerFine(chain, s, Perform(chain, s, p, answer), p, MarkInPostgres);
    case MarkInPostgres =>
  }

  lemma DeleteFine(chain: Chain, s: Stores, p: Process, answer: Answer)
    requires Inv(chain, s) && Fine(chain, s, p) && p.Running? && p.pc.Delete?
    ensures var q := Advance(chain, s, p, answer); q.Some? ==> Fine(chain, Perform(chain, s, p, answer), q.value)
  {
    if |p.owner.batch| > 1 {
      assert forall k :: k in p.owner.batch[1..] ==> k in p.owner.batch;
    }
  }

  // A process whose await succeeded is fine at its next await.
  lemma AdvanceFine(chain: Chain, s: Stores, p: Process, answer: Answer)
    requires Inv(chain, s) && Fine(chain, s, p) && CanSucceed(chain, s, p, answer)
    ensures var q := Advance(chain, s, p, answer); q.Some? ==> Fine(chain, Perform(chain, s, p, answer), q.value)
  {
    if p.Waiting? {
      if p.owner.Resolver? {
        ReadErrorFine(chain, s, p, answer);
      } else {
        AtActionFine(chain, s, p.owner, s.log[p.owner.batch[0]].value, 0);
      }
    } else if p.pc.Act? {
      ActionFine(chain, s, p, answer);
    } else if p.pc.Fail? {
      FailureFine(chain, s, p, answer);
    } else if p.pc.Delete? {
      DeleteFine(chain, s, p, answer);
    } else if p.pc.Finish? {
      FinishFine(chain, s, p, answer);
    } else {
      MarkFine(chain, s, p, answer);
    }
  }

  lemma RejectionFine(chain: Chain, s: Stores, p: Process)
    requires Fine(chain, s, p)
    ensures AfterRejection(p).Some? ==> Fine(chain, s, AfterRejection(p).value)
  {}

  // ---------- every event keeps the invariant; every run does ----------

  lemma OthersFine(chain: Chain, s: Stores, s': Stores, processes: map<nat, Process>)
    requires Grows(s, s') && Inv(chain, s') && AllFine(chain, s, processes)
    ensures AllFine(chain, s', processes)
  {
    forall id | id in processes ensures Fine(chain, s', processes[id]) {
      FineStays(chain, s, s', processes[id]);
    }
  }

  // A process starts or disappears.
  lemma StartKeeps(chain: Chain, st: State, e: Event)
    requires StateInv(chain, st) && Enabled(chain, st, e) && (e.Reads? || e.Retries? || e.Crashes?)
    ensures StateInv(chain, Apply(chain, st, e)) && Apply(chain, st, e).stores == st.stores
  {
    hide LedgerOk, FundsOk, ErrorsOk, NothingLost;
  }

  lemma SuccessKeeps(chain: Chain, st: State, id: nat, answer: Answer)
    requires StateInv(chain, st) && Enabled(chain, st, Succeeds(id, answer))
    ensures var st' := Apply(chain, st, Succeeds(id, answer)); StateInv(chain, st') && Grows(st.stores, st'.stores)
  {
    hide Inv, Grows, Fine, Perform, Advance;
    PerformKeeps(chain, st.stores, st.processes[id], answer);
    AdvanceFine(chain, st.stores, st.processes[id], answer);
    OthersFine(chain, st.stores, Perform(chain, st.stores, st.processes[id], answer), st.processes);
  }

  lemma EventKeeps(chain: Chain, st: State, e: Event)
    requires StateInv(chain, st) && Allowed(chain, st, e)
    ensures StateInv(chain, Apply(chain, st, e)) && Grows(st.stores, Apply(chain, st, e).stores)
  {
    hide Inv, Grows, Fine, Perform, Advance;
    match e
    case Appends(entry) =>
      AppendKeeps(chain, st.stores, entry);
      OthersFine(chain, st.stores, Append(st.stores, entry), st.processes);
    case Succeeds(id, answer) => SuccessKeeps(chain, st, id, answer);
    case Rejects(id, answer, tookEffect) => RejectionKeeps(chain, st, id, answer, tookEffect);
    case _ =>
      StartKeeps(chain, st, e);
      GrowsRefl(st.stores);
  }

  lemma RejectionKeeps(chain: Chain, st: State, id: nat, answer: Answer, tookEffect: bool)
    requires StateInv(chain, st) && Enabled(chain, st, Rejects(id, answer, tookEffect))
    ensures var st' :=
      Apply(chain, st, Rejects(id, answer, tookEffect)); StateInv(chain, st') && Grows(st.stores, st'.stores)
  {
    var p := st.processes[id];
    PerformKeeps(chain, st.stores, p, answer);
    var s' := if tookEffect then Perform(chain, st.stores, p, answer) else st.stores;
    OthersFine(chain, st.stores, s', st.processes);
    RejectionFine(chain, s', p);
  }

  lemma {:induction false} RunKeeps(chain: Chain, st: State, events: seq<Event>, st': State)
    requires StateInv(chain, st) && Leads(chain, st, events, st')
    ensures StateInv(chain, st') && Grows(st.stores, st'.stores)
    decreases |events|
  {
    if events != [] {
      var next := Apply(chain, st, events[0]);
      EventKeeps(chain, st, events[0]);
      RunKeeps(chain, next, events[1..], st');
      GrowsTrans(st.stores, next.stores, st'.stores);
    }
  }

  lemma ReachableInv(chain: Chain, st: State)
    requires Reachable(chain, st)
    ensures StateInv(chain, st)
  {
    EmptyInv(chain);
    var events :| Leads(chain, INITIAL, events, st);
    RunKeeps(chain, INITIAL, events, st);
  }

  // ---------- the guarantees ----------

  // No receipt is lost: whatever was appended is still in the stream, or done, or carried by an open error of each
  // store.
  lemma NoReceiptLost(chain: Chain, st: State, entry: nat)
    requires Reachable(chain, st) && entry < |st.stores.log| && st.stores.log[entry].Some?
    ensures var r := st.stores.log[entry].value;
      || entry in st.stores.live
      || AllDone(chain, st.stores, r)
      || (Tracked(st.stores.dynamo, r, ViaDynamo) && Tracked(st.stores.postgres, r, ViaPostgres))
  {
    ReachableInv(chain, st);
  }

  // An error record names an appended receipt; once its status is resolved in either store, all actions of
  // that receipt are done, now and in every later state.
  lemma ResolvedMeansDone(chain: Chain, st: State, events: seq<Event>, st': State, errors: Errors, id: string)
    requires Reachable(chain, st) && Leads(chain, st, events, st')
    requires errors == st.stores.dynamo || errors == st.stores.postgres
    requires id in errors && errors[id].status != Open
    ensures exists r, medium ::
      Appended(st.stores, r) && ErrorOf(id, r) && errors[id].receipt == Some(StoredForm(r, medium))
                                && AllDone(chain, st'.stores, r)
  {
    ReachableInv(chain, st);
    RunKeeps(chain, st, events, st');
    var medium := if errors == st.stores.dynamo then ViaDynamo else ViaPostgres;
    var r :| Carries(chain, st.stores, id, errors[id], r, medium);
    assert AllDone(chain, st'.stores, r);
  }

  // When the stream is empty and one of the error stores has no open record, everything is done.
  lemma DrainedMeansDone(chain: Chain, st: State, errors: Errors, r: Receipt)
    requires Reachable(chain, st) && st.stores.live == {} && Appended(st.stores, r)
    requires errors == st.stores.dynamo || errors == st.stores.postgres
    requires forall id :: id in errors ==> errors[id].status != Open
    ensures AllDone(chain, st.stores, r)
  {
    var entry :| 0 <= entry < |st.stores.log| && st.stores.log[entry] == Some(r);
    NoReceiptLost(chain, st, entry);
  }

  ghost predicate ResolvedRow(s: Stores, id: string) {
    id in s.postgres && s.postgres[id].status == Resolved
  }

  lemma PerformKeepsResolvedRow(chain: Chain, s: Stores, p: Process, answer: Answer, id: string)
    requires InRange(p) && ResolvedRow(s, id)
    ensures ResolvedRow(Perform(chain, s, p, answer), id)
  {
    hide Cast, FundsOf, StoredForm, Actions, KeyOf, LedgerKeyOf;
  }

  // An error that is resolved in Postgres stays so, even if it is recorded again.
  lemma StepKeepsResolvedRows(chain: Chain, st: State, e: Event, id: string)
    requires Enabled(chain, st, e) && ResolvedRow(st.stores, id)
    ensures ResolvedRow(Apply(chain, st, e).stores, id)
  {
    hide Perform, Advance, CanSucceed, InRange;
    match e
    case Succeeds(i, answer) => PerformKeepsResolvedRow(chain, st.stores, st.processes[i], answer, id);
    case Rejects(i, answer, _) => PerformKeepsResolvedRow(chain, st.stores, st.processes[i], answer, id);
    case _ =>
  }

  lemma {:induction false} ResolvedRowsStay(chain: Chain, st: State, events: seq<Event>, st': State, id: string)
    requires Leads(chain, st, events, st') && ResolvedRow(st.stores, id)
    ensures ResolvedRow(st'.stores, id)
    decreases |events|
  {
    hide Apply, Enabled;
    if events != [] {
      assert Enabled(chain, st, events[0]) by {
        assert Allowed(chain, st, events[0]);
      }
      StepKeepsResolvedRows(chain, st, events[0], id);
      ResolvedRowsStay(chain, Apply(chain, st, events[0]), events[1..], st', id);
    }
  }
}
