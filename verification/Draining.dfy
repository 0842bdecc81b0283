/**
 * The protocol can drain: from every reachable state, exactly if every entry can be parsed and every amount read,
 * some run empties the stream and resolves every error.
 */
module Draining {
  import opened Wrappers
  import opened Keys
  import opened Receipts
  import opened Stores
  import opened Protocol
  import opened Accounting

  ghost predicate Goes(chain: Chain, st: State, st': State) {
    exists events :: Leads(chain, st, events, st')
  }

  lemma {:induction false} LeadsOn(chain: Chain, st: State, events: seq<Event>, mid: State, more: seq<Event>,
                                   st': State)
    requires Leads(chain, st, events, mid) && Leads(chain, mid, more, st')
    ensures Leads(chain, st, events + more, st')
    decreases |events|
  {
    if events == [] {
      assert events + more == more;
    } else {
      LeadsOn(chain, Apply(chain, st, events[0]), events[1..], mid, more, st');
      assert (events + more)[0] == events[0] && (events + more)[1..] == events[1..] + more;
    }
  }

  lemma GoesOn(chain: Chain, st: State, mid: State, st': State)
    requires Goes(chain, st, mid) && Goes(chain, mid, st')
    ensures Goes(chain, st, st')
  {
    var events :| Leads(chain, st, events, mid);
    var more :| Leads(chain, mid, more, st');
    LeadsOn(chain, st, events, mid, more, st');
  }

  lemma GoesNowhere(chain: Chain, st: State)
    ensures Goes(chain, st, st)
  {
    assert Leads(chain, st, [], st);
  }

  lemma Step(chain: Chain, st: State, e: Event)
    requires Allowed(chain, st, e)
    ensures Goes(chain, st, Apply(chain, st, e))
  {
    hide Apply, Enabled;
    assert Enabled(chain, st, e) by {
      assert Allowed(chain, st, e);
    }
    var st' := Apply(chain, st, e);
    assert [e][1..] == [] && Leads(chain, st', [], st');
    assert Leads(chain, st, [e], st');
  }

  lemma StaysReachable(chain: Chain, st: State, st': State)
    requires Reachable(chain, st) && Goes(chain, st, st')
    ensures Reachable(chain, st')
  {
    GoesOn(chain, INITIAL, st, st');
  }

  // ---------- one process, alone ----------

  // The only process, number 0.
  function Alone(s: Stores, p: Process): State {
    State(s, map[0 := p])
  }

  function Idle(s: Stores): State {
    State(s, map[])
  }

  // Its await succeeds.
  lemma Succeed(chain: Chain, s: Stores, p: Process, answer: Answer)
    requires InRange(p) && CanSucceed(chain, s, p, answer)
    ensures var s', q := Perform(chain, s, p, answer), Advance(chain, s, p, answer);
      Goes(chain, Alone(s, p), if q.Some? then Alone(s', q.value) else Idle(s'))
  {
    hide Perform, Advance, CanSucceed;
    var s', q := Perform(chain, s, p, answer), Advance(chain, s, p, answer);
    var st, e := Alone(s, p), Succeeds(0, answer);
    Step(chain, st, e);
    assert map[0 := p][0 := if q.Some? then q.value else p] == map[0 := if q.Some? then q.value else p];
    assert map[0 := p] - {0} == map[];
  }

  // ---------- the loop over the actions ----------

  ghost predicate Playable(chain: Chain, r: Receipt) {
    forall i :: 0 <= i < |Actions(r)| ==> Cast(chain, r, i).failed || CanFund(chain, Cast(chain, r, i))
  }

  // The stores but for ledger and treasury records.
  ghost predicate SameBut(s: Stores, s': Stores) {
    s' == s.(ledger := s'.ledger, funds := s'.funds)
  }

  function At(owner: Owner, r: Receipt, i: nat, stage: Stage): Process {
    Running(owner, r, Act(i, stage))
  }

  const YES := Answer(true, false, [])
  const NO := Answer(false, false, [])

  lemma SaveSucceeds(chain: Chain, s: Stores, owner: Owner, r: Receipt, i: nat, kind: FundsKind)
    requires i < |Actions(r)| && FundsOf(chain, Cast(chain, r, i), kind).Returns?
    ensures var s' := SaveFunds(chain, s, Cast(chain, r, i), kind);
      if kind == DepositFunds
      then Goes(chain, Alone(s, At(owner, r, i, SaveDeposit)), Alone(s', At(owner, r, i, SaveToken)))
      else Goes(chain, Alone(s, At(owner, r, i, SaveToken)), Alone(s', At(owner, r, i, Record)))
  {
    hide Cast, FundsOf, SaveFunds;
    Succeed(chain, s, At(owner, r, i, if kind == DepositFunds then SaveDeposit else SaveToken), NO);
  }

  lemma RecordSucceeds(chain: Chain, s: Stores, owner: Owner, r: Receipt, i: nat)
    requires i < |Actions(r)|
    ensures Goes(chain, Alone(s, At(owner, r, i, Record)),
                 Alone(SaveLedger(s, Cast(chain, r, i), []), AtAction(owner, r, i + 1)))
  {
    hide Cast, SaveLedger;
    Succeed(chain, s, At(owner, r, i, Record), NO);
  }

  // The saves of an action.
  lemma SavesSucceed(chain: Chain, s: Stores, owner: Owner, r: Receipt, i: nat) returns (s': Stores)
    requires i < |Actions(r)| && CanFund(chain, Cast(chain, r, i))
    ensures Goes(chain, Alone(s, At(owner, r, i, Handlers)), Alone(s', AtAction(owner, r, i + 1))) && SameBut(s, s')
  {
    var a := Cast(chain, r, i);
    hide Cast, FundsOf, SaveFunds, SaveLedger;
    var s1 := SaveFunds(chain, s, a, DepositFunds);
    var s2 := SaveFunds(chain, s1, a, TokenFunds);
    s' := SaveLedger(s2, a, []);
    assert Goes(chain, Alone(s, At(owner, r, i, Handlers)), Alone(s, At(owner, r, i, SaveDeposit))) by {
      Succeed(chain, s, At(owner, r, i, Handlers), NO);
    }
    hide Goes, AtAction;
    SaveSucceeds(chain, s, owner, r, i, DepositFunds);
    SaveSucceeds(chain, s1, owner, r, i, TokenFunds);
    RecordSucceeds(chain, s2, owner, r, i);
    GoesOn(chain, Alone(s, At(owner, r, i, Handlers)), Alone(s, At(owner, r, i, SaveDeposit)),
           Alone(s1, At(owner, r, i, SaveToken)));
    GoesOn(chain, Alone(s, At(owner, r, i, Handlers)), Alone(s1, At(owner, r, i, SaveToken)),
           Alone(s2, At(owner, r, i, Record)));
    GoesOn(chain, Alone(s, At(owner, r, i, Handlers)), Alone(s2, At(owner, r, i, Record)),
           Alone(s', AtAction(owner, r, i + 1)));
    SavesSameBut(chain, s, a);
  }

  lemma SavesSameBut(chain: Chain, s: Stores, a: TransactionAction)
    ensures var s1 := SaveFunds(chain, s, a, DepositFunds);
      SameBut(s, SaveLedger(SaveFunds(chain, s1, a, TokenFunds), a, []))
  {
    hide FundsOf;
  }

  lemma ActionSucceeds(chain: Chain, s: Stores, owner: Owner, r: Receipt, i: nat) returns (s': Stores)
    requires i < |Actions(r)| && Playable(chain, r)
    ensures Goes(chain, Alone(s, AtAction(owner, r, i)), Alone(s', AtAction(owner, r, i + 1))) && SameBut(s, s')
  {
    var a := Cast(chain, r, i);
    hide Cast, CanFund;
    Succeed(chain, s, At(owner, r, i, Fetch), NO);
    var found := LedgerKeyOf(a) in s.ledger;
    var answer := if found then YES else NO;
    Succeed(chain, s, At(owner, r, i, Check), answer);
    if found || a.failed {
      s' := s;
      GoesOn(chain, Alone(s, At(owner, r, i, Fetch)), Alone(s, At(owner, r, i, Check)),
             Alone(s, AtAction(owner, r, i + 1)));
    } else {
      s' := SavesSucceed(chain, s, owner, r, i);
      GoesOn(chain, Alone(s, At(owner, r, i, Fetch)), Alone(s, At(owner, r, i, Check)),
             Alone(s, At(owner, r, i, Handlers)));
      GoesOn(chain, Alone(s, At(owner, r, i, Fetch)), Alone(s, At(owner, r, i, Handlers)),
             Alone(s', AtAction(owner, r, i + 1)));
    }
  }

  lemma {:induction false} LoopSucceeds(chain: Chain, s: Stores, owner: Owner, r: Receipt, i: nat) returns (s': Stores)
    requires i <= |Actions(r)| && Playable(chain, r)
    ensures Goes(chain, Alone(s, AtAction(owner, r, i)), Alone(s', AtAction(owner, r, |Actions(r)|))) && SameBut(s, s')
    decreases |Actions(r)| - i
  {
    hide Goes, Playable, AtAction;
    if i == |Actions(r)| {
      s' := s;
      GoesNowhere(chain, Alone(s, AtAction(owner, r, i)));
    } else {
      var mid := ActionSucceeds(chain, s, owner, r, i);
      s' := LoopSucceeds(chain, mid, owner, r, i + 1);
      GoesOn(chain, Alone(s, AtAction(owner, r, i)), Alone(mid, AtAction(owner, r, i + 1)),
             Alone(s', AtAction(owner, r, |Actions(r)|)));
    }
  }

  // ---------- a worker and a resolver ----------

  // A worker handles an entry and deletes it.
  lemma WorkerSucceeds(chain: Chain, s: Stores, entry: nat) returns (s': Stores)
    requires entry in s.live && entry < |s.log| && s.log[entry].Some? && Playable(chain, s.log[entry].value)
    ensures Goes(chain, Idle(s), Idle(s')) && SameBut(s.(live := s.live - {entry}), s')
  {
    hide Playable, Goes;
    var r, owner := s.log[entry].value, Stream([entry]);
    var n := |Actions(r)|;
    Step(chain, Idle(s), Reads(0, [entry]));
    assert Apply(chain, Idle(s), Reads(0, [entry])) == Alone(s, Waiting(owner));
    Succeed(chain, s, Waiting(owner), NO);
    var t := LoopSucceeds(chain, s, owner, r, 0);
    s' := Remove(t, entry);
    Succeed(chain, t, Running(owner, r, Finish), NO);
    Succeed(chain, t, Running(owner, r, Delete), NO);
    GoesOn(chain, Idle(s), Alone(s, Waiting(owner)), Alone(s, AtAction(owner, r, 0)));
    GoesOn(chain, Idle(s), Alone(s, AtAction(owner, r, 0)), Alone(t, AtAction(owner, r, n)));
    GoesOn(chain, Idle(s), Alone(t, Running(owner, r, Finish)), Alone(t, Running(owner, r, Delete)));
    GoesOn(chain, Idle(s), Alone(t, Running(owner, r, Delete)), Idle(s'));
  }

  function ErrorsIn(s: Stores, medium: Medium): Errors {
    if medium == ViaPostgres then s.postgres else s.dynamo
  }

  // A resolver that reads an open error from either store replays and marks it.
  lemma ResolverSucceeds(chain: Chain, s: Stores, medium: Medium, id: string) returns (s': Stores)
    requires var errors := ErrorsIn(s, medium);
      && id in errors && errors[id].status != Resolved
      && errors[id].receipt.Some? && Playable(chain, errors[id].receipt.value)
    requires id in s.dynamo
    ensures Goes(chain, Idle(s), Idle(s')) && s'.log == s.log && s'.live == s.live
    ensures s'.dynamo == s.dynamo[id := s.dynamo[id].(status := Resolved)]
    ensures s'.postgres ==
      if id in s.postgres then s.postgres[id := s.postgres[id].(status := Resolved)] else s.postgres
  {
    hide Playable, Goes;
    var r, owner := ErrorsIn(s, medium)[id].receipt.value, Resolver(id);
    var n := |Actions(r)|;
    Step(chain, Idle(s), Retries(0, id));
    assert Apply(chain, Idle(s), Retries(0, id)) == Alone(s, Waiting(owner));
    Succeed(chain, s, Waiting(owner), Answer(false, medium == ViaPostgres, []));
    var t := LoopSucceeds(chain, s, owner, r, 0);
    var u := MarkDynamo(t, id);
    s' := MarkPostgres(u, id);
    Succeed(chain, t, Running(owner, r, Mark(UnlistOpenId)), NO);
    Succeed(chain, t, Running(owner, r, Mark(MarkInDynamo)), NO);
    Succeed(chain, u, Running(owner, r, Mark(MarkInPostgres)), NO);
    GoesOn(chain, Idle(s), Alone(s, Waiting(owner)), Alone(s, AtAction(owner, r, 0)));
    GoesOn(chain, Idle(s), Alone(s, AtAction(owner, r, 0)), Alone(t, AtAction(owner, r, n)));
    GoesOn(chain, Idle(s), Alone(t, Running(owner, r, Mark(UnlistOpenId))),
           Alone(t, Running(owner, r, Mark(MarkInDynamo))));
    GoesOn(chain, Idle(s), Alone(t, Running(owner, r, Mark(MarkInDynamo))),
           Alone(u, Running(owner, r, Mark(MarkInPostgres))));
    GoesOn(chain, Idle(s), Alone(u, Running(owner, r, Mark(MarkInPostgres))), Idle(s'));
  }

  // ---------- all of it ----------

  // Every entry is parsed, and the amounts of every action that did not fail can be read.
  ghost predicate Readable(chain: Chain, s: Stores) {
    && (forall id :: 0 <= id < |s.log| ==> s.log[id].Some?)
    && forall a :: Original(chain, s, a) ==> a.failed || CanFund(chain, a)
  }

  // Every process may disappear.
  lemma {:induction false} AllCrash(chain: Chain, st: State)
    ensures Goes(chain, st, Idle(st.stores))
    decreases |st.processes|
  {
    if st.processes == map[] {
      GoesNowhere(chain, st);
    } else {
      var id :| id in st.processes;
      var next := st.(processes := st.processes - {id});
      Step(chain, st, Crashes(id));
      Fewer(st.processes, id);
      AllCrash(chain, next);
      GoesOn(chain, st, next, Idle(st.stores));
    }
  }

  lemma Fewer<K, V>(m: map<K, V>, key: K)
    requires key in m
    ensures |m - {key}| < |m|
  {
    assert (m - {key}).Keys == m.Keys - {key};
  }

  lemma AppendedPlays(chain: Chain, s: Stores, q: Receipt, r: Receipt)
    requires Readable(chain, s) && Appended(s, r) && FormOf(q, r)
    ensures Playable(chain, q)
  {
    hide Cast, CanFund, FormOf;
    FormCasts(chain, q, r);
    forall i | 0 <= i < |Actions(q)| ensures Cast(chain, q, i).failed || CanFund(chain, Cast(chain, q, i)) {
      assert Original(chain, s, Cast(chain, r, i));
      FundAlike(chain, Cast(chain, q, i), Cast(chain, r, i));
    }
  }

  lemma FundAlike(chain: Chain, a: TransactionAction, c: TransactionAction)
    requires Replayed(a, c)
    ensures a.failed == c.failed && (CanFund(chain, a) <==> CanFund(chain, c))
  {
    ReplayedKeepsRecords(chain, a, c);
    hide FundsOf;
    assert FundsAlike(FundsOf(chain, a, DepositFunds), FundsOf(chain, c, DepositFunds));
    assert FundsAlike(FundsOf(chain, a, TokenFunds), FundsOf(chain, c, TokenFunds));
  }

  // The workers empty the stream.
  lemma {:induction false} StreamEmpties(chain: Chain, s: Stores) returns (s': Stores)
    requires Reachable(chain, Idle(s)) && Readable(chain, s)
    ensures Goes(chain, Idle(s), Idle(s')) && SameBut(s.(live := {}), s')
    decreases |s.live|
  {
    if s.live == {} {
      s' := s;
      GoesNowhere(chain, Idle(s));
    } else {
      var entry :| entry in s.live;
      ReachableInv(chain, Idle(s));
      LiveIsLogged(chain, s, entry);
      hide Goes, Reachable, Readable;
      AppendedPlays(chain, s, s.log[entry].value, s.log[entry].value);
      var mid := WorkerSucceeds(chain, s, entry);
      StaysReachable(chain, Idle(s), Idle(mid));
      ReadableStays(chain, s, mid);
      s' := StreamEmpties(chain, mid);
      GoesOn(chain, Idle(s), Idle(mid), Idle(s'));
    }
  }

  lemma LiveIsLogged(chain: Chain, s: Stores, entry: nat)
    requires Inv(chain, s) && entry in s.live && Readable(chain, s)
    ensures entry < |s.log| && s.log[entry].Some? && Appended(s, s.log[entry].value)
    ensures FormOf(s.log[entry].value, s.log[entry].value)
  {}

  lemma ReadableStays(chain: Chain, s: Stores, s': Stores)
    requires Readable(chain, s) && s'.log == s.log
    ensures Readable(chain, s')
  {
    forall a | Original(chain, s', a) ensures Original(chain, s, a) {
      var r, i: nat :| Appended(s', r) && i < |Actions(r)| && a == Cast(chain, r, i);
      assert Appended(s, r);
    }
  }

  ghost function OpenIn(errors: Errors): set<string> {
    set id | id in errors && errors[id].status != Resolved
  }

  // The ids of the errors open in one of the stores.
  ghost function OpenIds(s: Stores): set<string> {
    OpenIn(s.dynamo) + OpenIn(s.postgres)
  }

  lemma OneLess(s: Stores, s': Stores, id: string)
    requires id in s.dynamo && id in OpenIds(s)
    requires s'.dynamo == s.dynamo[id := s.dynamo[id].(status := Resolved)]
    requires s'.postgres ==
      if id in s.postgres then s.postgres[id := s.postgres[id].(status := Resolved)] else s.postgres
    ensures OpenIds(s') == OpenIds(s) - {id}
  {
    assert OpenIn(s'.dynamo) == OpenIn(s.dynamo) - {id};
    assert OpenIn(s'.postgres) == OpenIn(s.postgres) - {id};
  }

  lemma OpenResolves(chain: Chain, s: Stores, id: string) returns (s': Stores)
    requires Inv(chain, s) && Readable(chain, s) && id in OpenIds(s)
    ensures Goes(chain, Idle(s), Idle(s')) && s'.log == s.log && s'.live == s.live
    ensures OpenIds(s') == OpenIds(s) - {id}
  {
    hide Goes, Readable, Inv, Playable;
    var medium := if id in OpenIn(s.dynamo) then ViaDynamo else ViaPostgres;
    ErrorPlays(chain, s, medium, id);
    s' := ResolverSucceeds(chain, s, medium, id);
    OneLess(s, s', id);
  }

  // The resolvers resolve every error.
  lemma {:induction false} ErrorsResolve(chain: Chain, s: Stores) returns (s': Stores)
    requires Reachable(chain, Idle(s)) && Readable(chain, s)
    ensures Goes(chain, Idle(s), Idle(s')) && s'.log == s.log && s'.live == s.live && OpenIds(s') == {}
    decreases |OpenIds(s)|
  {
    if OpenIds(s) == {} {
      s' := s;
      GoesNowhere(chain, Idle(s));
    } else {
      var id :| id in OpenIds(s);
      ReachableInv(chain, Idle(s));
      hide Goes, Reachable, Readable, Inv, Playable;
      var mid := OpenResolves(chain, s, id);
      StaysReachable(chain, Idle(s), Idle(mid));
      ReadableStays(chain, s, mid);
      s' := ErrorsResolve(chain, mid);
      GoesOn(chain, Idle(s), Idle(mid), Idle(s'));
    }
  }

  lemma ErrorPlays(chain: Chain, s: Stores, medium: Medium, id: string)
    requires Inv(chain, s) && id in ErrorsIn(s, medium) && Readable(chain, s)
    ensures var e := ErrorsIn(s, medium)[id]; e.receipt.Some? && Playable(chain, e.receipt.value)
    ensures id in s.dynamo
  {
    hide Readable, Playable;
    var r :| Carries(chain, s, id, ErrorsIn(s, medium)[id], r, medium);
    StoredIsForm(r, medium);
    AppendedPlays(chain, s, StoredForm(r, medium), r);
  }

  // Some run drains what is there, and resolves every error in both stores.
  ghost predicate CanDrain(chain: Chain, st: State) {
    exists st' ::
      Goes(chain, st, st') && st'.stores.log == st.stores.log
      && Drained(chain, st', st'.stores.dynamo) && Drained(chain, st', st'.stores.postgres)
  }

  lemma ReadableDrains(chain: Chain, st: State)
    requires Reachable(chain, st) && Readable(chain, st.stores)
    ensures CanDrain(chain, st)
  {
    AllCrash(chain, st);
    StaysReachable(chain, st, Idle(st.stores));
    var t := StreamEmpties(chain, st.stores);
    StaysReachable(chain, Idle(st.stores), Idle(t));
    ReadableStays(chain, st.stores, t);
    var u := ErrorsResolve(chain, t);
    StaysReachable(chain, Idle(t), Idle(u));
    GoesOn(chain, st, Idle(st.stores), Idle(t));
    GoesOn(chain, st, Idle(t), Idle(u));
    hide Goes, Reachable;
    assert forall id :: id in u.dynamo && u.dynamo[id].status != Resolved ==> id in OpenIds(u);
    assert forall id :: id in u.postgres && u.postgres[id].status != Resolved ==> id in OpenIds(u);
    assert Drained(chain, Idle(u), u.dynamo) && Drained(chain, Idle(u), u.postgres);
  }

  // ---------- and no other ----------

  // An entry that is no JSON stays in the stream for ever.
  ghost predicate UnparsedStay(s: Stores) {
    forall id :: 0 <= id < |s.log| && s.log[id].None? ==> id in s.live
  }

  lemma UnparsedStep(chain: Chain, st: State, e: Event)
    requires StateInv(chain, st) && Allowed(chain, st, e) && UnparsedStay(st.stores)
    ensures UnparsedStay(Apply(chain, st, e).stores)
  {
    hide Inv, Cast, SaveFunds, SaveLedger, StoredForm, FundsOf;
    if (e.Succeeds? || e.Rejects?) && e.id in st.processes {
      var p := st.processes[e.id];
      assert Fine(chain, st.stores, p);
      PerformLeavesLog(chain, st.stores, p, e.answer);
    }
  }

  lemma PerformLeavesLog(chain: Chain, s: Stores, p: Process, answer: Answer)
    requires Fine(chain, s, p)
    ensures var s' := Perform(chain, s, p, answer);
      s'.log == s.log && forall id :: id in s.live && id !in s'.live ==> id < |s.log| && s.log[id].Some?
  {
    if p.Running? && p.pc.Act? {
      ActionLeavesStream(chain, s, Cast(chain, p.receipt, p.pc.i), p.pc.stage, answer.results);
    }
    hide PerformAction, Cast, StoredForm, PcFine;
  }

  lemma ActionLeavesStream(chain: Chain, s: Stores, a: TransactionAction, stage: Stage, results: seq<Cell>)
    ensures SameBut(s, PerformAction(chain, s, a, stage, results))
  {
    hide FundsOf;
  }

  lemma {:induction false} UnparsedRun(chain: Chain, st: State, events: seq<Event>, st': State)
    requires StateInv(chain, st) && UnparsedStay(st.stores) && Leads(chain, st, events, st')
    ensures UnparsedStay(st'.stores)
    decreases |events|
  {
    if events != [] {
      hide StateInv, UnparsedStay, Apply;
      EventKeeps(chain, st, events[0]);
      UnparsedStep(chain, st, events[0]);
      UnparsedRun(chain, Apply(chain, st, events[0]), events[1..], st');
    }
  }

  lemma DrainedIsReadable(chain: Chain, st: State, errors: Errors)
    requires Drained(chain, st, errors)
    ensures Readable(chain, st.stores)
  {
    var s := st.stores;
    ReachableInv(chain, st);
    EmptyInv(chain);
    var events :| Leads(chain, INITIAL, events, st);
    UnparsedRun(chain, INITIAL, events, st);
    forall a | Original(chain, s, a) ensures a.failed || CanFund(chain, a) {
      var r, i: nat :| Appended(s, r) && i < |Actions(r)| && a == Cast(chain, r, i);
      DrainedMeansDone(chain, st, errors, r);
      if !a.failed {
        DoneIsFundable(chain, s, a);
      }
    }
  }

  lemma DoneIsFundable(chain: Chain, s: Stores, a: TransactionAction)
    requires Inv(chain, s) && Original(chain, s, a) && LedgerKeyOf(a) in s.ledger
    ensures CanFund(chain, a)
  {
    InvLog(chain, s);
    hide Inv, Original, Known, LogOk, LedgerKeyOf;
    OriginalIsKnown(chain, s, a);
    forall kind ensures FundsOf(chain, a, kind).Returns? {
      var b := RowOf(chain, s, a, kind);
      LedgerKeyDeterminesSource(a, b);
      hide FundsOf;
      AlikeBySource(chain, s, a, b);
      assert FundsAlike(FundsOf(chain, a, kind), FundsOf(chain, b, kind));
    }
  }

  // From a reachable state some run drains what is there, exactly if all of it can be read.
  lemma DrainsExactly(chain: Chain, st: State)
    requires Reachable(chain, st)
    ensures CanDrain(chain, st) <==> Readable(chain, st.stores)
  {
    if Readable(chain, st.stores) {
      ReadableDrains(chain, st);
    }
    if CanDrain(chain, st) {
      var st' :| Goes(chain, st, st') && st'.stores.log == st.stores.log && Drained(chain, st', st'.stores.dynamo);
      DrainedIsReadable(chain, st', st'.stores.dynamo);
      ReadableStays(chain, st'.stores, st.stores);
    }
  }
}
