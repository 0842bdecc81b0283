/**
 * The aggregator's in-progress flags, and any number of overlapping runs that take and drop them. A run goes on
 * without interruption from one await to the next; every await may resolve or reject.
 */
module Aggregator {
  datatype Entry = Entry(timestamp: nat, isInProgress: bool)

  type Flags = map<string, Entry>

  predicate InProgress(flags: Flags, name: string) {
    name in flags && flags[name].isInProgress
  }

  // A flag that is set keeps its timestamp.
  function Started(flags: Flags, name: string, now: nat): Flags {
    if InProgress(flags, name) then flags else flags[name := Entry(now, true)]
  }

  function Stopped(flags: Flags, name: string): Flags {
    if name in flags then flags[name := flags[name].(isInProgress := false)] else flags
  }

  class AggregatorState {
    var aggregations: Flags

    constructor ()
      ensures aggregations == map[]
    {
      aggregations := map[];
    }

    predicate IsInProgress(name: string)
      reads this
    {
      InProgress(aggregations, name)
    }

    method StartAggregation(name: string, now: nat)
      modifies this
      ensures aggregations == Started(old(aggregations), name, now) && IsInProgress(name)
    {
      if !IsInProgress(name) {
        aggregations := aggregations[name := Entry(now, true)];
      }
    }

    method StopAggregation(name: string)
      modifies this
      ensures aggregations == Stopped(old(aggregations), name) && !IsInProgress(name)
    {
      if name in aggregations {
        aggregations := aggregations[name := aggregations[name].(isInProgress := false)];
      }
    }
  }

  // ---------- the runs ----------

  datatype Job = TokenPrice | DaoStatus | DaoStats | DaoById(daoId: string)

  function Name(job: Job): string {
    match job
    case TokenPrice => "token-price"
    case DaoStatus => "dao-status"
    case DaoStats => "dao-stats"
    case DaoById(id) => "dao-" + id
  }

  // How often a job awaits between taking its flag and dropping it.
  function Awaits(job: Job): nat {
    match job
    case TokenPrice => 3
    case DaoStatus => 2
    case DaoStats => 1
    case DaoById(_) => 4
  }

  // A run that waits, with `left` awaits to go; that failed and has not reached the catch of its caller; that has
  // dropped its flag and clears the cache (DaoStats only); or that failed at that.
  datatype Run = Working(job: Job, left: nat) | Failing(job: Job) | Clearing(job: Job) | FailingLate(job: Job)

  datatype Service = Service(flags: Flags, runs: map<nat, Run>)

  const IDLE := Service(map[], map[])

  datatype Event = Begins(id: nat, job: Job, now: nat) | Resolves(id: nat) | Rejects(id: nat) | Catches(id: nat)

  predicate Enabled(s: Service, e: Event) {
    match e
    case Begins(id, _, _) => id !in s.runs
    case Resolves(id) => id in s.runs && (s.runs[id].Working? || s.runs[id].Clearing?)
    case Rejects(id) => id in s.runs && (s.runs[id].Working? || s.runs[id].Clearing?)
    case Catches(id) => id in s.runs && (s.runs[id].Failing? || s.runs[id].FailingLate?)
  }

  function Next(s: Service, e: Event): Service
    requires Enabled(s, e)
  {
    match e
    case Begins(id, job, now) =>
      if InProgress(s.flags, Name(job)) then s
      else Service(Started(s.flags, Name(job), now), s.runs[id := Working(job, Awaits(job))])
    case Resolves(id) =>
      var run := s.runs[id];
      if run.Clearing? then s.(runs := s.runs - {id})
      else if run.left > 1 then s.(runs := s.runs[id := run.(left := run.left - 1)])
      else Service(Stopped(s.flags, Name(run.job)),
                   if run.job.DaoStats? then s.runs[id := Clearing(run.job)] else s.runs - {id})
    case Rejects(id) =>
      var run := s.runs[id];
      if run.Clearing? then s.(runs := s.runs[id := FailingLate(run.job)])
      else if run.job.DaoById? then Service(Stopped(s.flags, Name(run.job)), s.runs - {id})
      else s.(runs := s.runs[id := Failing(run.job)])
    case Catches(id) => Service(Stopped(s.flags, Name(s.runs[id].job)), s.runs - {id})
  }

  ghost predicate Runs(s: Service, events: seq<Event>, s': Service)
    decreases |events|
  {
    if events == [] then s' == s
    else Enabled(s, events[0]) && Runs(Next(s, events[0]), events[1..], s')
  }

  // The code between two awaits, over the flags' own object.
  class AggregatorService {
    const state: AggregatorState
    var runs: map<nat, Run>

    ghost function Now(): Service
      reads this, state
    {
      Service(state.aggregations, runs)
    }

    constructor ()
      ensures Now() == IDLE && fresh(state)
    {
      state := new AggregatorState();
      runs := map[];
    }

    // A job up to its first await; id names the run.
    method Begin(id: nat, job: Job, now: nat)
      requires Enabled(Now(), Begins(id, job, now))
      modifies this, state
      ensures Now() == Next(old(Now()), Begins(id, job, now))
    {
      if state.IsInProgress(Name(job)) {
        return;
      }
      state.StartAggregation(Name(job), now);
      runs := runs[id := Working(job, Awaits(job))];
    }

    method Resolve(id: nat)
      requires Enabled(Now(), Resolves(id))
      modifies this, state
      ensures Now() == Next(old(Now()), Resolves(id))
    {
      var run := runs[id];
      if run.Clearing? {
        runs := runs - {id};
      } else if run.left > 1 {
        runs := runs[id := run.(left := run.left - 1)];
      } else {
        state.StopAggregation(Name(run.job));
        runs := if run.job.DaoStats? then runs[id := Clearing(run.job)] else runs - {id};
      }
    }

    method Reject(id: nat)
      requires Enabled(Now(), Rejects(id))
      modifies this, state
      ensures Now() == Next(old(Now()), Rejects(id))
    {
      var run := runs[id];
      if run.Clearing? {
        runs := runs[id := FailingLate(run.job)];
      } else if run.job.DaoById? {
        state.StopAggregation(Name(run.job));
        runs := runs - {id};
      } else {
        runs := runs[id := Failing(run.job)];
      }
    }

    // The catch of the scheduled wrappers.
    method Catch(id: nat)
      requires Enabled(Now(), Catches(id))
      modifies this, state
      ensures Now() == Next(old(Now()), Catches(id))
    {
      state.StopAggregation(Name(runs[id].job));
      runs := runs - {id};
    }
  }

  // Two jobs share a flag exactly if they are one, or a DAO is called as a job over all DAOs is.
  ghost predicate ShareFlag(a: Job, b: Job) {
    || a == b
    || {a, b} == {DaoStatus, DaoById("status")}
    || {a, b} == {DaoStats, DaoById("stats")}
  }

  lemma NamesTellApart(a: Job, b: Job)
    ensures Name(a) == Name(b) <==> ShareFlag(a, b)
  {
    NameOfDao(a);
    NameOfDao(b);
    assert "token-price"[0] != "dao-"[0] && "dao-status"[4..] == "status" && "dao-stats"[4..] == "stats";
    assert |"status"| != |"stats"|;
    PairsOf(a, b);
  }

  lemma NameOfDao(job: Job)
    ensures job.DaoById? ==> Name(job)[4..] == job.daoId && Name(job)[..4] == "dao-"
    ensures job.DaoStatus? ==> Name(job) == "dao-" + "status"
    ensures job.DaoStats? ==> Name(job) == "dao-" + "stats"
  {}

  lemma PairsOf(a: Job, b: Job)
    ensures forall x: Job, y: Job :: {a, b} == {x, y} <==> (a == x && b == y) || (a == y && b == x)
  {
    forall x: Job, y: Job ensures {a, b} == {x, y} <==> (a == x && b == y) || (a == y && b == x) {
      assert a in {a, b} && b in {a, b} && x in {x, y} && y in {x, y};
    }
  }

  // ---------- mutual exclusion ----------

  // The run has taken the flag and not dropped it.
  predicate Active(s: Service, id: nat, name: string) {
    id in s.runs && (s.runs[id].Working? || s.runs[id].Failing?) && Name(s.runs[id].job) == name
  }

  ghost predicate AtMostOne(s: Service, name: string) {
    forall i: nat, j: nat :: Active(s, i, name) && Active(s, j, name) ==> i == j
  }

  // Never two, and the flag is set exactly when there is one.
  ghost predicate Exclusive(s: Service, name: string) {
    AtMostOne(s, name) && (InProgress(s.flags, name) <==> exists id: nat :: Active(s, id, name))
  }

  // A run that failed after dropping its flag drops it again, and another one has taken it meanwhile.
  ghost predicate TakesDown(s: Service, e: Event, name: string) {
    && e.Catches? && e.id in s.runs && s.runs[e.id].FailingLate? && Name(s.runs[e.id].job) == name
    && exists id: nat :: Active(s, id, name)
  }

  // It never happens in this run.
  ghost predicate NoneTakenDown(s: Service, events: seq<Event>, name: string)
    decreases |events|
  {
    events != [] ==>
      Enabled(s, events[0]) && !TakesDown(s, events[0], name) && NoneTakenDown(Next(s, events[0]), events[1..], name)
  }

  // The flag excludes in every state that the run passes.
  ghost predicate AlwaysExclusive(s: Service, events: seq<Event>, name: string)
    decreases |events|
  {
    && Exclusive(s, name)
    && (events != [] ==> Enabled(s, events[0]) && AlwaysExclusive(Next(s, events[0]), events[1..], name))
  }

  // What an event does to a flag: nothing, or its run takes it, or its run drops it.
  lemma Effect(s: Service, e: Event, name: string)
    requires Enabled(s, e) && Exclusive(s, name) && !TakesDown(s, e, name)
    ensures var s' := Next(s, e);
      || (InProgress(s'.flags, name) == InProgress(s.flags, name) && Active(s', e.id, name) == Active(s, e.id, name))
      || (!InProgress(s.flags, name) && InProgress(s'.flags, name) && Active(s', e.id, name))
      || (Active(s, e.id, name) && !InProgress(s'.flags, name) && !Active(s', e.id, name))
  {
    hide Name;
  }

  lemma OthersKept(s: Service, e: Event, name: string)
    requires Enabled(s, e)
    ensures forall id: nat :: id != e.id ==> (Active(Next(s, e), id, name) <==> Active(s, id, name))
  {
    hide Name;
  }

  // A step keeps the flag exclusive exactly if it takes none down.
  lemma StepKeepsExactly(s: Service, e: Event, name: string)
    requires Enabled(s, e) && Exclusive(s, name)
    ensures Exclusive(Next(s, e), name) <==> !TakesDown(s, e, name)
  {
    OthersKept(s, e, name);
    if TakesDown(s, e, name) {
      var id: nat :| Active(s, id, name);
      assert id != e.id && Active(Next(s, e), id, name) && !InProgress(Next(s, e).flags, name);
    } else {
      Effect(s, e, name);
      ExclusiveAfter(s, Next(s, e), e.id, name);
    }
  }

  lemma ExclusiveAfter(s: Service, s': Service, i: nat, name: string)
    requires Exclusive(s, name)
    requires forall id: nat :: id != i ==> (Active(s', id, name) <==> Active(s, id, name))
    requires (InProgress(s'.flags, name) == InProgress(s.flags, name) && Active(s', i, name) == Active(s, i, name))
      || (!InProgress(s.flags, name) && InProgress(s'.flags, name) && Active(s', i, name))
      || (Active(s, i, name) && !InProgress(s'.flags, name) && !Active(s', i, name))
    ensures Exclusive(s', name)
  {
    hide InProgress, Active;
    if id: nat :| Active(s, id, name) {
      assert Active(s', id, name) || id == i;
    }
    if id: nat :| Active(s', id, name) {
      assert Active(s, id, name) || id == i;
    }
  }

  lemma {:induction false} RunKeepsExactly(s: Service, events: seq<Event>, s': Service, name: string)
    requires Exclusive(s, name) && Runs(s, events, s')
    ensures AlwaysExclusive(s, events, name) <==> NoneTakenDown(s, events, name)
    ensures AlwaysExclusive(s, events, name) ==> Exclusive(s', name)
    decreases |events|
  {
    if events != [] {
      StepKeepsExactly(s, events[0], name);
      if !TakesDown(s, events[0], name) {
        RunKeepsExactly(Next(s, events[0]), events[1..], s', name);
      } else {
        NotAlways(Next(s, events[0]), events[1..], name);
      }
    }
  }

  lemma NotAlways(s: Service, events: seq<Event>, name: string)
    requires !Exclusive(s, name)
    ensures !AlwaysExclusive(s, events, name)
  {}

  // However the runs interleave and fail: the flag is set exactly when one run is active and never two are, in every
  // state passed, exactly if no run that failed after dropping it drops it again while another has it.
  lemma MutualExclusion(events: seq<Event>, s: Service, name: string)
    requires Runs(IDLE, events, s)
    ensures AlwaysExclusive(IDLE, events, name) <==> NoneTakenDown(IDLE, events, name)
    ensures NoneTakenDown(IDLE, events, name) ==> Exclusive(s, name)
  {
    RunKeepsExactly(IDLE, events, s, name);
  }

  // In every state of such a run a job is accepted, whatever else is running, exactly if no run that shares its flag
  // has taken it and not dropped it.
  lemma AcceptedExactly(events: seq<Event>, s: Service, id: nat, job: Job, now: nat)
    requires Runs(IDLE, events, s) && NoneTakenDown(IDLE, events, Name(job)) && id !in s.runs
    ensures var s' := Next(s, Begins(id, job, now));
      if forall i :: i in s.runs && ShareFlag(s.runs[i].job, job) ==> s.runs[i].Clearing? || s.runs[i].FailingLate?
      then Active(s', id, Name(job)) && s'.runs == s.runs[id := Working(job, Awaits(job))]
      else s' == s
  {
    hide Name, ShareFlag;
    MutualExclusion(events, s, Name(job));
    forall i | i in s.runs ensures Name(s.runs[i].job) == Name(job) <==> ShareFlag(s.runs[i].job, job) {
      NamesTellApart(s.runs[i].job, job);
    }
    if i :| i in s.runs && ShareFlag(s.runs[i].job, job) && !s.runs[i].Clearing? && !s.runs[i].FailingLate? {
      assert Active(s, i, Name(job));
    }
  }

  // A rejection while a run has the flag drops it at once for the job of one DAO; any other job has it until its catch.
  lemma RejectedRunHoldsOn(events: seq<Event>, s: Service, id: nat, name: string)
    requires Runs(IDLE, events, s) && NoneTakenDown(IDLE, events, name)
    requires id in s.runs && s.runs[id].Working? && Name(s.runs[id].job) == name
    ensures var s' := Next(s, Rejects(id));
      if s.runs[id].job.DaoById? then !InProgress(s'.flags, name) && id !in s'.runs
      else InProgress(s'.flags, name) && Active(s', id, name)
           && !InProgress(Next(s', Catches(id)).flags, name) && id !in Next(s', Catches(id)).runs
  {
    hide Name;
    MutualExclusion(events, s, name);
    assert Active(s, id, name);
  }

  // How long a job has its flag if all its awaits resolve: prices, funds and cache; statuses and cache; statistics; a
  // DAO, its proposals, its bounties and the other fields.
  ghost function Steps(job: Job): nat {
    match job
    case TokenPrice => 3
    case DaoStatus => 2
    case DaoStats => 1
    case DaoById(_) => 4
  }

  ghost function ResolvesOf(id: nat, k: nat): (events: seq<Event>)
    ensures |events| == k && forall i :: 0 <= i < k ==> events[i] == Resolves(id)
  {
    seq(k, i => Resolves(id))
  }

  ghost function WorkingAlone(id: nat, job: Job, now: nat, left: nat): Service {
    Service(map[Name(job) := Entry(now, true)], map[id := Working(job, left)])
  }

  lemma {:induction false} StillWorking(id: nat, job: Job, now: nat, left: nat, k: nat)
    requires k < left
    ensures Runs(WorkingAlone(id, job, now, left), ResolvesOf(id, k), WorkingAlone(id, job, now, left - k))
    decreases k
  {
    if k > 0 {
      var s, events := WorkingAlone(id, job, now, left), ResolvesOf(id, k);
      assert Next(s, events[0]) == WorkingAlone(id, job, now, left - 1);
      assert events[1..] == ResolvesOf(id, k - 1);
      StillWorking(id, job, now, left - 1, k - 1);
    }
  }

  // A job that begins on its own has its flag until so many awaits have resolved, and no longer.
  lemma RunsItsCourse(id: nat, job: Job, now: nat, k: nat) returns (s: Service)
    requires k <= Steps(job)
    ensures Runs(IDLE, [Begins(id, job, now)] + ResolvesOf(id, k), s)
    ensures InProgress(s.flags, Name(job)) <==> k < Steps(job)
  {
    hide Name;
    var begins := [Begins(id, job, now)];
    var n := if k < Steps(job) then k else k - 1;
    s := WorkingAlone(id, job, now, Steps(job) - n);
    assert (begins + ResolvesOf(id, n))[1..] == ResolvesOf(id, n);
    assert Next(IDLE, begins[0]) == WorkingAlone(id, job, now, Steps(job));
    StillWorking(id, job, now, Steps(job), n);
    if n < k {
      var last := Next(s, Resolves(id));
      RunsOn(IDLE, begins + ResolvesOf(id, n), s, Resolves(id));
      assert begins + ResolvesOf(id, n) + [Resolves(id)] == begins + ResolvesOf(id, k);
      s := last;
    }
  }

  lemma {:induction false} RunsOn(s: Service, events: seq<Event>, s': Service, e: Event)
    requires Runs(s, events, s') && Enabled(s', e)
    ensures Runs(s, events + [e], Next(s', e))
    decreases |events|
  {
    if events == [] {
      assert ([] + [e])[1..] == [];
      assert Runs(Next(s, e), [], Next(s, e));
    } else {
      assert (events + [e])[1..] == events[1..] + [e];
      RunsOn(Next(s, events[0]), events[1..], s', e);
    }
  }

  // Only the statistics await anything after dropping their flag.
  ghost predicate OnlyStatsClear(s: Service) {
    forall id :: id in s.runs && (s.runs[id].Clearing? || s.runs[id].FailingLate?) ==> s.runs[id].job.DaoStats?
  }

  lemma {:induction false} OthersNeverTakenDown(s: Service, events: seq<Event>, s': Service, name: string)
    requires OnlyStatsClear(s) && Runs(s, events, s') && name != "dao-stats"
    ensures NoneTakenDown(s, events, name)
    decreases |events|
  {
    if events != [] {
      assert OnlyStatsClear(Next(s, events[0]));
      OthersNeverTakenDown(Next(s, events[0]), events[1..], s', name);
    }
  }

  // A statistics run that fails at clearing the cache drops the flag of the next one, and a third one starts.
  lemma StatsOverlap() returns (events: seq<Event>, s: Service)
    ensures Runs(IDLE, events, s) && !AtMostOne(s, "dao-stats")
    ensures forall id :: id in s.runs ==> s.runs[id].job == DaoStats
  {
    var others := [Rejects(0), Catches(0), Begins(2, DaoStats, 0)];
    events := [Begins(0, DaoStats, 0), Resolves(0), Begins(1, DaoStats, 0)] + others;
    var stats := "dao-stats";
    var s3 := Service(map[stats := Entry(0, true)], map[0 := Clearing(DaoStats), 1 := Working(DaoStats, 1)]);
    s := Service(map[stats := Entry(0, true)], map[1 := Working(DaoStats, 1), 2 := Working(DaoStats, 1)]);
    LateOverlap(s3, others, s);
    var s1 := Service(map[stats := Entry(0, true)], map[0 := Working(DaoStats, 1)]);
    assert Next(IDLE, events[0]) == s1;
    var s2 := Service(map[stats := Entry(0, false)], map[0 := Clearing(DaoStats)]);
    assert Next(s1, events[1]) == s2;
    assert Next(s2, events[2]) == s3;
    assert events[3..] == others && events[1..][1..] == events[2..] && events[2..][1..] == events[3..];
    assert Runs(s2, events[2..], s) && Runs(s1, events[1..], s);
    assert Active(s, 1, "dao-stats") && Active(s, 2, "dao-stats");
  }

  lemma LateOverlap(s3: Service, others: seq<Event>, s: Service)
    requires s3 == Service(map["dao-stats" := Entry(0, true)], map[0 := Clearing(DaoStats), 1 := Working(DaoStats, 1)])
    requires others == [Rejects(0), Catches(0), Begins(2, DaoStats, 0)]
    requires s == Service(map["dao-stats" := Entry(0, true)], map[1 := Working(DaoStats, 1), 2 := Working(DaoStats, 1)])
    ensures Runs(s3, others, s)
  {
    var s4 := Next(s3, others[0]);
    assert Next(s4, others[1]) == Service(map["dao-stats" := Entry(0, false)], map[1 := Working(DaoStats, 1)]);
    assert Next(Next(s4, others[1]), others[2]) == s;
    assert others[1..][1..] == others[2..] && others[2..][1..] == [];
    assert Runs(Next(s4, others[1]), others[2..], s) && Runs(s4, others[1..], s);
  }

  ghost predicate Reachable(s: Service) {
    exists events :: Runs(IDLE, events, s)
  }

  // So the statistics' flag is the only one that does not always exclude.
  lemma ExclusiveExactly(name: string)
    ensures (forall s :: Reachable(s) ==> Exclusive(s, name)) <==> name != "dao-stats"
  {
    if name != "dao-stats" {
      forall s | Reachable(s) ensures Exclusive(s, name) {
        var events :| Runs(IDLE, events, s);
        OthersNeverTakenDown(IDLE, events, s, name);
        MutualExclusion(events, s, name);
      }
    } else {
      var events, s := StatsOverlap();
      assert Reachable(s);
      assert !Exclusive(s, name);
    }
  }
}
