/**
 * Daily balance of a DAO from its treasury receipts: sort, sum with sign per day, fill the days between.
 * The same computation serves NEAR deposits and token transfers.
 */
module DailyBalance {

  const DAY := 86400000  // milliseconds; days are UTC days

  datatype FundsReceipt = FundsReceipt(receiverId: string, amount: int, createTimestamp: nat)

  // Block timestamps are nanoseconds.
  function ParseBlockTimestamp(timestamp: nat): nat {
    timestamp / 1000000
  }

  function StartOfDay(millis: nat): nat {
    millis - millis % DAY
  }

  function Time(r: FundsReceipt): nat {
    ParseBlockTimestamp(r.createTimestamp)
  }

  // The number of the day a receipt falls on.
  function DayOf(r: FundsReceipt): nat {
    Time(r) / DAY
  }

  lemma StartOfDayIsDay(millis: nat)
    ensures StartOfDay(millis) == DayStart(millis / DAY) && StartOfDay(millis) / DAY == millis / DAY
  {}

  function Change(r: FundsReceipt, owner: string): int {
    if r.receiverId == owner then r.amount else -r.amount
  }

  // ---------- what the balance means ----------

  // All signed changes up to and including a day, whatever the order of the receipts.
  function RunningSum(receipts: seq<FundsReceipt>, owner: string, day: nat): int {
    if receipts == [] then 0
    else (if DayOf(receipts[0]) <= day then Change(receipts[0], owner) else 0) + RunningSum(receipts[1..], owner, day)
  }

  predicate HasReceipt(receipts: seq<FundsReceipt>, day: nat) {
    exists r :: r in receipts && DayOf(r) == day
  }

  // The last non-zero closing balance of a receipt day at or before this day; 0 if there is none.
  function LastNonZero(receipts: seq<FundsReceipt>, owner: string, day: nat): int {
    if HasReceipt(receipts, day) && RunningSum(receipts, owner, day) != 0 then RunningSum(receipts, owner, day)
    else if day == 0 then 0
    else LastNonZero(receipts, owner, day - 1)
  }

  // The grid reaches from the first receipt day (or a year ago) to today.
  predicate OnGrid(receipts: seq<FundsReceipt>, day: nat, today: nat, yearAgo: nat) {
    day <= today && if receipts == [] then yearAgo <= day else exists r :: r in receipts && DayOf(r) <= day
  }

  ghost function Days(receipts: seq<FundsReceipt>, today: nat, yearAgo: nat): set<nat> {
    (set r | r in receipts :: DayOf(r)) + (set day: nat | 0 <= day <= today && OnGrid(receipts, day, today, yearAgo))
  }

  // The balance of every day, by day number.
  ghost function Balances(receipts: seq<FundsReceipt>, owner: string, today: nat, yearAgo: nat): map<nat, int> {
    map day | day in Days(receipts, today, yearAgo)
      :: if day <= today then LastNonZero(receipts, owner, day) else RunningSum(receipts, owner, day)
  }

  // ---------- order does not matter ----------

  lemma {:induction false} RunningSumSplit(receipts: seq<FundsReceipt>, i: nat, owner: string, day: nat)
    requires i < |receipts|
    ensures RunningSum(receipts, owner, day)
         == RunningSum(receipts[..i] + receipts[i + 1..], owner, day) + RunningSum([receipts[i]], owner, day)
  {
    if i == 0 {
      assert receipts[..0] + receipts[1..] == receipts[1..];
    } else {
      RunningSumSplit(receipts[1..], i - 1, owner, day);
      var rest := receipts[..i] + receipts[i + 1..];
      assert rest[1..] == receipts[1..][..i - 1] + receipts[1..][i..];
    }
  }

  lemma SameRest(receipts: seq<FundsReceipt>, others: seq<FundsReceipt>, i: nat)
    requires multiset(receipts) == multiset(others) && receipts != [] && i < |others| && others[i] == receipts[0]
    ensures multiset(receipts[1..]) == multiset(others[..i] + others[i + 1..])
  {
    var r := receipts[0];
    assert others == others[..i] + [r] + others[i + 1..];
    assert receipts == [r] + receipts[1..];
    assert multiset(receipts[1..]) == multiset(receipts) - multiset{r};
  }

  lemma {:induction false} RunningSumPermutes(receipts: seq<FundsReceipt>, others: seq<FundsReceipt>, owner: string,
                                              day: nat)
    requires multiset(receipts) == multiset(others)
    ensures RunningSum(receipts, owner, day) == RunningSum(others, owner, day)
    decreases |receipts|
  {
    hide DayOf, Change;
    SameMembers(receipts, others);
    if receipts != [] {
      var r := receipts[0];
      assert r in others;
      var i :| 0 <= i < |others| && others[i] == r;
      var rest := others[..i] + others[i + 1..];
      SameRest(receipts, others, i);
      RunningSumSplit(others, i, owner, day);
      RunningSumPermutes(receipts[1..], rest, owner, day);
    }
  }

  lemma {:induction false} LastNonZeroPermutes(receipts: seq<FundsReceipt>, others: seq<FundsReceipt>, owner: string,
                                               day: nat)
    requires multiset(receipts) == multiset(others)
    ensures LastNonZero(receipts, owner, day) == LastNonZero(others, owner, day)
  {
    SameMembers(receipts, others);
    RunningSumPermutes(receipts, others, owner, day);
    if day > 0 {
      LastNonZeroPermutes(receipts, others, owner, day - 1);
    }
  }

  lemma SameMembers(receipts: seq<FundsReceipt>, others: seq<FundsReceipt>)
    requires multiset(receipts) == multiset(others)
    ensures forall r :: r in receipts <==> r in others
    ensures receipts == [] <==> others == []
  {
    assert forall r :: r in receipts <==> r in multiset(receipts);
    assert forall r :: r in others <==> r in multiset(others);
    assert |receipts| == |multiset(receipts)| == |others|;
  }

  // Any order of the paged input, equal timestamps included, gives the same daily balance.
  lemma OrderIsIrrelevant(receipts: seq<FundsReceipt>, others: seq<FundsReceipt>, owner: string, today: nat,
                          yearAgo: nat)
    requires multiset(receipts) == multiset(others)
    ensures Balances(receipts, owner, today, yearAgo) == Balances(others, owner, today, yearAgo)
  {
    SameMembers(receipts, others);
    assert Days(receipts, today, yearAgo) == Days(others, today, yearAgo);
    forall day | day in Days(receipts, today, yearAgo)
      ensures Balances(receipts, owner, today, yearAgo)[day] == Balances(others, owner, today, yearAgo)[day]
    {
      LastNonZeroPermutes(receipts, others, owner, day);
      RunningSumPermutes(receipts, others, owner, day);
    }
  }

  // ---------- when the balance is the running sum ----------

  lemma {:induction false} QuietDay(receipts: seq<FundsReceipt>, owner: string, day: nat)
    requires day > 0 && !HasReceipt(receipts, day)
    ensures RunningSum(receipts, owner, day) == RunningSum(receipts, owner, day - 1)
  {
    if receipts != [] {
      assert receipts[0] in receipts;
      forall r | r in receipts[1..] ensures DayOf(r) != day {
        assert r in receipts;
      }
      QuietDay(receipts[1..], owner, day);
    }
  }

  lemma {:induction false} NothingYet(receipts: seq<FundsReceipt>, owner: string, day: nat)
    requires forall r :: r in receipts ==> DayOf(r) > day
    ensures RunningSum(receipts, owner, day) == 0 && LastNonZero(receipts, owner, day) == 0
    decreases day, |receipts|
  {
    RunningSumZero(receipts, owner, day);
    if day > 0 {
      NothingYet(receipts, owner, day - 1);
    }
  }

  lemma {:induction false} RunningSumZero(receipts: seq<FundsReceipt>, owner: string, day: nat)
    requires forall r :: r in receipts ==> DayOf(r) > day
    ensures RunningSum(receipts, owner, day) == 0
  {
    if receipts != [] {
      assert receipts[0] in receipts;
      forall r | r in receipts[1..] ensures DayOf(r) > day {
        assert r in receipts;
      }
      RunningSumZero(receipts[1..], owner, day);
    }
  }

  ghost predicate ClosesAt(receipts: seq<FundsReceipt>, owner: string, day: nat, nonZero: bool) {
    HasReceipt(receipts, day) && (RunningSum(receipts, owner, day) != 0 <==> nonZero)
  }

  // The value reported for a day is the sum of all changes so far, exactly when that sum is not zero or no
  // receipt day so far closed at anything but zero.
  lemma {:induction false} ReportedIsSum(receipts: seq<FundsReceipt>, owner: string, day: nat)
    ensures LastNonZero(receipts, owner, day) == RunningSum(receipts, owner, day)
      <==> RunningSum(receipts, owner, day) != 0 || forall e :: 0 <= e <= day ==> !ClosesAt(receipts, owner, e, true)
    ensures LastNonZero(receipts, owner, day) == 0 <==> forall e ::
      0 <= e <= day ==> !ClosesAt(receipts, owner, e, true)
  {
    assert ClosesAt(receipts, owner, day, true) <==> HasReceipt(receipts, day) && RunningSum(receipts, owner, day) != 0;
    if day == 0 {
      if !HasReceipt(receipts, 0) {
        forall r | r in receipts ensures DayOf(r) > 0 {}
        RunningSumZero(receipts, owner, 0);
      }
    } else {
      ReportedIsSum(receipts, owner, day - 1);
      if !HasReceipt(receipts, day) {
        QuietDay(receipts, owner, day);
      }
      if !ClosesAt(receipts, owner, day, true) {
        assert LastNonZero(receipts, owner, day) == LastNonZero(receipts, owner, day - 1);
      }
    }
  }

  // The whole map agrees with the running sum exactly when no receipt day up to today closes at zero after an
  // earlier one closed at something else.
  lemma BalancesAreSums(receipts: seq<FundsReceipt>, owner: string, today: nat, yearAgo: nat)
    ensures (forall day :: day in Balances(receipts, owner, today, yearAgo) ==>
               Balances(receipts, owner, today, yearAgo)[day] == RunningSum(receipts, owner, day))
      <==> !exists d, e ::
        0 <= d < e <= today && ClosesAt(receipts, owner, d, true) && ClosesAt(receipts, owner, e, false)
  {
    var balances := Balances(receipts, owner, today, yearAgo);
    if d, e :| 0 <= d < e <= today && ClosesAt(receipts, owner, d, true) && ClosesAt(receipts, owner, e, false) {
      ReportedIsSum(receipts, owner, e);
      assert e in balances && balances[e] != RunningSum(receipts, owner, e);
    } else {
      forall day | day in balances ensures balances[day] == RunningSum(receipts, owner, day) {
        if day <= today && RunningSum(receipts, owner, day) == 0 {
          LastCloseDecides(receipts, owner, day);
          ReportedIsSum(receipts, owner, day);
        }
        if day <= today {
          ReportedIsSum(receipts, owner, day);
        }
      }
    }
  }

  // If the sum is zero today though some receipt day closed at something else, a later receipt day closed at zero.
  lemma {:induction false} LastCloseDecides(receipts: seq<FundsReceipt>, owner: string, day: nat)
    requires RunningSum(receipts, owner, day) == 0
    ensures (exists d :: 0 <= d <= day && ClosesAt(receipts, owner, d, true)) ==>
      exists d, e :: 0 <= d < e <= day && ClosesAt(receipts, owner, d, true) && ClosesAt(receipts, owner, e, false)
  {
    if d :| 0 <= d <= day && ClosesAt(receipts, owner, d, true) {
      if HasReceipt(receipts, day) {
        assert ClosesAt(receipts, owner, day, false);
      } else if day > 0 {
        QuietDay(receipts, owner, day);
        LastCloseDecides(receipts, owner, day - 1);
      }
    }
  }

  // A day that closes at zero is reported at the balance before it.
  lemma ZeroIsForgotten()
    ensures var receipts := [FundsReceipt("dao", 5, 0), FundsReceipt("x", 5, 86400000000000)];
      Balances(receipts, "dao", 1, 0) == map[0 := 5, 1 := 5] && RunningSum(receipts, "dao", 1) == 0
  {
    var income, spending := FundsReceipt("dao", 5, 0), FundsReceipt("x", 5, 86400000000000);
    var receipts := [income, spending];
    assert DayOf(income) == 0 && DayOf(spending) == 1;
    assert receipts[1..] == [spending] && receipts[1..][1..] == [];
    assert RunningSum([spending], "dao", 0) == 0 && RunningSum([spending], "dao", 1) == -5 by {
      assert [spending][1..] == [];
    }
    assert RunningSum(receipts, "dao", 0) == 5 && RunningSum(receipts, "dao", 1) == 0;
    assert income in receipts && spending in receipts;
    assert HasReceipt(receipts, 0);
    assert Days(receipts, 1, 0) == {0, 1};
  }

  // ---------- the code ----------

  // Array.prototype.sort by time: stable, and a permutation.
  function Insert(r: FundsReceipt, sorted: seq<FundsReceipt>): (s: seq<FundsReceipt>)
    ensures multiset(s) == multiset(sorted) + multiset{r}
  {
    if sorted == [] || Time(r) <= Time(sorted[0]) then [r] + sorted
    else
      assert sorted == [sorted[0]] + sorted[1..];
      [sorted[0]] + Insert(r, sorted[1..])
  }

  function Sort(receipts: seq<FundsReceipt>): (s: seq<FundsReceipt>)
    ensures multiset(s) == multiset(receipts)
  {
    if receipts == [] then []
    else
      assert receipts == [receipts[0]] + receipts[1..];
      Insert(receipts[0], Sort(receipts[1..]))
  }

  ghost predicate Sorted(receipts: seq<FundsReceipt>) {
    forall i, j :: 0 <= i < j < |receipts| ==> Time(receipts[i]) <= Time(receipts[j])
  }

  lemma {:induction false} InsertSorts(r: FundsReceipt, sorted: seq<FundsReceipt>)
    requires Sorted(sorted)
    ensures Sorted(Insert(r, sorted))
  {
    if sorted != [] && Time(r) > Time(sorted[0]) {
      var rest := Insert(r, sorted[1..]);
      InsertSorts(r, sorted[1..]);
      forall q | q in rest ensures Time(sorted[0]) <= Time(q) {
        assert q in multiset(rest);
        if q != r {
          assert q in multiset(sorted[1..]) && q in sorted[1..];
        }
      }
    }
  }

  lemma {:induction false} SortSorts(receipts: seq<FundsReceipt>)
    ensures Sorted(Sort(receipts))
  {
    if receipts != [] {
      SortSorts(receipts[1..]);
      InsertSorts(receipts[0], Sort(receipts[1..]));
    }
  }

  lemma {:induction false} RunningSumSnoc(receipts: seq<FundsReceipt>, r: FundsReceipt, owner: string, day: nat)
    ensures RunningSum(receipts + [r], owner, day)
         == RunningSum(receipts, owner, day) + (if DayOf(r) <= day then Change(r, owner) else 0)
  {
    if receipts == [] {
      assert receipts + [r] == [r] && [r][1..] == [];
    } else {
      assert (receipts + [r])[1..] == receipts[1..] + [r];
      RunningSumSnoc(receipts[1..], r, owner, day);
    }
  }

  // Once every receipt so far is on or before a day, the balance so far is that day's sum.
  lemma {:induction false} RunningSumFull(receipts: seq<FundsReceipt>, owner: string, day: nat, later: nat)
    requires day <= later && forall r :: r in receipts ==> DayOf(r) <= day
    ensures RunningSum(receipts, owner, day) == RunningSum(receipts, owner, later)
  {
    if receipts != [] {
      assert receipts[0] in receipts;
      forall r | r in receipts[1..] ensures DayOf(r) <= day {
        assert r in receipts;
      }
      RunningSumFull(receipts[1..], owner, day, later);
    }
  }

  function DayStart(day: nat): nat {
    day * DAY
  }

  // The record as the code keeps it: by the millisecond a day starts at.
  ghost predicate Represents(values: map<nat, int>, days: map<nat, int>) {
    && (forall t :: t in values ==> exists day :: day in days && DayStart(day) == t)
    && (forall day :: day in days ==> DayStart(day) in values && values[DayStart(day)] == days[day])
  }

  // The closing balance of every receipt day.
  ghost function Closings(receipts: seq<FundsReceipt>, owner: string): map<nat, int> {
    map day | day in (set r | r in receipts :: DayOf(r)) :: RunningSum(receipts, owner, day)
  }

  lemma ClosingsSnoc(receipts: seq<FundsReceipt>, r: FundsReceipt, owner: string)
    requires forall q :: q in receipts ==> DayOf(q) <= DayOf(r)
    ensures Closings(receipts + [r], owner)
         == Closings(receipts, owner)[DayOf(r) := RunningSum(receipts, owner, DayOf(r)) + Change(r, owner)]
  {
    hide RunningSum, DayOf, Change;
    var longer := receipts + [r];
    assert forall q :: q in longer <==> q in receipts || q == r;
    forall day | day in Closings(longer, owner)
      ensures RunningSum(longer, owner, day)
        == RunningSum(receipts, owner, day) + (if DayOf(r) <= day then Change(r, owner) else 0)
    {
      RunningSumSnoc(receipts, r, owner, day);
    }
  }

  // The reduce over the sorted receipts: each receipt day holds its closing balance. `keys` lists the days as inserted.
  method SumPerDay(receipts: seq<FundsReceipt>, owner: string) returns (values: map<nat, int>, keys: seq<nat>)
    requires Sorted(receipts)
    ensures Represents(values, Closings(receipts, owner))
    ensures if receipts == [] then keys == [] else keys != [] && keys[0] == DayStart(DayOf(receipts[0]))
  {
    hide RunningSum, Change, DayOf, DayStart, Closings, StartOfDay;
    values, keys := map[], [];
    var balance, i := 0, 0;
    BalanceSoFar(receipts, owner, 0, 0);
    NoClosings(owner);
    while i < |receipts|
      invariant i <= |receipts|
      invariant i < |receipts| ==> balance == RunningSum(receipts[..i], owner, DayOf(receipts[i]))
      invariant Represents(values, Closings(receipts[..i], owner))
      invariant if i == 0 then keys == [] else keys != [] && keys[0] == DayStart(DayOf(receipts[0]))
    {
      var r := receipts[i];
      var timestamp := StartOfDay(ParseBlockTimestamp(r.createTimestamp));
      EarlierDays(receipts, i);
      ClosingsSnoc(receipts[..i], r, owner);
      assert receipts[..i + 1] == receipts[..i] + [r];
      BalanceSoFar(receipts, owner, i, balance);
      StartOfReceiptDay(r);
      RepresentsOne(values, Closings(receipts[..i], owner), DayOf(r), balance + Change(r, owner));
      balance := balance + Change(r, owner);
      if timestamp !in values {
        keys := keys + [timestamp];
      }
      values := values[timestamp := balance];
      i := i + 1;
    }
    assert receipts[..i] == receipts;
  }

  lemma NoClosings(owner: string)
    ensures Represents(map[], Closings([], owner))
  {}

  lemma StartOfReceiptDay(r: FundsReceipt)
    ensures StartOfDay(ParseBlockTimestamp(r.createTimestamp)) == DayStart(DayOf(r))
  {
    StartOfDayIsDay(Time(r));
  }

  lemma RepresentsOne(values: map<nat, int>, days: map<nat, int>, day: nat, balance: int)
    requires Represents(values, days)
    ensures Represents(values[DayStart(day) := balance], days[day := balance])
  {
    var values', days' := values[DayStart(day) := balance], days[day := balance];
    forall t | t in values' ensures exists d :: d in days' && DayStart(d) == t {
      if t == DayStart(day) {
        assert day in days';
      } else {
        var d :| d in days && DayStart(d) == t;
        assert d in days';
      }
    }
  }

  lemma EarlierDays(receipts: seq<FundsReceipt>, i: nat)
    requires Sorted(receipts) && i < |receipts|
    ensures forall q :: q in receipts[..i] ==> DayOf(q) <= DayOf(receipts[i])
  {
    forall q | q in receipts[..i] ensures DayOf(q) <= DayOf(receipts[i]) {
      var j :| 0 <= j < i && receipts[j] == q;
      assert Time(q) <= Time(receipts[i]);
    }
  }

  // The balance carried past receipt i is the sum of all before receipt i + 1, on that receipt's day.
  lemma BalanceSoFar(receipts: seq<FundsReceipt>, owner: string, i: nat, balance: int)
    requires Sorted(receipts)
    requires i < |receipts| && 0 < i ==> balance == RunningSum(receipts[..i], owner, DayOf(receipts[i]))
    requires i == 0 ==> balance == 0
    ensures receipts != [] && i == 0 ==> RunningSum(receipts[..0], owner, DayOf(receipts[0])) == 0
    ensures i + 1 < |receipts| ==>
      balance + Change(receipts[i], owner) == RunningSum(receipts[..i + 1], owner, DayOf(receipts[i + 1]))
  {
    if i + 1 < |receipts| {
      EarlierDays(receipts, i);
      EarlierDays(receipts, i + 1);
      assert receipts[..i + 1] == receipts[..i] + [receipts[i]];
      RunningSumSnoc(receipts[..i], receipts[i], owner, DayOf(receipts[i + 1]));
      assert receipts[i] in receipts[..i + 1];
      RunningSumFull(receipts[..i], owner, DayOf(receipts[i]), DayOf(receipts[i + 1]));
    }
  }

  // getDays: the start of every day from `from` to `to`.
  method GetDays(from: nat, to: nat) returns (days: seq<nat>)
    ensures from / DAY <= to / DAY + 1 ==> |days| == to / DAY + 1 - from / DAY
    ensures from / DAY > to / DAY ==> days == []
    ensures forall k :: 0 <= k < |days| ==> days[k] == DayStart(from / DAY + k)
  {
    days := [];
    StartOfDayIsDay(from);
    var time := StartOfDay(from);
    while time <= to
      invariant time == DayStart(from / DAY + |days|)
      invariant |days| > 0 ==> time <= to + DAY
      invariant forall k :: 0 <= k < |days| ==> days[k] == DayStart(from / DAY + k)
    {
      days := days + [time];
      time := time + DAY;
    }
  }

  // The first day of the grid.
  ghost predicate FirstDay(receipts: seq<FundsReceipt>, first: nat, yearAgo: nat) {
    if receipts == [] then first == yearAgo / DAY
    else (exists r :: r in receipts && DayOf(r) == first) && forall r :: r in receipts ==> first <= DayOf(r)
  }

  lemma DayStartDivides(day: nat)
    ensures DayStart(day) / DAY == day
  {}

  predicate Between(first: nat, day: nat, next: nat) {
    first <= day < next
  }

  // The balances while the fill has passed the days before `next`.
  ghost function Partial(receipts: seq<FundsReceipt>, owner: string, first: nat, next: nat): map<nat, int> {
    map day |
      day in (set r | r in receipts :: DayOf(r)) + (set day: nat | first <= day < next && Between(first, day, next))
      :: if first <= day < next then LastNonZero(receipts, owner, day) else RunningSum(receipts, owner, day)
  }

  lemma PartialIsAll(receipts: seq<FundsReceipt>, owner: string, first: nat, next: nat, today: nat, yearAgo: nat)
    requires next == today + 1 || (first > today && next == first)
    requires FirstDay(receipts, first, yearAgo)
    ensures Partial(receipts, owner, first, next) == Balances(receipts, owner, today, yearAgo / DAY)
  {
    forall day: nat
      ensures day in Partial(receipts, owner, first, next) <==> day in Days(receipts, today, yearAgo / DAY)
    {
      assert Between(first, day, next) <==> OnGrid(receipts, day, today, yearAgo / DAY);
    }
    assert Partial(receipts, owner, first, next).Keys == Days(receipts, today, yearAgo / DAY);
  }

  lemma PartialStep(receipts: seq<FundsReceipt>, owner: string, first: nat, next: nat)
    requires first <= next
    ensures Partial(receipts, owner, first, next + 1)
         == Partial(receipts, owner, first, next)[next := LastNonZero(receipts, owner, next)]
  {}

  // patchDailyBalance: fill every day of the grid; `prev` carries the last balance that was not zero.
  method PatchDailyBalance(values: map<nat, int>, keys: seq<nat>, now: nat, yearAgo: nat,
                           ghost receipts: seq<FundsReceipt>, ghost owner: string, ghost first: nat)
    returns (filled: map<nat, int>)
    requires Represents(values, Closings(receipts, owner))
    requires FirstDay(receipts, first, yearAgo)
    requires if receipts == [] then keys == [] else keys != [] && keys[0] == DayStart(first)
    ensures Represents(filled, Balances(receipts, owner, now / DAY, yearAgo / DAY))
  {
    hide RunningSum, DayOf, LastNonZero, DayStart, StartOfDay, Partial, Represents, Balances, Closings;
    var from := if keys != [] then keys[0] else StartOfDay(yearAgo);
    var to := StartOfDay(now);
    StartOfDayIsDay(now);
    StartOfDayIsDay(yearAgo);
    DayStartDivides(first);
    var days := GetDays(from, to);
    filled := values;
    var prev, i := 0, 0;
    PartialIsClosings(receipts, owner, first);
    NothingBefore(receipts, owner, first);
    while i < |days|
      invariant i <= |days|
      invariant Represents(filled, Partial(receipts, owner, first, first + i))
      invariant first + i > 0 ==> prev == LastNonZero(receipts, owner, first + i - 1)
      invariant first + i == 0 ==> prev == 0
    {
      ghost var day := first + i;
      FillOne(receipts, owner, first, day, filled, prev);
      PartialStep(receipts, owner, first, day);
      RepresentsOne(filled, Partial(receipts, owner, first, day), day, LastNonZero(receipts, owner, day));
      prev := if days[i] in filled && filled[days[i]] != 0 then filled[days[i]] else prev;
      filled := filled[days[i] := prev];
      i := i + 1;
    }
    PartialIsAll(receipts, owner, first, first + i, now / DAY, yearAgo);
  }

  lemma PartialIsClosings(receipts: seq<FundsReceipt>, owner: string, first: nat)
    ensures Partial(receipts, owner, first, first) == Closings(receipts, owner)
  {}

  lemma NothingBefore(receipts: seq<FundsReceipt>, owner: string, first: nat)
    requires receipts != [] ==> forall r :: r in receipts ==> first <= DayOf(r)
    ensures first > 0 ==> LastNonZero(receipts, owner, first - 1) == 0
  {
    if first > 0 {
      NothingYet(receipts, owner, first - 1);
    }
  }

  // What the fill writes for one day: the day's own balance if it has one and it is not zero, else the carried one.
  lemma FillOne(receipts: seq<FundsReceipt>, owner: string, first: nat, day: nat, filled: map<nat, int>, prev: int)
    requires first <= day && Represents(filled, Partial(receipts, owner, first, day))
    requires day > 0 ==> prev == LastNonZero(receipts, owner, day - 1)
    requires day == 0 ==> prev == 0
    ensures LastNonZero(receipts, owner, day) ==
      if DayStart(day) in filled && filled[DayStart(day)] != 0 then filled[DayStart(day)] else prev
  {
    var days := Partial(receipts, owner, first, day);
    assert day in days <==> HasReceipt(receipts, day);
    assert DayStart(day) in filled ==> day in days;
  }

  // getDailyBalanceByDaoId and getDailyTokenBalanceByDaoId, once all pages are read.
  method GetDailyBalance(receipts: seq<FundsReceipt>, owner: string, now: nat, yearAgo: nat)
    returns (values: map<nat, int>)
    ensures Represents(values, Balances(receipts, owner, now / DAY, yearAgo / DAY))
  {
    var sorted := Sort(receipts);
    SortSorts(receipts);
    SameMembers(receipts, sorted);
    var sums, keys := SumPerDay(sorted, owner);
    if sorted != [] {
      assert sorted[0] in sorted;
      forall r | r in sorted ensures DayOf(sorted[0]) <= DayOf(r) {
        var j :| 0 <= j < |sorted| && sorted[j] == r;
        assert Time(sorted[0]) <= Time(r);
      }
    }
    ghost var first := if sorted == [] then yearAgo / DAY else DayOf(sorted[0]);
    values := PatchDailyBalance(sums, keys, now, yearAgo, sorted, owner, first);
    OrderIsIrrelevant(sorted, receipts, owner, now / DAY, yearAgo / DAY);
  }
}
