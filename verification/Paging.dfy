/**
 * Range queries over one partition of the table, by key prefix and cursor, and the two generators that page
 * through them.
 */
module Paging {
  import opened Wrappers
  import opened Keys

  // ---------- the order of sort keys ----------

  predicate Less(a: string, b: string) {
    b != [] && (a == [] || a[0] < b[0] || (a[0] == b[0] && Less(a[1..], b[1..])))
  }

  // It is the order of dictionaries: after what both start with, the one ends, or has the smaller character.
  lemma {:induction false} LessIsLexicographic(a: string, b: string)
    ensures Less(a, b) <==> exists n: nat :: LessAt(a, b, n)
  {
    if Less(a, b) && a != [] && a[0] == b[0] {
      LessIsLexicographic(a[1..], b[1..]);
      var n: nat :| LessAt(a[1..], b[1..], n);
      assert a[..n + 1] == [a[0]] + a[1..][..n] && b[..n + 1] == [b[0]] + b[1..][..n];
      assert LessAt(a, b, n + 1);
    } else if Less(a, b) {
      assert LessAt(a, b, 0);
    }
    if n: nat :| LessAt(a, b, n) {
      if n > 0 {
        assert a[0] == a[..n][0] == b[..n][0] == b[0];
        assert a[1..][..n - 1] == a[..n][1..] && b[1..][..n - 1] == b[..n][1..];
        assert LessAt(a[1..], b[1..], n - 1);
        LessIsLexicographic(a[1..], b[1..]);
      }
    }
  }

  ghost predicate LessAt(a: string, b: string, n: nat) {
    n <= |a| && n < |b| && a[..n] == b[..n] && (n == |a| || a[n] < b[n])
  }

  lemma {:induction false} LessTransitive(a: string, b: string, c: string)
    requires Less(a, b) && Less(b, c)
    ensures Less(a, c)
  {
    if a != [] && a[0] == b[0] && b[0] == c[0] {
      LessTransitive(a[1..], b[1..], c[1..]);
    }
  }

  lemma {:induction false} LessTotal(a: string, b: string)
    ensures a == b || Less(a, b) || Less(b, a)
  {
    if a != [] && b != [] && a[0] == b[0] {
      LessTotal(a[1..], b[1..]);
      assert a == [a[0]] + a[1..] && b == [b[0]] + b[1..];
    }
  }

  lemma {:induction false} LessIrreflexive(a: string)
    ensures !Less(a, a)
  {
    if a != [] {
      LessIrreflexive(a[1..]);
    }
  }

  predicate IsLeast(keys: set<string>, m: string) {
    m in keys && forall k :: k in keys ==> k == m || Less(m, k)
  }

  lemma {:induction false} LeastExists(keys: set<string>)
    requires keys != {}
    ensures exists m :: IsLeast(keys, m)
    decreases |keys|
  {
    var k :| k in keys;
    var rest := keys - {k};
    if rest == {} {
      assert keys == {k};
      assert IsLeast(keys, k);
    } else {
      LeastExists(rest);
      var m :| IsLeast(rest, m);
      LessTotal(k, m);
      var least := if Less(k, m) then k else m;
      forall x | x in keys ensures x == least || Less(least, x) {
        if Less(k, m) && x in rest && x != m {
          LessTransitive(k, m, x);
        }
      }
      assert IsLeast(keys, least);
    }
  }

  lemma LeastIsUnique(keys: set<string>)
    ensures forall m, n :: IsLeast(keys, m) && IsLeast(keys, n) ==> m == n
  {
    forall m, n | IsLeast(keys, m) && IsLeast(keys, n) ensures m == n {
      if m != n {
        LessTransitive(m, n, m);
        LessIrreflexive(m);
      }
    }
  }

  function Least(keys: set<string>): (m: string)
    requires keys != {}
    ensures IsLeast(keys, m)
  {
    LeastExists(keys);
    LeastIsUnique(keys);
    var m :| IsLeast(keys, m);
    m
  }

  // The keys in ascending order.
  function Ordered(keys: set<string>): (sorted: seq<string>)
    ensures |sorted| == |keys|
    ensures forall k :: k in sorted <==> k in keys
    decreases |keys|
  {
    if keys == {} then [] else [Least(keys)] + Ordered(keys - {Least(keys)})
  }

  // Behind the n-th key come exactly the keys that are not among the first n.
  lemma {:induction false} BehindTheFirst(keys: set<string>, n: nat)
    requires 0 < n <= |keys|
    ensures After(keys, Ordered(keys)[n - 1]) == keys - Members(Ordered(keys)[..n])
    decreases |keys|
  {
    var m, rest := Least(keys), keys - {Least(keys)};
    assert Ordered(keys) == [m] + Ordered(rest);
    hide Less, After, IsLeast, Ordered, Members;
    assert Ordered(keys)[..n] == [m] + Ordered(rest)[..n - 1];
    MembersCons(m, Ordered(rest)[..n - 1]);
    if n == 1 {
      MembersNone();
      BehindIt(keys, m);
    } else {
      BehindTheFirst(rest, n - 1);
      assert Ordered(rest)[n - 2] in rest;
      BehindLeast(keys, m, Ordered(rest)[n - 2]);
    }
  }

  lemma BehindIt(keys: set<string>, m: string)
    requires IsLeast(keys, m)
    ensures After(keys, m) == keys - {m}
  {
    hide Less;
    LessIrreflexive(m);
  }

  lemma MembersNone()
    ensures Members([]) == {}
  {}

  // In order, they are the rest of the keys.
  lemma {:induction false} OrderedTail(keys: set<string>, n: nat)
    requires 0 < n <= |keys|
    ensures Ordered(After(keys, Ordered(keys)[n - 1])) == Ordered(keys)[n..]
    decreases |keys|
  {
    hide Less;
    var m, rest := Least(keys), keys - {Least(keys)};
    assert Ordered(keys) == [m] + Ordered(rest);
    LessIrreflexive(m);
    if n == 1 {
      assert After(keys, m) == rest;
    } else {
      OrderedTail(rest, n - 1);
      assert Ordered(rest)[n - 2] in rest;
      BehindLeast(keys, m, Ordered(rest)[n - 2]);
    }
  }

  lemma {:induction false} OrderedDistinct(keys: set<string>)
    ensures forall i, j :: 0 <= i < j < |Ordered(keys)| ==> Ordered(keys)[i] != Ordered(keys)[j]
    decreases |keys|
  {
    if keys != {} {
      OrderedDistinct(keys - {Least(keys)});
      assert forall k :: k in Ordered(keys - {Least(keys)}) ==> k != Least(keys);
    }
  }

  // Splitting off the first n keys leaves, in order, the keys after the last of them.
  lemma OrderedSplit(keys: set<string>, n: nat)
    requires 0 < n <= |keys|
    ensures Ordered(After(keys, Ordered(keys)[n - 1])) == Ordered(keys)[n..]
    ensures After(keys, Ordered(keys)[n - 1]) == keys - Members(Ordered(keys)[..n])
  {
    BehindTheFirst(keys, n);
    OrderedTail(keys, n);
  }

  lemma BehindLeast(keys: set<string>, m: string, k: string)
    requires IsLeast(keys, m) && k in keys && k != m
    ensures After(keys, k) == After(keys - {m}, k)
  {
    if Less(k, m) {
      LessTransitive(m, k, m);
      LessIrreflexive(m);
    }
  }

  lemma MembersCons(k: string, keys: seq<string>)
    ensures Members([k] + keys) == {k} + Members(keys)
  {}

  function Members(keys: seq<string>): set<string> {
    set k | k in keys
  }

  function After(keys: set<string>, cursor: string): set<string> {
    set k | k in keys && Less(cursor, k)
  }

  // ---------- one query ----------

  function Matching(keys: set<string>, prefix: string): set<string> {
    set k | k in keys && prefix <= k
  }

  function InRange(keys: set<string>, prefix: string, cursor: Option<string>): set<string> {
    if cursor.None? then Matching(keys, prefix) else After(Matching(keys, prefix), cursor.value)
  }

  datatype Page = Page(keys: seq<string>, lastEvaluated: Option<string>)

  // A query evaluates at least one key if there is one, and up to `limit`; it reports where it stopped, even when
  // it stopped at the last one.
  function PageOf(range: set<string>, limit: nat): (page: Page) {
    var sorted := Ordered(range);
    var n := if limit == 0 then 1 else limit;
    if n <= |sorted| then Page(sorted[..n], Some(sorted[n - 1])) else Page(sorted, None)
  }

  // ---------- paging with one prefix (paginateAllItems) ----------

  function Limit(limits: seq<nat>, default: nat): nat {
    if limits == [] then default else limits[0]
  }

  function Tail(limits: seq<nat>): seq<nat> {
    if limits == [] then [] else limits[1..]
  }

  // The keys yielded from a cursor on, page by page; `limits` are the page sizes the service chooses.
  ghost function Walk(keys: set<string>, prefix: string, cursor: Option<string>, limits: seq<nat>): seq<string>
    decreases |InRange(keys, prefix, cursor)|
  {
    var range := InRange(keys, prefix, cursor);
    var page := PageOf(range, Limit(limits, |range| + 1));
    if page.lastEvaluated.None? then page.keys
    else
      NextRange(keys, prefix, cursor, Limit(limits, |range| + 1));
      page.keys + Walk(keys, prefix, page.lastEvaluated, Tail(limits))
  }

  // The next query continues right behind the page.
  lemma NextRange(keys: set<string>, prefix: string, cursor: Option<string>, limit: nat)
    requires PageOf(InRange(keys, prefix, cursor), limit).lastEvaluated.Some?
    ensures var range := InRange(keys, prefix, cursor);
      var page := PageOf(range, limit);
      && |InRange(keys, prefix, page.lastEvaluated)| < |range|
      && InRange(keys, prefix, page.lastEvaluated) == range - Members(page.keys)
      && Ordered(range) == page.keys + Ordered(InRange(keys, prefix, page.lastEvaluated))
  {
    hide Less, Ordered;
    var range := InRange(keys, prefix, cursor);
    var page := PageOf(range, limit);
    var last := page.lastEvaluated.value;
    OrderedSplit(range, |page.keys|);
    assert last in page.keys && last in Members(page.keys) && last in range;
    BehindCursor(keys, prefix, cursor, last);
    assert Ordered(range) == page.keys + Ordered(range)[|page.keys|..];
    Smaller(range - Members(page.keys), range);
  }

  lemma BehindCursor(keys: set<string>, prefix: string, cursor: Option<string>, last: string)
    requires last in InRange(keys, prefix, cursor)
    ensures InRange(keys, prefix, Some(last)) == After(InRange(keys, prefix, cursor), last)
  {
    if cursor.Some? {
      forall k | k in Matching(keys, prefix) && Less(last, k) ensures Less(cursor.value, k) {
        LessTransitive(cursor.value, last, k);
      }
    }
  }

  lemma Smaller<T>(a: set<T>, b: set<T>)
    requires a < b
    ensures |a| < |b|
  {
    assert b == a + (b - a);
  }

  // Whatever the page sizes, paging yields every matching key exactly once and in order.
  lemma {:induction false} WalkIsComplete(keys: set<string>, prefix: string, cursor: Option<string>, limits: seq<nat>)
    ensures Walk(keys, prefix, cursor, limits) == Ordered(InRange(keys, prefix, cursor))
    decreases |InRange(keys, prefix, cursor)|
  {
    var range := InRange(keys, prefix, cursor);
    var page := PageOf(range, Limit(limits, |range| + 1));
    if page.lastEvaluated.Some? {
      NextRange(keys, prefix, cursor, Limit(limits, |range| + 1));
      WalkIsComplete(keys, prefix, page.lastEvaluated, Tail(limits));
    }
  }

  // Deleting a page before asking for the next leaves the next query the same.
  lemma DeletingBehindTheCursor(keys: set<string>, prefix: string, cursor: Option<string>, limit: nat)
    requires PageOf(InRange(keys, prefix, cursor), limit).lastEvaluated.Some?
    ensures var page := PageOf(InRange(keys, prefix, cursor), limit);
      forall other ::
        InRange(keys - Members(page.keys), other, page.lastEvaluated) == InRange(keys, other, page.lastEvaluated)
  {
    var range := InRange(keys, prefix, cursor);
    var page := PageOf(range, limit);
    OrderedSplit(range, |page.keys|);
    forall k | k in page.keys ensures !Less(page.lastEvaluated.value, k) {
      assert k in Members(page.keys) && k in range;
      assert k !in After(range, page.lastEvaluated.value);
    }
  }

  // ---------- paging by entity type (paginateAllItemsByType) ----------

  // From the second page on, the generator passes the table name where the id prefix belongs.
  function LaterPrefix(entityType: string, tableName: string): string {
    EntityId(entityType, tableName)
  }

  function FirstPage(keys: set<string>, entityType: string, idPrefix: string, limits: seq<nat>): Page {
    var range := Matching(keys, EntityId(entityType, idPrefix));
    PageOf(range, Limit(limits, |range| + 1))
  }

  // The service may refuse a cursor that does not match the key condition (strict), or just go on behind it.
  predicate Refused(page: Page, later: string, strict: bool) {
    strict && page.lastEvaluated.Some? && !(later <= page.lastEvaluated.value)
  }

  // Everything the generator yields before it ends or throws: the first page, then page by page what the later
  // queries find. A later cursor is a key that matched, so only the second query can be refused.
  ghost function YieldedByType(keys: set<string>, entityType: string, idPrefix: string, tableName: string,
                               limits: seq<nat>, strict: bool): seq<string>
  {
    var page, later := FirstPage(keys, entityType, idPrefix, limits), LaterPrefix(entityType, tableName);
    if page.lastEvaluated.None? || Refused(page, later, strict) then page.keys
    else page.keys + Walk(keys, later, page.lastEvaluated, Tail(limits))
  }

  // What a caller gets that collects all pages.
  ghost function CollectByType(keys: set<string>, entityType: string, idPrefix: string, tableName: string,
                               limits: seq<nat>, strict: bool): Outcome<seq<string>>
  {
    if Refused(FirstPage(keys, entityType, idPrefix, limits), LaterPrefix(entityType, tableName), strict) then Throws
    else Returns(YieldedByType(keys, entityType, idPrefix, tableName, limits, strict))
  }

  // The keys that the later queries find.
  function LaterKeys(keys: set<string>, entityType: string, tableName: string, page: Page, strict: bool): set<string> {
    var later := LaterPrefix(entityType, tableName);
    if page.lastEvaluated.None? || Refused(page, later, strict) then {} else InRange(keys, later, page.lastEvaluated)
  }

  lemma YieldedKeys(keys: set<string>, entityType: string, idPrefix: string, tableName: string, limits: seq<nat>,
                    strict: bool)
    ensures var page := FirstPage(keys, entityType, idPrefix, limits);
      var rest := LaterKeys(keys, entityType, tableName, page, strict);
      && YieldedByType(keys, entityType, idPrefix, tableName, limits, strict) == page.keys + Ordered(rest)
      && Members(YieldedByType(keys, entityType, idPrefix, tableName, limits, strict)) == Members(page.keys) + rest
  {
    hide Less;
    var page, later := FirstPage(keys, entityType, idPrefix, limits), LaterPrefix(entityType, tableName);
    if page.lastEvaluated.Some? && !Refused(page, later, strict) {
      WalkIsComplete(keys, later, page.lastEvaluated, Tail(limits));
    }
  }

  // Nothing of another type is ever yielded.
  lemma YieldedHasType(keys: set<string>, entityType: string, idPrefix: string, tableName: string, limits: seq<nat>,
                       strict: bool, k: string, u: string, id: string)
    requires TypeName(entityType) && TypeName(u) && k == EntityId(u, id)
    requires k in YieldedByType(keys, entityType, idPrefix, tableName, limits, strict)
    ensures u == entityType && k in keys
  {
    hide Less;
    YieldedKeys(keys, entityType, idPrefix, tableName, limits, strict);
    PrefixSelectsType(entityType, idPrefix, u, id);
    PrefixSelectsType(entityType, tableName, u, id);
    var page := FirstPage(keys, entityType, idPrefix, limits);
    assert k in Members(YieldedByType(keys, entityType, idPrefix, tableName, limits, strict));
    if k in Members(page.keys) {
      assert k in Matching(keys, EntityId(entityType, idPrefix));
    }
  }

  // The later queries are accepted and find, behind the first page, just what was asked for.
  ghost predicate LaterPagesFit(keys: set<string>, entityType: string, idPrefix: string, tableName: string, page: Page,
                                strict: bool)
  {
    var asked, later := EntityId(entityType, idPrefix), LaterPrefix(entityType, tableName);
    page.lastEvaluated.None?
    || ((strict ==> later <= page.lastEvaluated.value)
        && forall k :: k in keys && Less(page.lastEvaluated.value, k) ==> (later <= k <==> asked <= k))
  }

  lemma OrderedDetermines(a: set<string>, b: set<string>)
    requires Ordered(a) == Ordered(b)
    ensures a == b
  {
    assert forall k :: k in a <==> k in Ordered(a);
  }

  lemma SameRange(keys: set<string>, asked: string, later: string, cursor: string)
    ensures InRange(keys, later, Some(cursor)) == InRange(keys, asked, Some(cursor))
      <==> forall k :: k in keys && Less(cursor, k) ==> (later <= k <==> asked <= k)
  {
    hide Less;
    var found, missing := InRange(keys, later, Some(cursor)), InRange(keys, asked, Some(cursor));
    assert forall k :: k in found <==> k in keys && Less(cursor, k) && later <= k;
    assert forall k :: k in missing <==> k in keys && Less(cursor, k) && asked <= k;
  }

  lemma SameTail<T>(head: seq<T>, a: seq<T>, b: seq<T>)
    requires head + a == head + b
    ensures a == b
  {
    assert (head + a)[|head|..] == a && (head + b)[|head|..] == b;
  }

  // Collecting by type gives everything asked for, in key order and once, and nothing else, exactly when the first
  // page is the last or the later queries fit.
  lemma ByTypeIsComplete(keys: set<string>, entityType: string, idPrefix: string, tableName: string, limits: seq<nat>,
                         strict: bool)
    ensures CollectByType(keys, entityType, idPrefix, tableName, limits, strict)
        == Returns(Ordered(Matching(keys, EntityId(entityType, idPrefix))))
      <==> LaterPagesFit(keys, entityType, idPrefix, tableName, FirstPage(keys, entityType, idPrefix, limits), strict)
  {
    hide Less, Ordered, PageOf, InRange, Matching, YieldedByType;
    var asked, later := EntityId(entityType, idPrefix), LaterPrefix(entityType, tableName);
    var page, range := FirstPage(keys, entityType, idPrefix, limits), Matching(keys, asked);
    YieldedKeys(keys, entityType, idPrefix, tableName, limits, strict);
    if page.lastEvaluated.None? {
      LastPage(range, Limit(limits, |range| + 1));
      EmptyOrdered();
      assert page.keys + [] == page.keys;
    } else if !Refused(page, later, strict) {
      FromTheStart(keys, asked);
      NextRange(keys, asked, None, Limit(limits, |range| + 1));
      SameRange(keys, asked, later, page.lastEvaluated.value);
      var found, missing := InRange(keys, later, page.lastEvaluated), InRange(keys, asked, page.lastEvaluated);
      if page.keys + Ordered(found) == page.keys + Ordered(missing) {
        SameTail(page.keys, Ordered(found), Ordered(missing));
        OrderedDetermines(found, missing);
      }
    }
  }

  lemma FromTheStart(keys: set<string>, prefix: string)
    ensures InRange(keys, prefix, None) == Matching(keys, prefix)
  {}

  lemma LastPage(range: set<string>, limit: nat)
    ensures PageOf(range, limit).lastEvaluated.None? ==> PageOf(range, limit).keys == Ordered(range)
  {}

  lemma EmptyOrdered()
    ensures Ordered({}) == []
  {}

  // For a whole type that is so exactly when the first page is the last, or the second query is accepted and all
  // that the first page did not reach starts with the prefix of the later queries.
  lemma WholeTypeIsComplete(keys: set<string>, entityType: string, tableName: string, limits: seq<nat>, strict: bool)
    ensures var page, later := FirstPage(keys, entityType, "", limits), LaterPrefix(entityType, tableName);
      CollectByType(keys, entityType, "", tableName, limits, strict)
        == Returns(Ordered(Matching(keys, EntityId(entityType, ""))))
      <==> page.lastEvaluated.None?
           || ((strict ==> later <= page.lastEvaluated.value)
               && forall k :: k in Matching(keys, EntityId(entityType, "")) - Members(page.keys) ==> later <= k)
  {
    hide Less, Ordered;
    var asked, later := EntityId(entityType, ""), LaterPrefix(entityType, tableName);
    var page, range := FirstPage(keys, entityType, "", limits), Matching(keys, EntityId(entityType, ""));
    ByTypeIsComplete(keys, entityType, "", tableName, limits, strict);
    if page.lastEvaluated.Some? {
      NextRange(keys, asked, None, Limit(limits, |range| + 1));
      assert asked <= later;
      assert forall k ::
        k in keys && Less(page.lastEvaluated.value, k) && asked <= k <==> k in range - Members(page.keys);
    }
  }

  // The first page reached all of the type, or the later queries are accepted and find the rest.
  ghost predicate YieldsWholeType(keys: set<string>, entityType: string, tableName: string, limits: seq<nat>,
                                  strict: bool)
  {
    var page, later := FirstPage(keys, entityType, "", limits), LaterPrefix(entityType, tableName);
    var rest := Matching(keys, EntityId(entityType, "")) - Members(page.keys);
    rest == {} || (!Refused(page, later, strict) && forall k :: k in rest ==> later <= k)
  }

  // The pages that a caller sees before the end, or before the throw, hold all of the type exactly then.
  lemma YieldsWholeTypeExactly(keys: set<string>, entityType: string, tableName: string, limits: seq<nat>, strict: bool)
    ensures Matching(keys, EntityId(entityType, ""))
      <= Members(YieldedByType(keys, entityType, "", tableName, limits, strict))
      <==> YieldsWholeType(keys, entityType, tableName, limits, strict)
  {
    var asked, later := EntityId(entityType, ""), LaterPrefix(entityType, tableName);
    var page, range := FirstPage(keys, entityType, "", limits), Matching(keys, asked);
    var rest, more := range - Members(page.keys), LaterKeys(keys, entityType, tableName, page, strict);
    hide Less, Ordered, YieldedByType, PageOf, Matching, InRange, EntityId, Members;
    YieldedKeys(keys, entityType, "", tableName, limits, strict);
    assert range <= Members(page.keys) + more <==> rest <= more;
    PageLeaves(keys, asked, Limit(limits, |range| + 1));
    if page.lastEvaluated.Some? {
      FoundAgain(keys, asked, later, page.lastEvaluated);
    }
  }

  // What a first page does not reach.
  lemma PageLeaves(keys: set<string>, asked: string, limit: nat)
    ensures var range := Matching(keys, asked);
      var page := PageOf(range, limit);
      range - Members(page.keys) == if page.lastEvaluated.None? then {} else InRange(keys, asked, page.lastEvaluated)
  {
    var range := Matching(keys, asked);
    if PageOf(range, limit).lastEvaluated.Some? {
      NextRange(keys, asked, None, limit);
    }
  }

  lemma FoundAgain(keys: set<string>, asked: string, later: string, cursor: Option<string>)
    ensures var rest := InRange(keys, asked, cursor);
      rest <= InRange(keys, later, cursor) <==> forall k :: k in rest ==> later <= k
  {
    hide Less;
  }

  // One item, a page of one: the page reports a cursor, and a strict service refuses the second query.
  lemma LastPageIsRefused(entityType: string, id: string, tableName: string)
    requires TypeName(entityType) && !(tableName <= id)
    ensures CollectByType({EntityId(entityType, id)}, entityType, "", tableName, [1], true) == Throws
  {
    var key := EntityId(entityType, id);
    PrefixSelectsType(entityType, "", entityType, id);
    PrefixSelectsType(entityType, tableName, entityType, id);
    OrderedOne(key);
    assert Matching({key}, EntityId(entityType, "")) == {key};
  }

  lemma OrderedOne(k: string)
    ensures Ordered({k}) == [k]
  {
    assert Least({k}) == k && {k} - {k} == {};
  }

  // Two items of a type.
  lemma TwoItems(entityType: string)
    requires TypeName(entityType)
    ensures var first, second := EntityId(entityType, "1"), EntityId(entityType, "2");
      && Matching({first, second}, EntityId(entityType, "")) == {first, second}
      && first != second && Ordered({first, second}) == [first, second]
  {
    var first, second := EntityId(entityType, "1"), EntityId(entityType, "2");
    PrefixSelectsType(entityType, "", entityType, "1");
    PrefixSelectsType(entityType, "", entityType, "2");
    var n := |entityType| + 1;
    assert first[n] == '1' && second[n] == '2' && first[..n] == EntityId(entityType, "") == second[..n];
    CommonPrefixLess(first, second, n);
    FirstOfTwo(first, second);
  }

  lemma NothingLater(first: string, second: string, later: string)
    requires !(later <= second)
    ensures InRange({first, second}, later, Some(first)) == {}
  {
    LessIrreflexive(first);
  }

  // On pages of one the second is lost, unless its id starts with the table name.
  lemma SecondPageIsLost(entityType: string, tableName: string)
    requires TypeName(entityType) && !(tableName <= "2")
    ensures var first, second := EntityId(entityType, "1"), EntityId(entityType, "2");
      && CollectByType({first, second}, entityType, "", tableName, [1], false) == Returns([first])
      && Ordered(Matching({first, second}, EntityId(entityType, ""))) == [first, second]
  {
    var first, second := EntityId(entityType, "1"), EntityId(entityType, "2");
    var keys := {first, second};
    TwoItems(entityType);
    PrefixSelectsType(entityType, tableName, entityType, "2");
    YieldedKeys(keys, entityType, "", tableName, [1], false);
    EmptyOrdered();
    hide Less, Ordered, YieldedByType, Walk;
    var page := FirstPage(keys, entityType, "", [1]);
    assert Limit([1], 3) == 1 && [first, second][..1] == [first];
    assert page == Page([first], Some(first));
    NothingLater(first, second, LaterPrefix(entityType, tableName));
    assert [first] + [] == [first];
  }

  // Asking for the records of a token also reads those of a token whose name goes on with a dash.
  lemma ForeignTokenIsRead(tableName: string, strict: bool)
    ensures var foreign := EntityId("DaoFundsTokenReceipt", TokenDepositId("a-b", 1, "r", 0));
      CollectByType({foreign}, "DaoFundsTokenReceipt", Dash("a", ""), tableName, [], strict) == Returns([foreign])
  {
    var foreign := EntityId("DaoFundsTokenReceipt", TokenDepositId("a-b", 1, "r", 0));
    TokenPrefixSelects("a", "a-b", 1, "r", 0);
    assert Dash("a", "") <= "a-b";
    PrefixSelectsType("DaoFundsTokenReceipt", Dash("a", ""), "DaoFundsTokenReceipt", TokenDepositId("a-b", 1, "r", 0));
    assert Matching({foreign}, EntityId("DaoFundsTokenReceipt", Dash("a", ""))) == {foreign};
    OrderedOne(foreign);
    assert FirstPage({foreign}, "DaoFundsTokenReceipt", Dash("a", ""), []) == Page([foreign], None);
  }

  lemma FirstOfTwo(a: string, b: string)
    requires Less(a, b)
    ensures a != b && Ordered({a, b}) == [a, b]
  {
    LessIrreflexive(a);
    if Less(b, a) {
      LessTransitive(a, b, a);
    }
    assert Least({a, b}) == a;
    assert {a, b} - {a} == {b} && {b} - {b} == {};
    assert Ordered({b}) == [b];
  }

  lemma {:induction false} CommonPrefixLess(a: string, b: string, n: nat)
    requires n < |a| && n < |b| && a[..n] == b[..n] && a[n] < b[n]
    ensures Less(a, b)
  {
    if n > 0 {
      assert a[0] == a[..n][0] == b[0];
      assert a[1..][..n - 1] == a[..n][1..] == b[..n][1..] == b[1..][..n - 1];
      CommonPrefixLess(a[1..], b[1..], n - 1);
    }
  }
}
