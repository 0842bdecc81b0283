/**
 * The string keys of the single table: `Type:id`, where an id joins its parts with dashes.
 * The safety of the ingestion protocol rests on these keys determining their parts.
 */
module Keys {

  // ---------- decimal rendering of a number inside a template literal ----------

  function Digit(d: nat): (c: char)
    requires d < 10
    ensures c != '-' && c != ':'
  {
    "0123456789"[d]
  }

  function Decimal(n: nat): (s: string)
    ensures s != [] && '-' !in s && ':' !in s
  {
    if n < 10 then [Digit(n)] else Decimal(n / 10) + [Digit(n % 10)]
  }

  lemma {:induction false} DecimalInjective(m: nat, n: nat)
    requires Decimal(m) == Decimal(n)
    ensures m == n
  {
    var s, t := Decimal(m), Decimal(n);
    assert s[|s| - 1] == Digit(m % 10) && t[|t| - 1] == Digit(n % 10);
    if m >= 10 && n >= 10 {
      assert s[..|s| - 1] == Decimal(m / 10) && t[..|t| - 1] == Decimal(n / 10);
      DecimalInjective(m / 10, n / 10);
    }
  }

  // The number that a string of digits stands for.
  function ReadDecimal(s: string): int {
    if s == [] then 0 else 10 * ReadDecimal(s[..|s| - 1]) + (s[|s| - 1] as int - '0' as int)
  }

  lemma {:induction false} DecimalReadsBack(n: nat)
    ensures ReadDecimal(Decimal(n)) == n
  {
    DigitReadsBack(n % 10);
    if n >= 10 {
      DecimalReadsBack(n / 10);
      assert Decimal(n)[..|Decimal(n)| - 1] == Decimal(n / 10);
    } else {
      assert Decimal(n)[..0] == [];
    }
  }

  lemma DigitReadsBack(d: nat)
    requires d < 10
    ensures Digit(d) as int - '0' as int == d
  {}

  // ---------- joining parts with a dash ----------

  function Dash(a: string, b: string): string {
    a + "-" + b
  }

  // A part without dashes can be split off at the right end.
  lemma SplitRight(a: string, x: string, b: string, y: string)
    requires Dash(a, x) == Dash(b, y) && '-' !in x && '-' !in y
    ensures a == b && x == y
  {
    var s := Dash(a, x);
    assert s[|a|] == '-' && forall i :: |a| < i < |s| ==> s[i] == x[i - |a| - 1];
    assert s[|b|] == '-' && forall i :: |b| < i < |s| ==> s[i] == y[i - |b| - 1];
    assert |a| == |b|;
    assert a == s[..|a|] == b;
    assert x == s[|a| + 1..] == y;
  }

  // A part without dashes can be split off at the left end.
  lemma SplitLeft(a: string, x: string, b: string, y: string)
    requires Dash(a, x) == Dash(b, y) && '-' !in a && '-' !in b
    ensures a == b && x == y
  {
    var s := Dash(a, x);
    assert s[|a|] == '-' && forall i :: 0 <= i < |a| ==> s[i] == a[i];
    assert s[|b|] == '-' && forall i :: 0 <= i < |b| ==> s[i] == b[i];
    assert |a| == |b|;
    assert a == s[..|a|] == b;
    assert x == s[|a| + 1..] == y;
  }

  // ---------- the ids ----------

  // `${receiptId}-${index}`: the ledger id of an action and the id of an error record.
  function ActionId(receiptId: string, index: nat): string {
    Dash(receiptId, Decimal(index))
  }

  // `${timestamp}-${receiptId}-${index}`
  function DepositId(timestamp: nat, receiptId: string, index: nat): string {
    Dash(Decimal(timestamp), ActionId(receiptId, index))
  }

  // `${tokenId}-${timestamp}-${receiptId}-${index}`
  function TokenDepositId(tokenId: string, timestamp: nat, receiptId: string, index: nat): string {
    Dash(tokenId, DepositId(timestamp, receiptId, index))
  }

  lemma ActionIdInjective(r1: string, i1: nat, r2: string, i2: nat)
    requires ActionId(r1, i1) == ActionId(r2, i2)
    ensures r1 == r2 && i1 == i2
  {
    SplitRight(r1, Decimal(i1), r2, Decimal(i2));
    DecimalInjective(i1, i2);
  }

  lemma DepositIdInjective(t1: nat, r1: string, i1: nat, t2: nat, r2: string, i2: nat)
    requires DepositId(t1, r1, i1) == DepositId(t2, r2, i2)
    ensures t1 == t2 && r1 == r2 && i1 == i2
  {
    SplitLeft(Decimal(t1), ActionId(r1, i1), Decimal(t2), ActionId(r2, i2));
    DecimalInjective(t1, t2);
    ActionIdInjective(r1, i1, r2, i2);
  }

  // A token key starts with a dashed account name, so it is read from the right; that needs dash-free receipt ids.
  lemma TokenDepositIdInjective(k1: string, t1: nat, r1: string, i1: nat, k2: string, t2: nat, r2: string, i2: nat)
    requires TokenDepositId(k1, t1, r1, i1) == TokenDepositId(k2, t2, r2, i2)
    requires '-' !in r1 && '-' !in r2
    ensures k1 == k2 && t1 == t2 && r1 == r2 && i1 == i2
  {
    var a1, a2 := Dash(k1, Decimal(t1)), Dash(k2, Decimal(t2));
    assert TokenDepositId(k1, t1, r1, i1) == Dash(Dash(a1, r1), Decimal(i1));
    assert TokenDepositId(k2, t2, r2, i2) == Dash(Dash(a2, r2), Decimal(i2));
    SplitRight(Dash(a1, r1), Decimal(i1), Dash(a2, r2), Decimal(i2));
    SplitRight(a1, r1, a2, r2);
    SplitRight(k1, Decimal(t1), k2, Decimal(t2));
    DecimalInjective(i1, i2);
    DecimalInjective(t1, t2);
  }

  // A receipt id that is another one, after a dash and a number or a text that ends in a dash and a number.
  ghost predicate Continues(receiptId: string, other: string) {
    exists head, number: nat ::
      receiptId == Dash(head, other) && (head == Decimal(number) || EndsInNumber(head, number))
  }

  predicate EndsInNumber(head: string, number: nat) {
    var end := "-" + Decimal(number);
    |end| <= |head| && head[|head| - |end|..] == end
  }

  ghost predicate Clash(r1: string, r2: string) {
    exists k1, t1: nat, i1: nat, k2, t2: nat, i2: nat ::
      TokenDepositId(k1, t1, r1, i1) == TokenDepositId(k2, t2, r2, i2) && (k1 != k2 || t1 != t2 || r1 != r2 || i1 != i2)
  }

  lemma TokenIdInParts(k: string, t: nat, r: string, i: nat)
    ensures TokenDepositId(k, t, r, i) == Dash(Dash(Dash(k, Decimal(t)), r), Decimal(i))
  {
    hide Decimal;
  }

  // What two equal token ids have in common: the index, and the text before it.
  lemma SameTokenId(k1: string, t1: nat, r1: string, i1: nat, k2: string, t2: nat, r2: string, i2: nat)
    requires TokenDepositId(k1, t1, r1, i1) == TokenDepositId(k2, t2, r2, i2)
    ensures i1 == i2 && Dash(Dash(k1, Decimal(t1)), r1) == Dash(Dash(k2, Decimal(t2)), r2)
  {
    hide TokenDepositId, Decimal, Dash;
    TokenIdInParts(k1, t1, r1, i1);
    TokenIdInParts(k2, t2, r2, i2);
    SplitRight(Dash(Dash(k1, Decimal(t1)), r1), Decimal(i1), Dash(Dash(k2, Decimal(t2)), r2), Decimal(i2));
    DecimalInjective(i1, i2);
  }

  lemma CutRight(a1: string, r1: string, a2: string, r2: string) returns (head: string)
    requires Dash(a1, r1) == Dash(a2, r2) && |r1| > |r2|
    ensures r1 == Dash(head, r2) && a2 == Dash(a1, head)
  {
    var all := Dash(a1, r1);
    head := all[|a1| + 1..|a2|];
    assert a2 == all[..|a2|] && a1 == all[..|a1|] && all[|a1|] == '-' == all[|a2|];
    assert r1 == all[|a1| + 1..] && r2 == all[|a2| + 1..];
  }

  lemma NumberAtTheEnd(a1: string, head: string, k2: string, number: nat)
    requires Dash(a1, head) == Dash(k2, Decimal(number))
    ensures head == Decimal(number) || EndsInNumber(head, number)
  {
    var d, all := Decimal(number), Dash(a1, head);
    hide Decimal;
    assert forall i :: |k2| < i < |all| ==> all[i] == d[i - |k2| - 1] && all[i] != '-';
    assert all[|a1|] == '-' && head == all[|a1| + 1..] && all[|k2|..] == "-" + d;
    if |a1| < |k2| {
      assert head[|head| - |d| - 1..] == all[|k2|..];
    }
  }

  lemma ShorterIsContinued(a1: string, r1: string, k2: string, t2: nat, r2: string)
    requires Dash(a1, r1) == Dash(Dash(k2, Decimal(t2)), r2) && |r1| > |r2|
    ensures Continues(r1, r2)
  {
    hide Decimal, EndsInNumber;
    var head := CutRight(a1, r1, Dash(k2, Decimal(t2)), r2);
    NumberAtTheEnd(a1, head, k2, t2);
  }

  // A token name that takes up what one receipt id has before the other.
  lemma NameTakesUp(head: string, number: nat) returns (k: string)
    requires head == Decimal(number) || EndsInNumber(head, number)
    ensures Dash(Dash("", Decimal(0)), head) == Dash(k, Decimal(number))
  {
    var d, first := Decimal(number), Dash("", Decimal(0));
    if head == d {
      k := first;
    } else {
      var front := head[..|head| - |d| - 1];
      assert head == Dash(front, d);
      k := Dash(first, front);
    }
  }

  lemma ContinuedClashes(r1: string, r2: string)
    requires Continues(r1, r2)
    ensures Clash(r1, r2) && Clash(r2, r1)
  {
    hide Decimal, EndsInNumber, TokenDepositId;
    var head, number: nat :| r1 == Dash(head, r2) && (head == Decimal(number) || EndsInNumber(head, number));
    var k := NameTakesUp(head, number);
    TokenIdInParts("", 0, r1, 0);
    TokenIdInParts(k, number, r2, 0);
    var zero := Dash("", Decimal(0));
    assert Dash(zero, Dash(head, r2)) == Dash(Dash(zero, head), r2);
    assert TokenDepositId("", 0, r1, 0) == TokenDepositId(k, number, r2, 0) && r1 != r2;
  }

  // Records of two receipts can share a key exactly if one receipt id continues the other backwards past a number;
  // records of one receipt never do.
  lemma TokenIdsClashExactly(r1: string, r2: string)
    ensures Clash(r1, r2) <==> Continues(r1, r2) || Continues(r2, r1)
  {
    hide TokenDepositId, Decimal, Dash, Continues;
    if Continues(r1, r2) {
      ContinuedClashes(r1, r2);
    }
    if Continues(r2, r1) {
      ContinuedClashes(r2, r1);
    }
    if Clash(r1, r2) {
      var k1, t1: nat, i1: nat, k2, t2: nat, i2: nat :| TokenDepositId(k1, t1, r1, i1) == TokenDepositId(k2, t2, r2, i2)
        && (k1 != k2 || t1 != t2 || r1 != r2 || i1 != i2);
      SameTokenId(k1, t1, r1, i1, k2, t2, r2, i2);
      if |r1| > |r2| {
        ShorterIsContinued(Dash(k1, Decimal(t1)), r1, k2, t2, r2);
      } else if |r2| > |r1| {
        ShorterIsContinued(Dash(k2, Decimal(t2)), r2, k1, t1, r1);
      } else {
        SameReceipt(k1, t1, r1, k2, t2, r2);
      }
    }
  }

  lemma SameReceipt(k1: string, t1: nat, r1: string, k2: string, t2: nat, r2: string)
    requires Dash(Dash(k1, Decimal(t1)), r1) == Dash(Dash(k2, Decimal(t2)), r2) && |r1| == |r2|
    ensures k1 == k2 && t1 == t2 && r1 == r2
  {
    var a1, a2 := Dash(k1, Decimal(t1)), Dash(k2, Decimal(t2));
    var all := Dash(a1, r1);
    assert |a1| == |a2| && a1 == all[..|a1|] == a2 && r1 == all[|a1| + 1..] == r2;
    SplitRight(k1, Decimal(t1), k2, Decimal(t2));
    DecimalInjective(t1, t2);
  }

  // With a dash in a receipt id, two different token records share one key.
  lemma TokenDepositIdCollides()
    ensures TokenDepositId("a-1", 2, "r", 0) == TokenDepositId("a", 1, "2-r", 0)
  {
    assert Decimal(1) == "1" && Decimal(2) == "2" && Decimal(0) == "0";
    calc {
      TokenDepositId("a-1", 2, "r", 0);
      "a-1-2-r-0";
      TokenDepositId("a", 1, "2-r", 0);
    }
  }

  // One of two texts that both begin a third begins the other.
  lemma PrefixesCompare(p: string, q: string, id: string)
    requires p <= id && q <= id
    ensures if |p| <= |q| then p <= q else q <= p
  {
    assert p == id[..|p|] && q == id[..|q|];
  }

  lemma PrefixCancel(head: string, p: string, rest: string)
    ensures head + p <= head + rest <==> p <= rest
  {
    if p <= rest {
      assert head + rest == head + p + rest[|p|..];
    }
    if head + p <= head + rest {
      assert p == (head + p)[|head|..] && rest == (head + rest)[|head|..];
    }
  }

  // The prefix `${token}-` selects exactly the records of that token, those of tokens whose name goes on with a dash,
  // and those of tokens whose name, followed by a dash and the start of the rest of the record's id, is this one.
  lemma TokenPrefixSelects(token: string, tokenId: string, timestamp: nat, receiptId: string, index: nat)
    ensures Dash(token, "") <= TokenDepositId(tokenId, timestamp, receiptId, index)
      <==> tokenId == token || Dash(token, "") <= tokenId
           || (Dash(tokenId, "") <= token && Dash(token[|tokenId| + 1..], "") <= DepositId(timestamp, receiptId, index))
  {
    var head, rest := Dash(tokenId, ""), DepositId(timestamp, receiptId, index);
    assert TokenDepositId(tokenId, timestamp, receiptId, index) == head + rest;
    DashPrefixSelects(token, tokenId, rest);
  }

  lemma DashPrefixSelects(token: string, tokenId: string, rest: string)
    ensures Dash(token, "") <= Dash(tokenId, "") + rest
      <==> tokenId == token || Dash(token, "") <= tokenId
           || (Dash(tokenId, "") <= token && Dash(token[|tokenId| + 1..], "") <= rest)
  {
    var head, prefix := Dash(tokenId, ""), Dash(token, "");
    var id := head + rest;
    if head <= token {
      var more := token[|head|..];
      assert token == head + more && prefix == head + Dash(more, "");
      PrefixCancel(head, Dash(more, ""), rest);
    }
    if prefix <= id {
      PrefixesCompare(prefix, head, id);
      if |token| < |tokenId| {
        assert prefix == head[..|prefix|] == tokenId[..|prefix|];
      } else if |token| > |tokenId| {
        assert head == prefix[..|head|] == token[..|head|];
        assert head <= token && Dash(token[|head|..], "") <= rest;
      } else {
        assert token == prefix[..|token|] == head[..|token|] == tokenId;
      }
    }
  }

  // ---------- typed entity ids ----------

  // Entity type names contain no colon.
  ghost predicate TypeName(t: string) {
    ':' !in t
  }

  // buildEntityId
  function EntityId(entityType: string, id: string): string {
    entityType + ":" + id
  }

  lemma EntityIdInjective(t1: string, id1: string, t2: string, id2: string)
    requires TypeName(t1) && TypeName(t2) && EntityId(t1, id1) == EntityId(t2, id2)
    ensures t1 == t2 && id1 == id2
  {
    PrefixSelectsType(t1, "", t2, id2);
    var e := EntityId(t1, id1);
    assert id1 == e[|t1| + 1..] == id2;
  }

  // The prefix `T:idPrefix` selects exactly the ids of type T that start with idPrefix.
  lemma PrefixSelectsType(t: string, idPrefix: string, u: string, id: string)
    requires TypeName(t) && TypeName(u)
    ensures EntityId(t, idPrefix) <= EntityId(u, id) <==> t == u && idPrefix <= id
  {
    var p, e := EntityId(t, idPrefix), EntityId(u, id);
    assert p[|t|] == ':' == e[|u|];
    assert p[..|t|] == t && e[..|u|] == u && p[|t| + 1..] == idPrefix && e[|u| + 1..] == id;
    if p <= e {
      assert forall i :: 0 <= i < |p| ==> p[i] == e[i];
      assert forall i :: 0 <= i < |t| ==> p[i] != ':';
      assert forall i :: 0 <= i < |u| ==> e[i] != ':';
      assert |t| == |u|;
    }
  }

  // String.prototype.endsWith
  predicate EndsWith(s: string, suffix: string) {
    |suffix| <= |s| && s[|s| - |suffix|..] == suffix
  }
}
