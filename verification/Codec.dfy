/**
 * The encoder and decoder of stored items: empty object keys are replaced by a placeholder and back, undefined
 * values become null in arrays and are stripped from the item.
 */
module Codec {
  import opened Wrappers
  import opened Batch

  // An object lists its properties in order, each key once.
  datatype Json =
    | Undefined
    | Null
    | Bool(b: bool)
    | Num(n: real)
    | Str(s: string)
    | Arr(items: seq<Json>)
    | Obj(fields: seq<Field>)

  datatype Field = Field(key: string, value: Json)

  const EMPTY_KEY_PLACEHOLDER := "__EMPTY_KEY__"

  ghost predicate UniqueKeys(fields: seq<Field>) {
    forall i, j :: 0 <= i < j < |fields| ==> fields[i].key != fields[j].key
  }

  ghost predicate Tree(v: Json) {
    match v
    case Arr(items) => forall i :: 0 <= i < |items| ==> Tree(items[i])
    case Obj(fields) => UniqueKeys(fields) && forall i :: 0 <= i < |fields| ==> Tree(fields[i].value)
    case _ => true
  }

  // ---------- Object.fromEntries ----------

  // A key that is there already keeps its place and gets the new value.
  function Put(fields: seq<Field>, f: Field): seq<Field> {
    if fields == [] then [f]
    else if fields[0].key == f.key then [f] + fields[1..]
    else [fields[0]] + Put(fields[1..], f)
  }

  function FromEntries(entries: seq<Field>): seq<Field> {
    if entries == [] then [] else Put(FromEntries(entries[..|entries| - 1]), entries[|entries| - 1])
  }

  lemma {:induction false} PutNew(fields: seq<Field>, f: Field)
    requires forall i :: 0 <= i < |fields| ==> fields[i].key != f.key
    ensures Put(fields, f) == fields + [f]
  {
    if fields != [] {
      PutNew(fields[1..], f);
    }
  }

  lemma {:induction false} FromUnique(entries: seq<Field>)
    requires UniqueKeys(entries)
    ensures FromEntries(entries) == entries
  {
    if entries != [] {
      FromUnique(entries[..|entries| - 1]);
      PutNew(entries[..|entries| - 1], entries[|entries| - 1]);
    }
  }

  lemma {:induction false} PutMembers(fields: seq<Field>, f: Field)
    requires UniqueKeys(fields)
    ensures UniqueKeys(Put(fields, f)) && forall g :: g in Put(fields, f) ==> g == f || (g in fields && g.key != f.key)
  {
    if fields != [] && fields[0].key != f.key {
      PutMembers(fields[1..], f);
      var put := Put(fields[1..], f);
      forall j | 0 <= j < |put| ensures put[j].key != fields[0].key {
        assert put[j] in put;
      }
    }
  }

  lemma {:induction false} FromMembers(entries: seq<Field>)
    ensures UniqueKeys(FromEntries(entries)) && forall g :: g in FromEntries(entries) ==> g in entries
  {
    if entries != [] {
      FromMembers(entries[..|entries| - 1]);
      PutMembers(FromEntries(entries[..|entries| - 1]), entries[|entries| - 1]);
    }
  }

  // ---------- deepMap and deepFilter ----------

  function Hide(key: string): string {
    if key == "" then EMPTY_KEY_PLACEHOLDER else key
  }

  function Show(key: string): string {
    if key == EMPTY_KEY_PLACEHOLDER then "" else key
  }

  function At(items: seq<Json>, i: nat): Json {
    if i < |items| then items[i] else Undefined
  }

  // The encoder's function on an array element. An array is taken for the entry of an object: its first two
  // elements are kept, the first one as a key.
  function HideItem(v: Json): Json {
    match v
    case Arr(items) => Arr([if At(items, 0) == Str("") then Str(EMPTY_KEY_PLACEHOLDER) else At(items, 0), At(items, 1)])
    case Undefined => Null
    case _ => v
  }

  function ShowItem(v: Json): Json {
    match v
    case Arr(items) => Arr([if At(items, 0) == Str(EMPTY_KEY_PLACEHOLDER) then Str("") else At(items, 0), At(items, 1)])
    case _ => v
  }

  // deepMap with the encoder's function.
  function Encode(v: Json): Json {
    match v
    case Arr(items) => Arr(seq(|items|, i requires 0 <= i < |items| => HideItem(Encode(items[i]))))
    case Obj(fields) => Obj(FromEntries(EncodeFields(fields)))
    case _ => v
  }

  function EncodeFields(fields: seq<Field>): seq<Field> {
    seq(|fields|, i requires 0 <= i < |fields| => Field(Hide(fields[i].key), Encode(fields[i].value)))
  }

  // deepFilter with `value !== undefined`: it follows arrays, but not the values of objects.
  function Filter(v: Json): Json {
    match v
    case Arr(items) =>
      Arr(seq(|items|, i requires 0 <= i < |items| => if items[i] == Undefined then Bool(false) else Filter(items[i])))
    case Obj(fields) => Obj(DefinedFields(fields))
    case _ => v
  }

  function DefinedFields(fields: seq<Field>): seq<Field> {
    if fields == [] then []
    else (if fields[0].value == Undefined then [] else [fields[0]]) + DefinedFields(fields[1..])
  }

  function Normalize(v: Json): Json {
    Filter(Encode(v))
  }

  // deepMap with the decoder's function.
  function Denormalize(v: Json): Json {
    match v
    case Arr(items) => Arr(seq(|items|, i requires 0 <= i < |items| => ShowItem(Denormalize(items[i]))))
    case Obj(fields) => Obj(FromEntries(DecodeFields(fields)))
    case _ => v
  }

  function DecodeFields(fields: seq<Field>): seq<Field> {
    seq(|fields|, i requires 0 <= i < |fields| => Field(Show(fields[i].key), Denormalize(fields[i].value)))
  }

  // ---------- what survives ----------

  // The trees that come back as they were. `filtered`: deepFilter reaches here.
  ghost predicate Kept(v: Json, filtered: bool)
    decreases v, 0
  {
    match v
    case Arr(items) => forall i :: 0 <= i < |items| ==> KeptItem(items[i], filtered)
    case Obj(fields) => forall i :: 0 <= i < |fields| ==>
      fields[i].key != EMPTY_KEY_PLACEHOLDER && (filtered ==> fields[i].value != Undefined)
        && Kept(fields[i].value, false)
    case _ => true
  }

  // An array in an array comes back only if it is a pair that does not start with the placeholder.
  ghost predicate KeptItem(v: Json, filtered: bool)
    decreases v, 1
  {
    && v != Undefined
    && (v.Arr? ==> |v.items| == 2 && v.items[0] != Str(EMPTY_KEY_PLACEHOLDER))
    && Kept(v, filtered)
  }

  function Stored(v: Json, filtered: bool): Json {
    if filtered then Filter(v) else v
  }

  lemma {:induction false} DefinedAll(fields: seq<Field>)
    requires forall i :: 0 <= i < |fields| ==> fields[i].value != Undefined
    ensures DefinedFields(fields) == fields
  {
    if fields != [] {
      DefinedAll(fields[1..]);
    }
  }

  lemma {:induction false} DefinedMembers(fields: seq<Field>)
    ensures |DefinedFields(fields)| <= |fields|
    ensures forall f :: f in DefinedFields(fields) <==> f in fields && f.value != Undefined
    ensures UniqueKeys(fields) ==> UniqueKeys(DefinedFields(fields))
  {
    if fields != [] {
      DefinedMembers(fields[1..]);
      var rest := DefinedFields(fields[1..]);
      if UniqueKeys(fields) {
        forall j | 0 <= j < |rest| ensures rest[j].key != fields[0].key {
          assert rest[j] in rest && rest[j] in fields[1..];
        }
      }
    }
  }

  lemma EncodeDefined(v: Json)
    ensures Encode(v) == Undefined <==> v == Undefined
    ensures HideItem(Encode(v)) != Undefined
  {}

  ghost predicate PlainObject(fields: seq<Field>, filtered: bool) {
    forall i :: 0 <= i < |fields| ==>
      fields[i].key != EMPTY_KEY_PLACEHOLDER && (filtered ==> fields[i].value != Undefined)
  }

  lemma PlainEncodes(fields: seq<Field>, filtered: bool)
    requires UniqueKeys(fields) && PlainObject(fields, filtered)
    ensures Stored(Encode(Obj(fields)), filtered) == Obj(EncodeFields(fields))
  {
    var encoded := EncodeFields(fields);
    assert UniqueKeys(encoded) by {
      hide Encode;
    }
    FromUnique(encoded);
    if filtered {
      forall i | 0 <= i < |encoded| ensures encoded[i].value != Undefined {
        EncodeDefined(fields[i].value);
      }
      DefinedAll(encoded);
    }
  }

  lemma PlainDecodes(fields: seq<Field>, filtered: bool)
    requires UniqueKeys(fields) && PlainObject(fields, filtered)
    ensures Denormalize(Stored(Encode(Obj(fields)), filtered))
      == Obj(seq(|fields|, i requires 0 <= i < |fields| => Field(fields[i].key, Denormalize(Encode(fields[i].value)))))
  {
    PlainEncodes(fields, filtered);
    hide Encode, Stored;
    var decoded := DecodeFields(EncodeFields(fields));
    assert forall i :: 0 <= i < |fields| ==> decoded[i].key == fields[i].key;
    FromUnique(decoded);
  }

  lemma OnlyPlainObjects(fields: seq<Field>, filtered: bool)
    requires Denormalize(Stored(Encode(Obj(fields)), filtered)) == Obj(fields)
    ensures PlainObject(fields, filtered)
  {
    var encoded := FromEntries(EncodeFields(fields));
    var stored := if filtered then DefinedFields(encoded) else encoded;
    FromMembers(DecodeFields(stored));
    if filtered {
      DefinedMembers(encoded);
    }
    forall i | 0 <= i < |fields|
      ensures fields[i].key != EMPTY_KEY_PLACEHOLDER && (filtered ==> fields[i].value != Undefined)
    {
      assert fields[i] in DecodeFields(stored);
      var j :| 0 <= j < |stored| && fields[i] == DecodeFields(stored)[j];
      assert stored[j] in stored;
    }
  }

  lemma PairDecodes(items: seq<Json>, filtered: bool)
    requires |items| == 2
    ensures ShowItem(Denormalize(Stored(HideItem(Encode(Arr(items))), filtered))) == Arr(items)
      <==> Denormalize(Stored(Encode(Arr(items)), filtered)) == Arr(items) && items[0] != Str(EMPTY_KEY_PLACEHOLDER)
  {
    ArrayDecodes(items, filtered);
    EncodeDefined(items[0]);
    EncodeDefined(items[1]);
    var first, second := HideItem(Encode(items[0])), HideItem(Encode(items[1]));
    assert Encode(Arr(items)) == Arr([first, second]);
    PairShows(first, second, filtered);
  }

  // Encoding and decoding a pair's first element as a key changes the placeholder only.
  lemma PairShows(first: Json, second: Json, filtered: bool)
    requires first != Undefined && second != Undefined
    ensures var plain := Denormalize(Stored(Arr([first, second]), filtered));
      ShowItem(Denormalize(Stored(HideItem(Arr([first, second])), filtered)))
      == if first == Str(EMPTY_KEY_PLACEHOLDER) then Arr([Str(""), plain.items[1]]) else plain
  {
    StrStays(first, filtered);
    TwoDecode(first, second, filtered);
    TwoDecode(if first == Str("") then Str(EMPTY_KEY_PLACEHOLDER) else first, second, filtered);
  }

  lemma TwoDecode(first: Json, second: Json, filtered: bool)
    requires first != Undefined && second != Undefined
    ensures Denormalize(Stored(Arr([first, second]), filtered))
      == Arr([ShowItem(Denormalize(Stored(first, filtered))), ShowItem(Denormalize(Stored(second, filtered)))])
  {}

  lemma StrStays(v: Json, filtered: bool)
    ensures forall s :: ShowItem(Denormalize(Stored(v, filtered))) == Str(s) <==> v == Str(s)
  {}

  // Without deepFilter (`filtered` false) or with it: decoding what was encoded gives the tree back exactly when
  // it is one of those.
  lemma {:induction false} DecodesBack(v: Json, filtered: bool)
    requires Tree(v)
    ensures Denormalize(Stored(Encode(v), filtered)) == v <==> Kept(v, filtered)
    decreases v, 0
  {
    match v
    case Arr(items) =>
      ArrayDecodes(items, filtered);
      forall i | 0 <= i < |items|
        ensures ShowItem(Denormalize(Stored(HideItem(Encode(items[i])), filtered))) == items[i] <==>
          KeptItem(items[i], filtered)
      {
        ItemDecodesBack(items[i], filtered);
      }
    case Obj(fields) =>
      if Denormalize(Stored(Encode(v), filtered)) == v {
        OnlyPlainObjects(fields, filtered);
      }
      if PlainObject(fields, filtered) {
        PlainDecodes(fields, filtered);
        forall i | 0 <= i < |fields|
          ensures Denormalize(Encode(fields[i].value)) == fields[i].value <==> Kept(fields[i].value, false)
        {
          DecodesBack(fields[i].value, false);
        }
      }
    case _ =>
  }

  lemma ArrayDecodes(items: seq<Json>, filtered: bool)
    ensures Denormalize(Stored(Encode(Arr(items)), filtered))
      == Arr(seq(|items|, i requires 0 <= i < |items| =>
                 ShowItem(Denormalize(Stored(HideItem(Encode(items[i])), filtered)))))
  {
    forall i | 0 <= i < |items| ensures HideItem(Encode(items[i])) != Undefined {
      EncodeDefined(items[i]);
    }
  }

  lemma {:induction false} ItemDecodesBack(v: Json, filtered: bool)
    requires Tree(v)
    ensures ShowItem(Denormalize(Stored(HideItem(Encode(v)), filtered))) == v <==> KeptItem(v, filtered)
    decreases v, 1
  {
    if v.Arr? && |v.items| == 2 {
      DecodesBack(v, filtered);
      PairDecodes(v.items, filtered);
    } else if !v.Arr? && v != Undefined {
      DecodesBack(v, filtered);
      assert !Encode(v).Arr? && !Denormalize(Stored(Encode(v), filtered)).Arr?;
    }
  }

  // Decoding an encoded item gives it back exactly when it has no undefined array element, no undefined property
  // at a level that is filtered, no placeholder key, and no array directly in an array but pairs whose first
  // element is not the placeholder.
  lemma RoundTrip(v: Json)
    requires Tree(v)
    ensures Denormalize(Normalize(v)) == v <==> Kept(v, true)
  {
    DecodesBack(v, true);
  }

  // The trees with no array directly in an array.
  ghost predicate Plain(v: Json) {
    match v
    case Undefined => false
    case Arr(items) => forall i :: 0 <= i < |items| ==> !items[i].Arr? && Plain(items[i])
    case Obj(fields) =>
      forall i :: 0 <= i < |fields| ==> fields[i].key != EMPTY_KEY_PLACEHOLDER && Plain(fields[i].value)
    case _ => true
  }

  lemma {:induction false} PlainKept(v: Json, filtered: bool)
    requires Plain(v)
    ensures Kept(v, filtered)
  {
    match v
    case Arr(items) =>
      forall i | 0 <= i < |items| ensures KeptItem(items[i], filtered) {
        PlainKept(items[i], filtered);
      }
    case Obj(fields) =>
      forall i | 0 <= i < |fields| ensures Kept(fields[i].value, false) {
        PlainKept(fields[i].value, false);
      }
    case _ =>
  }

  // So plain trees always come back.
  lemma PlainRoundTrip(v: Json)
    requires Tree(v) && Plain(v)
    ensures Denormalize(Normalize(v)) == v
  {
    PlainKept(v, true);
    RoundTrip(v);
  }

  // A table of rows does not: each row is cut down to two cells.
  lemma RowsAreCut(a: Json, b: Json, c: Json)
    requires Plain(a) && Plain(b) && Plain(c) && Tree(a) && Tree(b) && Tree(c)
    ensures var v := Obj([Field("rows", Arr([Arr([a, b, c])]))]);
      Tree(v) && Denormalize(Normalize(v)) != v
  {
    var row := Arr([a, b, c]);
    var rows := Arr([row]);
    var v := Obj([Field("rows", rows)]);
    assert row.items[0] == a && row.items[1] == b && row.items[2] == c && rows.items[0] == row;
    assert !KeptItem(rows.items[0], false);
    assert v.fields[0].value == rows && !Kept(rows, false);
    RoundTrip(v);
  }

  // ---------- encoding twice ----------

  // No later property gets the same key, so this one is what Object.fromEntries keeps.
  ghost predicate Survives(fields: seq<Field>, i: nat)
    requires i < |fields|
  {
    forall j :: i < j < |fields| ==> Hide(fields[j].key) != Hide(fields[i].key)
  }

  // The trees that encoding twice encodes once. Where deepFilter does not reach, an array directly in an array has
  // at least two elements; of such an array only the first two count.
  ghost predicate Settles(v: Json, filtered: bool)
    decreases v, 0
  {
    match v
    case Arr(items) => forall i :: 0 <= i < |items| ==> SettlesItem(items[i], filtered)
    case Obj(fields) => forall i :: 0 <= i < |fields| && Survives(fields, i) ==> Settles(fields[i].value, false)
    case _ => true
  }

  ghost predicate SettlesItem(v: Json, filtered: bool)
    decreases v, 1
  {
    if v.Arr? then
      && (filtered || |v.items| >= 2)
      && forall i :: 0 <= i < 2 && i < |v.items| ==> SettlesItem(v.items[i], filtered)
    else Settles(v, filtered)
  }

  lemma {:induction false} PutFinds(fields: seq<Field>, f: Field)
    ensures f in Put(fields, f)
    ensures forall g :: g in fields && g.key != f.key ==> g in Put(fields, f)
  {
    if fields != [] && fields[0].key != f.key {
      PutFinds(fields[1..], f);
    }
  }

  ghost predicate Latest(entries: seq<Field>, i: int) {
    0 <= i < |entries| && forall j :: i < j < |entries| ==> entries[j].key != entries[i].key
  }

  lemma {:induction false} FromIsLatest(entries: seq<Field>, g: Field)
    requires g in FromEntries(entries)
    ensures exists i :: Latest(entries, i) && entries[i] == g
  {
    var n := |entries| - 1;
    FromMembers(entries[..n]);
    PutMembers(FromEntries(entries[..n]), entries[n]);
    hide FromEntries, UniqueKeys;
    if g == entries[n] {
      assert Latest(entries, n);
    } else {
      FromIsLatest(entries[..n], g);
      var i :| Latest(entries[..n], i) && entries[..n][i] == g;
      assert Latest(entries, i);
    }
  }

  // Object.fromEntries keeps the latest entry of every key.
  lemma {:induction false} LatestIsKept(entries: seq<Field>, i: int)
    requires Latest(entries, i)
    ensures entries[i] in FromEntries(entries)
  {
    var n := |entries| - 1;
    PutFinds(FromEntries(entries[..n]), entries[n]);
    if i < n {
      assert Latest(entries[..n], i);
      LatestIsKept(entries[..n], i);
    }
  }

  // The properties of an encoded object.
  ghost predicate OnceEncoded(fields: seq<Field>, filtered: bool) {
    UniqueKeys(fields) && forall i ::
      0 <= i < |fields| ==> fields[i].key != "" && (filtered ==> fields[i].value != Undefined)
  }

  function StoredFields(fields: seq<Field>, filtered: bool): seq<Field> {
    var encoded := FromEntries(EncodeFields(fields));
    if filtered then DefinedFields(encoded) else encoded
  }

  lemma StoredOnce(fields: seq<Field>, filtered: bool)
    ensures Stored(Encode(Obj(fields)), filtered) == Obj(StoredFields(fields, filtered))
    ensures OnceEncoded(StoredFields(fields, filtered), filtered)
    ensures forall f :: f in StoredFields(fields, filtered) <==>
      f in FromEntries(EncodeFields(fields)) && (filtered ==> f.value != Undefined)
  {
    var entries := EncodeFields(fields);
    FromMembers(entries);
    DefinedMembers(FromEntries(entries));
    EncodedObject(fields, filtered);
    KeysShown(fields);
    hide Encode, EncodeFields, FromEntries, DefinedFields, UniqueKeys, Stored;
    var stored := StoredFields(fields, filtered);
    forall i | 0 <= i < |stored| ensures stored[i].key != "" && (filtered ==> stored[i].value != Undefined) {
      assert stored[i] in stored && stored[i] in entries;
    }
  }

  lemma EncodedObject(fields: seq<Field>, filtered: bool)
    ensures Stored(Encode(Obj(fields)), filtered) == Obj(StoredFields(fields, filtered))
  {}

  lemma KeysShown(fields: seq<Field>)
    ensures forall f :: f in EncodeFields(fields) ==> f.key != ""
  {}

  // Encoding them again encodes their values again, and nothing else.
  lemma StoredTwice(fields: seq<Field>, filtered: bool)
    requires OnceEncoded(fields, filtered)
    ensures Stored(Encode(Obj(fields)), filtered) == Obj(EncodeFields(fields))
  {
    var twice := EncodeFields(fields);
    assert forall i :: 0 <= i < |fields| ==> twice[i].key == fields[i].key;
    FromUnique(twice);
    if filtered {
      forall i | 0 <= i < |twice| ensures twice[i].value != Undefined {
        EncodeDefined(fields[i].value);
      }
      DefinedAll(twice);
    }
  }

  ghost predicate ValuesStay(fields: seq<Field>) {
    forall i :: 0 <= i < |fields| ==> Encode(fields[i].value) == fields[i].value
  }

  lemma ValuesStayFields(fields: seq<Field>, filtered: bool)
    requires OnceEncoded(fields, filtered)
    ensures EncodeFields(fields) == fields <==> ValuesStay(fields)
  {
    hide Encode;
    if ValuesStay(fields) {
      assert forall i :: 0 <= i < |fields| ==> EncodeFields(fields)[i] == fields[i];
    } else {
      var k :| 0 <= k < |fields| && Encode(fields[k].value) != fields[k].value;
      assert EncodeFields(fields)[k] != fields[k];
    }
  }

  ghost predicate SurvivorsStay(fields: seq<Field>) {
    forall i: nat :: i < |fields| && Survives(fields, i) ==> Encode(Encode(fields[i].value)) == Encode(fields[i].value)
  }

  lemma KeptValuesStay(fields: seq<Field>, filtered: bool)
    requires ValuesStay(StoredFields(fields, filtered))
    ensures SurvivorsStay(fields)
  {
    StoredOnce(fields, filtered);
    hide Encode, Stored, FromEntries, StoredFields, UniqueKeys;
    var entries, once := EncodeFields(fields), StoredFields(fields, filtered);
    forall i: nat | i < |fields| && Survives(fields, i)
      ensures Encode(Encode(fields[i].value)) == Encode(fields[i].value)
    {
      assert Latest(entries, i);
      LatestIsKept(entries, i);
      if entries[i].value == Undefined {
        EncodeUndefined();
      } else {
        assert entries[i] in once;
        var k :| 0 <= k < |once| && once[k] == entries[i];
      }
    }
  }

  lemma SurvivingValuesStay(fields: seq<Field>, filtered: bool)
    requires SurvivorsStay(fields)
    ensures ValuesStay(StoredFields(fields, filtered))
  {
    StoredOnce(fields, filtered);
    hide Encode, Stored, FromEntries, StoredFields, UniqueKeys;
    var entries, once := EncodeFields(fields), StoredFields(fields, filtered);
    forall k | 0 <= k < |once| ensures Encode(once[k].value) == once[k].value {
      assert once[k] in once;
      FromIsLatest(entries, once[k]);
      var i: nat :| Latest(entries, i) && entries[i] == once[k];
      assert forall j :: 0 <= j < |fields| ==> entries[j].key == Hide(fields[j].key);
      assert Survives(fields, i);
    }
  }

  // An encoded object is encoded for good exactly if the values it keeps are.
  lemma ObjectTwice(fields: seq<Field>, filtered: bool)
    ensures var once := Stored(Encode(Obj(fields)), filtered);
      Stored(Encode(once), filtered) == once <==> SurvivorsStay(fields)
  {
    StoredOnce(fields, filtered);
    var once := StoredFields(fields, filtered);
    StoredTwice(once, filtered);
    ValuesStayFields(once, filtered);
    hide Encode, Stored, StoredFields;
    if SurvivorsStay(fields) {
      SurvivingValuesStay(fields, filtered);
    }
    if ValuesStay(once) {
      KeptValuesStay(fields, filtered);
    }
  }

  lemma EncodeUndefined()
    ensures Encode(Undefined) == Undefined
  {}

  // An element of an array, as it is stored.
  function StoredItem(v: Json, filtered: bool): Json {
    Stored(HideItem(Encode(v)), filtered)
  }

  lemma ArrayTwice(items: seq<Json>, filtered: bool)
    ensures Stored(Encode(Arr(items)), filtered)
      == Arr(seq(|items|, i requires 0 <= i < |items| => StoredItem(items[i], filtered)))
  {
    forall i | 0 <= i < |items| ensures HideItem(Encode(items[i])) != Undefined {
      EncodeDefined(items[i]);
    }
  }

  // A cell of a row, as it is stored: the first one as a key.
  function Cell(items: seq<Json>, i: nat, filtered: bool): Json {
    if i >= |items| then (if filtered then Bool(false) else Undefined)
    else if i == 0 && items[0] == Str("") then Str(EMPTY_KEY_PLACEHOLDER)
    else StoredItem(items[i], filtered)
  }

  lemma RowStored(items: seq<Json>, filtered: bool)
    ensures StoredItem(Arr(items), filtered) == Arr([Cell(items, 0, filtered), Cell(items, 1, filtered)])
  {
    var encoded := seq(|items|, i requires 0 <= i < |items| => HideItem(Encode(items[i])));
    assert Encode(Arr(items)) == Arr(encoded);
    var first := if At(encoded, 0) == Str("") then Str(EMPTY_KEY_PLACEHOLDER) else At(encoded, 0);
    var second := At(encoded, 1);
    assert HideItem(Arr(encoded)) == Arr([first, second]);
    PairStored(first, second, filtered);
    hide Encode, HideItem, Filter;
    if |items| > 0 {
      ItemKeepsStrings(items[0]);
      FilterKeepsStrings(encoded[0]);
      FilterKeepsStrings(Str(EMPTY_KEY_PLACEHOLDER));
      assert Cell(items, 0, filtered) == StoredCell(first, filtered);
    }
    if |items| > 1 {
      ItemKeepsStrings(items[1]);
      assert Cell(items, 1, filtered) == StoredCell(second, filtered);
    }
  }

  function StoredCell(cell: Json, filtered: bool): Json {
    if filtered && cell == Undefined then Bool(false) else Stored(cell, filtered)
  }

  lemma PairStored(first: Json, second: Json, filtered: bool)
    ensures Stored(Arr([first, second]), filtered) == Arr([StoredCell(first, filtered), StoredCell(second, filtered)])
  {
    if filtered {
      assert Filter(Arr([first, second])).items == [StoredCell(first, true), StoredCell(second, true)];
    }
  }

  lemma FilterKeepsStrings(v: Json)
    ensures Filter(v) == Undefined <==> v == Undefined
    ensures Filter(v) == Str("") <==> v == Str("")
    ensures v.Str? ==> Filter(v) == v
  {
    match v {
      case Arr(_) =>
      case Obj(_) =>
      case _ =>
    }
  }

  lemma ItemKeepsStrings(v: Json)
    ensures HideItem(Encode(v)) != Undefined
    ensures HideItem(Encode(v)) == Str("") <==> v == Str("")
  {
    match v {
      case Arr(_) =>
      case Obj(_) =>
      case _ =>
    }
  }

  lemma StoredItemDefined(v: Json, filtered: bool)
    ensures StoredItem(v, filtered) != Undefined && (StoredItem(v, filtered) == Str("") <==> v == Str(""))
  {
    hide Filter, HideItem, Encode;
    ItemKeepsStrings(v);
    FilterKeepsStrings(HideItem(Encode(v)));
  }

  // An array in an array, if its first two cells are as said.
  lemma SettledRow(items: seq<Json>, filtered: bool)
    requires forall i :: 0 <= i < 2 && i < |items| ==>
      (StoredItem(StoredItem(items[i], filtered), filtered) == StoredItem(items[i], filtered)
       <==> SettlesItem(items[i], filtered))
    ensures StoredItem(StoredItem(Arr(items), filtered), filtered) == StoredItem(Arr(items), filtered)
      <==> SettlesItem(Arr(items), filtered)
  {
    var first, second := Cell(items, 0, filtered), Cell(items, 1, filtered);
    RowStored(items, filtered);
    RowStored([first, second], filtered);
    StoredLeaves(filtered);
    hide StoredItem, Settles;
    if |items| > 0 {
      StoredItemDefined(items[0], filtered);
    }
    if |items| > 1 {
      StoredItemDefined(items[1], filtered);
    }
    assert Cell([first, second], 0, filtered) == first <==> SettlesCell(items, 0, filtered);
    assert Cell([first, second], 1, filtered) == second <==> SettlesCell(items, 1, filtered);
    SettlesRow(items, filtered);
  }

  ghost predicate SettlesCell(items: seq<Json>, i: nat, filtered: bool) {
    if i < |items| then SettlesItem(items[i], filtered) else filtered
  }

  lemma SettlesRow(items: seq<Json>, filtered: bool)
    ensures SettlesItem(Arr(items), filtered) <==> SettlesCell(items, 0, filtered) && SettlesCell(items, 1, filtered)
  {
    hide Settles;
    var cells := forall i :: 0 <= i < 2 && i < |items| ==> SettlesItem(items[i], filtered);
    assert SettlesItem(Arr(items), filtered) <==> (filtered || |items| >= 2) && cells;
  }

  lemma StoredLeaves(filtered: bool)
    ensures StoredItem(Undefined, filtered) == Null
    ensures StoredItem(Bool(false), filtered) == Bool(false)
    ensures StoredItem(Str(""), filtered) == Str("")
    ensures StoredItem(Str(EMPTY_KEY_PLACEHOLDER), filtered) == Str(EMPTY_KEY_PLACEHOLDER)
    ensures SettlesItem(Str(""), filtered)
  {}

  // Storing an array element twice; and storing twice what is stored once, exactly when the tree settles.
  lemma {:induction false} SettledItem(v: Json, filtered: bool)
    ensures StoredItem(StoredItem(v, filtered), filtered) == StoredItem(v, filtered) <==> SettlesItem(v, filtered)
    decreases v, 1
  {
    if v.Arr? {
      forall i | 0 <= i < 2 && i < |v.items|
        ensures StoredItem(StoredItem(v.items[i], filtered), filtered) == StoredItem(v.items[i], filtered)
          <==> SettlesItem(v.items[i], filtered)
      {
        SettledItem(v.items[i], filtered);
      }
      SettledRow(v.items, filtered);
    } else if v != Undefined {
      SettledTree(v, filtered);
      assert !Encode(v).Arr? && Encode(v) != Undefined;
      assert !Stored(Encode(v), filtered).Arr?;
    }
  }

  lemma {:induction false} SettledTree(v: Json, filtered: bool)
    ensures Stored(Encode(Stored(Encode(v), filtered)), filtered) == Stored(Encode(v), filtered) <==>
      Settles(v, filtered)
    decreases v, 0
  {
    match v
    case Arr(items) =>
      ArrayTwice(items, filtered);
      var once := seq(|items|, i requires 0 <= i < |items| => StoredItem(items[i], filtered));
      ArrayTwice(once, filtered);
      forall i | 0 <= i < |items|
        ensures StoredItem(once[i], filtered) == once[i] <==> SettlesItem(items[i], filtered)
      {
        SettledItem(items[i], filtered);
      }
      var twice := seq(|items|, i requires 0 <= i < |items| => StoredItem(once[i], filtered));
      assert twice == once <==> forall i :: 0 <= i < |items| ==> StoredItem(once[i], filtered) == once[i];
    case Obj(fields) =>
      ObjectTwice(fields, filtered);
      forall i | 0 <= i < |fields|
        ensures Encode(Encode(fields[i].value)) == Encode(fields[i].value) <==> Settles(fields[i].value, false)
      {
        SettledTree(fields[i].value, false);
      }
    case _ =>
  }

  // Encoding a second time changes nothing, exactly for these trees.
  lemma NormalizeIdempotent(v: Json)
    ensures Normalize(Normalize(v)) == Normalize(v) <==> Settles(v, true)
  {
    SettledTree(v, true);
  }

  lemma {:induction false} PlainSettles(v: Json, filtered: bool)
    requires Plain(v)
    ensures Settles(v, filtered)
  {
    match v
    case Arr(items) =>
      forall i | 0 <= i < |items| ensures SettlesItem(items[i], filtered) {
        PlainSettles(items[i], filtered);
      }
    case Obj(fields) =>
      forall i | 0 <= i < |fields| ensures Settles(fields[i].value, false) {
        PlainSettles(fields[i].value, false);
      }
    case _ =>
  }

  // A shorter array in an array: the missing cells are null the second time.
  lemma ShortRowsChange()
    ensures var v := Obj([Field("rows", Arr([Arr([])]))]);
      Normalize(Normalize(v)) != Normalize(v)
  {
    var v := Obj([Field("rows", Arr([Arr([])]))]);
    var once, twice := Arr([Arr([Undefined, Undefined])]), Arr([Arr([Null, Null])]);
    assert Encode(Arr([])) == Arr([]);
    assert Encode(Arr([Arr([])])) == once;
    OneField("rows", Arr([Arr([])]), once);
    assert Encode(Arr([Undefined, Undefined])) == Arr([Null, Null]);
    assert Encode(once) == twice;
    OneField("rows", once, twice);
    assert once.items[0].items[0] == Undefined && twice.items[0].items[0] == Null;
  }

  lemma OneField(key: string, v: Json, w: Json)
    requires key != "" && Encode(v) == w && w != Undefined
    ensures Normalize(Obj([Field(key, v)])) == Obj([Field(key, w)])
  {
    assert EncodeFields([Field(key, v)]) == [Field(key, w)];
    FromUnique([Field(key, w)]);
    DefinedAll([Field(key, w)]);
  }

  // ---------- batch puts, whose retries encode again ----------

  // Retries change no item of a batch exactly if all its items settle.
  lemma StableExactly<K(!new)>(writes: seq<Write<K, Json>>)
    ensures Stable(Normalize, writes) <==> forall w :: w in writes && w.item.Some? ==> Settles(w.item.value, true)
  {
    forall w: Write<K, Json> | w.item.Some?
      ensures Sent(Normalize, Sent(Normalize, w)) == Sent(Normalize, w) <==> Settles(w.item.value, true)
    {
      NormalizeIdempotent(w.item.value);
    }
  }

  // Batch puts of such items store each item encoded once, whatever is left unprocessed.
  lemma BatchPutsConserve<K(!new)>(base: map<K, Json>, writes: seq<Write<K, Json>>, chunks: seq<seq<Write<K, Json>>>,
                                   requests: seq<Request<K, Json>>, f': Flight<K, Json>)
    requires DistinctKeys(writes) && ChunksOf(chunks, writes, BATCH_WRITE_LIMIT)
      && Lands(Normalize, base, chunks, requests, f')
    requires forall w :: w in writes && w.item.Some? ==> Settles(w.item.value, true)
    ensures f'.table == ApplyAll(base, SentAll(Normalize, writes)) && f'.count == |writes|
  {
    StableExactly(writes);
    BatchConserves(Normalize, base, writes, chunks, requests, f');
  }

  // And exactly such batches do.
  lemma BatchPutsConserveExactly<K(!new)>(base: map<K, Json>, writes: seq<Write<K, Json>>,
                                          chunks: seq<seq<Write<K, Json>>>)
    requires DistinctKeys(writes) && ChunksOf(chunks, writes, BATCH_WRITE_LIMIT)
    ensures (forall requests, f' ::
               Lands(Normalize, base, chunks, requests, f') ==> f'.table == ApplyAll(base, SentAll(Normalize, writes)))
      <==> forall w :: w in writes && w.item.Some? ==> Settles(w.item.value, true)
  {
    StableExactly(writes);
    BatchConservesExactly(Normalize, base, writes, chunks);
  }

  // ---------- what is stored ----------

  // No object has an empty key, at any depth; the service would refuse one.
  ghost predicate KeysFilled(v: Json) {
    match v
    case Arr(items) => forall i :: 0 <= i < |items| ==> KeysFilled(items[i])
    case Obj(fields) => forall i :: 0 <= i < |fields| ==> fields[i].key != "" && KeysFilled(fields[i].value)
    case _ => true
  }

  lemma HiddenKeysFilled(v: Json)
    requires KeysFilled(v)
    ensures KeysFilled(HideItem(v))
  {}

  lemma {:induction false} EncodedKeysFilled(v: Json)
    ensures KeysFilled(Encode(v))
  {
    match v {
      case Arr(items) =>
        forall i | 0 <= i < |items| ensures KeysFilled(HideItem(Encode(items[i]))) {
          EncodedKeysFilled(items[i]);
          HiddenKeysFilled(Encode(items[i]));
        }
      case Obj(fields) =>
        var entries := EncodeFields(fields);
        FromMembers(entries);
        var stored := FromEntries(entries);
        forall i | 0 <= i < |stored| ensures stored[i].key != "" && KeysFilled(stored[i].value) {
          assert stored[i] in stored;
          var j :| 0 <= j < |entries| && entries[j] == stored[i];
          EncodedKeysFilled(fields[j].value);
        }
      case _ =>
    }
  }

  lemma {:induction false} FilteredKeysFilled(v: Json)
    requires KeysFilled(v)
    ensures KeysFilled(Filter(v))
  {
    match v {
      case Arr(items) =>
        forall i | 0 <= i < |items| ensures KeysFilled(Filter(items[i])) {
          FilteredKeysFilled(items[i]);
        }
      case Obj(fields) =>
        DefinedMembers(fields);
        var kept := DefinedFields(fields);
        forall i | 0 <= i < |kept| ensures kept[i].key != "" && KeysFilled(kept[i].value) {
          assert kept[i] in kept;
        }
      case _ =>
    }
  }

  // What is stored has no empty key, an item has no undefined property, and what was undefined in an array is null.
  lemma StoredIsClean(fields: seq<Field>, items: seq<Json>)
    ensures KeysFilled(Normalize(Obj(fields)))
    ensures forall f :: f in Normalize(Obj(fields)).fields ==> f.value != Undefined
    ensures |Encode(Arr(items)).items| == |items|
    ensures forall i :: 0 <= i < |items| ==>
      (Encode(Arr(items)).items[i] == Null <==> items[i] == Null || items[i] == Undefined)
  {
    EncodedKeysFilled(Obj(fields));
    FilteredKeysFilled(Encode(Obj(fields)));
    DefinedMembers(FromEntries(EncodeFields(fields)));
    forall i | 0 <= i < |items|
      ensures HideItem(Encode(items[i])) == Null <==> items[i] == Null || items[i] == Undefined
    {
      match items[i] {
        case Arr(_) =>
        case Obj(_) =>
        case _ =>
      }
    }
  }
}
