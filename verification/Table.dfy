/**
 * The single table: put-or-merge saves, batch writes with retries, and deleting items while paging over them.
 */
module Table {
  import opened Wrappers
  import opened Keys
  import opened Paging
  import opened Batch

  datatype Key = Key(partitionId: string, entityId: string)

  datatype Value = Millis(n: nat) | Json(text: string)

  // An item's fields besides its key and its type.
  datatype Item = Item(entityType: string, fields: map<string, Value>)

  // What a caller passes to be saved; a field may be undefined.
  datatype Entity = Entity(key: Key, entityType: string, fields: map<string, Option<Value>>)

  // normalizeData skips undefined fields.
  function Defined(fields: map<string, Option<Value>>): map<string, Value> {
    map f | f in fields && fields[f].Some? :: fields[f].value
  }

  function Created(e: Entity, now: nat): Item {
    Item(e.entityType, map["createdAt" := Millis(now), "updatedAt" := Millis(now)] + Defined(e.fields))
  }

  function Merged(item: Item, e: Entity, now: nat): Item {
    item.(fields := item.fields + map["updatedAt" := Millis(now)] + Defined(e.fields))
  }

  // saveItem: put if the key is new, merge otherwise.
  function Saved(items: map<Key, Item>, e: Entity, now: nat): map<Key, Item> {
    items[e.key := if e.key in items then Merged(items[e.key], e, now) else Created(e, now)]
  }

  // ---------- field-wise last writer wins ----------

  datatype Call = Call(entity: Entity, now: nat)

  function SaveAll(items: map<Key, Item>, calls: seq<Call>): map<Key, Item> {
    if calls == [] then items
    else
      var last := calls[|calls| - 1];
      Saved(SaveAll(items, calls[..|calls| - 1]), last.entity, last.now)
  }

  predicate Defines(c: Call, key: Key, field: string) {
    c.entity.key == key && field in c.entity.fields && c.entity.fields[field].Some?
  }

  // Call i is the last one that defined this field of this key.
  ghost predicate LastDefines(calls: seq<Call>, i: int, key: Key, field: string) {
    0 <= i < |calls| && Defines(calls[i], key, field) && forall j :: i < j < |calls| ==> !Defines(calls[j], key, field)
  }

  ghost predicate NeverDefined(calls: seq<Call>, key: Key, field: string) {
    forall j :: 0 <= j < |calls| ==> !Defines(calls[j], key, field)
  }

  function Field(items: map<Key, Item>, key: Key, field: string): Option<Value> {
    if key in items && field in items[key].fields then Some(items[key].fields[field]) else None
  }

  // One save changes the fields it defines, of its own key, and nothing else but the timestamps.
  lemma SaveChangesDefined(items: map<Key, Item>, c: Call, key: Key, field: string)
    requires field != "updatedAt"
    ensures Field(Saved(items, c.entity, c.now), key, field)
      == if Defines(c, key, field) then c.entity.fields[field]
         else if key in items || c.entity.key != key || field != "createdAt" then Field(items, key, field)
         else Some(Millis(c.now))
  {}

  // After any calls, a field other than the update time holds what the last call that defined it gave, and, unless it
  // is the creation time, what it held before if none did; a call with the field undefined never erases it.
  lemma {:induction false} LastWriterWins(items: map<Key, Item>, calls: seq<Call>, key: Key, field: string)
    requires field != "updatedAt"
    ensures forall i :: LastDefines(calls, i, key, field) ==>
      Field(SaveAll(items, calls), key, field) == calls[i].entity.fields[field]
    ensures NeverDefined(calls, key, field) && field != "createdAt" ==>
      Field(SaveAll(items, calls), key, field) == Field(items, key, field)
    decreases |calls|
  {
    hide Saved, Field, Defined;
    if calls != [] {
      var n := |calls| - 1;
      var before := calls[..n];
      LastWriterWins(items, before, key, field);
      SaveAllKeys(items, before, key);
      SaveChangesDefined(SaveAll(items, before), calls[n], key, field);
      if NeverDefined(calls, key, field) {
        assert NeverDefined(before, key, field);
      }
      forall i | LastDefines(calls, i, key, field)
        ensures Field(SaveAll(items, calls), key, field) == calls[i].entity.fields[field]
      {
        if i < n {
          assert LastDefines(before, i, key, field);
          assert before[i].entity.key == key by {
            assert Defines(before[i], key, field);
          }
        }
      }
    }
  }

  ghost predicate FirstSaves(calls: seq<Call>, i: int, key: Key) {
    0 <= i < |calls| && calls[i].entity.key == key && forall j :: 0 <= j < i ==> calls[j].entity.key != key
  }

  // The keys stored are the old ones and the saved ones.
  lemma {:induction false} SaveAllKeys(items: map<Key, Item>, calls: seq<Call>, key: Key)
    ensures key in SaveAll(items, calls) <==> key in items || exists i :: 0 <= i < |calls| && calls[i].entity.key == key
    decreases |calls|
  {
    hide Merged, Created;
    if calls != [] {
      var n := |calls| - 1;
      SaveAllKeys(items, calls[..n], key);
      assert forall i :: 0 <= i < n ==> calls[..n][i] == calls[i];
    }
  }

  // The type of an item is that of its first save, and never changes after.
  lemma {:induction false} SaveAllTypes(items: map<Key, Item>, calls: seq<Call>, key: Key)
    requires key in SaveAll(items, calls)
    ensures key in items ==> SaveAll(items, calls)[key].entityType == items[key].entityType
    ensures key !in items ==>
      exists i :: FirstSaves(calls, i, key) && SaveAll(items, calls)[key].entityType == calls[i].entity.entityType
    decreases |calls|
  {
    if calls != [] {
      var n := |calls| - 1;
      var before := calls[..n];
      SaveAllKeys(items, before, key);
      if key in SaveAll(items, before) {
        SaveAllTypes(items, before, key);
        if key !in items {
          var i :| FirstSaves(before, i, key) && SaveAll(items, before)[key].entityType == before[i].entity.entityType;
          assert FirstSaves(calls, i, key);
        }
      } else {
        assert forall i :: 0 <= i < n ==> before[i] == calls[i];
        assert FirstSaves(calls, n, key);
      }
    }
  }

  lemma SaveKeepsCreation(items: map<Key, Item>, c: Call, key: Key)
    requires !Defines(c, key, "createdAt")
    ensures Field(Saved(items, c.entity, c.now), key, "createdAt")
      == if c.entity.key == key && key !in items then Some(Millis(c.now)) else Field(items, key, "createdAt")
    ensures key in Saved(items, c.entity, c.now) <==> key in items || c.entity.key == key
  {}

  ghost predicate CreatedAt(calls: seq<Call>, i: int, key: Key) {
    FirstSaves(calls, i, key) && Field(SaveAll(map[], calls), key, "createdAt") == Some(Millis(calls[i].now))
  }

  // Unless a caller defines it, the creation time is the time of the first save.
  lemma {:induction false} CreationTime(calls: seq<Call>, key: Key)
    requires NeverDefined(calls, key, "createdAt") && key in SaveAll(map[], calls)
    ensures exists i :: CreatedAt(calls, i, key)
    decreases |calls|
  {
    hide Saved, Field, Defines;
    var n := |calls| - 1;
    var before := calls[..n];
    assert NeverDefined(before, key, "createdAt") && !Defines(calls[n], key, "createdAt");
    SaveKeepsCreation(SaveAll(map[], before), calls[n], key);
    if key in SaveAll(map[], before) {
      CreationTime(before, key);
      var i :| CreatedAt(before, i, key);
      assert FirstSaves(calls, i, key);
      assert CreatedAt(calls, i, key);
    } else {
      NeverSaved(before, key);
      assert FirstSaves(calls, n, key);
      assert CreatedAt(calls, n, key);
    }
  }

  ghost predicate UpdatedAt(calls: seq<Call>, i: int, key: Key) {
    && 0 <= i < |calls| && calls[i].entity.key == key && (forall j :: i < j < |calls| ==> calls[j].entity.key != key)
    && Field(SaveAll(map[], calls), key, "updatedAt")
       == if Defines(calls[i], key, "updatedAt") then calls[i].entity.fields["updatedAt"]
          else Some(Millis(calls[i].now))
  }

  // The update time is the time of the last save, or what that save gives.
  lemma {:induction false} UpdateTime(calls: seq<Call>, key: Key)
    requires key in SaveAll(map[], calls)
    ensures exists i :: UpdatedAt(calls, i, key)
    decreases |calls|
  {
    var n := |calls| - 1;
    var before := calls[..n];
    SaveSetsUpdate(SaveAll(map[], before), calls[n], key);
    hide Saved, Field, Defines;
    if calls[n].entity.key == key {
      assert UpdatedAt(calls, n, key);
    } else {
      UpdateTime(before, key);
      var i :| UpdatedAt(before, i, key);
      assert UpdatedAt(calls, i, key);
    }
  }

  lemma SaveSetsUpdate(items: map<Key, Item>, c: Call, key: Key)
    ensures Field(Saved(items, c.entity, c.now), key, "updatedAt")
      == if Defines(c, key, "updatedAt") then c.entity.fields["updatedAt"]
         else if c.entity.key == key then Some(Millis(c.now))
         else Field(items, key, "updatedAt")
    ensures key in Saved(items, c.entity, c.now) <==> key in items || c.entity.key == key
  {}

  lemma NeverSaved(calls: seq<Call>, key: Key)
    requires key !in SaveAll(map[], calls)
    ensures forall i :: 0 <= i < |calls| ==> calls[i].entity.key != key
  {
    SaveAllKeys(map[], calls, key);
  }

  // ---------- keys as range queries see them ----------

  function PartitionKeys(items: map<Key, Item>, partitionId: string): set<string> {
    set k | k in items && k.partitionId == partitionId :: k.entityId
  }

  function KeysIn(partitionId: string, entityIds: set<string>): set<Key> {
    set e | e in entityIds :: Key(partitionId, e)
  }

  function DeletesOf(partitionId: string, entityIds: seq<string>): (writes: seq<Write<Key, Item>>)
    ensures |writes| == |entityIds|
    ensures forall i :: 0 <= i < |writes| ==> writes[i] == Write(Key(partitionId, entityIds[i]), None)
  {
    seq(|entityIds|, i requires 0 <= i < |entityIds| => Write(Key(partitionId, entityIds[i]), None))
  }

  class DynamoTable {
    const tableName: string
    const strict: bool              // whether a cursor outside the key condition is refused
    const encode: Item -> Item      // what a put does to an item before it is sent
    var items: map<Key, Item>
    var unprocessed: seq<set<Key>>  // what the next batch requests leave unprocessed; once used up, nothing
    var limits: seq<nat>            // the page sizes of the next queries; once used up, a page holds everything

    constructor (tableName: string, strict: bool, encode: Item -> Item, items: map<Key, Item>,
                 unprocessed: seq<set<Key>>, limits: seq<nat>)
      ensures this.tableName == tableName && this.strict == strict && this.encode == encode
      ensures this.items == items && this.unprocessed == unprocessed && this.limits == limits
    {
      this.tableName, this.strict, this.encode := tableName, strict, encode;
      this.items, this.unprocessed, this.limits := items, unprocessed, limits;
    }

    // putItem with its condition; false: ConditionalCheckFailedException.
    method PutItem(e: Entity, now: nat) returns (ok: bool)
      modifies `items
      ensures ok <==> e.key !in old(items)
      ensures items == if ok then old(items)[e.key := Created(e, now)] else old(items)
    {
      ok := e.key !in items;
      if ok {
        items := items[e.key := Created(e, now)];
      }
    }

    // updateItem with its condition.
    method UpdateItem(e: Entity, now: nat) returns (ok: bool)
      modifies `items
      ensures ok <==> e.key in old(items)
      ensures items == if ok then old(items)[e.key := Merged(old(items)[e.key], e, now)] else old(items)
    {
      ok := e.key in items;
      if ok {
        items := items[e.key := Merged(items[e.key], e, now)];
      }
    }

    method SaveItem(e: Entity, now: nat)
      modifies `items
      ensures items == Saved(old(items), e, now)
    {
      var put := PutItem(e, now);
      if !put {
        var updated := UpdateItem(e, now);
      }
    }

    // One batchWrite request: some is written, the rest comes back, encoded.
    method SendRequest(writes: seq<Write<Key, Item>>) returns (rest: seq<Write<Key, Item>>, ghost r: Request<Key, Item>)
      requires DistinctKeys(writes) && writes != [] && |writes| <= BATCH_WRITE_LIMIT
      modifies `items, `unprocessed
      ensures multiset(r.written) + multiset(r.unprocessed) == multiset(writes)
      ensures items == ApplyAll(old(items), SentAll(encode, r.written)) && rest == SentAll(encode, r.unprocessed)
      ensures unprocessed == if old(unprocessed) == [] then [] else old(unprocessed)[1..]
      ensures old(unprocessed) == [] ==> rest == []
      ensures DistinctKeys(rest) && r.c == 0
    {
      var left := if unprocessed == [] then {} else unprocessed[0];
      var again, written := Among(writes, left), Among(writes, AllKeys(writes) - left);
      AmongSplits(writes, left);
      SentMembers(encode, again);
      items := ApplyAll(items, SentAll(encode, written));
      unprocessed := if unprocessed == [] then [] else unprocessed[1..];
      rest, r := SentAll(encode, again), Request(0, written, again);
    }

    // _batchPut and _batchDelete: send, then send again what was left unprocessed.
    method WriteChunk(writes: seq<Write<Key, Item>>) returns (count: nat)
      requires DistinctKeys(writes) && |writes| <= BATCH_WRITE_LIMIT
      modifies `items, `unprocessed
      ensures Stable(encode, writes) ==> items == ApplyAll(old(items), SentAll(encode, writes))
      ensures count == |writes|
      decreases |unprocessed|
    {
      if writes == [] {
        return 0;
      }
      var rest, request := SendRequest(writes);
      SplitMembers(writes, request.written, request.unprocessed);
      ghost var middle := items;
      if rest == [] {
        if Stable(encode, writes) {
          SentInTwo(encode, old(items), writes, request.written, request.unprocessed);
        }
        return |writes|;
      }
      count := WriteChunk(rest);
      if Stable(encode, writes) {
        SentInTwo(encode, old(items), writes, request.written, request.unprocessed);
      }
      count := |writes| - |rest| + count;
    }

    ghost function Flying(chunks: seq<seq<Write<Key, Item>>>, count: nat): Flight<Key, Item>
      reads this
    {
      Flight(items, chunks, count)
    }

    // batchPut and batchDelete: all chunks at once, their requests in any order.
    method BatchWrite(writes: seq<Write<Key, Item>>) returns (count: nat)
      requires DistinctKeys(writes)
      modifies `items, `unprocessed
      ensures Stable(encode, writes) ==> items == ApplyAll(old(items), SentAll(encode, writes))
      ensures count == |writes|
    {
      hide FlightOk, Stable, DistinctKeys, Flatten, SentAll, ApplyAll, Sendable;
      var chunks := GetChunks(writes, BATCH_WRITE_LIMIT);
      count := 0;
      ghost var stable := Stable(encode, writes);
      FlightStarts(encode, items, writes, chunks);
      ChunksSendable(chunks, writes);
      while exists c :: 0 <= c < |chunks| && chunks[c] != []
        invariant stable ==> FlightOk(encode, old(items), writes, Flying(chunks, count))
        invariant count + |Flatten(chunks)| == |writes|
        invariant Sendable(chunks)
        decreases |unprocessed|, |Flatten(chunks)|
      {
        var c :| 0 <= c < |chunks| && chunks[c] != [];
        ghost var before := Flying(chunks, count);
        ChunkSendable(chunks, c);
        var rest, request := SendRequest(chunks[c]);
        ghost var r := Request(c, request.written, request.unprocessed);
        SplitMembers(chunks[c], r.written, r.unprocessed);
        FlattenUpdate(chunks, c, rest);
        if stable {
          SendKeeps(encode, old(items), writes, before, r);
        }
        StillSendable(chunks, c, rest);
        count := count + |chunks[c]| - |rest|;
        chunks := chunks[c := rest];
      }
      AllEmpty(chunks);
      if stable {
        FlightLands(encode, old(items), writes, Flying(chunks, count));
      }
    }

    // queryByType from a cursor on; Throws: the service refused the cursor.
    method Query(partitionId: string, prefix: string, cursor: Option<string>) returns (page: Outcome<Page>)
      modifies `limits
      ensures limits == Tail(old(limits))
      ensures var range := InRange(PartitionKeys(items, partitionId), prefix, cursor);
        page == if strict && cursor.Some? && !(prefix <= cursor.value) then Throws
                else Returns(PageOf(range, Limit(old(limits), |range| + 1)))
    {
      var range := InRange(PartitionKeys(items, partitionId), prefix, cursor);
      page := if strict && cursor.Some? && !(prefix <= cursor.value) then Throws
              else Returns(PageOf(range, Limit(limits, |range| + 1)));
      limits := Tail(limits);
    }

    method DeletePage(partitionId: string, ghost range: set<string>, keys: seq<string>)
      requires keys <= Ordered(range)
      modifies `items, `unprocessed
      ensures items == old(items) - KeysIn(partitionId, Members(keys))
    {
      OrderedDistinct(range);
      DeletesRemove(items, partitionId, keys);
      assert SentAll(encode, DeletesOf(partitionId, keys)) == DeletesOf(partitionId, keys);
      var count := BatchWrite(DeletesOf(partitionId, keys));
    }

    // The queries behind the first one, each page deleted before the next query.
    method DeleteLater(partitionId: string, prefix: string, cursor: string)
      requires strict ==> prefix <= cursor
      modifies `items, `unprocessed, `limits
      ensures items
        == old(items) - KeysIn(partitionId, InRange(PartitionKeys(old(items), partitionId), prefix, Some(cursor)))
      decreases |InRange(PartitionKeys(items, partitionId), prefix, Some(cursor))|
    {
      hide Ordered, Less;
      ghost var keys := PartitionKeys(items, partitionId);
      ghost var range := InRange(keys, prefix, Some(cursor));
      ghost var limit := Limit(limits, |range| + 1);
      var answer := Query(partitionId, prefix, Some(cursor));
      var page := answer.value;
      PageIsPrefix(range, limit);
      DeletePage(partitionId, range, page.keys);
      if page.lastEvaluated.Some? {
        assert page.lastEvaluated.value in Members(page.keys);
        NextRange(keys, prefix, Some(cursor), limit);
        DeletingBehindTheCursor(keys, prefix, Some(cursor), limit);
        PartitionKeysLess(old(items), partitionId, Members(page.keys));
        assert InRange(PartitionKeys(items, partitionId), prefix, page.lastEvaluated) == range - Members(page.keys);
        DeleteLater(partitionId, prefix, page.lastEvaluated.value);
        RemoveInTwo(old(items), partitionId, Members(page.keys), range);
      }
    }

    // deleteReceipts and deleteTokenReceipts: delete each page of a type before the next one is asked for;
    // false: the service refused the cursor of the second query.
    method DeleteByType(partitionId: string, entityType: string) returns (ok: bool)
      modifies `items, `unprocessed, `limits
      ensures var keys := PartitionKeys(old(items), partitionId);
        && items == old(items)
          - KeysIn(partitionId, Members(YieldedByType(keys, entityType, "", tableName, old(limits), strict)))
        && (ok <==> CollectByType(keys, entityType, "", tableName, old(limits), strict).Returns?)
        // nothing of the type is left exactly if the first page left nothing, or the later queries find what it left
        && (Matching(PartitionKeys(items, partitionId), EntityId(entityType, "")) == {}
            <==> YieldsWholeType(keys, entityType, tableName, old(limits), strict))
    {
      hide Ordered, Less;
      ghost var keys := PartitionKeys(items, partitionId);
      var prefix := EntityId(entityType, "");
      ghost var range := Matching(keys, prefix);
      ghost var limit := Limit(limits, |range| + 1);
      YieldedKeys(keys, entityType, "", tableName, limits, strict);
      NothingLeftExactly(items, partitionId, entityType, tableName, limits, strict);
      var first := Query(partitionId, prefix, None);
      var page := first.value;
      PageIsPrefix(range, limit);
      DeletePage(partitionId, range, page.keys);
      if page.lastEvaluated.None? {
        return true;
      }
      DeletingBehindTheCursor(keys, prefix, None, limit);
      PartitionKeysLess(old(items), partitionId, Members(page.keys));
      var later, cursor := LaterPrefix(entityType, tableName), page.lastEvaluated;
      if strict && !(later <= cursor.value) {
        var refused := Query(partitionId, later, cursor);
        return false;
      }
      ghost var rest := InRange(keys, later, cursor);
      assert rest == InRange(PartitionKeys(items, partitionId), later, cursor);
      DeleteLater(partitionId, later, cursor.value);
      RemoveBoth(old(items), partitionId, Members(page.keys), rest);
      return true;
    }
  }

  lemma PageIsPrefix(range: set<string>, limit: nat)
    ensures var page := PageOf(range, limit);
      && page.keys <= Ordered(range) && Members(page.keys) <= range
      && (page.lastEvaluated.None? ==> Members(page.keys) == range)
      && (page.lastEvaluated.Some? ==> page.lastEvaluated.value in page.keys)
  {}

  lemma PartitionKeysLess(items: map<Key, Item>, partitionId: string, gone: set<string>)
    ensures PartitionKeys(items - KeysIn(partitionId, gone), partitionId) == PartitionKeys(items, partitionId) - gone
  {
    var left := items - KeysIn(partitionId, gone);
    forall e | e in PartitionKeys(items, partitionId) - gone ensures e in PartitionKeys(left, partitionId) {
      assert Key(partitionId, e) in left;
    }
  }

  lemma EmptyDifference<T>(a: set<T>, b: set<T>)
    ensures a - b == {} <==> a <= b
  {
    if a - b == {} {
      forall x | x in a ensures x in b {
        assert x !in a - b;
      }
    }
  }

  lemma NothingLeftExactly(items: map<Key, Item>, partitionId: string, entityType: string, tableName: string,
                           limits: seq<nat>, strict: bool)
    ensures var keys := PartitionKeys(items, partitionId);
      var left := items - KeysIn(partitionId, Members(YieldedByType(keys, entityType, "", tableName, limits, strict)));
      Matching(PartitionKeys(left, partitionId), EntityId(entityType, "")) == {}
      <==> YieldsWholeType(keys, entityType, tableName, limits, strict)
  {
    hide YieldedByType, YieldsWholeType;
    var keys := PartitionKeys(items, partitionId);
    var gone := Members(YieldedByType(keys, entityType, "", tableName, limits, strict));
    PartitionKeysLess(items, partitionId, gone);
    YieldsWholeTypeExactly(keys, entityType, tableName, limits, strict);
    var asked := EntityId(entityType, "");
    assert Matching(keys - gone, asked) == Matching(keys, asked) - gone;
    EmptyDifference(Matching(keys, asked), gone);
  }

  lemma RemoveInTwo(items: map<Key, Item>, partitionId: string, part: set<string>, all: set<string>)
    requires part <= all
    ensures items - KeysIn(partitionId, part) - KeysIn(partitionId, all - part) == items - KeysIn(partitionId, all)
  {
    assert KeysIn(partitionId, part) + KeysIn(partitionId, all - part) == KeysIn(partitionId, all);
  }

  lemma RemoveBoth(items: map<Key, Item>, partitionId: string, a: set<string>, b: set<string>)
    ensures items - KeysIn(partitionId, a) - KeysIn(partitionId, b) == items - KeysIn(partitionId, a + b)
  {
    assert KeysIn(partitionId, a) + KeysIn(partitionId, b) == KeysIn(partitionId, a + b);
  }

  function AllKeys(writes: seq<Write<Key, Item>>): set<Key> {
    set w | w in writes :: w.key
  }

  // The writes to these keys, in order.
  function Among(writes: seq<Write<Key, Item>>, keys: set<Key>): seq<Write<Key, Item>> {
    if writes == [] then [] else (if writes[0].key in keys then [writes[0]] else []) + Among(writes[1..], keys)
  }

  lemma {:induction false} AmongMembers(writes: seq<Write<Key, Item>>, keys: set<Key>)
    ensures forall w :: w in Among(writes, keys) <==> w in writes && w.key in keys
  {
    if writes != [] {
      AmongMembers(writes[1..], keys);
    }
  }

  lemma {:induction false} AmongDistinct(writes: seq<Write<Key, Item>>, keys: set<Key>)
    requires DistinctKeys(writes)
    ensures DistinctKeys(Among(writes, keys))
  {
    if writes != [] {
      AmongDistinct(writes[1..], keys);
      AmongMembers(writes[1..], keys);
    }
  }

  lemma {:induction false} AmongMultiset(writes: seq<Write<Key, Item>>, left: set<Key>, others: set<Key>)
    requires forall w :: w in writes ==> (w.key in others <==> w.key !in left)
    ensures multiset(Among(writes, others)) + multiset(Among(writes, left)) == multiset(writes)
  {
    if writes != [] {
      assert writes[0] in writes && writes == [writes[0]] + writes[1..];
      AmongMultiset(writes[1..], left, others);
    }
  }

  lemma {:induction false} AmongNone(writes: seq<Write<Key, Item>>)
    ensures Among(writes, {}) == []
  {
    if writes != [] {
      AmongNone(writes[1..]);
    }
  }

  lemma AmongSplits(writes: seq<Write<Key, Item>>, left: set<Key>)
    requires DistinctKeys(writes)
    ensures multiset(Among(writes, AllKeys(writes) - left)) + multiset(Among(writes, left)) == multiset(writes)
    ensures DistinctKeys(Among(writes, left)) && (left == {} ==> Among(writes, left) == [])
  {
    AmongMultiset(writes, left, AllKeys(writes) - left);
    AmongDistinct(writes, left);
    AmongNone(writes);
  }

  // What is sent again comes from the batch.
  ghost predicate FromBatch(encode: Item -> Item, writes: seq<Write<Key, Item>>, some: seq<Write<Key, Item>>) {
    forall v :: v in some ==> exists w :: w in writes && (v == w || v == Sent(encode, w))
  }

  lemma SentAgain(encode: Item -> Item, writes: seq<Write<Key, Item>>, rest: seq<Write<Key, Item>>)
    requires Stable(encode, writes) && forall w :: w in rest ==> w in writes
    ensures Stable(encode, SentAll(encode, rest)) && FromBatch(encode, writes, SentAll(encode, rest))
  {
    SentMembers(encode, rest);
    forall v | v in SentAll(encode, rest)
      ensures Sent(encode, Sent(encode, v)) == Sent(encode, v)
      ensures exists w :: w in writes && (v == w || v == Sent(encode, w))
    {
      var w :| w in rest && v == Sent(encode, w);
      assert w in writes;
    }
  }

  lemma AgainLook(encode: Item -> Item, writes: seq<Write<Key, Item>>, middle: map<Key, Item>,
                  rest: seq<Write<Key, Item>>, w: Write<Key, Item>)
    requires DistinctKeys(writes) && Stable(encode, writes) && (forall v :: v in rest ==> v in writes) && w in writes
    ensures var end := ApplyAll(middle, SentAll(encode, SentAll(encode, rest)));
      Look(end, w.key) == if w in rest then Sent(encode, w).item else Look(middle, w.key)
  {
    SentAgain(encode, writes, rest);
    if w in rest {
      SentMembers(encode, rest);
      WrittenLook(encode, writes, middle, SentAll(encode, rest), w.key);
    } else {
      SameKeySameWrite(writes, w);
      OtherLook(encode, middle, rest, w.key);
    }
  }

  lemma OtherLook(encode: Item -> Item, middle: map<Key, Item>, rest: seq<Write<Key, Item>>, key: Key)
    requires forall v :: v in rest ==> v.key != key
    ensures Look(ApplyAll(middle, SentAll(encode, SentAll(encode, rest))), key) == Look(middle, key)
  {
    var again := SentAll(encode, SentAll(encode, rest));
    forall v | v in again ensures v.key != key {
      var i :| 0 <= i < |again| && again[i] == v;
      assert v.key == rest[i].key && rest[i] in rest;
    }
    ApplyAllMisses(middle, again, key);
  }

  lemma SentInTwoLook(encode: Item -> Item, items: map<Key, Item>, writes: seq<Write<Key, Item>>,
                      written: seq<Write<Key, Item>>, rest: seq<Write<Key, Item>>, key: Key)
    requires DistinctKeys(writes) && Stable(encode, writes) && forall w :: w in writes <==> w in written || w in rest
    ensures Look(ApplyAll(ApplyAll(items, SentAll(encode, written)), SentAll(encode, SentAll(encode, rest))), key)
      == Look(ApplyAll(items, SentAll(encode, writes)), key)
  {
    hide SentAll, ApplyAll, Stable, DistinctKeys, Look, Sent;
    var middle := ApplyAll(items, SentAll(encode, written));
    WrittenLook(encode, writes, items, writes, key);
    WrittenLook(encode, writes, items, written, key);
    if w :| w in writes && w.key == key {
      AgainLook(encode, writes, middle, rest, w);
    } else {
      OtherLook(encode, middle, rest, key);
    }
  }

  // Sending some now and the rest, once more encoded, later is sending all at once.
  lemma SentInTwo(encode: Item -> Item, items: map<Key, Item>, writes: seq<Write<Key, Item>>,
                  written: seq<Write<Key, Item>>, rest: seq<Write<Key, Item>>)
    requires DistinctKeys(writes) && Stable(encode, writes) && multiset(written) + multiset(rest) == multiset(writes)
    ensures Stable(encode, SentAll(encode, rest))
    ensures ApplyAll(ApplyAll(items, SentAll(encode, written)), SentAll(encode, SentAll(encode, rest)))
      == ApplyAll(items, SentAll(encode, writes))
    ensures rest == [] ==> ApplyAll(items, SentAll(encode, written)) == ApplyAll(items, SentAll(encode, writes))
  {
    SplitMembers(writes, written, rest);
    SentAgain(encode, writes, rest);
    var all := ApplyAll(items, SentAll(encode, writes));
    var end := ApplyAll(ApplyAll(items, SentAll(encode, written)), SentAll(encode, SentAll(encode, rest)));
    forall key ensures Look(end, key) == Look(all, key) {
      SentInTwoLook(encode, items, writes, written, rest, key);
    }
    TablesEqual(end, all);
  }

  // Every chunk is one request that the service takes.
  ghost predicate Sendable<K, V>(chunks: seq<seq<Write<K, V>>>) {
    forall c :: 0 <= c < |chunks| ==> DistinctKeys(chunks[c]) && |chunks[c]| <= BATCH_WRITE_LIMIT
  }

  lemma ChunksSendable<K, V>(chunks: seq<seq<Write<K, V>>>, writes: seq<Write<K, V>>)
    requires ChunksOf(chunks, writes, BATCH_WRITE_LIMIT) && DistinctKeys(writes)
    ensures Sendable(chunks) && |Flatten(chunks)| == |writes|
  {
    ChunksApart(chunks);
  }

  lemma ChunkSendable<K, V>(chunks: seq<seq<Write<K, V>>>, c: nat)
    requires Sendable(chunks) && c < |chunks|
    ensures DistinctKeys(chunks[c]) && |chunks[c]| <= BATCH_WRITE_LIMIT
  {}

  lemma StillSendable<K, V>(chunks: seq<seq<Write<K, V>>>, c: nat, rest: seq<Write<K, V>>)
    requires Sendable(chunks) && c < |chunks| && DistinctKeys(rest) && |rest| <= |chunks[c]|
    ensures Sendable(chunks[c := rest])
  {}

  lemma {:induction false} DeletesRemove(items: map<Key, Item>, partitionId: string, entityIds: seq<string>)
    ensures ApplyAll(items, DeletesOf(partitionId, entityIds)) == items - KeysIn(partitionId, Members(entityIds))
    decreases |entityIds|
  {
    if entityIds == [] {
      assert items - KeysIn(partitionId, Members(entityIds)) == items;
    } else {
      var key := Key(partitionId, entityIds[0]);
      DeletesRemove(items - {key}, partitionId, entityIds[1..]);
      assert DeletesOf(partitionId, entityIds)[1..] == DeletesOf(partitionId, entityIds[1..]);
      assert KeysIn(partitionId, Members(entityIds)) == {key} + KeysIn(partitionId, Members(entityIds[1..]));
    }
  }
}
