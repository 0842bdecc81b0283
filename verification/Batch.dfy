/**
 * Batch writes: chunks of at most 25, all in flight at once, each retrying what the service left unprocessed.
 */
module Batch {
  import opened Wrappers

  const BATCH_WRITE_LIMIT := 25

  // A put carries its item, a delete carries none.
  datatype Write<K, V> = Write(key: K, item: Option<V>)

  function Apply<K, V>(table: map<K, V>, w: Write<K, V>): map<K, V> {
    if w.item.Some? then table[w.key := w.item.value] else table - {w.key}
  }

  function ApplyAll<K, V>(table: map<K, V>, writes: seq<Write<K, V>>): map<K, V>
    decreases |writes|
  {
    if writes == [] then table else ApplyAll(Apply(table, writes[0]), writes[1..])
  }

  function Look<K, V>(table: map<K, V>, key: K): Option<V> {
    if key in table then Some(table[key]) else None
  }

  ghost predicate DistinctKeys<K, V>(writes: seq<Write<K, V>>) {
    forall i, j :: 0 <= i < j < |writes| ==> writes[i].key != writes[j].key
  }

  lemma {:induction false} ApplyAllMisses<K, V>(table: map<K, V>, writes: seq<Write<K, V>>, key: K)
    requires forall w :: w in writes ==> w.key != key
    ensures Look(ApplyAll(table, writes), key) == Look(table, key)
    decreases |writes|
  {
    if writes != [] {
      assert writes[0] in writes;
      ApplyAllMisses(Apply(table, writes[0]), writes[1..], key);
    }
  }

  // If all writes to a key are the same, that is what they leave.
  lemma {:induction false} ApplyAllHits<K, V>(table: map<K, V>, writes: seq<Write<K, V>>, w: Write<K, V>)
    requires w in writes && forall w' :: w' in writes && w'.key == w.key ==> w' == w
    ensures Look(ApplyAll(table, writes), w.key) == w.item
    decreases |writes|
  {
    if w in writes[1..] {
      ApplyAllHits(Apply(table, writes[0]), writes[1..], w);
    } else {
      assert writes[0] == w;
      ApplyAllMisses(Apply(table, w), writes[1..], w.key);
    }
  }

  lemma TablesEqual<K, V>(a: map<K, V>, b: map<K, V>)
    requires forall key :: Look(a, key) == Look(b, key)
    ensures a == b
  {
    assert forall key :: key in a <==> Look(a, key).Some?;
    assert forall key :: key in b <==> Look(b, key).Some?;
    assert forall key :: key in a ==> Look(a, key) == Some(a[key]) && Look(b, key) == Some(b[key]);
  }

  // ---------- chunks ----------

  function Flatten<T>(chunks: seq<seq<T>>): seq<T> {
    if chunks == [] then [] else Flatten(chunks[..|chunks| - 1]) + chunks[|chunks| - 1]
  }

  // Every chunk is full but the last, which holds what is left.
  ghost predicate ChunksOf<T>(chunks: seq<seq<T>>, items: seq<T>, size: nat) {
    && Flatten(chunks) == items
    && (forall i :: 0 <= i < |chunks| - 1 ==> |chunks[i]| == size)
    && (chunks != [] ==> 0 < |chunks[|chunks| - 1]| <= size)
  }

  // getChunks
  method GetChunks<T>(items: seq<T>, size: nat) returns (chunks: seq<seq<T>>)
    requires size > 0
    ensures ChunksOf(chunks, items, size)
  {
    chunks := [];
    var i := 0;
    while i < |items|
      invariant ChunksOf(chunks, items[..if i < |items| then i else |items|], size)
      invariant i < |items| ==> forall c :: c in chunks ==> |c| == size
    {
      var end := if i + size < |items| then i + size else |items|;
      assert items[..end] == items[..i] + items[i..end];
      var longer := chunks + [items[i..end]];
      assert longer[..|longer| - 1] == chunks;
      chunks := longer;
      i := i + size;
    }
    assert items[..|items|] == items;
  }

  lemma {:induction false} FlattenMembers<T>(chunks: seq<seq<T>>, x: T)
    ensures x in Flatten(chunks) <==> exists c :: 0 <= c < |chunks| && x in chunks[c]
  {
    if chunks != [] {
      FlattenMembers(chunks[..|chunks| - 1], x);
    }
  }

  lemma {:induction false} FlattenUpdate<T>(chunks: seq<seq<T>>, c: nat, chunk: seq<T>)
    requires c < |chunks|
    ensures |Flatten(chunks[c := chunk])| == |Flatten(chunks)| - |chunks[c]| + |chunk|
  {
    var n := |chunks| - 1;
    if c == n {
      assert chunks[c := chunk][..n] == chunks[..n];
    } else {
      FlattenUpdate(chunks[..n], c, chunk);
      assert chunks[c := chunk][..n] == chunks[..n][c := chunk];
    }
  }

  // ---------- encoding ----------

  // A put encodes its item each time it is sent; what the service returns unprocessed is the encoded item.
  function Sent<K, V>(encode: V -> V, w: Write<K, V>): Write<K, V> {
    if w.item.Some? then w.(item := Some(encode(w.item.value))) else w
  }

  function SentAll<K, V>(encode: V -> V, writes: seq<Write<K, V>>): (sent: seq<Write<K, V>>)
    ensures |sent| == |writes|
    ensures forall i :: 0 <= i < |sent| ==> sent[i] == Sent(encode, writes[i])
  {
    seq(|writes|, i requires 0 <= i < |writes| => Sent(encode, writes[i]))
  }

  // Encoding the item a second time changes nothing.
  ghost predicate Stable<K, V>(encode: V -> V, writes: seq<Write<K, V>>) {
    forall w :: w in writes ==> Sent(encode, Sent(encode, w)) == Sent(encode, w)
  }

  lemma SentMembers<K, V>(encode: V -> V, writes: seq<Write<K, V>>)
    ensures forall w :: w in writes ==> Sent(encode, w) in SentAll(encode, writes)
    ensures forall w' :: w' in SentAll(encode, writes) ==> exists w :: w in writes && w' == Sent(encode, w)
    ensures DistinctKeys(writes) ==> DistinctKeys(SentAll(encode, writes))
  {
    forall w | w in writes ensures Sent(encode, w) in SentAll(encode, writes) {
      var i :| 0 <= i < |writes| && writes[i] == w;
      assert SentAll(encode, writes)[i] == Sent(encode, w);
    }
  }

  // ---------- any interleaving of the chunks' requests ----------

  // What is in flight, the table, and how many writes have been counted.
  datatype Flight<K, V> = Flight(table: map<K, V>, chunks: seq<seq<Write<K, V>>>, count: nat)

  // Chunk c sends all it has left; the service writes some of it, in some order, and returns the rest.
  datatype Request<K, V> = Request(c: nat, written: seq<Write<K, V>>, unprocessed: seq<Write<K, V>>)

  ghost predicate CanSend<K, V>(f: Flight<K, V>, r: Request<K, V>) {
    && r.c < |f.chunks| && f.chunks[r.c] != []
    && multiset(r.written) + multiset(r.unprocessed) == multiset(f.chunks[r.c])
  }

  function Send<K, V>(encode: V -> V, f: Flight<K, V>, r: Request<K, V>): Flight<K, V>
    requires r.c < |f.chunks|
  {
    Flight(ApplyAll(f.table, SentAll(encode, r.written)), f.chunks[r.c := SentAll(encode, r.unprocessed)],
           f.count + |r.written|)
  }

  ghost predicate Flies<K, V>(encode: V -> V, f: Flight<K, V>, requests: seq<Request<K, V>>, f': Flight<K, V>)
    decreases |requests|
  {
    if requests == [] then f' == f
    else CanSend(f, requests[0]) && Flies(encode, Send(encode, f, requests[0]), requests[1..], f')
  }

  ghost predicate InFlight<K, V>(chunks: seq<seq<Write<K, V>>>, w: Write<K, V>) {
    exists c :: 0 <= c < |chunks| && w in chunks[c]
  }

  // As it was given, or encoded.
  ghost predicate Pending<K, V>(encode: V -> V, chunks: seq<seq<Write<K, V>>>, w: Write<K, V>) {
    InFlight(chunks, w) || InFlight(chunks, Sent(encode, w))
  }

  ghost predicate FlightOk<K(!new), V(!new)>(encode: V -> V, base: map<K, V>, writes: seq<Write<K, V>>,
                                             f: Flight<K, V>)
  {
    && (forall v :: InFlight(f.chunks, v) ==> exists w :: w in writes && (v == w || v == Sent(encode, w)))
    && (forall w :: w in writes ==> Pending(encode, f.chunks, w) || Look(f.table, w.key) == Sent(encode, w).item)
    && (forall key :: (forall w :: w in writes ==> w.key != key) ==> Look(f.table, key) == Look(base, key))
    && f.count + |Flatten(f.chunks)| == |writes|
    && (forall c :: 0 <= c < |f.chunks| ==> |f.chunks[c]| <= BATCH_WRITE_LIMIT)
  }

  lemma SplitMembers<T>(chunk: seq<T>, a: seq<T>, b: seq<T>)
    requires multiset(a) + multiset(b) == multiset(chunk)
    ensures forall x :: x in chunk <==> x in a || x in b
    ensures |a| + |b| == |chunk|
  {
    forall x ensures x in chunk <==> x in a || x in b {
      assert x in multiset(chunk) <==> x in multiset(a) || x in multiset(b);
    }
    assert |multiset(a) + multiset(b)| == |multiset(chunk)|;
  }

  lemma SameKeySameWrite<K, V>(writes: seq<Write<K, V>>, w: Write<K, V>)
    requires DistinctKeys(writes) && w in writes
    ensures forall w' :: w' in writes && w'.key == w.key ==> w' == w
  {
    var i :| 0 <= i < |writes| && writes[i] == w;
    forall w' | w' in writes && w'.key == w.key ensures w' == w {
      var j :| 0 <= j < |writes| && writes[j] == w';
      assert i == j;
    }
  }

  // Writing some of what is in flight leaves, under each of their keys, the encoded item, and no other key changed.
  lemma WrittenLook<K, V>(encode: V -> V, writes: seq<Write<K, V>>, table: map<K, V>, some: seq<Write<K, V>>, key: K)
    requires DistinctKeys(writes) && Stable(encode, writes)
    requires forall v :: v in some ==> exists w :: w in writes && (v == w || v == Sent(encode, w))
    ensures forall w :: w in writes && w.key == key && (w in some || Sent(encode, w) in some) ==>
      Look(ApplyAll(table, SentAll(encode, some)), key) == Sent(encode, w).item
    ensures (forall v :: v in some ==> v.key != key) ==>
      Look(ApplyAll(table, SentAll(encode, some)), key) == Look(table, key)
  {
    var sent := SentAll(encode, some);
    SentMembers(encode, some);
    forall w | w in writes && w.key == key && (w in some || Sent(encode, w) in some)
      ensures Look(ApplyAll(table, sent), key) == Sent(encode, w).item
    {
      SameKeySameWrite(writes, w);
      forall v | v in sent && v.key == key ensures v == Sent(encode, w) {
        var u :| u in some && v == Sent(encode, u);
        var w' :| w' in writes && (u == w' || u == Sent(encode, w'));
        assert w' == w;
      }
      assert Sent(encode, w) in sent;
      ApplyAllHits(table, sent, Sent(encode, w));
    }
    if forall v :: v in some ==> v.key != key {
      ApplyAllMisses(table, sent, key);
    }
  }

  // What is in flight after a request.
  lemma SendInFlight<K, V>(encode: V -> V, f: Flight<K, V>, r: Request<K, V>, v: Write<K, V>)
    requires CanSend(f, r)
    ensures var chunks' := Send(encode, f, r).chunks;
      && (InFlight(chunks', v) ==> InFlight(f.chunks, v) || exists u :: u in r.unprocessed && v == Sent(encode, u))
      && (InFlight(f.chunks, v) ==> InFlight(chunks', v) || v in r.written || v in r.unprocessed)
      && (v in r.unprocessed ==> InFlight(chunks', Sent(encode, v)))
      && (v in r.unprocessed || v in r.written ==> InFlight(f.chunks, v))
  {
    var chunks' := Send(encode, f, r).chunks;
    SplitMembers(f.chunks[r.c], r.written, r.unprocessed);
    SentMembers(encode, r.unprocessed);
    if InFlight(chunks', v) {
      var c :| 0 <= c < |chunks'| && v in chunks'[c];
      if c != r.c {
        assert v in f.chunks[c];
      }
    }
    if InFlight(f.chunks, v) {
      var c :| 0 <= c < |f.chunks| && v in f.chunks[c];
      if c != r.c {
        assert v in chunks'[c];
      }
    }
    assert chunks'[r.c] == SentAll(encode, r.unprocessed);
  }

  // The writes of a request come from the batch.
  lemma SomeOfBatch<K(!new), V(!new)>(encode: V -> V, base: map<K, V>, writes: seq<Write<K, V>>, f: Flight<K, V>,
                                      r: Request<K, V>)
    requires FlightOk(encode, base, writes, f) && CanSend(f, r)
    ensures forall v ::
      v in r.written || v in r.unprocessed ==> exists w :: w in writes && (v == w || v == Sent(encode, w))
  {
    forall v | v in r.written || v in r.unprocessed
      ensures exists w :: w in writes && (v == w || v == Sent(encode, w))
    {
      SendInFlight(encode, f, r, v);
    }
  }

  lemma SendKeepsOrigin<K(!new), V(!new)>(encode: V -> V, base: map<K, V>, writes: seq<Write<K, V>>, f: Flight<K, V>,
                                          r: Request<K, V>, v: Write<K, V>)
    requires Stable(encode, writes) && FlightOk(encode, base, writes, f) && CanSend(f, r)
    requires InFlight(Send(encode, f, r).chunks, v)
    ensures exists w :: w in writes && (v == w || v == Sent(encode, w))
  {
    SendInFlight(encode, f, r, v);
    SomeOfBatch(encode, base, writes, f, r);
    if !InFlight(f.chunks, v) {
      var u :| u in r.unprocessed && v == Sent(encode, u);
      var w :| w in writes && (u == w || u == Sent(encode, w));
      assert v == Sent(encode, w);
    }
  }

  lemma SendKeepsWrite<K(!new), V(!new)>(encode: V -> V, base: map<K, V>, writes: seq<Write<K, V>>, f: Flight<K, V>,
                                         r: Request<K, V>, w: Write<K, V>)
    requires DistinctKeys(writes) && Stable(encode, writes) && FlightOk(encode, base, writes, f) && CanSend(f, r)
      && w in writes
    ensures Pending(encode, Send(encode, f, r).chunks, w)
      || Look(Send(encode, f, r).table, w.key) == Sent(encode, w).item
  {
    SomeOfBatch(encode, base, writes, f, r);
    WrittenLook(encode, writes, f.table, r.written, w.key);
    SendInFlight(encode, f, r, w);
    SendInFlight(encode, f, r, Sent(encode, w));
    hide InFlight, CanSend, FlightOk, Send;
    if w !in r.written && Sent(encode, w) !in r.written {
      SameKeySameWrite(writes, w);
      forall v | v in r.written ensures v.key != w.key {
        var w' :| w' in writes && (v == w' || v == Sent(encode, w'));
      }
      SendTable(encode, f, r);
    } else {
      SendTable(encode, f, r);
    }
    PendingBefore(encode, base, writes, f, w);
  }

  lemma SendTable<K, V>(encode: V -> V, f: Flight<K, V>, r: Request<K, V>)
    requires CanSend(f, r)
    ensures Send(encode, f, r).table == ApplyAll(f.table, SentAll(encode, r.written))
  {}

  lemma PendingBefore<K(!new), V(!new)>(encode: V -> V, base: map<K, V>, writes: seq<Write<K, V>>, f: Flight<K, V>,
                                        w: Write<K, V>)
    requires FlightOk(encode, base, writes, f) && w in writes
    ensures Pending(encode, f.chunks, w) || Look(f.table, w.key) == Sent(encode, w).item
  {}

  // A request that leaves part of its chunk unprocessed keeps table and count right.
  lemma SendKeeps<K(!new), V(!new)>(encode: V -> V, base: map<K, V>, writes: seq<Write<K, V>>, f: Flight<K, V>,
                                    r: Request<K, V>)
    requires DistinctKeys(writes) && Stable(encode, writes) && FlightOk(encode, base, writes, f) && CanSend(f, r)
    ensures FlightOk(encode, base, writes, Send(encode, f, r))
  {
    var f' := Send(encode, f, r);
    SplitMembers(f.chunks[r.c], r.written, r.unprocessed);
    FlattenUpdate(f.chunks, r.c, SentAll(encode, r.unprocessed));
    SomeOfBatch(encode, base, writes, f, r);
    forall v | InFlight(f'.chunks, v) ensures exists w :: w in writes && (v == w || v == Sent(encode, w)) {
      SendKeepsOrigin(encode, base, writes, f, r, v);
    }
    forall w | w in writes ensures Pending(encode, f'.chunks, w) || Look(f'.table, w.key) == Sent(encode, w).item {
      SendKeepsWrite(encode, base, writes, f, r, w);
    }
    hide InFlight, Pending;
    forall key | forall w :: w in writes ==> w.key != key ensures Look(f'.table, key) == Look(base, key) {
      WrittenLook(encode, writes, f.table, r.written, key);
    }
  }

  lemma {:induction false} FlightKeeps<K(!new), V(!new)>(encode: V -> V, base: map<K, V>, writes: seq<Write<K, V>>,
                                                         f: Flight<K, V>,
                                                         requests: seq<Request<K, V>>, f': Flight<K, V>)
    requires DistinctKeys(writes) && Stable(encode, writes) && FlightOk(encode, base, writes, f)
      && Flies(encode, f, requests, f')
    ensures FlightOk(encode, base, writes, f')
    ensures forall i :: 0 <= i < |requests| ==> |requests[i].written| + |requests[i].unprocessed| <= BATCH_WRITE_LIMIT
    decreases |requests|
  {
    if requests != [] {
      var r := requests[0];
      SplitMembers(f.chunks[r.c], r.written, r.unprocessed);
      SendKeeps(encode, base, writes, f, r);
      FlightKeeps(encode, base, writes, Send(encode, f, r), requests[1..], f');
    }
  }

  lemma FlightStarts<K(!new), V(!new)>(encode: V -> V, base: map<K, V>, writes: seq<Write<K, V>>,
                                       chunks: seq<seq<Write<K, V>>>)
    requires ChunksOf(chunks, writes, BATCH_WRITE_LIMIT)
    ensures FlightOk(encode, base, writes, Flight(base, chunks, 0))
  {
    forall w ensures InFlight(chunks, w) <==> w in writes {
      FlattenMembers(chunks, w);
    }
  }

  // With nothing in flight any more, the table is as if all had been encoded and written at once.
  lemma FlightLands<K(!new), V(!new)>(encode: V -> V, base: map<K, V>, writes: seq<Write<K, V>>, f: Flight<K, V>)
    requires DistinctKeys(writes) && Stable(encode, writes) && FlightOk(encode, base, writes, f)
    requires forall c :: 0 <= c < |f.chunks| ==> f.chunks[c] == []
    ensures f.table == ApplyAll(base, SentAll(encode, writes)) && f.count == |writes|
  {
    AllEmpty(f.chunks);
    var all := ApplyAll(base, SentAll(encode, writes));
    forall key ensures Look(f.table, key) == Look(all, key) {
      WrittenLook(encode, writes, base, writes, key);
      if w :| w in writes && w.key == key {
        assert !InFlight(f.chunks, w) && !InFlight(f.chunks, Sent(encode, w));
      }
    }
    TablesEqual(f.table, all);
  }

  // However the requests interleave and whatever the service leaves unprocessed on the way: when nothing is in
  // flight any more, the table is as if all had been encoded and written at once, the count is their number, and no
  // request was larger than the limit.
  lemma BatchConserves<K(!new), V(!new)>(encode: V -> V, base: map<K, V>, writes: seq<Write<K, V>>,
                                         chunks: seq<seq<Write<K, V>>>, requests: seq<Request<K, V>>, f': Flight<K, V>)
    requires DistinctKeys(writes) && Stable(encode, writes) && ChunksOf(chunks, writes, BATCH_WRITE_LIMIT)
    requires Flies(encode, Flight(base, chunks, 0), requests, f') && forall c ::
      0 <= c < |f'.chunks| ==> f'.chunks[c] == []
    ensures f'.table == ApplyAll(base, SentAll(encode, writes)) && f'.count == |writes|
    ensures forall i :: 0 <= i < |requests| ==> |requests[i].written| + |requests[i].unprocessed| <= 25
  {
    FlightStarts(encode, base, writes, chunks);
    FlightKeeps(encode, base, writes, Flight(base, chunks, 0), requests, f');
    FlightLands(encode, base, writes, f');
  }

  // Whatever is in flight under this key is w, or w has been written and nothing else is in flight.
  ghost predicate Awaits<K(!new), V(!new)>(encode: V -> V, f: Flight<K, V>, w: Write<K, V>) {
    && (forall v :: InFlight(f.chunks, v) && v.key == w.key ==> v == w)
    && (InFlight(f.chunks, w) || Look(f.table, w.key) == Sent(encode, w).item)
  }

  // Writing a chunk leaves, under the key of each of its writes, the encoded item.
  lemma WrittenChunkLook<K, V>(encode: V -> V, table: map<K, V>, chunk: seq<Write<K, V>>, w: Write<K, V>)
    requires forall v :: v in chunk && v.key == w.key ==> v == w
    ensures Look(ApplyAll(table, SentAll(encode, chunk)), w.key)
      == if w in chunk then Sent(encode, w).item else Look(table, w.key)
  {
    var sent := SentAll(encode, chunk);
    SentMembers(encode, chunk);
    if w in chunk {
      forall v | v in sent && v.key == w.key ensures v == Sent(encode, w) {
        var u :| u in chunk && v == Sent(encode, u);
      }
      ApplyAllHits(table, sent, Sent(encode, w));
    } else {
      forall v | v in sent ensures v.key != w.key {
        var u :| u in chunk && v == Sent(encode, u);
      }
      ApplyAllMisses(table, sent, w.key);
    }
  }

  // Writing all that a chunk has left.
  lemma WriteAllKeeps<K(!new), V(!new)>(encode: V -> V, f: Flight<K, V>, c: nat, w: Write<K, V>)
    requires c < |f.chunks| && f.chunks[c] != [] && Awaits(encode, f, w)
    ensures CanSend(f, Request(c, f.chunks[c], []))
    ensures var f' := Send(encode, f, Request(c, f.chunks[c], []));
      f'.chunks == f.chunks[c := []] && Awaits(encode, f', w)
  {
    hide ApplyAll;
    var f' := Send(encode, f, Request(c, f.chunks[c], []));
    assert multiset(f.chunks[c]) + multiset([]) == multiset(f.chunks[c]);
    assert |SentAll<K, V>(encode, [])| == 0;
    forall v | InFlight(f'.chunks, v) ensures InFlight(f.chunks, v) {
      var d :| 0 <= d < |f'.chunks| && v in f'.chunks[d];
      assert v in f.chunks[d];
    }
    forall v | v in f.chunks[c] ensures InFlight(f.chunks, v) {}
    WrittenChunkLook(encode, f.table, f.chunks[c], w);
    if InFlight(f.chunks, w) && w !in f.chunks[c] {
      var d :| 0 <= d < |f.chunks| && w in f.chunks[d];
      assert w in f'.chunks[d];
    }
  }

  // From anywhere, chunk by chunk, all that is left can be written.
  lemma {:induction false} Finishes<K(!new), V(!new)>(encode: V -> V, f: Flight<K, V>, n: nat, w: Write<K, V>)
    returns (requests: seq<Request<K, V>>, f': Flight<K, V>)
    requires n <= |f.chunks| && (forall c :: 0 <= c < n ==> f.chunks[c] == []) && Awaits(encode, f, w)
    ensures Flies(encode, f, requests, f') && forall c :: 0 <= c < |f'.chunks| ==> f'.chunks[c] == []
    ensures Look(f'.table, w.key) == Sent(encode, w).item
    decreases |f.chunks| - n
  {
    if n == |f.chunks| {
      requests, f' := [], f;
    } else if f.chunks[n] == [] {
      requests, f' := Finishes(encode, f, n + 1, w);
    } else {
      var r := Request(n, f.chunks[n], []);
      WriteAllKeeps(encode, f, n, w);
      requests, f' := Finishes(encode, Send(encode, f, r), n + 1, w);
      requests := [r] + requests;
      assert requests[1..] + [] == requests[1..] && requests[0] == r;
    }
  }

  // The chunks of distinct writes have no key in common.
  lemma {:induction false} ChunksApart<K, V>(chunks: seq<seq<Write<K, V>>>)
    requires DistinctKeys(Flatten(chunks))
    ensures forall c, d, v, w ::
      0 <= c < d < |chunks| && v in chunks[c] && w in chunks[d] ==> v.key != w.key
    ensures forall c :: 0 <= c < |chunks| ==> DistinctKeys(chunks[c])
  {
    if chunks != [] {
      var n := |chunks| - 1;
      var front, last := Flatten(chunks[..n]), chunks[n];
      assert Flatten(chunks) == front + last;
      assert forall i :: 0 <= i < |front| ==> Flatten(chunks)[i] == front[i];
      assert forall i :: 0 <= i < |last| ==> Flatten(chunks)[|front| + i] == last[i];
      ChunksApart(chunks[..n]);
      forall c, v, w | 0 <= c < n && v in chunks[c] && w in last ensures v.key != w.key {
        assert v in chunks[..n][c];
        FlattenMembers(chunks[..n], v);
        var i :| 0 <= i < |front| && front[i] == v;
        var j :| 0 <= j < |last| && last[j] == w;
      }
      assert forall c :: 0 <= c < n ==> chunks[c] == chunks[..n][c];
    }
  }

  lemma NotElsewhere<K, V>(chunks: seq<seq<Write<K, V>>>, c: nat, d: nat, v: Write<K, V>, w: Write<K, V>)
    requires DistinctKeys(Flatten(chunks)) && c < |chunks| && d < |chunks| && w in chunks[c] && v in chunks[d]
    requires v.key == w.key
    ensures c == d && v == w
  {
    ChunksApart(chunks);
    if c == d {
      SameKeySameWrite(chunks[c], w);
    }
  }

  // A chunk that is left wholly unprocessed once is encoded where it is.
  lemma LeftOnce<K(!new), V(!new)>(encode: V -> V, base: map<K, V>, chunks: seq<seq<Write<K, V>>>, c: nat,
                                   w: Write<K, V>)
    requires DistinctKeys(Flatten(chunks)) && c < |chunks| && w in chunks[c]
    ensures CanSend(Flight(base, chunks, 0), Request(c, [], chunks[c]))
    ensures Awaits(encode, Send(encode, Flight(base, chunks, 0), Request(c, [], chunks[c])), Sent(encode, w))
  {
    hide DistinctKeys, Flatten, ApplyAll;
    var f' := Send(encode, Flight(base, chunks, 0), Request(c, [], chunks[c]));
    assert multiset([]) + multiset(chunks[c]) == multiset(chunks[c]);
    SentMembers(encode, chunks[c]);
    assert f'.chunks[c] == SentAll(encode, chunks[c]) && Sent(encode, w) in f'.chunks[c];
    forall v | InFlight(f'.chunks, v) && v.key == w.key ensures v == Sent(encode, w) {
      var d :| 0 <= d < |f'.chunks| && v in f'.chunks[d];
      if d == c {
        var u :| u in chunks[c] && v == Sent(encode, u);
        NotElsewhere(chunks, c, c, u, w);
      } else {
        NotElsewhere(chunks, c, d, v, w);
      }
    }
  }

  ghost predicate Lands<K, V>(encode: V -> V, base: map<K, V>, chunks: seq<seq<Write<K, V>>>,
                              requests: seq<Request<K, V>>, f': Flight<K, V>)
  {
    && Flies(encode, Flight(base, chunks, 0), requests, f')
    && forall c :: 0 <= c < |f'.chunks| ==> f'.chunks[c] == []
  }

  // An item that a retry encodes to something else: with its chunk left unprocessed once, it is stored differently.
  lemma RetryShows<K(!new), V(!new)>(encode: V -> V, base: map<K, V>, chunks: seq<seq<Write<K, V>>>, w: Write<K, V>)
    requires DistinctKeys(Flatten(chunks)) && w in Flatten(chunks)
    ensures exists requests, f' ::
      Lands(encode, base, chunks, requests, f') && Look(f'.table, w.key) == Sent(encode, Sent(encode, w)).item
  {
    FlattenMembers(chunks, w);
    var c :| 0 <= c < |chunks| && w in chunks[c];
    var f, r := Flight(base, chunks, 0), Request(c, [], chunks[c]);
    LeftOnce(encode, base, chunks, c, w);
    var rest, f' := Finishes(encode, Send(encode, f, r), 0, Sent(encode, w));
    assert ([r] + rest)[0] == r && ([r] + rest)[1..] == rest;
    assert Lands(encode, base, chunks, [r] + rest, f');
  }

  // So a batch is stored as if written at once, whatever is left unprocessed and however the requests interleave,
  // exactly if encoding twice changes none of its items.
  lemma BatchConservesExactly<K(!new), V(!new)>(encode: V -> V, base: map<K, V>, writes: seq<Write<K, V>>,
                                                chunks: seq<seq<Write<K, V>>>)
    requires DistinctKeys(writes) && ChunksOf(chunks, writes, BATCH_WRITE_LIMIT)
    ensures (forall requests, f' ::
             Lands(encode, base, chunks, requests, f') ==> f'.table == ApplyAll(base, SentAll(encode, writes)))
      <==> Stable(encode, writes)
  {
    var all := ApplyAll(base, SentAll(encode, writes));
    if Stable(encode, writes) {
      forall requests, f' | Lands(encode, base, chunks, requests, f') ensures f'.table == all {
        BatchConserves(encode, base, writes, chunks, requests, f');
      }
    } else {
      var w :| w in writes && Sent(encode, Sent(encode, w)) != Sent(encode, w);
      AtOnceLook(encode, base, writes, w);
      RetryShows(encode, base, chunks, w);
      var requests, f' :|
        Lands(encode, base, chunks, requests, f') && Look(f'.table, w.key) == Sent(encode, Sent(encode, w)).item;
      assert f'.table != all;
    }
  }

  lemma AtOnceLook<K, V>(encode: V -> V, base: map<K, V>, writes: seq<Write<K, V>>, w: Write<K, V>)
    requires DistinctKeys(writes) && w in writes
    ensures Look(ApplyAll(base, SentAll(encode, writes)), w.key) == Sent(encode, w).item
  {
    var sent := SentAll(encode, writes);
    SentMembers(encode, writes);
    SameKeySameWrite(sent, Sent(encode, w));
    ApplyAllHits(base, sent, Sent(encode, w));
  }

  lemma {:induction false} AllEmpty<T>(chunks: seq<seq<T>>)
    requires forall c :: 0 <= c < |chunks| ==> chunks[c] == []
    ensures Flatten(chunks) == []
  {
    if chunks != [] {
      AllEmpty(chunks[..|chunks| - 1]);
    }
  }
}
