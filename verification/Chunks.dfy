/**
 * Loading a contract's list chunk by chunk: with a count of chunks computed from the last id, and until a chunk is
 * not full.
 */
module Chunks {
  import opened Wrappers

  const NFT_CHUNK_SIZE := 50

  function ChunkCount(last: nat, chunkSize: nat): nat
    requires chunkSize > 0
  {
    (last - last % chunkSize) / chunkSize + 1
  }

  // The contract's view call: up to `limit` elements from an index on.
  function View<T>(list: seq<T>, fromIndex: nat, limit: nat): seq<T> {
    if fromIndex >= |list| then []
    else if fromIndex + limit <= |list| then list[fromIndex..fromIndex + limit]
    else list[fromIndex..]
  }

  function Take<T>(list: seq<T>, n: nat): seq<T> {
    if n <= |list| then list[..n] else list
  }

  // The chunks reach just past the last id: one fewer would miss it.
  lemma ChunksCover(last: nat, chunkSize: nat)
    requires chunkSize > 0
    ensures var n := ChunkCount(last, chunkSize); (n - 1) * chunkSize <= last < n * chunkSize
  {
    var q := last / chunkSize;
    assert last - last % chunkSize == q * chunkSize;
    Multiple(q, chunkSize);
    assert (q + 1) * chunkSize == q * chunkSize + chunkSize;
  }

  lemma Multiple(q: nat, d: nat)
    requires d > 0
    ensures (q * d) / d == q
  {
    var p, r := (q * d) / d, (q * d) % d;
    assert (q - p) * d == r;
    if p < q {
      AtLeast(q - p, d);
    }
  }

  lemma {:induction false} AtLeast(k: nat, d: nat)
    requires k > 0
    ensures k * d >= d
  {
    if k > 1 {
      AtLeast(k - 1, d);
      assert k * d == (k - 1) * d + d;
    }
  }

  lemma TakeMore<T>(list: seq<T>, n: nat, limit: nat)
    ensures Take(list, n) + View(list, n, limit) == Take(list, n + limit)
  {}

  lemma TakeLong<T>(list: seq<T>, n: nat, last: nat)
    requires last < n
    ensures Take(list, n) <= list && (|Take(list, n)| > last || Take(list, n) == list)
    ensures Take(list, 0) == []
  {}

  // getProposalsByDaoId and getBountiesByDaoId: everything up to the last id, once and in order, and all of the
  // list if that id is the last one or one past it.
  method LoadByChunks<T>(list: seq<T>, last: nat, chunkSize: nat) returns (loaded: seq<T>)
    requires chunkSize > 0
    ensures loaded <= list && (|loaded| > last || loaded == list)
  {
    var n := ChunkCount(last, chunkSize);
    ChunksCover(last, chunkSize);
    TakeLong(list, n * chunkSize, last);
    hide Take, View, ChunkCount;
    loaded := [];
    for i := 0 to n
      invariant loaded == Take(list, i * chunkSize)
    {
      TakeMore(list, i * chunkSize, chunkSize);
      assert (i + 1) * chunkSize == i * chunkSize + chunkSize;
      loaded := loaded + View(list, i * chunkSize, chunkSize);
    }
  }

  // getNfts: the whole list after |list| / 50 + 1 calls, or what came before the call that failed.
  method GetNfts<T>(list: seq<T>, failsAt: Option<nat>) returns (nfts: seq<T>, calls: nat)
    ensures var needed := |list| / 50 + 1;
      if failsAt.Some? && failsAt.value < needed then
        nfts == list[..50 * failsAt.value] && calls == failsAt.value + 1
      else nfts == list && calls == needed
  {
    var fromIndex := 0;
    nfts, calls := [], 0;
    while true
      invariant fromIndex == NFT_CHUNK_SIZE * calls <= |list|
      invariant nfts == list[..fromIndex]
      invariant failsAt.Some? ==> calls <= failsAt.value
      decreases |list| - fromIndex
    {
      calls := calls + 1;
      if failsAt == Some(calls - 1) {
        break;
      }
      var chunk := View(list, fromIndex, NFT_CHUNK_SIZE);
      fromIndex := fromIndex + NFT_CHUNK_SIZE;
      nfts := nfts + chunk;
      if |chunk| != NFT_CHUNK_SIZE {
        break;
      }
    }
  }
}
