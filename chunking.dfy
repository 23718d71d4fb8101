/**
 * Batch writes larger than the store accepts in one request: the list of
 * write requests is cut into consecutive slices of at most
 * `BATCH_WRITE_MAX`, and one batch write is issued per slice.
 */
module Chunking {
  import opened Options
  import opened JsonValues
  import opened DocStore

  /** The slice length the handlers' store adapters use. */
  const BATCH_WRITE_MAX := 25

  function Min(a: int, b: int): int {
    if a <= b then a else b
  }

  /** How many slices of at most `BATCH_WRITE_MAX` items the loop cuts `n` items into: ceil(n / 25). */
  function ChunkCount(n: nat): nat {
    (n + BATCH_WRITE_MAX - 1) / BATCH_WRITE_MAX
  }

  /** The slice the loop takes at `i = 25 * k`: `s.slice(i, i + 25)`, cut short at the end of `s`. */
  function ChunkAt<T>(s: seq<T>, k: nat): seq<T>
    requires k < ChunkCount(|s|)
  {
    s[BATCH_WRITE_MAX * k..Min(BATCH_WRITE_MAX * k + BATCH_WRITE_MAX, |s|)]
  }

  /** The consecutive slices `s[0..25]`, `s[25..50]`, ... of `s`, the last one possibly shorter. */
  function Chunks<T>(s: seq<T>): seq<seq<T>> {
    seq(ChunkCount(|s|), k requires 0 <= k < ChunkCount(|s|) => ChunkAt(s, k))
  }

  function Flatten<T>(chunks: seq<seq<T>>): seq<T>
    decreases |chunks|
  {
    if chunks == [] then [] else chunks[0] + Flatten(chunks[1..])
  }

  /** The first chunk, then the chunks of what follows it. */
  lemma ChunksUnfold<T>(s: seq<T>)
    requires s != []
    ensures Chunks(s) == [s[..Min(BATCH_WRITE_MAX, |s|)]] + Chunks(s[Min(BATCH_WRITE_MAX, |s|)..])
  {
    var m := Min(BATCH_WRITE_MAX, |s|);
    var rest := s[m..];
    assert ChunkCount(|s|) == 1 + ChunkCount(|rest|);
    forall k | 0 <= k < ChunkCount(|rest|)
      ensures Chunks(s)[k + 1] == Chunks(rest)[k]
    {
      assert BATCH_WRITE_MAX * (k + 1) == m + BATCH_WRITE_MAX * k;
    }
  }

  /** The chunks, in order, give back the whole list: nothing is lost, repeated or reordered. */
  lemma {:induction false} FlattenChunks<T>(s: seq<T>)
    ensures Flatten(Chunks(s)) == s
    decreases |s|
  {
    if s == [] {
      assert Chunks(s) == [];
    } else {
      var m := Min(BATCH_WRITE_MAX, |s|);
      ChunksUnfold(s);
      FlattenChunks(s[m..]);
      assert Chunks(s)[1..] == Chunks(s[m..]);
      assert s[..m] + s[m..] == s;
    }
  }

  /** Every chunk holds between one and `BATCH_WRITE_MAX` items, and only an empty list has no chunk. */
  lemma ChunkSizes<T>(s: seq<T>)
    ensures forall c :: c in Chunks(s) ==> 1 <= |c| <= BATCH_WRITE_MAX
    ensures |Chunks(s)| == 0 <==> s == []
  {
    forall c | c in Chunks(s)
      ensures 1 <= |c| <= BATCH_WRITE_MAX
    {
      var k :| 0 <= k < |Chunks(s)| && Chunks(s)[k] == c;
      assert BATCH_WRITE_MAX * k < |s|;
    }
  }

  /** One batch write call per chunk, in order. */
  function BatchCalls(t: Table, chunks: seq<seq<WriteRequest>>): seq<Call>
    decreases |chunks|
  {
    if chunks == [] then [] else [BatchWriteItem(t, chunks[0])] + BatchCalls(t, chunks[1..])
  }

  lemma PutsKeyedSlice(t: Table, requests: seq<WriteRequest>, lo: int, hi: int)
    requires PutsKeyed(t, requests) && 0 <= lo <= hi <= |requests|
    ensures PutsKeyed(t, requests[lo..hi])
  {
    assert forall i :: 0 <= i < hi - lo ==> requests[lo..hi][i] == requests[lo + i];
  }

  /**
   * Issues every chunk of `requests` as its own batch write, all of them
   * whatever becomes of the others, and fails when any of them fails. With
   * the store up, the table ends as if every request had been applied in order.
   */
  method WriteInBatches(store: Store, t: Table, requests: seq<WriteRequest>) returns (failure: Option<StoreError>)
    requires store.Valid() && PutsKeyed(t, requests)
    modifies store
    ensures store.Valid()
    ensures store.calls == old(store.calls) + BatchCalls(t, Chunks(requests))
    ensures failure == if requests == [] then None else store.fault
    ensures store.fault.None? ==> store.tables == old(store.tables)[t := ApplyWrites(t, old(store.tables)[t], requests)]
    ensures store.fault.Some? ==> store.tables == old(store.tables)
  {
    var n := |requests|;
    failure := None;
    ghost var tables0 := store.tables;
    ghost var calls0 := store.calls;
    ghost var issued: seq<seq<WriteRequest>> := [];
    var i := 0;
    while i < n
      invariant i == BATCH_WRITE_MAX * |issued| && |issued| <= ChunkCount(n) && (i > 0 ==> n > 0)
      invariant issued == Chunks(requests)[..|issued|]
      invariant store.Valid()
      invariant store.calls == calls0 + BatchCalls(t, issued)
      invariant failure == if i == 0 then None else store.fault
      invariant store.fault.None? ==> store.tables == WrittenUpTo(tables0, t, requests, Min(i, n))
      invariant store.fault.Some? ==> store.tables == tables0
      decreases n - i
    {
      IssueStep(t, requests, issued, i);
      var batchFailure := IssueChunk(store, t, requests, i, tables0);
      if batchFailure.Some? {
        failure := batchFailure;
      }
      issued := issued + [requests[i..Min(i + BATCH_WRITE_MAX, n)]];
      i := i + BATCH_WRITE_MAX;
    }
    AllIssued(tables0, t, requests, issued);
  }

  /** The batch write for the chunk starting at `i`, which the store never refuses for its size. */
  method IssueChunk(store: Store, t: Table, requests: seq<WriteRequest>, i: int, ghost tables0: Db) returns (failure: Option<StoreError>)
    requires store.Valid() && Complete(tables0) && PutsKeyed(t, requests) && 0 <= i < |requests|
    requires store.fault.None? ==> store.tables == WrittenUpTo(tables0, t, requests, i)
    requires store.fault.Some? ==> store.tables == tables0
    modifies store
    ensures store.Valid() && failure == store.fault
    ensures store.calls == old(store.calls) + [BatchWriteItem(t, requests[i..Min(i + BATCH_WRITE_MAX, |requests|)])]
    ensures store.fault.None? ==> store.tables == WrittenUpTo(tables0, t, requests, Min(i + BATCH_WRITE_MAX, |requests|))
    ensures store.fault.Some? ==> store.tables == tables0
  {
    var hi := Min(i + BATCH_WRITE_MAX, |requests|);
    WriteChunk(tables0, t, requests, i, hi);
    failure := store.BatchWrite(t, requests[i..hi]);
  }

  /** The slice the loop takes at `i` is the next chunk. */
  lemma IssueStep(t: Table, requests: seq<WriteRequest>, issued: seq<seq<WriteRequest>>, i: int)
    requires i == BATCH_WRITE_MAX * |issued| && i < |requests| && issued == Chunks(requests)[..|issued|]
    ensures |issued| < ChunkCount(|requests|)
    ensures issued + [requests[i..Min(i + BATCH_WRITE_MAX, |requests|)]] == Chunks(requests)[..|issued| + 1]
    ensures BatchCalls(t, issued + [requests[i..Min(i + BATCH_WRITE_MAX, |requests|)]])
         == BatchCalls(t, issued) + [BatchWriteItem(t, requests[i..Min(i + BATCH_WRITE_MAX, |requests|)])]
  {
    var chunk := requests[i..Min(i + BATCH_WRITE_MAX, |requests|)];
    assert Chunks(requests)[|issued|] == chunk;
    BatchCallsAppend(t, issued, [chunk]);
  }

  /** Every table as it stands once the first `k` requests are applied to table `t`. */
  ghost function WrittenUpTo(tables: Db, t: Table, requests: seq<WriteRequest>, k: int): Db
    requires Complete(tables) && PutsKeyed(t, requests) && 0 <= k <= |requests|
  {
    PutsKeyedSlice(t, requests, 0, k);
    tables[t := ApplyWrites(t, tables[t], requests[..k])]
  }

  lemma WriteChunk(tables: Db, t: Table, requests: seq<WriteRequest>, i: int, hi: int)
    requires Complete(tables) && PutsKeyed(t, requests) && 0 <= i <= hi <= |requests|
    ensures PutsKeyed(t, requests[i..hi]) && t in WrittenUpTo(tables, t, requests, i)
    ensures WrittenUpTo(tables, t, requests, i)[t := ApplyWrites(t, WrittenUpTo(tables, t, requests, i)[t], requests[i..hi])]
         == WrittenUpTo(tables, t, requests, hi)
  {
    AppendChunk(t, tables[t], requests, i, hi);
  }

  lemma AllIssued(tables: Db, t: Table, requests: seq<WriteRequest>, issued: seq<seq<WriteRequest>>)
    requires Complete(tables) && PutsKeyed(t, requests)
    requires BATCH_WRITE_MAX * |issued| >= |requests| && |issued| <= ChunkCount(|requests|)
    requires issued == Chunks(requests)[..|issued|]
    ensures issued == Chunks(requests)
    ensures WrittenUpTo(tables, t, requests, |requests|) == tables[t := ApplyWrites(t, tables[t], requests)]
  {
    assert requests[..|requests|] == requests;
  }

  /** Applying the prefix up to `i` and then the slice `[i..hi]` is applying the prefix up to `hi`. */
  lemma AppendChunk(t: Table, rows: Rows, requests: seq<WriteRequest>, i: int, hi: int)
    requires PutsKeyed(t, requests) && 0 <= i <= hi <= |requests|
    ensures PutsKeyed(t, requests[..i]) && PutsKeyed(t, requests[i..hi])
    ensures ApplyWrites(t, ApplyWrites(t, rows, requests[..i]), requests[i..hi]) == ApplyWrites(t, rows, requests[..hi])
  {
    PutsKeyedSlice(t, requests, 0, i);
    PutsKeyedSlice(t, requests, i, hi);
    ApplyWritesAppend(t, rows, requests[..i], requests[i..hi]);
    assert requests[..i] + requests[i..hi] == requests[..hi];
  }

  lemma {:induction false} BatchCallsAppend(t: Table, a: seq<seq<WriteRequest>>, b: seq<seq<WriteRequest>>)
    ensures BatchCalls(t, a + b) == BatchCalls(t, a) + BatchCalls(t, b)
    decreases |a|
  {
    if a != [] {
      assert (a + b)[1..] == a[1..] + b;
      BatchCallsAppend(t, a[1..], b);
    } else {
      assert a + b == b;
    }
  }
}
