/** Looking a key up through a table's index: the same as searching all its entries. */
module TableLookups {
  import opened Codings
  import opened Blocks
  import opened KeyOrders
  import opened Versions

  // A run of entries stored as one data block, at an offset of the file.
  datatype Chunk = Chunk(kvs: seq<KV>, offset: nat)

  function All(chunks: seq<Chunk>): seq<KV> {
    if chunks == [] then [] else All(chunks[..|chunks| - 1]) + chunks[|chunks| - 1].kvs
  }

  function Start(chunks: seq<Chunk>, i: nat): nat
    requires i <= |chunks|
  {
    |All(chunks[..i])|
  }

  function FirstKey(c: Chunk): Bytes
    requires c.kvs != []
  {
    c.kvs[0].key
  }

  function LastKey(c: Chunk): Bytes
    requires c.kvs != []
  {
    c.kvs[|c.kvs| - 1].key
  }

  // Chunks of a table: never empty, and all entries in order.
  ghost predicate InOrder(chunks: seq<Chunk>) {
    && (forall i :: 0 <= i < |chunks| ==> chunks[i].kvs != [])
    && Increasing(All(chunks), InternalLess)
    && forall m :: 0 <= m < |All(chunks)| ==> |All(chunks)[m].key| >= 8
  }

  // An index key for a chunk: at or after its last key; and if shortened, then with a user key
  // before that of the next chunk.
  ghost predicate Bounds(last: Bytes, next: Option<Bytes>, key: Bytes) {
    && |key| >= 8 && !InternalLess(key, last)
    && (next.Some? ==> |next.value| >= 8 && (key == last || BytesLess(UserKey(key), UserKey(next.value))))
  }

  function NextKey(chunks: seq<Chunk>, i: nat): Option<Bytes> {
    if i + 1 < |chunks| && chunks[i + 1].kvs != [] then Some(FirstKey(chunks[i + 1])) else None
  }

  ghost predicate IndexKeys(keys: seq<Bytes>, chunks: seq<Chunk>) {
    && |keys| == |chunks|
    && forall i :: 0 <= i < |keys| ==> chunks[i].kvs != [] && Bounds(LastKey(chunks[i]), NextKey(chunks, i), keys[i])
  }

  // ----- Where the entries of a chunk are -----

  lemma {:induction false} AllGrows(chunks: seq<Chunk>, i: nat, n: nat)
    requires i <= n <= |chunks|
    ensures Start(chunks, i) <= Start(chunks, n) && All(chunks[..n])[..Start(chunks, i)] == All(chunks[..i])
  {
    if i < n {
      AllGrows(chunks, i, n - 1);
      assert chunks[..n][..n - 1] == chunks[..n - 1];
      var before, last := All(chunks[..n - 1]), chunks[n - 1].kvs;
      assert All(chunks[..n]) == before + last;
      assert (before + last)[..Start(chunks, i)] == before[..Start(chunks, i)];
    }
  }

  lemma ChunkAt(chunks: seq<Chunk>, i: nat)
    requires i < |chunks|
    ensures Start(chunks, i + 1) == Start(chunks, i) + |chunks[i].kvs| <= |All(chunks)|
    ensures All(chunks)[Start(chunks, i)..Start(chunks, i + 1)] == chunks[i].kvs
    ensures forall j :: 0 <= j < |chunks[i].kvs| ==> All(chunks)[Start(chunks, i) + j] == chunks[i].kvs[j]
  {
    AllGrows(chunks, i + 1, |chunks|);
    assert chunks[..|chunks|] == chunks && chunks[..i + 1][..i] == chunks[..i];
    assert All(chunks[..i + 1]) == All(chunks[..i]) + chunks[i].kvs;
    hide All;
    SliceAt(All(chunks), All(chunks[..i]), chunks[i].kvs);
  }

  lemma SliceAt(all: seq<KV>, before: seq<KV>, piece: seq<KV>)
    requires |before| + |piece| <= |all| && all[..|before| + |piece|] == before + piece
    ensures all[|before|..|before| + |piece|] == piece
    ensures forall j :: 0 <= j < |piece| ==> all[|before| + j] == piece[j]
  {
    forall j | 0 <= j < |piece| ensures all[|before| + j] == piece[j] {
      assert all[..|before| + |piece|][|before| + j] == piece[j];
    }
  }

  lemma {:induction false} ChunkOf(chunks: seq<Chunk>, n: nat, m: nat) returns (i: nat, j: nat)
    requires n <= |chunks| && m < Start(chunks, n)
    ensures i < n && j < |chunks[i].kvs| && m == Start(chunks, i) + j
    decreases n
  {
    i, j := 0, 0;
    if n > 0 {
      ChunkAt(chunks, n - 1);
      if m >= Start(chunks, n - 1) {
        i, j := n - 1, m - Start(chunks, n - 1);
      } else {
        i, j := ChunkOf(chunks, n - 1, m);
      }
    }
  }

  // ----- The search -----

  // Position n splits the entries: before it all are before the target, after it none is.
  ghost predicate Splits(kvs: seq<KV>, n: nat, target: Bytes) {
    && n <= |kvs|
    && (forall m :: 0 <= m < n ==> InternalLess(kvs[m].key, target))
    && (n < |kvs| ==> !InternalLess(kvs[n].key, target))
  }

  // Linear search for the first entry at or after the target.
  function FirstFrom(kvs: seq<KV>, target: Bytes): Option<KV> {
    if kvs == [] then None
    else if InternalLess(kvs[0].key, target) then FirstFrom(kvs[1..], target)
    else Some(kvs[0])
  }

  lemma {:induction false} SplitIsFirst(kvs: seq<KV>, n: nat, target: Bytes)
    requires Splits(kvs, n, target)
    ensures FirstFrom(kvs, target) == if n < |kvs| then Some(kvs[n]) else None
  {
    hide InternalLess;
    if n > 0 { SplitIsFirst(kvs[1..], n - 1, target); }
  }

  // All entries of chunks whose index key is before the target are before it.
  lemma EarlierBefore(chunks: seq<Chunk>, keys: seq<Bytes>, i: nat, target: Bytes, m: nat)
    requires InOrder(chunks) && IndexKeys(keys, chunks) && i <= |chunks|
    requires forall c :: 0 <= c < i ==> InternalLess(keys[c], target)
    requires m < Start(chunks, i)
    ensures m < |All(chunks)| && InternalLess(All(chunks)[m].key, target)
  {
    hide InternalLess;
    var c, j := ChunkOf(chunks, i, m);
    ChunkAt(chunks, c);
    InternalIsOrder();
    var last := Start(chunks, c) + |chunks[c].kvs| - 1;
    assert All(chunks)[last].key == LastKey(chunks[c]);
    assert m == last || InternalLess(All(chunks)[m].key, All(chunks)[last].key);
    assert !InternalLess(keys[c], LastKey(chunks[c])) && InternalLess(keys[c], target);
    AtOrBefore(All(chunks)[m].key, LastKey(chunks[c]), keys[c], target);
  }

  lemma AtOrBefore(a: Bytes, b: Bytes, c: Bytes, d: Bytes)
    requires (a == b || InternalLess(a, b)) && !InternalLess(c, b) && InternalLess(c, d)
    ensures InternalLess(a, d)
  {
    hide InternalLess;
    InternalIsOrder();
    assert b == c || InternalLess(b, c);
  }

  /** What an index search followed by a block search finds: the very entry a linear search
      does, unless that one has another user key. */
  lemma IndexedIsLinear(chunks: seq<Chunk>, keys: seq<Bytes>, i: nat, j: nat, target: Bytes)
    requires InOrder(chunks) && IndexKeys(keys, chunks) && |target| >= 8
    requires i <= |chunks| && (forall c :: 0 <= c < i ==> InternalLess(keys[c], target))
    requires i < |chunks| ==> !InternalLess(keys[i], target) && Splits(chunks[i].kvs, j, target)
    ensures i < |chunks| && j < |chunks[i].kvs| ==> FirstFrom(All(chunks), target) == Some(chunks[i].kvs[j])
    ensures (i < |chunks| ==> j == |chunks[i].kvs|) ==>
      var r := FirstFrom(All(chunks), target);
      r.Some? ==> |r.value.key| >= 8 && UserKey(r.value.key) != UserKey(target)
  {
    hide InternalLess, All;
    var all := All(chunks);
    assert chunks[..|chunks|] == chunks;
    if i == |chunks| {
      forall m | 0 <= m < |all| ensures InternalLess(all[m].key, target) { EarlierBefore(chunks, keys, i, target, m); }
      SplitIsFirst(all, |all|, target);
    } else {
      ChunkAt(chunks, i);
      var n := Start(chunks, i) + j;
      forall m | 0 <= m < n ensures InternalLess(all[m].key, target) {
        if m < Start(chunks, i) {
          EarlierBefore(chunks, keys, i, target, m);
        } else {
          assert all[m] == chunks[i].kvs[m - Start(chunks, i)];
        }
      }
      if j < |chunks[i].kvs| {
        SplitIsFirst(all, n, target);
      } else {
        PastChunk(chunks, keys, i, target);
      }
    }
  }

  // The target lies between the chunk's last entry and its index key.
  lemma PastChunk(chunks: seq<Chunk>, keys: seq<Bytes>, i: nat, target: Bytes)
    requires InOrder(chunks) && IndexKeys(keys, chunks) && |target| >= 8 && i < |chunks|
    requires forall m :: 0 <= m < Start(chunks, i + 1) ==> m < |All(chunks)| && InternalLess(All(chunks)[m].key, target)
    requires !InternalLess(keys[i], target)
    ensures var r := FirstFrom(All(chunks), target);
      r.Some? ==> |r.value.key| >= 8 && UserKey(r.value.key) != UserKey(target)
  {
    hide InternalLess, BytesLess, All;
    var all, n := All(chunks), Start(chunks, i + 1);
    ChunkAt(chunks, i);
    if i + 1 == |chunks| {
      assert chunks[..i + 1] == chunks;
      SplitIsFirst(all, n, target);
    } else {
      ChunkAt(chunks, i + 1);
      var next := FirstKey(chunks[i + 1]);
      assert all[n].key == next;
      assert all[n - 1].key == LastKey(chunks[i]);
      assert InternalLess(LastKey(chunks[i]), target);
      BeforeNext(LastKey(chunks[i]), next, keys[i], target);
      SplitIsFirst(all, n, target);
    }
  }

  lemma BeforeNext(last: Bytes, next: Bytes, key: Bytes, target: Bytes)
    requires Bounds(last, Some(next), key) && |target| >= 8
    requires InternalLess(last, target) && !InternalLess(key, target)
    ensures !InternalLess(next, target) && UserKey(next) != UserKey(target)
  {
    InternalTotal(key, target);
    InternalTotal(last, target);
    assert key != last;
    BytesTotal(UserKey(key), UserKey(target));
    BytesTotal(UserKey(target), UserKey(next));
    BytesTotal(UserKey(key), UserKey(next));
    hide BytesLess, Trailer;
    if UserKey(key) != UserKey(target) {
      BytesTransitive(UserKey(target), UserKey(key), UserKey(next));
    }
  }
}
