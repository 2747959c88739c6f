/** Building table files, and point lookup in them. */
module Tables {
  import opened Codings
  import opened Crc32c
  import opened Versions
  import opened Blocks
  import opened KeyOrders
  import opened Filters
  import opened TableLookups

  // ----- Blocks in a file -----

  datatype Handle = Handle(offset: nat, size: nat)

  function EncodeHandle(h: Handle): Bytes { Varint(h.offset) + Varint(h.size) }

  function DecodeHandle(b: Bytes): Option<Handle> {
    match GetVarint64(b)
    case Malformed => None
    case Parsed(offset, rest) =>
      match GetVarint64(rest)
      case Malformed => None
      case Parsed(size, _) => Some(Handle(offset, size))
  }

  lemma HandleRoundTrip(h: Handle)
    requires h.offset < TWO_64 && h.size < TWO_64
    ensures DecodeHandle(EncodeHandle(h)) == Some(h)
  {
    hide Varint, GetVarint64;
    Varint64RoundTrip(h.offset, Varint(h.size));
    Varint64RoundTrip(h.size, []);
    assert Varint(h.size) + [] == Varint(h.size);
  }

  const TRAILER_SIZE: nat := 5
  const NO_COMPRESSION: Byte := 0

  // Block contents, a type byte and a masked checksum of both.
  function RawBlock(contents: Bytes): (r: Bytes)
    ensures |r| == |contents| + TRAILER_SIZE
  {
    contents + [NO_COMPRESSION] + Fixed(Mask(Value(contents + [NO_COMPRESSION])), 4)
  }

  /** ReadBlock with checksums verified. */
  function ReadBlock(file: Bytes, h: Handle): Option<Bytes> {
    if |file| < h.offset + h.size + TRAILER_SIZE then None
    else
      var data := file[h.offset..h.offset + h.size + TRAILER_SIZE];
      if StoredCrc(data[h.size + 1..]) != Value(data[..h.size + 1]) || data[h.size] != NO_COMPRESSION then None
      else Some(data[..h.size])
  }

  // The contents are stored at the handle.
  ghost predicate Stored(file: Bytes, h: Handle, contents: Bytes) {
    && h.size == |contents| && h.offset + h.size + TRAILER_SIZE <= |file|
    && file[h.offset..h.offset + h.size + TRAILER_SIZE] == RawBlock(contents)
  }

  lemma StoredReads(file: Bytes, h: Handle, contents: Bytes)
    requires Stored(file, h, contents)
    ensures ReadBlock(file, h) == Some(contents)
  {
    StoredCrcReads(Value(contents + [NO_COMPRESSION]));
    hide Value, StoredCrc, Mask, Fixed;
    var data, crc := RawBlock(contents), Fixed(Mask(Value(contents + [NO_COMPRESSION])), 4);
    assert data[..h.size + 1] == contents + [NO_COMPRESSION] && data[h.size + 1..] == crc && data[..h.size] == contents;
  }

  /** A block is read exactly when it was stored there, checksum and all. */
  lemma ReadsIff(file: Bytes, h: Handle, contents: Bytes)
    ensures ReadBlock(file, h) == Some(contents) <==> Stored(file, h, contents)
  {
    if |file| >= h.offset + h.size + TRAILER_SIZE {
      var data := file[h.offset..h.offset + h.size + TRAILER_SIZE];
      StoredCrcIff(data[h.size + 1..], Value(data[..h.size + 1]));
      hide Value, StoredCrc, Mask, Fixed;
      BlockParts(data, h.size, contents);
    }
  }

  lemma BlockParts(data: Bytes, n: nat, contents: Bytes)
    requires |data| == n + TRAILER_SIZE
    ensures n == |contents| && data == RawBlock(contents) <==>
      data[..n] == contents && data[n] == NO_COMPRESSION && data[n + 1..] == Fixed(Mask(Value(data[..n + 1])), 4)
  {
    hide Value, Mask, Fixed;
    assert data == data[..n] + [data[n]] + data[n + 1..] && data[..n + 1] == data[..n] + [data[n]];
    if n == |contents| && data == RawBlock(contents) {
      assert data[..n] == contents && data[..n + 1] == contents + [NO_COMPRESSION];
    }
  }

  /** A block with one bit of its contents changed is refused. */
  lemma OneBitIsRefused(file: Bytes, file': Bytes, h: Handle, contents: Bytes, contents': Bytes, i: nat)
    requires Stored(file, h, contents) && |file'| == |file| && |contents'| == |contents|
    requires file'[h.offset..h.offset + h.size] == contents'
    requires file'[h.offset + h.size..h.offset + h.size + TRAILER_SIZE] == file[h.offset + h.size..h.offset + h.size + TRAILER_SIZE]
    requires i < 8 * |contents| && Bits(contents)[i] != Bits(contents')[i]
    requires forall j :: 0 <= j < 8 * |contents| && j != i ==> Bits(contents)[j] == Bits(contents')[j]
    ensures ReadBlock(file', h) == None
  {
    hide Bits, Extend, StoredCrc, Mask, Fixed;
    var a, b := contents + [NO_COMPRESSION], contents' + [NO_COMPRESSION];
    BitsConcat(contents, [NO_COMPRESSION]);
    BitsConcat(contents', [NO_COMPRESSION]);
    OneBitCaught(0, a, b, i);
    var data, data' := file[h.offset..h.offset + h.size + TRAILER_SIZE], file'[h.offset..h.offset + h.size + TRAILER_SIZE];
    assert data'[h.size..] == data[h.size..] by { SplitAt(file, file', h); }
    assert data'[..h.size] == contents';
    BlockParts(data, h.size, contents);
    StoredCrcIff(data[h.size + 1..], Value(a));
    assert data[..h.size + 1] == a && data'[..h.size + 1] == b by {
      assert data'[h.size] == data'[h.size..][0] == data[h.size..][0] == NO_COMPRESSION;
    }
    assert data'[h.size + 1..] == data'[h.size..][1..] == data[h.size + 1..];
  }

  lemma SplitAt(file: Bytes, file': Bytes, h: Handle)
    requires |file'| == |file| && h.offset + h.size + TRAILER_SIZE <= |file|
    ensures var from, end := h.offset + h.size, h.offset + h.size + TRAILER_SIZE;
      file[h.offset..end][h.size..] == file[from..end] && file'[h.offset..end][h.size..] == file'[from..end]
  {
  }

  lemma StoredStays(file: Bytes, h: Handle, contents: Bytes, more: Bytes)
    requires Stored(file, h, contents)
    ensures Stored(file + more, h, contents)
  {
    hide RawBlock;
    assert (file + more)[h.offset..h.offset + h.size + TRAILER_SIZE] == file[h.offset..h.offset + h.size + TRAILER_SIZE];
  }

  lemma StoredLast(file: Bytes, contents: Bytes)
    ensures Stored(file + RawBlock(contents), Handle(|file|, |contents|), contents)
  {
    hide RawBlock;
    assert (file + RawBlock(contents))[|file|..] == RawBlock(contents);
  }

  // ----- Tables -----

  function HandleOf(c: Chunk, k: nat): Handle
    requires k > 0
  {
    Handle(c.offset, |Block(c.kvs, k)|)
  }

  ghost predicate ChunksStored(file: Bytes, chunks: seq<Chunk>, k: nat)
    requires k > 0
  {
    forall i :: 0 <= i < |chunks| ==> Stored(file, HandleOf(chunks[i], k), Block(chunks[i].kvs, k))
  }

  function KeysOf(index: seq<KV>): seq<Bytes> { seq(|index|, i requires 0 <= i < |index| => index[i].key) }

  ghost predicate IndexHandles(index: seq<KV>, chunks: seq<Chunk>, k: nat)
    requires k > 0 && |index| <= |chunks|
  {
    forall i :: 0 <= i < |index| ==> index[i].value == EncodeHandle(HandleOf(chunks[i], k))
  }

  // Every user key of every chunk is known to the filter of the chunk's offset.
  ghost predicate FilterKnows(added: set<(nat, Bytes)>, chunks: seq<Chunk>) {
    forall i, j :: 0 <= i < |chunks| && 0 <= j < |chunks[i].kvs| && |chunks[i].kvs[j].key| >= 8 ==>
      (chunks[i].offset / FILTER_BASE, UserKey(chunks[i].kvs[j].key)) in added
  }

  datatype Layout = Layout(chunks: seq<Chunk>, index: seq<KV>, indexHandle: Handle, filterHandle: Option<Handle>)

  /** A finished table file. */
  ghost predicate TableOk(file: Bytes, k: nat, policy: Policy, t: Layout) {
    && k > 0 && InOrder(t.chunks) && ChunksStored(file, t.chunks, k)
    && |t.index| == |t.chunks| && IndexHandles(t.index, t.chunks, k) && IndexKeys(KeysOf(t.index), t.chunks)
    && Stored(file, t.indexHandle, Block(t.index, 1))
    && (t.filterHandle.Some? ==> FilterOk(file, policy, t.filterHandle.value, t.chunks))
  }

  ghost predicate FilterOk(file: Bytes, policy: Policy, h: Handle, chunks: seq<Chunk>) {
    exists contents :: Stored(file, h, contents) && (|contents| < TWO_32 ==>
      forall i, j :: 0 <= i < |chunks| && 0 <= j < |chunks[i].kvs| && |chunks[i].kvs[j].key| >= 8 ==>
        BlockMayMatch(policy, contents, chunks[i].offset, UserKey(chunks[i].kvs[j].key)))
  }

  // The sizes the formats can hold: 64-bit offsets in a file, 32-bit ones in a block.
  ghost predicate Fits(file: Bytes, k: nat, t: Layout)
    requires k > 0
  {
    && |file| < TWO_64 && |Block(t.index, 1)| < TWO_32 && KeysFit(t.index)
    && (t.filterHandle.Some? ==> t.filterHandle.value.size < TWO_32)
    && forall i :: 0 <= i < |t.chunks| ==> |Block(t.chunks[i].kvs, k)| < TWO_32 && KeysFit(t.chunks[i].kvs)
  }

  // ----- Reading -----

  lemma IndexIncreases(chunks: seq<Chunk>, index: seq<KV>)
    requires InOrder(chunks) && IndexKeys(KeysOf(index), chunks)
    ensures Increasing(index, InternalLess)
  {
    hide InternalLess, All;
    InternalIsOrder();
    forall i, j | 0 <= i < j < |index| ensures InternalLess(index[i].key, index[j].key) {
      IndexAscends(chunks, KeysOf(index), i, j);
    }
  }

  // A separator comes before every entry of the next chunk, hence before later separators.
  lemma {:induction false} IndexAscends(chunks: seq<Chunk>, keys: seq<Bytes>, i: nat, j: nat)
    requires InOrder(chunks) && IndexKeys(keys, chunks) && i < j < |keys|
    ensures InternalLess(keys[i], keys[j])
    decreases j - i
  {
    hide InternalLess, All;
    SeparatorBefore(chunks, keys, i);
    var next := chunks[i + 1];
    ChunkAt(chunks, i + 1);
    var s := Start(chunks, i + 1);
    assert All(chunks)[s].key == FirstKey(next) && All(chunks)[s + |next.kvs| - 1].key == LastKey(next);
    assert FirstKey(next) == LastKey(next) || InternalLess(FirstKey(next), LastKey(next));
    Chain(keys[i], FirstKey(next), LastKey(next), keys[i + 1]);
    if j > i + 1 {
      IndexAscends(chunks, keys, i + 1, j);
      InternalTransitive(keys[i], keys[i + 1], keys[j]);
    }
  }

  lemma Chain(a: Bytes, b: Bytes, c: Bytes, d: Bytes)
    requires InternalLess(a, b) && (b == c || InternalLess(b, c)) && !InternalLess(d, c)
    ensures InternalLess(a, d)
  {
    hide InternalLess;
    if b != c { InternalTransitive(a, b, c); }
    InternalTotal(c, d);
    if c != d { InternalTransitive(a, c, d); }
  }

  lemma SeparatorBefore(chunks: seq<Chunk>, keys: seq<Bytes>, i: nat)
    requires InOrder(chunks) && IndexKeys(keys, chunks) && i + 1 < |keys|
    ensures InternalLess(keys[i], FirstKey(chunks[i + 1]))
  {
    hide All, InternalLess;
    ChunkAt(chunks, i);
    ChunkAt(chunks, i + 1);
    var s := Start(chunks, i + 1);
    assert All(chunks)[s].key == FirstKey(chunks[i + 1]) && All(chunks)[s - 1].key == LastKey(chunks[i]);
    BoundsBefore(LastKey(chunks[i]), FirstKey(chunks[i + 1]), keys[i]);
  }

  lemma BoundsBefore(last: Bytes, next: Bytes, key: Bytes)
    requires Bounds(last, Some(next), key) && InternalLess(last, next)
    ensures InternalLess(key, next)
  {
  }

  lemma ChunkInOrder(chunks: seq<Chunk>, i: nat)
    requires InOrder(chunks) && i < |chunks|
    ensures Increasing(chunks[i].kvs, InternalLess)
    ensures forall j :: 0 <= j < |chunks[i].kvs| ==> |chunks[i].kvs[j].key| >= 8
  {
    hide InternalLess, All;
    ChunkAt(chunks, i);
    var s := Start(chunks, i);
    forall a, b | 0 <= a < b < |chunks[i].kvs| ensures InternalLess(chunks[i].kvs[a].key, chunks[i].kvs[b].key) {
      assert All(chunks)[s + a] == chunks[i].kvs[a] && All(chunks)[s + b] == chunks[i].kvs[b];
    }
  }

  class Table {
    const file: Bytes
    const policy: Policy
    const indexBlock: Bytes
    const filter: FilterBlockReader?
    ghost const k: nat
    ghost const layout: Layout

    // Table::Open, the handles known.
    constructor (file: Bytes, policy: Policy, indexHandle: Handle, filterHandle: Option<Handle>, ghost k: nat, ghost t: Layout)
      requires TableOk(file, k, policy, t) && Fits(file, k, t) && t.indexHandle == indexHandle && t.filterHandle == filterHandle
      ensures Ok() && layout == t
      ensures filter != null ==> fresh(filter)
    {
      hide TableOk, Fits, ReadBlock;
      WhatOpens(file, k, policy, t);
      var contents := ReadBlock(file, indexHandle);
      var reader: FilterBlockReader? := null;
      if filterHandle.Some? {
        var filterContents := ReadBlock(file, filterHandle.value);
        reader := new FilterBlockReader(policy, filterContents.value);
      }
      this.file, this.policy, indexBlock, filter, this.k, layout := file, policy, contents.value, reader, k, t;
    }

    ghost predicate Ok()
      reads filter
    {
      && TableOk(file, k, policy, layout) && Fits(file, k, layout) && indexBlock == Block(layout.index, 1)
      && (filter == null || FilterIs(filter))
    }

    ghost predicate FilterIs(f: FilterBlockReader)
      reads f
    {
      f.Ok() && f.policy == policy && layout.filterHandle.Some? && ReadBlock(file, layout.filterHandle.value) == Some(f.contents)
    }

    /** InternalGet: seek in the index, ask the filter, seek in the block. */
    method InternalGet(target: Bytes) returns (r: Option<KV>)
      requires Ok() && |target| >= 8
      ensures var first := FirstFrom(All(layout.chunks), target);
        && (r.Some? ==> r == first && |r.value.key| >= 8)
        && (r.None? && first.Some? ==> |first.value.key| >= 8 && UserKey(first.value.key) != UserKey(target))
    {
      hide TableOk, Fits, ReadBlock, Block, InternalLess, All, DecodeHandle, FilterOk, BlockMayMatch, KeysFit, Increasing, InOrder,
        IndexKeys, Splits, FilterBlockReader.Ok;
      ghost var chunks, keys := layout.chunks, KeysOf(layout.index);
      WhatIndexHolds(file, k, policy, layout);
      r := None;
      var entry;
      ghost var i, j := 0, 0;
      entry, i := SeekIn(indexBlock, target, layout.index, 1);
      SplitParts(layout.index, i, target);
      if entry.None? {
        IndexedIsLinear(chunks, keys, i, j, target);
      } else {
        BlockFits(file, k, policy, layout, i);
        var handle := DecodeHandle(entry.value.value).value;
        var may := true;
        if filter != null {
          may := filter.KeyMayMatch(handle.offset, UserKey(target));
        }
        if may {
          var contents := ReadBlock(file, handle).value;
          r, j := SeekIn(contents, target, chunks[i].kvs, k);
          SplitParts(chunks[i].kvs, j, target);
          IndexedIsLinear(chunks, keys, i, j, target);
        } else {
          FilteredOut(file, k, policy, layout, filter.contents, i, target);
        }
      }
    }
  }

  // Seek in the block at hand.
  method SeekIn(contents: Bytes, target: Bytes, ghost kvs: seq<KV>, ghost k: nat) returns (r: Option<KV>, ghost n: nat)
    requires k > 0 && contents == Block(kvs, k) && |contents| < TWO_32 && KeysFit(kvs) && Increasing(kvs, InternalLess)
    ensures Splits(kvs, n, target) && r == if n < |kvs| then Some(kvs[n]) else None
  {
    hide Block, InternalLess, KeysFit, Increasing;
    var it := OpenBlock(InternalLess, contents, kvs, k);
    it.InvIsWired();
    InternalIsOrder();
    it.Seek(target);
    it.Observed();
    n := it.at;
    r := if it.Valid() then Some(KV(it.key, it.Value())) else None;
  }

  lemma SplitParts(kvs: seq<KV>, n: nat, target: Bytes)
    requires Splits(kvs, n, target)
    ensures n <= |kvs| && (forall m :: 0 <= m < n ==> InternalLess(kvs[m].key, target))
    ensures n < |kvs| ==> !InternalLess(kvs[n].key, target)
  {
  }

  lemma WhatIndexHolds(file: Bytes, k: nat, policy: Policy, t: Layout)
    requires TableOk(file, k, policy, t) && Fits(file, k, t)
    ensures InOrder(t.chunks) && IndexKeys(KeysOf(t.index), t.chunks) && Increasing(t.index, InternalLess)
    ensures k > 0 && |t.index| == |t.chunks| && KeysFit(t.index) && |Block(t.index, 1)| < TWO_32
  {
    hide InOrder, IndexKeys, Increasing, Block, KeysFit, InternalLess;
    IndexIncreases(t.chunks, t.index);
  }

  lemma BlockFits(file: Bytes, k: nat, policy: Policy, t: Layout, i: nat)
    requires TableOk(file, k, policy, t) && Fits(file, k, t) && i < |t.chunks|
    ensures i < |t.index| && DecodeHandle(t.index[i].value) == Some(HandleOf(t.chunks[i], k))
    ensures ReadBlock(file, HandleOf(t.chunks[i], k)) == Some(Block(t.chunks[i].kvs, k))
    ensures |Block(t.chunks[i].kvs, k)| < TWO_32 && KeysFit(t.chunks[i].kvs) && Increasing(t.chunks[i].kvs, InternalLess)
    ensures forall j :: 0 <= j < |t.chunks[i].kvs| ==> |t.chunks[i].kvs[j].key| >= 8
  {
    hide InternalLess, Block, DecodeHandle, EncodeHandle, ReadBlock, RawBlock, IndexKeys, FilterOk;
    ChunkInOrder(t.chunks, i);
    var h := HandleOf(t.chunks[i], k);
    assert Stored(file, h, Block(t.chunks[i].kvs, k));
    StoredReads(file, h, Block(t.chunks[i].kvs, k));
    HandleRoundTrip(h);
  }

  // A filter that says no is right: the key is in no entry of the block.
  lemma FilteredOut(file: Bytes, k: nat, policy: Policy, t: Layout, contents: Bytes, i: nat, target: Bytes)
    requires TableOk(file, k, policy, t) && Fits(file, k, t) && i < |t.chunks| && |target| >= 8
    requires t.filterHandle.Some? && ReadBlock(file, t.filterHandle.value) == Some(contents)
    requires !BlockMayMatch(policy, contents, t.chunks[i].offset, UserKey(target))
    requires forall c :: 0 <= c < i ==> InternalLess(t.index[c].key, target)
    requires !InternalLess(t.index[i].key, target)
    ensures var first := FirstFrom(All(t.chunks), target);
      first.Some? ==> |first.value.key| >= 8 && UserKey(first.value.key) != UserKey(target)
  {
    hide InternalLess, All, Block, ReadBlock, RawBlock, BlockMayMatch, ChunksStored, IndexHandles;
    var kvs := t.chunks[i].kvs;
    var h := t.filterHandle.value;
    assert FilterOk(file, policy, h, t.chunks);
    var stored :| Stored(file, h, stored) && (|stored| < TWO_32 ==>
      forall i, j :: 0 <= i < |t.chunks| && 0 <= j < |t.chunks[i].kvs| && |t.chunks[i].kvs[j].key| >= 8 ==>
        BlockMayMatch(policy, stored, t.chunks[i].offset, UserKey(t.chunks[i].kvs[j].key)));
    StoredReads(file, h, stored);
    ChunkInOrder(t.chunks, i);
    var j := SplitExists(kvs, target);
    IndexedIsLinear(t.chunks, KeysOf(t.index), i, j, target);
  }

  lemma {:induction false} SplitExists(kvs: seq<KV>, target: Bytes) returns (n: nat)
    ensures Splits(kvs, n, target)
  {
    hide InternalLess;
    n := 0;
    while n < |kvs| && InternalLess(kvs[n].key, target)
      invariant n <= |kvs| && forall m :: 0 <= m < n ==> InternalLess(kvs[m].key, target)
    {
      n := n + 1;
    }
  }

  lemma WhatOpens(file: Bytes, k: nat, policy: Policy, t: Layout)
    requires TableOk(file, k, policy, t)
    ensures ReadBlock(file, t.indexHandle) == Some(Block(t.index, 1))
    ensures t.filterHandle.Some? ==> ReadBlock(file, t.filterHandle.value).Some?
  {
    hide ReadBlock, Block;
    StoredReads(file, t.indexHandle, Block(t.index, 1));
    if t.filterHandle.Some? {
      assert FilterOk(file, policy, t.filterHandle.value, t.chunks);
      var contents :| Stored(file, t.filterHandle.value, contents);
      StoredReads(file, t.filterHandle.value, contents);
    }
  }

  // ----- The table under construction -----

  // The chunks once the open data block is counted as one.
  function WithOpen(chunks: seq<Chunk>, open: seq<KV>, offset: nat): seq<Chunk> {
    if open == [] then chunks else chunks + [Chunk(open, offset)]
  }

  lemma AllWithOpen(chunks: seq<Chunk>, open: seq<KV>, offset: nat)
    ensures All(WithOpen(chunks, open, offset)) == All(chunks) + open
  {
    if open != [] { assert (chunks + [Chunk(open, offset)])[..|chunks|] == chunks; }
  }

  // The index entries made so far: one for each chunk whose successor has begun.
  ghost predicate Indexed(index: seq<KV>, chunks: seq<Chunk>, open: seq<KV>, offset: nat, k: nat)
    requires k > 0
  {
    && |index| <= |chunks| && IndexHandles(index, chunks, k)
    && forall i :: 0 <= i < |index| ==>
         && chunks[i].kvs != [] && NextKey(WithOpen(chunks, open, offset), i).Some?
         && Bounds(LastKey(chunks[i]), NextKey(WithOpen(chunks, open, offset), i), index[i].key)
  }

  lemma IncreasingSnoc(kvs: seq<KV>, kv: KV)
    requires Increasing(kvs, InternalLess) && (kvs != [] ==> InternalLess(kvs[|kvs| - 1].key, kv.key))
    ensures Increasing(kvs + [kv], InternalLess)
  {
    hide InternalLess;
    var all := kvs + [kv];
    forall i, j | 0 <= i < j < |all| ensures InternalLess(all[i].key, all[j].key) {
      if j == |kvs| && i < |kvs| - 1 { InternalTransitive(kvs[i].key, kvs[|kvs| - 1].key, kv.key); }
    }
  }

  // Adding an entry to the open block.
  lemma AddKeepsOrder(chunks: seq<Chunk>, open: seq<KV>, offset: nat, kv: KV)
    requires InOrder(WithOpen(chunks, open, offset)) && |kv.key| >= 8
    requires var all := All(chunks) + open; all != [] ==> InternalLess(all[|all| - 1].key, kv.key)
    ensures InOrder(WithOpen(chunks, open + [kv], offset))
    ensures All(WithOpen(chunks, open + [kv], offset)) == All(WithOpen(chunks, open, offset)) + [kv]
  {
    hide InternalLess, All;
    AllWithOpen(chunks, open, offset);
    AllWithOpen(chunks, open + [kv], offset);
    var all := All(chunks) + open;
    assert All(chunks) + (open + [kv]) == all + [kv];
    IncreasingSnoc(all, kv);
    var before, after := WithOpen(chunks, open, offset), WithOpen(chunks, open + [kv], offset);
    forall i | 0 <= i < |after| ensures after[i].kvs != [] {
      if i < |chunks| { assert before[i] == chunks[i]; }
    }
  }

  // A key that separates the last chunk from a new entry bounds it in the index.
  lemma SeparatorBounds(last: Bytes, key: Bytes, sep: Bytes)
    requires |last| >= 8 && |key| >= 8 && Separates(last, key, sep) && InternalLess(last, key)
    ensures Bounds(last, Some(key), sep)
  {
    SeparatesInOrder(last, key, sep);
  }

  // The index once an entry has been added.
  lemma AddKeepsIndex(index: seq<KV>, more: seq<KV>, chunks: seq<Chunk>, open: seq<KV>, offset: nat, k: nat, kv: KV)
    requires k > 0 && Indexed(index, chunks, open, offset, k) && |kv.key| >= 8 && |index| + |more| == |chunks| && |more| <= 1
    requires more != [] ==>
      && open == [] && chunks[|index|].kvs != [] && more[0].value == EncodeHandle(HandleOf(chunks[|index|], k))
      && Bounds(LastKey(chunks[|index|]), Some(kv.key), more[0].key)
    ensures Indexed(index + more, chunks, open + [kv], offset, k)
  {
    hide Bounds, EncodeHandle, HandleOf;
    var before, after := WithOpen(chunks, open, offset), WithOpen(chunks, open + [kv], offset);
    assert forall i :: 0 <= i < |chunks| ==> after[i] == chunks[i] && before[i] == chunks[i];
    forall i | 0 <= i < |index| ensures NextKey(after, i) == NextKey(before, i) && NextKey(after, i).Some? {
      assert NextKey(before, i).Some?;
      if i + 1 == |chunks| && open != [] { assert (open + [kv])[0] == open[0]; }
    }
  }

  // Flushing turns the open block into the last chunk.
  lemma FlushKeeps(file: Bytes, chunks: seq<Chunk>, open: seq<KV>, k: nat)
    requires k > 0 && ChunksStored(file, chunks, k) && open != []
    ensures ChunksStored(file + RawBlock(Block(open, k)), chunks + [Chunk(open, |file|)], k)
  {
    hide RawBlock, Block;
    var file', chunks' := file + RawBlock(Block(open, k)), chunks + [Chunk(open, |file|)];
    StoredLast(file, Block(open, k));
    forall i | 0 <= i < |chunks'| ensures Stored(file', HandleOf(chunks'[i], k), Block(chunks'[i].kvs, k)) {
      if i < |chunks| { StoredStays(file, HandleOf(chunks[i], k), Block(chunks[i].kvs, k), RawBlock(Block(open, k))); }
    }
  }

  lemma ChunksStay(file: Bytes, chunks: seq<Chunk>, k: nat, more: Bytes)
    requires k > 0 && ChunksStored(file, chunks, k)
    ensures ChunksStored(file + more, chunks, k)
  {
    hide Stored;
    forall i | 0 <= i < |chunks| ensures Stored(file + more, HandleOf(chunks[i], k), Block(chunks[i].kvs, k)) {
      StoredStays(file, HandleOf(chunks[i], k), Block(chunks[i].kvs, k), more);
    }
  }

  lemma FilterLearns(added: set<(nat, Bytes)>, chunks: seq<Chunk>, open: seq<KV>, offset: nat, kv: KV)
    requires FilterKnows(added, WithOpen(chunks, open, offset)) && |kv.key| >= 8
    ensures FilterKnows(added + {(offset / FILTER_BASE, UserKey(kv.key))}, WithOpen(chunks, open + [kv], offset))
  {
    var before, after := WithOpen(chunks, open, offset), WithOpen(chunks, open + [kv], offset);
    var added' := added + {(offset / FILTER_BASE, UserKey(kv.key))};
    forall i, j | 0 <= i < |after| && 0 <= j < |after[i].kvs| && |after[i].kvs[j].key| >= 8
      ensures (after[i].offset / FILTER_BASE, UserKey(after[i].kvs[j].key)) in added'
    {
      if i < |chunks| {
        assert after[i] == before[i];
      } else if j < |open| {
        assert before[i].kvs[j] == after[i].kvs[j] && before[i].offset == after[i].offset;
      }
    }
  }

  /** The state of a table under construction: chunks written, the open block, the index so far,
      and whether the last chunk still waits for its index entry. */
  ghost predicate Building(file: Bytes, chunks: seq<Chunk>, open: seq<KV>, index: seq<KV>, pending: Option<Handle>, lastKey: Bytes, k: nat) {
    && k > 0 && InOrder(WithOpen(chunks, open, |file|)) && ChunksStored(file, chunks, k)
    && Indexed(index, chunks, open, |file|, k)
    && |index| == |chunks| - (if pending.Some? then 1 else 0)
    && (pending.Some? ==> open == [] && chunks != [] && pending.value == HandleOf(chunks[|chunks| - 1], k))
    && (pending.None? && open == [] ==> chunks == [])
    && (All(chunks) + open != [] ==> lastKey == (All(chunks) + open)[|All(chunks) + open| - 1].key)
  }

  lemma NothingBuilt(k: nat)
    requires k > 0
    ensures Building([], [], [], [], None, [], k) && All([]) == [] && WithOpen([], [], 0) == []
  {
  }

  // The index entry that Add writes first, if one is pending.
  ghost predicate Separated(pending: Option<Handle>, more: seq<KV>, lastKey: Bytes, key: Bytes) {
    if pending.None? then more == []
    else
      && |more| == 1 && more[0].value == EncodeHandle(pending.value)
      && |lastKey| >= 8 && |key| >= 8 && Separates(lastKey, key, more[0].key)
  }

  lemma LastKeyKnown(file: Bytes, chunks: seq<Chunk>, open: seq<KV>, index: seq<KV>, pending: Option<Handle>, lastKey: Bytes, k: nat)
    requires Building(file, chunks, open, index, pending, lastKey, k) && pending.Some?
    ensures |lastKey| >= 8 && chunks != [] && chunks[|chunks| - 1].kvs != [] && lastKey == LastKey(chunks[|chunks| - 1])
    ensures All(chunks) + open != []
  {
    hide InternalLess, Indexed, ChunksStored, InOrder, All;
    LastChunk(chunks, open, |file|);
    assert All(chunks) + [] == All(chunks);
  }

  lemma AddBuilds(file: Bytes, chunks: seq<Chunk>, open: seq<KV>, index: seq<KV>, pending: Option<Handle>, lastKey: Bytes, k: nat,
                  kv: KV, more: seq<KV>)
    requires Building(file, chunks, open, index, pending, lastKey, k) && Separated(pending, more, lastKey, kv.key)
    requires |kv.key| >= 8 && (All(chunks) + open != [] ==> InternalLess(lastKey, kv.key))
    ensures Building(file, chunks, open + [kv], index + more, None, kv.key, k)
  {
    hide InternalLess, All, Bounds, EncodeHandle, HandleOf, ChunksStored, Separates, InOrder, Indexed, WithOpen, BytesLess;
    if pending.Some? {
      LastKeyKnown(file, chunks, open, index, pending, lastKey, k);
      SeparatorBounds(lastKey, kv.key, more[0].key);
    }
    AddKeepsOrder(chunks, open, |file|, kv);
    AddKeepsIndex(index, more, chunks, open, |file|, k, kv);
    assert All(chunks) + (open + [kv]) == (All(chunks) + open) + [kv];
  }

  lemma FlushBuilds(file: Bytes, chunks: seq<Chunk>, open: seq<KV>, index: seq<KV>, pending: Option<Handle>, lastKey: Bytes, k: nat)
    requires Building(file, chunks, open, index, pending, lastKey, k) && open != []
    ensures var chunks' := chunks + [Chunk(open, |file|)];
      && Building(file + RawBlock(Block(open, k)), chunks', [], index, Some(Handle(|file|, |Block(open, k)|)), lastKey, k)
      && All(chunks') == All(chunks) + open
  {
    hide InternalLess, All, InOrder, RawBlock, Block, ChunksStored, Indexed;
    FlushKeeps(file, chunks, open, k);
    AllWithOpen(chunks, open, |file|);
    FlushKeepsIndex(index, chunks, open, |file|, |file + RawBlock(Block(open, k))|, k);
    var chunks' := chunks + [Chunk(open, |file|)];
    assert All(chunks') + [] == All(chunks');
  }

  lemma FlushKeepsIndex(index: seq<KV>, chunks: seq<Chunk>, open: seq<KV>, offset: nat, offset': nat, k: nat)
    requires k > 0 && Indexed(index, chunks, open, offset, k) && open != []
    ensures Indexed(index, chunks + [Chunk(open, offset)], [], offset', k)
  {
    hide Bounds, EncodeHandle, HandleOf;
    var chunks' := chunks + [Chunk(open, offset)];
    assert WithOpen(chunks', [], offset') == chunks' == WithOpen(chunks, open, offset);
  }

  class TableBuilder {
    const k: nat            // block_restart_interval
    const blockSize: nat
    const useFilter: bool
    const policy: Policy

    var file: Bytes         // its length is the offset
    const dataBlock: BlockBuilder
    const indexBlock: BlockBuilder
    const filterBlock: FilterBlockBuilder
    var lastKey: Bytes
    var closed: bool
    var pending: Option<Handle>   // pending_index_entry and pending_handle: only if dataBlock is empty
    ghost var chunks: seq<Chunk>

    constructor (k: nat, blockSize: nat, useFilter: bool, policy: Policy)
      requires k >= 1 && policy.Ok()
      ensures Ok() && Entries() == [] && fresh(dataBlock) && fresh(indexBlock) && fresh(filterBlock)
    {
      hide Building, All, BlockBuilder.Ok, FilterBlockBuilder.Ok, FilterKnows;
      this.k, this.blockSize, this.useFilter, this.policy := k, blockSize, useFilter, policy;
      file, lastKey, closed, pending, chunks := [], [], false, None, [];
      dataBlock := new BlockBuilder(k);
      indexBlock := new BlockBuilder(1);
      filterBlock := new FilterBlockBuilder(policy);
      new;
      if useFilter { filterBlock.StartBlock(0); }
      NothingKnown(filterBlock.added);
      NothingBuilt(k);
    }

    // Everything added so far.
    ghost function Entries(): seq<KV>
      reads this, dataBlock
    {
      All(chunks) + dataBlock.kvs
    }

    ghost predicate Parts()
      reads this, dataBlock, indexBlock, filterBlock
    {
      && dataBlock != indexBlock
      && dataBlock.Ok() && dataBlock.k == k > 0 && indexBlock.Ok() && indexBlock.k == 1
      && filterBlock.Ok() && filterBlock.policy == policy
      && (useFilter ==> |filterBlock.filterOffsets| == |file| / FILTER_BASE)
      && (useFilter ==> FilterKnows(filterBlock.added, WithOpen(chunks, dataBlock.kvs, |file|)))
    }

    ghost predicate Ok()
      reads this, dataBlock, indexBlock, filterBlock
    {
      !closed && Parts() && Building(file, chunks, dataBlock.kvs, indexBlock.kvs, pending, lastKey, k)
    }

    method Add(key: Bytes, value: Bytes)
      requires Ok() && |key| >= 8 && (Entries() != [] ==> InternalLess(lastKey, key))
      modifies this, dataBlock, indexBlock, filterBlock
      ensures Ok() && Entries() == old(Entries()) + [KV(key, value)]
      ensures Filled(old(chunks), old(dataBlock.kvs) + [KV(key, value)], old(|file|), chunks, dataBlock.kvs)
    {
      hide InternalLess, All, EncodeHandle, FilterKnows, Separates, Building, BlockBuilder.Ok, FilterBlockBuilder.Ok, Block;
      ghost var kv, open := KV(key, value), dataBlock.kvs;
      ghost var more := AddIndexEntry(key);
      AddBuilds(file, chunks, open, old(indexBlock.kvs), old(pending), lastKey, k, kv, more);
      if useFilter {
        FilterLearns(filterBlock.added, chunks, open, |file|, kv);
        filterBlock.AddKey(UserKey(key));
      }
      lastKey := key;
      dataBlock.Add(key, value);
      assert All(chunks) + (open + [kv]) == (All(chunks) + open) + [kv];
      EstimateIs(dataBlock);
      var estimate := |dataBlock.buffer| + 4 * |dataBlock.restarts| + 4;
      if estimate >= blockSize {
        Flush();
      }
    }

    // The block is written once it has reached the block size.
    ghost predicate Filled(before: seq<Chunk>, kvs: seq<KV>, offset: nat, after: seq<Chunk>, open: seq<KV>) {
      && k > 0
      && if |Block(kvs, k)| >= blockSize then open == [] && after == before + [Chunk(kvs, offset)] else open == kvs && after == before
    }

    // The first key of the next block is known: write the pending index entry, shortened.
    method AddIndexEntry(key: Bytes) returns (ghost more: seq<KV>)
      requires Ok() && |key| >= 8
      modifies this`pending, indexBlock
      ensures pending == None && indexBlock.Ok() && indexBlock.kvs == old(indexBlock.kvs) + more
      ensures Separated(old(pending), more, lastKey, key)
    {
      hide InternalLess, EncodeHandle, FilterKnows, Separates, BlockBuilder.Ok, FilterBlockBuilder.Ok, Building, BytesLess;
      more := [];
      if pending.Some? {
        LastKeyKnown(file, chunks, dataBlock.kvs, indexBlock.kvs, pending, lastKey, k);
        var sep := FindShortestSeparator(lastKey, key);
        more := [KV(sep, EncodeHandle(pending.value))];
        indexBlock.Add(sep, EncodeHandle(pending.value));
        pending := None;
      } else {
        assert indexBlock.kvs + [] == indexBlock.kvs;
      }
    }

    method Flush()
      requires Ok()
      modifies this, dataBlock, filterBlock
      ensures Ok() && Entries() == old(Entries()) && dataBlock.kvs == [] && lastKey == old(lastKey)
      ensures chunks == old(chunks) + if old(dataBlock.kvs) == [] then [] else [Chunk(old(dataBlock.kvs), old(|file|))]
    {
      hide InternalLess, All, Block, RawBlock, FilterKnows, Building, BlockBuilder.Ok, FilterBlockBuilder.Ok;
      var empty := dataBlock.Empty();
      if empty {
        return;
      }
      ghost var open, offset := dataBlock.kvs, |file|;
      FlushBuilds(file, chunks, open, indexBlock.kvs, pending, lastKey, k);
      var contents := dataBlock.Finish();
      var h := WriteRawBlock(contents);
      dataBlock.Reset();
      chunks := chunks + [Chunk(open, offset)];
      pending := Some(h);
      OffsetGrows(offset, |file|);
      if useFilter {
        filterBlock.StartBlock(|file|);
      }
      assert All(chunks) + [] == All(chunks);
    }

    method WriteRawBlock(contents: Bytes) returns (h: Handle)
      modifies this`file
      ensures file == old(file) + RawBlock(contents) && h == Handle(|old(file)|, |contents|)
    {
      hide Value, Mask, Fixed;
      h := Handle(|file|, |contents|);
      CrcOfBlock(contents);
      file := file + contents;
      var crc := Value(contents);
      crc := Extend(crc, [NO_COMPRESSION]);
      file := file + ([NO_COMPRESSION] + Fixed(Mask(crc), 4));
    }

    // The filter block, if there is to be one.
    method WriteFilter() returns (h: Option<Handle>)
      requires Parts() && dataBlock.kvs == []
      modifies this`file, filterBlock
      ensures old(file) <= file && (h.Some? <==> useFilter) && (h.Some? ==> FilterOk(file, policy, h.value, chunks))
    {
      hide FilterKnows, RawBlock, FilterOk, BlockMayMatch, BlockBuilder.Ok, FilterBlockBuilder.Ok;
      ghost var flushed := file;
      h := None;
      if useFilter {
        var contents := filterBlock.Finish();
        var written := WriteRawBlock(contents);
        h := Some(written);
        FilterWritten(flushed, contents, policy, chunks, filterBlock.added);
      }
    }

    /** The finished file is a table of exactly the entries added. */
    method Finish() returns (ghost t: Layout, indexHandle: Handle, filterHandle: Option<Handle>)
      requires Ok()
      modifies this, dataBlock, indexBlock, filterBlock
      ensures closed && TableOk(file, k, policy, t) && All(t.chunks) == old(Entries())
      ensures t.chunks == old(chunks) + if old(dataBlock.kvs) == [] then [] else [Chunk(old(dataBlock.kvs), old(|file|))]
      ensures t.indexHandle == indexHandle && t.filterHandle == filterHandle && (filterHandle.Some? <==> useFilter)
    {
      hide InternalLess, All, Block, FilterKnows, Building, BlockBuilder.Ok, FilterBlockBuilder.Ok, FilterOk, ChunksStored, RawBlock,
        TableOk, EncodeHandle, BlockMayMatch, Stored, UserKey, BytesLess, WithOpen, Separated;
      Flush();
      closed := true;
      assert All(chunks) + [] == All(chunks);
      ghost var flushed := file;
      filterHandle := WriteFilter();
      // the metaindex block that would come here is not part of the model
      ghost var index := indexBlock.kvs;
      ghost var more: seq<KV> := [];
      if pending.Some? {
        LastKeyKnown(flushed, chunks, [], index, pending, lastKey, k);
        var succ := FindShortSuccessor(lastKey);
        more := [KV(succ, EncodeHandle(pending.value))];
        indexBlock.Add(succ, EncodeHandle(pending.value));
      }
      ghost var before := file;
      var contents := indexBlock.Finish();
      indexHandle := WriteRawBlock(contents);
      t := Layout(chunks, index + more, indexHandle, filterHandle);
      assert index + [] == index;
      if useFilter { FilterStays(before, policy, filterHandle.value, chunks, RawBlock(contents)); }
      assert file == flushed + file[|flushed|..] && file == before + RawBlock(contents);
      FinishBuilds(flushed, chunks, index, pending, lastKey, k, more, file, before, policy, t);
    }
  }

  lemma NothingKnown(added: set<(nat, Bytes)>)
    ensures WithOpen([], [], 0) == [] && FilterKnows(added, [])
  {
  }

  // CurrentSizeEstimate
  lemma EstimateIs(b: BlockBuilder)
    requires b.Ok()
    ensures |Block(b.kvs, b.k)| == |b.buffer| + 4 * |b.restarts| + 4
  {
    hide Data, Restarts, Numbers;
  }

  lemma FinishBuilds(flushed: Bytes, chunks: seq<Chunk>, index: seq<KV>, pending: Option<Handle>, lastKey: Bytes, k: nat, more: seq<KV>,
                     file: Bytes, before: Bytes, policy: Policy, t: Layout)
    requires Building(flushed, chunks, [], index, pending, lastKey, k)
    requires if pending.None? then more == []
             else |more| == 1 && more[0].value == EncodeHandle(pending.value) && |lastKey| >= 8 && |more[0].key| >= 8 &&
                  (more[0].key == lastKey || BytesLess(UserKey(lastKey), UserKey(more[0].key)))
    requires flushed <= file && file == before + RawBlock(Block(index + more, 1))
    requires t.chunks == chunks && t.index == index + more && t.indexHandle == Handle(|before|, |Block(index + more, 1)|)
    requires t.filterHandle.Some? ==> FilterOk(file, policy, t.filterHandle.value, chunks)
    ensures TableOk(file, k, policy, t)
  {
    hide InternalLess, All, Block, FilterOk, RawBlock, EncodeHandle, BytesLess, Bounds, Stored, IndexKeys, InOrder;
    if pending.Some? {
      LastKeyKnown(flushed, chunks, [], index, pending, lastKey, k);
      SuccessorBounds(lastKey, more[0].key);
    }
    IndexComplete(index, more, chunks, |flushed|, k);
    assert flushed + file[|flushed|..] == file;
    ChunksStay(flushed, chunks, k, file[|flushed|..]);
    StoredLast(before, Block(index + more, 1));
  }

  // What Finish writes after the filter leaves it readable.
  lemma FilterStays(file: Bytes, policy: Policy, h: Handle, chunks: seq<Chunk>, more: Bytes)
    requires FilterOk(file, policy, h, chunks)
    ensures FilterOk(file + more, policy, h, chunks)
  {
    hide BlockMayMatch, Stored;
    var contents :| Stored(file, h, contents) && (|contents| < TWO_32 ==>
      forall i, j :: 0 <= i < |chunks| && 0 <= j < |chunks[i].kvs| && |chunks[i].kvs[j].key| >= 8 ==>
        BlockMayMatch(policy, contents, chunks[i].offset, UserKey(chunks[i].kvs[j].key)));
    StoredStays(file, h, contents, more);
  }

  lemma FilterWritten(file: Bytes, contents: Bytes, policy: Policy, chunks: seq<Chunk>, added: set<(nat, Bytes)>)
    requires FilterKnows(added, chunks)
    requires |contents| < TWO_32 ==> forall e, off: nat :: e in added && off / FILTER_BASE == e.0 ==> BlockMayMatch(policy, contents, off, e.1)
    ensures FilterOk(file + RawBlock(contents), policy, Handle(|file|, |contents|), chunks)
  {
    hide BlockMayMatch, Stored, RawBlock;
    StoredLast(file, contents);
    if |contents| < TWO_32 {
      forall i, j | 0 <= i < |chunks| && 0 <= j < |chunks[i].kvs| && |chunks[i].kvs[j].key| >= 8
        ensures BlockMayMatch(policy, contents, chunks[i].offset, UserKey(chunks[i].kvs[j].key))
      {
        var e := (chunks[i].offset / FILTER_BASE, UserKey(chunks[i].kvs[j].key));
        assert e in added;
      }
    }
  }

  lemma IndexComplete(index: seq<KV>, more: seq<KV>, chunks: seq<Chunk>, offset: nat, k: nat)
    requires k > 0 && Indexed(index, chunks, [], offset, k) && |index| + |more| == |chunks| && |more| <= 1
    requires more == [] ==> chunks == []
    requires more != [] ==>
      && chunks[|index|].kvs != [] && more[0].value == EncodeHandle(HandleOf(chunks[|index|], k))
      && Bounds(LastKey(chunks[|index|]), None, more[0].key)
    ensures IndexHandles(index + more, chunks, k) && IndexKeys(KeysOf(index + more), chunks)
  {
    hide Bounds, EncodeHandle, HandleOf;
    assert WithOpen(chunks, [], offset) == chunks;
  }

  lemma CrcOfBlock(contents: Bytes)
    ensures Extend(Value(contents), [NO_COMPRESSION]) == Value(contents + [NO_COMPRESSION])
  {
    ExtendConcat(0, contents, [NO_COMPRESSION]);
  }

  lemma OffsetGrows(a: nat, b: nat)
    requires a <= b
    ensures a / FILTER_BASE <= b / FILTER_BASE
  {
  }

  // The last entry, if the open block is empty, is that of the last chunk.
  lemma LastChunk(chunks: seq<Chunk>, open: seq<KV>, offset: nat)
    requires InOrder(WithOpen(chunks, open, offset))
    ensures open == [] && chunks != [] ==>
      var c := chunks[|chunks| - 1];
      c.kvs != [] && All(chunks) != [] && LastKey(c) == All(chunks)[|All(chunks)| - 1].key && |LastKey(c)| >= 8
  {
    hide InternalLess, Increasing, All;
    if open == [] && chunks != [] {
      ChunkAt(chunks, |chunks| - 1);
      assert chunks[|chunks| - 1].kvs != [];
      assert chunks[..|chunks|] == chunks;
    }
  }

  lemma SuccessorBounds(last: Bytes, key: Bytes)
    requires |last| >= 8 && |key| >= 8 && (key == last || BytesLess(UserKey(last), UserKey(key)))
    ensures Bounds(last, None, key)
  {
    InternalTotal(last, last);
    BytesTotal(UserKey(last), UserKey(key));
  }
}
