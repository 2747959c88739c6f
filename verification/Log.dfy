/** The log: records cut into framed fragments over 32 KB blocks. */
module Logs {
  import opened Codings
  import opened Crc32c

  const BLOCK_SIZE: nat := 32768
  const HEADER_SIZE: nat := 7

  const ZERO_TYPE: nat := 0
  const FULL_TYPE: nat := 1
  const FIRST_TYPE: nat := 2
  const MIDDLE_TYPE: nat := 3
  const LAST_TYPE: nat := 4
  // What the reader returns besides the types: both values could also occur in a header.
  const EOF: nat := 5
  const BAD_RECORD: nat := 6

  // ----- What a writer emits -----

  function TypeOf(begin: bool, end: bool): nat {
    if begin && end then FULL_TYPE else if begin then FIRST_TYPE else if end then LAST_TYPE else MIDDLE_TYPE
  }

  function Frame(t: nat, data: Bytes): (r: Bytes)
    requires t < 256 && |data| < 0x1_0000
    ensures |r| == HEADER_SIZE + |data|
  {
    Fixed(Mask(Value([t as Byte] + data)), 4) + Fixed(|data|, 2) + [t as Byte] + data
  }

  function Zeros(n: nat): Bytes { seq(n, i => 0) }

  // Room left in the block at file offset p, after the trailer if there is no room for a header.
  function Trailer(p: nat): nat {
    var leftover := BLOCK_SIZE - p % BLOCK_SIZE;
    if leftover < HEADER_SIZE then leftover else 0
  }

  function Avail(p: nat): (r: nat)
    ensures r <= BLOCK_SIZE - HEADER_SIZE
  {
    BLOCK_SIZE - (p + Trailer(p)) % BLOCK_SIZE - HEADER_SIZE
  }

  function FragmentLength(p: nat, left: nat): nat { if left < Avail(p) then left else Avail(p) }

  // The first fragment emitted at offset p for (the rest of) a record.
  function Fragment(p: nat, data: Bytes, begin: bool): Bytes {
    var n := FragmentLength(p, |data|);
    Zeros(Trailer(p)) + Frame(TypeOf(begin, n == |data|), data[..n])
  }

  lemma AfterFragment(p: nat, data: Bytes, begin: bool)
    ensures |Fragment(p, data, begin)| == Trailer(p) + HEADER_SIZE + FragmentLength(p, |data|)
    ensures FragmentLength(p, |data|) == 0 && data != [] ==> FragmentLength(p + |Fragment(p, data, begin)|, |data|) > 0
  {
  }

  /** All bytes emitted at offset p for (the rest of) a record. */
  function Emit(p: nat, data: Bytes, begin: bool): Bytes
    decreases |data|, if FragmentLength(p, |data|) == 0 then 1 else 0
  {
    var n := FragmentLength(p, |data|);
    var fragment := Fragment(p, data, begin);
    AfterFragment(p, data, begin);
    if n == |data| then fragment else fragment + Emit(p + |fragment|, data[n..], false)
  }

  function EmitAll(p: nat, records: seq<Bytes>): Bytes
    decreases |records|
  {
    if records == [] then []
    else Emit(p, records[0], true) + EmitAll(p + |Emit(p, records[0], true)|, records[1..])
  }

  lemma {:induction false} EmitAllSnoc(p: nat, records: seq<Bytes>, record: Bytes)
    ensures EmitAll(p, records + [record]) == EmitAll(p, records) + Emit(p + |EmitAll(p, records)|, record, true)
    decreases |records|
  {
    hide Emit;
    if records == [] {
      assert [record][1..] == [];
    } else {
      var first := Emit(p, records[0], true);
      assert (records + [record])[1..] == records[1..] + [record];
      EmitAllSnoc(p + |first|, records[1..], record);
      var rest := EmitAll(p + |first|, records[1..]);
      assert first + (rest + Emit(p + |first| + |rest|, record, true)) == (first + rest) + Emit(p + |first + rest|, record, true);
    }
  }

  class Writer {
    var dest: Bytes           // the file
    var blockOffset: nat
    ghost var records: seq<Bytes>

    ghost predicate Ok() reads this {
      Aligned() && dest == EmitAll(0, records)
    }

    constructor ()
      ensures Ok() && records == [] && dest == []
    {
      dest, blockOffset, records := [], 0, [];
    }

    ghost predicate Aligned() reads this`blockOffset, this`dest { blockOffset <= BLOCK_SIZE && blockOffset % BLOCK_SIZE == |dest| % BLOCK_SIZE }

    method AddRecord(slice: Bytes)
      requires Ok()
      modifies this
      ensures Ok() && records == old(records) + [slice]
      ensures dest == old(dest) + Emit(|old(dest)|, slice, true)
    {
      hide Emit, EmitAll, Fragment, FragmentLength, Trailer, Aligned;
      ghost var start := dest;
      ghost var emitted: Bytes := [];
      var left := slice;
      var begin := true;
      var more := true;
      assert start + [] == start;
      while more
        invariant Aligned() && records == old(records) && dest == start + emitted
        invariant emitted + (if more then Emit(|dest|, left, begin) else []) == Emit(|start|, slice, true)
        decreases more, |left|, if FragmentLength(|dest|, |left|) == 0 then 1 else 0
      {
        ghost var p := |dest|;
        var n := EmitFragment(left, begin);
        assert dest == start + (emitted + Fragment(p, left, begin));
        AfterFragment(p, left, begin);
        Emitted(start, emitted, p, left, begin, dest, Emit(|start|, slice, true));
        emitted := emitted + Fragment(p, left, begin);
        left := left[n..];
        begin := false;
        more := |left| > 0;
      }
      EmitAllSnoc(0, records, slice);
      records := records + [slice];
    }

    // One round of AddRecord's loop.
    method EmitFragment(left: Bytes, begin: bool) returns (n: nat)
      requires Aligned()
      modifies this
      ensures Aligned() && records == old(records) && n == FragmentLength(|old(dest)|, |left|) <= |left|
      ensures dest == old(dest) + Fragment(|old(dest)|, left, begin)
    {
      hide Emit, EmitAll, Frame, TypeOf, Zeros, Trailer, Avail;
      ghost var p := |dest|;
      FillBlock();
      var avail := BLOCK_SIZE - blockOffset - HEADER_SIZE;
      n := if |left| < avail then |left| else avail;
      var end := |left| == n;
      TypeFits(begin, end);
      SameAfter(blockOffset, |dest|, HEADER_SIZE + n);
      EmitPhysicalRecord(TypeOf(begin, end), left[..n]);
      assert (old(dest) + Zeros(Trailer(p))) + Frame(TypeOf(begin, end), left[..n]) == old(dest) + Fragment(p, left, begin);
    }

    // Zeros fill a block that has no room for another header.
    method FillBlock()
      requires Aligned()
      modifies this
      ensures Aligned() && records == old(records) && dest == old(dest) + Zeros(Trailer(|old(dest)|))
      ensures blockOffset + HEADER_SIZE + Avail(|old(dest)|) == BLOCK_SIZE
    {
      hide Zeros;
      ghost var p := |dest|;
      var leftover := BLOCK_SIZE - blockOffset;
      BlockRoom(p, leftover);
      ZerosAre(leftover);
      hide Trailer, Avail;
      if leftover < HEADER_SIZE {
        if leftover > 0 {
          dest := dest + Zeros(leftover);
        }
        blockOffset := 0;
      }
      assert dest == old(dest) + Zeros(Trailer(p)) by { NoZeros(old(dest)); }
    }

    method EmitPhysicalRecord(t: nat, data: Bytes)
      requires 1 <= t <= LAST_TYPE && blockOffset + HEADER_SIZE + |data| <= BLOCK_SIZE
      modifies this
      ensures dest == old(dest) + Frame(t, data)
      ensures blockOffset == old(blockOffset) + HEADER_SIZE + |data| && records == old(records)
    {
      hide Steps, Bits;
      assert Value([t as Byte] + data) == Extend(Value([t as Byte]), data) by { ExtendConcat(0, [t as Byte], data); }
      var crc := Mask(Extend(Value([t as Byte]), data));
      var buf := Fixed(crc, 4) + [(|data| % 256) as Byte, (|data| / 256) as Byte] + [t as Byte];
      TwoBytes(|data|);
      hide Fixed, Value, Extend, Mask;
      dest := dest + buf;
      dest := dest + data;
      blockOffset := blockOffset + HEADER_SIZE + |data|;
    }
  }

  lemma TwoBytes(n: nat)
    requires n < 0x1_0000
    ensures Fixed(n, 2) == [(n % 256) as Byte, (n / 256) as Byte]
  {
    assert Fixed(n, 2) == [(n % 256) as Byte] + Fixed(n / 256, 1);
    assert Fixed(n / 256, 1) == [(n / 256 % 256) as Byte] + Fixed(n / 256 / 256, 0);
  }

  lemma ZerosAre(n: nat)
    ensures |Zeros(n)| == n
  {
  }

  lemma SameAfter(a: nat, b: nat, d: nat)
    requires a % BLOCK_SIZE == b % BLOCK_SIZE
    ensures (a + d) % BLOCK_SIZE == (b + d) % BLOCK_SIZE
  {
  }

  lemma NoZeros(b: Bytes)
    ensures b + Zeros(0) == b
  {
  }

  lemma TypeFits(begin: bool, end: bool)
    ensures 1 <= TypeOf(begin, end) <= LAST_TYPE
  {
  }

  lemma BlockRoom(p: nat, leftover: nat)
    requires leftover <= BLOCK_SIZE && (BLOCK_SIZE - leftover) % BLOCK_SIZE == p % BLOCK_SIZE
    ensures leftover == 0 || leftover == BLOCK_SIZE - p % BLOCK_SIZE
    ensures leftover == 0 ==> Trailer(p) == 0 && p % BLOCK_SIZE == 0
    ensures 0 < leftover < HEADER_SIZE ==> Trailer(p) == leftover && (p + leftover) % BLOCK_SIZE == 0
    ensures leftover >= HEADER_SIZE ==> Trailer(p) == 0 && Avail(p) == leftover - HEADER_SIZE
    ensures leftover < HEADER_SIZE ==> Avail(p) == BLOCK_SIZE - HEADER_SIZE
  {
  }

  // What is emitted after the first fragment.
  function EmitRest(p: nat, data: Bytes, begin: bool): Bytes {
    var n := FragmentLength(p, |data|);
    if n == |data| then [] else Emit(p + |Fragment(p, data, begin)|, data[n..], false)
  }

  lemma EmitStep(p: nat, data: Bytes, begin: bool)
    ensures Emit(p, data, begin) == Fragment(p, data, begin) + EmitRest(p, data, begin)
  {
    hide Fragment, FragmentLength;
  }

  lemma Emitted(start: Bytes, emitted: Bytes, p: nat, left: Bytes, begin: bool, dest: Bytes, all: Bytes)
    requires p == |start + emitted| && dest == start + emitted + Fragment(p, left, begin)
    requires emitted + Emit(p, left, begin) == all
    ensures var n := FragmentLength(p, |left|);
      (emitted + Fragment(p, left, begin)) + (if n < |left| then Emit(|dest|, left[n..], false) else []) == all
  {
    EmitStep(p, left, begin);
    hide Fragment, Emit, FragmentLength;
    var fragment, rest := Fragment(p, left, begin), EmitRest(p, left, begin);
    assert (emitted + fragment) + rest == emitted + (fragment + rest);
    FragmentFits(p, |left|);
  }

  lemma FragmentFits(p: nat, left: nat)
    ensures FragmentLength(p, left) <= left
  {
  }

  // ----- What a reader makes of a file -----

  // The end of the data read together with offset p: that of its block, or of a short file.
  function BlockEnd(n: nat, p: nat): nat
    requires p <= n
  {
    if Short(n, p) then n else (p / BLOCK_SIZE + 1) * BLOCK_SIZE
  }

  // The last read was not a full block: eof_ is set.
  predicate Short(n: nat, p: nat) { n < (p / BLOCK_SIZE + 1) * BLOCK_SIZE }

  datatype Phys = Phys(t: nat, data: Bytes, next: nat, reports: nat)

  function Length16(low: Byte, high: Byte): nat { low as nat + 256 * high as nat }

  /** ReadPhysicalRecord at offset p, reports of corruption included. */
  function Physical(file: Bytes, p: nat): (r: Phys)
    requires p <= |file|
    ensures p <= r.next <= |file| && (r.t != EOF ==> p < r.next)
    decreases |file| - p
  {
    var e := BlockEnd(|file|, p);
    if e - p < HEADER_SIZE then
      if Short(|file|, p) then Phys(EOF, [], e, 0) else Physical(file, e)
    else
      var length := Length16(file[p + 4], file[p + 5]);
      var t := file[p + 6] as nat;
      if HEADER_SIZE + length > e - p then
        if Short(|file|, p) then Phys(EOF, [], e, 0) else Phys(BAD_RECORD, [], e, 1)
      else if t == ZERO_TYPE && length == 0 then Phys(BAD_RECORD, [], e, 0)
      else if Value(file[p + 6..p + HEADER_SIZE + length]) != StoredCrc(file[p..p + 4]) then Phys(BAD_RECORD, [], e, 1)
      else Phys(t, file[p + HEADER_SIZE..p + HEADER_SIZE + length], p + HEADER_SIZE + length, 0)
  }

  datatype Outcome = Record(data: Bytes, next: nat, reports: nat) | End(next: nat, reports: nat)

  function AddReports(o: Outcome, n: nat): (r: Outcome)
    ensures r.next == o.next && (r.Record? <==> o.Record?)
  {
    o.(reports := o.reports + n)
  }

  /** The rest of ReadRecord from offset p, with `scratch` collected so far. */
  function ReadFrom(file: Bytes, p: nat, scratch: Bytes, fragmented: bool): (r: Outcome)
    requires p <= |file|
    ensures p <= r.next <= |file| && (r.Record? ==> p < r.next)
    decreases |file| - p
  {
    var f := Physical(file, p);
    var partial := if fragmented && scratch != [] then 1 else 0;
    if f.t == FULL_TYPE then Record(f.data, f.next, f.reports + partial)
    else if f.t == FIRST_TYPE then AddReports(ReadFrom(file, f.next, f.data, true), f.reports + partial)
    else if f.t == MIDDLE_TYPE then
      if fragmented then AddReports(ReadFrom(file, f.next, scratch + f.data, true), f.reports)
      else AddReports(ReadFrom(file, f.next, scratch, false), f.reports + 1)
    else if f.t == LAST_TYPE then
      if fragmented then Record(scratch + f.data, f.next, f.reports)
      else AddReports(ReadFrom(file, f.next, scratch, false), f.reports + 1)
    else if f.t == EOF then End(f.next, f.reports)
    else if f.t == BAD_RECORD then
      AddReports(ReadFrom(file, f.next, if fragmented then [] else scratch, false), f.reports + if fragmented then 1 else 0)
    else AddReports(ReadFrom(file, f.next, [], false), f.reports + 1)
  }

  datatype Contents = Contents(records: seq<Bytes>, reports: nat)

  /** All records of a file from offset p on. */
  function ReadAll(file: Bytes, p: nat): Contents
    requires p <= |file|
    decreases |file| - p
  {
    match ReadFrom(file, p, [], false)
    case End(_, reports) => Contents([], reports)
    case Record(data, next, reports) =>
      var rest := ReadAll(file, next);
      Contents([data] + rest.records, reports + rest.reports)
  }

  // ----- Reading back what was written, possibly cut short -----

  lemma FrameHeader(t: nat, data: Bytes)
    requires t < 256 && |data| < 0x1_0000
    ensures var r := Frame(t, data);
      && Length16(r[4], r[5]) == |data| && r[6] == t as Byte && r[6..] == [t as Byte] + data && r[7..] == data
      && StoredCrc(r[..4]) == Value([t as Byte] + data)
  {
    var crc := Mask(Value([t as Byte] + data));
    FixedWidths();
    FixedRoundTrip(crc, 4);
    UnmaskInverts(Value([t as Byte] + data));
    TwoBytes(|data|);
    hide Value, Mask, Unmask, Pow256, DecodeFixed, Fixed;
    Parts(Fixed(crc, 4), Fixed(|data|, 2), t as Byte, data);
  }

  lemma Parts(a: Bytes, b: Bytes, c: Byte, d: Bytes)
    requires |a| == 4 && |b| == 2
    ensures var r := a + b + [c] + d;
      r[..4] == a && r[4] == b[0] && r[5] == b[1] && r[6] == c && r[6..] == [c] + d && r[7..] == d
  {
  }

  // The part of a frame that a truncated file still shows.
  lemma FrameShows(all: Bytes, n: nat, q: nat, t: nat, data: Bytes)
    requires t < 256 && |data| < 0x1_0000
    requires q + HEADER_SIZE + |data| <= |all| && all[q..q + HEADER_SIZE + |data|] == Frame(t, data)
    requires q <= n <= |all|
    ensures q + HEADER_SIZE <= n ==> var file := all[..n];
      Length16(file[q + 4], file[q + 5]) == |data| && file[q + 6] == t as Byte
    ensures q + HEADER_SIZE + |data| <= n ==> var file := all[..n];
      && StoredCrc(file[q..q + 4]) == Value([t as Byte] + data)
      && file[q + 6..q + HEADER_SIZE + |data|] == [t as Byte] + data && file[q + HEADER_SIZE..q + HEADER_SIZE + |data|] == data
  {
    FrameHeader(t, data);
    hide Frame, Value, StoredCrc;
    var file, frame := all[..n], Frame(t, data);
    assert forall i :: 0 <= i < |frame| ==> all[q + i] == frame[i];
    if q + HEADER_SIZE <= n {
      assert file[q + 4] == frame[4] && file[q + 5] == frame[5] && file[q + 6] == frame[6];
    }
    if q + HEADER_SIZE + |data| <= n {
      assert file[q..q + 4] == frame[..4];
      assert file[q + 6..q + HEADER_SIZE + |data|] == frame[6..];
      assert file[q + HEADER_SIZE..q + HEADER_SIZE + |data|] == frame[7..];
    }
  }

  // A frame at offset q, which leaves room for it in its block.
  lemma FrameRead(all: Bytes, n: nat, q: nat, t: nat, data: Bytes)
    requires 1 <= t <= LAST_TYPE && HEADER_SIZE + |data| <= BLOCK_SIZE - q % BLOCK_SIZE
    requires q + HEADER_SIZE + |data| <= |all| && all[q..q + HEADER_SIZE + |data|] == Frame(t, data)
    requires q <= n <= |all|
    ensures q + HEADER_SIZE + |data| <= n ==> Physical(all[..n], q) == Phys(t, data, q + HEADER_SIZE + |data|, 0)
    ensures n < q + HEADER_SIZE + |data| ==> Physical(all[..n], q).t == EOF && Physical(all[..n], q).reports == 0
  {
    hide Frame, Value, StoredCrc, Length16;
    FrameShows(all, n, q, t, data);
    InBlock(q);
  }

  lemma InBlock(q: nat)
    ensures (q / BLOCK_SIZE + 1) * BLOCK_SIZE == q + (BLOCK_SIZE - q % BLOCK_SIZE)
  {
  }

  // A fragment, with the trailer that may come before it.
  lemma FragmentRead(all: Bytes, n: nat, p: nat, data: Bytes, begin: bool)
    requires p <= n <= |all| && p + |Fragment(p, data, begin)| <= |all|
    requires all[p..p + |Fragment(p, data, begin)|] == Fragment(p, data, begin)
    ensures var len, next := FragmentLength(p, |data|), p + |Fragment(p, data, begin)|;
      && (next <= n ==> Physical(all[..n], p) == Phys(TypeOf(begin, len == |data|), data[..len], next, 0))
      && (n < next ==> Physical(all[..n], p).t == EOF && Physical(all[..n], p).reports == 0)
  {
    var z, len := Trailer(p), FragmentLength(p, |data|);
    var q, frame := p + z, Frame(TypeOf(begin, len == |data|), data[..len]);
    var fragment := Fragment(p, data, begin);
    assert all[q..p + |fragment|] == frame by {
      assert fragment[z..] == frame;
      assert all[p..p + |fragment|][z..] == all[q..p + |fragment|];
    }
    TrailerRoom(p, |data|);
    TypeFits(begin, len == |data|);
    hide Frame, TypeOf, Value, StoredCrc, Physical;
    if q <= n { FrameRead(all, n, q, TypeOf(begin, len == |data|), data[..len]); }
    SkipTrailer(all[..n], p);
  }

  lemma TrailerRoom(p: nat, left: nat)
    ensures HEADER_SIZE + FragmentLength(p, left) <= BLOCK_SIZE - (p + Trailer(p)) % BLOCK_SIZE
  {
  }

  // The reader skips what the writer left at the end of a block.
  lemma SkipTrailer(file: Bytes, p: nat)
    requires p <= |file|
    ensures p + Trailer(p) <= |file| ==> Physical(file, p) == Physical(file, p + Trailer(p))
    ensures |file| < p + Trailer(p) ==> Physical(file, p).t == EOF && Physical(file, p).reports == 0
  {
    hide Value, StoredCrc;
    if Trailer(p) > 0 {
      assert (p / BLOCK_SIZE + 1) * BLOCK_SIZE == p + Trailer(p);
    }
  }

  // One turn of ReadRecord's loop on a fragment of a record.
  lemma ReadStep(file: Bytes, p: nat, begin: bool, end: bool, scratch: Bytes)
    requires p <= |file| && (begin ==> scratch == [])
    ensures var f := Physical(file, p);
      && (f.t == TypeOf(begin, end) && f.reports == 0 && end ==> ReadFrom(file, p, scratch, !begin) == Record(scratch + f.data, f.next, 0))
      && (f.t == TypeOf(begin, end) && f.reports == 0 && !end ==>
           ReadFrom(file, p, scratch, !begin) == ReadFrom(file, f.next, scratch + f.data, true))
      && (f.t == EOF ==> ReadFrom(file, p, scratch, !begin) == End(f.next, f.reports))
  {
    hide Physical;
    var f := Physical(file, p);
    if begin { assert [] + f.data == f.data; }
    if f.t != EOF { ReportsNothing(ReadFrom(file, f.next, scratch + f.data, true)); }
  }

  lemma ReportsNothing(o: Outcome)
    ensures AddReports(o, 0) == o
  {
  }

  /** A record written at offset p is read back whole, or not at all and without complaint if
      the file ends before the record does. */
  lemma {:induction false} RecordRead(all: Bytes, n: nat, p: nat, data: Bytes, begin: bool, scratch: Bytes)
    requires p <= n <= |all| && p + |Emit(p, data, begin)| <= |all|
    requires all[p..p + |Emit(p, data, begin)|] == Emit(p, data, begin)
    requires begin ==> scratch == []
    ensures var next := p + |Emit(p, data, begin)|;
      && (next <= n ==> ReadFrom(all[..n], p, scratch, !begin) == Record(scratch + data, next, 0))
      && (n < next ==> ReadFrom(all[..n], p, scratch, !begin).End? && ReadFrom(all[..n], p, scratch, !begin).reports == 0)
    decreases |data|, if FragmentLength(p, |data|) == 0 then 1 else 0
  {
    hide Emit, Fragment, FragmentLength, Physical, ReadFrom, TypeOf, Trailer;
    var len, next := FragmentLength(p, |data|), p + |Fragment(p, data, begin)|;
    RecordPieces(all, p, data, begin);
    AfterFragment(p, data, begin);
    FragmentRead(all, n, p, data, begin);
    ReadStep(all[..n], p, begin, len == |data|, scratch);
    if len == |data| {
      assert data[..len] == data;
    } else if next <= n {
      RecordRead(all, n, next, data[len..], false, scratch + data[..len]);
      assert (scratch + data[..len]) + data[len..] == scratch + data;
    }
  }

  lemma RecordPieces(all: Bytes, p: nat, data: Bytes, begin: bool)
    requires p + |Emit(p, data, begin)| <= |all| && all[p..p + |Emit(p, data, begin)|] == Emit(p, data, begin)
    ensures var len, next := FragmentLength(p, |data|), p + |Fragment(p, data, begin)|;
      && len <= |data| && next <= |all| && all[p..next] == Fragment(p, data, begin)
      && (len == |data| ==> p + |Emit(p, data, begin)| == next)
      && (len < |data| ==> var rest := Emit(next, data[len..], false);
            next + |rest| == p + |Emit(p, data, begin)| && all[next..next + |rest|] == rest)
  {
    hide Emit, Fragment, FragmentLength, EmitRest;
    EmitStep(p, data, begin);
    WhatRests(p, data, begin);
    Pieces(all, p, Emit(p, data, begin), Fragment(p, data, begin), EmitRest(p, data, begin));
  }

  lemma WhatRests(p: nat, data: Bytes, begin: bool)
    ensures var len, next := FragmentLength(p, |data|), p + |Fragment(p, data, begin)|;
      len <= |data| && EmitRest(p, data, begin) == if len == |data| then [] else Emit(next, data[len..], false)
  {
    hide Emit, Fragment;
  }

  lemma Pieces(all: Bytes, p: nat, whole: Bytes, a: Bytes, b: Bytes)
    requires whole == a + b && p + |whole| <= |all| && all[p..p + |whole|] == whole
    ensures |whole| == |a| + |b| && all[p..p + |a|] == a && all[p + |a|..p + |whole|] == b
  {
    SliceOfSlice(all, p, p + |whole|, 0, |a|);
    SliceOfSlice(all, p, p + |whole|, |a|, |whole|);
  }

  // How many records lie wholly before offset n.
  function Whole(p: nat, records: seq<Bytes>, n: nat): (k: nat)
    ensures k <= |records|
    decreases |records|
  {
    if records == [] then 0
    else
      var next := p + |Emit(p, records[0], true)|;
      if next <= n then 1 + Whole(next, records[1..], n) else 0
  }

  lemma {:induction false} AllRead(all: Bytes, n: nat, p: nat, records: seq<Bytes>)
    requires p <= n <= |all| && all[p..] == EmitAll(p, records)
    ensures ReadAll(all[..n], p) == Contents(records[..Whole(p, records, n)], 0)
    decreases |records|
  {
    hide Emit, ReadFrom;
    if records == [] {
      assert p == n == |all|;
      NothingThere(all[..n], p);
    } else {
      var first := Emit(p, records[0], true);
      var next := p + |first|;
      var rest := EmitAll(next, records[1..]);
      assert all[p..p + |first + rest|] == first + rest;
      Pieces(all, p, first + rest, first, rest);
      RecordRead(all, n, p, records[0], true, []);
      if next <= n {
        assert all[next..] == rest;
        AllRead(all, n, next, records[1..]);
        assert [] + records[0] == records[0];
        assert records[..Whole(p, records, n)] == [records[0]] + records[1..][..Whole(next, records[1..], n)];
      }
    }
  }

  lemma NothingThere(file: Bytes, p: nat)
    requires p == |file|
    ensures ReadFrom(file, p, [], false) == End(p, 0)
  {
  }

  /** Reading any truncation of a log gives exactly the records that lie wholly before the cut,
      with nothing reported. */
  lemma TruncationGivesPrefix(records: seq<Bytes>, n: nat)
    requires n <= |EmitAll(0, records)|
    ensures ReadAll(EmitAll(0, records)[..n], 0) == Contents(records[..Whole(0, records, n)], 0)
  {
    AllRead(EmitAll(0, records), n, 0, records);
  }

  lemma {:induction false} AllWhole(p: nat, records: seq<Bytes>)
    ensures Whole(p, records, p + |EmitAll(p, records)|) == |records|
    decreases |records|
  {
    hide Emit;
    if records != [] { AllWhole(p + |Emit(p, records[0], true)|, records[1..]); }
  }

  /** Reading back a log gives exactly the records written. */
  lemma RoundTrip(records: seq<Bytes>)
    ensures ReadAll(EmitAll(0, records), 0) == Contents(records, 0)
  {
    hide EmitAll, ReadAll, Whole;
    var all := EmitAll(0, records);
    AllWhole(0, records);
    TruncationGivesPrefix(records, |all|);
    assert all[..|all|] == all && records[..|records|] == records;
  }

  // ----- The reader -----

  class Reader {
    const file: Bytes
    var filePos: nat     // end_of_buffer_offset_
    var buffer: Bytes
    var eof: bool
    var reports: nat     // calls to the reporter

    constructor (file: Bytes)
      ensures this.file == file && Ok() && Pos() == 0 && reports == 0
    {
      this.file, filePos, buffer, eof, reports := file, 0, [], false, 0;
      new;
      hide Short;
      assert buffer == file[0..0];
    }

    ghost function Pos(): nat
      requires |buffer| <= filePos
      reads this
    {
      filePos - |buffer|
    }

    // The buffer holds what is left of the block read last.
    ghost predicate Ok() reads this {
      && |buffer| <= filePos <= |file| && buffer == file[Pos()..filePos]
      && if eof then filePos == |file| && Short(|file|, Pos())
         else filePos % BLOCK_SIZE == 0 && (buffer != [] ==> filePos == (Pos() / BLOCK_SIZE + 1) * BLOCK_SIZE)
    }

    // file_->Read(kBlockSize, ...)
    method ReadBlock()
      requires Ok() && !eof && |buffer| < HEADER_SIZE
      modifies this
      ensures Ok() && reports == old(reports)
      ensures Physical(file, Pos()) == Physical(file, old(Pos()))
      ensures eof || filePos > old(filePos)
    {
      hide Value, StoredCrc;
      ghost var p, q := Pos(), filePos;
      var size := if |file| - filePos < BLOCK_SIZE then |file| - filePos else BLOCK_SIZE;
      NextBlock(|file|, filePos);
      buffer := file[filePos..filePos + size];
      filePos := filePos + size;
      if |buffer| < BLOCK_SIZE {
        eof := true;
      }
      assert Pos() == q;
    }

    method ReadPhysicalRecord() returns (t: nat, data: Bytes)
      requires Ok()
      modifies this
      ensures Ok() && reports >= old(reports) && Phys(t, data, Pos(), reports - old(reports)) == Physical(file, old(Pos()))
    {
      hide Value, StoredCrc, Physical;
      ghost var start := Pos();
      while |buffer| < HEADER_SIZE
        invariant Ok() && Physical(file, Pos()) == Physical(file, start) && reports == old(reports)
        decreases !eof, |file| - filePos
      {
        if eof {
          AtEnd(file, Pos());
          buffer := [];
          return EOF, [];
        }
        ReadBlock();
      }
      t, data := ParseRecord();
    }

    // A header is in the buffer.
    method ParseRecord() returns (t: nat, data: Bytes)
      requires Ok() && |buffer| >= HEADER_SIZE
      modifies this
      ensures Ok() && reports >= old(reports) && Phys(t, data, Pos(), reports - old(reports)) == Physical(file, old(Pos()))
    {
      hide Value, StoredCrc, Physical, Length16;
      ghost var p := Pos();
      HeaderAt(file, p, filePos);
      var length := Length16(buffer[4], buffer[5]);
      t, data := buffer[6] as nat, [];
      assert buffer[4] == file[p + 4] && buffer[5] == file[p + 5] && buffer[6] == file[p + 6];
      if HEADER_SIZE + length > |buffer| {
        buffer := [];
        if eof {
          t := EOF;
        } else {
          reports := reports + 1;
          t := BAD_RECORD;
        }
      } else if t == ZERO_TYPE && length == 0 {
        buffer := [];
        t := BAD_RECORD;
      } else {
        SameSlices(file, p, filePos, buffer, length);
        if Value(buffer[6..HEADER_SIZE + length]) != StoredCrc(buffer[..4]) {
          buffer := [];
          reports := reports + 1;
          t := BAD_RECORD;
        } else {
          data := buffer[HEADER_SIZE..HEADER_SIZE + length];
          buffer := buffer[HEADER_SIZE + length..];
          assert Pos() == p + HEADER_SIZE + length;
          SameBlock(p, Pos(), filePos);
        }
      }
    }

    /** ReadRecord: the next logical record, if any. */
    method ReadRecord() returns (found: bool, record: Bytes)
      requires Ok()
      modifies this
      ensures Ok()
      ensures var o := ReadFrom(file, old(Pos()), [], false);
        && found == o.Record? && (found ==> record == o.data)
        && Pos() == o.next && reports == old(reports) + o.reports
    {
      hide Physical;
      ghost var start := Pos();
      var scratch: Bytes := [];
      var fragmented := false;
      while true
        invariant Ok() && reports >= old(reports)
        invariant AddReports(ReadFrom(file, Pos(), scratch, fragmented), reports - old(reports)) == ReadFrom(file, start, [], false)
        decreases |file| - Pos()
      {
        var t, fragment := ReadPhysicalRecord();
        var partial := fragmented && scratch != [];
        if t == FULL_TYPE {
          if partial { reports := reports + 1; }
          return true, fragment;
        } else if t == FIRST_TYPE {
          if partial { reports := reports + 1; }
          scratch, fragmented := fragment, true;
        } else if t == MIDDLE_TYPE {
          if !fragmented {
            reports := reports + 1;
          } else {
            scratch := scratch + fragment;
          }
        } else if t == LAST_TYPE {
          if !fragmented {
            reports := reports + 1;
          } else {
            scratch := scratch + fragment;
            return true, scratch;
          }
        } else if t == EOF {
          return false, [];
        } else if t == BAD_RECORD {
          if fragmented {
            reports := reports + 1;
            scratch, fragmented := [], false;
          }
        } else {
          reports := reports + 1;
          scratch, fragmented := [], false;
        }
      }
    }
  }

  lemma SliceOfSlice(b: Bytes, p: nat, end: nat, i: nat, j: nat)
    requires p <= end <= |b| && i <= j <= end - p
    ensures b[p..end][i..j] == b[p + i..p + j]
  {
    forall k | 0 <= k < j - i ensures b[p..end][i..j][k] == b[p + i..p + j][k] {
      assert b[p..end][i..j][k] == b[p..end][i + k] == b[p + i + k];
    }
  }

  lemma SameSlices(file: Bytes, p: nat, end: nat, buffer: Bytes, length: nat)
    requires p <= end <= |file| && buffer == file[p..end] && HEADER_SIZE + length <= |buffer|
    ensures buffer[..4] == file[p..p + 4]
    ensures buffer[6..HEADER_SIZE + length] == file[p + 6..p + HEADER_SIZE + length]
    ensures buffer[HEADER_SIZE..HEADER_SIZE + length] == file[p + HEADER_SIZE..p + HEADER_SIZE + length]
    ensures buffer[HEADER_SIZE + length..] == file[p + HEADER_SIZE + length..end]
  {
    SliceOfSlice(file, p, end, 0, 4);
    SliceOfSlice(file, p, end, 6, HEADER_SIZE + length);
    SliceOfSlice(file, p, end, HEADER_SIZE, HEADER_SIZE + length);
    SliceOfSlice(file, p, end, HEADER_SIZE + length, end - p);
  }

  lemma NextBlock(n: nat, p: nat)
    requires p <= n && p % BLOCK_SIZE == 0
    ensures (p / BLOCK_SIZE + 1) * BLOCK_SIZE == p + BLOCK_SIZE
    ensures Short(n, p) <==> n - p < BLOCK_SIZE
    ensures (p + BLOCK_SIZE) % BLOCK_SIZE == 0
  {
  }

  lemma AtEnd(file: Bytes, p: nat)
    requires p <= |file| && Short(|file|, p) && |file| - p < HEADER_SIZE
    ensures Physical(file, p) == Phys(EOF, [], |file|, 0) && Short(|file|, |file|)
  {
  }

  // What the header in the buffer says of the record at p.
  lemma HeaderAt(file: Bytes, p: nat, end: nat)
    requires p + HEADER_SIZE <= end <= |file|
    requires if Short(|file|, p) then end == |file| else end == (p / BLOCK_SIZE + 1) * BLOCK_SIZE
    ensures Short(|file|, p) ==> Short(|file|, end)
    ensures var length, t := Length16(file[p + 4], file[p + 5]), file[p + 6] as nat;
      Physical(file, p) ==
        (if HEADER_SIZE + length > end - p then
           if Short(|file|, p) then Phys(EOF, [], end, 0) else Phys(BAD_RECORD, [], end, 1)
         else if t == ZERO_TYPE && length == 0 then Phys(BAD_RECORD, [], end, 0)
         else if Value(file[p + 6..p + HEADER_SIZE + length]) != StoredCrc(file[p..p + 4]) then Phys(BAD_RECORD, [], end, 1)
         else Phys(t, file[p + HEADER_SIZE..p + HEADER_SIZE + length], p + HEADER_SIZE + length, 0))
  {
    hide Value, StoredCrc;
  }

  lemma SameBlock(p: nat, q: nat, end: nat)
    requires p <= q <= end
    ensures end == (p / BLOCK_SIZE + 1) * BLOCK_SIZE && q < end ==> end == (q / BLOCK_SIZE + 1) * BLOCK_SIZE
    ensures Short(end, p) ==> Short(end, q)
  {
  }
}
