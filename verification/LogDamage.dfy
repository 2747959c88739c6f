/** What reading a log gives on any bytes: only whole records, and all of those the damage spares. */
module LogDamage {
  import opened Codings
  import opened Crc32c
  import opened Logs

  // ----- Stored records -----

  // A physical record at offset p: within its block, and its checksum is right.
  predicate StoredAt(file: Bytes, p: nat, t: nat, data: Bytes) {
    && p % BLOCK_SIZE + HEADER_SIZE + |data| <= BLOCK_SIZE && p + HEADER_SIZE + |data| <= |file|
    && file[p + 4] as nat + 256 * file[p + 5] as nat == |data| && file[p + 6] as nat == t
    && file[p + HEADER_SIZE..p + HEADER_SIZE + |data|] == data
    && StoredCrc(file[p..p + 4]) == Value([file[p + 6]] + data)
  }

  // The checksum at offset p is that of the type and the data after it.
  ghost predicate SoundAt(file: Bytes, p: nat) {
    && p + HEADER_SIZE <= |file|
    && var n := Length16(file[p + 4], file[p + 5]);
    p + HEADER_SIZE + n <= |file| && StoredCrc(file[p..p + 4]) == Value(file[p + 6..p + HEADER_SIZE + n])
  }

  lemma StoredIsSound(file: Bytes, p: nat, t: nat, data: Bytes)
    ensures StoredAt(file, p, t, data) ==> SoundAt(file, p) && |data| == Length16(file[p + 4], file[p + 5])
  {
    hide StoredCrc, Value;
    if StoredAt(file, p, t, data) { assert file[p + 6..p + HEADER_SIZE + |data|] == [file[p + 6]] + data; }
  }

  /** A record with one bit of its type or its data changed is no longer valid, whatever it is then taken for. */
  lemma OneBitIsCaught(file: Bytes, file': Bytes, p: nat, t: nat, data: Bytes, i: nat)
    requires StoredAt(file, p, t, data) && |file'| == |file| && file'[p..p + 6] == file[p..p + 6]
    requires var a, b := file[p + 6..p + HEADER_SIZE + |data|], file'[p + 6..p + HEADER_SIZE + |data|];
      i < 8 * |a| && Bits(a)[i] != Bits(b)[i] && forall j :: 0 <= j < 8 * |a| && j != i ==> Bits(a)[j] == Bits(b)[j]
    ensures forall t', data' :: !StoredAt(file', p, t', data')
  {
    hide Bits, StoredCrc, Extend;
    StoredIsSound(file, p, t, data);
    OneBitCaught(0, file[p + 6..p + HEADER_SIZE + |data|], file'[p + 6..p + HEADER_SIZE + |data|], i);
    assert file'[p..p + 4] == file'[p..p + 6][..4] == file[p..p + 6][..4] == file[p..p + 4];
    assert file'[p + 4] == file'[p..p + 6][4] && file'[p + 5] == file'[p..p + 6][5];
    assert !SoundAt(file', p);
    forall t', data' ensures !StoredAt(file', p, t', data') { StoredIsSound(file', p, t', data'); }
  }

  // Where a physical record that follows offset p begins: not within the last bytes of a block.
  function Begin(p: nat): (q: nat)
    ensures p <= q
  {
    if BLOCK_SIZE - p % BLOCK_SIZE < HEADER_SIZE then p + (BLOCK_SIZE - p % BLOCK_SIZE) else p
  }

  function Past(p: nat, data: Bytes): nat { p + HEADER_SIZE + |data| }

  // Middle fragments and a last one, each beginning where the one before ended, make up data.
  ghost predicate Tail(file: Bytes, p: nat, data: Bytes, end: nat)
    decreases |file| - p
  {
    || (StoredAt(file, p, LAST_TYPE, data) && end == Past(p, data))
    || exists n: nat :: n <= |data| && MiddleAt(file, p, data[..n]) && Tail(file, Begin(Past(p, data[..n])), data[n..], end)
  }

  ghost predicate MiddleAt(file: Bytes, p: nat, data: Bytes) { StoredAt(file, p, MIDDLE_TYPE, data) && p < |file| }

  ghost predicate FirstAt(file: Bytes, p: nat, data: Bytes) { StoredAt(file, p, FIRST_TYPE, data) }

  /** A record stored whole: in one piece, or as a first fragment and all that follow. */
  ghost predicate Whole(file: Bytes, p: nat, data: Bytes, end: nat) {
    || (StoredAt(file, p, FULL_TYPE, data) && end == Past(p, data))
    || exists n: nat :: n <= |data| && FirstAt(file, p, data[..n]) && Tail(file, Begin(Past(p, data[..n])), data[n..], end)
  }

  // Records stored whole, one after another, from offset p on.
  ghost predicate AllWhole(file: Bytes, p: nat, records: seq<Bytes>)
    decreases |records|
  {
    records == [] || exists q: nat, end: nat :: p <= q && Whole(file, q, records[0], end) && AllWhole(file, end, records[1..])
  }

  // ----- Reading gives only whole records -----

  lemma PhysicalAt(file: Bytes, p: nat)
    requires p <= |file| && BLOCK_SIZE - p % BLOCK_SIZE >= HEADER_SIZE
    ensures var f := Physical(file, p);
      f.t != BAD_RECORD && f.t != EOF ==> StoredAt(file, p, f.t, f.data) && f.next == Past(p, f.data) && f.reports == 0
  {
    InBlock(p);
    hide Value, StoredCrc;
    var e := BlockEnd(|file|, p);
    if e - p >= HEADER_SIZE {
      var length := Length16(file[p + 4], file[p + 5]);
      if HEADER_SIZE + length <= e - p {
        assert file[p + 6..p + HEADER_SIZE + length] == [file[p + 6]] + file[p + HEADER_SIZE..p + HEADER_SIZE + length];
      }
    }
  }

  // A reader passes over the last bytes of a block.
  lemma Skips(file: Bytes, p: nat)
    requires p <= |file|
    ensures Begin(p) <= |file| ==> Physical(file, p) == Physical(file, Begin(p)) && BLOCK_SIZE - Begin(p) % BLOCK_SIZE >= HEADER_SIZE
    ensures Begin(p) > |file| ==> Physical(file, p).t == EOF && Physical(file, p).reports == 0
  {
    BeginIs(p);
    hide Physical, Begin, Trailer;
    SkipTrailer(file, p);
  }

  lemma BeginIs(p: nat)
    ensures Begin(p) == p + Trailer(p) && BLOCK_SIZE - Begin(p) % BLOCK_SIZE >= HEADER_SIZE
  {
  }

  // A valid physical record is stored where it should begin.
  lemma PhysicalIsStored(file: Bytes, p: nat)
    requires p <= |file|
    ensures var f := Physical(file, p);
      f.t != BAD_RECORD && f.t != EOF ==> StoredAt(file, Begin(p), f.t, f.data) && f.next == Past(Begin(p), f.data) && f.reports == 0
  {
    hide Physical, StoredAt, Begin;
    Skips(file, p);
    if Begin(p) <= |file| { PhysicalAt(file, Begin(p)); }
  }

  lemma TailMore(file: Bytes, p: nat, a: Bytes, b: Bytes, end: nat)
    requires MiddleAt(file, p, a) && Tail(file, Begin(Past(p, a)), b, end)
    ensures Tail(file, p, a + b, end)
  {
    assert (a + b)[..|a|] == a && (a + b)[|a|..] == b;
  }

  lemma WholeMore(file: Bytes, p: nat, a: Bytes, b: Bytes, end: nat)
    requires FirstAt(file, p, a) && Tail(file, Begin(Past(p, a)), b, end)
    ensures Whole(file, p, a + b, end)
  {
    assert (a + b)[..|a|] == a && (a + b)[|a|..] == b;
  }

  // What a turn of the reader's loop does, by the type it finds.
  lemma Turn(file: Bytes, p: nat, scratch: Bytes, fragmented: bool)
    requires p <= |file|
    ensures var f, r := Physical(file, p), ReadFrom(file, p, scratch, fragmented);
      var partial := if fragmented && scratch != [] then 1 else 0;
      && (f.t == FULL_TYPE ==> r == Record(f.data, f.next, f.reports + partial))
      && (f.t == FIRST_TYPE ==> r == AddReports(ReadFrom(file, f.next, f.data, true), f.reports + partial))
      && (f.t == MIDDLE_TYPE && fragmented ==> r == AddReports(ReadFrom(file, f.next, scratch + f.data, true), f.reports))
      && (f.t == LAST_TYPE && fragmented ==> r == Record(scratch + f.data, f.next, f.reports))
      && (f.t == EOF ==> r == End(f.next, f.reports))
      && (f.t != FULL_TYPE && f.t != FIRST_TYPE && f.t != EOF && !(fragmented && (f.t == MIDDLE_TYPE || f.t == LAST_TYPE)) ==>
            exists s, n :: r == AddReports(ReadFrom(file, f.next, s, false), n) && (n == 0 ==> f.t == BAD_RECORD && f.reports == 0 && !fragmented))
  {
    hide Physical;
    var f := Physical(file, p);
    if f.t != FULL_TYPE && f.t != FIRST_TYPE && f.t != EOF && !(fragmented && (f.t == MIDDLE_TYPE || f.t == LAST_TYPE)) {
      var s := if f.t == BAD_RECORD then (if fragmented then [] else scratch) else if f.t == MIDDLE_TYPE || f.t == LAST_TYPE then scratch else [];
      var n := f.reports + if f.t == BAD_RECORD && !fragmented then 0 else 1;
      assert ReadFrom(file, p, scratch, fragmented) == AddReports(ReadFrom(file, f.next, s, false), n);
    }
  }

  lemma GoesOn(file: Bytes, p: nat, scratch: Bytes, fragmented: bool) returns (s: Bytes)
    requires p <= |file|
    requires var t := Physical(file, p).t;
      t != FULL_TYPE && t != FIRST_TYPE && t != EOF && !(fragmented && (t == MIDDLE_TYPE || t == LAST_TYPE))
    ensures var r, r' := ReadFrom(file, p, scratch, fragmented), ReadFrom(file, Physical(file, p).next, s, false);
      r.next == r'.next && (r.Record? <==> r'.Record?) && (r.Record? ==> r.data == r'.data)
  {
    hide Physical, ReadFrom;
    Turn(file, p, scratch, fragmented);
    var n;
    s, n :| ReadFrom(file, p, scratch, fragmented) == AddReports(ReadFrom(file, Physical(file, p).next, s, false), n);
  }

  // Either a record stored whole further on, or the end of the one under way.
  lemma {:induction false} ReadsWhole(file: Bytes, p: nat, scratch: Bytes, fragmented: bool) returns (q: nat, rest: Bytes)
    requires p <= |file|
    ensures var r := ReadFrom(file, p, scratch, fragmented);
      r.Record? ==> (p <= q && Whole(file, q, r.data, r.next)) ||
                    (fragmented && r.data == scratch + rest && Tail(file, Begin(p), rest, r.next))
    decreases |file| - p
  {
    hide ReadFrom, Physical, StoredAt, Whole, Tail, Begin;
    var f := Physical(file, p);
    Turn(file, p, scratch, fragmented);
    PhysicalIsStored(file, p);
    q, rest := Begin(p), [];
    BeginAfter(p);
    if f.t == FULL_TYPE {
      OneWhole(file, Begin(p), f.data);
    } else if f.t == FIRST_TYPE {
      var r := ReadFrom(file, f.next, f.data, true);
      q, rest := ReadsWhole(file, f.next, f.data, true);
      if r.Record? && !(f.next <= q && Whole(file, q, r.data, r.next)) {
        WholeMore(file, Begin(p), f.data, rest, r.next);
        q := Begin(p);
      }
    } else if f.t == MIDDLE_TYPE && fragmented {
      var r := ReadFrom(file, f.next, scratch + f.data, true);
      var d;
      q, d := ReadsWhole(file, f.next, scratch + f.data, true);
      rest := f.data + d;
      assert (scratch + f.data) + d == scratch + rest;
      if r.Record? && !(f.next <= q && Whole(file, q, r.data, r.next)) {
        IsMiddle(file, Begin(p), f.data);
        TailMore(file, Begin(p), f.data, d, r.next);
      }
    } else if f.t == LAST_TYPE && fragmented {
      rest := f.data;
      OneLast(file, Begin(p), f.data);
    } else if f.t != EOF {
      var s := GoesOn(file, p, scratch, fragmented);
      q, rest := ReadsWhole(file, f.next, s, false);
    }
  }

  lemma BeginAfter(p: nat)
    ensures p <= Begin(p)
  {
  }

  lemma OneWhole(file: Bytes, p: nat, data: Bytes)
    requires StoredAt(file, p, FULL_TYPE, data)
    ensures Whole(file, p, data, Past(p, data))
  {
  }

  lemma OneLast(file: Bytes, p: nat, data: Bytes)
    requires StoredAt(file, p, LAST_TYPE, data)
    ensures Tail(file, p, data, Past(p, data))
  {
  }

  lemma IsMiddle(file: Bytes, p: nat, data: Bytes)
    requires StoredAt(file, p, MIDDLE_TYPE, data)
    ensures MiddleAt(file, p, data)
  {
  }

  /** On any file whatever, every record returned is stored whole, with all its checksums right and
      nothing between its fragments, and the records returned do not overlap. */
  lemma {:induction false} OnlyWholeRecords(file: Bytes, p: nat)
    requires p <= |file|
    ensures AllWhole(file, p, ReadAll(file, p).records)
    decreases |file| - p
  {
    var r := ReadFrom(file, p, [], false);
    var q, rest := ReadsWhole(file, p, [], false);
    if r.Record? {
      OnlyWholeRecords(file, r.next);
      hide ReadFrom, Whole;
      var records := ReadAll(file, p).records;
      assert records[0] == r.data && records[1..] == ReadAll(file, r.next).records;
      assert p <= q && Whole(file, q, records[0], r.next) && AllWhole(file, r.next, records[1..]);
    }
  }

  // ----- What the writer puts down -----

  /** A record, or the rest of one, begins after at most six zeros that end a block, with a fragment
      that holds all of it or fills its block; the type says which, and whether it is the first. */
  lemma FragmentForm(start: Bytes, data: Bytes, begin: bool) returns (n: nat)
    ensures var p, file := |start|, start + Emit(|start|, data, begin);
      && n <= |data| && Begin(p) < p + 7 && Begin(p) + 7 + n <= |file|
      && (forall i :: p <= i < Begin(p) ==> file[i] == 0)
      && StoredAt(file, Begin(p), if n == |data| then (if begin then 1 else 4) else if begin then 2 else 3, data[..n])
      && (n == |data| ==> |file| == Begin(p) + 7 + n)
      && (n < |data| ==> (Begin(p) + 7 + n) % 0x8000 == 0 && file[Begin(p) + 7 + n..] == Emit(Begin(p) + 7 + n, data[n..], false))
  {
    var p := |start|;
    var f, rest := Fragment(p, data, begin), EmitRest(p, data, begin);
    n := FragmentLength(p, |data|);
    AfterFragment(p, data, begin);
    FragmentParts(p, data, begin);
    FillsBlock(p, |data|);
    BeginIs(p);
    EmitStep(p, data, begin);
    RestIs(p, data, begin);
    hide Physical, StoredAt, Begin, Emit, Fragment, FragmentLength, Trailer, EmitRest;
    var file := start + Emit(p, data, begin);
    assert file == start + (f + rest);
    Joined(start, f, rest);
    StoredFragment(file, p, data, begin);
    forall i | p <= i < Begin(p) ensures file[i] == 0 { assert file[i] == f[i - p]; }
  }

  lemma Joined(a: Bytes, b: Bytes, c: Bytes)
    ensures (a + (b + c))[|a|..|a| + |b|] == b && (a + (b + c))[|a| + |b|..] == c
  {
  }

  lemma RestIs(p: nat, data: Bytes, begin: bool)
    ensures var n := FragmentLength(p, |data|);
      n <= |data| && EmitRest(p, data, begin) == if n == |data| then [] else Emit(p + |Fragment(p, data, begin)|, data[n..], false)
  {
    hide Emit, Fragment;
  }

  lemma FragmentParts(p: nat, data: Bytes, begin: bool)
    ensures FragmentLength(p, |data|) <= |data|
    ensures forall i :: 0 <= i < Trailer(p) ==> i < |Fragment(p, data, begin)| && Fragment(p, data, begin)[i] == 0
  {
    var z, frame := Zeros(Trailer(p)), Frame(TypeOf(begin, FragmentLength(p, |data|) == |data|), data[..FragmentLength(p, |data|)]);
    hide Frame, TypeOf;
    assert Fragment(p, data, begin) == z + frame;
  }

  lemma StoredFragment(file: Bytes, p: nat, data: Bytes, begin: bool)
    requires p + |Fragment(p, data, begin)| <= |file| && file[p..p + |Fragment(p, data, begin)|] == Fragment(p, data, begin)
    ensures var n := FragmentLength(p, |data|);
      n <= |data| && StoredAt(file, Begin(p), if n == |data| then (if begin then 1 else 4) else if begin then 2 else 3, data[..n])
  {
    FragmentParts(p, data, begin);
    hide Physical, StoredAt, Begin, Fragment, FragmentLength;
    FragmentRead(file, |file|, p, data, begin);
    assert file[..|file|] == file;
    PhysicalIsStored(file, p);
  }

  lemma FillsBlock(p: nat, left: nat)
    ensures FragmentLength(p, left) < left ==> (p + Trailer(p) + HEADER_SIZE + FragmentLength(p, left)) % 0x8000 == 0
    ensures Trailer(p) < 7
  {
  }

  // ----- Whatever is passed over is reported -----

  // A place the reader passes over without a word: a header of zeros, a valid record of the type
  // that stands for a bad one, and a valid first fragment of no data.
  predicate Quiet(file: Bytes, p: nat) {
    || (p + HEADER_SIZE <= |file| && file[p + 4] == 0 && file[p + 5] == 0 && file[p + 6] == 0)
    || StoredAt(file, p, BAD_RECORD, if p + HEADER_SIZE <= |file| then DataAt(file, p) else [])
    || StoredAt(file, p, FIRST_TYPE, [])
  }

  function DataAt(file: Bytes, p: nat): Bytes
    requires p + HEADER_SIZE <= |file|
  {
    var n := file[p + 4] as nat + 256 * file[p + 5] as nat;
    if p + HEADER_SIZE + n <= |file| then file[p + HEADER_SIZE..p + HEADER_SIZE + n] else []
  }

  lemma BadAt(file: Bytes, p: nat)
    requires p <= |file| && BLOCK_SIZE - p % BLOCK_SIZE >= HEADER_SIZE && Physical(file, p).t == BAD_RECORD && Physical(file, p).reports == 0
    ensures Quiet(file, p)
  {
    InBlock(p);
    hide Value, StoredCrc;
    var e := BlockEnd(|file|, p);
    var length := Length16(file[p + 4], file[p + 5]);
    if HEADER_SIZE + length <= e - p {
      assert file[p + 6..p + HEADER_SIZE + length] == [file[p + 6]] + file[p + HEADER_SIZE..p + HEADER_SIZE + length];
    }
  }

  lemma BadIsQuiet(file: Bytes, p: nat)
    requires p <= |file| && Physical(file, p).t == BAD_RECORD && Physical(file, p).reports == 0
    ensures Quiet(file, Begin(p))
  {
    hide Physical, Quiet, Begin;
    Skips(file, p);
    BadAt(file, Begin(p));
  }

  ghost predicate NoneQuiet(file: Bytes) { forall q :: 0 <= q ==> !Quiet(file, q) }

  lemma NotQuiet(file: Bytes, p: nat)
    requires p <= |file| && NoneQuiet(file)
    ensures var f := Physical(file, p); (f.t == BAD_RECORD ==> f.reports > 0) && (f.t == FIRST_TYPE ==> f.data != [])
  {
    assert !Quiet(file, Begin(p));
    PhysicalIsStored(file, p);
    hide Physical, StoredAt, Begin;
    if Physical(file, p).t == BAD_RECORD && Physical(file, p).reports == 0 { BadIsQuiet(file, p); }
  }

  lemma NotSilent(file: Bytes, p: nat, scratch: Bytes, fragmented: bool)
    requires p <= |file| && (Physical(file, p).t == BAD_RECORD ==> Physical(file, p).reports > 0)
    requires var t := Physical(file, p).t;
      t != FULL_TYPE && t != FIRST_TYPE && t != EOF && !(fragmented && (t == MIDDLE_TYPE || t == LAST_TYPE))
    ensures ReadFrom(file, p, scratch, fragmented).reports > 0
  {
    hide Physical, ReadFrom;
    Turn(file, p, scratch, fragmented);
  }

  /** With no such place in the file, a record returned without a report begins exactly where the
      one before ended: nothing was passed over. */
  lemma {:induction false} SkippedIsReported(file: Bytes, p: nat, scratch: Bytes, fragmented: bool) returns (rest: Bytes)
    requires p <= |file| && (fragmented ==> scratch != []) && NoneQuiet(file)
    ensures var r := ReadFrom(file, p, scratch, fragmented);
      r.Record? && r.reports == 0 ==>
        if fragmented then r.data == scratch + rest && Tail(file, Begin(p), rest, r.next) else Whole(file, Begin(p), r.data, r.next)
    decreases |file| - p
  {
    hide ReadFrom, Physical, StoredAt, Whole, Tail, Quiet, NoneQuiet, Begin;
    var f := Physical(file, p);
    Turn(file, p, scratch, fragmented);
    PhysicalIsStored(file, p);
    NotQuiet(file, p);
    rest := [];
    if f.t == FULL_TYPE {
      OneWhole(file, Begin(p), f.data);
    } else if f.t == FIRST_TYPE {
      var r := ReadFrom(file, f.next, f.data, true);
      rest := SkippedIsReported(file, f.next, f.data, true);
      if r.Record? && r.reports == 0 { WholeMore(file, Begin(p), f.data, rest, r.next); }
    } else if f.t == MIDDLE_TYPE && fragmented {
      var r := ReadFrom(file, f.next, scratch + f.data, true);
      var d := SkippedIsReported(file, f.next, scratch + f.data, true);
      rest := f.data + d;
      assert (scratch + f.data) + d == scratch + rest;
      if r.Record? && r.reports == 0 {
        IsMiddle(file, Begin(p), f.data);
        TailMore(file, Begin(p), f.data, d, r.next);
      }
    } else if f.t == LAST_TYPE && fragmented {
      rest := f.data;
      OneLast(file, Begin(p), f.data);
    } else if f.t != EOF {
      NotSilent(file, p, scratch, fragmented);
    }
  }

  // ----- Damage is local -----

  // The records read from p on, a record under way or not.
  function ReadOn(file: Bytes, p: nat, scratch: Bytes, fragmented: bool): seq<Bytes>
    requires p <= |file|
  {
    match ReadFrom(file, p, scratch, fragmented)
    case End(_, _) => []
    case Record(data, next, _) => [data] + ReadAll(file, next).records
  }

  lemma ReadOnFresh(file: Bytes, p: nat)
    requires p <= |file|
    ensures ReadOn(file, p, [], false) == ReadAll(file, p).records
  {
    hide ReadFrom;
  }

  // Reading looks only at bytes from its place on.
  lemma SamePhysical(a: Bytes, b: Bytes, from: nat, p: nat)
    requires |a| == |b| && from <= p <= |a| && a[from..] == b[from..]
    ensures Physical(a, p) == Physical(b, p)
    decreases |a| - p
  {
    hide Value, StoredCrc;
    assert forall i :: from <= i < |a| ==> a[i] == a[from..][i - from] && b[i] == b[from..][i - from];
    assert forall i, j :: from <= i <= j <= |a| ==> a[i..j] == b[i..j];
    var e := BlockEnd(|a|, p);
    if e - p < HEADER_SIZE && !Short(|a|, p) { SamePhysical(a, b, from, e); }
  }

  lemma {:induction false} SameReading(a: Bytes, b: Bytes, from: nat, p: nat, scratch: Bytes, fragmented: bool)
    requires |a| == |b| && from <= p <= |a| && a[from..] == b[from..]
    ensures ReadFrom(a, p, scratch, fragmented) == ReadFrom(b, p, scratch, fragmented)
    decreases |a| - p
  {
    SamePhysical(a, b, from, p);
    hide Physical;
    var f := Physical(a, p);
    if f.t != EOF {
      forall s, g | true ensures ReadFrom(a, f.next, s, g) == ReadFrom(b, f.next, s, g) { SameReading(a, b, from, f.next, s, g); }
    }
  }

  lemma {:induction false} SameRecords(a: Bytes, b: Bytes, from: nat, p: nat)
    requires |a| == |b| && from <= p <= |a| && a[from..] == b[from..]
    ensures ReadAll(a, p) == ReadAll(b, p)
    decreases |a| - p
  {
    SameReading(a, b, from, p, [], false);
    hide ReadFrom;
    var r := ReadFrom(a, p, [], false);
    if r.Record? { SameRecords(a, b, from, r.next); }
  }

  lemma SameOn(a: Bytes, b: Bytes, from: nat, p: nat, scratch: Bytes, fragmented: bool)
    requires |a| == |b| && from <= p <= |a| && a[from..] == b[from..]
    ensures ReadOn(a, p, scratch, fragmented) == ReadOn(b, p, scratch, fragmented)
  {
    SameReading(a, b, from, p, scratch, fragmented);
    hide ReadFrom;
    var r := ReadFrom(a, p, scratch, fragmented);
    if r.Record? { SameRecords(a, b, from, r.next); }
  }

  // Only what is found at p matters, not how it was come by.
  lemma SameFound(file: Bytes, p: nat, q: nat, scratch: Bytes, fragmented: bool)
    requires p <= |file| && q <= |file| && Physical(file, p) == Physical(file, q)
    ensures ReadFrom(file, p, scratch, fragmented) == ReadFrom(file, q, scratch, fragmented)
  {
    hide Physical;
  }

  lemma RecordThere(all: Bytes, p: nat, data: Bytes, begin: bool, scratch: Bytes)
    requires p + |Emit(p, data, begin)| <= |all| && all[p..p + |Emit(p, data, begin)|] == Emit(p, data, begin) && (begin ==> scratch == [])
    ensures ReadFrom(all, p, scratch, !begin) == Record(scratch + data, p + |Emit(p, data, begin)|, 0)
  {
    hide Emit, ReadFrom;
    RecordRead(all, |all|, p, data, begin, scratch);
    assert all[..|all|] == all;
  }

  // The fragment that a record being emitted at p puts there.
  lemma FragmentThere(all: Bytes, p: nat, data: Bytes, begin: bool)
    requires p + |Emit(p, data, begin)| <= |all| && all[p..p + |Emit(p, data, begin)|] == Emit(p, data, begin)
    ensures var len, next := FragmentLength(p, |data|), p + |Fragment(p, data, begin)|;
      && len <= |data| && p < next <= p + |Emit(p, data, begin)|
      && Physical(all, p) == Phys(TypeOf(begin, len == |data|), data[..len], next, 0)
      && (len == |data| ==> next == p + |Emit(p, data, begin)|)
      && (len < |data| ==> var rest := Emit(next, data[len..], false);
            next + |rest| == p + |Emit(p, data, begin)| && all[next..next + |rest|] == rest)
  {
    hide Emit, Fragment, FragmentLength, Physical, TypeOf;
    RecordPieces(all, p, data, begin);
    FragmentRead(all, |all|, p, data, begin);
    AfterFragment(p, data, begin);
    assert all[..|all|] == all;
  }

  // The first fragment of a record ends any other that is under way.
  lemma FirstStartsAfresh(file: Bytes, p: nat, scratch: Bytes, fragmented: bool)
    requires p <= |file| && (Physical(file, p).t == FULL_TYPE || Physical(file, p).t == FIRST_TYPE)
    ensures ReadOn(file, p, scratch, fragmented) == ReadOn(file, p, [], false)
  {
    hide Physical, ReadFrom;
    Turn(file, p, scratch, fragmented);
    Turn(file, p, [], false);
  }

  /** Where a record was begun, all from it on are read, whatever came before. */
  lemma ReadsFromStart(all: Bytes, p: nat, rs: seq<Bytes>, scratch: Bytes, fragmented: bool)
    requires p <= |all| && all[p..] == EmitAll(p, rs)
    ensures ReadOn(all, p, scratch, fragmented) == rs
  {
    hide Emit, ReadFrom, Physical;
    AllRead(all, |all|, p, rs);
    assert all[..|all|] == all;
    WholeAll(p, rs);
    assert rs[..|rs|] == rs;
    ReadOnFresh(all, p);
    if rs == [] {
      EndHere(all, p, scratch, fragmented);
    } else {
      var first := Emit(p, rs[0], true);
      assert all[p..p + |first|] == first by { assert all[p..][..|first|] == first; }
      FragmentThere(all, p, rs[0], true);
      FirstType(p, rs[0]);
      FirstStartsAfresh(all, p, scratch, fragmented);
    }
  }

  lemma WholeAll(p: nat, rs: seq<Bytes>)
    ensures Logs.Whole(p, rs, p + |EmitAll(p, rs)|) == |rs|
  {
    Logs.AllWhole(p, rs);
  }

  lemma FirstType(p: nat, data: Bytes)
    ensures var t := TypeOf(true, FragmentLength(p, |data|) == |data|); t == FULL_TYPE || t == FIRST_TYPE
  {
  }

  lemma EndHere(file: Bytes, p: nat, scratch: Bytes, fragmented: bool)
    requires p == |file|
    ensures ReadOn(file, p, scratch, fragmented) == []
  {
    assert Physical(file, p).t == EOF;
    hide Physical;
  }

  ghost predicate EndsWith(records: seq<Bytes>, rs: seq<Bytes>) { |rs| <= |records| && records[|records| - |rs|..] == rs }

  lemma EndsWithMore(a: seq<Bytes>, b: seq<Bytes>, rs: seq<Bytes>)
    requires EndsWith(b, rs)
    ensures EndsWith(a + b, rs)
  {
    assert (a + b)[|a + b| - |rs|..] == b[|b| - |rs|..];
  }

  // In the middle of a record: it may be lost, the ones after it are not.
  lemma {:induction false} ReadsAfterRest(all: Bytes, p: nat, data: Bytes, rs: seq<Bytes>, scratch: Bytes, fragmented: bool)
    requires p + |Emit(p, data, false)| <= |all| && all[p..p + |Emit(p, data, false)|] == Emit(p, data, false)
    requires all[p + |Emit(p, data, false)|..] == EmitAll(p + |Emit(p, data, false)|, rs)
    ensures EndsWith(ReadOn(all, p, scratch, fragmented), rs)
    decreases |all| - p
  {
    hide Emit, EmitAll, ReadFrom, Physical, Fragment;
    var q := p + |Emit(p, data, false)|;
    ReadsFromStart(all, q, rs, [], false);
    ReadOnFresh(all, q);
    if fragmented {
      RecordThere(all, p, data, false, scratch);
      assert ReadOn(all, p, scratch, true) == [scratch + data] + rs;
    } else {
      FragmentThere(all, p, data, false);
      RestType(p, data);
      var s := GoesOn(all, p, scratch, false);
      var next := Physical(all, p).next;
      assert ReadOn(all, p, scratch, false) == ReadOn(all, next, s, false);
      if FragmentLength(p, |data|) == |data| {
        ReadsFromStart(all, q, rs, s, false);
      } else {
        ReadsAfterRest(all, next, data[FragmentLength(p, |data|)..], rs, s, false);
      }
    }
  }

  lemma RestType(p: nat, data: Bytes)
    ensures var t := TypeOf(false, FragmentLength(p, |data|) == |data|); t == MIDDLE_TYPE || t == LAST_TYPE
  {
  }

  predicate Boundary(b: nat) { b % BLOCK_SIZE == 0 }

  // A block boundary inside a record being emitted is the start of one of its fragments.
  lemma BoundaryInFragment(p: nat, data: Bytes, begin: bool, b: nat)
    requires Boundary(b) && p <= b < p + |Fragment(p, data, begin)|
    ensures b == Begin(p)
  {
    AfterFragment(p, data, begin);
    TrailerRoom(p, |data|);
    hide Fragment, FragmentLength;
    BeginIs(p);
    BoundaryPast(p, b, FragmentLength(p, |data|));
  }

  lemma BoundaryPast(p: nat, b: nat, n: nat)
    requires Boundary(b) && p <= b < p + Trailer(p) + HEADER_SIZE + n
    requires HEADER_SIZE + n <= BLOCK_SIZE - (p + Trailer(p)) % BLOCK_SIZE
    ensures b == Begin(p)
  {
  }

  lemma FoundAtBegin(file: Bytes, p: nat, scratch: Bytes, fragmented: bool)
    requires p <= |file| && Begin(p) <= |file|
    ensures ReadOn(file, p, scratch, fragmented) == ReadOn(file, Begin(p), scratch, fragmented)
  {
    Skips(file, p);
    hide Physical, ReadFrom;
    SameFound(file, p, Begin(p), scratch, fragmented);
  }

  // From a block boundary inside a record, all records after it are read.
  lemma {:induction false} FromInside(all: Bytes, p: nat, data: Bytes, begin: bool, rs: seq<Bytes>, b: nat, scratch: Bytes, fragmented: bool)
    requires p + |Emit(p, data, begin)| <= |all| && all[p..p + |Emit(p, data, begin)|] == Emit(p, data, begin)
    requires all[p + |Emit(p, data, begin)|..] == EmitAll(p + |Emit(p, data, begin)|, rs)
    requires Boundary(b) && p <= b <= p + |Emit(p, data, begin)|
    ensures EndsWith(ReadOn(all, b, scratch, fragmented), rs)
    decreases |all| - p
  {
    hide Emit, EmitAll, ReadFrom, Physical, Fragment, ReadOn, Begin;
    FragmentThere(all, p, data, begin);
    var next := p + |Fragment(p, data, begin)|;
    if b < next {
      BoundaryInFragment(p, data, begin, b);
      FoundAtBegin(all, p, scratch, fragmented);
      FromStartOfPiece(all, p, data, begin, rs, scratch, fragmented);
    } else if FragmentLength(p, |data|) == |data| {
      ReadsFromStart(all, b, rs, scratch, fragmented);
      EndsWithAll(rs);
    } else {
      FromInside(all, next, data[FragmentLength(p, |data|)..], false, rs, b, scratch, fragmented);
    }
  }

  lemma FromStartOfPiece(all: Bytes, p: nat, data: Bytes, begin: bool, rs: seq<Bytes>, scratch: Bytes, fragmented: bool)
    requires p + |Emit(p, data, begin)| <= |all| && all[p..p + |Emit(p, data, begin)|] == Emit(p, data, begin)
    requires all[p + |Emit(p, data, begin)|..] == EmitAll(p + |Emit(p, data, begin)|, rs)
    ensures EndsWith(ReadOn(all, p, scratch, fragmented), rs)
  {
    hide Emit, ReadFrom, Physical, Fragment, ReadOn;
    if begin {
      var q := p + |Emit(p, data, true)|;
      assert all[p..] == all[p..q] + all[q..];
      assert ([data] + rs)[1..] == rs;
      ReadsFromStart(all, p, [data] + rs, scratch, fragmented);
      EndsWithMore([data], rs, rs);
    } else {
      ReadsAfterRest(all, p, data, rs, scratch, fragmented);
    }
  }

  lemma {:induction false} FromBoundary(all: Bytes, p: nat, before: seq<Bytes>, after: seq<Bytes>, b: nat, scratch: Bytes, fragmented: bool)
    requires p <= |all| && all[p..] == EmitAll(p, before + after) && Boundary(b) && p <= b <= p + |EmitAll(p, before)| <= |all|
    ensures EndsWith(ReadOn(all, b, scratch, fragmented), after)
    decreases |before|
  {
    hide Emit, EmitAll, ReadFrom, ReadOn, EndsWith;
    LengthsOf(p, before);
    if before == [] {
      assert [] + after == after;
      ReadsFromStart(all, p, after, scratch, fragmented);
      EndsWithAll(after);
    } else {
      var q, rest := p + |Emit(p, before[0], true)|, before[1..] + after;
      assert (before + after)[1..] == rest;
      FirstEmitted(all, p, before + after);
      if b <= q {
        FromInside(all, p, before[0], true, rest, b, scratch, fragmented);
        EndsWithShorter(ReadOn(all, b, scratch, fragmented), before[1..], after);
      } else {
        FromBoundary(all, q, before[1..], after, b, scratch, fragmented);
      }
    }
  }

  lemma EndsWithAll(rs: seq<Bytes>)
    ensures EndsWith(rs, rs)
  {
    EndsWithMore([], rs, rs);
    assert [] + rs == rs;
  }

  lemma LengthsOf(p: nat, rs: seq<Bytes>)
    ensures |EmitAll(p, rs)| == if rs == [] then 0 else |Emit(p, rs[0], true)| + |EmitAll(p + |Emit(p, rs[0], true)|, rs[1..])|
  {
    hide Emit;
  }

  lemma FirstEmitted(all: Bytes, p: nat, rs: seq<Bytes>)
    requires p <= |all| && rs != [] && all[p..] == EmitAll(p, rs)
    ensures var first := Emit(p, rs[0], true);
      p + |first| <= |all| && all[p..p + |first|] == first && all[p + |first|..] == EmitAll(p + |first|, rs[1..])
  {
    hide Emit;
    var first := Emit(p, rs[0], true);
    assert all[p..][..|first|] == all[p..p + |first|] && all[p..][|first|..] == all[p + |first|..];
  }

  lemma EndsWithShorter(records: seq<Bytes>, a: seq<Bytes>, b: seq<Bytes>)
    requires EndsWith(records, a + b)
    ensures EndsWith(records, b)
  {
    assert records[|records| - |b|..] == records[|records| - |a + b|..][|a|..];
  }

  // No physical record between these offsets has the type that stands for the end of the file.
  ghost predicate NoneEnds(file: Bytes, from: nat, b: nat) { forall p, data :: from <= p < b ==> !StoredAt(file, p, EOF, data) }

  lemma Within(file: Bytes, p: nat, b: nat)
    requires p < b <= |file| && Boundary(b)
    ensures Begin(p) <= b
    ensures Begin(p) < b ==> Physical(file, p).next <= b && (Physical(file, p).t == EOF ==> exists data :: StoredAt(file, Begin(p), EOF, data))
  {
    BeforeBoundary(p, b);
    Skips(file, p);
    hide Physical, Begin, StoredAt;
    if Begin(p) < b { WithinHere(file, Begin(p), b); }
  }

  lemma WithinHere(file: Bytes, q: nat, b: nat)
    requires q < b <= |file| && Boundary(b) && BLOCK_SIZE - q % BLOCK_SIZE >= HEADER_SIZE
    ensures Physical(file, q).next <= b && (Physical(file, q).t == EOF ==> exists data :: StoredAt(file, q, EOF, data))
  {
    BeforeBoundary(q, b);
    InBlock(q);
    hide Value, StoredCrc, Boundary;
    var e := BlockEnd(|file|, q);
    var length := Length16(file[q + 4], file[q + 5]);
    if HEADER_SIZE + length <= e - q {
      var data := file[q + HEADER_SIZE..q + HEADER_SIZE + length];
      assert file[q + 6..q + HEADER_SIZE + length] == [file[q + 6]] + data;
      assert Physical(file, q).t == EOF ==> StoredAt(file, q, EOF, data);
    }
  }

  lemma BeforeBoundary(p: nat, b: nat)
    requires p < b && Boundary(b)
    ensures (p / BLOCK_SIZE + 1) * BLOCK_SIZE <= b && Begin(p) <= b
  {
  }

  // However the bytes before it were damaged, the reader comes to every block boundary.
  lemma {:induction false} ComesTo(file: Bytes, p: nat, b: nat, scratch: Bytes, fragmented: bool)
    returns (found: seq<Bytes>, s: Bytes, g: bool)
    requires p <= b <= |file| && Boundary(b) && NoneEnds(file, p, b)
    ensures ReadOn(file, p, scratch, fragmented) == found + ReadOn(file, b, s, g)
    decreases |file| - p
  {
    found, s, g := [], scratch, fragmented;
    if p == b {
      assert [] + ReadOn(file, b, s, g) == ReadOn(file, b, s, g);
      return;
    }
    Within(file, p, b);
    BeginAfter(p);
    if Begin(p) == b {
      FoundAtBegin(file, p, scratch, fragmented);
      assert [] + ReadOn(file, b, s, g) == ReadOn(file, b, s, g);
      return;
    }
    hide ReadFrom, Physical, StoredAt;
    var f := Physical(file, p);
    Turn(file, p, scratch, fragmented);
    if f.t == FULL_TYPE || (f.t == LAST_TYPE && fragmented) {
      found, s, g := ComesTo(file, f.next, b, [], false);
      ReadOnFresh(file, f.next);
      var data := ReadFrom(file, p, scratch, fragmented).data;
      assert ReadOn(file, p, scratch, fragmented) == [data] + ReadOn(file, f.next, [], false);
      assert [data] + (found + ReadOn(file, b, s, g)) == ([data] + found) + ReadOn(file, b, s, g);
      found := [data] + found;
    } else if f.t == FIRST_TYPE {
      found, s, g := ComesTo(file, f.next, b, f.data, true);
    } else if f.t == MIDDLE_TYPE && fragmented {
      found, s, g := ComesTo(file, f.next, b, scratch + f.data, true);
    } else {
      var more := GoesOn(file, p, scratch, fragmented);
      found, s, g := ComesTo(file, f.next, b, more, false);
    }
  }

  // Before the damage, all records are read.
  lemma {:induction false} ReadsBefore(file: Bytes, p: nat, records: seq<Bytes>)
    requires p + |EmitAll(p, records)| <= |file| && file[p..p + |EmitAll(p, records)|] == EmitAll(p, records)
    ensures ReadAll(file, p).records == records + ReadAll(file, p + |EmitAll(p, records)|).records
    decreases |records|
  {
    hide Emit, ReadFrom, ReadAll;
    if records == [] {
      assert [] + ReadAll(file, p).records == ReadAll(file, p).records;
    } else {
      var first := Emit(p, records[0], true);
      var next, rest := p + |first|, EmitAll(p + |first|, records[1..]);
      Pieces(file, p, first + rest, first, rest);
      hide EmitAll;
      WrittenIsRead(file, p, records[0]);
      ReadsBefore(file, next, records[1..]);
      var later := ReadAll(file, next + |rest|).records;
      assert [records[0]] + (records[1..] + later) == records + later;
    }
  }

  // The record at p is read, and reading goes on at `next`.
  ghost predicate ReadsOne(file: Bytes, p: nat, data: Bytes, next: nat) {
    p <= |file| && next <= |file| && ReadAll(file, p).records == [data] + ReadAll(file, next).records
  }

  lemma WrittenIsRead(file: Bytes, p: nat, data: Bytes)
    requires p + |Emit(p, data, true)| <= |file| && file[p..p + |Emit(p, data, true)|] == Emit(p, data, true)
    ensures ReadsOne(file, p, data, p + |Emit(p, data, true)|)
  {
    hide Emit, ReadFrom, ReadsOne;
    var scratch: Bytes := [];
    RecordThere(file, p, data, true, scratch);
    assert scratch + data == data;
    OneRead(file, p, data, p + |Emit(p, data, true)|);
  }

  lemma OneRead(file: Bytes, p: nat, data: Bytes, next: nat)
    requires p <= |file| && next <= |file|
    requires var r := ReadFrom(file, p, [], false); r.Record? && r.data == data && r.next == next
    ensures ReadsOne(file, p, data, next)
  {
    hide ReadFrom;
  }

  /** Damage to a log costs only the records it touches and those sharing a block with it: if a file
      is as written up to the record after `before`, and again from some block boundary on that comes
      no later than the first of `after`, then all of both are read.  The one condition is that the
      damage does not forge a valid physical record of the type that stands for the end of the file. */
  lemma DamageIsLocal(file: Bytes, before: seq<Bytes>, hit: seq<Bytes>, after: seq<Bytes>, b: nat) returns (found: seq<Bytes>)
    requires var all := EmitAll(0, before + hit + after);
      && |file| == |all| && |EmitAll(0, before)| <= b <= |EmitAll(0, before + hit)| <= |all| && Boundary(b)
      && file[..|EmitAll(0, before)|] == EmitAll(0, before) && file[b..] == all[b..]
    requires NoneEnds(file, |EmitAll(0, before)|, b)
    ensures ReadAll(file, 0).records == before + found + after && AllWhole(file, 0, ReadAll(file, 0).records)
  {
    hide EmitAll, ReadAll, ReadOn, AllWhole, NoneEnds;
    var all, a := EmitAll(0, before + hit + after), |EmitAll(0, before)|;
    assert file[0..a] == file[..a] && all[0..] == all;
    ReadsBefore(file, 0, before);
    ReadOnFresh(file, a);
    var s, g;
    found, s, g := ComesTo(file, a, b, [], false);
    SameOn(file, all, b, b, s, g);
    FromBoundary(all, 0, before + hit, after, b, s, g);
    var read := ReadOn(all, b, s, g);
    assert read == read[..|read| - |after|] + after;
    assert found + read == (found + read[..|read| - |after|]) + after;
    found := found + read[..|read| - |after|];
    OnlyWholeRecords(file, 0);
  }

  /** Such a record does end the reading, wherever the reader meets it. */
  lemma ForgedEndStops(file: Bytes, p: nat, data: Bytes, scratch: Bytes, fragmented: bool)
    requires p <= |file| && StoredAt(file, Begin(p), EOF, data)
    ensures ReadOn(file, p, scratch, fragmented) == []
  {
    FoundAtBegin(file, p, scratch, fragmented);
    BeginIs(p);
    hide Begin, Physical, StoredAt, ReadFrom;
    ForgedHere(file, Begin(p), data);
    Turn(file, Begin(p), scratch, fragmented);
  }

  lemma ForgedHere(file: Bytes, q: nat, data: Bytes)
    requires BLOCK_SIZE - q % BLOCK_SIZE >= HEADER_SIZE && StoredAt(file, q, EOF, data)
    ensures q <= |file| && Physical(file, q).t == EOF
  {
    InBlock(q);
    hide Value, StoredCrc;
    assert file[q + 6..q + HEADER_SIZE + |data|] == [file[q + 6]] + data;
  }
}
