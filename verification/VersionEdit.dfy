/** Manifest records as bytes. */
module VersionEdits {
  import opened Codings
  import opened Versions

  datatype FileMeta = FileMeta(number: nat, size: nat, smallest: Bytes, largest: Bytes)

  datatype EditData = EditData(
    comparator: Option<Bytes>, logNumber: Option<nat>, prevLogNumber: Option<nat>,
    nextFile: Option<nat>, lastSequence: Option<nat>,
    pointers: seq<(nat, Bytes)>, deleted: set<(nat, nat)>, added: seq<(nat, FileMeta)>)

  const FRESH := EditData(None, None, None, None, None, [], {}, [])

  // ----- Tagged fields -----

  datatype Field =
    | Comparator(name: Bytes)
    | LogNumber(n: nat)
    | NextFile(n: nat)
    | LastSequence(n: nat)
    | CompactPointer(level: nat, key: Bytes)
    | DeletedFile(level: nat, n: nat)
    | NewFile(level: nat, file: FileMeta)
    | PrevLogNumber(n: nat)

  function TagOf(f: Field): Byte {
    match f
    case Comparator(_) => 1
    case LogNumber(_) => 2
    case NextFile(_) => 3
    case LastSequence(_) => 4
    case CompactPointer(_, _) => 5
    case DeletedFile(_, _) => 6
    case NewFile(_, _) => 7
    case PrevLogNumber(_) => 9
  }

  function Body(f: Field): Bytes {
    match f
    case Comparator(name) => LengthPrefixed(name)
    case LogNumber(n) => Varint(n)
    case PrevLogNumber(n) => Varint(n)
    case NextFile(n) => Varint(n)
    case LastSequence(n) => Varint(n)
    case CompactPointer(level, key) => Varint(level) + LengthPrefixed(key)
    case DeletedFile(level, n) => Varint(level) + Varint(n)
    case NewFile(level, m) => Varint(level) + (Varint(m.number) + (Varint(m.size) + (LengthPrefixed(m.smallest) + LengthPrefixed(m.largest))))
  }

  function EncodeField(f: Field): Bytes { [TagOf(f)] + Body(f) }

  predicate Fits(f: Field) {
    match f
    case Comparator(name) => |name| < TWO_32
    case LogNumber(n) => n < TWO_64
    case PrevLogNumber(n) => n < TWO_64
    case NextFile(n) => n < TWO_64
    case LastSequence(n) => n < TWO_64
    case CompactPointer(level, key) => level < NUM_LEVELS && |key| < TWO_32
    case DeletedFile(level, n) => level < NUM_LEVELS && n < TWO_64
    case NewFile(level, m) => level < NUM_LEVELS && m.number < TWO_64 && m.size < TWO_64 && |m.smallest| < TWO_32 && |m.largest| < TWO_32
  }

  datatype Next = Got(field: Field, rest: Bytes) | BadField

  function GetLevel(b: Bytes): Parsed<nat> {
    match GetVarint32(b)
    case Malformed => Malformed
    case Parsed(v, rest) => if v < NUM_LEVELS then Parsed(v, rest) else Malformed
  }

  function DecodeNumber(tag: nat, b: Bytes): Next {
    match GetVarint64(b)
    case Malformed => BadField
    case Parsed(n, rest) =>
      Got(if tag == 2 then LogNumber(n) else if tag == 3 then NextFile(n) else if tag == 4 then LastSequence(n) else PrevLogNumber(n), rest)
  }

  function DecodeNewFile(level: nat, b: Bytes): Next {
    match GetVarint64(b)
    case Malformed => BadField
    case Parsed(number, r1) =>
      match GetVarint64(r1)
      case Malformed => BadField
      case Parsed(size, r2) =>
        match GetLengthPrefixed(r2)
        case Malformed => BadField
        case Parsed(smallest, r3) =>
          match GetLengthPrefixed(r3)
          case Malformed => BadField
          case Parsed(largest, r4) => Got(NewFile(level, FileMeta(number, size, smallest, largest)), r4)
  }

  function DecodeLevelled(tag: nat, b: Bytes): Next {
    match GetLevel(b)
    case Malformed => BadField
    case Parsed(level, rest) =>
      if tag == 5 then
        match GetLengthPrefixed(rest)
        case Malformed => BadField
        case Parsed(key, r) => Got(CompactPointer(level, key), r)
      else if tag == 6 then
        match GetVarint64(rest)
        case Malformed => BadField
        case Parsed(n, r) => Got(DeletedFile(level, n), r)
      else DecodeNewFile(level, rest)
  }

  // One turn of DecodeFrom's switch.
  function DecodeBody(tag: nat, b: Bytes): Next {
    if tag == 1 then
      match GetLengthPrefixed(b)
      case Malformed => BadField
      case Parsed(name, rest) => Got(Comparator(name), rest)
    else if tag == 2 || tag == 3 || tag == 4 || tag == 9 then DecodeNumber(tag, b)
    else if tag == 5 || tag == 6 || tag == 7 then DecodeLevelled(tag, b)
    else BadField
  }

  lemma LevelInverts(level: nat, rest: Bytes)
    requires level < NUM_LEVELS
    ensures GetLevel(Varint(level) + rest) == Parsed(level, rest)
  {
    Varint32RoundTrip(level, rest);
  }

  lemma NewFileInverts(level: nat, m: FileMeta, rest: Bytes)
    requires Fits(NewFile(level, m))
    ensures DecodeNewFile(level, (Varint(m.number) + (Varint(m.size) + (LengthPrefixed(m.smallest) + LengthPrefixed(m.largest)))) + rest) ==
      Got(NewFile(level, m), rest)
  {
    hide GetVarint64, GetLengthPrefixed, LengthPrefixed, Varint;
    var r3 := LengthPrefixed(m.largest) + rest;
    var r2 := LengthPrefixed(m.smallest) + r3;
    var r1 := Varint(m.size) + r2;
    assert (Varint(m.number) + (Varint(m.size) + (LengthPrefixed(m.smallest) + LengthPrefixed(m.largest)))) + rest == Varint(m.number) + r1;
    Varint64RoundTrip(m.number, r1);
    Varint64RoundTrip(m.size, r2);
    LengthPrefixedRoundTrip(m.smallest, r3);
    LengthPrefixedRoundTrip(m.largest, rest);
  }

  lemma BodyInverts(f: Field, rest: Bytes)
    requires Fits(f)
    ensures DecodeBody(TagOf(f) as nat, Body(f) + rest) == Got(f, rest)
  {
    hide GetVarint64, GetLengthPrefixed, LengthPrefixed, Varint, GetLevel, DecodeNewFile;
    match f
    case Comparator(name) => LengthPrefixedRoundTrip(name, rest);
    case LogNumber(n) => Varint64RoundTrip(n, rest);
    case PrevLogNumber(n) => Varint64RoundTrip(n, rest);
    case NextFile(n) => Varint64RoundTrip(n, rest);
    case LastSequence(n) => Varint64RoundTrip(n, rest);
    case CompactPointer(level, key) =>
      assert Body(f) + rest == Varint(level) + (LengthPrefixed(key) + rest);
      LevelInverts(level, LengthPrefixed(key) + rest);
      LengthPrefixedRoundTrip(key, rest);
    case DeletedFile(level, n) =>
      assert Body(f) + rest == Varint(level) + (Varint(n) + rest);
      LevelInverts(level, Varint(n) + rest);
      Varint64RoundTrip(n, rest);
    case NewFile(level, m) =>
      var body := Varint(m.number) + (Varint(m.size) + (LengthPrefixed(m.smallest) + LengthPrefixed(m.largest)));
      assert Body(f) + rest == Varint(level) + (body + rest);
      LevelInverts(level, body + rest);
      NewFileInverts(level, m, rest);
  }

  // ----- Whole records -----

  function EncodeFields(fs: seq<Field>): Bytes {
    if fs == [] then [] else EncodeField(fs[0]) + EncodeFields(fs[1..])
  }

  // What DecodeFrom does with a field.
  function Store(e: EditData, f: Field): EditData {
    match f
    case Comparator(name) => e.(comparator := Some(name))
    case LogNumber(n) => e.(logNumber := Some(n))
    case PrevLogNumber(n) => e.(prevLogNumber := Some(n))
    case NextFile(n) => e.(nextFile := Some(n))
    case LastSequence(n) => e.(lastSequence := Some(n))
    case CompactPointer(level, key) => e.(pointers := e.pointers + [(level, key)])
    case DeletedFile(level, n) => e.(deleted := e.deleted + {(level, n)})
    case NewFile(level, m) => e.(added := e.added + [(level, m)])
  }

  function StoreAll(e: EditData, fs: seq<Field>): EditData
    decreases |fs|
  {
    if fs == [] then e else StoreAll(Store(e, fs[0]), fs[1..])
  }

  datatype Decoded = Decoded(edit: EditData, ok: bool)

  lemma DecodeShrinks(tag: nat, b: Bytes)
    ensures DecodeBody(tag, b).Got? ==> |DecodeBody(tag, b).rest| <= |b|
  {
    hide GetVarint;
    Shrink(b);
    match GetVarint32(b)
    case Malformed =>
    case Parsed(_, r0) =>
      Shrink(r0);
      if tag == 7 { NewFileShrinks(0, r0); DecodeNewFileLevel(GetVarint32(b).value, r0); }
  }

  lemma DecodeNewFileLevel(level: nat, b: Bytes)
    ensures DecodeNewFile(level, b).Got? <==> DecodeNewFile(0, b).Got?
    ensures DecodeNewFile(level, b).Got? ==> DecodeNewFile(level, b).rest == DecodeNewFile(0, b).rest
  {
    hide GetVarint64, GetLengthPrefixed;
  }

  lemma NewFileShrinks(level: nat, b: Bytes)
    ensures DecodeNewFile(level, b).Got? ==> |DecodeNewFile(level, b).rest| <= |b|
  {
    hide GetVarint64, GetLengthPrefixed;
    Shrink(b);
    match GetVarint64(b)
    case Malformed =>
    case Parsed(_, r1) =>
      Shrink(r1);
      match GetVarint64(r1)
      case Malformed =>
      case Parsed(_, r2) =>
        Shrink(r2);
        match GetLengthPrefixed(r2)
        case Malformed =>
        case Parsed(_, r3) => Shrink(r3);
  }

  lemma Shrink(b: Bytes)
    ensures GetVarint32(b).Parsed? ==> |GetVarint32(b).rest| < |b|
    ensures GetVarint64(b).Parsed? ==> |GetVarint64(b).rest| < |b|
    ensures GetLengthPrefixed(b).Parsed? ==> |GetLengthPrefixed(b).rest| < |b|
  {
    hide GetVarint;
    GetVarintShrinks(b, 5);
    GetVarintShrinks(b, 10);
  }

  /** DecodeFrom, once the edit has been cleared. */
  function DecodeFields(e: EditData, input: Bytes): Decoded
    decreases |input|
  {
    match GetVarint32(input)
    case Malformed => Decoded(e, input == [])
    case Parsed(tag, body) =>
      Shrink(input);
      DecodeShrinks(tag, body);
      match DecodeBody(tag, body)
      case BadField => Decoded(e, false)
      case Got(f, rest) => DecodeFields(Store(e, f), rest)
  }

  // Clear leaves the compaction pointers.
  function Cleared(e: EditData): EditData { FRESH.(pointers := e.pointers) }

  function DecodeInto(before: EditData, src: Bytes): Decoded { DecodeFields(Cleared(before), src) }

  lemma {:induction false} DecodeInverts(e: EditData, fs: seq<Field>)
    requires forall i :: 0 <= i < |fs| ==> Fits(fs[i])
    ensures DecodeFields(e, EncodeFields(fs)) == Decoded(StoreAll(e, fs), true)
    decreases |fs|
  {
    hide DecodeBody, GetVarint32, Fits, Store, Body, TagOf;
    if fs == [] {
      NothingToRead();
    } else {
      var rest := EncodeFields(fs[1..]);
      TagReads(fs[0], rest);
      BodyInverts(fs[0], rest);
      DecodeInverts(Store(e, fs[0]), fs[1..]);
    }
  }

  lemma NothingToRead()
    ensures GetVarint32([]) == Malformed
  {
  }

  lemma TagReads(f: Field, rest: Bytes)
    ensures GetVarint32(EncodeField(f) + rest) == Parsed(TagOf(f) as nat, Body(f) + rest)
  {
    hide Body;
    assert EncodeField(f) + rest == Varint(TagOf(f) as nat) + (Body(f) + rest);
    Varint32RoundTrip(TagOf(f) as nat, Body(f) + rest);
  }

  // ----- Damaged records -----

  /** Fields before the damage are stored, and the record is refused. */
  lemma {:induction false} StopsAfter(e: EditData, fs: seq<Field>, bad: Bytes)
    requires (forall i :: 0 <= i < |fs| ==> Fits(fs[i])) && IsBad(bad)
    ensures DecodeFields(e, EncodeFields(fs) + bad) == Decoded(StoreAll(e, fs), false)
    decreases |fs|
  {
    hide DecodeBody, GetVarint32, Fits, Store, Body, TagOf, IsBad;
    if fs == [] {
      assert [] + bad == bad;
      BadStops(e, bad);
    } else {
      var rest := EncodeFields(fs[1..]) + bad;
      assert EncodeFields(fs) + bad == EncodeField(fs[0]) + rest;
      TagReads(fs[0], rest);
      BodyInverts(fs[0], rest);
      StopsAfter(Store(e, fs[0]), fs[1..], bad);
    }
  }

  // Not a field: a tag cut short, or one followed by something it does not take.
  predicate IsBad(bad: Bytes) {
    bad != [] && match GetVarint32(bad) case Malformed => true case Parsed(tag, body) => DecodeBody(tag, body).BadField?
  }

  lemma BadStops(e: EditData, bad: Bytes)
    requires IsBad(bad)
    ensures DecodeFields(e, bad) == Decoded(e, false)
  {
    hide DecodeBody, GetVarint32;
  }

  // The first m bytes of one string followed by another.
  lemma Cut(a: Bytes, b: Bytes, m: nat)
    requires m <= |a| + |b|
    ensures (a + b)[..m] == if m < |a| then a[..m] else a + b[..m - |a|]
  {
  }

  lemma Varint64Cut(n: nat, m: nat)
    requires m < |Varint(n)|
    ensures GetVarint64(Varint(n)[..m]) == Malformed && GetVarint32(Varint(n)[..m]) == Malformed
  {
    VarintCut(n, m, 10);
    VarintCut(n, m, 5);
  }

  lemma NewFileCut(level: nat, f: FileMeta, m: nat)
    requires level < NUM_LEVELS && Fits(NewFile(level, f))
    requires m < |Varint(f.number) + (Varint(f.size) + (LengthPrefixed(f.smallest) + LengthPrefixed(f.largest)))|
    ensures DecodeNewFile(level, (Varint(f.number) + (Varint(f.size) + (LengthPrefixed(f.smallest) + LengthPrefixed(f.largest))))[..m]) == BadField
  {
    hide GetVarint64, GetLengthPrefixed, LengthPrefixed, Varint;
    var a, b, c, d := Varint(f.number), Varint(f.size), LengthPrefixed(f.smallest), LengthPrefixed(f.largest);
    Cut(a, b + (c + d), m);
    if m < |a| {
      Varint64Cut(f.number, m);
    } else {
      var m1 := m - |a|;
      Varint64RoundTrip(f.number, (b + (c + d))[..m1]);
      Cut(b, c + d, m1);
      if m1 < |b| {
        Varint64Cut(f.size, m1);
      } else {
        var m2 := m1 - |b|;
        Varint64RoundTrip(f.size, (c + d)[..m2]);
        Cut(c, d, m2);
        if m2 < |c| {
          LengthPrefixedCut(f.smallest, m2);
        } else {
          LengthPrefixedRoundTrip(f.smallest, d[..m2 - |c|]);
          LengthPrefixedCut(f.largest, m2 - |c|);
        }
      }
    }
  }

  // A level, and then something cut short.
  lemma LevelledCut(level: nat, x: Bytes, m: nat)
    requires level < NUM_LEVELS && m < |Varint(level)| + |x|
    ensures var r := GetLevel((Varint(level) + x)[..m]); r.Malformed? || (m >= |Varint(level)| && r == Parsed(level, x[..m - |Varint(level)|]))
  {
    hide Varint;
    Cut(Varint(level), x, m);
    if m < |Varint(level)| {
      Varint64Cut(level, m);
    } else {
      LevelInverts(level, x[..m - |Varint(level)|]);
    }
  }

  lemma BodyCut(f: Field, m: nat)
    requires Fits(f) && m < |Body(f)|
    ensures DecodeBody(TagOf(f) as nat, Body(f)[..m]) == BadField
  {
    hide GetVarint64, GetLengthPrefixed, LengthPrefixed, Varint, GetLevel, DecodeNewFile;
    match f
    case Comparator(name) => LengthPrefixedCut(name, m);
    case LogNumber(n) => Varint64Cut(n, m);
    case PrevLogNumber(n) => Varint64Cut(n, m);
    case NextFile(n) => Varint64Cut(n, m);
    case LastSequence(n) => Varint64Cut(n, m);
    case CompactPointer(level, key) =>
      LevelledCut(level, LengthPrefixed(key), m);
      if m >= |Varint(level)| { LengthPrefixedCut(key, m - |Varint(level)|); }
    case DeletedFile(level, n) =>
      LevelledCut(level, Varint(n), m);
      if m >= |Varint(level)| { Varint64Cut(n, m - |Varint(level)|); }
    case NewFile(level, meta) =>
      LevelledCut(level, Varint(meta.number) + (Varint(meta.size) + (LengthPrefixed(meta.smallest) + LengthPrefixed(meta.largest))), m);
      if m >= |Varint(level)| { NewFileCut(level, meta, m - |Varint(level)|); }
  }

  /** A record cut within a field is refused, with the fields before it stored. */
  lemma CutIsRefused(e: EditData, fs: seq<Field>, f: Field, n: nat)
    requires (forall i :: 0 <= i < |fs| ==> Fits(fs[i])) && Fits(f) && 0 < n < |EncodeField(f)|
    ensures DecodeFields(e, EncodeFields(fs) + EncodeField(f)[..n]) == Decoded(StoreAll(e, fs), false)
  {
    hide DecodeFields, Body, TagOf, Fits;
    assert EncodeField(f)[..n] == Varint(TagOf(f) as nat) + Body(f)[..n - 1] by { OneByteTag(f); }
    Varint32RoundTrip(TagOf(f) as nat, Body(f)[..n - 1]);
    BodyCut(f, n - 1);
    StopsAfter(e, fs, EncodeField(f)[..n]);
  }

  lemma OneByteTag(f: Field)
    ensures Varint(TagOf(f) as nat) == [TagOf(f)]
  {
  }

  /** An unknown tag is refused, and so is a level that does not exist. */
  lemma NonsenseIsRefused(e: EditData, fs: seq<Field>, tag: nat, level: nat, rest: Bytes)
    requires (forall i :: 0 <= i < |fs| ==> Fits(fs[i])) && tag < TWO_32 && level < TWO_32
    ensures tag !in {1, 2, 3, 4, 5, 6, 7, 9} ==> DecodeFields(e, EncodeFields(fs) + (Varint(tag) + rest)) == Decoded(StoreAll(e, fs), false)
    ensures tag in {5, 6, 7} && level >= NUM_LEVELS ==>
      DecodeFields(e, EncodeFields(fs) + (Varint(tag) + (Varint(level) + rest))) == Decoded(StoreAll(e, fs), false)
  {
    hide DecodeFields, Fits, Varint, GetVarint32, DecodeNewFile;
    if tag !in {1, 2, 3, 4, 5, 6, 7, 9} {
      Varint32RoundTrip(tag, rest);
      VarintNonempty(tag);
      StopsAfter(e, fs, Varint(tag) + rest);
    }
    if tag in {5, 6, 7} && level >= NUM_LEVELS {
      Varint32RoundTrip(tag, Varint(level) + rest);
      Varint32RoundTrip(level, rest);
      VarintNonempty(tag);
      StopsAfter(e, fs, Varint(tag) + (Varint(level) + rest));
    }
  }

  lemma VarintNonempty(n: nat)
    ensures |Varint(n)| > 0
  {
  }

  // ----- The order of EncodeTo -----

  function Scalars(e: EditData): seq<Field> {
    (if e.comparator.Some? then [Comparator(e.comparator.value)] else []) +
    (if e.logNumber.Some? then [LogNumber(e.logNumber.value)] else []) +
    (if e.prevLogNumber.Some? then [PrevLogNumber(e.prevLogNumber.value)] else []) +
    (if e.nextFile.Some? then [NextFile(e.nextFile.value)] else []) +
    (if e.lastSequence.Some? then [LastSequence(e.lastSequence.value)] else [])
  }

  function Pointers(ps: seq<(nat, Bytes)>): seq<Field> {
    seq(|ps|, i requires 0 <= i < |ps| => CompactPointer(ps[i].0, ps[i].1))
  }

  function Deletions(ds: seq<(nat, nat)>): seq<Field> {
    seq(|ds|, i requires 0 <= i < |ds| => DeletedFile(ds[i].0, ds[i].1))
  }

  function Additions(fs: seq<(nat, FileMeta)>): seq<Field> {
    seq(|fs|, i requires 0 <= i < |fs| => NewFile(fs[i].0, fs[i].1))
  }

  // The fields EncodeTo writes, with the deleted files in some order.
  function FieldsOf(e: EditData, ds: seq<(nat, nat)>): seq<Field> {
    Scalars(e) + (Pointers(e.pointers) + (Deletions(ds) + Additions(e.added)))
  }

  ghost predicate Lists(ds: seq<(nat, nat)>, deleted: set<(nat, nat)>) { deleted == set d | d in ds }

  // 64-bit numbers, 32-bit lengths, levels that exist.
  ghost predicate EditFits(e: EditData) {
    && (forall i :: 0 <= i < |Scalars(e)| ==> Fits(Scalars(e)[i]))
    && (forall i :: 0 <= i < |e.pointers| ==> Fits(CompactPointer(e.pointers[i].0, e.pointers[i].1)))
    && (forall d :: d in e.deleted ==> Fits(DeletedFile(d.0, d.1)))
    && forall i :: 0 <= i < |e.added| ==> Fits(NewFile(e.added[i].0, e.added[i].1))
  }

  lemma FieldsFit(e: EditData, ds: seq<(nat, nat)>)
    requires EditFits(e) && Lists(ds, e.deleted)
    ensures forall i :: 0 <= i < |FieldsOf(e, ds)| ==> Fits(FieldsOf(e, ds)[i])
  {
    hide Fits, Scalars;
    forall i | 0 <= i < |ds| ensures Fits(Deletions(ds)[i]) { assert ds[i] in e.deleted; }
  }

  lemma {:induction false} StoreConcat(e: EditData, a: seq<Field>, b: seq<Field>)
    ensures StoreAll(e, a + b) == StoreAll(StoreAll(e, a), b)
    decreases |a|
  {
    hide Store;
    if a == [] {
      assert a + b == b;
    } else {
      assert (a + b)[1..] == a[1..] + b;
      StoreConcat(Store(e, a[0]), a[1..], b);
    }
  }

  lemma {:induction false} StorePointers(e: EditData, ps: seq<(nat, Bytes)>)
    ensures StoreAll(e, Pointers(ps)) == e.(pointers := e.pointers + ps)
    decreases |ps|
  {
    if ps == [] {
      assert e.pointers + [] == e.pointers;
    } else {
      assert Pointers(ps)[1..] == Pointers(ps[1..]);
      StorePointers(Store(e, Pointers(ps)[0]), ps[1..]);
      assert (e.pointers + [ps[0]]) + ps[1..] == e.pointers + ps;
    }
  }

  lemma {:induction false} StoreDeletions(e: EditData, ds: seq<(nat, nat)>)
    ensures StoreAll(e, Deletions(ds)) == e.(deleted := e.deleted + set d | d in ds)
    decreases |ds|
  {
    if ds != [] {
      assert Deletions(ds)[1..] == Deletions(ds[1..]);
      StoreDeletions(Store(e, Deletions(ds)[0]), ds[1..]);
      assert ds == [ds[0]] + ds[1..];
      assert (e.deleted + {ds[0]}) + (set d | d in ds[1..]) == e.deleted + set d | d in ds;
    }
  }

  lemma {:induction false} StoreAdditions(e: EditData, fs: seq<(nat, FileMeta)>)
    ensures StoreAll(e, Additions(fs)) == e.(added := e.added + fs)
    decreases |fs|
  {
    if fs == [] {
      assert e.added + [] == e.added;
    } else {
      assert Additions(fs)[1..] == Additions(fs[1..]);
      StoreAdditions(Store(e, Additions(fs)[0]), fs[1..]);
      assert (e.added + [fs[0]]) + fs[1..] == e.added + fs;
    }
  }

  lemma StoreOne(e: EditData, f: Field)
    ensures StoreAll(e, [f]) == Store(e, f) && StoreAll(e, []) == e
  {
    assert StoreAll(e, [f]) == StoreAll(Store(e, f), []);
  }

  lemma StoreScalars(before: EditData, e: EditData)
    requires before.comparator.None? && before.logNumber.None? && before.prevLogNumber.None? && before.nextFile.None? && before.lastSequence.None?
    ensures StoreAll(before, Scalars(e)) == before.(comparator := e.comparator, logNumber := e.logNumber,
      prevLogNumber := e.prevLogNumber, nextFile := e.nextFile, lastSequence := e.lastSequence)
  {
    var a: seq<Field> := if e.comparator.Some? then [Comparator(e.comparator.value)] else [];
    var b: seq<Field> := if e.logNumber.Some? then [LogNumber(e.logNumber.value)] else [];
    var c: seq<Field> := if e.prevLogNumber.Some? then [PrevLogNumber(e.prevLogNumber.value)] else [];
    var d: seq<Field> := if e.nextFile.Some? then [NextFile(e.nextFile.value)] else [];
    var f: seq<Field> := if e.lastSequence.Some? then [LastSequence(e.lastSequence.value)] else [];
    StoreConcat(before, a + b + c + d, f);
    StoreConcat(before, a + b + c, d);
    StoreConcat(before, a + b, c);
    StoreConcat(before, a, b);
    if e.comparator.Some? { StoreOne(before, a[0]); }
    var e1 := StoreAll(before, a);
    if e.logNumber.Some? { StoreOne(e1, b[0]); }
    var e2 := StoreAll(e1, b);
    if e.prevLogNumber.Some? { StoreOne(e2, c[0]); }
    var e3 := StoreAll(e2, c);
    if e.nextFile.Some? { StoreOne(e3, d[0]); }
    var e4 := StoreAll(e3, d);
    if e.lastSequence.Some? { StoreOne(e4, f[0]); }
  }

  lemma StoreFields(before: EditData, e: EditData, ds: seq<(nat, nat)>)
    requires Lists(ds, e.deleted)
    ensures StoreAll(Cleared(before), FieldsOf(e, ds)) == e.(pointers := before.pointers + e.pointers)
  {
    var e0, a, b, c, d := Cleared(before), Scalars(e), Pointers(e.pointers), Deletions(ds), Additions(e.added);
    StoreConcat(e0, a, b + (c + d));
    StoreScalars(e0, e);
    var e1 := StoreAll(e0, a);
    StoreConcat(e1, b, c + d);
    StorePointers(e1, e.pointers);
    var e2 := StoreAll(e1, b);
    StoreConcat(e2, c, d);
    StoreDeletions(e2, ds);
    StoreAdditions(StoreAll(e2, c), e.added);
    assert [] + e.added == e.added;
  }

  /** Decoding an encoded edit succeeds and gives it back, but for the compaction pointers of the
      edit decoded into, which Clear leaves behind. */
  lemma RoundTrip(before: EditData, e: EditData, ds: seq<(nat, nat)>)
    requires EditFits(e) && Lists(ds, e.deleted)
    ensures DecodeInto(before, EncodeFields(FieldsOf(e, ds))) == Decoded(e.(pointers := before.pointers + e.pointers), true)
  {
    hide FieldsOf, Fits;
    FieldsFit(e, ds);
    DecodeInverts(Cleared(before), FieldsOf(e, ds));
    StoreFields(before, e, ds);
  }

  /** So decoding restores the edit exactly when it goes into one without compaction pointers. */
  lemma RestoresIff(before: EditData, e: EditData, ds: seq<(nat, nat)>)
    requires EditFits(e) && Lists(ds, e.deleted)
    ensures DecodeInto(before, EncodeFields(FieldsOf(e, ds))) == Decoded(e, true) <==> before.pointers == []
  {
    hide DecodeInto, FieldsOf, EncodeFields, EditFits, Lists;
    RoundTrip(before, e, ds);
    if before.pointers == [] {
      assert [] + e.pointers == e.pointers;
    } else {
      assert |before.pointers + e.pointers| > |e.pointers|;
    }
  }

  // ----- The class -----

  class VersionEdit {
    var data: EditData

    constructor ()
      ensures data == FRESH
    {
      data := FRESH;
    }

    /** The scalar fields that are set, then pointers, deleted files and new files. */
    method EncodeTo(dst0: Bytes) returns (dst: Bytes, ghost ds: seq<(nat, nat)>)
      ensures Lists(ds, data.deleted) && dst == dst0 + EncodeFields(FieldsOf(data, ds))
    {
      hide EncodeFields, Scalars, Pointers, Deletions, Additions, Lists;
      var a := EncodeScalars(data);
      var b := EncodePointers(data.pointers);
      var c;
      c, ds := EncodeDeletions(data.deleted);
      var d := EncodeAdditions(data.added);
      dst := dst0 + a + b + c + d;
      EncodeConcat(Deletions(ds), Additions(data.added));
      EncodeConcat(Pointers(data.pointers), Deletions(ds) + Additions(data.added));
      EncodeConcat(Scalars(data), Pointers(data.pointers) + (Deletions(ds) + Additions(data.added)));
      assert dst0 + a + b + c + d == dst0 + (a + (b + (c + d)));
    }

    method DecodeFrom(src: Bytes) returns (ok: bool)
      modifies this
      ensures Decoded(data, ok) == DecodeInto(old(data), src)
    {
      hide DecodeBody, GetVarint32, Store;
      ghost var before := data;
      data := Cleared(data);
      var input := src;
      ok := true;
      while ok
        invariant if ok then DecodeFields(data, input) == DecodeInto(before, src)
                  else Decoded(data, false) == DecodeInto(before, src)
        decreases ok, |input|
      {
        var tag := GetVarint32(input);
        if tag.Malformed? {
          return input == [];
        }
        Shrink(input);
        DecodeShrinks(tag.value, tag.rest);
        match DecodeBody(tag.value, tag.rest) {
          case BadField => ok := false;
          case Got(f, rest) =>
            data := Store(data, f);
            input := rest;
        }
      }
    }
  }

  lemma {:induction false} EncodeConcat(a: seq<Field>, b: seq<Field>)
    ensures EncodeFields(a + b) == EncodeFields(a) + EncodeFields(b)
  {
    hide EncodeField;
    if a == [] {
      assert a + b == b;
    } else {
      assert (a + b)[1..] == a[1..] + b;
      EncodeConcat(a[1..], b);
    }
  }

  method Append(dst: Bytes, ghost done: seq<Field>, f: Field) returns (r: Bytes)
    requires dst == EncodeFields(done)
    ensures r == EncodeFields(done + [f])
  {
    hide EncodeField;
    EncodeConcat(done, [f]);
    assert EncodeFields([f]) == EncodeField(f) + [];
    r := dst + EncodeField(f);
  }

  method EncodeScalars(e: EditData) returns (r: Bytes)
    ensures r == EncodeFields(Scalars(e))
  {
    hide EncodeFields;
    ghost var done: seq<Field> := [];
    r := [];
    assert r == EncodeFields(done) by { EncodeNone(); }
    if e.comparator.Some? {
      r := Append(r, done, Comparator(e.comparator.value));
      done := done + [Comparator(e.comparator.value)];
    }
    if e.logNumber.Some? {
      r := Append(r, done, LogNumber(e.logNumber.value));
      done := done + [LogNumber(e.logNumber.value)];
    }
    if e.prevLogNumber.Some? {
      r := Append(r, done, PrevLogNumber(e.prevLogNumber.value));
      done := done + [PrevLogNumber(e.prevLogNumber.value)];
    }
    if e.nextFile.Some? {
      r := Append(r, done, NextFile(e.nextFile.value));
      done := done + [NextFile(e.nextFile.value)];
    }
    if e.lastSequence.Some? {
      r := Append(r, done, LastSequence(e.lastSequence.value));
      done := done + [LastSequence(e.lastSequence.value)];
    }
    assert done == Scalars(e);
  }

  lemma EncodeNone()
    ensures EncodeFields([]) == []
  {
  }

  method EncodePointers(ps: seq<(nat, Bytes)>) returns (r: Bytes)
    ensures r == EncodeFields(Pointers(ps))
  {
    hide EncodeFields;
    r := [];
    assert Pointers(ps[..0]) == [] && EncodeFields([]) == [] by { EncodeNone(); }
    for i := 0 to |ps|
      invariant r == EncodeFields(Pointers(ps[..i]))
    {
      r := Append(r, Pointers(ps[..i]), CompactPointer(ps[i].0, ps[i].1));
      assert Pointers(ps[..i + 1]) == Pointers(ps[..i]) + [CompactPointer(ps[i].0, ps[i].1)];
    }
    assert ps[..|ps|] == ps;
  }

  method EncodeDeletions(deleted: set<(nat, nat)>) returns (r: Bytes, ghost ds: seq<(nat, nat)>)
    ensures Lists(ds, deleted) && r == EncodeFields(Deletions(ds))
  {
    hide EncodeFields;
    r, ds := [], [];
    var rest := deleted;
    assert Deletions(ds) == [] && EncodeFields([]) == [] by { EncodeNone(); }
    while rest != {}
      invariant r == EncodeFields(Deletions(ds)) && deleted == rest + set d | d in ds
      decreases |rest|
    {
      var d :| d in rest;
      r := Append(r, Deletions(ds), DeletedFile(d.0, d.1));
      assert Deletions(ds + [d]) == Deletions(ds) + [DeletedFile(d.0, d.1)];
      ds := ds + [d];
      rest := rest - {d};
    }
  }

  method EncodeAdditions(fs: seq<(nat, FileMeta)>) returns (r: Bytes)
    ensures r == EncodeFields(Additions(fs))
  {
    hide EncodeFields;
    r := [];
    assert Additions(fs[..0]) == [] && EncodeFields([]) == [] by { EncodeNone(); }
    for i := 0 to |fs|
      invariant r == EncodeFields(Additions(fs[..i]))
    {
      r := Append(r, Additions(fs[..i]), NewFile(fs[i].0, fs[i].1));
      assert Additions(fs[..i + 1]) == Additions(fs[..i]) + [NewFile(fs[i].0, fs[i].1)];
    }
    assert fs[..|fs|] == fs;
  }
}
