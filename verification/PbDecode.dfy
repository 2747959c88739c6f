/** Decoding a message: what is read, and the stream that reads it. */
module PbDecoding {
  import opened Codings
  import opened PbEncoding
  import opened PbMessages
  import opened Versions

  // What is left after reading a value. At the end of the input, a tag may be missing.
  datatype Read<+T> = Failed(eof: bool) | Got(value: T, rest: Bytes)

  datatype Key = Key(tag: nat, wireType: nat)

  // ----- Integers -----

  function OrBits(a: nat, b: nat): nat
    decreases a + b
  {
    if a == 0 && b == 0 then 0 else 2 * OrBits(a / 2, b / 2) + if a % 2 == 1 || b % 2 == 1 then 1 else 0
  }

  function Or32(a: nat, b: nat): nat { OrBits(a, b) % TWO_32 }

  // A 32-bit number, and more if that is only its sign extension.
  function Varint32(s: Bytes): (r: Read<nat>)
    ensures r.Got? ==> |r.rest| < |s| && r.value < TWO_32
  {
    if s == [] then Failed(true)
    else if s[0] < 128 then Got(s[0] as nat, s[1..])
    else More32(s[1..], (s[0] % 128) as nat, 7)
  }

  // bitpos is kept in eight bits.
  function More32(s: Bytes, result: nat, bitpos: nat): (r: Read<nat>)
    requires result < TWO_32
    ensures r.Got? ==> |r.rest| < |s| && r.value < TWO_32
  {
    if s == [] then Failed(false)
    else if bitpos >= 32 && BadExtension(s[0], result, bitpos) then Failed(false)
    else
      var next := if bitpos >= 32 then result else Or32(result, ((s[0] % 128) as nat * Pow2(bitpos)) % TWO_32);
      var bitpos' := (bitpos + 7) % 256;
      if s[0] >= 128 then More32(s[1..], next, bitpos')
      else if bitpos' == 35 && s[0] / 16 % 8 != 0 then Failed(false)
      else Got(next, s[1..])
  }

  // Past bit 32, nothing but the extension of a negative number.
  predicate BadExtension(b: Byte, result: nat, bitpos: nat) {
    b % 128 != 0 && (result < TWO_32 / 2 || b != if bitpos < 63 then 0xFF else 1)
  }

  // pb_decode_varint is GetVarint64.
  function Varint64(s: Bytes): (r: Read<nat>)
    ensures r.Got? ==> |r.rest| < |s| && r.value < TWO_64
  {
    GetVarintShrinks(s, 10);
    match GetVarint64(s)
    case Malformed => Failed(false)
    case Parsed(v, rest) => Got(v, rest)
  }

  // The low bytes as a two's complement number.
  function ToSigned(n: int, size: nat): (r: int)
    requires IntSize(size)
    ensures InSigned(r, size)
  {
    var x := n % Pow256(size);
    HalfPow(size);
    if 2 * x >= Pow256(size) then x - Pow256(size) else x
  }

  lemma HalfPow(size: nat)
    requires IntSize(size)
    ensures Pow256(1) == 256 && Pow256(2) == 65536 && Pow256(4) == TWO_32 && Pow256(8) == TWO_64 && Pow256(size) % 2 == 0
  {
    FixedWidths();
    assert Pow256(0) == 1;
  }

  // ----- Skipping -----

  function Take(s: Bytes, n: nat): Read<Bytes> { if |s| < n then Failed(false) else Got(s[..n], s[n..]) }

  function Drop(s: Bytes, n: nat): Option<Bytes> { if |s| < n then None else Some(s[n..]) }

  function SkipVarint(s: Bytes): (r: Option<Bytes>)
    ensures r.Some? ==> |r.value| < |s|
  {
    if s == [] then None else if s[0] < 128 then Some(s[1..]) else SkipVarint(s[1..])
  }

  function Skip(wireType: nat, s: Bytes): (r: Option<Bytes>)
    ensures r.Some? ==> |r.value| < |s|
  {
    if wireType == WT_VARINT then SkipVarint(s)
    else if wireType == WT_64BIT then Drop(s, 8)
    else if wireType == WT_STRING then (match Varint32(s) case Failed(_) => None case Got(n, rest) => Drop(rest, n))
    else if wireType == WT_32BIT then Drop(s, 4)
    else None
  }

  // A zero ends the message.
  function DecodeTag(s: Bytes): (r: Read<Key>)
    ensures r.Got? ==> |r.rest| < |s|
  {
    match Varint32(s)
    case Failed(eof) => Failed(eof)
    case Got(temp, rest) => if temp == 0 then Failed(true) else Got(Key(temp / 8, temp % 8), rest)
  }

  // ----- Items -----

  // An integer is refused if the field cannot hold it.
  function Clamped(clamped: int, value: int, rest: Bytes): Read<Value> { if clamped != value then Failed(false) else Got(Num(clamped), rest) }

  function DecodeInt(f: Field, s: Bytes): Read<Value> {
    match Varint64(s)
    case Failed(eof) => Failed(eof)
    case Got(value, rest) =>
      if !IntSize(f.dataSize) then Failed(false)
      else match f.ltype
        case Uvarint => Clamped(value % Pow256(f.dataSize), value, rest)
        case Svarint =>
          var n := ToSigned(if value % 2 == 1 then TWO_64 - 1 - value / 2 else value / 2, 8);
          Clamped(ToSigned(n, f.dataSize), n, rest)
        case _ =>
          var n := ToSigned(value, if f.dataSize == 8 then 8 else 4);
          Clamped(ToSigned(n, f.dataSize), n, rest)
  }

  // A length and that many bytes, when the field has room.
  function DecodeBlob(f: Field, s: Bytes): Read<Value> {
    match Varint32(s)
    case Failed(eof) => Failed(eof)
    case Got(size, rest) =>
      if f.ltype.FixedLengthBytes? && size == 0 then Got(Blob(Zeros(f.dataSize)), rest)
      else if !HasRoom(f, size) then Failed(false)
      else match Take(rest, size)
        case Failed(eof) => Failed(eof)
        case Got(b, rest') => Got(Blob(b), rest')
  }

  // size + 1 is a 32-bit sum.
  predicate HasRoom(f: Field, size: nat) {
    if f.ltype.BytesArray? then size + BYTES_HEADER <= f.dataSize
    else if f.ltype.CString? then size + 1 < TWO_32 && size + 1 <= f.dataSize
    else size == f.dataSize
  }

  function AsNum(r: Read<nat>): Read<Value> { match r case Failed(eof) => Failed(eof) case Got(n, rest) => Got(Num(n), rest) }

  function AsFixed(r: Read<Bytes>): Read<Value> { match r case Failed(eof) => Failed(eof) case Got(b, rest) => Got(Num(DecodeFixed(b)), rest) }

  // The scalars
  function DecodeScalar(f: Field, s: Bytes): Read<Value> {
    match f.ltype
    case Bool => AsNum(match Varint32(s) case Failed(eof) => Failed(eof) case Got(n, rest) => Got(if n != 0 then 1 else 0, rest))
    case Fixed32 => AsFixed(Take(s, 4))
    case Fixed64 => AsFixed(Take(s, 8))
    case BytesArray => DecodeBlob(f, s)
    case CString => DecodeBlob(f, s)
    case FixedLengthBytes => DecodeBlob(f, s)
    case _ => DecodeInt(f, s)
  }

  lemma IntTyped(f: Field, s: Bytes)
    requires f.ltype.Varint? || f.ltype.Uvarint? || f.ltype.Svarint?
    ensures var r := DecodeInt(f, s); r.Got? ==> |r.rest| < |s| && TypedItem(f, r.value)
  {
    if IntSize(f.dataSize) { HalfPow(f.dataSize); }
  }

  lemma BlobTyped(f: Field, s: Bytes)
    requires f.ltype.BytesArray? || f.ltype.CString? || f.ltype.FixedLengthBytes?
    ensures var r := DecodeBlob(f, s); r.Got? ==> |r.rest| < |s| && TypedItem(f, r.value)
  {
  }

  lemma ScalarTyped(f: Field, s: Bytes)
    requires !f.ltype.Submessage?
    ensures var r := DecodeScalar(f, s); r.Got? ==> |r.rest| < |s| && TypedItem(f, r.value)
  {
    hide Varint32, Pow256;
    match f.ltype
    case Bool =>
    case Fixed32 => if |s| >= 4 { DecodeFixedFits(s[..4]); }
    case Fixed64 => if |s| >= 8 { DecodeFixedFits(s[..8]); }
    case BytesArray => BlobTyped(f, s);
    case CString => BlobTyped(f, s);
    case FixedLengthBytes => BlobTyped(f, s);
    case _ => IntTyped(f, s);
  }

  // ----- Fields -----

  // The structure, and how much of the current fixed-count array has been given.
  datatype State = State(slots: seq<Slot>, count: nat)

  // The other members of the union are no longer chosen.
  function Cleared(fields: seq<Field>, slots: seq<Slot>, i: nat): (r: seq<Slot>)
    requires |slots| == |fields| && i < |fields|
    ensures |r| == |slots|
  {
    seq(|slots|, j requires 0 <= j < |slots| => if SameUnion(fields[i], fields[j]) then Choice(None) else slots[j])
  }

  function Set(fields: seq<Field>, slots: seq<Slot>, i: nat, s: Slot): (r: seq<Slot>)
    requires Typed(fields, slots) && i < |fields| && TypedSlot(fields[i], s)
    ensures Typed(fields, r)
  {
    if fields[i].htype.OneOf? then
      SetTyped(fields, Cleared(fields, slots, i), i, s);
      Cleared(fields, slots, i)[i := s]
    else
      SetTyped(fields, slots, i, s);
      slots[i := s]
  }

  lemma SetTyped(fields: seq<Field>, slots: seq<Slot>, i: nat, s: Slot)
    requires Typed(fields, slots) && i < |fields| && TypedSlot(fields[i], s)
    requires forall j :: 0 <= j < |slots| && SameUnion(fields[i], fields[j]) ==> !Chosen(slots[j])
    ensures Typed(fields, slots[i := s])
  {
  }

  // The next item of a repeated field.
  function Put(f: Field, items: seq<Value>, count: nat, v: Value): (r: seq<Value>)
    requires f.htype.Repeated? && TypedSlot(f, Many(items)) && TypedItem(f, v) && CountOf(f, items, count) < f.arraySize
    ensures TypedSlot(f, Many(r))
  {
    if f.htype.counted then items + [v] else items[count := v]
  }

  function CountOf(f: Field, items: seq<Value>, count: nat): nat { if f.htype == Repeated(true) then |items| else count }

  function DecodeItem(f: Field, s: Bytes, cur: Value): (r: Read<Value>)
    requires GoodField(f) && TypedItem(f, cur)
    ensures r.Got? ==> |r.rest| < |s| && TypedItem(f, r.value)
    decreases |s|, 1
  {
    if f.ltype.Submessage? then
      match Varint32(s)
      case Failed(eof) => Failed(eof)
      case Got(size, rest) =>
        if |rest| < size then Failed(false)
        else match DecodeFrom(f.ltype.fields, cur.slots, rest[..size], None, 0, {})
          case None => Failed(false)
          case Some(slots) => Got(Message(slots), rest[size..])
    else
      ScalarTyped(f, s);
      DecodeScalar(f, s)
  }

  // A packed array, whose items must use up the input.
  function DecodePacked(f: Field, s: Bytes, items: seq<Value>, count: nat): (r: Option<State>)
    requires GoodField(f) && f.htype.Repeated? && TypedSlot(f, Many(items))
    ensures r.Some? ==> |r.value.slots| == 1 && TypedSlot(f, r.value.slots[0])
    decreases |s|, 2
  {
    DefaultItemTyped(f);
    if s == [] then Some(State([Many(items)], count))
    else if CountOf(f, items, count) >= f.arraySize then None
    else match DecodeItem(f, s, DefaultItem(f))
      case Failed(_) => None
      case Got(v, rest) => DecodePacked(f, rest, Put(f, items, count, v), count + 1)
  }

  function DecodeRepeated(f: Field, s: Bytes, items: seq<Value>, count: nat, wireType: nat): (r: Read<State>)
    requires GoodField(f) && f.htype.Repeated? && TypedSlot(f, Many(items))
    ensures r.Got? ==> |r.rest| < |s| && |r.value.slots| == 1 && TypedSlot(f, r.value.slots[0])
    decreases |s|, 3
  {
    if wireType == WT_STRING && Packable(f.ltype) then
      match Varint32(s)
      case Failed(eof) => Failed(eof)
      case Got(size, rest) =>
        if |rest| < size then Failed(false)
        else match DecodePacked(f, rest[..size], items, count)
          case None => Failed(false)
          case Some(st) => Got(st, rest[size..])
    else if CountOf(f, items, count) >= f.arraySize then Failed(false)
    else
      DefaultItemTyped(f);
      match DecodeItem(f, s, DefaultItem(f))
      case Failed(eof) => Failed(eof)
      case Got(v, rest) => Got(State([Many(Put(f, items, count, v))], count + 1), rest)
  }

  // What a single item is decoded onto.
  function Base(f: Field, s: Slot): (v: Value)
    requires GoodField(f) && TypedSlot(f, s) && !f.htype.Repeated?
    ensures TypedItem(f, v)
  {
    DefaultItemTyped(f);
    match s case One(v) => v case Maybe(_, v) => v case Choice(_) => DefaultItem(f)
  }

  function Given(f: Field, v: Value): (s: Slot)
    requires TypedItem(f, v) && !f.htype.Repeated?
    ensures TypedSlot(f, s)
  {
    if f.htype.OneOf? then Choice(Some(v)) else if f.htype == Optional(true) then Maybe(true, v) else One(v)
  }

  // decode_static_field
  function DecodeField(fields: seq<Field>, i: nat, st: State, wireType: nat, s: Bytes): (r: Read<State>)
    requires GoodFields(fields) && Typed(fields, st.slots) && i < |fields|
    ensures r.Got? ==> |r.rest| < |s| && Typed(fields, r.value.slots)
    decreases |s|, 4
  {
    var f, slot := fields[i], st.slots[i];
    assert f in fields && TypedSlot(f, slot);
    if f.htype.Repeated? then
      match DecodeRepeated(f, s, slot.items, st.count, wireType)
      case Failed(eof) => Failed(eof)
      case Got(one, rest) => Got(State(Set(fields, st.slots, i, one.slots[0]), one.count), rest)
    else
      match DecodeItem(f, s, Base(f, slot))
      case Failed(eof) => Failed(eof)
      case Got(v, rest) => Got(State(Set(fields, st.slots, i, Given(f, v)), st.count), rest)
  }

  // ----- Messages -----

  predicate FixedCount(f: Field) { f.htype == Repeated(false) }

  // The fixed-count array last seen has all its items.
  predicate Complete(fields: seq<Field>, fixed: Option<nat>, count: nat) {
    fixed.Some? ==> fixed.value < |fields| && count == fields[fixed.value].arraySize
  }

  function IndexOf(fields: seq<Field>, tag: nat): (i: nat)
    requires exists i :: 0 <= i < |fields| && fields[i].tag == tag
    ensures i < |fields| && fields[i].tag == tag
  {
    if fields[0].tag == tag then 0 else 1 + IndexOf(fields[1..], tag)
  }

  // The required fields among the first MAX_REQUIRED have all been seen.
  predicate AllSeen(fields: seq<Field>, seen: set<nat>) {
    forall k :: 0 <= k < RequiredBefore(fields, |fields|) && k < MAX_REQUIRED ==> k in seen
  }

  function Seen(fields: seq<Field>, i: nat, seen: set<nat>): set<nat>
    requires i < |fields|
  {
    var k := RequiredBefore(fields, i);
    if fields[i].htype.Required? && k < MAX_REQUIRED then seen + {k} else seen
  }

  /** pb_decode_noinit */
  function DecodeFrom(fields: seq<Field>, slots: seq<Slot>, s: Bytes, fixed: Option<nat>, count: nat, seen: set<nat>): (r: Option<seq<Slot>>)
    requires GoodFields(fields) && Typed(fields, slots)
    ensures r.Some? ==> Typed(fields, r.value)
    decreases |s|, 0
  {
    if s == [] then Finish(fields, slots, fixed, count, seen)
    else match DecodeTag(s)
      case Failed(eof) => if eof then Finish(fields, slots, fixed, count, seen) else None
      case Got(key, rest) =>
        if !HasTag(fields, key.tag) then
          (match Skip(key.wireType, rest)
          case None => None
          case Some(rest') => DecodeFrom(fields, slots, rest', fixed, count, seen))
        else if fields == [] then
          (match Varint32(rest)
          case Failed(_) => None
          case Got(_, rest') => DecodeFrom(fields, slots, rest', fixed, count, seen))
        else
          var i := IndexOf(fields, key.tag);
          var anew := FixedCount(fields[i]) && fixed != Some(i);
          if anew && !Complete(fields, fixed, count) then None
          else match DecodeField(fields, i, State(slots, if anew then 0 else count), key.wireType, rest)
            case Failed(_) => None
            case Got(st, rest') =>
              DecodeFrom(fields, st.slots, rest', if anew then Some(i) else fixed, if FixedCount(fields[i]) then st.count else count, Seen(fields, i, seen))
  }

  function Finish(fields: seq<Field>, slots: seq<Slot>, fixed: Option<nat>, count: nat, seen: set<nat>): Option<seq<Slot>> {
    if Complete(fields, fixed, count) && AllSeen(fields, seen) then Some(slots) else None
  }

  function Decode(fields: seq<Field>, s: Bytes): Option<seq<Slot>>
    requires GoodFields(fields)
  {
    DefaultsTyped(fields);
    DecodeFrom(fields, Defaults(fields), s, None, 0, {})
  }
}
