/** Encoding a message: what is written, and the stream that writes or counts it. */
module PbEncoding {
  import opened Codings
  import opened PbMessages
  import opened Versions

  // ----- The bytes of a message -----

  function Concat(a: Option<Bytes>, b: Option<Bytes>): Option<Bytes> {
    if a.Some? && b.Some? then Some(a.value + b.value) else None
  }

  // The length, cast to 64 bits, and the bytes.
  function Lengthed(b: Bytes): Bytes { Codings.Varint(Wrap64(|b|)) + b }

  function Prefixed(e: Option<Bytes>): Option<Bytes> { if e.Some? then Some(Lengthed(e.value)) else None }

  const WT_VARINT: nat := 0
  const WT_64BIT: nat := 1
  const WT_STRING: nat := 2
  const WT_32BIT: nat := 5

  function Tag(wireType: nat, tag: nat): Bytes { Codings.Varint(tag * 8 + wireType) }

  function WireType(t: LType): nat {
    match t
    case Bool => WT_VARINT
    case Varint => WT_VARINT
    case Uvarint => WT_VARINT
    case Svarint => WT_VARINT
    case Fixed32 => WT_32BIT
    case Fixed64 => WT_64BIT
    case _ => WT_STRING
  }

  // The cast to an unsigned 64-bit integer.
  function Wrap64(n: int): nat { n % TWO_64 }

  // n < 0 ? ~(n << 1) : n << 1
  function Zigzag(n: int): nat {
    if n < 0 then TWO_64 - 1 - Wrap64(n) * 2 % TWO_64 else Wrap64(n) * 2 % TWO_64
  }

  /** Small magnitudes, of either sign, get small codes. */
  lemma ZigzagIs(n: int)
    requires InSigned(n, 8)
    ensures Zigzag(n) == if n < 0 then -2 * n - 1 else 2 * n
  {
    FixedWidths();
    if n < 0 {
      assert Wrap64(n) == n + TWO_64;
      assert (n + TWO_64) * 2 == TWO_64 + (2 * n + TWO_64);
    }
  }

  function StrLen(b: Bytes): (n: nat)
    ensures n <= |b| && (forall i :: 0 <= i < n ==> b[i] != 0) && (n < |b| ==> b[n] == 0)
  {
    if b == [] || b[0] == 0 then 0 else 1 + StrLen(b[1..])
  }

  // An integer of a valid size.
  function Sized(f: Field, n: nat): Option<Bytes> { if IntSize(f.dataSize) then Some(Codings.Varint(n)) else None }

  function EncItem(f: Field, v: Value): Option<Bytes>
    requires TypedItem(f, v)
    decreases v
  {
    match f.ltype
    case Bool => Some(Codings.Varint(v.n))
    case Varint => Sized(f, Wrap64(v.n))
    case Uvarint => Sized(f, Wrap64(v.n))
    case Svarint => Sized(f, Wrap64(Zigzag(Signed(f, v))))
    case Fixed32 => Some(Fixed(v.n, 4))
    case Fixed64 => Some(Fixed(v.n, 8))
    case BytesArray => if |v.b| + BYTES_HEADER > f.dataSize then None else Some(Lengthed(v.b))
    case CString => Some(Lengthed(v.b[..StrLen(v.b)]))
    case FixedLengthBytes => Some(Lengthed(v.b))
    case Submessage(fs) => Prefixed(EncFrom(fs, v.slots, 0))
  }

  // Integers of an invalid size are never read.
  function Signed(f: Field, v: Value): int
    requires v.Num?
  {
    if IntSize(f.dataSize) then v.n else 0
  }

  // The items from the j-th on, one after the other, each with its tag unless packed.
  function EncItems(f: Field, items: seq<Value>, j: nat, packed: bool): Option<Bytes>
    requires j <= |items| && forall v :: v in items ==> TypedItem(f, v)
    decreases items, |items| - j
  {
    if j == |items| then Some([])
    else Concat(if packed then EncItem(f, items[j]) else Tagged(f, EncItem(f, items[j])), EncItems(f, items, j + 1, packed))
  }

  function Tagged(f: Field, e: Option<Bytes>): Option<Bytes> { Concat(Some(Tag(WireType(f.ltype), f.tag)), e) }

  function EncArray(f: Field, items: seq<Value>): Option<Bytes>
    requires forall v :: v in items ==> TypedItem(f, v)
    decreases items, |items| + 1
  {
    if items == [] then Some([])
    else if |items| > f.arraySize then None
    else if Packable(f.ltype) then Concat(Some(Tag(WT_STRING, f.tag)), Prefixed(EncItems(f, items, 0, true)))
    else EncItems(f, items, 0, false)
  }

  // pb_check_proto3_default_value. A union counts as unset when none of its members is chosen.
  predicate IsDefault(f: Field, s: Slot)
    requires TypedSlot(f, s)
    decreases s, 0
  {
    match f.htype
    case Required => false
    case Repeated(counted) => counted && s.items == []
    case OneOf(_) => s.member.None?
    case Optional(hasFlag) => if hasFlag then !s.has else IsZero(f, s.value)
  }

  predicate IsZero(f: Field, v: Value)
    requires TypedItem(f, v)
    decreases v, 0
  {
    match f.ltype
    case BytesArray => v.b == []
    case CString => StrLen(v.b) == 0
    case FixedLengthBytes => f.dataSize == 0
    case Submessage(fs) => AllDefault(fs, v.slots)
    case _ => f.dataSize == 0 || v.n == 0
  }

  predicate AllDefault(fields: seq<Field>, slots: seq<Slot>)
    requires Typed(fields, slots)
    decreases slots, 0
  {
    forall i :: 0 <= i < |slots| ==> IsDefault(fields[i], slots[i])
  }

  function EncSlot(f: Field, s: Slot): Option<Bytes>
    requires TypedSlot(f, s)
    decreases s
  {
    match f.htype
    case Required => Tagged(f, EncItem(f, s.value))
    case Optional(hasFlag) =>
      if hasFlag then (if s.has then Tagged(f, EncItem(f, s.stored)) else Some([]))
      else if IsZero(f, s.value) then Some([]) else Tagged(f, EncItem(f, s.value))
    case Repeated(_) => EncArray(f, s.items)
    case OneOf(_) => if s.member.Some? then Tagged(f, EncItem(f, s.member.value)) else Some([])
  }

  // The fields from the i-th on.
  function EncFrom(fields: seq<Field>, slots: seq<Slot>, i: nat): Option<Bytes>
    requires Typed(fields, slots) && i <= |fields|
    decreases slots, |slots| - i
  {
    if i == |fields| then Some([]) else Concat(EncSlot(fields[i], slots[i]), EncFrom(fields, slots, i + 1))
  }

  // ----- The output stream -----

  datatype Status = Ok | StreamFull | ArraySizeExceeded | BytesSizeExceeded | InvalidDataSize | SizeChanged

  // From (out0, written0), exactly e has been written or counted, or it cannot be.
  ghost predicate Emits(sizing: bool, maxSize: nat, out0: Bytes, written0: nat, e: Option<Bytes>, st: Status, out: Bytes, written: nat) {
    && (!sizing ==> written <= maxSize)
    && (st.Ok? <==> e.Some? && (sizing || written0 + |e.value| <= maxSize))
    && (st.Ok? ==> written == written0 + |e.value| && out == if sizing then out0 else out0 + e.value)
    && (sizing ==> out == out0) && st != SizeChanged
  }

  // One piece after another, the last of which may fail.
  lemma Then(sizing: bool, maxSize: nat, out0: Bytes, written0: nat, a: Option<Bytes>, out1: Bytes, written1: nat,
      b: Option<Bytes>, st: Status, out2: Bytes, written2: nat, rest: Option<Bytes>)
    requires Emits(sizing, maxSize, out0, written0, a, Ok, out1, written1) && Emits(sizing, maxSize, out1, written1, b, st, out2, written2)
    ensures Emits(sizing, maxSize, out0, written0, Concat(a, b), st, out2, written2)
    ensures !st.Ok? ==> Emits(sizing, maxSize, out0, written0, Concat(a, Concat(b, rest)), st, out2, written2)
  {
    if b.Some? { assert out0 + a.value + b.value == out0 + (a.value + b.value); }
  }

  lemma ConcatAssoc(a: Option<Bytes>, b: Option<Bytes>, c: Option<Bytes>)
    ensures Concat(Concat(a, b), c) == Concat(a, Concat(b, c)) && Concat(Some([]), a) == a && Concat(a, Some([])) == a
  {
    if a.Some? { assert [] + a.value == a.value && a.value + [] == a.value; }
    if a.Some? && b.Some? && c.Some? { assert a.value + b.value + c.value == a.value + (b.value + c.value); }
  }

  // Shifted right by seven bits, and a byte without its mark.
  function Shifted(v: nat): nat { v / 128 }

  function Unmarked(b: Byte): Byte { b % 128 }

  // The next byte of a varint, and what the last one's mark hides.
  lemma NextByte(v: nat, head: Bytes, value: nat, left: nat)
    requires 0 < value < Pow128(left) && Codings.Varint(v) == head + Codings.Varint(value)
    ensures left > 0 && Shifted(value) < Pow128(left - 1)
    ensures Codings.Varint(v) == if Shifted(value) > 0 then head + [More(value)] + Codings.Varint(Shifted(value)) else head + [Unmarked(More(value))]
  {
  }

  class OStream {
    const sizing: bool    // count only
    var out: Bytes        // the buffer as far as it has been written
    const maxSize: nat
    var written: nat

    ghost predicate Valid() reads this { !sizing ==> written <= maxSize }

    constructor Sizing()
      ensures Valid() && sizing && written == 0
    {
      sizing, out, maxSize, written := true, [], 0, 0;
    }

    constructor (out: Bytes, maxSize: nat)
      ensures Valid() && !sizing && this.out == out && this.maxSize == maxSize && written == 0
    {
      sizing, this.out, this.maxSize, written := false, out, maxSize, 0;
    }

    method Write(b: Bytes) returns (st: Status)
      requires Valid()
      modifies this
      ensures Valid() && Emits(sizing, maxSize, old(out), old(written), Some(b), st, out, written)
    {
      if |b| > 0 && !sizing {
        if written + |b| > maxSize {
          return StreamFull;
        }
        out := out + b;
      }
      written := written + |b|;
      assert out == if sizing then old(out) else old(out) + b;
      st := Ok;
    }

    // Seven bits a byte, all marked as continued; then the last one's mark is cleared.
    method EncodeVarint(v: nat) returns (st: Status)
      requires Valid() && v < TWO_64
      modifies this
      ensures Valid() && Emits(sizing, maxSize, old(out), old(written), Some(Codings.Varint(v)), st, out, written)
    {
      if v <= 0x7F {
        st := Write([v as Byte]);
        return;
      }
      hide Codings.Varint, Pow128, Emits, More, Shifted, Unmarked;
      var buffer: array<Byte> := new Byte[10];
      var i: nat, value: nat := 0, v;
      VarintWidths();
      while value != 0
        invariant fresh(buffer) && Valid() && out == old(out) && written == old(written)
        invariant i <= 10 && value < Pow128(10 - i)
        invariant value > 0 ==> Codings.Varint(v) == buffer[..i] + Codings.Varint(value)
        invariant value == 0 ==> i > 0 && Codings.Varint(v) == buffer[..i - 1] + [Unmarked(buffer[i - 1])]
      {
        NextByte(v, buffer[..i], value, 10 - i);
        ghost var was := buffer[..i];
        buffer[i] := More(value);
        assert buffer[..i] == was && buffer[..i + 1] == was + [More(value)];
        value := Shifted(value);
        i := i + 1;
      }
      ghost var head := buffer[..i - 1];
      buffer[i - 1] := Unmarked(buffer[i - 1]);
      assert buffer[..i] == head + [buffer[i - 1]];
      st := Write(buffer[..i]);
    }

    method EncodeTag(wireType: nat, tag: nat) returns (st: Status)
      requires Valid() && tag < MAX_TAG && wireType < 8
      modifies this
      ensures Valid() && Emits(sizing, maxSize, old(out), old(written), Some(Tag(wireType, tag)), st, out, written)
    {
      st := EncodeVarint(tag * 8 + wireType);
    }

    method EncodeString(b: Bytes) returns (st: Status)
      requires Valid()
      modifies this
      ensures Valid() && Emits(sizing, maxSize, old(out), old(written), Some(Lengthed(b)), st, out, written)
    {
      hide Emits, Codings.Varint;
      st := EncodeVarint(Wrap64(|b|));
      ghost var o, w := out, written;
      ghost var e := Some(Codings.Varint(Wrap64(|b|)));
      if st != Ok {
        Refused(sizing, maxSize, old(out), old(written), e, st, o, w, Some(b));
        return;
      }
      st := Write(b);
      Then(sizing, maxSize, old(out), old(written), e, o, w, Some(b), st, out, written, Some([]));
    }

    // The encoder functions
    method EncodeItem(f: Field, v: Value) returns (st: Status)
      requires Valid() && TypedItem(f, v) && GoodField(f)
      modifies this
      ensures Valid() && Emits(sizing, maxSize, old(out), old(written), EncItem(f, v), st, out, written)
      decreases v, 1
    {
      hide Emits;
      match f.ltype
      case Bool =>
        BoolFits(v.n);
        st := EncodeVarint(v.n);
      case Varint =>
        st := EncodeInt(f, Wrap64(v.n));
      case Uvarint =>
        st := EncodeInt(f, Wrap64(v.n));
      case Svarint =>
        st := EncodeInt(f, Wrap64(Zigzag(Signed(f, v))));
      case Fixed32 =>
        st := Write(Fixed(v.n, 4));
      case Fixed64 =>
        st := Write(Fixed(v.n, 8));
      case BytesArray =>
        if |v.b| + BYTES_HEADER > f.dataSize {
          st := BytesSizeExceeded;
          NoBytes(sizing, maxSize, out, written, st);
          return;
        }
        st := EncodeString(v.b);
      case CString =>
        var size := 0;
        while size < |v.b| && v.b[size] != 0
          invariant unchanged(this) && size <= StrLen(v.b)
        {
          size := size + 1;
        }
        st := EncodeString(v.b[..size]);
      case FixedLengthBytes =>
        st := EncodeString(v.b);
      case Submessage(fs) =>
        st := EncodeSubmessage(fs, v.slots);
    }

    method EncodeInt(f: Field, n: nat) returns (st: Status)
      requires Valid() && n < TWO_64
      modifies this
      ensures Valid() && Emits(sizing, maxSize, old(out), old(written), Sized(f, n), st, out, written)
    {
      if !IntSize(f.dataSize) {
        return InvalidDataSize;
      }
      st := EncodeVarint(n);
    }

    /** The size is counted by one pass and written ahead of the other: the two passes never disagree. */
    method EncodeSubmessage(fields: seq<Field>, slots: seq<Slot>) returns (st: Status)
      requires Valid() && Typed(fields, slots) && GoodFields(fields)
      modifies this
      ensures Valid() && Emits(sizing, maxSize, old(out), old(written), Prefixed(EncFrom(fields, slots, 0)), st, out, written)
      decreases slots, |slots| + 2
    {
      hide EncFrom, Typed;
      ghost var e := EncFrom(fields, slots, 0);
      var counter := new OStream.Sizing();
      st := counter.EncodeMessage(fields, slots);
      if st != Ok {
        return;
      }
      var size := counter.written;
      ghost var lead := Codings.Varint(Wrap64(size));
      st := EncodeVarint(Wrap64(size));
      if st != Ok {
        return;
      }
      if sizing {
        written := written + size;
        return;
      }
      if written + size > maxSize {
        return StreamFull;
      }
      ghost var o := out;
      var sub := new OStream(out, size);
      st := sub.EncodeMessage(fields, slots);
      written := written + sub.written;
      out := sub.out;
      if sub.written != size {
        st := SizeChanged;
      }
      assert old(out) + lead + e.value == old(out) + (lead + e.value);
    }

    method EncodeMessage(fields: seq<Field>, slots: seq<Slot>) returns (st: Status)
      requires Valid() && Typed(fields, slots) && GoodFields(fields)
      modifies this
      ensures Valid() && Emits(sizing, maxSize, old(out), old(written), EncFrom(fields, slots, 0), st, out, written)
      decreases slots, |slots| + 1
    {
      hide Emits, EncSlot, EncFrom, TypedSlot, Concat;
      var iter := new FieldIter(fields);
      var more := iter.Begin();
      st := Ok;
      NothingYet(sizing, maxSize, out, written, fields, slots);
      ghost var i, done := 0, Some([]);
      while more
        invariant iter.Valid() && fresh(iter) && iter.fields == fields && Valid() && st == Ok
        invariant i <= |fields| && if more then iter.pos == i < |fields| else i == |fields|
        invariant Emits(sizing, maxSize, old(out), old(written), done, Ok, out, written)
        invariant Concat(done, EncFrom(fields, slots, i)) == EncFrom(fields, slots, 0)
        decreases |fields| - i
      {
        ghost var o, w := out, written;
        var f, s := fields[iter.pos], slots[iter.pos];
        st := EncodeField(f, s);
        ghost var rest := EncFrom(fields, slots, i + 1);
        Then(sizing, maxSize, old(out), old(written), done, o, w, EncSlot(f, s), st, out, written, rest);
        OneField(fields, slots, i, done);
        if st != Ok {
          return;
        }
        done := Concat(done, EncSlot(f, s));
        i := i + 1;
        more := iter.Next();
      }
      AllFields(fields, slots, done);
    }

    // encode_basic_field
    method EncodeField(f: Field, s: Slot) returns (st: Status)
      requires Valid() && TypedSlot(f, s) && GoodField(f)
      modifies this
      ensures Valid() && Emits(sizing, maxSize, old(out), old(written), EncSlot(f, s), st, out, written)
      decreases s, 1
    {
      hide Emits, EncItem, TypedItem, IsZero, EncArray;
      match f.htype
      case Required =>
        st := EncodeTagged(f, s.value);
      case Optional(hasFlag) =>
        var has := if hasFlag then s.has else !IsZero(f, s.value);
        if has {
          st := EncodeTagged(f, if hasFlag then s.stored else s.value);
        } else {
          st := Ok;
          Nothing(sizing, maxSize, out, written);
        }
      case Repeated(_) =>
        st := EncodeArray(f, s.items);
      case OneOf(_) =>
        if s.member.Some? {
          st := EncodeTagged(f, s.member.value);
        } else {
          st := Ok;
          Nothing(sizing, maxSize, out, written);
        }
    }

    method EncodeTagged(f: Field, v: Value) returns (st: Status)
      requires Valid() && TypedItem(f, v) && GoodField(f)
      modifies this
      ensures Valid() && Emits(sizing, maxSize, old(out), old(written), Tagged(f, EncItem(f, v)), st, out, written)
      decreases v, 2
    {
      hide Emits, EncItem, TypedItem;
      ghost var t := Some(Tag(WireType(f.ltype), f.tag));
      st := EncodeTag(WireType(f.ltype), f.tag);
      if st != Ok {
        Refused(sizing, maxSize, old(out), old(written), t, st, out, written, EncItem(f, v));
        return;
      }
      ghost var o, w := out, written;
      st := EncodeItem(f, v);
      Then(sizing, maxSize, old(out), old(written), t, o, w, EncItem(f, v), st, out, written, Some([]));
    }

    method EncodeItems(f: Field, items: seq<Value>, packed: bool) returns (st: Status)
      requires Valid() && (forall v :: v in items ==> TypedItem(f, v)) && GoodField(f)
      modifies this
      ensures Valid() && Emits(sizing, maxSize, old(out), old(written), EncItems(f, items, 0, packed), st, out, written)
      decreases items, |items| + 1
    {
      hide Emits, EncItem, EncItems, TypedItem, Concat, Tagged;
      st := Ok;
      NoItemYet(sizing, maxSize, out, written, f, items, packed);
      ghost var done := Some([]);
      for i := 0 to |items|
        invariant Valid() && st == Ok
        invariant Emits(sizing, maxSize, old(out), old(written), done, Ok, out, written)
        invariant Concat(done, EncItems(f, items, i, packed)) == EncItems(f, items, 0, packed)
      {
        ghost var o, w := out, written;
        if packed {
          st := EncodeItem(f, items[i]);
        } else {
          st := EncodeTagged(f, items[i]);
        }
        ghost var e := if packed then EncItem(f, items[i]) else Tagged(f, EncItem(f, items[i]));
        Then(sizing, maxSize, old(out), old(written), done, o, w, e, st, out, written, EncItems(f, items, i + 1, packed));
        OneItem(f, items, i, packed, done);
        if st != Ok {
          return;
        }
        done := Concat(done, e);
      }
      AllItems(f, items, packed, done);
    }

    method EncodeArray(f: Field, items: seq<Value>) returns (st: Status)
      requires Valid() && (forall v :: v in items ==> TypedItem(f, v)) && GoodField(f)
      modifies this
      ensures Valid() && Emits(sizing, maxSize, old(out), old(written), EncArray(f, items), st, out, written)
      decreases items, |items| + 3
    {
      hide EncItems, EncItem, TypedItem;
      var count := |items|;
      if count == 0 {
        return Ok;
      }
      if count > f.arraySize {
        return ArraySizeExceeded;
      }
      if Packable(f.ltype) {
        st := EncodePacked(f, items);
      } else {
        st := EncodeItems(f, items, false);
      }
    }

    method EncodePacked(f: Field, items: seq<Value>) returns (st: Status)
      requires Valid() && (forall v :: v in items ==> TypedItem(f, v)) && Packable(f.ltype) && GoodField(f)
      modifies this
      ensures Valid() && Emits(sizing, maxSize, old(out), old(written), Concat(Some(Tag(WT_STRING, f.tag)), Prefixed(EncItems(f, items, 0, true))), st, out, written)
      decreases items, |items| + 2
    {
      hide EncItems, EncItem, TypedItem, Codings.Varint, Tag;
      ghost var e := EncItems(f, items, 0, true);
      ghost var t := Tag(WT_STRING, f.tag);
      st := EncodeTag(WT_STRING, f.tag);
      if st != Ok {
        return;
      }
      var size: nat;
      if f.ltype.Fixed32? || f.ltype.Fixed64? {
        size := (if f.ltype.Fixed32? then 4 else 8) * |items|;
        FixedSizes(f, items, 0);
      } else {
        var counter := new OStream.Sizing();
        st := counter.EncodeItems(f, items, true);
        if st != Ok {
          return;
        }
        size := counter.written;
      }
      ghost var lead := Codings.Varint(Wrap64(size));
      st := EncodeVarint(Wrap64(size));
      if st != Ok {
        return;
      }
      if sizing {
        written := written + size;
        return;
      }
      ghost var o := out;
      st := EncodeItems(f, items, true);
      assert old(out) + t + lead + e.value == old(out) + (t + (lead + e.value));
    }
  }

  /** pb_get_encoded_size */
  method GetEncodedSize(fields: seq<Field>, slots: seq<Slot>) returns (size: Option<nat>)
    requires Typed(fields, slots) && GoodFields(fields)
    ensures size == match EncFrom(fields, slots, 0) case None => None case Some(e) => Some(|e|)
  {
    var stream := new OStream.Sizing();
    var st := stream.EncodeMessage(fields, slots);
    size := if st == Ok then Some(stream.written) else None;
  }

  lemma Nothing(sizing: bool, maxSize: nat, out: Bytes, written: nat)
    requires !sizing ==> written <= maxSize
    ensures Emits(sizing, maxSize, out, written, Some([]), Ok, out, written)
  {
  }

  lemma NothingYet(sizing: bool, maxSize: nat, out: Bytes, written: nat, fields: seq<Field>, slots: seq<Slot>)
    requires (!sizing ==> written <= maxSize) && Typed(fields, slots)
    ensures Emits(sizing, maxSize, out, written, Some([]), Ok, out, written)
    ensures Concat(Some([]), EncFrom(fields, slots, 0)) == EncFrom(fields, slots, 0)
  {
    ConcatAssoc(EncFrom(fields, slots, 0), None, None);
  }

  lemma OneField(fields: seq<Field>, slots: seq<Slot>, i: nat, done: Option<Bytes>)
    requires Typed(fields, slots) && i < |fields| && Concat(done, EncFrom(fields, slots, i)) == EncFrom(fields, slots, 0)
    ensures Concat(Concat(done, EncSlot(fields[i], slots[i])), EncFrom(fields, slots, i + 1)) == EncFrom(fields, slots, 0)
    ensures Concat(done, Concat(EncSlot(fields[i], slots[i]), EncFrom(fields, slots, i + 1))) == EncFrom(fields, slots, 0)
  {
    ConcatAssoc(done, EncSlot(fields[i], slots[i]), EncFrom(fields, slots, i + 1));
  }

  lemma AllFields(fields: seq<Field>, slots: seq<Slot>, done: Option<Bytes>)
    requires Typed(fields, slots)
    ensures Concat(done, EncFrom(fields, slots, |fields|)) == done
  {
    ConcatAssoc(None, done, None);
    ConcatAssoc(done, None, None);
  }

  lemma NoItemYet(sizing: bool, maxSize: nat, out: Bytes, written: nat, f: Field, items: seq<Value>, packed: bool)
    requires (!sizing ==> written <= maxSize) && forall v :: v in items ==> TypedItem(f, v)
    ensures Emits(sizing, maxSize, out, written, Some([]), Ok, out, written)
    ensures Concat(Some([]), EncItems(f, items, 0, packed)) == EncItems(f, items, 0, packed)
  {
    ConcatAssoc(EncItems(f, items, 0, packed), None, None);
  }

  lemma OneItem(f: Field, items: seq<Value>, i: nat, packed: bool, done: Option<Bytes>)
    requires (forall v :: v in items ==> TypedItem(f, v)) && i < |items|
    requires Concat(done, EncItems(f, items, i, packed)) == EncItems(f, items, 0, packed)
    ensures var e := if packed then EncItem(f, items[i]) else Tagged(f, EncItem(f, items[i])); var rest := EncItems(f, items, i + 1, packed);
      && Concat(Concat(done, e), rest) == EncItems(f, items, 0, packed)
      && Concat(done, Concat(e, rest)) == EncItems(f, items, 0, packed)
  {
    ConcatAssoc(done, if packed then EncItem(f, items[i]) else Tagged(f, EncItem(f, items[i])), EncItems(f, items, i + 1, packed));
  }

  lemma AllItems(f: Field, items: seq<Value>, packed: bool, done: Option<Bytes>)
    requires forall v :: v in items ==> TypedItem(f, v)
    ensures Concat(done, EncItems(f, items, |items|, packed)) == done
  {
    ConcatAssoc(done, None, None);
  }

  lemma {:induction false} FixedSizes(f: Field, items: seq<Value>, j: nat)
    requires (f.ltype.Fixed32? || f.ltype.Fixed64?) && j <= |items| && forall v :: v in items ==> TypedItem(f, v)
    ensures EncItems(f, items, j, true).Some? && |EncItems(f, items, j, true).value| == (if f.ltype.Fixed32? then 4 else 8) * (|items| - j)
    decreases |items| - j
  {
    if j < |items| { FixedSizes(f, items, j + 1); }
  }
  lemma BoolFits(n: int)
    ensures 0 <= n <= 1 ==> n < TWO_64
  {
  }

  lemma NoBytes(sizing: bool, maxSize: nat, out: Bytes, written: nat, st: Status)
    requires !st.Ok? && st != SizeChanged && (!sizing ==> written <= maxSize)
    ensures Emits(sizing, maxSize, out, written, None, st, out, written)
  {
  }

  // What follows a refused piece makes no difference.
  lemma Refused(sizing: bool, maxSize: nat, out0: Bytes, written0: nat, e: Option<Bytes>, st: Status, out: Bytes, written: nat, rest: Option<Bytes>)
    requires Emits(sizing, maxSize, out0, written0, e, st, out, written) && !st.Ok?
    ensures Emits(sizing, maxSize, out0, written0, Concat(e, rest), st, out, written)
  {
  }
}
