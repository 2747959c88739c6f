/** Decoding an encoded message gives the message back, up to absent fields, exactly when its strings are terminated. */
module PbRoundTrips {
  import opened Codings
  import opened PbDecoding
  import opened PbEncoding
  import opened PbMessages
  import opened Versions

  // ----- What comes back: absent fields have their defaults, strings end at their terminator -----

  function RestoredItem(f: Field, v: Value): Value
    requires TypedItem(f, v)
    decreases v
  {
    match f.ltype
    case CString => Blob(v.b[..StrLen(v.b)])
    case Submessage(fs) => Message(Restored(fs, v.slots))
    case _ => v
  }

  function RestoredSlot(f: Field, s: Slot): Slot
    requires TypedSlot(f, s)
    decreases s
  {
    match f.htype
    case Required => One(RestoredItem(f, s.value))
    case Optional(hasFlag) => if !hasFlag then One(RestoredItem(f, s.value)) else if s.has then Maybe(true, RestoredItem(f, s.stored)) else DefaultSlot(f)
    case Repeated(_) => Many(seq(|s.items|, i requires 0 <= i < |s.items| => RestoredItem(f, s.items[i])))
    case OneOf(_) => if s.member.Some? then Choice(Some(RestoredItem(f, s.member.value))) else s
  }

  function Restored(fields: seq<Field>, slots: seq<Slot>): (r: seq<Slot>)
    requires Typed(fields, slots)
    ensures |r| == |fields|
    decreases slots
  {
    seq(|slots|, i requires 0 <= i < |slots| => RestoredSlot(fields[i], slots[i]))
  }

  // ----- Terminated strings, wherever a field is sent -----

  predicate EndsItem(f: Field, v: Value)
    requires TypedItem(f, v)
    decreases v
  {
    match f.ltype
    case CString => StrLen(v.b) < f.dataSize
    case Submessage(fs) => Ends(fs, v.slots, 0)
    case _ => true
  }

  predicate EndsSlot(f: Field, s: Slot)
    requires TypedSlot(f, s)
    decreases s
  {
    match f.htype
    case Required => EndsItem(f, s.value)
    case Optional(hasFlag) => if hasFlag then (s.has ==> EndsItem(f, s.stored)) else !IsZero(f, s.value) ==> EndsItem(f, s.value)
    case Repeated(_) => EndsItems(f, s.items, 0)
    case OneOf(_) => s.member.Some? ==> EndsItem(f, s.member.value)
  }

  predicate EndsItems(f: Field, items: seq<Value>, j: nat)
    requires forall v :: v in items ==> TypedItem(f, v)
    decreases items
  {
    forall k :: j <= k < |items| ==> EndsItem(f, items[k])
  }

  // The fields from the i-th on.
  predicate Ends(fields: seq<Field>, slots: seq<Slot>, i: nat)
    requires Typed(fields, slots)
    decreases slots
  {
    forall k :: i <= k < |slots| ==> EndsSlot(fields[k], slots[k])
  }

  // ----- Integers -----

  lemma {:induction false} OrNothing(b: nat)
    ensures OrBits(0, b) == b && OrBits(b, 0) == b
  {
    if b > 0 { OrNothing(b / 2); }
  }

  lemma {:induction false} OrDisjoint(a: nat, w: nat, k: nat)
    requires a < Pow2(k)
    ensures OrBits(a, w * Pow2(k)) == a + w * Pow2(k)
    decreases k
  {
    if k == 0 {
      OrNothing(w);
    } else {
      OrDisjoint(a / 2, w, k - 1);
      var b := w * Pow2(k - 1);
      assert w * Pow2(k) == 2 * b by { Twice(w, Pow2(k - 1)); }
      assert 2 * b / 2 == b && 2 * b % 2 == 0;
      if a == 0 && b == 0 {} else { assert OrBits(a, 2 * b) == 2 * OrBits(a / 2, b) + a % 2; }
    }
  }

  lemma Twice(w: nat, p: nat)
    ensures w * (2 * p) == 2 * (w * p)
  {
  }

  lemma {:induction false} Pow2Grows(a: nat, b: nat)
    requires a <= b
    ensures Pow2(a) <= Pow2(b)
  {
    if a < b { Pow2Grows(a, b - 1); }
  }

  lemma Pow2s()
    ensures Pow2(7) == 128 && Pow2(28) == 0x1000_0000 && Pow2(32) == TWO_32
  {
    assert Pow2(4) == 16 && Pow2(8) == 256;
    assert Pow2(12) == 4096 && Pow2(16) == 0x1_0000;
    assert Pow2(20) == 0x10_0000 && Pow2(24) == 0x100_0000;
  }

  lemma More32Last(w: nat, bitpos: nat)
    requires 0 < w && bitpos < 32 && bitpos % 7 == 0 && w * Pow2(bitpos) < TWO_32
    ensures bitpos == 28 ==> w < 16
    ensures w >= 128 ==> bitpos + 7 < 32
  {
    Pow2s();
  }

  lemma More32Step(b: Byte, tail: Bytes, result: nat, bitpos: nat)
    requires bitpos < 32 && result < Pow2(bitpos) && result + (b % 128) as nat * Pow2(bitpos) < TWO_32
    ensures var next := result + (b % 128) as nat * Pow2(bitpos);
      More32([b] + tail, result, bitpos) ==
        if b >= 128 then More32(tail, next, bitpos + 7) else if bitpos == 28 && b >= 16 then Failed(false) else Got(next, tail)
  {
    hide OrBits, Pow2;
    assert ([b] + tail)[1..] == tail;
    var d := (b % 128) as nat;
    OrFits(result, d, bitpos);
    HighBits(b);
    assert d * Pow2(bitpos) % TWO_32 == d * Pow2(bitpos);
  }

  lemma OrFits(result: nat, d: nat, bitpos: nat)
    requires result < Pow2(bitpos) && result + d * Pow2(bitpos) < TWO_32
    ensures Or32(result, d * Pow2(bitpos)) == result + d * Pow2(bitpos)
    ensures 0 <= d * Pow2(bitpos) < TWO_32
  {
    hide OrBits, Pow2;
    OrDisjoint(result, d, bitpos);
  }

  lemma HighBits(b: Byte)
    ensures b < 128 ==> (b / 16 % 8 != 0 <==> b >= 16)
  {
  }

  lemma {:induction false} More32Inverts(w: nat, result: nat, bitpos: nat, rest: Bytes)
    requires 0 < w && bitpos < 32 && bitpos % 7 == 0 && result < Pow2(bitpos) && result + w * Pow2(bitpos) < TWO_32
    ensures More32(Codings.Varint(w) + rest, result, bitpos) == Got(result + w * Pow2(bitpos), rest)
    decreases w
  {
    hide More32, Pow2, Codings.Varint;
    var p := Pow2(bitpos);
    Split128(w, p);
    More32Last(w, bitpos);
    VarintShape(w, rest);
    if w < 128 {
      More32Step(w as Byte, rest, result, bitpos);
    } else {
      var d := w % 128;
      More32Step((d + 128) as Byte, Codings.Varint(w / 128) + rest, result, bitpos);
      Pow2Seven(bitpos);
      Digit(result, d, p);
      More32Inverts(w / 128, result + d * p, bitpos + 7, rest);
    }
  }

  lemma VarintShape(w: nat, rest: Bytes)
    ensures Codings.Varint(w) + rest == if w < 128 then [w as Byte] + rest else [(w % 128 + 128) as Byte] + (Codings.Varint(w / 128) + rest)
  {
  }

  lemma Split128(w: nat, p: nat)
    ensures w * p == (w % 128) * p + (w / 128) * (128 * p) && (w % 128) * p <= w * p
  {
    var q, d := w / 128, w % 128;
    assert w == d + 128 * q;
    assert w * p == d * p + 128 * q * p;
    assert 128 * q * p == q * (128 * p);
  }

  lemma Digit(result: nat, d: nat, p: nat)
    requires result < p && d < 128
    ensures result + d * p < 128 * p
  {
    assert d * p <= 127 * p;
  }

  lemma Varint32Inverts(v: nat, rest: Bytes)
    requires v < TWO_32
    ensures Varint32(Codings.Varint(v) + rest) == Got(v, rest)
  {
    hide More32, Pow2, Codings.Varint;
    VarintShape(v, rest);
    if v < 128 {
      assert ([v as Byte] + rest)[1..] == rest;
    } else {
      Pow2s();
      var tail := Codings.Varint(v / 128) + rest;
      assert ([(v % 128 + 128) as Byte] + tail)[1..] == tail;
      More32Inverts(v / 128, v % 128, 7, rest);
    }
  }

  lemma Varint64Inverts(v: nat, rest: Bytes)
    requires v < TWO_64
    ensures Varint64(Codings.Varint(v) + rest) == Got(v, rest)
  {
    Varint64RoundTrip(v, rest);
  }

  lemma TagInverts(wireType: nat, tag: nat, rest: Bytes)
    requires wireType < 8 && 0 < tag < MAX_TAG
    ensures DecodeTag(Tag(wireType, tag) + rest) == Got(Key(tag, wireType), rest)
  {
    hide Codings.Varint, Varint32;
    Varint32Inverts(tag * 8 + wireType, rest);
    assert (tag * 8 + wireType) / 8 == tag && (tag * 8 + wireType) % 8 == wireType;
  }

  lemma ToSignedIs(n: int, size: nat)
    requires IntSize(size) && InSigned(n, size)
    ensures ToSigned(n, size) == n && ToSigned(Wrap64(n), size) == n
    ensures InSigned(n, 8) && (size <= 4 ==> InSigned(n, 4))
  {
    HalfPow(size);
    HalfPow(8);
    hide Pow256, Wrap64;
    Wraps(n);
    WrapIs(n);
    if size == 1 {} else if size == 2 {} else if size == 4 {} else {}
  }

  lemma WrapIs(n: int)
    requires -0x8000_0000_0000_0000 <= n < 0x8000_0000_0000_0000
    ensures Wrap64(n) == if n < 0 then n + TWO_64 else n
  {
    Wraps(n);
  }

  lemma Wraps(n: int)
    ensures -0x80 <= n < 0 ==> (n + TWO_64) % 0x100 == n + 0x100 == n % 0x100
    ensures -0x8000 <= n < 0 ==> (n + TWO_64) % 0x1_0000 == n + 0x1_0000 == n % 0x1_0000
    ensures -0x8000_0000 <= n < 0 ==> (n + TWO_64) % TWO_32 == n + TWO_32 == n % TWO_32
    ensures -0x8000_0000_0000_0000 <= n < 0 ==> (n + TWO_64) % TWO_64 == n + TWO_64 == n % TWO_64
  {
  }

  lemma ZigzagInverts(n: int)
    requires InSigned(n, 8)
    ensures var z := Zigzag(n); z < TWO_64 && ToSigned(if z % 2 == 1 then TWO_64 - 1 - z / 2 else z / 2, 8) == n
  {
    ZigzagIs(n);
    HalfPow(8);
    ToSignedIs(n, 8);
    if n < 0 {
      assert Wrap64(n) == n + TWO_64;
      assert Zigzag(n) == 2 * (-n - 1) + 1;
    }
  }

  lemma IntInverts(f: Field, v: Value, rest: Bytes)
    requires (f.ltype.Varint? || f.ltype.Uvarint? || f.ltype.Svarint?) && TypedItem(f, v) && IntSize(f.dataSize)
    ensures DecodeInt(f, EncItem(f, v).value + rest) == Got(v, rest)
  {
    hide Codings.Varint, Varint64, Pow256, Zigzag, ToSigned;
    match f.ltype
    case Uvarint =>
      UnsignedFits(v.n, f.dataSize);
      Varint64Inverts(v.n, rest);
    case Svarint =>
      ToSignedIs(v.n, f.dataSize);
      ZigzagInverts(v.n);
      Varint64Inverts(Zigzag(v.n), rest);
    case Varint =>
      ToSignedIs(v.n, f.dataSize);
      ToSignedIs(v.n, if f.dataSize == 8 then 8 else 4);
      Varint64Inverts(Wrap64(v.n), rest);
  }

  lemma UnsignedFits(n: int, size: nat)
    requires IntSize(size) && InUnsigned(n, size)
    ensures 0 <= n < TWO_64 && n % Pow256(size) == n
  {
    HalfPow(size);
  }

  lemma LengthedInverts(b: Bytes, rest: Bytes)
    requires |b| < TWO_32
    ensures Varint32(Lengthed(b) + rest) == Got(|b|, b + rest)
    ensures Take(b + rest, |b|) == Got(b, rest) && (b + rest)[..|b|] == b && (b + rest)[|b|..] == rest
  {
    assert Lengthed(b) + rest == Codings.Varint(Wrap64(|b|)) + (b + rest);
    Varint32Inverts(|b|, b + rest);
  }

  lemma BlobInverts(f: Field, b: Bytes, rest: Bytes)
    requires |b| < TWO_32 && f.dataSize < TWO_32 && (f.ltype.CString? || f.ltype.BytesArray? || f.ltype.FixedLengthBytes?)
    requires if f.ltype.BytesArray? then |b| + BYTES_HEADER <= f.dataSize else f.ltype.FixedLengthBytes? ==> |b| == f.dataSize
    ensures DecodeBlob(f, Lengthed(b) + rest) == if f.ltype.CString? && |b| >= f.dataSize then Failed(false) else Got(Blob(b), rest)
  {
    LengthedInverts(b, rest);
    if |b| == 0 { assert b == Zeros(0); }
  }

  lemma ScalarInverts(f: Field, v: Value, rest: Bytes)
    requires GoodField(f) && !f.ltype.Submessage? && TypedItem(f, v) && EncItem(f, v).Some? && |EncItem(f, v).value| < TWO_32
    ensures DecodeScalar(f, EncItem(f, v).value + rest) == if EndsItem(f, v) then Got(RestoredItem(f, v), rest) else Failed(false)
  {
    hide Codings.Varint, Varint32, Pow256, DecodeInt, DecodeBlob, Zigzag;
    var e := EncItem(f, v).value;
    match f.ltype
    case Bool =>
      Varint32Inverts(v.n, rest);
    case Fixed32 =>
      FixedRoundTrip(v.n, 4);
      assert (e + rest)[..4] == e && (e + rest)[4..] == rest;
    case Fixed64 =>
      FixedRoundTrip(v.n, 8);
      assert (e + rest)[..8] == e && (e + rest)[8..] == rest;
    case BytesArray =>
      BlobInverts(f, v.b, rest);
    case CString =>
      var b := v.b[..StrLen(v.b)];
      BlobInverts(f, b, rest);
    case FixedLengthBytes =>
      BlobInverts(f, v.b, rest);
    case _ =>
      IntInverts(f, v, rest);
  }

  // ----- Absent fields -----

  predicate Absent(f: Field, s: Slot)
    requires TypedSlot(f, s)
  {
    match f.htype
    case Required => false
    case Optional(hasFlag) => if hasFlag then !s.has else IsZero(f, s.value)
    case Repeated(_) => s.items == []
    case OneOf(_) => s.member.None?
  }

  lemma {:induction false} ZeroIsDefault(f: Field, v: Value)
    requires GoodField(f) && TypedItem(f, v) && IsZero(f, v) && f.init.None?
    ensures RestoredItem(f, v) == DefaultItem(f)
    decreases v
  {
    match f.ltype
    case Submessage(fs) => DefaultIsDefaults(fs, v.slots);
    case _ =>
  }

  lemma {:induction false} DefaultIsDefaults(fields: seq<Field>, slots: seq<Slot>)
    requires GoodFields(fields) && Typed(fields, slots) && AllDefault(fields, slots)
    ensures Restored(fields, slots) == Defaults(fields)
    decreases slots
  {
    forall i | 0 <= i < |slots| ensures RestoredSlot(fields[i], slots[i]) == DefaultSlot(fields[i]) {
      var f, s := fields[i], slots[i];
      assert f in fields && IsDefault(f, s) && TypedSlot(f, s);
      SlotIsDefault(f, slots[i]);
    }
  }

  lemma {:induction false} SlotIsDefault(f: Field, s: Slot)
    requires GoodField(f) && TypedSlot(f, s) && IsDefault(f, s)
    ensures RestoredSlot(f, s) == DefaultSlot(f)
    decreases s
  {
    if f.htype == Optional(false) { ZeroIsDefault(f, s.value); }
  }

  lemma AbsentIsDefault(f: Field, s: Slot)
    requires GoodField(f) && TypedSlot(f, s) && Absent(f, s)
    ensures EncSlot(f, s) == Some([]) && RestoredSlot(f, s) == DefaultSlot(f) && EndsSlot(f, s)
  {
    if f.htype == Optional(false) { ZeroIsDefault(f, s.value); }
  }

  // ----- What is restored is typed -----

  lemma {:induction false} RestoredItemTyped(f: Field, v: Value)
    requires GoodField(f) && TypedItem(f, v)
    ensures TypedItem(f, RestoredItem(f, v))
    decreases v
  {
    match f.ltype
    case Submessage(fs) => RestoredTyped(fs, v.slots);
    case _ =>
  }

  lemma {:induction false} RestoredSlotTyped(f: Field, s: Slot)
    requires GoodField(f) && TypedSlot(f, s)
    ensures TypedSlot(f, RestoredSlot(f, s))
    decreases s
  {
    match f.htype
    case Required => RestoredItemTyped(f, s.value);
    case Optional(hasFlag) =>
      DefaultItemTyped(f);
      RestoredItemTyped(f, if hasFlag then s.stored else s.value);
    case Repeated(_) =>
      forall j | 0 <= j < |s.items| ensures TypedItem(f, RestoredItem(f, s.items[j])) { RestoredItemTyped(f, s.items[j]); }
    case OneOf(_) =>
      if s.member.Some? { RestoredItemTyped(f, s.member.value); }
  }

  // The first i fields restored, the others at their defaults.
  function Mixed(fields: seq<Field>, slots: seq<Slot>, i: nat): (r: seq<Slot>)
    requires Typed(fields, slots)
    ensures |r| == |fields|
  {
    seq(|slots|, k requires 0 <= k < |slots| => if k < i then RestoredSlot(fields[k], slots[k]) else DefaultSlot(fields[k]))
  }

  lemma {:induction false} MixedTyped(fields: seq<Field>, slots: seq<Slot>, i: nat)
    requires GoodFields(fields) && Typed(fields, slots)
    ensures Typed(fields, Mixed(fields, slots, i))
    decreases slots, 0
  {
    var m := Mixed(fields, slots, i);
    forall k | 0 <= k < |fields| ensures TypedSlot(fields[k], m[k]) && (Chosen(m[k]) ==> Chosen(slots[k])) {
      var f := fields[k];
      assert f in fields;
      DefaultItemTyped(f);
      RestoredSlotTyped(f, slots[k]);
    }
  }

  lemma {:induction false} RestoredTyped(fields: seq<Field>, slots: seq<Slot>)
    requires GoodFields(fields) && Typed(fields, slots)
    ensures Typed(fields, Restored(fields, slots))
    decreases slots, 1
  {
    MixedTyped(fields, slots, |slots|);
    assert Restored(fields, slots) == Mixed(fields, slots, |slots|);
  }

  // ----- One field of the input -----

  // What becomes of the input after a field's tag.
  function Stepped(fields: seq<Field>, slots: seq<Slot>, i: nat, wireType: nat, body: Bytes, fixed: Option<nat>, count: nat, seen: set<nat>): Option<seq<Slot>>
    requires GoodFields(fields) && Typed(fields, slots) && i < |fields|
  {
    var anew := FixedCount(fields[i]) && fixed != Some(i);
    if anew && !Complete(fields, fixed, count) then None
    else match DecodeField(fields, i, State(slots, if anew then 0 else count), wireType, body)
      case Failed(_) => None
      case Got(st, rest) =>
        DecodeFrom(fields, st.slots, rest, if anew then Some(i) else fixed, if FixedCount(fields[i]) then st.count else count, Seen(fields, i, seen))
  }

  lemma OneStep(fields: seq<Field>, slots: seq<Slot>, i: nat, wireType: nat, body: Bytes, fixed: Option<nat>, count: nat, seen: set<nat>)
    requires GoodFields(fields) && Typed(fields, slots) && i < |fields| && wireType < 8
    ensures DecodeFrom(fields, slots, Tag(wireType, fields[i].tag) + body, fixed, count, seen) == Stepped(fields, slots, i, wireType, body, fixed, count, seen)
  {
    hide DecodeTag, Codings.Varint, DecodeField, Finish;
    var f := fields[i];
    assert f in fields;
    TagInverts(wireType, f.tag, body);
    assert IndexOf(fields, f.tag) == i;
  }

  // A field of the input, decoded or refused.
  lemma FieldThen(fields: seq<Field>, slots: seq<Slot>, i: nat, wireType: nat, body: Bytes, fixed: Option<nat>, count: nat, seen: set<nat>, c: nat, r: Read<State>)
    requires GoodFields(fields) && Typed(fields, slots) && i < |fields| && wireType < 8
    requires FixedCount(fields[i]) && fixed != Some(i) ==> Complete(fields, fixed, count)
    requires c == if FixedCount(fields[i]) && fixed != Some(i) then 0 else count
    requires DecodeField(fields, i, State(slots, c), wireType, body) == r
    ensures r.Failed? ==> DecodeFrom(fields, slots, Tag(wireType, fields[i].tag) + body, fixed, count, seen) == None
    ensures r.Got? ==> DecodeFrom(fields, slots, Tag(wireType, fields[i].tag) + body, fixed, count, seen) == DecodeFrom(fields, r.value.slots, r.rest, if FixedCount(fields[i]) then Some(i) else fixed, if FixedCount(fields[i]) then r.value.count else count, Seen(fields, i, seen))
  {
    OneStep(fields, slots, i, wireType, body, fixed, count, seen);
    hide DecodeFrom, DecodeField, Typed, GoodFields, Tag, Complete;
  }

  // Decoding the item's encoding gives it back, if its strings end.
  ghost predicate Inverts(f: Field, v: Value) {
    && GoodField(f) && TypedItem(f, v) && TypedItem(f, DefaultItem(f))
    && (EncItem(f, v).Some? && |EncItem(f, v).value| < TWO_32 ==> forall rest :: ItemBack(f, v, rest))
  }

  ghost predicate ItemBack(f: Field, v: Value, rest: Bytes)
    requires GoodField(f) && TypedItem(f, v) && TypedItem(f, DefaultItem(f)) && EncItem(f, v).Some?
  {
    var r := DecodeItem(f, EncItem(f, v).value + rest, DefaultItem(f));
    if EndsItem(f, v) then r == Got(RestoredItem(f, v), rest) else r.Failed?
  }

  // The item a field that is sent once sends.
  function Sent(s: Slot): Value
    requires !s.Many? && (s.Choice? ==> s.member.Some?)
  {
    match s case One(v) => v case Maybe(_, v) => v case Choice(m) => m.value
  }

  lemma SetMixed(fields: seq<Field>, slots: seq<Slot>, i: nat)
    requires GoodFields(fields) && Typed(fields, slots) && i < |fields| && !Absent(fields[i], slots[i])
    ensures Typed(fields, Mixed(fields, slots, i)) && TypedSlot(fields[i], RestoredSlot(fields[i], slots[i]))
    ensures Set(fields, Mixed(fields, slots, i), i, RestoredSlot(fields[i], slots[i])) == Mixed(fields, slots, i + 1)
  {
    assert fields[i] in fields;
    MixedTyped(fields, slots, i);
    RestoredSlotTyped(fields[i], slots[i]);
    var m, m' := Mixed(fields, slots, i), Mixed(fields, slots, i + 1);
    if fields[i].htype.OneOf? {
      forall k | 0 <= k < |fields| && k != i && SameUnion(fields[i], fields[k]) ensures m'[k] == Choice(None) {
        assert TypedSlot(fields[k], slots[k]);
        if k < i { assert SameUnion(fields[k], fields[i]); }
        assert !Chosen(slots[k]);
      }
    }
  }

  lemma SingleStep(fields: seq<Field>, slots: seq<Slot>, i: nat, rest: Bytes, fixed: Option<nat>, count: nat, seen: set<nat>)
    requires GoodFields(fields) && Typed(fields, slots) && i < |fields| && !fields[i].htype.Repeated? && !Absent(fields[i], slots[i])
    requires Inverts(fields[i], Sent(slots[i])) && EncItem(fields[i], Sent(slots[i])).Some? && |EncItem(fields[i], Sent(slots[i])).value| < TWO_32
    ensures Typed(fields, Mixed(fields, slots, i)) && Typed(fields, Mixed(fields, slots, i + 1))
    ensures var f, v := fields[i], Sent(slots[i]);
      DecodeFrom(fields, Mixed(fields, slots, i), Tag(WireType(f.ltype), f.tag) + (EncItem(f, v).value + rest), fixed, count, seen)
      == if EndsItem(f, v) then DecodeFrom(fields, Mixed(fields, slots, i + 1), rest, fixed, count, Seen(fields, i, seen)) else None
  {
    var f, v := fields[i], Sent(slots[i]);
    MixedTyped(fields, slots, i);
    MixedTyped(fields, slots, i + 1);
    hide DecodeFrom, DecodeItem, EncItem, EndsItem, Mixed, Set, GoodFields, GoodField, Typed, TypedItem, RestoredItem, DefaultItem;
    SetMixed(fields, slots, i);
    OneStep(fields, Mixed(fields, slots, i), i, WireType(f.ltype), EncItem(f, v).value + rest, fixed, count, seen);
    AtDefault(fields, slots, i);
    GivenIsRestored(f, slots[i]);
    assert ItemBack(f, v, rest);
  }

  lemma AtDefault(fields: seq<Field>, slots: seq<Slot>, i: nat)
    requires GoodFields(fields) && Typed(fields, slots) && i < |fields|
    ensures GoodField(fields[i]) && TypedSlot(fields[i], slots[i]) && TypedSlot(fields[i], DefaultSlot(fields[i]))
    ensures Mixed(fields, slots, i)[i] == DefaultSlot(fields[i])
    ensures !fields[i].htype.Repeated? ==> Base(fields[i], DefaultSlot(fields[i])) == DefaultItem(fields[i])
  {
    assert fields[i] in fields;
    DefaultItemTyped(fields[i]);
  }

  lemma GivenIsRestored(f: Field, s: Slot)
    requires GoodField(f) && TypedSlot(f, s) && !Absent(f, s) && !f.htype.Repeated?
    ensures TypedItem(f, Sent(s)) && TypedItem(f, RestoredItem(f, Sent(s)))
    ensures Given(f, RestoredItem(f, Sent(s))) == RestoredSlot(f, s)
  {
    RestoredItemTyped(f, Sent(s));
  }

  // ----- Repeated fields -----

  // The first j items restored, and the rest of a fixed-count array at its defaults.
  function Part(f: Field, items: seq<Value>, j: nat): (r: seq<Value>)
    requires j <= |items| && forall v :: v in items ==> TypedItem(f, v)
    ensures |r| == if f.htype == Repeated(true) then j else |items|
  {
    var n := if f.htype == Repeated(true) then j else |items|;
    seq(n, k requires 0 <= k < n => if k < j then RestoredItem(f, items[k]) else DefaultItem(f))
  }

  lemma PartTyped(f: Field, items: seq<Value>, j: nat)
    requires GoodField(f) && f.htype.Repeated? && TypedSlot(f, Many(items)) && j <= |items|
    ensures TypedSlot(f, Many(Part(f, items, j)))
  {
    DefaultItemTyped(f);
    forall k | 0 <= k < |Part(f, items, j)| ensures TypedItem(f, Part(f, items, j)[k]) {
      if k < j {
        assert items[k] in items;
        RestoredItemTyped(f, items[k]);
      }
    }
  }

  // Only fixed-count arrays go by the count.
  lemma PutPart(f: Field, items: seq<Value>, j: nat, c: nat)
    requires GoodField(f) && f.htype.Repeated? && TypedSlot(f, Many(items)) && j < |items| <= f.arraySize && (FixedCount(f) ==> c == j)
    ensures TypedSlot(f, Many(Part(f, items, j))) && TypedSlot(f, Many(Part(f, items, j + 1))) && items[j] in items
    ensures TypedItem(f, items[j]) && TypedItem(f, RestoredItem(f, items[j]))
    ensures CountOf(f, Part(f, items, j), c) == j
    ensures Put(f, Part(f, items, j), c, RestoredItem(f, items[j])) == Part(f, items, j + 1)
  {
    PartTyped(f, items, j);
    PartTyped(f, items, j + 1);
    assert items[j] in items;
    RestoredItemTyped(f, items[j]);
    assert Put(f, Part(f, items, j), c, RestoredItem(f, items[j])) == Part(f, items, j + 1);
  }

  lemma {:induction false} PackedBack(f: Field, items: seq<Value>, j: nat, c: nat)
    requires GoodField(f) && f.htype.Repeated? && Packable(f.ltype) && TypedSlot(f, Many(items)) && j <= |items| <= f.arraySize
    requires EncItems(f, items, j, true).Some? && |EncItems(f, items, j, true).value| < TWO_32
    requires (FixedCount(f) ==> c == j) && forall v :: v in items ==> Inverts(f, v)
    ensures TypedSlot(f, Many(Part(f, items, j)))
    ensures DecodePacked(f, EncItems(f, items, j, true).value, Part(f, items, j), c) == Some(State([Many(Part(f, items, |items|))], c + |items| - j))
    decreases |items| - j
  {
    hide DecodePacked, EncItems, EncItem, Part, GoodField, DefaultItem, RestoredItem, Inverts, TypedItem, DecodeItem, Put;
    PartTyped(f, items, j);
    if j < |items| {
      var v := items[j];
      PutPart(f, items, j, c);
      PackedFirst(f, items, j);
      PackedBack(f, items, j + 1, c + 1);
      PackedOne(f, EncItem(f, v).value, EncItems(f, items, j + 1, true).value, Part(f, items, j), c, RestoredItem(f, v));
    } else {
      PackedEnd(f, items, Part(f, items, j), c);
    }
  }

  lemma PackedEnd(f: Field, items: seq<Value>, back: seq<Value>, c: nat)
    requires GoodField(f) && f.htype.Repeated? && TypedSlot(f, Many(items)) && TypedSlot(f, Many(back))
    ensures EncItems(f, items, |items|, true) == Some([]) && DecodePacked(f, [], back, c) == Some(State([Many(back)], c))
  {
  }

  lemma PackedFirst(f: Field, items: seq<Value>, j: nat)
    requires GoodField(f) && Packable(f.ltype) && (forall v :: v in items ==> TypedItem(f, v) && Inverts(f, v)) && j < |items|
    requires EncItems(f, items, j, true).Some? && |EncItems(f, items, j, true).value| < TWO_32
    ensures items[j] in items && EncItem(f, items[j]).Some? && EncItems(f, items, j + 1, true).Some? && |EncItems(f, items, j + 1, true).value| < TWO_32
    ensures EncItems(f, items, j, true).value == EncItem(f, items[j]).value + EncItems(f, items, j + 1, true).value
    ensures TypedItem(f, DefaultItem(f))
    ensures DecodeItem(f, EncItems(f, items, j, true).value, DefaultItem(f)) == Got(RestoredItem(f, items[j]), EncItems(f, items, j + 1, true).value)
  {
    var v, rest := items[j], EncItems(f, items, j + 1, true).value;
    assert v in items;
    assert Inverts(f, v) && ItemBack(f, v, rest);
  }

  lemma PackedOne(f: Field, e: Bytes, rest: Bytes, items: seq<Value>, c: nat, v: Value)
    requires GoodField(f) && f.htype.Repeated? && TypedSlot(f, Many(items)) && TypedItem(f, v) && TypedItem(f, DefaultItem(f))
    requires CountOf(f, items, c) < f.arraySize && DecodeItem(f, e + rest, DefaultItem(f)) == Got(v, rest)
    ensures DecodePacked(f, e + rest, items, c) == DecodePacked(f, rest, Put(f, items, c, v), c + 1)
  {
    hide DecodeItem, DefaultItem, TypedItem, Put;
    assert e + rest != [];
  }

  // The message with the first j items of its i-th field, the later fields at their defaults.
  function WithPart(fields: seq<Field>, slots: seq<Slot>, i: nat, j: nat): (r: seq<Slot>)
    requires Typed(fields, slots) && i < |fields| && fields[i].htype.Repeated? && TypedSlot(fields[i], slots[i]) && j <= |slots[i].items|
    ensures |r| == |fields|
  {
    Mixed(fields, slots, i)[i := Many(Part(fields[i], slots[i].items, j))]
  }

  lemma PartEnds(f: Field, items: seq<Value>)
    requires GoodField(f) && f.htype.Repeated? && TypedSlot(f, Many(items))
    ensures Many(Part(f, items, 0)) == DefaultSlot(f) && Many(Part(f, items, |items|)) == RestoredSlot(f, Many(items))
  {
  }

  lemma MixedNext(fields: seq<Field>, slots: seq<Slot>, i: nat)
    requires Typed(fields, slots) && i < |fields|
    ensures TypedSlot(fields[i], slots[i]) && Mixed(fields, slots, i)[i] == DefaultSlot(fields[i])
    ensures Mixed(fields, slots, i + 1) == Mixed(fields, slots, i)[i := RestoredSlot(fields[i], slots[i])]
  {
  }

  lemma WithPartTyped(fields: seq<Field>, slots: seq<Slot>, i: nat, j: nat)
    requires GoodFields(fields) && Typed(fields, slots) && i < |fields| && fields[i].htype.Repeated?
    requires TypedSlot(fields[i], slots[i]) && j <= |slots[i].items|
    ensures GoodField(fields[i]) && Typed(fields, WithPart(fields, slots, i, j)) && WithPart(fields, slots, i, j)[i] == Many(Part(fields[i], slots[i].items, j))
    ensures TypedSlot(fields[i], Many(Part(fields[i], slots[i].items, j)))
  {
    assert fields[i] in fields;
    MixedTyped(fields, slots, i);
    PartTyped(fields[i], slots[i].items, j);
    hide Mixed, Part;
    SetTyped(fields, Mixed(fields, slots, i), i, Many(Part(fields[i], slots[i].items, j)));
  }

  lemma WithPartEnds(fields: seq<Field>, slots: seq<Slot>, i: nat)
    requires GoodFields(fields) && Typed(fields, slots) && i < |fields| && fields[i].htype.Repeated? && TypedSlot(fields[i], slots[i])
    ensures WithPart(fields, slots, i, 0) == Mixed(fields, slots, i)
    ensures WithPart(fields, slots, i, |slots[i].items|) == Mixed(fields, slots, i + 1)
  {
    var f := fields[i];
    assert f in fields;
    PartEnds(f, slots[i].items);
    MixedNext(fields, slots, i);
    hide Mixed, Part, RestoredSlot, DefaultSlot;
    assert slots[i] == Many(slots[i].items);
    var m := Mixed(fields, slots, i);
    assert m == m[i := m[i]];
  }

  // Setting the field replaces one part by another.
  lemma SetPart(fields: seq<Field>, slots: seq<Slot>, i: nat, j: nat, k: nat)
    requires GoodFields(fields) && Typed(fields, slots) && i < |fields| && fields[i].htype.Repeated?
    requires TypedSlot(fields[i], slots[i]) && j <= |slots[i].items| && k <= |slots[i].items|
    ensures Typed(fields, WithPart(fields, slots, i, j)) && TypedSlot(fields[i], Many(Part(fields[i], slots[i].items, k)))
    ensures Set(fields, WithPart(fields, slots, i, j), i, Many(Part(fields[i], slots[i].items, k))) == WithPart(fields, slots, i, k)
  {
    WithPartTyped(fields, slots, i, j);
    WithPartTyped(fields, slots, i, k);
    hide Mixed, Part, Typed, TypedSlot;
  }

  lemma PackedRepeated(f: Field, items: seq<Value>, c: nat, rest: Bytes)
    requires GoodField(f) && f.htype.Repeated? && Packable(f.ltype) && TypedSlot(f, Many(items)) && |items| <= f.arraySize && (FixedCount(f) ==> c == 0)
    requires EncItems(f, items, 0, true).Some? && |EncItems(f, items, 0, true).value| < TWO_32
    requires forall v :: v in items ==> Inverts(f, v)
    ensures TypedSlot(f, Many(Part(f, items, 0)))
    ensures DecodeRepeated(f, Lengthed(EncItems(f, items, 0, true).value) + rest, Part(f, items, 0), c, WT_STRING)
      == Got(State([Many(Part(f, items, |items|))], c + |items|), rest)
  {
    PackedBack(f, items, 0, c);
    LengthedInverts(EncItems(f, items, 0, true).value, rest);
    hide DecodePacked, EncItems, Part, GoodField, TypedItem, Inverts, Lengthed, Varint32;
  }

  lemma PackedStep(fields: seq<Field>, slots: seq<Slot>, i: nat, rest: Bytes, fixed: Option<nat>, count: nat, seen: set<nat>)
    requires GoodFields(fields) && Typed(fields, slots) && i < |fields| && fields[i].htype.Repeated? && Packable(fields[i].ltype)
    requires TypedSlot(fields[i], slots[i]) && 0 < |slots[i].items| <= fields[i].arraySize
    requires EncItems(fields[i], slots[i].items, 0, true).Some? && |EncItems(fields[i], slots[i].items, 0, true).value| < TWO_32
    requires (forall v :: v in slots[i].items ==> Inverts(fields[i], v)) && Complete(fields, fixed, count) && (fixed.Some? ==> fixed.value < i)
    ensures Typed(fields, Mixed(fields, slots, i)) && Typed(fields, Mixed(fields, slots, i + 1))
    ensures DecodeFrom(fields, Mixed(fields, slots, i), Tag(WT_STRING, fields[i].tag) + (Lengthed(EncItems(fields[i], slots[i].items, 0, true).value) + rest), fixed, count, seen)
      == DecodeFrom(fields, Mixed(fields, slots, i + 1), rest, FixedAt(fields[i], i, |slots[i].items|, fixed), CountAt(fields[i], |slots[i].items|, count), seen)
  {
    var f, items := fields[i], slots[i].items;
    var c := if FixedCount(f) then 0 else count;
    var m := Mixed(fields, slots, i);
    MixedTyped(fields, slots, i);
    MixedTyped(fields, slots, i + 1);
    PackedField(fields, slots, i, c, rest);
    hide DecodeFrom, EncItems, Mixed, GoodFields, Typed, TypedSlot, TypedItem, Inverts, Lengthed, DecodeField;
    var body := Lengthed(EncItems(f, items, 0, true).value) + rest;
    FieldThen(fields, m, i, WT_STRING, body, fixed, count, seen, c, DecodeField(fields, i, State(m, c), WT_STRING, body));
  }

  lemma PackedField(fields: seq<Field>, slots: seq<Slot>, i: nat, c: nat, rest: Bytes)
    requires GoodFields(fields) && Typed(fields, slots) && i < |fields| && fields[i].htype.Repeated? && Packable(fields[i].ltype)
    requires TypedSlot(fields[i], slots[i]) && |slots[i].items| <= fields[i].arraySize && (FixedCount(fields[i]) ==> c == 0)
    requires EncItems(fields[i], slots[i].items, 0, true).Some? && |EncItems(fields[i], slots[i].items, 0, true).value| < TWO_32
    requires forall v :: v in slots[i].items ==> Inverts(fields[i], v)
    ensures Typed(fields, Mixed(fields, slots, i))
    ensures DecodeField(fields, i, State(Mixed(fields, slots, i), c), WT_STRING, Lengthed(EncItems(fields[i], slots[i].items, 0, true).value) + rest)
      == Got(State(Mixed(fields, slots, i + 1), c + |slots[i].items|), rest)
  {
    var f, items := fields[i], slots[i].items;
    var body := Lengthed(EncItems(f, items, 0, true).value) + rest;
    WithPartTyped(fields, slots, i, 0);
    WithPartEnds(fields, slots, i);
    SetPart(fields, slots, i, 0, |items|);
    PackedRepeated(f, items, c, rest);
    hide DecodeFrom, DecodeRepeated, EncItems, Mixed, Part, GoodFields, GoodField, Typed, TypedItem, Inverts, Lengthed, Set, WithPart, DecodeField, RestoredItem, DefaultItem;
    RepeatedField(fields, Mixed(fields, slots, i), i, c, WT_STRING, body, State([Many(Part(f, items, |items|))], c + |items|), rest);
  }

  lemma RepeatedField(fields: seq<Field>, slots: seq<Slot>, i: nat, c: nat, wireType: nat, body: Bytes, one: State, rest: Bytes)
    requires GoodFields(fields) && Typed(fields, slots) && i < |fields| && fields[i].htype.Repeated?
    requires GoodField(fields[i]) && TypedSlot(fields[i], slots[i]) && |one.slots| == 1 && TypedSlot(fields[i], one.slots[0])
    requires DecodeRepeated(fields[i], body, slots[i].items, c, wireType) == Got(one, rest)
    ensures DecodeField(fields, i, State(slots, c), wireType, body) == Got(State(Set(fields, slots, i, one.slots[0]), one.count), rest)
  {
    hide DecodeRepeated, Set, Typed, GoodFields, TypedItem;
  }

  // The fixed-count bookkeeping once j items of the field have been read.
  function FixedAt(f: Field, i: nat, j: nat, fixed: Option<nat>): Option<nat> { if FixedCount(f) && j > 0 then Some(i) else fixed }

  function CountAt(f: Field, j: nat, count: nat): nat { if FixedCount(f) && j > 0 then j else count }

  // One unpacked item, whose strings may not end.
  lemma UnpackedRepeated(f: Field, items: seq<Value>, j: nat, c: nat, rest: Bytes)
    requires GoodField(f) && f.htype.Repeated? && !Packable(f.ltype) && TypedSlot(f, Many(items)) && j < |items| <= f.arraySize && (FixedCount(f) ==> c == j)
    requires items[j] in items && Inverts(f, items[j]) && EncItem(f, items[j]).Some? && |EncItem(f, items[j]).value| < TWO_32
    ensures TypedSlot(f, Many(Part(f, items, j)))
    ensures var r := DecodeRepeated(f, EncItem(f, items[j]).value + rest, Part(f, items, j), c, WireType(f.ltype));
      if EndsItem(f, items[j]) then r == Got(State([Many(Part(f, items, j + 1))], c + 1), rest) else r.Failed?
  {
    PutPart(f, items, j, c);
    assert ItemBack(f, items[j], rest);
    hide DecodeItem, EncItem, Part, GoodField, TypedItem, Put, DefaultItem, RestoredItem, EndsItem, Inverts;
  }

  lemma UnpackedField(fields: seq<Field>, slots: seq<Slot>, i: nat, j: nat, c: nat, rest: Bytes)
    requires GoodFields(fields) && Typed(fields, slots) && i < |fields| && fields[i].htype.Repeated? && !Packable(fields[i].ltype)
    requires TypedSlot(fields[i], slots[i]) && j < |slots[i].items| <= fields[i].arraySize && slots[i].items[j] in slots[i].items
    requires FixedCount(fields[i]) ==> c == j
    requires Inverts(fields[i], slots[i].items[j]) && EncItem(fields[i], slots[i].items[j]).Some? && |EncItem(fields[i], slots[i].items[j]).value| < TWO_32
    ensures Typed(fields, WithPart(fields, slots, i, j)) && Typed(fields, WithPart(fields, slots, i, j + 1))
    ensures var f, v := fields[i], slots[i].items[j];
      var r := DecodeField(fields, i, State(WithPart(fields, slots, i, j), c), WireType(f.ltype), EncItem(f, v).value + rest);
      if EndsItem(f, v) then r == Got(State(WithPart(fields, slots, i, j + 1), c + 1), rest) else r.Failed?
  {
    var f, items := fields[i], slots[i].items;
    var v := items[j];
    var m := WithPart(fields, slots, i, j);
    WithPartTyped(fields, slots, i, j);
    WithPartTyped(fields, slots, i, j + 1);
    hide DecodeFrom, DecodeRepeated, EncItem, EndsItem, Mixed, Part, GoodFields, GoodField, Typed, TypedItem, Inverts, Set, WithPart, DecodeField, RestoredItem, DefaultItem;
    SetPart(fields, slots, i, j, j + 1);
    UnpackedRepeated(f, items, j, c, rest);
    var body := EncItem(f, v).value + rest;
    if EndsItem(f, v) {
      RepeatedField(fields, m, i, c, WireType(f.ltype), body, State([Many(Part(f, items, j + 1))], c + 1), rest);
    } else {
      RepeatedFails(fields, m, i, c, WireType(f.ltype), body);
    }
  }

  lemma UnpackedStep(fields: seq<Field>, slots: seq<Slot>, i: nat, j: nat, rest: Bytes, fixed: Option<nat>, count: nat, seen: set<nat>)
    requires GoodFields(fields) && Typed(fields, slots) && i < |fields| && fields[i].htype.Repeated? && !Packable(fields[i].ltype)
    requires TypedSlot(fields[i], slots[i]) && j < |slots[i].items| <= fields[i].arraySize && slots[i].items[j] in slots[i].items
    requires Complete(fields, fixed, count) && (fixed.Some? ==> fixed.value < i)
    requires Inverts(fields[i], slots[i].items[j]) && EncItem(fields[i], slots[i].items[j]).Some? && |EncItem(fields[i], slots[i].items[j]).value| < TWO_32
    ensures Typed(fields, WithPart(fields, slots, i, j)) && Typed(fields, WithPart(fields, slots, i, j + 1))
    ensures var f, v := fields[i], slots[i].items[j];
      DecodeFrom(fields, WithPart(fields, slots, i, j), Tag(WireType(f.ltype), f.tag) + (EncItem(f, v).value + rest), FixedAt(f, i, j, fixed), CountAt(f, j, count), seen)
      == if EndsItem(f, v) then DecodeFrom(fields, WithPart(fields, slots, i, j + 1), rest, FixedAt(f, i, j + 1, fixed), CountAt(f, j + 1, count), seen) else None
  {
    var f, items := fields[i], slots[i].items;
    var v := items[j];
    assert TypedItem(f, v);
    hide DecodeFrom, EncItem, EndsItem, GoodFields, GoodField, Typed, TypedSlot, TypedItem, Inverts, WithPart, DecodeField, Part;
    var m, c := WithPart(fields, slots, i, j), if FixedCount(f) then j else count;
    var body := EncItem(f, v).value + rest;
    UnpackedField(fields, slots, i, j, c, rest);
    FieldThen(fields, m, i, WireType(f.ltype), body, FixedAt(f, i, j, fixed), CountAt(f, j, count), seen, c, DecodeField(fields, i, State(m, c), WireType(f.ltype), body));
  }

  lemma RepeatedFails(fields: seq<Field>, slots: seq<Slot>, i: nat, c: nat, wireType: nat, body: Bytes)
    requires GoodFields(fields) && Typed(fields, slots) && i < |fields| && fields[i].htype.Repeated?
    requires GoodField(fields[i]) && TypedSlot(fields[i], slots[i]) && DecodeRepeated(fields[i], body, slots[i].items, c, wireType).Failed?
    ensures DecodeField(fields, i, State(slots, c), wireType, body).Failed?
  {
    hide DecodeRepeated, Set, Typed, GoodFields, TypedItem;
  }

  lemma {:induction false} UnpackedSteps(fields: seq<Field>, slots: seq<Slot>, i: nat, j: nat, rest: Bytes, fixed: Option<nat>, count: nat, seen: set<nat>)
    requires GoodFields(fields) && Typed(fields, slots) && i < |fields| && fields[i].htype.Repeated? && !Packable(fields[i].ltype)
    requires TypedSlot(fields[i], slots[i]) && j <= |slots[i].items| <= fields[i].arraySize
    requires Complete(fields, fixed, count) && (fixed.Some? ==> fixed.value < i)
    requires EncItems(fields[i], slots[i].items, j, false).Some? && |EncItems(fields[i], slots[i].items, j, false).value| < TWO_32
    requires forall v :: v in slots[i].items ==> Inverts(fields[i], v)
    ensures Typed(fields, WithPart(fields, slots, i, j)) && Typed(fields, WithPart(fields, slots, i, |slots[i].items|))
    ensures var f, items := fields[i], slots[i].items; var n := |items|;
      DecodeFrom(fields, WithPart(fields, slots, i, j), EncItems(f, items, j, false).value + rest, FixedAt(f, i, j, fixed), CountAt(f, j, count), seen)
      == if EndsItems(f, items, j) then DecodeFrom(fields, WithPart(fields, slots, i, n), rest, FixedAt(f, i, n, fixed), CountAt(f, n, count), seen) else None
    decreases |slots[i].items| - j
  {
    var f, items := fields[i], slots[i].items;
    var n := |items|;
    WithPartTyped(fields, slots, i, j);
    WithPartTyped(fields, slots, i, n);
    if j == n {
      assert EncItems(f, items, j, false).value + rest == rest;
    } else {
      var e, more := EncItem(f, items[j]).value, EncItems(f, items, j + 1, false).value;
      assert items[j] in items;
      TaggedFirst(Tag(WireType(f.ltype), f.tag), e, more, rest);
      UnpackedStep(fields, slots, i, j, more + rest, fixed, count, seen);
      UnpackedSteps(fields, slots, i, j + 1, rest, fixed, count, seen);
      EndsFirst(f, items, j);
      hide DecodeFrom, EncItem, Tag, EndsItem, EndsItems, WithPart, Mixed, Typed, TypedSlot, GoodFields, Inverts, TypedItem;
    }
  }

  lemma TaggedFirst(t: Bytes, e: Bytes, more: Bytes, rest: Bytes)
    ensures t + e + more + rest == t + (e + (more + rest))
  {
  }

  lemma EndsFirst(f: Field, items: seq<Value>, j: nat)
    requires j < |items| && forall v :: v in items ==> TypedItem(f, v)
    ensures TypedItem(f, items[j]) && (EndsItems(f, items, j) <==> EndsItem(f, items[j]) && EndsItems(f, items, j + 1))
  {
  }

  // ----- The whole message -----

  // The required fields before the i-th have been seen.
  predicate SeenBefore(fields: seq<Field>, i: nat, seen: set<nat>)
    requires i <= |fields|
  {
    forall k :: 0 <= k < RequiredBefore(fields, i) && k < MAX_REQUIRED ==> k in seen
  }

  // The items of a slot that are sent.
  predicate Sends(f: Field, s: Slot, v: Value)
    requires TypedSlot(f, s)
  {
    !Absent(f, s) && if s.Many? then v in s.items else v == Sent(s)
  }

  lemma NothingLeft(fields: seq<Field>, slots: seq<Slot>, fixed: Option<nat>, count: nat, seen: set<nat>)
    requires GoodFields(fields) && Typed(fields, slots) && Typed(fields, Mixed(fields, slots, |fields|))
    requires Complete(fields, fixed, count) && SeenBefore(fields, |fields|, seen)
    ensures EncFrom(fields, slots, |fields|) == Some([])
    ensures DecodeFrom(fields, Mixed(fields, slots, |fields|), [], fixed, count, seen)
      == if Ends(fields, slots, |fields|) then Some(Restored(fields, slots)) else None
  {
    assert Mixed(fields, slots, |fields|) == Restored(fields, slots);
  }

  // One field after another, each leaving the decoder ready for the next.
  lemma {:induction false} FieldsBack(fields: seq<Field>, slots: seq<Slot>, i: nat, fixed: Option<nat>, count: nat, seen: set<nat>)
    requires GoodFields(fields) && Typed(fields, slots) && i <= |fields|
    requires EncFrom(fields, slots, i).Some? && |EncFrom(fields, slots, i).value| < TWO_32
    requires Complete(fields, fixed, count) && (fixed.Some? ==> fixed.value < i) && SeenBefore(fields, i, seen)
    ensures Typed(fields, Mixed(fields, slots, i))
    ensures DecodeFrom(fields, Mixed(fields, slots, i), EncFrom(fields, slots, i).value, fixed, count, seen)
      == if Ends(fields, slots, i) then Some(Restored(fields, slots)) else None
    decreases slots, |slots| - i
  {
    MixedTyped(fields, slots, i);
    if i == |fields| {
      NothingLeft(fields, slots, fixed, count, seen);
    } else {
      hide DecodeFrom, EncSlot, EndsSlot, Mixed, Restored, SeenBefore, Complete;
      var f, rest := fields[i], EncFrom(fields, slots, i + 1).value;
      assert f in fields && GoodField(f);
      SlotBack(f, slots[i]);
      var fixed', count' := FieldBack(fields, slots, i, rest, fixed, count, seen);
      SeenNext(fields, i, seen);
      FieldsBack(fields, slots, i + 1, fixed', count', Seen(fields, i, seen));
      EndsNext(fields, slots, i);
      hide Ends, Typed, GoodFields, GoodField;
    }
  }

  lemma SeenNext(fields: seq<Field>, i: nat, seen: set<nat>)
    requires i < |fields| && SeenBefore(fields, i, seen)
    ensures SeenBefore(fields, i + 1, Seen(fields, i, seen))
  {
  }

  lemma EndsNext(fields: seq<Field>, slots: seq<Slot>, i: nat)
    requires Typed(fields, slots) && i < |fields|
    ensures TypedSlot(fields[i], slots[i]) && (Ends(fields, slots, i) <==> EndsSlot(fields[i], slots[i]) && Ends(fields, slots, i + 1))
  {
  }

  // Every kind of field.
  lemma FieldBack(fields: seq<Field>, slots: seq<Slot>, i: nat, rest: Bytes, fixed: Option<nat>, count: nat, seen: set<nat>)
      returns (fixed': Option<nat>, count': nat)
    requires GoodFields(fields) && Typed(fields, slots) && i < |fields| && TypedSlot(fields[i], slots[i])
    requires EncSlot(fields[i], slots[i]).Some? && |EncSlot(fields[i], slots[i]).value| < TWO_32
    requires forall v :: Sends(fields[i], slots[i], v) ==> Inverts(fields[i], v)
    requires Complete(fields, fixed, count) && (fixed.Some? ==> fixed.value < i)
    ensures Complete(fields, fixed', count') && (fixed'.Some? ==> fixed'.value < i + 1)
    ensures Typed(fields, Mixed(fields, slots, i)) && Typed(fields, Mixed(fields, slots, i + 1))
    ensures DecodeFrom(fields, Mixed(fields, slots, i), EncSlot(fields[i], slots[i]).value + rest, fixed, count, seen)
      == if EndsSlot(fields[i], slots[i]) then DecodeFrom(fields, Mixed(fields, slots, i + 1), rest, fixed', count', Seen(fields, i, seen)) else None
  {
    var f, s := fields[i], slots[i];
    assert f in fields && GoodField(f);
    MixedTyped(fields, slots, i);
    MixedTyped(fields, slots, i + 1);
    fixed', count' := fixed, count;
    if Absent(f, s) {
      AbsentStep(fields, slots, i);
      assert EncSlot(f, s).value + rest == rest;
    } else if f.htype.Repeated? {
      RepeatedBack(fields, slots, i, rest, fixed, count, seen);
      if FixedCount(f) { fixed', count' := Some(i), |s.items|; }
    } else {
      var v := Sent(s);
      assert Sends(f, s, v);
      SentIs(f, s);
      assert Tag(WireType(f.ltype), f.tag) + EncItem(f, v).value + rest == Tag(WireType(f.ltype), f.tag) + (EncItem(f, v).value + rest);
      SingleStep(fields, slots, i, rest, fixed, count, seen);
    }
  }

  lemma SentIs(f: Field, s: Slot)
    requires TypedSlot(f, s) && !Absent(f, s) && !f.htype.Repeated?
    ensures TypedItem(f, Sent(s)) && EncSlot(f, s) == Tagged(f, EncItem(f, Sent(s))) && (EndsSlot(f, s) <==> EndsItem(f, Sent(s)))
  {
  }

  lemma AbsentStep(fields: seq<Field>, slots: seq<Slot>, i: nat)
    requires GoodFields(fields) && Typed(fields, slots) && i < |fields| && TypedSlot(fields[i], slots[i]) && Absent(fields[i], slots[i])
    ensures EncSlot(fields[i], slots[i]) == Some([]) && EndsSlot(fields[i], slots[i])
    ensures Mixed(fields, slots, i) == Mixed(fields, slots, i + 1)
    ensures forall seen :: Seen(fields, i, seen) == seen
  {
    assert fields[i] in fields;
    AbsentIsDefault(fields[i], slots[i]);
    MixedNext(fields, slots, i);
  }

  lemma RepeatedBack(fields: seq<Field>, slots: seq<Slot>, i: nat, rest: Bytes, fixed: Option<nat>, count: nat, seen: set<nat>)
    requires GoodFields(fields) && Typed(fields, slots) && i < |fields| && fields[i].htype.Repeated? && TypedSlot(fields[i], slots[i])
    requires !Absent(fields[i], slots[i]) && EncSlot(fields[i], slots[i]).Some? && |EncSlot(fields[i], slots[i]).value| < TWO_32
    requires forall v :: Sends(fields[i], slots[i], v) ==> Inverts(fields[i], v)
    requires Complete(fields, fixed, count) && (fixed.Some? ==> fixed.value < i)
    ensures Typed(fields, Mixed(fields, slots, i)) && Typed(fields, Mixed(fields, slots, i + 1))
    ensures FixedCount(fields[i]) ==> |slots[i].items| == fields[i].arraySize
    ensures var f, n := fields[i], |slots[i].items|;
      DecodeFrom(fields, Mixed(fields, slots, i), EncSlot(f, slots[i]).value + rest, fixed, count, seen)
      == if EndsSlot(f, slots[i]) then DecodeFrom(fields, Mixed(fields, slots, i + 1), rest, FixedAt(f, i, n, fixed), CountAt(f, n, count), seen) else None
  {
    var f, items := fields[i], slots[i].items;
    forall v | v in items ensures Inverts(f, v) { assert Sends(f, slots[i], v); }
    MixedTyped(fields, slots, i);
    MixedTyped(fields, slots, i + 1);
    WithPartEnds(fields, slots, i);
    if Packable(f.ltype) {
      var data := EncItems(f, items, 0, true).value;
      assert Tag(WT_STRING, f.tag) + Lengthed(data) + rest == Tag(WT_STRING, f.tag) + (Lengthed(data) + rest);
      PackedStep(fields, slots, i, rest, fixed, count, seen);
      PackableEnds(f, items);
    } else {
      UnpackedSteps(fields, slots, i, 0, rest, fixed, count, seen);
    }
  }

  lemma PackableEnds(f: Field, items: seq<Value>)
    requires Packable(f.ltype) && forall v :: v in items ==> TypedItem(f, v)
    ensures EndsItems(f, items, 0)
  {
  }

  lemma {:induction false} SlotBack(f: Field, s: Slot)
    requires GoodField(f) && TypedSlot(f, s)
    ensures forall v :: Sends(f, s, v) ==> Inverts(f, v)
    decreases s
  {
    forall v | Sends(f, s, v) ensures Inverts(f, v) {
      match s
      case Many(items) =>
        var k :| 0 <= k < |items| && items[k] == v;
        ItemInverts(f, items[k]);
      case One(value) => ItemInverts(f, value);
      case Maybe(_, value) => ItemInverts(f, value);
      case Choice(member) => ItemInverts(f, member.value);
    }
  }

  lemma {:induction false} ItemInverts(f: Field, v: Value)
    requires GoodField(f) && TypedItem(f, v)
    ensures Inverts(f, v)
    decreases v
  {
    DefaultItemTyped(f);
    if EncItem(f, v).Some? && |EncItem(f, v).value| < TWO_32 {
      if f.ltype.Submessage? {
        FieldsBack(f.ltype.fields, v.slots, 0, None, 0, {});
      }
      forall rest ensures ItemBack(f, v, rest) {
        if f.ltype.Submessage? {
          SubmessageBack(f, v, rest);
        } else {
          ScalarInverts(f, v, rest);
        }
      }
    }
  }

  lemma SubmessageBack(f: Field, v: Value, rest: Bytes)
    requires GoodField(f) && f.ltype.Submessage? && TypedItem(f, v) && TypedItem(f, DefaultItem(f))
    requires EncFrom(f.ltype.fields, v.slots, 0).Some? && |EncFrom(f.ltype.fields, v.slots, 0).value| < TWO_32
    requires Typed(f.ltype.fields, Mixed(f.ltype.fields, v.slots, 0))
    requires DecodeFrom(f.ltype.fields, Mixed(f.ltype.fields, v.slots, 0), EncFrom(f.ltype.fields, v.slots, 0).value, None, 0, {})
      == if Ends(f.ltype.fields, v.slots, 0) then Some(Restored(f.ltype.fields, v.slots)) else None
    ensures ItemBack(f, v, rest)
  {
    var fs := f.ltype.fields;
    assert Mixed(fs, v.slots, 0) == Defaults(fs);
    LengthedInverts(EncFrom(fs, v.slots, 0).value, rest);
    hide EncFrom, DecodeFrom, Ends, Restored, Mixed, Typed, Lengthed, Varint32;
  }

  /** Decoding an encoded message restores it if its strings are terminated, and fails otherwise. */
  lemma RoundTrip(fields: seq<Field>, slots: seq<Slot>)
    requires GoodFields(fields) && Typed(fields, slots)
    requires EncFrom(fields, slots, 0).Some? && |EncFrom(fields, slots, 0).value| < TWO_32
    ensures Decode(fields, EncFrom(fields, slots, 0).value) == if Ends(fields, slots, 0) then Some(Restored(fields, slots)) else None
  {
    assert Mixed(fields, slots, 0) == Defaults(fields);
    FieldsBack(fields, slots, 0, None, 0, {});
  }

  // ----- What is lost: nothing that is sent -----

  lemma {:induction false} StrLenOfPrefix(b: Bytes)
    ensures b[..StrLen(b)][..StrLen(b[..StrLen(b)])] == b[..StrLen(b)] && StrLen(b[..StrLen(b)]) == StrLen(b)
  {
    if b != [] && b[0] != 0 {
      StrLenOfPrefix(b[1..]);
      assert b[..StrLen(b)][1..] == b[1..][..StrLen(b[1..])];
    }
  }

  lemma {:induction false} ItemSame(f: Field, v: Value)
    requires GoodField(f) && TypedItem(f, v)
    ensures TypedItem(f, RestoredItem(f, v)) && EncItem(f, RestoredItem(f, v)) == EncItem(f, v)
    ensures IsZero(f, RestoredItem(f, v)) <==> IsZero(f, v)
    decreases v
  {
    RestoredItemTyped(f, v);
    match f.ltype
    case CString => StrLenOfPrefix(v.b);
    case Submessage(fs) => FieldsSame(fs, v.slots, 0);
    case _ =>
  }

  lemma {:induction false} SlotSame(f: Field, s: Slot)
    requires GoodField(f) && TypedSlot(f, s)
    ensures TypedSlot(f, RestoredSlot(f, s)) && EncSlot(f, RestoredSlot(f, s)) == EncSlot(f, s)
    ensures IsDefault(f, RestoredSlot(f, s)) <==> IsDefault(f, s)
    decreases s
  {
    RestoredSlotTyped(f, s);
    match f.htype
    case Required => ItemSame(f, s.value);
    case Optional(hasFlag) => ItemSame(f, if hasFlag then s.stored else s.value);
    case Repeated(_) =>
      var back := RestoredSlot(f, s).items;
      forall j | 0 <= j < |s.items|
        ensures TypedItem(f, s.items[j]) && TypedItem(f, back[j]) && EncItem(f, back[j]) == EncItem(f, s.items[j])
      {
        ItemSame(f, s.items[j]);
      }
      ItemsSame(f, s.items, back, 0, Packable(f.ltype));
    case OneOf(_) => if s.member.Some? { ItemSame(f, s.member.value); }
  }

  lemma {:induction false} ItemsSame(f: Field, a: seq<Value>, b: seq<Value>, j: nat, packed: bool)
    requires |a| == |b| && j <= |a| && (forall v :: v in a ==> TypedItem(f, v)) && forall v :: v in b ==> TypedItem(f, v)
    requires forall k :: 0 <= k < |a| ==> TypedItem(f, a[k]) && TypedItem(f, b[k]) && EncItem(f, b[k]) == EncItem(f, a[k])
    ensures EncItems(f, b, j, packed) == EncItems(f, a, j, packed)
    decreases |a| - j
  {
    if j < |a| { ItemsSame(f, a, b, j + 1, packed); }
  }

  /** What is restored cannot be told from the original by encoding it again. */
  lemma {:induction false} FieldsSame(fields: seq<Field>, slots: seq<Slot>, i: nat)
    requires GoodFields(fields) && Typed(fields, slots) && i <= |fields|
    ensures Typed(fields, Restored(fields, slots)) && EncFrom(fields, Restored(fields, slots), i) == EncFrom(fields, slots, i)
    ensures AllDefault(fields, Restored(fields, slots)) <==> AllDefault(fields, slots)
    decreases slots, |slots| - i
  {
    RestoredTyped(fields, slots);
    var back := Restored(fields, slots);
    forall k | 0 <= k < |fields|
      ensures TypedSlot(fields[k], slots[k]) && TypedSlot(fields[k], back[k]) && EncSlot(fields[k], back[k]) == EncSlot(fields[k], slots[k])
      ensures IsDefault(fields[k], back[k]) <==> IsDefault(fields[k], slots[k])
    {
      assert fields[k] in fields;
      SlotSame(fields[k], slots[k]);
    }
    if i < |fields| { FieldsSame(fields, slots, i + 1); }
  }
}
