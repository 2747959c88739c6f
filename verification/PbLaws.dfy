/** Laws of decoding that no single encoding shows: unknown fields, repeated fields, values that do not fit. */
module PbLaws {
  import opened Codings
  import opened PbDecoding
  import opened PbEncoding
  import opened PbMessages
  import opened PbRoundTrips
  import opened Versions

  // ----- Unknown fields -----

  // What may follow a tag of each wire type: a varint, eight bytes, a length and that many bytes, or four bytes.
  ghost predicate Payload(wireType: nat, b: Bytes) {
    || (wireType == 0 && b != [] && b[|b| - 1] < 128 && forall i :: 0 <= i < |b| - 1 ==> b[i] >= 128)
    || (wireType == 1 && |b| == 8)
    || (wireType == 2 && exists x: Bytes :: |x| < TWO_32 && b == Codings.Varint(|x|) + x)
    || (wireType == 5 && |b| == 4)
  }

  lemma {:induction false} SkipVarintPasses(b: Bytes, rest: Bytes)
    requires Payload(0, b)
    ensures SkipVarint(b + rest) == Some(rest)
  {
    if |b| == 1 {
      assert (b + rest)[1..] == rest;
    } else {
      assert (b + rest)[1..] == b[1..] + rest;
      SkipVarintPasses(b[1..], rest);
    }
  }

  lemma SkipPasses(wireType: nat, b: Bytes, rest: Bytes)
    requires Payload(wireType, b)
    ensures Skip(wireType, b + rest) == Some(rest)
  {
    hide SkipVarint, Varint32, Codings.Varint;
    if wireType == 0 {
      SkipVarintPasses(b, rest);
    } else if wireType == 2 {
      var x: Bytes :| |x| < TWO_32 && b == Codings.Varint(|x|) + x;
      Varint32Inverts(|x|, x + rest);
      assert b + rest == Codings.Varint(|x|) + (x + rest) && (x + rest)[|x|..] == rest;
    } else {
      assert (b + rest)[|b|..] == rest;
    }
  }

  predicate Unknown(fields: seq<Field>, tag: nat) { 0 < tag < MAX_TAG && !exists i :: 0 <= i < |fields| && fields[i].tag == tag }

  // One step of decoding, on a tag the descriptor lacks.
  lemma UnknownStep(fields: seq<Field>, slots: seq<Slot>, tag: nat, wireType: nat, body: Bytes, fixed: Option<nat>, count: nat, seen: set<nat>)
    requires GoodFields(fields) && Typed(fields, slots) && Unknown(fields, tag) && wireType < 8
    ensures DecodeFrom(fields, slots, Tag(wireType, tag) + body, fixed, count, seen)
      == match Skip(wireType, body) case None => None case Some(rest) => DecodeFrom(fields, slots, rest, fixed, count, seen)
  {
    hide DecodeTag, Codings.Varint, Skip, Finish;
    TagInverts(wireType, tag, body);
  }

  /** A field the descriptor lacks is passed over, whatever it holds. */
  lemma UnknownFieldSkipped(fields: seq<Field>, slots: seq<Slot>, tag: nat, wireType: nat, payload: Bytes, rest: Bytes,
                            fixed: Option<nat>, count: nat, seen: set<nat>)
    requires GoodFields(fields) && Typed(fields, slots) && Unknown(fields, tag) && Payload(wireType, payload)
    ensures DecodeFrom(fields, slots, Tag(wireType, tag) + (payload + rest), fixed, count, seen)
      == DecodeFrom(fields, slots, rest, fixed, count, seen)
  {
    SkipPasses(wireType, payload, rest);
    hide DecodeFrom, Skip;
    UnknownStep(fields, slots, tag, wireType, payload + rest, fixed, count, seen);
  }

  /** One of a wire type that does not exist ends the decoding. */
  lemma UnknownTypeFails(fields: seq<Field>, slots: seq<Slot>, tag: nat, wireType: nat, rest: Bytes,
                         fixed: Option<nat>, count: nat, seen: set<nat>)
    requires GoodFields(fields) && Typed(fields, slots) && Unknown(fields, tag) && wireType in {3, 4, 6, 7}
    ensures DecodeFrom(fields, slots, Tag(wireType, tag) + rest, fixed, count, seen) == None
  {
    hide DecodeFrom;
    UnknownStep(fields, slots, tag, wireType, rest, fixed, count, seen);
  }

  // ----- Unknown fields among known ones -----

  datatype Extra = Extra(tag: nat, wireType: nat, payload: Bytes)

  function ExtraBytes(xs: seq<Extra>): Bytes {
    if xs == [] then [] else Tag(xs[0].wireType, xs[0].tag) + xs[0].payload + ExtraBytes(xs[1..])
  }

  ghost predicate AllUnknown(fields: seq<Field>, xs: seq<Extra>) {
    forall i :: 0 <= i < |xs| ==> Unknown(fields, xs[i].tag) && Payload(xs[i].wireType, xs[i].payload)
  }

  lemma {:induction false} ExtrasSkipped(fields: seq<Field>, slots: seq<Slot>, xs: seq<Extra>, rest: Bytes, fixed: Option<nat>, count: nat, seen: set<nat>)
    requires GoodFields(fields) && Typed(fields, slots) && AllUnknown(fields, xs)
    ensures DecodeFrom(fields, slots, ExtraBytes(xs) + rest, fixed, count, seen) == DecodeFrom(fields, slots, rest, fixed, count, seen)
  {
    hide DecodeFrom, Payload, Tag;
    if xs == [] {
      assert [] + rest == rest;
    } else {
      var x, more := xs[0], ExtraBytes(xs[1..]);
      assert Tag(x.wireType, x.tag) + x.payload + more + rest == Tag(x.wireType, x.tag) + (x.payload + (more + rest));
      UnknownFieldSkipped(fields, slots, x.tag, x.wireType, x.payload, more + rest, fixed, count, seen);
      ExtrasSkipped(fields, slots, xs[1..], rest, fixed, count, seen);
    }
  }

  // The encoding of the fields from the i-th on, with extra fields before each of them and at the end.
  function EncWith(fields: seq<Field>, slots: seq<Slot>, extras: seq<seq<Extra>>, i: nat): Option<Bytes>
    requires Typed(fields, slots) && i <= |fields| && |extras| == |fields| + 1
    decreases |fields| - i
  {
    if i == |fields| then Some(ExtraBytes(extras[i]))
    else
      assert TypedSlot(fields[i], slots[i]);
      Concat(Some(ExtraBytes(extras[i])), Concat(EncSlot(fields[i], slots[i]), EncWith(fields, slots, extras, i + 1)))
  }

  lemma EndsWhole(fields: seq<Field>, slots: seq<Slot>, extra: seq<Extra>, fixed: Option<nat>, count: nat, seen: set<nat>)
    requires GoodFields(fields) && Typed(fields, slots) && Typed(fields, Mixed(fields, slots, |fields|)) && AllUnknown(fields, extra)
    requires Complete(fields, fixed, count) && SeenBefore(fields, |fields|, seen)
    ensures DecodeFrom(fields, Mixed(fields, slots, |fields|), ExtraBytes(extra), fixed, count, seen)
      == if Ends(fields, slots, |fields|) then Some(Restored(fields, slots)) else None
  {
    PbRoundTrips.NothingLeft(fields, slots, fixed, count, seen);
    hide DecodeFrom, Mixed, Restored, Ends, Complete, SeenBefore, AllUnknown, ExtraBytes;
    ExtrasSkipped(fields, Mixed(fields, slots, |fields|), extra, [], fixed, count, seen);
    assert ExtraBytes(extra) + [] == ExtraBytes(extra);
  }

  lemma WithStep(fields: seq<Field>, slots: seq<Slot>, extras: seq<seq<Extra>>, i: nat)
    requires Typed(fields, slots) && i < |fields| && |extras| == |fields| + 1 && EncWith(fields, slots, extras, i).Some?
    ensures TypedSlot(fields[i], slots[i]) && EncSlot(fields[i], slots[i]).Some? && EncWith(fields, slots, extras, i + 1).Some?
    ensures EncWith(fields, slots, extras, i).value
      == ExtraBytes(extras[i]) + (EncSlot(fields[i], slots[i]).value + EncWith(fields, slots, extras, i + 1).value)
  {
    hide EncSlot, ExtraBytes;
  }

  // Extra fields, and then one of the message's own.
  lemma FieldBackWith(fields: seq<Field>, slots: seq<Slot>, extra: seq<Extra>, i: nat, rest: Bytes, fixed: Option<nat>, count: nat, seen: set<nat>)
      returns (fixed': Option<nat>, count': nat)
    requires GoodFields(fields) && Typed(fields, slots) && i < |fields| && TypedSlot(fields[i], slots[i]) && AllUnknown(fields, extra)
    requires EncSlot(fields[i], slots[i]).Some? && |EncSlot(fields[i], slots[i]).value| < TWO_32
    requires Complete(fields, fixed, count) && (fixed.Some? ==> fixed.value < i)
    ensures Complete(fields, fixed', count') && (fixed'.Some? ==> fixed'.value < i + 1)
    ensures Typed(fields, Mixed(fields, slots, i)) && Typed(fields, Mixed(fields, slots, i + 1))
    ensures DecodeFrom(fields, Mixed(fields, slots, i), ExtraBytes(extra) + (EncSlot(fields[i], slots[i]).value + rest), fixed, count, seen)
      == if EndsSlot(fields[i], slots[i]) then DecodeFrom(fields, Mixed(fields, slots, i + 1), rest, fixed', count', Seen(fields, i, seen)) else None
  {
    var f := fields[i];
    assert f in fields && GoodField(f);
    hide DecodeFrom, EncSlot, EndsSlot, Mixed, Complete, AllUnknown, ExtraBytes, GoodFields, GoodField, Typed, TypedSlot, Seen;
    SlotBack(f, slots[i]);
    fixed', count' := FieldBack(fields, slots, i, rest, fixed, count, seen);
    ExtrasSkipped(fields, Mixed(fields, slots, i), extra, EncSlot(f, slots[i]).value + rest, fixed, count, seen);
  }

  lemma {:induction false} FieldsBackWith(fields: seq<Field>, slots: seq<Slot>, extras: seq<seq<Extra>>, i: nat, fixed: Option<nat>, count: nat, seen: set<nat>)
    requires GoodFields(fields) && Typed(fields, slots) && i <= |fields| && |extras| == |fields| + 1
    requires forall k :: 0 <= k < |extras| ==> AllUnknown(fields, extras[k])
    requires EncWith(fields, slots, extras, i).Some? && |EncWith(fields, slots, extras, i).value| < TWO_32
    requires Complete(fields, fixed, count) && (fixed.Some? ==> fixed.value < i) && SeenBefore(fields, i, seen)
    ensures Typed(fields, Mixed(fields, slots, i))
    ensures DecodeFrom(fields, Mixed(fields, slots, i), EncWith(fields, slots, extras, i).value, fixed, count, seen)
      == if Ends(fields, slots, i) then Some(Restored(fields, slots)) else None
    decreases |fields| - i
  {
    hide DecodeFrom, EncSlot, EndsSlot, Mixed, Restored, SeenBefore, Complete, AllUnknown, ExtraBytes, GoodFields, GoodField, Typed, TypedSlot, Ends, Seen;
    if i == |fields| {
      MixedTyped(fields, slots, i);
      EndsWhole(fields, slots, extras[i], fixed, count, seen);
    } else {
      WithStep(fields, slots, extras, i);
      hide EncWith;
      var rest := EncWith(fields, slots, extras, i + 1).value;
      var fixed', count' := FieldBackWith(fields, slots, extras[i], i, rest, fixed, count, seen);
      SeenNext(fields, i, seen);
      FieldsBackWith(fields, slots, extras, i + 1, fixed', count', Seen(fields, i, seen));
      EndsNext(fields, slots, i);
    }
  }

  /** Fields unknown to the receiver, anywhere between the known ones, change nothing of the round trip. */
  lemma RoundTripWith(fields: seq<Field>, slots: seq<Slot>, extras: seq<seq<Extra>>)
    requires GoodFields(fields) && Typed(fields, slots) && |extras| == |fields| + 1
    requires forall k :: 0 <= k < |extras| ==> AllUnknown(fields, extras[k])
    requires EncWith(fields, slots, extras, 0).Some? && |EncWith(fields, slots, extras, 0).value| < TWO_32
    ensures Decode(fields, EncWith(fields, slots, extras, 0).value) == if Ends(fields, slots, 0) then Some(Restored(fields, slots)) else None
  {
    assert Mixed(fields, slots, 0) == Defaults(fields);
    FieldsBackWith(fields, slots, extras, 0, None, 0, {});
  }

  // ----- A receiver that lacks one of the sender's fields -----

  lemma {:induction false} VarintIsPayload(n: nat)
    ensures Payload(0, Codings.Varint(n))
  {
    if n >= 128 {
      VarintIsPayload(n / 128);
      assert Codings.Varint(n) == [(n % 128 + 128) as Byte] + Codings.Varint(n / 128);
    }
  }

  lemma ItemIsPayload(f: Field, v: Value)
    requires TypedItem(f, v) && EncItem(f, v).Some? && |EncItem(f, v).value| < TWO_32
    ensures Payload(WireType(f.ltype), EncItem(f, v).value)
  {
    FixedWidths();
    hide Codings.Varint, EncFrom, Zigzag, Fixed;
    match f.ltype
    case Bool => VarintIsPayload(v.n);
    case Uvarint => VarintIsPayload(Wrap64(v.n));
    case Varint => VarintIsPayload(Wrap64(v.n));
    case Svarint => VarintIsPayload(Wrap64(Zigzag(Signed(f, v))));
    case Fixed32 =>
    case Fixed64 =>
    case BytesArray => LengthedIsPayload(v.b);
    case CString => LengthedIsPayload(v.b[..StrLen(v.b)]);
    case FixedLengthBytes => LengthedIsPayload(v.b);
    case Submessage(fs) => LengthedIsPayload(EncFrom(fs, v.slots, 0).value);
  }

  lemma LengthedIsPayload(b: Bytes)
    requires |Lengthed(b)| < TWO_32
    ensures Payload(2, Lengthed(b))
  {
    assert Wrap64(|b|) == |b|;
  }

  predicate AllTagged(xs: seq<Extra>, tag: nat) { forall i :: 0 <= i < |xs| ==> xs[i].tag == tag }

  ghost predicate AllPayloads(xs: seq<Extra>) { forall i :: 0 <= i < |xs| ==> Payload(xs[i].wireType, xs[i].payload) }

  lemma OneExtra(x: Extra)
    ensures ExtraBytes([x]) == Tag(x.wireType, x.tag) + x.payload
  {
    assert ExtraBytes([]) == [];
  }

  lemma {:induction false} ItemsAreExtras(f: Field, items: seq<Value>, j: nat) returns (xs: seq<Extra>)
    requires j <= |items| && forall v :: v in items ==> TypedItem(f, v)
    requires EncItems(f, items, j, false).Some? && |EncItems(f, items, j, false).value| < TWO_32
    ensures ExtraBytes(xs) == EncItems(f, items, j, false).value && AllTagged(xs, f.tag) && AllPayloads(xs)
    decreases |items| - j
  {
    hide EncItem, Payload, Tag;
    xs := [];
    if j < |items| {
      ItemIsPayload(f, items[j]);
      var more := ItemsAreExtras(f, items, j + 1);
      xs := [Extra(f.tag, WireType(f.ltype), EncItem(f, items[j]).value)] + more;
      assert xs[1..] == more;
    }
  }

  // What a slot is encoded as is a sequence of fields with its tag.
  lemma SlotIsExtras(f: Field, s: Slot) returns (xs: seq<Extra>)
    requires TypedSlot(f, s) && EncSlot(f, s).Some? && |EncSlot(f, s).value| < TWO_32
    ensures ExtraBytes(xs) == EncSlot(f, s).value && AllTagged(xs, f.tag) && AllPayloads(xs)
  {
    hide EncItem, Payload, Tag, EncItems;
    if Absent(f, s) {
      xs := [];
      AbsentNothing(f, s);
    } else if s.Many? {
      if Packable(f.ltype) {
        var data := EncItems(f, s.items, 0, true).value;
        LengthedIsPayload(data);
        xs := [Extra(f.tag, WT_STRING, Lengthed(data))];
        OneExtra(xs[0]);
      } else {
        xs := ItemsAreExtras(f, s.items, 0);
      }
    } else {
      SentIs(f, s);
      ItemIsPayload(f, Sent(s));
      xs := [Extra(f.tag, WireType(f.ltype), EncItem(f, Sent(s)).value)];
      OneExtra(xs[0]);
    }
  }

  lemma AbsentNothing(f: Field, s: Slot)
    requires TypedSlot(f, s) && Absent(f, s) && EncSlot(f, s).Some?
    ensures EncSlot(f, s).value == []
  {
  }

  function Without<T>(s: seq<T>, k: nat): (r: seq<T>)
    requires k < |s|
    ensures |r| == |s| - 1 && forall i :: 0 <= i < |r| ==> r[i] == s[if i < k then i else i + 1]
  {
    s[..k] + s[k + 1..]
  }

  lemma WithoutTyped(fields: seq<Field>, slots: seq<Slot>, k: nat)
    requires GoodFields(fields) && Typed(fields, slots) && k < |fields|
    ensures GoodFields(Without(fields, k)) && Typed(Without(fields, k), Without(slots, k)) && Unknown(Without(fields, k), fields[k].tag)
  {
    var mine, own := Without(fields, k), Without(slots, k);
    forall f | f in mine ensures GoodField(f) {
      var i :| 0 <= i < |mine| && mine[i] == f;
      assert fields[if i < k then i else i + 1] in fields;
    }
    assert fields[k] in fields;
  }

  // Where the sender's encoding of the missing field stands among the others.
  function Gap(n: nat, k: nat, xs: seq<Extra>): (extras: seq<seq<Extra>>)
    ensures |extras| == n
  {
    seq(n, i => if i == k then xs else [])
  }

  lemma {:induction false} SentAfterGap(fields: seq<Field>, slots: seq<Slot>, k: nat, xs: seq<Extra>, i: nat)
    requires Typed(fields, slots) && k < i <= |fields| && Typed(Without(fields, k), Without(slots, k))
    ensures EncWith(Without(fields, k), Without(slots, k), Gap(|fields|, k, xs), i - 1)
      == if i - 1 == k then Concat(Some(ExtraBytes(xs)), EncFrom(fields, slots, i)) else EncFrom(fields, slots, i)
    decreases |fields| - i
  {
    hide EncSlot;
    var rest := EncFrom(fields, slots, i);
    if i == |fields| {
      if i - 1 == k { ConcatNothing(Some(ExtraBytes(xs))); }
    } else {
      SentAfterGap(fields, slots, k, xs, i + 1);
      ConcatNothing(EncFrom(fields, slots, i));
    }
  }

  lemma ConcatNothing(a: Option<Bytes>)
    ensures Concat(a, Some([])) == a && Concat(Some([]), a) == a
  {
    if a.Some? { assert a.value + [] == a.value && [] + a.value == a.value; }
  }

  lemma {:induction false} SentWithGap(fields: seq<Field>, slots: seq<Slot>, k: nat, xs: seq<Extra>, i: nat)
    requires Typed(fields, slots) && i <= k < |fields| && Typed(Without(fields, k), Without(slots, k))
    requires EncSlot(fields[k], slots[k]) == Some(ExtraBytes(xs))
    ensures EncWith(Without(fields, k), Without(slots, k), Gap(|fields|, k, xs), i) == EncFrom(fields, slots, i)
    decreases k - i
  {
    hide EncSlot;
    if i == k {
      SentAfterGap(fields, slots, k, xs, k + 1);
    } else {
      SentWithGap(fields, slots, k, xs, i + 1);
      ConcatNothing(EncFrom(fields, slots, i));
    }
  }

  /** A receiver whose descriptor lacks one of the sender's fields restores all the others. */
  lemma ReceiverLacksOne(fields: seq<Field>, slots: seq<Slot>, k: nat)
    requires GoodFields(fields) && Typed(fields, slots) && k < |fields|
    requires EncFrom(fields, slots, 0).Some? && |EncFrom(fields, slots, 0).value| < TWO_32
    ensures GoodFields(Without(fields, k)) && Typed(Without(fields, k), Without(slots, k))
    ensures var mine, own := Without(fields, k), Without(slots, k);
      Decode(mine, EncFrom(fields, slots, 0).value) == if Ends(mine, own, 0) then Some(Restored(mine, own)) else None
  {
    WithoutTyped(fields, slots, k);
    SlotSent(fields, slots, k, 0);
    hide Decode, EncSlot, EncFrom, Ends, Restored, Typed, GoodFields, ExtraBytes;
    var xs := SlotIsExtras(fields[k], slots[k]);
    SentWithGap(fields, slots, k, xs, 0);
    GapUnknown(Without(fields, k), |fields|, k, xs, fields[k].tag);
    RoundTripWith(Without(fields, k), Without(slots, k), Gap(|fields|, k, xs));
  }

  lemma GapUnknown(mine: seq<Field>, n: nat, k: nat, xs: seq<Extra>, tag: nat)
    requires Unknown(mine, tag) && AllTagged(xs, tag) && AllPayloads(xs)
    ensures forall i :: 0 <= i < n ==> AllUnknown(mine, Gap(n, k, xs)[i])
  {
    hide Payload, Unknown;
    assert AllUnknown(mine, []) && AllUnknown(mine, xs);
  }

  lemma {:induction false} SlotSent(fields: seq<Field>, slots: seq<Slot>, k: nat, i: nat)
    requires Typed(fields, slots) && i <= k < |fields| && EncFrom(fields, slots, i).Some? && |EncFrom(fields, slots, i).value| < TWO_32
    ensures TypedSlot(fields[k], slots[k]) && EncSlot(fields[k], slots[k]).Some? && |EncSlot(fields[k], slots[k]).value| < TWO_32
    decreases k - i
  {
    hide EncSlot;
    if i < k { SlotSent(fields, slots, k, i + 1); }
  }

  // ----- A field more than once, and values that do not fit -----

  // A field that is not repeated, as sent.
  function SentAs(f: Field, v: Value): Bytes
    requires TypedItem(f, v) && EncItem(f, v).Some?
  {
    Tag(WireType(f.ltype), f.tag) + EncItem(f, v).value
  }

  predicate Sendable(f: Field, v: Value) {
    GoodField(f) && !f.ltype.Submessage? && !f.htype.Repeated? && TypedItem(f, v) && EncItem(f, v).Some? && |EncItem(f, v).value| < TWO_32
  }

  lemma ScalarGiven(fields: seq<Field>, slots: seq<Slot>, i: nat, v: Value, rest: Bytes, c: nat)
    requires GoodFields(fields) && Typed(fields, slots) && i < |fields| && Sendable(fields[i], v) && EndsItem(fields[i], v)
    ensures TypedItem(fields[i], RestoredItem(fields[i], v))
    ensures DecodeField(fields, i, State(slots, c), WireType(fields[i].ltype), EncItem(fields[i], v).value + rest)
      == Got(State(Set(fields, slots, i, Given(fields[i], RestoredItem(fields[i], v))), c), rest)
  {
    var f := fields[i];
    RestoredItemTyped(f, v);
    hide DecodeFrom, DecodeScalar, EncItem, EndsItem, RestoredItem, Set, Given, Base, DecodeRepeated;
    ScalarInverts(f, v, rest);
    assert TypedSlot(f, slots[i]);
  }

  lemma ScalarStep(fields: seq<Field>, slots: seq<Slot>, i: nat, v: Value, rest: Bytes, fixed: Option<nat>, count: nat, seen: set<nat>)
    requires GoodFields(fields) && Typed(fields, slots) && i < |fields| && Sendable(fields[i], v) && EndsItem(fields[i], v)
    ensures TypedItem(fields[i], RestoredItem(fields[i], v))
    ensures DecodeFrom(fields, slots, SentAs(fields[i], v) + rest, fixed, count, seen)
      == DecodeFrom(fields, Set(fields, slots, i, Given(fields[i], RestoredItem(fields[i], v))), rest, fixed, count, Seen(fields, i, seen))
  {
    var f, e := fields[i], EncItem(fields[i], v).value;
    hide DecodeFrom, DecodeField, EncItem, EndsItem, RestoredItem, Set, Given, Tag, GoodFields, GoodField, Typed, TypedItem, Seen, Complete;
    ScalarGiven(fields, slots, i, v, rest, count);
    assert Tag(WireType(f.ltype), f.tag) + e + rest == Tag(WireType(f.ltype), f.tag) + (e + rest);
    FieldThen(fields, slots, i, WireType(f.ltype), e + rest, fixed, count, seen, count, DecodeField(fields, i, State(slots, count), WireType(f.ltype), e + rest));
  }

  /** Of a field sent twice, the last value counts. */
  lemma LastWins(fields: seq<Field>, slots: seq<Slot>, i: nat, v: Value, w: Value, rest: Bytes, fixed: Option<nat>, count: nat, seen: set<nat>)
    requires GoodFields(fields) && Typed(fields, slots) && i < |fields|
    requires Sendable(fields[i], v) && EndsItem(fields[i], v) && Sendable(fields[i], w) && EndsItem(fields[i], w)
    ensures DecodeFrom(fields, slots, SentAs(fields[i], v) + (SentAs(fields[i], w) + rest), fixed, count, seen)
      == DecodeFrom(fields, slots, SentAs(fields[i], w) + rest, fixed, count, seen)
  {
    var f := fields[i];
    hide DecodeFrom, SentAs, Sendable, EndsItem, RestoredItem;
    ScalarStep(fields, slots, i, v, SentAs(f, w) + rest, fixed, count, seen);
    var once := Set(fields, slots, i, Given(f, RestoredItem(f, v)));
    ScalarStep(fields, once, i, w, rest, fixed, count, Seen(fields, i, seen));
    ScalarStep(fields, slots, i, w, rest, fixed, count, seen);
    SetTwice(fields, slots, i, Given(f, RestoredItem(f, v)), Given(f, RestoredItem(f, w)));
    assert Seen(fields, i, Seen(fields, i, seen)) == Seen(fields, i, seen);
  }

  lemma SetTwice(fields: seq<Field>, slots: seq<Slot>, i: nat, a: Slot, b: Slot)
    requires Typed(fields, slots) && i < |fields| && TypedSlot(fields[i], a) && TypedSlot(fields[i], b)
    ensures Set(fields, Set(fields, slots, i, a), i, b) == Set(fields, slots, i, b)
  {
  }

  lemma FullRefuses(f: Field, items: seq<Value>, wireType: nat, body: Bytes, c: nat)
    requires GoodField(f) && f.htype == Repeated(true) && TypedSlot(f, Many(items)) && |items| == f.arraySize
    requires wireType == 2 && Packable(f.ltype) ==> PackedItems(body)
    ensures DecodeRepeated(f, body, items, c, wireType).Failed?
  {
    hide Varint32, Codings.Varint, DecodeItem;
    if wireType == 2 && Packable(f.ltype) {
      var data: Bytes, rest: Bytes :| data != [] && |data| < TWO_32 && body == Codings.Varint(|data|) + (data + rest);
      Varint32Inverts(|data|, data + rest);
      assert (data + rest)[..|data|] == data;
      assert DecodePacked(f, data, items, c) == None;
    }
  }

  lemma NoRoomLeft(fields: seq<Field>, slots: seq<Slot>, i: nat, wireType: nat, body: Bytes, c: nat)
    requires GoodFields(fields) && Typed(fields, slots) && i < |fields|
    requires fields[i].htype == Repeated(true) && slots[i].Many? && |slots[i].items| == fields[i].arraySize
    requires wireType == 2 && Packable(fields[i].ltype) ==> PackedItems(body)
    ensures DecodeField(fields, i, State(slots, c), wireType, body).Failed?
  {
    hide PackedItems, DecodeRepeated, DecodeItem;
    assert fields[i] in fields && TypedSlot(fields[i], slots[i]);
    FullRefuses(fields[i], slots[i].items, wireType, body, c);
  }

  // A packed array that is not empty.
  ghost predicate PackedItems(body: Bytes) {
    exists data: Bytes, rest: Bytes :: data != [] && |data| < TWO_32 && body == Codings.Varint(|data|) + (data + rest)
  }

  /** An item for which a repeated field has no room ends the decoding, packed or not. */
  lemma NoRoomFails(fields: seq<Field>, slots: seq<Slot>, i: nat, wireType: nat, body: Bytes, fixed: Option<nat>, count: nat, seen: set<nat>)
    requires GoodFields(fields) && Typed(fields, slots) && i < |fields| && wireType < 8
    requires fields[i].htype == Repeated(true) && slots[i].Many? && |slots[i].items| == fields[i].arraySize
    requires wireType == 2 && Packable(fields[i].ltype) ==> PackedItems(body)
    ensures DecodeFrom(fields, slots, Tag(wireType, fields[i].tag) + body, fixed, count, seen) == None
  {
    hide DecodeFrom, DecodeField, PackedItems, GoodFields, Typed, Tag;
    NoRoomLeft(fields, slots, i, wireType, body, count);
    FieldThen(fields, slots, i, wireType, body, fixed, count, seen, count, DecodeField(fields, i, State(slots, count), wireType, body));
  }

  /** A string or bytes field takes exactly what it has room for: a string with its terminator,
      bytes after a size of four bytes, and of fixed-length bytes just that many, or none for zeros. */
  lemma RoomIsExact(f: Field, b: Bytes, rest: Bytes)
    requires |b| < TWO_32 && f.dataSize < TWO_32
    ensures f.ltype.CString? ==> DecodeBlob(f, Lengthed(b) + rest) == if |b| < f.dataSize then Got(Blob(b), rest) else Failed(false)
    ensures f.ltype.BytesArray? ==> DecodeBlob(f, Lengthed(b) + rest) == if |b| + 4 <= f.dataSize then Got(Blob(b), rest) else Failed(false)
    ensures f.ltype.FixedLengthBytes? && |b| == 0 ==> DecodeBlob(f, Lengthed(b) + rest) == Got(Blob(Zeros(f.dataSize)), rest)
    ensures f.ltype.FixedLengthBytes? && |b| != 0 ==> DecodeBlob(f, Lengthed(b) + rest) == if |b| == f.dataSize then Got(Blob(b), rest) else Failed(false)
  {
    LengthedInverts(b, rest);
    hide Lengthed, Varint32;
    assert b == [] ==> b + rest == rest;
  }

  /** Unsigned integers are taken exactly when they fit the field. */
  lemma UnsignedIsExact(f: Field, n: nat, rest: Bytes)
    requires f.ltype.Uvarint? && IntSize(f.dataSize) && n < TWO_64
    ensures DecodeInt(f, Codings.Varint(n) + rest) == if n < Pow256(f.dataSize) then Got(Num(n), rest) else Failed(false)
  {
    hide Codings.Varint, Varint64;
    HalfPow(f.dataSize);
    Varint64Inverts(n, rest);
    if n < Pow256(f.dataSize) {
      UnsignedFits(n, f.dataSize);
    } else {
      Remainder(n, Pow256(f.dataSize));
    }
  }

  lemma Remainder(n: nat, m: nat)
    requires 0 < m <= n
    ensures n % m != n
  {
  }

  /** Signed integers are taken exactly when they fit; in a field of less than eight bytes only the
      low 32 bits of a plain one are looked at. */
  lemma SignedIsExact(f: Field, n: int, rest: Bytes)
    requires IntSize(f.dataSize)
    ensures f.ltype.Svarint? && InSigned(n, 8) ==>
      DecodeInt(f, Codings.Varint(Zigzag(n)) + rest) == if InSigned(n, f.dataSize) then Got(Num(n), rest) else Failed(false)
    ensures f.ltype.Varint? && InSigned(n, if f.dataSize == 8 then 8 else 4) ==>
      DecodeInt(f, Codings.Varint(Wrap64(n)) + rest) == if InSigned(n, f.dataSize) then Got(Num(n), rest) else Failed(false)
  {
    hide Codings.Varint, Varint64, Pow256, Zigzag, Wrap64, ToSigned;
    if f.ltype.Svarint? && InSigned(n, 8) {
      ZigzagInverts(n);
      Varint64Inverts(Zigzag(n), rest);
      ClampedIff(n, f.dataSize);
    }
    if f.ltype.Varint? && InSigned(n, if f.dataSize == 8 then 8 else 4) {
      ToSignedIs(n, if f.dataSize == 8 then 8 else 4);
      WrapFits(n);
      Varint64Inverts(Wrap64(n), rest);
      ClampedIff(n, f.dataSize);
    }
  }

  lemma WrapFits(n: int)
    ensures Wrap64(n) < TWO_64
  {
  }

  lemma ClampedIff(n: int, size: nat)
    requires IntSize(size)
    ensures ToSigned(n, size) == n <==> InSigned(n, size)
  {
    if InSigned(n, size) { ToSignedIs(n, size); }
  }

  // ----- What is sent at all -----

  // No part is sent for its own sake: nothing required, no fixed-count array and no fixed-length bytes.
  predicate Plain(f: Field)
    decreases f
  {
    && !f.htype.Required? && !FixedCount(f) && !f.ltype.FixedLengthBytes?
    && (f.ltype.Submessage? ==> forall g :: g in f.ltype.fields ==> Plain(g))
  }

  lemma {:induction false} ZeroIffDefault(f: Field, v: Value)
    requires GoodField(f) && Plain(f) && f.init.None? && TypedItem(f, v)
    ensures IsZero(f, v) <==> RestoredItem(f, v) == DefaultItem(f)
    decreases v, 0
  {
    match f.ltype
    case Submessage(fs) => AllIffDefault(fs, v.slots);
    case CString => if StrLen(v.b) > 0 { assert v.b[..StrLen(v.b)][0] == v.b[0]; }
    case _ =>
  }

  lemma {:induction false} AllIffDefault(fields: seq<Field>, slots: seq<Slot>)
    requires GoodFields(fields) && Typed(fields, slots) && forall f :: f in fields ==> Plain(f)
    ensures AllDefault(fields, slots) <==> Restored(fields, slots) == Defaults(fields)
    decreases slots, 0
  {
    forall i | 0 <= i < |slots| ensures IsDefault(fields[i], slots[i]) <==> Restored(fields, slots)[i] == Defaults(fields)[i] {
      assert fields[i] in fields && TypedSlot(fields[i], slots[i]);
      SlotIffDefault(fields[i], slots[i]);
    }
  }

  lemma {:induction false} SlotIffDefault(f: Field, s: Slot)
    requires GoodField(f) && Plain(f) && TypedSlot(f, s)
    ensures IsDefault(f, s) <==> RestoredSlot(f, s) == DefaultSlot(f)
    decreases s, 0
  {
    if f.htype == Optional(false) { ZeroIffDefault(f, s.value); }
  }

  lemma TagNonempty(f: Field, e: Option<Bytes>)
    requires Tagged(f, e).Some?
    ensures Tagged(f, e).value != []
  {
  }

  lemma ItemsNonempty(f: Field, items: seq<Value>)
    requires items != [] && (forall v :: v in items ==> TypedItem(f, v)) && EncArray(f, items).Some?
    ensures EncArray(f, items).value != []
  {
    hide EncItem;
  }

  /** A field is sent unless it is not set, or if it cannot say so, unless the receiver would make the
      same of nothing. */
  lemma SentIff(f: Field, s: Slot)
    requires GoodField(f) && TypedSlot(f, s) && EncSlot(f, s).Some?
    ensures f.htype.Required? ==> EncSlot(f, s).value != []
    ensures f.htype == Optional(true) ==> (EncSlot(f, s).value == [] <==> !s.has)
    ensures f.htype.OneOf? ==> (EncSlot(f, s).value == [] <==> s.member.None?)
    ensures f.htype.Repeated? ==> (EncSlot(f, s).value == [] <==> s.items == [])
    ensures f.htype == Optional(false) && Plain(f) ==> (EncSlot(f, s).value == [] <==> RestoredItem(f, s.value) == DefaultItem(f))
  {
    if f.htype == Optional(false) && Plain(f) { ZeroIffDefault(f, s.value); }
    hide EncItem, Tagged, RestoredItem, DefaultItem, IsZero, Plain, EncArray;
    match f.htype
    case Required => TagNonempty(f, EncItem(f, s.value));
    case Optional(hasFlag) => if EncSlot(f, s).value != [] || !Absent(f, s) { TagNonempty(f, EncItem(f, if hasFlag then s.stored else s.value)); }
    case OneOf(_) => if s.member.Some? { TagNonempty(f, EncItem(f, s.member.value)); }
    case Repeated(_) => if s.items != [] { ItemsNonempty(f, s.items); } else { NothingSent(f); }
  }

  lemma NothingSent(f: Field)
    ensures EncArray(f, []) == Some([])
  {
  }

  // ----- The end of a message -----

  /** A zero ends the message: what follows it is not looked at. */
  lemma ZeroEnds(fields: seq<Field>, slots: seq<Slot>, rest: Bytes, fixed: Option<nat>, count: nat, seen: set<nat>)
    requires GoodFields(fields) && Typed(fields, slots)
    ensures DecodeFrom(fields, slots, [0] + rest, fixed, count, seen) == DecodeFrom(fields, slots, [], fixed, count, seen)
  {
    assert ([0] + rest)[0] == 0;
  }

  // The fields met while decoding.
  function Met(fields: seq<Field>, slots: seq<Slot>, s: Bytes, fixed: Option<nat>, count: nat): set<nat>
    requires GoodFields(fields) && Typed(fields, slots)
    decreases |s|
  {
    match DecodeTag(s)
    case Failed(_) => {}
    case Got(key, rest) =>
      if !HasTag(fields, key.tag) then
        (match Skip(key.wireType, rest)
        case None => {}
        case Some(rest') => Met(fields, slots, rest', fixed, count))
      else if fields == [] then {}
      else
        var i := IndexOf(fields, key.tag);
        var anew := FixedCount(fields[i]) && fixed != Some(i);
        match DecodeField(fields, i, State(slots, if anew then 0 else count), key.wireType, rest)
        case Failed(_) => {i}
        case Got(st, rest') => {i} + Met(fields, st.slots, rest', if anew then Some(i) else fixed, if FixedCount(fields[i]) then st.count else count)
  }

  lemma {:induction false} MetOrSeen(fields: seq<Field>, slots: seq<Slot>, s: Bytes, fixed: Option<nat>, count: nat, seen: set<nat>, k: nat)
    requires GoodFields(fields) && Typed(fields, slots) && fields != [] && k < |fields| && fields[k].htype.Required? && RequiredBefore(fields, k) < 64
    requires DecodeFrom(fields, slots, s, fixed, count, seen).Some?
    ensures RequiredBefore(fields, k) in seen || k in Met(fields, slots, s, fixed, count)
    decreases |s|
  {
    hide DecodeTag, DecodeField, Skip;
    if s == [] || DecodeTag(s).Failed? {
      FinishSeen(fields, slots, fixed, count, seen, k);
    } else {
      var key, rest := DecodeTag(s).value, DecodeTag(s).rest;
      if !HasTag(fields, key.tag) {
        MetOrSeen(fields, slots, Skip(key.wireType, rest).value, fixed, count, seen, k);
      } else {
        var i := IndexOf(fields, key.tag);
        var anew := FixedCount(fields[i]) && fixed != Some(i);
        var r := DecodeField(fields, i, State(slots, if anew then 0 else count), key.wireType, rest);
        MetOrSeen(fields, r.value.slots, r.rest, if anew then Some(i) else fixed, if FixedCount(fields[i]) then r.value.count else count, Seen(fields, i, seen), k);
        SeenSame(fields, i, seen, k);
      }
    }
  }

  lemma FinishSeen(fields: seq<Field>, slots: seq<Slot>, fixed: Option<nat>, count: nat, seen: set<nat>, k: nat)
    requires k < |fields| && fields[k].htype.Required? && RequiredBefore(fields, k) < 64 && Finish(fields, slots, fixed, count, seen).Some?
    ensures RequiredBefore(fields, k) in seen
  {
    RequiredGrows(fields, k + 1, |fields|);
  }

  lemma {:induction false} RequiredGrows(fields: seq<Field>, a: nat, b: nat)
    requires a <= b <= |fields|
    ensures RequiredBefore(fields, a) <= RequiredBefore(fields, b)
    decreases b - a
  {
    if a < b { RequiredGrows(fields, a, b - 1); }
  }

  lemma SeenSame(fields: seq<Field>, i: nat, seen: set<nat>, k: nat)
    requires i < |fields| && k < |fields| && fields[k].htype.Required?
    ensures RequiredBefore(fields, k) in Seen(fields, i, seen) ==> RequiredBefore(fields, k) in seen || i == k
  {
    if i < k { RequiredGrows(fields, i + 1, k); } else if k < i { RequiredGrows(fields, k + 1, i); }
  }

  /** Decoding succeeds only if the input holds every required field, of the first 64. */
  lemma RequiredAreMet(fields: seq<Field>, s: Bytes, k: nat)
    requires GoodFields(fields) && k < |fields| && fields[k].htype.Required? && RequiredBefore(fields, k) < 64 && Decode(fields, s).Some?
    ensures Typed(fields, Defaults(fields)) && k in Met(fields, Defaults(fields), s, None, 0)
  {
    DefaultsTyped(fields);
    MetOrSeen(fields, Defaults(fields), s, None, 0, {}, k);
  }
}
