/** Messages one after another decode as one, and embedded messages sent more than once are merged. */
module PbMerges {
  import opened Codings
  import opened PbDecoding
  import opened PbEncoding
  import opened PbLaws
  import opened PbMessages
  import opened PbRoundTrips
  import opened Versions

  // ----- What follows a value does not matter to it -----

  // The same value, with more bytes left over.
  function Before<T>(r: Read<T>, more: Bytes): Read<T> {
    match r
    case Failed(eof) => r
    case Got(v, rest) => Got(v, rest + more)
  }

  lemma Rests(s: Bytes, more: Bytes, n: nat)
    requires n <= |s|
    ensures (s + more)[n..] == s[n..] + more && (s + more)[..n] == s[..n]
  {
  }

  lemma {:induction false} More32Stable(s: Bytes, result: nat, bitpos: nat, more: Bytes)
    requires result < TWO_32 && More32(s, result, bitpos).Got?
    ensures More32(s + more, result, bitpos) == Before(More32(s, result, bitpos), more)
    decreases |s|
  {
    hide Or32, Pow2, BadExtension;
    Rests(s, more, 1);
    assert (s + more)[0] == s[0];
    if s[0] >= 128 {
      var next := if bitpos >= 32 then result else Or32(result, ((s[0] % 128) as nat * Pow2(bitpos)) % TWO_32);
      assert next < TWO_32 by { OrFits(result, ((s[0] % 128) as nat * Pow2(bitpos)) % TWO_32); }
      More32Stable(s[1..], next, (bitpos + 7) % 256, more);
    }
  }

  lemma OrFits(a: nat, b: nat)
    ensures Or32(a, b) < TWO_32
  {
  }

  lemma Varint32Stable(s: Bytes, more: Bytes)
    requires Varint32(s).Got?
    ensures Varint32(s + more) == Before(Varint32(s), more)
  {
    hide More32;
    Rests(s, more, 1);
    assert (s + more)[0] == s[0];
    if s[0] >= 128 { More32Stable(s[1..], (s[0] % 128) as nat, 7, more); }
  }

  lemma {:induction false} GetVarintStable(s: Bytes, left: nat, more: Bytes)
    requires GetVarint(s, left).Parsed?
    ensures GetVarint(s + more, left) == Parsed(GetVarint(s, left).value, GetVarint(s, left).rest + more)
  {
    Rests(s, more, 1);
    assert (s + more)[0] == s[0];
    if s[0] >= 128 { GetVarintStable(s[1..], left - 1, more); }
  }

  lemma Varint64Stable(s: Bytes, more: Bytes)
    requires Varint64(s).Got?
    ensures Varint64(s + more) == Before(Varint64(s), more)
  {
    hide GetVarint;
    GetVarintStable(s, 10, more);
  }

  lemma {:induction false} SkipVarintStable(s: Bytes, more: Bytes)
    requires SkipVarint(s).Some?
    ensures SkipVarint(s + more) == Some(SkipVarint(s).value + more)
  {
    Rests(s, more, 1);
    assert (s + more)[0] == s[0];
    if s[0] >= 128 { SkipVarintStable(s[1..], more); }
  }

  lemma SkipStable(wireType: nat, s: Bytes, more: Bytes)
    requires Skip(wireType, s).Some?
    ensures Skip(wireType, s + more) == Some(Skip(wireType, s).value + more)
  {
    hide Varint32, SkipVarint;
    if wireType == WT_VARINT {
      SkipVarintStable(s, more);
    } else if wireType == WT_STRING {
      Varint32Stable(s, more);
      Rests(Varint32(s).rest, more, Varint32(s).value);
    } else {
      Rests(s, more, if wireType == WT_64BIT then 8 else 4);
    }
  }

  lemma DecodeTagStable(s: Bytes, more: Bytes)
    requires DecodeTag(s).Got?
    ensures DecodeTag(s + more) == Before(DecodeTag(s), more)
  {
    hide Varint32;
    Varint32Stable(s, more);
  }

  lemma ScalarStable(f: Field, s: Bytes, more: Bytes)
    requires DecodeScalar(f, s).Got?
    ensures DecodeScalar(f, s + more) == Before(DecodeScalar(f, s), more)
  {
    hide Varint32, Varint64, Pow256, ToSigned, DecodeInt, DecodeBlob;
    match f.ltype
    case Bool => Varint32Stable(s, more);
    case Fixed32 => Rests(s, more, 4);
    case Fixed64 => Rests(s, more, 8);
    case BytesArray => BlobStable(f, s, more);
    case CString => BlobStable(f, s, more);
    case FixedLengthBytes => BlobStable(f, s, more);
    case _ => IntStable(f, s, more);
  }

  lemma IntStable(f: Field, s: Bytes, more: Bytes)
    requires DecodeInt(f, s).Got?
    ensures DecodeInt(f, s + more) == Before(DecodeInt(f, s), more)
  {
    hide Varint64, Pow256, ToSigned;
    Varint64Stable(s, more);
  }

  lemma BlobStable(f: Field, s: Bytes, more: Bytes)
    requires DecodeBlob(f, s).Got?
    ensures DecodeBlob(f, s + more) == Before(DecodeBlob(f, s), more)
  {
    hide Varint32, HasRoom;
    Varint32Stable(s, more);
    var size, rest := Varint32(s).value, Varint32(s).rest;
    if size <= |rest| { Rests(rest, more, size); }
  }

  lemma ItemStable(f: Field, s: Bytes, cur: Value, more: Bytes)
    requires GoodField(f) && TypedItem(f, cur) && DecodeItem(f, s, cur).Got?
    ensures DecodeItem(f, s + more, cur) == Before(DecodeItem(f, s, cur), more)
  {
    hide Varint32, DecodeScalar, DecodeFrom;
    if f.ltype.Submessage? {
      Varint32Stable(s, more);
      Rests(Varint32(s).rest, more, Varint32(s).value);
    } else {
      ScalarStable(f, s, more);
    }
  }

  lemma RepeatedStable(f: Field, s: Bytes, items: seq<Value>, count: nat, wireType: nat, more: Bytes)
    requires GoodField(f) && f.htype.Repeated? && TypedSlot(f, Many(items)) && DecodeRepeated(f, s, items, count, wireType).Got?
    ensures DecodeRepeated(f, s + more, items, count, wireType) == Before(DecodeRepeated(f, s, items, count, wireType), more)
  {
    hide Varint32, DecodeItem, DecodePacked, Put, DefaultItem;
    if wireType == WT_STRING && Packable(f.ltype) {
      Varint32Stable(s, more);
      Rests(Varint32(s).rest, more, Varint32(s).value);
    } else {
      DefaultItemTyped(f);
      ItemStable(f, s, DefaultItem(f), more);
    }
  }

  lemma FieldStable(fields: seq<Field>, i: nat, st: State, wireType: nat, s: Bytes, more: Bytes)
    requires GoodFields(fields) && Typed(fields, st.slots) && i < |fields| && DecodeField(fields, i, st, wireType, s).Got?
    ensures DecodeField(fields, i, st, wireType, s + more) == Before(DecodeField(fields, i, st, wireType, s), more)
  {
    var f, slot := fields[i], st.slots[i];
    assert f in fields && TypedSlot(f, slot);
    hide DecodeItem, DecodeRepeated, Set, Given, Base, GoodFields, Typed;
    if f.htype.Repeated? {
      RepeatedStable(f, s, slot.items, st.count, wireType, more);
    } else {
      ItemStable(f, s, Base(f, slot), more);
    }
  }

  // ----- Messages one after another -----

  // Where the decoding stands between two fields.
  datatype Progress = Progress(slots: seq<Slot>, fixed: Option<nat>, count: nat, seen: set<nat>)

  // How it stands once all of s is read as fields.
  function After(fields: seq<Field>, slots: seq<Slot>, s: Bytes, fixed: Option<nat>, count: nat, seen: set<nat>): (r: Option<Progress>)
    requires GoodFields(fields) && Typed(fields, slots)
    ensures r.Some? ==> Typed(fields, r.value.slots)
    decreases |s|
  {
    if s == [] then Some(Progress(slots, fixed, count, seen))
    else match DecodeTag(s)
      case Failed(_) => None
      case Got(key, rest) =>
        if !HasTag(fields, key.tag) then
          (match Skip(key.wireType, rest)
          case None => None
          case Some(rest') => After(fields, slots, rest', fixed, count, seen))
        else if fields == [] then None
        else
          var i := IndexOf(fields, key.tag);
          var anew := FixedCount(fields[i]) && fixed != Some(i);
          if anew && !Complete(fields, fixed, count) then None
          else match DecodeField(fields, i, State(slots, if anew then 0 else count), key.wireType, rest)
            case Failed(_) => None
            case Got(st, rest') =>
              After(fields, st.slots, rest', if anew then Some(i) else fixed, if FixedCount(fields[i]) then st.count else count, Seen(fields, i, seen))
  }

  /** What follows a message's fields is decoded onto what they left. */
  lemma {:induction false} ConcatGoesOn(fields: seq<Field>, slots: seq<Slot>, s: Bytes, fixed: Option<nat>, count: nat, seen: set<nat>, more: Bytes)
    requires GoodFields(fields) && Typed(fields, slots) && After(fields, slots, s, fixed, count, seen).Some?
    ensures var p := After(fields, slots, s, fixed, count, seen).value;
      DecodeFrom(fields, slots, s + more, fixed, count, seen) == DecodeFrom(fields, p.slots, more, p.fixed, p.count, p.seen)
    decreases |s|
  {
    hide DecodeTag, DecodeField, Skip, Finish;
    if s == [] {
      assert [] + more == more;
    } else {
      DecodeTagStable(s, more);
      var key, rest := DecodeTag(s).value, DecodeTag(s).rest;
      if !HasTag(fields, key.tag) {
        SkipStable(key.wireType, rest, more);
        ConcatGoesOn(fields, slots, Skip(key.wireType, rest).value, fixed, count, seen, more);
      } else {
        var i := IndexOf(fields, key.tag);
        var anew := FixedCount(fields[i]) && fixed != Some(i);
        var st := State(slots, if anew then 0 else count);
        FieldStable(fields, i, st, key.wireType, rest, more);
        var r := DecodeField(fields, i, st, key.wireType, rest);
        ConcatGoesOn(fields, r.value.slots, r.rest, if anew then Some(i) else fixed, if FixedCount(fields[i]) then r.value.count else count, Seen(fields, i, seen), more);
      }
    }
  }

  // No field is required and no array has a fixed count: there is nothing to check at the end.
  predicate Unchecked(fields: seq<Field>) { forall i :: 0 <= i < |fields| ==> !fields[i].htype.Required? && !FixedCount(fields[i]) }

  lemma {:induction false} UncheckedAfter(fields: seq<Field>, slots: seq<Slot>, s: Bytes)
    requires GoodFields(fields) && Typed(fields, slots) && Unchecked(fields) && After(fields, slots, s, None, 0, {}).Some?
    ensures var p := After(fields, slots, s, None, 0, {}).value; p.fixed == None && p.count == 0 && p.seen == {}
    decreases |s|
  {
    hide DecodeTag, DecodeField, Skip;
    if s != [] {
      var key, rest := DecodeTag(s).value, DecodeTag(s).rest;
      if !HasTag(fields, key.tag) {
        UncheckedAfter(fields, slots, Skip(key.wireType, rest).value);
      } else {
        var i := IndexOf(fields, key.tag);
        var r := DecodeField(fields, i, State(slots, 0), key.wireType, rest);
        UncheckedAfter(fields, r.value.slots, r.rest);
      }
    }
  }

  lemma {:induction false} NoneRequired(fields: seq<Field>, i: nat)
    requires Unchecked(fields) && i <= |fields|
    ensures RequiredBefore(fields, i) == 0
  {
    if i > 0 { NoneRequired(fields, i - 1); }
  }

  /** Decoding two messages one after the other is decoding them as one. */
  lemma ConcatMerges(fields: seq<Field>, slots: seq<Slot>, a: Bytes, b: Bytes)
    requires GoodFields(fields) && Typed(fields, slots) && Unchecked(fields) && After(fields, slots, a, None, 0, {}).Some?
    ensures DecodeFrom(fields, slots, a, None, 0, {}).Some?
    ensures DecodeFrom(fields, slots, a + b, None, 0, {}) == DecodeFrom(fields, DecodeFrom(fields, slots, a, None, 0, {}).value, b, None, 0, {})
  {
    ConcatGoesOn(fields, slots, a, None, 0, {}, b);
    ConcatGoesOn(fields, slots, a, None, 0, {}, []);
    UncheckedAfter(fields, slots, a);
    NoneRequired(fields, |fields|);
    var p := After(fields, slots, a, None, 0, {}).value;
    assert DecodeFrom(fields, p.slots, [], None, 0, {}) == Some(p.slots);
    hide DecodeFrom, After;
    assert a + [] == a;
  }

  // ----- Embedded messages -----

  // An embedded message, as sent.
  function SentIn(f: Field, x: Bytes): Bytes { Tag(WT_STRING, f.tag) + Lengthed(x) }

  // What the structure becomes once it is decoded.
  function Embedded(fields: seq<Field>, slots: seq<Slot>, i: nat, x: Bytes): (r: Option<seq<Slot>>)
    requires GoodFields(fields) && Typed(fields, slots) && IsEmbedded(fields, i)
    ensures r.Some? ==> Typed(fields, r.value)
  {
    var f := fields[i];
    assert f in fields && TypedSlot(f, slots[i]);
    match DecodeFrom(f.ltype.fields, Base(f, slots[i]).slots, x, None, 0, {})
    case None => None
    case Some(inner) => Some(Set(fields, slots, i, Given(f, Message(inner))))
  }

  predicate IsEmbedded(fields: seq<Field>, i: nat) { i < |fields| && fields[i].ltype.Submessage? && !fields[i].htype.Repeated? }

  lemma EmbeddedField(fields: seq<Field>, slots: seq<Slot>, i: nat, x: Bytes, rest: Bytes, c: nat)
    requires GoodFields(fields) && Typed(fields, slots) && IsEmbedded(fields, i) && |x| < TWO_32
    ensures var r := DecodeField(fields, i, State(slots, c), WT_STRING, Lengthed(x) + rest);
      match Embedded(fields, slots, i, x) case None => r.Failed? case Some(after) => r == Got(State(after, c), rest)
  {
    var f := fields[i];
    assert f in fields && TypedSlot(f, slots[i]);
    hide DecodeFrom, Set, Given, Base, GoodFields, Typed;
    LengthedInverts(x, rest);
    assert (x + rest)[..|x|] == x && (x + rest)[|x|..] == rest;
    hide Lengthed, Varint32;
  }

  lemma EmbeddedStep(fields: seq<Field>, slots: seq<Slot>, i: nat, x: Bytes, rest: Bytes, fixed: Option<nat>, count: nat, seen: set<nat>)
    requires GoodFields(fields) && Typed(fields, slots) && IsEmbedded(fields, i) && |x| < TWO_32
    ensures DecodeFrom(fields, slots, SentIn(fields[i], x) + rest, fixed, count, seen) ==
      match Embedded(fields, slots, i, x) case None => None case Some(after) => DecodeFrom(fields, after, rest, fixed, count, Seen(fields, i, seen))
  {
    var f := fields[i];
    hide DecodeFrom, DecodeField, Embedded, GoodFields, Typed, Tag, Seen, Lengthed, Complete;
    EmbeddedField(fields, slots, i, x, rest, count);
    assert Tag(WT_STRING, f.tag) + Lengthed(x) + rest == Tag(WT_STRING, f.tag) + (Lengthed(x) + rest);
    FieldThen(fields, slots, i, WT_STRING, Lengthed(x) + rest, fixed, count, seen, count, DecodeField(fields, i, State(slots, count), WT_STRING, Lengthed(x) + rest));
  }

  lemma BaseAfter(fields: seq<Field>, slots: seq<Slot>, i: nat, v: Value)
    requires GoodFields(fields) && Typed(fields, slots) && IsEmbedded(fields, i) && TypedItem(fields[i], v)
    ensures var f, once := fields[i], Set(fields, slots, i, Given(fields[i], v));
      GoodField(f) && TypedSlot(f, once[i]) && Base(f, once[i]) == if f.htype.OneOf? then DefaultItem(f) else v
  {
    assert fields[i] in fields;
    hide TypedItem, DefaultItem;
  }

  lemma SetAgain(fields: seq<Field>, slots: seq<Slot>, i: nat, v: Value, w: Value)
    requires GoodFields(fields) && Typed(fields, slots) && IsEmbedded(fields, i) && TypedItem(fields[i], v) && TypedItem(fields[i], w)
    ensures Set(fields, Set(fields, slots, i, Given(fields[i], v)), i, Given(fields[i], w)) == Set(fields, slots, i, Given(fields[i], w))
  {
    hide TypedItem, Given, GoodFields, Typed, Set;
    SetTwice(fields, slots, i, Given(fields[i], v), Given(fields[i], w));
  }

  // What is decoded depends on the slot only by its base.
  lemma EmbeddedOn(fields: seq<Field>, slots: seq<Slot>, i: nat, base: Value, x: Bytes)
    requires GoodFields(fields) && Typed(fields, slots) && IsEmbedded(fields, i) && TypedItem(fields[i], base)
    requires GoodField(fields[i]) && TypedSlot(fields[i], slots[i]) && Base(fields[i], slots[i]) == base
    ensures Embedded(fields, slots, i, x) ==
      match DecodeFrom(fields[i].ltype.fields, base.slots, x, None, 0, {}) case None => None case Some(inner) => Some(Set(fields, slots, i, Given(fields[i], Message(inner))))
  {
    hide DecodeFrom, Base, Given, Set, GoodFields, Typed, TypedSlot;
  }

  lemma TwiceOn(fields: seq<Field>, slots: seq<Slot>, i: nat, first: Value, base: Value, b: Bytes)
    requires GoodFields(fields) && Typed(fields, slots) && IsEmbedded(fields, i) && TypedItem(fields[i], first) && TypedItem(fields[i], base)
    requires GoodField(fields[i]) && base == if fields[i].htype.OneOf? then DefaultItem(fields[i]) else first
    ensures Embedded(fields, Set(fields, slots, i, Given(fields[i], first)), i, b) ==
      match DecodeFrom(fields[i].ltype.fields, base.slots, b, None, 0, {}) case None => None case Some(inner) => Some(Set(fields, slots, i, Given(fields[i], Message(inner))))
  {
    BaseAfter(fields, slots, i, first);
    var r := DecodeFrom(fields[i].ltype.fields, base.slots, b, None, 0, {});
    hide DecodeFrom, Base, Given, Set, GoodFields, Typed, TypedSlot, Embedded, DefaultItem, GoodField;
    EmbeddedOn(fields, Set(fields, slots, i, Given(fields[i], first)), i, base, b);
    if r.Some? { SetAgain(fields, slots, i, first, Message(r.value)); }
  }

  lemma MergedTwice(fields: seq<Field>, slots: seq<Slot>, i: nat, a: Bytes, b: Bytes)
    requires GoodFields(fields) && Typed(fields, slots) && IsEmbedded(fields, i) && Embedded(fields, slots, i, a).Some?
    requires !fields[i].htype.OneOf? && PiecesOf(fields, slots, i, a)
    ensures Embedded(fields, Embedded(fields, slots, i, a).value, i, b) == Embedded(fields, slots, i, a + b)
  {
    var f := fields[i];
    assert f in fields && TypedSlot(f, slots[i]);
    hide DecodeFrom, Base, Given, Set, DefaultItem, GoodFields, Typed, TypedSlot, Unchecked, After;
    var base := Base(f, slots[i]);
    var first := Message(DecodeFrom(f.ltype.fields, base.slots, a, None, 0, {}).value);
    ConcatMerges(f.ltype.fields, base.slots, a, b);
    TwiceOn(fields, slots, i, first, first, b);
  }

  lemma ReplacedTwice(fields: seq<Field>, slots: seq<Slot>, i: nat, a: Bytes, b: Bytes)
    requires GoodFields(fields) && Typed(fields, slots) && IsEmbedded(fields, i) && Embedded(fields, slots, i, a).Some? && fields[i].htype.OneOf?
    ensures Embedded(fields, Embedded(fields, slots, i, a).value, i, b) == Embedded(fields, slots, i, b)
  {
    var f := fields[i];
    assert f in fields && TypedSlot(f, slots[i]);
    DefaultItemTyped(f);
    UnionBase(f, slots[i]);
    hide DecodeFrom, Base, Given, Set, DefaultItem, GoodFields, GoodField, Typed, TypedSlot, Embedded;
    EmbeddedOn(fields, slots, i, DefaultItem(f), a);
    EmbeddedOn(fields, slots, i, DefaultItem(f), b);
    TwiceOn(fields, slots, i, Message(DecodeFrom(f.ltype.fields, DefaultItem(f).slots, a, None, 0, {}).value), DefaultItem(f), b);
  }

  lemma UnionBase(f: Field, s: Slot)
    requires GoodField(f) && TypedSlot(f, s) && f.htype.OneOf?
    ensures Base(f, s) == DefaultItem(f)
  {
    hide DefaultItem, TypedItem;
  }

  // The input is read as fields of a message without required fields and fixed-count arrays.
  ghost predicate PiecesOf(fields: seq<Field>, slots: seq<Slot>, i: nat, a: Bytes)
    requires GoodFields(fields) && Typed(fields, slots) && IsEmbedded(fields, i)
  {
    var f := fields[i];
    assert f in fields && TypedSlot(f, slots[i]);
    Unchecked(f.ltype.fields) && After(f.ltype.fields, Base(f, slots[i]).slots, a, None, 0, {}).Some?
  }

  /** An embedded message sent in two pieces is what it would be sent as one. */
  lemma PiecesMerge(fields: seq<Field>, slots: seq<Slot>, i: nat, a: Bytes, b: Bytes, rest: Bytes, fixed: Option<nat>, count: nat, seen: set<nat>)
    requires GoodFields(fields) && Typed(fields, slots) && IsEmbedded(fields, i) && !fields[i].htype.OneOf? && PiecesOf(fields, slots, i, a)
    requires |a| + |b| < TWO_32
    ensures DecodeFrom(fields, slots, SentIn(fields[i], a) + (SentIn(fields[i], b) + rest), fixed, count, seen)
      == DecodeFrom(fields, slots, SentIn(fields[i], a + b) + rest, fixed, count, seen)
  {
    PiecesDecode(fields, slots, i, a);
    hide DecodeFrom, SentIn, Embedded, PiecesOf, GoodFields, Typed;
    TwoSteps(fields, slots, i, a, b, rest, fixed, count, seen);
    MergedTwice(fields, slots, i, a, b);
    EmbeddedStep(fields, slots, i, a + b, rest, fixed, count, seen);
  }

  /** Of a member of a union sent twice, only the last counts. */
  lemma LastOfUnionWins(fields: seq<Field>, slots: seq<Slot>, i: nat, a: Bytes, b: Bytes, rest: Bytes, fixed: Option<nat>, count: nat, seen: set<nat>)
    requires GoodFields(fields) && Typed(fields, slots) && IsEmbedded(fields, i) && fields[i].htype.OneOf? && Embedded(fields, slots, i, a).Some?
    requires |a| < TWO_32 && |b| < TWO_32
    ensures DecodeFrom(fields, slots, SentIn(fields[i], a) + (SentIn(fields[i], b) + rest), fixed, count, seen)
      == DecodeFrom(fields, slots, SentIn(fields[i], b) + rest, fixed, count, seen)
  {
    hide DecodeFrom, SentIn, Embedded, GoodFields, Typed;
    TwoSteps(fields, slots, i, a, b, rest, fixed, count, seen);
    ReplacedTwice(fields, slots, i, a, b);
    EmbeddedStep(fields, slots, i, b, rest, fixed, count, seen);
  }

  lemma PiecesDecode(fields: seq<Field>, slots: seq<Slot>, i: nat, a: Bytes)
    requires GoodFields(fields) && Typed(fields, slots) && IsEmbedded(fields, i) && PiecesOf(fields, slots, i, a)
    ensures Embedded(fields, slots, i, a).Some?
  {
    var f := fields[i];
    assert f in fields && TypedSlot(f, slots[i]);
    hide DecodeFrom, After;
    ConcatMerges(f.ltype.fields, Base(f, slots[i]).slots, a, []);
  }

  lemma TwoSteps(fields: seq<Field>, slots: seq<Slot>, i: nat, a: Bytes, b: Bytes, rest: Bytes, fixed: Option<nat>, count: nat, seen: set<nat>)
    requires GoodFields(fields) && Typed(fields, slots) && IsEmbedded(fields, i) && Embedded(fields, slots, i, a).Some?
    requires |a| < TWO_32 && |b| < TWO_32
    ensures var once := Embedded(fields, slots, i, a).value;
      Typed(fields, once) && DecodeFrom(fields, slots, SentIn(fields[i], a) + (SentIn(fields[i], b) + rest), fixed, count, seen) ==
        match Embedded(fields, once, i, b) case None => None case Some(after) => DecodeFrom(fields, after, rest, fixed, count, Seen(fields, i, seen))
  {
    hide DecodeFrom, SentIn, Embedded, GoodFields, Typed;
    var once := Embedded(fields, slots, i, a).value;
    EmbeddedStep(fields, slots, i, a, SentIn(fields[i], b) + rest, fixed, count, seen);
    EmbeddedStep(fields, once, i, b, rest, fixed, count, Seen(fields, i, seen));
    assert Seen(fields, i, Seen(fields, i, seen)) == Seen(fields, i, seen);
  }
}
