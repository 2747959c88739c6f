/** Message descriptors, the structures they describe, and the walk over a descriptor's fields. */
module PbMessages {
  import opened Codings
  import opened Versions

  // How the data of one item is stored and sent.
  datatype LType =
    | Bool | Varint | Uvarint | Svarint | Fixed32 | Fixed64
    | BytesArray | CString | Submessage(fields: seq<Field>) | FixedLengthBytes

  // An optional field may have a has_ flag, a repeated one a count; the members of one union share a tag field.
  datatype HType = Required | Optional(hasFlag: bool) | Repeated(counted: bool) | OneOf(group: nat)

  datatype Field = Field(tag: nat, ltype: LType, htype: HType, dataSize: nat, arraySize: nat, init: Option<Value>)

  // What a structure holds. A string is what its buffer holds before the terminator the decoder writes.
  datatype Value = Num(n: int) | Blob(b: Bytes) | Message(slots: seq<Slot>)

  datatype Slot = One(value: Value) | Maybe(has: bool, stored: Value) | Many(items: seq<Value>) | Choice(member: Option<Value>)

  const MAX_TAG: nat := 0x2000_0000
  const MAX_REQUIRED: nat := 64
  const BYTES_HEADER: nat := 4   // the size member of a bytes array

  predicate Packable(t: LType) { t.Bool? || t.Varint? || t.Uvarint? || t.Svarint? || t.Fixed32? || t.Fixed64? }

  predicate IntSize(n: nat) { n == 1 || n == 2 || n == 4 || n == 8 }

  predicate InSigned(n: int, size: nat) { -(Pow256(size) as int) <= 2 * n < Pow256(size) }

  predicate InUnsigned(n: int, size: nat) { 0 <= n < Pow256(size) }

  // ----- What the C types allow -----

  predicate TypedItem(f: Field, v: Value)
    decreases v
  {
    match f.ltype
    case Bool => v.Num? && 0 <= v.n <= 1
    case Varint => v.Num? && (IntSize(f.dataSize) ==> InSigned(v.n, f.dataSize))
    case Svarint => v.Num? && (IntSize(f.dataSize) ==> InSigned(v.n, f.dataSize))
    case Uvarint => v.Num? && (IntSize(f.dataSize) ==> InUnsigned(v.n, f.dataSize))
    case Fixed32 => v.Num? && InUnsigned(v.n, 4)
    case Fixed64 => v.Num? && InUnsigned(v.n, 8)
    case BytesArray => v.Blob? && |v.b| < TWO_32
    case CString => v.Blob? && |v.b| <= f.dataSize
    case FixedLengthBytes => v.Blob? && |v.b| == f.dataSize
    case Submessage(fs) => v.Message? && Typed(fs, v.slots)
  }

  predicate TypedSlot(f: Field, s: Slot)
    decreases s
  {
    match f.htype
    case Required => s.One? && TypedItem(f, s.value)
    case Optional(hasFlag) => if hasFlag then s.Maybe? && TypedItem(f, s.stored) else s.One? && TypedItem(f, s.value)
    case Repeated(counted) => s.Many? && (forall v :: v in s.items ==> TypedItem(f, v)) && (!counted ==> |s.items| == f.arraySize)
    case OneOf(_) => s.Choice? && (s.member.Some? ==> TypedItem(f, s.member.value))
  }

  predicate Typed(fields: seq<Field>, slots: seq<Slot>)
    decreases slots
  {
    && |slots| == |fields|
    && (forall i :: 0 <= i < |slots| ==> TypedSlot(fields[i], slots[i]))
    && forall i, j :: 0 <= i < j < |slots| && SameUnion(fields[i], fields[j]) ==> !(Chosen(slots[i]) && Chosen(slots[j]))
  }

  predicate SameUnion(f: Field, g: Field) { f.htype.OneOf? && g.htype == f.htype }

  predicate Chosen(s: Slot) { s.Choice? && s.member.Some? }

  // ----- Descriptors -----

  predicate GoodField(f: Field)
    decreases f
  {
    && 0 < f.tag < MAX_TAG && f.dataSize < TWO_32
    && (Packable(f.ltype) ==> f.dataSize > 0)
    && (f.ltype.Submessage? ==> GoodFields(f.ltype.fields))
    && (f.init.Some? ==> TypedItem(f, f.init.value) && !f.ltype.Submessage? && (f.htype.Required? || f.htype == Optional(true)))
  }

  predicate GoodFields(fields: seq<Field>)
    decreases fields
  {
    && (forall f :: f in fields ==> GoodField(f))
    && forall i, j :: 0 <= i < j < |fields| ==> fields[i].tag != fields[j].tag
  }

  // ----- Default values -----

  function Zeros(n: nat): (b: Bytes)
    ensures |b| == n
  {
    seq(n, i => 0 as Byte)
  }

  // pb_field_set_to_default, on one item
  function DefaultItem(f: Field): Value
    decreases f, 1
  {
    if f.ltype.Submessage? then Message(Defaults(f.ltype.fields))
    else if f.init.Some? then f.init.value
    else if f.ltype.FixedLengthBytes? then Blob(Zeros(f.dataSize))
    else if f.ltype.BytesArray? || f.ltype.CString? then Blob([])
    else Num(0)
  }

  function DefaultSlot(f: Field): Slot
    decreases f, 2
  {
    match f.htype
    case Required => One(DefaultItem(f))
    case Optional(hasFlag) => if hasFlag then Maybe(false, DefaultItem(f)) else One(DefaultItem(f))
    case Repeated(counted) => if counted then Many([]) else Many(seq(f.arraySize, i => DefaultItem(f)))
    case OneOf(_) => Choice(None)
  }

  // pb_message_set_to_defaults
  function Defaults(fields: seq<Field>): (r: seq<Slot>)
    ensures |r| == |fields|
    decreases fields
  {
    seq(|fields|, i requires 0 <= i < |fields| => DefaultSlot(fields[i]))
  }

  lemma {:induction false} DefaultItemTyped(f: Field)
    requires GoodField(f)
    ensures TypedItem(f, DefaultItem(f))
    decreases f, 1
  {
    if f.ltype.Submessage? { DefaultsTyped(f.ltype.fields); }
    assert Pow256(0) == 1 && Pow256(1) == 256 && Pow256(2) == 65536;
    FixedWidths();
  }

  lemma {:induction false} DefaultsTyped(fields: seq<Field>)
    requires GoodFields(fields)
    ensures Typed(fields, Defaults(fields))
    decreases fields
  {
    forall i | 0 <= i < |fields| ensures TypedSlot(fields[i], DefaultSlot(fields[i])) {
      assert fields[i] in fields;
      DefaultItemTyped(fields[i]);
    }
  }

  // ----- Walking the fields -----

  function RequiredBefore(fields: seq<Field>, n: nat): nat
    requires n <= |fields|
  {
    if n == 0 then 0 else RequiredBefore(fields, n - 1) + if fields[n - 1].htype.Required? then 1 else 0
  }

  // A field with the tag. Without fields the walk stands on the terminator, whose tag is 0.
  predicate HasTag(fields: seq<Field>, tag: nat) { if fields == [] then tag == 0 else exists i :: 0 <= i < |fields| && fields[i].tag == tag }

  class FieldIter {
    const fields: seq<Field>
    var pos: nat
    var requiredIndex: nat

    ghost predicate Valid() reads this {
      (if fields == [] then pos == 0 else pos < |fields|) && pos <= |fields| && requiredIndex == RequiredBefore(fields, pos)
    }

    constructor (fields: seq<Field>)
      ensures Valid() && this.fields == fields && pos == 0
    {
      this.fields, pos, requiredIndex := fields, 0, 0;
    }

    method Begin() returns (any: bool)
      modifies this
      ensures Valid() && pos == 0 && any == (fields != [])
    {
      pos, requiredIndex := 0, 0;
      any := fields != [];
    }

    // Steps to the next field, or wraps to the first and says so.
    method Next() returns (more: bool)
      requires Valid()
      modifies this
      ensures Valid() && more == (old(pos) + 1 < |fields|) && pos == if more then old(pos) + 1 else 0
    {
      if fields == [] {
        return false;
      }
      var prev := fields[pos];
      pos := pos + 1;
      if pos == |fields| {
        var any := Begin();
        return false;
      }
      if SameUnion(prev, fields[pos]) {
        return true;
      }
      if prev.htype.Required? {
        requiredIndex := requiredIndex + 1;
      }
      more := true;
    }

    /** Searches all the way round from the current field. */
    method Find(tag: nat) returns (found: bool)
      requires Valid()
      modifies this
      ensures Valid() && found == HasTag(fields, tag)
      ensures if found && fields != [] then pos < |fields| && fields[pos].tag == tag else pos == old(pos)
    {
      if fields == [] {
        return tag == 0;
      }
      var start := pos;
      ghost var seen := 0;
      while true
        invariant Valid() && seen < |fields| && start == old(pos) && StepsTo(start, pos, |fields|) == seen
        invariant forall i :: 0 <= i < |fields| && StepsTo(start, i, |fields|) < seen ==> fields[i].tag != tag
        decreases |fields| - seen
      {
        if fields[pos].tag == tag {
          return true;
        }
        var more := Next();
        seen := seen + 1;
        if pos == start {
          break;
        }
      }
      found := false;
    }
  }

  // Steps from one field round to another.
  function StepsTo(start: nat, i: nat, n: nat): nat
    requires start < n && i < n
  {
    if i >= start then i - start else i + n - start
  }
}
