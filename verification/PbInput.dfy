/** The stream a message is decoded from, step by step. */
module PbInputs {
  import opened Codings
  import opened PbDecoding
  import opened PbEncoding
  import opened PbMessages
  import opened Versions

  lemma SliceOfSlice(b: Bytes, lo: nat, hi: nat, n: nat)
    requires lo + n <= hi <= |b|
    ensures b[lo..hi][n..] == b[lo + n..hi] && b[lo..hi][..n] == b[lo..lo + n]
  {
  }

  // What a method that reads a value says of it, and of what is left.
  ghost predicate Reads<T>(r: Option<T>, rest: Bytes, spec: Read<T>) {
    match spec
    case Failed(_) => r.None?
    case Got(v, left) => r == Some(v) && rest == left
  }

  class IStream {
    const buffer: Bytes
    var pos: nat
    var left: nat

    ghost predicate Valid() reads this { pos + left <= |buffer| }

    ghost function Rest(): (r: Bytes)
      requires Valid()
      reads this
      ensures |r| == left
    {
      buffer[pos..pos + left]
    }

    constructor (buffer: Bytes)
      ensures Valid() && this.buffer == buffer && pos == 0 && left == |buffer| && Rest() == buffer
    {
      this.buffer, pos, left := buffer, 0, |buffer|;
      new;
      assert buffer[0..|buffer|] == buffer;
    }

    // A stream limited to the next `left` bytes of another
    constructor Limited(buffer: Bytes, pos: nat, left: nat)
      requires pos + left <= |buffer|
      ensures Valid() && this.buffer == buffer && this.pos == pos && this.left == left
    {
      this.buffer, this.pos, this.left := buffer, pos, left;
    }

    // pb_read, into a buffer or nowhere
    method Read(n: nat) returns (r: Option<Bytes>)
      requires Valid()
      modifies this
      ensures Valid() && pos + left == old(pos + left) && Reads(r, Rest(), Take(old(Rest()), n))
      ensures r.None? ==> unchanged(this)
    {
      if left < n {
        return None;
      }
      SliceOfSlice(buffer, pos, pos + left, n);
      r := Some(buffer[pos..pos + n]);
      pos, left := pos + n, left - n;
    }

    method ReadByte() returns (b: Option<Byte>)
      requires Valid()
      modifies this
      ensures Valid() && pos + left == old(pos + left)
      ensures if old(Rest()) == [] then b.None? && unchanged(this) else b == Some(old(Rest())[0]) && Rest() == old(Rest())[1..] && left == old(left) - 1
    {
      if left == 0 {
        return None;
      }
      SliceOfSlice(buffer, pos, pos + left, 1);
      b := Some(buffer[pos]);
      pos, left := pos + 1, left - 1;
    }

    // pb_decode_varint32_eof
    method DecodeVarint32() returns (r: Option<nat>, eof: bool)
      requires Valid()
      modifies this
      ensures Valid() && pos + left == old(pos + left) && Reads(r, Rest(), Varint32(old(Rest())))
      ensures Varint32(old(Rest())).Failed? ==> eof == Varint32(old(Rest())).eof
    {
      hide OrBits, Pow2;
      var b := ReadByte();
      if b.None? {
        return None, true;
      }
      if b.value < 128 {
        return Some(b.value as nat), false;
      }
      var bitpos: nat := 7;
      var result: nat := (b.value % 128) as nat;
      eof := false;
      while true
        invariant Valid() && pos + left == old(pos + left) && result < TWO_32
        invariant More32(Rest(), result, bitpos) == Varint32(old(Rest()))
        decreases left
      {
        b := ReadByte();
        if b.None? {
          return None, false;
        }
        if bitpos >= 32 {
          if BadExtension(b.value, result, bitpos) {
            return None, false;
          }
        } else {
          result := Or32(result, ((b.value % 128) as nat * Pow2(bitpos)) % TWO_32);
        }
        bitpos := (bitpos + 7) % 256;
        if b.value < 128 {
          if bitpos == 35 && b.value / 16 % 8 != 0 {
            return None, false;
          }
          return Some(result), false;
        }
      }
    }

    // pb_decode_varint; the bits put together do not overlap.
    method DecodeVarint64() returns (r: Option<nat>)
      requires Valid()
      modifies this
      ensures Valid() && pos + left == old(pos + left) && Reads(r, Rest(), Varint64(old(Rest())))
    {
      hide GetVarint, Weighted, Add, Pow2, Or32;
      var bitpos: nat := 0;
      var result: nat := 0;
      ghost var total: nat, weight: nat, n: nat := 0, 1, 10;
      FirstWeight();
      Unweighted(GetVarint(Rest(), 10));
      while true
        invariant Valid() && pos + left == old(pos + left) && n <= 10 && bitpos == 7 * (10 - n) && weight == Pow2(bitpos)
        invariant result == total % TWO_64
        invariant Weighted(total, weight, GetVarint(Rest(), n)) == GetVarint(old(Rest()), 10)
        decreases n
      {
        ghost var s := Rest();
        if bitpos >= 64 {
          NothingLeft(s, n, total, weight);
          return None;
        }
        var b := ReadByte();
        if b.None? {
          NothingLeft(s, n, total, weight);
          return None;
        }
        OneMoreByte(s, n, total, weight);
        var digit := (b.value % 128) as nat;
        Truncates(total, result, digit, weight);
        result := Truncated(result, digit, Pow2(bitpos));
        total := Add(total, digit, weight);
        Pow2Seven(bitpos);
        weight := TWO_7 * weight;
        bitpos := bitpos + 7;
        n := n - 1;
        if b.value < 128 {
          return Some(result);
        }
      }
    }

    method SkipVarint() returns (ok: bool)
      requires Valid()
      modifies this
      ensures Valid() && pos + left == old(pos + left)
      ensures match PbDecoding.SkipVarint(old(Rest())) case None => !ok case Some(rest) => ok && Rest() == rest
    {
      while true
        invariant Valid() && pos + left == old(pos + left)
        invariant PbDecoding.SkipVarint(Rest()) == PbDecoding.SkipVarint(old(Rest()))
        decreases left
      {
        var b := ReadByte();
        if b.None? {
          return false;
        }
        if b.value < 128 {
          return true;
        }
      }
    }

    // pb_skip_field
    method SkipField(wireType: nat) returns (ok: bool)
      requires Valid()
      modifies this
      ensures Valid() && pos + left == old(pos + left)
      ensures match PbDecoding.Skip(wireType, old(Rest())) case None => !ok case Some(rest) => ok && Rest() == rest
    {
      hide PbDecoding.Varint32, PbDecoding.SkipVarint;
      if wireType == WT_VARINT {
        ok := SkipVarint();
      } else if wireType == WT_STRING {
        var size, eof := DecodeVarint32();
        if size.None? {
          return false;
        }
        var b := Read(size.value);
        ok := b.Some?;
      } else if wireType == WT_64BIT || wireType == WT_32BIT {
        var b := Read(if wireType == WT_64BIT then 8 else 4);
        ok := b.Some?;
      } else {
        ok := false;
      }
    }

    method DecodeTag() returns (key: Option<Key>, eof: bool)
      requires Valid()
      modifies this
      ensures Valid() && pos + left == old(pos + left) && Reads(key, Rest(), PbDecoding.DecodeTag(old(Rest())))
      ensures PbDecoding.DecodeTag(old(Rest())).Failed? ==> eof == PbDecoding.DecodeTag(old(Rest())).eof
    {
      hide PbDecoding.Varint32;
      var temp, atEnd := DecodeVarint32();
      if temp.None? {
        return None, atEnd;
      }
      if temp.value == 0 {
        return None, true;
      }
      return Some(Key(temp.value / 8, temp.value % 8)), false;
    }

    // The substream has the next string, and this stream what follows it.
    ghost predicate Limits(sub: IStream, s: Bytes, end: nat)
      requires sub.Valid()
      reads this, sub
    {
      match PbDecoding.Varint32(s)
      case Failed(_) => false
      case Got(size, rest) =>
        && size <= |rest| && sub.Rest() == rest[..size] && sub.left == size && sub.buffer == buffer
        && left + size == |rest| && sub.pos + |rest| == end && end <= |buffer| && rest == buffer[sub.pos..end]
    }

    // A substream of the next string; the parent stands still, at its end, until the substream is closed.
    method MakeSubstream() returns (sub: Option<IStream>)
      requires Valid()
      modifies this
      ensures Valid() && pos + left <= old(pos + left)
      ensures sub.None? ==> pos + left == old(pos + left)
      ensures match PbDecoding.Varint32(old(Rest()))
        case Failed(_) => sub.None?
        case Got(size, rest) => sub.Some? == (|rest| >= size)
      ensures sub.Some? ==> fresh(sub.value) && sub.value.Valid() && Limits(sub.value, old(Rest()), old(pos + left))
    {
      hide PbDecoding.Varint32;
      var size, eof := DecodeVarint32();
      if size.None? {
        return None;
      }
      if left < size.value {
        return None;
      }
      SliceOfSlice(buffer, pos, pos + left, size.value);
      var s := new IStream.Limited(buffer, pos, size.value);
      left := left - size.value;
      sub := Some(s);
    }

    // Skips what the substream has left.
    method CloseSubstream(sub: IStream)
      requires sub != this && sub.Valid() && Valid() && sub.buffer == buffer && sub.pos + sub.left + left <= |buffer|
      modifies this, sub
      ensures Valid() && left == old(left) && pos == old(sub.pos + sub.left)
    {
      if sub.left > 0 {
        var b := sub.Read(sub.left);
      }
      pos := sub.pos;
    }

    method DecodeInt(f: Field) returns (r: Option<Value>)
      requires Valid() && (f.ltype.Varint? || f.ltype.Uvarint? || f.ltype.Svarint?)
      modifies this
      ensures Valid() && pos + left == old(pos + left) && Reads(r, Rest(), PbDecoding.DecodeInt(f, old(Rest())))
    {
      hide Pow256, PbDecoding.Varint64;
      var value := DecodeVarint64();
      if value.None? || !IntSize(f.dataSize) {
        return None;
      }
      HalfPow(f.dataSize);
      var n: int := value.value;
      var clamped: int := n;
      if f.ltype.Uvarint? {
        clamped := n % Pow256(f.dataSize);
      } else {
        n := if f.ltype.Svarint? then ToSigned(if n % 2 == 1 then TWO_64 - 1 - n / 2 else n / 2, 8) else ToSigned(n, if f.dataSize == 8 then 8 else 4);
        clamped := ToSigned(n, f.dataSize);
      }
      r := if clamped != n then None else Some(Num(clamped));
    }

    method DecodeBlob(f: Field) returns (r: Option<Value>)
      requires Valid()
      modifies this
      ensures Valid() && pos + left == old(pos + left) && Reads(r, Rest(), PbDecoding.DecodeBlob(f, old(Rest())))
    {
      hide PbDecoding.Varint32;
      var size, eof := DecodeVarint32();
      if size.None? {
        return None;
      }
      if f.ltype.FixedLengthBytes? && size.value == 0 {
        return Some(Blob(Zeros(f.dataSize)));
      }
      if !HasRoom(f, size.value) {
        return None;
      }
      var b := Read(size.value);
      r := if b.Some? then Some(Blob(b.value)) else None;
    }

    method DecodeScalar(f: Field) returns (r: Option<Value>)
      requires Valid() && !f.ltype.Submessage?
      modifies this
      ensures Valid() && pos + left == old(pos + left) && Reads(r, Rest(), PbDecoding.DecodeScalar(f, old(Rest())))
    {
      hide PbDecoding.Varint32, PbDecoding.DecodeBlob, PbDecoding.DecodeInt;
      if f.ltype.Bool? {
        var n, eof := DecodeVarint32();
        r := if n.Some? then Some(Num(if n.value != 0 then 1 else 0)) else None;
      } else if f.ltype.Fixed32? || f.ltype.Fixed64? {
        var b := Read(if f.ltype.Fixed32? then 4 else 8);
        r := if b.Some? then Some(Num(DecodeFixed(b.value))) else None;
      } else if f.ltype.BytesArray? || f.ltype.CString? || f.ltype.FixedLengthBytes? {
        r := DecodeBlob(f);
      } else {
        r := DecodeInt(f);
      }
    }

    // The decoder functions
    method DecodeItem(f: Field, cur: Value) returns (r: Option<Value>)
      requires Valid() && GoodField(f) && TypedItem(f, cur)
      modifies this
      ensures Valid() && pos + left == old(pos + left) && Reads(r, Rest(), PbDecoding.DecodeItem(f, old(Rest()), cur))
      decreases left, 1
    {
      hide PbDecoding.Varint32, PbDecoding.DecodeScalar, PbDecoding.DecodeFrom, TypedItem, GoodField;
      if !f.ltype.Submessage? {
        r := DecodeScalar(f);
        return;
      }
      SubmessageIs(f, cur);
      VarintShortens(Rest());
      var sub := MakeSubstream();
      if sub.None? {
        return None;
      }
      SliceOfSlice(buffer, sub.value.pos, old(pos + left), sub.value.left);
      var slots := sub.value.DecodeMessage(f.ltype.fields, cur.slots);
      CloseSubstream(sub.value);
      r := if slots.Some? then Some(Message(slots.value)) else None;
    }

    // The items of a packed array, on a substream of their own.
    method DecodePackedItems(f: Field, start: seq<Value>, count0: nat) returns (r: Option<State>)
      requires Valid() && GoodField(f) && f.htype.Repeated? && TypedSlot(f, Many(start))
      modifies this
      ensures Valid() && pos + left == old(pos + left) && r == DecodePacked(f, old(Rest()), start, count0)
      decreases left, 2
    {
      hide PbDecoding.DecodeItem, TypedItem, GoodField, Put, DefaultItem;
      DefaultItemTyped(f);
      var items, count := start, count0;
      while left > 0 && CountOf(f, items, count) < f.arraySize
        invariant Valid() && pos + left == old(pos + left) && left <= old(left) && TypedSlot(f, Many(items))
        invariant DecodePacked(f, Rest(), items, count) == DecodePacked(f, old(Rest()), start, count0)
        decreases left
      {
        var v := DecodeItem(f, DefaultItem(f));
        if v.None? {
          return None;
        }
        items := Put(f, items, count, v.value);
        count := count + 1;
      }
      r := if left != 0 then None else Some(State([Many(items)], count));
    }

    method DecodeRepeatedField(f: Field, items: seq<Value>, count: nat, wireType: nat) returns (r: Option<State>)
      requires Valid() && GoodField(f) && f.htype.Repeated? && TypedSlot(f, Many(items))
      modifies this
      ensures Valid() && pos + left == old(pos + left) && Reads(r, Rest(), DecodeRepeated(f, old(Rest()), items, count, wireType))
      decreases left, 3
    {
      hide PbDecoding.Varint32, PbDecoding.DecodeItem, DecodePacked, TypedItem, GoodField, Put, DefaultItem;
      if wireType == WT_STRING && Packable(f.ltype) {
        VarintShortens(Rest());
        var sub := MakeSubstream();
        if sub.None? {
          return None;
        }
        SliceOfSlice(buffer, sub.value.pos, old(pos + left), sub.value.left);
        r := sub.value.DecodePackedItems(f, items, count);
        CloseSubstream(sub.value);
        return;
      }
      if CountOf(f, items, count) >= f.arraySize {
        return None;
      }
      DefaultItemTyped(f);
      var v := DecodeItem(f, DefaultItem(f));
      r := if v.Some? then Some(State([Many(Put(f, items, count, v.value))], count + 1)) else None;
    }

    // decode_static_field
    method DecodeField(fields: seq<Field>, i: nat, st: State, wireType: nat) returns (r: Option<State>)
      requires Valid() && GoodFields(fields) && Typed(fields, st.slots) && i < |fields|
      modifies this
      ensures Valid() && pos + left == old(pos + left) && Reads(r, Rest(), PbDecoding.DecodeField(fields, i, st, wireType, old(Rest())))
      decreases left, 4
    {
      hide PbDecoding.DecodeItem, DecodeRepeated, TypedItem, Set;
      var f, slot := fields[i], st.slots[i];
      assert f in fields && TypedSlot(f, slot);
      if f.htype.Repeated? {
        var one := DecodeRepeatedField(f, slot.items, st.count, wireType);
        r := if one.Some? then Some(State(Set(fields, st.slots, i, one.value.slots[0]), one.value.count)) else None;
      } else {
        var v := DecodeItem(f, Base(f, slot));
        r := if v.Some? then Some(State(Set(fields, st.slots, i, Given(f, v.value)), st.count)) else None;
      }
    }

    // pb_decode_noinit
    method DecodeMessage(fields: seq<Field>, start: seq<Slot>) returns (r: Option<seq<Slot>>)
      requires Valid() && GoodFields(fields) && Typed(fields, start)
      modifies this
      ensures Valid() && pos + left == old(pos + left) && r == DecodeFrom(fields, start, old(Rest()), None, 0, {})
      decreases left, 5
    {
      hide PbDecoding.DecodeField, PbDecoding.DecodeTag, PbDecoding.Varint32, PbDecoding.Skip, Complete, AllSeen, Ones, RequiredBefore, GoodFields, Typed, HasTag, IndexOf;
      var slots, fixed, count := start, None, 0;
      var words: seq<set<nat>> := [{}, {}];
      NoOnes(fields, words);
      var iter := new FieldIter(fields);
      while left > 0
        invariant Valid() && pos + left == old(pos + left) && left <= old(left) && Typed(fields, slots)
        invariant fresh(iter) && iter.Valid() && iter.fields == fields && IsWords(fields, words)
        invariant DecodeFrom(fields, slots, Rest(), fixed, count, Ones(words)) == DecodeFrom(fields, start, old(Rest()), None, 0, {})
        decreases left
      {
        var key, eof := DecodeTag();
        if key.None? {
          if eof {
            break;
          }
          return None;
        }
        var found := iter.Find(key.value.tag);
        if !found {
          var ok := SkipField(key.value.wireType);
          if !ok {
            return None;
          }
        } else if fields == [] {
          // The terminator passes for a required bool.
          var v, atEnd := DecodeVarint32();
          if v.None? {
            return None;
          }
        } else {
          var i := iter.pos;
          TagAt(fields, i);
          var f := fields[i];
          if FixedCount(f) && fixed != Some(i) {
            if !Complete(fields, fixed, count) {
              return None;
            }
            fixed, count := Some(i), 0;
          }
          if f.htype.Required? && iter.requiredIndex < MAX_REQUIRED {
            OneMore(fields, words, i);
            words := words[iter.requiredIndex / 32 := words[iter.requiredIndex / 32] + {iter.requiredIndex % 32}];
          }
          var st := DecodeField(fields, i, State(slots, count), key.value.wireType);
          if st.None? {
            return None;
          }
          slots := st.value.slots;
          if FixedCount(f) {
            count := st.value.count;
          }
        }
      }
      if !Complete(fields, fixed, count) {
        return None;
      }
      var all := CheckRequired(iter, words);
      r := if all then Some(slots) else None;
    }

    /** pb_decode */
    method Decode(fields: seq<Field>) returns (r: Option<seq<Slot>>)
      requires Valid() && GoodFields(fields)
      modifies this
      ensures Valid() && r == PbDecoding.Decode(fields, old(Rest()))
    {
      DefaultsTyped(fields);
      r := DecodeMessage(fields, Defaults(fields));
    }
  }

  // Two words of bits, each given as the set of its ones.
  function Ones(words: seq<set<nat>>): set<nat>
    requires |words| == 2
  {
    set k: nat | k < MAX_REQUIRED && k % 32 in words[k / 32]
  }

  ghost predicate IsWords(fields: seq<Field>, words: seq<set<nat>>) {
    |words| == 2 && (forall w, b :: 0 <= w < 2 && b in words[w] ==> b < 32 && 32 * w + b < RequiredBefore(fields, |fields|))
  }

  lemma NoOnes(fields: seq<Field>, words: seq<set<nat>>)
    requires words == [{}, {}]
    ensures IsWords(fields, words) && Ones(words) == {}
  {
  }

  lemma OneMore(fields: seq<Field>, words: seq<set<nat>>, i: nat)
    requires IsWords(fields, words) && i < |fields| && fields[i].htype.Required? && RequiredBefore(fields, i) < MAX_REQUIRED
    ensures var k := RequiredBefore(fields, i);
      var words' := words[k / 32 := words[k / 32] + {k % 32}];
      IsWords(fields, words') && Ones(words') == Ones(words) + {k}
  {
    var k := RequiredBefore(fields, i);
    RequiredGrows(fields, i + 1, |fields|);
    var words' := words[k / 32 := words[k / 32] + {k % 32}];
    forall m: nat | m < MAX_REQUIRED ensures m in Ones(words') <==> m in Ones(words) || m == k {
      if m / 32 == k / 32 && m % 32 == k % 32 { assert m == k; }
    }
  }

  lemma {:induction false} RequiredGrows(fields: seq<Field>, a: nat, b: nat)
    requires a <= b <= |fields|
    ensures RequiredBefore(fields, a) <= RequiredBefore(fields, b)
  {
    if a < b { RequiredGrows(fields, a, b - 1); }
  }

  lemma TagAt(fields: seq<Field>, i: nat)
    requires GoodFields(fields) && i < |fields|
    ensures HasTag(fields, fields[i].tag) && IndexOf(fields, fields[i].tag) == i
  {
  }

  /** Whole words first, then the bits that remain. */
  method CheckRequired(iter: FieldIter, words: seq<set<nat>>) returns (all: bool)
    requires iter.Valid() && IsWords(iter.fields, words)
    modifies iter
    ensures all == AllSeen(iter.fields, Ones(words))
  {
    var n := iter.requiredIndex;
    var last := iter.pos;
    var more := iter.Next();
    while more
      invariant iter.Valid() && last <= |iter.fields| && (iter.fields != [] ==> last < |iter.fields|) && n == RequiredBefore(iter.fields, last)
      invariant more ==> iter.pos == last + 1
      invariant !more ==> last + 1 >= |iter.fields|
      decreases |iter.fields| - last, more
    {
      n := iter.requiredIndex;
      last := iter.pos;
      more := iter.Next();
    }
    if iter.fields != [] && iter.fields[last].htype.Required? {
      n := n + 1;
    }
    assert n == RequiredBefore(iter.fields, |iter.fields|);
    if n > MAX_REQUIRED {
      n := MAX_REQUIRED;
    }
    all := true;
    for i := 0 to n / 32
      invariant all
      invariant forall w :: 0 <= w < i ==> words[w] == Below(32)
    {
      if words[i] != Below(32) {
        MissingOne(iter.fields, words, n, i, 32);
        return false;
      }
    }
    if n % 32 != 0 {
      all := words[n / 32] == Below(n % 32);
      if !all { MissingOne(iter.fields, words, n, n / 32, n % 32); }
    }
    if all { NoneMissing(iter.fields, words, n); }
  }

  // The words hold nothing beyond the first n bits, so a word that is not full lacks one of them.
  lemma MissingOne(fields: seq<Field>, words: seq<set<nat>>, n: nat, w: nat, m: nat)
    requires IsWords(fields, words) && w < 2 && m <= 32 && words[w] != Below(m) && 32 * w + m <= n
    requires n == if RequiredBefore(fields, |fields|) > MAX_REQUIRED then MAX_REQUIRED else RequiredBefore(fields, |fields|)
    requires m < 32 ==> n == 32 * w + m
    ensures !AllSeen(fields, Ones(words))
  {
    forall b | b in words[w] ensures b in Below(m) {}
    var b :| b in Below(m) && b !in words[w];
    var k := 32 * w + b;
    assert k / 32 == w && k % 32 == b && k !in Ones(words);
  }

  lemma NoneMissing(fields: seq<Field>, words: seq<set<nat>>, n: nat)
    requires |words| == 2 && n <= 64 && (forall w :: 0 <= w < n / 32 ==> words[w] == Below(32)) && (n % 32 != 0 ==> words[n / 32] == Below(n % 32))
    requires n == if RequiredBefore(fields, |fields|) > MAX_REQUIRED then MAX_REQUIRED else RequiredBefore(fields, |fields|)
    ensures AllSeen(fields, Ones(words))
  {
    forall k | 0 <= k < n ensures k in Ones(words) {
      assert k / 32 < n / 32 || (k / 32 == n / 32 && k % 32 < n % 32);
      if k / 32 < n / 32 { assert words[k / 32] == Below(32); }
    }
  }

  function Below(n: nat): (r: set<nat>)
    ensures forall b: nat :: b in r <==> b < n
  {
    if n == 0 then {} else Below(n - 1) + {n - 1}
  }

  function Truncated(result: nat, digit: nat, weight: nat): nat { (result + digit * weight) % TWO_64 }

  lemma FirstWeight()
    ensures Pow2(0) == 1
  {
  }

  lemma Truncates(total: nat, result: nat, digit: nat, weight: nat)
    requires result == total % TWO_64
    ensures Truncated(result, digit, weight) == Add(total, digit, weight) % TWO_64
  {
    assert total == TWO_64 * (total / TWO_64) + result;
  }

  lemma SubmessageIs(f: Field, cur: Value)
    requires GoodField(f) && TypedItem(f, cur) && f.ltype.Submessage?
    ensures cur.Message? && GoodFields(f.ltype.fields) && Typed(f.ltype.fields, cur.slots)
  {
  }

  lemma VarintShortens(s: Bytes)
    ensures Varint32(s).Got? ==> |Varint32(s).rest| < |s|
  {
  }
}
