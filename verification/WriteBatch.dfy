/** Write batches: a sequence number, a count and a list of operations in one string. */
module WriteBatches {
  import opened Codings

  const HEADER: nat := 12

  datatype Record = Put(key: Bytes, value: Bytes) | Delete(key: Bytes)

  datatype Status = OK | TooSmall | BadPut | BadDelete | UnknownTag | WrongCount

  // ----- Encoding -----

  // Strings have 32-bit lengths.
  predicate Fits(r: Record) {
    match r
    case Put(k, v) => |k| < TWO_32 && |v| < TWO_32
    case Delete(k) => |k| < TWO_32
  }

  predicate AllFit(rs: seq<Record>) { forall i :: 0 <= i < |rs| ==> Fits(rs[i]) }

  function EncodeRecord(r: Record): Bytes {
    match r
    case Put(k, v) => [1] + LengthPrefixed(k) + LengthPrefixed(v)
    case Delete(k) => [0] + LengthPrefixed(k)
  }

  function EncodeRecords(rs: seq<Record>): Bytes {
    if rs == [] then [] else EncodeRecord(rs[0]) + EncodeRecords(rs[1..])
  }

  /** The contents of a batch with sequence number s. */
  function Encode(s: nat, rs: seq<Record>): Bytes { Fixed(s, 8) + Fixed(|rs| % TWO_32, 4) + EncodeRecords(rs) }

  lemma {:induction false} EncodeConcat(a: seq<Record>, b: seq<Record>)
    ensures EncodeRecords(a + b) == EncodeRecords(a) + EncodeRecords(b)
  {
    hide EncodeRecord;
    if a == [] {
      assert a + b == b;
    } else {
      assert (a + b)[1..] == a[1..] + b;
      EncodeConcat(a[1..], b);
    }
  }

  // ----- Iterating -----

  // The handler calls made, and the status returned.
  datatype Outcome = Outcome(calls: seq<Record>, status: Status)

  datatype Next = Got(record: Record, rest: Bytes) | Bad(status: Status)

  function DecodeRecord(input: Bytes): (r: Next)
    requires input != []
    ensures r.Bad? ==> r.status == BadPut || r.status == BadDelete || r.status == UnknownTag
  {
    var tag := input[0];
    if tag == 1 then
      match GetLengthPrefixed(input[1..])
      case Malformed => Bad(BadPut)
      case Parsed(k, rest) =>
        match GetLengthPrefixed(rest)
        case Malformed => Bad(BadPut)
        case Parsed(v, rest) => Got(Put(k, v), rest)
    else if tag == 0 then
      match GetLengthPrefixed(input[1..])
      case Malformed => Bad(BadDelete)
      case Parsed(k, rest) => Got(Delete(k), rest)
    else Bad(UnknownTag)
  }

  lemma DecodeShrinks(input: Bytes)
    requires input != []
    ensures DecodeRecord(input).Got? ==> |DecodeRecord(input).rest| < |input|
  {
    hide GetVarint;
    GetVarintShrinks(input[1..], 5);
    match GetLengthPrefixed(input[1..])
    case Malformed =>
    case Parsed(_, rest) => GetVarintShrinks(rest, 5);
  }

  /** WriteBatch::Iterate over what follows the header, with `found` records before it. */
  function IterateFrom(input: Bytes, found: nat, count: nat): Outcome
    decreases |input|
  {
    if input == [] then Outcome([], if found == count then OK else WrongCount)
    else
      match DecodeRecord(input)
      case Bad(status) => Outcome([], status)
      case Got(r, rest) =>
        DecodeShrinks(input);
        var o := IterateFrom(rest, found + 1, count);
        Outcome([r] + o.calls, o.status)
  }

  function Iterate(rep: Bytes): Outcome {
    if |rep| < HEADER then Outcome([], TooSmall) else IterateFrom(rep[HEADER..], 0, DecodeFixed(rep[8..HEADER]))
  }

  lemma DecodeInverts(r: Record, rest: Bytes)
    requires Fits(r)
    ensures DecodeRecord(EncodeRecord(r) + rest) == Got(r, rest)
  {
    hide GetLengthPrefixed, LengthPrefixed;
    var input := EncodeRecord(r) + rest;
    match r
    case Put(k, v) =>
      assert input[1..] == LengthPrefixed(k) + (LengthPrefixed(v) + rest);
      LengthPrefixedRoundTrip(k, LengthPrefixed(v) + rest);
      LengthPrefixedRoundTrip(v, rest);
    case Delete(k) =>
      assert input[1..] == LengthPrefixed(k) + rest;
      LengthPrefixedRoundTrip(k, rest);
  }

  lemma {:induction false} IterateFromInverts(rs: seq<Record>, found: nat, count: nat)
    requires AllFit(rs)
    ensures IterateFrom(EncodeRecords(rs), found, count) == Outcome(rs, if found + |rs| == count then OK else WrongCount)
    decreases |rs|
  {
    hide DecodeRecord, EncodeRecord, Fits;
    if rs != [] {
      DecodeInverts(rs[0], EncodeRecords(rs[1..]));
      RecordNonempty(rs[0]);
      IterateFromInverts(rs[1..], found + 1, count);
    }
  }

  lemma RecordNonempty(r: Record)
    ensures EncodeRecord(r) != []
  {
  }

  /** A batch of fewer than 2^32 operations reads back as those operations, in order. */
  lemma RoundTrip(s: nat, rs: seq<Record>)
    requires s < TWO_64 && AllFit(rs) && |rs| < TWO_32
    ensures Iterate(Encode(s, rs)) == Outcome(rs, OK)
    ensures |Encode(s, rs)| >= HEADER && DecodeFixed(Encode(s, rs)[..8]) == s && DecodeFixed(Encode(s, rs)[8..HEADER]) == |rs|
  {
    hide Fixed, DecodeFixed, EncodeRecords, IterateFrom, Pow256, AllFit;
    FixedWidths();
    FixedRoundTrip(s, 8);
    FixedRoundTrip(|rs|, 4);
    IterateFromInverts(rs, 0, |rs|);
    HeaderParts(Fixed(s, 8), Fixed(|rs|, 4), EncodeRecords(rs));
  }

  // ----- Damaged batches -----

  // Two length-prefixed strings cut short.
  lemma TwoCut(k: Bytes, v: Bytes, n: nat)
    requires |k| < TWO_32 && |v| < TWO_32 && n < |LengthPrefixed(k)| + |LengthPrefixed(v)|
    ensures var first := GetLengthPrefixed((LengthPrefixed(k) + LengthPrefixed(v))[..n]);
      first.Malformed? || GetLengthPrefixed(first.rest).Malformed?
  {
    hide GetLengthPrefixed, LengthPrefixed;
    var a, b := LengthPrefixed(k), LengthPrefixed(v);
    if n < |a| {
      assert (a + b)[..n] == a[..n];
      LengthPrefixedCut(k, n);
    } else {
      assert (a + b)[..n] == a + b[..n - |a|];
      LengthPrefixedRoundTrip(k, b[..n - |a|]);
      LengthPrefixedCut(v, n - |a|);
    }
  }

  // A record cut short is refused.
  lemma RecordCut(r: Record, n: nat)
    requires Fits(r) && 0 < n < |EncodeRecord(r)|
    ensures DecodeRecord(EncodeRecord(r)[..n]).Bad?
  {
    hide GetLengthPrefixed, LengthPrefixed;
    var input := EncodeRecord(r)[..n];
    match r
    case Put(k, v) =>
      assert input[1..] == (LengthPrefixed(k) + LengthPrefixed(v))[..n - 1];
      TwoCut(k, v, n - 1);
    case Delete(k) =>
      assert input[1..] == LengthPrefixed(k)[..n - 1];
      LengthPrefixedCut(k, n - 1);
  }

  lemma {:induction false} RecordsCut(rs: seq<Record>, n: nat, found: nat, count: nat)
    requires AllFit(rs) && n < |EncodeRecords(rs)| && found + |rs| == count
    ensures IterateFrom(EncodeRecords(rs)[..n], found, count).status != OK
    ensures IterateFrom(EncodeRecords(rs)[..n], found, count).calls < rs
    decreases |rs|
  {
    hide DecodeRecord, EncodeRecord, Fits;
    var one := EncodeRecord(rs[0]);
    if 0 < n < |one| {
      assert EncodeRecords(rs)[..n] == one[..n];
      RecordCut(rs[0], n);
    } else if n > 0 {
      assert EncodeRecords(rs)[..n] == one + EncodeRecords(rs[1..])[..n - |one|];
      DecodeInverts(rs[0], EncodeRecords(rs[1..])[..n - |one|]);
      RecordNonempty(rs[0]);
      RecordsCut(rs[1..], n - |one|, found + 1, count);
    }
  }

  /** A batch cut short anywhere is refused, and the operations before the cut are all it yields. */
  lemma CutIsRefused(s: nat, rs: seq<Record>, n: nat)
    requires s < TWO_64 && AllFit(rs) && |rs| < TWO_32 && n < |Encode(s, rs)|
    ensures Iterate(Encode(s, rs)[..n]).status != OK && Iterate(Encode(s, rs)[..n]).calls <= rs
  {
    hide Fixed, DecodeFixed, EncodeRecords, IterateFrom, Pow256, AllFit;
    RoundTrip(s, rs);
    HeaderParts(Fixed(s, 8), Fixed(|rs|, 4), EncodeRecords(rs));
    if n >= HEADER {
      var cut := Encode(s, rs)[..n];
      assert cut[8..HEADER] == Encode(s, rs)[8..HEADER] && cut[HEADER..] == EncodeRecords(rs)[..n - HEADER];
      RecordsCut(rs, n - HEADER, 0, |rs|);
    }
  }

  /** A tag that is neither ends the iteration after the operations before it. */
  lemma {:induction false} UnknownTagStops(rs: seq<Record>, tag: Byte, rest: Bytes, found: nat, count: nat)
    requires AllFit(rs) && tag > 1
    ensures IterateFrom(EncodeRecords(rs) + ([tag] + rest), found, count) == Outcome(rs, UnknownTag)
    decreases |rs|
  {
    hide EncodeRecord, Fits;
    if rs == [] {
      assert EncodeRecords(rs) + ([tag] + rest) == [tag] + rest;
    } else {
      assert EncodeRecords(rs) + ([tag] + rest) == EncodeRecord(rs[0]) + (EncodeRecords(rs[1..]) + ([tag] + rest));
      DecodeInverts(rs[0], EncodeRecords(rs[1..]) + ([tag] + rest));
      RecordNonempty(rs[0]);
      hide DecodeRecord;
      UnknownTagStops(rs[1..], tag, rest, found + 1, count);
    }
  }

  /** Whatever the bytes, a batch is accepted only with as many operations as it counts. */
  lemma AcceptedCounts(rep: Bytes)
    requires Iterate(rep).status == OK
    ensures |rep| >= HEADER && |Iterate(rep).calls| == DecodeFixed(rep[8..HEADER])
  {
    hide IterateFrom, DecodeFixed;
    CallsCounted(rep[HEADER..], 0, DecodeFixed(rep[8..HEADER]));
  }

  lemma {:induction false} CallsCounted(input: Bytes, found: nat, count: nat)
    ensures IterateFrom(input, found, count).status == OK ==> found + |IterateFrom(input, found, count).calls| == count
    decreases |input|
  {
    hide DecodeRecord;
    if input != [] && DecodeRecord(input).Got? {
      DecodeShrinks(input);
      CallsCounted(DecodeRecord(input).rest, found + 1, count);
    }
  }

  lemma HeaderParts(a: Bytes, b: Bytes, c: Bytes)
    requires |a| == 8 && |b| == 4
    ensures var r := a + b + c; r[..8] == a && r[8..HEADER] == b && r[HEADER..] == c
  {
  }

  // ----- The entries a batch inserts -----

  // MemTableInserter: consecutive sequence numbers from that of the batch on.
  datatype Added = Added(sn: nat, record: Record)

  function Sequenced(s: nat, calls: seq<Record>): seq<Added> {
    seq(|calls|, i requires 0 <= i < |calls| => Added(s + i, calls[i]))
  }

  // ----- The class -----

  class WriteBatch {
    var rep: Bytes
    ghost var sequence: nat
    ghost var records: seq<Record>

    ghost predicate Ok() reads this {
      sequence < TWO_64 && AllFit(records) && |records| < TWO_32 && rep == Encode(sequence, records)
    }

    constructor ()
      ensures Ok() && sequence == 0 && records == []
    {
      sequence, records := 0, [];
      rep := [0, 0, 0, 0, 0, 0, 0, 0, 0, 0, 0, 0];
      new;
      ZeroHeader();
    }

    method Count() returns (n: nat)
      requires Ok()
      ensures n == |records|
    {
      RoundTrip(sequence, records);
      n := DecodeFixed(rep[8..HEADER]);
    }

    // SetCount, followed by appending the encoding of more records.
    method Extend(n: nat, more: Bytes, ghost rs: seq<Record>)
      requires Ok() && n == |records| + |rs| < TWO_32 && AllFit(rs) && more == EncodeRecords(rs)
      modifies this
      ensures Ok() && sequence == old(sequence) && records == old(records) + rs
    {
      hide Fixed, EncodeRecords, Fits;
      HeaderParts(Fixed(sequence, 8), Fixed(|records| % TWO_32, 4), EncodeRecords(records));
      EncodeConcat(records, rs);
      rep := rep[..8] + Fixed(n, 4) + rep[HEADER..];
      rep := rep + more;
      assert Fixed(sequence, 8) + Fixed(n, 4) + EncodeRecords(records) + more == Fixed(sequence, 8) + Fixed(n, 4) + (EncodeRecords(records) + more);
      records := records + rs;
    }

    method Put(key: Bytes, value: Bytes)
      requires Ok() && |records| + 1 < TWO_32 && |key| < TWO_32 && |value| < TWO_32
      modifies this
      ensures Ok() && sequence == old(sequence) && records == old(records) + [Record.Put(key, value)]
    {
      var n := Count();
      OneRecord(Record.Put(key, value));
      Extend(n + 1, [1] + LengthPrefixed(key) + LengthPrefixed(value), [Record.Put(key, value)]);
    }

    method Delete(key: Bytes)
      requires Ok() && |records| + 1 < TWO_32 && |key| < TWO_32
      modifies this
      ensures Ok() && sequence == old(sequence) && records == old(records) + [Record.Delete(key)]
    {
      var n := Count();
      OneRecord(Record.Delete(key));
      Extend(n + 1, [0] + LengthPrefixed(key), [Record.Delete(key)]);
    }

    method Append(source: WriteBatch)
      requires Ok() && source.Ok() && |records| + |source.records| < TWO_32
      modifies this
      ensures Ok() && sequence == old(sequence) && records == old(records) + old(source.records)
    {
      var n := Count();
      var m := source.Count();
      hide Fixed, EncodeRecords;
      HeaderParts(Fixed(source.sequence, 8), Fixed(|source.records| % TWO_32, 4), EncodeRecords(source.records));
      Extend(n + m, source.rep[HEADER..], source.records);
    }

    method SetSequence(s: nat)
      requires Ok() && s < TWO_64
      modifies this
      ensures Ok() && sequence == s && records == old(records)
    {
      hide Fixed, EncodeRecords, Fits;
      HeaderParts(Fixed(sequence, 8), Fixed(|records| % TWO_32, 4), EncodeRecords(records));
      rep := Fixed(s, 8) + rep[8..];
      assert rep == Fixed(s, 8) + Fixed(|records| % TWO_32, 4) + EncodeRecords(records);
      sequence := s;
    }
  }

  lemma ZeroHeader()
    ensures Encode(0, []) == [0, 0, 0, 0, 0, 0, 0, 0, 0, 0, 0, 0]
  {
    assert Fixed(0, 1) == [0] && Fixed(0, 2) == [0] + Fixed(0, 1) && Fixed(0, 3) == [0] + Fixed(0, 2) && Fixed(0, 4) == [0] + Fixed(0, 3);
    assert Fixed(0, 5) == [0] + Fixed(0, 4) && Fixed(0, 6) == [0] + Fixed(0, 5) && Fixed(0, 7) == [0] + Fixed(0, 6);
    assert Fixed(0, 8) == [0] + Fixed(0, 7);
  }

  lemma OneRecord(r: Record)
    ensures EncodeRecords([r]) == EncodeRecord(r)
  {
    assert EncodeRecords([r]) == EncodeRecord(r) + [];
  }

  /** InsertInto: read the batch off its bytes, numbering the entries. */
  method InsertInto(rep: Bytes) returns (added: seq<Added>, status: Status)
    requires |rep| >= 8
    ensures added == Sequenced(DecodeFixed(rep[..8]), Iterate(rep).calls) && status == Iterate(rep).status
  {
    hide DecodeRecord, GetLengthPrefixed;
    if |rep| < HEADER {
      return [], TooSmall;
    }
    ghost var all := Iterate(rep);
    ghost var calls: seq<Record> := [];
    var input := rep[HEADER..];
    var sequence := DecodeFixed(rep[..8]);
    var count := DecodeFixed(rep[8..HEADER]);
    var found := 0;
    added := [];
    while input != []
      invariant sequence == DecodeFixed(rep[..8]) + |calls| && found == |calls| && added == Sequenced(DecodeFixed(rep[..8]), calls)
      invariant all.calls == calls + IterateFrom(input, found, count).calls && all.status == IterateFrom(input, found, count).status
      decreases |input|
    {
      found := found + 1;
      var next := DecodeRecord(input);
      match next {
        case Bad(st) =>
          assert calls + [] == calls;
          return added, st;
        case Got(r, rest) =>
          DecodeShrinks(input);
          assert calls + ([r] + IterateFrom(rest, found, count).calls) == (calls + [r]) + IterateFrom(rest, found, count).calls;
          added := added + [Added(sequence, r)];
          calls := calls + [r];
          sequence := sequence + 1;
          input := rest;
      }
    }
    assert calls + [] == calls;
    status := if found != count then WrongCount else OK;
  }

  /** Inserting a well-formed batch inserts each of its operations once, in order, with
      consecutive sequence numbers. */
  lemma BatchInserts(s: nat, rs: seq<Record>)
    requires s < TWO_64 && AllFit(rs) && |rs| < TWO_32
    ensures |Encode(s, rs)| >= 8
    ensures Sequenced(DecodeFixed(Encode(s, rs)[..8]), Iterate(Encode(s, rs)).calls) == Sequenced(s, rs)
  {
    RoundTrip(s, rs);
  }
}
