/** Bloom filters, and the filter block that holds one for every 2 KB of a table's data. */
module Filters {
  import opened Codings
  import opened Crc32c
  import Blocks

  // ----- Bits in a string of bytes -----

  function Bit(x: nat, b: nat): bool {
    if b == 0 then x % 2 == 1 else Bit(x / 2, b - 1)
  }

  // x | (1 << b)
  function Or(x: nat, b: nat): nat {
    if b == 0 then x / 2 * 2 + 1 else x % 2 + 2 * Or(x / 2, b - 1)
  }

  lemma {:induction false} OrSets(x: nat, b: nat, c: nat)
    ensures Bit(Or(x, b), c) <==> b == c || Bit(x, c)
    decreases b
  {
    OrParts(x, b);
    hide Or;
    if b > 0 && c > 0 { OrSets(x / 2, b - 1, c - 1); }
  }

  lemma OrParts(x: nat, b: nat)
    ensures Or(x, b) / 2 == if b == 0 then x / 2 else Or(x / 2, b - 1)
    ensures Or(x, b) % 2 == if b == 0 then 1 else x % 2
  {
  }

  lemma {:induction false} OrFits(x: nat, b: nat, n: nat)
    requires x < Pow2(n) && b < n
    ensures Or(x, b) < Pow2(n)
    decreases n
  {
    var half := Pow2(n - 1);
    assert Pow2(n) == 2 * half && x / 2 < half;
    if b > 0 { OrFits(x / 2, b - 1, n - 1); }
  }

  lemma EightBits()
    ensures Pow2(8) == 256
  {
    assert Pow2(4) == 16 && Pow2(6) == 4 * Pow2(4);
  }

  function GetBit(a: Bytes, i: nat): bool
    requires i < 8 * |a|
  {
    Bit(a[i / 8] as nat, i % 8)
  }

  function SetBit(a: Bytes, i: nat): (r: Bytes)
    requires i < 8 * |a|
    ensures |r| == |a|
  {
    EightBits();
    OrFits(a[i / 8] as nat, i % 8, 8);
    a[i / 8 := Or(a[i / 8] as nat, i % 8) as Byte]
  }

  lemma SetBitSets(a: Bytes, i: nat, j: nat)
    requires i < 8 * |a| && j < 8 * |a|
    ensures GetBit(SetBit(a, i), j) <==> i == j || GetBit(a, j)
  {
    OrSets(a[i / 8] as nat, i % 8, j % 8);
  }

  // ----- Bloom filters -----

  // The policy: a hash function, bits per key and number of probes.
  datatype Policy = Policy(hash: Bytes -> Word, bitsPerKey: nat, k: nat) {
    predicate Ok() { 1 <= k <= 30 }
  }

  // Rotated right by 17 bits.
  function Delta(h: Word): Word { h / 0x2_0000 + h % 0x2_0000 * 0x8000 }

  // The j-th probe of double hashing, in 32-bit arithmetic.
  function Probe(h: Word, j: nat): Word { (h + j * Delta(h)) % TWO_32 }

  lemma FirstProbe(h: Word)
    ensures Probe(h, 0) == h
  {
  }

  lemma ProbeNext(h: Word, j: nat)
    ensures Probe(h, j + 1) == (Probe(h, j) + Delta(h)) % TWO_32
  {
    var d := Delta(h);
    assert (j + 1) * d == j * d + d;
    hide Delta;
    AddWraps(h + j * d, d);
  }

  lemma AddWraps(x: nat, d: nat)
    ensures (x % TWO_32 + d) % TWO_32 == (x + d) % TWO_32
  {
  }

  ghost predicate Probed(a: Bytes, h: Word, k: nat)
    requires a != []
  {
    forall j :: 0 <= j < k ==> GetBit(a, Probe(h, j) % (8 * |a|))
  }

  /** BloomFilterPolicy::KeyMayMatch. */
  ghost predicate MayMatch(p: Policy, key: Bytes, filter: Bytes) {
    |filter| >= 2 &&
      var probes, k := filter[..|filter| - 1], filter[|filter| - 1] as nat;
      k > 30 || Probed(probes, p.hash(key), k)
  }

  method FilterMatches(p: Policy, key: Bytes, filter: Bytes) returns (r: bool)
    ensures r == MayMatch(p, key, filter)
  {
    var len := |filter|;
    if len < 2 { return false; }
    var probes := filter[..len - 1];
    var bits := (len - 1) * 8;
    var k := filter[len - 1] as nat;
    if k > 30 { return true; }
    var h := p.hash(key);
    var delta := Delta(h);
    ghost var h0 := h;
    FirstProbe(h);
    hide Probe, Delta;
    for j := 0 to k
      invariant h == Probe(h0, j) && forall i :: 0 <= i < j ==> GetBit(probes, Probe(h0, i) % (8 * |probes|))
    {
      var bitpos := h % bits;
      if !GetBit(probes, bitpos) { return false; }
      ProbeNext(h0, j);
      h := (h + delta) % TWO_32;
    }
    return true;
  }

  // Bit b is one of the key's first k probes.
  ghost predicate IsProbe(h: Word, k: nat, bits: nat, b: nat) {
    bits > 0 && exists j: nat :: j < k && b == Probe(h, j) % bits
  }

  // Bit b is a probe of a key put in.
  ghost predicate Shared(p: Policy, keys: seq<Bytes>, bits: nat, b: nat) {
    exists m :: 0 <= m < |keys| && IsProbe(p.hash(keys[m]), p.k, bits, b)
  }

  // The bits set are the probes of the keys, and no others.
  ghost predicate HoldsOnly(p: Policy, keys: seq<Bytes>, a: Bytes) {
    forall b: nat :: b < 8 * |a| ==> (GetBit(a, b) <==> Shared(p, keys, 8 * |a|, b))
  }

  // The array has as many bits as the keys call for, at least 64, in whole bytes.
  ghost predicate SizedFor(p: Policy, n: nat, a: Bytes) {
    |a| >= 8 && n * p.bitsPerKey <= 8 * |a| && (|a| == 8 || 8 * |a| < n * p.bitsPerKey + 8)
  }

  lemma HeldMatches(p: Policy, keys: seq<Bytes>, a: Bytes, key: Bytes)
    requires a != [] && HoldsOnly(p, keys, a) && key in keys
    ensures Probed(a, p.hash(key), p.k)
  {
    hide GetBit, Probe;
    var m :| 0 <= m < |keys| && keys[m] == key;
    forall j: nat | j < p.k ensures GetBit(a, Probe(p.hash(key), j) % (8 * |a|)) {
      assert IsProbe(p.hash(keys[m]), p.k, 8 * |a|, Probe(p.hash(key), j) % (8 * |a|));
    }
  }

  /** A key is found exactly when all its probes are probes of keys put in. */
  lemma MatchesIff(p: Policy, keys: seq<Bytes>, filter: Bytes, key: Bytes)
    requires p.Ok() && |filter| >= 2 && HoldsOnly(p, keys, filter[..|filter| - 1]) && filter[|filter| - 1] as nat == p.k
    ensures var bits := 8 * (|filter| - 1);
      MayMatch(p, key, filter) <==> forall j: nat :: j < p.k ==> Shared(p, keys, bits, Probe(p.hash(key), j) % bits)
  {
    hide GetBit, Probe, IsProbe;
    var a, bits := filter[..|filter| - 1], 8 * (|filter| - 1);
    forall j: nat | j < p.k ensures GetBit(a, Probe(p.hash(key), j) % bits) <==> Shared(p, keys, bits, Probe(p.hash(key), j) % bits) {
    }
  }

  /** CreateFilter: no key put in is ever missed, and no bit is set but for a key put in. */
  method CreateFilter(p: Policy, keys: seq<Bytes>) returns (filter: Bytes)
    requires p.Ok()
    ensures filter != [] && forall key :: key in keys ==> MayMatch(p, key, filter)
    ensures HoldsOnly(p, keys, filter[..|filter| - 1]) && filter[|filter| - 1] as nat == p.k
    ensures SizedFor(p, |keys|, filter[..|filter| - 1])
  {
    hide Probed, HoldsOnly, IsProbe;
    var bits := |keys| * p.bitsPerKey;
    if bits < 64 { bits := 64; }
    var bytes := (bits + 7) / 8;
    bits := bytes * 8;
    var probes: Bytes := seq(bytes, i => 0);
    NothingHeld(p, probes);
    for i := 0 to |keys|
      invariant |probes| == bytes && HoldsOnly(p, keys[..i], probes)
    {
      probes := AddToFilter(p, keys[i], probes, keys[..i]);
      assert keys[..i + 1] == keys[..i] + [keys[i]];
    }
    assert keys[..|keys|] == keys;
    filter := probes + [p.k as Byte];
    assert filter[..|filter| - 1] == probes;
    forall key | key in keys ensures MayMatch(p, key, filter) {
      HeldMatches(p, keys, probes, key);
    }
  }

  lemma NothingHeld(p: Policy, a: Bytes)
    requires forall i :: 0 <= i < |a| ==> a[i] == 0
    ensures HoldsOnly(p, [], a)
  {
    hide IsProbe, Bit;
    forall b: nat | b < 8 * |a| ensures !GetBit(a, b) { ZeroBit(b % 8); }
  }

  lemma {:induction false} ZeroBit(b: nat)
    ensures !Bit(0, b)
  {
    if b > 0 { ZeroBit(b - 1); }
  }

  // The bits of a, and the key's first j probes.
  ghost predicate WithProbes(a: Bytes, h: Word, j: nat, r: Bytes) {
    |r| == |a| && forall b: nat :: b < 8 * |a| ==> (GetBit(r, b) <==> GetBit(a, b) || IsProbe(h, j, 8 * |a|, b))
  }

  // Set the bits of one key, keeping those of the keys before it.
  method AddToFilter(p: Policy, key: Bytes, probes0: Bytes, ghost before: seq<Bytes>) returns (probes: Bytes)
    requires probes0 != [] && HoldsOnly(p, before, probes0)
    ensures |probes| == |probes0| && HoldsOnly(p, before + [key], probes)
  {
    hide GetBit, SetBit, HoldsOnly, WithProbes, Probe, Delta;
    probes := probes0;
    var bits := |probes| * 8;
    var h := p.hash(key);
    var delta := Delta(h);
    ghost var h0 := h;
    NoProbes(probes, h0);
    FirstProbe(h);
    for j := 0 to p.k
      invariant |probes| == |probes0| && h == Probe(h0, j) && WithProbes(probes0, h0, j, probes)
    {
      var bitpos := h % bits;
      OneMoreProbe(probes0, probes, bitpos, h0, j);
      ProbeNext(h0, j);
      probes := SetBit(probes, bitpos);
      h := (h + delta) % TWO_32;
    }
    OneMoreHeld(p, before, key, probes0, probes);
  }

  lemma NoProbes(a: Bytes, h: Word)
    ensures WithProbes(a, h, 0, a)
  {
    hide GetBit;
  }

  lemma OneMoreProbe(a: Bytes, r: Bytes, i: nat, h: Word, j: nat)
    requires a != [] && WithProbes(a, h, j, r) && i == Probe(h, j) % (8 * |a|)
    ensures WithProbes(a, h, j + 1, SetBit(r, i))
  {
    hide GetBit, SetBit, Probe;
    forall b: nat | b < 8 * |a| ensures GetBit(SetBit(r, i), b) <==> GetBit(a, b) || IsProbe(h, j + 1, 8 * |a|, b) {
      SetBitSets(r, i, b);
      NextProbe(h, j, 8 * |a|, b);
    }
  }

  lemma NextProbe(h: Word, j: nat, bits: nat, b: nat)
    requires bits > 0
    ensures IsProbe(h, j + 1, bits, b) <==> IsProbe(h, j, bits, b) || b == Probe(h, j) % bits
  {
    hide Probe;
  }

  lemma OneMoreHeld(p: Policy, before: seq<Bytes>, key: Bytes, a: Bytes, r: Bytes)
    requires HoldsOnly(p, before, a) && WithProbes(a, p.hash(key), p.k, r)
    ensures HoldsOnly(p, before + [key], r)
  {
    hide GetBit, IsProbe;
    var keys := before + [key];
    forall b: nat | b < 8 * |a| ensures GetBit(r, b) <==> Shared(p, keys, 8 * |a|, b) {
      if IsProbe(p.hash(key), p.k, 8 * |a|, b) { assert keys[|before|] == key; }
      if m :| 0 <= m < |before| && IsProbe(p.hash(before[m]), p.k, 8 * |a|, b) { assert keys[m] == before[m]; }
    }
  }

  // ----- The filter block -----

  const FILTER_BASE: nat := 2048
  const FILTER_BASE_LG: Byte := 11

  // Where filter i ends.
  function LimitOf(offsets: seq<nat>, size: nat, i: nat): nat
    requires i < |offsets|
  {
    if i + 1 < |offsets| then offsets[i + 1] else size
  }

  ghost function KeysAt(added: set<(nat, Bytes)>, i: nat): set<Bytes> { set e | e in added && e.0 == i :: e.1 }

  // The filter of just these keys; an empty one for none.
  ghost predicate FilterOf(p: Policy, keys: set<Bytes>, f: Bytes) {
    if keys == {} then f == [] else exists ks: seq<Bytes> :: IsFilter(p, ks, keys, f)
  }

  ghost predicate IsFilter(p: Policy, ks: seq<Bytes>, keys: set<Bytes>, f: Bytes) {
    && (forall k :: k in ks <==> k in keys)
    && |f| >= 2 && HoldsOnly(p, ks, f[..|f| - 1]) && f[|f| - 1] as nat == p.k
  }

  // Filter i of the block is that of the keys.
  ghost predicate FilterAt(p: Policy, result: Bytes, offsets: seq<nat>, i: nat, keys: set<Bytes>) {
    && i < |offsets| && offsets[i] <= LimitOf(offsets, |result|, i) <= |result|
    && FilterOf(p, keys, result[offsets[i]..LimitOf(offsets, |result|, i)])
  }

  ghost predicate AllFiltered(p: Policy, result: Bytes, offsets: seq<nat>, added: set<(nat, Bytes)>) {
    forall i :: 0 <= i < |offsets| ==> FilterAt(p, result, offsets, i, KeysAt(added, i))
  }

  // The keys since the last filter.
  ghost predicate IsPending(pending: seq<Bytes>, n: nat, added: set<(nat, Bytes)>) {
    (forall k :: k in pending <==> (n, k) in added) && forall e :: e in added ==> e.0 <= n
  }

  // The filter's answer at an offset is the filter of the keys added there; past the last filter it is yes.
  ghost predicate AnswersExactly(p: Policy, contents: Bytes, n: nat, added: set<(nat, Bytes)>, off: nat, key: Bytes) {
    if off / FILTER_BASE < n then exists f :: FilterOf(p, KeysAt(added, off / FILTER_BASE), f) && (BlockMayMatch(p, contents, off, key) <==> MayMatch(p, key, f))
    else BlockMayMatch(p, contents, off, key)
  }

  class FilterBlockBuilder {
    const policy: Policy
    var keys: Bytes            // all pending keys, flattened
    var start: seq<nat>        // where each begins
    var result: Bytes
    var filterOffsets: seq<nat>
    ghost var pending: seq<Bytes>
    ghost var added: set<(nat, Bytes)>   // filter number and key

    constructor (p: Policy)
      requires p.Ok()
      ensures Ok() && policy == p && added == {} && filterOffsets == []
    {
      policy, keys, start, result, filterOffsets, pending, added := p, [], [], [], [], [], {};
    }

    ghost predicate Ok() reads this {
      && policy.Ok() && Flattened(keys, start, pending)
      && (forall i, j :: 0 <= i <= j < |filterOffsets| ==> filterOffsets[i] <= filterOffsets[j])
      && (forall i :: 0 <= i < |filterOffsets| ==> filterOffsets[i] <= |result|)
      && AllFiltered(policy, result, filterOffsets, added) && IsPending(pending, |filterOffsets|, added)
    }

    method StartBlock(blockOffset: nat)
      requires Ok() && |filterOffsets| <= blockOffset / FILTER_BASE
      modifies this
      ensures Ok() && added == old(added) && |filterOffsets| == blockOffset / FILTER_BASE
    {
      var filterIndex := blockOffset / FILTER_BASE;
      while filterIndex > |filterOffsets|
        invariant Ok() && added == old(added) && |filterOffsets| <= filterIndex
        decreases filterIndex - |filterOffsets|
      {
        GenerateFilter();
      }
    }

    method AddKey(key: Bytes)
      requires Ok()
      modifies this
      ensures Ok() && added == old(added) + {(|filterOffsets|, key)} && filterOffsets == old(filterOffsets)
    {
      hide FilterAt, IsPending, Flattened;
      FlattenedSnoc(keys, start, pending, key);
      PendingSnoc(policy, result, filterOffsets, pending, added, key);
      start := start + [|keys|];
      keys := keys + key;
      pending := pending + [key];
      added := added + {(|filterOffsets|, key)};
    }

    method GenerateFilter()
      requires Ok()
      modifies this
      ensures Ok() && added == old(added) && |filterOffsets| == |old(filterOffsets)| + 1 && pending == []
    {
      hide FilterAt, Flattened, IsPending, AllFiltered, FilterOf;
      NothingFlattened();
      OneStartEach(keys, start, pending);
      ghost var before, offsets := result, filterOffsets;
      var filter: Bytes := [];
      if |start| > 0 {
        var tmpKeys := Unflatten(keys, start, pending);
        filter := CreateFilter(policy, tmpKeys);
      }
      FilterOfPending(policy, pending, |offsets|, added, filter);
      OneMoreFilter(policy, before, offsets, pending, added, filter);
      filterOffsets := filterOffsets + [|result|];
      result := result + filter;
      keys, start, pending := [], [], [];
    }

    /** The finished block answers yes for every key added, at any offset in the range its data
        block started in; and otherwise just as the filter of those keys does. */
    method Finish() returns (contents: Bytes)
      requires Ok()
      modifies this
      ensures added == old(added)
      ensures |contents| < TWO_32 ==> forall e, off: nat :: e in added && off / FILTER_BASE == e.0 ==>
        BlockMayMatch(policy, contents, off, e.1)
      ensures |contents| < TWO_32 ==> forall off: nat, key :: AnswersExactly(policy, contents, |filterOffsets|, added, off, key)
    {
      hide BlockMayMatch, FilterAt, Flattened, AllFiltered, AnswersExactly;
      OneStartEach(keys, start, pending);
      if |start| != 0 {
        GenerateFilter();
      }
      ghost var filters := result;
      var arrayOffset := |result|;
      AppendOffsets();
      result := result + Fixed(arrayOffset, 4);
      result := result + [FILTER_BASE_LG];
      contents := result;
      assert contents == FilterBlock(filters, filterOffsets);
      if |contents| < TWO_32 {
        forall off: nat, key ensures AnswersExactly(policy, contents, |filterOffsets|, added, off, key) {
          BlockExact(policy, filters, filterOffsets, added, off, key);
        }
        forall e, off: nat | e in added && off / FILTER_BASE == e.0 ensures BlockMayMatch(policy, contents, off, e.1) {
          ExactFinds(policy, contents, |filterOffsets|, added, off, e.1);
        }
      }
    }

    method AppendOffsets()
      modifies this`result
      ensures result == old(result) + Blocks.Numbers(filterOffsets)
    {
      for i := 0 to |filterOffsets|
        invariant result == old(result) + Blocks.Numbers(filterOffsets[..i])
      {
        assert filterOffsets[..i + 1][..i] == filterOffsets[..i];
        result := result + Fixed(filterOffsets[i], 4);
      }
      assert filterOffsets[..|filterOffsets|] == filterOffsets;
    }
  }

  // ----- Flattened keys -----

  function Concat(ks: seq<Bytes>): Bytes {
    if ks == [] then [] else Concat(ks[..|ks| - 1]) + ks[|ks| - 1]
  }

  ghost predicate Flattened(keys: Bytes, start: seq<nat>, pending: seq<Bytes>) {
    && |start| == |pending| && keys == Concat(pending)
    && forall i :: 0 <= i < |start| ==> start[i] == |Concat(pending[..i])|
  }

  lemma NothingFlattened()
    ensures Flattened([], [], [])
  {
  }

  lemma FlattenedSnoc(keys: Bytes, start: seq<nat>, pending: seq<Bytes>, key: Bytes)
    requires Flattened(keys, start, pending)
    ensures Flattened(keys + key, start + [|keys|], pending + [key])
  {
    assert (pending + [key])[..|pending|] == pending;
    forall i | 0 <= i < |start| ensures (pending + [key])[..i] == pending[..i] {}
  }

  lemma OneStartEach(keys: Bytes, start: seq<nat>, pending: seq<Bytes>)
    requires Flattened(keys, start, pending)
    ensures |start| == |pending|
  {
  }

  lemma {:induction false} ConcatPart(ks: seq<Bytes>, i: nat)
    requires i < |ks|
    ensures |Concat(ks[..i])| + |ks[i]| <= |Concat(ks)|
    ensures Concat(ks)[|Concat(ks[..i])|..|Concat(ks[..i])| + |ks[i]|] == ks[i]
    ensures i + 1 < |ks| ==> |Concat(ks[..i + 1])| == |Concat(ks[..i])| + |ks[i]|
    ensures i + 1 == |ks| ==> |Concat(ks)| == |Concat(ks[..i])| + |ks[i]|
  {
    assert ks[..i + 1][..i] == ks[..i];
    if i == |ks| - 1 {
      assert ks[..i + 1] == ks;
    } else {
      var init := ks[..|ks| - 1];
      ConcatPart(init, i);
      assert init[..i] == ks[..i];
      var p := |Concat(ks[..i])|;
      assert Concat(ks)[p..p + |ks[i]|] == Concat(init)[p..p + |ks[i]|];
    }
  }

  method Unflatten(keys: Bytes, start0: seq<nat>, ghost pending: seq<Bytes>) returns (tmpKeys: seq<Bytes>)
    requires Flattened(keys, start0, pending)
    ensures tmpKeys == pending
  {
    var start := start0 + [|keys|];  // simplify length computation
    tmpKeys := [];
    for i := 0 to |start0|
      invariant tmpKeys == pending[..i]
    {
      ConcatPart(pending, i);
      tmpKeys := tmpKeys + [keys[start[i]..start[i + 1]]];
      assert pending[..i + 1] == pending[..i] + [pending[i]];
    }
    assert pending[..|pending|] == pending;
  }

  // ----- Adding one filter -----

  lemma PendingSnoc(p: Policy, result: Bytes, offsets: seq<nat>, pending: seq<Bytes>, added: set<(nat, Bytes)>, key: Bytes)
    requires AllFiltered(p, result, offsets, added) && IsPending(pending, |offsets|, added)
    ensures AllFiltered(p, result, offsets, added + {(|offsets|, key)}) && IsPending(pending + [key], |offsets|, added + {(|offsets|, key)})
  {
    hide FilterAt;
    forall i | 0 <= i < |offsets| ensures KeysAt(added + {(|offsets|, key)}, i) == KeysAt(added, i) {}
  }

  lemma FilterOfPending(p: Policy, pending: seq<Bytes>, n: nat, added: set<(nat, Bytes)>, filter: Bytes)
    requires IsPending(pending, n, added)
    requires if pending == [] then filter == []
             else |filter| >= 2 && HoldsOnly(p, pending, filter[..|filter| - 1]) && filter[|filter| - 1] as nat == p.k
    ensures FilterOf(p, KeysAt(added, n), filter)
  {
    hide HoldsOnly;
    if pending == [] {
      assert KeysAt(added, n) == {};
    } else {
      assert pending[0] in KeysAt(added, n) by { assert (n, pending[0]) in added; }
      assert IsFilter(p, pending, KeysAt(added, n), filter);
    }
  }

  lemma OneMoreFilter(p: Policy, result: Bytes, offsets: seq<nat>, pending: seq<Bytes>, added: set<(nat, Bytes)>, filter: Bytes)
    requires AllFiltered(p, result, offsets, added) && IsPending(pending, |offsets|, added) && FilterOf(p, KeysAt(added, |offsets|), filter)
    ensures AllFiltered(p, result + filter, offsets + [|result|], added) && IsPending([], |offsets| + 1, added)
  {
    hide FilterOf;
    var result', offsets' := result + filter, offsets + [|result|];
    forall i | 0 <= i < |offsets'| ensures FilterAt(p, result', offsets', i, KeysAt(added, i)) {
      if i < |offsets| {
        var lo, hi := offsets[i], LimitOf(offsets, |result|, i);
        assert FilterAt(p, result, offsets, i, KeysAt(added, i));
        assert LimitOf(offsets', |result'|, i) == hi && result'[lo..hi] == result[lo..hi];
      } else {
        assert result'[|result|..|result'|] == filter;
      }
    }
  }

  // ----- Reading the filter block -----

  function FilterBlock(result: Bytes, offsets: seq<nat>): Bytes {
    result + Blocks.Numbers(offsets) + Fixed(|result|, 4) + [FILTER_BASE_LG]
  }

  // blockOffset >> baseLg
  function FilterIndex(blockOffset: nat, baseLg: nat): nat {
    if baseLg == 0 then blockOffset else FilterIndex(blockOffset / 2, baseLg - 1)
  }

  function NumFilters(size: nat): (n: nat)
    ensures 4 * n <= size < 4 * n + 4
  {
    size / 4
  }

  function WordAt(b: Bytes, p: nat): nat
    requires p + 4 <= |b|
  {
    DecodeFixed(b[p..p + 4])
  }

  /** FilterBlockReader::KeyMayMatch on the contents of a filter block. */
  ghost predicate BlockMayMatch(p: Policy, contents: Bytes, blockOffset: nat, key: Bytes) {
    var n := |contents|;
    n >= 5 && WordAt(contents, n - 5) <= n - 5 ==>
      var lastWord, index := WordAt(contents, n - 5), FilterIndex(blockOffset, contents[n - 1] as nat);
      index < NumFilters(n - 5 - lastWord) ==>
        var start, limit := WordAt(contents, lastWord + 4 * index), WordAt(contents, lastWord + 4 * index + 4);
        if start <= limit <= lastWord then MayMatch(p, key, contents[start..limit]) else start != limit
  }

  lemma BlockParts(result: Bytes, offsets: seq<nat>)
    requires |FilterBlock(result, offsets)| < TWO_32
    ensures var c := FilterBlock(result, offsets); var n := |c|;
      && n == |result| + 4 * |offsets| + 5 && c[n - 1] == FILTER_BASE_LG && WordAt(c, n - 5) == |result|
      && c[..|result|] == result
      && c[|result|..|result| + 4 * (|offsets| + 1)] == Blocks.Numbers(offsets + [|result|])
  {
    FixedWidths();
    FixedRoundTrip(|result|, 4);
    var words, last := Blocks.Numbers(offsets), Fixed(|result|, 4);
    assert (offsets + [|result|])[..|offsets|] == offsets;
    assert Blocks.Numbers(offsets + [|result|]) == words + last;
    assert FilterBlock(result, offsets) == result + words + last + [FILTER_BASE_LG];
    hide Fixed, DecodeFixed, Blocks.Numbers, Pow256, FilterBlock;
    FourParts(result, words, last, FILTER_BASE_LG);
  }

  lemma FourParts(a: Bytes, b: Bytes, c: Bytes, d: Byte)
    requires |c| == 4
    ensures var r := a + b + c + [d]; var n := |r|;
      r[n - 1] == d && r[n - 5..n - 5 + 4] == c && r[..|a|] == a && r[|a|..|a| + |b| + 4] == b + c
  {
  }

  lemma Word(result: Bytes, offsets: seq<nat>, i: nat)
    requires |FilterBlock(result, offsets)| < TWO_32 && i <= |offsets|
    requires forall i :: 0 <= i < |offsets| ==> offsets[i] <= |result|
    ensures var c := FilterBlock(result, offsets);
      |result| + 4 * i + 4 <= |c| && WordAt(c, |result| + 4 * i) == if i < |offsets| then offsets[i] else |result|
  {
    BlockParts(result, offsets);
    hide FilterBlock;
    var c, ns := FilterBlock(result, offsets), offsets + [|result|];
    Blocks.NumberReads(ns, i);
    hide Blocks.Numbers, DecodeFixed;
    var w := c[|result|..|result| + 4 * (|offsets| + 1)];
    assert w[4 * i..4 * i + 4] == c[|result| + 4 * i..|result| + 4 * i + 4];
  }

  lemma HalfTwice(x: nat, n: nat)
    ensures FilterIndex(x, n + 2) == FilterIndex(x / 4, n)
  {
    assert FilterIndex(x, n + 2) == FilterIndex(x / 2, n + 1) == FilterIndex(x / 2 / 2, n);
  }

  lemma IndexInRange(off: nat)
    ensures FilterIndex(off, FILTER_BASE_LG as nat) == off / FILTER_BASE
  {
    HalfTwice(off, 9);
    HalfTwice(off / 4, 7);
    HalfTwice(off / 16, 5);
    HalfTwice(off / 64, 3);
    HalfTwice(off / 256, 1);
    assert off / 4 / 4 == off / 16 && off / 16 / 4 == off / 64 && off / 64 / 4 == off / 256 && off / 256 / 4 == off / 1024;
    assert FilterIndex(off / 1024, 1) == off / 1024 / 2;
  }

  // The answer of a finished block is that of the filter at the offset.
  lemma BlockIs(p: Policy, result: Bytes, offsets: seq<nat>, off: nat, key: Bytes)
    requires |FilterBlock(result, offsets)| < TWO_32
    requires (forall i :: 0 <= i < |offsets| ==> offsets[i] <= |result|) && forall i, j :: 0 <= i <= j < |offsets| ==> offsets[i] <= offsets[j]
    ensures var i := off / FILTER_BASE;
      BlockMayMatch(p, FilterBlock(result, offsets), off, key) <==> i >= |offsets| || MayMatch(p, key, result[offsets[i]..LimitOf(offsets, |result|, i)])
  {
    hide FilterBlock, MayMatch, WordAt, Blocks.Numbers, FilterIndex;
    IndexInRange(off);
    BlockParts(result, offsets);
    var i := off / FILTER_BASE;
    if i < |offsets| {
      Word(result, offsets, i);
      Word(result, offsets, i + 1);
      SliceOfPrefix(FilterBlock(result, offsets), result, offsets[i], LimitOf(offsets, |result|, i));
    }
  }

  lemma BlockExact(p: Policy, result: Bytes, offsets: seq<nat>, added: set<(nat, Bytes)>, off: nat, key: Bytes)
    requires |FilterBlock(result, offsets)| < TWO_32 && AllFiltered(p, result, offsets, added)
    requires (forall i :: 0 <= i < |offsets| ==> offsets[i] <= |result|) && forall i, j :: 0 <= i <= j < |offsets| ==> offsets[i] <= offsets[j]
    ensures AnswersExactly(p, FilterBlock(result, offsets), |offsets|, added, off, key)
  {
    hide FilterBlock, MayMatch, BlockMayMatch, FilterOf;
    BlockIs(p, result, offsets, off, key);
    var i := off / FILTER_BASE;
    if i < |offsets| { assert FilterAt(p, result, offsets, i, KeysAt(added, i)); }
  }

  lemma ExactFinds(p: Policy, contents: Bytes, n: nat, added: set<(nat, Bytes)>, off: nat, key: Bytes)
    requires AnswersExactly(p, contents, n, added, off, key) && (off / FILTER_BASE, key) in added
    ensures BlockMayMatch(p, contents, off, key)
  {
    hide BlockMayMatch, HoldsOnly, Probed;
    if off / FILTER_BASE < n {
      var keys := KeysAt(added, off / FILTER_BASE);
      assert key in keys;
      var f :| FilterOf(p, keys, f) && (BlockMayMatch(p, contents, off, key) <==> MayMatch(p, key, f));
      var ks :| IsFilter(p, ks, keys, f);
      HeldMatches(p, ks, f[..|f| - 1], key);
    }
  }

  lemma SliceOfPrefix(c: Bytes, result: Bytes, lo: nat, hi: nat)
    requires lo <= hi <= |result| <= |c| && c[..|result|] == result
    ensures c[lo..hi] == result[lo..hi]
  {
    assert c[..|result|][lo..hi] == c[lo..hi];
  }

  class FilterBlockReader {
    const policy: Policy
    const contents: Bytes
    var offsets: nat     // where the offset array is
    var num: nat
    var baseLg: nat

    constructor (p: Policy, contents: Bytes)
      ensures policy == p && this.contents == contents && Ok()
    {
      policy, this.contents := p, contents;
      offsets, num, baseLg := 0, 0, 0;
      new;
      var n := |contents|;
      if n >= 5 {
        baseLg := contents[n - 1] as nat;
        var lastWord := WordAt(contents, n - 5);
        if lastWord <= n - 5 {
          offsets := lastWord;
          num := NumFilters(n - 5 - lastWord);
        }
      }
    }

    ghost predicate Ok() reads this {
      var n := |contents|;
      if n >= 5 && WordAt(contents, n - 5) <= n - 5 then
        offsets == WordAt(contents, n - 5) && num == NumFilters(n - 5 - offsets) && baseLg == contents[n - 1] as nat
      else num == 0
    }

    method KeyMayMatch(blockOffset: nat, key: Bytes) returns (r: bool)
      requires Ok()
      ensures r == BlockMayMatch(policy, contents, blockOffset, key)
    {
      hide MayMatch, WordAt, FilterIndex, NumFilters;
      var index := FilterIndex(blockOffset, baseLg);
      if index < num {
        var start := WordAt(contents, offsets + 4 * index);
        var limit := WordAt(contents, offsets + 4 * index + 4);
        if start <= limit && limit <= offsets {
          r := FilterMatches(policy, key, contents[start..limit]);
          return;
        } else if start == limit {
          return false;
        }
      }
      r := true;
    }
  }
}
