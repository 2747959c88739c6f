/** Blocks: sorted keys, prefix-compressed between restart points. */
module Blocks {
  import opened Codings

  datatype KV = KV(key: Bytes, value: Bytes)

  // ----- Prefix compression -----

  // Length of the longest common prefix.
  function Common(a: Bytes, b: Bytes): (n: nat)
    ensures n <= |a| && n <= |b| && a[..n] == b[..n]
  {
    if a == [] || b == [] || a[0] != b[0] then 0
    else
      var n := Common(a[1..], b[1..]);
      CommonOneMore(a, b, n);
      1 + n
  }

  lemma CommonOneMore(a: Bytes, b: Bytes, n: nat)
    requires a != [] && b != [] && a[0] == b[0] && n < |a| && n < |b| && a[1..][..n] == b[1..][..n]
    ensures a[..1 + n] == b[..1 + n]
  {
    assert a[..1 + n] == [a[0]] + a[1..][..n] && b[..1 + n] == [b[0]] + b[1..][..n];
  }

  // Entry i restarts the compression when i is a multiple of the interval k.
  function Shared(kvs: seq<KV>, k: nat, i: nat): (n: nat)
    requires k > 0 && i < |kvs|
    ensures n <= |kvs[i].key|
  {
    if i % k == 0 || i == 0 then 0 else Common(kvs[i - 1].key, kvs[i].key)
  }

  function EntryOf(shared: nat, kv: KV): Bytes
    requires shared <= |kv.key|
  {
    Varint(shared) + Varint(|kv.key| - shared) + Varint(|kv.value|) + kv.key[shared..] + kv.value
  }

  // The bytes of the first n entries.
  function Data(kvs: seq<KV>, k: nat, n: nat): Bytes
    requires k > 0 && n <= |kvs|
  {
    if n == 0 then [] else Data(kvs, k, n - 1) + EntryOf(Shared(kvs, k, n - 1), kvs[n - 1])
  }

  function Off(kvs: seq<KV>, k: nat, i: nat): nat
    requires k > 0 && i <= |kvs|
  {
    |Data(kvs, k, i)|
  }

  function NumRestarts(n: nat, k: nat): (r: nat)
    requires k > 0
    ensures r > 0 && (n > 0 ==> (r - 1) * k < n <= r * k)
  {
    if n == 0 then 1 else (n - 1) / k + 1
  }

  lemma {:induction false} MulGap(a: nat, d: nat, k: nat)
    ensures (a + d) * k == a * k + d * k && d * k >= 0
    ensures d > 0 ==> d * k >= k
    decreases d
  {
    if d > 0 {
      MulGap(a, d - 1, k);
      assert d * k == (d - 1) * k + k;
    }
  }

  lemma MulMono(a: nat, b: nat, k: nat)
    ensures a <= b ==> a * k <= b * k
    ensures a < b ==> a * k + k <= b * k
  {
    if a <= b { MulGap(a, b - a, k); }
  }

  lemma RestartInRange(n: nat, k: nat, j: nat)
    requires k > 0 && j < NumRestarts(n, k)
    ensures j * k <= n && (n > 0 ==> j * k < n)
  {
    if n > 0 {
      MulMono(j, (n - 1) / k, k);
    }
  }

  function Restarts(kvs: seq<KV>, k: nat): (r: seq<nat>)
    requires k > 0
    ensures |r| == NumRestarts(|kvs|, k)
  {
    seq(NumRestarts(|kvs|, k), j requires 0 <= j < NumRestarts(|kvs|, k) => (RestartInRange(|kvs|, k, j); Off(kvs, k, j * k)))
  }

  function Numbers(ns: seq<nat>): (r: Bytes)
    ensures |r| == 4 * |ns|
  {
    if ns == [] then [] else Numbers(ns[..|ns| - 1]) + Fixed(ns[|ns| - 1], 4)
  }

  /** The contents of a finished block. */
  function Block(kvs: seq<KV>, k: nat): Bytes
    requires k > 0
  {
    Data(kvs, k, |kvs|) + Numbers(Restarts(kvs, k)) + Fixed(|Restarts(kvs, k)|, 4)
  }

  // ----- The builder -----

  lemma {:induction false} DataStays(kvs: seq<KV>, k: nat, n: nat, kv: KV)
    requires k > 0 && n <= |kvs|
    ensures Data(kvs + [kv], k, n) == Data(kvs, k, n)
  {
    if n > 0 {
      DataStays(kvs, k, n - 1, kv);
      assert Shared(kvs + [kv], k, n - 1) == Shared(kvs, k, n - 1);
    }
  }

  lemma Counters(n: nat, k: nat)
    requires k > 0 && n > 0
    ensures n % k == 0 <==> (n - 1) % k + 1 == k
    ensures n % k != 0 ==> n / k == (n - 1) / k && n % k == (n - 1) % k + 1
    ensures n % k == 0 ==> n / k == (n - 1) / k + 1 && n / k * k == n
  {
    var q, r := (n - 1) / k, (n - 1) % k;
    assert n == q * k + (r + 1);
    if r + 1 == k {
      assert n == (q + 1) * k;
      DivMod(q + 1, 0, k);
    } else {
      DivMod(q, r + 1, k);
    }
  }

  lemma DivMod(q: nat, r: nat, k: nat)
    requires r < k
    ensures (q * k + r) / k == q && (q * k + r) % k == r
  {
    var n := q * k + r;
    assert n == n / k * k + n % k;
    MulMono(n / k, q, k);
    MulMono(q, n / k, k);
  }

  class BlockBuilder {
    const k: nat           // block_restart_interval
    var buffer: Bytes
    var restarts: seq<nat>
    var counter: nat
    var finished: bool
    var lastKey: Bytes
    ghost var kvs: seq<KV>

    constructor (interval: nat)
      requires interval >= 1
      ensures Ok() && kvs == [] && k == interval
    {
      k, buffer, restarts, counter, finished, lastKey, kvs := interval, [], [0], 0, false, [], [];
      new;
      assert Restarts([], k) == [Off([], k, 0)];
    }

    ghost predicate Ok() reads this {
      && k > 0 && !finished
      && buffer == Data(kvs, k, |kvs|) && restarts == Restarts(kvs, k)
      && counter == (if kvs == [] then 0 else (|kvs| - 1) % k + 1)
      && lastKey == if kvs == [] then [] else kvs[|kvs| - 1].key
    }

    method Reset()
      requires k >= 1
      modifies this
      ensures Ok() && kvs == []
    {
      buffer, restarts, counter, finished, lastKey, kvs := [], [0], 0, false, [], [];
      assert Restarts([], k) == [Off([], k, 0)];
    }

    method Add(key: Bytes, value: Bytes)
      requires Ok()
      modifies this
      ensures Ok() && kvs == old(kvs) + [KV(key, value)]
    {
      hide EntryOf, Restarts, NumRestarts, Common, Data, Shared;
      ghost var n, kv := |kvs|, KV(key, value);
      WhatCounts(kvs, k, kv, counter, lastKey);
      var shared := 0;
      if counter < k {
        shared := SharedPrefix(lastKey, key);
      } else {
        restarts := restarts + [|buffer|];
        counter := 0;
      }
      OneMoreRestart(kvs, k, kv);
      DataSnoc(kvs, k, kv);
      buffer := AddEntry(buffer, shared, key, value);
      assert lastKey[..shared] + key[shared..] == key;
      lastKey := lastKey[..shared] + key[shared..];
      counter := counter + 1;
      kvs := kvs + [kv];
    }

    method Empty() returns (r: bool)
      requires Ok()
      ensures r == (kvs == [])
    {
      hide EntryOf, Restarts;
      if kvs != [] { DataGrows(kvs, k, 0, |kvs|); }
      r := buffer == [];
    }

    method Finish() returns (contents: Bytes)
      requires Ok()
      modifies this
      ensures contents == Block(old(kvs), k) && finished && kvs == old(kvs)
    {
      hide Data, Restarts;
      ghost var data := buffer;
      for i := 0 to |restarts|
        invariant restarts == old(restarts) && kvs == old(kvs) && buffer == data + Numbers(restarts[..i])
      {
        assert restarts[..i + 1][..i] == restarts[..i];
        assert data + (Numbers(restarts[..i]) + Fixed(restarts[i], 4)) == (data + Numbers(restarts[..i])) + Fixed(restarts[i], 4);
        buffer := buffer + Fixed(restarts[i], 4);
      }
      assert restarts[..|restarts|] == restarts;
      buffer := buffer + Fixed(|restarts|, 4);
      finished := true;
      contents := buffer;
    }
  }

  // The counter tells whether to restart, and how much the new entry shares.
  lemma WhatCounts(kvs: seq<KV>, k: nat, kv: KV, counter: nat, lastKey: Bytes)
    requires k > 0 && counter == (if kvs == [] then 0 else (|kvs| - 1) % k + 1)
    requires lastKey == if kvs == [] then [] else kvs[|kvs| - 1].key
    ensures var n := |kvs|;
      && counter <= k && n % k == (if counter < k then counter else 0)
      && Shared(kvs + [kv], k, n) == (if counter < k then Common(lastKey, kv.key) else 0)
      && (counter == k ==> n > 0)
  {
    if kvs != [] { Counters(|kvs|, k); }
  }

  lemma DataSnoc(kvs: seq<KV>, k: nat, kv: KV)
    requires k > 0
    ensures Data(kvs + [kv], k, |kvs| + 1) == Data(kvs, k, |kvs|) + EntryOf(Shared(kvs + [kv], k, |kvs|), kv)
  {
    DataStays(kvs, k, |kvs|, kv);
  }

  method SharedPrefix(a: Bytes, b: Bytes) returns (shared: nat)
    ensures shared == Common(a, b)
  {
    shared := 0;
    var minLength := if |a| < |b| then |a| else |b|;
    assert a[0..] == a && b[0..] == b;
    while shared < minLength && a[shared] == b[shared]
      invariant shared <= minLength && shared + Common(a[shared..], b[shared..]) == Common(a, b)
    {
      assert a[shared..][1..] == a[shared + 1..] && b[shared..][1..] == b[shared + 1..];
      shared := shared + 1;
    }
  }

  // "<shared><non_shared><value_size>", the key delta and the value.
  method AddEntry(buffer: Bytes, shared: nat, key: Bytes, value: Bytes) returns (r: Bytes)
    requires shared <= |key|
    ensures r == buffer + EntryOf(shared, KV(key, value))
  {
    r := buffer + Varint(shared);
    r := r + Varint(|key| - shared);
    r := r + Varint(|value|);
    r := r + key[shared..];
    r := r + value;
  }

  lemma OneMoreRestart(kvs: seq<KV>, k: nat, kv: KV)
    requires k > 0
    ensures Restarts(kvs + [kv], k) ==
      if kvs != [] && |kvs| % k == 0 then Restarts(kvs, k) + [Off(kvs, k, |kvs|)] else Restarts(kvs, k)
  {
    hide Data;
    var n := |kvs|;
    var before, after := Restarts(kvs, k), Restarts(kvs + [kv], k);
    if n > 0 { Counters(n, k); }
    forall j | 0 <= j < |before| ensures after[j] == before[j] {
      RestartInRange(n, k, j);
      DataStays(kvs, k, j * k, kv);
    }
    if n > 0 && n % k == 0 { DataStays(kvs, k, n, kv); }
  }

  // ----- Reading entries -----

  datatype Head = Head(shared: nat, nonShared: nat, valueLength: nat, p: nat) | NoEntry

  function Third(rest: Bytes, shared: nat, nonShared: nat, limit: nat): Head
    requires |rest| <= limit
  {
    match GetVarint32(rest)
    case Malformed => NoEntry
    case Parsed(valueLength, r) =>
      VarintEnds(rest);
      // 32-bit sum
      if |r| < (nonShared + valueLength) % TWO_32 then NoEntry else Head(shared, nonShared, valueLength, limit - |r|)
  }

  /** DecodeEntry without its fast path. */
  function EntryHead(b: Bytes, p: nat, limit: nat): Head
    requires p <= limit <= |b|
  {
    VarintEnds(b[p..limit]);
    match GetVarint32(b[p..limit])
    case Malformed => NoEntry
    case Parsed(shared, r1) =>
      VarintEnds(r1);
      match GetVarint32(r1)
      case Malformed => NoEntry
      case Parsed(nonShared, r2) => Third(r2, shared, nonShared, limit)
  }

  lemma {:induction false} GetVarintEnds(b: Bytes, left: nat)
    ensures GetVarint(b, left).Parsed? ==> |GetVarint(b, left).rest| < |b| && b[|b| - |GetVarint(b, left).rest|..] == GetVarint(b, left).rest
  {
    if left > 0 && b != [] && b[0] >= 128 {
      GetVarintEnds(b[1..], left - 1);
      if GetVarint(b[1..], left - 1).Parsed? {
        var rest := GetVarint(b[1..], left - 1).rest;
        assert b[1..][|b| - 1 - |rest|..] == b[|b| - |rest|..];
      }
    }
  }

  lemma VarintEnds(b: Bytes)
    ensures GetVarint32(b).Parsed? ==> |GetVarint32(b).rest| < |b| && b[|b| - |GetVarint32(b).rest|..] == GetVarint32(b).rest
  {
    hide GetVarint;
    GetVarintEnds(b, 5);
  }

  lemma OneByteVarint(b: Bytes)
    requires b != [] && b[0] < 128
    ensures GetVarint32(b) == Parsed(b[0] as nat, b[1..])
  {
  }

  method DecodeEntry(b: Bytes, p: nat, limit: nat) returns (r: Head)
    requires p <= limit <= |b|
    ensures r == EntryHead(b, p, limit)
  {
    hide GetVarint32;
    var input := b[p..limit];
    VarintEnds(input);
    if limit - p < 3 {
      TooShort(input, limit);
      return NoEntry;
    }
    if input[0] < 128 && input[1] < 128 && input[2] < 128 {
      OneByteVarint(input);
      OneByteVarint(input[1..]);
      OneByteVarint(input[2..]);
      assert input[1..][1..] == input[2..] && input[2..][1..] == input[3..];
      var nonShared, valueLength := input[1] as nat, input[2] as nat;
      if limit - (p + 3) < nonShared + valueLength {
        return NoEntry;
      }
      return Head(input[0] as nat, nonShared, valueLength, p + 3);
    }
    var a := GetVarint32(input);
    if a.Malformed? { return NoEntry; }
    VarintEnds(a.rest);
    var c := GetVarint32(a.rest);
    if c.Malformed? { return NoEntry; }
    VarintEnds(c.rest);
    var d := GetVarint32(c.rest);
    if d.Malformed? || |d.rest| < (c.value + d.value) % TWO_32 { return NoEntry; }
    return Head(a.value, c.value, d.value, limit - |d.rest|);
  }

  lemma TooShort(input: Bytes, limit: nat)
    requires |input| < 3 && |input| <= limit
    ensures GetVarint32(input).Parsed? && GetVarint32(GetVarint32(input).rest).Parsed? ==>
      GetVarint32(GetVarint32(GetVarint32(input).rest).rest) == Malformed
  {
    hide GetVarint;
    VarintEnds(input);
    if GetVarint32(input).Parsed? {
      var r1 := GetVarint32(input).rest;
      VarintEnds(r1);
      if GetVarint32(r1).Parsed? { VarintEnds(GetVarint32(r1).rest); }
    }
  }

  // ----- Where the entries of a block are -----

  lemma {:induction false} DataGrows(kvs: seq<KV>, k: nat, i: nat, n: nat)
    requires k > 0 && i <= n <= |kvs|
    ensures Off(kvs, k, i) <= Off(kvs, k, n) && Data(kvs, k, n)[..Off(kvs, k, i)] == Data(kvs, k, i)
    ensures i < n ==> Off(kvs, k, i) < Off(kvs, k, n)
  {
    hide EntryOf, Shared;
    if i < n {
      DataGrows(kvs, k, i, n - 1);
      var before, last := Data(kvs, k, n - 1), EntryOf(Shared(kvs, k, n - 1), kvs[n - 1]);
      EntryNonempty(Shared(kvs, k, n - 1), kvs[n - 1]);
      assert (before + last)[..Off(kvs, k, i)] == before[..Off(kvs, k, i)];
    }
  }

  lemma EntryNonempty(shared: nat, kv: KV)
    requires shared <= |kv.key|
    ensures |EntryOf(shared, kv)| >= 3
  {
  }

  // Where entry i's delta begins.
  function Delta(kvs: seq<KV>, k: nat, i: nat): int
    requires k > 0 && i < |kvs|
  {
    Off(kvs, k, i + 1) - |kvs[i].value| - (|kvs[i].key| - Shared(kvs, k, i))
  }

  lemma ThreeNumbers(all: Bytes, p: nat, limit: nat, x: nat, y: nat, z: nat, rest: Bytes)
    requires p <= limit <= |all| && x < TWO_32 && y < TWO_32 && z < TWO_32 && y + z <= |rest| < TWO_32
    requires all[p..limit] == Varint(x) + (Varint(y) + (Varint(z) + rest))
    ensures |rest| <= limit && EntryHead(all, p, limit) == Head(x, y, z, limit - |rest|)
  {
    hide Varint, GetVarint32;
    Varint32RoundTrip(x, Varint(y) + (Varint(z) + rest));
    Varint32RoundTrip(y, Varint(z) + rest);
    Varint32RoundTrip(z, rest);
  }

  lemma HeadReads(all: Bytes, p: nat, end: nat, limit: nat, shared: nat, kv: KV)
    requires shared <= |kv.key| < TWO_32 && p <= end <= limit <= |all| && limit < TWO_32 && all[p..end] == EntryOf(shared, kv)
    ensures var ns := |kv.key| - shared;
      && p < end - |kv.value| - ns
      && EntryHead(all, p, limit) == Head(shared, ns, |kv.value|, end - |kv.value| - ns)
      && all[end - |kv.value| - ns..end - |kv.value|] == kv.key[shared..] && all[end - |kv.value|..end] == kv.value
  {
    var ns := |kv.key| - shared;
    var a, b, c, delta := Varint(shared), Varint(ns), Varint(|kv.value|), kv.key[shared..];
    assert EntryOf(shared, kv) == a + b + c + delta + kv.value;
    hide Varint, EntryHead, EntryOf;
    assert |a| + |b| + |c| + |delta| + |kv.value| == end - p;
    var tail := all[end..limit];
    SliceParts(all, p, limit, a, b, c, delta, kv.value, tail);
    assert |delta + kv.value + tail| == ns + |kv.value| + (limit - end);
    ThreeNumbers(all, p, limit, shared, ns, |kv.value|, delta + kv.value + tail);
  }

  lemma SliceParts(all: Bytes, p: nat, limit: nat, a: Bytes, b: Bytes, c: Bytes, d: Bytes, e: Bytes, tail: Bytes)
    requires var end := p + |a| + |b| + |c| + |d| + |e|; end <= limit <= |all| && tail == all[end..limit] && all[p..end] == a + b + c + d + e
    ensures all[p..limit] == a + (b + (c + (d + e + tail)))
    ensures var q := p + |a| + |b| + |c|; all[q..q + |d|] == d && all[q + |d|..q + |d| + |e|] == e
  {
    var end := p + |a| + |b| + |c| + |d| + |e|;
    assert all[p..limit] == all[p..end] + tail;
    var q := |a| + |b| + |c|;
    assert (a + b + c + d + e)[q..q + |d|] == d && (a + b + c + d + e)[q + |d|..] == e;
    assert all[p..end][q..q + |d|] == all[p + q..p + q + |d|];
    assert all[p..end][q + |d|..] == all[p + q + |d|..end];
  }

  lemma EntryBytes(kvs: seq<KV>, k: nat, i: nat, all: Bytes)
    requires k > 0 && i < |kvs| && Data(kvs, k, |kvs|) <= all
    ensures var entry := EntryOf(Shared(kvs, k, i), kvs[i]);
      && Off(kvs, k, i + 1) == Off(kvs, k, i) + |entry| && Off(kvs, k, i + 1) <= Off(kvs, k, |kvs|) <= |all|
      && all[Off(kvs, k, i)..Off(kvs, k, i + 1)] == entry
  {
    var entry, off, next, n := EntryOf(Shared(kvs, k, i), kvs[i]), Off(kvs, k, i), Off(kvs, k, i + 1), |kvs|;
    DataGrows(kvs, k, i + 1, n);
    assert Data(kvs, k, i + 1) == Data(kvs, k, i) + entry;
    hide EntryOf;
    PrefixOfPrefix(all, Data(kvs, k, n), next);
    assert all[..next][off..] == all[off..next];
  }

  lemma PrefixOfPrefix(all: Bytes, b: Bytes, n: nat)
    requires b <= all && n <= |b|
    ensures all[..n] == b[..n]
  {
  }

  lemma EntryReads(kvs: seq<KV>, k: nat, i: nat, all: Bytes)
    requires k > 0 && i < |kvs| && Data(kvs, k, |kvs|) <= all && Off(kvs, k, |kvs|) < TWO_32 && |kvs[i].key| < TWO_32
    ensures Off(kvs, k, i) <= Off(kvs, k, |kvs|) && Off(kvs, k, i + 1) <= Off(kvs, k, |kvs|) && Off(kvs, k, i) < Delta(kvs, k, i)
    ensures var d, v := Delta(kvs, k, i), Off(kvs, k, i + 1) - |kvs[i].value|;
      && EntryHead(all, Off(kvs, k, i), Off(kvs, k, |kvs|)) == Head(Shared(kvs, k, i), v - d, |kvs[i].value|, d)
      && all[d..v] == kvs[i].key[Shared(kvs, k, i)..] && all[v..v + |kvs[i].value|] == kvs[i].value
  {
    hide EntryOf, EntryHead, Data, Shared;
    EntryBytes(kvs, k, i, all);
    HeadReads(all, Off(kvs, k, i), Off(kvs, k, i + 1), Off(kvs, k, |kvs|), Shared(kvs, k, i), kvs[i]);
  }

  lemma {:induction false} NumberReads(ns: seq<nat>, j: nat)
    requires j < |ns| && forall i :: 0 <= i < |ns| ==> ns[i] < TWO_32
    ensures DecodeFixed(Numbers(ns)[4 * j..4 * j + 4]) == ns[j]
  {
    var init, last := ns[..|ns| - 1], Fixed(ns[|ns| - 1], 4);
    if j == |ns| - 1 {
      assert Numbers(ns)[4 * j..4 * j + 4] == last;
      FixedWidths();
      FixedRoundTrip(ns[j], 4);
    } else {
      assert Numbers(ns)[4 * j..4 * j + 4] == Numbers(init)[4 * j..4 * j + 4];
      NumberReads(init, j);
    }
  }

  // ----- The iterator -----

  predicate KeysFit(kvs: seq<KV>) { forall i :: 0 <= i < |kvs| ==> |kvs[i].key| < TWO_32 }

  // A strict total order on keys.
  ghost predicate IsOrder(less: (Bytes, Bytes) -> bool) {
    && (forall a :: !less(a, a))
    && (forall a, b :: less(a, b) || less(b, a) || a == b)
    && forall a, b, c :: less(a, b) && less(b, c) ==> less(a, c)
  }

  ghost predicate Increasing(kvs: seq<KV>, less: (Bytes, Bytes) -> bool) {
    forall i, j :: 0 <= i < j < |kvs| ==> less(kvs[i].key, kvs[j].key)
  }

  lemma RestartReads(kvs: seq<KV>, k: nat, j: nat)
    requires k > 0 && |Block(kvs, k)| < TWO_32 && j < NumRestarts(|kvs|, k)
    ensures j * k <= |kvs| && Off(kvs, k, |kvs|) + 4 * j + 4 <= |Block(kvs, k)|
    ensures DecodeFixed(Block(kvs, k)[Off(kvs, k, |kvs|) + 4 * j..Off(kvs, k, |kvs|) + 4 * j + 4]) == Off(kvs, k, j * k)
  {
    hide Data, NumRestarts;
    var data, rs := Data(kvs, k, |kvs|), Restarts(kvs, k);
    var ns, last := Numbers(rs), Fixed(|rs|, 4);
    forall i | 0 <= i < |rs| ensures rs[i] < TWO_32 {
      RestartInRange(|kvs|, k, i);
      DataGrows(kvs, k, i * k, |kvs|);
    }
    RestartInRange(|kvs|, k, j);
    NumberReads(rs, j);
    hide Numbers, DecodeFixed, Restarts;
    assert (data + ns + last)[|data| + 4 * j..|data| + 4 * j + 4] == ns[4 * j..4 * j + 4];
  }

  lemma FooterReads(kvs: seq<KV>, k: nat)
    requires k > 0 && |Block(kvs, k)| < TWO_32
    ensures var b := Block(kvs, k);
      && |b| >= 4 && DecodeFixed(b[|b| - 4..]) == NumRestarts(|kvs|, k)
      && |b| == Off(kvs, k, |kvs|) + 4 * NumRestarts(|kvs|, k) + 4
  {
    hide Data, NumRestarts, Numbers;
    FixedWidths();
    FixedRoundTrip(NumRestarts(|kvs|, k), 4);
    var b, last := Block(kvs, k), Fixed(|Restarts(kvs, k)|, 4);
    assert b[|b| - 4..] == last;
  }

  class Iter {
    const less: (Bytes, Bytes) -> bool
    const data: Bytes
    const restarts: nat
    const numRestarts: nat
    ghost const kvs: seq<KV>
    ghost const k: nat

    var current: nat
    var restartIndex: nat
    var key: Bytes
    var valueStart: nat
    var valueLength: nat
    var corrupt: bool
    ghost var at: nat    // the entry stood on, |kvs| if none

    constructor (less: (Bytes, Bytes) -> bool, data: Bytes, restarts: nat, numRestarts: nat, ghost kvs: seq<KV>, ghost k: nat)
      requires k > 0 && data == Block(kvs, k) && |data| < TWO_32 && KeysFit(kvs)
      requires restarts == Off(kvs, k, |kvs|) && numRestarts == NumRestarts(|kvs|, k)
      ensures this.less == less && this.kvs == kvs && Inv() && !Valid()
    {
      this.less, this.data, this.restarts, this.numRestarts, this.kvs, this.k := less, data, restarts, numRestarts, kvs, k;
      current, restartIndex, key, valueStart, valueLength, corrupt, at := restarts, numRestarts, [], 0, 0, false, |kvs|;
    }

    ghost predicate Wired() {
      && k > 0 && data == Block(kvs, k) && |data| < TWO_32 && KeysFit(kvs)
      && restarts == Off(kvs, k, |kvs|) && numRestarts == NumRestarts(|kvs|, k)
    }

    // On entry i.
    ghost predicate Standing(i: nat)
      reads this
    {
      && Wired() && i < |kvs| && at == i && current == Off(kvs, k, i) < restarts && key == kvs[i].key
      && valueStart + valueLength == Off(kvs, k, i + 1) <= |data| && data[valueStart..valueStart + valueLength] == kvs[i].value
      && restartIndex < numRestarts && restartIndex * k <= i
    }

    // About to parse entry i.
    ghost predicate Ready(i: nat)
      reads this
    {
      && Wired() && i <= |kvs| && valueStart + valueLength == Off(kvs, k, i)
      && restartIndex < numRestarts && restartIndex * k <= i
      && (i < |kvs| && i % k != 0 ==> i > 0 && key == kvs[i - 1].key)
    }

    ghost predicate Inv() reads this { Wired() && !corrupt && if current < restarts then Standing(at) else at == |kvs| }

    predicate Valid() reads this { current < restarts }

    function Value(): Bytes
      requires valueStart + valueLength <= |data|
      reads this
    {
      data[valueStart..valueStart + valueLength]
    }

    lemma InvIsWired()
      requires Inv()
      ensures Wired() && !corrupt
    {
    }

    /** What a caller sees is entry `at`. */
    lemma Observed()
      requires Inv()
      ensures at <= |kvs| && (Valid() <==> at < |kvs|)
      ensures Valid() ==> valueStart + valueLength <= |data| && key == kvs[at].key && Value() == kvs[at].value
    {
    }

    method GetRestartPoint(index: nat) returns (offset: nat)
      requires Wired() && index < numRestarts
      ensures index * k <= |kvs| && offset == Off(kvs, k, index * k)
    {
      RestartReads(kvs, k, index);
      offset := DecodeFixed(data[restarts + 4 * index..restarts + 4 * index + 4]);
    }

    method SeekToRestartPoint(index: nat)
      requires Wired() && index < numRestarts
      modifies this
      ensures index * k <= |kvs| && Ready(index * k) && restartIndex == index && corrupt == old(corrupt) && current == old(current)
    {
      hide Block, Off;
      key := [];
      restartIndex := index;
      valueStart := GetRestartPoint(index);
      valueLength := 0;
      MultipleOf(index, k);
    }

    method ParseNextKey(ghost i: nat) returns (more: bool)
      requires Ready(i) && !corrupt
      modifies this
      ensures Inv() && at == i && more == Valid()
    {
      hide Block, EntryHead, NumRestarts, Shared, Data;
      current := valueStart + valueLength;
      at := i;
      OffsetsBelow(kvs, k, i);
      if current >= restarts {
        current := restarts;
        restartIndex := numRestarts;
        return false;
      }
      DataFirst(kvs, k);
      EntryReads(kvs, k, i, data);
      var head := DecodeEntry(data, current, restarts);
      KeyRebuilt(kvs, k, i, key);
      key := key[..head.shared] + data[head.p..head.p + head.nonShared];
      valueStart, valueLength := head.p + head.nonShared, head.valueLength;
      AdvanceRestart(i);
      return true;
    }

    method AdvanceRestart(ghost i: nat)
      requires Wired() && i < |kvs| && current == Off(kvs, k, i) && restartIndex < numRestarts && restartIndex * k <= i
      modifies this`restartIndex
      ensures restartIndex < numRestarts && restartIndex * k <= i
    {
      hide Block, NumRestarts, Off;
      while restartIndex + 1 < numRestarts
        invariant restartIndex < numRestarts && restartIndex * k <= i
      {
        var next := GetRestartPoint(restartIndex + 1);
        if next >= current {
          break;
        }
        OffsetsOrder(kvs, k, (restartIndex + 1) * k, i);
        restartIndex := restartIndex + 1;
      }
    }

    lemma StandingIsReady(i: nat)
      requires Standing(i)
      ensures Ready(i + 1)
    {
      hide Block, NumRestarts, Data;
    }

    method Next()
      requires Inv() && Valid()
      modifies this
      ensures Inv() && at == old(at) + 1
    {
      hide Block, NumRestarts, Off, Ready;
      StandingIsReady(at);
      var more := ParseNextKey(at + 1);
    }

    method Prev()
      requires Inv() && Valid()
      modifies this
      ensures Inv()
      ensures old(at) > 0 ==> Valid() && at == old(at) - 1
      ensures old(at) == 0 ==> !Valid()
    {
      hide Block, NumRestarts, Off, Ready;
      ghost var from := at;
      var original := current;
      var point := GetRestartPoint(restartIndex);
      while point >= original
        invariant Wired() && !corrupt && at == from < |kvs| && original == Off(kvs, k, from)
        invariant restartIndex < numRestarts && restartIndex * k <= |kvs| && point == Off(kvs, k, restartIndex * k)
        decreases restartIndex
      {
        OffsetsOrder(kvs, k, restartIndex * k, from);
        if restartIndex == 0 {
          current := restarts;
          restartIndex := numRestarts;
          at := |kvs|;
          return;
        }
        restartIndex := restartIndex - 1;
        point := GetRestartPoint(restartIndex);
      }
      OffsetsOrder(kvs, k, restartIndex * k, from);
      SeekToRestartPoint(restartIndex);
      WalkTo(restartIndex * k, from, original);
    }

    // Parse entries from i on until one ends at or after `limit`, the offset of entry `stop`.
    method WalkTo(ghost i: nat, ghost stop: nat, limit: nat)
      requires Ready(i) && !corrupt && i <= stop <= |kvs| && (i == stop ==> i == |kvs|) && limit == Off(kvs, k, stop)
      modifies this
      ensures Inv() && at == if i < stop then stop - 1 else i
    {
      hide Block, NumRestarts, Off, Ready;
      var more := ParseNextKey(i);
      if i < stop { OffsetsOrder(kvs, k, i + 1, stop); }
      while more && valueStart + valueLength < limit
        invariant Inv() && i <= at && more == Valid() && limit == Off(kvs, k, stop)
        invariant if i < stop then at < stop else at == i
        decreases stop - at
      {
        OffsetsOrder(kvs, k, at + 1, stop);
        StandingIsReady(at);
        more := ParseNextKey(at + 1);
      }
      if at < |kvs| { OffsetsOrder(kvs, k, at + 1, stop); }
    }

    method SeekToFirst()
      requires Wired() && !corrupt
      modifies this
      ensures Inv() && at == 0
    {
      hide Block, NumRestarts, Off, Ready;
      SeekToRestartPoint(0);
      var more := ParseNextKey(0);
    }

    method SeekToLast()
      requires Wired() && !corrupt
      modifies this
      ensures Inv() && at == if kvs == [] then 0 else |kvs| - 1
    {
      hide Block, Off, Ready;
      SeekToRestartPoint(numRestarts - 1);
      RestartInRange(|kvs|, k, numRestarts - 1);
      WalkTo((numRestarts - 1) * k, |kvs|, restarts);
    }

    /** The first entry whose key is at or after the target. */
    method Seek(target: Bytes)
      requires Wired() && !corrupt && IsOrder(less) && Increasing(kvs, less)
      modifies this
      ensures Inv()
      ensures forall i :: 0 <= i < at ==> less(kvs[i].key, target)
      ensures Valid() ==> !less(kvs[at].key, target)
    {
      hide Block, NumRestarts, Off, Ready, Standing, IsOrder;
      var left := FindRestart(target);
      SeekToRestartPoint(left);
      ghost var i: nat := left * k;
      var more := ParseNextKey(i);
      while more && less(key, target)
        invariant Inv() && more == Valid() && i == at <= |kvs|
        invariant forall j :: 0 <= j < i ==> less(kvs[j].key, target)
        decreases |kvs| - i
      {
        Observed();
        StandingIsReady(i);
        more := ParseNextKey(i + 1);
        i := i + 1;
      }
      Observed();
    }

    // Binary search for the last restart point with a key before the target.
    method FindRestart(target: Bytes) returns (left: nat)
      requires Wired() && IsOrder(less) && Increasing(kvs, less)
      ensures left < numRestarts && left * k <= |kvs| && forall j :: 0 <= j < left * k ==> less(kvs[j].key, target)
    {
      hide Block, NumRestarts, Off, IsOrder, EntryHead, Shared, Data, Delta;
      left := 0;
      var right := numRestarts - 1;
      assert 0 * k == 0;
      while left < right
        invariant left <= right < numRestarts
        invariant left * k <= |kvs| && forall j :: 0 <= j < left * k ==> less(kvs[j].key, target)
      {
        var mid := (left + right + 1) / 2;
        var offset := GetRestartPoint(mid);
        var head, midKey := KeyAtRestart(mid, offset);
        if less(midKey, target) {
          AllBefore(kvs, less, mid * k, target);
          left := mid;
        } else {
          right := mid - 1;
        }
      }
    }

    // The first key after a restart point is stored whole.
    method KeyAtRestart(mid: nat, offset: nat) returns (head: Head, midKey: Bytes)
      requires Wired() && 0 < mid < numRestarts && mid * k <= |kvs| && offset == Off(kvs, k, mid * k)
      ensures mid * k < |kvs| && midKey == kvs[mid * k].key
    {
      hide Block, NumRestarts, EntryHead, Data;
      RestartInRange(|kvs|, k, mid);
      RestartPositive(|kvs|, k, mid);
      OffsetsBelow(kvs, k, mid * k);
      DataFirst(kvs, k);
      EntryReads(kvs, k, mid * k, data);
      MultipleOf(mid, k);
      head := DecodeEntry(data, offset, restarts);
      midKey := data[head.p..head.p + head.nonShared];
      assert kvs[mid * k].key[0..] == kvs[mid * k].key;
    }
  }

  lemma RestartPositive(n: nat, k: nat, j: nat)
    requires k > 0 && 0 < j < NumRestarts(n, k)
    ensures n > 0
  {
  }

  lemma AllBefore(kvs: seq<KV>, less: (Bytes, Bytes) -> bool, n: nat, target: Bytes)
    requires n < |kvs| && IsOrder(less) && Increasing(kvs, less) && less(kvs[n].key, target)
    ensures forall j :: 0 <= j <= n ==> less(kvs[j].key, target)
  {
    forall j | 0 <= j < n ensures less(kvs[j].key, target) {
      assert less(kvs[j].key, kvs[n].key);
    }
  }

  lemma MultipleOf(q: nat, k: nat)
    requires k > 0
    ensures q * k % k == 0
  {
    DivMod(q, 0, k);
  }

  lemma OffsetsBelow(kvs: seq<KV>, k: nat, i: nat)
    requires k > 0 && i <= |kvs|
    ensures Off(kvs, k, i) <= Off(kvs, k, |kvs|) && (i < |kvs| <==> Off(kvs, k, i) < Off(kvs, k, |kvs|))
  {
    DataGrows(kvs, k, i, |kvs|);
  }

  lemma OffsetsOrder(kvs: seq<KV>, k: nat, i: nat, j: nat)
    requires k > 0 && i <= |kvs| && j <= |kvs|
    ensures i < j <==> Off(kvs, k, i) < Off(kvs, k, j)
    ensures i <= j <==> Off(kvs, k, i) <= Off(kvs, k, j)
  {
    if i <= j { DataGrows(kvs, k, i, j); } else { DataGrows(kvs, k, j, i); }
  }

  lemma DataFirst(kvs: seq<KV>, k: nat)
    requires k > 0
    ensures Data(kvs, k, |kvs|) <= Block(kvs, k)
  {
  }

  // The key of entry i, from the one before it and the delta.
  lemma KeyRebuilt(kvs: seq<KV>, k: nat, i: nat, key: Bytes)
    requires k > 0 && i < |kvs| && (i % k != 0 ==> i > 0 && key == kvs[i - 1].key)
    ensures Shared(kvs, k, i) <= |key| && key[..Shared(kvs, k, i)] + kvs[i].key[Shared(kvs, k, i)..] == kvs[i].key
  {
    var n := Shared(kvs, k, i);
    if i % k != 0 { assert key[..n] == kvs[i].key[..n]; }
    assert kvs[i].key[..n] + kvs[i].key[n..] == kvs[i].key;
  }

  // ----- Opening a block -----

  /** Block's constructor and NewIterator: the size of the restart array is read off the end. */
  method OpenBlock(less: (Bytes, Bytes) -> bool, data: Bytes, ghost kvs: seq<KV>, ghost k: nat) returns (it: Iter)
    requires k > 0 && data == Block(kvs, k) && |data| < TWO_32 && KeysFit(kvs)
    ensures fresh(it) && it.less == less && it.kvs == kvs && it.Inv() && !it.Valid()
  {
    hide Block, NumRestarts, Off;
    FooterReads(kvs, k);
    var numRestarts := DecodeFixed(data[|data| - 4..]);
    var maxRestartsAllowed := (|data| - 4) / 4;
    assert numRestarts <= maxRestartsAllowed;
    var restartOffset: nat := |data| - (1 + numRestarts) * 4;
    it := new Iter(less, data, restartOffset, numRestarts, kvs, k);
  }

  method BuildBlock(kvs: seq<KV>, interval: nat) returns (contents: Bytes)
    requires interval >= 1
    ensures contents == Block(kvs, interval)
  {
    hide Block;
    var b := new BlockBuilder(interval);
    for i := 0 to |kvs|
      invariant b.Ok() && b.k == interval && b.kvs == kvs[..i] && fresh(b)
    {
      hide *;
      b.Add(kvs[i].key, kvs[i].value);
      assert kvs[..i + 1] == kvs[..i] + [kvs[i]];
    }
    assert kvs[..|kvs|] == kvs;
    contents := b.Finish();
  }

  /** Building a block and reading it through gives back the entries added. */
  method BuildAndRead(less: (Bytes, Bytes) -> bool, kvs: seq<KV>, interval: nat) returns (r: seq<KV>)
    requires interval >= 1 && KeysFit(kvs) && |Block(kvs, interval)| < TWO_32
    ensures r == kvs
  {
    hide Block, KeysFit, Iter.Inv;
    var contents := BuildBlock(kvs, interval);
    var it := OpenBlock(less, contents, kvs, interval);
    it.InvIsWired();
    it.SeekToFirst();
    r := [];
    it.Observed();
    while it.Valid()
      invariant it.Inv() && fresh(it) && it.kvs == kvs && it.at == |r| <= |kvs| && r == kvs[..|r|]
      invariant it.Valid() <==> it.at < |kvs|
      decreases |kvs| - it.at
    {
      it.Observed();
      r := r + [KV(it.key, it.Value())];
      it.Next();
      it.Observed();
    }
  }
}
