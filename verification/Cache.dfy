/** The LRU cache and its hash table. */
module Caches {
  import opened Codings
  import opened Versions

  // ----- The hash table -----

  // What the table sees of an entry.
  datatype Item = Item(handle: nat, key: Bytes, hash: nat)

  predicate SameKey(a: Item, key: Bytes, hash: nat) { a.hash == hash && a.key == key }

  // hash & (length - 1), the length being a power of two.
  function BucketOf(hash: nat, length: nat): (b: nat)
    requires length > 0
    ensures b < length
  {
    hash % length
  }

  predicate PowerOfTwo(n: nat) { n == 1 || (n > 1 && n % 2 == 0 && PowerOfTwo(n / 2)) }

  function Count(list: seq<seq<Item>>): nat {
    if list == [] then 0 else Count(list[..|list| - 1]) + |list[|list| - 1]|
  }

  lemma {:induction false} CountUpdate(list: seq<seq<Item>>, b: nat, chain: seq<Item>)
    requires b < |list|
    ensures Count(list[b := chain]) + |list[b]| == Count(list) + |chain|
  {
    var n := |list| - 1;
    if b == n {
      assert list[b := chain][..n] == list[..n];
    } else {
      CountUpdate(list[..n], b, chain);
      assert list[b := chain][..n] == list[..n][b := chain];
    }
  }

  ghost function AllItems(list: seq<seq<Item>>): set<Item> { set b, i | 0 <= b < |list| && 0 <= i < |list[b]| :: list[b][i] }

  // Every item is in its bucket, and no two have the same key.
  ghost predicate WellPlaced(list: seq<seq<Item>>) {
    && (forall b, i :: 0 <= b < |list| && 0 <= i < |list[b]| ==> BucketOf(list[b][i].hash, |list|) == b)
    && forall b, i, j :: 0 <= b < |list| && 0 <= i < j < |list[b]| ==> !SameKey(list[b][i], list[b][j].key, list[b][j].hash)
  }

  class HandleTable {
    var elems: nat
    var list: seq<seq<Item>>   // length_ buckets, each a chain

    ghost predicate Ok() reads this {
      |list| >= 4 && PowerOfTwo(|list|) && WellPlaced(list) && elems == Count(list)
    }

    ghost function Items(): set<Item> reads this { AllItems(list) }

    constructor ()
      ensures Ok() && Items() == {}
    {
      elems, list := 0, [[], [], [], []];
      new;
      EmptyChains(4);
      assert list == seq(4, i => []);
      assert PowerOfTwo(1) && PowerOfTwo(2) && PowerOfTwo(4);
    }

    // The slot of the matching item, or the end of its chain.
    method FindPointer(key: Bytes, hash: nat) returns (b: nat, i: nat)
      requires Ok()
      ensures b == BucketOf(hash, |list|) && i <= |list[b]|
      ensures i < |list[b]| ==> SameKey(list[b][i], key, hash)
      ensures i == |list[b]| ==> forall it :: it in Items() ==> !SameKey(it, key, hash)
      ensures i < |list[b]| ==> forall it :: it in Items() && SameKey(it, key, hash) ==> it == list[b][i]
    {
      b, i := BucketOf(hash, |list|), 0;
      while i < |list[b]| && (list[b][i].hash != hash || key != list[b][i].key)
        invariant i <= |list[b]| && forall j :: 0 <= j < i ==> !SameKey(list[b][j], key, hash)
      {
        i := i + 1;
      }
      OnlyInBucket(list, key, hash, i);
    }

    method Lookup(key: Bytes, hash: nat) returns (r: Option<Item>)
      requires Ok()
      ensures r.Some? ==> r.value in Items() && SameKey(r.value, key, hash)
      ensures r.None? ==> forall it :: it in Items() ==> !SameKey(it, key, hash)
    {
      var b, i := FindPointer(key, hash);
      r := if i < |list[b]| then Some(list[b][i]) else None;
    }

    /** The item replaces the one with its key, if any. */
    method Insert(h: Item) returns (displaced: Option<Item>)
      requires Ok()
      modifies this
      ensures Ok()
      ensures displaced.Some? ==> displaced.value in old(Items()) && SameKey(displaced.value, h.key, h.hash)
      ensures displaced.None? ==> forall it :: it in old(Items()) ==> !SameKey(it, h.key, h.hash)
      ensures Items() == (if displaced.Some? then old(Items()) - {displaced.value} else old(Items())) + {h}
    {
      var b, i := FindPointer(h.key, h.hash);
      var chain := list[b];
      displaced := if i < |chain| then Some(chain[i]) else None;
      Replaced(list, b, i, [h]);
      CountUpdate(list, b, Spliced(chain, i, [h]));
      list := list[b := Spliced(chain, i, [h])];
      if displaced.None? {
        elems := elems + 1;
        if elems > |list| {
          Resize();
        }
      }
    }

    method Remove(key: Bytes, hash: nat) returns (result: Option<Item>)
      requires Ok()
      modifies this
      ensures Ok()
      ensures result.Some? ==> result.value in old(Items()) && SameKey(result.value, key, hash) && Items() == old(Items()) - {result.value}
      ensures result.None? ==> Items() == old(Items()) && forall it :: it in Items() ==> !SameKey(it, key, hash)
    {
      var b, i := FindPointer(key, hash);
      var chain := list[b];
      result := if i < |chain| then Some(chain[i]) else None;
      if result.Some? {
        Replaced(list, b, i, []);
        CountUpdate(list, b, Spliced(chain, i, []));
        list := list[b := Spliced(chain, i, [])];
        elems := elems - 1;
      }
    }

    /** Rehashing keeps the items. */
    method Resize()
      requires Ok()
      modifies this
      ensures Ok() && Items() == old(Items()) && elems == old(elems)
    {
      hide WellPlaced, Moved, Count, AllItems, BucketOf, PowerOfTwo;
      var newLength := 4;
      Powers(4);
      while newLength < elems
        invariant newLength >= 4 && PowerOfTwo(newLength) && unchanged(this)
      {
        Powers(newLength);
        newLength := newLength * 2;
      }
      var newList: seq<seq<Item>> := seq(newLength, i => []);
      EmptyChains(newLength);
      StartMove(list, newList);
      for i := 0 to |list|
        invariant list == old(list) && elems == old(elems) && |newList| == newLength && Moved(list, i, 0, newList)
      {
        var chain := list[i];
        for j := 0 to |chain|
          invariant list == old(list) && elems == old(elems) && |newList| == newLength && Moved(list, i, j, newList)
        {
          var b := BucketOf(chain[j].hash, newLength);
          MoveOne(list, i, j, newList);
          newList := newList[b := [chain[j]] + newList[b]];
        }
        NextChain(list, i, newList);
      }
      AllMoved(list, newList);
      list := newList;
    }
  }

  lemma Powers(n: nat)
    ensures PowerOfTwo(4) && (n >= 1 && PowerOfTwo(n) ==> PowerOfTwo(n * 2))
  {
    assert PowerOfTwo(1) && PowerOfTwo(2);
    assert n * 2 / 2 == n && n * 2 % 2 == 0;
  }

  lemma {:induction false} EmptyChains(n: nat)
    ensures Count(seq(n, i => [])) == 0 && AllItems(seq(n, i => [])) == {}
  {
    if n > 0 {
      EmptyChains(n - 1);
      assert seq(n, i => [])[..n - 1] == seq<seq<Item>>(n - 1, i => []);
    }
  }

  // An item with the key can only be in its bucket, and only from position i on.
  lemma OnlyInBucket(list: seq<seq<Item>>, key: Bytes, hash: nat, i: nat)
    requires list != [] && WellPlaced(list)
    requires var chain := list[BucketOf(hash, |list|)];
      && i <= |chain| && (forall j :: 0 <= j < i ==> !SameKey(chain[j], key, hash)) && (i < |chain| ==> SameKey(chain[i], key, hash))
    ensures var chain := list[BucketOf(hash, |list|)];
      forall it :: it in AllItems(list) && SameKey(it, key, hash) ==> i < |chain| && it == chain[i]
  {
    var chain := list[BucketOf(hash, |list|)];
    forall it | it in AllItems(list) && SameKey(it, key, hash) ensures i < |chain| && it == chain[i] {
      var b, j :| 0 <= b < |list| && 0 <= j < |list[b]| && list[b][j] == it;
      assert b == BucketOf(hash, |list|) && j >= i;
    }
  }

  // The chain with the item at i, if any, replaced.
  function Spliced(chain: seq<Item>, i: nat, sub: seq<Item>): seq<Item>
    requires i <= |chain|
  {
    chain[..i] + sub + (if i < |chain| then chain[i + 1..] else [])
  }

  lemma Replaced(list: seq<seq<Item>>, b: nat, i: nat, sub: seq<Item>)
    requires WellPlaced(list) && b < |list| && i <= |list[b]| && |sub| <= 1
    requires sub != [] ==> BucketOf(sub[0].hash, |list|) == b && forall it :: it in AllItems(list) && SameKey(it, sub[0].key, sub[0].hash) ==> i < |list[b]| && it == list[b][i]
    ensures var list' := list[b := Spliced(list[b], i, sub)];
      WellPlaced(list') && AllItems(list') == (if i < |list[b]| then AllItems(list) - {list[b][i]} else AllItems(list)) + set it | it in sub
  {
    var chain, chain' := list[b], Spliced(list[b], i, sub);
    var list' := list[b := chain'];
    forall j, k | 0 <= j < k < |chain'| ensures !SameKey(chain'[j], chain'[k].key, chain'[k].hash) {
      SplicedPair(list, b, i, sub, j, k);
    }
    forall it ensures it in AllItems(list') <==> it in (if i < |chain| then AllItems(list) - {chain[i]} else AllItems(list)) || it in sub {
      SplicedItems(list, b, i, sub, it);
    }
  }

  // Where an entry of the spliced chain comes from.
  function Origin(i: nat, n: nat, j: nat): int { if j < i then j else if j < i + n then -1 else j - n + 1 }

  lemma SplicedPair(list: seq<seq<Item>>, b: nat, i: nat, sub: seq<Item>, j: nat, k: nat)
    requires WellPlaced(list) && b < |list| && i <= |list[b]| && |sub| <= 1
    requires sub != [] ==> BucketOf(sub[0].hash, |list|) == b && forall it :: it in AllItems(list) && SameKey(it, sub[0].key, sub[0].hash) ==> i < |list[b]| && it == list[b][i]
    requires j < k < |Spliced(list[b], i, sub)|
    ensures var c := Spliced(list[b], i, sub); !SameKey(c[j], c[k].key, c[k].hash)
  {
    var chain, c := list[b], Spliced(list[b], i, sub);
    var oj, ok := Origin(i, |sub|, j), Origin(i, |sub|, k);
    assert oj >= 0 ==> c[j] == chain[oj] && oj != i && c[j] in AllItems(list);
    assert ok >= 0 ==> c[k] == chain[ok] && ok != i && c[k] in AllItems(list);
    if oj >= 0 && ok >= 0 {
      assert oj < ok;
    } else if oj >= 0 {
      assert c[k] == sub[0];
      if i < |chain| { OnceOnly(chain, oj, i); }
    } else {
      assert c[j] == sub[0];
      if i < |chain| { OnceOnly(chain, ok, i); }
    }
  }

  lemma OnceOnly(chain: seq<Item>, j: nat, i: nat)
    requires j < |chain| && i < |chain|
    requires forall i, j :: 0 <= i < j < |chain| ==> !SameKey(chain[i], chain[j].key, chain[j].hash)
    ensures chain[j] == chain[i] ==> j == i
  {
  }

  lemma SplicedItems(list: seq<seq<Item>>, b: nat, i: nat, sub: seq<Item>, it: Item)
    requires WellPlaced(list) && b < |list| && i <= |list[b]| && |sub| <= 1
    ensures it in AllItems(list[b := Spliced(list[b], i, sub)]) <==>
      it in (if i < |list[b]| then AllItems(list) - {list[b][i]} else AllItems(list)) || it in sub
  {
    var chain, c := list[b], Spliced(list[b], i, sub);
    var list' := list[b := c];
    if it in AllItems(list') {
      var d, j :| 0 <= d < |list'| && 0 <= j < |list'[d]| && list'[d][j] == it;
      if d == b { FromSpliced(chain, i, sub, j); } else { assert list[d][j] == it; }
      if d != b && i < |chain| { DifferentBuckets(list, b, i, d, j); }
    }
    if it in AllItems(list) && !(i < |chain| && it == chain[i]) {
      var d, j :| 0 <= d < |list| && 0 <= j < |list[d]| && list[d][j] == it;
      if d == b {
        var n := IntoSpliced(chain, i, sub, j);
        assert list'[b][n] == it;
      } else {
        assert list'[d][j] == it;
      }
    }
    if it in sub { assert c[i] == it && list'[b][i] == it; }
  }

  lemma DifferentBuckets(list: seq<seq<Item>>, b: nat, i: nat, d: nat, j: nat)
    requires list != [] && WellPlaced(list) && b < |list| && i < |list[b]| && d < |list| && j < |list[d]| && b != d
    ensures list[b][i] != list[d][j]
  {
  }

  lemma FromSpliced(chain: seq<Item>, i: nat, sub: seq<Item>, j: nat)
    requires i <= |chain| && |sub| <= 1 && j < |Spliced(chain, i, sub)|
    requires forall i, j :: 0 <= i < j < |chain| ==> !SameKey(chain[i], chain[j].key, chain[j].hash)
    ensures var it := Spliced(chain, i, sub)[j];
      it in sub || exists o :: 0 <= o < |chain| && chain[o] == it && (i < |chain| ==> it != chain[i])
  {
    var o := Origin(i, |sub|, j);
    if o >= 0 {
      assert Spliced(chain, i, sub)[j] == chain[o];
      if i < |chain| { OnceOnly(chain, o, i); }
    }
  }

  lemma IntoSpliced(chain: seq<Item>, i: nat, sub: seq<Item>, j: nat) returns (n: nat)
    requires i <= |chain| && |sub| <= 1 && j < |chain| && (i < |chain| ==> chain[j] != chain[i])
    ensures n < |Spliced(chain, i, sub)| && Spliced(chain, i, sub)[n] == chain[j]
  {
    n := if j < i then j else j + |sub| - 1;
  }

  // ----- Resizing -----

  // The items of the chains before i, and the first j of chain i.
  ghost function Before(list: seq<seq<Item>>, i: nat, j: nat): set<Item> {
    set b, k | 0 <= b < |list| && 0 <= k < |list[b]| && (b < i || (b == i && k < j)) :: list[b][k]
  }

  // They, and only they, are in the new table.
  ghost predicate Moved(list: seq<seq<Item>>, i: nat, j: nat, newList: seq<seq<Item>>) {
    && newList != [] && WellPlaced(list) && WellPlaced(newList)
    && i <= |list| && (i < |list| ==> j <= |list[i]|) && (i == |list| ==> j == 0)
    && Count(newList) == Count(list[..i]) + j && AllItems(newList) == Before(list, i, j)
  }

  lemma StartMove(list: seq<seq<Item>>, newList: seq<seq<Item>>)
    requires WellPlaced(list) && newList != [] && AllItems(newList) == {} && Count(newList) == 0
    requires forall b :: 0 <= b < |newList| ==> newList[b] == []
    ensures Moved(list, 0, 0, newList)
  {
    assert list[..0] == [] && Before(list, 0, 0) == {};
  }

  lemma MoveOne(list: seq<seq<Item>>, i: nat, j: nat, newList: seq<seq<Item>>)
    requires Moved(list, i, j, newList) && i < |list| && j < |list[i]|
    ensures var b := BucketOf(list[i][j].hash, |newList|);
      Moved(list, i, j + 1, newList[b := [list[i][j]] + newList[b]])
  {
    var h := list[i][j];
    var b := BucketOf(h.hash, |newList|);
    forall it | it in AllItems(newList) ensures !SameKey(it, h.key, h.hash) {
      var c, k :| 0 <= c < |list| && 0 <= k < |list[c]| && (c < i || (c == i && k < j)) && list[c][k] == it;
    }
    PushFront(newList, b, h);
    CountUpdate(newList, b, [h] + newList[b]);
    forall it ensures it in Before(list, i, j + 1) <==> it in Before(list, i, j) || it == h {
      if it in Before(list, i, j + 1) {
        var c, k :| 0 <= c < |list| && 0 <= k < |list[c]| && (c < i || (c == i && k < j + 1)) && list[c][k] == it;
      }
    }
  }

  lemma PushFront(list: seq<seq<Item>>, b: nat, h: Item)
    requires WellPlaced(list) && b < |list| && BucketOf(h.hash, |list|) == b
    requires forall it :: it in AllItems(list) ==> !SameKey(it, h.key, h.hash)
    ensures WellPlaced(list[b := [h] + list[b]]) && AllItems(list[b := [h] + list[b]]) == AllItems(list) + {h}
  {
    var list' := list[b := [h] + list[b]];
    forall j | 0 <= j < |list[b]| ensures !SameKey(h, list[b][j].key, list[b][j].hash) {
      assert list[b][j] in AllItems(list);
    }
    forall it | it in AllItems(list) + {h} ensures it in AllItems(list') {
      if it in AllItems(list) {
        var d, j :| 0 <= d < |list| && 0 <= j < |list[d]| && list[d][j] == it;
        if d == b { assert list'[b][j + 1] == it; } else { assert list'[d][j] == it; }
      } else {
        assert list'[b][0] == it;
      }
    }
    forall it | it in AllItems(list') ensures it in AllItems(list) + {h} {
      var d, j :| 0 <= d < |list'| && 0 <= j < |list'[d]| && list'[d][j] == it;
      if d == b { if j > 0 { assert list[b][j - 1] == it; } } else { assert list[d][j] == it; }
    }
  }

  lemma NextChain(list: seq<seq<Item>>, i: nat, newList: seq<seq<Item>>)
    requires i < |list| && Moved(list, i, |list[i]|, newList)
    ensures Moved(list, i + 1, 0, newList)
  {
    assert list[..i + 1][..i] == list[..i];
    assert Before(list, i + 1, 0) == Before(list, i, |list[i]|);
  }

  lemma AllMoved(list: seq<seq<Item>>, newList: seq<seq<Item>>)
    requires Moved(list, |list|, 0, newList)
    ensures WellPlaced(newList) && Count(newList) == Count(list) && AllItems(newList) == AllItems(list)
  {
    assert list[..|list|] == list && Before(list, |list|, 0) == AllItems(list);
  }

  // ----- Circular lists -----

  // Links from handle to handle; 0 and 1 are the dummy heads of the LRU and in-use lists.
  datatype Links = Links(next: map<nat, nat>, prev: map<nat, nat>)

  const LRU: nat := 0
  const IN_USE: nat := 1

  function Around(head: nat, l: seq<nat>): seq<nat> { [head] + l + [head] }

  ghost predicate NoRepeats(l: seq<nat>) { forall i, j :: 0 <= i < j < |l| ==> l[i] != l[j] }

  // Position i of the round links to the next, and back.
  ghost predicate LinkAt(k: Links, c: seq<nat>, i: nat)
    requires i + 1 < |c|
  {
    c[i] in k.next && c[i + 1] in k.prev && k.next[c[i]] == c[i + 1] && k.prev[c[i + 1]] == c[i]
  }

  // The links run through l, both ways, and back to the head.
  ghost predicate Ring(k: Links, head: nat, l: seq<nat>) {
    head !in l && NoRepeats(l) && forall i :: 0 <= i <= |l| ==> LinkAt(k, Around(head, l), i)
  }

  // LRU_Remove
  function Unlinked(k: Links, e: nat): Links
    requires e in k.next && e in k.prev
  {
    Links(k.next[k.prev[e] := k.next[e]], k.prev[k.next[e] := k.prev[e]])
  }

  // LRU_Append: just before the head, so newest.
  function Appended(k: Links, head: nat, e: nat): Links
    requires head in k.prev
  {
    var last := k.prev[head];
    Links(k.next[e := head][last := e], k.prev[e := last][head := e])
  }

  function Without(l: seq<nat>, i: nat): seq<nat>
    requires i < |l|
  {
    l[..i] + l[i + 1..]
  }

  lemma RingRemove(k: Links, head: nat, l: seq<nat>, i: nat)
    requires Ring(k, head, l) && i < |l|
    ensures l[i] in k.next && l[i] in k.prev && Ring(Unlinked(k, l[i]), head, Without(l, i))
  {
    var c, l' := Around(head, l), Without(l, i);
    var c' := Around(head, l');
    assert LinkAt(k, c, i) && LinkAt(k, c, i + 1) && c[i + 1] == l[i];
    var k' := Unlinked(k, l[i]);
    forall j | 0 <= j <= |l'| ensures LinkAt(k', c', j) {
      assert LinkAt(k, c, if j <= i then j else j + 1);
      assert c'[j] == (if j <= i then c[j] else c[j + 1]) && c'[j + 1] == if j < i then c[j + 1] else c[j + 2];
    }
  }

  lemma RingAppend(k: Links, head: nat, l: seq<nat>, e: nat)
    requires Ring(k, head, l) && e != head && e !in l
    ensures head in k.prev && Ring(Appended(k, head, e), head, l + [e])
  {
    var c, l' := Around(head, l), l + [e];
    assert LinkAt(k, c, |l|);
    var c', k' := Around(head, l'), Appended(k, head, e);
    forall j | 0 <= j <= |l'| ensures LinkAt(k', c', j) {
      if j < |l| {
        assert LinkAt(k, c, j) && c'[j] == c[j] && c'[j + 1] == c[j + 1];
      }
    }
  }

  // The handles a change of links may touch.
  ghost predicate SameOn(k: Links, k': Links, x: nat) {
    && (x in k.next ==> x in k'.next && k'.next[x] == k.next[x])
    && (x in k.prev ==> x in k'.prev && k'.prev[x] == k.prev[x])
  }

  // A ring that shares no handle with the change is not affected.
  lemma RingKept(k: Links, k': Links, head: nat, l: seq<nat>)
    requires Ring(k, head, l) && forall x :: x == head || x in l ==> SameOn(k, k', x)
    ensures Ring(k', head, l)
  {
    var c := Around(head, l);
    forall i | 0 <= i <= |l| ensures LinkAt(k', c, i) {
      assert LinkAt(k, c, i) && SameOn(k, k', c[i]) && SameOn(k, k', c[i + 1]);
    }
  }

  // The neighbours of a handle on a ring are on it too.
  lemma Neighbours(k: Links, head: nat, l: seq<nat>, e: nat)
    requires Ring(k, head, l) && (e == head || e in l)
    ensures e in k.next && e in k.prev
    ensures (k.next[e] == head || k.next[e] in l) && (k.prev[e] == head || k.prev[e] in l)
    ensures e == head ==> k.next[e] == if l == [] then head else l[0]
  {
    var c := Around(head, l);
    if e == head {
      assert LinkAt(k, c, 0) && LinkAt(k, c, |l|);
    } else {
      var i :| 0 <= i < |l| && l[i] == e;
      assert LinkAt(k, c, i) && LinkAt(k, c, i + 1) && c[i + 1] == e;
    }
  }

  // ----- The cache -----

  datatype Handle = Handle(key: Bytes, hash: nat, charge: nat, inCache: bool, refs: nat)

  function Charges(handles: map<nat, Handle>, l: seq<nat>): nat
    requires forall x :: x in l ==> x in handles
  {
    if l == [] then 0 else Charges(handles, l[..|l| - 1]) + handles[l[|l| - 1]].charge
  }

  function ItemOf(handles: map<nat, Handle>, e: nat): Item
    requires e in handles
  {
    Item(e, handles[e].key, handles[e].hash)
  }

  // ----- What each change keeps -----

  // Cached entries are on the list their references call for, and usage is what they charge.
  ghost predicate Lists(handles: map<nat, Handle>, k: Links, lru: seq<nat>, inUse: seq<nat>, usage: nat) {
    && Ring(k, LRU, lru) && Ring(k, IN_USE, inUse)
    && (forall e :: e in lru || e in inUse ==> e in handles && handles[e].inCache)
    && (forall e :: e in handles ==> 2 <= e && handles[e].refs > 0)
    && (forall e :: e in handles && handles[e].inCache ==> if handles[e].refs == 1 then e in lru && e !in inUse else e in inUse && e !in lru)
    && usage == Charges(handles, lru) + Charges(handles, inUse)
  }

  // Every handle ever made is still allocated or has been deleted, once.
  ghost predicate Deleters(handles: map<nat, Handle>, deleted: seq<nat>, issued: nat) {
    && NoRepeats(deleted) && 2 <= issued
    && (forall e :: e in handles ==> 2 <= e < issued && e !in deleted)
    && (forall e :: e in deleted ==> 2 <= e < issued)
    && forall e :: 2 <= e < issued ==> e in handles || e in deleted
  }

  // Taking an entry off one ring leaves the other.
  lemma DropFromRing(k: Links, h: nat, l: seq<nat>, i: nat, h2: nat, l2: seq<nat>)
    requires Ring(k, h, l) && Ring(k, h2, l2) && i < |l|
    requires h != h2 && h !in l2 && h2 !in l && forall x :: x in l ==> x !in l2
    ensures NoRepeats(l) && l[i] in k.next && l[i] in k.prev
    ensures Ring(Unlinked(k, l[i]), h, Without(l, i)) && Ring(Unlinked(k, l[i]), h2, l2)
  {
    RingRemove(k, h, l, i);
    assert l[i] in l;
    Neighbours(k, h, l, l[i]);
    forall x | x == h2 || x in l2 ensures SameOn(k, Unlinked(k, l[i]), x) {}
    RingKept(k, Unlinked(k, l[i]), h2, l2);
  }

  lemma AddToRing(k: Links, h: nat, l: seq<nat>, e: nat, h2: nat, l2: seq<nat>)
    requires Ring(k, h, l) && Ring(k, h2, l2) && e != h && e != h2 && e !in l && e !in l2
    requires h != h2 && h !in l2 && h2 !in l && forall x :: x in l ==> x !in l2
    ensures h in k.prev && Ring(Appended(k, h, e), h, l + [e]) && Ring(Appended(k, h, e), h2, l2)
  {
    RingAppend(k, h, l, e);
    Neighbours(k, h, l, h);
    forall x | x == h2 || x in l2 ensures SameOn(k, Appended(k, h, e), x) {}
    RingKept(k, Appended(k, h, e), h2, l2);
  }

  // Charges depend only on the charges.
  lemma {:induction false} ChargesSame(a: map<nat, Handle>, b: map<nat, Handle>, l: seq<nat>)
    requires forall x :: x in l ==> x in a && x in b && a[x].charge == b[x].charge
    ensures Charges(a, l) == Charges(b, l)
  {
    if l != [] {
      assert l[|l| - 1] in l;
      ChargesSame(a, b, l[..|l| - 1]);
    }
  }

  lemma {:induction false} ChargesWithout(handles: map<nat, Handle>, l: seq<nat>, i: nat)
    requires i < |l| && forall x :: x in l ==> x in handles
    ensures l[i] in l && (forall x :: x in Without(l, i) ==> x in l)
    ensures Charges(handles, l) == Charges(handles, Without(l, i)) + handles[l[i]].charge
  {
    var n := |l| - 1;
    if i == n {
      assert Without(l, i) == l[..n];
    } else {
      assert l[i] in l && l[n] in l;
      ChargesWithout(handles, l[..n], i);
      assert Without(l, i)[..|Without(l, i)| - 1] == Without(l[..n], i) && Without(l, i)[|Without(l, i)| - 1] == l[n];
    }
  }

  lemma ChargesAppend(handles: map<nat, Handle>, l: seq<nat>, e: nat)
    requires e in handles && forall x :: x in l ==> x in handles
    ensures Charges(handles, l + [e]) == Charges(handles, l) + handles[e].charge
  {
    assert (l + [e])[..|l|] == l;
  }

  lemma WithoutMembers(l: seq<nat>, i: nat)
    requires i < |l| && NoRepeats(l)
    ensures forall x :: x in Without(l, i) <==> x in l && x != l[i]
  {
    forall x | x in l && x != l[i] ensures x in Without(l, i) {
      var j :| 0 <= j < |l| && l[j] == x;
      assert Without(l, i)[if j < i then j else j - 1] == x;
    }
    forall x | x in Without(l, i) ensures x in l && x != l[i] {
      var j :| 0 <= j < |Without(l, i)| && Without(l, i)[j] == x;
      assert l[if j < i then j else j + 1] == x;
    }
  }

  // Ref, on an idle cached entry: off the LRU list, onto the in-use list.
  lemma ToInUse(handles: map<nat, Handle>, k: Links, lru: seq<nat>, inUse: seq<nat>, usage: nat, i: nat)
    requires Lists(handles, k, lru, inUse, usage) && i < |lru|
    ensures var e := lru[i];
      && e in handles && e in k.next && e in k.prev && IN_USE in Unlinked(k, e).prev
      && Lists(handles[e := handles[e].(refs := handles[e].refs + 1)], Appended(Unlinked(k, e), IN_USE, e), Without(lru, i), inUse + [e], usage)
  {
    hide Ring, Charges, Unlinked, Appended, Without, NoRepeats;
    var e := lru[i];
    assert e in lru;
    DropFromRing(k, LRU, lru, i, IN_USE, inUse);
    WithoutMembers(lru, i);
    AddToRing(Unlinked(k, e), IN_USE, inUse, e, LRU, Without(lru, i));
    ChargesWithout(handles, lru, i);
    ChargesAppend(handles, inUse, e);
    var handles' := handles[e := handles[e].(refs := handles[e].refs + 1)];
    ChargesSame(handles, handles', Without(lru, i));
    ChargesSame(handles, handles', inUse + [e]);
  }

  // Unref, on an entry whose last client lets go: back onto the LRU list, as the newest.
  lemma ToLru(handles: map<nat, Handle>, k: Links, lru: seq<nat>, inUse: seq<nat>, usage: nat, i: nat)
    requires Lists(handles, k, lru, inUse, usage) && i < |inUse| && inUse[i] in handles && handles[inUse[i]].refs == 2
    ensures var e := inUse[i];
      && e in k.next && e in k.prev && LRU in Unlinked(k, e).prev
      && Lists(handles[e := handles[e].(refs := 1)], Appended(Unlinked(k, e), LRU, e), lru + [e], Without(inUse, i), usage)
  {
    hide Ring, Charges, Unlinked, Appended, Without, NoRepeats;
    var e := inUse[i];
    assert e in inUse;
    DropFromRing(k, IN_USE, inUse, i, LRU, lru);
    WithoutMembers(inUse, i);
    AddToRing(Unlinked(k, e), LRU, lru, e, IN_USE, Without(inUse, i));
    ChargesWithout(handles, inUse, i);
    ChargesAppend(handles, lru, e);
    var handles' := handles[e := handles[e].(refs := 1)];
    ChargesSame(handles, handles', Without(inUse, i));
    ChargesSame(handles, handles', lru + [e]);
  }

  // A change of references that moves nothing.
  lemma RefsOnly(handles: map<nat, Handle>, k: Links, lru: seq<nat>, inUse: seq<nat>, usage: nat, e: nat, refs: nat)
    requires Lists(handles, k, lru, inUse, usage) && e in handles && refs > 0
    requires handles[e].inCache ==> handles[e].refs >= 2 && refs >= 2
    ensures Lists(handles[e := handles[e].(refs := refs)], k, lru, inUse, usage)
  {
    var handles' := handles[e := handles[e].(refs := refs)];
    ChargesSame(handles, handles', lru);
    ChargesSame(handles, handles', inUse);
  }

  // An entry outside the cache comes or goes.
  lemma Outsider(handles: map<nat, Handle>, k: Links, lru: seq<nat>, inUse: seq<nat>, usage: nat, e: nat, h: Handle)
    requires Lists(handles, k, lru, inUse, usage) && e !in lru && e !in inUse && e >= 2
    requires e in handles ==> !handles[e].inCache
    ensures Lists(handles - {e}, k, lru, inUse, usage)
    ensures !h.inCache && h.refs > 0 ==> Lists(handles[e := h], k, lru, inUse, usage)
  {
    ChargesSame(handles, handles - {e}, lru);
    ChargesSame(handles, handles - {e}, inUse);
    ChargesSame(handles, handles[e := h], lru);
    ChargesSame(handles, handles[e := h], inUse);
  }

  // FinishErase: off its list and out of the count.
  lemma OffLru(handles: map<nat, Handle>, k: Links, lru: seq<nat>, inUse: seq<nat>, usage: nat, i: nat)
    requires Lists(handles, k, lru, inUse, usage) && i < |lru|
    ensures var e := lru[i];
      && e in lru && e in handles && e in k.next && e in k.prev && usage >= handles[e].charge
      && Lists(handles[e := handles[e].(inCache := false)], Unlinked(k, e), Without(lru, i), inUse, usage - handles[e].charge)
  {
    hide Ring, Charges, Unlinked, Without, NoRepeats;
    var e := lru[i];
    assert e in lru;
    var handles' := handles[e := handles[e].(inCache := false)];
    DropFromRing(k, LRU, lru, i, IN_USE, inUse);
    WithoutMembers(lru, i);
    ChargesWithout(handles, lru, i);
    ChargesSame(handles, handles', Without(lru, i));
    ChargesSame(handles, handles', inUse);
  }

  lemma OffInUse(handles: map<nat, Handle>, k: Links, lru: seq<nat>, inUse: seq<nat>, usage: nat, i: nat)
    requires Lists(handles, k, lru, inUse, usage) && i < |inUse|
    ensures var e := inUse[i];
      && e in inUse && e in handles && e in k.next && e in k.prev && usage >= handles[e].charge
      && Lists(handles[e := handles[e].(inCache := false)], Unlinked(k, e), lru, Without(inUse, i), usage - handles[e].charge)
  {
    hide Ring, Charges, Unlinked, Without, NoRepeats;
    var e := inUse[i];
    assert e in inUse;
    var handles' := handles[e := handles[e].(inCache := false)];
    DropFromRing(k, IN_USE, inUse, i, LRU, lru);
    WithoutMembers(inUse, i);
    ChargesWithout(handles, inUse, i);
    ChargesSame(handles, handles', Without(inUse, i));
    ChargesSame(handles, handles', lru);
  }

  // Insert: a new entry goes straight onto the in-use list.
  lemma OntoInUse(handles: map<nat, Handle>, k: Links, lru: seq<nat>, inUse: seq<nat>, usage: nat, e: nat, h: Handle)
    requires Lists(handles, k, lru, inUse, usage) && e !in handles && e >= 2 && h.inCache && h.refs == 2
    ensures IN_USE in k.prev && Lists(handles[e := h], Appended(k, IN_USE, e), lru, inUse + [e], usage + h.charge)
  {
    AddToRing(k, IN_USE, inUse, e, LRU, lru);
    var handles' := handles[e := h];
    ChargesSame(handles, handles', lru);
    ChargesSame(handles, handles', inUse);
    ChargesAppend(handles', inUse, e);
  }

  // ----- References and deleters -----

  function Position(l: seq<nat>, e: nat): (i: nat)
    requires e in l
    ensures i < |l| && l[i] == e
  {
    if l[0] == e then 0 else 1 + Position(l[1..], e)
  }

  function Minus(l: seq<nat>, e: nat): seq<nat> { if e in l then Without(l, Position(l, e)) else l }

  // One reference fewer; the last one frees the entry.
  function Dereferenced(handles: map<nat, Handle>, e: nat): map<nat, Handle>
    requires e in handles && handles[e].refs > 0
  {
    if handles[e].refs == 1 then handles - {e} else handles[e := handles[e].(refs := handles[e].refs - 1)]
  }

  // The cache lets go of the entry.
  function Uncached(handles: map<nat, Handle>, e: nat): map<nat, Handle>
    requires e in handles && handles[e].refs > 0
  {
    Dereferenced(handles[e := handles[e].(inCache := false)], e)
  }

  function Freed(handles: map<nat, Handle>, e: nat): seq<nat>
    requires e in handles
  {
    if handles[e].refs == 1 then [e] else []
  }

  ghost function CachedItems(handles: map<nat, Handle>): set<Item> {
    set e | e in handles && handles[e].inCache :: ItemOf(handles, e)
  }

  // References are those of the clients and the cache's own.
  ghost predicate Counted(handles: map<nat, Handle>, held: multiset<nat>) {
    && (forall e :: e in handles ==> handles[e].refs == held[e] + if handles[e].inCache then 1 else 0)
    && forall e :: e in held ==> e in handles
  }

  lemma DeleteOne(handles: map<nat, Handle>, deleted: seq<nat>, issued: nat, e: nat)
    requires Deleters(handles, deleted, issued) && e in handles
    ensures Deleters(handles - {e}, deleted + [e], issued)
  {
  }

  lemma CachedSame(a: map<nat, Handle>, b: map<nat, Handle>)
    requires forall e :: (e in a && a[e].inCache) <==> (e in b && b[e].inCache)
    requires forall e :: e in a && e in b ==> a[e].key == b[e].key && a[e].hash == b[e].hash
    ensures CachedItems(a) == CachedItems(b)
  {
    forall it | it in CachedItems(a) ensures it in CachedItems(b) {
      var e :| e in a && a[e].inCache && it == ItemOf(a, e);
      assert it == ItemOf(b, e);
    }
    forall it | it in CachedItems(b) ensures it in CachedItems(a) {
      var e :| e in b && b[e].inCache && it == ItemOf(b, e);
      assert it == ItemOf(a, e);
    }
  }

  lemma CachedLess(handles: map<nat, Handle>, e: nat)
    requires e in handles && handles[e].refs > 0
    ensures CachedItems(Uncached(handles, e)) == CachedItems(handles) - {ItemOf(handles, e)}
  {
    var b := Uncached(handles, e);
    forall it | it in CachedItems(handles) && it != ItemOf(handles, e) ensures it in CachedItems(b) {
      var x :| x in handles && handles[x].inCache && it == ItemOf(handles, x);
      assert x != e && it == ItemOf(b, x);
    }
    forall it | it in CachedItems(b) ensures it in CachedItems(handles) && it != ItemOf(handles, e) {
      var x :| x in b && b[x].inCache && it == ItemOf(b, x);
      assert x != e && it == ItemOf(handles, x);
    }
  }

  lemma CachedMore(handles: map<nat, Handle>, e: nat, h: Handle)
    requires e !in handles
    ensures CachedItems(handles[e := h]) == CachedItems(handles) + if h.inCache then {Item(e, h.key, h.hash)} else {}
  {
    var b := handles[e := h];
    forall it | it in CachedItems(handles) ensures it in CachedItems(b) {
      var x :| x in handles && handles[x].inCache && it == ItemOf(handles, x);
      assert it == ItemOf(b, x);
    }
    if h.inCache { assert Item(e, h.key, h.hash) == ItemOf(b, e); }
  }

  // The table holds one item a key.
  lemma UniqueKey(list: seq<seq<Item>>, a: Item, b: Item)
    requires list != [] && WellPlaced(list) && a in AllItems(list) && b in AllItems(list) && SameKey(a, b.key, b.hash)
    ensures a == b
  {
    var c, i :| 0 <= c < |list| && 0 <= i < |list[c]| && list[c][i] == a;
    var d, j :| 0 <= d < |list| && 0 <= j < |list[d]| && list[d][j] == b;
    assert c == BucketOf(a.hash, |list|) == d;
  }

  lemma CachedMember(handles: map<nat, Handle>, it: Item)
    requires it in CachedItems(handles)
    ensures it.handle in handles && handles[it.handle].inCache && it == ItemOf(handles, it.handle)
  {
  }

  lemma InCachedItems(handles: map<nat, Handle>, e: nat)
    requires e in handles && handles[e].inCache
    ensures ItemOf(handles, e) in CachedItems(handles)
  {
  }

  // Which list an entry is on.
  lemma Listed(handles: map<nat, Handle>, k: Links, lru: seq<nat>, inUse: seq<nat>, usage: nat, e: nat)
    requires Lists(handles, k, lru, inUse, usage) && e in handles
    ensures 2 <= e && handles[e].refs > 0
    ensures e in lru <==> handles[e].inCache && handles[e].refs == 1
    ensures e in inUse <==> handles[e].inCache && handles[e].refs >= 2
  {
  }

  class LRUCache {
    var capacity: nat
    var usage: nat
    var handles: map<nat, Handle>   // what has been allocated and not freed
    var links: Links
    const table: HandleTable
    var deleted: seq<nat>           // the deleter calls, in order
    var issued: nat
    ghost var lru: seq<nat>         // oldest first
    ghost var inUse: seq<nat>
    ghost var held: multiset<nat>   // the references clients have

    ghost predicate Linked() reads this {
      Lists(handles, links, lru, inUse, usage) && Deleters(handles, deleted, issued)
    }

    ghost predicate Ok() reads this, table {
      Linked() && Counted(handles, held) && table.Ok() && table.Items() == CachedItems(handles)
    }

    // No client holds an entry: then destruction is allowed.
    ghost predicate Idle() reads this { held == multiset{} }

    constructor ()
      ensures Ok() && fresh(table) && handles == map[] && deleted == [] && capacity == 0 && lru == [] && Idle()
    {
      capacity, usage, handles, deleted, issued := 0, 0, map[], [], 2;
      links := Links(map[LRU := LRU, IN_USE := IN_USE], map[LRU := LRU, IN_USE := IN_USE]);
      lru, inUse, held := [], [], multiset{};
      table := new HandleTable();
    }

    method SetCapacity(c: nat)
      requires Ok()
      modifies this`capacity
      ensures Ok() && capacity == c
    {
      capacity := c;
    }

    method Ref(e: nat)
      requires Linked() && e in handles
      modifies this`handles, this`links, this`lru, this`inUse
      ensures Linked() && handles == old(handles)[e := old(handles)[e].(refs := old(handles)[e].refs + 1)]
      ensures var idle := e in old(lru); lru == Minus(old(lru), e) && inUse == old(inUse) + if idle then [e] else []
    {
      hide Lists, Deleters, Ring, NoRepeats, Charges, Without, ItemOf, SameKey, Count, PowerOfTwo, BucketOf, Position, Unlinked, Appended;
      var h := handles[e];
      Listed(handles, links, lru, inUse, usage, e);
      if h.refs == 1 && h.inCache {
        ToInUse(handles, links, lru, inUse, usage, Position(lru, e));
        links := Unlinked(links, e);
        links := Appended(links, IN_USE, e);
        lru, inUse := Minus(lru, e), inUse + [e];
      } else {
        RefsOnly(handles, links, lru, inUse, usage, e, h.refs + 1);
      }
      SameKeys(handles, deleted, issued, e, h.(refs := h.refs + 1));
      handles := handles[e := h.(refs := h.refs + 1)];
    }

    /** The deleter runs when, and only when, the last reference goes. */
    method Unref(e: nat)
      requires Linked() && e in handles && (handles[e].inCache ==> handles[e].refs >= 2)
      modifies this`handles, this`links, this`lru, this`inUse, this`deleted
      ensures Linked() && handles == Dereferenced(old(handles), e) && deleted == old(deleted) + Freed(old(handles), e)
      ensures var h := old(handles)[e]; lru == old(lru) + if h.inCache && h.refs == 2 then [e] else []
      ensures var h := old(handles)[e]; inUse == if h.inCache && h.refs == 2 then Minus(old(inUse), e) else old(inUse)
    {
      hide Lists, Deleters, Ring, NoRepeats, Charges, Without, ItemOf, SameKey, Count, PowerOfTwo, BucketOf, Position, Unlinked, Appended;
      var h := handles[e];
      Listed(handles, links, lru, inUse, usage, e);
      var refs := h.refs - 1;
      if refs == 0 {
        Outsider(handles, links, lru, inUse, usage, e, h);
        DeleteOne(handles, deleted, issued, e);
        deleted := deleted + [e];
        handles := handles - {e};
      } else {
        if h.inCache && refs == 1 {
          ToLru(handles, links, lru, inUse, usage, Position(inUse, e));
          links := Unlinked(links, e);
          links := Appended(links, LRU, e);
          lru, inUse := lru + [e], Minus(inUse, e);
        } else {
          RefsOnly(handles, links, lru, inUse, usage, e, refs);
        }
        SameKeys(handles, deleted, issued, e, h.(refs := refs));
        handles := handles[e := h.(refs := refs)];
      }
    }

    /** Finishes removing an entry that has left the table. */
    method FinishErase(e: Option<nat>) returns (erased: bool)
      requires Linked() && (e.Some? ==> e.value in handles && handles[e.value].inCache)
      modifies this`usage, this`handles, this`links, this`lru, this`inUse, this`deleted
      ensures Linked() && erased == e.Some?
      ensures e.None? ==> unchanged(this)
      ensures e.Some? ==> old(handles)[e.value].refs > 0 && handles == Uncached(old(handles), e.value)
      ensures e.Some? ==> lru == Minus(old(lru), e.value) && inUse == Minus(old(inUse), e.value)
      ensures e.Some? ==> usage + old(handles)[e.value].charge == old(usage)
      ensures e.Some? ==> deleted == old(deleted) + Freed(old(handles), e.value)
    {
      hide Lists, Deleters, Ring, NoRepeats, Charges, Without, ItemOf, SameKey, Count, PowerOfTwo, BucketOf, Position, Unlinked, Appended;
      if e.Some? {
        var x := e.value;
        var h := handles[x];
        Listed(handles, links, lru, inUse, usage, x);
        if h.refs == 1 {
          OffLru(handles, links, lru, inUse, usage, Position(lru, x));
        } else {
          OffInUse(handles, links, lru, inUse, usage, Position(inUse, x));
        }
        links := Unlinked(links, x);
        lru, inUse := Minus(lru, x), Minus(inUse, x);
        SameKeys(handles, deleted, issued, x, h.(inCache := false));
        handles := handles[x := h.(inCache := false)];
        usage := usage - h.charge;
        Unref(x);
      }
      erased := e.Some?;
    }

    method Lookup(key: Bytes, hash: nat) returns (r: Option<nat>)
      requires Ok()
      modifies this`handles, this`links, this`lru, this`inUse, this`held
      ensures Ok()
      ensures r.None? ==> unchanged(this) && forall e :: !Cached(handles, e, key, hash)
      ensures r.Some? ==> Cached(old(handles), r.value, key, hash) && held == old(held) + multiset{r.value}
      ensures r.Some? ==> handles == old(handles)[r.value := old(handles)[r.value].(refs := old(handles)[r.value].refs + 1)]
      ensures r.Some? ==> lru == Minus(old(lru), r.value)
    {
      hide Lists, Deleters, WellPlaced, Ring, NoRepeats, Charges, Without, Count, PowerOfTwo, BucketOf, Position, Unlinked, Appended;
      var it := table.Lookup(key, hash);
      r := None;
      if it.Some? {
        CachedMember(handles, it.value);
        r := Some(it.value.handle);
        Ref(r.value);
        held := held + multiset{r.value};
        CachedSame(old(handles), handles);
      } else {
        NotCached(handles, key, hash);
      }
    }

    /** A client lets go of one of its references. */
    method Release(e: nat)
      requires Ok() && e in held
      modifies this`handles, this`links, this`lru, this`inUse, this`deleted, this`held
      ensures Ok() && held == old(held) - multiset{e}
      ensures e in old(handles) && handles == Dereferenced(old(handles), e) && deleted == old(deleted) + Freed(old(handles), e)
      ensures var h := old(handles)[e]; lru == old(lru) + if h.inCache && h.refs == 2 then [e] else []
    {
      hide Lists, Deleters, WellPlaced, CachedItems, Counted, Ring, NoRepeats, Charges, Without, ItemOf, SameKey, Count, PowerOfTwo, BucketOf, Position, Unlinked, Appended;
      ReleaseCounted(handles, held, e);
      Unref(e);
      held := held - multiset{e};
      CachedSame(old(handles), handles);
    }

    /** The oldest idle entry goes: out of the table, off its list, and to its deleter. */
    method EvictOldest()
      requires Ok() && lru != []
      modifies this`usage, this`handles, this`links, this`lru, this`inUse, this`deleted, table
      ensures Ok() && lru == old(lru)[1..] && inUse == old(inUse) && deleted == old(deleted) + [old(lru)[0]]
      ensures old(lru)[0] in old(handles) && handles == old(handles) - {old(lru)[0]}
      ensures usage + old(handles)[old(lru)[0]].charge == old(usage)
    {
      hide Lists, Deleters, WellPlaced, CachedItems, Counted, NoRepeats, Ring, Charges, Without, Count, PowerOfTwo, BucketOf, Position, Unlinked, Appended;
      FirstOrHead(handles, links, lru, inUse, usage);
      var e := links.next[LRU];
      var removed := table.Remove(handles[e].key, handles[e].hash);
      InCachedItems(handles, e);
      assert ItemOf(handles, e) in old(table.Items());
      OneKey(old(table.list), handles, removed.value, e);
      MinusFirst(lru);
      CachedLess(handles, e);
      var erased := FinishErase(Some(removed.value.handle));
      UncachedCounted(old(handles), held, e);
    }

    /** Oldest idle entries go until the charge fits or none is left; no entry goes once it fits. */
    method EvictExcess() returns (ghost n: nat)
      requires Ok()
      modifies this`usage, this`handles, this`links, this`lru, this`inUse, this`deleted, table
      ensures Ok() && (usage <= capacity || lru == []) && inUse == old(inUse)
      ensures MadeRoom(old(handles), old(lru), old(usage), old(deleted), n, handles, lru, usage, deleted, capacity)
    {
      hide Lists, Deleters, WellPlaced, CachedItems, Counted, Evicts, Gone, Ring, NoRepeats, Charges, Without, ItemOf, SameKey, Count, PowerOfTwo, BucketOf, Position, Unlinked, Appended;
      n := 0;
      FirstOrHead(handles, links, lru, inUse, usage);
      NoneGone(handles, lru, usage, deleted, capacity);
      while usage > capacity && links.next[LRU] != LRU
        invariant Ok() && LRU in links.next && inUse == old(inUse)
        invariant (links.next[LRU] == LRU <==> lru == []) && forall x :: x in lru ==> x in handles
        invariant Evicts(old(handles), old(lru), n, old(usage), capacity)
        invariant Gone(old(handles), old(lru), old(usage), old(deleted), n, handles, lru, usage, deleted)
        decreases |lru|
      {
        ghost var h, l, u, d := handles, lru, usage, deleted;
        EvictOldest();
        OneMoreGone(old(handles), old(lru), old(usage), old(deleted), n, h, l, u, d, usage, capacity);
        n := n + 1;
        FirstOrHead(handles, links, lru, inUse, usage);
      }
    }

    /** Puts a new entry on the in-use list and in the table, and takes out the one it replaces. */
    method Admit(e: nat, h: Handle) returns (ghost displaced: Option<nat>)
      requires Lists(handles, links, lru, inUse, usage) && table.Ok() && table.Items() == CachedItems(handles)
      requires e !in handles && e >= 2 && h.inCache && h.refs == 2 && Deleters(handles[e := h], deleted, issued)
      modifies this`usage, this`handles, this`links, this`lru, this`inUse, this`deleted, table
      ensures Linked() && table.Ok() && table.Items() == CachedItems(handles)
      ensures displaced.None? ==> forall x :: !Cached(old(handles), x, h.key, h.hash)
      ensures displaced.Some? ==> Cached(old(handles), displaced.value, h.key, h.hash) && old(handles)[displaced.value].refs > 0
      ensures handles == Added(old(handles), e, h, displaced)
      ensures lru == Left(old(lru), displaced) && inUse == Left(old(inUse) + [e], displaced)
      ensures deleted == old(deleted) + Dropped(old(handles), displaced)
      ensures usage + Discount(old(handles), displaced) == old(usage) + h.charge
    {
      hide Lists, Deleters, WellPlaced, CachedItems, Uncached, Minus, Appended, AllItems, Ring, NoRepeats, Charges, Without, ItemOf, SameKey, Count, PowerOfTwo, BucketOf, Position, Unlinked;
      CachedMore(handles, e, h);
      OntoInUse(handles, links, lru, inUse, usage, e, h);
      handles := handles[e := h];
      links := Appended(links, IN_USE, e);
      inUse := inUse + [e];
      usage := usage + h.charge;
      var d := table.Insert(Item(e, h.key, h.hash));
      Displaced(old(handles), handles, e, h.key, h.hash, d);
      if d.Some? {
        Listed(old(handles), old(links), old(lru), old(inUse), old(usage), d.value.handle);
        CachedLess(handles, d.value.handle);
        displaced := Some(d.value.handle);
        var erased := FinishErase(Some(d.value.handle));
      } else {
        displaced := None;
        var erased := FinishErase(None);
      }
    }

    /** Adds the entry, held by the caller, and then makes room. */
    method Insert(key: Bytes, hash: nat, charge: nat) returns (e: nat, ghost displaced: Option<nat>, ghost n: nat)
      requires Ok()
      modifies this`usage, this`handles, this`links, this`lru, this`inUse, this`deleted, this`issued, this`held, table
      ensures Ok() && (usage <= capacity || lru == [])
      ensures e == old(issued) && e !in old(handles) && held == old(held) + multiset{e}
      ensures displaced.None? ==> capacity == 0 || forall x :: !Cached(old(handles), x, key, hash)
      ensures displaced.Some? ==> capacity > 0 && Cached(old(handles), displaced.value, key, hash) && old(handles)[displaced.value].refs > 0
      ensures inUse == Left(old(inUse) + (if capacity > 0 then [e] else []), displaced)
      ensures MadeRoom(Added(old(handles), e, Entry(key, hash, charge, capacity), displaced), Left(old(lru), displaced),
          old(usage) + (if capacity > 0 then charge else 0) - Discount(old(handles), displaced), old(deleted) + Dropped(old(handles), displaced),
          n, handles, lru, usage, deleted, capacity)
    {
      hide Lists, Deleters, WellPlaced, CachedItems, Counted, Uncached, Minus, Appended, AllItems, MadeRoom, Freed, Ring, NoRepeats, Charges, Without, ItemOf, SameKey, Count, PowerOfTwo, BucketOf, Position, Unlinked;
      e, displaced := issued, None;
      issued := issued + 1;
      var h := Entry(key, hash, charge, capacity);
      Fresh(handles, links, lru, inUse, usage, deleted, held, e, h);
      if capacity > 0 {
        displaced := Admit(e, h);
        AddedCounted(old(handles), held, e, h, displaced);
      } else {
        CachedMore(handles, e, h);
        Outsider(handles, links, lru, inUse, usage, e, h);
        handles := handles[e := h];
      }
      held := held + multiset{e};
      assert deleted == old(deleted) + Dropped(old(handles), displaced);
      n := EvictExcess();
    }

    /** The cache lets go of the key's entry; clients may still hold it. */
    method Erase(key: Bytes, hash: nat) returns (ghost x: Option<nat>)
      requires Ok()
      modifies this`usage, this`handles, this`links, this`lru, this`inUse, this`deleted, table
      ensures Ok() && forall e :: !Cached(handles, e, key, hash)
      ensures x.None? ==> unchanged(this) && forall e :: !Cached(old(handles), e, key, hash)
      ensures x.Some? ==> Cached(old(handles), x.value, key, hash) && old(handles)[x.value].refs > 0 && handles == Uncached(old(handles), x.value)
      ensures lru == Left(old(lru), x) && inUse == Left(old(inUse), x)
      ensures x.Some? ==> deleted == old(deleted) + Freed(old(handles), x.value) && usage + old(handles)[x.value].charge == old(usage)
    {
      hide Lists, Deleters, WellPlaced, CachedItems, Counted, AllItems, Ring, NoRepeats, Charges, Without, Count, PowerOfTwo, BucketOf, Position, Unlinked, Appended;
      var removed := table.Remove(key, hash);
      if removed.Some? {
        CachedMember(handles, removed.value);
        x := Some(removed.value.handle);
        Listed(handles, links, lru, inUse, usage, x.value);
        CachedLess(handles, x.value);
        UncachedCounted(handles, held, x.value);
        AloneWithKey(old(table.list), handles, removed.value);
        var erased := FinishErase(Some(removed.value.handle));
      } else {
        x := None;
        var erased := FinishErase(None);
      }
      NotCached(handles, key, hash);
    }

    /** Every idle entry goes. */
    method Prune()
      requires Ok()
      modifies this`usage, this`handles, this`links, this`lru, this`inUse, this`deleted, table
      ensures Ok() && lru == [] && inUse == old(inUse)
      ensures deleted == old(deleted) + old(lru) && handles == old(handles) - Elems(old(lru))
    {
      hide Lists, Deleters, WellPlaced, CachedItems, Counted, Ring, NoRepeats, Charges, Without, ItemOf, SameKey, Count, PowerOfTwo, BucketOf, Position, Unlinked, Appended;
      ghost var n := 0;
      FirstOrHead(handles, links, lru, inUse, usage);
      while links.next[LRU] != LRU
        invariant Ok() && LRU in links.next && inUse == old(inUse)
        invariant (links.next[LRU] == LRU <==> lru == []) && forall x :: x in lru ==> x in handles
        invariant n <= |old(lru)| && lru == old(lru)[n..] && deleted == old(deleted) + old(lru)[..n] && handles == old(handles) - Elems(old(lru)[..n])
        decreases |lru|
      {
        EvictOldest();
        assert old(lru)[..n + 1] == old(lru)[..n] + [old(lru)[n]];
        n := n + 1;
        FirstOrHead(handles, links, lru, inUse, usage);
      }
      assert old(lru)[..n] == old(lru);
    }

    /**
     * The destructor, allowed when no cached entry is in use. If clients have let go of everything,
     * every entry ever made has had its deleter called, once.
     */
    method Destroy()
      requires Ok() && inUse == []
      modifies this`handles, this`deleted
      ensures deleted == old(deleted) + old(lru) && handles == old(handles) - Elems(old(lru))
      ensures Idle() ==> handles == map[] && NoRepeats(deleted) && forall e :: 2 <= e < issued <==> e in deleted
    {
      hide Lists, Deleters, WellPlaced, CachedItems, Counted, Ring, NoRepeats, Charges, Without, ItemOf, SameKey, Count, PowerOfTwo, BucketOf, Position, Unlinked, Appended;
      OnLruRing(handles, links, lru, inUse, usage);
      assert Around(LRU, lru)[0] == LRU;
      var e := links.next[LRU];
      ghost var n := 0;
      while e != LRU
        invariant n <= |lru| && e == Around(LRU, lru)[n + 1]
        invariant deleted == old(deleted) + lru[..n] && handles == old(handles) - Elems(lru[..n])
        invariant Deleters(handles, deleted, issued)
        decreases |lru| - n
      {
        OneOff(old(handles), lru, n);
        var next := links.next[e];
        handles := handles[e := handles[e].(inCache := false)];
        handles := Dereferenced(handles, e);
        DeleteOne(old(handles) - Elems(lru[..n]), deleted, issued, e);
        deleted := deleted + [e];
        e := next;
        n := n + 1;
      }
      assert lru[..n] == lru;
      if Idle() { NoneRemain(old(handles), links, lru, inUse, usage, held, deleted, issued); }
    }
  }

  // The round of the LRU list, as a walk sees it.
  lemma OnLruRing(handles: map<nat, Handle>, k: Links, lru: seq<nat>, inUse: seq<nat>, usage: nat)
    requires Lists(handles, k, lru, inUse, usage)
    ensures NoRepeats(lru)
    ensures forall i :: 0 <= i <= |lru| ==> Around(LRU, lru)[i] in k.next && k.next[Around(LRU, lru)[i]] == Around(LRU, lru)[i + 1]
    ensures forall i :: 0 <= i < |lru| ==> lru[i] != LRU && lru[i] in handles && handles[lru[i]].refs == 1
  {
    forall i | 0 <= i <= |lru|
      ensures Around(LRU, lru)[i] in k.next && k.next[Around(LRU, lru)[i]] == Around(LRU, lru)[i + 1]
    {
      assert LinkAt(k, Around(LRU, lru), i);
    }
    forall i | 0 <= i < |lru| ensures lru[i] != LRU && lru[i] in handles && handles[lru[i]].refs == 1 {
      assert lru[i] in lru;
    }
  }

  lemma OneOff(handles: map<nat, Handle>, l: seq<nat>, n: nat)
    requires n < |l| && NoRepeats(l) && l[n] in handles && handles[l[n]].refs == 1
    ensures l[n] in handles - Elems(l[..n]) && l[..n + 1] == l[..n] + [l[n]]
    ensures handles - Elems(l[..n]) - {l[n]} == handles - Elems(l[..n + 1])
  {
    assert Elems(l[..n + 1]) == Elems(l[..n]) + {l[n]};
  }

  lemma NoneRemain(handles: map<nat, Handle>, k: Links, lru: seq<nat>, inUse: seq<nat>, usage: nat, held: multiset<nat>, deleted: seq<nat>, issued: nat)
    requires Lists(handles, k, lru, inUse, usage) && inUse == [] && Counted(handles, held) && held == multiset{}
    requires Deleters(handles - Elems(lru), deleted, issued)
    ensures handles - Elems(lru) == map[] && NoRepeats(deleted) && forall e :: 2 <= e < issued <==> e in deleted
  {
    forall e | e in handles ensures e in lru {
      assert handles[e].refs > 0 && held[e] == 0;
    }
  }

  // Taking the key's item out leaves none with the key.
  lemma AloneWithKey(list: seq<seq<Item>>, handles: map<nat, Handle>, it: Item)
    requires list != [] && WellPlaced(list) && AllItems(list) == CachedItems(handles) && it in CachedItems(handles)
    ensures forall other :: other in CachedItems(handles) - {it} ==> !SameKey(other, it.key, it.hash)
  {
    forall other | other in CachedItems(handles) - {it} ensures !SameKey(other, it.key, it.hash) {
      if SameKey(other, it.key, it.hash) { UniqueKey(list, other, it); }
    }
  }

  lemma AddedCounted(handles: map<nat, Handle>, held: multiset<nat>, e: nat, h: Handle, displaced: Option<nat>)
    requires e !in handles && Counted(handles[e := h], held + multiset{e})
    requires displaced.Some? ==> displaced.value in handles && handles[displaced.value].inCache && handles[displaced.value].refs > 0
    ensures Counted(Added(handles, e, h, displaced), held + multiset{e})
  {
    if displaced.Some? { UncachedCounted(handles[e := h], held + multiset{e}, displaced.value); }
  }

  // A new entry: the caller's reference and, when caching is on, the cache's.
  function Entry(key: Bytes, hash: nat, charge: nat, capacity: nat): Handle {
    if capacity > 0 then Handle(key, hash, charge, true, 2) else Handle(key, hash, charge, false, 1)
  }

  function Added(handles: map<nat, Handle>, e: nat, h: Handle, displaced: Option<nat>): map<nat, Handle>
    requires displaced.Some? ==> displaced.value in handles && displaced.value != e && handles[displaced.value].refs > 0
  {
    if displaced.Some? then Uncached(handles[e := h], displaced.value) else handles[e := h]
  }

  function Left(l: seq<nat>, displaced: Option<nat>): seq<nat> { if displaced.Some? then Minus(l, displaced.value) else l }

  function Dropped(handles: map<nat, Handle>, displaced: Option<nat>): seq<nat>
    requires displaced.Some? ==> displaced.value in handles
  {
    if displaced.Some? then Freed(handles, displaced.value) else []
  }

  function Discount(handles: map<nat, Handle>, displaced: Option<nat>): nat
    requires displaced.Some? ==> displaced.value in handles
  {
    if displaced.Some? then handles[displaced.value].charge else 0
  }

  lemma Fresh(handles: map<nat, Handle>, k: Links, lru: seq<nat>, inUse: seq<nat>, usage: nat, deleted: seq<nat>, held: multiset<nat>, e: nat, h: Handle)
    requires Lists(handles, k, lru, inUse, usage) && Deleters(handles, deleted, e) && Counted(handles, held)
    requires h.refs == if h.inCache then 2 else 1
    ensures e !in handles && e >= 2 && e !in lru && e !in inUse
    ensures Deleters(handles[e := h], deleted, e + 1) && Counted(handles[e := h], held + multiset{e})
    ensures forall x :: x in handles ==> handles[x].refs > 0
  {
  }

  lemma Displaced(h0: map<nat, Handle>, handles: map<nat, Handle>, e: nat, key: Bytes, hash: nat, d: Option<Item>)
    requires e !in h0 && e in handles && handles == h0[e := handles[e]]
    requires d.Some? ==> d.value in CachedItems(h0) && SameKey(d.value, key, hash)
    requires d.None? ==> forall it :: it in CachedItems(h0) ==> !SameKey(it, key, hash)
    ensures d.Some? ==> Cached(h0, d.value.handle, key, hash) && d.value == ItemOf(handles, d.value.handle)
    ensures d.None? ==> forall x :: !Cached(h0, x, key, hash)
  {
    if d.Some? { CachedMember(h0, d.value); } else { NotCached(h0, key, hash); }
  }

  function Elems(l: seq<nat>): set<nat> { set x | x in l }

  // The first n of l go, each while the charge is too high.
  ghost predicate Evicts(handles: map<nat, Handle>, l: seq<nat>, n: nat, usage: nat, capacity: nat) {
    && n <= |l| && (forall x :: x in l ==> x in handles)
    && forall j :: 0 <= j < n ==> usage > capacity + Charges(handles, l[..j])
  }

  // The state without the first n of l.
  ghost predicate Gone(h0: map<nat, Handle>, l: seq<nat>, u0: nat, d0: seq<nat>, n: nat, handles: map<nat, Handle>, lru: seq<nat>, usage: nat, deleted: seq<nat>) {
    && n <= |l| && (forall x :: x in l ==> x in h0)
    && lru == l[n..] && deleted == d0 + l[..n] && handles == h0 - Elems(l[..n])
    && usage + Charges(h0, l[..n]) == u0
  }

  ghost predicate MadeRoom(h0: map<nat, Handle>, l: seq<nat>, u0: int, d0: seq<nat>, n: nat, handles: map<nat, Handle>, lru: seq<nat>, usage: nat, deleted: seq<nat>, capacity: nat) {
    u0 >= 0 && Evicts(h0, l, n, u0, capacity) && Gone(h0, l, u0, d0, n, handles, lru, usage, deleted)
  }

  lemma NoneGone(handles: map<nat, Handle>, l: seq<nat>, usage: nat, deleted: seq<nat>, capacity: nat)
    requires forall x :: x in l ==> x in handles
    ensures Evicts(handles, l, 0, usage, capacity) && Gone(handles, l, usage, deleted, 0, handles, l, usage, deleted)
  {
  }

  lemma OneMoreGone(h0: map<nat, Handle>, l: seq<nat>, u0: nat, d0: seq<nat>, n: nat, handles: map<nat, Handle>, lru: seq<nat>, usage: nat, deleted: seq<nat>, after: nat, capacity: nat)
    requires Evicts(h0, l, n, u0, capacity) && Gone(h0, l, u0, d0, n, handles, lru, usage, deleted)
    requires usage > capacity && lru != [] && lru[0] in handles && after + handles[lru[0]].charge == usage
    ensures Evicts(h0, l, n + 1, u0, capacity)
    ensures Gone(h0, l, u0, d0, n + 1, handles - {lru[0]}, lru[1..], after, deleted + [lru[0]])
  {
    assert l[..n + 1] == l[..n] + [l[n]] && l[..n + 1][..n] == l[..n] && lru[0] == l[n] && lru[1..] == l[n + 1..];
    assert Elems(l[..n + 1]) == Elems(l[..n]) + {l[n]} && l[n] in l;
    assert handles - {lru[0]} == h0 - Elems(l[..n + 1]);
  }

  lemma FirstOrHead(handles: map<nat, Handle>, k: Links, lru: seq<nat>, inUse: seq<nat>, usage: nat)
    requires Lists(handles, k, lru, inUse, usage)
    ensures LRU in k.next && k.next[LRU] == if lru == [] then LRU else lru[0]
    ensures forall x :: x in lru ==> x in handles && x != LRU && handles[x].inCache && handles[x].refs == 1 && x !in inUse
    ensures NoRepeats(lru) && (lru != [] ==> lru[0] in lru)
  {
    Neighbours(k, LRU, lru, LRU);
  }

  lemma OneKey(list: seq<seq<Item>>, handles: map<nat, Handle>, it: Item, e: nat)
    requires list != [] && WellPlaced(list) && AllItems(list) == CachedItems(handles)
    requires it in CachedItems(handles) && e in handles && handles[e].inCache && SameKey(it, handles[e].key, handles[e].hash)
    ensures it == ItemOf(handles, e)
  {
    InCachedItems(handles, e);
    UniqueKey(list, it, ItemOf(handles, e));
  }

  lemma UncachedCounted(handles: map<nat, Handle>, held: multiset<nat>, e: nat)
    requires Counted(handles, held) && e in handles && handles[e].inCache && handles[e].refs > 0
    ensures Counted(Uncached(handles, e), held)
  {
  }

  // A client's reference is over and above the cache's.
  lemma ReleaseCounted(handles: map<nat, Handle>, held: multiset<nat>, e: nat)
    requires Counted(handles, held) && e in held
    ensures e in handles && handles[e].refs > 0 && (handles[e].inCache ==> handles[e].refs >= 2)
    ensures Counted(Dereferenced(handles, e), held - multiset{e})
  {
  }

  lemma MinusFirst(l: seq<nat>)
    requires l != []
    ensures Minus(l, l[0]) == l[1..]
  {
    assert Without(l, 0) == l[1..];
  }

  // An entry the cache answers with.
  ghost predicate Cached(handles: map<nat, Handle>, e: nat, key: Bytes, hash: nat) {
    e in handles && handles[e].inCache && handles[e].key == key && handles[e].hash == hash
  }

  lemma NotCached(handles: map<nat, Handle>, key: Bytes, hash: nat)
    requires forall it :: it in CachedItems(handles) ==> !SameKey(it, key, hash)
    ensures forall e :: !Cached(handles, e, key, hash)
  {
    forall e ensures !Cached(handles, e, key, hash) {
      if Cached(handles, e, key, hash) { InCachedItems(handles, e); }
    }
  }

  lemma SameKeys(handles: map<nat, Handle>, deleted: seq<nat>, issued: nat, e: nat, h: Handle)
    requires Deleters(handles, deleted, issued) && e in handles
    ensures Deleters(handles[e := h], deleted, issued)
  {
  }
}
