/** The merging iterator: one cursor over the sorted union of several sorted runs. */
module Mergers {
  import opened Entries
  import opened Cursors

  // ----- The sorted union of sorted runs -----

  // An entry and the run it comes from.
  datatype Item = Item(entry: Entry, run: nat)

  // Equal keys come in the order of their runs.
  predicate Precedes(a: Item, b: Item) {
    Before(a.entry.key, b.entry.key) || (a.entry.key == b.entry.key && a.run < b.run)
  }

  predicate InOrder(m: seq<Item>) { forall i, j :: 0 <= i < j < |m| ==> Precedes(m[i], m[j]) }

  lemma ItemsOrdered(m: seq<Item>, i: nat, j: nat)
    requires InOrder(m) && i < |m| && j < |m|
    ensures i < j <==> Precedes(m[i], m[j])
    ensures j < i <==> Precedes(m[j], m[i])
  {
  }

  function Tagged(run: seq<Entry>, r: nat): seq<Item> { seq(|run|, j requires 0 <= j < |run| => Item(run[j], r)) }

  ghost function Merge(a: seq<Item>, b: seq<Item>): seq<Item> {
    if a == [] then b
    else if b == [] then a
    else if Precedes(a[0], b[0]) then [a[0]] + Merge(a[1..], b)
    else [b[0]] + Merge(a, b[1..])
  }

  ghost function MergeFrom(runs: seq<seq<Entry>>, r: nat): seq<Item>
    requires r <= |runs|
    decreases |runs| - r
  {
    if r == |runs| then [] else Merge(Tagged(runs[r], r), MergeFrom(runs, r + 1))
  }

  ghost function Items(runs: seq<seq<Entry>>): seq<Item> { MergeFrom(runs, 0) }

  /** The entries of all runs, sorted by key and, among equal keys, by run. */
  ghost function MergeAll(runs: seq<seq<Entry>>): seq<Entry> {
    seq(|Items(runs)|, i requires 0 <= i < |Items(runs)| => Items(runs)[i].entry)
  }

  predicate AllSorted(runs: seq<seq<Entry>>) { forall r :: 0 <= r < |runs| ==> Sorted(runs[r]) }

  predicate NeverBack(m: seq<Entry>) { forall i, j :: 0 <= i < j < |m| ==> !Before(m[j].key, m[i].key) }

  // No internal key occurs in two runs.
  ghost predicate NoneShared(runs: seq<seq<Entry>>) {
    forall r, t, i, j :: 0 <= r < t < |runs| && 0 <= i < |runs[r]| && 0 <= j < |runs[t]| ==> runs[r][i].key != runs[t][j].key
  }

  lemma TaggedInOrder(run: seq<Entry>, r: nat)
    requires Sorted(run)
    ensures InOrder(Tagged(run, r)) && forall x :: x in Tagged(run, r) <==> x.run == r && x.entry in run
  {
    forall x ensures x in Tagged(run, r) <==> x.run == r && x.entry in run {
      if x.run == r && x.entry in run {
        var j :| 0 <= j < |run| && run[j] == x.entry;
        assert Tagged(run, r)[j] == x;
      }
    }
  }

  lemma {:induction false} MergeOrders(a: seq<Item>, b: seq<Item>)
    requires InOrder(a) && InOrder(b) && forall x, y :: x in a && y in b ==> x.run < y.run
    ensures InOrder(Merge(a, b)) && forall x :: x in Merge(a, b) <==> x in a || x in b
  {
    if a != [] && b != [] {
      if Precedes(a[0], b[0]) {
        MergeOrders(a[1..], b);
        HeadIsFirst(a, b, Merge(a[1..], b));
      } else {
        assert Precedes(b[0], a[0]) by { assert a[0] in a && b[0] in b; }
        MergeOrders(a, b[1..]);
        HeadIsFirst(b, a, Merge(a, b[1..]));
      }
    }
  }

  lemma HeadIsFirst(a: seq<Item>, b: seq<Item>, m: seq<Item>)
    requires a != [] && b != [] && InOrder(a) && InOrder(b) && Precedes(a[0], b[0])
    requires InOrder(m) && forall x :: x in m <==> x in a[1..] || x in b
    ensures InOrder([a[0]] + m) && forall x :: x in [a[0]] + m <==> x in a || x in b
  {
    assert a == [a[0]] + a[1..];
    forall i | 0 <= i < |m| ensures Precedes(a[0], m[i]) {
      assert m[i] in m;
      if m[i] in a[1..] {
        var j :| 0 <= j < |a[1..]| && a[1..][j] == m[i];
        ItemsOrdered(a, 0, j + 1);
      } else {
        var j :| 0 <= j < |b| && b[j] == m[i];
        if j > 0 { ItemsOrdered(b, 0, j); }
      }
    }
  }

  lemma {:induction false} MergeFromOrders(runs: seq<seq<Entry>>, r: nat)
    requires AllSorted(runs) && r <= |runs|
    ensures InOrder(MergeFrom(runs, r))
    ensures forall x :: x in MergeFrom(runs, r) <==> r <= x.run < |runs| && x.entry in runs[x.run]
    decreases |runs| - r
  {
    if r < |runs| {
      TaggedInOrder(runs[r], r);
      MergeFromOrders(runs, r + 1);
      MergeOrders(Tagged(runs[r], r), MergeFrom(runs, r + 1));
    }
  }

  /** The merge of sorted runs never steps back; it is sorted exactly when no two runs share a key. */
  lemma MergeAllSorts(runs: seq<seq<Entry>>)
    requires AllSorted(runs)
    ensures NeverBack(MergeAll(runs))
    ensures forall e :: e in MergeAll(runs) <==> exists r :: 0 <= r < |runs| && e in runs[r]
    ensures Sorted(MergeAll(runs)) <==> NoneShared(runs)
  {
    MergeFromOrders(runs, 0);
    var m, items := MergeAll(runs), Items(runs);
    forall i, j | 0 <= i < j < |m| ensures !Before(m[j].key, m[i].key) {
      ItemsOrdered(items, i, j);
    }
    forall e ensures e in m <==> exists r :: 0 <= r < |runs| && e in runs[r] {
      if e in m {
        var i :| 0 <= i < |m| && m[i] == e;
        assert items[i] in items;
      }
      if r :| 0 <= r < |runs| && e in runs[r] {
        assert Item(e, r) in items;
        var i :| 0 <= i < |items| && items[i] == Item(e, r);
        assert m[i] == e;
      }
    }
    if Sorted(m) { SortedSharesNone(runs); }
    if NoneShared(runs) { NoneSharedSorts(runs); }
  }

  lemma SortedSharesNone(runs: seq<seq<Entry>>)
    requires AllSorted(runs) && Sorted(MergeAll(runs))
    ensures NoneShared(runs)
  {
    forall r, t, i, j | 0 <= r < t < |runs| && 0 <= i < |runs[r]| && 0 <= j < |runs[t]| ensures runs[r][i].key != runs[t][j].key {
      var a := IndexInMerged(runs, r, i);
      var b := IndexInMerged(runs, t, j);
      hide MergeAll, Items;
      if a < b { Ordered(MergeAll(runs), a, b); } else { Ordered(MergeAll(runs), b, a); }
    }
  }

  lemma KeysDiffer(runs: seq<seq<Entry>>, r: nat, i: nat, t: nat, j: nat)
    requires NoneShared(runs) && r < t < |runs| && i < |runs[r]| && j < |runs[t]|
    ensures runs[r][i].key != runs[t][j].key
  {
  }

  lemma NoneSharedSorts(runs: seq<seq<Entry>>)
    requires AllSorted(runs) && NoneShared(runs)
    ensures Sorted(MergeAll(runs))
  {
    MergeFromOrders(runs, 0);
    var items := Items(runs);
    forall i, j | 0 <= i < j < |items| ensures Before(items[i].entry.key, items[j].entry.key) {
      var a, b := items[i], items[j];
      ItemsOrdered(items, i, j);
      assert a in items && b in items;
      var k :| 0 <= k < |runs[a.run]| && runs[a.run][k] == a.entry;
      var l :| 0 <= l < |runs[b.run]| && runs[b.run][l] == b.entry;
      if a.run < b.run { KeysDiffer(runs, a.run, k, b.run, l); }
    }
  }

  // x comes before position n of the merged sequence.
  predicate Below(m: seq<Item>, n: nat, x: Item)
    requires n <= |m|
  {
    n == |m| || Precedes(x, m[n])
  }

  // Exactly the first c entries of run r come before position n of the merged sequence.
  predicate Row(run: seq<Entry>, r: nat, m: seq<Item>, n: nat, c: nat) {
    n <= |m| && c <= |run| && forall j :: 0 <= j < |run| ==> (j < c <==> Below(m, n, Item(run[j], r)))
  }

  ghost predicate Poised(runs: seq<seq<Entry>>, n: nat, ns: seq<nat>) {
    && |ns| == |runs| && n <= |Items(runs)|
    && forall r :: 0 <= r < |runs| ==> Row(runs[r], r, Items(runs), n, ns[r])
  }

  // Where an entry of a run sits in the merged sequence.
  lemma IndexInMerged(runs: seq<seq<Entry>>, r: nat, j: nat) returns (i: nat)
    requires AllSorted(runs) && r < |runs| && j < |runs[r]|
    ensures i < |Items(runs)| && Items(runs)[i] == Item(runs[r][j], r) && InOrder(Items(runs))
  {
    MergeFromOrders(runs, 0);
    assert runs[r][j] in runs[r];
    assert Item(runs[r][j], r) in Items(runs);
    i :| 0 <= i < |Items(runs)| && Items(runs)[i] == Item(runs[r][j], r);
  }

  lemma RunOfMerged(runs: seq<seq<Entry>>, n: nat) returns (r: nat, j: nat)
    requires AllSorted(runs) && n < |Items(runs)|
    ensures r < |runs| && j < |runs[r]| && Item(runs[r][j], r) == Items(runs)[n]
  {
    MergeFromOrders(runs, 0);
    assert Items(runs)[n] in Items(runs);
    r := Items(runs)[n].run;
    j :| 0 <= j < |runs[r]| && runs[r][j] == Items(runs)[n].entry;
  }

  function Head(runs: seq<seq<Entry>>, ns: seq<nat>, r: nat): Item
    requires r < |runs| && |ns| == |runs| && ns[r] < |runs[r]|
  {
    Item(runs[r][ns[r]], r)
  }

  function Last(runs: seq<seq<Entry>>, ns: seq<nat>, r: nat): Item
    requires r < |runs| && |ns| == |runs| && 0 < ns[r] <= |runs[r]|
  {
    Item(runs[r][ns[r] - 1], r)
  }

  // Poised at n, the run whose next entry is first has entry n of the merged sequence next.
  lemma SmallestIsNext(runs: seq<seq<Entry>>, n: nat, ns: seq<nat>, c: int)
    requires AllSorted(runs) && Poised(runs, n, ns) && -1 <= c < |runs|
    requires c == -1 ==> forall r :: 0 <= r < |runs| ==> ns[r] == |runs[r]|
    requires c >= 0 ==> ns[c] < |runs[c]| && forall r :: 0 <= r < |runs| && ns[r] < |runs[r]| ==>
      !Precedes(Head(runs, ns, r), Head(runs, ns, c))
    ensures c == -1 <==> n == |Items(runs)|
    ensures c >= 0 ==> Head(runs, ns, c) == Items(runs)[n]
  {
    var m := Items(runs);
    if n < |m| {
      var r, j := RunOfMerged(runs, n);
      hide Items;
      assert Row(runs[r], r, m, n, ns[r]);
      assert !Below(m, n, Item(runs[r][j], r)) && ns[r] <= j;
      Ordered(runs[r], ns[r], j);
      var i := IndexInMerged(runs, c, ns[c]);
      ItemsOrdered(m, i, n);
      assert Row(runs[c], c, m, n, ns[c]);
    } else if c >= 0 {
      assert false;
    }
  }

  lemma BelowIndex(runs: seq<seq<Entry>>, n: nat, r: nat, j: nat) returns (i: nat)
    requires AllSorted(runs) && r < |runs| && j < |runs[r]| && n <= |Items(runs)|
    ensures i < |Items(runs)| && Items(runs)[i] == Item(runs[r][j], r) && InOrder(Items(runs))
    ensures i < n <==> Below(Items(runs), n, Item(runs[r][j], r))
  {
    i := IndexInMerged(runs, r, j);
    if n < |Items(runs)| { ItemsOrdered(Items(runs), i, n); }
  }

  lemma LargestIsPrevious(runs: seq<seq<Entry>>, n: nat, ns: seq<nat>, c: nat)
    requires AllSorted(runs) && Poised(runs, n, ns) && c < |runs| && ns[c] > 0
    requires forall r :: 0 <= r < |runs| && 0 < ns[r] <= |runs[r]| ==> !Precedes(Last(runs, ns, c), Last(runs, ns, r))
    ensures n > 0 && Last(runs, ns, c) == Items(runs)[n - 1]
  {
    hide AllSorted, Items, Precedes, Below;
    assert Row(runs[c], c, Items(runs), n, ns[c]);
    var i := BelowIndex(runs, n, c, ns[c] - 1);
    var r, j := RunOfMerged(runs, n - 1);
    OwnerIsLast(runs, n, ns, r, j);
    ItemsOrdered(Items(runs), i, n - 1);
  }

  lemma NothingBefore(runs: seq<seq<Entry>>, n: nat, ns: seq<nat>)
    requires AllSorted(runs) && Poised(runs, n, ns)
    requires forall r :: 0 <= r < |runs| ==> ns[r] == 0
    ensures n == 0
  {
    if n > 0 {
      var r, j := RunOfMerged(runs, n - 1);
      OwnerIsLast(runs, n, ns, r, j);
    }
  }

  lemma LargestOrNone(runs: seq<seq<Entry>>, n: nat, ns: seq<nat>, c: int) returns (at: nat)
    requires AllSorted(runs) && Poised(runs, n, ns) && -1 <= c < |runs|
    requires c == -1 ==> forall r :: 0 <= r < |runs| ==> ns[r] == 0
    requires c >= 0 ==> ns[c] > 0 && forall r :: 0 <= r < |runs| && 0 < ns[r] <= |runs[r]| ==>
      !Precedes(Last(runs, ns, c), Last(runs, ns, r))
    ensures c == -1 ==> n == 0
    ensures c >= 0 ==> n > 0 && at == n - 1 && Last(runs, ns, c) == Items(runs)[at]
  {
    at := 0;
    if c == -1 {
      NothingBefore(runs, n, ns);
    } else {
      LargestIsPrevious(runs, n, ns, c);
      at := n - 1;
    }
  }

  // The run that owns entry n - 1 has it last among the entries before position n.
  lemma OwnerIsLast(runs: seq<seq<Entry>>, n: nat, ns: seq<nat>, r: nat, j: nat)
    requires AllSorted(runs) && Poised(runs, n, ns) && n > 0
    requires r < |runs| && j < |runs[r]| && Item(runs[r][j], r) == Items(runs)[n - 1]
    ensures j + 1 == ns[r] <= |runs[r]|
  {
    hide Items;
    assert Row(runs[r], r, Items(runs), n, ns[r]);
    var i := BelowIndex(runs, n, r, j);
    ItemsOrdered(Items(runs), i, n - 1);
    if j < ns[r] - 1 {
      var last := BelowIndex(runs, n, r, ns[r] - 1);
      Ordered(runs[r], j, ns[r] - 1);
      ItemsOrdered(Items(runs), last, n - 1);
    }
  }

  // Moving the run that owns entry n past it moves the merged position from n to n + 1.
  lemma Advance(runs: seq<seq<Entry>>, n: nat, ns: seq<nat>, c: nat)
    requires AllSorted(runs) && c < |runs| && |ns| == |runs| && n < |Items(runs)|
    requires ns[c] < |runs[c]| && Head(runs, ns, c) == Items(runs)[n]
    ensures Poised(runs, n, ns) <==> Poised(runs, n + 1, ns[c := ns[c] + 1])
  {
    hide Items, AllSorted, Precedes;
    var m, ns' := Items(runs), ns[c := ns[c] + 1];
    forall r, j | 0 <= r < |runs| && 0 <= j < |runs[r]|
      ensures Below(m, n + 1, Item(runs[r][j], r)) <==> Below(m, n, Item(runs[r][j], r)) || (r == c && j == ns[c])
    {
      AdvanceOne(runs, n, ns, c, r, j);
    }
    assert Below(m, n + 1, Head(runs, ns, c)) && !Below(m, n, Head(runs, ns, c)) by { AdvanceOne(runs, n, ns, c, c, ns[c]); }
    hide Below;
    if Poised(runs, n, ns) {
      forall r | 0 <= r < |runs| ensures Row(runs[r], r, m, n + 1, ns'[r]) {
        assert Row(runs[r], r, m, n, ns[r]);
      }
    }
    if Poised(runs, n + 1, ns') {
      forall r | 0 <= r < |runs| ensures Row(runs[r], r, m, n, ns[r]) {
        assert Row(runs[r], r, m, n + 1, ns'[r]);
      }
    }
  }

  lemma AdvanceOne(runs: seq<seq<Entry>>, n: nat, ns: seq<nat>, c: nat, r: nat, j: nat)
    requires AllSorted(runs) && c < |runs| && |ns| == |runs| && n < |Items(runs)| && r < |runs| && j < |runs[r]|
    requires ns[c] < |runs[c]| && Head(runs, ns, c) == Items(runs)[n]
    ensures var m, x := Items(runs), Item(runs[r][j], r);
      && (Below(m, n + 1, x) <==> Below(m, n, x) || (r == c && j == ns[c]))
      && (r == c && j == ns[c] ==> !Below(m, n, x))
  {
    hide Items, Precedes;
    var m := Items(runs);
    var i := IndexInMerged(runs, r, j);
    ItemsOrdered(m, i, n);
    if n + 1 < |m| { ItemsOrdered(m, i, n + 1); }
    if r == c { Ordered(runs[c], j, ns[c]); }
  }

  // The first n entries of the run are those before the target ...
  predicate SplitBy(run: seq<Entry>, n: nat, target: IKey) {
    n <= |run| && forall j :: 0 <= j < |run| ==> (j < n <==> Before(run[j].key, target))
  }

  // ... or those not after it.
  predicate SplitPast(run: seq<Entry>, n: nat, target: IKey) {
    n <= |run| && forall j :: 0 <= j < |run| ==> (j < n <==> !Before(target, run[j].key))
  }

  lemma SplitFromSeek(run: seq<Entry>, n: nat, target: IKey)
    requires Sorted(run) && n <= |run|
    requires forall j :: 0 <= j < n ==> Before(run[j].key, target)
    requires n < |run| ==> AtOrAfter(run[n].key, target)
    ensures SplitBy(run, n, target)
    ensures SplitPast(run, if n < |run| && run[n].key == target then n + 1 else n, target)
  {
    forall j | n < j < |run| ensures !Before(run[j].key, target) && Before(target, run[j].key) {
      Ordered(run, n, j);
    }
  }

  // On one of its own entries a run is split, before the entry and after it.
  lemma SplitOnOwn(run: seq<Entry>, n: nat)
    requires Sorted(run) && n < |run|
    ensures SplitBy(run, n, run[n].key) && SplitPast(run, n + 1, run[n].key)
  {
    forall j | 0 <= j < |run| ensures (j < n <==> Before(run[j].key, run[n].key)) && (j < n + 1 <==> !Before(run[n].key, run[j].key)) {
      Ordered(run, j, n);
    }
  }

  lemma PoisedAtStart(runs: seq<seq<Entry>>, ns: seq<nat>)
    requires AllSorted(runs) && |ns| == |runs| && forall r :: 0 <= r < |runs| ==> ns[r] == 0
    ensures Poised(runs, 0, ns)
  {
    hide Items;
    forall r, j | 0 <= r < |runs| && 0 <= j < |runs[r]| ensures !Below(Items(runs), 0, Item(runs[r][j], r)) {
      var i := IndexInMerged(runs, r, j);
      ItemsOrdered(Items(runs), 0, i);
    }
  }

  lemma PoisedAtEnd(runs: seq<seq<Entry>>, ns: seq<nat>)
    requires AllSorted(runs) && |ns| == |runs| && forall r :: 0 <= r < |runs| ==> ns[r] == |runs[r]|
    ensures Poised(runs, |Items(runs)|, ns)
  {
  }

  // Every child split by the same target: so is the merged sequence.
  lemma PoisedAtTarget(runs: seq<seq<Entry>>, ns: seq<nat>, target: IKey) returns (n: nat)
    requires AllSorted(runs) && |ns| == |runs|
    requires forall r :: 0 <= r < |runs| ==> SplitBy(runs[r], ns[r], target)
    ensures Poised(runs, n, ns) && SplitBy(MergeAll(runs), n, target)
  {
    var m := Items(runs);
    MergeFromOrders(runs, 0);
    n := 0;
    while n < |m| && Before(m[n].entry.key, target)
      invariant n <= |m| && forall i :: 0 <= i < n ==> Before(m[i].entry.key, target)
    {
      n := n + 1;
    }
    forall i | n <= i < |m| ensures !Before(m[i].entry.key, target) { ItemsOrdered(m, n, i); }
    assert SplitBy(MergeAll(runs), n, target);
    hide Items, MergeAll;
    forall r, j | 0 <= r < |runs| && 0 <= j < |runs[r]| ensures Below(m, n, Item(runs[r][j], r)) <==> Before(runs[r][j].key, target) {
      var i := BelowIndex(runs, n, r, j);
    }
    RowsAre(runs, n, ns);
  }

  // Every child split past the same target: so is the merged sequence.
  lemma PoisedPastTarget(runs: seq<seq<Entry>>, ns: seq<nat>, target: IKey) returns (n: nat)
    requires AllSorted(runs) && |ns| == |runs|
    requires forall r :: 0 <= r < |runs| ==> SplitPast(runs[r], ns[r], target)
    ensures Poised(runs, n, ns) && SplitPast(MergeAll(runs), n, target)
  {
    var m := Items(runs);
    MergeFromOrders(runs, 0);
    n := 0;
    while n < |m| && !Before(target, m[n].entry.key)
      invariant n <= |m| && forall i :: 0 <= i < n ==> !Before(target, m[i].entry.key)
    {
      n := n + 1;
    }
    forall i | n <= i < |m| ensures Before(target, m[i].entry.key) { ItemsOrdered(m, n, i); }
    assert SplitPast(MergeAll(runs), n, target);
    hide Items, MergeAll;
    forall r, j | 0 <= r < |runs| && 0 <= j < |runs[r]| ensures Below(m, n, Item(runs[r][j], r)) <==> !Before(target, runs[r][j].key) {
      var i := BelowIndex(runs, n, r, j);
    }
    RowsAre(runs, n, ns);
  }

  lemma RowsAre(runs: seq<seq<Entry>>, n: nat, ns: seq<nat>)
    requires |ns| == |runs| && n <= |Items(runs)| && forall r :: 0 <= r < |runs| ==> ns[r] <= |runs[r]|
    requires forall r, j :: 0 <= r < |runs| && 0 <= j < |runs[r]| ==> (j < ns[r] <==> Below(Items(runs), n, Item(runs[r][j], r)))
    ensures Poised(runs, n, ns)
  {
  }

  // ----- Turning round among equal keys -----

  /** The first position whose key is that of entry i. */
  function FirstOfKey(es: seq<Entry>, i: nat): (n: nat)
    requires i < |es|
    ensures n <= i
  {
    if i > 0 && es[i - 1].key == es[i].key then FirstOfKey(es, i - 1) else i
  }

  /** The first position after entry i whose key is another. */
  function PastKey(es: seq<Entry>, i: nat): (n: nat)
    requires i < |es|
    ensures i < n <= |es|
    decreases |es| - i
  {
    if i + 1 < |es| && es[i + 1].key == es[i].key then PastKey(es, i + 1) else i + 1
  }

  lemma {:induction false} SplitIsFirstOfKey(es: seq<Entry>, n: nat, i: nat)
    requires i < |es| && SplitBy(es, n, es[i].key)
    requires NeverBack(es)
    ensures n == FirstOfKey(es, i)
  {
    if i > 0 && es[i - 1].key == es[i].key { SplitIsFirstOfKey(es, n, i - 1); }
  }

  lemma {:induction false} SplitIsPastKey(es: seq<Entry>, n: nat, i: nat)
    requires i < |es| && SplitPast(es, n, es[i].key)
    requires NeverBack(es)
    ensures n == PastKey(es, i)
    decreases |es| - i
  {
    if i + 1 < |es| && es[i + 1].key == es[i].key { SplitIsPastKey(es, n, i + 1); }
  }

  /** Turning round at entry i moves to a neighbour exactly when no copy of its key lies that way;
      so it always does when no two runs share a key. */
  lemma TurningSkipsCopiesIff(runs: seq<seq<Entry>>, i: nat)
    requires AllSorted(runs) && i < |MergeAll(runs)|
    ensures var m := MergeAll(runs);
      && (PastKey(m, i) == i + 1 <==> !exists j :: j > i && Copy(m, i, j))
      && (FirstOfKey(m, i) == i <==> !exists j :: j < i && Copy(m, i, j))
    ensures NoneShared(runs) ==> PastKey(MergeAll(runs), i) == i + 1 && FirstOfKey(MergeAll(runs), i) == i
  {
    MergeAllSorts(runs);
    hide MergeAll, PastKey, FirstOfKey;
    CopiesAreNeighbours(MergeAll(runs), i);
    if NoneShared(runs) {
      forall j | j != i ensures !Copy(MergeAll(runs), i, j) { SortedHasNoCopies(MergeAll(runs), i, j); }
    }
  }

  // Another entry has the key of entry i.
  predicate Copy(m: seq<Entry>, i: int, j: int) { 0 <= i < |m| && 0 <= j < |m| && i != j && m[i].key == m[j].key }

  lemma SortedHasNoCopies(m: seq<Entry>, i: nat, j: int)
    requires Sorted(m) && i < |m|
    ensures !Copy(m, i, j)
  {
    if 0 <= j < |m| { Ordered(m, i, j); }
  }

  lemma CopiesAreNeighbours(m: seq<Entry>, i: nat)
    requires i < |m| && NeverBack(m)
    ensures PastKey(m, i) == i + 1 <==> !exists j :: j > i && Copy(m, i, j)
    ensures FirstOfKey(m, i) == i <==> !exists j :: j < i && Copy(m, i, j)
  {
    AdjacentCopies(m, i);
    hide Before, NeverBack, PastKey, FirstOfKey, Copy;
    if j :| j > i && Copy(m, i, j) { SameBetween(m, i, i + 1, j); }
    if j :| j < i && Copy(m, i, j) { SameBetween(m, j, i - 1, i); }
  }

  lemma AdjacentCopies(m: seq<Entry>, i: nat)
    requires i < |m|
    ensures PastKey(m, i) == i + 1 <==> !Copy(m, i, i + 1)
    ensures FirstOfKey(m, i) == i <==> !Copy(m, i, i - 1)
  {
  }

  lemma SameBetween(m: seq<Entry>, i: nat, k: nat, j: nat)
    requires i <= k <= j && (Copy(m, i, j) || Copy(m, j, i)) && NeverBack(m)
    ensures (k == i || Copy(m, i, k)) && (k == j || Copy(m, j, k))
  {
  }

  // ----- The iterator -----

  function RestOf(c: Cursor): nat reads c { if c.Valid() then c.pos + 1 else 0 }

  // Position a child at its last entry before the target.
  method SeekBefore(child: Cursor, target: IKey)
    requires child.Ok()
    modifies child
    ensures child.Ok() && SplitBy(child.entries, RestOf(child), target)
  {
    child.Seek(target);
    SplitFromSeek(child.entries, child.pos, target);
    if child.Valid() {
      // The child is at its first entry >= target: step back one to be before it.
      child.Prev();
    } else {
      child.SeekToLast();
    }
  }

  // Position a child at its first entry after the target.
  method SeekPast(child: Cursor, target: IKey)
    requires child.Ok()
    modifies child
    ensures child.Ok() && SplitPast(child.entries, child.pos, target)
  {
    child.Seek(target);
    SplitFromSeek(child.entries, child.pos, target);
    if child.Valid() && child.Key() == target {
      child.Next();
    }
  }

  class MergingIterator {
    const children: seq<Cursor>
    var current: int                // index into children, -1 for none
    var direction: Direction
    ghost var at: nat               // position on the merged sequence while valid
    ghost var ns: seq<nat>          // entries of each child before the merged position, or up to it in Reverse

    ghost const runs: seq<seq<Entry>>

    constructor (cs: seq<Cursor>)
      ensures children == cs && current == -1
      ensures |runs| == |cs| && forall i :: 0 <= i < |cs| ==> runs[i] == cs[i].entries
    {
      children, current, direction, at, ns := cs, -1, Forward, 0, [];
      runs := seq(|cs|, i requires 0 <= i < |cs| => cs[i].entries);
    }

    // The children are distinct cursors over sorted runs.
    ghost predicate Wired() {
      && (forall i, j :: 0 <= i < j < |children| ==> children[i] != children[j])
      && |runs| == |children| && (forall i :: 0 <= i < |children| ==> runs[i] == children[i].entries)
      && AllSorted(runs)
    }

    ghost predicate Ok()
      reads children
    {
      Wired() && forall i :: 0 <= i < |children| ==> children[i].pos <= |children[i].entries|
    }

    ghost function Contents(): seq<Entry> { MergeAll(runs) }

    predicate Valid() reads this { current != -1 }

    ghost function At(): nat reads this { if current != -1 then at else |Contents()| }

    // How many entries of each child lie before its position ...
    ghost predicate Starts(ns: seq<nat>)
      reads children
    {
      |ns| == |children| && forall i :: 0 <= i < |children| ==> ns[i] == children[i].pos
    }

    // ... or up to and including it.
    ghost predicate Rests(ns: seq<nat>)
      reads children
    {
      |ns| == |children| && forall i :: 0 <= i < |children| ==> ns[i] == RestOf(children[i])
    }

    // The current child stands on entry `at` of the merged sequence.
    ghost predicate Standing()
      reads this, children
    {
      && Ok() && -1 <= current < |children|
      && (current != -1 ==>
            && children[current].Valid() && at < |Items(runs)|
            && Item(children[current].entries[children[current].pos], current) == Items(runs)[at])
    }

    ghost predicate Inv()
      reads this, children
    {
      && Standing()
      && (current != -1 && direction == Forward ==> Starts(ns) && Poised(runs, at, ns))
      && (current != -1 && direction == Reverse ==> Rests(ns) && Poised(runs, at + 1, ns))
    }

    function Key(): IKey
      requires 0 <= current < |children| && children[current].Valid()
      reads this, children
    {
      children[current].Key()
    }

    function Val(): Value
      requires 0 <= current < |children| && children[current].Valid()
      reads this, children
    {
      children[current].Val()
    }

    lemma Observed()
      requires Inv()
      ensures Valid() <==> At() < |Contents()|
      ensures Valid() ==> Key() == Contents()[At()].key && Val() == Contents()[At()].value
    {
    }

    /** The children poised at n: the first child among those with the least key stands on entry n. */
    method FindSmallest(ghost n: nat)
      requires Ok() && Starts(ns) && Poised(runs, n, ns)
      modifies this`current, this`at
      ensures Standing() && Starts(ns) && Poised(runs, n, ns)
      ensures At() == n && Valid() == (n < |Contents()|)
    {
      assert n <= |Contents()| == |Items(runs)|;
      hide AllSorted, MergeAll, Items, Poised;
      var smallest := -1;
      for i := 0 to |children|
        invariant -1 <= smallest < i
        invariant smallest == -1 ==> forall r :: 0 <= r < i ==> !children[r].Valid()
        invariant smallest >= 0 ==> children[smallest].Valid()
        invariant smallest >= 0 ==> forall r :: 0 <= r < i && children[r].Valid() ==>
          !Precedes(Head(runs, ns, r), Head(runs, ns, smallest))
      {
        if children[i].Valid() {
          if smallest == -1 {
            smallest := i;
          } else if Before(children[i].Key(), children[smallest].Key()) {
            smallest := i;
          }
        }
      }
      current := smallest;
      at := n;
      SmallestIsNext(runs, n, ns, current);
    }

    method FindLargest(ghost n: nat)
      requires Ok() && Rests(ns) && Poised(runs, n, ns)
      modifies this`current, this`at
      ensures Standing() && Rests(ns) && Poised(runs, n, ns)
      ensures Valid() == (n > 0) && (n > 0 ==> At() == n - 1)
    {
      assert n <= |Contents()| == |Items(runs)|;
      hide AllSorted, MergeAll, Items, Poised;
      var largest := -1;
      for i := |children| downto 0
        invariant -1 == largest || i <= largest < |children|
        invariant largest == -1 ==> forall r :: i <= r < |children| ==> !children[r].Valid()
        invariant largest >= 0 ==> children[largest].Valid()
        invariant largest >= 0 ==> forall r :: i <= r < |children| && children[r].Valid() ==>
          !Precedes(Last(runs, ns, largest), Last(runs, ns, r))
      {
        if children[i].Valid() {
          if largest == -1 {
            largest := i;
          } else if Before(children[largest].Key(), children[i].Key()) {
            largest := i;
          }
        }
      }
      current := largest;
      at := LargestOrNone(runs, n, ns, current);
    }

    method SeekToFirst()
      requires Ok()
      modifies this, children
      ensures Inv() && direction == Forward && At() == 0
    {
      for i := 0 to |children|
        invariant Ok()
        invariant forall r :: 0 <= r < i ==> children[r].pos == 0
      {
        children[i].SeekToFirst();
      }
      ns := seq(|children|, i => 0);
      PoisedAtStart(runs, ns);
      FindSmallest(0);
      direction := Forward;
    }

    method SeekToLast()
      requires Ok()
      modifies this, children
      ensures Inv() && direction == Reverse
      ensures Contents() == [] ==> !Valid()
      ensures Contents() != [] ==> At() == |Contents()| - 1
    {
      assert |Contents()| == |Items(runs)|;
      hide AllSorted, MergeAll, Items, Poised;
      AllToLast();
      RestAtEnd();
      FindLargest(|Contents()|);
      direction := Reverse;
    }

    ghost method RestAtEnd()
      requires Ok() && forall i :: 0 <= i < |children| ==> RestOf(children[i]) == |children[i].entries|
      modifies this`ns
      ensures Rests(ns) && Poised(runs, |Items(runs)|, ns)
    {
      ns := seq(|children|, i requires 0 <= i < |children| => |children[i].entries|);
      PoisedAtEnd(runs, ns);
    }

    // Every child goes to its last entry.
    method AllToLast()
      requires Ok()
      modifies children
      ensures Ok() && forall i :: 0 <= i < |children| ==> RestOf(children[i]) == |children[i].entries|
    {
      hide AllSorted, MergeAll;
      for i := 0 to |children|
        invariant Ok() && forall r :: 0 <= r < i ==> RestOf(children[r]) == |children[r].entries|
      {
        children[i].SeekToLast();
      }
    }

    method Seek(target: IKey)
      requires Ok()
      modifies this, children
      ensures Inv() && direction == Forward
      ensures forall i :: 0 <= i < At() ==> Before(Contents()[i].key, target)
      ensures Valid() ==> AtOrAfter(Key(), target)
    {
      for i := 0 to |children|
        invariant Ok()
        invariant forall r :: 0 <= r < i ==> SplitBy(children[r].entries, children[r].pos, target)
      {
        children[i].Seek(target);
        SplitFromSeek(children[i].entries, children[i].pos, target);
      }
      ns := seq(|children|, i requires 0 <= i < |children| reads children => children[i].pos);
      ghost var n := PoisedAtTarget(runs, ns, target);
      FindSmallest(n);
      direction := Forward;
    }

    // Moving backwards the other children are before the current key: seek them past it.
    method SeekOthersPast()
      requires Standing() && Valid()
      modifies children
      ensures Standing() && children[current].pos == old(children[current].pos)
      ensures forall r :: 0 <= r < |children| && r != current ==> SplitPast(children[r].entries, children[r].pos, Key())
    {
      hide Items, MergeAll, SplitPast, Before;
      for i := 0 to |children|
        invariant Standing() && children[current].pos == old(children[current].pos)
        invariant forall r :: 0 <= r < i && r != current ==> SplitPast(children[r].entries, children[r].pos, Key())
      {
        if i != current {
          SeekPast(children[i], Key());
        }
      }
    }

    // Moving forward the other children are past the current key: step them back before it.
    method SeekOthersBefore()
      requires Standing() && Valid()
      modifies children
      ensures Standing() && children[current].pos == old(children[current].pos)
      ensures forall r :: 0 <= r < |children| && r != current ==> SplitBy(children[r].entries, RestOf(children[r]), Key())
    {
      hide Items, MergeAll, SplitBy, Before;
      for i := 0 to |children|
        invariant Standing() && children[current].pos == old(children[current].pos)
        invariant forall r :: 0 <= r < i && r != current ==> SplitBy(children[r].entries, RestOf(children[r]), Key())
      {
        if i != current {
          SeekBefore(children[i], Key());
        }
      }
    }

    // Once the current child has stepped on, the children are poised at n.
    ghost predicate NextAt(n: nat)
      requires Standing() && Valid()
      reads this, children
    {
      Starts(ns) && Poised(runs, n, ns[current := ns[current] + 1])
    }

    // Once the current child has stepped back, the children are poised at n.
    ghost predicate PrevAt(n: nat)
      requires Standing() && Valid()
      reads this, children
    {
      && |ns| == |children| && ns[current] == children[current].pos && Poised(runs, n, ns)
      && forall r :: 0 <= r < |children| && r != current ==> ns[r] == RestOf(children[r])
    }

    // Every entry of the current key, in whatever child, is behind.
    ghost method PassKey() returns (n: nat)
      requires Standing() && Valid()
      requires forall r :: 0 <= r < |children| && r != current ==> SplitPast(children[r].entries, children[r].pos, Key())
      modifies this`ns
      ensures NextAt(n) && n == PastKey(Contents(), at)
    {
      MergeAllSorts(runs);
      SplitOnOwn(runs[current], children[current].pos);
      var past := seq(|children|, i requires 0 <= i < |children| reads this, children =>
        if i == current then children[i].pos + 1 else children[i].pos);
      n := PoisedPastTarget(runs, past, Key());
      ns := past[current := children[current].pos];
      assert ns[current := ns[current] + 1] == past;
      hide Items, AllSorted, SplitPast, Poised;
      SplitIsPastKey(Contents(), n, at);
    }

    // No entry of the current key, in whatever child, is behind.
    ghost method BackBeforeKey() returns (n: nat)
      requires Standing() && Valid()
      requires forall r :: 0 <= r < |children| && r != current ==> SplitBy(children[r].entries, RestOf(children[r]), Key())
      modifies this`ns
      ensures PrevAt(n) && n == FirstOfKey(Contents(), at)
    {
      MergeAllSorts(runs);
      SplitOnOwn(runs[current], children[current].pos);
      ns := seq(|children|, i requires 0 <= i < |children| reads this, children =>
        if i == current then children[i].pos else RestOf(children[i]));
      n := PoisedAtTarget(runs, ns, Key());
      hide Items, AllSorted, SplitBy, Poised;
      SplitIsFirstOfKey(Contents(), n, at);
    }

    // Moving backwards, entries up to the current one become entries before it.
    ghost method ExcludeCurrent()
      requires Standing() && Valid() && Rests(ns) && Poised(runs, at + 1, ns)
      modifies this`ns
      ensures PrevAt(at)
    {
      var behind := ns[current := children[current].pos];
      assert behind[current := behind[current] + 1] == ns;
      Advance(runs, at, behind, current);
      ns := behind;
    }

    method StepForward(ghost n: nat)
      requires Standing() && Valid() && NextAt(n)
      modifies children, this`ns
      ensures Ok() && Starts(ns) && Poised(runs, n, ns)
    {
      children[current].Next();
      ns := ns[current := ns[current] + 1];
    }

    method StepBack(ghost n: nat)
      requires Standing() && Valid() && PrevAt(n)
      modifies children
      ensures Ok() && Rests(ns) && Poised(runs, n, ns)
    {
      children[current].Prev();
    }

    method LandBack(ghost n: nat)
      requires Standing() && Valid() && PrevAt(n) && direction == Reverse
      modifies children, this`current, this`at
      ensures Inv() && if n == 0 then !Valid() else At() == n - 1
    {
      hide Poised, AllSorted, MergeAll, Items, Before;
      StepBack(n);
      FindLargest(n);
    }

    // Every child but the current one is after the current key, or comes to be.
    method FaceForward() returns (ghost n: nat)
      requires Inv() && Valid()
      modifies this`direction, this`ns, children
      ensures Standing() && NextAt(n) && direction == Forward
      ensures n == if old(direction) == Forward then at + 1 else PastKey(Contents(), at)
    {
      assert at < |Contents()|;
      if direction != Forward {
        hide Poised, AllSorted, MergeAll, Items, Before, SplitPast;
        SeekOthersPast();
        n := PassKey();
        direction := Forward;
      } else {
        Advance(runs, at, ns, current);
        n := at + 1;
      }
    }

    // Every child but the current one is before the current key, or comes to be.
    method FaceBack() returns (ghost n: nat)
      requires Inv() && Valid()
      modifies this`direction, this`ns, children
      ensures Standing() && PrevAt(n) && direction == Reverse
      ensures n == if old(direction) == Reverse then at else FirstOfKey(Contents(), at)
    {
      assert at < |Contents()|;
      hide Poised, AllSorted, MergeAll, Items, Before, SplitBy;
      n := at;
      if direction != Reverse {
        SeekOthersBefore();
        n := BackBeforeKey();
        direction := Reverse;
      } else {
        ExcludeCurrent();
      }
    }

    /** One entry on; turning round, past every entry of the current key. */
    method Next()
      requires Inv() && Valid()
      modifies this, children
      ensures Inv() && direction == Forward
      ensures At() == if old(direction) == Forward then old(At()) + 1 else PastKey(Contents(), old(At()))
    {
      assert at < |Contents()|;
      hide Poised, AllSorted, MergeAll, Items, Before, PastKey;
      ghost var n := FaceForward();
      StepForward(n);
      FindSmallest(n);
    }

    /** One entry back; turning round, to before every entry of the current key. */
    method Prev()
      requires Inv() && Valid()
      modifies this, children
      ensures Inv() && direction == Reverse
      ensures var n := if old(direction) == Reverse then old(At()) else FirstOfKey(Contents(), old(At()));
        if n == 0 then !Valid() else At() == n - 1
    {
      assert at < |Contents()|;
      hide Poised, AllSorted, MergeAll, Items, Before, FirstOfKey;
      ghost var n := FaceBack();
      LandBack(n);
    }
  }
}
