/** How flushes and compactions change a version, and that they keep its levels in order. */
module Levels {
  import opened Entries
  import opened Versions
  import opened Selection
  import opened Builders
  import opened Compactions

  // Every level sorted by smallest key and without repeated numbers, as the builder leaves it.
  ghost predicate Tidy(v: Version)
    requires GoodVersion(v)
  {
    forall l :: 0 <= l < NUM_LEVELS ==> SortedFiles(v[l]) && Numbered(v[l])
  }

  // v' is v with in0 gone from `level`, and on the next level in1 replaced by outs.
  ghost predicate Moved(v: Version, v': Version, level: nat, in0: seq<File>, in1: seq<File>, outs: seq<File>)
    requires GoodVersion(v) && GoodVersion(v') && level + 1 < NUM_LEVELS
  {
    && Tidy(v')
    && (forall f :: f in v'[level] <==> f in v[level] && f !in in0)
    && (forall f :: f in v'[level + 1] <==> (f in v[level + 1] && f !in in1) || f in outs)
    && forall l :: 0 <= l < NUM_LEVELS && l != level && l != level + 1 ==> v'[l] == v[l]
  }

  // The outputs hold input entries only, in order.
  ghost predicate OutputsOf(outs: seq<File>, inputs: set<Entry>) {
    && (forall i :: 0 <= i < |outs| ==> GoodFile(outs[i]))
    && Sorted(Concat(outs)) && Elements(Concat(outs)) <= inputs
  }

  // Files sorted by smallest key with pairwise separate ranges are disjoint in order.
  lemma SeparateIsDisjoint(fs: seq<File>)
    requires GoodFiles(fs) && SortedFiles(fs)
    requires forall f, g :: f in fs && g in fs && f != g && f.entries != [] && g.entries != [] ==>
      Precedes(f, g) || Precedes(g, f)
    requires Numbered(fs)
    ensures Disjoint(fs)
  {
    forall i, j | 0 <= i < j < |fs| ensures Before(Largest(fs[i]), Smallest(fs[j])) {
      assert fs[i] in fs && fs[j] in fs && fs[i].number != fs[j].number;
      WithinFile(fs[j], fs[j].entries[0]);
      WithinFile(fs[i], fs[i].entries[0]);
      assert LessFile(fs[i], fs[j]);
    }
  }

  lemma {:induction false} ConcatMembers(fs: seq<File>, e: Entry)
    ensures e in Concat(fs) <==> e in EntriesOf(fs)
  {
    if fs != [] {
      var init, last := fs[..|fs| - 1], fs[|fs| - 1];
      assert fs == init + [last];
      ConcatMembers(init, e);
      assert e in EntriesOf(fs) <==> e in EntriesOf(init) || e in last.entries by {
        if e in EntriesOf(fs) { var f :| f in fs && e in f.entries; assert f in init || f == last; }
        if e in EntriesOf(init) { var f :| f in init && e in f.entries; assert f in fs; }
      }
    }
  }

  lemma {:induction false} OutputsPrecede(outs: seq<File>, i: nat, j: nat)
    requires GoodFiles(outs) && Sorted(Concat(outs)) && i < j < |outs|
    ensures Precedes(outs[i], outs[j])
  {
    var init, last := outs[..|outs| - 1], outs[|outs| - 1];
    var c := Concat(init);
    assert Concat(outs) == c + last.entries;
    assert Sorted(c) by {
      forall a, b | 0 <= a < b < |c| ensures Before(c[a].key, c[b].key) { Ordered(Concat(outs), a, b); }
    }
    if j < |outs| - 1 {
      OutputsPrecede(init, i, j);
    } else {
      var e := outs[i].entries[|outs[i].entries| - 1];
      assert init[i] == outs[i];
      ConcatMembers(init, e);
      assert outs[i] in init && e in outs[i].entries;
      var a :| 0 <= a < |c| && c[a] == e;
      Ordered(Concat(outs), a, |c|);
    }
  }

  // A file left alone on the output level and an output are apart.
  lemma LeftAloneApart(h: File, o: File, inputs: set<Entry>)
    requires GoodFile(h) && GoodFile(o) && Outside(h, inputs) && Elements(o.entries) <= inputs
    ensures Precedes(h, o) || Precedes(o, h)
  {
    assert o.entries[0] in Elements(o.entries) && o.entries[|o.entries| - 1] in Elements(o.entries);
  }

  // Files left behind on the level are newer than those that go.
  ghost predicate LeavesNewer(v: Version, level: nat, in0: seq<File>, in1: seq<File>)
    requires GoodVersion(v) && level + 1 < NUM_LEVELS
  {
    && InputFiles(v, level, in0, in1)
    && forall f :: f in v[level] && f !in in0 ==> Newer(Elements(f.entries), EntriesOf(in0))
  }

  // Files left alone on the output level are apart from the outputs.
  ghost predicate LeavesApart(v: Version, level: nat, in1: seq<File>, outs: seq<File>)
    requires GoodVersion(v) && level + 1 < NUM_LEVELS
  {
    forall f, o :: f in v[level + 1] && f !in in1 && o in outs && f.entries != [] && o.entries != [] ==>
      Precedes(f, o) || Precedes(o, f)
  }

  lemma GoodInputsFit(v: Version, level: nat, in0: seq<File>, in1: seq<File>, outs: seq<File>)
    requires LevelOrder(v) && level + 1 < NUM_LEVELS && GoodInputs(v, level, in0, in1)
    requires OutputsOf(outs, EntriesOf(in0) + EntriesOf(in1))
    ensures LeavesNewer(v, level, in0, in1) && LeavesApart(v, level, in1, outs)
  {
    var inputs := EntriesOf(in0) + EntriesOf(in1);
    forall f, o | f in v[level + 1] && f !in in1 && o in outs && f.entries != [] && o.entries != []
      ensures Precedes(f, o) || Precedes(o, f)
    {
      OutputInInputs(outs, inputs, o);
      MemberOf(v[level + 1], f);
      LeftAloneApart(f, o, inputs);
    }
  }

  lemma OutputLevelDisjoint(v: Version, v': Version, level: nat, in0: seq<File>, in1: seq<File>, outs: seq<File>)
    requires LevelOrder(v) && GoodVersion(v') && level + 1 < NUM_LEVELS
    requires LeavesApart(v, level, in1, outs) && Moved(v, v', level, in0, in1, outs)
    requires OutputsOf(outs, EntriesOf(in0) + EntriesOf(in1))
    ensures Disjoint(v'[level + 1])
  {
    var fs := v'[level + 1];
    forall f, g | f in fs && g in fs && f != g ensures Precedes(f, g) || Precedes(g, f) {
      OutputLevelApart(v, level, in0, in1, outs, f, g);
    }
    SeparateIsDisjoint(fs);
  }

  lemma OutputInInputs(outs: seq<File>, inputs: set<Entry>, o: File)
    requires OutputsOf(outs, inputs) && o in outs
    ensures GoodFile(o) && Elements(o.entries) <= inputs
  {
    forall e | e in Elements(o.entries) ensures e in inputs {
      assert e in EntriesOf(outs);
      ConcatMembers(outs, e);
    }
  }

  lemma OutputLevelApart(v: Version, level: nat, in0: seq<File>, in1: seq<File>, outs: seq<File>, f: File, g: File)
    requires LevelOrder(v) && level + 1 < NUM_LEVELS && LeavesApart(v, level, in1, outs)
    requires OutputsOf(outs, EntriesOf(in0) + EntriesOf(in1))
    requires (f in v[level + 1] && f !in in1) || f in outs
    requires (g in v[level + 1] && g !in in1) || g in outs
    requires f != g
    ensures f.entries != [] && g.entries != [] && (Precedes(f, g) || Precedes(g, f))
  {
    var inputs := EntriesOf(in0) + EntriesOf(in1);
    hide Newer, NewestFirst;
    if f in outs { OutputInInputs(outs, inputs, f); } else { MemberOf(v[level + 1], f); }
    if g in outs { OutputInInputs(outs, inputs, g); } else { MemberOf(v[level + 1], g); }
    if f in outs && g in outs {
      var i :| 0 <= i < |outs| && outs[i] == f;
      var j :| 0 <= j < |outs| && outs[j] == g;
      if i < j { OutputsPrecede(outs, i, j); } else { OutputsPrecede(outs, j, i); }
    } else if f !in outs && g !in outs {
      var i :| 0 <= i < |v[level + 1]| && v[level + 1][i] == f;
      var j :| 0 <= j < |v[level + 1]| && v[level + 1][j] == g;
      TwoFiles(v[level + 1], i, j);
    }
  }

  // What each level of v' can hold.
  lemma EntriesAfterMove(v: Version, v': Version, level: nat, in0: seq<File>, in1: seq<File>, outs: seq<File>, l: nat)
    requires LevelOrder(v) && GoodVersion(v') && level + 1 < NUM_LEVELS && l < NUM_LEVELS
    requires InputFiles(v, level, in0, in1) && Moved(v, v', level, in0, in1, outs)
    requires OutputsOf(outs, EntriesOf(in0) + EntriesOf(in1))
    ensures l != level + 1 ==> EntriesOf(v'[l]) <= EntriesOf(v[l])
    ensures l == level + 1 ==> EntriesOf(v'[l]) <= EntriesOf(v[l]) + EntriesOf(in0)
    ensures EntriesOf(in0) <= EntriesOf(v[level])
  {
    assert |v| == NUM_LEVELS;
    hide LevelOrder, Newer;
    forall e | e in EntriesOf(v'[l])
      ensures e in EntriesOf(v[l]) || (l == level + 1 && e in EntriesOf(in0))
    {
      var f :| f in v'[l] && e in f.entries;
      if l == level + 1 && f in outs {
        OutputInInputs(outs, EntriesOf(in0) + EntriesOf(in1), f);
        assert e in Elements(f.entries);
      }
    }
  }

  /** Installing outputs keeps the level order exactly when no file left alone on the output
      level gets in their way. */
  lemma MoveKeepsLevelOrderIff(v: Version, v': Version, level: nat, in0: seq<File>, in1: seq<File>, outs: seq<File>)
    requires LevelOrder(v) && GoodVersion(v') && level + 1 < NUM_LEVELS
    requires LeavesNewer(v, level, in0, in1) && Moved(v, v', level, in0, in1, outs)
    requires OutputsOf(outs, EntriesOf(in0) + EntriesOf(in1)) && Numbers(outs) !! Numbers(v[level + 1])
    ensures LevelOrder(v') <==> LeavesApart(v, level, in1, outs)
  {
    hide NewestFirst, Newer, Sorted, OutputsOf, LeavesNewer, GoodFile, EntriesOf, SortedFiles, Numbered;
    if LeavesApart(v, level, in1, outs) {
      ApartKeepsLevelOrder(v, v', level, in0, in1, outs);
    }
    if LevelOrder(v') {
      forall f, o | f in v[level + 1] && f !in in1 && o in outs && f.entries != [] && o.entries != []
        ensures Precedes(f, o) || Precedes(o, f)
      {
        assert f.number in Numbers(v[level + 1]) && o.number in Numbers(outs);
        var i :| 0 <= i < |v'[level + 1]| && v'[level + 1][i] == f;
        var j :| 0 <= j < |v'[level + 1]| && v'[level + 1][j] == o;
        TwoFiles(v'[level + 1], i, j);
      }
    }
  }

  lemma ApartKeepsLevelOrder(v: Version, v': Version, level: nat, in0: seq<File>, in1: seq<File>, outs: seq<File>)
    requires LevelOrder(v) && GoodVersion(v') && level + 1 < NUM_LEVELS
    requires LeavesNewer(v, level, in0, in1) && LeavesApart(v, level, in1, outs) && Moved(v, v', level, in0, in1, outs)
    requires OutputsOf(outs, EntriesOf(in0) + EntriesOf(in1))
    ensures LevelOrder(v')
  {
    OutputLevelDisjoint(v, v', level, in0, in1, outs);
    assert forall l :: 1 <= l < NUM_LEVELS ==> Disjoint(v[l]);
    assert NewestFirst(v'[0]);
    hide LevelOrder, NewestFirst, Newer, Sorted, OutputsOf, LeavesNewer, LeavesApart, GoodFile, EntriesOf;
    forall l | 1 <= l < NUM_LEVELS ensures Disjoint(v'[l]) {
      if l == level { SubsetDisjoint(v[l], v'[l]); }
    }
    forall l, m | 0 <= l < m < NUM_LEVELS ensures Newer(EntriesOf(v'[l]), EntriesOf(v'[m])) {
      LevelsStayNewer(v, v', level, in0, in1, outs, l, m);
    }
    LevelOrderParts(v');
  }

  /** Compactions and trivial moves of properly selected inputs keep the level order. */
  lemma MoveKeepsLevelOrder(v: Version, v': Version, level: nat, in0: seq<File>, in1: seq<File>, outs: seq<File>)
    requires LevelOrder(v) && GoodVersion(v') && level + 1 < NUM_LEVELS
    requires GoodInputs(v, level, in0, in1) && Moved(v, v', level, in0, in1, outs)
    requires OutputsOf(outs, EntriesOf(in0) + EntriesOf(in1))
    ensures LevelOrder(v')
  {
    GoodInputsFit(v, level, in0, in1, outs);
    hide LevelOrder, GoodInputs, Moved, OutputsOf;
    ApartKeepsLevelOrder(v, v', level, in0, in1, outs);
  }

  lemma LevelOrderParts(v: Version)
    requires GoodVersion(v) && NewestFirst(v[0]) && forall l :: 1 <= l < NUM_LEVELS ==> Disjoint(v[l])
    requires forall l, m :: 0 <= l < m < NUM_LEVELS ==> Newer(EntriesOf(v[l]), EntriesOf(v[m]))
    ensures LevelOrder(v)
  {
  }

  lemma LevelsStayNewer(v: Version, v': Version, level: nat, in0: seq<File>, in1: seq<File>, outs: seq<File>, l: nat, m: nat)
    requires LevelOrder(v) && GoodVersion(v') && level + 1 < NUM_LEVELS && l < m < NUM_LEVELS
    requires LeavesNewer(v, level, in0, in1) && Moved(v, v', level, in0, in1, outs)
    requires OutputsOf(outs, EntriesOf(in0) + EntriesOf(in1))
    ensures Newer(EntriesOf(v'[l]), EntriesOf(v'[m]))
  {
    EntriesAfterMove(v, v', level, in0, in1, outs, l);
    EntriesAfterMove(v, v', level, in0, in1, outs, m);
    if l == level && m == level + 1 {
      LeftBehindNewerThanInputs(v, v', level, in0, in1, outs);
    }
    assert Newer(EntriesOf(v[l]), EntriesOf(v[m]));
    if l < level { assert Newer(EntriesOf(v[l]), EntriesOf(v[level])); }
    if level < m { assert Newer(EntriesOf(v[level]), EntriesOf(v[m])); }
  }

  lemma SubsetDisjoint(fs: seq<File>, fs': seq<File>)
    requires GoodFiles(fs) && Disjoint(fs) && GoodFiles(fs') && SortedFiles(fs') && Numbered(fs')
    requires forall f :: f in fs' ==> f in fs
    ensures Disjoint(fs')
  {
    forall f, g | f in fs' && g in fs' && f != g ensures Precedes(f, g) || Precedes(g, f) {
      var i :| 0 <= i < |fs| && fs[i] == f;
      var j :| 0 <= j < |fs| && fs[j] == g;
      TwoFiles(fs, i, j);
    }
    SeparateIsDisjoint(fs');
  }

  lemma LeftBehindNewerThanInputs(v: Version, v': Version, level: nat, in0: seq<File>, in1: seq<File>, outs: seq<File>)
    requires LevelOrder(v) && GoodVersion(v') && level + 1 < NUM_LEVELS
    requires LeavesNewer(v, level, in0, in1) && Moved(v, v', level, in0, in1, outs)
    ensures Newer(EntriesOf(v'[level]), EntriesOf(in0))
    ensures Newer(EntriesOf(v'[level]), EntriesOf(v[level + 1]))
  {
    forall e, d | e in EntriesOf(v'[level]) && d in EntriesOf(in0) && e.key.user == d.key.user ensures e.key.sn > d.key.sn {
      var f :| f in v'[level] && e in f.entries;
      assert Newer(Elements(f.entries), EntriesOf(in0)) && e in Elements(f.entries);
    }
    forall e | e in EntriesOf(v'[level]) ensures e in EntriesOf(v[level]) {
      var f :| f in v'[level] && e in f.entries;
    }
    assert Newer(EntriesOf(v[level]), EntriesOf(v[level + 1]));
  }

  // ----- The entries of the database around a compaction -----

  // Entries of the version in files that are not inputs.
  ghost function RestOf(v: Version, level: nat, in0: seq<File>, in1: seq<File>): set<Entry>
    requires GoodVersion(v) && level + 1 < NUM_LEVELS
  {
    set l, f, e | 0 <= l < NUM_LEVELS && f in v[l] && !(l == level && f in in0) && !(l == level + 1 && f in in1)
      && e in f.entries :: e
  }

  ghost predicate InputFiles(v: Version, level: nat, in0: seq<File>, in1: seq<File>)
    requires GoodVersion(v) && level + 1 < NUM_LEVELS
  {
    (forall f :: f in in0 ==> f in v[level]) && (forall f :: f in in1 ==> f in v[level + 1])
  }

  lemma InVersion(v: Version, l: nat, f: File, e: Entry)
    requires l < |v| && f in v[l] && e in f.entries
    ensures e in EntriesOf(v[l]) && e in VersionEntries(v)
  {
  }

  // Before: the rest and the inputs.
  lemma EntriesBefore(v: Version, level: nat, in0: seq<File>, in1: seq<File>)
    requires GoodVersion(v) && level + 1 < NUM_LEVELS && InputFiles(v, level, in0, in1)
    ensures VersionEntries(v) == RestOf(v, level, in0, in1) + (EntriesOf(in0) + EntriesOf(in1))
  {
    hide GoodFile;
    var all, parts := VersionEntries(v), RestOf(v, level, in0, in1) + (EntriesOf(in0) + EntriesOf(in1));
    forall e | e in all ensures e in parts {
      var l :| 0 <= l < |v| && e in EntriesOf(v[l]);
      var f :| f in v[l] && e in f.entries;
      if l == level && f in in0 { assert e in EntriesOf(in0); }
      if l == level + 1 && f in in1 { assert e in EntriesOf(in1); }
    }
    forall e | e in parts ensures e in all {
      if e in RestOf(v, level, in0, in1) {
        var l, f :| 0 <= l < NUM_LEVELS && f in v[l] && e in f.entries;
        InVersion(v, l, f, e);
      } else if e in EntriesOf(in0) {
        var f :| f in in0 && e in f.entries;
        InVersion(v, level, f, e);
      } else {
        var f :| f in in1 && e in f.entries;
        InVersion(v, level + 1, f, e);
      }
    }
  }

  // After: the rest and the outputs.
  lemma EntriesAfter(v: Version, v': Version, level: nat, in0: seq<File>, in1: seq<File>, outs: seq<File>)
    requires GoodVersion(v) && GoodVersion(v') && level + 1 < NUM_LEVELS
    requires Moved(v, v', level, in0, in1, outs)
    ensures VersionEntries(v') == RestOf(v, level, in0, in1) + EntriesOf(outs)
  {
    hide GoodFile, SortedFiles, Numbered;
    var all, parts := VersionEntries(v'), RestOf(v, level, in0, in1) + EntriesOf(outs);
    forall e | e in all ensures e in parts {
      var l :| 0 <= l < |v'| && e in EntriesOf(v'[l]);
      var f :| f in v'[l] && e in f.entries;
      if l == level + 1 && f in outs { assert e in EntriesOf(outs); } else { assert f in v[l]; }
    }
    forall e | e in parts ensures e in all {
      if e in RestOf(v, level, in0, in1) {
        var l, f :| 0 <= l < NUM_LEVELS && f in v[l] && !(l == level && f in in0) && !(l == level + 1 && f in in1)
          && e in f.entries;
        assert f in v'[l];
        InVersion(v', l, f, e);
      } else {
        var f :| f in outs && e in f.entries;
        InVersion(v', level + 1, f, e);
      }
    }
  }

  // ----- Where a flushed memtable goes -----

  /** Whether some file overlaps the user-key range: a scan at level 0, a search deeper down. */
  method SomeFileOverlapsRange(disjointSortedFiles: bool, fs: seq<File>, smallest: Option<UserKey>, largest: Option<UserKey>)
    returns (r: bool)
    requires GoodFiles(fs) && (disjointSortedFiles ==> Disjoint(fs))
    requires smallest.Some? && largest.Some? ==> smallest.value <= largest.value
    requires forall i, e :: 0 <= i < |fs| && e in fs[i].entries ==> e.key.sn <= MAX_SEQUENCE
    ensures r <==> exists i :: 0 <= i < |fs| && Overlaps(fs[i], smallest, largest)
  {
    if !disjointSortedFiles {
      for i := 0 to |fs|
        invariant forall j :: 0 <= j < i ==> !Overlaps(fs[j], smallest, largest)
      {
        if BeforeRange(fs[i], smallest) || AfterRange(fs[i], largest) {
        } else {
          return true;
        }
      }
      return false;
    }
    var index := 0;
    if smallest.Some? {
      index := FindFile(fs, IKey(smallest.value, MAX_SEQUENCE, TYPE_FOR_SEEK));
      FindFromIsFirst(fs, IKey(smallest.value, MAX_SEQUENCE, TYPE_FOR_SEEK), 0, |fs|);
    }
    forall j | 0 <= j < |fs| ensures BeforeRange(fs[j], smallest) <==> j < index {
      var e := fs[j].entries[|fs[j].entries| - 1];
      assert e in fs[j].entries && e.key.Parses();
    }
    if index >= |fs| {
      return false;
    }
    forall j | index < j < |fs| ensures AfterRange(fs[index], largest) ==> AfterRange(fs[j], largest) {
      TwoFiles(fs, index, j);
      WithinFile(fs[index], fs[index].entries[0]);
    }
    r := !AfterRange(fs[index], largest);
  }

  const MAX_MEM_COMPACT_LEVEL: nat := 2  // kMaxMemCompactLevel

  ghost predicate NoOverlap(v: Version, l: nat, lo: UserKey, hi: UserKey)
    requires GoodVersion(v) && l < NUM_LEVELS
  {
    forall i :: 0 <= i < |v[l]| ==> !Overlaps(v[l][i], Some(lo), Some(hi))
  }

  ghost predicate SequencesBounded(v: Version)
    requires GoodVersion(v)
  {
    forall l, i, e :: 0 <= l < NUM_LEVELS && 0 <= i < |v[l]| && e in v[l][i].entries ==> e.key.sn <= MAX_SEQUENCE
  }

  // The bytes of the level that overlap the range.
  ghost function BytesIn(v: Version, l: nat, lo: UserKey, hi: UserKey): nat
    requires GoodVersion(v) && l < NUM_LEVELS
  {
    TotalFileSize(Overlapping(v[l], Some(lo), Some(hi)))
  }

  // The deepest of the first three levels that is reached past levels without overlapping files,
  // while the level two further down has little overlap.
  ghost predicate PlaceFor(v: Version, level: nat, lo: UserKey, hi: UserKey, maxGrandParentOverlap: nat)
    requires GoodVersion(v)
  {
    && level <= MAX_MEM_COMPACT_LEVEL
    && (level > 0 ==> forall l :: 0 <= l <= level ==> NoOverlap(v, l, lo, hi))
    && (forall l :: 2 <= l < level + 2 ==> BytesIn(v, l, lo, hi) <= maxGrandParentOverlap)
    && (level < MAX_MEM_COMPACT_LEVEL ==>
          || (level == 0 && !NoOverlap(v, 0, lo, hi))
          || !NoOverlap(v, level + 1, lo, hi)
          || BytesIn(v, level + 2, lo, hi) > maxGrandParentOverlap)
  }

  /** The level for a flushed memtable spanning [lo, hi]. */
  method PickLevelForMemTableOutput(v: Version, lo: UserKey, hi: UserKey, maxGrandParentOverlap: nat) returns (level: nat)
    requires GoodVersion(v) && LevelOrder(v) && lo <= hi && SequencesBounded(v)
    ensures PlaceFor(v, level, lo, hi, maxGrandParentOverlap)
  {
    hide LevelOrder, SequencesBounded, NoOverlap, GoodVersion, BytesIn;
    level := 0;
    var overlap := OverlapInLevel(v, 0, lo, hi);
    if !overlap {
      while level < MAX_MEM_COMPACT_LEVEL
        invariant level <= MAX_MEM_COMPACT_LEVEL && forall l :: 0 <= l <= level ==> NoOverlap(v, l, lo, hi)
        invariant forall l :: 2 <= l < level + 2 ==> BytesIn(v, l, lo, hi) <= maxGrandParentOverlap
      {
        overlap := OverlapInLevel(v, level + 1, lo, hi);
        if overlap { break; }
        if level + 2 < NUM_LEVELS {
          // the file must not overlap too many bytes of the level after
          var bytes := OverlappingBytes(v, level + 2, lo, hi);
          if bytes > maxGrandParentOverlap { break; }
        }
        level := level + 1;
      }
    }
  }

  method OverlapInLevel(v: Version, level: nat, lo: UserKey, hi: UserKey) returns (r: bool)
    requires LevelOrder(v) && level < NUM_LEVELS && lo <= hi && SequencesBounded(v)
    ensures r == !NoOverlap(v, level, lo, hi)
  {
    r := SomeFileOverlapsRange(level > 0, v[level], Some(lo), Some(hi));
  }

  method OverlappingBytes(v: Version, level: nat, lo: UserKey, hi: UserKey) returns (bytes: nat)
    requires LevelOrder(v) && 0 < level < NUM_LEVELS
    ensures bytes == BytesIn(v, level, lo, hi)
  {
    var overlaps, b, e := GetOverlappingInputs(v[level], level, Some(lo), Some(hi));
    bytes := TotalFileSize(overlaps);
  }

  // v' is v with files added to a level.
  ghost predicate AddedFiles(v: Version, v': Version, level: nat, fs: seq<File>)
    requires GoodVersion(v) && GoodVersion(v') && level < NUM_LEVELS
  {
    && Tidy(v')
    && (forall g :: g in v'[level] <==> g in v[level] || g in fs)
    && forall l :: 0 <= l < NUM_LEVELS && l != level ==> v'[l] == v[l]
  }

  // A file whose range overlaps none of the level's shares no user key with them.
  lemma NoSharedKey(fs: seq<File>, f: File, g: File, a: Entry, b: Entry)
    requires GoodFiles(fs) && GoodFile(f) && g in fs && a in f.entries && b in g.entries
    requires forall i :: 0 <= i < |fs| ==> !Overlaps(fs[i], Some(Smallest(f).user), Some(Largest(f).user))
    ensures a.key.user != b.key.user && g.entries != [] && (Precedes(f, g) || Precedes(g, f))
  {
    MemberOf(fs, g);
    var i :| 0 <= i < |fs| && fs[i] == g;
    WithinFile(f, a);
    WithinFile(g, b);
  }

  /** A flush keeps the level order: the file is newer than the whole version, and goes to
      level 0 with the highest number or deeper past levels it does not overlap. */
  lemma FlushKeepsLevelOrder(v: Version, v': Version, level: nat, f: File)
    requires LevelOrder(v) && GoodVersion(v') && level < NUM_LEVELS && GoodFile(f) && AddedFiles(v, v', level, [f])
    requires Newer(Elements(f.entries), VersionEntries(v))
    requires forall g :: g in v[0] ==> g.number < f.number
    requires level > 0 ==> forall l :: 0 <= l <= level ==> NoOverlap(v, l, Smallest(f).user, Largest(f).user)
    ensures LevelOrder(v')
  {
    forall l, m | 0 <= l < m < NUM_LEVELS ensures Newer(EntriesOf(v'[l]), EntriesOf(v'[m])) {
      FlushKeepsNewer(v, v', level, f, l, m);
    }
    if level == 0 {
      FlushedNewestFirst(v, v'[0], f);
    } else {
      hide LevelOrder, Newer, NewestFirst, GoodFile, Sorted;
      forall a, b | a in v'[level] && b in v'[level] && a != b && a.entries != [] && b.entries != []
        ensures Precedes(a, b) || Precedes(b, a)
      {
        FlushedApart(v, level, f, a, b);
      }
      SeparateIsDisjoint(v'[level]);
    }
  }

  lemma FlushedNewestFirst(v: Version, fs: seq<File>, f: File)
    requires LevelOrder(v) && Numbered(fs)
    requires forall g :: g in fs <==> g in v[0] || g == f
    requires Newer(Elements(f.entries), VersionEntries(v))
    requires forall g :: g in v[0] ==> g.number < f.number
    ensures NewestFirst(fs)
  {
    forall a, b | a in fs && b in fs && a.number > b.number ensures Newer(Elements(a.entries), Elements(b.entries)) {
      if a == f {
        forall e | e in Elements(b.entries) ensures e in VersionEntries(v) { InVersion(v, 0, b, e); }
      }
    }
  }

  lemma FlushKeepsNewer(v: Version, v': Version, level: nat, f: File, l: nat, m: nat)
    requires LevelOrder(v) && GoodVersion(v') && level < NUM_LEVELS && GoodFile(f) && AddedFiles(v, v', level, [f])
    requires Newer(Elements(f.entries), VersionEntries(v)) && l < m < NUM_LEVELS
    requires level > 0 ==> forall l :: 0 <= l <= level ==> NoOverlap(v, l, Smallest(f).user, Largest(f).user)
    ensures Newer(EntriesOf(v'[l]), EntriesOf(v'[m]))
  {
    hide LevelOrder, Newer, GoodFile, NoOverlap, SortedFiles, Numbered;
    forall a, b | a in EntriesOf(v'[l]) && b in EntriesOf(v'[m]) && a.key.user == b.key.user ensures a.key.sn > b.key.sn {
      var x :| x in v'[l] && a in x.entries;
      var y :| y in v'[m] && b in y.entries;
      FlushedPair(v, level, f, l, m, x, y, a, b);
    }
    NewerFromPairs(EntriesOf(v'[l]), EntriesOf(v'[m]));
  }

  lemma NewerFromPairs(a: set<Entry>, b: set<Entry>)
    requires forall e, f :: e in a && f in b && e.key.user == f.key.user ==> e.key.sn > f.key.sn
    ensures Newer(a, b)
  {
  }

  lemma FlushedPair(v: Version, level: nat, f: File, l: nat, m: nat, x: File, y: File, a: Entry, b: Entry)
    requires LevelOrder(v) && level < NUM_LEVELS && GoodFile(f)
    requires Newer(Elements(f.entries), VersionEntries(v)) && l < m < NUM_LEVELS
    requires level > 0 ==> forall l :: 0 <= l <= level ==> NoOverlap(v, l, Smallest(f).user, Largest(f).user)
    requires x in v[l] || (l == level && x == f)
    requires y in v[m] || (m == level && y == f)
    requires a in x.entries && b in y.entries && a.key.user == b.key.user
    ensures a.key.sn > b.key.sn
  {
    if x in v[l] && y in v[m] {
      InVersion(v, l, x, a);
      InVersion(v, m, y, b);
      assert Newer(EntriesOf(v[l]), EntriesOf(v[m]));
    } else if x in v[l] {
      assert NoOverlap(v, l, Smallest(f).user, Largest(f).user);
      NoSharedKey(v[l], f, x, b, a);
    } else {
      assert a in Elements(f.entries) && y in v[m];
      InVersion(v, m, y, b);
    }
  }

  lemma FlushedApart(v: Version, level: nat, f: File, a: File, b: File)
    requires LevelOrder(v) && 0 < level < NUM_LEVELS && GoodFile(f)
    requires NoOverlap(v, level, Smallest(f).user, Largest(f).user)
    requires a in v[level] || a == f
    requires b in v[level] || b == f
    requires a != b && a.entries != [] && b.entries != []
    ensures Precedes(a, b) || Precedes(b, a)
  {
    if a == f {
      NoSharedKey(v[level], f, b, f.entries[0], b.entries[0]);
    } else if b == f {
      NoSharedKey(v[level], f, a, f.entries[0], a.entries[0]);
    } else {
      var i :| 0 <= i < |v[level]| && v[level][i] == a;
      var j :| 0 <= j < |v[level]| && v[level][j] == b;
      TwoFiles(v[level], i, j);
    }
  }
}
