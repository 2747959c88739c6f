/** The sorted runs that are merged for a compaction or for a client's iterator. */
module Inputs {
  import opened Entries
  import opened Versions
  import opened Selection
  import opened Compactions
  import opened Levels
  import opened Mergers
  import opened Cursors

  // ----- Runs -----

  function RunsOf(fs: seq<File>): seq<seq<Entry>> { seq(|fs|, i requires 0 <= i < |fs| => fs[i].entries) }

  // One run for each level-0 file, one for all files of any other level.
  function LevelRuns(level: nat, fs: seq<File>): seq<seq<Entry>> {
    if level == 0 then RunsOf(fs) else if fs == [] then [] else [Concat(fs)]
  }

  // The runs of levels l and on.
  function VersionRuns(v: Version, l: nat): seq<seq<Entry>>
    requires l <= |v|
    decreases |v| - l
  {
    if l == |v| then [] else LevelRuns(l, v[l]) + VersionRuns(v, l + 1)
  }

  // MakeInputIterator.
  function InputRuns(level: nat, in0: seq<File>, in1: seq<File>): seq<seq<Entry>> {
    LevelRuns(level, in0) + LevelRuns(level + 1, in1)
  }

  // The runs can be merged, and hold exactly the entries of es.
  ghost predicate Over(runs: seq<seq<Entry>>, es: set<Entry>) {
    AllSorted(runs) && NoneShared(runs) && forall e :: e in es <==> exists r :: 0 <= r < |runs| && e in runs[r]
  }

  ghost predicate KeysApart(a: set<Entry>, b: set<Entry>) { forall e, f :: e in a && f in b ==> e.key != f.key }

  lemma OverMerges(runs: seq<seq<Entry>>, es: set<Entry>)
    requires Over(runs, es)
    ensures Sorted(MergeAll(runs)) && Elements(MergeAll(runs)) == es
  {
    MergeAllSorts(runs);
    hide AllSorted, NoneShared, MergeAll;
    assert forall e :: e in MergeAll(runs) <==> e in es;
  }

  lemma JoinRuns(a: seq<seq<Entry>>, ea: set<Entry>, b: seq<seq<Entry>>, eb: set<Entry>)
    requires Over(a, ea) && Over(b, eb) && KeysApart(ea, eb)
    ensures Over(a + b, ea + eb)
  {
    forall r, t, i, j | 0 <= r < t < |a + b| && 0 <= i < |(a + b)[r]| && 0 <= j < |(a + b)[t]|
      ensures (a + b)[r][i].key != (a + b)[t][j].key
    {
      if r < |a| <= t {
        assert a[r][i] in a[r] && b[t - |a|][j] in b[t - |a|];
      }
    }
    forall e ensures e in ea + eb <==> exists r :: 0 <= r < |a + b| && e in (a + b)[r] {
      if r :| 0 <= r < |a| && e in a[r] { assert (a + b)[r] == a[r]; }
      if r :| 0 <= r < |b| && e in b[r] { assert (a + b)[|a| + r] == b[r]; }
      if r :| 0 <= r < |a + b| && e in (a + b)[r] {
        if r >= |a| { assert e in b[r - |a|]; }
      }
    }
  }

  lemma OneRun(es: seq<Entry>)
    requires Sorted(es)
    ensures Over([es], Elements(es))
  {
    forall e ensures e in Elements(es) <==> exists r :: 0 <= r < |[es]| && e in [es][r] {
      if e in Elements(es) { assert e in [es][0]; }
    }
  }

  lemma {:induction false} ConcatSorted(fs: seq<File>)
    requires GoodFiles(fs) && Disjoint(fs)
    ensures Sorted(Concat(fs))
  {
    if fs != [] {
      var init, last := fs[..|fs| - 1], fs[|fs| - 1];
      ConcatSorted(init);
      forall i, j | 0 <= i < |Concat(init)| && 0 <= j < |last.entries| ensures Before(Concat(init)[i].key, last.entries[j].key) {
        var e := Concat(init)[i];
        ConcatMembers(init, e);
        assert e in Concat(init);
        var f :| f in init && e in f.entries;
        var k :| 0 <= k < |init| && init[k] == f;
        assert Before(Largest(fs[k]), Smallest(fs[|fs| - 1]));
        WithinFile(f, e);
        WithinFile(last, last.entries[j]);
      }
    }
  }

  lemma FileRuns(fs: seq<File>)
    requires GoodFiles(fs) && Different(fs)
    requires forall f, g :: f in fs && g in fs && f != g ==> KeysApart(Elements(f.entries), Elements(g.entries))
    ensures Over(RunsOf(fs), EntriesOf(fs))
  {
    var runs: seq<seq<Entry>> := RunsOf(fs);
    forall r, t, i, j | 0 <= r < t < |runs| && 0 <= i < |runs[r]| && 0 <= j < |runs[t]| ensures runs[r][i].key != runs[t][j].key {
      assert fs[r] in fs && fs[t] in fs && fs[r] != fs[t];
      assert runs[r][i] in Elements(fs[r].entries) && runs[t][j] in Elements(fs[t].entries);
    }
    forall e ensures e in EntriesOf(fs) <==> exists r :: 0 <= r < |runs| && e in runs[r] {
      if e in EntriesOf(fs) {
        var f :| f in fs && e in f.entries;
        var r :| 0 <= r < |fs| && fs[r] == f;
        assert e in runs[r];
      }
      if r :| 0 <= r < |runs| && e in runs[r] { assert fs[r] in fs; }
    }
  }

  // Files of one level, in the order a compaction lists them.
  lemma LevelRunsOver(v: Version, level: nat, fs: seq<File>)
    requires LevelOrder(v) && level < NUM_LEVELS && GoodFiles(fs) && Listed(level, fs) && forall f :: f in fs ==> f in v[level]
    ensures Over(LevelRuns(level, fs), EntriesOf(fs))
  {
    if level == 0 {
      forall f, g | f in fs && g in fs && f != g ensures KeysApart(Elements(f.entries), Elements(g.entries)) {
        ApartAtLevel0(v[0], f, g);
      }
      FileRuns(fs);
    } else {
      ConcatSorted(fs);
      forall e ensures e in Concat(fs) <==> e in EntriesOf(fs) { ConcatMembers(fs, e); }
      hide Concat, LevelOrder, Disjoint, GoodFiles;
      NoFilesNoEntries(fs);
      assert Elements(Concat(fs)) == EntriesOf(fs);
      if fs != [] { OneRun(Concat(fs)); } else { NoRuns(); }
    }
  }

  lemma NoFilesNoEntries(fs: seq<File>)
    ensures fs == [] ==> EntriesOf(fs) == {}
  {
  }

  lemma NoRuns()
    ensures Over([], {})
  {
  }

  lemma ApartAtLevel0(fs: seq<File>, f: File, g: File)
    requires NewestFirst(fs) && f in fs && g in fs && f != g
    ensures KeysApart(Elements(f.entries), Elements(g.entries))
  {
    var i :| 0 <= i < |fs| && fs[i] == f;
    var j :| 0 <= j < |fs| && fs[j] == g;
    assert f.number != g.number;
  }

  lemma LevelsApart(v: Version, l: nat, m: nat, a: set<Entry>, b: set<Entry>)
    requires LevelOrder(v) && l < m < NUM_LEVELS && a <= EntriesOf(v[l]) && b <= EntriesOf(v[m])
    ensures KeysApart(a, b)
  {
    assert Newer(EntriesOf(v[l]), EntriesOf(v[m]));
  }

  lemma SubsetOfLevel(fs: seq<File>, all: seq<File>)
    requires forall f :: f in fs ==> f in all
    ensures EntriesOf(fs) <= EntriesOf(all)
  {
  }

  lemma InputsFrom(v: Version, level: nat, in0: seq<File>, in1: seq<File>)
    requires LevelOrder(v) && level + 1 < NUM_LEVELS && GoodInputs(v, level, in0, in1)
    ensures GoodFiles(in0) && GoodFiles(in1)
    ensures (forall f :: f in in0 ==> f in v[level]) && forall f :: f in in1 ==> f in v[level + 1]
    ensures KeysApart(EntriesOf(in0), EntriesOf(in1))
  {
    SubsetOfLevel(in0, v[level]);
    SubsetOfLevel(in1, v[level + 1]);
    hide LevelOrder;
    LevelsApart(v, level, level + 1, EntriesOf(in0), EntriesOf(in1));
  }

  /** The input of a compaction, merged, is sorted and holds the entries of the input files. */
  lemma InputsMerge(v: Version, level: nat, in0: seq<File>, in1: seq<File>)
    requires LevelOrder(v) && level + 1 < NUM_LEVELS
    requires GoodInputs(v, level, in0, in1) && Listed(level, in0) && Listed(level + 1, in1)
    ensures AllSorted(InputRuns(level, in0, in1)) && Sorted(MergeAll(InputRuns(level, in0, in1)))
    ensures Elements(MergeAll(InputRuns(level, in0, in1))) == EntriesOf(in0) + EntriesOf(in1)
  {
    hide LevelOrder, GoodInputs, GoodFiles, LevelRuns, Over, KeysApart, EntriesOf, Listed, AllSorted, MergeAll, Sorted, Elements;
    InputsFrom(v, level, in0, in1);
    LevelRunsOver(v, level, in0);
    LevelRunsOver(v, level + 1, in1);
    JoinRuns(LevelRuns(level, in0), EntriesOf(in0), LevelRuns(level + 1, in1), EntriesOf(in1));
    OverMerges(InputRuns(level, in0, in1), EntriesOf(in0) + EntriesOf(in1));
    SortedRuns(InputRuns(level, in0, in1), EntriesOf(in0) + EntriesOf(in1));
  }

  lemma SortedRuns(runs: seq<seq<Entry>>, es: set<Entry>)
    requires Over(runs, es)
    ensures AllSorted(runs)
  {
  }

  ghost function EntriesFrom(v: Version, l: nat): set<Entry> { set m, e | l <= m < |v| && e in EntriesOf(v[m]) :: e }

  lemma {:induction false} VersionRunsOver(v: Version, l: nat)
    requires LevelOrder(v) && l <= |v|
    ensures Over(VersionRuns(v, l), EntriesFrom(v, l))
    decreases |v| - l
  {
    if l == |v| {
      NoRuns();
      assert EntriesFrom(v, l) == {};
    } else {
      VersionRunsOver(v, l + 1);
      LevelListed(v, l);
      LevelRunsOver(v, l, v[l]);
      RestApart(v, l);
      hide LevelRuns, Over, KeysApart, Listed, LevelOrder;
      JoinRuns(LevelRuns(l, v[l]), EntriesOf(v[l]), VersionRuns(v, l + 1), EntriesFrom(v, l + 1));
      OneMoreLevel(v, l);
    }
  }

  lemma OneMoreLevel(v: Version, l: nat)
    requires l < |v|
    ensures EntriesFrom(v, l) == EntriesOf(v[l]) + EntriesFrom(v, l + 1)
  {
    forall e ensures e in EntriesFrom(v, l) <==> e in EntriesOf(v[l]) + EntriesFrom(v, l + 1) {
      if e in EntriesFrom(v, l) {
        var m :| l <= m < |v| && e in EntriesOf(v[m]);
      }
    }
  }

  lemma RestApart(v: Version, l: nat)
    requires LevelOrder(v) && l < |v|
    ensures KeysApart(EntriesOf(v[l]), EntriesFrom(v, l + 1))
  {
    forall e, f | e in EntriesOf(v[l]) && f in EntriesFrom(v, l + 1) ensures e.key != f.key {
      var m :| l + 1 <= m < |v| && f in EntriesOf(v[m]);
      LevelsApart(v, l, m, EntriesOf(v[l]), EntriesOf(v[m]));
    }
  }

  // ----- Reading through a merging iterator -----

  method OpenRuns(runs: seq<seq<Entry>>) returns (children: seq<Cursor>)
    ensures |children| == |runs|
    ensures forall k :: 0 <= k < |runs| ==> children[k].entries == runs[k] && children[k].pos == |runs[k]|
    ensures forall j, k :: 0 <= j < k < |runs| ==> children[j] != children[k]
    ensures forall k :: 0 <= k < |runs| ==> fresh(children[k])
  {
    children := [];
    for i := 0 to |runs|
      invariant |children| == i
      invariant forall k :: 0 <= k < i ==> children[k].entries == runs[k] && children[k].pos == |runs[k]|
      invariant forall j, k :: 0 <= j < k < i ==> children[j] != children[k]
      invariant forall k :: 0 <= k < i ==> fresh(children[k])
    {
      var c := new Cursor(runs[i]);
      children := children + [c];
    }
  }

  /** A merging iterator over the runs, read through from the first entry to the last. */
  method ReadRuns(runs: seq<seq<Entry>>) returns (input: seq<Entry>)
    requires AllSorted(runs)
    ensures input == MergeAll(runs)
  {
    hide AllSorted, MergeAll, Items, Poised, PastKey;
    ghost var all := MergeAll(runs);
    var children := OpenRuns(runs);
    var it := new MergingIterator(children);
    assert it.runs == runs;
    input := [];
    it.SeekToFirst();
    while it.Valid()
      invariant it.Inv() && (it.Valid() ==> it.direction == Forward) && it.At() == |input| <= |all| && input == all[..|input|] && it.Contents() == all
      invariant fresh(it) && forall k :: 0 <= k < |children| ==> fresh(children[k])
      decreases |all| - it.At()
    {
      it.Observed();
      OneMore(all, input, Entry(it.Key(), it.Val()));
      input := input + [Entry(it.Key(), it.Val())];
      it.Next();
      it.Observed();
    }
    it.Observed();
  }

  lemma OneMore(all: seq<Entry>, done: seq<Entry>, e: Entry)
    requires |done| < |all| && done == all[..|done|] && e == all[|done|]
    ensures done + [e] == all[..|done| + 1]
  {
  }
}
