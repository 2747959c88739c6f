/** Table files, versions (seven levels of files) and point lookup in them. */
module Versions {
  import opened Entries

  const NUM_LEVELS: nat := 7

  // A table file together with its FileMetaData; the smallest and largest keys recorded
  // there are those of its first and last entries.
  datatype File = File(number: nat, size: nat, entries: seq<Entry>)

  type Version = seq<seq<File>>

  predicate GoodFile(f: File) {
    && f.entries != [] && Sorted(f.entries)
    && forall i :: 0 <= i < |f.entries| ==> f.entries[i].key.Parses()
  }

  function Smallest(f: File): IKey
    requires f.entries != []
  {
    f.entries[0].key
  }

  function Largest(f: File): IKey
    requires f.entries != []
  {
    f.entries[|f.entries| - 1].key
  }

  lemma WithinFile(f: File, e: Entry)
    requires GoodFile(f) && e in f.entries
    ensures !Before(e.key, Smallest(f)) && !Before(Largest(f), e.key)
    ensures Smallest(f).user <= e.key.user <= Largest(f).user
  {
    var i :| 0 <= i < |f.entries| && f.entries[i] == e;
    Ordered(f.entries, 0, i);
    Ordered(f.entries, i, |f.entries| - 1);
  }

  predicate GoodFiles(fs: seq<File>) { forall i :: 0 <= i < |fs| ==> GoodFile(fs[i]) }

  // Levels 1 and up: sorted, with disjoint ranges of internal keys.
  predicate Disjoint(fs: seq<File>)
    requires GoodFiles(fs)
  {
    forall i, j :: 0 <= i < j < |fs| ==> Before(Largest(fs[i]), Smallest(fs[j]))
  }

  ghost function EntriesOf(fs: seq<File>): set<Entry> { set f, e | f in fs && e in f.entries :: e }

  // For every user key, the entries of a are newer than those of b.
  ghost predicate Newer(a: set<Entry>, b: set<Entry>) {
    forall e, f :: e in a && f in b && e.key.user == f.key.user ==> e.key.sn > f.key.sn
  }

  // Level-0 files may overlap; a higher number means newer entries.
  ghost predicate NewestFirst(fs: seq<File>) {
    && (forall i, j :: 0 <= i < j < |fs| ==> fs[i].number != fs[j].number)
    && forall f, g :: f in fs && g in fs && f.number > g.number ==> Newer(Elements(f.entries), Elements(g.entries))
  }

  /** The invariant of every version the engine installs. */
  ghost predicate LevelOrder(v: Version) {
    && |v| == NUM_LEVELS
    && (forall l :: 0 <= l < |v| ==> GoodFiles(v[l]))
    && (forall l :: 1 <= l < |v| ==> Disjoint(v[l]))
    && NewestFirst(v[0])
    && forall l, m :: 0 <= l < m < |v| ==> Newer(EntriesOf(v[l]), EntriesOf(v[m]))
  }

  ghost function VersionEntries(v: Version): set<Entry> { set l, e | 0 <= l < |v| && e in EntriesOf(v[l]) :: e }

  // ----- Looking a key up in one sorted run -----

  datatype Option<+T> = None | Some(value: T)

  // The first entry at or after (u, s), provided it belongs to u: what MemTable::Get and
  // Table::InternalGet report.
  function Lookup(es: seq<Entry>, u: UserKey, s: nat): Option<Entry> {
    if es == [] then None
    else if Before(es[0].key, IKey(u, s, TYPE_FOR_SEEK)) then Lookup(es[1..], u, s)
    else if es[0].key.user == u then Some(es[0])
    else None
  }

  /** A lookup finds exactly the newest entry visible at s. */
  lemma {:induction false} LookupIsNewest(es: seq<Entry>, u: UserKey, s: nat)
    requires Sorted(es) && forall i :: 0 <= i < |es| ==> es[i].key.Parses()
    ensures Lookup(es, u, s).Some? ==> Newest(Elements(es), u, s, Lookup(es, u, s).value)
    ensures Lookup(es, u, s).None? ==> forall e :: e in es && e.key.user == u ==> e.key.sn > s
  {
    if es != [] {
      assert es == [es[0]] + es[1..];
      assert forall e :: e in es <==> e == es[0] || e in es[1..];
      if Before(es[0].key, IKey(u, s, TYPE_FOR_SEEK)) {
        LookupIsNewest(es[1..], u, s);
      } else {
        forall e | e in es[1..] ensures Before(es[0].key, e.key) {
          var i :| 0 <= i < |es[1..]| && es[1..][i] == e;
          Ordered(es, 0, i + 1);
        }
      }
    }
  }

  // ----- FindFile -----

  // Where a binary search for a file ending at or after `key` ends up.
  function FindFrom(files: seq<File>, key: IKey, left: nat, right: nat): (r: nat)
    requires GoodFiles(files) && left <= right <= |files|
    ensures left <= r <= right
    decreases right - left
  {
    if left == right then right
    else
      var mid := (left + right) / 2;
      if Before(Largest(files[mid]), key) then FindFrom(files, key, mid + 1, right) else FindFrom(files, key, left, mid)
  }

  /** On disjoint files in order it is the first such file. */
  lemma {:induction false} FindFromIsFirst(files: seq<File>, key: IKey, left: nat, right: nat)
    requires GoodFiles(files) && Disjoint(files) && left <= right <= |files|
    requires forall i :: 0 <= i < left ==> Before(Largest(files[i]), key)
    requires forall i :: right <= i < |files| ==> !Before(Largest(files[i]), key)
    ensures forall i :: 0 <= i < FindFrom(files, key, left, right) ==> Before(Largest(files[i]), key)
    ensures forall i :: FindFrom(files, key, left, right) <= i < |files| ==> !Before(Largest(files[i]), key)
    decreases right - left
  {
    if left < right {
      var mid := (left + right) / 2;
      if Before(Largest(files[mid]), key) {
        forall i | 0 <= i < mid ensures Before(Largest(files[i]), key) {
          LargestAscends(files, i, mid);
        }
        FindFromIsFirst(files, key, mid + 1, right);
      } else {
        forall i | mid < i < |files| ensures !Before(Largest(files[i]), key) {
          LargestAscends(files, mid, i);
        }
        FindFromIsFirst(files, key, left, mid);
      }
    }
  }

  method FindFile(files: seq<File>, key: IKey) returns (r: nat)
    requires GoodFiles(files)
    ensures r == FindFrom(files, key, 0, |files|)
  {
    hide Before, Sorted;
    var left: nat, right: nat := 0, |files|;
    while left < right
      invariant left <= right <= |files| && FindFrom(files, key, left, right) == FindFrom(files, key, 0, |files|)
    {
      var mid := (left + right) / 2;
      if Before(Largest(files[mid]), key) {
        left := mid + 1;
      } else {
        right := mid;
      }
    }
    r := right;
  }

  lemma LargestAscends(files: seq<File>, i: nat, j: nat)
    requires GoodFiles(files) && Disjoint(files) && i < j < |files|
    ensures Before(Largest(files[i]), Largest(files[j]))
  {
    Ordered(files[j].entries, 0, |files[j].entries| - 1);
  }

  // ----- Version::Get -----

  // Overlapping level-0 files, newest (highest number) first.
  ghost predicate Descending(fs: seq<File>) {
    forall i, j :: 0 <= i < j < |fs| ==> fs[i].number > fs[j].number
  }

  // std::sort(tmp, NewestFirst), kept sorted as files are collected.
  function InsertNewestFirst(fs: seq<File>, f: File): (r: seq<File>)
    requires Descending(fs) && forall g :: g in fs ==> g.number != f.number
    ensures Descending(r) && forall g :: g in r <==> g == f || g in fs
  {
    if fs == [] || fs[0].number < f.number then
      HeadDescends(f, fs);
      [f] + fs
    else
      assert fs == [fs[0]] + fs[1..];
      var r := InsertNewestFirst(fs[1..], f);
      HeadDescends(fs[0], r);
      [fs[0]] + r
  }

  lemma HeadDescends(f: File, fs: seq<File>)
    requires Descending(fs) && forall g :: g in fs ==> g.number < f.number
    ensures Descending([f] + fs)
  {
    forall i | 0 <= i < |fs| ensures fs[i].number < f.number {
      assert fs[i] in fs;
    }
  }

  // What a search of some files yields: the newest visible entry among them, if any.
  ghost predicate Answers(es: set<Entry>, u: UserKey, s: nat, r: Option<Entry>) {
    match r
    case Some(e) => Newest(es, u, s, e)
    case None => forall e :: e in es && e.key.user == u ==> e.key.sn > s
  }

  lemma FileAnswers(f: File, u: UserKey, s: nat)
    requires GoodFile(f)
    ensures Answers(Elements(f.entries), u, s, Lookup(f.entries, u, s))
  {
    LookupIsNewest(f.entries, u, s);
  }

  method SearchLevel0(fs: seq<File>, u: UserKey, s: nat) returns (r: Option<Entry>)
    requires GoodFiles(fs) && NewestFirst(fs)
    ensures Answers(EntriesOf(fs), u, s, r)
  {
    var tmp: seq<File> := [];
    for i := 0 to |fs|
      invariant Descending(tmp)
      invariant forall g :: g in tmp <==> g in fs[..i] && Smallest(g).user <= u <= Largest(g).user
    {
      if Smallest(fs[i]).user <= u <= Largest(fs[i]).user {
        tmp := InsertNewestFirst(tmp, fs[i]);
      }
    }
    assert fs[..|fs|] == fs;
    for i := 0 to |tmp|
      invariant forall k :: 0 <= k < i ==> Answers(Elements(tmp[k].entries), u, s, None)
    {
      r := Lookup(tmp[i].entries, u, s);
      assert tmp[i] in tmp && tmp[i] in fs;
      FileAnswers(tmp[i], u, s);
      if r.Some? {
        Level0Answer(fs, tmp, i, u, s, r);
        return;
      }
    }
    forall e | e in EntriesOf(fs) && e.key.user == u ensures e.key.sn > s {
      var f :| f in fs && e in f.entries;
      WithinFile(f, e);
      assert f in tmp && e in Elements(f.entries);
    }
    r := None;
  }

  lemma Level0Answer(fs: seq<File>, tmp: seq<File>, i: nat, u: UserKey, s: nat, r: Option<Entry>)
    requires GoodFiles(fs) && NewestFirst(fs) && Descending(tmp) && i < |tmp|
    requires forall g :: g in tmp <==> g in fs && Smallest(g).user <= u <= Largest(g).user
    requires forall k :: 0 <= k < i ==> Answers(Elements(tmp[k].entries), u, s, None)
    requires r.Some? && Answers(Elements(tmp[i].entries), u, s, r)
    ensures Answers(EntriesOf(fs), u, s, r)
  {
    hide Newer, NewestFirst, Descending, Sorted, Before, Lookup;
    assert tmp[i] in tmp && r.value in EntriesOf(fs);
    forall e | e in EntriesOf(fs) && e.key.user == u && e.key.sn <= s ensures e.key.sn <= r.value.key.sn {
      var f :| f in fs && e in f.entries;
      WithinFile(f, e);
      Level0NotNewer(fs, tmp, i, u, s, r.value, f, e);
    }
  }

  lemma Level0NotNewer(fs: seq<File>, tmp: seq<File>, i: nat, u: UserKey, s: nat, r: Entry, f: File, e: Entry)
    requires NewestFirst(fs) && Descending(tmp) && i < |tmp| && tmp[i] in fs
    requires forall k :: 0 <= k < i ==> Answers(Elements(tmp[k].entries), u, s, None)
    requires Answers(Elements(tmp[i].entries), u, s, Some(r))
    requires f in fs && f in tmp && e in f.entries && e.key.user == u && e.key.sn <= s
    ensures e.key.sn <= r.key.sn
  {
    hide Sorted, Before, Lookup, GoodFile;
    var k :| 0 <= k < |tmp| && tmp[k] == f;
    assert e in Elements(f.entries) && k >= i;
    if k > i {
      assert Newer(Elements(tmp[i].entries), Elements(f.entries));
    }
  }

  // A lookup in the one file the search comes to.
  function LevelLookup(fs: seq<File>, u: UserKey, s: nat): Option<Entry>
    requires GoodFiles(fs)
  {
    var index := FindFrom(fs, IKey(u, s, TYPE_FOR_SEEK), 0, |fs|);
    if index >= |fs| || u < Smallest(fs[index]).user then None else Lookup(fs[index].entries, u, s)
  }

  method SearchLevel(fs: seq<File>, u: UserKey, s: nat) returns (r: Option<Entry>)
    requires GoodFiles(fs)
    ensures r == LevelLookup(fs, u, s)
    ensures Disjoint(fs) ==> Answers(EntriesOf(fs), u, s, r)
  {
    var target := IKey(u, s, TYPE_FOR_SEEK);
    var index := FindFile(fs, target);
    if index >= |fs| || u < Smallest(fs[index]).user {
      r := None;
    } else {
      r := Lookup(fs[index].entries, u, s);
    }
    if Disjoint(fs) {
      FindFromIsFirst(fs, target, 0, |fs|);
      OneFileAnswers(fs, index, u, s, r);
    }
  }

  // Only the first file ending at or after (u, s) can hold the newest visible entry of u.
  lemma OneFileAnswers(fs: seq<File>, index: nat, u: UserKey, s: nat, r: Option<Entry>)
    requires GoodFiles(fs) && Disjoint(fs) && index <= |fs|
    requires forall i :: 0 <= i < index ==> Before(Largest(fs[i]), IKey(u, s, TYPE_FOR_SEEK))
    requires index < |fs| ==> !Before(Largest(fs[index]), IKey(u, s, TYPE_FOR_SEEK))
    requires r == if index < |fs| && Smallest(fs[index]).user <= u then Lookup(fs[index].entries, u, s) else None
    ensures Answers(EntriesOf(fs), u, s, r)
  {
    forall e | e in EntriesOf(fs) && e.key.user == u && e.key.sn <= s
      ensures r.Some? && e.key.sn <= r.value.key.sn
    {
      var f :| f in fs && e in f.entries;
      var i :| 0 <= i < |fs| && fs[i] == f;
      WithinFile(f, e);
      assert f.entries != [] && e.key.Parses();
      assert index <= i < |fs|;
      LookupIsNewest(fs[index].entries, u, s);
      if index < i {
        assert Before(Largest(fs[index]), Smallest(fs[i]));
        var last := fs[index].entries[|fs[index].entries| - 1];
        assert last in fs[index].entries && last in Elements(fs[index].entries);
        WithinFile(fs[index], last);
        assert last.key.user == u && last.key.sn <= s && e.key.sn <= last.key.sn;
      } else {
        assert e in Elements(fs[index].entries);
      }
    }
    if r.Some? {
      LookupIsNewest(fs[index].entries, u, s);
      assert fs[index] in fs && r.value in fs[index].entries;
    }
  }

  method VersionGet(v: Version, u: UserKey, s: nat) returns (r: Option<Entry>)
    requires LevelOrder(v)
    ensures Answers(VersionEntries(v), u, s, r)
  {
    r := None;
    for level := 0 to NUM_LEVELS
      invariant r.None? && forall l :: 0 <= l < level ==> Answers(EntriesOf(v[l]), u, s, None)
    {
      if level == 0 {
        r := SearchLevel0(v[0], u, s);
      } else {
        r := SearchLevel(v[level], u, s);
      }
      if r.Some? {
        forall e | e in VersionEntries(v) && e.key.user == u && e.key.sn <= s ensures e.key.sn <= r.value.key.sn {
          var l :| 0 <= l < |v| && e in EntriesOf(v[l]);
          if l > level { assert Newer(EntriesOf(v[level]), EntriesOf(v[l])); }
        }
        return;
      }
    }
  }
}
