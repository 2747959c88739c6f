/** Version edits, the builder that applies them, and replay of the manifest. */
module Builders {
  import opened Entries
  import opened Versions

  datatype Edit = Edit(
    logNumber: Option<nat>, nextFile: Option<nat>, lastSequence: Option<nat>,
    deleted: set<(nat, nat)>,       // (level, file number)
    added: seq<(nat, File)>)        // (level, file)

  predicate GoodEdit(e: Edit) {
    forall i :: 0 <= i < |e.added| ==> e.added[i].0 < NUM_LEVELS && GoodFile(e.added[i].1)
  }

  // ----- The order of files within a level -----

  // BySmallestKey: smallest key first, ties by file number.
  predicate LessFile(f: File, g: File)
    requires f.entries != [] && g.entries != []
  {
    Before(Smallest(f), Smallest(g)) || (Smallest(f) == Smallest(g) && f.number < g.number)
  }

  predicate SortedFiles(fs: seq<File>)
    requires GoodFiles(fs)
  {
    forall i, j :: 0 <= i < j < |fs| ==> LessFile(fs[i], fs[j])
  }

  function Numbers(fs: seq<File>): set<nat> { set f | f in fs :: f.number }

  // No two files of the list carry the same number.
  predicate Numbered(fs: seq<File>) {
    forall i, j :: 0 <= i < j < |fs| ==> fs[i].number != fs[j].number
  }

  lemma NumberedMembers(fs: seq<File>, f: File, g: File)
    requires Numbered(fs) && f in fs && g in fs && f.number == g.number
    ensures f == g
  {
    var i :| 0 <= i < |fs| && fs[i] == f;
    var j :| 0 <= j < |fs| && fs[j] == g;
  }

  lemma HeadIn(fs: seq<File>)
    requires fs != []
    ensures fs[0] in fs
  {
  }

  // A sorted list is determined by its elements.
  lemma {:induction false} SortedUnique(a: seq<File>, b: seq<File>)
    requires GoodFiles(a) && GoodFiles(b) && SortedFiles(a) && SortedFiles(b)
    requires forall f :: f in a <==> f in b
    ensures a == b
  {
    if a == [] {
      if b != [] { HeadIn(b); }
    } else {
      assert a[0] in a && b != [];
      assert b[0] in b;
      var i :| 0 <= i < |b| && b[i] == a[0];
      var j :| 0 <= j < |a| && a[j] == b[0];
      assert i == 0;
      forall f ensures f in a[1..] <==> f in b[1..] {
        SameTail(a, b, f);
        SameTail(b, a, f);
      }
      SortedUnique(a[1..], b[1..]);
    }
  }

  lemma SameTail(a: seq<File>, b: seq<File>, f: File)
    requires GoodFiles(a) && SortedFiles(a) && a != [] && b != [] && a[0] == b[0]
    requires forall g :: g in a ==> g in b
    ensures f in a[1..] ==> f in b[1..]
  {
    if f in a[1..] {
      var i :| 0 <= i < |a[1..]| && a[1..][i] == f;
      assert LessFile(a[0], a[i + 1]);
      assert a[i + 1] in a;
      var j :| 0 <= j < |b| && b[j] == f;
      assert b[1..][j - 1] == f;
    }
  }

  // ----- One level of the builder -----

  datatype LevelState = LevelState(deleted: set<nat>, added: seq<File>)

  const EMPTY := LevelState({}, [])

  // std::set insertion under BySmallestKey.
  function Insert(fs: seq<File>, f: File): (r: seq<File>)
    requires GoodFiles(fs) && GoodFile(f)
    ensures GoodFiles(r) && |r| <= |fs| + 1
  {
    if fs == [] || LessFile(f, fs[0]) then [f] + fs
    else if LessFile(fs[0], f) then [fs[0]] + Insert(fs[1..], f)
    else fs
  }

  lemma {:induction false} InsertSorts(fs: seq<File>, f: File)
    requires GoodFiles(fs) && GoodFile(f) && SortedFiles(fs)
    requires forall g :: g in fs ==> g.number != f.number
    ensures SortedFiles(Insert(fs, f))
    ensures forall g :: g in Insert(fs, f) <==> g == f || g in fs
  {
    if fs != [] {
      assert fs == [fs[0]] + fs[1..];
      assert fs[0] in fs;
      if LessFile(f, fs[0]) {
        assert forall j :: 1 <= j < |fs| ==> LessFile(fs[0], fs[j]);
      } else {
        InsertSorts(fs[1..], f);
        var r := Insert(fs[1..], f);
        forall j | 0 <= j < |r| ensures LessFile(fs[0], r[j]) {
          assert r[j] in r;
          if r[j] != f {
            var k :| 0 <= k < |fs[1..]| && fs[1..][k] == r[j];
          }
        }
      }
    }
  }

  lemma TailNumbers(fs: seq<File>)
    requires Numbered(fs) && fs != []
    ensures Numbers(fs) == {fs[0].number} + Numbers(fs[1..]) && fs[0].number !in Numbers(fs[1..])
  {
    assert fs == [fs[0]] + fs[1..];
    forall f | f in fs[1..] ensures f.number != fs[0].number {
      var k :| 0 <= k < |fs[1..]| && fs[1..][k] == f;
      assert fs[k + 1] == f;
    }
  }

  function InsertAll(fs: seq<File>, more: seq<File>): (r: seq<File>)
    requires GoodFiles(fs) && GoodFiles(more)
    ensures GoodFiles(r)
    decreases |more|
  {
    if more == [] then fs else InsertAll(Insert(fs, more[0]), more[1..])
  }

  lemma {:induction false} InsertAllSorts(fs: seq<File>, more: seq<File>)
    requires GoodFiles(fs) && GoodFiles(more) && SortedFiles(fs) && Numbered(more)
    requires Numbers(fs) !! Numbers(more)
    ensures SortedFiles(InsertAll(fs, more))
    ensures forall g :: g in InsertAll(fs, more) <==> g in fs || g in more
    decreases |more|
  {
    if more != [] {
      var f := more[0];
      assert more == [f] + more[1..];
      assert f.number in Numbers(more);
      forall g | g in fs ensures g.number != f.number { assert g.number in Numbers(fs); }
      InsertSorts(fs, f);
      TailNumbers(more);
      assert Numbers(Insert(fs, f)) <= Numbers(fs) + {f.number};
      InsertAllSorts(Insert(fs, f), more[1..]);
    }
  }

  function AddedAt(added: seq<(nat, File)>, level: nat): (r: seq<File>)
    ensures forall f :: f in r <==> (level, f) in added
  {
    if added == [] then []
    else if added[0].0 == level then [added[0].1] + AddedAt(added[1..], level)
    else AddedAt(added[1..], level)
  }

  lemma AddedAtGood(e: Edit, level: nat)
    requires GoodEdit(e)
    ensures GoodFiles(AddedAt(e.added, level))
  {
    var r := AddedAt(e.added, level);
    forall i | 0 <= i < |r| ensures GoodFile(r[i]) {
      assert r[i] in r;
      var k :| 0 <= k < |e.added| && e.added[k] == (level, r[i]);
    }
  }

  function DeletedAt(e: Edit, level: nat): set<nat> { set p | p in e.deleted && p.0 == level :: p.1 }

  function ApplyAt(st: LevelState, e: Edit, level: nat): (r: LevelState)
    requires GoodFiles(st.added) && GoodEdit(e)
    ensures GoodFiles(r.added)
  {
    AddedAtGood(e, level);
    var added := AddedAt(e.added, level);
    LevelState(st.deleted + DeletedAt(e, level) - Numbers(added), InsertAll(st.added, added))
  }

  function Keep(f: File, deleted: set<nat>): seq<File> { if f.number in deleted then [] else [f] }

  // Builder::SaveTo for one level: merge the added files into the base files, dropping the deleted.
  function Save(base: seq<File>, st: LevelState): (r: seq<File>)
    requires GoodFiles(base) && GoodFiles(st.added)
    ensures GoodFiles(r)
    decreases |base| + |st.added|
  {
    if base == [] && st.added == [] then []
    else if base != [] && (st.added == [] || !LessFile(st.added[0], base[0])) then
      Keep(base[0], st.deleted) + Save(base[1..], st)
    else
      Keep(st.added[0], st.deleted) + Save(base, st.(added := st.added[1..]))
  }

  lemma {:induction false} SaveMembers(base: seq<File>, st: LevelState)
    requires GoodFiles(base) && GoodFiles(st.added)
    ensures forall f :: f in Save(base, st) <==> (f in base || f in st.added) && f.number !in st.deleted
    decreases |base| + |st.added|
  {
    hide LessFile;
    if base == [] && st.added == [] {
    } else if base != [] && (st.added == [] || !LessFile(st.added[0], base[0])) {
      assert base == [base[0]] + base[1..];
      SaveMembers(base[1..], st);
    } else {
      assert st.added == [st.added[0]] + st.added[1..];
      SaveMembers(base, st.(added := st.added[1..]));
    }
  }

  /** What SaveTo leaves on a level: the base and added files that are not deleted, in order. */
  lemma {:induction false} SaveIsUnion(base: seq<File>, st: LevelState)
    requires GoodFiles(base) && GoodFiles(st.added) && SortedFiles(base) && SortedFiles(st.added)
    requires forall f, g :: f in base && g in st.added ==> f.number != g.number
    ensures SortedFiles(Save(base, st))
    ensures forall f :: f in Save(base, st) <==> (f in base || f in st.added) && f.number !in st.deleted
    decreases |base| + |st.added|
  {
    SaveMembers(base, st);
    if base == [] && st.added == [] {
    } else if base != [] && (st.added == [] || !LessFile(st.added[0], base[0])) {
      HeadIn(base);
      if st.added != [] { HeadIn(st.added); }
      SaveIsUnion(base[1..], st);
      HeadFirst(base[0], base[1..], st.added, Save(base[1..], st));
    } else {
      HeadIn(st.added);
      if base != [] { HeadIn(base); }
      SaveIsUnion(base, st.(added := st.added[1..]));
      HeadFirst(st.added[0], base, st.added[1..], Save(base, st.(added := st.added[1..])));
    }
  }

  lemma HeadFirst(f: File, a: seq<File>, b: seq<File>, r: seq<File>)
    requires GoodFile(f) && GoodFiles(a) && GoodFiles(b) && GoodFiles(r) && SortedFiles(a) && SortedFiles(b) && SortedFiles(r)
    requires a != [] ==> LessFile(f, a[0]) || (f.number != a[0].number && !LessFile(a[0], f))
    requires b != [] ==> LessFile(f, b[0]) || (f.number != b[0].number && !LessFile(b[0], f))
    requires forall g :: g in r ==> g in a || g in b
    ensures SortedFiles([f] + r)
  {
    forall j | 0 <= j < |r| ensures LessFile(f, r[j]) {
      assert r[j] in r;
      if r[j] in a {
        var k :| 0 <= k < |a| && a[k] == r[j];
        if k > 0 { assert LessFile(a[0], a[k]); }
      } else {
        var k :| 0 <= k < |b| && b[k] == r[j];
        if k > 0 { assert LessFile(b[0], b[k]); }
      }
    }
  }

  // ----- Installing edits one at a time, and replaying them through one builder -----

  function Install(base: seq<File>, e: Edit, level: nat): (r: seq<File>)
    requires GoodFiles(base) && GoodEdit(e)
    ensures GoodFiles(r)
  {
    Save(base, ApplyAt(EMPTY, e, level))
  }

  ghost predicate GoodEdits(edits: seq<Edit>) { forall i :: 0 <= i < |edits| ==> GoodEdit(edits[i]) }

  ghost function InstallAll(base: seq<File>, edits: seq<Edit>, level: nat): (r: seq<File>)
    requires GoodFiles(base) && GoodEdits(edits)
    ensures GoodFiles(r)
  {
    if edits == [] then base
    else Install(InstallAll(base, edits[..|edits| - 1], level), edits[|edits| - 1], level)
  }

  ghost function ApplyAll(st: LevelState, edits: seq<Edit>, level: nat): (r: LevelState)
    requires GoodFiles(st.added) && GoodEdits(edits)
    ensures GoodFiles(r.added)
  {
    if edits == [] then st
    else ApplyAt(ApplyAll(st, edits[..|edits| - 1], level), edits[|edits| - 1], level)
  }

  // All file numbers that base or the edits ever put on the level.
  ghost function Used(base: seq<File>, edits: seq<Edit>, level: nat): set<nat> {
    if edits == [] then Numbers(base)
    else Used(base, edits[..|edits| - 1], level) + Numbers(AddedAt(edits[|edits| - 1].added, level))
  }

  // No edit adds to the level a number it has ever held before, or one number twice.
  ghost predicate AddedOnce(base: seq<File>, edits: seq<Edit>, level: nat) {
    edits != [] ==>
      var init, added := edits[..|edits| - 1], AddedAt(edits[|edits| - 1].added, level);
      AddedOnce(base, init, level) && Numbered(added) && Numbers(added) !! Used(base, init, level)
  }

  // Where both ways of applying edits stand after the same edits.
  ghost predicate InStep(base: seq<File>, st: LevelState, now: seq<File>, used: set<nat>)
    requires GoodFiles(base) && GoodFiles(st.added) && GoodFiles(now)
  {
    && SortedFiles(st.added) && SortedFiles(now)
    && Numbers(base) !! Numbers(st.added)
    && Numbers(base) <= used && Numbers(st.added) <= used
    && forall f :: f in now <==> (f in base || f in st.added) && f.number !in st.deleted
  }

  lemma InstallStep(base: seq<File>, st: LevelState, now: seq<File>, used: set<nat>, e: Edit, level: nat)
    requires GoodFiles(base) && GoodFiles(st.added) && GoodFiles(now) && GoodEdit(e) && SortedFiles(base)
    requires InStep(base, st, now, used)
    requires Numbered(AddedAt(e.added, level)) && Numbers(AddedAt(e.added, level)) !! used
    ensures InStep(base, ApplyAt(st, e, level), Install(now, e, level), used + Numbers(AddedAt(e.added, level)))
  {
    var added, st', st1 := AddedAt(e.added, level), ApplyAt(st, e, level), ApplyAt(EMPTY, e, level);
    AddedAtGood(e, level);
    InsertAllSorts(st.added, added);
    InsertAllSorts([], added);
    forall f | f in now ensures f.number in used && f.number !in Numbers(added) {
      if f in base { assert f.number in Numbers(base); } else { assert f.number in Numbers(st.added); }
    }
    forall g | g in st1.added ensures g.number in Numbers(added) {
      assert g in added;
    }
    SaveIsUnion(now, st1);
    forall g | g in st'.added ensures g.number in Numbers(st.added) + Numbers(added) {
      if g in st.added { assert g.number in Numbers(st.added); } else { assert g.number in Numbers(added); }
    }
    forall f ensures f in Install(now, e, level) <==> (f in base || f in st'.added) && f.number !in st'.deleted {
      if f in base { assert f.number in Numbers(base); }
      if f in st.added { assert f.number in Numbers(st.added); }
      if f in added { assert f.number in Numbers(added); }
    }
  }

  lemma {:induction false} StaysInStep(base: seq<File>, edits: seq<Edit>, level: nat)
    requires GoodFiles(base) && SortedFiles(base) && GoodEdits(edits) && AddedOnce(base, edits, level)
    ensures InStep(base, ApplyAll(EMPTY, edits, level), InstallAll(base, edits, level), Used(base, edits, level))
  {
    if edits != [] {
      var init, e := edits[..|edits| - 1], edits[|edits| - 1];
      StaysInStep(base, init, level);
      InstallStep(base, ApplyAll(EMPTY, init, level), InstallAll(base, init, level), Used(base, init, level), e, level);
    }
  }

  /** Manifest replay: applying all edits through a single builder gives each level exactly the
      files obtained by installing the edits one at a time. */
  lemma ReplayIsInstallAll(base: seq<File>, edits: seq<Edit>, level: nat)
    requires GoodFiles(base) && SortedFiles(base) && GoodEdits(edits) && AddedOnce(base, edits, level)
    ensures Save(base, ApplyAll(EMPTY, edits, level)) == InstallAll(base, edits, level)
  {
    StaysInStep(base, edits, level);
    var st := ApplyAll(EMPTY, edits, level);
    forall f, g | f in base && g in st.added ensures f.number != g.number {
      assert f.number in Numbers(base) && g.number in Numbers(st.added);
    }
    SaveIsUnion(base, st);
    SortedUnique(Save(base, st), InstallAll(base, edits, level));
  }

  // ----- Whole versions -----

  predicate GoodVersion(v: Version) {
    |v| == NUM_LEVELS && forall l :: 0 <= l < NUM_LEVELS ==> GoodFiles(v[l])
  }

  const EMPTY_VERSION: Version := [[], [], [], [], [], [], []]

  // The version VersionSet::LogAndApply installs for edit e.
  ghost function InstallVersion(v: Version, e: Edit): (r: Version)
    requires GoodVersion(v) && GoodEdit(e)
    ensures GoodVersion(r) && forall l :: 0 <= l < NUM_LEVELS ==> r[l] == Install(v[l], e, l)
  {
    seq(NUM_LEVELS, l requires 0 <= l < NUM_LEVELS => Install(v[l], e, l))
  }

  // The version VersionSet::Recover rebuilds from the records of a manifest.
  ghost function Replay(edits: seq<Edit>): (r: Version)
    requires GoodEdits(edits)
    ensures GoodVersion(r) && forall l :: 0 <= l < NUM_LEVELS ==> r[l] == Save([], ApplyAll(EMPTY, edits, l))
  {
    seq(NUM_LEVELS, l requires 0 <= l < NUM_LEVELS => Save([], ApplyAll(EMPTY, edits, l)))
  }

  // WriteSnapshot: every file of the version as an added file.
  ghost function SnapshotFrom(v: Version, l: nat): seq<(nat, File)>
    requires GoodVersion(v) && l <= NUM_LEVELS
    decreases NUM_LEVELS - l
  {
    if l == NUM_LEVELS then [] else seq(|v[l]|, i requires 0 <= i < |v[l]| => (l, v[l][i])) + SnapshotFrom(v, l + 1)
  }

  ghost function Snapshot(v: Version): (e: Edit)
    requires GoodVersion(v)
    ensures GoodEdit(e)
  {
    SnapshotIsGood(v, 0);
    Edit(None, None, None, {}, SnapshotFrom(v, 0))
  }

  lemma {:induction false} SnapshotIsGood(v: Version, l: nat)
    requires GoodVersion(v) && l <= NUM_LEVELS
    ensures forall i :: 0 <= i < |SnapshotFrom(v, l)| ==>
      SnapshotFrom(v, l)[i].0 < NUM_LEVELS && GoodFile(SnapshotFrom(v, l)[i].1)
    decreases NUM_LEVELS - l
  {
    if l < NUM_LEVELS { SnapshotIsGood(v, l + 1); }
  }

  lemma {:induction false} AddedAtConcat(a: seq<(nat, File)>, b: seq<(nat, File)>, level: nat)
    ensures AddedAt(a + b, level) == AddedAt(a, level) + AddedAt(b, level)
  {
    if a == [] {
      assert a + b == b;
    } else {
      assert (a + b)[1..] == a[1..] + b;
      AddedAtConcat(a[1..], b, level);
    }
  }

  lemma {:induction false} AddedAtOneLevel(fs: seq<File>, l: nat, level: nat)
    ensures AddedAt(seq(|fs|, i requires 0 <= i < |fs| => (l, fs[i])), level) == if l == level then fs else []
  {
    var a := seq(|fs|, i requires 0 <= i < |fs| => (l, fs[i]));
    if fs != [] {
      assert a[1..] == seq(|fs[1..]|, i requires 0 <= i < |fs[1..]| => (l, fs[1..][i]));
      AddedAtOneLevel(fs[1..], l, level);
    }
  }

  lemma {:induction false} SnapshotHoldsLevel(v: Version, l: nat, level: nat)
    requires GoodVersion(v) && l <= NUM_LEVELS && level < NUM_LEVELS
    ensures AddedAt(SnapshotFrom(v, l), level) == if l <= level then v[level] else []
    decreases NUM_LEVELS - l
  {
    if l < NUM_LEVELS {
      SnapshotHoldsLevel(v, l + 1, level);
      AddedAtOneLevel(v[l], l, level);
      AddedAtConcat(seq(|v[l]|, i requires 0 <= i < |v[l]| => (l, v[l][i])), SnapshotFrom(v, l + 1), level);
    }
  }

  /** A manifest that holds only a snapshot record replays to the version it was taken of. */
  lemma SnapshotRestores(v: Version)
    requires GoodVersion(v) && forall l :: 0 <= l < NUM_LEVELS ==> SortedFiles(v[l]) && Numbered(v[l])
    ensures Replay([Snapshot(v)]) == v
  {
    var e := Snapshot(v);
    forall l | 0 <= l < NUM_LEVELS ensures Save([], ApplyAll(EMPTY, [e], l)) == v[l] {
      SnapshotHoldsLevel(v, 0, l);
      assert [e][..0] == [];
      InsertAllSorts([], v[l]);
      SaveIsUnion([], ApplyAt(EMPTY, e, l));
      SortedUnique(Save([], ApplyAt(EMPTY, e, l)), v[l]);
    }
  }

  // ----- The builder object -----

  class Builder {
    const base: Version
    var levels: seq<LevelState>

    constructor (v: Version)
      requires GoodVersion(v)
      ensures base == v && Ok() && forall l :: 0 <= l < NUM_LEVELS ==> levels[l] == EMPTY
    {
      base := v;
      levels := seq(NUM_LEVELS, l => EMPTY);
    }

    predicate Ok() reads this {
      GoodVersion(base) && |levels| == NUM_LEVELS && forall l :: 0 <= l < NUM_LEVELS ==> GoodFiles(levels[l].added)
    }

    method Apply(e: Edit)
      requires Ok() && GoodEdit(e)
      modifies this
      ensures Ok() && forall l :: 0 <= l < NUM_LEVELS ==> levels[l] == ApplyAt(old(levels[l]), e, l)
    {
      hide Partial, GoodEdit, ApplyAt, AddedAt;
      assert forall i :: 0 <= i < |e.added| ==> e.added[i].0 < NUM_LEVELS && GoodFile(e.added[i].1) by { FilesOf(e); }
      var before := levels;
      levels := seq(NUM_LEVELS, l requires 0 <= l < NUM_LEVELS =>
        LevelState(before[l].deleted + DeletedAt(e, l), before[l].added));
      forall l | 0 <= l < NUM_LEVELS ensures levels[l] == Partial(before[l], e, 0, l) { PartialStarts(before[l], e, l); }
      for i := 0 to |e.added|
        invariant Ok() && forall l :: 0 <= l < NUM_LEVELS ==> levels[l] == Partial(before[l], e, i, l)
      {
        var level, f := e.added[i].0, e.added[i].1;
        var st := levels[level];
        forall l | 0 <= l < NUM_LEVELS ensures Partial(before[l], e, i + 1, l) ==
          (if l == level then LevelState(st.deleted - {f.number}, Insert(st.added, f)) else levels[l])
        {
          PartialSteps(before[l], e, i, l);
        }
        levels := levels[level := LevelState(st.deleted - {f.number}, Insert(st.added, f))];
      }
      forall l | 0 <= l < NUM_LEVELS ensures levels[l] == ApplyAt(before[l], e, l) { PartialEnds(before[l], e, l); }
    }

    method SaveTo() returns (v: Version)
      requires Ok()
      ensures GoodVersion(v) && forall l :: 0 <= l < NUM_LEVELS ==> v[l] == Save(base[l], levels[l])
    {
      v := [];
      for level := 0 to NUM_LEVELS
        invariant |v| == level && forall l :: 0 <= l < level ==> v[l] == Save(base[l], levels[l])
      {
        var files := SaveLevel(base[level], levels[level]);
        v := v + [files];
      }
    }
  }

  lemma FilesOf(e: Edit)
    requires GoodEdit(e)
    ensures forall i :: 0 <= i < |e.added| ==> e.added[i].0 < NUM_LEVELS && GoodFile(e.added[i].1)
  {
  }

  // A level once the deletions and the first n additions of an edit are in.
  ghost function Partial(st: LevelState, e: Edit, n: nat, level: nat): LevelState
    requires GoodFiles(st.added) && GoodEdit(e) && n <= |e.added|
  {
    var added := AddedAt(e.added[..n], level);
    PrefixGood(e, n, level);
    LevelState(st.deleted + DeletedAt(e, level) - Numbers(added), InsertAll(st.added, added))
  }

  lemma PrefixGood(e: Edit, n: nat, level: nat)
    requires GoodEdit(e) && n <= |e.added|
    ensures GoodFiles(AddedAt(e.added[..n], level))
  {
    AddedAtGood(e.(added := e.added[..n]), level);
  }

  lemma PartialStarts(st: LevelState, e: Edit, level: nat)
    requires GoodFiles(st.added) && GoodEdit(e)
    ensures Partial(st, e, 0, level) == LevelState(st.deleted + DeletedAt(e, level), st.added)
  {
    assert AddedAt(e.added[..0], level) == [];
  }

  lemma PartialEnds(st: LevelState, e: Edit, level: nat)
    requires GoodFiles(st.added) && GoodEdit(e)
    ensures Partial(st, e, |e.added|, level) == ApplyAt(st, e, level)
  {
    assert e.added[..|e.added|] == e.added;
  }

  lemma PartialSteps(st: LevelState, e: Edit, n: nat, level: nat)
    requires GoodFiles(st.added) && GoodEdit(e) && n < |e.added|
    ensures var p, f := Partial(st, e, n, level), e.added[n].1;
      && GoodFiles(p.added) && GoodFile(f)
      && Partial(st, e, n + 1, level) ==
           if e.added[n].0 == level then LevelState(p.deleted - {f.number}, Insert(p.added, f)) else p
  {
    var l, f, added := e.added[n].0, e.added[n].1, AddedAt(e.added[..n], level);
    assert e.added[..n + 1] == e.added[..n] + [(l, f)];
    AddedAtConcat(e.added[..n], [(l, f)], level);
    assert [(l, f)][1..] == [] && AddedAt([], level) == [];
    PrefixGood(e, n, level);
    if l == level {
      InsertAllSnoc(st.added, added, f);
      assert Numbers(added + [f]) == Numbers(added) + {f.number};
      assert AddedAt([(l, f)], level) == [f];
    } else {
      assert AddedAt([(l, f)], level) == [] && added + [] == added;
    }
  }

  method SaveLevel(base: seq<File>, st: LevelState) returns (files: seq<File>)
    requires GoodFiles(base) && GoodFiles(st.added)
    ensures files == Save(base, st)
  {
    hide Save;
    files := [];
    var b, a := 0, 0;
    while a < |st.added|
      invariant a <= |st.added| && b <= |base|
      invariant files + Save(base[b..], LevelState(st.deleted, st.added[a..])) == Save(base, st)
    {
      // all base files up to the upper bound of the next added file
      while b < |base| && !LessFile(st.added[a], base[b])
        invariant b <= |base|
        invariant files + Save(base[b..], LevelState(st.deleted, st.added[a..])) == Save(base, st)
      {
        TakeBase(base, b, st, a);
        files := files + Keep(base[b], st.deleted);
        b := b + 1;
      }
      TakeAdded(base, b, st, a);
      files := files + Keep(st.added[a], st.deleted);
      a := a + 1;
    }
    while b < |base|
      invariant b <= |base|
      invariant files + Save(base[b..], LevelState(st.deleted, st.added[a..])) == Save(base, st)
    {
      TakeBase(base, b, st, a);
      files := files + Keep(base[b], st.deleted);
      b := b + 1;
    }
    SaveNothing(base, st);
  }

  lemma TakeBase(base: seq<File>, b: nat, st: LevelState, a: nat)
    requires GoodFiles(base) && GoodFiles(st.added) && b < |base| && a <= |st.added|
    requires a < |st.added| ==> !LessFile(st.added[a], base[b])
    ensures Save(base[b..], LevelState(st.deleted, st.added[a..])) ==
      Keep(base[b], st.deleted) + Save(base[b + 1..], LevelState(st.deleted, st.added[a..]))
  {
    assert base[b..][1..] == base[b + 1..];
  }

  lemma TakeAdded(base: seq<File>, b: nat, st: LevelState, a: nat)
    requires GoodFiles(base) && GoodFiles(st.added) && b <= |base| && a < |st.added|
    requires b < |base| ==> LessFile(st.added[a], base[b])
    ensures Save(base[b..], LevelState(st.deleted, st.added[a..])) ==
      Keep(st.added[a], st.deleted) + Save(base[b..], LevelState(st.deleted, st.added[a + 1..]))
  {
    assert st.added[a..][1..] == st.added[a + 1..];
  }

  lemma SaveNothing(base: seq<File>, st: LevelState)
    requires GoodFiles(base) && GoodFiles(st.added)
    ensures Save(base[|base|..], LevelState(st.deleted, st.added[|st.added|..])) == []
  {
  }

  lemma {:induction false} InsertAllSnoc(fs: seq<File>, more: seq<File>, f: File)
    requires GoodFiles(fs) && GoodFiles(more) && GoodFile(f)
    ensures InsertAll(fs, more + [f]) == Insert(InsertAll(fs, more), f)
    decreases |more|
  {
    if more == [] {
      assert [f][1..] == [];
    } else {
      assert (more + [f])[1..] == more[1..] + [f];
      InsertAllSnoc(Insert(fs, more[0]), more[1..], f);
    }
  }
}
