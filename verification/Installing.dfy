/** What installing an edit does to each level, and how the manifest keeps pace. */
module Installing {
  import opened Versions
  import opened Builders
  import opened Levels

  lemma NumberedFromSets(fs: seq<File>)
    requires GoodFiles(fs) && SortedFiles(fs)
    requires forall f, g :: f in fs && g in fs && f.number == g.number ==> f == g
    ensures Numbered(fs)
  {
    forall i, j | 0 <= i < j < |fs| ensures fs[i].number != fs[j].number {
      assert fs[i] in fs && fs[j] in fs && LessFile(fs[i], fs[j]);
    }
  }

  // One level after an edit that adds only numbers new to the level.
  lemma InstallLevel(base: seq<File>, e: Edit, l: nat)
    requires GoodFiles(base) && SortedFiles(base) && Numbered(base) && GoodEdit(e)
    requires Numbered(AddedAt(e.added, l)) && Numbers(AddedAt(e.added, l)) !! Numbers(base)
    ensures var r := Install(base, e, l);
      && SortedFiles(r) && Numbered(r)
      && forall f :: f in r <==> (f in base && f.number !in DeletedAt(e, l)) || f in AddedAt(e.added, l)
  {
    var added, st, r := AddedAt(e.added, l), ApplyAt(EMPTY, e, l), Install(base, e, l);
    AddedAtGood(e, l);
    InsertAllSorts([], added);
    forall f | f in base ensures f.number in Numbers(base) {}
    forall f | f in added ensures f.number in Numbers(added) {}
    SaveIsUnion(base, st);
    forall f, g | f in r && g in r && f.number == g.number ensures f == g {
      if f in base && g in base {
        NumberedMembers(base, f, g);
      } else if f in added && g in added {
        NumberedMembers(added, f, g);
      }
    }
    NumberedFromSets(r);
  }

  lemma InstallNothing(base: seq<File>, e: Edit, l: nat)
    requires GoodFiles(base) && SortedFiles(base) && Numbered(base) && GoodEdit(e)
    requires AddedAt(e.added, l) == [] && DeletedAt(e, l) == {}
    ensures Install(base, e, l) == base
  {
    InstallLevel(base, e, l);
    SortedUnique(Install(base, e, l), base);
  }

  // AddFile(level, f) for every output.
  function AddAll(level: nat, outs: seq<File>): seq<(nat, File)> {
    seq(|outs|, i requires 0 <= i < |outs| => (level, outs[i]))
  }

  // AddInputDeletions.
  function InputDeletions(level: nat, in0: seq<File>, in1: seq<File>): set<(nat, nat)> {
    (set f | f in in0 :: (level, f.number)) + (set f | f in in1 :: (level + 1, f.number))
  }

  lemma DeletionsAt(e: Edit, level: nat, in0: seq<File>, in1: seq<File>)
    requires e.deleted == InputDeletions(level, in0, in1)
    ensures DeletedAt(e, level) == Numbers(in0) && DeletedAt(e, level + 1) == Numbers(in1)
    ensures forall l: nat :: l != level && l != level + 1 ==> DeletedAt(e, l) == {}
  {
    forall n | n in Numbers(in0) ensures n in DeletedAt(e, level) { assert (level, n) in e.deleted; }
    forall n | n in Numbers(in1) ensures n in DeletedAt(e, level + 1) { assert (level + 1, n) in e.deleted; }
  }

  // Deleting inputs by number deletes exactly the input files.
  lemma ByNumber(fs: seq<File>, picked: seq<File>, f: File)
    requires Numbered(fs) && (forall g :: g in picked ==> g in fs) && f in fs
    ensures f.number in Numbers(picked) <==> f in picked
  {
    if f.number in Numbers(picked) {
      var g :| g in picked && g.number == f.number;
      NumberedMembers(fs, f, g);
    }
  }

  /** Installing the edit of a compaction (or trivial move) moves files as intended. */
  lemma InstallIsMoved(v: Version, e: Edit, level: nat, in0: seq<File>, in1: seq<File>, outs: seq<File>)
    requires GoodVersion(v) && Tidy(v) && GoodEdit(e) && level + 1 < NUM_LEVELS
    requires InputFiles(v, level, in0, in1)
    requires e.deleted == InputDeletions(level, in0, in1) && e.added == AddAll(level + 1, outs)
    requires Numbered(outs) && Numbers(outs) !! Numbers(v[level + 1])
    ensures Moved(v, InstallVersion(v, e), level, in0, in1, outs)
  {
    var v' := InstallVersion(v, e);
    DeletionsAt(e, level, in0, in1);
    forall l | 0 <= l < NUM_LEVELS ensures SortedFiles(v'[l]) && Numbered(v'[l]) {
      AddedAtOneLevel(outs, level + 1, l);
      InstallLevel(v[l], e, l);
    }
    forall l | 0 <= l < NUM_LEVELS && l != level && l != level + 1 ensures v'[l] == v[l] {
      AddedAtOneLevel(outs, level + 1, l);
      InstallNothing(v[l], e, l);
    }
    AddedAtOneLevel(outs, level + 1, level);
    InstallLevel(v[level], e, level);
    forall f ensures f in v'[level] <==> f in v[level] && f !in in0 {
      if f in v[level] { ByNumber(v[level], in0, f); }
    }
    AddedAtOneLevel(outs, level + 1, level + 1);
    InstallLevel(v[level + 1], e, level + 1);
    forall f ensures f in v'[level + 1] <==> (f in v[level + 1] && f !in in1) || f in outs {
      if f in v[level + 1] { ByNumber(v[level + 1], in1, f); }
    }
  }

  /** Installing an edit that only adds files to one level. */
  lemma InstallIsAdded(v: Version, e: Edit, level: nat, fs: seq<File>)
    requires GoodVersion(v) && Tidy(v) && GoodEdit(e) && level < NUM_LEVELS
    requires e.deleted == {} && e.added == AddAll(level, fs)
    requires Numbered(fs) && Numbers(fs) !! Numbers(v[level])
    ensures AddedFiles(v, InstallVersion(v, e), level, fs)
  {
    var v' := InstallVersion(v, e);
    forall l | 0 <= l < NUM_LEVELS ensures SortedFiles(v'[l]) && Numbered(v'[l]) && DeletedAt(e, l) == {} {
      AddedAtOneLevel(fs, level, l);
      InstallLevel(v[l], e, l);
    }
    forall l | 0 <= l < NUM_LEVELS && l != level ensures v'[l] == v[l] {
      AddedAtOneLevel(fs, level, l);
      InstallNothing(v[l], e, l);
    }
    AddedAtOneLevel(fs, level, level);
    InstallLevel(v[level], e, level);
  }

  // ----- The manifest -----

  // Numbers of the files a manifest ever put on a level.
  ghost function UsedAt(manifest: seq<Edit>, l: nat): set<nat> { Used([], manifest, l) }

  /** The manifest replays to v, no number was added twice to a level, all are below `next`, and
      no file's number was ever used on a deeper level than the one it is on. */
  ghost predicate Recorded(v: Version, manifest: seq<Edit>, next: nat)
    requires GoodVersion(v)
  {
    && GoodEdits(manifest) && Replay(manifest) == v && Tidy(v)
    && (forall l :: 0 <= l < NUM_LEVELS ==> AddedOnce([], manifest, l) && forall n :: n in UsedAt(manifest, l) ==> n < next)
    && (forall l, m, f :: 0 <= l < m < NUM_LEVELS && f in v[l] ==> f.number !in UsedAt(manifest, m))
    && (forall l, f :: 0 <= l < NUM_LEVELS && f in v[l] ==> f.number in UsedAt(manifest, l))
  }

  // Logging an edit and installing it keep pace.
  lemma ReplayAppend(v: Version, manifest: seq<Edit>, e: Edit)
    requires GoodVersion(v) && GoodEdits(manifest) && Replay(manifest) == v && GoodEdit(e)
    requires forall l :: 0 <= l < NUM_LEVELS ==> AddedOnce([], manifest, l)
    requires forall l :: 0 <= l < NUM_LEVELS ==>
      Numbered(AddedAt(e.added, l)) && Numbers(AddedAt(e.added, l)) !! UsedAt(manifest, l)
    ensures GoodEdits(manifest + [e]) && Replay(manifest + [e]) == InstallVersion(v, e)
    ensures forall l :: 0 <= l < NUM_LEVELS ==> AddedOnce([], manifest + [e], l)
    ensures forall l :: 0 <= l < NUM_LEVELS ==>
      UsedAt(manifest + [e], l) == UsedAt(manifest, l) + Numbers(AddedAt(e.added, l))
  {
    var all := manifest + [e];
    assert all[..|all| - 1] == manifest && all[|all| - 1] == e;
    forall l | 0 <= l < NUM_LEVELS
      ensures AddedOnce([], all, l) && Save([], ApplyAll(EMPTY, all, l)) == Install(v[l], e, l)
    {
      ReplayIsInstallAll([], manifest, l);
      ReplayIsInstallAll([], all, l);
    }
  }
}
