/** Two ways a compaction can go wrong in the engine as written, and exactly when it does not. */
module UnsafeCompactions {
  import opened Entries
  import opened Versions
  import opened Selection
  import opened Builders
  import opened Compactions
  import opened DropRules
  import opened Levels
  import opened Installing
  import opened Engine

  // ----- A boundary file left out on the output level -----

  // g was left alone on the output level although it starts on h's last user key, after it.
  predicate LeftOutBoundary(v: Version, level: nat, in0: seq<File>, in1: seq<File>, h: File, g: File)
    requires GoodVersion(v) && level + 1 < NUM_LEVELS
  {
    && (h in in0 || h in in1) && g in v[level + 1] && g !in in1
    && h.entries != [] && g.entries != [] && Boundary(g, Largest(h))
  }

  // An entry outside the inputs no newer than an input entry of the same user key, at a key
  // with no data below the output level, lies behind a left-out boundary file.
  lemma OlderLeftOut(v: Version, level: nat, in0: seq<File>, in1: seq<File>, l: nat, g: File, e: Entry, h: File, d: Entry)
    requires LevelOrder(v) && GoodVersion(v) && Distinct(VersionEntries(v)) && level + 1 < NUM_LEVELS && GoodInputs(v, level, in0, in1)
    requires l < NUM_LEVELS && g in v[l] && e in g.entries && !(l == level && g in in0) && !(l == level + 1 && g in in1)
    requires (h in in0 || h in in1) && d in h.entries && e.key.user == d.key.user && e.key.sn <= d.key.sn
    requires IsBase(v, level, d.key.user)
    ensures LeftOutBoundary(v, level, in0, in1, h, g) && Largest(h).user == d.key.user
  {
    hide Newer, NewestFirst, Disjoint, Distinct, GoodInputs, LevelOrder, IsBase, GoodFile, Outside;
    MemberOf(v[l], g);
    InputFile(v, level, in0, in1, h, d);
    InVersion(v, l, g, e);
    if l < level + 1 {
      OlderAbove(v, level, in0, in1, l, g, e, h, d);
    } else if l >= level + 2 {
      NotBelowBase(v, level, l, g, e);
    } else {
      InputEntry(in0, in1, h, d);
      GoodFileHasLast(h);
      InputEntry(in0, in1, h, h.entries[|h.entries| - 1]);
      LeftAlone(v, level, in0, in1, g);
      OlderBeside(VersionEntries(v), EntriesOf(in0) + EntriesOf(in1), g, e, h, d);
    }
  }

  lemma InputFile(v: Version, level: nat, in0: seq<File>, in1: seq<File>, h: File, d: Entry)
    requires LevelOrder(v) && GoodVersion(v) && level + 1 < NUM_LEVELS && GoodInputs(v, level, in0, in1)
    requires (h in in0 || h in in1) && d in h.entries
    ensures GoodFile(h) && d in VersionEntries(v)
  {
    var hl := if h in in0 then level else level + 1;
    MemberOf(v[hl], h);
    InVersion(v, hl, h, d);
  }

  lemma GoodFileHasLast(h: File)
    requires GoodFile(h)
    ensures h.entries != []
  {
  }

  lemma NotBelowBase(v: Version, level: nat, l: nat, g: File, e: Entry)
    requires LevelOrder(v) && level + 2 <= l < NUM_LEVELS && g in v[l] && GoodFile(g) && e in g.entries
    ensures !IsBase(v, level, e.key.user)
  {
    WithinFile(g, e);
    var i :| 0 <= i < |v[l]| && v[l][i] == g;
    assert Spans(v[l][i], e.key.user);
  }

  lemma LeftAlone(v: Version, level: nat, in0: seq<File>, in1: seq<File>, g: File)
    requires LevelOrder(v) && level + 1 < NUM_LEVELS && GoodInputs(v, level, in0, in1)
    requires g in v[level + 1] && g !in in1 && GoodFile(g)
    ensures g.entries != [] && Outside(g, EntriesOf(in0) + EntriesOf(in1))
  {
  }

  lemma InputEntry(in0: seq<File>, in1: seq<File>, h: File, d: Entry)
    requires (h in in0 || h in in1) && d in h.entries
    ensures d in EntriesOf(in0) + EntriesOf(in1)
  {
  }

  lemma OlderBeside(all: set<Entry>, es: set<Entry>, g: File, e: Entry, h: File, d: Entry)
    requires Distinct(all) && e in all && d in all && GoodFile(g) && GoodFile(h) && e in g.entries && d in h.entries
    requires d in es && h.entries[|h.entries| - 1] in es && Outside(g, es)
    requires e.key.user == d.key.user && e.key.sn <= d.key.sn
    ensures Boundary(g, Largest(h)) && Largest(h).user == d.key.user
  {
    WithinFile(g, e);
    WithinFile(h, d);
  }

  // On the level itself and above, what is left behind is newer.
  lemma OlderAbove(v: Version, level: nat, in0: seq<File>, in1: seq<File>, l: nat, g: File, e: Entry, h: File, d: Entry)
    requires LevelOrder(v) && GoodVersion(v) && level + 1 < NUM_LEVELS && GoodInputs(v, level, in0, in1)
    requires l <= level && g in v[l] && e in g.entries && !(l == level && g in in0)
    requires (h in in0 || h in in1) && d in h.entries && e.key.user == d.key.user
    ensures e.key.sn > d.key.sn
  {
    var hl := if h in in0 then level else level + 1;
    assert h in v[hl];
    InVersion(v, l, g, e);
    InVersion(v, hl, h, d);
    if l < hl {
      assert Newer(EntriesOf(v[l]), EntriesOf(v[hl]));
    } else {
      assert e in Elements(g.entries) && d in EntriesOf(in0);
    }
  }

  /** A deleted key can only come back where a boundary file was left out on the output level. */
  lemma ResurrectionNeedsBoundary(v: Version, level: nat, ss: nat, in0: seq<File>, in1: seq<File>, mem: set<Entry>, u: UserKey)
    requires LevelOrder(v) && GoodVersion(v) && Distinct(VersionEntries(v)) && level + 1 < NUM_LEVELS
    requires GoodInputs(v, level, in0, in1) && Newer(mem, VersionEntries(v))
    requires Resurrected(v, level, ss, mem + RestOf(v, level, in0, in1), EntriesOf(in0) + EntriesOf(in1), u)
    ensures exists h, g :: LeftOutBoundary(v, level, in0, in1, h, g) && Largest(h).user == u
  {
    hide LevelOrder, IsBase, GoodInputs, Distinct, NewestFirst, Disjoint, LeftOutBoundary, GoodFile;
    var rest, es := mem + RestOf(v, level, in0, in1), EntriesOf(in0) + EntriesOf(in1);
    var d :| Newest(rest + es, u, ss, d) && d in es && d.key.tag == TYPE_DELETION;
    var e :| Newest(rest, u, ss, e) && AnswerOf(e) != NotFound;
    assert e in mem || e in RestOf(v, level, in0, in1);
    assert e.key.sn <= d.key.sn && e.key.user == d.key.user == u;
    var h :| (h in in0 || h in in1) && d in h.entries;
    InputFile(v, level, in0, in1, h, d);
    if e in RestOf(v, level, in0, in1) {
      hide Newer, VersionEntries;
      var l: nat, g: File :| 0 <= l < NUM_LEVELS && g in v[l] && !(l == level && g in in0) && !(l == level + 1 && g in in1) && e in g.entries;
      OlderLeftOut(v, level, in0, in1, l, g, e, h, d);
    }
  }

  // The entries behind the last input file of u: those of the boundary files left out.
  ghost function BehindBoundary(v: Version, level: nat, in0: seq<File>, in1: seq<File>, u: UserKey): set<Entry>
    requires GoodVersion(v) && level + 1 < NUM_LEVELS
  {
    set g, e | g in v[level + 1] && e in g.entries && LeftBehind(v, level, in0, in1, u, g) :: e
  }

  ghost predicate LeftBehind(v: Version, level: nat, in0: seq<File>, in1: seq<File>, u: UserKey, g: File)
    requires GoodVersion(v) && level + 1 < NUM_LEVELS
  {
    exists h :: LeftOutBoundary(v, level, in0, in1, h, g) && Largest(h).user == u
  }

  // The newest entry of u at ss is a deletion among the inputs, with nothing of u further down.
  ghost predicate DropsDeletion(v: Version, level: nat, ss: nat, all: set<Entry>, es: set<Entry>, u: UserKey)
    requires LevelOrder(v)
  {
    IsBase(v, level, u) && exists d :: Newest(all, u, ss, d) && d in es && d.key.tag == TYPE_DELETION
  }

  lemma BehindIsRest(v: Version, level: nat, in0: seq<File>, in1: seq<File>, u: UserKey)
    requires GoodVersion(v) && level + 1 < NUM_LEVELS
    ensures BehindBoundary(v, level, in0, in1, u) <= RestOf(v, level, in0, in1)
  {
    forall e | e in BehindBoundary(v, level, in0, in1, u) ensures e in RestOf(v, level, in0, in1) {
      var g :| g in v[level + 1] && e in g.entries && LeftBehind(v, level, in0, in1, u, g);
      assert 0 <= level + 1 < NUM_LEVELS && g !in in1;
    }
  }

  // Behind a dropped deletion there is nothing but what the left-out boundary files hold.
  lemma OnlyBehind(v: Version, level: nat, ss: nat, in0: seq<File>, in1: seq<File>, mem: set<Entry>, u: UserKey, d: Entry, e: Entry)
    requires LevelOrder(v) && GoodVersion(v) && Distinct(VersionEntries(v)) && level + 1 < NUM_LEVELS
    requires GoodInputs(v, level, in0, in1) && Newer(mem, VersionEntries(v)) && IsBase(v, level, u)
    requires Newest(mem + VersionEntries(v), u, ss, d) && d in EntriesOf(in0) + EntriesOf(in1)
    requires e in mem + RestOf(v, level, in0, in1) && e.key.user == u && e.key.sn <= ss && e in mem + VersionEntries(v)
    ensures e in BehindBoundary(v, level, in0, in1, u)
  {
    hide LevelOrder, IsBase, GoodInputs, Distinct, LeftOutBoundary, GoodFile;
    var h :| (h in in0 || h in in1) && d in h.entries;
    InputFile(v, level, in0, in1, h, d);
    assert e.key.sn <= d.key.sn && e !in mem;
    hide Newer, VersionEntries;
    var l: nat, g: File :| 0 <= l < NUM_LEVELS && g in v[l] && !(l == level && g in in0) && !(l == level + 1 && g in in1) && e in g.entries;
    OlderLeftOut(v, level, in0, in1, l, g, e, h, d);
    IsBehind(v, level, in0, in1, u, h, g, e);
  }

  lemma IsBehind(v: Version, level: nat, in0: seq<File>, in1: seq<File>, u: UserKey, h: File, g: File, e: Entry)
    requires GoodVersion(v) && level + 1 < NUM_LEVELS && LeftOutBoundary(v, level, in0, in1, h, g) && Largest(h).user == u && e in g.entries
    ensures e in BehindBoundary(v, level, in0, in1, u)
  {
    assert LeftBehind(v, level, in0, in1, u, g);
  }

  /** A deleted key comes back exactly when its deletion is dropped and the boundary files left
      out hold a value of it. */
  lemma ResurrectedIff(v: Version, level: nat, ss: nat, in0: seq<File>, in1: seq<File>, mem: set<Entry>, u: UserKey)
    requires LevelOrder(v) && GoodVersion(v) && Distinct(mem + VersionEntries(v)) && level + 1 < NUM_LEVELS
    requires GoodInputs(v, level, in0, in1) && Newer(mem, VersionEntries(v))
    ensures Resurrected(v, level, ss, mem + RestOf(v, level, in0, in1), EntriesOf(in0) + EntriesOf(in1), u) <==>
      (DropsDeletion(v, level, ss, mem + VersionEntries(v), EntriesOf(in0) + EntriesOf(in1), u) &&
       Read(BehindBoundary(v, level, in0, in1, u), u, ss) != NotFound)
  {
    hide LevelOrder, IsBase, LeftBehind, GoodFile;
    var all, rest, es := mem + VersionEntries(v), mem + RestOf(v, level, in0, in1), EntriesOf(in0) + EntriesOf(in1);
    var behind := BehindBoundary(v, level, in0, in1, u);
    assert InputFiles(v, level, in0, in1);
    hide GoodInputs, InputFiles;
    EntriesBefore(v, level, in0, in1);
    BehindIsRest(v, level, in0, in1, u);
    assert VersionEntries(v) <= all && rest + es == all;
    hide VersionEntries, RestOf, BehindBoundary, EntriesOf, Newer;
    assert Distinct(VersionEntries(v)) && Distinct(rest) && Distinct(behind);
    if DropsDeletion(v, level, ss, all, es, u) {
      var d :| Newest(all, u, ss, d) && d in es && d.key.tag == TYPE_DELETION;
      forall e | e in rest && e.key.user == u && e.key.sn <= ss ensures e in behind {
        OnlyBehind(v, level, ss, in0, in1, mem, u, d, e);
      }
      forall e ensures Newest(rest, u, ss, e) <==> Newest(behind, u, ss, e) {}
      hide Newest, Distinct;
      ReadSame(rest, behind, u, ss);
    }
  }

  /** With no boundary file left out, a compaction preserves every read at a live snapshot. */
  lemma SafeWithoutBoundary(v: Version, level: nat, ss: nat, in0: seq<File>, in1: seq<File>, mem: set<Entry>, u: UserKey, s: nat)
    requires LevelOrder(v) && GoodVersion(v) && level + 1 < NUM_LEVELS && GoodInputs(v, level, in0, in1)
    requires Newer(mem, VersionEntries(v)) && Distinct(mem + VersionEntries(v)) && ss <= s
    requires forall h, g :: !LeftOutBoundary(v, level, in0, in1, h, g)
    ensures var kept := KeptSet(v, level, ss, EntriesOf(in0) + EntriesOf(in1));
      Read(mem + (RestOf(v, level, in0, in1) + kept), u, s) == Read(mem + VersionEntries(v), u, s)
  {
    hide LevelOrder, IsBase, GoodFile, LeftOutBoundary;
    var rest, es := mem + RestOf(v, level, in0, in1), EntriesOf(in0) + EntriesOf(in1);
    assert InputFiles(v, level, in0, in1);
    hide GoodInputs;
    EntriesBefore(v, level, in0, in1);
    assert Distinct(VersionEntries(v)) by { assert VersionEntries(v) <= mem + VersionEntries(v); }
    hide Distinct, RestOf, VersionEntries, Newer, KeptSet;
    var kept := KeptSet(v, level, ss, es);
    assert rest + es == mem + VersionEntries(v) && rest + kept == mem + (RestOf(v, level, in0, in1) + kept);
    if Resurrected(v, level, ss, rest, es, u) {
      ResurrectionNeedsBoundary(v, level, ss, in0, in1, mem, u);
    }
    hide Resurrected;
    ReadsPreservedIff(v, level, ss, rest, es, u);
  }

  /** The keys a compaction of the engine spares: all but those whose deletion it drops while a
      boundary file it leaves out holds their value. */
  lemma SparesIff(w: World, level: nat, in0: seq<File>, in1: seq<File>, u: UserKey)
    requires Inv(w) && level + 1 < NUM_LEVELS && GoodInputs(w.db.v, level, in0, in1)
    ensures Spares(w.db, level, in0, in1, u) <==>
      !(DropsDeletion(w.db.v, level, SmallestSnapshot(w.db), DbEntries(w.db), EntriesOf(in0) + EntriesOf(in1), u) &&
        Read(BehindBoundary(w.db.v, level, in0, in1, u), u, SmallestSnapshot(w.db)) != NotFound)
  {
    hide LogsOk, ManifestOk, HistOk, SnapshotsOk, LevelOrder, GoodInputs, Resurrected, RestOf, EntriesOf, DropsDeletion, BehindBoundary, Distinct,
      MemEntries;
    ResurrectedIff(w.db.v, level, SmallestSnapshot(w.db), in0, in1, MemEntries(w.db), u);
  }

  /** With no boundary file left out, every key is spared. */
  lemma AllSpared(w: World, level: nat, in0: seq<File>, in1: seq<File>, u: UserKey)
    requires Inv(w) && level + 1 < NUM_LEVELS && GoodInputs(w.db.v, level, in0, in1)
    requires forall h, g :: !LeftOutBoundary(w.db.v, level, in0, in1, h, g)
    ensures Spares(w.db, level, in0, in1, u)
  {
    hide LogsOk, ManifestOk, HistOk, SnapshotsOk, LevelOrder, GoodInputs, LeftOutBoundary, Resurrected, RestOf, EntriesOf;
    assert VersionEntries(w.db.v) <= DbEntries(w.db);
    if Resurrected(w.db.v, level, SmallestSnapshot(w.db), MemEntries(w.db) + RestOf(w.db.v, level, in0, in1),
                   EntriesOf(in0) + EntriesOf(in1), u) {
      ResurrectionNeedsBoundary(w.db.v, level, SmallestSnapshot(w.db), in0, in1, MemEntries(w.db), u);
    }
  }

  // ----- The selection leaves such files out -----

  function PutAt(user: UserKey, sn: nat): Entry { Entry(IKey(user, sn, TYPE_VALUE), []) }

  function DeleteAt(user: UserKey, sn: nat): Entry { Entry(IKey(user, sn, TYPE_DELETION), []) }

  // Level 1 holds a file that overlaps only the first of two level-2 files, which share a key.
  function Upper(): File { File(10, 0, [PutAt(1.0, 7)]) }

  function Deleting(): File { File(11, 0, [PutAt(1.0, 3), DeleteAt(2.0, 6)]) }

  function Behind(): File { File(12, 0, [PutAt(2.0, 2)]) }

  function Split(): Version { [[], [Upper()], [Deleting(), Behind()], [], [], [], []] }

  lemma FileEntries(f: File)
    ensures EntriesOf([f]) == Elements(f.entries) && EntriesOf([]) == {}
  {
    assert f in [f];
    forall e | e in f.entries ensures e in EntriesOf([f]) {}
  }

  lemma TwoFileEntries(f: File, g: File)
    ensures EntriesOf([f, g]) == Elements(f.entries) + Elements(g.entries)
  {
    assert f in [f, g] && g in [f, g];
    forall e | e in Elements(f.entries) + Elements(g.entries) ensures e in EntriesOf([f, g]) {}
  }

  lemma SplitIsOrdered()
    ensures GoodVersion(Split()) && LevelOrder(Split())
  {
    var v := Split();
    assert v[1] == [Upper()] && v[2] == [Deleting(), Behind()];
    assert forall l :: 0 <= l < NUM_LEVELS && l != 1 && l != 2 ==> v[l] == [];
    FileEntries(Upper());
    TwoFileEntries(Deleting(), Behind());
    LevelOrderParts(v);
  }

  lemma OverlappingOne(f: File, b: Option<UserKey>, e: Option<UserKey>)
    requires GoodFile(f)
    ensures Overlapping([f], b, e) == if Overlaps(f, b, e) then [f] else []
  {
    assert [f][..0] == [] && Overlapping([], b, e) == [];
  }

  lemma OverlappingTwo(f: File, g: File, b: Option<UserKey>, e: Option<UserKey>)
    requires GoodFile(f) && GoodFile(g)
    ensures Overlapping([f, g], b, e) == Overlapping([f], b, e) + if Overlaps(g, b, e) then [g] else []
  {
    assert [f, g][..1] == [f];
  }

  // The level-2 files picked for a compaction of Upper.
  lemma SplitSelection()
    ensures GoodFiles([Deleting(), Behind()]) && Overlapping([Deleting(), Behind()], Some(1.0), Some(1.0)) == [Deleting()]
    ensures GoodFiles([Upper()]) && Overlapping([Upper()], Some(1.0), Some(2.0)) == [Upper()]
  {
    OverlappingOne(Deleting(), Some(1.0), Some(1.0));
    OverlappingTwo(Deleting(), Behind(), Some(1.0), Some(1.0));
    OverlappingOne(Upper(), Some(1.0), Some(2.0));
  }

  lemma SplitInputs()
    ensures GoodVersion(Split()) && LevelOrder(Split()) && GoodInputs(Split(), 1, [Upper()], [Deleting()])
  {
    SplitIsOrdered();
    hide LevelOrder, GoodVersion;
    FileEntries(Upper());
    FileEntries(Deleting());
    var v := Split();
    assert v[1] == [Upper()] && v[2] == [Deleting(), Behind()];
    assert Outside(Behind(), EntriesOf([Upper()]) + EntriesOf([Deleting()])) by {
      assert Smallest(Behind()) == PutAt(2.0, 2).key;
    }
  }

  lemma SplitRest()
    ensures GoodVersion(Split()) && RestOf(Split(), 1, [Upper()], [Deleting()]) == {PutAt(2.0, 2)}
    ensures LevelOrder(Split()) && IsBase(Split(), 1, 2.0)
    ensures VersionEntries(Split()) == {PutAt(2.0, 2)} + (EntriesOf([Upper()]) + EntriesOf([Deleting()]))
  {
    SplitIsOrdered();
    hide LevelOrder;
    var v, rest := Split(), RestOf(Split(), 1, [Upper()], [Deleting()]);
    assert v[1] == [Upper()] && v[2] == [Deleting(), Behind()];
    assert Behind() in v[2] && PutAt(2.0, 2) in Behind().entries;
    EntriesBefore(v, 1, [Upper()], [Deleting()]);
  }

  lemma SplitReads(es: set<Entry>)
    requires es == {PutAt(1.0, 7), PutAt(1.0, 3), DeleteAt(2.0, 6)}
    ensures Distinct({PutAt(2.0, 2)} + es) && Newest({PutAt(2.0, 2)} + es, 2.0, 7, DeleteAt(2.0, 6))
    ensures Read({PutAt(2.0, 2)} + es, 2.0, 7) == NotFound && Read({PutAt(2.0, 2)}, 2.0, 7) == Found([])
  {
    ReadIs({PutAt(2.0, 2)} + es, 2.0, 7, DeleteAt(2.0, 6));
    assert Newest({PutAt(2.0, 2)}, 2.0, 7, PutAt(2.0, 2));
    ReadIs({PutAt(2.0, 2)}, 2.0, 7, PutAt(2.0, 2));
  }

  lemma SplitBoundary()
    ensures GoodVersion(Split()) && LeftOutBoundary(Split(), 1, [Upper()], [Deleting()], Deleting(), Behind())
  {
    SplitIsOrdered();
    hide LevelOrder, GoodVersion;
    assert Split()[2] == [Deleting(), Behind()];
  }

  /** With the inputs the engine selects, a deleted key reappears: key 2.0, deleted at sequence
      6, reads as its value of sequence 2 once the compaction is installed. */
  lemma DeletedKeyReappears()
    ensures GoodVersion(Split()) && LevelOrder(Split()) && GoodInputs(Split(), 1, [Upper()], [Deleting()])
    ensures Split()[2] == [Deleting(), Behind()] && Overlapping(Split()[2], Some(1.0), Some(1.0)) == [Deleting()]
    ensures LeftOutBoundary(Split(), 1, [Upper()], [Deleting()], Deleting(), Behind())
    ensures Read(VersionEntries(Split()), 2.0, 7) == NotFound
    ensures Read(RestOf(Split(), 1, [Upper()], [Deleting()]) +
                 KeptSet(Split(), 1, 7, EntriesOf([Upper()]) + EntriesOf([Deleting()])), 2.0, 7) == Found([])
  {
    hide LevelOrder, GoodInputs, GoodVersion, KeptSet, IsBase, RestOf, VersionEntries, LeftOutBoundary, Overlapping, Read, Distinct;
    var es := EntriesOf([Upper()]) + EntriesOf([Deleting()]);
    SplitSelection();
    SplitInputs();
    SplitRest();
    SplitBoundary();
    FileEntries(Upper());
    FileEntries(Deleting());
    assert es == {PutAt(1.0, 7), PutAt(1.0, 3), DeleteAt(2.0, 6)};
    SplitReads(es);
    assert DeleteAt(2.0, 6) in es;
    hide EntriesOf, Newest;
    DeletionDropped(Split(), 1, 7, {PutAt(2.0, 2)}, es, 2.0, 7, DeleteAt(2.0, 6));
  }

  // ----- A flush while a compaction runs -----

  /** A memtable flushed to level k, as file f, while a compaction runs on files of the version
      before: installing the compaction then keeps the level order exactly when the flushed file
      is not on the compaction's output level, or apart from all its outputs. */
  lemma FlushDuringCompactionIff(v: Version, v1: Version, v2: Version, level: nat, in0: seq<File>, in1: seq<File>, outs: seq<File>, k: nat, f: File)
    requires LevelOrder(v) && GoodVersion(v) && level + 1 < NUM_LEVELS && GoodInputs(v, level, in0, in1)
    requires k < NUM_LEVELS && GoodFile(f) && GoodVersion(v1) && AddedFiles(v, v1, k, [f])
    requires Newer(Elements(f.entries), VersionEntries(v)) && forall l, g :: 0 <= l < NUM_LEVELS && g in v[l] ==> g.number < f.number
    requires k > 0 ==> forall l :: 0 <= l <= k ==> NoOverlap(v, l, Smallest(f).user, Largest(f).user)
    requires GoodVersion(v2) && Moved(v1, v2, level, in0, in1, outs)
    requires OutputsOf(outs, EntriesOf(in0) + EntriesOf(in1)) && Numbers(outs) !! Numbers(v1[level + 1])
    ensures LevelOrder(v2) <==> k != level + 1 || forall o :: o in outs && o.entries != [] ==> Precedes(f, o) || Precedes(o, f)
  {
    FlushKeepsLevelOrder(v, v1, k, f);
    FlushedLeavesNewer(v, v1, level, in0, in1, k, f);
    GoodInputsFit(v, level, in0, in1, outs);
    assert f !in in1 by { FlushedNotInput(v, level, in0, in1, f); }
    assert k == level + 1 ==> f in v1[level + 1];
    hide LevelOrder, GoodInputs, OutputsOf, Newer, NoOverlap, Moved, GoodFile;
    MoveKeepsLevelOrderIff(v1, v2, level, in0, in1, outs);
  }

  lemma FlushedNotInput(v: Version, level: nat, in0: seq<File>, in1: seq<File>, f: File)
    requires LevelOrder(v) && level + 1 < NUM_LEVELS && GoodInputs(v, level, in0, in1)
    requires forall l, g :: 0 <= l < NUM_LEVELS && g in v[l] ==> g.number < f.number
    ensures f !in in0 && f !in in1
  {
  }

  lemma FlushedLeavesNewer(v: Version, v1: Version, level: nat, in0: seq<File>, in1: seq<File>, k: nat, f: File)
    requires LevelOrder(v) && GoodVersion(v) && level + 1 < NUM_LEVELS && GoodInputs(v, level, in0, in1)
    requires k < NUM_LEVELS && GoodVersion(v1) && AddedFiles(v, v1, k, [f])
    requires Newer(Elements(f.entries), VersionEntries(v))
    ensures LeavesNewer(v1, level, in0, in1)
  {
    forall e | e in EntriesOf(in0) ensures e in VersionEntries(v) {
      var h :| h in in0 && e in h.entries;
      InVersion(v, level, h, e);
    }
  }

  // Two level-1 files under compaction, and a memtable that falls between them.
  function Left(): File { File(10, 0, [PutAt(1.0, 1)]) }

  function Right(): File { File(11, 0, [PutAt(3.0, 2)]) }

  function Between(): File { File(12, 0, [PutAt(2.0, 3)]) }

  function Output(): File { File(13, 0, [PutAt(1.0, 1), PutAt(3.0, 2)]) }

  function Gap(): Version { [[], [Left(), Right()], [], [], [], [], []] }

  lemma GapIsOrdered()
    ensures GoodVersion(Gap()) && LevelOrder(Gap())
  {
    var v := Gap();
    assert v[1] == [Left(), Right()] && forall l :: 0 <= l < NUM_LEVELS && l != 1 ==> v[l] == [];
    LevelOrderParts(v);
  }

  // The flush may go as deep as level 2.
  lemma FlushFitsGap()
    ensures GoodVersion(Gap()) && forall l :: 0 <= l <= MAX_MEM_COMPACT_LEVEL ==> NoOverlap(Gap(), l, 2.0, 2.0)
  {
    GapIsOrdered();
    hide LevelOrder, GoodVersion;
    var v := Gap();
    assert v[1] == [Left(), Right()] && v[0] == [] && v[2] == [];
  }

  function FlushingEdit(): Edit { Edit(None, None, None, {}, AddAll(2, [Between()])) }

  function CompactingEdit(): Edit { Edit(None, None, None, InputDeletions(1, [Left(), Right()], []), AddAll(2, [Output()])) }

  lemma GapEdits()
    ensures GoodEdit(FlushingEdit()) && GoodEdit(CompactingEdit())
  {
    forall i | 0 <= i < |FlushingEdit().added| ensures GoodFile(FlushingEdit().added[i].1) {}
    forall i | 0 <= i < |CompactingEdit().added| ensures GoodFile(CompactingEdit().added[i].1) {}
  }

  lemma GapInputs()
    ensures GoodVersion(Gap()) && LevelOrder(Gap()) && GoodInputs(Gap(), 1, [Left(), Right()], [])
    ensures OutputsOf([Output()], EntriesOf([Left(), Right()]) + EntriesOf([]))
    ensures VersionEntries(Gap()) == {PutAt(1.0, 1), PutAt(3.0, 2)}
  {
    GapIsOrdered();
    hide LevelOrder, GoodVersion;
    var v := Gap();
    assert v[1] == [Left(), Right()] && v[2] == [] && forall l :: 0 <= l < NUM_LEVELS && l != 1 ==> v[l] == [];
    TwoFileEntries(Left(), Right());
    FileEntries(Output());
    assert Output() in [Output()] && Concat([Output()][..0]) == [];
    EntriesBefore(v, 1, [Left(), Right()], []);
    NoneLeft(v);
  }

  lemma NoneLeft(v: Version)
    requires GoodVersion(v) && v[1] == [Left(), Right()] && forall l :: 0 <= l < NUM_LEVELS && l != 1 ==> v[l] == []
    ensures RestOf(v, 1, [Left(), Right()], []) == {}
  {
  }

  lemma GapFiles()
    ensures GoodVersion(Gap()) && Gap()[1] == [Left(), Right()] && forall l :: 0 <= l < NUM_LEVELS && l != 1 ==> Gap()[l] == []
    ensures Numbered([Between()]) && Numbers([Between()]) == {12} && Numbered([Output()]) && Numbers([Output()]) == {13} && Numbers([]) == {}
    ensures GoodFiles([Between()]) && SortedFiles([Between()]) && GoodFiles([Output(), Between()]) && SortedFiles([Output(), Between()])
    ensures Tidy(Gap())
  {
    GapIsOrdered();
    hide LevelOrder;
    assert Between() in [Between()] && Output() in [Output()];
  }

  // The flush and then the compaction, installed.
  lemma GapFlushed(v: Version, v1: Version)
    requires GoodEdit(FlushingEdit()) && GoodVersion(v) && Tidy(v) && v1 == InstallVersion(v, FlushingEdit())
    requires v[1] == [Left(), Right()] && forall l :: 0 <= l < NUM_LEVELS && l != 1 ==> v[l] == []
    ensures AddedFiles(v, v1, 2, [Between()]) && v1[2] == [Between()] && v1[1] == v[1] && Tidy(v1)
    ensures forall l :: 0 <= l < NUM_LEVELS && l != 1 && l != 2 ==> v1[l] == []
  {
    GapFiles();
    hide InstallVersion, Left, Right, Between, Output, GoodFile, SortedFiles, Numbered, Numbers, GoodEdit;
    InstallIsAdded(v, FlushingEdit(), 2, [Between()]);
    SortedUnique(v1[2], [Between()]);
  }

  lemma GapCompacted(v1: Version, v2: Version)
    requires GoodEdit(CompactingEdit()) && GoodVersion(v1) && Tidy(v1) && v2 == InstallVersion(v1, CompactingEdit())
    requires v1[1] == [Left(), Right()] && v1[2] == [Between()] && forall l :: 0 <= l < NUM_LEVELS && l != 1 && l != 2 ==> v1[l] == []
    ensures v2[2] == [Output(), Between()] && forall l :: 0 <= l < NUM_LEVELS && l != 2 ==> v2[l] == []
  {
    GapFiles();
    hide InstallVersion, Left, Right, Between, Output, GoodFile, SortedFiles, Numbered, Numbers, GoodEdit;
    InstallIsMoved(v1, CompactingEdit(), 1, [Left(), Right()], [], [Output()]);
    SortedUnique(v2[2], [Output(), Between()]);
    NoMembers(v2[1]);
  }

  lemma NoMembers(fs: seq<File>)
    requires forall f :: f !in fs
    ensures fs == []
  {
    if |fs| > 0 { EmptyIff(fs); }
  }

  /** With the inputs selected and the flush placed as the engine does, the level order is lost:
      the flushed file lands on the output level, inside the range of the output. */
  lemma FlushedFileOverlapped(v1: Version, v2: Version)
    requires GoodEdit(FlushingEdit()) && GoodEdit(CompactingEdit()) && GoodVersion(Gap())
    requires v1 == InstallVersion(Gap(), FlushingEdit()) && v2 == InstallVersion(v1, CompactingEdit())
    ensures LevelOrder(Gap()) && GoodInputs(Gap(), 1, [Left(), Right()], [])
    ensures OutputsOf([Output()], EntriesOf([Left(), Right()]) + EntriesOf([]))
    ensures Newer(Elements(Between().entries), VersionEntries(Gap()))
    ensures forall l :: 0 <= l <= MAX_MEM_COMPACT_LEVEL ==> NoOverlap(Gap(), l, 2.0, 2.0)
    ensures v2[2] == [Output(), Between()] && !LevelOrder(v2)
  {
    GapInputs();
    FlushFitsGap();
    GapFiles();
    BetweenIsNewer();
    hide NoOverlap, InstallVersion, GoodInputs, OutputsOf, LevelOrder, Gap, Newer, GoodEdit, Tidy;
    GapFlushed(Gap(), v1);
    GapCompacted(v1, v2);
    OutOfOrder(v2);
  }

  lemma BetweenIsNewer()
    ensures Newer(Elements(Between().entries), {PutAt(1.0, 1), PutAt(3.0, 2)})
  {
  }

  lemma OutOfOrder(v: Version)
    requires GoodVersion(v) && v[2] == [Output(), Between()]
    ensures !LevelOrder(v)
  {
    if LevelOrder(v) { OverlappedPair(v[2], 0, 1); }
  }

  /** And a read is lost: the search for the value of 3.0, which the output holds, goes past it. */
  lemma ReadLost(v2: Version, s: nat)
    requires GoodVersion(v2) && v2[2] == [Output(), Between()] && s >= 2
    requires forall l :: 0 <= l < NUM_LEVELS && l != 2 ==> v2[l] == []
    ensures Read(VersionEntries(v2), 3.0, s) == Found([])
    ensures forall l :: 0 <= l < NUM_LEVELS ==> LevelLookup(v2[l], 3.0, s) == Option.None
  {
    OnlyLevel2(v2);
    ValueStored(s);
    SearchGoesPast(s);
    hide VersionEntries, EntriesOf, Read;
    forall l | 0 <= l < NUM_LEVELS ensures LevelLookup(v2[l], 3.0, s) == Option.None {}
  }

  lemma ValueStored(s: nat)
    requires s >= 2
    ensures Read(EntriesOf([Output(), Between()]), 3.0, s) == Found([])
  {
    var es := EntriesOf([Output(), Between()]);
    TwoFileEntries(Output(), Between());
    assert es == {PutAt(1.0, 1), PutAt(3.0, 2), PutAt(2.0, 3)};
    hide EntriesOf;
    assert Newest(es, 3.0, s, PutAt(3.0, 2));
    ReadIs(es, 3.0, s, PutAt(3.0, 2));
  }

  lemma SearchGoesPast(s: nat)
    ensures GoodFiles([Output(), Between()]) && LevelLookup([Output(), Between()], 3.0, s) == Option.None
  {
    var fs, key := [Output(), Between()], IKey(3.0, s, TYPE_FOR_SEEK);
    assert Before(Largest(fs[1]), key);
    assert FindFrom(fs, key, 2, 2) == 2 && FindFrom(fs, key, 0, 2) == FindFrom(fs, key, 2, 2);
  }

  lemma OnlyLevel2(v: Version)
    requires GoodVersion(v) && forall l :: 0 <= l < NUM_LEVELS && l != 2 ==> v[l] == []
    ensures VersionEntries(v) == EntriesOf(v[2])
  {
    forall e | e in VersionEntries(v) ensures e in EntriesOf(v[2]) {
      var l :| 0 <= l < |v| && e in EntriesOf(v[l]);
      assert l == 2;
    }
  }

  lemma OverlappedPair(fs: seq<File>, i: nat, j: nat)
    requires GoodFiles(fs) && i < |fs| && j < |fs| && fs[i] == Output() && fs[j] == Between()
    ensures !Disjoint(fs)
  {
    if Disjoint(fs) { TwoFiles(fs, i, j); }
  }
}
