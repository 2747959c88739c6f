/** Compactions and trivial moves keep the engine's invariant. */
module MoveSteps {
  import opened Entries
  import opened Versions
  import opened Selection
  import opened Builders
  import opened Compactions
  import opened DropRules
  import opened Levels
  import opened Installing
  import opened Engine
  import opened InstallSteps

  ghost function MoveEdit(db: Db, level: nat, in0: seq<File>, in1: seq<File>, outs: seq<File>, next: nat): Edit {
    Edit(Some(db.logNumber), Some(next), Some(db.lastSequence), InputDeletions(level, in0, in1), AddAll(level + 1, outs))
  }

  // The database after installing a move.
  ghost predicate AfterMove(db: Db, db': Db, level: nat, in0: seq<File>, in1: seq<File>, outs: seq<File>, next: nat) {
    && GoodVersion(db.v) && level + 1 < NUM_LEVELS && db.nextFile <= next
    && InputFiles(db.v, level, in0, in1)
    && var e := MoveEdit(db, level, in0, in1, outs, next);
    && GoodEdit(e)
    && db'.v == InstallVersion(db.v, e) && db'.disk.manifest == db.disk.manifest + [e]
    && db' == db.(v := db'.v, nextFile := next, disk := db.disk.(manifest := db'.disk.manifest, tables := db'.disk.tables))
    && db.disk.tables + Numbers(outs) <= db'.disk.tables
  }

  // Output numbers: new to the database, or the number of a file on its way down.
  ghost predicate NumbersFit(db: Db, level: nat, in0: seq<File>, outs: seq<File>, next: nat)
    requires GoodVersion(db.v) && level + 1 < NUM_LEVELS
  {
    && Numbered(outs)
    && forall f :: f in outs ==> (db.nextFile <= f.number < next) || (f in in0 && f in db.v[level])
  }

  lemma OutputNumberNew(db: Db, level: nat, in0: seq<File>, outs: seq<File>, next: nat, f: File, m: nat)
    requires GoodVersion(db.v) && ManifestOk(db) && level + 1 <= m < NUM_LEVELS && NumbersFit(db, level, in0, outs, next) && f in outs
    ensures f.number !in UsedAt(db.disk.manifest, m)
  {
  }

  lemma MoveIsMoved(db: Db, db': Db, level: nat, in0: seq<File>, in1: seq<File>, outs: seq<File>, next: nat)
    requires LevelsOk(db) && ManifestOk(db) && AfterMove(db, db', level, in0, in1, outs, next)
    requires NumbersFit(db, level, in0, outs, next)
    ensures Moved(db.v, db'.v, level, in0, in1, outs)
  {
    hide LevelOrder, NumbersUnique;
    forall n | n in Numbers(outs) ensures n !in Numbers(db.v[level + 1]) {
      var f :| f in outs && f.number == n;
      OutputNumberNew(db, level, in0, outs, next, f, level + 1);
    }
    hide InstallVersion, Recorded, Moved;
    InstallIsMoved(db.v, MoveEdit(db, level, in0, in1, outs, next), level, in0, in1, outs);
  }

  lemma MoveKeepsUnique(db: Db, db': Db, level: nat, in0: seq<File>, in1: seq<File>, outs: seq<File>, next: nat)
    requires LevelsOk(db) && ManifestOk(db) && AfterMove(db, db', level, in0, in1, outs, next)
    requires NumbersFit(db, level, in0, outs, next) && Moved(db.v, db'.v, level, in0, in1, outs)
    ensures NumbersUnique(db'.v)
  {
    FreshNumbers(db);
    assert db.nextFile <= next && Tidy(db.v);
    hide LevelOrder, InstallVersion, Recorded, SortedFiles, GoodFile, AfterMove, ManifestOk, GoodVersion;
    forall l, m, f: File, g: File | 0 <= l < m < NUM_LEVELS && f in db'.v[l] && g in db'.v[m] ensures f.number != g.number {
      if f in db.v[l] && g in db.v[m] {
      } else if f in db.v[l] {
        assert m == level + 1 && g in outs;
        if g in in0 && g in db.v[level] && l == level && f.number == g.number {
          NumberedMembers(db.v[level], f, g);
        }
      } else {
        assert l == level + 1 && f in outs && g in db.v[m];
      }
    }
  }

  lemma MoveKeepsRecorded(db: Db, db': Db, level: nat, in0: seq<File>, in1: seq<File>, outs: seq<File>, next: nat)
    requires LevelsOk(db) && ManifestOk(db) && AfterMove(db, db', level, in0, in1, outs, next)
    requires NumbersFit(db, level, in0, outs, next) && Moved(db.v, db'.v, level, in0, in1, outs)
    ensures Recorded(db'.v, db'.disk.manifest, next)
  {
    var e := MoveEdit(db, level, in0, in1, outs, next);
    hide LevelOrder, InstallVersion, GoodEdit, GoodFile, UsedAt;
    MoveKeepsUnique(db, db', level, in0, in1, outs, next);
    FreshNumbers(db);
    forall l | 0 <= l < NUM_LEVELS ensures AddedAt(e.added, l) == if l == level + 1 then outs else [] {
      AddedAtOneLevel(outs, level + 1, l);
    }
    forall l, m, f: File | 0 <= l <= m < NUM_LEVELS && f in AddedAt(e.added, l) ensures f.number !in UsedAt(db.disk.manifest, m) {
      OutputNumberNew(db, level, in0, outs, next, f, m);
    }
    forall l, m, f: File | 0 <= l < m < NUM_LEVELS && f in db'.v[l] ensures f.number !in Numbers(AddedAt(e.added, m)) {
    }
    var last := db.disk.manifest[|db.disk.manifest| - 1];
    RecordedAppend(db.v, db.disk.manifest, last.nextFile.value, e, next);
  }

  lemma MoveKeepsManifest(db: Db, db': Db, level: nat, in0: seq<File>, in1: seq<File>, outs: seq<File>, next: nat)
    requires LevelsOk(db) && MemOk(db) && ManifestOk(db) && AfterMove(db, db', level, in0, in1, outs, next)
    requires NumbersFit(db, level, in0, outs, next) && Moved(db.v, db'.v, level, in0, in1, outs)
    requires VersionEntries(db'.v) <= VersionEntries(db.v)
    ensures ManifestOk(db')
  {
    MoveKeepsRecorded(db, db', level, in0, in1, outs, next);
    hide LevelOrder, Recorded, InstallVersion, NumbersUnique, Newer, Distinct;
    assert db'.disk.manifest[|db'.disk.manifest| - 1] == MoveEdit(db, level, in0, in1, outs, next);
    forall x | x in VersionEntries(db'.v) ensures x.key.sn <= db.lastSequence {
      assert x in DbEntries(db);
    }
    forall l, f: File | 0 <= l < NUM_LEVELS && f in db'.v[l] ensures f.number in db'.disk.tables {
      if f in outs { assert f.number in Numbers(outs); }
    }
  }

  lemma MoveKeepsMem(db: Db, db': Db)
    requires MemOk(db) && db'.mem == db.mem && db'.imm == db.imm && db'.lastSequence == db.lastSequence
    requires VersionEntries(db'.v) <= VersionEntries(db.v)
    ensures MemEntries(db') == MemEntries(db) && DbEntries(db') <= DbEntries(db) && MemOk(db')
  {
    hide VersionEntries;
  }

  lemma MoveKeepsLogs(db: Db, db': Db, level: nat, in0: seq<File>, in1: seq<File>, outs: seq<File>, next: nat)
    requires LogsOk(db) && AfterMove(db, db', level, in0, in1, outs, next)
    ensures LogsOk(db') && (SnapshotsOk(db) ==> SnapshotsOk(db'))
  {
    hide InstallVersion, GoodVersion, GoodEdit;
    assert LiveLog(db'.disk, db'.logNumber, db'.logfileNumber) == LiveLog(db.disk, db.logNumber, db.logfileNumber);
  }

  // Everything but the reads, for any move whose outputs hold input entries in order.
  lemma MoveKeepsOrder(w: World, w': World, level: nat, in0: seq<File>, in1: seq<File>, outs: seq<File>, next: nat)
    requires Inv(w) && AfterMove(w.db, w'.db, level, in0, in1, outs, next) && NumbersFit(w.db, level, in0, outs, next)
    requires GoodInputs(w.db.v, level, in0, in1) && OutputsOf(outs, EntriesOf(in0) + EntriesOf(in1))
    ensures LevelsOk(w'.db) && MemOk(w'.db) && LogsOk(w'.db) && ManifestOk(w'.db) && SnapshotsOk(w'.db)
    ensures VersionEntries(w.db.v) == RestOf(w.db.v, level, in0, in1) + (EntriesOf(in0) + EntriesOf(in1))
    ensures VersionEntries(w'.db.v) == RestOf(w.db.v, level, in0, in1) + EntriesOf(outs)
    ensures MemEntries(w'.db) == MemEntries(w.db) && DbEntries(w'.db) <= DbEntries(w.db)
  {
    var db, db' := w.db, w'.db;
    MoveIsMoved(db, db', level, in0, in1, outs, next);
    MoveKeepsLevelOrder(db.v, db'.v, level, in0, in1, outs);
    MoveKeepsUnique(db, db', level, in0, in1, outs, next);
    EntriesBefore(db.v, level, in0, in1);
    EntriesAfter(db.v, db'.v, level, in0, in1, outs);
    assert EntriesOf(outs) <= EntriesOf(in0) + EntriesOf(in1) by {
      forall e | e in EntriesOf(outs) ensures e in EntriesOf(in0) + EntriesOf(in1) { ConcatMembers(outs, e); }
    }
    hide LevelOrder, Recorded, InstallVersion, MemOk, LogsOk, ManifestOk, HistOk, VersionEntries, RestOf, EntriesOf;
    MoveKeepsManifest(db, db', level, in0, in1, outs, next);
    MoveKeepsMem(db, db');
    MoveKeepsLogs(db, db', level, in0, in1, outs, next);
  }

  lemma OneFile(f: File)
    requires GoodFile(f)
    ensures Concat([f]) == f.entries && EntriesOf([f]) == Elements(f.entries) && Numbers([f]) == {f.number}
    ensures EntriesOf([]) == {} && OutputsOf([f], EntriesOf([f]) + EntriesOf([]))
  {
    assert [f][..0] == [] && Concat([]) == [] && f in [f];
    forall e | e in f.entries ensures e in EntriesOf([f]) {}
  }

  lemma TrivialMoveParts(w: World, w': World, level: nat, f: File)
    requires Inv(w) && TrivialMove(w, w', level, f)
    ensures w'.hist == w.hist && GoodVersion(w.db.v) && level + 1 < NUM_LEVELS && LevelOrder(w.db.v)
    ensures GoodInputs(w.db.v, level, [f], []) && f in w.db.v[level] && GoodFile(f)
    ensures AfterMove(w.db, w'.db, level, [f], [], [f], w.db.nextFile)
    ensures NumbersFit(w.db, level, [f], [f], w.db.nextFile)
  {
    hide LevelOrder, Recorded, InstallVersion, MemOk, LogsOk, HistOk, Newer, Outside, NumbersUnique;
    assert f in [f];
    assert forall n :: n in Numbers([f]) ==> n == f.number;
  }

  lemma TrivialMoveKeepsInv(w: World, w': World, level: nat, f: File)
    requires Inv(w) && TrivialMove(w, w', level, f)
    ensures Inv(w') && DbEntries(w'.db) == DbEntries(w.db)
    ensures w'.hist == w.hist && SmallestSnapshot(w'.db) == SmallestSnapshot(w.db)
  {
    hide LevelOrder, Recorded, InstallVersion, AfterMove, TrivialMove, LevelsOk, MemOk, LogsOk, ManifestOk, EntriesOf;
    hide OutputsOf, GoodInputs, NumbersFit, RestOf, VersionEntries, GoodFile, GoodVersion, MemEntries, Distinct;
    TrivialMoveParts(w, w', level, f);
    OneFile(f);
    MoveKeepsOrder(w, w', level, [f], [], [f], w.db.nextFile);
    assert DbEntries(w'.db) == DbEntries(w.db);
    MoveKeepsFields(w, w', level, [f], [], [f], w.db.nextFile);
  }

  lemma MoveKeepsFields(w: World, w': World, level: nat, in0: seq<File>, in1: seq<File>, outs: seq<File>, next: nat)
    requires AfterMove(w.db, w'.db, level, in0, in1, outs, next)
    ensures w'.db.lastSequence == w.db.lastSequence && w'.db.snapshots == w.db.snapshots
  {
  }

  ghost function CompactRest(db: Db, level: nat, in0: seq<File>, in1: seq<File>): set<Entry>
    requires GoodVersion(db.v) && level + 1 < NUM_LEVELS
  {
    MemEntries(db) + RestOf(db.v, level, in0, in1)
  }

  lemma OutputsNumbered(outs: seq<File>, first: nat)
    requires Outputs(outs, first)
    ensures Numbered(outs) && forall f :: f in outs ==> first <= f.number < first + |outs|
  {
  }

  // The outputs of a compaction hold exactly the kept entries.
  lemma OutputsAreKept(v: Version, level: nat, ss: nat, input: seq<Entry>, outs: seq<File>)
    requires LevelOrder(v) && Sorted(input) && Distinct(Elements(input)) && AllParse(input) && ss < MAX_SEQUENCE
    requires Concat(outs) == Retained(v, level, ss, input, 0)
    ensures Sorted(Concat(outs)) && EntriesOf(outs) == KeptSet(v, level, ss, Elements(input))
  {
    RetainedSorted(v, level, ss, input, 0);
    hide LevelOrder, Retained, Kept, Sorted, Distinct;
    forall e ensures e in EntriesOf(outs) <==> e in KeptSet(v, level, ss, Elements(input)) {
      ConcatMembers(outs, e);
      RetainedIsKept(v, level, ss, input, e);
    }
  }

  lemma InputParses(v: Version, level: nat, in0: seq<File>, in1: seq<File>, input: seq<Entry>)
    requires GoodVersion(v) && level + 1 < NUM_LEVELS && InputFiles(v, level, in0, in1)
    requires Elements(input) == EntriesOf(in0) + EntriesOf(in1)
    ensures AllParse(input)
  {
    forall i | 0 <= i < |input| ensures input[i].key.Parses() {
      assert input[i] in Elements(input);
      var f :| (f in in0 || f in in1) && input[i] in f.entries;
      if f in in0 { MemberOf(v[level], f); } else { MemberOf(v[level + 1], f); }
      var k :| 0 <= k < |f.entries| && f.entries[k] == input[i];
    }
  }

  lemma CompactIsMove(w: World, w': World, level: nat, in0: seq<File>, in1: seq<File>, input: seq<Entry>, outs: seq<File>)
    requires Compact(w, w', level, in0, in1, input, outs)
    ensures AfterMove(w.db, w'.db, level, in0, in1, outs, w.db.nextFile + |outs|) && w'.hist == w.hist
    ensures NumbersFit(w.db, level, in0, outs, w.db.nextFile + |outs|)
    ensures forall i :: 0 <= i < |outs| ==> GoodFile(outs[i])
  {
    CompactFields(w, w', level, in0, in1, input, outs);
    hide Compact, LevelOrder, GoodInputs, InputFiles, GoodFile, GoodVersion, NumbersFit, Outputs, AfterMove, GoodEdit, MoveEdit;
    InputsAreFiles(w.db.v, level, in0, in1);
    CompactInstalls(w, w', level, in0, in1, input, outs);
    OutputsFit(w.db, level, in0, outs);
    AddedAreGood(MoveEdit(w.db, level, in0, in1, outs, w.db.nextFile + |outs|), level + 1, outs);
  }

  lemma CompactInstalls(w: World, w': World, level: nat, in0: seq<File>, in1: seq<File>, input: seq<Entry>, outs: seq<File>)
    requires GoodVersion(w.db.v) && level + 1 < NUM_LEVELS && InputFiles(w.db.v, level, in0, in1)
    requires Compact(w, w', level, in0, in1, input, outs)
    ensures AfterMove(w.db, w'.db, level, in0, in1, outs, w.db.nextFile + |outs|) && w'.hist == w.hist
    ensures var e := MoveEdit(w.db, level, in0, in1, outs, w.db.nextFile + |outs|);
      GoodEdit(e) && e.added == AddAll(level + 1, outs)
  {
    hide LevelOrder, InstallVersion, Retained, Concat, EntriesOf, Sorted, GoodVersion, Outputs, GoodEdit, GoodInputs, InputFiles, AddAll,
      InputDeletions, Numbers;
  }

  lemma InputsAreFiles(v: Version, level: nat, in0: seq<File>, in1: seq<File>)
    requires GoodVersion(v) && LevelOrder(v) && level + 1 < NUM_LEVELS && GoodInputs(v, level, in0, in1)
    ensures InputFiles(v, level, in0, in1)
  {
  }

  lemma OutputsFit(db: Db, level: nat, in0: seq<File>, outs: seq<File>)
    requires GoodVersion(db.v) && level + 1 < NUM_LEVELS && Outputs(outs, db.nextFile)
    ensures NumbersFit(db, level, in0, outs, db.nextFile + |outs|)
  {
    OutputsNumbered(outs, db.nextFile);
  }

  lemma AddedAreGood(e: Edit, level: nat, outs: seq<File>)
    requires GoodEdit(e) && e.added == AddAll(level, outs)
    ensures forall i :: 0 <= i < |outs| ==> GoodFile(outs[i])
  {
    forall i | 0 <= i < |outs| ensures GoodFile(outs[i]) {
      assert AddAll(level, outs)[i] == (level, outs[i]);
    }
  }

  lemma CompactFields(w: World, w': World, level: nat, in0: seq<File>, in1: seq<File>, input: seq<Entry>, outs: seq<File>)
    requires Compact(w, w', level, in0, in1, input, outs)
    ensures GoodVersion(w.db.v) && LevelOrder(w.db.v) && level + 1 < NUM_LEVELS && GoodInputs(w.db.v, level, in0, in1)
    ensures Elements(input) == EntriesOf(in0) + EntriesOf(in1) && Outputs(outs, w.db.nextFile)
    ensures w'.db.lastSequence == w.db.lastSequence && w'.db.snapshots == w.db.snapshots
  {
    hide LevelOrder, InstallVersion, Retained, Resurrected, Newer, Outside, GoodInputs;
  }

  lemma CompactInput(w: World, w': World, level: nat, in0: seq<File>, in1: seq<File>, input: seq<Entry>, outs: seq<File>)
    requires LevelsOk(w.db) && MemOk(w.db) && Compact(w, w', level, in0, in1, input, outs)
    ensures Sorted(input) && AllParse(input) && Distinct(Elements(input))
    ensures SmallestSnapshot(w.db) < MAX_SEQUENCE || !SnapshotsOk(w.db)
  {
    hide LevelOrder, InstallVersion, Retained, Resurrected, Newer, Outside, Tidy, NumbersUnique;
    InputParses(w.db.v, level, in0, in1, input);
    EntriesBefore(w.db.v, level, in0, in1);
    assert Elements(input) <= DbEntries(w.db);
  }

  lemma CompactOutputs(w: World, w': World, level: nat, in0: seq<File>, in1: seq<File>, input: seq<Entry>, outs: seq<File>)
    requires LevelsOk(w.db) && MemOk(w.db) && SnapshotsOk(w.db) && Compact(w, w', level, in0, in1, input, outs)
    ensures OutputsOf(outs, EntriesOf(in0) + EntriesOf(in1))
    ensures EntriesOf(outs) == KeptSet(w.db.v, level, SmallestSnapshot(w.db), Elements(input))
  {
    CompactInput(w, w', level, in0, in1, input, outs);
    CompactIsMove(w, w', level, in0, in1, input, outs);
    hide LevelOrder, InstallVersion, Retained, Resurrected, Newer, Outside, Tidy, NumbersUnique, MemOk, GoodFile, Sorted, AfterMove;
    OutputsAreKept(w.db.v, level, SmallestSnapshot(w.db), input, outs);
    forall e | e in Elements(Concat(outs)) ensures e in EntriesOf(in0) + EntriesOf(in1) {
      ConcatMembers(outs, e);
      assert e in Elements(input);
    }
  }

  /** Every compaction keeps the invariant. */
  lemma CompactKeepsInv(w: World, w': World, level: nat, in0: seq<File>, in1: seq<File>, input: seq<Entry>, outs: seq<File>)
    requires Inv(w) && Compact(w, w', level, in0, in1, input, outs)
    ensures Inv(w')
  {
    hide LevelsOk, MemOk, LogsOk, ManifestOk, SnapshotsOk, LevelOrder, InstallVersion, GoodInputs, Retained, Distinct;
    hide GoodVersion, VersionEntries, RestOf, MemEntries, EntriesOf, CompactRest, DbEntries, KeptSet, Compact, AfterMove;
    CompactFields(w, w', level, in0, in1, input, outs);
    CompactIsMove(w, w', level, in0, in1, input, outs);
    CompactOutputs(w, w', level, in0, in1, input, outs);
    MoveKeepsOrder(w, w', level, in0, in1, outs, w.db.nextFile + |outs|);
  }

  /** A compaction keeps the reads of every key it spares. */
  lemma CompactKeepsReads(w: World, w': World, level: nat, in0: seq<File>, in1: seq<File>, input: seq<Entry>, outs: seq<File>, u: UserKey)
    requires Inv(w) && Compact(w, w', level, in0, in1, input, outs) && ReadsOk(w, u) && Spares(w.db, level, in0, in1, u)
    ensures ReadsOk(w', u)
  {
    hide LevelsOk, MemOk, LogsOk, ManifestOk, SnapshotsOk, HistOk, ReadsOk, LevelOrder, InstallVersion, GoodInputs, Retained;
    hide GoodVersion, VersionEntries, RestOf, MemEntries, EntriesOf, CompactRest, DbEntries, KeptSet, Resurrected, Distinct, Compact, AfterMove, Spares;
    CompactFields(w, w', level, in0, in1, input, outs);
    CompactIsMove(w, w', level, in0, in1, input, outs);
    CompactOutputs(w, w', level, in0, in1, input, outs);
    MoveKeepsOrder(w, w', level, in0, in1, outs, w.db.nextFile + |outs|);
    DistinctDb(w.db);
    CompactEntries(w.db, w'.db, level, in0, in1, EntriesOf(outs));
    SparedKey(w.db, level, in0, in1, u);
    ReadsSurvive(w, w', level, CompactRest(w.db, level, in0, in1), Elements(input), u);
  }

  lemma SparedKey(db: Db, level: nat, in0: seq<File>, in1: seq<File>, u: UserKey)
    requires Spares(db, level, in0, in1, u)
    ensures GoodVersion(db.v) && LevelOrder(db.v) && level + 1 < NUM_LEVELS
    ensures !Resurrected(db.v, level, SmallestSnapshot(db), CompactRest(db, level, in0, in1), EntriesOf(in0) + EntriesOf(in1), u)
  {
  }

  // The database around a compaction, as the rest plus the inputs, then plus what is kept.
  lemma CompactEntries(db: Db, db': Db, level: nat, in0: seq<File>, in1: seq<File>, kept: set<Entry>)
    requires GoodVersion(db.v) && level + 1 < NUM_LEVELS
    requires VersionEntries(db.v) == RestOf(db.v, level, in0, in1) + (EntriesOf(in0) + EntriesOf(in1))
    requires VersionEntries(db'.v) == RestOf(db.v, level, in0, in1) + kept
    requires MemEntries(db') == MemEntries(db)
    ensures DbEntries(db) == CompactRest(db, level, in0, in1) + (EntriesOf(in0) + EntriesOf(in1))
    ensures DbEntries(db') == CompactRest(db, level, in0, in1) + kept
  {
    hide GoodVersion, VersionEntries, RestOf, MemEntries, EntriesOf;
  }

  lemma ReadsSurvive(w: World, w': World, level: nat, rest: set<Entry>, es: set<Entry>, u: UserKey)
    requires ReadsOk(w, u) && Distinct(DbEntries(w.db)) && LevelOrder(w.db.v)
    requires w'.hist == w.hist && w'.db.lastSequence == w.db.lastSequence && w'.db.snapshots == w.db.snapshots
    requires DbEntries(w.db) == rest + es
    requires DbEntries(w'.db) == rest + KeptSet(w.db.v, level, SmallestSnapshot(w.db), es)
    requires !Resurrected(w.db.v, level, SmallestSnapshot(w.db), rest, es, u)
    ensures ReadsOk(w', u)
  {
    hide LevelOrder, Distinct, Resurrected, Read, DbEntries, Kept, KeptSet;
    ReadsPreservedIff(w.db.v, level, SmallestSnapshot(w.db), rest, es, u);
  }

  lemma DistinctDb(db: Db)
    requires MemOk(db)
    ensures Distinct(DbEntries(db))
  {
  }
}
