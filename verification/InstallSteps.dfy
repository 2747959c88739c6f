/** Flushes, compactions and trivial moves keep the engine's invariant. */
module InstallSteps {
  import opened Entries
  import opened Versions
  import opened Builders
  import opened Levels
  import opened Installing
  import opened Engine

  // Appending an edit that adds numbers new to their level, and new to all deeper levels.
  lemma RecordedAppend(v: Version, manifest: seq<Edit>, next: nat, e: Edit, next': nat)
    requires GoodVersion(v) && Recorded(v, manifest, next) && GoodEdit(e) && next <= next'
    requires Tidy(InstallVersion(v, e))
    requires forall l :: 0 <= l < NUM_LEVELS ==> Numbered(AddedAt(e.added, l))
    requires forall l, m, f :: 0 <= l <= m < NUM_LEVELS && f in AddedAt(e.added, l) ==> f.number !in UsedAt(manifest, m)
    requires forall l, f :: 0 <= l < NUM_LEVELS && f in AddedAt(e.added, l) ==> f.number < next'
    requires forall l, f :: 0 <= l < NUM_LEVELS && f in InstallVersion(v, e)[l] ==> f in v[l] || f in AddedAt(e.added, l)
    requires forall l, m, f :: 0 <= l < m < NUM_LEVELS && f in InstallVersion(v, e)[l] ==> f.number !in Numbers(AddedAt(e.added, m))
    ensures Recorded(InstallVersion(v, e), manifest + [e], next')
  {
    hide InstallVersion, AddedAt, Used, Replay, AddedOnce;
    ReplayAppend(v, manifest, e);
    var v' := InstallVersion(v, e);
    forall l | 0 <= l < NUM_LEVELS ensures forall n :: n in UsedAt(manifest + [e], l) ==> n < next' {
      assert UsedAt(manifest + [e], l) == UsedAt(manifest, l) + Numbers(AddedAt(e.added, l));
    }
    forall l, m, f: File | 0 <= l < m < NUM_LEVELS && f in v'[l] ensures f.number !in UsedAt(manifest + [e], m) {
      assert UsedAt(manifest + [e], m) == UsedAt(manifest, m) + Numbers(AddedAt(e.added, m));
    }
    forall l, f: File | 0 <= l < NUM_LEVELS && f in v'[l] ensures f.number in UsedAt(manifest + [e], l) {
      assert UsedAt(manifest + [e], l) == UsedAt(manifest, l) + Numbers(AddedAt(e.added, l));
    }
  }

  // ----- Flush -----

  // The table a flush writes, if the memtable holds anything.
  ghost function Flushed(db: Db, size: nat): seq<File>
    requires db.imm.Some?
  {
    if db.imm.value == [] then [] else [File(db.nextFile, size, db.imm.value)]
  }

  ghost function FlushEdit(db: Db, level: nat, size: nat): Edit
    requires db.imm.Some?
  {
    Edit(Some(db.logfileNumber), Some(db.nextFile + 1), Some(db.lastSequence), {}, AddAll(level, Flushed(db, size)))
  }

  lemma FreshNumbers(db: Db)
    requires GoodVersion(db.v) && ManifestOk(db)
    ensures forall l, n :: 0 <= l < NUM_LEVELS && n in UsedAt(db.disk.manifest, l) ==> n < db.nextFile
    ensures forall l, f :: 0 <= l < NUM_LEVELS && f in db.v[l] ==> f.number < db.nextFile
  {
  }

  lemma FlushIsAdded(db: Db, level: nat, size: nat)
    requires LevelsOk(db) && ManifestOk(db) && db.imm.Some? && level < NUM_LEVELS
    requires GoodEdit(FlushEdit(db, level, size))
    ensures AddedFiles(db.v, InstallVersion(db.v, FlushEdit(db, level, size)), level, Flushed(db, size))
  {
    FreshNumbers(db);
    hide LevelOrder, Recorded, NumbersUnique;
    InstallIsAdded(db.v, FlushEdit(db, level, size), level, Flushed(db, size));
  }

  lemma FlushKeepsLevels(db: Db, level: nat, size: nat, v': Version)
    requires LevelsOk(db) && MemOk(db) && ManifestOk(db) && db.imm.Some? && level < NUM_LEVELS
    requires GoodVersion(v') && AddedFiles(db.v, v', level, Flushed(db, size))
    requires db.imm.value != [] && level > 0 ==> forall l :: 0 <= l <= level ==>
      NoOverlap(db.v, l, Smallest(File(db.nextFile, size, db.imm.value)).user, Largest(File(db.nextFile, size, db.imm.value)).user)
    ensures LevelOrder(v') && Tidy(v') && NumbersUnique(v')
  {
    FreshNumbers(db);
    if db.imm.value != [] {
      var f := File(db.nextFile, size, db.imm.value);
      FlushedIsNewer(db, f);
      hide LevelOrder, MemOk, ManifestOk, NoOverlap, GoodFile, Newer, VersionEntries;
      FlushKeepsLevelOrder(db.v, v', level, f);
      FlushKeepsUnique(db.v, v', level, f);
    } else {
      NothingAdded(db.v, v', level);
    }
  }

  lemma FlushedIsNewer(db: Db, f: File)
    requires MemOk(db) && db.imm.Some? && f.entries == db.imm.value && f.entries != []
    ensures GoodFile(f) && Newer(Elements(f.entries), VersionEntries(db.v))
  {
    assert Elements(f.entries) <= MemEntries(db);
    hide VersionEntries, Distinct;
  }

  lemma FlushKeepsUnique(v: Version, v': Version, level: nat, f: File)
    requires GoodVersion(v) && GoodVersion(v') && NumbersUnique(v) && level < NUM_LEVELS && AddedFiles(v, v', level, [f])
    requires forall l, g :: 0 <= l < NUM_LEVELS && g in v[l] ==> g.number < f.number
    ensures NumbersUnique(v')
  {
    hide GoodFile, SortedFiles;
    forall l, m, a: File, b: File | 0 <= l < m < NUM_LEVELS && a in v'[l] && b in v'[m] ensures a.number != b.number {
      assert a in v[l] || a == f;
      assert b in v[m] || b == f;
    }
  }

  lemma NothingAdded(v: Version, v': Version, level: nat)
    requires GoodVersion(v) && GoodVersion(v') && Tidy(v) && level < NUM_LEVELS && AddedFiles(v, v', level, [])
    ensures v' == v
  {
    SortedUnique(v[level], v'[level]);
  }

  lemma EntriesAfterAdd(v: Version, v': Version, level: nat, fs: seq<File>)
    requires GoodVersion(v) && GoodVersion(v') && level < NUM_LEVELS && AddedFiles(v, v', level, fs)
    ensures VersionEntries(v') == VersionEntries(v) + EntriesOf(fs)
  {
    hide GoodFile, SortedFiles, Numbered;
    forall e | e in VersionEntries(v') ensures e in VersionEntries(v) + EntriesOf(fs) {
      var l :| 0 <= l < |v'| && e in EntriesOf(v'[l]);
      var f :| f in v'[l] && e in f.entries;
      if f in v[l] { InVersion(v, l, f, e); }
    }
    forall e | e in VersionEntries(v) + EntriesOf(fs) ensures e in VersionEntries(v') {
      if e in VersionEntries(v) {
        var l :| 0 <= l < |v| && e in EntriesOf(v[l]);
        var f :| f in v[l] && e in f.entries;
        InVersion(v', l, f, e);
      } else {
        var f :| f in fs && e in f.entries;
        InVersion(v', level, f, e);
      }
    }
  }

  lemma FlushedEntries(db: Db, size: nat)
    requires db.imm.Some?
    ensures EntriesOf(Flushed(db, size)) == Elements(db.imm.value)
  {
    if db.imm.value != [] {
      var f := File(db.nextFile, size, db.imm.value);
      assert f in [f];
      forall e | e in db.imm.value ensures e in EntriesOf([f]) {}
    }
  }

  lemma FlushKeepsRecorded(db: Db, level: nat, size: nat)
    requires LevelsOk(db) && ManifestOk(db) && db.imm.Some? && level < NUM_LEVELS
    requires GoodEdit(FlushEdit(db, level, size))
    ensures Recorded(InstallVersion(db.v, FlushEdit(db, level, size)), db.disk.manifest + [FlushEdit(db, level, size)], db.nextFile + 1)
  {
    var e, fs := FlushEdit(db, level, size), Flushed(db, size);
    FreshNumbers(db);
    FlushIsAdded(db, level, size);
    hide LevelOrder, NumbersUnique, InstallVersion;
    forall l | 0 <= l < NUM_LEVELS ensures AddedAt(e.added, l) == if l == level then fs else [] {
      AddedAtOneLevel(fs, level, l);
    }
    var last := db.disk.manifest[|db.disk.manifest| - 1];
    RecordedAppend(db.v, db.disk.manifest, last.nextFile.value, e, db.nextFile + 1);
  }

  // What a flush changes.
  lemma FlushParts(w: World, w': World, level: nat, size: nat)
    requires Flush(w, w', level, size)
    ensures w.db.imm.Some? && GoodVersion(w.db.v) && level < NUM_LEVELS && GoodEdit(FlushEdit(w.db, level, size))
    ensures w'.hist == w.hist
    ensures w'.db == w.db.(v := InstallVersion(w.db.v, FlushEdit(w.db, level, size)), imm := None,
      logNumber := w.db.logfileNumber, nextFile := w.db.nextFile + 1,
      disk := w.db.disk.(manifest := w.db.disk.manifest + [FlushEdit(w.db, level, size)],
                         tables := w.db.disk.tables + {w.db.nextFile}))
  {
    assert AddAll(level, []) == [];
  }

  lemma FlushKeepsMem(w: World, w': World, level: nat, size: nat)
    requires LevelsOk(w.db) && MemOk(w.db) && ManifestOk(w.db) && Flush(w, w', level, size)
    ensures VersionEntries(w'.db.v) == VersionEntries(w.db.v) + ImmEntries(w.db)
    ensures MemEntries(w'.db) == Elements(w.db.mem) && DbEntries(w'.db) == DbEntries(w.db)
    ensures MemOk(w'.db)
  {
    hide Flush, InstallVersion, LevelsOk, MemOk, ManifestOk, AddedFiles, VersionEntries;
    FlushParts(w, w', level, size);
    FlushIsAdded(w.db, level, size);
    EntriesAfterAdd(w.db.v, w'.db.v, level, Flushed(w.db, size));
    FlushedEntries(w.db, size);
    MemAfterFlush(w.db, w'.db);
  }

  lemma MemAfterFlush(db: Db, db': Db)
    requires MemOk(db) && db'.mem == db.mem && db'.imm.None? && db'.lastSequence == db.lastSequence
    requires VersionEntries(db'.v) == VersionEntries(db.v) + ImmEntries(db)
    ensures MemEntries(db') == Elements(db.mem) && DbEntries(db') == DbEntries(db) && MemOk(db')
  {
    hide VersionEntries;
    assert DbEntries(db') == DbEntries(db);
  }

  lemma FlushKeepsLogs(w: World, w': World, level: nat, size: nat)
    requires LogsOk(w.db) && Flush(w, w', level, size)
    ensures LogsOk(w'.db)
  {
    hide Flush;
    FlushParts(w, w', level, size);
    hide InstallVersion, GoodVersion;
    var db, db' := w.db, w'.db;
    var log, last := LiveLog(db.disk, db.logNumber, db.logfileNumber), db.disk.logs[db.logfileNumber];
    SuffixAscends(log[..|log| - |last|], last);
    assert log[..|log| - |last|] + last == log;
    assert LiveLog(db'.disk, db'.logNumber, db'.logfileNumber) == last;
  }

  lemma SuffixAscends(a: seq<Entry>, b: seq<Entry>)
    requires Ascending(a + b)
    ensures Ascending(b)
  {
    forall i, j | 0 <= i < j < |b| ensures b[i].key.sn < b[j].key.sn {
      assert (a + b)[|a| + i] == b[i] && (a + b)[|a| + j] == b[j];
    }
  }

  lemma FlushKeepsManifest(w: World, w': World, level: nat, size: nat)
    requires LevelsOk(w.db) && MemOk(w.db) && ManifestOk(w.db) && Flush(w, w', level, size)
    ensures ManifestOk(w'.db)
  {
    var db, db', e := w.db, w'.db, FlushEdit(w.db, level, size);
    FlushParts(w, w', level, size);
    FlushKeepsMem(w, w', level, size);
    FlushKeepsRecorded(db, level, size);
    FlushIsAdded(db, level, size);
    hide LevelOrder, Recorded, InstallVersion, NumbersUnique, Newer, Distinct, NoOverlap;
    assert db'.disk.manifest[|db'.disk.manifest| - 1] == e;
    forall x | x in VersionEntries(db'.v) ensures x.key.sn <= db.lastSequence {
      assert x in DbEntries(db');
    }
  }

  lemma FlushKeepsVersion(w: World, w': World, level: nat, size: nat)
    requires LevelsOk(w.db) && MemOk(w.db) && ManifestOk(w.db) && Flush(w, w', level, size)
    ensures LevelsOk(w'.db)
  {
    hide MemOk, ManifestOk, NoOverlap, NumbersUnique, LevelOrder, InstallVersion, Tidy, GoodFile, DbEntries;
    FlushParts(w, w', level, size);
    FlushIsAdded(w.db, level, size);
    FlushKeepsLevels(w.db, level, size, w'.db.v);
  }

  lemma FlushKeepsSnapshots(w: World, w': World, level: nat, size: nat)
    requires SnapshotsOk(w.db) && HistOk(w) && Flush(w, w', level, size) && DbEntries(w'.db) == DbEntries(w.db)
    ensures SnapshotsOk(w'.db) && HistOk(w') && w'.hist == w.hist && SmallestSnapshot(w'.db) == SmallestSnapshot(w.db)
  {
    hide InstallVersion, DbEntries, Distinct, NoOverlap, GoodVersion, GoodEdit, GoodMem;
  }

  lemma FlushKeepsInv(w: World, w': World, level: nat, size: nat)
    requires Inv(w) && Flush(w, w', level, size)
    ensures Inv(w') && DbEntries(w'.db) == DbEntries(w.db)
    ensures w'.hist == w.hist && SmallestSnapshot(w'.db) == SmallestSnapshot(w.db)
  {
    hide LevelsOk, MemOk, LogsOk, ManifestOk, SnapshotsOk, HistOk, Flush, DbEntries, SmallestSnapshot;
    FlushKeepsMem(w, w', level, size);
    FlushKeepsLogs(w, w', level, size);
    FlushKeepsManifest(w, w', level, size);
    FlushKeepsVersion(w, w', level, size);
    FlushKeepsSnapshots(w, w', level, size);
  }
}
