/** The engine as a state machine: writes, memtable switches, flushes, compactions, snapshots,
    file deletion, and crashes followed by recovery. */
module Engine {
  import opened Entries
  import opened Versions
  import opened Selection
  import opened Builders
  import opened Compactions
  import opened DropRules
  import opened Levels
  import opened Installing

  // Appended bytes survive a crash; logs hold the logged entries in order.
  datatype Disk = Disk(manifest: seq<Edit>, logs: map<nat, seq<Entry>>, tables: set<nat>)

  datatype Db = Db(
    mem: seq<Entry>, imm: Option<seq<Entry>>, v: Version,
    lastSequence: nat, snapshots: seq<nat>,       // oldest snapshot first
    logNumber: nat,                               // logs below it are no longer needed
    logfileNumber: nat,                           // the log of mem
    nextFile: nat, disk: Disk)

  // The database with everything ever written to it.
  datatype World = World(db: Db, hist: set<Entry>)

  ghost function ImmEntries(db: Db): set<Entry> { if db.imm.Some? then Elements(db.imm.value) else {} }

  ghost function MemEntries(db: Db): set<Entry> { Elements(db.mem) + ImmEntries(db) }

  ghost function DbEntries(db: Db): set<Entry> { MemEntries(db) + VersionEntries(db.v) }

  // DoCompactionWork's smallest_snapshot.
  function SmallestSnapshot(db: Db): nat { if db.snapshots == [] then db.lastSequence else db.snapshots[0] }

  // Logs that recovery will replay, oldest first.
  function LiveLog(disk: Disk, logNumber: nat, logfileNumber: nat): seq<Entry> {
    (if logNumber != logfileNumber && logNumber in disk.logs then disk.logs[logNumber] else []) +
    (if logfileNumber in disk.logs then disk.logs[logfileNumber] else [])
  }

  // ----- The invariant -----

  ghost predicate NumbersUnique(v: Version)
    requires GoodVersion(v)
  {
    forall l, m, f, g :: 0 <= l < m < NUM_LEVELS && f in v[l] && g in v[m] ==> f.number != g.number
  }

  ghost predicate GoodMem(es: seq<Entry>) { Sorted(es) && AllParse(es) }

  predicate Ascending(es: seq<Entry>) { forall i, j :: 0 <= i < j < |es| ==> es[i].key.sn < es[j].key.sn }

  ghost predicate LevelsOk(db: Db) {
    && GoodVersion(db.v) && LevelOrder(db.v) && Tidy(db.v) && NumbersUnique(db.v)
  }

  ghost predicate MemOk(db: Db) {
    && GoodMem(db.mem) && (db.imm.Some? ==> GoodMem(db.imm.value))
    && Newer(Elements(db.mem), ImmEntries(db)) && Newer(MemEntries(db), VersionEntries(db.v))
    && Distinct(DbEntries(db))
    && db.lastSequence < MAX_SEQUENCE
    && forall e :: e in DbEntries(db) ==> e.key.sn <= db.lastSequence
  }

  ghost predicate LogsOk(db: Db) {
    && db.logNumber <= db.logfileNumber < db.nextFile
    && db.logfileNumber in db.disk.logs && db.logNumber in db.disk.logs
    && (db.imm.None? <==> db.logNumber == db.logfileNumber)
    && (forall n :: n in db.disk.logs && n >= db.logNumber ==> n == db.logNumber || n == db.logfileNumber)
    && Elements(db.mem) == Elements(db.disk.logs[db.logfileNumber])
    && (db.imm.Some? ==> ImmEntries(db) == Elements(db.disk.logs[db.logNumber]))
    && Ascending(LiveLog(db.disk, db.logNumber, db.logfileNumber))
  }

  ghost predicate ManifestOk(db: Db)
    requires GoodVersion(db.v)
  {
    && db.disk.manifest != []
    && var last := db.disk.manifest[|db.disk.manifest| - 1];
    && last.logNumber == Some(db.logNumber)
    && last.nextFile.Some? && last.nextFile.value <= db.nextFile && Recorded(db.v, db.disk.manifest, last.nextFile.value)
    && last.lastSequence.Some? && last.lastSequence.value <= db.lastSequence
    && (forall e :: e in VersionEntries(db.v) ==> e.key.sn <= last.lastSequence.value)
    && (last.lastSequence.value == db.lastSequence || exists e :: e in MemEntries(db) && e.key.sn == db.lastSequence)
    && forall l, f :: 0 <= l < NUM_LEVELS && f in db.v[l] ==> f.number in db.disk.tables
  }

  ghost predicate SnapshotsOk(db: Db) {
    && (forall i, j :: 0 <= i < j < |db.snapshots| ==> db.snapshots[i] <= db.snapshots[j])
    && forall i :: 0 <= i < |db.snapshots| ==> db.snapshots[i] <= db.lastSequence
  }

  // Nothing is stored that was never written.
  ghost predicate HistOk(w: World) {
    Distinct(w.hist) && DbEntries(w.db) <= w.hist && forall e :: e in w.hist ==> e.key.sn <= w.db.lastSequence
  }

  ghost predicate Inv(w: World) {
    LevelsOk(w.db) && MemOk(w.db) && LogsOk(w.db) && ManifestOk(w.db) && SnapshotsOk(w.db) && HistOk(w)
  }

  /** Any reader of u at a live snapshot, or later, sees what an uncompacted store would show.
      Not every compaction keeps this. */
  ghost predicate ReadsOk(w: World, u: UserKey) {
    forall s :: SmallestSnapshot(w.db) <= s ==> Read(DbEntries(w.db), u, s) == Read(w.hist, u, s)
  }

  // ----- Steps -----

  // The entries of one write group, numbered from first on.
  predicate Group(g: seq<Entry>, first: nat) {
    forall i :: 0 <= i < |g| ==> g[i].key.sn == first + i && g[i].key.Parses()
  }

  // Log the group, then insert it into the memtable.
  ghost predicate Write(w: World, w': World, g: seq<Entry>) {
    var db, db' := w.db, w'.db;
    && Group(g, db.lastSequence + 1) && db.lastSequence + |g| < MAX_SEQUENCE
    && Sorted(db'.mem) && Elements(db'.mem) == Elements(db.mem) + Elements(g)
    && db' == db.(mem := db'.mem, lastSequence := db.lastSequence + |g|, disk := Logged(db, g))
    && w'.hist == w.hist + Elements(g)
  }

  function Logged(db: Db, g: seq<Entry>): Disk {
    var log := if db.logfileNumber in db.disk.logs then db.disk.logs[db.logfileNumber] else [];
    db.disk.(logs := db.disk.logs[db.logfileNumber := log + g])
  }

  // MakeRoomForWrite starts a new log and a new memtable.
  ghost predicate Switch(w: World, w': World) {
    var db := w.db;
    && db.imm.None?
    && w' == w.(db := db.(mem := [], imm := Some(db.mem), logfileNumber := db.nextFile, nextFile := db.nextFile + 1,
                          disk := db.disk.(logs := db.disk.logs[db.nextFile := []])))
  }

  // The database after LogAndApply(e).
  ghost function LogAndApply(db: Db, e: Edit): Db
    requires GoodVersion(db.v) && GoodEdit(e)
  {
    db.(v := InstallVersion(db.v, e), disk := db.disk.(manifest := db.disk.manifest + [e]))
  }

  // CompactMemTable: the immutable memtable becomes a table of some level.
  ghost predicate Flush(w: World, w': World, level: nat, size: nat) {
    var db := w.db;
    && GoodVersion(db.v) && db.imm.Some? && GoodMem(db.imm.value) && level <= MAX_MEM_COMPACT_LEVEL
    && var es, f := db.imm.value, File(db.nextFile, size, db.imm.value);
    && var e := Edit(Some(db.logfileNumber), Some(db.nextFile + 1), Some(db.lastSequence), {},
                     if es == [] then [] else AddAll(level, [f]));
    && (es != [] && level > 0 ==> forall l :: 0 <= l <= level ==> NoOverlap(db.v, l, Smallest(f).user, Largest(f).user))
    && GoodEdit(e)
    && w' == w.(db := LogAndApply(db, e).(imm := None, logNumber := db.logfileNumber, nextFile := db.nextFile + 1,
                  disk := db.disk.(manifest := db.disk.manifest + [e], tables := db.disk.tables + {db.nextFile})))
  }

  // A compaction, run and installed.
  ghost predicate Compact(w: World, w': World, level: nat, in0: seq<File>, in1: seq<File>, input: seq<Entry>, outs: seq<File>) {
    var db := w.db;
    && GoodVersion(db.v) && LevelOrder(db.v) && level + 1 < NUM_LEVELS && GoodInputs(db.v, level, in0, in1)
    && Sorted(input) && Elements(input) == EntriesOf(in0) + EntriesOf(in1)
    && Concat(outs) == Retained(db.v, level, SmallestSnapshot(db), input, 0) && Outputs(outs, db.nextFile)
    && var e := Edit(Some(db.logNumber), Some(db.nextFile + |outs|), Some(db.lastSequence),
                     InputDeletions(level, in0, in1), AddAll(level + 1, outs));
    && GoodEdit(e)
    && w' == w.(db := LogAndApply(db, e).(nextFile := db.nextFile + |outs|,
                  disk := db.disk.(manifest := db.disk.manifest + [e], tables := db.disk.tables + Numbers(outs))))
  }

  // No deletion of u that the compaction removes hides an older value in a file it leaves alone.
  ghost predicate Spares(db: Db, level: nat, in0: seq<File>, in1: seq<File>, u: UserKey) {
    && GoodVersion(db.v) && LevelOrder(db.v) && level + 1 < NUM_LEVELS
    && !Resurrected(db.v, level, SmallestSnapshot(db), MemEntries(db) + RestOf(db.v, level, in0, in1), EntriesOf(in0) + EntriesOf(in1), u)
  }

  // A single file moves down one level.
  ghost predicate TrivialMove(w: World, w': World, level: nat, f: File) {
    var db := w.db;
    && GoodVersion(db.v) && LevelOrder(db.v) && level + 1 < NUM_LEVELS && GoodInputs(db.v, level, [f], [])
    && var e := Edit(Some(db.logNumber), Some(db.nextFile), Some(db.lastSequence),
                     InputDeletions(level, [f], []), AddAll(level + 1, [f]));
    && GoodEdit(e)
    && w' == w.(db := LogAndApply(db, e))
  }

  ghost predicate TakeSnapshot(w: World, w': World) {
    w' == w.(db := w.db.(snapshots := w.db.snapshots + [w.db.lastSequence]))
  }

  ghost predicate ReleaseSnapshot(w: World, w': World, i: nat) {
    && i < |w.db.snapshots|
    && w' == w.(db := w.db.(snapshots := w.db.snapshots[..i] + w.db.snapshots[i + 1..]))
  }

  // DeleteObsoleteFiles: logs below log_number, tables in no version.
  ghost predicate DeleteObsolete(w: World, w': World, goneLogs: set<nat>, goneTables: set<nat>) {
    var db := w.db;
    && GoodVersion(db.v)
    && (forall n :: n in goneLogs ==> n < db.logNumber)
    && (forall l, f :: 0 <= l < NUM_LEVELS && f in db.v[l] ==> f.number !in goneTables)
    && w' == w.(db := db.(disk := db.disk.(logs := db.disk.logs - goneLogs, tables := db.disk.tables - goneTables)))
  }
}
