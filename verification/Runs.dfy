/** Whole runs of the engine, crashes included. */
module Runs {
  import opened Entries
  import opened Versions
  import opened Selection
  import opened Builders
  import opened Compactions
  import opened DropRules
  import opened Levels
  import opened Installing
  import opened Engine
  import opened WriteSteps
  import opened InstallSteps
  import opened MoveSteps
  import opened Recovery

  datatype Step =
    | DoWrite(g: seq<Entry>)
    | DoSwitch
    | DoFlush(level: nat, size: nat)
    | DoCompact(level: nat, in0: seq<File>, in1: seq<File>, input: seq<Entry>, outs: seq<File>)
    | DoMove(level: nat, f: File)
    | DoTakeSnapshot
    | DoReleaseSnapshot(i: nat)
    | DoDeleteObsolete(goneLogs: set<nat>, goneTables: set<nat>)
    | DoCrash(g: seq<Entry>, fs: seq<File>, chunks: seq<seq<Entry>>, newLog: nat)

  ghost predicate Next(w: World, w': World, step: Step) {
    match step
    case DoWrite(g) => Write(w, w', g)
    case DoSwitch => Switch(w, w')
    case DoFlush(level, size) => Flush(w, w', level, size)
    case DoCompact(level, in0, in1, input, outs) => Compact(w, w', level, in0, in1, input, outs)
    case DoMove(level, f) => TrivialMove(w, w', level, f)
    case DoTakeSnapshot => TakeSnapshot(w, w')
    case DoReleaseSnapshot(i) => ReleaseSnapshot(w, w', i)
    case DoDeleteObsolete(goneLogs, goneTables) => DeleteObsolete(w, w', goneLogs, goneTables)
    case DoCrash(g, fs, chunks, newLog) => Crash(w, w', g, fs, chunks, newLog)
  }

  // The record NewDB writes to a fresh manifest.
  ghost function NewDb(): Disk { Disk([Edit(Some(0), Some(2), Some(0), {}, [])], map[], {}) }

  ghost predicate Init(w: World) { Recovered(NewDb(), w.db, [], [], 3) && w.hist == {} }

  ghost predicate Run(ws: seq<World>, steps: seq<Step>) {
    && |ws| == |steps| + 1 && Init(ws[0])
    && forall i :: 0 <= i < |steps| ==> Next(ws[i], ws[i + 1], steps[i])
  }

  // ----- The first state -----

  lemma EmptyLevels(v: Version)
    requires |v| == NUM_LEVELS && forall l :: 0 <= l < NUM_LEVELS ==> v[l] == []
    ensures GoodVersion(v) && LevelOrder(v) && Tidy(v) && NumbersUnique(v) && VersionEntries(v) == {}
  {
  }

  lemma EmptyVersion()
    ensures |EMPTY_VERSION| == NUM_LEVELS && forall l :: 0 <= l < NUM_LEVELS ==> EMPTY_VERSION[l] == []
  {
  }

  lemma NewDbReplays()
    ensures GoodEdits(NewDb().manifest) && Replay(NewDb().manifest) == EMPTY_VERSION
    ensures LatestNextFile(NewDb().manifest) == 2 && LatestLog(NewDb().manifest) == 0 && LatestSequence(NewDb().manifest) == 0
  {
    var m := NewDb().manifest;
    forall l | 0 <= l < NUM_LEVELS ensures Replay(m)[l] == [] { NothingReplayed(m, l); }
    EmptyVersion();
    assert Replay(m) == EMPTY_VERSION;
  }

  lemma NothingReplayed(m: seq<Edit>, l: nat)
    requires |m| == 1 && m[0].added == [] && GoodEdits(m)
    ensures Save([], ApplyAll(EMPTY, m, l)) == []
  {
    assert m[..|m| - 1] == [] && ApplyAll(EMPTY, [], l) == EMPTY;
    assert AddedAt(m[0].added, l) == [] && ApplyAt(EMPTY, m[0], l).added == [];
  }

  lemma InitParts(w: World, v: Version, e: Edit)
    requires GoodVersion(v) && v == EMPTY_VERSION && e == RecoveryEdit([], 3, 0) && Init(w)
    ensures GoodEdit(e)
    ensures w.db == Db([], None, InstallVersion(v, e), 0, [], 3, 3, 4, Disk([Snapshot(v), e], map[3 := []], {}))
  {
    NewDbReplays();
    LogsFromEmpty(map[], 0, 3);
  }

  lemma InitInv(w: World)
    requires Init(w)
    ensures Inv(w) && forall u :: ReadsOk(w, u)
  {
    EmptyVersion();
    InitParts(w, EMPTY_VERSION, RecoveryEdit([], 3, 0));
    EmptyLevels(EMPTY_VERSION);
    hide Recovered, Snapshot, LevelOrder, GoodFile, VersionEntries, NumbersUnique;
    InitStart(EMPTY_VERSION, w);
  }

  lemma InitStart(v: Version, w: World)
    requires GoodVersion(v) && LevelOrder(v) && Tidy(v) && NumbersUnique(v) && VersionEntries(v) == {}
    requires forall l :: 0 <= l < NUM_LEVELS ==> v[l] == []
    requires GoodEdit(RecoveryEdit([], 3, 0)) && w.hist == {}
    requires w.db == Db([], None, InstallVersion(v, RecoveryEdit([], 3, 0)), 0, [], 3, 3, 4,
                        Disk([Snapshot(v), RecoveryEdit([], 3, 0)], map[3 := []], {}))
    ensures Inv(w) && DbEntries(w.db) == w.hist
  {
    hide MemOk, ManifestOk, LogsOk, HistOk, SnapshotsOk, InstallVersion, Recorded, Snapshot, LevelOrder, GoodFile, VersionEntries,
      NumbersUnique, GoodEdit, Tidy;
    StartVersion(v);
    RestartedLogs(w.db, 3);
    StartMem(w.db);
    StartManifest(w.db);
    StartHist(w);
  }

  lemma StartHist(w: World)
    requires w.db.mem == [] && w.db.imm.None? && VersionEntries(w.db.v) == {} && w.hist == {} && w.db.snapshots == []
    ensures HistOk(w) && SnapshotsOk(w.db)
  {
    hide VersionEntries;
    assert DbEntries(w.db) == {};
  }

  lemma StartVersion(v: Version)
    requires GoodVersion(v) && LevelOrder(v) && Tidy(v) && NumbersUnique(v) && VersionEntries(v) == {}
    requires forall l :: 0 <= l < NUM_LEVELS ==> v[l] == []
    requires GoodEdit(RecoveryEdit([], 3, 0))
    ensures var v' := InstallVersion(v, RecoveryEdit([], 3, 0));
      && LevelOrder(v') && Tidy(v') && NumbersUnique(v') && VersionEntries(v') == {}
      && (forall l :: 0 <= l < NUM_LEVELS ==> v'[l] == [])
      && Recorded(v', [Snapshot(v), RecoveryEdit([], 3, 0)], 4)
  {
    assert Rebuilt([], []) && EntriesOf([]) == {};
    hide InstallVersion, Recorded, Snapshot, LevelOrder, GoodFile, VersionEntries, EntriesOf, NumbersUnique, GoodEdit, SortedFiles;
    assert Newer({}, {});
    RecoveredFiles(v, [], [], 2, 3, 0);
    NothingAdded(v, InstallVersion(v, RecoveryEdit([], 3, 0)), 0);
  }

  lemma StartMem(db: Db)
    requires db.mem == [] && db.imm.None? && VersionEntries(db.v) == {} && db.lastSequence == 0
    ensures MemOk(db)
  {
  }

  lemma StartManifest(db: Db)
    requires GoodVersion(db.v) && (forall l :: 0 <= l < NUM_LEVELS ==> db.v[l] == []) && VersionEntries(db.v) == {}
    requires |db.disk.manifest| == 2 && db.disk.manifest[1] == RecoveryEdit([], 3, 0) && Recorded(db.v, db.disk.manifest, 4)
    requires db.logNumber == 3 && db.nextFile == 4 && db.lastSequence == 0
    ensures ManifestOk(db)
  {
    hide Recorded, VersionEntries;
  }

  // ----- Runs -----

  lemma NextKeepsInv(w: World, w': World, step: Step)
    requires Inv(w) && Next(w, w', step)
    ensures Inv(w')
  {
    hide Inv, Write, Switch, Flush, Compact, TrivialMove, TakeSnapshot, ReleaseSnapshot, DeleteObsolete, Crash;
    match step
    case DoWrite(g) => WriteKeepsInv(w, w', g);
    case DoSwitch => SwitchKeepsInv(w, w');
    case DoFlush(level, size) => FlushKeepsInv(w, w', level, size);
    case DoCompact(level, in0, in1, input, outs) => CompactKeepsInv(w, w', level, in0, in1, input, outs);
    case DoMove(level, f) => TrivialMoveKeepsInv(w, w', level, f);
    case DoTakeSnapshot => TakeSnapshotKeepsInv(w, w');
    case DoReleaseSnapshot(i) => ReleaseSnapshotKeepsInv(w, w', i);
    case DoDeleteObsolete(goneLogs, goneTables) => DeleteObsoleteKeepsInv(w, w', goneLogs, goneTables);
    case DoCrash(g, fs, chunks, newLog) => CrashKeepsInv(w, w', g, fs, chunks, newLog);
  }

  /** The engine's invariant holds throughout every run: the level order among it, and that the
      manifest and the logs on disk rebuild the database. */
  lemma {:induction false} RunKeepsInv(ws: seq<World>, steps: seq<Step>, i: nat)
    requires Run(ws, steps) && i < |ws|
    ensures Inv(ws[i])
  {
    hide Inv, Init, Next, ReadsOk;
    if i == 0 {
      InitInv(ws[0]);
    } else {
      RunKeepsInv(ws, steps, i - 1);
      NextKeepsInv(ws[i - 1], ws[i], steps[i - 1]);
    }
  }

  /** Every version a run reaches has its levels in order. */
  lemma LevelsStayOrdered(ws: seq<World>, steps: seq<Step>, i: nat)
    requires Run(ws, steps) && i < |ws|
    ensures var v := ws[i].db.v;
      && GoodVersion(v) && (forall l :: 1 <= l < NUM_LEVELS ==> Disjoint(v[l]))
      && forall l, m :: 0 <= l < m < NUM_LEVELS ==> Newer(EntriesOf(v[l]), EntriesOf(v[m]))
  {
    RunKeepsInv(ws, steps, i);
    hide MemOk, LogsOk, ManifestOk, SnapshotsOk, HistOk, Newer, Disjoint;
  }

  // A step that is no compaction, or one that spares the key.
  ghost predicate SparesKey(w: World, step: Step, u: UserKey) { step.DoCompact? ==> Spares(w.db, step.level, step.in0, step.in1, u) }

  lemma NextKeepsReads(w: World, w': World, step: Step, u: UserKey)
    requires Inv(w) && ReadsOk(w, u) && Next(w, w', step) && SparesKey(w, step, u)
    ensures ReadsOk(w', u)
  {
    hide LevelsOk, MemOk, LogsOk, ManifestOk, SnapshotsOk, HistOk, ReadsOk, Write, Flush, Compact, TrivialMove, DeleteObsolete, Crash, DbEntries, Spares;
    match step
    case DoWrite(g) => WriteKeepsReads(w, w', g, u);
    case DoSwitch =>
      SwitchKeepsInv(w, w');
      SameEntriesKeepReads(w, w', u);
    case DoFlush(level, size) =>
      FlushKeepsInv(w, w', level, size);
      SameEntriesKeepReads(w, w', u);
    case DoCompact(level, in0, in1, input, outs) =>
      CompactKeepsReads(w, w', level, in0, in1, input, outs, u);
    case DoMove(level, f) =>
      TrivialMoveKeepsInv(w, w', level, f);
      SameEntriesKeepReads(w, w', u);
    case DoTakeSnapshot =>
      TakeSnapshotKeepsInv(w, w');
      SameEntriesKeepReads(w, w', u);
    case DoReleaseSnapshot(i) =>
      ReleaseSnapshotKeepsInv(w, w', i);
      SameEntriesKeepReads(w, w', u);
    case DoDeleteObsolete(goneLogs, goneTables) =>
      DeleteObsoleteKeepsInv(w, w', goneLogs, goneTables);
      DeletionChangesNoRead(w, w', goneLogs, goneTables);
      SameEntriesKeepReads(w, w', u);
    case DoCrash(g, fs, chunks, newLog) =>
      CrashKeepsReads(w, w', g, fs, chunks, newLog, u);
  }

  lemma DeletionChangesNoRead(w: World, w': World, goneLogs: set<nat>, goneTables: set<nat>)
    requires DeleteObsolete(w, w', goneLogs, goneTables)
    ensures w'.hist == w.hist && SmallestSnapshot(w'.db) == SmallestSnapshot(w.db)
  {
  }

  lemma {:induction false} RunKeepsReads(ws: seq<World>, steps: seq<Step>, i: nat, u: UserKey)
    requires Run(ws, steps) && i < |ws| && forall j :: 0 <= j < i ==> SparesKey(ws[j], steps[j], u)
    ensures ReadsOk(ws[i], u)
  {
    hide Inv, Init, Next, ReadsOk, SparesKey;
    if i == 0 {
      InitInv(ws[0]);
    } else {
      RunKeepsReads(ws, steps, i - 1, u);
      RunKeepsInv(ws, steps, i - 1);
      NextKeepsReads(ws[i - 1], ws[i], steps[i - 1], u);
    }
  }

  // The entries a step commits.
  function Committed(step: Step): seq<Entry> {
    match step
    case DoWrite(g) => g
    case DoCrash(g, _, _, _) => g
    case _ => []
  }

  function AllCommitted(steps: seq<Step>): seq<Entry> {
    if steps == [] then [] else AllCommitted(steps[..|steps| - 1]) + Committed(steps[|steps| - 1])
  }

  lemma NextHist(w: World, w': World, step: Step)
    requires Next(w, w', step)
    ensures w'.hist == w.hist + Elements(Committed(step))
  {
  }

  lemma {:induction false} HistIsCommitted(ws: seq<World>, steps: seq<Step>, i: nat)
    requires Run(ws, steps) && i < |ws|
    ensures ws[i].hist == Elements(AllCommitted(steps[..i]))
  {
    hide Init, Next;
    if i == 0 {
      InitHist(ws[0]);
    } else {
      HistIsCommitted(ws, steps, i - 1);
      NextHist(ws[i - 1], ws[i], steps[i - 1]);
      assert steps[..i][..i - 1] == steps[..i - 1];
      var a, b := AllCommitted(steps[..i - 1]), Committed(steps[i - 1]);
      assert Elements(a + b) == Elements(a) + Elements(b);
    }
  }

  lemma InitHist(w: World)
    requires Init(w)
    ensures w.hist == {}
  {
  }

  /** Reads are right over whole runs: whatever writes, memtable switches, flushes, compactions,
      file moves and deletions, snapshots and crashes came before, a read at any live snapshot or
      at the present answers from exactly the entries committed so far, for every user key that
      all compactions spared. */
  lemma ReadsAreRight(ws: seq<World>, steps: seq<Step>, i: nat, u: UserKey, s: nat)
    requires Run(ws, steps) && i < |ws| && SmallestSnapshot(ws[i].db) <= s
    requires forall j :: 0 <= j < i ==> SparesKey(ws[j], steps[j], u)
    ensures Read(DbEntries(ws[i].db), u, s) == Read(Elements(AllCommitted(steps[..i])), u, s)
  {
    RunKeepsReads(ws, steps, i, u);
    HistIsCommitted(ws, steps, i);
    hide DbEntries;
  }

  /** One compaction breaks the reads of exactly the keys it does not spare. */
  lemma CompactionBreaksIff(w: World, w': World, level: nat, in0: seq<File>, in1: seq<File>, input: seq<Entry>, outs: seq<File>, u: UserKey)
    requires Inv(w) && Compact(w, w', level, in0, in1, input, outs) && ReadsOk(w, u)
    ensures ReadsOk(w', u) <==> Spares(w.db, level, in0, in1, u)
  {
    hide LevelsOk, MemOk, LogsOk, ManifestOk, SnapshotsOk, HistOk, LevelOrder, InstallVersion, GoodInputs, Retained;
    hide GoodVersion, VersionEntries, RestOf, MemEntries, EntriesOf, CompactRest, DbEntries, KeptSet, Distinct, Compact, AfterMove, Resurrected;
    CompactFields(w, w', level, in0, in1, input, outs);
    CompactIsMove(w, w', level, in0, in1, input, outs);
    CompactOutputs(w, w', level, in0, in1, input, outs);
    MoveKeepsOrder(w, w', level, in0, in1, outs, w.db.nextFile + |outs|);
    DistinctDb(w.db);
    CompactEntries(w.db, w'.db, level, in0, in1, EntriesOf(outs));
    SparesIs(w.db, level, in0, in1, u);
    var rest, es, ss := CompactRest(w.db, level, in0, in1), Elements(input), SmallestSnapshot(w.db);
    ReadsPreservedIff(w.db.v, level, ss, rest, es, u);
    assert SmallestSnapshot(w'.db) == ss;
    hide SmallestSnapshot, Read;
    assert forall s :: ss <= s ==> Read(DbEntries(w.db), u, s) == Read(w.hist, u, s);
    assert ReadsOk(w', u) <==> forall s :: ss <= s ==> Read(DbEntries(w'.db), u, s) == Read(DbEntries(w.db), u, s);
  }

  lemma SparesIs(db: Db, level: nat, in0: seq<File>, in1: seq<File>, u: UserKey)
    requires GoodVersion(db.v) && LevelOrder(db.v) && level + 1 < NUM_LEVELS
    ensures Spares(db, level, in0, in1, u) <==>
      !Resurrected(db.v, level, SmallestSnapshot(db), CompactRest(db, level, in0, in1), EntriesOf(in0) + EntriesOf(in1), u)
  {
  }

  /** A crash anywhere in a run changes no answer, except through the group in flight. */
  lemma CrashIsInvisible(ws: seq<World>, steps: seq<Step>, i: nat, u: UserKey, s: nat)
    requires Run(ws, steps) && i < |steps| && steps[i].DoCrash?
    ensures DbEntries(ws[i + 1].db) == DbEntries(ws[i].db) + Elements(steps[i].g) && ws[i + 1].db.lastSequence == ws[i].db.lastSequence + |steps[i].g|
    ensures s <= ws[i].db.lastSequence ==> Read(DbEntries(ws[i + 1].db), u, s) == Read(DbEntries(ws[i].db), u, s)
  {
    hide Inv, Init, Crash;
    RunKeepsInv(ws, steps, i);
    assert Next(ws[i], ws[i + 1], steps[i]);
    CrashKeepsAnswers(ws[i], ws[i + 1], steps[i].g, steps[i].fs, steps[i].chunks, steps[i].newLog, u, s);
  }

  lemma CrashKeepsAnswers(w: World, w': World, g: seq<Entry>, fs: seq<File>, chunks: seq<seq<Entry>>, newLog: nat, u: UserKey, s: nat)
    requires Inv(w) && Crash(w, w', g, fs, chunks, newLog)
    ensures DbEntries(w'.db) == DbEntries(w.db) + Elements(g) && w'.db.lastSequence == w.db.lastSequence + |g|
    ensures s <= w.db.lastSequence ==> Read(DbEntries(w'.db), u, s) == Read(DbEntries(w.db), u, s)
  {
    hide LevelsOk, LogsOk, ManifestOk, HistOk, DbEntries, Recovered;
    CrashLosesNothing(w, w', g, fs, chunks, newLog);
    if s <= w.db.lastSequence {
      GroupAboveAll(g, w.db.lastSequence + 1, DbEntries(w.db));
      hide MemOk, Group;
      ReadSame(DbEntries(w'.db), DbEntries(w.db), u, s);
    }
  }

  // ----- Point reads -----

  lemma AnswersRead(es: set<Entry>, u: UserKey, s: nat, r: Option<Entry>)
    requires Distinct(es) && Answers(es, u, s, r)
    ensures Read(es, u, s) == if r.Some? then AnswerOf(r.value) else NotFound
  {
    if r.Some? { ReadIs(es, u, s, r.value); }
  }

  /** DBImpl::Get: memtable, immutable memtable, then the version. */
  method Get(db: Db, u: UserKey, s: nat) returns (a: Answer)
    requires LevelsOk(db) && MemOk(db)
    ensures a == Read(DbEntries(db), u, s)
  {
    var r := Lookup(db.mem, u, s);
    LookupIsNewest(db.mem, u, s);
    ghost var mem, imm, rest := Elements(db.mem), ImmEntries(db), VersionEntries(db.v);
    assert DbEntries(db) == mem + (imm + rest) && DbEntries(db) == (mem + imm) + rest;
    if r.None? {
      if db.imm.Some? {
        r := Lookup(db.imm.value, u, s);
        LookupIsNewest(db.imm.value, u, s);
      }
      if r.None? {
        r := VersionGet(db.v, u, s);
      }
    }
    hide LevelOrder, LevelsOk, VersionEntries, Distinct;
    assert Answers(DbEntries(db), u, s, r);
    AnswersRead(DbEntries(db), u, s, r);
    a := if r.Some? then AnswerOf(r.value) else NotFound;
  }
}
