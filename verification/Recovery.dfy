/** Crash and recovery: the manifest is replayed, live logs are turned into level-0 tables, and
    a new manifest is started. */
module Recovery {
  import opened Entries
  import opened Versions
  import opened Builders
  import opened Compactions
  import opened Levels
  import opened Installing
  import opened Engine
  import opened WriteSteps
  import opened InstallSteps

  // ----- What recovery reads off the disk -----

  // The last value a manifest records for each counter.
  function LatestLog(m: seq<Edit>): nat {
    if m == [] then 0
    else if m[|m| - 1].logNumber.Some? then m[|m| - 1].logNumber.value
    else LatestLog(m[..|m| - 1])
  }

  function LatestNextFile(m: seq<Edit>): nat {
    if m == [] then 0
    else if m[|m| - 1].nextFile.Some? then m[|m| - 1].nextFile.value
    else LatestNextFile(m[..|m| - 1])
  }

  function LatestSequence(m: seq<Edit>): nat {
    if m == [] then 0
    else if m[|m| - 1].lastSequence.Some? then m[|m| - 1].lastSequence.value
    else LatestSequence(m[..|m| - 1])
  }

  // All logs numbered lo up to hi, in the order they were generated.
  function LogsFrom(logs: map<nat, seq<Entry>>, lo: nat, hi: nat): seq<Entry>
    requires lo <= hi
    decreases hi - lo
  {
    if lo == hi then [] else (if lo in logs then logs[lo] else []) + LogsFrom(logs, lo + 1, hi)
  }

  function MaxSequence(es: seq<Entry>, n: nat): nat {
    if es == [] then n else MaxSequence(es[1..], if es[0].key.sn > n then es[0].key.sn else n)
  }

  function Flatten(chunks: seq<seq<Entry>>): seq<Entry> {
    if chunks == [] then [] else chunks[0] + Flatten(chunks[1..])
  }

  // Replaying the log entries in order fills a memtable that is written out from time to time.
  ghost predicate Rebuilt(fs: seq<File>, chunks: seq<seq<Entry>>) {
    && |fs| == |chunks|
    && (forall i :: 0 <= i < |fs| ==> GoodFile(fs[i]) && Elements(fs[i].entries) == Elements(chunks[i]))
    && forall i, j :: 0 <= i < j < |fs| ==> fs[i].number < fs[j].number
  }

  ghost function RecoveryEdit(fs: seq<File>, newLog: nat, lastSequence: nat): Edit {
    Edit(Some(newLog), Some(newLog + 1), Some(lastSequence), {}, AddAll(0, fs))
  }

  /** DB::Open on a disk left by a crash. */
  ghost predicate Recovered(disk: Disk, db': Db, fs: seq<File>, chunks: seq<seq<Entry>>, newLog: nat) {
    && GoodEdits(disk.manifest)
    && LatestLog(disk.manifest) <= newLog && (forall n :: n in disk.logs ==> n < newLog)
    && var v, log := Replay(disk.manifest), LogsFrom(disk.logs, LatestLog(disk.manifest), newLog);
    && var last := MaxSequence(log, LatestSequence(disk.manifest));
    && Rebuilt(fs, chunks) && Flatten(chunks) == log
    && (forall f :: f in fs ==> LatestNextFile(disk.manifest) < f.number < newLog)
    && LatestNextFile(disk.manifest) < newLog
    && var e := RecoveryEdit(fs, newLog, last);
    && GoodEdit(e)
    && db' == Db([], None, InstallVersion(v, e), last, [], newLog, newLog, newLog + 1,
                 Disk([Snapshot(v), e], disk.logs[newLog := []], disk.tables + Numbers(fs)))
  }

  /** A crash: everything but the disk is lost.  A write group g may have been in flight, its
      log record complete but not yet acknowledged (g is empty if there was none). */
  ghost predicate Crash(w: World, w': World, g: seq<Entry>, fs: seq<File>, chunks: seq<seq<Entry>>, newLog: nat) {
    && Group(g, w.db.lastSequence + 1) && w.db.lastSequence + |g| < MAX_SEQUENCE
    && Recovered(Logged(w.db, g), w'.db, fs, chunks, newLog)
    && w'.hist == w.hist + Elements(g)
  }

  // ----- Logs -----

  lemma {:induction false} LogsFromEmpty(logs: map<nat, seq<Entry>>, lo: nat, hi: nat)
    requires lo <= hi && forall n :: lo <= n < hi ==> n !in logs
    ensures LogsFrom(logs, lo, hi) == []
    decreases hi - lo
  {
    if lo < hi { LogsFromEmpty(logs, lo + 1, hi); }
  }

  lemma {:induction false} LogsFromSplit(logs: map<nat, seq<Entry>>, lo: nat, mid: nat, hi: nat)
    requires lo <= mid <= hi
    ensures LogsFrom(logs, lo, hi) == LogsFrom(logs, lo, mid) + LogsFrom(logs, mid, hi)
    decreases mid - lo
  {
    if lo < mid { LogsFromSplit(logs, lo + 1, mid, hi); }
  }

  // Only the logs of the immutable memtable and of the memtable are replayed.
  lemma ReplayedLogs(db: Db, logs: map<nat, seq<Entry>>, hi: nat)
    requires LogsOk(db) && db.logfileNumber < hi && logs.Keys == db.disk.logs.Keys
    requires forall n :: n in logs && n != db.logfileNumber ==> logs[n] == db.disk.logs[n]
    ensures LogsFrom(logs, db.logNumber, hi) == LiveLog(db.disk.(logs := logs), db.logNumber, db.logfileNumber)
  {
    var a, b := db.logNumber, db.logfileNumber;
    LogsFromSplit(logs, a, b, hi);
    LogsFromEmpty(logs, b + 1, hi);
    if a < b {
      LogsFromEmpty(logs, a + 1, b);
    }
  }

  lemma {:induction false} MaxSequenceBounds(es: seq<Entry>, n: nat)
    ensures n <= MaxSequence(es, n) && forall e :: e in es ==> e.key.sn <= MaxSequence(es, n)
    ensures MaxSequence(es, n) == n || exists e :: e in es && e.key.sn == MaxSequence(es, n)
    decreases |es|
  {
    if es != [] {
      var m := if es[0].key.sn > n then es[0].key.sn else n;
      MaxSequenceBounds(es[1..], m);
      assert es == [es[0]] + es[1..];
      if MaxSequence(es, n) != n && MaxSequence(es, n) == es[0].key.sn { assert es[0] in es; }
    }
  }

  // ----- The rebuilt level-0 files -----

  lemma {:induction false} FlattenMembers(chunks: seq<seq<Entry>>, e: Entry)
    ensures e in Flatten(chunks) <==> exists i :: 0 <= i < |chunks| && e in chunks[i]
  {
    if chunks != [] {
      FlattenMembers(chunks[1..], e);
      if i :| 0 <= i < |chunks| && e in chunks[i] {
        if i > 0 { assert e in chunks[1..][i - 1]; }
      }
      if e in Flatten(chunks[1..]) {
        var i :| 0 <= i < |chunks[1..]| && e in chunks[1..][i];
        assert e in chunks[i + 1];
      }
    }
  }

  // Later chunks of an ascending log hold newer entries.
  lemma {:induction false} ChunksAscend(chunks: seq<seq<Entry>>, i: nat, j: nat, a: Entry, b: Entry)
    requires Ascending(Flatten(chunks)) && i < j < |chunks| && a in chunks[i] && b in chunks[j]
    ensures a.key.sn < b.key.sn
  {
    var rest := Flatten(chunks[1..]);
    if i == 0 {
      assert chunks[1..][j - 1] == chunks[j];
      FlattenMembers(chunks[1..], b);
      var k :| 0 <= k < |chunks[0]| && chunks[0][k] == a;
      var m :| 0 <= m < |rest| && rest[m] == b;
      assert Flatten(chunks)[k] == a && Flatten(chunks)[|chunks[0]| + m] == b;
    } else {
      SuffixAscends(chunks[0], rest);
      ChunksAscend(chunks[1..], i - 1, j - 1, a, b);
    }
  }

  lemma RebuiltEntries(fs: seq<File>, chunks: seq<seq<Entry>>)
    requires Rebuilt(fs, chunks)
    ensures EntriesOf(fs) == Elements(Flatten(chunks))
  {
    hide GoodFile;
    forall e ensures e in EntriesOf(fs) <==> e in Flatten(chunks) {
      FlattenMembers(chunks, e);
      if e in EntriesOf(fs) {
        var f :| f in fs && e in f.entries;
        var i :| 0 <= i < |fs| && fs[i] == f;
        assert e in Elements(chunks[i]);
      }
      if i :| 0 <= i < |chunks| && e in chunks[i] {
        assert e in Elements(fs[i].entries) && fs[i] in fs;
      }
    }
  }

  lemma RebuiltNewestFirst(v: Version, fs: seq<File>, chunks: seq<seq<Entry>>, level0: seq<File>)
    requires LevelOrder(v) && Rebuilt(fs, chunks) && Ascending(Flatten(chunks)) && Numbered(level0)
    requires forall f :: f in level0 <==> f in v[0] || f in fs
    requires Newer(EntriesOf(fs), VersionEntries(v))
    requires forall f, g :: f in v[0] && g in fs ==> f.number < g.number
    ensures NewestFirst(level0)
  {
    forall f, g | f in level0 && g in level0 && f.number > g.number ensures Newer(Elements(f.entries), Elements(g.entries)) {
      RebuiltPair(v, fs, chunks, f, g);
    }
  }

  lemma RebuiltPair(v: Version, fs: seq<File>, chunks: seq<seq<Entry>>, f: File, g: File)
    requires LevelOrder(v) && Rebuilt(fs, chunks) && Ascending(Flatten(chunks))
    requires (f in v[0] || f in fs) && (g in v[0] || g in fs) && f.number > g.number
    requires Newer(EntriesOf(fs), VersionEntries(v))
    requires forall f, g :: f in v[0] && g in fs ==> f.number < g.number
    ensures Newer(Elements(f.entries), Elements(g.entries))
  {
    hide GoodFile;
    if f in v[0] && g in v[0] {
      assert NewestFirst(v[0]);
    } else {
      assert f in fs;
      forall a, b | a in Elements(f.entries) && b in Elements(g.entries) && a.key.user == b.key.user ensures a.key.sn > b.key.sn {
        assert a in EntriesOf(fs);
        if g in v[0] {
          InVersion(v, 0, g, b);
        } else {
          var i :| 0 <= i < |fs| && fs[i] == f;
          var j :| 0 <= j < |fs| && fs[j] == g;
          assert a in Elements(chunks[i]) && b in Elements(chunks[j]);
          ChunksAscend(chunks, j, i, b, a);
        }
      }
    }
  }

  // ----- The recovered version -----

  lemma RecoveredLevelOrder(v: Version, v': Version, fs: seq<File>, chunks: seq<seq<Entry>>)
    requires LevelOrder(v) && GoodVersion(v') && AddedFiles(v, v', 0, fs)
    requires Rebuilt(fs, chunks) && Ascending(Flatten(chunks)) && Newer(EntriesOf(fs), VersionEntries(v))
    requires forall f, g :: f in v[0] && g in fs ==> f.number < g.number
    ensures LevelOrder(v')
  {
    RebuiltNewestFirst(v, fs, chunks, v'[0]);
    assert forall l :: 1 <= l < NUM_LEVELS ==> Disjoint(v'[l]);
    hide GoodFile, NewestFirst, Rebuilt, Disjoint;
    forall l, m | 0 <= l < m < NUM_LEVELS ensures Newer(EntriesOf(v'[l]), EntriesOf(v'[m])) {
      assert Newer(EntriesOf(v[l]), EntriesOf(v[m])) && v'[m] == v[m];
      forall a, b | a in EntriesOf(v'[l]) && b in EntriesOf(v'[m]) && a.key.user == b.key.user ensures a.key.sn > b.key.sn {
        var f :| f in v'[l] && a in f.entries;
        var h :| h in v'[m] && b in h.entries;
        InVersion(v, m, h, b);
        if f in v[l] { InVersion(v, l, f, a); } else { assert a in EntriesOf(fs); }
      }
    }
    LevelOrderParts(v');
  }

  // A manifest that holds only a snapshot.
  lemma SnapshotLevel(v: Version, l: nat)
    requires GoodVersion(v) && Tidy(v) && l < NUM_LEVELS
    ensures GoodEdits([Snapshot(v)]) && AddedOnce([], [Snapshot(v)], l) && UsedAt([Snapshot(v)], l) == Numbers(v[l])
  {
    var m := [Snapshot(v)];
    assert m[..0] == [];
    SnapshotHoldsLevel(v, 0, l);
  }

  /** The manifest recovery starts replays to the recovered version. */
  lemma SnapshotRecorded(v: Version, next: nat)
    requires GoodVersion(v) && Tidy(v) && NumbersUnique(v)
    requires forall l, f :: 0 <= l < NUM_LEVELS && f in v[l] ==> f.number < next
    ensures Recorded(v, [Snapshot(v)], next)
    ensures forall l :: 0 <= l < NUM_LEVELS ==> UsedAt([Snapshot(v)], l) == Numbers(v[l])
  {
    hide Replay, AddedOnce, SortedFiles, Snapshot, Used, GoodFile, UsedAt;
    SnapshotRestores(v);
    forall l | 0 <= l < NUM_LEVELS ensures AddedOnce([], [Snapshot(v)], l) && UsedAt([Snapshot(v)], l) == Numbers(v[l]) {
      SnapshotLevel(v, l);
    }
    assert forall l, n :: 0 <= l < NUM_LEVELS && n in Numbers(v[l]) ==> n < next;
  }

  // The counters in the last manifest record.
  lemma LastRecord(db: Db)
    requires GoodVersion(db.v) && ManifestOk(db)
    ensures var m := db.disk.manifest;
      && GoodEdits(m) && Replay(m) == db.v && LatestLog(m) == db.logNumber && LatestNextFile(m) <= db.nextFile
      && LatestSequence(m) <= db.lastSequence
      && (LatestSequence(m) == db.lastSequence || exists e :: e in MemEntries(db) && e.key.sn == db.lastSequence)
      && forall l, f :: 0 <= l < NUM_LEVELS && f in db.v[l] ==> f.number < LatestNextFile(m) && f.number in db.disk.tables
  {
    hide Replay, AddedOnce, SortedFiles;
    assert forall l, f :: 0 <= l < NUM_LEVELS && f in db.v[l] ==> f.number in UsedAt(db.disk.manifest, l);
  }

  /** What recovery rebuilds: the old version, and level-0 tables of all that the live logs hold. */
  lemma CrashParts(w: World, w': World, g: seq<Entry>, fs: seq<File>, chunks: seq<seq<Entry>>, newLog: nat)
    requires Inv(w) && Crash(w, w', g, fs, chunks, newLog)
    ensures Group(g, w.db.lastSequence + 1) && w.db.lastSequence + |g| < MAX_SEQUENCE
    ensures Rebuilt(fs, chunks) && Flatten(chunks) == LiveLog(w.db.disk, w.db.logNumber, w.db.logfileNumber) + g
    ensures LatestNextFile(w.db.disk.manifest) < newLog
    ensures forall f :: f in fs ==> LatestNextFile(w.db.disk.manifest) < f.number < newLog
    ensures GoodEdit(RecoveryEdit(fs, newLog, w'.db.lastSequence))
    ensures w'.db.lastSequence == MaxSequence(Flatten(chunks), LatestSequence(w.db.disk.manifest))
    ensures w'.db.v == InstallVersion(w.db.v, RecoveryEdit(fs, newLog, w'.db.lastSequence))
    ensures w'.db.mem == [] && w'.db.imm.None? && w'.db.snapshots == [] && w'.hist == w.hist + Elements(g)
    ensures w'.db.logNumber == w'.db.logfileNumber == newLog && w'.db.nextFile == newLog + 1
    ensures w'.db.disk.manifest == [Snapshot(w.db.v), RecoveryEdit(fs, newLog, w'.db.lastSequence)]
    ensures w'.db.disk.tables == w.db.disk.tables + Numbers(fs)
    ensures newLog in w'.db.disk.logs && w'.db.disk.logs[newLog] == [] && forall n :: n in w'.db.disk.logs ==> n <= newLog
  {
    hide MemOk, LogsOk, ManifestOk, HistOk, SnapshotsOk, InstallVersion, Rebuilt, Replay, Snapshot, LatestLog, LatestNextFile,
      LatestSequence, LevelOrder, Flatten, LogsFrom, LiveLog, Group, MaxSequence, GoodFile, Tidy, NumbersUnique, MemEntries;
    LastRecord(w.db);
    LoggedGroup(w.db, g);
    ReplayCurrent(w.db, g, newLog);
  }

  lemma ReplayCurrent(db: Db, g: seq<Entry>, hi: nat)
    requires LogsOk(db) && forall n :: n in Logged(db, g).logs ==> n < hi
    ensures db.logNumber <= hi
    ensures LogsFrom(Logged(db, g).logs, db.logNumber, hi) == LiveLog(Logged(db, g), db.logNumber, db.logfileNumber)
  {
    assert db.logfileNumber in Logged(db, g).logs;
    ReplayedLogs(db, Logged(db, g).logs, hi);
  }

  lemma RebuiltFromLogs(db: Db, g: seq<Entry>, fs: seq<File>, chunks: seq<seq<Entry>>)
    requires MemOk(db) && LogsOk(db) && Group(g, db.lastSequence + 1) && Rebuilt(fs, chunks)
    requires Flatten(chunks) == LiveLog(db.disk, db.logNumber, db.logfileNumber) + g
    ensures Ascending(Flatten(chunks)) && EntriesOf(fs) == MemEntries(db) + Elements(g)
    ensures Newer(EntriesOf(fs), VersionEntries(db.v))
  {
    LoggedGroup(db, g);
    RebuiltEntries(fs, chunks);
    LogInMem(db);
    var log := LiveLog(db.disk, db.logNumber, db.logfileNumber);
    assert Elements(log + g) == Elements(log) + Elements(g);
    hide LogsOk, Rebuilt, Distinct, Flatten, LiveLog, VersionEntries;
    assert EntriesOf(fs) == MemEntries(db) + Elements(g);
    GroupIsNewer(db, g);
  }

  lemma GroupIsNewer(db: Db, g: seq<Entry>)
    requires MemOk(db) && Group(g, db.lastSequence + 1)
    ensures Newer(MemEntries(db) + Elements(g), VersionEntries(db.v))
  {
    GroupAboveAll(g, db.lastSequence + 1, DbEntries(db));
  }

  // No sequence number is lost.
  lemma RecoveredSequence(db: Db, g: seq<Entry>)
    requires MemOk(db) && LogsOk(db) && Group(g, db.lastSequence + 1)
    requires GoodVersion(db.v) && ManifestOk(db)
    ensures MaxSequence(LiveLog(db.disk, db.logNumber, db.logfileNumber) + g, LatestSequence(db.disk.manifest)) == db.lastSequence + |g|
  {
    var log := LiveLog(db.disk, db.logNumber, db.logfileNumber);
    var n := LatestSequence(db.disk.manifest);
    MaxSequenceBounds(log + g, n);
    LogInMem(db);
    LastRecord(db);
    hide ManifestOk, Newer, Distinct, LiveLog, LogsOk, MaxSequence, LatestSequence, Replay;
    forall e | e in log + g ensures e.key.sn <= db.lastSequence + |g| {
      if e in log { assert e in Elements(log) && e in DbEntries(db); }
    }
    if g != [] {
      assert g[|g| - 1] in log + g;
    } else if n != db.lastSequence {
      var e :| e in MemEntries(db) && e.key.sn == db.lastSequence;
      assert e in Elements(log) && e in log + g;
    }
  }

  lemma RecoveredNumbers(v: Version, v': Version, fs: seq<File>, next: nat, newLog: nat, last: nat)
    requires GoodVersion(v) && GoodVersion(v') && Tidy(v) && NumbersUnique(v) && GoodEdit(RecoveryEdit(fs, newLog, last))
    requires v' == InstallVersion(v, RecoveryEdit(fs, newLog, last)) && AddedFiles(v, v', 0, fs) && Numbered(fs)
    requires forall l, f :: 0 <= l < NUM_LEVELS && f in v[l] ==> f.number <= next
    requires next < newLog && forall f :: f in fs ==> next < f.number < newLog
    ensures NumbersUnique(v') && Recorded(v', [Snapshot(v), RecoveryEdit(fs, newLog, last)], newLog + 1)
  {
    hide InstallVersion, Recorded, SortedFiles, GoodFile, Snapshot, GoodEdit, Numbered, NumbersUnique, AddAll, UsedAt, AddedFiles, Tidy,
      Numbers;
    RecoveredUnique(v, v', fs, next);
    SnapshotRecorded(v, next + 1);
    var e := RecoveryEdit(fs, newLog, last);
    RecoveredRecorded(v, e, fs, next, newLog);
    assert [Snapshot(v)] + [e] == [Snapshot(v), e];
  }

  lemma RecoveredRecorded(v: Version, e: Edit, fs: seq<File>, next: nat, newLog: nat)
    requires GoodVersion(v) && Tidy(v) && GoodEdit(e) && e.added == AddAll(0, fs) && Numbered(fs)
    requires AddedFiles(v, InstallVersion(v, e), 0, fs) && Recorded(v, [Snapshot(v)], next + 1) && next < newLog
    requires forall l :: 0 <= l < NUM_LEVELS ==> UsedAt([Snapshot(v)], l) == Numbers(v[l])
    requires forall l, f :: 0 <= l < NUM_LEVELS && f in v[l] ==> f.number <= next
    requires forall f :: f in fs ==> next < f.number < newLog
    ensures Recorded(InstallVersion(v, e), [Snapshot(v)] + [e], newLog + 1)
  {
    hide InstallVersion, Recorded, SortedFiles, GoodFile, Snapshot, UsedAt, GoodEdit, Numbered, AddAll, AddedAt, Tidy, AddedFiles;
    AddedAtLevel0(e, fs);
    RecoveredApart(v, InstallVersion(v, e), e, fs, next, newLog);
    RecordedAppend(v, [Snapshot(v)], next + 1, e, newLog + 1);
  }

  // The numbers of the recovered files are new.
  lemma RecoveredApart(v: Version, v': Version, e: Edit, fs: seq<File>, next: nat, newLog: nat)
    requires GoodVersion(v) && GoodVersion(v') && AddedFiles(v, v', 0, fs) && Tidy(v)
    requires forall l :: 0 <= l < NUM_LEVELS ==> AddedAt(e.added, l) == if l == 0 then fs else []
    requires forall l :: 0 <= l < NUM_LEVELS ==> UsedAt([Snapshot(v)], l) == Numbers(v[l])
    requires forall l, f :: 0 <= l < NUM_LEVELS && f in v[l] ==> f.number <= next
    requires forall f :: f in fs ==> next < f.number < newLog
    ensures forall l, m, f :: 0 <= l <= m < NUM_LEVELS && f in AddedAt(e.added, l) ==> f.number !in UsedAt([Snapshot(v)], m)
    ensures forall l, f :: 0 <= l < NUM_LEVELS && f in AddedAt(e.added, l) ==> f.number < newLog + 1
    ensures forall l, f :: 0 <= l < NUM_LEVELS && f in v'[l] ==> f in v[l] || f in AddedAt(e.added, l)
    ensures forall l, m, f :: 0 <= l < m < NUM_LEVELS && f in v'[l] ==> f.number !in Numbers(AddedAt(e.added, m))
    ensures Tidy(v')
  {
    hide UsedAt, AddedAt, SortedFiles, GoodFile, Snapshot;
    forall l, m, f: File | 0 <= l <= m < NUM_LEVELS && f in AddedAt(e.added, l) ensures f.number !in UsedAt([Snapshot(v)], m) {
      assert UsedAt([Snapshot(v)], m) == Numbers(v[m]);
    }
    forall l, m, f: File | 0 <= l < m < NUM_LEVELS && f in v'[l] ensures f.number !in Numbers(AddedAt(e.added, m)) {
      assert AddedAt(e.added, m) == [];
    }
  }

  lemma RecoveredUnique(v: Version, v': Version, fs: seq<File>, next: nat)
    requires GoodVersion(v) && GoodVersion(v') && NumbersUnique(v) && AddedFiles(v, v', 0, fs)
    requires forall l, f :: 0 <= l < NUM_LEVELS && f in v[l] ==> f.number <= next
    requires forall f :: f in fs ==> next < f.number
    ensures NumbersUnique(v')
  {
    hide SortedFiles, GoodFile, Numbered;
    forall l, m, f: File, g: File | 0 <= l < m < NUM_LEVELS && f in v'[l] && g in v'[m] ensures f.number != g.number {
      assert g in v[m];
      assert f in v[l] || f in fs;
    }
  }

  lemma AddedAtLevel0(e: Edit, fs: seq<File>)
    requires e.added == AddAll(0, fs) && Numbered(fs)
    ensures forall l :: 0 <= l < NUM_LEVELS ==> AddedAt(e.added, l) == (if l == 0 then fs else []) && Numbered(AddedAt(e.added, l))
  {
    forall l | 0 <= l < NUM_LEVELS ensures AddedAt(e.added, l) == (if l == 0 then fs else []) {
      AddedAtOneLevel(fs, 0, l);
    }
  }

  lemma RecoveredFiles(v: Version, fs: seq<File>, chunks: seq<seq<Entry>>, next: nat, newLog: nat, last: nat)
    requires GoodVersion(v) && LevelOrder(v) && Tidy(v) && NumbersUnique(v) && GoodEdit(RecoveryEdit(fs, newLog, last))
    requires forall l, f :: 0 <= l < NUM_LEVELS && f in v[l] ==> f.number < next
    requires next < newLog && forall f :: f in fs ==> next < f.number < newLog
    requires Rebuilt(fs, chunks) && Ascending(Flatten(chunks)) && Newer(EntriesOf(fs), VersionEntries(v))
    ensures var v' := InstallVersion(v, RecoveryEdit(fs, newLog, last));
      && LevelOrder(v') && Tidy(v') && NumbersUnique(v') && AddedFiles(v, v', 0, fs)
      && VersionEntries(v') == VersionEntries(v) + EntriesOf(fs)
      && Recorded(v', [Snapshot(v), RecoveryEdit(fs, newLog, last)], newLog + 1)
  {
    hide LevelOrder, InstallVersion, Recorded, SortedFiles, GoodFile, Snapshot, GoodEdit, Flatten, NumbersUnique, Newer, VersionEntries, EntriesOf;
    var e := RecoveryEdit(fs, newLog, last);
    var v' := InstallVersion(v, e);
    assert Numbered(fs);
    hide Rebuilt;
    InstallIsAdded(v, e, 0, fs);
    RecoveredLevelOrder(v, v', fs, chunks);
    EntriesAfterAdd(v, v', 0, fs);
    RecoveredNumbers(v, v', fs, next, newLog, last);
  }

  lemma RecoveredVersion(w: World, w': World, g: seq<Entry>, fs: seq<File>, chunks: seq<seq<Entry>>, newLog: nat)
    requires Inv(w) && Crash(w, w', g, fs, chunks, newLog)
    ensures LevelsOk(w'.db) && AddedFiles(w.db.v, w'.db.v, 0, fs)
    ensures VersionEntries(w'.db.v) == DbEntries(w.db) + Elements(g) && DbEntries(w'.db) == DbEntries(w.db) + Elements(g)
    ensures Recorded(w'.db.v, w'.db.disk.manifest, newLog + 1)
    ensures w'.db.lastSequence == w.db.lastSequence + |g|
  {
    hide MemOk, HistOk, SnapshotsOk, LogsOk, ManifestOk, InstallVersion, LevelOrder, Flatten, Replay, Rebuilt, Recorded, Recovered,
      LatestNextFile, Snapshot, NumbersUnique, Tidy, AddedFiles, Newer, GoodFile, EntriesOf;
    CrashParts(w, w', g, fs, chunks, newLog);
    RebuiltFromLogs(w.db, g, fs, chunks);
    RecoveredSequence(w.db, g);
    LastRecord(w.db);
    RecoveredFiles(w.db.v, fs, chunks, LatestNextFile(w.db.disk.manifest), newLog, w'.db.lastSequence);
    assert MemEntries(w'.db) == {};
  }

  // ----- A crash keeps the invariant -----

  lemma RecoveredMem(db: Db, db': Db, g: seq<Entry>)
    requires MemOk(db) && Group(g, db.lastSequence + 1) && db.lastSequence + |g| < MAX_SEQUENCE
    requires db'.mem == [] && db'.imm.None? && DbEntries(db') == DbEntries(db) + Elements(g)
    requires db'.lastSequence == db.lastSequence + |g|
    ensures MemOk(db')
  {
    GroupAboveAll(g, db.lastSequence + 1, DbEntries(db));
    assert MemEntries(db') == {};
  }

  lemma RecoveredManifest(db: Db, db': Db, newLog: nat, fs: seq<File>)
    requires GoodVersion(db.v) && ManifestOk(db) && GoodVersion(db'.v) && MemOk(db') && AddedFiles(db.v, db'.v, 0, fs)
    requires db'.disk.manifest == [Snapshot(db.v), RecoveryEdit(fs, newLog, db'.lastSequence)]
    requires Recorded(db'.v, db'.disk.manifest, newLog + 1) && db'.nextFile == newLog + 1 && db'.logNumber == newLog
    requires db'.disk.tables == db.disk.tables + Numbers(fs)
    ensures ManifestOk(db')
  {
    hide Recorded, Snapshot, GoodFile, Newer, Distinct, AddAll, SortedFiles, LatestSequence;
    LastRecord(db);
    hide LatestNextFile, LatestLog, Replay;
    forall l, f: File | 0 <= l < NUM_LEVELS && f in db'.v[l] ensures f.number in db'.disk.tables {
      if f in fs { assert f.number in Numbers(fs); } else { assert f in db.v[l]; }
    }
    assert forall e :: e in VersionEntries(db'.v) ==> e in DbEntries(db');
  }

  lemma RestartedLogs(db: Db, newLog: nat)
    requires db.mem == [] && db.imm.None? && db.logNumber == db.logfileNumber == newLog < db.nextFile
    requires newLog in db.disk.logs && db.disk.logs[newLog] == [] && forall n :: n in db.disk.logs ==> n <= newLog
    ensures LogsOk(db)
  {
  }

  lemma RecoveredHist(w: World, w': World, g: seq<Entry>)
    requires HistOk(w) && Group(g, w.db.lastSequence + 1)
    requires w'.db.snapshots == [] && w'.hist == w.hist + Elements(g)
    requires DbEntries(w'.db) == DbEntries(w.db) + Elements(g) && w'.db.lastSequence == w.db.lastSequence + |g|
    ensures HistOk(w') && SnapshotsOk(w'.db)
  {
    GroupAboveAll(g, w.db.lastSequence + 1, w.hist);
    hide DbEntries, Distinct;
  }

  lemma CrashKeepsInv(w: World, w': World, g: seq<Entry>, fs: seq<File>, chunks: seq<seq<Entry>>, newLog: nat)
    requires Inv(w) && Crash(w, w', g, fs, chunks, newLog)
    ensures Inv(w')
  {
    hide MemOk, LogsOk, ManifestOk, SnapshotsOk, HistOk, Recovered, InstallVersion, LevelOrder, Flatten, Replay, Rebuilt, Recorded,
      Snapshot, AddedFiles, LatestNextFile, LatestSequence, MaxSequence, LiveLog, Group, DbEntries, NumbersUnique, Tidy, GoodFile,
      RecoveryEdit;
    CrashParts(w, w', g, fs, chunks, newLog);
    RecoveredVersion(w, w', g, fs, chunks, newLog);
    RecoveredMem(w.db, w'.db, g);
    RecoveredManifest(w.db, w'.db, newLog, fs);
    RestartedLogs(w'.db, newLog);
    RecoveredHist(w, w', g);
  }

  lemma CrashKeepsReads(w: World, w': World, g: seq<Entry>, fs: seq<File>, chunks: seq<seq<Entry>>, newLog: nat, u: UserKey)
    requires Inv(w) && Crash(w, w', g, fs, chunks, newLog) && ReadsOk(w, u)
    ensures ReadsOk(w', u)
  {
    hide MemOk, LogsOk, ManifestOk, LevelsOk, Recovered, DbEntries, Group;
    CrashParts(w, w', g, fs, chunks, newLog);
    RecoveredVersion(w, w', g, fs, chunks, newLog);
    RecoveredReads(w, w', g, u);
  }

  lemma RecoveredReads(w: World, w': World, g: seq<Entry>, u: UserKey)
    requires MemOk(w.db) && SnapshotsOk(w.db) && HistOk(w) && ReadsOk(w, u) && Group(g, w.db.lastSequence + 1)
    requires w'.db.snapshots == [] && w'.hist == w.hist + Elements(g)
    requires DbEntries(w'.db) == DbEntries(w.db) + Elements(g) && w'.db.lastSequence == w.db.lastSequence + |g|
    ensures ReadsOk(w', u)
  {
    GroupAboveAll(g, w.db.lastSequence + 1, DbEntries(w.db));
    GroupAboveAll(g, w.db.lastSequence + 1, w.hist);
    assert SmallestSnapshot(w.db) <= SmallestSnapshot(w'.db);
    hide DbEntries, Group;
    forall s | SmallestSnapshot(w'.db) <= s ensures Read(DbEntries(w'.db), u, s) == Read(w'.hist, u, s) {
      ReadExtend(DbEntries(w.db), w.hist, Elements(g), u, s);
    }
  }

  /** The database recovered from a crash holds exactly the entries held before it, and the
      group in flight if its log record was complete. */
  lemma CrashLosesNothing(w: World, w': World, g: seq<Entry>, fs: seq<File>, chunks: seq<seq<Entry>>, newLog: nat)
    requires Inv(w) && Crash(w, w', g, fs, chunks, newLog)
    ensures DbEntries(w'.db) == DbEntries(w.db) + Elements(g) && w'.db.lastSequence == w.db.lastSequence + |g|
    ensures g == [] ==> forall u, s :: Read(DbEntries(w'.db), u, s) == Read(DbEntries(w.db), u, s)
  {
    hide Recovered;
    RecoveredVersion(w, w', g, fs, chunks, newLog);
    if g == [] {
      assert DbEntries(w'.db) == DbEntries(w.db);
    }
  }

  /** Recovery never reports missing files: every table the manifest names is on the disk. */
  lemma NoTableMissing(w: World, l: nat, f: File)
    requires Inv(w) && l < NUM_LEVELS && GoodEdits(w.db.disk.manifest) && f in Replay(w.db.disk.manifest)[l]
    ensures f.number in w.db.disk.tables
  {
    hide MemOk, LogsOk, HistOk, ManifestOk, LatestLog, LatestNextFile, LatestSequence, Replay, LevelOrder;
    LastRecord(w.db);
  }
}
