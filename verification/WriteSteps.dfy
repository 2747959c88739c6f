/** Writes, memtable switches, snapshots and file deletion keep the engine's invariant. */
module WriteSteps {
  import opened Entries
  import opened Versions
  import opened Builders
  import opened Installing
  import opened Engine

  // Newer entries shadow both stores alike.
  lemma ReadExtend(a: set<Entry>, b: set<Entry>, g: set<Entry>, u: UserKey, s: nat)
    requires Distinct(a + g) && Distinct(b + g)
    requires forall e, f :: e in g && (f in a || f in b) ==> e.key.sn > f.key.sn
    requires Read(a, u, s) == Read(b, u, s)
    ensures Read(a + g, u, s) == Read(b + g, u, s)
  {
    if e :| e in g && e.key.user == u && e.key.sn <= s {
      NewestExists(g, u, s);
      var n :| Newest(g, u, s, n);
      assert Newest(a + g, u, s, n) && Newest(b + g, u, s, n);
      ReadIs(a + g, u, s, n);
      ReadIs(b + g, u, s, n);
    } else {
      assert Distinct(a) && Distinct(b);
      forall e ensures Newest(a + g, u, s, e) <==> Newest(a, u, s, e) {}
      forall e ensures Newest(b + g, u, s, e) <==> Newest(b, u, s, e) {}
      ReadSame(a + g, a, u, s);
      ReadSame(b + g, b, u, s);
    }
  }

  lemma GroupAboveAll(g: seq<Entry>, first: nat, base: set<Entry>)
    requires Group(g, first) && Distinct(base) && forall e :: e in base ==> e.key.sn < first
    ensures Distinct(base + Elements(g)) && Ascending(g)
    ensures forall e :: e in g ==> first <= e.key.sn < first + |g| && e.key.Parses()
    ensures forall e, f :: e in Elements(g) && f in base ==> e.key.sn > f.key.sn
  {
    forall e, f | e in g && f in g && e.key.sn == f.key.sn ensures e == f {
      var i :| 0 <= i < |g| && g[i] == e;
      var j :| 0 <= j < |g| && g[j] == f;
    }
  }

  lemma DbEntriesAfterWrite(w: World, w': World, g: seq<Entry>)
    requires Write(w, w', g)
    ensures MemEntries(w'.db) == MemEntries(w.db) + Elements(g)
    ensures DbEntries(w'.db) == DbEntries(w.db) + Elements(g)
  {
  }

  lemma WriteKeepsMem(w: World, w': World, g: seq<Entry>)
    requires MemOk(w.db) && Write(w, w', g)
    ensures MemOk(w'.db)
  {
    var db, db' := w.db, w'.db;
    DbEntriesAfterWrite(w, w', g);
    GroupAboveAll(g, db.lastSequence + 1, DbEntries(db));
    forall i | 0 <= i < |db'.mem| ensures db'.mem[i].key.Parses() {
      assert db'.mem[i] in Elements(db'.mem);
      if db'.mem[i] in Elements(db.mem) { var k :| 0 <= k < |db.mem| && db.mem[k] == db'.mem[i]; }
    }
    assert forall e :: e in ImmEntries(db) || e in VersionEntries(db.v) ==> e in DbEntries(db);
  }

  lemma LogInMem(db: Db)
    requires LogsOk(db)
    ensures Elements(LiveLog(db.disk, db.logNumber, db.logfileNumber)) == MemEntries(db)
  {
    var log := LiveLog(db.disk, db.logNumber, db.logfileNumber);
    forall e ensures e in log <==> e in MemEntries(db) {
      assert e in db.disk.logs[db.logfileNumber] <==> e in Elements(db.mem);
      assert db.imm.Some? ==> (e in db.disk.logs[db.logNumber] <==> e in ImmEntries(db));
    }
  }

  // The live logs once a group has been appended to the current one.
  lemma LoggedGroup(db: Db, g: seq<Entry>)
    requires MemOk(db) && LogsOk(db) && Group(g, db.lastSequence + 1)
    ensures LiveLog(Logged(db, g), db.logNumber, db.logfileNumber) == LiveLog(db.disk, db.logNumber, db.logfileNumber) + g
    ensures Ascending(LiveLog(Logged(db, g), db.logNumber, db.logfileNumber))
  {
    var log := LiveLog(db.disk, db.logNumber, db.logfileNumber);
    LogInMem(db);
    GroupAboveAll(g, db.lastSequence + 1, DbEntries(db));
    hide Newer, Distinct, VersionEntries, Sorted;
    assert LiveLog(Logged(db, g), db.logNumber, db.logfileNumber) == log + g;
    forall e | e in log ensures e.key.sn <= db.lastSequence {
      assert e in Elements(log);
      assert e in DbEntries(db);
    }
    AscendingConcat(log, g, db.lastSequence + 1);
  }

  lemma WriteKeepsLogs(w: World, w': World, g: seq<Entry>)
    requires MemOk(w.db) && LogsOk(w.db) && Write(w, w', g)
    ensures LogsOk(w'.db)
  {
    LoggedGroup(w.db, g);
    hide Newer, Distinct, VersionEntries, Sorted, MemOk;
    var base := w.db.disk.logs[w.db.logfileNumber];
    assert Elements(base + g) == Elements(base) + Elements(g);
  }

  lemma AscendingConcat(a: seq<Entry>, b: seq<Entry>, n: nat)
    requires Ascending(a) && Ascending(b)
    requires (forall e :: e in a ==> e.key.sn < n) && forall e :: e in b ==> n <= e.key.sn
    ensures Ascending(a + b)
  {
    forall i, j | 0 <= i < j < |a + b| ensures (a + b)[i].key.sn < (a + b)[j].key.sn {
      if i < |a| { assert a[i] in a; }
      if j >= |a| { assert b[j - |a|] in b; }
    }
  }

  lemma WriteKeepsManifest(w: World, w': World, g: seq<Entry>)
    requires LevelsOk(w.db) && MemOk(w.db) && ManifestOk(w.db) && Write(w, w', g)
    ensures ManifestOk(w'.db)
  {
    hide GoodVersion, LevelOrder, Recorded, Newer, Distinct;
    DbEntriesAfterWrite(w, w', g);
    if g != [] {
      assert g[|g| - 1] in MemEntries(w'.db) && g[|g| - 1].key.sn == w'.db.lastSequence;
    } else {
      assert w'.db.lastSequence == w.db.lastSequence && MemEntries(w'.db) == MemEntries(w.db);
    }
  }

  lemma WriteKeepsHist(w: World, w': World, g: seq<Entry>)
    requires HistOk(w) && Write(w, w', g)
    ensures HistOk(w')
  {
    DbEntriesAfterWrite(w, w', g);
    GroupAboveAll(g, w.db.lastSequence + 1, w.hist);
    hide DbEntries, Distinct;
  }

  lemma WriteKeepsReads(w: World, w': World, g: seq<Entry>, u: UserKey)
    requires MemOk(w.db) && SnapshotsOk(w.db) && HistOk(w) && ReadsOk(w, u) && Write(w, w', g)
    ensures ReadsOk(w', u)
  {
    var db := w.db;
    DbEntriesAfterWrite(w, w', g);
    GroupAboveAll(g, db.lastSequence + 1, DbEntries(db));
    GroupAboveAll(g, db.lastSequence + 1, w.hist);
    forall s | SmallestSnapshot(w'.db) <= s ensures Read(DbEntries(w'.db), u, s) == Read(w'.hist, u, s) {
      assert SmallestSnapshot(w.db) <= SmallestSnapshot(w'.db);
      ReadExtend(DbEntries(db), w.hist, Elements(g), u, s);
    }
  }

  // What changes no entry and lowers no snapshot keeps the reads.
  lemma SameEntriesKeepReads(w: World, w': World, u: UserKey)
    requires ReadsOk(w, u) && w'.hist == w.hist && DbEntries(w'.db) == DbEntries(w.db)
    requires SmallestSnapshot(w.db) <= SmallestSnapshot(w'.db)
    ensures ReadsOk(w', u)
  {
    hide DbEntries;
  }

  lemma WriteKeepsInv(w: World, w': World, g: seq<Entry>)
    requires Inv(w) && Write(w, w', g)
    ensures Inv(w')
  {
    hide LevelsOk, MemOk, LogsOk, ManifestOk, HistOk;
    assert LevelsOk(w'.db) by { SameLevels(w.db, w'.db); }
    WriteKeepsMem(w, w', g);
    WriteKeepsLogs(w, w', g);
    WriteKeepsManifest(w, w', g);
    WriteKeepsHist(w, w', g);
  }

  lemma SameLevels(db: Db, db': Db)
    requires LevelsOk(db) && db'.v == db.v
    ensures LevelsOk(db')
  {
  }

  lemma SwitchKeepsInv(w: World, w': World)
    requires Inv(w) && Switch(w, w')
    ensures Inv(w') && DbEntries(w'.db) == DbEntries(w.db)
  {
    var db, db' := w.db, w'.db;
    assert LevelsOk(db') by { SameLevels(db, db'); }
    assert MemEntries(db') == MemEntries(db) && DbEntries(db') == DbEntries(db);
    assert LiveLog(db'.disk, db'.logNumber, db'.logfileNumber) == LiveLog(db.disk, db.logNumber, db.logfileNumber);
    hide LevelsOk, LevelOrder, GoodVersion, Recorded, Distinct, Newer;
    assert MemOk(db') by { SwitchKeepsMem(w, w'); }
    assert LogsOk(db');
    assert ManifestOk(db');
    assert HistOk(w');
  }

  lemma SwitchKeepsMem(w: World, w': World)
    requires MemOk(w.db) && Switch(w, w')
    ensures MemOk(w'.db)
  {
    assert MemEntries(w'.db) == MemEntries(w.db) && DbEntries(w'.db) == DbEntries(w.db);
  }

  lemma TakeSnapshotKeepsInv(w: World, w': World)
    requires Inv(w) && TakeSnapshot(w, w')
    ensures Inv(w') && DbEntries(w'.db) == DbEntries(w.db) && SmallestSnapshot(w'.db) == SmallestSnapshot(w.db)
  {
    hide LevelOrder, GoodVersion, Recorded, Distinct, Newer;
    assert MemEntries(w'.db) == MemEntries(w.db) && DbEntries(w'.db) == DbEntries(w.db);
    assert SmallestSnapshot(w'.db) == SmallestSnapshot(w.db);
  }

  lemma ReleaseSnapshotKeepsInv(w: World, w': World, i: nat)
    requires Inv(w) && ReleaseSnapshot(w, w', i)
    ensures Inv(w') && DbEntries(w'.db) == DbEntries(w.db) && SmallestSnapshot(w'.db) >= SmallestSnapshot(w.db)
  {
    hide LevelOrder, GoodVersion, Recorded, Distinct, Newer;
    assert MemEntries(w'.db) == MemEntries(w.db) && DbEntries(w'.db) == DbEntries(w.db);
    assert SmallestSnapshot(w'.db) >= SmallestSnapshot(w.db);
  }

  lemma DeleteObsoleteKeepsInv(w: World, w': World, goneLogs: set<nat>, goneTables: set<nat>)
    requires Inv(w) && DeleteObsolete(w, w', goneLogs, goneTables)
    ensures Inv(w') && DbEntries(w'.db) == DbEntries(w.db)
  {
    hide LevelOrder, GoodVersion, Recorded, Distinct, Newer;
    assert MemEntries(w'.db) == MemEntries(w.db) && DbEntries(w'.db) == DbEntries(w.db);
    assert LiveLog(w'.db.disk, w'.db.logNumber, w'.db.logfileNumber) == LiveLog(w.db.disk, w.db.logNumber, w.db.logfileNumber);
  }
}
