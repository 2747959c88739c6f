/** The database object: its methods take exactly the steps of the engine. */
module DbImpls {
  import opened Entries
  import opened Versions
  import opened Selection
  import opened Builders
  import opened Compactions
  import opened Levels
  import opened Installing
  import opened Engine
  import opened WriteSteps
  import opened Ops
  import opened DropRules
  import opened InstallSteps
  import opened MoveSteps
  import opened Recovery
  import opened Runs
  import opened Mergers
  import opened Inputs
  import opened Cursors
  import DBIterators

  // ----- The memtable -----

  // MemTable::Add: the entry goes to its place in the order.
  function MemInsert(es: seq<Entry>, e: Entry): seq<Entry> {
    if es == [] || Before(e.key, es[0].key) then [e] + es else [es[0]] + MemInsert(es[1..], e)
  }

  lemma {:induction false} MemInsertSorts(es: seq<Entry>, e: Entry)
    requires Sorted(es) && forall d :: d in es ==> Before(e.key, d.key) || Before(d.key, e.key)
    ensures Sorted(MemInsert(es, e))
    ensures forall d :: d in MemInsert(es, e) <==> d == e || d in es
  {
    if es != [] {
      assert es == [es[0]] + es[1..] && es[0] in es;
      if Before(e.key, es[0].key) {
        forall j | 0 <= j < |es| ensures Before(e.key, es[j].key) { Ordered(es, 0, j); }
      } else {
        MemInsertSorts(es[1..], e);
        var r := MemInsert(es[1..], e);
        forall j | 0 <= j < |r| ensures Before(es[0].key, r[j].key) {
          assert r[j] in r;
          if r[j] != e {
            var k :| 0 <= k < |es[1..]| && es[1..][k] == r[j];
            Ordered(es, 0, k + 1);
          }
        }
      }
    }
  }

  // Inserting entries in sequence order into a memtable of older ones.
  method InsertInto(mem: seq<Entry>, g: seq<Entry>) returns (r: seq<Entry>)
    requires Sorted(mem) && Ascending(g) && forall d, e :: d in mem && e in g ==> d.key.sn < e.key.sn
    ensures Sorted(r) && Elements(r) == Elements(mem) + Elements(g)
  {
    r := mem;
    for i := 0 to |g|
      invariant Sorted(r) && forall d :: d in r <==> d in mem || d in g[..i]
    {
      forall d | d in r ensures d.key.sn < g[i].key.sn {
        if d in g[..i] {
          var j :| 0 <= j < i && g[j] == d;
        } else {
          assert g[i] in g;
        }
      }
      MemInsertSorts(r, g[i]);
      r := MemInsert(r, g[i]);
      assert g[..i + 1] == g[..i] + [g[i]];
    }
    assert g[..|g|] == g;
  }

  // ----- Tables rebuilt from logs -----

  /** RecoverLogFile: replay a log's entries into a memtable, writing it out as a level-0 table
      whenever it has grown too big, and at the end. */
  method RecoverLogFile(log: seq<Entry>, fs0: seq<File>, ghost chunks0: seq<seq<Entry>>, next0: nat)
    returns (fs: seq<File>, ghost chunks: seq<seq<Entry>>, next: nat)
    requires Ascending(log) && forall e :: e in log ==> e.key.Parses()
    requires Rebuilt(fs0, chunks0) && forall f :: f in fs0 ==> f.number < next0
    ensures Rebuilt(fs, chunks) && Flatten(chunks) == Flatten(chunks0) + log
    ensures next0 <= next && forall f :: f in fs ==> (f in fs0 || next0 <= f.number) && f.number < next
  {
    fs, chunks, next := fs0, chunks0, next0;
    var mem: seq<Entry> := [];
    ghost var chunk: seq<Entry> := [];
    ghost var base := Flatten(chunks0);
    for i := 0 to |log|
      invariant Rebuilt(fs, chunks) && Flatten(chunks) + chunk == base + log[..i]
      invariant next0 <= next && forall f :: f in fs ==> (f in fs0 || next0 <= f.number) && f.number < next
      invariant Sorted(mem) && (forall d :: d in mem <==> d in chunk) && forall d :: d in chunk ==> d in log[..i]
    {
      assert log[..i + 1] == log[..i] + [log[i]];
      forall d | d in mem ensures d.key.sn < log[i].key.sn {
        assert d in log[..i];
      }
      MemInsertSorts(mem, log[i]);
      AppendOne(Flatten(chunks), chunk, base, log[..i], log[i]);
      mem, chunk := MemInsert(mem, log[i]), chunk + [log[i]];
      var full: bool := *;  // ApproximateMemoryUsage() > write_buffer_size
      if full {
        forall d | d in chunk ensures d in log { assert d in log[..i + 1]; }
        fs, chunks, next := WriteLevel0(fs, chunks, next, mem, chunk, log);
        mem, chunk := [], [];
      }
    }
    assert log[..|log|] == log;
    if mem != [] {
      fs, chunks, next := WriteLevel0(fs, chunks, next, mem, chunk, log);
    } else {
      EmptyAlike(mem, chunk);
      assert Flatten(chunks) == base + log;
    }
  }

  lemma AppendOne(a: seq<Entry>, b: seq<Entry>, c: seq<Entry>, d: seq<Entry>, e: Entry)
    requires a + b == c + d
    ensures a + (b + [e]) == c + (d + [e])
  {
    assert a + (b + [e]) == (a + b) + [e] && c + (d + [e]) == (c + d) + [e];
  }

  predicate Between(fs: seq<File>, lo: nat, hi: nat) { forall f :: f in fs ==> lo <= f.number < hi }

  ghost predicate LogParses(log: seq<Entry>) { Ascending(log) && forall e :: e in log ==> e.key.Parses() }

  // The numbers of the logs up to n are marked as used.
  ghost predicate Marked(logs: map<nat, seq<Entry>>, lo: nat, n: nat, next: nat) { forall m :: m in logs && lo <= m < n ==> m < next }

  /** The logs to replay, in the order they were generated; each replayed log's number is
      marked as used. */
  method RecoverLogs(logs: map<nat, seq<Entry>>, lo: nat, hi: nat, next0: nat)
    returns (fs: seq<File>, ghost chunks: seq<seq<Entry>>, next: nat)
    requires lo <= hi && LogParses(LogsFrom(logs, lo, hi))
    ensures Rebuilt(fs, chunks) && Flatten(chunks) == LogsFrom(logs, lo, hi)
    ensures next0 <= next && Between(fs, next0, next) && Marked(logs, lo, hi, next)
  {
    fs, chunks, next := [], [], next0;
    assert LogsFrom(logs, lo, lo) == [];
    hide Rebuilt, Ascending, LogsFrom, Flatten, Between, LogParses, Marked;
    NothingRebuilt(logs, lo, next0);
    for n := lo to hi
      invariant Rebuilt(fs, chunks) && Flatten(chunks) == LogsFrom(logs, lo, n)
      invariant next0 <= next && Between(fs, next0, next) && Marked(logs, lo, n, next)
    {
      OneMoreLog(logs, lo, n, hi);
      MarkedOneMore(logs, lo, n, next);
      if n in logs {
        fs, chunks, next := RecoverOneLog(logs[n], n, fs, chunks, next0, next);
        MarkedOneMore(logs, lo, n, next);
      }
    }
  }

  lemma MarkedOneMore(logs: map<nat, seq<Entry>>, lo: nat, n: nat, next: nat)
    ensures (n !in logs || n < next) ==> (Marked(logs, lo, n, next) <==> Marked(logs, lo, n + 1, next))
  {
  }

  method RecoverOneLog(log: seq<Entry>, n: nat, fs0: seq<File>, ghost chunks0: seq<seq<Entry>>, ghost first: nat, next0: nat)
    returns (fs: seq<File>, ghost chunks: seq<seq<Entry>>, next: nat)
    requires LogParses(log) && Rebuilt(fs0, chunks0) && first <= next0 && Between(fs0, first, next0)
    ensures Rebuilt(fs, chunks) && Flatten(chunks) == Flatten(chunks0) + log
    ensures next0 <= next && n < next && Between(fs, first, next)
    ensures forall logs, lo :: Marked(logs, lo, n, next0) ==> Marked(logs, lo, n, next)
  {
    hide Rebuilt, Ascending, Flatten;
    fs, chunks, next := RecoverLogFile(log, fs0, chunks0, next0);
    if next <= n { next := n + 1; }  // MarkFileNumberUsed
  }

  lemma NothingRebuilt(logs: map<nat, seq<Entry>>, lo: nat, next: nat)
    ensures Rebuilt([], []) && Flatten([]) == [] && Between([], next, next) && Marked(logs, lo, lo, next)
  {
  }

  lemma OneMoreLog(logs: map<nat, seq<Entry>>, lo: nat, n: nat, hi: nat)
    requires lo <= n < hi && LogParses(LogsFrom(logs, lo, hi))
    ensures LogsFrom(logs, lo, n + 1) == LogsFrom(logs, lo, n) + if n in logs then logs[n] else []
    ensures n in logs ==> LogParses(logs[n])
  {
    LogsFromSplit(logs, lo, n, n + 1);
    LogsFromSplit(logs, lo, n, hi);
    LogsFromSplit(logs, n, n + 1, hi);
    var before, log, after := LogsFrom(logs, lo, n), LogsFrom(logs, n, n + 1), LogsFrom(logs, n + 1, hi);
    assert LogsFrom(logs, n + 1, n + 1) == [] && log == if n in logs then logs[n] else [];
    assert LogsFrom(logs, lo, hi) == before + (log + after);
    SuffixAscends(before, log + after);
    PrefixAscends(log, after);
    forall e | e in log ensures e.key.Parses() { assert e in before + (log + after); }
  }

  lemma PrefixAscends(a: seq<Entry>, b: seq<Entry>)
    requires Ascending(a + b)
    ensures Ascending(a)
  {
    forall i, j | 0 <= i < j < |a| ensures a[i].key.sn < a[j].key.sn {
      assert (a + b)[i] == a[i] && (a + b)[j] == a[j];
    }
  }

  method WriteLevel0(fs: seq<File>, ghost chunks: seq<seq<Entry>>, next: nat, mem: seq<Entry>, ghost chunk: seq<Entry>, ghost log: seq<Entry>)
    returns (fs': seq<File>, ghost chunks': seq<seq<Entry>>, next': nat)
    requires Rebuilt(fs, chunks) && mem != [] && Sorted(mem)
    requires forall d :: d in mem <==> d in chunk
    requires forall f :: f in fs ==> f.number < next
    requires (forall e :: e in log ==> e.key.Parses()) && forall e :: e in chunk ==> e in log
    ensures Rebuilt(fs', chunks') && Flatten(chunks') == Flatten(chunks) + chunk
    ensures next' == next + 1 && |fs'| == |fs| + 1 && fs'[..|fs|] == fs && fs'[|fs|].number == next
    ensures forall f :: f in fs' <==> f in fs || f == fs'[|fs|]
  {
    var size: nat :| true;
    var f := File(next, size, mem);
    forall i | 0 <= i < |mem| ensures mem[i].key.Parses() {
      assert mem[i] in chunk;
    }
    fs', chunks', next' := fs + [f], chunks + [chunk], next + 1;
    FlattenSnoc(chunks, chunk);
    forall i | 0 <= i < |fs| ensures fs[i].number < next { assert fs[i] in fs; }
  }

  lemma {:induction false} FlattenSnoc(chunks: seq<seq<Entry>>, c: seq<Entry>)
    ensures Flatten(chunks + [c]) == Flatten(chunks) + c
  {
    if chunks == [] {
      assert [c][1..] == [];
    } else {
      assert (chunks + [c])[1..] == chunks[1..] + [c];
      FlattenSnoc(chunks[1..], c);
    }
  }

  lemma EmptyAlike(a: seq<Entry>, b: seq<Entry>)
    requires a == [] && forall d :: d in a <==> d in b
    ensures b == []
  {
    if |b| > 0 { HeadMember(b); }
  }

  lemma HeadMember(b: seq<Entry>)
    requires |b| > 0
    ensures b[0] in b
  {
  }

  // What a new group needs of the memtable.
  lemma WriteApart(w: World, g: seq<Entry>)
    requires Inv(w) && Group(g, w.db.lastSequence + 1)
    ensures Sorted(w.db.mem) && Ascending(g) && forall d, e :: d in w.db.mem && e in g ==> d.key.sn < e.key.sn
  {
    hide LevelsOk, LogsOk, ManifestOk, HistOk, SnapshotsOk;
    GroupAboveAll(g, w.db.lastSequence + 1, DbEntries(w.db));
    forall d, e | d in w.db.mem && e in g ensures d.key.sn < e.key.sn {
      assert d in DbEntries(w.db) && e in Elements(g);
    }
  }

  lemma IsWrite(w: World, w': World, g: seq<Entry>)
    requires Group(g, w.db.lastSequence + 1) && w.db.lastSequence + |g| < MAX_SEQUENCE
    requires Sorted(w'.db.mem) && Elements(w'.db.mem) == Elements(w.db.mem) + Elements(g)
    requires w'.db == w.db.(mem := w'.db.mem, lastSequence := w.db.lastSequence + |g|, disk := Logged(w.db, g))
    requires w'.hist == w.hist + Elements(g)
    ensures Write(w, w', g)
  {
  }

  lemma GroupWrote(w: World, w': World, ops: seq<Op>)
    requires Inv(w) && Write(w, w', Stamped(ops, w.db.lastSequence + 1))
    ensures Wrote(DbEntries(w.db), w.db.lastSequence, ops, DbEntries(w'.db)) && w'.db.lastSequence == w.db.lastSequence + |ops|
  {
    hide LevelsOk, LogsOk, ManifestOk, HistOk, SnapshotsOk, Wrote, Stamped;
    DbEntriesAfterWrite(w, w', Stamped(ops, w.db.lastSequence + 1));
    StampedWrote(DbEntries(w.db), ops, w.db.lastSequence);
  }

  lemma FlushableMem(w: World, size: nat)
    requires Inv(w) && w.db.imm.Some?
    ensures var f := File(w.db.nextFile, size, w.db.imm.value);
      f.entries != [] ==> (GoodFile(f) && Smallest(f).user <= Largest(f).user)
    ensures GoodMem(w.db.imm.value) && GoodVersion(w.db.v) && LevelOrder(w.db.v) && SequencesBounded(w.db.v)
  {
    hide LogsOk, ManifestOk, HistOk, SnapshotsOk, LevelOrder;
    var db := w.db;
    var f := File(db.nextFile, size, db.imm.value);
    if db.imm.value != [] { WithinFile(f, f.entries[0]); }
    forall l, i, e | 0 <= l < NUM_LEVELS && 0 <= i < |db.v[l]| && e in db.v[l][i].entries ensures e.key.sn <= MAX_SEQUENCE {
      InVersion(db.v, l, db.v[l][i], e);
      assert e in DbEntries(db);
    }
  }

  // A flushed memtable goes to the level picked for its range.
  ghost predicate Placed(v: Version, imm: seq<Entry>, level: nat, maxGrandParentOverlap: nat) {
    GoodVersion(v) && (imm != [] ==> PlaceFor(v, level, imm[0].key.user, imm[|imm| - 1].key.user, maxGrandParentOverlap))
  }

  /** The table written for a memtable, and the level picked for it. */
  method WriteLevel0Table(v: Version, f: File, maxGrandParentOverlap: nat) returns (level: nat, added: seq<(nat, File)>)
    requires GoodVersion(v) && LevelOrder(v) && SequencesBounded(v)
    requires f.entries != [] ==> GoodFile(f) && Smallest(f).user <= Largest(f).user
    ensures level <= MAX_MEM_COMPACT_LEVEL && added == AddAll(level, if f.entries == [] then [] else [f])
    ensures Placed(v, f.entries, level, maxGrandParentOverlap)
    ensures forall i :: 0 <= i < |added| ==> added[i].0 < NUM_LEVELS && GoodFile(added[i].1)
  {
    hide LevelOrder, NoOverlap, SequencesBounded, GoodFile;
    level, added := 0, [];
    if f.entries != [] {
      level := PickLevelForMemTableOutput(v, Smallest(f).user, Largest(f).user, maxGrandParentOverlap);
      added := AddAll(level, [f]);
    }
  }

  lemma IsFlush(w: World, w': World, level: nat, size: nat, maxGrandParentOverlap: nat)
    requires GoodVersion(w.db.v) && w.db.imm.Some? && GoodMem(w.db.imm.value) && level <= MAX_MEM_COMPACT_LEVEL
    requires Placed(w.db.v, w.db.imm.value, level, maxGrandParentOverlap)
    requires GoodEdit(FlushEdit(w.db, level, size)) && w'.hist == w.hist
    requires w'.db == w.db.(v := InstallVersion(w.db.v, FlushEdit(w.db, level, size)), imm := None,
      logNumber := w.db.logfileNumber, nextFile := w.db.nextFile + 1,
      disk := w.db.disk.(manifest := w.db.disk.manifest + [FlushEdit(w.db, level, size)],
                         tables := w.db.disk.tables + {w.db.nextFile}))
    ensures Flush(w, w', level, size)
  {
    assert AddAll(level, []) == [];
    hide InstallVersion, NoOverlap, GoodMem;
  }

  lemma LiveSnapshot(db: Db, s: nat)
    requires SnapshotsOk(db) && (s in db.snapshots || s == db.lastSequence)
    ensures SmallestSnapshot(db) <= s
  {
  }

  // LogAndApply's new version, made by a builder.
  method Apply(v: Version, e: Edit) returns (v': Version)
    requires GoodVersion(v) && GoodEdit(e)
    ensures v' == InstallVersion(v, e)
  {
    var b := new Builder(v);
    b.Apply(e);
    v' := b.SaveTo();
    assert v' == InstallVersion(v, e);
  }

  // ----- The output of a compaction -----

  lemma {:induction false} PiecesGood(outs: seq<File>, i: nat)
    requires i < |outs| && outs[i].entries != [] && Sorted(Concat(outs)) && AllParse(Concat(outs))
    ensures GoodFile(outs[i])
  {
    var init, last := outs[..|outs| - 1], outs[|outs| - 1];
    var c := Concat(init);
    assert Concat(outs) == c + last.entries;
    if i == |outs| - 1 {
      forall a, b | 0 <= a < b < |last.entries| ensures Before(last.entries[a].key, last.entries[b].key) {
        Ordered(Concat(outs), |c| + a, |c| + b);
      }
      assert forall a :: 0 <= a < |last.entries| ==> last.entries[a] == Concat(outs)[|c| + a];
    } else {
      forall a, b | 0 <= a < b < |c| ensures Before(c[a].key, c[b].key) { Ordered(Concat(outs), a, b); }
      assert forall a :: 0 <= a < |c| ==> c[a] == Concat(outs)[a];
      PiecesGood(init, i);
    }
  }

  lemma {:induction false} RetainedParses(v: Version, level: nat, ss: nat, es: seq<Entry>, i: nat)
    requires LevelOrder(v) && i <= |es| && AllParse(es)
    ensures AllParse(Retained(v, level, ss, es, i))
    decreases |es| - i
  {
    hide Drop, LevelOrder;
    if i < |es| { RetainedParses(v, level, ss, es, i + 1); }
  }

  lemma OutputsGood(v: Version, level: nat, ss: nat, input: seq<Entry>, outs: seq<File>, first: nat)
    requires LevelOrder(v) && Sorted(input) && AllParse(input)
    requires Concat(outs) == Retained(v, level, ss, input, 0) && Outputs(outs, first)
    ensures forall i :: 0 <= i < |outs| ==> GoodFile(outs[i])
  {
    RetainedSorted(v, level, ss, input, 0);
    RetainedParses(v, level, ss, input, 0);
    hide LevelOrder, Retained, Concat, Sorted, GoodFile;
    forall i | 0 <= i < |outs| ensures GoodFile(outs[i]) { PiecesGood(outs, i); }
  }

  lemma AllGood(e: Edit, level: nat, outs: seq<File>)
    requires level < NUM_LEVELS && e.added == AddAll(level, outs) && forall i :: 0 <= i < |outs| ==> GoodFile(outs[i])
    ensures GoodEdit(e)
  {
  }

  lemma SelectionReady(w: World)
    requires Inv(w)
    ensures GoodVersion(w.db.v) && LevelOrder(w.db.v) && Distinct(VersionEntries(w.db.v))
  {
    hide LogsOk, ManifestOk, HistOk, SnapshotsOk, LevelOrder, VersionEntries, Newer;
    assert VersionEntries(w.db.v) <= DbEntries(w.db);
  }

  lemma MovedIsGood(v: Version, level: nat, f: File)
    requires LevelOrder(v) && level + 1 < NUM_LEVELS && GoodInputs(v, level, [f], [])
    ensures forall i :: 0 <= i < |[f]| ==> GoodFile([f][i])
  {
    assert GoodFiles([f]);
  }

  /** The work of a compaction: merge the inputs, drop what nobody can see, cut into tables. */
  method RunCompaction(v: Version, level: nat, in0: seq<File>, in1: seq<File>, smallestSnapshot: nat, firstNumber: nat)
    returns (ghost input: seq<Entry>, outs: seq<File>)
    requires GoodVersion(v) && LevelOrder(v) && level + 1 < NUM_LEVELS && GoodInputs(v, level, in0, in1)
    requires Listed(level, in0) && Listed(level + 1, in1)
    ensures Sorted(input) && Elements(input) == EntriesOf(in0) + EntriesOf(in1)
    ensures Concat(outs) == Retained(v, level, smallestSnapshot, input, 0) && Outputs(outs, firstNumber)
    ensures forall i :: 0 <= i < |outs| ==> GoodFile(outs[i])
  {
    hide LevelOrder, GoodInputs, AllSorted, MergeAll, Retained, Concat, Sorted, EntriesOf, AllParse, GoodFile, GoodVersion;
    InputsMerge(v, level, in0, in1);
    var merged := ReadRuns(InputRuns(level, in0, in1));
    input := merged;
    InputsAreFiles(v, level, in0, in1);
    InputParses(v, level, in0, in1, input);
    var c := new Compaction(v, level);
    outs := DoCompactionWork(c, merged, smallestSnapshot, firstNumber);
    OutputsGood(v, level, smallestSnapshot, input, outs, firstNumber);
  }

  // No compaction keeps what no reader at a snapshot, or later, can tell from nothing.
  lemma CompactDrops(w: World, w': World, level: nat, in0: seq<File>, in1: seq<File>, input: seq<Entry>, outs: seq<File>)
    requires Inv(w) && Compact(w, w', level, in0, in1, input, outs)
    ensures forall m: nat :: m <= w.db.lastSequence && (forall i :: 0 <= i < |w.db.snapshots| ==> m <= w.db.snapshots[i]) ==>
      DropsEnough(w.db.v, level, m, EntriesOf(outs))
  {
    hide LogsOk, ManifestOk, HistOk, SnapshotsOk, Compact, DropsEnough, LevelOrder;
    CompactOutputs(w, w', level, in0, in1, input, outs);
    CompactInput(w, w', level, in0, in1, input, outs);
    hide MemOk, LevelsOk, Distinct, KeptSet, EntriesOf;
    forall m: nat | m <= w.db.lastSequence && forall i :: 0 <= i < |w.db.snapshots| ==> m <= w.db.snapshots[i]
      ensures DropsEnough(w.db.v, level, m, EntriesOf(outs))
    {
      KeptDropsEnough(w.db.v, level, SmallestSnapshot(w.db), Elements(input), m);
    }
  }

  lemma IsCompact(w: World, w': World, level: nat, in0: seq<File>, in1: seq<File>, input: seq<Entry>, outs: seq<File>)
    requires GoodVersion(w.db.v) && LevelOrder(w.db.v) && level + 1 < NUM_LEVELS && GoodInputs(w.db.v, level, in0, in1)
    requires Sorted(input) && Elements(input) == EntriesOf(in0) + EntriesOf(in1)
    requires Concat(outs) == Retained(w.db.v, level, SmallestSnapshot(w.db), input, 0) && Outputs(outs, w.db.nextFile)
    requires GoodEdit(MoveEdit(w.db, level, in0, in1, outs, w.db.nextFile + |outs|)) && w'.hist == w.hist
    requires w'.db == LogAndApply(w.db, MoveEdit(w.db, level, in0, in1, outs, w.db.nextFile + |outs|)).(nextFile := w.db.nextFile + |outs|,
               disk := w.db.disk.(manifest := w.db.disk.manifest + [MoveEdit(w.db, level, in0, in1, outs, w.db.nextFile + |outs|)],
                                  tables := w.db.disk.tables + Numbers(outs)))
    ensures Compact(w, w', level, in0, in1, input, outs)
  {
    hide GoodVersion, LevelOrder, GoodInputs, EntriesOf, Concat, Retained, Outputs, Sorted, InstallVersion, GoodEdit;
  }

  // ----- Opening a database -----

  /** VersionSet::Recover: every manifest record through a single builder. */
  method ReplayManifest(m: seq<Edit>) returns (v: Version)
    requires GoodEdits(m)
    ensures v == Replay(m)
  {
    EmptyVersion();
    var b := new Builder([[], [], [], [], [], [], []]);
    for i := 0 to |m|
      invariant b.Ok() && fresh(b) && forall l :: 0 <= l < NUM_LEVELS ==> b.levels[l] == ApplyAll(EMPTY, m[..i], l)
    {
      assert m[..i + 1][..i] == m[..i] && GoodEdit(m[i]);
      b.Apply(m[i]);
    }
    assert m[..|m|] == m;
    v := b.SaveTo();
    assert v == Replay(m);
  }

  /** WriteSnapshot: one edit that adds every file of the version. */
  method WriteSnapshot(v: Version) returns (e: Edit)
    requires GoodVersion(v)
    ensures e == Snapshot(v)
  {
    hide SnapshotFrom, AddAll, GoodVersion, GoodEdit, Snapshot;
    SnapshotEnds(v);
    var added: seq<(nat, File)> := [];
    for level := 0 to NUM_LEVELS
      invariant added + SnapshotFrom(v, level) == SnapshotFrom(v, 0)
    {
      SnapshotLevels(v, level, added);
      added := added + AddAll(level, v[level]);
    }
    e := Edit(None, None, None, {}, added);
  }

  lemma SnapshotLevels(v: Version, level: nat, added: seq<(nat, File)>)
    requires GoodVersion(v) && level < NUM_LEVELS
    ensures added + SnapshotFrom(v, level) == (added + AddAll(level, v[level])) + SnapshotFrom(v, level + 1)
  {
  }

  lemma SnapshotEnds(v: Version)
    requires GoodVersion(v)
    ensures |v| == NUM_LEVELS && SnapshotFrom(v, NUM_LEVELS) == []
    ensures Snapshot(v) == Edit(None, None, None, {}, SnapshotFrom(v, 0))
  {
  }

  method PastAll(ns: set<nat>) returns (hi: nat)
    ensures forall n :: n in ns ==> n < hi
  {
    hi := 0;
    var rest := ns;
    while rest != {}
      invariant forall n :: n in ns ==> n in rest || n < hi
      decreases |rest|
    {
      var n :| n in rest;
      rest := rest - {n};
      if hi <= n { hi := n + 1; }
    }
  }

  // AddLiveFiles.
  method AddLiveFiles(v: Version) returns (live: set<nat>)
    ensures forall n :: n in live <==> exists l, f :: 0 <= l < |v| && f in v[l] && f.number == n
  {
    live := {};
    for l := 0 to |v|
      invariant forall n :: n in live <==> exists m, f :: 0 <= m < l && f in v[m] && f.number == n
    {
      ghost var before := live;
      live := live + Numbers(v[l]);
      forall n ensures n in live <==> exists m, f :: 0 <= m < l + 1 && f in v[m] && f.number == n {
        if n in Numbers(v[l]) {
          var f :| f in v[l] && f.number == n;
          assert 0 <= l < l + 1 && f in v[l] && f.number == n;
        }
      }
    }
  }

  lemma IsDeleteObsolete(w: World, w': World, goneLogs: set<nat>, goneTables: set<nat>, live: set<nat>)
    requires GoodVersion(w.db.v) && (forall n :: n in goneLogs ==> n < w.db.logNumber) && goneTables == w.db.disk.tables - live
    requires forall n :: n in live <==> exists l, f :: 0 <= l < |w.db.v| && f in w.db.v[l] && f.number == n
    requires w' == w.(db := w.db.(disk := w.db.disk.(logs := w.db.disk.logs - goneLogs, tables := w.db.disk.tables - goneTables)))
    ensures DeleteObsolete(w, w', goneLogs, goneTables)
  {
  }

  // Replaying up to hi is replaying up to any number past all logs.
  lemma LogsReachFar(logs: map<nat, seq<Entry>>, lo: nat, hi: nat, newLog: nat)
    requires lo < hi && lo in logs && (forall n :: n in logs ==> n < hi) && Marked(logs, lo, hi, newLog)
    ensures lo <= newLog && LogsFrom(logs, lo, newLog) == LogsFrom(logs, lo, hi) && forall n :: n in logs ==> n < newLog
  {
    if newLog <= hi {
      LogsFromSplit(logs, lo, newLog, hi);
      LogsFromEmpty(logs, newLog, hi);
    } else {
      LogsFromSplit(logs, lo, hi, newLog);
      LogsFromEmpty(logs, hi, newLog);
    }
  }

  lemma RebuiltGood(e: Edit, fs: seq<File>, chunks: seq<seq<Entry>>)
    requires Rebuilt(fs, chunks) && e.added == AddAll(0, fs)
    ensures GoodEdit(e)
  {
  }

  lemma IsRecovered(d: Disk, db: Db, fs: seq<File>, chunks: seq<seq<Entry>>, newLog: nat)
    requires GoodEdits(d.manifest) && LatestLog(d.manifest) <= newLog && forall n :: n in d.logs ==> n < newLog
    requires Rebuilt(fs, chunks) && Flatten(chunks) == LogsFrom(d.logs, LatestLog(d.manifest), newLog)
    requires LatestNextFile(d.manifest) < newLog && Between(fs, LatestNextFile(d.manifest) + 1, newLog)
    requires GoodEdit(RecoveryEdit(fs, newLog, db.lastSequence))
    requires db.lastSequence == MaxSequence(LogsFrom(d.logs, LatestLog(d.manifest), newLog), LatestSequence(d.manifest))
    requires var e := RecoveryEdit(fs, newLog, db.lastSequence);
      db == Db([], None, InstallVersion(Replay(d.manifest), e), db.lastSequence, [], newLog, newLog, newLog + 1,
               Disk([Snapshot(Replay(d.manifest)), e], d.logs[newLog := []], d.tables + Numbers(fs)))
    ensures Recovered(d, db, fs, chunks, newLog)
  {
    hide Rebuilt, LogsFrom, Flatten, InstallVersion, Replay, Snapshot, GoodEdit, GoodEdits, MaxSequence, LatestSequence, LatestNextFile, LatestLog;
  }

  // The database reopened holds what was held, and the group in flight.
  ghost predicate Reopened(w: World, w': World, g: seq<Entry>) {
    DbEntries(w'.db) == DbEntries(w.db) + Elements(g) && w'.db.lastSequence == w.db.lastSequence + |g| && w'.db.snapshots == []
  }

  lemma NoSnapshots(disk: Disk, db': Db, fs: seq<File>, chunks: seq<seq<Entry>>, newLog: nat)
    requires Recovered(disk, db', fs, chunks, newLog)
    ensures db'.snapshots == []
  {
    hide Rebuilt, LogsFrom, Flatten, InstallVersion, Replay, Snapshot, GoodEdit, GoodEdits, MaxSequence, LatestSequence, LatestNextFile, LatestLog;
  }

  lemma IsCrash(w: World, w': World, g: seq<Entry>, fs: seq<File>, chunks: seq<seq<Entry>>, newLog: nat)
    requires Inv(w) && Group(g, w.db.lastSequence + 1) && w.db.lastSequence + |g| < MAX_SEQUENCE
    requires Recovered(Logged(w.db, g), w'.db, fs, chunks, newLog) && w'.hist == w.hist + Elements(g)
    ensures Next(w, w', DoCrash(g, fs, chunks, newLog)) && Inv(w') && Reopened(w, w', g)
  {
    hide Inv, Group, Logged, Recovered, DbEntries;
    NoSnapshots(Logged(w.db, g), w'.db, fs, chunks, newLog);
    CrashKeepsInv(w, w', g, fs, chunks, newLog);
    CrashLosesNothing(w, w', g, fs, chunks, newLog);
  }

  // What Open needs of the disk it finds.
  lemma ReadyToRecover(w: World, g: seq<Entry>, hi: nat)
    requires Inv(w) && Group(g, w.db.lastSequence + 1) && forall n :: n in Logged(w.db, g).logs ==> n < hi
    ensures var d := Logged(w.db, g);
      && GoodEdits(d.manifest) && LatestLog(d.manifest) == w.db.logNumber < hi && w.db.logNumber in d.logs
      && LogParses(LogsFrom(d.logs, w.db.logNumber, hi))
  {
    hide ManifestOk, HistOk, SnapshotsOk, LatestLog, LevelOrder, Replay, LogsFrom;
    LastRecord(w.db);
    LoggedGroup(w.db, g);
    ReplayCurrent(w.db, g, hi);
    LogInMem(w.db);
    GroupAboveAll(g, w.db.lastSequence + 1, DbEntries(w.db));
    forall e | e in LogsFrom(Logged(w.db, g).logs, w.db.logNumber, hi) ensures e.key.Parses() {
      if e !in g {
        assert e in MemEntries(w.db);
        MemParses(w.db, e);
      }
    }
    hide LiveLog, MemOk;
    assert w.db.logNumber in w.db.disk.logs;
  }

  lemma MemParses(db: Db, e: Entry)
    requires MemOk(db) && e in MemEntries(db)
    ensures e.key.Parses()
  {
    if e in db.mem {
      var i :| 0 <= i < |db.mem| && db.mem[i] == e;
    } else {
      var i :| 0 <= i < |db.imm.value| && db.imm.value[i] == e;
    }
  }

  // ----- Iterating over a database -----

  // NewInternalIterator: the memtables, then the levels.
  function InternalRuns(db: Db): seq<seq<Entry>> { MemRuns(db) + VersionRuns(db.v, 0) }

  function MemRuns(db: Db): seq<seq<Entry>> { [db.mem] + if db.imm.Some? then [db.imm.value] else [] }

  lemma MemRunsOver(db: Db)
    requires MemOk(db)
    ensures Over(MemRuns(db), MemEntries(db))
  {
    OneRun(db.mem);
    if db.imm.Some? {
      OneRun(db.imm.value);
      JoinRuns([db.mem], Elements(db.mem), [db.imm.value], ImmEntries(db));
    } else {
      assert MemRuns(db) == [db.mem] && MemEntries(db) == Elements(db.mem);
    }
  }

  lemma InternalRunsOver(db: Db)
    requires LevelsOk(db) && MemOk(db)
    ensures Over(InternalRuns(db), DbEntries(db))
  {
    MemRunsOver(db);
    VersionRunsOver(db.v, 0);
    assert EntriesFrom(db.v, 0) == VersionEntries(db.v);
    assert KeysApart(MemEntries(db), VersionEntries(db.v));
    hide Over, KeysApart, LevelOrder;
    JoinRuns(MemRuns(db), MemEntries(db), VersionRuns(db.v, 0), VersionEntries(db.v));
  }

  lemma AllEntriesParse(db: Db, e: Entry)
    requires LevelsOk(db) && MemOk(db) && e in DbEntries(db)
    ensures e.key.Parses()
  {
    if e in MemEntries(db) {
      MemParses(db, e);
    } else {
      var l :| 0 <= l < |db.v| && e in EntriesOf(db.v[l]);
      var f :| f in db.v[l] && e in f.entries;
      MemberOf(db.v[l], f);
      var i :| 0 <= i < |f.entries| && f.entries[i] == e;
    }
  }

  /** What a client iterates over, at any sequence number: the keys that a read finds, each once
      and in order, with the values that reads find. */
  lemma IteratorIsReads(db: Db, es: seq<Entry>, s: nat)
    requires LevelsOk(db) && MemOk(db) && es == MergeAll(InternalRuns(db))
    ensures AllSorted(InternalRuns(db)) && Sorted(es) && AllParse(es)
    ensures var list := DBIterators.View(es, s);
      && (forall i, j :: 0 <= i < j < |list| ==> list[i].0 < list[j].0)
      && forall u, x :: (u, x) in list <==> Read(DbEntries(db), u, s) == Found(x)
  {
    InternalRunsOver(db);
    OverMerges(InternalRuns(db), DbEntries(db));
    SortedRuns(InternalRuns(db), DbEntries(db));
    hide Over, AllSorted, LevelsOk;
    forall i | 0 <= i < |es| ensures es[i].key.Parses() {
      assert es[i] in Elements(es);
      AllEntriesParse(db, es[i]);
    }
    assert DBIterators.Parsed(es) == Elements(es) == DbEntries(db) && Distinct(DbEntries(db));
    hide MemOk, DbEntries, MergeAll, Sorted;
    DBIterators.ViewSorted(es, s);
    forall u, x ensures (u, x) in DBIterators.View(es, s) <==> Read(DbEntries(db), u, s) == Found(x) {
      DBIterators.ViewIsReads(es, s, u, x);
    }
  }

  // All that starts a compaction of one file is that file.
  lemma OnlyOne(start: seq<File>, in0: seq<File>)
    requires start != [] && Different(start) && |in0| == 1 && forall f :: f in start ==> f in in0
    ensures in0 == [in0[0]] && start == in0
  {
    assert start[0] in start;
    if |start| > 1 { TwoDiffer(start); }
  }

  lemma TwoDiffer(fs: seq<File>)
    requires |fs| > 1 && Different(fs)
    ensures exists f, g :: f in fs && g in fs && f != g
  {
    assert fs[0] in fs && fs[1] in fs;
  }

  // A range of user keys to compact by hand.
  datatype Range = Range(level: nat, begin: Option<UserKey>, end: Option<UserKey>)

  ghost predicate SomeOverlap(v: Version, r: Range) {
    r.level < |v| && exists f :: f in v[r.level] && f.entries != [] && Overlaps(f, r.begin, r.end)
  }

  ghost predicate OnLevel(step: Step, level: nat) { (step.DoMove? && step.level == level) || (step.DoCompact? && step.level == level) }

  // The bytes two levels down that the file overlaps.
  ghost function BytesBelow(v: Version, level: nat, f: File): nat
    requires GoodVersion(v) && f.entries != []
  {
    if level + 2 < NUM_LEVELS then BytesIn(v, level + 2, Smallest(f).user, Largest(f).user) else 0
  }

  // A lone file with nothing to merge with is moved, unless it overlaps too much two levels down
  // or the compaction was asked for by hand.
  ghost predicate MovesIff(v: Version, level: nat, step: Step, manual: bool, maxGrandParentOverlap: nat) {
    && GoodVersion(v)
    && match step
      case DoMove(_, f) => !manual && f.entries != [] && BytesBelow(v, level, f) <= maxGrandParentOverlap
      case DoCompact(_, in0, in1, _, _) => manual || |in0| != 1 || in1 != [] || in0[0].entries == [] || BytesBelow(v, level, in0[0]) > maxGrandParentOverlap
      case _ => false
  }

  lemma MoveCondition(v: Version, level: nat, in0: seq<File>, in1: seq<File>, s: IKey, l: IKey, grandparents: seq<File>, manual: bool, maxGrandParentOverlap: nat)
    requires LevelOrder(v) && level + 1 < NUM_LEVELS && GoodFiles(in0) && GoodFiles(in1)
    requires IsSmallestKey(in0 + in1, s) && IsLargestKey(in0 + in1, l)
    requires grandparents == if level + 2 < NUM_LEVELS then Overlapping(v[level + 2], Some(s.user), Some(l.user)) else []
    ensures |in0| == 1 && in1 == [] ==> in0[0].entries != [] && BytesBelow(v, level, in0[0]) == TotalFileSize(grandparents)
  {
    if |in0| == 1 && in1 == [] { assert in0 + in1 == [in0[0]]; }
    hide LevelOrder, Overlapping;
  }

  // ----- The database object -----

  class DBImpl {
    var mem: seq<Entry>
    var imm: Option<seq<Entry>>
    var current: Version
    var lastSequence: nat
    var snapshots: seq<nat>
    var logNumber: nat
    var logfileNumber: nat
    var nextFile: nat
    var disk: Disk
    ghost var hist: set<Entry>   // everything ever committed

    constructor (db: Db, ghost written: set<Entry>)
      ensures Now() == World(db, written)
    {
      mem, imm, current, lastSequence, snapshots := db.mem, db.imm, db.v, db.lastSequence, db.snapshots;
      logNumber, logfileNumber, nextFile, disk := db.logNumber, db.logfileNumber, db.nextFile, db.disk;
      hist := written;
    }

    /** DB::Open on the disk left by a crash of w, with group g possibly logged but not applied. */
    static method Open(d: Disk, ghost w: World, ghost g: seq<Entry>) returns (db: DBImpl, ghost step: Step)
      requires Inv(w) && Group(g, w.db.lastSequence + 1) && w.db.lastSequence + |g| < MAX_SEQUENCE && d == Logged(w.db, g)
      ensures fresh(db) && step.DoCrash? && step.g == g && Next(w, db.Now(), step) && Inv(db.Now())
      ensures Reopened(w, db.Now(), g)
    {
      hide Inv, Crash, Recovered, Group, LogsFrom, Ascending, Logged, Rebuilt, GoodEdits, Replay, Snapshot, InstallVersion, LatestLog,
        LatestNextFile, LatestSequence, Flatten, MaxSequence, GoodEdit, Next, Reopened;
      var hi := PastAll(d.logs.Keys);
      ReadyToRecover(w, g, hi);
      var v := ReplayManifest(d.manifest);
      var minLog := LatestLog(d.manifest);
      var fs, next;
      ghost var chunks;
      fs, chunks, next := RecoverLogs(d.logs, minLog, hi, LatestNextFile(d.manifest) + 1);
      var newLog := next;
      LogsReachFar(d.logs, minLog, hi, newLog);
      var last := MaxSequence(LogsFrom(d.logs, minLog, newLog), LatestSequence(d.manifest));
      var edit := Edit(Some(newLog), Some(newLog + 1), Some(last), {}, AddAll(0, fs));
      RebuiltGood(edit, fs, chunks);
      var current := Apply(v, edit);
      var snapshot := WriteSnapshot(v);
      var disk := Disk([snapshot, edit], d.logs[newLog := []], d.tables + Numbers(fs));
      db := new DBImpl(Db([], None, current, last, [], newLog, newLog, newLog + 1, disk), w.hist + Elements(g));
      step := DoCrash(g, fs, chunks, newLog);
      IsRecovered(d, db.Now().db, fs, chunks, newLog);
      IsCrash(w, db.Now(), g, fs, chunks, newLog);
    }

    /** DeleteObsoleteFiles: logs below log_number, and tables of no version. */
    method DeleteObsoleteFiles() returns (ghost goneLogs: set<nat>, ghost goneTables: set<nat>)
      requires Inv(Now())
      modifies this
      ensures Next(old(Now()), Now(), DoDeleteObsolete(goneLogs, goneTables)) && Inv(Now())
      ensures forall n :: n in disk.logs <==> n in old(disk.logs) && n >= logNumber
      ensures forall n :: n in disk.tables <==> n in old(disk.tables) && exists l, f :: 0 <= l < |current| && f in current[l] && f.number == n
    {
      hide Inv, LevelOrder, DeleteObsolete;
      ghost var before := Now();
      SelectionReady(before);
      var live := AddLiveFiles(current);
      var oldLogs := set n | n in disk.logs && n < logNumber;
      var oldTables := disk.tables - live;
      goneLogs, goneTables := oldLogs, oldTables;
      disk := disk.(logs := disk.logs - oldLogs, tables := disk.tables - oldTables);
      assert DeleteObsolete(before, Now(), goneLogs, goneTables) by { IsDeleteObsolete(before, Now(), goneLogs, goneTables, live); }
      DeleteObsoleteKeepsInv(before, Now(), goneLogs, goneTables);
    }

    ghost function Now(): World reads this {
      World(Db(mem, imm, current, lastSequence, snapshots, logNumber, logfileNumber, nextFile, disk), hist)
    }

    /** Write, for the group at the head of the queue: log it, insert it, publish it. */
    method WriteGroup(ops: seq<Op>)
      requires Inv(Now()) && lastSequence + |ops| < MAX_SEQUENCE
      modifies this
      ensures Next(old(Now()), Now(), DoWrite(Stamped(ops, old(lastSequence) + 1))) && Inv(Now())
      ensures lastSequence == old(lastSequence) + |ops|
      ensures Wrote(old(DbEntries(Now().db)), old(lastSequence), ops, DbEntries(Now().db))
    {
      hide Inv, Write, Group, Logged, DbEntries, Wrote, Stamped;
      ghost var before := Now();
      var g := Stamped(ops, lastSequence + 1);
      WriteApart(Now(), g);
      disk := Logged(Db(mem, imm, current, lastSequence, snapshots, logNumber, logfileNumber, nextFile, disk), g);
      mem := InsertInto(mem, g);
      lastSequence := lastSequence + |ops|;
      hist := hist + Elements(g);
      IsWrite(before, Now(), g);
      WriteKeepsInv(before, Now(), g);
      GroupWrote(before, Now(), ops);
    }

    /** MakeRoomForWrite, once the memtable is full and the previous one is flushed. */
    method SwitchMemTable()
      requires Inv(Now()) && imm.None?
      modifies this
      ensures Next(old(Now()), Now(), DoSwitch) && Inv(Now())
    {
      hide Inv;
      ghost var before := Now();
      var newLogNumber := nextFile;
      nextFile := nextFile + 1;
      disk := disk.(logs := disk.logs[newLogNumber := []]);
      logfileNumber := newLogNumber;
      imm := Some(mem);
      mem := [];
      SwitchKeepsInv(before, Now());
    }

    /** CompactMemTable: the immutable memtable becomes a table, on the level picked for it. */
    method CompactMemTable(maxGrandParentOverlap: nat) returns (ghost level: nat, ghost size: nat)
      requires Inv(Now()) && imm.Some?
      modifies this
      ensures Next(old(Now()), Now(), DoFlush(level, size)) && Inv(Now())
      ensures Placed(old(current), old(imm).value, level, maxGrandParentOverlap)
    {
      hide Inv, Flush, LevelOrder, SequencesBounded, NoOverlap, GoodFile, GoodMem, InstallVersion, Placed, AddAll, GoodVersion;
      ghost var before := Now();
      var fileSize: nat :| true;
      var f := File(nextFile, fileSize, imm.value);
      FlushableMem(before, fileSize);
      var target, added := WriteLevel0Table(current, f, maxGrandParentOverlap);
      nextFile := nextFile + 1;
      var edit := Edit(Some(logfileNumber), Some(nextFile), Some(lastSequence), {}, added);
      assert edit == FlushEdit(before.db, target, fileSize);
      current := Apply(current, edit);
      disk := disk.(manifest := disk.manifest + [edit], tables := disk.tables + {f.number});
      imm := None;
      logNumber := logfileNumber;
      level, size := target, fileSize;
      IsFlush(before, Now(), level, size, maxGrandParentOverlap);
      FlushKeepsInv(before, Now(), level, size);
    }

    /** One round of background work, if there is any: the immutable memtable goes first, then a
        range asked for by hand, then whatever is due. */
    method BackgroundCompaction(manual: Option<Range>, due: Option<Trigger>, pointer: Option<IKey>, sizeLimit: nat, maxGrandParentOverlap: nat)
      returns (ghost step: Option<Step>)
      requires Inv(Now()) && (manual.Some? ==> manual.value.level + 1 < NUM_LEVELS) && (due.Some? ==> Due(current, due.value))
      modifies this
      ensures Inv(Now()) && if step.Some? then Next(old(Now()), Now(), step.value) else Now() == old(Now())
      ensures old(imm).Some? ==> step.Some? && step.value.DoFlush? && Placed(old(current), old(imm).value, step.value.level, maxGrandParentOverlap)
      ensures old(imm).None? && manual.None? ==> (step.Some? <==> due.Some?)
      ensures old(imm).None? && manual.None? && due.Some? && step.Some? ==> OnLevel(step.value, due.value.level)
      ensures old(imm).None? && manual.Some? ==> (step.Some? <==> SomeOverlap(old(current), manual.value))
      ensures old(imm).None? && manual.Some? && step.Some? ==> step.value.DoCompact? && step.value.level == manual.value.level
    {
      hide Inv, Next, Convex, Listed;
      if imm.Some? {
        ghost var target, fileSize;
        target, fileSize := CompactMemTable(maxGrandParentOverlap);
        return Some(DoFlush(target, fileSize));
      }
      ghost var before := Now();
      SelectionReady(before);
      var level, start := 0, [];
      if manual.Some? {
        level := manual.value.level;
        start := CompactRange(current, level, manual.value.begin, manual.value.end, sizeLimit);
      } else if due.Some? {
        level := due.value.level;
        start := PickCompaction(current, due.value, pointer);
      }
      if start == [] {
        return None;
      }
      ghost var done := CompactFrom(level, start, sizeLimit, manual.Some?, maxGrandParentOverlap);
      return Some(done);
    }

    // SetupOtherInputs, and then the move or the merge.
    method CompactFrom(level: nat, start: seq<File>, sizeLimit: nat, manual: bool, maxGrandParentOverlap: nat) returns (ghost step: Step)
      requires Inv(Now()) && imm.None? && level + 1 < NUM_LEVELS
      requires GoodVersion(current) && GoodStart(current, level, start)
      modifies this
      ensures Next(old(Now()), Now(), step) && Inv(Now())
      ensures (step.DoMove? && start == [step.f]) || (step.DoCompact? && forall f :: f in start ==> f in step.in0)
      ensures OnLevel(step, level) && MovesIff(old(current), level, step, manual, maxGrandParentOverlap)
    {
      hide Inv, LevelOrder, GoodInputs, Convex, Compact, TrivialMove, Moved, BytesBelow, IsSmallestKey, IsLargestKey, Reaches, Extends, Grown;
      ghost var before := Now();
      SelectionReady(before);
      var in0, in1 := SetupOtherInputs(current, level, start, sizeLimit);
      InputFacts(current, level, in0, in1);
      ghost var s, l;
      var grandparents;
      grandparents, s, l := Grandparents(current, level, in0, in1);
      MoveCondition(current, level, in0, in1, s, l, grandparents, manual, maxGrandParentOverlap);
      if !manual && |in0| == 1 && in1 == [] && TotalFileSize(grandparents) <= maxGrandParentOverlap {
        OnlyOne(start, in0);
        step := MoveOne(level, in0[0]);
      } else {
        step := MergeDown(level, in0, in1);
      }
    }

    // IsTrivialMove: move the file to the next level.
    method MoveOne(level: nat, f: File) returns (ghost step: Step)
      requires Inv(Now()) && level + 1 < NUM_LEVELS && LevelOrder(current) && GoodInputs(current, level, [f], [])
      modifies this
      ensures Next(old(Now()), Now(), step) && Inv(Now()) && step == DoMove(level, f)
    {
      hide Inv, LevelOrder, GoodInputs;
      ghost var before := Now();
      SelectionReady(before);
      var edit := Edit(Some(logNumber), Some(nextFile), Some(lastSequence), InputDeletions(level, [f], []), AddAll(level + 1, [f]));
      MovedIsGood(current, level, f);
      AllGood(edit, level + 1, [f]);
      current := Apply(current, edit);
      disk := disk.(manifest := disk.manifest + [edit]);
      step := DoMove(level, f);
      assert TrivialMove(before, Now(), level, f);
      hide TrivialMove;
      TrivialMoveKeepsInv(before, Now(), level, f);
    }

    // DoCompactionWork and InstallCompactionResults.
    method MergeDown(level: nat, in0: seq<File>, in1: seq<File>) returns (ghost step: Step)
      requires Inv(Now()) && level + 1 < NUM_LEVELS && LevelOrder(current) && GoodInputs(current, level, in0, in1)
      requires Listed(level, in0) && Listed(level + 1, in1)
      modifies this
      ensures step.DoCompact? && step.level == level && step.in0 == in0 && step.in1 == in1
      ensures Next(old(Now()), Now(), step) && Inv(Now())
      ensures forall m: nat :: m <= old(lastSequence) && (forall i :: 0 <= i < |old(snapshots)| ==> m <= old(snapshots)[i]) ==>
        DropsEnough(old(current), level, m, EntriesOf(step.outs))
    {
      hide Inv, LevelOrder, GoodInputs, Retained, Concat, Sorted, Outputs, EntriesOf, GoodFile, GoodEdit, InstallVersion,
        Compact, GoodVersion, Listed;
      ghost var before := Now();
      SelectionReady(before);
      var outs;
      ghost var input;
      input, outs := RunCompaction(current, level, in0, in1, if snapshots == [] then lastSequence else snapshots[0], nextFile);
      nextFile := nextFile + |outs|;
      var edit := Edit(Some(logNumber), Some(nextFile), Some(lastSequence), InputDeletions(level, in0, in1), AddAll(level + 1, outs));
      AllGood(edit, level + 1, outs);
      current := Apply(current, edit);
      disk := disk.(manifest := disk.manifest + [edit], tables := disk.tables + Numbers(outs));
      step := DoCompact(level, in0, in1, input, outs);
      IsCompact(before, Now(), level, in0, in1, input, outs);
      CompactKeepsInv(before, Now(), level, in0, in1, input, outs);
      CompactDrops(before, Now(), level, in0, in1, input, outs);
    }

    /** GetSnapshot and ReleaseSnapshot. */
    method GetSnapshot() returns (s: nat)
      requires Inv(Now())
      modifies this
      ensures Next(old(Now()), Now(), DoTakeSnapshot) && Inv(Now())
      ensures s == lastSequence && snapshots == old(snapshots) + [s]
    {
      hide Inv;
      ghost var before := Now();
      s := lastSequence;
      snapshots := snapshots + [s];
      TakeSnapshotKeepsInv(before, Now());
    }

    method ReleaseSnapshot(i: nat)
      requires Inv(Now()) && i < |snapshots|
      modifies this
      ensures Next(old(Now()), Now(), DoReleaseSnapshot(i)) && Inv(Now())
      ensures snapshots == old(snapshots[..i] + snapshots[i + 1..])
    {
      hide Inv;
      ghost var before := Now();
      snapshots := snapshots[..i] + snapshots[i + 1..];
      ReleaseSnapshotKeepsInv(before, Now(), i);
    }

    /** Get at a snapshot, or at the present: right with respect to all that was ever committed,
        for a key that no compaction has failed. */
    method Get(u: UserKey, snapshot: Option<nat>) returns (a: Answer)
      requires Inv(Now()) && (snapshot.Some? ==> snapshot.value in snapshots)
      ensures a == Read(DbEntries(Now().db), u, if snapshot.Some? then snapshot.value else lastSequence)
      ensures ReadsOk(Now(), u) ==> a == Read(hist, u, if snapshot.Some? then snapshot.value else lastSequence)
    {
      var s := if snapshot.Some? then snapshot.value else lastSequence;
      var db := Db(mem, imm, current, lastSequence, snapshots, logNumber, logfileNumber, nextFile, disk);
      LiveSnapshot(db, s);
      hide LevelsOk, MemOk, LogsOk, ManifestOk, DbEntries;
      a := Runs.Get(db, u, s);
    }

    /** An iterator at a snapshot, or at the present.  It lists what Get would find, and all its
        moves are moves on that list. */
    method NewIterator(snapshot: Option<nat>) returns (it: DBIterators.DBIter)
      requires Inv(Now()) && (snapshot.Some? ==> snapshot.value in snapshots)
      ensures fresh(it) && fresh(it.iter) && it.Inv() && !it.valid && AllParse(it.iter.entries)
      ensures forall i, j :: 0 <= i < j < |it.Contents()| ==> it.Contents()[i].0 < it.Contents()[j].0
      ensures var s := if snapshot.Some? then snapshot.value else lastSequence;
        forall u, x :: (u, x) in it.Contents() <==> Read(DbEntries(Now().db), u, s) == Found(x)
      ensures var s := if snapshot.Some? then snapshot.value else lastSequence;
        forall u, x :: ReadsOk(Now(), u) ==> ((u, x) in it.Contents() <==> Read(hist, u, s) == Found(x))
    {
      var s := if snapshot.Some? then snapshot.value else lastSequence;
      var db := Db(mem, imm, current, lastSequence, snapshots, logNumber, logfileNumber, nextFile, disk);
      LiveSnapshot(db, s);
      IteratorIsReads(db, MergeAll(InternalRuns(db)), s);
      hide LevelsOk, MemOk, LogsOk, ManifestOk, DbEntries, AllSorted, MergeAll, InternalRuns, Sorted;
      var es := ReadRuns(InternalRuns(db));
      var c := new Cursor(es);
      it := new DBIterators.DBIter(c, s);
    }
  }
}
