/** The bytes of a log and the entries they stand for, down to a write cut short by a crash. */
module TornLogs {
  import opened Entries
  import opened Engine
  import opened Recovery
  import opened Codings
  import WriteBatches
  import Logs
  import KeyOrders
  import Ops
  import Versions

  // A group of writes, as one log record.
  datatype Batch = Batch(first: nat, records: seq<WriteBatches.Record>)

  predicate Fits(b: Batch) { b.first < TWO_64 && WriteBatches.AllFit(b.records) && |b.records| < TWO_32 }

  predicate AllFit(bs: seq<Batch>) { forall i :: 0 <= i < |bs| ==> Fits(bs[i]) }

  function OpOf(r: WriteBatches.Record): Ops.Op {
    match r
    case Put(k, v) => Ops.Put(KeyOrders.Rank(k), KeyOrders.ValueOf(v))
    case Delete(k) => Ops.Delete(KeyOrders.Rank(k))
  }

  /** The first byte of a record is the type of the entry it becomes. */
  lemma TagIsType(r: WriteBatches.Record, sn: nat)
    ensures WriteBatches.EncodeRecord(r) != [] && WriteBatches.EncodeRecord(r)[0] as nat == Ops.EntryFor(OpOf(r), sn).key.tag
  {
  }

  function OpsOf(rs: seq<WriteBatches.Record>): seq<Ops.Op> { seq(|rs|, i requires 0 <= i < |rs| => OpOf(rs[i])) }

  function EntriesIn(b: Batch): seq<Entry> { Ops.Stamped(OpsOf(b.records), b.first) }

  function EntriesInAll(bs: seq<Batch>): seq<Entry> {
    if bs == [] then [] else EntriesIn(bs[0]) + EntriesInAll(bs[1..])
  }

  function Encoded(bs: seq<Batch>): seq<Bytes> {
    seq(|bs|, i requires 0 <= i < |bs| => WriteBatches.Encode(bs[i].first, bs[i].records))
  }

  // The log file that AddRecord produces, one record for each group.
  function LogFile(bs: seq<Batch>): Bytes { Logs.EmitAll(0, Encoded(bs)) }

  // ----- What recovery reads off a log file -----

  // RecoverLogFile's loop body: a record too short for a header is passed over.
  function ReplayRecord(record: Bytes): seq<Entry> {
    if |record| < WriteBatches.HEADER then []
    else EntriesIn(Batch(DecodeFixed(record[..8]), WriteBatches.Iterate(record).calls))
  }

  function ReplayRecords(records: seq<Bytes>): seq<Entry> {
    if records == [] then [] else ReplayRecord(records[0]) + ReplayRecords(records[1..])
  }

  function ReplayFile(file: Bytes): seq<Entry> { ReplayRecords(Logs.ReadAll(file, 0).records) }

  lemma ReplayOne(b: Batch)
    requires Fits(b)
    ensures ReplayRecord(WriteBatches.Encode(b.first, b.records)) == EntriesIn(b)
  {
    WriteBatches.RoundTrip(b.first, b.records);
  }

  lemma {:induction false} ReplayEncoded(bs: seq<Batch>)
    requires AllFit(bs)
    ensures ReplayRecords(Encoded(bs)) == EntriesInAll(bs)
  {
    hide ReplayRecord, EntriesIn, Fits, WriteBatches.Encode;
    if bs != [] {
      ReplayOne(bs[0]);
      assert Encoded(bs)[1..] == Encoded(bs[1..]);
      ReplayEncoded(bs[1..]);
    }
  }

  /** A log cut anywhere replays as the groups whose records lie wholly before the cut, and nothing
      of the others. */
  lemma CutReplaysPrefix(bs: seq<Batch>, n: nat)
    requires AllFit(bs) && n <= |LogFile(bs)|
    ensures ReplayFile(LogFile(bs)[..n]) == EntriesInAll(bs[..Logs.Whole(0, Encoded(bs), n)])
  {
    hide Logs.EmitAll, Logs.ReadAll, Logs.Whole, ReplayRecords, EntriesInAll, Fits;
    var whole := Logs.Whole(0, Encoded(bs), n);
    Logs.TruncationGivesPrefix(Encoded(bs), n);
    assert Encoded(bs)[..whole] == Encoded(bs[..whole]);
    ReplayEncoded(bs[..whole]);
  }

  // ----- One more record, cut short or not -----

  lemma {:induction false} WholeOfSnoc(p: nat, records: seq<Bytes>, record: Bytes, n: nat)
    requires p + |Logs.EmitAll(p, records)| <= n <= p + |Logs.EmitAll(p, records + [record])|
    ensures Logs.Whole(p, records + [record], n) ==
      if n == p + |Logs.EmitAll(p, records + [record])| then |records| + 1 else |records|
    decreases |records|
  {
    hide Logs.Emit;
    if records == [] {
      assert [record][1..] == [] && (records + [record]) == [record];
    } else {
      assert (records + [record])[1..] == records[1..] + [record];
      WholeOfSnoc(p + |Logs.Emit(p, records[0], true)|, records[1..], record, n);
    }
  }

  lemma {:induction false} EntriesInAllSnoc(bs: seq<Batch>, b: Batch)
    ensures EntriesInAll(bs + [b]) == EntriesInAll(bs) + EntriesIn(b)
  {
    hide EntriesIn;
    if bs == [] {
      assert [b][1..] == [] && bs + [b] == [b];
    } else {
      assert (bs + [b])[1..] == bs[1..] + [b];
      EntriesInAllSnoc(bs[1..], b);
    }
  }

  /** With the groups of bs on the log, and any part of the record of b after them, recovery
      finds all of b or nothing of it. */
  lemma AllOrNothing(bs: seq<Batch>, b: Batch, n: nat)
    requires AllFit(bs) && Fits(b) && |LogFile(bs)| <= n <= |LogFile(bs + [b])|
    ensures ReplayFile(LogFile(bs + [b])[..n]) == EntriesInAll(bs) + if n == |LogFile(bs + [b])| then EntriesIn(b) else []
    ensures LogFile(bs) <= LogFile(bs + [b])
  {
    hide Logs.EmitAll, Logs.ReadAll, Logs.Whole, Logs.Emit, ReplayFile, EntriesInAll, EntriesIn, Fits, WriteBatches.Encode;
    var all := bs + [b];
    assert Encoded(all) == Encoded(bs) + [WriteBatches.Encode(b.first, b.records)];
    Logs.EmitAllSnoc(0, Encoded(bs), WriteBatches.Encode(b.first, b.records));
    WholeOfSnoc(0, Encoded(bs), WriteBatches.Encode(b.first, b.records), n);
    CutReplaysPrefix(all, n);
    EntriesInAllSnoc(bs, b);
    assert all[..|bs|] == bs && all[..|all|] == all;
  }

  // ----- A disk of log files -----

  // What recovery makes of the files it finds.
  function ReplayFiles(files: map<nat, Bytes>): map<nat, seq<Entry>> { map n | n in files :: ReplayFile(files[n]) }

  // The current log of the engine holds the groups of bs.
  ghost predicate HeldBy(db: Db, files: map<nat, Bytes>, bs: seq<Batch>) {
    && AllFit(bs) && db.disk.logs == ReplayFiles(files)
    && db.logfileNumber in files && files[db.logfileNumber] == LogFile(bs)
  }

  /** The files with n bytes of the current log, to which the record of b was being appended. */
  function Torn(db: Db, files: map<nat, Bytes>, bs: seq<Batch>, b: Batch, n: nat): map<nat, Bytes>
    requires n <= |LogFile(bs + [b])|
  {
    files[db.logfileNumber := LogFile(bs + [b])[..n]]
  }

  // The group that recovery finds: b, if all of its record is there.
  function InFlight(bs: seq<Batch>, b: Batch, n: nat): seq<Entry> { if n == |LogFile(bs + [b])| then EntriesIn(b) else [] }

  lemma TornIsLogged(db: Db, files: map<nat, Bytes>, bs: seq<Batch>, b: Batch, n: nat)
    requires HeldBy(db, files, bs) && Fits(b) && |LogFile(bs)| <= n <= |LogFile(bs + [b])|
    ensures ReplayFiles(Torn(db, files, bs, b, n)) == Logged(db, InFlight(bs, b, n)).logs
  {
    AllOrNothing(bs, b, n);
    WholeLogReplays(bs);
    LogReplays(files, db.logfileNumber);
    hide ReplayFile, LogFile, EntriesInAll, EntriesIn, Fits, ReplayFiles;
    ReplayOneChanged(files, db.logfileNumber, LogFile(bs + [b])[..n]);
  }

  lemma LogReplays(files: map<nat, Bytes>, l: nat)
    requires l in files
    ensures l in ReplayFiles(files) && ReplayFiles(files)[l] == ReplayFile(files[l])
  {
    hide ReplayFile;
  }

  lemma ReplayOneChanged(files: map<nat, Bytes>, l: nat, f: Bytes)
    ensures ReplayFiles(files[l := f]) == ReplayFiles(files)[l := ReplayFile(f)]
  {
    hide ReplayFile;
  }

  lemma WholeLogReplays(bs: seq<Batch>)
    requires AllFit(bs)
    ensures ReplayFile(LogFile(bs)) == EntriesInAll(bs)
  {
    hide Logs.EmitAll, Logs.ReadAll, Logs.Whole, EntriesInAll, ReplayRecords, Fits;
    Logs.RoundTrip(Encoded(bs));
    ReplayEncoded(bs);
  }

  // Writes keep the files and the engine in step, and so does the start of a new log.
  lemma WriteKeepsHeld(w: World, w': World, files: map<nat, Bytes>, bs: seq<Batch>, b: Batch)
    requires HeldBy(w.db, files, bs) && Fits(b) && Write(w, w', EntriesIn(b))
    ensures HeldBy(w'.db, files[w.db.logfileNumber := LogFile(bs + [b])], bs + [b])
  {
    assert AllFit(bs + [b]) && w'.db.disk == Logged(w.db, EntriesIn(b)) && w'.db.logfileNumber == w.db.logfileNumber;
    hide ReplayFiles, LogFile, EntriesIn, Fits, Logged, Group, Sorted, Write, AllFit;
    var n := |LogFile(bs + [b])|;
    LogFileGrows(bs, b);
    TornIsLogged(w.db, files, bs, b, n);
    assert LogFile(bs + [b])[..n] == LogFile(bs + [b]);
  }

  lemma LogFileGrows(bs: seq<Batch>, b: Batch)
    ensures |LogFile(bs)| <= |LogFile(bs + [b])|
  {
    hide Logs.EmitAll, Logs.Emit, WriteBatches.Encode;
    assert Encoded(bs + [b]) == Encoded(bs) + [WriteBatches.Encode(b.first, b.records)];
    Logs.EmitAllSnoc(0, Encoded(bs), WriteBatches.Encode(b.first, b.records));
  }

  lemma SwitchKeepsHeld(w: World, w': World, files: map<nat, Bytes>, bs: seq<Batch>)
    requires HeldBy(w.db, files, bs) && Switch(w, w')
    ensures HeldBy(w'.db, files[w'.db.logfileNumber := []], [])
  {
    WholeLogReplays([]);
    assert LogFile([]) == [];
    ReplayOneChanged(files, w'.db.logfileNumber, []);
    hide ReplayFiles, ReplayFile;
  }

  /** A crash that cuts the write of a group at any byte: opening the database on the files left
      behind finds everything committed, the group if its record was complete, and nothing else. */
  lemma TornWriteRecovers(w: World, w': World, files: map<nat, Bytes>, bs: seq<Batch>, b: Batch, n: nat,
                          fs: seq<Versions.File>, chunks: seq<seq<Entry>>, newLog: nat)
    requires Inv(w) && HeldBy(w.db, files, bs) && |LogFile(bs)| <= n <= |LogFile(bs + [b])|
    requires Fits(b) && b.first == w.db.lastSequence + 1 && w.db.lastSequence + |b.records| < MAX_SEQUENCE
    requires Recovered(w.db.disk.(logs := ReplayFiles(Torn(w.db, files, bs, b, n))), w'.db, fs, chunks, newLog)
    requires w'.hist == w.hist + Elements(InFlight(bs, b, n))
    ensures Inv(w') && DbEntries(w'.db) == DbEntries(w.db) + if n == |LogFile(bs + [b])| then Elements(EntriesIn(b)) else {}
  {
    hide Inv, Recovered, LogFile, DbEntries, HeldBy, Fits, Ops.Stamped, ReplayFiles;
    var g := InFlight(bs, b, n);
    TornIsLogged(w.db, files, bs, b, n);
    assert Group(g, w.db.lastSequence + 1) && |g| <= |b.records| by { InFlightIsGroup(bs, b, n); }
    assert Logged(w.db, g) == w.db.disk.(logs := ReplayFiles(Torn(w.db, files, bs, b, n)));
    hide Logged, InFlight, Group;
    assert Crash(w, w', g, fs, chunks, newLog);
    CrashKeepsInv(w, w', g, fs, chunks, newLog);
    CrashLosesNothing(w, w', g, fs, chunks, newLog);
    FoundElements(bs, b, n);
  }

  lemma InFlightIsGroup(bs: seq<Batch>, b: Batch, n: nat)
    ensures Group(InFlight(bs, b, n), b.first) && |InFlight(bs, b, n)| <= |b.records|
  {
  }

  lemma FoundElements(bs: seq<Batch>, b: Batch, n: nat)
    ensures Elements(InFlight(bs, b, n)) == if n == |LogFile(bs + [b])| then Elements(EntriesIn(b)) else {}
  {
  }

  // ----- What clients read -----

  // The last record on a key.
  function LastRecord(rs: seq<WriteBatches.Record>, key: Bytes): Versions.Option<WriteBatches.Record> {
    if rs == [] then Versions.None
    else if rs[|rs| - 1].key == key then Versions.Some(rs[|rs| - 1])
    else LastRecord(rs[..|rs| - 1], key)
  }

  function Said(last: Versions.Option<WriteBatches.Record>, before: Answer): Answer {
    match last
    case None => before
    case Some(Put(_, v)) => Found(KeyOrders.ValueOf(v))
    case Some(Delete(_)) => NotFound
  }

  lemma {:induction false} SaidIsOutcome(rs: seq<WriteBatches.Record>, key: Bytes, before: Answer)
    ensures Ops.Outcome(Ops.LastOn(OpsOf(rs), KeyOrders.Rank(key)), before) == Said(LastRecord(rs, key), before)
  {
    hide KeyOrders.Rank, KeyOrders.ValueOf;
    if rs != [] {
      var init := rs[..|rs| - 1];
      assert OpsOf(rs)[..|rs| - 1] == OpsOf(init);
      KeyOrders.RankOrder(rs[|rs| - 1].key, key);
      SaidIsOutcome(init, key, before);
    }
  }

  /** And so each key reads, once recovered, as its last record in the group cut short says if the
      group was complete, and as before if not or if there is no record on it. */
  lemma TornReads(w: World, w': World, files: map<nat, Bytes>, bs: seq<Batch>, b: Batch, n: nat,
                  fs: seq<Versions.File>, chunks: seq<seq<Entry>>, newLog: nat, key: Bytes)
    requires Inv(w) && HeldBy(w.db, files, bs) && |LogFile(bs)| <= n <= |LogFile(bs + [b])|
    requires Fits(b) && b.first == w.db.lastSequence + 1 && w.db.lastSequence + |b.records| < MAX_SEQUENCE
    requires Recovered(w.db.disk.(logs := ReplayFiles(Torn(w.db, files, bs, b, n))), w'.db, fs, chunks, newLog)
    requires w'.hist == w.hist + Elements(InFlight(bs, b, n))
    ensures var u, before := KeyOrders.Rank(key), Read(DbEntries(w.db), KeyOrders.Rank(key), w.db.lastSequence);
      Read(DbEntries(w'.db), u, w'.db.lastSequence) == if n == |LogFile(bs + [b])| then Said(LastRecord(b.records, key), before) else before
  {
    hide Inv, Recovered, LogFile, DbEntries, HeldBy, Fits, ReplayFiles, Read, Distinct, Said, LastRecord, KeyOrders.Rank, EntriesIn, Elements,
      InFlight, Torn;
    EntriesBelow(w);
    TornWriteRecovers(w, w', files, bs, b, n, fs, chunks, newLog);
    RecoveredLast(w, w', files, bs, b, n, fs, chunks, newLog);
    TornSaid(DbEntries(w.db), DbEntries(w'.db), b, w.db.lastSequence, w'.db.lastSequence, n == |LogFile(bs + [b])|, key);
  }

  lemma TornSaid(es: set<Entry>, es': set<Entry>, b: Batch, last: nat, last': nat, whole: bool, key: Bytes)
    requires Distinct(es) && (forall e :: e in es ==> e.key.sn <= last) && b.first == last + 1
    requires es' == es + (if whole then Elements(EntriesIn(b)) else {}) && last' == last + if whole then |b.records| else 0
    ensures var before := Read(es, KeyOrders.Rank(key), last);
      Read(es', KeyOrders.Rank(key), last') == if whole then Said(LastRecord(b.records, key), before) else before
  {
    hide Read, Distinct, Said, LastRecord, KeyOrders.Rank, EntriesIn, Elements;
    BatchSaid(es, b, last, key);
    assert es + {} == es;
  }

  lemma EntriesBelow(w: World)
    requires Inv(w)
    ensures Distinct(DbEntries(w.db)) && forall e :: e in DbEntries(w.db) ==> e.key.sn <= w.db.lastSequence
  {
    hide LevelsOk, LogsOk, ManifestOk, HistOk, SnapshotsOk, DbEntries, Distinct;
  }

  lemma BatchSaid(es: set<Entry>, b: Batch, last: nat, key: Bytes)
    requires Distinct(es) && (forall e :: e in es ==> e.key.sn <= last) && b.first == last + 1
    ensures Read(es + Elements(EntriesIn(b)), KeyOrders.Rank(key), last + |b.records|) ==
      Said(LastRecord(b.records, key), Read(es, KeyOrders.Rank(key), last))
  {
    hide Read, Distinct, Said, LastRecord, Ops.Outcome, KeyOrders.Rank, Ops.Stamped, Elements, Ops.LastOn;
    Ops.BatchReads(es, OpsOf(b.records), last, KeyOrders.Rank(key), last + |b.records|);
    SaidIsOutcome(b.records, key, Read(es, KeyOrders.Rank(key), last));
  }

  // The sequence number recovery continues from.
  lemma RecoveredLast(w: World, w': World, files: map<nat, Bytes>, bs: seq<Batch>, b: Batch, n: nat,
                      fs: seq<Versions.File>, chunks: seq<seq<Entry>>, newLog: nat)
    requires Inv(w) && HeldBy(w.db, files, bs) && |LogFile(bs)| <= n <= |LogFile(bs + [b])|
    requires Fits(b) && b.first == w.db.lastSequence + 1 && w.db.lastSequence + |b.records| < MAX_SEQUENCE
    requires Recovered(w.db.disk.(logs := ReplayFiles(Torn(w.db, files, bs, b, n))), w'.db, fs, chunks, newLog)
    requires w'.hist == w.hist + Elements(InFlight(bs, b, n))
    ensures w'.db.lastSequence == w.db.lastSequence + if n == |LogFile(bs + [b])| then |b.records| else 0
  {
    hide Inv, Recovered, LogFile, DbEntries, HeldBy, Fits, Ops.Stamped, ReplayFiles;
    var g := InFlight(bs, b, n);
    TornIsLogged(w.db, files, bs, b, n);
    assert Group(g, w.db.lastSequence + 1) && |g| <= |b.records| by { InFlightIsGroup(bs, b, n); }
    assert Logged(w.db, g) == w.db.disk.(logs := ReplayFiles(Torn(w.db, files, bs, b, n)));
    assert |g| == if n == |LogFile(bs + [b])| then |b.records| else 0;
    hide Logged, InFlight, Group;
    RecoveredVersion(w, w', g, fs, chunks, newLog);
  }
}
