/** What a run of the database has been told, and what readers find of it. */
module Histories {
  import opened Builders
  import opened Compactions
  import opened DropRules
  import opened Engine
  import opened Entries
  import opened Levels
  import opened Ops
  import opened Recovery
  import opened Runs
  import opened Selection
  import opened Versions

  // The operation an entry came from.
  function OpOf(e: Entry): Op { if e.key.tag == TYPE_VALUE then Put(e.key.user, e.value) else Delete(e.key.user) }

  function OpsOf(es: seq<Entry>): (r: seq<Op>)
    ensures |r| == |es|
  {
    seq(|es|, i requires 0 <= i < |es| => OpOf(es[i]))
  }

  lemma StampedSays(ops: seq<Op>, first: nat)
    ensures OpsOf(Stamped(ops, first)) == ops
  {
  }

  // The operations committed before step i, oldest first, a group in flight included if its record
  // was complete.
  function Told(steps: seq<Step>, i: nat): seq<Op>
    requires i <= |steps|
  {
    OpsOf(AllCommitted(steps[..i]))
  }

  // ----- Entries numbered from 1 on -----

  lemma {:induction false} LastIsNewest(es: seq<Entry>, u: UserKey, s: nat)
    requires Group(es, 1) && s >= |es|
    ensures Distinct(Elements(es)) && Read(Elements(es), u, s) == Outcome(LastOn(OpsOf(es), u), NotFound)
  {
    LastOnStep(OpsOf(es), u);
    hide Read, LastOn;
    if es == [] {
      NothingRead(u, s);
    } else {
      var n := |es| - 1;
      var e, before := es[n], Elements(es[..n]);
      assert OpsOf(es)[..n] == OpsOf(es[..n]);
      assert Elements(es) == before + {e};
      LastIsNewest(es[..n], u, s);
      if e.key.user == u {
        assert Newest(Elements(es), u, s, e);
        ReadIs(Elements(es), u, s, e);
      } else {
        forall d ensures Newest(Elements(es), u, s, d) <==> Newest(before, u, s, d) {}
        ReadSame(Elements(es), before, u, s);
      }
    }
  }

  lemma NothingRead(u: UserKey, s: nat)
    ensures Read(Elements([]), u, s) == NotFound
  {
  }

  // Readers of the past see just the first entries.
  lemma EarlierSame(es: seq<Entry>, u: UserKey, s: nat)
    requires Group(es, 1) && s < |es|
    ensures Read(Elements(es), u, s) == Read(Elements(es[..s]), u, s)
  {
    forall e ensures e in Elements(es) && e.key.sn <= s <==> e in Elements(es[..s]) {
      if e in Elements(es) && e.key.sn <= s {
        var i :| 0 <= i < |es| && es[i] == e;
        assert es[..s][i] == e;
      }
    }
    LastIsNewest(es, u, |es|);
    LastIsNewest(es[..s], u, s);
    hide Read;
    ReadSame(Elements(es), Elements(es[..s]), u, s);
  }

  lemma PrefixNumbered(es: seq<Entry>, n: nat)
    requires Group(es, 1) && n <= |es|
    ensures Group(es[..n], 1)
  {
  }

  lemma NumberedReads(es: seq<Entry>, u: UserKey, s: nat)
    requires Group(es, 1)
    ensures Read(Elements(es), u, s) == Outcome(LastOn(if s < |OpsOf(es)| then OpsOf(es)[..s] else OpsOf(es), u), NotFound)
  {
    hide Read, Group, LastOn, Outcome, Elements;
    if s < |es| {
      EarlierSame(es, u, s);
      PrefixNumbered(es, s);
      LastIsNewest(es[..s], u, s);
      assert OpsOf(es)[..s] == OpsOf(es[..s]);
    } else {
      LastIsNewest(es, u, s);
    }
  }

  // ----- Runs -----

  lemma {:induction false} NumberedFromOne(ws: seq<World>, steps: seq<Step>, i: nat)
    requires Run(ws, steps) && i < |ws|
    ensures Group(AllCommitted(steps[..i]), 1) && |AllCommitted(steps[..i])| == ws[i].db.lastSequence
  {
    hide Inv, Group, Init, Next;
    if i == 0 {
      NothingYet(ws[0], steps);
    } else {
      NumberedFromOne(ws, steps, i - 1);
      RunKeepsInv(ws, steps, i - 1);
      assert Next(ws[i - 1], ws[i - 1 + 1], steps[i - 1]);
      OneStepCommits(ws[i - 1], ws[i], steps[i - 1]);
      assert steps[..i] == steps[..i - 1] + [steps[i - 1]];
      CommittedSnoc(steps[..i - 1], steps[i - 1]);
      MoreNumbered(AllCommitted(steps[..i - 1]), Committed(steps[i - 1]));
    }
  }

  lemma CommittedSnoc(steps: seq<Step>, step: Step)
    ensures AllCommitted(steps + [step]) == AllCommitted(steps) + Committed(step)
  {
    assert (steps + [step])[..|steps|] == steps;
  }

  lemma NothingYet(w: World, steps: seq<Step>)
    requires Init(w)
    ensures AllCommitted(steps[..0]) == [] && Group([], 1) && w.db.lastSequence == 0
  {
    hide Rebuilt, InstallVersion, Replay, Snapshot, GoodEdit, GoodEdits;
    LogsFromEmpty(NewDb().logs, 0, 3);
    assert LatestSequence(NewDb().manifest) == 0;
  }

  lemma OneStepCommits(w: World, w': World, step: Step)
    requires Inv(w) && Next(w, w', step)
    ensures Group(Committed(step), w.db.lastSequence + 1) && w'.db.lastSequence == w.db.lastSequence + |Committed(step)|
  {
    hide Inv, InstallVersion, LevelOrder, GoodInputs, Recovered, Outputs, Retained, GoodEdit, NoOverlap, Logged;
    if step.DoCrash? { CrashLosesNothing(w, w', step.g, step.fs, step.chunks, step.newLog); }
  }

  lemma MoreNumbered(es: seq<Entry>, g: seq<Entry>)
    requires Group(es, 1) && Group(g, |es| + 1)
    ensures Group(es + g, 1)
  {
  }

  /** The reads of a whole run: a reader at sequence number s finds for each key, spared by all
      compactions, just what the last operation on it says among the first s ever committed. */
  lemma ReadsAreLastOps(ws: seq<World>, steps: seq<Step>, i: nat, u: UserKey, s: nat)
    requires Run(ws, steps) && i < |ws| && SmallestSnapshot(ws[i].db) <= s
    requires forall j :: 0 <= j < i ==> SparesKey(ws[j], steps[j], u)
    ensures |Told(steps, i)| == ws[i].db.lastSequence
    ensures Read(DbEntries(ws[i].db), u, s) == Outcome(LastOn(if s < |Told(steps, i)| then Told(steps, i)[..s] else Told(steps, i), u), NotFound)
  {
    assert i <= |steps|;
    hide Run, DbEntries, Read, SparesKey, Group, LastOn, Outcome, AllCommitted, Elements, OpsOf;
    ReadsAreRight(ws, steps, i, u, s);
    NumberedFromOne(ws, steps, i);
    NumberedReads(AllCommitted(steps[..i]), u, s);
  }
}
