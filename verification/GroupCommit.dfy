/** The queue of writers: one leader at a time commits its own batch and those behind it. */
module GroupCommit {
  import opened Entries
  import opened Versions
  import opened Ops

  datatype Batch = Batch(ops: seq<Op>, size: nat)  // size: WriteBatchInternal::ByteSize

  // A caller of DBImpl::Write; no batch asks only for the memtable to be compacted.
  datatype Writer = Writer(id: nat, batch: Option<Batch>, sync: bool)

  // ----- Forming a group -----

  function OpsOf(ws: seq<Writer>): seq<Op> {
    if ws == [] then []
    else OpsOf(ws[..|ws| - 1]) + if ws[|ws| - 1].batch.Some? then ws[|ws| - 1].batch.value.ops else []
  }

  function SizeOf(ws: seq<Writer>): nat {
    if ws == [] then 0
    else SizeOf(ws[..|ws| - 1]) + if ws[|ws| - 1].batch.Some? then ws[|ws| - 1].batch.value.size else 0
  }

  function MaxSize(first: nat): nat { if first <= 128 * 1024 then first + 128 * 1024 else 1024 * 1024 }

  // The next writer may not join the group.
  predicate Stops(ws: seq<Writer>, k: nat)
    requires ws != [] && ws[0].batch.Some? && k < |ws|
  {
    || (ws[k].sync && !ws[0].sync)
    || (ws[k].batch.Some? && SizeOf(ws[..k + 1]) > MaxSize(ws[0].batch.value.size))
  }

  // The first k writers may share one commit led by the first.
  predicate MayShare(ws: seq<Writer>, k: nat) {
    && 1 <= k <= |ws|
    && if ws[0].batch.None? then k == 1 else forall i :: 1 <= i < k ==> !Stops(ws, i)
  }

  // The first k writers are the group the leader commits: no further writer may join.
  predicate IsGroup(ws: seq<Writer>, k: nat) {
    MayShare(ws, k) && (ws[0].batch.Some? && k < |ws| ==> Stops(ws, k))
  }

  /** The batches of the longest run of writers that may join the leader, in queue order. */
  method BuildBatchGroup(writers: seq<Writer>) returns (result: seq<Op>, k: nat)
    requires writers != [] && writers[0].batch.Some?
    ensures IsGroup(writers, k) && result == OpsOf(writers[..k])
  {
    var first := writers[0];
    result := first.batch.value.ops;
    var size := first.batch.value.size;
    var maxSize := 1024 * 1024;
    if size <= 128 * 1024 {
      maxSize := size + 128 * 1024;
    }
    k := 1;
    assert writers[..1][..0] == [] && OpsOf([]) == [] && SizeOf([]) == 0;
    assert OpsOf(writers[..1]) == result && SizeOf(writers[..1]) == size;
    while k < |writers|
      invariant 1 <= k <= |writers| && result == OpsOf(writers[..k]) && size == SizeOf(writers[..k])
      invariant forall i :: 1 <= i < k ==> !Stops(writers, i)
    {
      var w := writers[k];
      assert writers[..k + 1][..k] == writers[..k];
      if w.sync && !first.sync {
        break;
      }
      if w.batch.Some? {
        size := size + w.batch.value.size;
        if size > maxSize {
          break;
        }
        result := result + w.batch.value.ops;
      }
      k := k + 1;
    }
  }

  /** A leader that does not sync carries no batch that asked for it. */
  lemma SyncOnlyUnderSync(ws: seq<Writer>, k: nat, i: nat)
    requires MayShare(ws, k) && i < k && ws[i].sync
    ensures ws[0].sync
  {
    if i > 0 { assert !Stops(ws, i); }
  }

  /** A group of more than one batch stays within 1 MB, and within 128 KB beyond a small leader's
      batch; it ends where the next writer would exceed that, or wants a sync the leader does not do. */
  lemma GroupSize(ws: seq<Writer>, k: nat)
    requires IsGroup(ws, k) && ws[0].batch.Some?
    ensures var first := ws[0].batch.value.size;
      var most := if first <= 0x20000 then first + 0x20000 else 0x100000;
      && (SizeOf(ws[..k]) <= most || SizeOf(ws[..k]) == first)
      && (k < |ws| ==> (ws[k].sync && !ws[0].sync) || (ws[k].batch.Some? && SizeOf(ws[..k]) + ws[k].batch.value.size > most))
  {
    SizeBounded(ws, k);
    if k < |ws| { assert ws[..k + 1][..k] == ws[..k]; }
  }

  lemma {:induction false} SizeBounded(ws: seq<Writer>, k: nat)
    requires MayShare(ws, k) && ws[0].batch.Some?
    ensures var first := ws[0].batch.value.size; SizeOf(ws[..k]) <= MaxSize(first) || SizeOf(ws[..k]) == first
  {
    assert ws[..k][..k - 1] == ws[..k - 1];
    if k == 1 {
      assert ws[..1][..0] == [];
    } else {
      SizeBounded(ws, k - 1);
      assert !Stops(ws, k - 1);
    }
  }

  // ----- The protocol -----

  // The group being committed: `logged` once its record is in the log, `inserted` entries of it
  // in the memtable.  The leader works on it without holding the mutex.
  datatype Flight = Flight(k: nat, entries: seq<Entry>, logged: bool, inserted: nat)

  datatype Served = Served(writer: Writer, leader: Writer, ok: bool)

  datatype State = State(
    writers: seq<Writer>, flight: Option<Flight>, lastSequence: nat,
    log: seq<Entry>, durable: nat,   // all logged entries, and how many of them are synced
    mem: seq<Entry>,                 // in the order of insertion
    arrived: seq<Writer>, served: seq<Served>)

  ghost predicate Init(s: State) { s == State([], None, 0, [], 0, [], [], []) }

  datatype Step = Arrive(w: Writer) | Lead(k: nat) | Log | Insert | Finish

  ghost predicate Next(s: State, s': State, step: Step) {
    match step
    case Arrive(w) => s' == s.(writers := s.writers + [w], arrived := s.arrived + [w])
    case Lead(k) =>
      && s.flight.None? && s.writers != [] && IsGroup(s.writers, k)
      && s' == s.(flight := Some(Flight(k, Stamped(OpsOf(s.writers[..k]), s.lastSequence + 1), s.writers[0].batch.None?, 0)))
    case Log =>
      && s.flight.Some? && !s.flight.value.logged && s.writers != []
      && var log := s.log + s.flight.value.entries;
      s' == s.(log := log, durable := if s.writers[0].sync then |log| else s.durable, flight := Some(s.flight.value.(logged := true)))
    case Insert =>
      && s.flight.Some? && s.flight.value.logged && s.flight.value.inserted < |s.flight.value.entries|
      && var f := s.flight.value;
      s' == s.(mem := s.mem + [f.entries[f.inserted]], flight := Some(f.(inserted := f.inserted + 1)))
    case Finish =>
      && s.flight.Some? && s.flight.value.logged && s.flight.value.inserted == |s.flight.value.entries|
      && 1 <= s.flight.value.k <= |s.writers|
      && s' == s.(lastSequence := s.lastSequence + |s.flight.value.entries|, flight := None,
                  writers := s.writers[s.flight.value.k..], served := s.served + Pops(s.writers[..s.flight.value.k]))
  }

  // Every writer of the group is popped with the group's status.
  function Pops(group: seq<Writer>): seq<Served>
    requires group != []
  {
    seq(|group|, i requires 0 <= i < |group| => Served(group[i], group[0], true))
  }

  function Writers(served: seq<Served>): seq<Writer> { seq(|served|, i requires 0 <= i < |served| => served[i].writer) }

  // What the popped writers committed.
  function Committed(s: State): seq<Entry> { Stamped(OpsOf(Writers(s.served)), 1) }

  // Logged and inserted entries of the group in flight.
  function InLog(s: State): seq<Entry> { if s.flight.Some? && s.flight.value.logged then s.flight.value.entries else [] }

  function InMem(s: State): seq<Entry>
    requires s.flight.Some? ==> s.flight.value.inserted <= |s.flight.value.entries|
  {
    if s.flight.Some? then s.flight.value.entries[..s.flight.value.inserted] else []
  }

  ghost predicate FlightOk(s: State) {
    s.flight.Some? ==>
      var f := s.flight.value;
      && f.inserted <= |f.entries| && (f.inserted > 0 ==> f.logged) && MayShare(s.writers, f.k)
      && f.entries == Stamped(OpsOf(s.writers[..f.k]), s.lastSequence + 1)
      && (f.logged && s.writers[0].sync && s.writers[0].batch.Some? ==> s.durable == |s.log|)
  }

  ghost predicate Inv(s: State) {
    && FlightOk(s)
    && s.arrived == Writers(s.served) + s.writers
    && s.lastSequence == |OpsOf(Writers(s.served))|
    && s.log == Committed(s) + InLog(s)
    && s.mem == Committed(s) + InMem(s)
    && s.durable <= |s.log|
    && forall i :: 0 <= i < |s.served| ==>
         && s.served[i].ok
         && (s.served[i].writer.sync ==> s.served[i].leader.sync)
         && (s.served[i].writer.sync && s.served[i].writer.batch.Some? ==> |OpsOf(Writers(s.served)[..i + 1])| <= s.durable)
  }

  // ----- Every step keeps the invariant -----

  lemma StampedConcat(a: seq<Op>, b: seq<Op>, first: nat)
    ensures Stamped(a + b, first) == Stamped(a, first) + Stamped(b, first + |a|)
  {
  }

  lemma {:induction false} OpsConcat(a: seq<Writer>, b: seq<Writer>)
    ensures OpsOf(a + b) == OpsOf(a) + OpsOf(b)
  {
    if b == [] {
      assert a + b == a;
    } else {
      var init := b[..|b| - 1];
      assert (a + b)[..|a + b| - 1] == a + init;
      OpsConcat(a, init);
    }
  }

  // Stops looks only at the writers up to k.
  lemma ShareStays(ws: seq<Writer>, w: Writer, k: nat)
    requires MayShare(ws, k)
    ensures MayShare(ws + [w], k) && (ws + [w])[..k] == ws[..k]
  {
    if ws[0].batch.Some? {
      forall i | 1 <= i < k ensures !Stops(ws + [w], i) {
        assert (ws + [w])[..i + 1] == ws[..i + 1];
        assert !Stops(ws, i);
      }
    }
  }

  lemma ArriveKeepsInv(s: State, s': State, w: Writer)
    requires Inv(s) && Next(s, s', Arrive(w))
    ensures Inv(s')
  {
    if s.flight.Some? { ShareStays(s.writers, w, s.flight.value.k); }
  }

  lemma LeadKeepsInv(s: State, s': State, k: nat)
    requires Inv(s) && Next(s, s', Lead(k))
    ensures Inv(s')
  {
    if s.writers[0].batch.None? {
      assert s.writers[..1][..0] == [] && OpsOf(s.writers[..1]) == [];
    }
  }

  lemma LogKeepsInv(s: State, s': State)
    requires Inv(s) && Next(s, s', Log)
    ensures Inv(s')
  {
    hide OpsOf, MayShare;
    assert s'.log == Committed(s') + InLog(s');
  }

  lemma InsertKeepsInv(s: State, s': State)
    requires Inv(s) && Next(s, s', Insert)
    ensures Inv(s')
  {
    hide OpsOf, MayShare;
    var f := s.flight.value;
    assert f.entries[..f.inserted + 1] == f.entries[..f.inserted] + [f.entries[f.inserted]];
    assert s'.mem == Committed(s') + InMem(s');
  }

  lemma FinishKeepsInv(s: State, s': State)
    requires Inv(s) && Next(s, s', Finish)
    ensures Inv(s')
  {
    FinishCommits(s, s');
    FinishKeepsQueue(s, s');
    forall i | 0 <= i < |s'.served|
      ensures s'.served[i].ok && (s'.served[i].writer.sync ==> s'.served[i].leader.sync)
      ensures s'.served[i].writer.sync && s'.served[i].writer.batch.Some? ==> |OpsOf(Writers(s'.served)[..i + 1])| <= s'.durable
    {
      ServedRight(s, s', i);
    }
    hide OpsOf, MayShare, Stamped, Writers, Pops;
  }

  lemma FinishKeepsQueue(s: State, s': State)
    requires Inv(s) && Next(s, s', Finish)
    ensures Writers(s'.served) == Writers(s.served) + s.writers[..s.flight.value.k] && s'.arrived == Writers(s'.served) + s'.writers
  {
    hide OpsOf, Stops, Stamped;
    var k := s.flight.value.k;
    assert Writers(s'.served) == Writers(s.served) + s.writers[..k];
    assert s.writers == s.writers[..k] + s.writers[k..];
  }

  lemma FinishCommits(s: State, s': State)
    requires Inv(s) && Next(s, s', Finish)
    ensures s'.log == Committed(s') && s'.mem == Committed(s') && s'.lastSequence == |OpsOf(Writers(s'.served))|
  {
    FinishKeepsQueue(s, s');
    hide OpsOf, Stops, Writers, Pops;
    var f, before, group := s.flight.value, Writers(s.served), s.writers[..s.flight.value.k];
    OpsConcat(before, group);
    StampedConcat(OpsOf(before), OpsOf(group), 1);
    hide Stamped;
    assert f.entries[..f.inserted] == f.entries;
  }

  lemma ServedRight(s: State, s': State, i: nat)
    requires Inv(s) && Next(s, s', Finish) && i < |s'.served|
    ensures s'.served[i].ok && (s'.served[i].writer.sync ==> s'.served[i].leader.sync)
    ensures s'.served[i].writer.sync && s'.served[i].writer.batch.Some? ==> |OpsOf(Writers(s'.served)[..i + 1])| <= s'.durable
  {
    var f, before, group := s.flight.value, Writers(s.served), s.writers[..s.flight.value.k];
    var n := |s.served|;
    assert Writers(s'.served) == before + group;
    if i < n {
      assert s'.served[i] == s.served[i] && (before + group)[..i + 1] == before[..i + 1];
    } else {
      assert s'.served[i] == Served(group[i - n], s.writers[0], true);
      if group[i - n].sync {
        SyncOnlyUnderSync(s.writers, f.k, i - n);
        assert (before + group)[..i + 1] == before + group[..i - n + 1];
        OpsConcat(before, group[..i - n + 1]);
        assert group == group[..i - n + 1] + group[i - n + 1..];
        OpsConcat(group[..i - n + 1], group[i - n + 1..]);
      }
    }
  }

  lemma NextKeepsInv(s: State, s': State, step: Step)
    requires Inv(s) && Next(s, s', step)
    ensures Inv(s')
  {
    hide Inv, Next;
    match step
    case Arrive(w) => ArriveKeepsInv(s, s', w);
    case Lead(k) => LeadKeepsInv(s, s', k);
    case Log => LogKeepsInv(s, s');
    case Insert => InsertKeepsInv(s, s');
    case Finish => FinishKeepsInv(s, s');
  }

  ghost predicate Run(ss: seq<State>, steps: seq<Step>) {
    && |ss| == |steps| + 1 && Init(ss[0])
    && forall i :: 0 <= i < |steps| ==> Next(ss[i], ss[i + 1], steps[i])
  }

  lemma {:induction false} RunKeepsInv(ss: seq<State>, steps: seq<Step>, i: nat)
    requires Run(ss, steps) && i < |ss|
    ensures Inv(ss[i])
  {
    if i > 0 {
      RunKeepsInv(ss, steps, i - 1);
      hide Inv, Next;
      NextKeepsInv(ss[i - 1], ss[i], steps[i - 1]);
    }
  }

  // ----- What the protocol guarantees, in every run -----

  predicate PrefixesOf(log: seq<Entry>, mem: seq<Entry>, ws: seq<Writer>) {
    log <= Stamped(OpsOf(ws), 1) && mem <= Stamped(OpsOf(ws), 1)
  }

  lemma PrefixConcat(a: seq<Entry>, b: seq<Entry>, n: nat)
    requires n <= |b|
    ensures a + b[..n] <= a + b && a + [] <= a + b
  {
  }

  lemma FlightPrefixes(s: State)
    requires Inv(s) && s.flight.Some?
    ensures var k := |s.served| + s.flight.value.k; |s.served| < k <= |s.arrived| && PrefixesOf(s.log, s.mem, s.arrived[..k])
  {
    var f, before, group := s.flight.value, Writers(s.served), s.writers[..s.flight.value.k];
    assert s.arrived[..|s.served| + f.k] == before + group;
    OpsConcat(before, group);
    hide OpsOf, Stops, Stamped;
    StampedConcat(OpsOf(before), OpsOf(group), 1);
    PrefixConcat(Committed(s), f.entries, f.inserted);
    PrefixConcat(Committed(s), f.entries, |f.entries|);
    assert f.entries[..|f.entries|] == f.entries;
  }

  /** Each batch is logged and inserted exactly once, in the order of arrival, under consecutive
      sequence numbers; writers are served in that order. */
  lemma CommittedInOrder(ss: seq<State>, steps: seq<Step>, i: nat)
    requires Run(ss, steps) && i < |ss|
    ensures var s := ss[i];
      && Writers(s.served) <= s.arrived
      && (s.flight.None? ==> s.log == s.mem == Stamped(OpsOf(Writers(s.served)), 1))
      && (s.flight.Some? ==> exists k :: |s.served| < k <= |s.arrived| && PrefixesOf(s.log, s.mem, s.arrived[..k]))
  {
    RunKeepsInv(ss, steps, i);
    if ss[i].flight.Some? {
      FlightPrefixes(ss[i]);
    } else {
      InMemAbove(ss[i]);
    }
  }

  // What a reader at the published sequence number can see.
  function Visible(es: seq<Entry>, last: nat): seq<Entry> {
    if es == [] then []
    else Visible(es[..|es| - 1], last) + if es[|es| - 1].key.sn <= last then [es[|es| - 1]] else []
  }

  lemma {:induction false} VisibleSplits(a: seq<Entry>, b: seq<Entry>, last: nat)
    requires (forall i :: 0 <= i < |a| ==> a[i].key.sn <= last) && forall i :: 0 <= i < |b| ==> b[i].key.sn > last
    ensures Visible(a + b, last) == a
    decreases |a| + |b|
  {
    var es := a + b;
    if b != [] {
      assert es[..|es| - 1] == a + b[..|b| - 1];
      VisibleSplits(a, b[..|b| - 1], last);
    } else if a != [] {
      assert es[..|es| - 1] == a[..|a| - 1] + [] && a == a[..|a| - 1] + [a[|a| - 1]] && es[|es| - 1] == a[|a| - 1];
      VisibleSplits(a[..|a| - 1], [], last);
    }
  }

  /** A reader never sees part of a group: what is visible at any moment is exactly what the
      writers served so far have written. */
  lemma WholeGroupsVisible(ss: seq<State>, steps: seq<Step>, i: nat)
    requires Run(ss, steps) && i < |ss|
    ensures Visible(ss[i].mem, ss[i].lastSequence) == Stamped(OpsOf(Writers(ss[i].served)), 1)
  {
    var s := ss[i];
    RunKeepsInv(ss, steps, i);
    VisibleSplits(Committed(s), InMem(s), s.lastSequence);
  }

  /** A writer that asked for it is told it is done only once its batch is synced, by a leader
      that syncs. */
  lemma SyncIsHonoured(ss: seq<State>, steps: seq<Step>, i: nat, j: nat)
    requires Run(ss, steps) && i < |ss| && j < |ss[i].served| && ss[i].served[j].writer.sync
    ensures ss[i].served[j].leader.sync
    ensures ss[i].served[j].writer.batch.Some? ==> |OpsOf(Writers(ss[i].served)[..j + 1])| <= ss[i].durable <= |ss[i].log|
  {
    RunKeepsInv(ss, steps, i);
  }

  // ----- What readers find -----

  // The last operation on u among the batches of these writers.
  function LastBy(ws: seq<Writer>, u: UserKey): Option<Op> {
    if ws == [] then None
    else
      var w := ws[|ws| - 1];
      var own := if w.batch.Some? then LastOn(w.batch.value.ops, u) else None;
      if own.Some? then own else LastBy(ws[..|ws| - 1], u)
  }

  lemma {:induction false} LastOnConcat(a: seq<Op>, b: seq<Op>, u: UserKey)
    ensures LastOn(a + b, u) == if LastOn(b, u).Some? then LastOn(b, u) else LastOn(a, u)
  {
    if b == [] {
      assert a + b == a;
    } else {
      assert (a + b)[..|a + b| - 1] == a + b[..|b| - 1];
      LastOnConcat(a, b[..|b| - 1], u);
    }
  }

  lemma {:induction false} LastByIsLastOn(ws: seq<Writer>, u: UserKey)
    ensures LastOn(OpsOf(ws), u) == LastBy(ws, u)
  {
    hide LastOn;
    if ws == [] {
      LastOnStep([], u);
    } else {
      var w := ws[|ws| - 1];
      var own := if w.batch.Some? then w.batch.value.ops else [];
      LastByIsLastOn(ws[..|ws| - 1], u);
      LastOnConcat(OpsOf(ws[..|ws| - 1]), own, u);
      LastOnStep([], u);
    }
  }

  /** At any moment, also while a leader is inserting its group, a reader finds of each key the
      last operation on it among the batches of the writers served so far. */
  lemma ServedReads(ss: seq<State>, steps: seq<Step>, i: nat, u: UserKey)
    requires Run(ss, steps) && i < |ss|
    ensures Read(Elements(ss[i].mem), u, ss[i].lastSequence) == Outcome(LastBy(Writers(ss[i].served), u), NotFound)
  {
    RunKeepsInv(ss, steps, i);
    var s := ss[i];
    InMemAbove(s);
    assert s.lastSequence == |OpsOf(Writers(s.served))|;
    hide Run, Inv, OpsOf, Writers, Read, Outcome, LastBy, Stamped, Distinct, InMem;
    LastByIsLastOn(Writers(s.served), u);
    FlyingUnseen(OpsOf(Writers(s.served)), InMem(s), s.mem, u);
  }

  lemma FlyingUnseen(ops: seq<Op>, flying: seq<Entry>, mem: seq<Entry>, u: UserKey)
    requires mem == Stamped(ops, 1) + flying && forall e :: e in flying ==> e.key.sn > |ops|
    requires Distinct(Elements(Stamped(ops, 1)) + Elements(flying))
    ensures Read(Elements(mem), u, |ops|) == Outcome(LastOn(ops, u), NotFound)
  {
    StampedBelow({}, ops, 0);
    hide Read, Outcome, LastOn, Stamped, Distinct;
    StampedAlone(ops, u);
    ElementsConcat(Stamped(ops, 1), flying);
    hide Elements;
    EarlierReads(Elements(Stamped(ops, 1)), Elements(flying), |ops|, u, |ops|);
  }

  lemma StampedAlone(ops: seq<Op>, u: UserKey)
    ensures Distinct(Elements(Stamped(ops, 1))) && Read(Elements(Stamped(ops, 1)), u, |ops|) == Outcome(LastOn(ops, u), NotFound)
  {
    Nothing(u);
    hide Read, Outcome, LastOn, Stamped, Distinct, Elements;
    BatchReads({}, ops, 0, u, |ops|);
    assert {} + Elements(Stamped(ops, 1)) == Elements(Stamped(ops, 1));
  }

  lemma ElementsConcat(a: seq<Entry>, b: seq<Entry>)
    ensures Elements(a + b) == Elements(a) + Elements(b)
    ensures forall e :: e in Elements(b) ==> e in b
  {
  }

  lemma Nothing(u: UserKey)
    ensures Distinct({}) && Read({}, u, 0) == NotFound
  {
  }

  lemma InMemAbove(s: State)
    requires Inv(s)
    ensures s.mem == Stamped(OpsOf(Writers(s.served)), 1) + InMem(s)
    ensures forall e :: e in InMem(s) ==> e.key.sn > |OpsOf(Writers(s.served))|
    ensures Distinct(Elements(Stamped(OpsOf(Writers(s.served)), 1)) + Elements(InMem(s)))
  {
    hide OpsOf, MayShare, Writers;
    StampedDistinct(s.mem, OpsOf(Writers(s.served)), InMem(s), s.lastSequence);
  }

  lemma StampedDistinct(mem: seq<Entry>, ops: seq<Op>, flying: seq<Entry>, last: nat)
    requires last == |ops| && forall j :: 0 <= j < |flying| ==> flying[j].key.sn == last + 1 + j
    ensures Distinct(Elements(Stamped(ops, 1)) + Elements(flying))
  {
  }
}
