/** The operations of write batches: the entries they become, and what readers then find. */
module Ops {
  import opened Entries
  import opened Versions
  import opened Engine
  import opened WriteSteps

  // One operation of a write batch.
  datatype Op = Put(user: UserKey, value: Value) | Delete(user: UserKey)

  function EntryFor(op: Op, sn: nat): Entry {
    match op
    case Put(u, x) => Entry(IKey(u, sn, TYPE_VALUE), x)
    case Delete(u) => Entry(IKey(u, sn, TYPE_DELETION), [])
  }

  // The entries of a batch whose first operation has sequence number `first`.
  function Stamped(ops: seq<Op>, first: nat): (g: seq<Entry>)
    ensures |g| == |ops| && Group(g, first)
  {
    seq(|ops|, i requires 0 <= i < |ops| => EntryFor(ops[i], first + i))
  }

  // ----- What a reader makes of a batch -----

  // The last operation on u.
  function LastOn(ops: seq<Op>, u: UserKey): Option<Op> {
    if ops == [] then None
    else if ops[|ops| - 1].user == u then Some(ops[|ops| - 1])
    else LastOn(ops[..|ops| - 1], u)
  }

  /** What u reads as once a last operation on it, if any, has come after an answer. */
  function Outcome(last: Option<Op>, before: Answer): Answer {
    match last
    case None => before
    case Some(Put(_, x)) => Found(x)
    case Some(Delete(_)) => NotFound
  }

  lemma OneOp(base: set<Entry>, op: Op, sn: nat, u: UserKey, s: nat)
    requires Distinct(base) && (forall e :: e in base ==> e.key.sn < sn) && s >= sn
    ensures Distinct(base + {EntryFor(op, sn)})
    ensures Read(base + {EntryFor(op, sn)}, u, s) == Outcome(if op.user == u then Some(op) else None, Read(base, u, s))
  {
    var e := EntryFor(op, sn);
    if op.user == u {
      assert Newest(base + {e}, u, s, e);
      ReadIs(base + {e}, u, s, e);
    } else {
      forall d ensures Newest(base + {e}, u, s, d) <==> Newest(base, u, s, d) {}
      ReadSame(base + {e}, base, u, s);
    }
  }

  lemma AllBelow(base: set<Entry>, u: UserKey, last: nat, s: nat)
    requires Distinct(base) && (forall e :: e in base ==> e.key.sn <= last) && last <= s
    ensures Read(base, u, s) == Read(base, u, last)
  {
    forall e ensures Newest(base, u, s, e) <==> Newest(base, u, last, e) {}
    SameNewest(base, u, s, last);
  }

  // The same newest entry at two sequence numbers gives the same answer.
  lemma SameNewest(es: set<Entry>, u: UserKey, s: nat, t: nat)
    requires Distinct(es) && forall e :: Newest(es, u, s, e) <==> Newest(es, u, t, e)
    ensures Read(es, u, s) == Read(es, u, t)
  {
    if e :| Newest(es, u, s, e) {
      ReadIs(es, u, s, e);
      ReadIs(es, u, t, e);
    }
  }

  lemma StampedSnoc(ops: seq<Op>, first: nat)
    requires ops != []
    ensures var n := |ops| - 1;
      Elements(Stamped(ops, first)) == Elements(Stamped(ops[..n], first)) + {EntryFor(ops[n], first + n)}
  {
    var n := |ops| - 1;
    assert Stamped(ops, first) == Stamped(ops[..n], first) + [EntryFor(ops[n], first + n)];
  }

  /** Entries of a batch over older ones: every key reads as its last operation in the batch says,
      and as before if it has none. */
  lemma {:induction false} BatchReads(base: set<Entry>, ops: seq<Op>, last: nat, u: UserKey, s: nat)
    requires Distinct(base) && (forall e :: e in base ==> e.key.sn <= last) && s >= last + |ops|
    ensures Distinct(base + Elements(Stamped(ops, last + 1)))
    ensures Read(base + Elements(Stamped(ops, last + 1)), u, s) == Outcome(LastOn(ops, u), Read(base, u, last))
  {
    hide Stamped, EntryFor, Read, Distinct, Elements, LastOn;
    LastOnStep(ops, u);
    if ops == [] {
      NothingStamped(last + 1);
      assert base + {} == base;
      AllBelow(base, u, last, s);
    } else {
      var n := |ops| - 1;
      var e, g := EntryFor(ops[n], last + 1 + n), Elements(Stamped(ops[..n], last + 1));
      BatchReads(base, ops[..n], last, u, s);
      StampedSnoc(ops, last + 1);
      StampedBelow(base, ops[..n], last);
      OneOp(base + g, ops[n], last + 1 + n, u, s);
      assert base + (g + {e}) == (base + g) + {e};
    }
  }

  lemma LastOnStep(ops: seq<Op>, u: UserKey)
    ensures LastOn(ops, u) == if ops == [] then None else if ops[|ops| - 1].user == u then Some(ops[|ops| - 1]) else LastOn(ops[..|ops| - 1], u)
  {
  }

  lemma NothingStamped(first: nat)
    ensures Elements(Stamped([], first)) == {}
  {
  }

  lemma StampedBelow(base: set<Entry>, ops: seq<Op>, last: nat)
    requires forall e :: e in base ==> e.key.sn <= last
    ensures forall e :: e in base + Elements(Stamped(ops, last + 1)) ==> e.key.sn <= last + |ops|
  {
  }

  // No batch changes what was read before it.
  lemma EarlierReads(base: set<Entry>, g: set<Entry>, last: nat, u: UserKey, s: nat)
    requires Distinct(base) && Distinct(base + g) && (forall e :: e in g ==> e.key.sn > last) && s <= last
    ensures Read(base + g, u, s) == Read(base, u, s)
  {
    forall e ensures Newest(base + g, u, s, e) <==> Newest(base, u, s, e) {}
    ReadSame(base + g, base, u, s);
  }

  /** Of each key, readers find the last operation on it, or what they found before if there is
      none; readers of the past find what they did. */
  ghost predicate Wrote(es: set<Entry>, last: nat, ops: seq<Op>, es': set<Entry>) {
    && (forall u, s: nat :: s >= last + |ops| ==> Read(es', u, s) == Outcome(LastOn(ops, u), Read(es, u, last)))
    && (forall u, s: nat :: s <= last ==> Read(es', u, s) == Read(es, u, s))
  }

  lemma StampedWrote(es: set<Entry>, ops: seq<Op>, last: nat)
    requires Distinct(es) && forall e :: e in es ==> e.key.sn <= last
    ensures Wrote(es, last, ops, es + Elements(Stamped(ops, last + 1)))
  {
    var g := Stamped(ops, last + 1);
    GroupAboveAll(g, last + 1, es);
    hide Read, Stamped, Distinct, Outcome, LastOn;
    forall u, s: nat ensures s >= last + |ops| ==> Read(es + Elements(g), u, s) == Outcome(LastOn(ops, u), Read(es, u, last)) {
      if s >= last + |ops| { BatchReads(es, ops, last, u, s); }
    }
    forall u, s: nat ensures s <= last ==> Read(es + Elements(g), u, s) == Read(es, u, s) {
      if s <= last { EarlierReads(es, Elements(g), last, u, s); }
    }
  }
}
