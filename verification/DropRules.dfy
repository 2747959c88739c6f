/** What the drop rules mean, and exactly when dropping goes unnoticed by readers. */
module DropRules {
  import opened Entries
  import opened Versions
  import opened Compactions

  // The newest entry of its user key at or below ss, judged by its neighbour alone.
  predicate FirstVisible(es: seq<Entry>, ss: nat, j: nat)
    requires j < |es|
  {
    es[j].key.sn <= ss && (j == 0 || es[j - 1].key.user != es[j].key.user || es[j - 1].key.sn > ss)
  }

  lemma FirstVisibleIsNewest(es: seq<Entry>, ss: nat, j: nat)
    requires Sorted(es) && Distinct(Elements(es)) && j < |es|
    ensures FirstVisible(es, ss, j) <==> Newest(Elements(es), es[j].key.user, ss, es[j])
  {
    if FirstVisible(es, ss, j) {
      forall f | f in Elements(es) && f.key.user == es[j].key.user && f.key.sn <= ss ensures f.key.sn <= es[j].key.sn {
        var i :| 0 <= i < |es| && es[i] == f;
        Ordered(es, i, j);
        if j > 0 { Ordered(es, i, j - 1); }
      }
    }
    if Newest(Elements(es), es[j].key.user, ss, es[j]) && j > 0 {
      Ordered(es, j - 1, j);
      assert es[j - 1] in Elements(es) && es[j] in Elements(es);
    }
  }

  lemma DropMeaning(v: Version, level: nat, ss: nat, es: seq<Entry>, j: nat)
    requires LevelOrder(v) && Sorted(es) && AllParse(es) && j < |es| && ss < MAX_SEQUENCE
    ensures Drop(v, level, ss, StateAt(es, j), es[j]) <==>
      es[j].key.sn <= ss && (!FirstVisible(es, ss, j) || (es[j].key.tag == TYPE_DELETION && IsBase(v, level, es[j].key.user)))
  {
    if j > 0 { Ordered(es, j - 1, j); }
  }

  // The drop rules, said of the whole input at once: an entry is kept if some snapshot above
  // ss may need it, or if it is the newest at or below ss and not a removable deletion.
  ghost predicate Kept(v: Version, level: nat, ss: nat, es: set<Entry>, e: Entry)
    requires LevelOrder(v)
  {
    e in es && (e.key.sn > ss ||
      (Newest(es, e.key.user, ss, e) && !(e.key.tag == TYPE_DELETION && IsBase(v, level, e.key.user))))
  }

  lemma {:induction false} RetainedMembers(v: Version, level: nat, ss: nat, es: seq<Entry>, i: nat, e: Entry)
    requires LevelOrder(v) && i <= |es|
    ensures e in Retained(v, level, ss, es, i) <==>
      exists j :: i <= j < |es| && es[j] == e && !Drop(v, level, ss, StateAt(es, j), es[j])
    decreases |es| - i
  {
    hide Drop, LevelOrder;
    if i < |es| { RetainedMembers(v, level, ss, es, i + 1, e); }
  }

  /** The compaction loop retains exactly the entries the drop rules keep. */
  lemma RetainedIsKept(v: Version, level: nat, ss: nat, es: seq<Entry>, e: Entry)
    requires LevelOrder(v) && Sorted(es) && Distinct(Elements(es)) && AllParse(es) && ss < MAX_SEQUENCE
    ensures e in Retained(v, level, ss, es, 0) <==> Kept(v, level, ss, Elements(es), e)
  {
    hide Retained, IsBase, Sorted, Distinct, LevelOrder, Newest;
    RetainedMembers(v, level, ss, es, 0, e);
    forall j | 0 <= j < |es|
      ensures !Drop(v, level, ss, StateAt(es, j), es[j]) <==> Kept(v, level, ss, Elements(es), es[j])
    {
      FirstVisibleIsNewest(es, ss, j);
      DropMeaning(v, level, ss, es, j);
    }
  }

  lemma {:induction false} RetainedSorted(v: Version, level: nat, ss: nat, es: seq<Entry>, i: nat)
    requires LevelOrder(v) && Sorted(es) && i <= |es|
    ensures Sorted(Retained(v, level, ss, es, i))
    decreases |es| - i
  {
    hide Drop, LevelOrder;
    if i < |es| {
      RetainedSorted(v, level, ss, es, i + 1);
      var r := Retained(v, level, ss, es, i + 1);
      forall k | 0 <= k < |r| ensures Before(es[i].key, r[k].key) {
        RetainedMembers(v, level, ss, es, i + 1, r[k]);
        assert r[k] in r;
        var j :| i + 1 <= j < |es| && es[j] == r[k];
        Ordered(es, i, j);
      }
    }
  }

  // ----- Reads before and after -----

  ghost function KeptSet(v: Version, level: nat, ss: nat, es: set<Entry>): set<Entry>
    requires LevelOrder(v)
  {
    set e | e in es && Kept(v, level, ss, es, e)
  }

  /** No user key keeps two entries at or below m, nor a deletion there unless some file deeper
      than the output level spans it. */
  ghost predicate DropsEnough(v: Version, level: nat, m: nat, kept: set<Entry>) {
    && (forall a, b :: a in kept && b in kept && a.key.user == b.key.user && a.key.sn <= m && b.key.sn <= m ==> a == b)
    && forall a :: a in kept && a.key.tag == TYPE_DELETION && a.key.sn <= m ==>
         exists l, f :: level + 2 <= l < |v| && f in v[l] && f.entries != [] && Smallest(f).user <= a.key.user <= Largest(f).user
  }

  lemma KeptDropsEnough(v: Version, level: nat, ss: nat, es: set<Entry>, m: nat)
    requires LevelOrder(v) && Distinct(es) && m <= ss
    ensures DropsEnough(v, level, m, KeptSet(v, level, ss, es))
  {
    hide LevelOrder, Distinct, IsBase, Newest;
    var kept := KeptSet(v, level, ss, es);
    forall a, b | a in kept && b in kept && a.key.user == b.key.user && a.key.sn <= m && b.key.sn <= m ensures a == b {
      OneNewest(es, a.key.user, ss, a, b);
    }
    forall a | a in kept && a.key.tag == TYPE_DELETION && a.key.sn <= m
      ensures exists l, f :: level + 2 <= l < |v| && f in v[l] && f.entries != [] && Smallest(f).user <= a.key.user <= Largest(f).user
    {
      NotBase(v, level, a.key.user);
    }
  }

  lemma OneNewest(es: set<Entry>, u: UserKey, s: nat, a: Entry, b: Entry)
    requires Distinct(es) && Newest(es, u, s, a) && Newest(es, u, s, b)
    ensures a == b
  {
  }

  lemma NotBase(v: Version, level: nat, u: UserKey)
    requires LevelOrder(v) && !IsBase(v, level, u)
    ensures exists l, f :: level + 2 <= l < |v| && f in v[l] && f.entries != [] && Smallest(f).user <= u <= Largest(f).user
  {
    var l, i :| level + 2 <= l < NUM_LEVELS && 0 <= i < |v[l]| && Spans(v[l][i], u);
    assert v[l][i] in v[l];
  }

  // u's newest entry at ss is a deletion the compaction removes, and behind it, outside the
  // compaction, lies an older value.
  ghost predicate Resurrected(v: Version, level: nat, ss: nat, rest: set<Entry>, es: set<Entry>, u: UserKey)
    requires LevelOrder(v)
  {
    && IsBase(v, level, u)
    && (exists d :: Newest(rest + es, u, ss, d) && d in es && d.key.tag == TYPE_DELETION)
    && Read(rest, u, ss) != NotFound
  }

  lemma DeletionDropped(v: Version, level: nat, ss: nat, rest: set<Entry>, es: set<Entry>, u: UserKey, s: nat, d: Entry)
    requires LevelOrder(v) && Distinct(rest + es) && ss <= s
    requires Newest(rest + es, u, s, d) && d in es && d.key.sn <= ss
    requires d.key.tag == TYPE_DELETION && IsBase(v, level, u)
    ensures Read(rest + KeptSet(v, level, ss, es), u, s) == Read(rest, u, ss)
  {
    var after := rest + KeptSet(v, level, ss, es);
    assert Distinct(after) by { assert after <= rest + es; }
    assert Distinct(rest) by { assert rest <= rest + es; }
    forall e ensures Newest(after, u, s, e) <==> Newest(rest, u, ss, e) {
      NothingKept(v, level, ss, rest, es, u, s, d);
    }
    if e :| Newest(rest, u, ss, e) {
      ReadIs(rest, u, ss, e);
      ReadIs(after, u, s, e);
    }
  }

  lemma NothingKept(v: Version, level: nat, ss: nat, rest: set<Entry>, es: set<Entry>, u: UserKey, s: nat, d: Entry)
    requires LevelOrder(v) && Distinct(rest + es) && ss <= s
    requires Newest(rest + es, u, s, d) && d in es && d.key.sn <= ss
    requires d.key.tag == TYPE_DELETION && IsBase(v, level, u)
    ensures forall e :: e in KeptSet(v, level, ss, es) && e.key.user == u ==> e.key.sn > s
    ensures forall e :: e in rest && e.key.user == u && e.key.sn <= s ==> e.key.sn <= ss
  {
    hide LevelOrder, IsBase;
    forall e | e in KeptSet(v, level, ss, es) && e.key.user == u ensures e.key.sn > s {
      assert e in rest + es && d in rest + es;
    }
  }

  lemma OtherwiseSame(v: Version, level: nat, ss: nat, rest: set<Entry>, es: set<Entry>, u: UserKey, s: nat)
    requires LevelOrder(v) && Distinct(rest + es) && ss <= s
    requires forall d :: Newest(rest + es, u, s, d) && d in es && d.key.sn <= ss ==>
      d.key.tag != TYPE_DELETION || !IsBase(v, level, u)
    ensures Read(rest + KeptSet(v, level, ss, es), u, s) == Read(rest + es, u, s)
  {
    hide LevelOrder, IsBase;
    var before, after := rest + es, rest + KeptSet(v, level, ss, es);
    assert Distinct(after) by { assert after <= before; }
    if e :| Newest(before, u, s, e) {
      if e in es && e.key.sn <= ss {
        assert Newest(es, u, ss, e);
        assert Kept(v, level, ss, es, e);
      }
      assert Newest(after, u, s, e);
      ReadIs(before, u, s, e);
      ReadIs(after, u, s, e);
    } else {
      if e :| Newest(after, u, s, e) {
        assert e in before;
        NewestExists(before, u, s);
      }
    }
  }

  /** Compaction preserves every read at or above smallest_snapshot, for a user key, exactly
      when it does not remove a deletion that hides an older value outside its inputs. */
  lemma ReadsPreservedIff(v: Version, level: nat, ss: nat, rest: set<Entry>, es: set<Entry>, u: UserKey)
    requires LevelOrder(v) && Distinct(rest + es)
    ensures (forall s :: ss <= s ==> Read(rest + KeptSet(v, level, ss, es), u, s) == Read(rest + es, u, s))
      <==> !Resurrected(v, level, ss, rest, es, u)
  {
    hide LevelOrder, IsBase, KeptSet;
    if Resurrected(v, level, ss, rest, es, u) {
      var d :| Newest(rest + es, u, ss, d) && d in es && d.key.tag == TYPE_DELETION;
      DeletionDropped(v, level, ss, rest, es, u, ss, d);
      ReadIs(rest + es, u, ss, d);
      assert Read(rest + KeptSet(v, level, ss, es), u, ss) != Read(rest + es, u, ss);
    } else {
      forall s | ss <= s ensures Read(rest + KeptSet(v, level, ss, es), u, s) == Read(rest + es, u, s) {
        if d :| Newest(rest + es, u, s, d) && d in es && d.key.sn <= ss && d.key.tag == TYPE_DELETION && IsBase(v, level, u) {
          DeletionDropped(v, level, ss, rest, es, u, s, d);
          ReadIs(rest + es, u, s, d);
          assert Newest(rest + es, u, ss, d);
        } else {
          OtherwiseSame(v, level, ss, rest, es, u, s);
        }
      }
    }
  }
}
