/** Internal keys, entries and the abstract meaning of a set of entries. */
module Entries {

  // The engine inspects user keys only through the user comparator, so a user key
  // stands for its position in that comparator's order.  Module KeyOrder shows that
  // the default bytewise order of byte strings embeds in this type.
  type UserKey = real
  type Value = seq<bv8>

  const TYPE_DELETION: nat := 0
  const TYPE_VALUE: nat := 1
  const TYPE_FOR_SEEK: nat := TYPE_VALUE

  const MAX_SEQUENCE: nat := 0xFF_FFFF_FFFF_FFFF  // kMaxSequenceNumber

  datatype IKey = IKey(user: UserKey, sn: nat, tag: nat) {
    // ParseInternalKey accepts exactly the two known value types.
    predicate Parses() { tag <= TYPE_VALUE }
  }

  datatype Entry = Entry(key: IKey, value: Value)

  // InternalKeyComparator::Compare(a, b) < 0: user keys ascending, then the packed
  // (sequence << 8 | type) descending.
  predicate Before(a: IKey, b: IKey) {
    || a.user < b.user
    || (a.user == b.user && (a.sn > b.sn || (a.sn == b.sn && a.tag > b.tag)))
  }

  predicate AtOrAfter(a: IKey, b: IKey) { !Before(a, b) }

  predicate Sorted(es: seq<Entry>) {
    forall i, j :: 0 <= i < j < |es| ==> Before(es[i].key, es[j].key)
  }

  predicate AllParse(es: seq<Entry>) { forall i :: 0 <= i < |es| ==> es[i].key.Parses() }

  // The order of two positions is the order of their keys.
  lemma Ordered(es: seq<Entry>, i: nat, j: nat)
    requires Sorted(es) && i < |es| && j < |es|
    ensures i < j <==> Before(es[i].key, es[j].key)
    ensures j < i <==> Before(es[j].key, es[i].key)
  {
  }

  // A key's trailer is one 64-bit number; for tags below 256 the two-step comparison of Before
  // is the comparison of that number.
  function Pack(k: IKey): nat { k.sn * 256 + k.tag }

  lemma PackedOrder(a: IKey, b: IKey)
    requires a.tag < 256 && b.tag < 256
    ensures Before(a, b) <==> a.user < b.user || (a.user == b.user && Pack(a) > Pack(b))
    ensures a == b <==> a.user == b.user && Pack(a) == Pack(b)
  {
    if a.sn < b.sn {
      assert a.sn * 256 + 256 <= b.sn * 256;
    } else if b.sn < a.sn {
      assert b.sn * 256 + 256 <= a.sn * 256;
    }
  }

  // ----- What a client may observe -----

  datatype Answer = Found(value: Value) | NotFound | Corrupt

  function AnswerOf(e: Entry): Answer {
    if e.key.tag == TYPE_VALUE then Found(e.value)
    else if e.key.tag == TYPE_DELETION then NotFound
    else Corrupt
  }

  // e is the newest entry for u that a reader at sequence s may see.
  ghost predicate Newest(es: set<Entry>, u: UserKey, s: nat, e: Entry) {
    && e in es && e.key.user == u && e.key.sn <= s
    && forall f :: f in es && f.key.user == u && f.key.sn <= s ==> f.key.sn <= e.key.sn
  }

  // One entry per (user key, sequence number).
  ghost predicate Distinct(es: set<Entry>) {
    forall e, f :: e in es && f in es && e.key.user == f.key.user && e.key.sn == f.key.sn ==> e == f
  }

  /** The specification of the whole store: what a read of u at sequence s answers. */
  ghost function Read(es: set<Entry>, u: UserKey, s: nat): Answer {
    if e :| Newest(es, u, s, e) then AnswerOf(e) else NotFound
  }

  lemma ReadIs(es: set<Entry>, u: UserKey, s: nat, e: Entry)
    requires Distinct(es) && Newest(es, u, s, e)
    ensures Read(es, u, s) == AnswerOf(e)
  {
    var f :| Newest(es, u, s, f) && Read(es, u, s) == AnswerOf(f);
    assert Newest(es, u, s, e) && Newest(es, u, s, f);
    assert f.key.sn <= e.key.sn;
    assert e.key.sn <= f.key.sn;
  }

  lemma {:induction false} NewestExists(es: set<Entry>, u: UserKey, s: nat)
    requires exists e :: e in es && e.key.user == u && e.key.sn <= s
    ensures exists e :: Newest(es, u, s, e)
    decreases es
  {
    var e :| e in es && e.key.user == u && e.key.sn <= s;
    if !Newest(es, u, s, e) {
      var f :| f in es && f.key.user == u && f.key.sn <= s && f.key.sn > e.key.sn;
      NewestExists(es - {e}, u, s);
      var g :| Newest(es - {e}, u, s, g);
      assert Newest(es, u, s, g);
    }
  }

  // Reads depend only on the newest visible entries.
  lemma ReadSame(a: set<Entry>, b: set<Entry>, u: UserKey, s: nat)
    requires Distinct(a) && Distinct(b)
    requires forall e :: Newest(a, u, s, e) <==> Newest(b, u, s, e)
    ensures Read(a, u, s) == Read(b, u, s)
  {
    if e :| Newest(a, u, s, e) {
      ReadIs(a, u, s, e);
      ReadIs(b, u, s, e);
    }
  }

  ghost function Elements(es: seq<Entry>): set<Entry> { set e | e in es }
}
