/** A point lookup in a table file of bytes is the engine's lookup in a run of entries. */
module TableGets {
  import opened Codings
  import opened Blocks
  import opened KeyOrders
  import opened TableLookups
  import opened Tables
  import opened Versions
  import Entries
  import Filters

  // The internal key, and the entry, that a stored pair stands for.
  function KeyOf(k: Bytes): Entries.IKey
    requires |k| >= 8
  {
    Entries.IKey(Rank(UserKey(k)), Trailer(k) / 256, Trailer(k) % 256)
  }

  function EntryOf(kv: KV): Entries.Entry
    requires |kv.key| >= 8
  {
    Entries.Entry(KeyOf(kv.key), ValueOf(kv.value))
  }

  predicate HaveTrailers(kvs: seq<KV>) { forall i :: 0 <= i < |kvs| ==> |kvs[i].key| >= 8 }

  // The entries of a table, as the engine sees them.
  function EntriesOf(kvs: seq<KV>): (es: seq<Entries.Entry>)
    requires HaveTrailers(kvs)
  {
    seq(|kvs|, i requires 0 <= i < |kvs| => EntryOf(kvs[i]))
  }

  /** Any two keys of at least 8 bytes compare as the internal keys they stand for. */
  lemma KeyOrderKept(a: Bytes, b: Bytes)
    requires |a| >= 8 && |b| >= 8
    ensures InternalLess(a, b) <==> Entries.Before(KeyOf(a), KeyOf(b))
    ensures UserKey(a) == UserKey(b) <==> KeyOf(a).user == KeyOf(b).user
  {
    RankOrder(UserKey(a), UserKey(b));
    Entries.PackedOrder(KeyOf(a), KeyOf(b));
    hide BytesLess, Rank, DecodeFixed;
    assert Entries.Pack(KeyOf(a)) == Trailer(a) && Entries.Pack(KeyOf(b)) == Trailer(b);
  }

  lemma KeyOfSeek(u: Bytes, s: nat)
    requires s <= Entries.MAX_SEQUENCE
    ensures var t := InternalKey(u, s, Entries.TYPE_FOR_SEEK);
      |t| >= 8 && UserKey(t) == u && KeyOf(t) == Entries.IKey(Rank(u), s, Entries.TYPE_FOR_SEEK)
  {
    InternalKeyParts(u, s, Entries.TYPE_FOR_SEEK);
  }

  lemma TableSorted(kvs: seq<KV>)
    requires HaveTrailers(kvs) && Increasing(kvs, InternalLess)
    ensures Entries.Sorted(EntriesOf(kvs))
  {
    hide InternalLess, Entries.Before;
    forall i, j | 0 <= i < j < |kvs| ensures Entries.Before(EntriesOf(kvs)[i].key, EntriesOf(kvs)[j].key) {
      KeyOrderKept(kvs[i].key, kvs[j].key);
    }
  }

  // The first pair at or after a key, if it belongs to the user key sought.
  function IfOwn(kv: Option<KV>, u: Bytes): Option<KV> {
    if kv.Some? && |kv.value.key| >= 8 && UserKey(kv.value.key) == u then kv else None
  }

  lemma FirstEntry(kvs: seq<KV>)
    requires HaveTrailers(kvs) && kvs != []
    ensures EntriesOf(kvs) != [] && EntriesOf(kvs)[0] == EntryOf(kvs[0]) && EntriesOf(kvs)[1..] == EntriesOf(kvs[1..])
  {
    hide UserKey, KeyOf, ValueOf, Rank, EntryOf;
  }

  // A pair compares with the seek key as its entry does.
  lemma SeekStep(kv: KV, u: Bytes, s: nat)
    requires |kv.key| >= 8 && s <= Entries.MAX_SEQUENCE
    ensures InternalLess(kv.key, InternalKey(u, s, Entries.TYPE_FOR_SEEK)) <==>
      Entries.Before(EntryOf(kv).key, Entries.IKey(Rank(u), s, Entries.TYPE_FOR_SEEK))
    ensures UserKey(kv.key) == u <==> EntryOf(kv).key.user == Rank(u)
  {
    KeyOfSeek(u, s);
    hide InternalLess, Entries.Before, InternalKey, UserKey, KeyOf, ValueOf, Rank;
    KeyOrderKept(kv.key, InternalKey(u, s, Entries.TYPE_FOR_SEEK));
  }

  /** Searching the bytes for the seek key of (u, s) is looking (u, s) up among the entries. */
  lemma {:induction false} FirstFromIsLookup(kvs: seq<KV>, u: Bytes, s: nat)
    requires HaveTrailers(kvs) && s <= Entries.MAX_SEQUENCE
    ensures var own := IfOwn(FirstFrom(kvs, InternalKey(u, s, Entries.TYPE_FOR_SEEK)), u);
      && (own.Some? ==> |own.value.key| >= 8)
      && Lookup(EntriesOf(kvs), Rank(u), s) == if own.Some? then Some(EntryOf(own.value)) else None
  {
    hide InternalLess, Entries.Before, InternalKey, UserKey, EntryOf, Rank, EntriesOf;
    if kvs == [] {
      NoEntries();
    } else {
      FirstEntry(kvs);
      SeekStep(kvs[0], u, s);
      FirstFromIsLookup(kvs[1..], u, s);
    }
  }

  lemma NoEntries()
    ensures EntriesOf([]) == []
  {
  }

  /** Get in an open table: InternalGet, and the comparison of user keys of SaveValue. */
  method Get(t: Table, u: Bytes, s: nat) returns (r: Option<Entries.Entry>)
    requires t.Ok() && s <= Entries.MAX_SEQUENCE
    ensures HaveTrailers(All(t.layout.chunks)) && Entries.Sorted(EntriesOf(All(t.layout.chunks)))
    ensures r == Lookup(EntriesOf(All(t.layout.chunks)), Rank(u), s)
  {
    ghost var kvs := All(t.layout.chunks);
    TableHasTrailers(t.file, t.k, t.policy, t.layout);
    TableSorted(kvs);
    var target := InternalKey(u, s, Entries.TYPE_FOR_SEEK);
    KeyOfSeek(u, s);
    FirstFromIsLookup(kvs, u, s);
    hide TableOk, Fits, InternalLess, All, InternalKey, FirstFrom, Lookup, EntryOf, UserKey, Rank, Increasing;
    var found := t.InternalGet(target);
    r := None;
    if found.Some? && UserKey(found.value.key) == u {
      r := Some(EntryOf(found.value));
    }
  }

  lemma TableHasTrailers(file: Bytes, k: nat, policy: Filters.Policy, t: Layout)
    requires TableOk(file, k, policy, t)
    ensures HaveTrailers(All(t.chunks)) && Increasing(All(t.chunks), InternalLess)
  {
    hide InternalLess, All, ChunksStored, IndexHandles, IndexKeys, Stored, FilterOk;
  }
}
