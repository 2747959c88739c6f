/** Byte strings as keys: the bytewise order, internal keys, and shortened keys between them. */
module KeyOrders {
  import opened Codings
  import opened Blocks
  import Entries

  // ----- The bytewise comparator -----

  predicate BytesLess(a: Bytes, b: Bytes) {
    if b == [] then false
    else if a == [] then true
    else a[0] < b[0] || (a[0] == b[0] && BytesLess(a[1..], b[1..]))
  }

  lemma {:induction false} BytesTotal(a: Bytes, b: Bytes)
    ensures BytesLess(a, b) || BytesLess(b, a) || a == b
    ensures !(BytesLess(a, b) && BytesLess(b, a)) && !BytesLess(a, a)
  {
    if a != [] && b != [] {
      assert a == [a[0]] + a[1..] && b == [b[0]] + b[1..];
      BytesTotal(a[1..], b[1..]);
    }
    if a != [] { BytesTotal(a[1..], a[1..]); }
  }

  lemma {:induction false} BytesTransitive(a: Bytes, b: Bytes, c: Bytes)
    requires BytesLess(a, b) && BytesLess(b, c)
    ensures BytesLess(a, c)
  {
    if a != [] && a[0] == b[0] == c[0] { BytesTransitive(a[1..], b[1..], c[1..]); }
  }

  // ----- Keys as positions: the bytewise order embeds in the reals -----

  function Rank(s: Bytes): (r: real)
    ensures 0.0 <= r < 1.0
  {
    if s == [] then 0.0 else (((s[0] as int) + 1) as real + Rank(s[1..])) / 257.0
  }

  /** The order of ranks is the bytewise order, so proofs about keys as ranks are about strings. */
  lemma {:induction false} RankOrder(a: Bytes, b: Bytes)
    ensures BytesLess(a, b) <==> Rank(a) < Rank(b)
    ensures a == b <==> Rank(a) == Rank(b)
  {
    if a != [] && b != [] {
      RankOrder(a[1..], b[1..]);
      assert a == [a[0]] + a[1..] && b == [b[0]] + b[1..];
    }
  }

  // A stored value, as the engine sees it.
  function ValueOf(b: Bytes): Entries.Value { seq(|b|, i requires 0 <= i < |b| => b[i] as bv8) }

  // ----- Internal keys -----

  function UserKey(k: Bytes): Bytes
    requires |k| >= 8
  {
    k[..|k| - 8]
  }

  // The packed sequence number and type.
  function Trailer(k: Bytes): nat
    requires |k| >= 8
  {
    DecodeFixed(k[|k| - 8..])
  }

  function InternalKey(user: Bytes, sn: nat, tag: nat): Bytes { user + Fixed(sn * 256 + tag, 8) }

  lemma InternalKeyParts(user: Bytes, sn: nat, tag: nat)
    requires sn <= Entries.MAX_SEQUENCE && tag < 256
    ensures var k := InternalKey(user, sn, tag); |k| >= 8 && UserKey(k) == user && Trailer(k) == sn * 256 + tag
  {
    FixedWidths();
    FixedRoundTrip(sn * 256 + tag, 8);
    hide Fixed, DecodeFixed;
    var k := InternalKey(user, sn, tag);
    assert k[|k| - 8..] == Fixed(sn * 256 + tag, 8);
  }

  // InternalKeyComparator::Compare(a, b) < 0.  Its keys are at least 8 bytes long; shorter
  // strings, which it is never given, come first here.
  predicate InternalLess(a: Bytes, b: Bytes) {
    if |a| < 8 || |b| < 8 then |a| < 8 && (|b| < 8 ==> BytesLess(a, b))
    else BytesLess(UserKey(a), UserKey(b)) || (UserKey(a) == UserKey(b) && Trailer(a) > Trailer(b))
  }

  lemma InternalTotal(a: Bytes, b: Bytes)
    ensures InternalLess(a, b) || InternalLess(b, a) || a == b
    ensures !InternalLess(a, a)
  {
    hide BytesLess, DecodeFixed;
    BytesTotal(a, b);
    BytesTotal(a, a);
    if |a| >= 8 {
      BytesTotal(UserKey(a), UserKey(a));
      if |b| >= 8 {
        BytesTotal(UserKey(a), UserKey(b));
        if UserKey(a) == UserKey(b) && Trailer(a) == Trailer(b) { SameParts(a, b); }
      }
    }
  }

  lemma SameParts(a: Bytes, b: Bytes)
    requires |a| >= 8 && |b| >= 8 && UserKey(a) == UserKey(b) && Trailer(a) == Trailer(b)
    ensures a == b
  {
    DecodeFixedFits(a[|a| - 8..]);
    DecodeFixedFits(b[|b| - 8..]);
    assert a == UserKey(a) + a[|a| - 8..] && b == UserKey(b) + b[|b| - 8..];
  }

  lemma InternalTransitive(a: Bytes, b: Bytes, c: Bytes)
    requires InternalLess(a, b) && InternalLess(b, c)
    ensures InternalLess(a, c)
  {
    if |b| < 8 && |c| < 8 { BytesTransitive(a, b, c); }
    if |a| >= 8 && |b| >= 8 && |c| >= 8 && BytesLess(UserKey(a), UserKey(b)) && BytesLess(UserKey(b), UserKey(c)) {
      BytesTransitive(UserKey(a), UserKey(b), UserKey(c));
    }
  }

  lemma InternalIsOrder()
    ensures IsOrder(InternalLess)
  {
    hide InternalLess;
    forall a: Bytes, b: Bytes ensures InternalLess(a, b) || InternalLess(b, a) || a == b { InternalTotal(a, b); }
    forall a: Bytes ensures !InternalLess(a, a) { InternalTotal(a, a); }
    forall a: Bytes, b: Bytes, c: Bytes | InternalLess(a, b) && InternalLess(b, c) ensures InternalLess(a, c) {
      InternalTransitive(a, b, c);
    }
  }

  /** Internal keys as byte strings are ordered as the engine's internal keys are. */
  lemma InternalOrderIsBefore(u: Bytes, s: nat, t: nat, u': Bytes, s': nat, t': nat)
    requires s <= Entries.MAX_SEQUENCE && s' <= Entries.MAX_SEQUENCE && t < 256 && t' < 256
    ensures InternalLess(InternalKey(u, s, t), InternalKey(u', s', t')) <==>
      Entries.Before(Entries.IKey(Rank(u), s, t), Entries.IKey(Rank(u'), s', t'))
  {
    InternalKeyParts(u, s, t);
    InternalKeyParts(u', s', t');
    RankOrder(u, u');
    hide InternalKey, Rank, Trailer, UserKey;
    Entries.PackedOrder(Entries.IKey(Rank(u), s, t), Entries.IKey(Rank(u'), s', t'));
  }

  // ----- Shortened keys -----

  lemma {:induction false} LessAtDifference(a: Bytes, b: Bytes, n: nat)
    requires n < |a| && n < |b| && a[..n] == b[..n] && a[n] < b[n]
    ensures BytesLess(a, b)
  {
    if n > 0 {
      assert a[0] == a[..n][0] == b[..n][0] == b[0];
      assert a[1..][..n - 1] == a[..n][1..] && b[1..][..n - 1] == b[..n][1..];
      LessAtDifference(a[1..], b[1..], n - 1);
    }
  }

  // The strings first differ at d, with a byte to spare in between.
  predicate DifferAt(start: Bytes, limit: Bytes, d: nat) {
    d < |start| && d < |limit| && start[..d] == limit[..d] && start[d] as nat + 1 < limit[d] as nat
  }

  lemma {:induction false} BetweenIsLonger(start: Bytes, limit: Bytes, d: nat, s: Bytes)
    requires d < |start| && d < |limit| && start[..d] == limit[..d] && BytesLess(start, s) && BytesLess(s, limit)
    ensures |s| > d
  {
    if d > 0 {
      assert start[0] == start[..d][0] == limit[..d][0] == limit[0];
      assert start[1..][..d - 1] == start[..d][1..] && limit[1..][..d - 1] == limit[..d][1..];
      BetweenIsLonger(start[1..], limit[1..], d - 1, s[1..]);
    }
  }

  lemma OneDifference(start: Bytes, limit: Bytes, d: nat, e: nat)
    requires DifferAt(start, limit, d) && e <= |start| && e <= |limit| && start[..e] == limit[..e]
    requires e < |start| && e < |limit| ==> start[e] != limit[e]
    ensures d == e
  {
    SameBefore(start, limit, e, d);
    if e < |start| && e < |limit| { SameBefore(start, limit, d, e); }
  }

  lemma SameBefore(a: Bytes, b: Bytes, n: nat, i: nat)
    requires n <= |a| && n <= |b| && a[..n] == b[..n] && i < |a| && i < |b|
    ensures i < n ==> a[i] == b[i]
  {
    if i < n { assert a[i] == a[..n][i] == b[..n][i]; }
  }

  /** BytewiseComparator::FindShortestSeparator: cut after the first difference when there is a byte
      to spare there, and then as short as anything in between; otherwise unchanged. */
  method ShortestSeparator(start: Bytes, limit: Bytes) returns (r: Bytes)
    ensures r == start || (BytesLess(start, r) && BytesLess(r, limit) && |r| <= |start|)
    ensures forall d: nat :: DifferAt(start, limit, d) ==> |r| == d + 1 && r != start
    ensures r != start ==> exists d: nat :: DifferAt(start, limit, d)
    ensures r != start ==> forall s :: BytesLess(start, s) && BytesLess(s, limit) ==> |r| <= |s|
  {
    var minLength := if |start| < |limit| then |start| else |limit|;
    var diff := 0;
    while diff < minLength && start[diff] == limit[diff]
      invariant diff <= minLength && start[..diff] == limit[..diff]
    {
      assert start[..diff + 1] == start[..diff] + [start[diff]] && limit[..diff + 1] == limit[..diff] + [limit[diff]];
      diff := diff + 1;
    }
    r := start;
    forall d: nat | DifferAt(start, limit, d) ensures d == diff { OneDifference(start, limit, d, diff); }
    if diff >= minLength {
      // one string is a prefix of the other
    } else if start[diff] < 255 && start[diff] + 1 < limit[diff] {
      r := start[..diff] + [start[diff] + 1];
      assert r[..diff] == start[..diff] && r[diff] != start[diff];
      LessAtDifference(start, r, diff);
      LessAtDifference(r, limit, diff);
      forall s | BytesLess(start, s) && BytesLess(s, limit) ensures |r| <= |s| { BetweenIsLonger(start, limit, diff, s); }
      assert DifferAt(start, limit, diff);
    }
  }

  lemma {:induction false} GreaterIsLonger(key: Bytes, i: nat, s: Bytes)
    requires i <= |key| && (forall j :: 0 <= j < i ==> key[j] == 255) && BytesLess(key, s)
    ensures |s| > i
  {
    if i > 0 { GreaterIsLonger(key[1..], i - 1, s[1..]); }
  }

  /** FindShortSuccessor: no string after the key is shorter, and only a run of 0xff is left alone. */
  method ShortSuccessor(key: Bytes) returns (r: Bytes)
    ensures r == key || (BytesLess(key, r) && |r| <= |key|)
    ensures forall s :: BytesLess(key, s) ==> |r| <= |s|
    ensures r == key <==> forall i :: 0 <= i < |key| ==> key[i] == 255
  {
    r := key;
    for i := 0 to |key|
      invariant forall j :: 0 <= j < i ==> key[j] == 255
    {
      if key[i] != 255 {
        r := key[..i] + [key[i] + 1];
        assert r[..i] == key[..i] && r[i] != key[i];
        LessAtDifference(key, r, i);
        forall s | BytesLess(key, s) ensures |r| <= |s| { GreaterIsLonger(key, i, s); }
        return;
      }
    }
    forall s | BytesLess(key, s) ensures |r| <= |s| { GreaterIsLonger(key, |key|, s); }
  }

  // The first internal key of a user key.
  function FirstOf(user: Bytes): Bytes { InternalKey(user, Entries.MAX_SEQUENCE, 1) }

  // r separates start from limit, and if it was shortened, even by user key.
  ghost predicate Separates(start: Bytes, limit: Bytes, r: Bytes)
    requires |start| >= 8 && |limit| >= 8
  {
    || r == start
    || (|r| >= 8 && BytesLess(UserKey(start), UserKey(r)) && BytesLess(UserKey(r), UserKey(limit)))
  }

  /** InternalKeyComparator::FindShortestSeparator. */
  method FindShortestSeparator(start: Bytes, limit: Bytes) returns (r: Bytes)
    requires |start| >= 8 && |limit| >= 8
    ensures Separates(start, limit, r) && |r| <= |start|
    ensures forall d: nat :: DifferAt(UserKey(start), UserKey(limit), d) && d + 9 < |start| ==> |r| == d + 9 && r != start
    ensures r != start ==> r == FirstOf(UserKey(r)) && exists d: nat :: DifferAt(UserKey(start), UserKey(limit), d) && d + 9 < |start|
  {
    hide InternalKey, BytesLess;
    var tmp := ShortestSeparator(UserKey(start), UserKey(limit));
    InternalKeyParts(tmp, Entries.MAX_SEQUENCE, 1);
    r := start;
    if |tmp| < |start| - 8 && BytesLess(UserKey(start), tmp) {
      r := FirstOf(tmp);
      LengthOfFirst(tmp);
    }
  }

  lemma LengthOfFirst(user: Bytes)
    ensures |FirstOf(user)| == |user| + 8
  {
  }

  /** InternalKeyComparator::FindShortSuccessor. */
  method FindShortSuccessor(key: Bytes) returns (r: Bytes)
    requires |key| >= 8
    ensures |r| <= |key| && (r == key || (|r| >= 8 && BytesLess(UserKey(key), UserKey(r)) && r == FirstOf(UserKey(r))))
    ensures forall s :: BytesLess(UserKey(key), s) ==> |r| <= |s| + 8
  {
    hide InternalKey, BytesLess;
    var tmp := ShortSuccessor(UserKey(key));
    InternalKeyParts(tmp, Entries.MAX_SEQUENCE, 1);
    r := key;
    if |tmp| < |key| - 8 && BytesLess(UserKey(key), tmp) {
      r := FirstOf(tmp);
      LengthOfFirst(tmp);
    }
  }

  lemma SeparatesInOrder(start: Bytes, limit: Bytes, r: Bytes)
    requires |start| >= 8 && |limit| >= 8 && InternalLess(start, limit) && Separates(start, limit, r)
    ensures |r| >= 8 && !InternalLess(r, start) && InternalLess(r, limit)
  {
    InternalTotal(r, start);
    if r != start { BytesTotal(UserKey(r), UserKey(start)); }
  }
}
