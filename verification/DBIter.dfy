/** The client-visible iterator: collapses entries per user key, hides deletions and newer writes. */
module DBIterators {
  import opened Entries
  import opened Cursors

  // ----- The view a client iterates over -----

  predicate Acceptable(es: seq<Entry>, s: nat, i: nat)
    requires i < |es|
  {
    es[i].key.Parses() && es[i].key.sn <= s
  }

  // es[i] is the newest acceptable entry of its user key, and it is not a deletion.
  ghost predicate IsLive(es: seq<Entry>, s: nat, i: nat)
    requires i < |es|
  {
    && Acceptable(es, s, i) && es[i].key.tag == TYPE_VALUE
    && forall j :: 0 <= j < i && Acceptable(es, s, j) ==> es[j].key.user != es[i].key.user
  }

  ghost function Live(es: seq<Entry>, s: nat, n: nat): seq<nat>
    requires n <= |es|
  {
    if n == 0 then []
    else if IsLive(es, s, n - 1) then Live(es, s, n - 1) + [n - 1]
    else Live(es, s, n - 1)
  }

  /** The sorted list of live keys and their values at sequence s. */
  ghost function View(es: seq<Entry>, s: nat): (v: seq<(UserKey, Value)>)
    ensures |v| == |Live(es, s, |es|)|
  {
    LiveInRange(es, s, |es|);
    var live := Live(es, s, |es|);
    seq(|live|, i requires 0 <= i < |live| => (es[live[i]].key.user, es[live[i]].value))
  }

  // Number of live keys among the first n entries: the view position of entry n.
  ghost function Rank(es: seq<Entry>, s: nat, n: nat): nat
    requires n <= |es|
  {
    |Live(es, s, n)|
  }

  lemma {:induction false} LiveInRange(es: seq<Entry>, s: nat, n: nat)
    requires n <= |es|
    ensures forall i :: 0 <= i < Rank(es, s, n) ==>
      Live(es, s, n)[i] < n && IsLive(es, s, Live(es, s, n)[i]) && Rank(es, s, Live(es, s, n)[i]) == i
  {
    if n > 0 { LiveInRange(es, s, n - 1); }
  }

  lemma {:induction false} LivePrefix(es: seq<Entry>, s: nat, m: nat, n: nat)
    requires m <= n <= |es|
    ensures Live(es, s, m) <= Live(es, s, n)
    decreases n - m
  {
    if m < n { LivePrefix(es, s, m, n - 1); }
  }

  lemma {:induction false} NoLiveBetween(es: seq<Entry>, s: nat, m: nat, n: nat)
    requires m <= n <= |es|
    requires forall i :: m <= i < n ==> !IsLive(es, s, i)
    ensures Live(es, s, m) == Live(es, s, n)
    decreases n - m
  {
    if m < n { NoLiveBetween(es, s, m, n - 1); }
  }

  // A live entry sits in the view at its rank, and the next live entry one place on.
  lemma LiveAtRank(es: seq<Entry>, s: nat, i: nat)
    requires i < |es| && IsLive(es, s, i)
    ensures Rank(es, s, i) < |View(es, s)|
    ensures View(es, s)[Rank(es, s, i)] == (es[i].key.user, es[i].value)
    ensures Rank(es, s, i + 1) == Rank(es, s, i) + 1
  {
    LivePrefix(es, s, i + 1, |es|);
  }

  ghost function Parsed(es: seq<Entry>): set<Entry> { set e | e in es && e.key.Parses() }

  lemma ViewSorted(es: seq<Entry>, s: nat)
    requires Sorted(es)
    ensures forall i, j :: 0 <= i < j < |View(es, s)| ==> View(es, s)[i].0 < View(es, s)[j].0
  {
    var live := Live(es, s, |es|);
    LiveInRange(es, s, |es|);
    forall i, j | 0 <= i < j < |live| ensures es[live[i]].key.user < es[live[j]].key.user {
      if live[j] <= live[i] { LivePrefix(es, s, live[j], live[i]); }
      assert Acceptable(es, s, live[i]) && IsLive(es, s, live[j]);
      assert Before(es[live[i]].key, es[live[j]].key);
    }
  }

  lemma LiveIsNewest(es: seq<Entry>, s: nat, i: nat)
    requires Sorted(es) && i < |es| && IsLive(es, s, i)
    ensures Newest(Parsed(es), es[i].key.user, s, es[i])
  {
    var db := Parsed(es);
    forall f | f in db && f.key.user == es[i].key.user && f.key.sn <= s
      ensures f.key.sn <= es[i].key.sn
    {
      var j :| 0 <= j < |es| && es[j] == f;
      assert Acceptable(es, s, j);
      if j > i { assert Before(es[i].key, es[j].key); }
    }
  }

  lemma NewestIsLive(es: seq<Entry>, s: nat, i: nat)
    requires Sorted(es) && Distinct(Elements(es)) && i < |es| && es[i].key.tag == TYPE_VALUE
    requires Newest(Parsed(es), es[i].key.user, s, es[i])
    ensures IsLive(es, s, i)
  {
    forall j | 0 <= j < i && Acceptable(es, s, j) ensures es[j].key.user != es[i].key.user {
      assert Before(es[j].key, es[i].key);
      if es[j].key.user == es[i].key.user {
      }
    }
  }

  /** The view is what point reads answer: strictly sorted, and (u, v) is in it exactly when
      reading u at s finds v among the entries that parse. */
  lemma ViewIsReads(es: seq<Entry>, s: nat, u: UserKey, v: Value)
    requires Sorted(es) && Distinct(Elements(es))
    ensures forall i, j :: 0 <= i < j < |View(es, s)| ==> View(es, s)[i].0 < View(es, s)[j].0
    ensures (u, v) in View(es, s) <==> Read(Parsed(es), u, s) == Found(v)
  {
    ViewSorted(es, s);
    LiveInRange(es, s, |es|);
    assert Distinct(Parsed(es)) by { assert Parsed(es) <= Elements(es); }
    if (u, v) in View(es, s) {
      var i :| 0 <= i < |View(es, s)| && View(es, s)[i] == (u, v);
      LiveIsNewest(es, s, Live(es, s, |es|)[i]);
      ReadIs(Parsed(es), u, s, es[Live(es, s, |es|)[i]]);
    }
    if Read(Parsed(es), u, s) == Found(v) {
      var e :| Newest(Parsed(es), u, s, e) && AnswerOf(e) == Found(v);
      var i :| 0 <= i < |es| && es[i] == e;
      NewestIsLive(es, s, i);
      LiveAtRank(es, s, i);
    }
  }

  // ----- Scanning -----

  // Some key among those from lo up to hi does not parse.
  ghost predicate Unparsed(es: seq<Entry>, lo: nat, hi: nat) { exists i :: lo <= i < hi && i < |es| && !es[i].key.Parses() }

  lemma UnparsedStep(es: seq<Entry>, lo: nat, hi: nat)
    ensures lo >= hi ==> !Unparsed(es, lo, hi)
    ensures lo < |es| ==> (Unparsed(es, lo, hi) <==> (lo < hi && !es[lo].key.Parses()) || Unparsed(es, lo + 1, hi))
    ensures lo <= hi < |es| ==> (Unparsed(es, lo, hi + 1) <==> Unparsed(es, lo, hi) || !es[hi].key.Parses())
  {
  }

  // Where the forward scan from p stops: at an acceptable value that is not to be skipped.
  function ScanForward(es: seq<Entry>, s: nat, p: nat, skipping: bool, skip: UserKey): (end: nat)
    requires p <= |es|
    ensures p <= end <= |es|
    decreases |es| - p
  {
    if p == |es| || (Acceptable(es, s, p) && es[p].key.tag == TYPE_VALUE && !(skipping && es[p].key.user <= skip)) then
      p
    else
      var deletion := Acceptable(es, s, p) && es[p].key.tag == TYPE_DELETION;
      ScanForward(es, s, p + 1, skipping || deletion, if deletion then es[p].key.user else skip)
  }

  // Acceptable entries before p are of a key to skip or of a key before those still to come,
  // and acceptable entries to come are not before the key to skip.
  ghost predicate ScanReady(es: seq<Entry>, s: nat, p: nat, skipping: bool, skip: UserKey) {
    && (p < |es| ==> forall j :: 0 <= j < p && Acceptable(es, s, j) ==>
          (skipping && es[j].key.user <= skip) || es[j].key.user < es[p].key.user)
    && (skipping ==> forall k :: p <= k < |es| && Acceptable(es, s, k) ==> skip <= es[k].key.user)
  }

  lemma ScanReadyStep(es: seq<Entry>, s: nat, p: nat, skipping: bool, skip: UserKey)
    requires Sorted(es) && p < |es| && ScanReady(es, s, p, skipping, skip)
    ensures !Acceptable(es, s, p) || (skipping && es[p].key.user <= skip) ==>
      ScanReady(es, s, p + 1, skipping, skip)
    ensures Acceptable(es, s, p) ==> ScanReady(es, s, p + 1, true, es[p].key.user)
  {
    assert forall k :: p < k < |es| ==> Before(es[p].key, es[k].key);
    assert forall j :: 0 <= j < p ==> Before(es[j].key, es[p].key);
  }

  // What the scan makes of the entry it is at, and of those to come of the same key or one to skip.
  lemma ScanHere(es: seq<Entry>, s: nat, p: nat, skipping: bool, skip: UserKey)
    requires Sorted(es) && p < |es| && ScanReady(es, s, p, skipping, skip)
    ensures Acceptable(es, s, p) && es[p].key.tag == TYPE_VALUE && !(skipping && es[p].key.user <= skip) ==> IsLive(es, s, p)
    ensures !Acceptable(es, s, p) || es[p].key.tag == TYPE_DELETION ==> !IsLive(es, s, p)
    ensures Acceptable(es, s, p) && es[p].key.tag == TYPE_DELETION ==> forall i :: p < i < |es| && es[i].key.user <= es[p].key.user ==> !IsLive(es, s, i)
    ensures Acceptable(es, s, p) ==> es[p].key.tag == TYPE_VALUE || es[p].key.tag == TYPE_DELETION
    ensures skipping && Acceptable(es, s, p) ==> skip <= es[p].key.user
  {
    assert forall k :: p < k < |es| ==> Before(es[p].key, es[k].key);
  }

  /** A forward scan stops at the next live entry whose key is not to be skipped. */
  lemma {:induction false} ScanForwardFindsLive(es: seq<Entry>, s: nat, p: nat, skipping: bool, skip: UserKey)
    requires Sorted(es) && p <= |es| && ScanReady(es, s, p, skipping, skip)
    ensures var end := ScanForward(es, s, p, skipping, skip);
      && (end < |es| ==> IsLive(es, s, end) && !(skipping && es[end].key.user <= skip))
      && forall i :: p <= i < end && !(skipping && es[i].key.user <= skip) ==> !IsLive(es, s, i)
    decreases |es| - p
  {
    if p < |es| {
      ScanReadyStep(es, s, p, skipping, skip);
      ScanHere(es, s, p, skipping, skip);
      hide Sorted, ScanReady, IsLive;
      if Acceptable(es, s, p) && es[p].key.tag == TYPE_DELETION {
        ScanForwardFindsLive(es, s, p + 1, true, es[p].key.user);
      } else if !Acceptable(es, s, p) || (skipping && es[p].key.user <= skip) {
        ScanForwardFindsLive(es, s, p + 1, skipping, skip);
      }
    }
  }

  // A backward scan: `at` is the last entry taken into saved_key_ and saved_value_ (or none
  // after a deletion), `rest` counts the entries not yet passed.
  datatype Back = Back(rest: nat, at: nat, found: bool)

  // Where the backward scan ends with n entries still to look at.
  function ScanBackward(es: seq<Entry>, s: nat, n: nat, at: nat, found: bool): (r: Back)
    requires n <= |es| && (found ==> at < |es|)
    ensures r.found ==> r.at < |es|
    ensures r.rest <= n
  {
    if n == 0 || (Acceptable(es, s, n - 1) && found && es[n - 1].key.user < es[at].key.user) then
      Back(n, at, found)
    else if !Acceptable(es, s, n - 1) then
      ScanBackward(es, s, n - 1, at, found)
    else
      var isValue := es[n - 1].key.tag == TYPE_VALUE;
      ScanBackward(es, s, n - 1, if isValue then n - 1 else 0, isValue)
  }

  lemma CandidateIsLive(es: seq<Entry>, s: nat, n: nat, at: nat)
    requires Sorted(es) && Candidate(es, s, n, at)
    requires n > 0 ==> es[n - 1].key.user < es[at].key.user
    ensures IsLive(es, s, at) && Behind(es, s, n, at)
  {
    assert forall i :: 0 <= i < n - 1 ==> Before(es[i].key, es[n - 1].key);
  }

  lemma CandidateInRange(es: seq<Entry>, s: nat, n: nat, at: nat)
    requires Candidate(es, s, n, at)
    ensures n <= at < |es|
  {
  }

  lemma CandidateStep(es: seq<Entry>, s: nat, n: nat, at: nat)
    requires 0 < n <= |es|
    ensures Candidate(es, s, n, at) && !Acceptable(es, s, n - 1) ==> Candidate(es, s, n - 1, at)
    ensures Acceptable(es, s, n - 1) && es[n - 1].key.tag == TYPE_VALUE ==> Candidate(es, s, n - 1, n - 1)
    ensures Acceptable(es, s, n - 1) ==> es[n - 1].key.tag == TYPE_VALUE || es[n - 1].key.tag == TYPE_DELETION
  {
  }

  // A backward scan ends on a live entry, standing behind it ...
  lemma {:induction false} ScanBackwardFinds(es: seq<Entry>, s: nat, n: nat, at: nat, found: bool)
    requires Sorted(es) && n <= |es|
    requires found ==> Candidate(es, s, n, at)
    ensures var r := ScanBackward(es, s, n, at, found);
      r.found ==> IsLive(es, s, r.at) && Behind(es, s, r.rest, r.at) && (r.at < n || (found && r.at == at))
  {
    if n > 0 { CandidateStep(es, s, n, at); }
    hide Sorted, IsLive, Behind, Candidate, Acceptable;
    if n == 0 || (found && Acceptable(es, s, n - 1) && es[n - 1].key.user < es[at].key.user) {
      if found {
        CandidateInRange(es, s, n, at);
        CandidateIsLive(es, s, n, at);
      }
    } else if !Acceptable(es, s, n - 1) {
      ScanBackwardFinds(es, s, n - 1, at, found);
    } else if es[n - 1].key.tag == TYPE_DELETION {
      ScanBackwardFinds(es, s, n - 1, 0, false);
    } else {
      ScanBackwardFinds(es, s, n - 1, n - 1, true);
    }
  }

  // ... and passes over no other live entry, the one in hand included.
  lemma {:induction false} ScanBackwardMissesNone(es: seq<Entry>, s: nat, n: nat, at: nat, found: bool)
    requires Sorted(es) && n <= |es|
    requires found ==> Candidate(es, s, n, at)
    ensures var r := ScanBackward(es, s, n, at, found);
      && (forall i :: 0 <= i < n && (r.found ==> r.at < i) ==> !IsLive(es, s, i))
      && (found && (r.found ==> r.at < at) ==> !IsLive(es, s, at))
  {
    if n > 0 {
      if !Acceptable(es, s, n - 1) {
        ScanBackwardMissesNone(es, s, n - 1, at, found);
      } else if found && es[n - 1].key.user < es[at].key.user {
      } else {
        if found { assert Before(es[n - 1].key, es[at].key); }
        if es[n - 1].key.tag == TYPE_DELETION {
          ScanBackwardMissesNone(es, s, n - 1, 0, false);
        } else {
          ScanBackwardMissesNone(es, s, n - 1, n - 1, true);
        }
      }
    }
  }

  // A value taken in hand with nothing acceptable between it and the entries still to look at.
  ghost predicate Candidate(es: seq<Entry>, s: nat, n: nat, at: nat) {
    && n <= at < |es| && Acceptable(es, s, at) && es[at].key.tag == TYPE_VALUE
    && forall i :: n <= i < at ==> !Acceptable(es, s, i)
  }

  // With n entries left behind it, a backward-moving iterator has left exactly those of
  // keys before that of live entry c which matter: the n-th is the last acceptable one.
  ghost predicate Behind(es: seq<Entry>, s: nat, n: nat, c: nat) {
    && n <= c < |es|
    && (forall i :: n <= i < c ==> !Acceptable(es, s, i))
    && (n > 0 ==> es[n - 1].key.user < es[c].key.user)
  }

  lemma NextFromHere(es: seq<Entry>, s: nat, c: nat, p: nat)
    requires Sorted(es) && p <= c < |es| && IsLive(es, s, c)
    requires forall i :: p <= i < c ==> !Acceptable(es, s, i)
    ensures var end := ScanForward(es, s, p, true, es[c].key.user);
      && (end < |es| ==> IsLive(es, s, end))
      && Rank(es, s, end) == Rank(es, s, c) + 1
  {
    var skip := es[c].key.user;
    assert forall i, j :: 0 <= i < j < |es| ==> Before(es[i].key, es[j].key);
    ScanForwardFindsLive(es, s, p, true, skip);
    var end := ScanForward(es, s, p, true, skip);
    assert end > c by {
      assert forall i :: 0 <= i <= c ==> es[i].key.user <= skip;
    }
    forall i | c < i < end ensures !IsLive(es, s, i) {
      if es[i].key.user <= skip { assert Acceptable(es, s, c); }
    }
    LiveAtRank(es, s, c);
    NoLiveBetween(es, s, c + 1, end);
  }

  lemma PrevFromHere(es: seq<Entry>, s: nat, c: nat, n: nat)
    requires Sorted(es) && Behind(es, s, n, c) && IsLive(es, s, c)
    ensures var r := ScanBackward(es, s, n, 0, false);
      && (r.found ==> IsLive(es, s, r.at) && Behind(es, s, r.rest, r.at) && Rank(es, s, r.at) + 1 == Rank(es, s, c))
      && (!r.found ==> Rank(es, s, c) == 0)
  {
    ScanBackwardFinds(es, s, n, 0, false);
    ScanBackwardMissesNone(es, s, n, 0, false);
    var r := ScanBackward(es, s, n, 0, false);
    if r.found {
      LiveAtRank(es, s, r.at);
      NoLiveBetween(es, s, r.at + 1, c);
    } else {
      NoLiveBetween(es, s, 0, c);
    }
  }

  lemma FirstKeyHasRankZero(es: seq<Entry>, s: nat, c: nat)
    requires Sorted(es) && c < |es| && IsLive(es, s, c) && es[0].key.user == es[c].key.user
    ensures Rank(es, s, c) == 0
  {
    assert forall i, j :: 0 <= i < j < |es| ==> Before(es[i].key, es[j].key);
    assert forall i :: 0 <= i < c ==> !Acceptable(es, s, i);
    NoLiveBetween(es, s, 0, c);
  }

  lemma SeekLands(es: seq<Entry>, s: nat, target: UserKey, p: nat, skip: UserKey)
    requires Sorted(es) && p <= |es|
    requires forall i :: 0 <= i < p ==> Before(es[i].key, IKey(target, s, TYPE_FOR_SEEK))
    requires p < |es| ==> AtOrAfter(es[p].key, IKey(target, s, TYPE_FOR_SEEK))
    ensures var end := ScanForward(es, s, p, false, skip);
      && (end < |es| ==> IsLive(es, s, end) && es[end].key.user >= target)
      && Rank(es, s, end) <= |View(es, s)|
      && forall i :: 0 <= i < Rank(es, s, end) ==> View(es, s)[i].0 < target
  {
    var end := ScanForward(es, s, p, false, skip);
    assert forall i :: p < i < |es| ==> Before(es[p].key, es[i].key);
    ScanForwardFindsLive(es, s, p, false, skip);
    LiveInRange(es, s, end);
    LivePrefix(es, s, end, |es|);
    forall i | 0 <= i < Rank(es, s, end) ensures es[Live(es, s, end)[i]].key.user < target {
      var k := Live(es, s, end)[i];
      assert k < p && Before(es[k].key, IKey(target, s, TYPE_FOR_SEEK));
    }
  }

  lemma SeekToFirstLands(es: seq<Entry>, s: nat, skip: UserKey)
    requires Sorted(es)
    ensures var end := ScanForward(es, s, 0, false, skip);
      (end < |es| ==> IsLive(es, s, end)) && Rank(es, s, end) == 0
  {
    ScanForwardFindsLive(es, s, 0, false, skip);
    NoLiveBetween(es, s, 0, ScanForward(es, s, 0, false, skip));
  }

  lemma SeekToLastLands(es: seq<Entry>, s: nat)
    requires Sorted(es)
    ensures var r := ScanBackward(es, s, |es|, 0, false);
      if r.found then
        IsLive(es, s, r.at) && Behind(es, s, r.rest, r.at) && Rank(es, s, r.at) == |View(es, s)| - 1
      else View(es, s) == []
  {
    ScanBackwardFinds(es, s, |es|, 0, false);
    ScanBackwardMissesNone(es, s, |es|, 0, false);
    var r := ScanBackward(es, s, |es|, 0, false);
    if r.found {
      LiveAtRank(es, s, r.at);
      NoLiveBetween(es, s, r.at + 1, |es|);
    } else {
      NoLiveBetween(es, s, 0, |es|);
    }
  }

  // ----- The iterator -----

  class DBIter {
    const iter: Cursor
    const sequence: nat
    var corrupt: bool            // status_ is a Corruption
    var savedKey: UserKey        // current key when direction is Reverse
    var savedValue: Value        // current value when direction is Reverse
    var direction: Direction
    var valid: bool
    ghost var cur: nat           // index of the entry the iterator stands on

    constructor (it: Cursor, s: nat)
      requires it.Ok()
      ensures Inv() && iter == it && sequence == s && !valid && !corrupt
    {
      iter, sequence, corrupt := it, s, false;
      savedKey, savedValue, direction, valid, cur := 0.0, [], Forward, false, 0;
    }

    // Number of entries at or before the internal iterator's position.
    function Rest(): nat reads this, iter { if iter.Valid() then iter.pos + 1 else 0 }

    // Moving forward the internal iterator is at the entry that yields the current key;
    // moving backwards it is before all entries of the current key.
    ghost predicate Inv()
      reads this, iter
    {
      && iter.Ok()
      && (valid ==> cur < |iter.entries| && IsLive(iter.entries, sequence, cur))
      && (valid && direction == Forward ==> iter.pos == cur)
      && (valid && direction == Reverse ==>
            && savedKey == iter.entries[cur].key.user && savedValue == iter.entries[cur].value
            && Behind(iter.entries, sequence, Rest(), cur))
    }

    ghost function Contents(): seq<(UserKey, Value)>
      reads this, iter
    {
      View(iter.entries, sequence)
    }

    /** The position on the sorted list of live keys; its length when not valid. */
    ghost function At(): nat
      requires Inv()
      reads this, iter
    {
      if valid then Rank(iter.entries, sequence, cur) else |Contents()|
    }

    function Key(): UserKey
      requires valid && (direction == Forward ==> iter.Valid())
      reads this, iter
    {
      if direction == Forward then iter.Key().user else savedKey
    }

    function Val(): Value
      requires valid && (direction == Forward ==> iter.Valid())
      reads this, iter
    {
      if direction == Forward then iter.Val() else savedValue
    }

    lemma Observed()
      requires Inv()
      ensures valid <==> At() < |Contents()|
      ensures valid ==> (Key(), Val()) == Contents()[At()]
    {
      if valid { LiveAtRank(iter.entries, sequence, cur); }
    }

    method ParseKey() returns (ok: bool)
      requires iter.Valid()
      modifies this`corrupt
      ensures ok == iter.Key().Parses()
      ensures corrupt == (old(corrupt) || !ok)
    {
      ok := iter.Key().Parses();
      if !ok { corrupt := true; }
    }

    method FindNextUserEntry(skip0: bool)
      requires iter.Ok() && iter.Valid() && direction == Forward
      modifies this, iter
      ensures iter.Ok() && direction == Forward
      ensures iter.pos == ScanForward(iter.entries, sequence, old(iter.pos), skip0, old(savedKey))
      ensures valid == iter.Valid() && (valid ==> cur == iter.pos)
      ensures AllParse(iter.entries) ==> corrupt == old(corrupt)
      ensures corrupt <==> old(corrupt) || Unparsed(iter.entries, old(iter.pos), if valid then iter.pos else |iter.entries|)
    {
      hide Unparsed;
      var skipping := skip0;
      UnparsedStep(iter.entries, iter.pos, iter.pos);
      ghost var es, end := iter.entries, ScanForward(iter.entries, sequence, iter.pos, skip0, savedKey);
      while iter.Valid()
        invariant iter.Ok() && direction == Forward
        invariant ScanForward(es, sequence, iter.pos, skipping, savedKey) == end
        invariant AllParse(es) ==> corrupt == old(corrupt)
        invariant corrupt <==> old(corrupt) || Unparsed(es, old(iter.pos), iter.pos)
        decreases |es| - iter.pos
      {
        var ok := ParseKey();
        UnparsedStep(es, old(iter.pos), iter.pos);
        if ok && iter.Key().sn <= sequence {
          if iter.Key().tag == TYPE_DELETION {
            savedKey := iter.Key().user;
            skipping := true;
          } else if skipping && iter.Key().user <= savedKey {
            // hidden by a newer entry of the same key
          } else {
            valid, cur := true, iter.pos;
            return;
          }
        }
        iter.Next();
      }
      valid := false;
    }

    method Next()
      requires Inv() && valid
      modifies this, iter
      ensures Inv() && direction == Forward
      ensures At() == old(At()) + 1
      ensures AllParse(iter.entries) ==> corrupt == old(corrupt)
    {
      if direction == Reverse {
        direction := Forward;
        if !iter.Valid() {
          iter.SeekToFirst();
        } else {
          iter.Next();
        }
        if !iter.Valid() {
          assert false;
        }
      } else {
        savedKey := iter.Key().user;
      }
      NextFromHere(iter.entries, sequence, cur, iter.pos);
      FindNextUserEntry(true);
    }

    method Prev()
      requires Inv() && valid
      modifies this, iter
      ensures Inv()
      ensures old(At()) > 0 ==> At() == old(At()) - 1
      ensures old(At()) == 0 ==> !valid
      ensures AllParse(iter.entries) ==> corrupt == old(corrupt)
    {
      if direction == Forward {
        savedKey := iter.Key().user;
        ghost var c := cur;
        while true
          invariant iter.Ok() && iter.Valid() && iter.pos <= c && iter.entries[iter.pos].key.user == savedKey
          invariant direction == Forward && unchanged(`corrupt) && cur == c
          invariant IsLive(iter.entries, sequence, c) && savedKey == iter.entries[c].key.user
          decreases iter.pos
        {
          assert iter.pos > 0 ==> Before(iter.entries[iter.pos - 1].key, iter.entries[iter.pos].key);
          iter.Prev();
          if !iter.Valid() {
            FirstKeyHasRankZero(iter.entries, sequence, c);
            valid := false;
            savedValue := [];
            return;
          }
          if iter.Key().user < savedKey {
            break;
          }
        }
        direction := Reverse;
      }
      PrevFromHere(iter.entries, sequence, cur, Rest());
      FindPrevUserEntry();
    }

    method FindPrevUserEntry()
      requires iter.Ok() && direction == Reverse
      modifies this, iter
      ensures iter.Ok()
      ensures var r := ScanBackward(iter.entries, sequence, old(Rest()), 0, false);
        && valid == r.found
        && (valid ==> && direction == Reverse && Rest() == r.rest && cur == r.at
                      && savedKey == iter.entries[r.at].key.user && savedValue == iter.entries[r.at].value)
      ensures AllParse(iter.entries) ==> corrupt == old(corrupt)
      ensures Rest() <= old(Rest()) && (corrupt <==> old(corrupt) || Unparsed(iter.entries, Rest(), old(Rest())))
    {
      hide Sorted, IsLive, Unparsed;
      var valueType: nat := TYPE_DELETION;
      ghost var es, r := iter.entries, ScanBackward(iter.entries, sequence, Rest(), 0, false);
      ghost var n: nat, at: nat := Rest(), 0;
      UnparsedStep(es, n, n);
      while iter.Valid()
        invariant iter.Ok() && direction == Reverse && n == Rest() && valueType <= TYPE_VALUE
        invariant valueType == TYPE_VALUE ==> at < |es| && savedKey == es[at].key.user && savedValue == es[at].value
        invariant ScanBackward(es, sequence, n, at, valueType == TYPE_VALUE) == r
        invariant AllParse(es) ==> corrupt == old(corrupt)
        invariant n <= old(Rest()) && (corrupt <==> old(corrupt) || Unparsed(es, n, old(Rest())))
        decreases n
      {
        var ok := ParseKey();
        UnparsedStep(es, n - 1, old(Rest()));
        if ok && iter.Key().sn <= sequence {
          if valueType != TYPE_DELETION && iter.Key().user < savedKey {
            break;
          }
          valueType := iter.Key().tag;
          if valueType == TYPE_DELETION {
            savedValue := [];
            at := 0;
          } else {
            savedKey := iter.Key().user;
            savedValue := iter.Val();
            at := n - 1;
          }
        }
        iter.Prev();
        n := n - 1;
      }
      cur := at;
      if valueType == TYPE_DELETION {
        valid := false;
        savedValue := [];
        direction := Forward;
      } else {
        valid := true;
      }
    }

    method Seek(target: UserKey)
      requires iter.Ok()
      modifies this, iter
      ensures Inv() && direction == Forward
      ensures At() <= |Contents()| && forall i :: 0 <= i < At() ==> Contents()[i].0 < target
      ensures valid ==> Key() >= target
      ensures AllParse(iter.entries) ==> corrupt == old(corrupt)
    {
      direction := Forward;
      savedValue := [];
      iter.Seek(IKey(target, sequence, TYPE_FOR_SEEK));
      ghost var p := iter.pos;
      if iter.Valid() {
        FindNextUserEntry(false);
      } else {
        valid := false;
      }
      SeekLands(iter.entries, sequence, target, p, old(savedKey));
    }

    method SeekToFirst()
      requires iter.Ok()
      modifies this, iter
      ensures Inv() && direction == Forward && At() == 0
      ensures AllParse(iter.entries) ==> corrupt == old(corrupt)
    {
      direction := Forward;
      savedValue := [];
      iter.SeekToFirst();
      if iter.Valid() {
        FindNextUserEntry(false);
      } else {
        valid := false;
      }
      SeekToFirstLands(iter.entries, sequence, old(savedKey));
    }

    method SeekToLast()
      requires iter.Ok()
      modifies this, iter
      ensures Inv()
      ensures Contents() == [] ==> !valid
      ensures Contents() != [] ==> At() == |Contents()| - 1
      ensures AllParse(iter.entries) ==> corrupt == old(corrupt)
    {
      direction := Reverse;
      savedValue := [];
      iter.SeekToLast();
      SeekToLastLands(iter.entries, sequence);
      FindPrevUserEntry();
    }
  }
}
