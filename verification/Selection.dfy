/** Choosing the input files of a compaction. */
module Selection {
  import opened Entries
  import opened Versions

  // ----- Files overlapping a range of user keys; None is an open end -----

  predicate BeforeRange(f: File, begin: Option<UserKey>)
    requires f.entries != []
  {
    begin.Some? && Largest(f).user < begin.value
  }

  predicate AfterRange(f: File, end: Option<UserKey>)
    requires f.entries != []
  {
    end.Some? && Smallest(f).user > end.value
  }

  predicate Overlaps(f: File, begin: Option<UserKey>, end: Option<UserKey>)
    requires f.entries != []
  {
    !BeforeRange(f, begin) && !AfterRange(f, end)
  }

  function Overlapping(fs: seq<File>, begin: Option<UserKey>, end: Option<UserKey>): (r: seq<File>)
    requires GoodFiles(fs)
    ensures forall f :: f in r <==> f in fs && f.entries != [] && Overlaps(f, begin, end)
    ensures GoodFiles(r)
  {
    if fs == [] then []
    else
      var rest := Overlapping(fs[..|fs| - 1], begin, end);
      var f := fs[|fs| - 1];
      if Overlaps(f, begin, end) then rest + [f] else rest
  }

  // The file sticks out of the range on neither side.
  predicate Within(f: File, begin: Option<UserKey>, end: Option<UserKey>)
    requires f.entries != []
  {
    && (begin.Some? ==> begin.value <= Smallest(f).user)
    && (end.Some? ==> Largest(f).user <= end.value)
  }

  // The range is closed: whatever overlaps it lies within it.
  predicate Closed(fs: seq<File>, begin: Option<UserKey>, end: Option<UserKey>)
    requires GoodFiles(fs)
  {
    forall i :: 0 <= i < |fs| && Overlaps(fs[i], begin, end) ==> Within(fs[i], begin, end)
  }

  // [b, e] covers [begin, end].
  predicate Covers(b: Option<UserKey>, e: Option<UserKey>, begin: Option<UserKey>, end: Option<UserKey>) {
    && (b.None? || (begin.Some? && b.value <= begin.value))
    && (e.None? || (end.Some? && end.value <= e.value))
  }

  // Files still sticking out of the range on the left, and on the right.
  function CountLeft(fs: seq<File>, begin: Option<UserKey>): nat
    requires GoodFiles(fs)
  {
    if fs == [] then 0
    else (if begin.Some? && Smallest(fs[0]).user < begin.value then 1 else 0) + CountLeft(fs[1..], begin)
  }

  function CountRight(fs: seq<File>, end: Option<UserKey>): nat
    requires GoodFiles(fs)
  {
    if fs == [] then 0
    else (if end.Some? && Largest(fs[0]).user > end.value then 1 else 0) + CountRight(fs[1..], end)
  }

  lemma {:induction false} WideningLeft(fs: seq<File>, b: UserKey, begin: UserKey)
    requires GoodFiles(fs) && b < begin
    ensures CountLeft(fs, Some(b)) <= CountLeft(fs, Some(begin))
    ensures (exists i :: 0 <= i < |fs| && Smallest(fs[i]).user == b) ==> CountLeft(fs, Some(b)) < CountLeft(fs, Some(begin))
  {
    if fs != [] {
      WideningLeft(fs[1..], b, begin);
      if i :| 0 <= i < |fs| && Smallest(fs[i]).user == b {
        if i > 0 { assert Smallest(fs[1..][i - 1]).user == b; }
      }
    }
  }

  lemma {:induction false} WideningRight(fs: seq<File>, e: UserKey, end: UserKey)
    requires GoodFiles(fs) && end < e
    ensures CountRight(fs, Some(e)) <= CountRight(fs, Some(end))
    ensures (exists i :: 0 <= i < |fs| && Largest(fs[i]).user == e) ==> CountRight(fs, Some(e)) < CountRight(fs, Some(end))
  {
    if fs != [] {
      WideningRight(fs[1..], e, end);
      if i :| 0 <= i < |fs| && Largest(fs[i]).user == e {
        if i > 0 { assert Largest(fs[1..][i - 1]).user == e; }
      }
    }
  }

  /** The files of a level that overlap a range.  At level 0 the range is widened, restarting
      the search each time, until it is the least closed range covering the one asked for. */
  method GetOverlappingInputs(fs: seq<File>, level: nat, begin: Option<UserKey>, end: Option<UserKey>)
    returns (inputs: seq<File>, ghost b: Option<UserKey>, ghost e: Option<UserKey>)
    requires GoodFiles(fs)
    ensures inputs == Overlapping(fs, b, e) && Covers(b, e, begin, end)
    ensures level > 0 ==> b == begin && e == end
    ensures level == 0 ==> Closed(fs, b, e)
    ensures forall f :: f in fs && f.entries != [] && Overlaps(f, begin, end) ==> f in inputs
    ensures forall b', e' :: Covers(b', e', begin, end) && Closed(fs, b', e') ==> Covers(b', e', b, e)
  {
    hide Sorted, GoodFile, Before, Overlapping, Closed, CountLeft, CountRight;
    inputs := [];
    var userBegin, userEnd := begin, end;
    var i := 0;
    NoFiles(fs, userBegin, userEnd);
    while i < |fs|
      invariant 0 <= i <= |fs| && inputs == Overlapping(fs[..i], userBegin, userEnd)
      invariant Covers(userBegin, userEnd, begin, end)
      invariant level > 0 ==> userBegin == begin && userEnd == end
      invariant level == 0 ==> Closed(fs[..i], userBegin, userEnd)
      invariant forall b', e' :: Covers(b', e', begin, end) && Closed(fs, b', e') ==> Covers(b', e', userBegin, userEnd)
      decreases CountLeft(fs, userBegin) + CountRight(fs, userEnd), |fs| - i
    {
      var f := fs[i];
      OneMoreFile(fs, i, userBegin, userEnd);
      i := i + 1;
      if BeforeRange(f, userBegin) || AfterRange(f, userEnd) {
        // completely outside the range
      } else {
        inputs := inputs + [f];
        if level == 0 {
          if userBegin.Some? && Smallest(f).user < userBegin.value {
            WideningLeft(fs, Smallest(f).user, userBegin.value);
            Forced(fs, f, begin, end, userBegin, userEnd);
            userBegin := Some(Smallest(f).user);
            inputs := [];
            i := 0;
            NoFiles(fs, userBegin, userEnd);
          } else if userEnd.Some? && Largest(f).user > userEnd.value {
            WideningRight(fs, Largest(f).user, userEnd.value);
            Forced(fs, f, begin, end, userBegin, userEnd);
            userEnd := Some(Largest(f).user);
            inputs := [];
            i := 0;
            NoFiles(fs, userBegin, userEnd);
          }
        }
      }
    }
    assert fs[..i] == fs;
    b, e := userBegin, userEnd;
  }

  lemma NoFiles(fs: seq<File>, b: Option<UserKey>, e: Option<UserKey>)
    requires GoodFiles(fs)
    ensures GoodFiles(fs[..0]) && Overlapping(fs[..0], b, e) == [] && Closed(fs[..0], b, e)
  {
  }

  lemma OneMoreFile(fs: seq<File>, i: nat, b: Option<UserKey>, e: Option<UserKey>)
    requires GoodFiles(fs) && i < |fs|
    ensures GoodFiles(fs[..i]) && GoodFiles(fs[..i + 1]) && GoodFile(fs[i]) && fs[i].entries != []
    ensures Overlapping(fs[..i + 1], b, e) == Overlapping(fs[..i], b, e) + if Overlaps(fs[i], b, e) then [fs[i]] else []
    ensures Closed(fs[..i + 1], b, e) <==> Closed(fs[..i], b, e) && (Overlaps(fs[i], b, e) ==> Within(fs[i], b, e))
  {
    assert fs[..i + 1][..i] == fs[..i];
    forall j | 0 <= j < i ensures fs[..i + 1][j] == fs[..i][j] {}
  }

  // A file overlapping the range so far lies within every closed range that covers it.
  lemma Forced(fs: seq<File>, f: File, begin: Option<UserKey>, end: Option<UserKey>, b: Option<UserKey>, e: Option<UserKey>)
    requires GoodFiles(fs) && f in fs && Overlaps(f, b, e)
    requires forall b', e' :: Covers(b', e', begin, end) && Closed(fs, b', e') ==> Covers(b', e', b, e)
    ensures forall b', e' :: Covers(b', e', begin, end) && Closed(fs, b', e') ==> Within(f, b', e')
  {
    var i :| 0 <= i < |fs| && fs[i] == f;
    forall b', e' | Covers(b', e', begin, end) && Closed(fs, b', e') ensures Within(f, b', e') {
      assert Overlaps(fs[i], b', e');
    }
  }

  // ----- Boundary files -----

  predicate IsLargestKey(fs: seq<File>, k: IKey)
    requires GoodFiles(fs)
  {
    && (exists i :: 0 <= i < |fs| && Largest(fs[i]) == k)
    && forall i :: 0 <= i < |fs| ==> !Before(k, Largest(fs[i]))
  }

  predicate IsSmallestKey(fs: seq<File>, k: IKey)
    requires GoodFiles(fs)
  {
    && (exists i :: 0 <= i < |fs| && Smallest(fs[i]) == k)
    && forall i :: 0 <= i < |fs| ==> !Before(Smallest(fs[i]), k)
  }

  method FindLargestKey(fs: seq<File>) returns (k: Option<IKey>)
    requires GoodFiles(fs)
    ensures k.None? <==> fs == []
    ensures k.Some? ==> IsLargestKey(fs, k.value)
  {
    if fs == [] { return None; }
    var largest := Largest(fs[0]);
    for i := 1 to |fs|
      invariant exists j :: 0 <= j < i && Largest(fs[j]) == largest
      invariant forall j :: 0 <= j < i ==> !Before(largest, Largest(fs[j]))
    {
      if Before(largest, Largest(fs[i])) {
        largest := Largest(fs[i]);
      }
    }
    k := Some(largest);
  }

  method GetRange(fs: seq<File>) returns (smallest: IKey, largest: IKey)
    requires GoodFiles(fs) && fs != []
    ensures IsSmallestKey(fs, smallest) && IsLargestKey(fs, largest)
  {
    smallest, largest := Smallest(fs[0]), Largest(fs[0]);
    for i := 1 to |fs|
      invariant exists j :: 0 <= j < i && Smallest(fs[j]) == smallest
      invariant exists j :: 0 <= j < i && Largest(fs[j]) == largest
      invariant forall j :: 0 <= j < i ==> !Before(Smallest(fs[j]), smallest) && !Before(largest, Largest(fs[j]))
    {
      if Before(Smallest(fs[i]), smallest) {
        smallest := Smallest(fs[i]);
      }
      if Before(largest, Largest(fs[i])) {
        largest := Largest(fs[i]);
      }
    }
  }

  // The file starts after k on the same user key.
  predicate Boundary(f: File, k: IKey)
    requires f.entries != []
  {
    Before(k, Smallest(f)) && Smallest(f).user == k.user
  }

  method FindSmallestBoundaryFile(fs: seq<File>, k: IKey) returns (r: Option<File>)
    requires GoodFiles(fs)
    ensures r.None? <==> forall i :: 0 <= i < |fs| ==> !Boundary(fs[i], k)
    ensures r.Some? ==>
      && r.value in fs && r.value.entries != [] && Boundary(r.value, k)
      && forall i :: 0 <= i < |fs| && Boundary(fs[i], k) ==> !Before(Smallest(fs[i]), Smallest(r.value))
  {
    r := None;
    for i := 0 to |fs|
      invariant r.None? <==> forall j :: 0 <= j < i ==> !Boundary(fs[j], k)
      invariant r.Some? ==>
        && r.value in fs && r.value.entries != [] && Boundary(r.value, k)
        && forall j :: 0 <= j < i && Boundary(fs[j], k) ==> !Before(Smallest(fs[j]), Smallest(r.value))
    {
      if Boundary(fs[i], k) {
        if r.None? || Before(Smallest(fs[i]), Smallest(r.value)) {
          r := Some(fs[i]);
        }
      }
    }
  }

  predicate Precedes(f: File, g: File)
    requires f.entries != [] && g.entries != []
  {
    Before(Largest(f), Smallest(g))
  }

  // No file of the level left out of `picked` lies among them: at level 0 it shares no user
  // key range with any of them, deeper down it precedes or follows them all.
  ghost predicate Convex(fs: seq<File>, level: nat, picked: seq<File>)
    requires GoodFiles(fs)
  {
    && (forall g :: g in picked ==> g in fs)
    && if level == 0 then
         forall f, g :: f in fs && f !in picked && g in picked && f.entries != [] && g.entries != [] ==>
           Largest(f).user < Smallest(g).user || Largest(g).user < Smallest(f).user
       else
         forall f :: f in fs && f !in picked && f.entries != [] ==> PrecedesAll(f, picked) || FollowsAll(f, picked)
  }

  predicate PrecedesAll(f: File, picked: seq<File>)
    requires f.entries != []
  {
    forall g :: g in picked && g.entries != [] ==> Precedes(f, g)
  }

  predicate FollowsAll(f: File, picked: seq<File>)
    requires f.entries != []
  {
    forall g :: g in picked && g.entries != [] ==> Precedes(g, f)
  }

  // Level-0 files in any order, each once; files of other levels in the level's order.
  predicate Listed(level: nat, fs: seq<File>)
    requires GoodFiles(fs)
  {
    if level == 0 then Different(fs) else Disjoint(fs)
  }

  predicate Different(fs: seq<File>) { forall i, j :: 0 <= i < j < |fs| ==> fs[i] != fs[j] }

  lemma LevelListed(v: Version, l: nat)
    requires LevelOrder(v) && l < NUM_LEVELS
    ensures GoodFiles(v[l]) && Listed(l, v[l])
  {
  }

  lemma ListedDiffer(level: nat, fs: seq<File>)
    requires GoodFiles(fs) && Listed(level, fs)
    ensures Different(fs)
  {
    if level > 0 {
      forall i, j | 0 <= i < j < |fs| ensures fs[i] != fs[j] {
        WithinFile(fs[i], fs[i].entries[0]);
      }
    }
  }

  lemma {:induction false} OverlappingDiffers(fs: seq<File>, b: Option<UserKey>, e: Option<UserKey>)
    requires GoodFiles(fs) && Different(fs)
    ensures Different(Overlapping(fs, b, e))
  {
    if fs != [] {
      var init := fs[..|fs| - 1];
      OverlappingDiffers(init, b, e);
      forall i | 0 <= i < |Overlapping(init, b, e)| ensures Overlapping(init, b, e)[i] != fs[|fs| - 1] {
        assert Overlapping(init, b, e)[i] in Overlapping(init, b, e);
      }
    }
  }

  lemma {:induction false} OverlappingInOrder(fs: seq<File>, b: Option<UserKey>, e: Option<UserKey>)
    requires GoodFiles(fs) && Disjoint(fs)
    ensures GoodFiles(Overlapping(fs, b, e)) && Disjoint(Overlapping(fs, b, e))
  {
    if fs != [] {
      var init, last := fs[..|fs| - 1], fs[|fs| - 1];
      OverlappingInOrder(init, b, e);
      forall i | 0 <= i < |Overlapping(init, b, e)| ensures Precedes(Overlapping(init, b, e)[i], last) {
        var g := Overlapping(init, b, e)[i];
        assert g in Overlapping(init, b, e);
        var j :| 0 <= j < |init| && init[j] == g;
        assert Before(Largest(fs[j]), Smallest(fs[|fs| - 1]));
      }
    }
  }

  lemma OverlappingListed(level: nat, fs: seq<File>, b: Option<UserKey>, e: Option<UserKey>)
    requires GoodFiles(fs) && Listed(level, fs)
    ensures Listed(level, Overlapping(fs, b, e))
  {
    if level == 0 { OverlappingDiffers(fs, b, e); } else { OverlappingInOrder(fs, b, e); }
  }

  // Number of files of the level that start after k.
  function CountAfter(fs: seq<File>, k: IKey): nat
    requires GoodFiles(fs)
  {
    if fs == [] then 0 else (if Before(k, Smallest(fs[0])) then 1 else 0) + CountAfter(fs[1..], k)
  }

  lemma {:induction false} CountAfterDrops(fs: seq<File>, k: IKey, f: File)
    requires GoodFiles(fs) && GoodFile(f) && Before(k, Smallest(f))
    ensures CountAfter(fs, Largest(f)) <= CountAfter(fs, k)
    ensures f in fs ==> CountAfter(fs, Largest(f)) < CountAfter(fs, k)
  {
    WithinFile(f, f.entries[0]);
    if fs != [] {
      CountAfterDrops(fs[1..], k, f);
      assert f in fs ==> f == fs[0] || f in fs[1..];
    }
  }

  // The i-th file starts on the user key on which the files before it end.
  ghost predicate Continues(r: seq<File>, i: nat)
    requires GoodFiles(r) && i < |r|
  {
    exists k :: IsLargestKey(r[..i], k) && Boundary(r[i], k)
  }

  ghost predicate OnlyBoundaries(picked: seq<File>, r: seq<File>)
    requires GoodFiles(r)
  {
    forall i :: |picked| <= i < |r| ==> Continues(r, i)
  }

  lemma OneMoreBoundary(picked: seq<File>, r: seq<File>, k: IKey, f: File)
    requires GoodFiles(r) && GoodFile(f) && OnlyBoundaries(picked, r) && IsLargestKey(r, k) && Boundary(f, k)
    ensures OnlyBoundaries(picked, r + [f])
  {
    hide IsLargestKey, Boundary, GoodFile;
    forall i | |picked| <= i < |r + [f]| ensures Continues(r + [f], i) {
      if i < |r| {
        assert (r + [f])[..i] == r[..i] && Continues(r, i);
      } else {
        assert (r + [f])[..i] == r;
      }
    }
  }

  /** Extends the picked files until no file of the level starts, later, on the last user key. */
  method AddBoundaryInputs(fs: seq<File>, level: nat, picked: seq<File>) returns (r: seq<File>)
    requires GoodFiles(fs) && GoodFiles(picked) && Convex(fs, level, picked) && Listed(level, picked)
    requires level > 0 ==> Disjoint(fs)
    ensures picked <= r && GoodFiles(r) && Convex(fs, level, r) && Listed(level, r)
    ensures level == 0 ==> r == picked
    ensures forall k :: IsLargestKey(r, k) ==> forall i :: 0 <= i < |fs| ==> !Boundary(fs[i], k)
    ensures OnlyBoundaries(picked, r)
  {
    hide Sorted, Convex, Listed, Disjoint, GoodFile, Boundary, CountAfter, Before;
    r := picked;
    var first := FindLargestKey(picked);
    if first.None? { return; }
    var largest := first.value;
    while true
      invariant picked <= r && GoodFiles(r) && IsLargestKey(r, largest) && Convex(fs, level, r) && Listed(level, r)
      invariant level == 0 ==> r == picked
      invariant OnlyBoundaries(picked, r)
      decreases CountAfter(fs, largest)
    {
      var f := FindSmallestBoundaryFile(fs, largest);
      if f.Some? {
        OneMoreBoundary(picked, r, largest, f.value);
        BoundaryExtends(fs, level, r, largest, f.value);
        CountAfterDrops(fs, largest, f.value);
        r := r + [f.value];
        largest := Largest(f.value);
      } else {
        LargestKeyUnique(r, largest);
        return;
      }
    }
  }

  lemma LargestKeyUnique(fs: seq<File>, k: IKey)
    requires GoodFiles(fs) && IsLargestKey(fs, k)
    ensures forall k' :: IsLargestKey(fs, k') ==> k' == k
  {
  }

  lemma NotPicked(r: seq<File>, k: IKey, f: File)
    requires GoodFiles(r) && IsLargestKey(r, k) && GoodFile(f) && Boundary(f, k)
    ensures f !in r
  {
    if i :| 0 <= i < |r| && r[i] == f {
      WithinFile(f, f.entries[0]);
    }
  }

  // At level 0 there is no boundary file: it would overlap the picked file ending at k.
  lemma NoBoundaryAtLevel0(fs: seq<File>, r: seq<File>, k: IKey, f: File)
    requires GoodFiles(fs) && GoodFiles(r) && IsLargestKey(r, k) && f in fs && GoodFile(f) && Boundary(f, k)
    ensures !Convex(fs, 0, r)
  {
    NotPicked(r, k, f);
    var c :| 0 <= c < |r| && Largest(r[c]) == k;
    WithinFile(f, f.entries[0]);
    WithinFile(r[c], r[c].entries[0]);
    assert r[c] in r;
  }

  lemma InBetween(g: File, h: File, f: File, k: IKey)
    requires g.entries != [] && Largest(g) == k && GoodFile(h) && GoodFile(f) && Boundary(f, k)
    ensures Precedes(g, h) && Precedes(h, f) ==> Boundary(h, k)
  {
    WithinFile(h, h.entries[0]);
  }

  // A file left out still precedes or follows all once the smallest boundary file is added.
  lemma LeftOutStays(fs: seq<File>, r: seq<File>, k: IKey, f: File, h: File)
    requires GoodFiles(fs) && Disjoint(fs) && GoodFiles(r) && IsLargestKey(r, k)
    requires f in fs && GoodFile(f) && Boundary(f, k)
    requires forall i :: 0 <= i < |fs| && Boundary(fs[i], k) ==> !Before(Smallest(fs[i]), Smallest(f))
    requires h in fs && h != f && h.entries != [] && (PrecedesAll(h, r) || FollowsAll(h, r))
    ensures PrecedesAll(h, r + [f]) || FollowsAll(h, r + [f])
  {
    var i :| 0 <= i < |fs| && fs[i] == h;
    var j :| 0 <= j < |fs| && fs[j] == f;
    var c :| 0 <= c < |r| && Largest(r[c]) == k;
    assert r[c] in r;
    WithinFile(r[c], r[c].entries[|r[c].entries| - 1]);
    WithinFile(h, h.entries[0]);
    assert Precedes(h, f) || Precedes(f, h) by {
      if i < j { assert Before(Largest(fs[i]), Smallest(fs[j])); } else { assert Before(Largest(fs[j]), Smallest(fs[i])); }
    }
    WithinFile(f, f.entries[0]);
    InBetween(r[c], h, f, k);
    if FollowsAll(h, r) {
      assert Precedes(r[c], h);
    } else {
      assert Precedes(h, r[c]);
    }
  }

  // The smallest boundary file comes directly after the picked files.
  lemma BoundaryExtends(fs: seq<File>, level: nat, r: seq<File>, k: IKey, f: File)
    requires GoodFiles(fs) && GoodFiles(r) && IsLargestKey(r, k) && Convex(fs, level, r) && Listed(level, r)
    requires level > 0 ==> Disjoint(fs)
    requires f in fs && GoodFile(f) && Boundary(f, k)
    requires forall i :: 0 <= i < |fs| && Boundary(fs[i], k) ==> !Before(Smallest(fs[i]), Smallest(f))
    ensures level > 0 && Convex(fs, level, r + [f]) && IsLargestKey(r + [f], Largest(f)) && Listed(level, r + [f])
  {
    NotPicked(r, k, f);
    hide Sorted;
    if level == 0 { NoBoundaryAtLevel0(fs, r, k, f); }
    forall h | h in fs && h !in r + [f] && h.entries != []
      ensures PrecedesAll(h, r + [f]) || FollowsAll(h, r + [f])
    {
      LeftOutStays(fs, r, k, f, h);
    }
    WithinFile(f, f.entries[0]);
    assert (r + [f])[|r|] == f;
  }

  // ----- Compaction inputs -----

  // What the files of a level that overlap a range look like to those left out.
  lemma OverlappingIsConvex(fs: seq<File>, level: nat, b: Option<UserKey>, e: Option<UserKey>)
    requires GoodFiles(fs)
    requires if level == 0 then Closed(fs, b, e) else Disjoint(fs)
    ensures Convex(fs, level, Overlapping(fs, b, e))
  {
    var picked := Overlapping(fs, b, e);
    forall f, g | f in fs && f !in picked && g in picked
      ensures BeforeRange(f, b) ==> Largest(f).user < Smallest(g).user || (level > 0 && Precedes(f, g))
      ensures AfterRange(f, e) ==> Largest(g).user < Smallest(f).user || (level > 0 && Precedes(g, f))
    {
      var i :| 0 <= i < |fs| && fs[i] == f;
      var j :| 0 <= j < |fs| && fs[j] == g;
      WithinFile(f, f.entries[0]);
      WithinFile(g, g.entries[0]);
      if level > 0 { TwoFiles(fs, i, j); }
    }
    if level > 0 {
      forall f | f in fs && f !in picked ensures PrecedesAll(f, picked) || FollowsAll(f, picked) {
        assert BeforeRange(f, b) || AfterRange(f, e);
      }
    }
  }

  lemma TwoFiles(fs: seq<File>, i: nat, j: nat)
    requires GoodFiles(fs) && Disjoint(fs) && i < |fs| && j < |fs|
    ensures i < j ==> Precedes(fs[i], fs[j]) && Largest(fs[i]).user <= Smallest(fs[j]).user
    ensures j < i ==> Precedes(fs[j], fs[i]) && Largest(fs[j]).user <= Smallest(fs[i]).user
  {
  }

  // One file, on a level of disjoint files.
  lemma OneFileIsConvex(fs: seq<File>, level: nat, i: nat)
    requires GoodFiles(fs) && level > 0 && Disjoint(fs) && i < |fs|
    ensures Convex(fs, level, [fs[i]])
  {
    forall f | f in fs && f !in [fs[i]] ensures PrecedesAll(f, [fs[i]]) || FollowsAll(f, [fs[i]]) {
      var j :| 0 <= j < |fs| && fs[j] == f;
      TwoFiles(fs, i, j);
    }
  }

  lemma PrefixIsConvex(fs: seq<File>, level: nat, b: Option<UserKey>, e: Option<UserKey>, n: nat)
    requires GoodFiles(fs) && level > 0 && Disjoint(fs) && n <= |Overlapping(fs, b, e)|
    ensures Convex(fs, level, Overlapping(fs, b, e)[..n]) && Disjoint(Overlapping(fs, b, e)[..n])
  {
    var all := Overlapping(fs, b, e);
    OverlappingIsConvex(fs, level, b, e);
    OverlappingInOrder(fs, b, e);
    forall f | f in fs && f !in all[..n] ensures PrecedesAll(f, all[..n]) || FollowsAll(f, all[..n]) {
      if f in all {
        var j :| 0 <= j < |all| && all[j] == f;
        assert j >= n;
        forall g | g in all[..n] ensures Precedes(g, f) {
          var i :| 0 <= i < n && all[i] == g;
          assert Before(Largest(all[i]), Smallest(all[j]));
        }
      } else if PrecedesAll(f, all) {
        assert forall g :: g in all[..n] ==> g in all;
      } else {
        assert FollowsAll(f, all) && forall g :: g in all[..n] ==> g in all;
      }
    }
  }

  // ----- Where a compaction starts -----

  // A level is too big, or a file has been sought in vain too often.
  datatype Trigger = TooBig(level: nat) | TooManySeeks(level: nat, file: File)

  ghost predicate Due(v: Version, t: Trigger) {
    |v| == NUM_LEVELS && t.level + 1 < NUM_LEVELS && if t.TooBig? then v[t.level] != [] else t.file in v[t.level]
  }

  // Files a compaction may start with.
  ghost predicate GoodStart(v: Version, level: nat, start: seq<File>)
    requires level < |v| && GoodFiles(v[level])
  {
    start != [] && GoodFiles(start) && Listed(level, start) && Convex(v[level], level, start)
  }

  predicate EndsAfter(f: File, pointer: Option<IKey>)
    requires f.entries != []
  {
    pointer.None? || Before(pointer.value, Largest(f))
  }

  // The first file of the level that ends after the place where its last compaction ended, or
  // the first of all.
  ghost predicate IsFirstAfter(fs: seq<File>, pointer: Option<IKey>, j: nat)
    requires GoodFiles(fs)
  {
    && j < |fs| && (forall i :: 0 <= i < j ==> !EndsAfter(fs[i], pointer))
    && (!EndsAfter(fs[j], pointer) ==> j == 0 && forall i :: 0 <= i < |fs| ==> !EndsAfter(fs[i], pointer))
  }

  method FirstAfter(fs: seq<File>, pointer: Option<IKey>) returns (j: nat)
    requires GoodFiles(fs) && fs != []
    ensures IsFirstAfter(fs, pointer, j)
  {
    for i := 0 to |fs|
      invariant forall k :: 0 <= k < i ==> !EndsAfter(fs[k], pointer)
    {
      if EndsAfter(fs[i], pointer) {
        return i;
      }
    }
    j := 0;
  }

  /** At level 0 the file picked brings along all that overlap it, and all that overlap those. */
  method PickCompaction(v: Version, t: Trigger, pointer: Option<IKey>) returns (start: seq<File>)
    requires LevelOrder(v) && Due(v, t)
    ensures GoodStart(v, t.level, start)
    ensures t.TooManySeeks? ==> t.file in start
    ensures t.level > 0 ==> |start| == 1
    ensures t.level == 0 ==> exists b, e :: start == Overlapping(v[0], b, e) && Closed(v[0], b, e)
    ensures t.TooBig? ==> exists j: nat :: IsFirstAfter(v[t.level], pointer, j) && v[t.level][j] in start
  {
    var fs := v[t.level];
    var f;
    ghost var first := 0;
    if t.TooBig? {
      var j := FirstAfter(fs, pointer);
      first := j;
      f := fs[j];
    } else {
      f := t.file;
    }
    StartFile(v, t.level, f);
    hide IsFirstAfter;
    if t.level > 0 {
      return [f];
    }
    hide LevelOrder, GoodFile, Convex, Listed, Closed, Overlapping;
    var smallest, largest := GetRange([f]);
    ghost var b, e;
    start, b, e := GetOverlappingInputs(fs, 0, Some(smallest.user), Some(largest.user));
    LevelListed(v, 0);
    OverlappingListed(0, fs, b, e);
    OverlappingIsConvex(fs, 0, b, e);
    OverlappingCovers(fs, [f], [f], smallest, largest, b, e);
  }

  lemma StartFile(v: Version, level: nat, f: File)
    requires LevelOrder(v) && level < NUM_LEVELS && f in v[level]
    ensures GoodFiles(v[level]) && GoodFile(f) && GoodFiles([f]) && f in [f]
    ensures level > 0 ==> GoodStart(v, level, [f])
  {
    var i :| 0 <= i < |v[level]| && v[level][i] == f;
    if level > 0 { OneFileIsConvex(v[level], level, i); }
  }

  /** The files overlapping a range; above level 0 only as many as make up `limit` bytes. */
  method CompactRange(v: Version, level: nat, begin: Option<UserKey>, end: Option<UserKey>, limit: nat) returns (start: seq<File>)
    requires LevelOrder(v) && level + 1 < NUM_LEVELS
    ensures start == [] <==> forall f :: f in v[level] && f.entries != [] ==> !Overlaps(f, begin, end)
    ensures start != [] ==> GoodStart(v, level, start)
    ensures level == 0 ==> exists b, e :: start == Overlapping(v[0], b, e) && Closed(v[0], b, e) && Covers(b, e, begin, end)
    ensures level > 0 ==> EnoughOf(Overlapping(v[level], begin, end), start, limit)
  {
    LevelFacts(v, level);
    hide LevelOrder, GoodFile, GoodFiles, GoodStart, Overlaps, Closed, Overlapping, Disjoint, TotalFileSize, EnoughOf;
    var fs := v[level];
    ghost var b, e;
    start, b, e := GetOverlappingInputs(fs, level, begin, end);
    RangeIsGood(v, level, b, e);
    NothingInRange(fs, level, begin, end, b, e);
    if level > 0 {
      NothingIsEnough(limit);
      if start != [] {
        start := CutOff(v, level, begin, end, start, limit);
      }
    }
  }

  // A prefix that makes up `limit` bytes, and no more files than that takes; or all.
  predicate EnoughOf(fs: seq<File>, r: seq<File>, limit: nat) {
    && r <= fs && (r != fs ==> TotalFileSize(r) >= limit)
    && (fs != [] ==> r != []) && (|r| > 1 ==> TotalFileSize(r[..|r| - 1]) < limit)
  }

  lemma NothingIsEnough(limit: nat)
    ensures EnoughOf([], [], limit)
  {
  }

  method CutOff(v: Version, level: nat, begin: Option<UserKey>, end: Option<UserKey>, fs: seq<File>, limit: nat) returns (r: seq<File>)
    requires LevelOrder(v) && 0 < level < NUM_LEVELS && fs == Overlapping(v[level], begin, end) && fs != []
    ensures EnoughOf(fs, r, limit) && r != [] && GoodStart(v, level, r)
  {
    var total := 0;
    assert TotalFileSize(fs[..0]) == 0;
    hide LevelOrder, GoodStart, Overlapping, TotalFileSize, EnoughOf;
    for i := 0 to |fs|
      invariant total == TotalFileSize(fs[..i]) && (i > 0 ==> total < limit)
    {
      OneMoreSize(fs, i);
      total := total + fs[i].size;
      if total >= limit {
        RangePrefix(v, level, begin, end, i + 1);
        CutIsEnough(fs, i, limit);
        return fs[..i + 1];
      }
    }
    AllIsEnough(fs, limit);
    RangeIsGood(v, level, begin, end);
    r := fs;
  }

  lemma CutIsEnough(fs: seq<File>, i: nat, limit: nat)
    requires i < |fs| && (i > 0 ==> TotalFileSize(fs[..i]) < limit) && TotalFileSize(fs[..i + 1]) >= limit
    ensures EnoughOf(fs, fs[..i + 1], limit)
  {
    hide TotalFileSize;
    assert fs[..i + 1][..i] == fs[..i];
  }

  lemma AllIsEnough(fs: seq<File>, limit: nat)
    requires fs != [] && TotalFileSize(fs[..|fs|]) < limit
    ensures EnoughOf(fs, fs, limit)
  {
    OneMoreSize(fs, |fs| - 1);
    assert fs[..|fs|] == fs;
  }

  lemma {:induction false} OneMoreSize(fs: seq<File>, i: nat)
    requires i < |fs|
    ensures TotalFileSize(fs[..i + 1]) == TotalFileSize(fs[..i]) + fs[i].size
  {
    if i > 0 {
      assert fs[..i][1..] == fs[1..][..i - 1] && fs[..i + 1][1..] == fs[1..][..i];
      OneMoreSize(fs[1..], i - 1);
    }
  }

  lemma RangeIsGood(v: Version, level: nat, b: Option<UserKey>, e: Option<UserKey>)
    requires LevelOrder(v) && level < NUM_LEVELS && (level == 0 ==> Closed(v[level], b, e))
    ensures Overlapping(v[level], b, e) != [] ==> GoodStart(v, level, Overlapping(v[level], b, e))
  {
    LevelListed(v, level);
    OverlappingListed(level, v[level], b, e);
    OverlappingIsConvex(v[level], level, b, e);
  }

  lemma RangePrefix(v: Version, level: nat, b: Option<UserKey>, e: Option<UserKey>, n: nat)
    requires LevelOrder(v) && 0 < level < NUM_LEVELS && 0 < n <= |Overlapping(v[level], b, e)|
    ensures GoodStart(v, level, Overlapping(v[level], b, e)[..n])
  {
    RangeIsGood(v, level, b, e);
    PrefixIsConvex(v[level], level, b, e, n);
  }

  // Widening a range that meets no file changes nothing.
  lemma NothingInRange(fs: seq<File>, level: nat, begin: Option<UserKey>, end: Option<UserKey>, b: Option<UserKey>, e: Option<UserKey>)
    requires GoodFiles(fs) && Covers(b, e, begin, end) && (level > 0 ==> b == begin && e == end)
    requires forall b', e' :: Covers(b', e', begin, end) && Closed(fs, b', e') ==> Covers(b', e', b, e)
    ensures Overlapping(fs, b, e) == [] <==> forall f :: f in fs && f.entries != [] ==> !Overlaps(f, begin, end)
  {
    EmptyIff(Overlapping(fs, b, e));
    if forall f :: f in fs && f.entries != [] ==> !Overlaps(f, begin, end) {
      forall i | 0 <= i < |fs| ensures !Overlaps(fs[i], begin, end) { assert fs[i] in fs && fs[i].entries != []; }
      assert Closed(fs, begin, end) && Covers(begin, end, begin, end);
    } else {
      var f :| f in fs && f.entries != [] && Overlaps(f, begin, end);
      assert Overlaps(f, b, e) && f in Overlapping(fs, b, e);
    }
  }

  lemma EmptyIff(fs: seq<File>)
    ensures fs == [] <==> forall f :: f !in fs
  {
    if |fs| > 0 { assert fs[0] in fs; }
  }

  // Everything in the file comes before, or everything after, all entries of es.
  ghost predicate Outside(f: File, es: set<Entry>)
    requires f.entries != []
  {
    || (forall e :: e in es ==> Before(Largest(f), e.key))
    || (forall e :: e in es ==> Before(e.key, Smallest(f)))
  }

  /** What a compaction needs of its inputs: files left behind on `level` are newer, and files
      left alone on `level` + 1 lie outside the range the outputs will span. */
  ghost predicate GoodInputs(v: Version, level: nat, in0: seq<File>, in1: seq<File>)
    requires LevelOrder(v) && level + 1 < NUM_LEVELS
  {
    && in0 != [] && GoodFiles(in0) && GoodFiles(in1)
    && (forall f :: f in in0 ==> f in v[level]) && (forall f :: f in in1 ==> f in v[level + 1])
    && (forall f :: f in v[level] && f !in in0 ==> Newer(Elements(f.entries), EntriesOf(in0)))
    && (forall f :: f in v[level + 1] && f !in in1 && f.entries != [] ==> Outside(f, EntriesOf(in0) + EntriesOf(in1)))
  }

  lemma MemberOf(fs: seq<File>, f: File)
    requires GoodFiles(fs) && f in fs
    ensures GoodFile(f)
  {
  }

  // Files left behind on the level hold newer entries than the picked ones, provided no
  // boundary file is left behind.
  lemma LeftBehindIsNewer(v: Version, level: nat, in0: seq<File>, k: IKey, f: File)
    requires LevelOrder(v) && level + 1 < NUM_LEVELS && Distinct(VersionEntries(v))
    requires GoodFiles(in0) && Convex(v[level], level, in0) && IsLargestKey(in0, k)
    requires forall i :: 0 <= i < |v[level]| ==> !Boundary(v[level][i], k)
    requires f in v[level] && f !in in0
    ensures Newer(Elements(f.entries), EntriesOf(in0))
  {
    MemberOf(v[level], f);
    hide Sorted, Distinct, IsLargestKey, Boundary, LevelOrder;
    forall a, b | a in Elements(f.entries) && b in EntriesOf(in0) && a.key.user == b.key.user ensures a.key.sn > b.key.sn {
      var g :| g in in0 && b in g.entries;
      MemberOf(in0, g);
      WithinFile(f, a);
      WithinFile(g, b);
      if PrecedesAll(f, in0) {
        PrecedingIsNewer(v, level, f, g, a, b);
      } else {
        FollowingIsApart(v[level], in0, k, f, g);
      }
    }
  }

  lemma PrecedingIsNewer(v: Version, level: nat, f: File, g: File, a: Entry, b: Entry)
    requires LevelOrder(v) && level < NUM_LEVELS && Distinct(VersionEntries(v))
    requires f in v[level] && g in v[level] && GoodFile(f) && GoodFile(g) && Precedes(f, g)
    requires a in f.entries && b in g.entries && a.key.user == b.key.user
    ensures a.key.sn > b.key.sn
  {
    WithinFile(f, a);
    WithinFile(g, b);
    assert a in EntriesOf(v[level]) && b in EntriesOf(v[level]);
    assert a in VersionEntries(v) && b in VersionEntries(v);
    assert Before(a.key, b.key) && a != b;
  }

  lemma FollowingIsApart(fs: seq<File>, in0: seq<File>, k: IKey, f: File, g: File)
    requires GoodFiles(fs) && GoodFiles(in0) && IsLargestKey(in0, k) && g in in0
    requires forall i :: 0 <= i < |fs| ==> !Boundary(fs[i], k)
    requires f in fs && f.entries != [] && FollowsAll(f, in0)
    ensures g.entries != [] && Largest(g).user < Smallest(f).user
  {
    var i :| 0 <= i < |fs| && fs[i] == f;
    var c :| 0 <= c < |in0| && Largest(in0[c]) == k;
    assert in0[c] in in0 && Precedes(in0[c], f);
    var d :| 0 <= d < |in0| && in0[d] == g;
    assert !Before(k, Largest(in0[d]));
    assert !Boundary(fs[i], k);
  }

  // A file of the next level that does not overlap the picked range is outside all inputs.
  lemma LeftAloneIsOutside(fs: seq<File>, in0: seq<File>, smallest: IKey, largest: IKey, h: File)
    requires GoodFiles(fs) && Disjoint(fs) && GoodFiles(in0)
    requires IsSmallestKey(in0, smallest) && IsLargestKey(in0, largest)
    requires h in fs && h.entries != [] && !Overlaps(h, Some(smallest.user), Some(largest.user))
    ensures Outside(h, EntriesOf(in0) + EntriesOf(Overlapping(fs, Some(smallest.user), Some(largest.user))))
  {
    var in1 := Overlapping(fs, Some(smallest.user), Some(largest.user));
    MemberOf(fs, h);
    WithinFile(h, h.entries[0]);
    forall e | e in EntriesOf(in0) + EntriesOf(in1)
      ensures BeforeRange(h, Some(smallest.user)) ==> Before(Largest(h), e.key)
      ensures AfterRange(h, Some(largest.user)) ==> Before(e.key, Smallest(h))
    {
      if e in EntriesOf(in0) {
        var f :| f in in0 && e in f.entries;
        MemberOf(in0, f);
        WithinFile(f, e);
        var i :| 0 <= i < |in0| && in0[i] == f;
        assert !Before(Smallest(in0[i]), smallest) && !Before(largest, Largest(in0[i]));
      } else {
        var f :| f in in1 && e in f.entries;
        MemberOf(fs, f);
        WithinFile(f, e);
        var i :| 0 <= i < |fs| && fs[i] == f;
        var j :| 0 <= j < |fs| && fs[j] == h;
        TwoFiles(fs, i, j);
      }
    }
  }

  function TotalFileSize(fs: seq<File>): nat {
    if fs == [] then 0 else fs[0].size + TotalFileSize(fs[1..])
  }

  lemma LevelFacts(v: Version, level: nat)
    requires LevelOrder(v) && level + 1 < NUM_LEVELS
    ensures |v| == NUM_LEVELS && GoodFiles(v[level]) && GoodFiles(v[level + 1]) && (level > 0 ==> Disjoint(v[level]))
  {
  }

  // The files of the next level are those the picked ones overlap.
  ghost predicate Reaches(v: Version, level: nat, in0: seq<File>, in1: seq<File>)
    requires level + 1 < |v| && GoodFiles(v[level + 1])
  {
    GoodFiles(in0) && exists s, l :: IsSmallestKey(in0, s) && IsLargestKey(in0, l) && in1 == Overlapping(v[level + 1], Some(s.user), Some(l.user))
  }

  ghost predicate Extends(start: seq<File>, base: seq<File>) { start <= base && GoodFiles(base) && OnlyBoundaries(start, base) }

  // More files of the level, for as many of the next, and in all fewer bytes than the limit.
  predicate Grown(base0: seq<File>, base1: seq<File>, in0: seq<File>, in1: seq<File>, sizeLimit: nat) {
    && |in0| > |base0| && (forall f :: f in base0 ==> f in in0)
    && base1 != [] && |in1| == |base1|
    && TotalFileSize(base1) + TotalFileSize(in0) < sizeLimit
  }

  ghost predicate Completes(v: Version, level: nat, start: seq<File>, base0: seq<File>, base1: seq<File>, in0: seq<File>, in1: seq<File>, sizeLimit: nat)
    requires level + 1 < |v| && GoodFiles(v[level + 1])
  {
    && Extends(start, base0) && Reaches(v, level, base0, base1)
    && ((in0 == base0 && in1 == base1) || Grown(base0, base1, in0, in1, sizeLimit))
  }

  /** Completes the inputs of a compaction started on some files of `level`: the boundary files,
      perhaps more files of the level, and the files of the next level they overlap. */
  method SetupOtherInputs(v: Version, level: nat, start: seq<File>, sizeLimit: nat)
    returns (in0: seq<File>, in1: seq<File>)
    requires LevelOrder(v) && Distinct(VersionEntries(v)) && level + 1 < NUM_LEVELS
    requires start != [] && GoodFiles(start) && Convex(v[level], level, start) && Listed(level, start)
    ensures GoodInputs(v, level, in0, in1) && Listed(level, in0) && Listed(level + 1, in1)
    ensures forall f :: f in start ==> f in in0
    ensures Reaches(v, level, in0, in1)
    ensures exists base0, base1 :: Completes(v, level, start, base0, base1, in0, in1, sizeLimit)
  {
    hide LevelOrder, Disjoint, Distinct, GoodFile, GoodInputs, OnlyBoundaries, IsSmallestKey, IsLargestKey, Boundary, Overlapping, Convex, Closed, Listed,
      EntriesOf, VersionEntries, Before;
    LevelFacts(v, level);
    in0 := AddBoundaryInputs(v[level], level, start);
    assert in0[0] == start[0] && forall f :: f in start ==> f in in0;
    var smallest, largest := GetRange(in0);
    ghost var b, e;
    in1, b, e := GetOverlappingInputs(v[level + 1], level + 1, Some(smallest.user), Some(largest.user));
    InputsAreGood(v, level, in0, in1, smallest, largest);
    LevelListed(v, level + 1);
    OverlappingListed(level + 1, v[level + 1], Some(smallest.user), Some(largest.user));
    assert Extends(start, in0) && Reaches(v, level, in0, in1);
    hide Extends, Reaches, Grown;
    ghost var base0, base1 := in0, in1;
    if in1 != [] {
      in0, in1 := GrowInputs(v, level, in0, in1, sizeLimit);
    }
    assert Completes(v, level, start, base0, base1, in0, in1, sizeLimit);
  }

  // The files two levels down that overlap the inputs.
  method Grandparents(v: Version, level: nat, in0: seq<File>, in1: seq<File>) returns (r: seq<File>, ghost s: IKey, ghost l: IKey)
    requires LevelOrder(v) && level + 1 < NUM_LEVELS && in0 != [] && GoodFiles(in0) && GoodFiles(in1)
    ensures IsSmallestKey(in0 + in1, s) && IsLargestKey(in0 + in1, l)
    ensures level + 2 < NUM_LEVELS ==> |v| == NUM_LEVELS && GoodFiles(v[level + 2]) && r == Overlapping(v[level + 2], Some(s.user), Some(l.user))
    ensures level + 2 >= NUM_LEVELS ==> r == []
  {
    hide IsSmallestKey, IsLargestKey, Overlapping;
    r := [];
    var smallest, largest := GetRange(in0 + in1);
    s, l := smallest, largest;
    if level + 2 < NUM_LEVELS {
      ghost var b, e;
      r, b, e := GetOverlappingInputs(v[level + 2], level + 2, Some(smallest.user), Some(largest.user));
    }
  }

  lemma InputFacts(v: Version, level: nat, in0: seq<File>, in1: seq<File>)
    requires LevelOrder(v) && level + 1 < NUM_LEVELS && GoodInputs(v, level, in0, in1)
    ensures |v| == NUM_LEVELS && GoodFiles(v[level]) && GoodFiles(v[level + 1]) && Disjoint(v[level + 1])
    ensures level > 0 ==> Disjoint(v[level])
    ensures in0 != [] && GoodFiles(in0) && GoodFiles(in1) && GoodFiles(in0 + in1)
    ensures forall f :: f in in0 ==> f in v[level] && f in in0 + in1
  {
  }

  // Grows the files of `level` when that changes nothing on `level` + 1.
  method GrowInputs(v: Version, level: nat, in0: seq<File>, in1: seq<File>, sizeLimit: nat)
    returns (r0: seq<File>, r1: seq<File>)
    requires LevelOrder(v) && Distinct(VersionEntries(v)) && level + 1 < NUM_LEVELS
    requires GoodInputs(v, level, in0, in1) && Listed(level, in0) && Listed(level + 1, in1) && in1 != []
    ensures GoodInputs(v, level, r0, r1) && Listed(level, r0) && Listed(level + 1, r1)
    ensures forall f :: f in in0 ==> f in r0
    ensures (r0 == in0 && r1 == in1) || (Grown(in0, in1, r0, r1, sizeLimit) && Reaches(v, level, r0, r1))
  {
    hide LevelOrder, Disjoint, Distinct, GoodFile, Closed, GoodInputs, IsSmallestKey, IsLargestKey, Boundary, Overlapping, OnlyBoundaries;
    hide Convex, GoodFiles, EntriesOf, VersionEntries, TotalFileSize, Listed;
    InputFacts(v, level, in0, in1);
    r0, r1 := in0, in1;
    var allStart, allLimit := GetRange(in0 + in1);
    var expanded0, b, e := GetOverlappingInputs(v[level], level, Some(allStart.user), Some(allLimit.user));
    LevelListed(v, level);
    LevelListed(v, level + 1);
    OverlappingListed(level, v[level], b, e);
    OverlappingIsConvex(v[level], level, b, e);
    OverlappingCovers(v[level], in0, in0 + in1, allStart, allLimit, b, e);
    expanded0 := AddBoundaryInputs(v[level], level, expanded0);
    assert forall f :: f in in0 ==> f in expanded0;
    if |expanded0| > |in0| && TotalFileSize(in1) + TotalFileSize(expanded0) < sizeLimit {
      var newStart, newLimit := GetRange(expanded0);
      var expanded1;
      expanded1, b, e := GetOverlappingInputs(v[level + 1], level + 1, Some(newStart.user), Some(newLimit.user));
      if |expanded1| == |in1| {
        OverlappingListed(level + 1, v[level + 1], b, e);
        InputsAreGood(v, level, expanded0, expanded1, newStart, newLimit);
        assert Reaches(v, level, expanded0, expanded1);
        r0, r1 := expanded0, expanded1;
      }
    }
  }

  lemma InputsAreGood(v: Version, level: nat, in0: seq<File>, in1: seq<File>, smallest: IKey, largest: IKey)
    requires LevelOrder(v) && Distinct(VersionEntries(v)) && level + 1 < NUM_LEVELS
    requires in0 != [] && GoodFiles(in0) && Convex(v[level], level, in0)
    requires IsSmallestKey(in0, smallest) && IsLargestKey(in0, largest)
    requires forall i :: 0 <= i < |v[level]| ==> !Boundary(v[level][i], largest)
    requires in1 == Overlapping(v[level + 1], Some(smallest.user), Some(largest.user))
    ensures GoodInputs(v, level, in0, in1)
  {
    forall f | f in v[level] && f !in in0 ensures Newer(Elements(f.entries), EntriesOf(in0)) {
      LeftBehindIsNewer(v, level, in0, largest, f);
    }
    forall h | h in v[level + 1] && h !in in1 && h.entries != []
      ensures Outside(h, EntriesOf(in0) + EntriesOf(in1))
    {
      LeftAloneIsOutside(v[level + 1], in0, smallest, largest, h);
    }
  }

  // Files of the level among `all` overlap any range covering that of `all`.
  lemma OverlappingCovers(fs: seq<File>, in0: seq<File>, all: seq<File>, smallest: IKey, largest: IKey,
                          b: Option<UserKey>, e: Option<UserKey>)
    requires GoodFiles(fs) && GoodFiles(all) && IsSmallestKey(all, smallest) && IsLargestKey(all, largest)
    requires Covers(b, e, Some(smallest.user), Some(largest.user))
    requires forall f :: f in in0 ==> f in fs && f in all
    ensures forall f :: f in in0 ==> f in Overlapping(fs, b, e)
  {
    forall f | f in in0 ensures f in Overlapping(fs, b, e) {
      MemberOf(fs, f);
      WithinFile(f, f.entries[0]);
      var i :| 0 <= i < |all| && all[i] == f;
      assert !Before(Smallest(all[i]), smallest) && !Before(largest, Largest(all[i]));
    }
  }
}
