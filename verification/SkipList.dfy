/** The skip list: one writer, readers that take no lock. */
module SkipLists {
  import opened Entries

  const MAX_HEIGHT: nat := 12

  // Nodes are numbered; node 0 is the head, and as a link 0 is null.
  datatype Node = Node(key: IKey, next: seq<nat>)

  datatype Mem = Mem(nodes: seq<Node>, maxHeight: nat)

  // ----- The lists, level by level -----

  // The j-th link of a list leaves Src and leads to Dst.
  function Src(l: seq<nat>, j: nat): nat
    requires j <= |l|
  {
    if j == 0 then 0 else l[j - 1]
  }

  function Dst(l: seq<nat>, j: nat): nat
    requires j <= |l|
  {
    if j == |l| then 0 else l[j]
  }

  // The nodes of a list exist and are tall enough for the level.
  ghost predicate Tall(m: Mem, i: nat, l: seq<nat>) {
    && m.nodes != [] && i < |m.nodes[0].next|
    && forall j :: 0 <= j < |l| ==> 0 < l[j] < |m.nodes| && i < |m.nodes[l[j]].next|
  }

  ghost predicate Ascends(m: Mem, i: nat, l: seq<nat>)
    requires Tall(m, i, l)
  {
    forall j, k :: 0 <= j < k < |l| ==> Before(m.nodes[l[j]].key, m.nodes[l[k]].key)
  }

  // Following the links of level i from the head visits exactly l.
  ghost predicate Linked(m: Mem, i: nat, l: seq<nat>)
    requires Tall(m, i, l)
  {
    forall j :: 0 <= j <= |l| ==> m.nodes[Src(l, j)].next[i] == Dst(l, j)
  }

  ghost predicate Chain(m: Mem, i: nat, l: seq<nat>) { Tall(m, i, l) && Ascends(m, i, l) && Linked(m, i, l) }

  /** Every level is sorted, each a sublist of the one below. */
  ghost predicate Inv(m: Mem, ls: seq<seq<nat>>) {
    && |ls| == MAX_HEIGHT && 1 <= m.maxHeight <= MAX_HEIGHT
    && (forall i :: 0 <= i < MAX_HEIGHT ==> Chain(m, i, ls[i]))
    && (forall i, j, x :: 0 <= i < j < MAX_HEIGHT && x in ls[j] ==> x in ls[i])
    && forall i :: m.maxHeight <= i < MAX_HEIGHT ==> ls[i] == []
  }

  // The first p nodes of the list are before the key, the others not.
  ghost predicate SplitsAt(m: Mem, i: nat, l: seq<nat>, p: nat, key: IKey)
    requires Tall(m, i, l)
  {
    && p <= |l|
    && (forall j :: 0 <= j < p ==> Before(m.nodes[l[j]].key, key))
    && forall j :: p <= j < |l| ==> !Before(m.nodes[l[j]].key, key)
  }

  // prev is where the key belongs on the level, behind the p-th link's source.
  ghost predicate Located(m: Mem, i: nat, l: seq<nat>, p: nat, key: IKey, prev: nat) {
    Tall(m, i, l) && SplitsAt(m, i, l, p, key) && prev == Src(l, p)
  }

  // Where a search for the key may stand on level i: the head, or a node before the key.
  ghost predicate Standing(m: Mem, i: nat, l: seq<nat>, x: nat, key: IKey)
    requires Tall(m, i, l)
  {
    x == 0 || (x in l && x < |m.nodes| && Before(m.nodes[x].key, key))
  }

  // One link further, or the place where the key belongs.
  lemma Follow(m: Mem, i: nat, l: seq<nat>, x: nat, key: IKey) returns (p: nat)
    requires Chain(m, i, l) && Standing(m, i, l, x, key)
    ensures p <= |l| && x == Src(l, p) < |m.nodes| && i < |m.nodes[x].next| && m.nodes[x].next[i] == Dst(l, p)
    ensures Dst(l, p) != 0 ==> p < |l| && Dst(l, p) in l && Dst(l, p) < |m.nodes|
    ensures Dst(l, p) == 0 || !Before(m.nodes[Dst(l, p)].key, key) ==> SplitsAt(m, i, l, p, key)
  {
    if x == 0 {
      p := 0;
    } else {
      var j :| 0 <= j < |l| && l[j] == x;
      p := j + 1;
    }
  }

  // Going down a level keeps the search standing.
  lemma Descend(m: Mem, ls: seq<seq<nat>>, i: nat, x: nat, key: IKey)
    requires Inv(m, ls) && 1 <= i < MAX_HEIGHT && Standing(m, i, ls[i], x, key)
    ensures Chain(m, i - 1, ls[i - 1]) && Standing(m, i - 1, ls[i - 1], x, key)
  {
  }

  // ----- Stores -----

  function SetNext(m: Mem, n: nat, i: nat, x: nat): Mem
    requires n < |m.nodes| && i < |m.nodes[n].next|
  {
    m.(nodes := m.nodes[n := m.nodes[n].(next := m.nodes[n].next[i := x])])
  }

  // A store to a link of another level, or of a node not on the list, leaves a list alone.
  lemma StoreElsewhere(m: Mem, n: nat, i: nat, x: nat, k: nat, l: seq<nat>)
    requires n < |m.nodes| && i < |m.nodes[n].next| && Chain(m, k, l)
    requires k != i || (n != 0 && n !in l)
    ensures Chain(SetNext(m, n, i, x), k, l)
  {
    var m' := SetNext(m, n, i, x);
    forall j | 0 <= j <= |l| ensures m'.nodes[Src(l, j)].next[k] == Dst(l, j) {
      if j > 0 { assert l[j - 1] in l; }
    }
  }

  lemma OwnStoreKeepsInv(m: Mem, ls: seq<seq<nat>>, x: nat, i: nat, to: nat)
    requires Inv(m, ls) && 0 < x < |m.nodes| && i < |m.nodes[x].next| && i < MAX_HEIGHT && x !in ls[i]
    ensures Inv(SetNext(m, x, i, to), ls)
  {
    hide Chain;
    forall k | 0 <= k < MAX_HEIGHT ensures Chain(SetNext(m, x, i, to), k, ls[k]) {
      StoreElsewhere(m, x, i, to, k, ls[k]);
    }
  }

  function InsertAt(l: seq<nat>, p: nat, x: nat): seq<nat>
    requires p <= |l|
  {
    l[..p] + [x] + l[p..]
  }

  // Linking node x, whose own link is set, behind its predecessor.
  lemma LinkChain(m: Mem, i: nat, l: seq<nat>, p: nat, x: nat)
    requires Chain(m, i, l) && 0 < x < |m.nodes| && i < |m.nodes[x].next| && x !in l
    requires p <= |l| && m.nodes[x].next[i] == Dst(l, p)
    requires SplitsAt(m, i, l, p, m.nodes[x].key) && forall j :: p <= j < |l| ==> m.nodes[l[j]].key != m.nodes[x].key
    ensures Chain(SetNext(m, Src(l, p), i, x), i, InsertAt(l, p, x))
  {
    var m', l' := SetNext(m, Src(l, p), i, x), InsertAt(l, p, x);
    forall j, k | 0 <= j < k < |l'| ensures Before(m'.nodes[l'[j]].key, m'.nodes[l'[k]].key) {
      Total(m.nodes[l'[k]].key, m.nodes[x].key);
    }
    forall j | 0 <= j <= |l'| ensures m'.nodes[Src(l', j)].next[i] == Dst(l', j) {
      SrcDiffers(m, i, l, p);
      if j < p { assert Src(l', j) == Src(l, j) && Dst(l', j) == Dst(l, j); }
      else if j == p { assert Src(l', j) == Src(l, p) && Dst(l', j) == x; }
      else if j == p + 1 { assert Src(l', j) == x && Dst(l', j) == Dst(l, p); }
      else { assert Src(l', j) == Src(l, j - 1) && Dst(l', j) == Dst(l, j - 1); }
    }
  }

  lemma Total(a: IKey, b: IKey)
    ensures a != b && !Before(a, b) ==> Before(b, a)
  {
  }

  // The nodes of a list are all different.
  lemma SrcDiffers(m: Mem, i: nat, l: seq<nat>, p: nat)
    requires Tall(m, i, l) && Ascends(m, i, l) && p <= |l|
    ensures forall j :: 0 <= j <= |l| && j != p ==> Src(l, j) != Src(l, p)
  {
  }

  lemma LinkKeepsInv(m: Mem, ls: seq<seq<nat>>, i: nat, p: nat, x: nat)
    requires Inv(m, ls) && i < m.maxHeight && 0 < x < |m.nodes| && i < |m.nodes[x].next|
    requires (forall k :: 0 <= k < i ==> x in ls[k]) && forall k :: i <= k < MAX_HEIGHT ==> x !in ls[k]
    requires p <= |ls[i]| && m.nodes[x].next[i] == Dst(ls[i], p)
    requires SplitsAt(m, i, ls[i], p, m.nodes[x].key) && forall j :: p <= j < |ls[i]| ==> m.nodes[ls[i][j]].key != m.nodes[x].key
    ensures Inv(SetNext(m, Src(ls[i], p), i, x), ls[i := InsertAt(ls[i], p, x)])
  {
    hide SplitsAt;
    var m', ls' := SetNext(m, Src(ls[i], p), i, x), ls[i := InsertAt(ls[i], p, x)];
    LinkChain(m, i, ls[i], p, x);
    hide Chain;
    forall k | 0 <= k < MAX_HEIGHT ensures Chain(m', k, ls'[k]) {
      if k != i { StoreElsewhere(m, Src(ls[i], p), i, x, k, ls[k]); }
    }
    assert forall y :: y in ls'[i] <==> y == x || y in ls[i];
  }

  // ----- The list as a class -----

  function Keys(m: Mem, l: seq<nat>): (ks: seq<IKey>)
    requires forall j :: 0 <= j < |l| ==> l[j] < |m.nodes|
    ensures |ks| == |l|
  {
    seq(|l|, j requires 0 <= j < |l| => m.nodes[l[j]].key)
  }

  class SkipList {
    var m: Mem
    ghost var ls: seq<seq<nat>>

    constructor ()
      ensures Ok() && Contents() == []
    {
      m := Mem([Node(IKey(0.0, 0, 0), seq(MAX_HEIGHT, i => 0))], 1);
      ls := seq(MAX_HEIGHT, i => []);
    }

    ghost predicate Ok() reads this { Inv(m, ls) }

    // The keys of the list, in order.
    ghost function Contents(): seq<IKey>
      requires Ok()
      reads this
    {
      Keys(m, ls[0])
    }

    /** The first node at or after the key, or null; and on every level the node it would follow. */
    method FindGreaterOrEqual(key: IKey) returns (r: nat, prev: seq<nat>, ghost ps: seq<nat>)
      requires Ok()
      ensures |prev| == |ps| == MAX_HEIGHT
      ensures forall i :: 0 <= i < m.maxHeight ==> Located(m, i, ls[i], ps[i], key, prev[i])
      ensures SplitsAt(m, 0, ls[0], ps[0], key) && r == Dst(ls[0], ps[0])
    {
      hide SplitsAt;
      prev, ps := seq(MAX_HEIGHT, i => 0), seq(MAX_HEIGHT, i => 0);
      var x := 0;
      var level := m.maxHeight - 1;
      ghost var p: nat := 0;
      while true
        invariant 0 <= level < m.maxHeight && |prev| == |ps| == MAX_HEIGHT && Standing(m, level, ls[level], x, key)
        invariant forall i :: level < i < m.maxHeight ==> Located(m, i, ls[i], ps[i], key, prev[i])
        invariant p <= |ls[level]| && x == Src(ls[level], p)
        decreases level, |ls[level]| - p
      {
        ghost var q := Follow(m, level, ls[level], x, key);
        SamePlace(m, level, ls[level], p, q);
        var next := m.nodes[x].next[level];
        if next != 0 && Before(m.nodes[next].key, key) {
          x := next;
          p := p + 1;
        } else {
          prev, ps := prev[level := x], ps[level := q];
          if level == 0 {
            return next, prev, ps;
          }
          Descend(m, ls, level, x, key);
          level := level - 1;
          p := Follow(m, level, ls[level], x, key);
        }
      }
    }

    /** The last node before the key, or the head. */
    method FindLessThan(key: IKey) returns (x: nat, ghost p: nat)
      requires Ok()
      ensures SplitsAt(m, 0, ls[0], p, key) && x == Src(ls[0], p)
    {
      hide SplitsAt;
      x := 0;
      var level := m.maxHeight - 1;
      p := 0;
      while true
        invariant 0 <= level < m.maxHeight && Standing(m, level, ls[level], x, key)
        invariant p <= |ls[level]| && x == Src(ls[level], p)
        decreases level, |ls[level]| - p
      {
        ghost var q := Follow(m, level, ls[level], x, key);
        SamePlace(m, level, ls[level], p, q);
        var next := m.nodes[x].next[level];
        if next == 0 || !Before(m.nodes[next].key, key) {
          if level == 0 {
            return;
          }
          Descend(m, ls, level, x, key);
          level := level - 1;
          p := Follow(m, level, ls[level], x, key);
        } else {
          x := next;
          p := p + 1;
        }
      }
    }

    /** The last node, or the head if there is none. */
    method FindLast() returns (x: nat)
      requires Ok()
      ensures x == Src(ls[0], |ls[0]|)
    {
      x := 0;
      var level := m.maxHeight - 1;
      ghost var p: nat := 0;
      while true
        invariant 0 <= level < m.maxHeight && p <= |ls[level]| && x == Src(ls[level], p)
        decreases level, |ls[level]| - p
      {
        assert m.nodes[Src(ls[level], p)].next[level] == Dst(ls[level], p);
        var next := m.nodes[x].next[level];
        if next == 0 {
          if level == 0 {
            return;
          }
          p := PlaceOf(m, ls, level, x);
          level := level - 1;
        } else {
          x := next;
          p := p + 1;
        }
      }
    }

    /** The key takes its place among the others. */
    method Insert(key: IKey)
      requires Ok() && key !in Contents()
      modifies this
      ensures Ok() && exists p :: 0 <= p <= |old(Contents())| && Contents() == old(Contents())[..p] + [key] + old(Contents())[p..]
    {
      hide WriterOk, Inv, Grows, Located, KeyAbsent;
      ghost var m0, ls0 := m, ls;
      var prev;
      ghost var ps;
      var x;
      x, prev, ps := FindGreaterOrEqual(key);
      var height: nat :| 1 <= height <= MAX_HEIGHT;  // RandomHeight()
      InvBounds(m, ls);
      if height > m.maxHeight {
        // above the levels in use, the new node follows the head
        for i := m.maxHeight to height
          invariant |prev| == |ps| == MAX_HEIGHT && m == m0 && ls == ls0
          invariant forall k :: 0 <= k < m.maxHeight ==> Located(m, k, ls[k], ps[k], key, prev[k])
          invariant forall k :: m.maxHeight <= k < i ==> prev[k] == 0 && ps[k] == 0
        {
          prev, ps := prev[i := 0], ps[i := 0];
        }
      }
      ghost var w := Busy(key, height, prev, ps, false, 0, 0, false);
      NotThere(m, ls[0], key);
      BeginReady(m, ls, w);
      StoreKeeps(m0, ls, Idle, m0, ls, w, Begin(key, height, prev, ps));
      ghost var w1 := w.(raised := true);
      m := m.(maxHeight := if height > m.maxHeight then height else m.maxHeight);
      StoreKeeps(m0, ls, w, m, ls, w1, Raise);
      x := |m.nodes|;
      ghost var m1 := m;
      m := m.(nodes := m.nodes + [Node(key, seq(height, i => 0))]);
      StoreKeeps(m1, ls, w1, m, ls, w1.(x := x), Make);
      assert KeysKept(m0, m);
      LinkNode(w1.(x := x), x, height, prev);
      InvBounds(m, ls);
      Inserted(m0, ls0[0], ps[0], m, ls[0], x, key);
    }

    // Publish node x on its levels, from the bottom up.
    method LinkNode(ghost w0: Writer, x: nat, height: nat, prev: seq<nat>)
      requires WriterOk(m, ls, w0) && w0.Busy? && w0 == Busy(w0.key, height, prev, w0.ps, true, x, 0, false) && x > 0
      requires height >= 1 && |ls| == MAX_HEIGHT
      modifies this
      ensures Ok() && x < |m.nodes| && m.nodes[x].key == w0.key
      ensures old(|ls|) > 0 && |ls| > 0 && w0.ps != [] && w0.ps[0] <= old(|ls[0]|) && ls[0] == InsertAt(old(ls[0]), w0.ps[0], x)
      ensures KeysKept(old(m), m)
    {
      hide WriterOk, WriterNext, Inv, Grows, Located, KeyAbsent, NodeOk;
      ghost var m0, l0 := m, ls[0];
      BusyParts(m, ls, w0);
      ghost var w := w0;
      for i := 0 to height
        invariant WriterOk(m, ls, w) && w == w0.(linked := i) && |ls| == MAX_HEIGHT && |prev| == |w0.ps| == MAX_HEIGHT && i <= height <= MAX_HEIGHT
        invariant i > 0 ==> w0.ps[0] <= |l0|
        invariant ls[0] == if i == 0 then l0 else InsertAt(l0, w0.ps[0], x)
        invariant KeysKept(m0, m)
      {
        OwnReady(m, ls, w);
        ghost var m1 := m;
        m := SetNext(m, x, i, m.nodes[prev[i]].next[i]);
        StoreKeeps(m1, ls, w, m, ls, w.(own := true), Own);
        LinkReady(m, ls, w.(own := true));
        ghost var m2, ls2 := m, ls;
        m := SetNext(m, prev[i], i, x);
        ls := ls[i := InsertAt(ls[i], w.ps[i], x)];
        StoreKeeps(m2, ls2, w.(own := true), m, ls, w.(linked := i + 1), Link);
        w := w.(linked := i + 1);
      }
      BusyParts(m, ls, w);
    }

    method Contains(key: IKey) returns (r: bool)
      requires Ok()
      ensures r <==> key in Contents()
    {
      var x, prev;
      ghost var ps;
      x, prev, ps := FindGreaterOrEqual(key);
      r := x != 0 && m.nodes[x].key == key;
      if key in Contents() {
        var j :| 0 <= j < |Contents()| && Contents()[j] == key;
        FirstNotBefore(m, ls[0], ps[0], j, key);
      }
      if r { assert Contents()[ps[0]] == key; }
    }
  }

  lemma SamePlace(m: Mem, i: nat, l: seq<nat>, p: nat, q: nat)
    requires Chain(m, i, l) && p <= |l| && q <= |l| && Src(l, p) == Src(l, q)
    ensures p == q
  {
    SrcDiffers(m, i, l, p);
  }

  // A node's place on the level below.
  lemma PlaceOf(m: Mem, ls: seq<seq<nat>>, i: nat, x: nat) returns (p: nat)
    requires Inv(m, ls) && 1 <= i < MAX_HEIGHT && (x == 0 || x in ls[i])
    ensures p <= |ls[i - 1]| && x == Src(ls[i - 1], p)
  {
    if x == 0 {
      p := 0;
    } else {
      assert x in ls[i - 1];
      var j :| 0 <= j < |ls[i - 1]| && ls[i - 1][j] == x;
      p := j + 1;
    }
  }

  lemma FirstNotBefore(m: Mem, l: seq<nat>, p: nat, j: nat, key: IKey)
    requires Chain(m, 0, l) && SplitsAt(m, 0, l, p, key) && j < |l| && m.nodes[l[j]].key == key
    ensures p == j
  {
    KeysAscend(m, 0, l, p, j);
  }

  lemma KeysAscend(m: Mem, i: nat, l: seq<nat>, p: nat, j: nat)
    requires Chain(m, i, l) && j < |l|
    ensures p < j ==> Before(m.nodes[l[p]].key, m.nodes[l[j]].key)
  {
  }

  // ----- Inserting, one store at a time -----

  // The writer between stores: idle, or on its way to insert a node.  Node x exists once x > 0;
  // it is linked on levels below `linked`, and its own link of that level may be set.
  datatype Writer =
    | Idle
    | Busy(key: IKey, height: nat, prev: seq<nat>, ps: seq<nat>, raised: bool, x: nat, linked: nat, own: bool)

  ghost predicate KeyAbsent(m: Mem, l: seq<nat>, key: IKey) {
    forall j :: 0 <= j < |l| ==> l[j] < |m.nodes| && m.nodes[l[j]].key != key
  }

  ghost predicate WriterOk(m: Mem, ls: seq<seq<nat>>, w: Writer) {
    Inv(m, ls) && (w.Busy? ==>
      && 1 <= w.height <= MAX_HEIGHT && |w.prev| == |w.ps| == MAX_HEIGHT && w.linked <= w.height
      && (w.raised ==> w.height <= m.maxHeight) && (w.x > 0 ==> w.raised) && (w.linked > 0 || w.own ==> w.x > 0)
      && (forall i :: w.linked <= i < w.height ==> Located(m, i, ls[i], w.ps[i], w.key, w.prev[i]) && KeyAbsent(m, ls[i], w.key))
      && (w.x > 0 ==> NodeOk(m, ls, w)))
  }

  ghost predicate NodeOk(m: Mem, ls: seq<seq<nat>>, w: Writer)
    requires Inv(m, ls) && w.Busy? && |w.prev| == |w.ps| == MAX_HEIGHT && w.linked <= w.height <= MAX_HEIGHT
  {
    && w.x < |m.nodes| && m.nodes[w.x].key == w.key && |m.nodes[w.x].next| == w.height
    && (forall i :: 0 <= i < w.linked ==> w.x in ls[i]) && (forall i :: w.linked <= i < MAX_HEIGHT ==> w.x !in ls[i])
    && (w.own ==> w.linked < w.height && w.ps[w.linked] <= |ls[w.linked]|)
    && (w.own ==> m.nodes[w.x].next[w.linked] == Dst(ls[w.linked], w.ps[w.linked]))
  }

  // The stores of Insert.
  datatype Store = Begin(key: IKey, height: nat, prev: seq<nat>, ps: seq<nat>) | Raise | Make | Own | Link | Finish

  ghost predicate WriterNext(m: Mem, ls: seq<seq<nat>>, w: Writer, m': Mem, ls': seq<seq<nat>>, w': Writer, st: Store) {
    match st
    case Begin(key, height, prev, ps) =>
      // what FindGreaterOrEqual found; the head where the list is not yet that high
      && w.Idle? && Inv(m, ls) && 1 <= height <= MAX_HEIGHT && |prev| == |ps| == MAX_HEIGHT && KeyAbsent(m, ls[0], key)
      && (forall i :: 0 <= i < m.maxHeight ==> Located(m, i, ls[i], ps[i], key, prev[i]))
      && (forall i :: m.maxHeight <= i < height ==> prev[i] == 0 && ps[i] == 0)
      && m' == m && ls' == ls && w' == Busy(key, height, prev, ps, false, 0, 0, false)
    case Raise =>
      && w.Busy? && !w.raised
      && m' == m.(maxHeight := if w.height > m.maxHeight then w.height else m.maxHeight) && ls' == ls && w' == w.(raised := true)
    case Make =>
      && w.Busy? && w.raised && w.x == 0
      && m' == m.(nodes := m.nodes + [Node(w.key, seq(w.height, i => 0))]) && ls' == ls && w' == w.(x := |m.nodes|)
    case Own =>
      && w.Busy? && w.x > 0 && !w.own && w.linked < w.height && |w.prev| == MAX_HEIGHT && w.height <= MAX_HEIGHT
      && w.x < |m.nodes| && w.linked < |m.nodes[w.x].next| && w.prev[w.linked] < |m.nodes| && w.linked < |m.nodes[w.prev[w.linked]].next|
      && m' == SetNext(m, w.x, w.linked, m.nodes[w.prev[w.linked]].next[w.linked]) && ls' == ls && w' == w.(own := true)
    case Link =>
      && w.Busy? && w.own && w.linked < w.height && |w.prev| == |w.ps| == |ls| == MAX_HEIGHT && w.height <= MAX_HEIGHT
      && w.prev[w.linked] < |m.nodes| && w.linked < |m.nodes[w.prev[w.linked]].next| && w.ps[w.linked] <= |ls[w.linked]|
      && m' == SetNext(m, w.prev[w.linked], w.linked, w.x)
      && ls' == ls[w.linked := InsertAt(ls[w.linked], w.ps[w.linked], w.x)] && w' == w.(linked := w.linked + 1, own := false)
    case Finish =>
      w.Busy? && w.x > 0 && w.linked == w.height && m' == m && ls' == ls && w' == Idle
  }

  // Nothing a reader relies on is taken away.
  ghost predicate Grows(m: Mem, ls: seq<seq<nat>>, m': Mem, ls': seq<seq<nat>>) {
    && |m.nodes| <= |m'.nodes| && |ls| == |ls'|
    && (forall n :: 0 <= n < |m.nodes| ==> m'.nodes[n].key == m.nodes[n].key && |m'.nodes[n].next| == |m.nodes[n].next|)
    && forall i, x :: 0 <= i < |ls| && x in ls[i] ==> x in ls'[i]
  }

  lemma BeginStep(m: Mem, ls: seq<seq<nat>>, w: Writer, m': Mem, ls': seq<seq<nat>>, w': Writer, st: Store)
    requires WriterOk(m, ls, w) && st.Begin? && WriterNext(m, ls, w, m', ls', w', st)
    ensures WriterOk(m', ls', w') && Grows(m, ls, m', ls')
  {
    forall i | 0 <= i < st.height ensures Located(m, i, ls[i], st.ps[i], st.key, st.prev[i]) && KeyAbsent(m, ls[i], st.key) {
      assert Chain(m, i, ls[i]);
      forall j | 0 <= j < |ls[i]| ensures m.nodes[ls[i][j]].key != st.key {
        assert i > 0 ==> ls[i][j] in ls[0];
        var k :| 0 <= k < |ls[0]| && ls[0][k] == ls[i][j];
      }
    }
  }

  lemma RaiseStep(m: Mem, ls: seq<seq<nat>>, w: Writer, m': Mem, ls': seq<seq<nat>>, w': Writer)
    requires WriterOk(m, ls, w) && WriterNext(m, ls, w, m', ls', w', Raise)
    ensures WriterOk(m', ls', w') && Grows(m, ls, m', ls')
  {
    forall i | 0 <= i < MAX_HEIGHT ensures Chain(m', i, ls[i]) { assert Chain(m, i, ls[i]); }
    assert Inv(m', ls');
    forall i | w.linked <= i < w.height ensures Located(m', i, ls[i], w.ps[i], w.key, w.prev[i]) && KeyAbsent(m', ls[i], w.key) {
      assert Located(m, i, ls[i], w.ps[i], w.key, w.prev[i]) && KeyAbsent(m, ls[i], w.key);
    }
  }

  lemma MakeStep(m: Mem, ls: seq<seq<nat>>, w: Writer, m': Mem, ls': seq<seq<nat>>, w': Writer)
    requires WriterOk(m, ls, w) && WriterNext(m, ls, w, m', ls', w', Make)
    ensures WriterOk(m', ls', w') && Grows(m, ls, m', ls')
  {
    forall i | 0 <= i < MAX_HEIGHT ensures Chain(m', i, ls[i]) && w'.x !in ls[i] { assert Chain(m, i, ls[i]); }
    assert Inv(m', ls');
    forall i | w.linked <= i < w.height ensures Located(m', i, ls[i], w.ps[i], w.key, w.prev[i]) && KeyAbsent(m', ls[i], w.key) {
      assert Located(m, i, ls[i], w.ps[i], w.key, w.prev[i]) && KeyAbsent(m, ls[i], w.key);
    }
  }

  // Located and KeyAbsent look only at keys.
  lemma KeysDecide(m: Mem, ls: seq<seq<nat>>, m': Mem, i: nat, p: nat, key: IKey, prev: nat)
    requires Inv(m, ls) && Grows(m, ls, m', ls) && i < MAX_HEIGHT && Located(m, i, ls[i], p, key, prev) && KeyAbsent(m, ls[i], key)
    ensures Located(m', i, ls[i], p, key, prev) && KeyAbsent(m', ls[i], key)
  {
  }

  lemma OwnStep(m: Mem, ls: seq<seq<nat>>, w: Writer, m': Mem, ls': seq<seq<nat>>, w': Writer)
    requires WriterOk(m, ls, w) && WriterNext(m, ls, w, m', ls', w', Own)
    ensures WriterOk(m', ls', w') && Grows(m, ls, m', ls')
  {
    var i := w.linked;
    assert Located(m, i, ls[i], w.ps[i], w.key, w.prev[i]) && Chain(m, i, ls[i]);
    assert m.nodes[Src(ls[i], w.ps[i])].next[i] == Dst(ls[i], w.ps[i]);
    OwnStoreKeepsInv(m, ls, w.x, i, m.nodes[w.prev[i]].next[i]);
    hide Located, KeyAbsent, Inv;
    forall k | w.linked <= k < w.height ensures Located(m', k, ls[k], w.ps[k], w.key, w.prev[k]) && KeyAbsent(m', ls[k], w.key) {
      KeysDecide(m, ls, m', k, w.ps[k], w.key, w.prev[k]);
    }
  }

  lemma LinkStep(m: Mem, ls: seq<seq<nat>>, w: Writer, m': Mem, ls': seq<seq<nat>>, w': Writer)
    requires WriterOk(m, ls, w) && WriterNext(m, ls, w, m', ls', w', Link)
    ensures WriterOk(m', ls', w') && Grows(m, ls, m', ls')
  {
    var i := w.linked;
    assert Located(m, i, ls[i], w.ps[i], w.key, w.prev[i]) && KeyAbsent(m, ls[i], w.key);
    LinkKeepsInv(m, ls, i, w.ps[i], w.x);
    assert forall y :: y in ls'[i] <==> y == w.x || y in ls[i];
    hide Inv;
    assert Grows(m, ls, m', ls');
    forall k | w'.linked <= k < w.height ensures Located(m', k, ls'[k], w.ps[k], w.key, w.prev[k]) && KeyAbsent(m', ls'[k], w.key) {
      assert Located(m, k, ls[k], w.ps[k], w.key, w.prev[k]) && KeyAbsent(m, ls[k], w.key);
    }
  }

  /** Each store of the writer keeps all levels sorted, each a sublist of the one below. */
  lemma StoreKeeps(m: Mem, ls: seq<seq<nat>>, w: Writer, m': Mem, ls': seq<seq<nat>>, w': Writer, st: Store)
    requires WriterOk(m, ls, w) && WriterNext(m, ls, w, m', ls', w', st)
    ensures WriterOk(m', ls', w') && Grows(m, ls, m', ls')
  {
    hide WriterOk, Grows, WriterNext;
    match st
    case Begin(_, _, _, _) => BeginStep(m, ls, w, m', ls', w', st);
    case Raise => RaiseStep(m, ls, w, m', ls', w');
    case Make => MakeStep(m, ls, w, m', ls', w');
    case Own => OwnStep(m, ls, w, m', ls', w');
    case Link => LinkStep(m, ls, w, m', ls', w');
    case Finish => FinishStep(m, ls, w, m', ls', w');
  }

  lemma FinishStep(m: Mem, ls: seq<seq<nat>>, w: Writer, m': Mem, ls': seq<seq<nat>>, w': Writer)
    requires WriterOk(m, ls, w) && WriterNext(m, ls, w, m', ls', w', Finish)
    ensures WriterOk(m', ls', w') && Grows(m, ls, m', ls')
  {
  }

  // ----- What Insert needs along the way -----

  ghost predicate KeysKept(m: Mem, m': Mem) {
    |m.nodes| <= |m'.nodes| && forall n :: 0 <= n < |m.nodes| ==> m'.nodes[n].key == m.nodes[n].key
  }

  lemma NotThere(m: Mem, l: seq<nat>, key: IKey)
    requires (forall j :: 0 <= j < |l| ==> l[j] < |m.nodes|) && key !in Keys(m, l)
    ensures KeyAbsent(m, l, key)
  {
    forall j | 0 <= j < |l| ensures m.nodes[l[j]].key != key { assert Keys(m, l)[j] in Keys(m, l); }
  }

  lemma BeginReady(m: Mem, ls: seq<seq<nat>>, w: Writer)
    requires Inv(m, ls) && w.Busy? && w == Busy(w.key, w.height, w.prev, w.ps, false, 0, 0, false)
    requires 1 <= w.height <= MAX_HEIGHT && |w.prev| == |w.ps| == MAX_HEIGHT && KeyAbsent(m, ls[0], w.key)
    requires forall i :: 0 <= i < m.maxHeight ==> Located(m, i, ls[i], w.ps[i], w.key, w.prev[i])
    requires forall i :: m.maxHeight <= i < w.height ==> w.prev[i] == 0 && w.ps[i] == 0
    ensures WriterOk(m, ls, Idle) && WriterNext(m, ls, Idle, m, ls, w, Begin(w.key, w.height, w.prev, w.ps))
  {
  }

  lemma InvBounds(m: Mem, ls: seq<seq<nat>>)
    requires Inv(m, ls)
    ensures |ls| == MAX_HEIGHT && 1 <= m.maxHeight <= MAX_HEIGHT
    ensures m.nodes != [] && Chain(m, 0, ls[0])
  {
    assert Chain(m, 0, ls[0]);
  }

  lemma BusyParts(m: Mem, ls: seq<seq<nat>>, w: Writer)
    requires WriterOk(m, ls, w) && w.Busy? && w.x > 0
    ensures Inv(m, ls) && |ls| == MAX_HEIGHT && |w.prev| == |w.ps| == MAX_HEIGHT && w.height <= MAX_HEIGHT
    ensures w.x < |m.nodes| && m.nodes[w.x].key == w.key
    ensures w.linked == 0 && w.height > 0 ==> w.ps[0] <= |ls[0]|
  {
    if w.linked == 0 && w.height > 0 { assert Located(m, 0, ls[0], w.ps[0], w.key, w.prev[0]); }
  }

  lemma OwnReady(m: Mem, ls: seq<seq<nat>>, w: Writer)
    requires WriterOk(m, ls, w) && w.Busy? && w.x > 0 && !w.own && w.linked < w.height
    ensures |w.prev| == |w.ps| == |ls| == MAX_HEIGHT && w.height <= MAX_HEIGHT
    ensures w.x < |m.nodes| && w.linked < |m.nodes[w.x].next| && w.prev[w.linked] < |m.nodes| && w.linked < |m.nodes[w.prev[w.linked]].next|
    ensures w.ps[w.linked] <= |ls[w.linked]|
    ensures WriterNext(m, ls, w, SetNext(m, w.x, w.linked, m.nodes[w.prev[w.linked]].next[w.linked]), ls, w.(own := true), Own)
  {
    assert Located(m, w.linked, ls[w.linked], w.ps[w.linked], w.key, w.prev[w.linked]);
  }

  lemma LinkReady(m: Mem, ls: seq<seq<nat>>, w: Writer)
    requires WriterOk(m, ls, w) && w.Busy? && w.x > 0 && w.own && w.linked < w.height
    ensures |w.prev| == |w.ps| == |ls| == MAX_HEIGHT && w.height <= MAX_HEIGHT
    ensures w.prev[w.linked] < |m.nodes| && w.linked < |m.nodes[w.prev[w.linked]].next| && w.ps[w.linked] <= |ls[w.linked]|
    ensures WriterNext(m, ls, w, SetNext(m, w.prev[w.linked], w.linked, w.x),
                       ls[w.linked := InsertAt(ls[w.linked], w.ps[w.linked], w.x)], w.(linked := w.linked + 1, own := false), Link)
  {
    assert Located(m, w.linked, ls[w.linked], w.ps[w.linked], w.key, w.prev[w.linked]);
  }

  lemma Inserted(m: Mem, l: seq<nat>, p: nat, m': Mem, l': seq<nat>, x: nat, key: IKey)
    requires KeysKept(m, m') && (forall j :: 0 <= j < |l| ==> l[j] < |m.nodes|) && p <= |l| && l' == InsertAt(l, p, x)
    requires x < |m'.nodes| && m'.nodes[x].key == key && forall j :: 0 <= j < |l'| ==> l'[j] < |m'.nodes|
    ensures Keys(m', l') == Keys(m, l)[..p] + [key] + Keys(m, l)[p..]
  {
  }

  // ----- A search whose steps come between the stores -----

  // FindGreaterOrEqual under way; `began` holds the keys present when it began.
  datatype Search = Search(target: IKey, x: nat, level: nat, result: seq<nat>, began: set<IKey>)

  ghost predicate SearchBegins(m: Mem, ls: seq<seq<nat>>, s: Search) {
    Inv(m, ls) && s == Search(s.target, 0, m.maxHeight - 1, [], set k | k in Keys(m, ls[0]))
  }

  // One read of a link.
  ghost predicate SearchStep(m: Mem, s: Search, s': Search) {
    && s.result == [] && s.x < |m.nodes| && s.level < |m.nodes[s.x].next|
    && var next := m.nodes[s.x].next[s.level];
    if 0 < next < |m.nodes| && Before(m.nodes[next].key, s.target) then s' == s.(x := next)
    else if s.level == 0 then s' == s.(result := [next])
    else s' == s.(level := s.level - 1)
  }

  // The node found is at or after the target, and no key present at the start lies in between.
  ghost predicate Answered(m: Mem, s: Search) {
    s.result != [] ==>
      var r := s.result[0];
      && (r != 0 ==> r < |m.nodes| && !Before(m.nodes[r].key, s.target))
      && forall k :: k in s.began && !Before(k, s.target) ==> r != 0 && !Before(k, m.nodes[r].key)
  }

  ghost predicate SearchOk(m: Mem, ls: seq<seq<nat>>, s: Search)
    requires Inv(m, ls)
  {
    && s.level < MAX_HEIGHT && Chain(m, s.level, ls[s.level]) && Standing(m, s.level, ls[s.level], s.x, s.target)
    && (forall k :: k in s.began ==> exists n :: n in ls[0] && n < |m.nodes| && m.nodes[n].key == k)
    && Answered(m, s)
  }

  // Stores do not disturb a search.
  lemma SearchSurvives(m: Mem, ls: seq<seq<nat>>, m': Mem, ls': seq<seq<nat>>, s: Search)
    requires Inv(m, ls) && Inv(m', ls') && Grows(m, ls, m', ls') && SearchOk(m, ls, s)
    ensures SearchOk(m', ls', s)
  {
    forall k | k in s.began ensures exists n :: n in ls'[0] && n < |m'.nodes| && m'.nodes[n].key == k {
      var n :| n in ls[0] && n < |m.nodes| && m.nodes[n].key == k;
      assert n in ls'[0];
    }
    assert Chain(m', s.level, ls'[s.level]);
  }

  lemma SearchAdvances(m: Mem, ls: seq<seq<nat>>, s: Search, s': Search)
    requires Inv(m, ls) && SearchOk(m, ls, s) && SearchStep(m, s, s')
    ensures SearchOk(m, ls, s')
  {
    var p := Follow(m, s.level, ls[s.level], s.x, s.target);
    var next := m.nodes[s.x].next[s.level];
    if next != 0 && Before(m.nodes[next].key, s.target) {
      assert Standing(m, s.level, ls[s.level], next, s.target);
    } else if s.level == 0 {
      forall k | k in s.began && !Before(k, s.target) ensures next != 0 && !Before(k, m.nodes[next].key) {
        var n :| n in ls[0] && n < |m.nodes| && m.nodes[n].key == k;
        NoneBetween(m, ls[0], p, n, s.target);
      }
    } else {
      Descend(m, ls, s.level, s.x, s.target);
    }
  }

  lemma NoneBetween(m: Mem, l: seq<nat>, p: nat, n: nat, key: IKey)
    requires Chain(m, 0, l) && SplitsAt(m, 0, l, p, key) && n in l && n < |m.nodes| && !Before(m.nodes[n].key, key)
    ensures p < |l| && !Before(m.nodes[n].key, m.nodes[Dst(l, p)].key)
  {
    var j :| 0 <= j < |l| && l[j] == n;
    assert p <= j;
    KeysAscend(m, 0, l, p, j);
  }

  // ----- Whole runs -----

  datatype State = State(m: Mem, ls: seq<seq<nat>>, w: Writer, s: Search)

  datatype Step = Stores(st: Store) | Reads | Restarts

  ghost predicate Next(a: State, b: State, step: Step) {
    match step
    case Stores(st) => WriterNext(a.m, a.ls, a.w, b.m, b.ls, b.w, st) && b.s == a.s
    case Reads => b.m == a.m && b.ls == a.ls && b.w == a.w && SearchStep(a.m, a.s, b.s)
    case Restarts => b.m == a.m && b.ls == a.ls && b.w == a.w && SearchBegins(a.m, a.ls, b.s)
  }

  ghost predicate StateOk(a: State) { WriterOk(a.m, a.ls, a.w) && SearchOk(a.m, a.ls, a.s) }

  lemma NextKeeps(a: State, b: State, step: Step)
    requires StateOk(a) && Next(a, b, step)
    ensures StateOk(b)
  {
    match step
    case Stores(st) =>
      hide WriterNext, SearchOk, Inv, Grows;
      StoreKeeps(a.m, a.ls, a.w, b.m, b.ls, b.w, st);
      SearchSurvives(a.m, a.ls, b.m, b.ls, a.s);
    case Reads =>
      hide SearchOk, SearchStep, Inv;
      SearchAdvances(a.m, a.ls, a.s, b.s);
    case Restarts =>
      BeginsOk(a.m, a.ls, b.s);
  }

  lemma BeginsOk(m: Mem, ls: seq<seq<nat>>, s: Search)
    requires SearchBegins(m, ls, s)
    ensures SearchOk(m, ls, s)
  {
    assert Chain(m, s.level, ls[s.level]) && Chain(m, 0, ls[0]);
    forall k | k in s.began ensures exists n :: n in ls[0] && n < |m.nodes| && m.nodes[n].key == k {
      var j :| 0 <= j < |ls[0]| && Keys(m, ls[0])[j] == k;
      assert ls[0][j] in ls[0];
    }
  }

  ghost predicate Run(states: seq<State>, steps: seq<Step>) {
    && |states| == |steps| + 1 && StateOk(states[0])
    && forall i :: 0 <= i < |steps| ==> Next(states[i], states[i + 1], steps[i])
  }

  /** However a search's reads fall between the writer's stores, the node it returns is at or
      after the target, and no key present when it began is missed. */
  lemma {:induction false} SearchIsRight(states: seq<State>, steps: seq<Step>, i: nat)
    requires Run(states, steps) && i < |states|
    ensures StateOk(states[i]) && Answered(states[i].m, states[i].s)
  {
    hide Next, WriterOk;
    if i > 0 {
      SearchIsRight(states, steps, i - 1);
      NextKeeps(states[i - 1], states[i], steps[i - 1]);
    }
  }
}
