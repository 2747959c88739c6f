/** The two-level iterator: an index whose values name blocks, read as one sorted sequence. */
module TwoLevelIterators {
  import opened Entries
  import opened Cursors

  // ----- The concatenation of the blocks -----

  function Joined(index: seq<Entry>, block: Value -> seq<Entry>, n: nat): seq<Entry>
    requires n <= |index|
  {
    if n == 0 then [] else Joined(index, block, n - 1) + block(index[n - 1].value)
  }

  function Start(index: seq<Entry>, block: Value -> seq<Entry>, i: nat): nat
    requires i <= |index|
  {
    |Joined(index, block, i)|
  }

  function Whole(index: seq<Entry>, block: Value -> seq<Entry>): seq<Entry> { Joined(index, block, |index|) }

  // Each index key is at or after the entries of its block and before those of later blocks.
  ghost predicate Separated(index: seq<Entry>, block: Value -> seq<Entry>) {
    && Sorted(index) && Sorted(Whole(index, block))
    && (forall i :: 0 <= i < |index| ==> Sorted(block(index[i].value)))
    && (forall i, e :: 0 <= i < |index| && e in block(index[i].value) ==> !Before(index[i].key, e.key))
    && forall i, j, e :: 0 <= i < j < |index| && e in block(index[j].value) ==> Before(index[i].key, e.key)
  }

  lemma {:induction false} JoinedGrows(index: seq<Entry>, block: Value -> seq<Entry>, i: nat, n: nat)
    requires i <= n <= |index|
    ensures Start(index, block, i) <= Start(index, block, n)
    ensures Joined(index, block, n)[..Start(index, block, i)] == Joined(index, block, i)
  {
    if i < n {
      JoinedGrows(index, block, i, n - 1);
      var before, last := Joined(index, block, n - 1), block(index[n - 1].value);
      assert (before + last)[..Start(index, block, i)] == before[..Start(index, block, i)];
    }
  }

  lemma BlockAt(index: seq<Entry>, block: Value -> seq<Entry>, i: nat)
    requires i < |index|
    ensures Start(index, block, i + 1) == Start(index, block, i) + |block(index[i].value)| <= |Whole(index, block)|
    ensures forall p :: 0 <= p < |block(index[i].value)| ==> Whole(index, block)[Start(index, block, i) + p] == block(index[i].value)[p]
  {
    JoinedGrows(index, block, i + 1, |index|);
    var all, upTo := Whole(index, block), Joined(index, block, i + 1);
    assert upTo == Joined(index, block, i) + block(index[i].value);
    forall p | 0 <= p < |block(index[i].value)| ensures all[Start(index, block, i) + p] == block(index[i].value)[p] {
      assert all[..|upTo|][Start(index, block, i) + p] == upTo[Start(index, block, i) + p];
    }
  }

  lemma {:induction false} BlockOf(index: seq<Entry>, block: Value -> seq<Entry>, n: nat, m: nat) returns (i: nat, p: nat)
    requires n <= |index| && m < Start(index, block, n)
    ensures i < n && p < |block(index[i].value)| && m == Start(index, block, i) + p
    decreases n
  {
    i, p := 0, 0;
    if n > 0 {
      BlockAt(index, block, n - 1);
      if m >= Start(index, block, n - 1) {
        i, p := n - 1, m - Start(index, block, n - 1);
      } else {
        i, p := BlockOf(index, block, n - 1, m);
      }
    }
  }

  // n splits the whole at the target.
  ghost predicate SplitsAt(es: seq<Entry>, n: nat, target: IKey) {
    && n <= |es|
    && (forall m :: 0 <= m < n ==> Before(es[m].key, target))
    && forall m :: n <= m < |es| ==> AtOrAfter(es[m].key, target)
  }

  lemma SplitInBlock(es: seq<Entry>, n: nat, target: IKey)
    requires Sorted(es) && n <= |es|
    requires (forall m :: 0 <= m < n ==> Before(es[m].key, target)) && (n < |es| ==> AtOrAfter(es[n].key, target))
    ensures SplitsAt(es, n, target)
  {
    forall m | n < m < |es| ensures AtOrAfter(es[m].key, target) { Ordered(es, n, m); }
  }

  /** An index search and a search in the block it names split the whole at the target. */
  lemma TwoSeeks(index: seq<Entry>, block: Value -> seq<Entry>, i: nat, p: nat, target: IKey)
    requires Separated(index, block) && SplitsAt(index, i, target)
    requires i < |index| ==> SplitsAt(block(index[i].value), p, target)
    ensures SplitsAt(Whole(index, block), if i < |index| then Start(index, block, i) + p else |Whole(index, block)|, target)
  {
    hide Joined;
    var all := Whole(index, block);
    if i < |index| { BlockAt(index, block, i); }
    var n := if i < |index| then Start(index, block, i) + p else |all|;
    forall m | 0 <= m < |all| ensures if m < n then Before(all[m].key, target) else AtOrAfter(all[m].key, target) {
      var j, q := BlockOf(index, block, |index|, m);
      BlockAt(index, block, j);
      var b := block(index[j].value);
      assert all[m] == b[q] && b[q] in b;
      if j < i {
        JoinedGrows(index, block, j + 1, i);
      } else if j > i {
        JoinedGrows(index, block, i + 1, j);
      }
    }
  }

  // ----- The iterator -----

  class TwoLevelIterator {
    const indexIter: Cursor
    const blockFunction: Value -> seq<Entry>
    var dataIter: Cursor?
    var dataBlockHandle: Value

    constructor (index: Cursor, block: Value -> seq<Entry>)
      requires index.Ok() && Separated(index.entries, block)
      ensures indexIter == index && blockFunction == block && Ok() && !Valid()
    {
      indexIter, blockFunction, dataIter, dataBlockHandle := index, block, null, [];
    }

    ghost function Contents(): seq<Entry> { Whole(indexIter.entries, blockFunction) }

    predicate Valid()
      reads this, dataIter
    {
      dataIter != null && dataIter.Valid()
    }

    ghost predicate Ok()
      reads this, indexIter, dataIter
    {
      && indexIter.Ok() && Separated(indexIter.entries, blockFunction)
      && (dataIter != null ==>
            dataIter != indexIter && dataIter.entries == blockFunction(dataBlockHandle) && dataIter.pos <= |dataIter.entries|)
    }

    // The data iterator, if any, is on the block the index names.
    ghost predicate OnBlock()
      reads this, indexIter, dataIter
    {
      && Ok()
      && (dataIter != null <==> indexIter.Valid())
      && (dataIter != null ==> dataBlockHandle == indexIter.Val())
    }

    ghost predicate Inv()
      reads this, indexIter, dataIter
    {
      Ok() && (dataIter != null ==> OnBlock() && dataIter.Valid())
    }

    // Position in the whole: |Contents()| if on no entry.
    ghost function At(): nat
      requires Ok() && (Valid() ==> OnBlock())
      reads this, indexIter, dataIter
    {
      if Valid() then Start(indexIter.entries, blockFunction, indexIter.pos) + dataIter.pos else |Contents()|
    }

    /** What a caller sees is entry At() of the concatenation. */
    lemma Observed()
      requires Inv()
      ensures Valid() <==> At() < |Contents()|
      ensures Valid() ==> dataIter.Key() == Contents()[At()].key && dataIter.Val() == Contents()[At()].value
    {
      hide Separated, Joined;
      if Valid() { BlockAt(indexIter.entries, blockFunction, indexIter.pos); }
    }

    method InitDataBlock()
      requires Ok()
      modifies this
      ensures OnBlock()
      ensures dataIter == old(dataIter) || dataIter == null || fresh(dataIter)
    {
      if !indexIter.Valid() {
        dataIter := null;
      } else {
        var handle := indexIter.Val();
        if dataIter != null && handle == dataBlockHandle {
          // already on this block
        } else {
          dataIter := new Cursor(blockFunction(handle));
          dataBlockHandle := handle;
        }
      }
    }

    // From the data iterator's position, or the end of its block, on to the next entry.
    method SkipEmptyDataBlocksForward()
      requires OnBlock()
      modifies this, indexIter, dataIter
      ensures Inv()
      ensures At() == if old(indexIter.Valid()) then old(Start(indexIter.entries, blockFunction, indexIter.pos) + dataIter.pos) else |Contents()|
    {
      hide Separated, Joined;
      ghost var n := if indexIter.Valid() then Start(indexIter.entries, blockFunction, indexIter.pos) + dataIter.pos else |Contents()|;
      while dataIter == null || !dataIter.Valid()
        invariant OnBlock() && (dataIter == null || dataIter == old(dataIter) || fresh(dataIter))
        invariant n == if indexIter.Valid() then Start(indexIter.entries, blockFunction, indexIter.pos) + dataIter.pos else |Contents()|
        decreases |indexIter.entries| - indexIter.pos
      {
        if !indexIter.Valid() {
          dataIter := null;
          return;
        }
        BlockAt(indexIter.entries, blockFunction, indexIter.pos);
        indexIter.Next();
        InitDataBlock();
        if dataIter != null { dataIter.SeekToFirst(); }
      }
    }

    // From the data iterator's position, or the start of its block, back to the previous entry.
    method SkipEmptyDataBlocksBackward()
      requires OnBlock()
      modifies this, indexIter, dataIter
      ensures Inv()
      ensures old(Valid()) ==> Valid() && At() == old(At())
      ensures !old(Valid()) ==>
        var s := if old(indexIter.Valid()) then old(Start(indexIter.entries, blockFunction, indexIter.pos)) else 0;
        if s == 0 then !Valid() else At() == s - 1
    {
      hide Separated, Joined;
      ghost var start: nat := if indexIter.Valid() then Start(indexIter.entries, blockFunction, indexIter.pos) else 0;
      ghost var moved := false;
      while dataIter == null || !dataIter.Valid()
        invariant OnBlock() && (dataIter == null || dataIter == old(dataIter) || fresh(dataIter))
        invariant !moved ==> dataIter == old(dataIter) && Valid() == old(Valid()) && (Valid() ==> At() == old(At()))
        invariant !moved ==> start == if indexIter.Valid() then Start(indexIter.entries, blockFunction, indexIter.pos) else 0
        invariant moved ==> !old(Valid())
        invariant moved && Valid() ==> At() + 1 == start
        invariant moved && !Valid() ==> start == if indexIter.Valid() then Start(indexIter.entries, blockFunction, indexIter.pos) else 0
        decreases if indexIter.Valid() then indexIter.pos + 1 else 0
      {
        if !indexIter.Valid() {
          dataIter := null;
          return;
        }
        if indexIter.pos > 0 {
          BlockAt(indexIter.entries, blockFunction, indexIter.pos - 1);
        } else {
          NoneBefore(indexIter.entries, blockFunction);
        }
        indexIter.Prev();
        InitDataBlock();
        if dataIter != null { dataIter.SeekToLast(); }
        moved := true;
      }
    }

    /** The first entry at or after the target. */
    method Seek(target: IKey)
      requires Inv()
      modifies this, indexIter, dataIter
      ensures Inv() && SplitsAt(Contents(), At(), target)
    {
      hide Joined, Separated;
      SortedParts(indexIter.entries, blockFunction);
      indexIter.Seek(target);
      SplitInBlock(indexIter.entries, indexIter.pos, target);
      InitDataBlock();
      if dataIter != null {
        SortedParts(indexIter.entries, blockFunction);
        assert Sorted(dataIter.entries);
        dataIter.Seek(target);
        SplitInBlock(dataIter.entries, dataIter.pos, target);
      }
      TwoSeeks(indexIter.entries, blockFunction, indexIter.pos, if dataIter != null then dataIter.pos else 0, target);
      SkipEmptyDataBlocksForward();
    }

    method SeekToFirst()
      requires Inv()
      modifies this, indexIter, dataIter
      ensures Inv() && At() == 0
    {
      hide Joined, Separated;
      NoneBefore(indexIter.entries, blockFunction);
      indexIter.SeekToFirst();
      InitDataBlock();
      if dataIter != null { dataIter.SeekToFirst(); }
      SkipEmptyDataBlocksForward();
    }

    method SeekToLast()
      requires Inv()
      modifies this, indexIter, dataIter
      ensures Inv() && At() == if Contents() == [] then 0 else |Contents()| - 1
    {
      hide Joined, Separated;
      ghost var index := indexIter.entries;
      indexIter.SeekToLast();
      InitDataBlock();
      if dataIter != null {
        BlockAt(index, blockFunction, indexIter.pos);
        dataIter.SeekToLast();
      } else {
        NoneBefore(index, blockFunction);
      }
      SkipEmptyDataBlocksBackward();
      Observed();
    }

    method Next()
      requires Inv() && Valid()
      modifies this, indexIter, dataIter
      ensures Inv() && At() == old(At()) + 1
    {
      hide Joined, Separated;
      dataIter.Next();
      SkipEmptyDataBlocksForward();
    }

    method Prev()
      requires Inv() && Valid()
      modifies this, indexIter, dataIter
      ensures Inv()
      ensures old(At()) > 0 ==> Valid() && At() == old(At()) - 1
      ensures old(At()) == 0 ==> !Valid()
    {
      hide Joined, Separated;
      Observed();
      dataIter.Prev();
      SkipEmptyDataBlocksBackward();
      Observed();
    }
  }

  lemma SortedParts(index: seq<Entry>, block: Value -> seq<Entry>)
    requires Separated(index, block)
    ensures Sorted(index) && forall i :: 0 <= i < |index| ==> Sorted(block(index[i].value))
  {
  }

  lemma NoneBefore(index: seq<Entry>, block: Value -> seq<Entry>)
    ensures Start(index, block, 0) == 0
  {
  }
}
