/** The contract every internal iterator offers: a cursor over a sorted run of entries. */
module Cursors {
  import opened Entries

  // Which way an iterator is moving.
  datatype Direction = Forward | Reverse

  class Cursor {
    const entries: seq<Entry>
    var pos: nat  // |entries| when not positioned at an entry

    constructor (es: seq<Entry>)
      ensures entries == es && pos == |es|
    {
      entries, pos := es, |es|;
    }

    predicate Ok() reads this { Sorted(entries) && pos <= |entries| }

    predicate Valid() reads this { pos < |entries| }

    function Key(): IKey
      requires Valid()
      reads this
    {
      entries[pos].key
    }

    function Val(): Value
      requires Valid()
      reads this
    {
      entries[pos].value
    }

    method SeekToFirst()
      modifies this
      ensures pos == 0
    {
      pos := 0;
    }

    method SeekToLast()
      modifies this
      ensures pos == if entries == [] then 0 else |entries| - 1
    {
      pos := if entries == [] then 0 else |entries| - 1;
    }

    method Next()
      requires Valid()
      modifies this
      ensures pos == old(pos) + 1
    {
      pos := pos + 1;
    }

    method Prev()
      requires Valid()
      modifies this
      ensures pos == if old(pos) == 0 then |entries| else old(pos) - 1
    {
      pos := if pos == 0 then |entries| else pos - 1;
    }

    method Seek(target: IKey)
      requires Ok()
      modifies this
      ensures Ok()
      ensures forall i :: 0 <= i < pos ==> Before(entries[i].key, target)
      ensures Valid() ==> AtOrAfter(Key(), target)
    {
      pos := 0;
      while pos < |entries| && Before(entries[pos].key, target)
        invariant pos <= |entries|
        invariant forall i :: 0 <= i < pos ==> Before(entries[i].key, target)
      {
        pos := pos + 1;
      }
    }
  }
}
