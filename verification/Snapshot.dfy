/** The list of snapshots, oldest first, linked both ways. */
module Snapshots {
  import opened Caches

  const HEAD: nat := 0

  // The snapshots' numbers never go down along the list.
  ghost predicate Ascending(numbers: map<nat, nat>, l: seq<nat>) {
    && (forall x :: x in l ==> x in numbers)
    && forall i, j :: 0 <= i < j < |l| ==> numbers[l[i]] <= numbers[l[j]]
  }

  class SnapshotList {
    var links: Links
    var numbers: map<nat, nat>   // the sequence number of each snapshot
    var issued: nat
    ghost var list: seq<nat>

    ghost predicate Ok() reads this {
      && Ring(links, HEAD, list) && Ascending(numbers, list) && issued > HEAD
      && (forall x :: x in numbers <==> x in list) && forall x :: x in numbers ==> HEAD < x < issued
    }

    constructor ()
      ensures Ok() && list == []
    {
      links, numbers, issued, list := Links(map[HEAD := HEAD], map[HEAD := HEAD]), map[], 1, [];
    }

    method Empty() returns (empty: bool)
      requires Ok()
      ensures empty == (numbers == map[])
    {
      Neighbours(links, HEAD, list, HEAD);
      empty := links.next[HEAD] == HEAD;
      if list != [] { assert list[0] in list; }
    }

    /** The oldest snapshot has the smallest number. */
    method Oldest() returns (s: nat)
      requires Ok() && numbers != map[]
      ensures s in numbers && forall x :: x in numbers ==> numbers[s] <= numbers[x]
    {
      HasFirst(numbers, list);
      Neighbours(links, HEAD, list, HEAD);
      s := links.next[HEAD];
      Extremes(numbers, list);
    }

    method Newest() returns (s: nat)
      requires Ok() && numbers != map[]
      ensures s in numbers && forall x :: x in numbers ==> numbers[x] <= numbers[s]
    {
      HasFirst(numbers, list);
      LastIs(links, HEAD, list);
      s := links.prev[HEAD];
      Extremes(numbers, list);
    }

    /** A snapshot no older than the others goes to the end. */
    method New(sequence: nat) returns (s: nat)
      requires Ok() && forall x :: x in numbers ==> numbers[x] <= sequence
      modifies this
      ensures Ok() && s !in old(numbers) && numbers == old(numbers)[s := sequence] && list == old(list) + [s]
    {
      s := issued;
      RingAppend(links, HEAD, list, s);
      hide Ring;
      links := Appended(links, HEAD, s);
      numbers := numbers[s := sequence];
      list := list + [s];
      issued := issued + 1;
    }

    method Delete(s: nat)
      requires Ok() && s in numbers
      modifies this
      ensures Ok() && numbers == old(numbers) - {s} && list == Minus(old(list), s)
    {
      var i := Position(list, s);
      RingRemove(links, HEAD, list, i);
      WithoutMembers(list, i);
      WithoutAscending(numbers, list, i);
      hide Ring, Without, Ascending;
      links := Unlinked(links, s);
      numbers := numbers - {s};
      list := Without(list, i);
    }
  }

  lemma HasFirst(numbers: map<nat, nat>, l: seq<nat>)
    requires numbers != map[] && forall x :: x in numbers <==> x in l
    ensures l != []
  {
    var x :| x in numbers;
  }

  lemma Extremes(numbers: map<nat, nat>, l: seq<nat>)
    requires Ascending(numbers, l) && l != []
    ensures l[0] in numbers && l[|l| - 1] in numbers
    ensures forall x :: x in l ==> numbers[l[0]] <= numbers[x] <= numbers[l[|l| - 1]]
  {
    assert l[0] in l && l[|l| - 1] in l;
  }

  lemma LastIs(k: Links, head: nat, l: seq<nat>)
    requires Ring(k, head, l) && l != []
    ensures head in k.prev && k.prev[head] == l[|l| - 1]
  {
    assert LinkAt(k, Around(head, l), |l|);
  }

  lemma WithoutAscending(numbers: map<nat, nat>, l: seq<nat>, i: nat)
    requires Ascending(numbers, l) && i < |l| && NoRepeats(l)
    ensures Ascending(numbers - {l[i]}, Without(l, i))
  {
    WithoutMembers(l, i);
    var c := Without(l, i);
    forall a, b | 0 <= a < b < |c| ensures numbers[c[a]] <= numbers[c[b]] {
      assert c[a] == l[if a < i then a else a + 1] && c[b] == l[if b < i then b else b + 1];
    }
  }
}
