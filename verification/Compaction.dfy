/** Running a compaction: which entries are dropped, and why no reader can tell. */
module Compactions {
  import opened Entries
  import opened Versions
  import opened Selection

  // ----- IsBaseLevelForKey -----

  predicate Spans(f: File, u: UserKey)
    requires f.entries != []
  {
    Smallest(f).user <= u <= Largest(f).user
  }

  // No file below the output level covers u.
  ghost predicate IsBase(v: Version, level: nat, u: UserKey)
    requires LevelOrder(v)
  {
    forall l, i :: level + 2 <= l < NUM_LEVELS && 0 <= i < |v[l]| ==> !Spans(v[l][i], u)
  }

  class Compaction {
    const v: Version
    const level: nat
    var levelPtrs: seq<nat>
    ghost var asked: Option<UserKey>   // the last user key asked about

    constructor (v: Version, level: nat)
      requires LevelOrder(v) && level + 1 < NUM_LEVELS
      ensures Ok() && this.v == v && this.level == level && asked == None
    {
      this.v, this.level := v, level;
      levelPtrs := seq(NUM_LEVELS, l => 0);
      asked := None;
    }

    // The pointers have only skipped files that end before every key asked about.
    ghost predicate Ok() reads this {
      && LevelOrder(v) && level + 1 < NUM_LEVELS && |levelPtrs| == NUM_LEVELS
      && forall l :: 0 <= l < NUM_LEVELS ==> Skipped(l, levelPtrs[l], asked)
    }

    ghost predicate Skipped(l: nat, ptr: nat, u: Option<UserKey>)
      requires LevelOrder(v) && l < NUM_LEVELS
    {
      ptr <= |v[l]| && forall i :: 0 <= i < ptr ==> u.Some? && Largest(v[l][i]).user < u.value
    }

    /** Exact for any sequence of calls with ascending user keys. */
    method IsBaseLevelForKey(u: UserKey) returns (base: bool)
      requires Ok() && (asked.Some? ==> asked.value <= u)
      modifies this
      ensures Ok() && asked == Some(u)
      ensures base <==> IsBase(v, level, u)
    {
      asked := Some(u);
      for lvl := level + 2 to NUM_LEVELS
        invariant Ok() && asked == Some(u)
        invariant forall l, i :: level + 2 <= l < lvl && 0 <= i < |v[l]| ==> !Spans(v[l][i], u)
      {
        var files := v[lvl];
        while levelPtrs[lvl] < |files|
          invariant Ok() && asked == Some(u)
          decreases |files| - levelPtrs[lvl]
        {
          var f := files[levelPtrs[lvl]];
          if u <= Largest(f).user {
            if u >= Smallest(f).user {
              base := false;
              assert Spans(v[lvl][levelPtrs[lvl]], u);
              return;
            }
            break;
          }
          levelPtrs := levelPtrs[lvl := levelPtrs[lvl] + 1];
        }
        GapSpansNone(files, levelPtrs[lvl], u);
      }
      base := true;
    }
  }

  // u falls before the file at ptr and after all files skipped.
  lemma GapSpansNone(files: seq<File>, ptr: nat, u: UserKey)
    requires GoodFiles(files) && Disjoint(files) && ptr <= |files|
    requires forall i :: 0 <= i < ptr ==> Largest(files[i]).user < u
    requires ptr < |files| ==> u < Smallest(files[ptr]).user
    ensures forall i :: 0 <= i < |files| ==> !Spans(files[i], u)
  {
    forall i | ptr < i < |files| ensures u < Smallest(files[i]).user {
      TwoFiles(files, ptr, i);
      WithinFile(files[ptr], files[ptr].entries[0]);
    }
  }

  // ----- The drop rules -----

  // current_user_key and last_sequence_for_key of the compaction loop.
  datatype DropState = DropState(user: Option<UserKey>, last: nat)

  const INITIAL := DropState(None, MAX_SEQUENCE)

  // The state after entry e has been looked at.
  function After(e: Entry): DropState {
    if e.key.Parses() then DropState(Some(e.key.user), e.key.sn) else INITIAL
  }

  function StateAt(es: seq<Entry>, i: nat): DropState
    requires i <= |es|
  {
    if i == 0 then INITIAL else After(es[i - 1])
  }

  // last_sequence_for_key as the loop sees it for an entry of user key u.
  function LastFor(st: DropState, u: UserKey): nat { if st.user == Some(u) then st.last else MAX_SEQUENCE }

  ghost predicate Drop(v: Version, level: nat, ss: nat, st: DropState, e: Entry)
    requires LevelOrder(v)
  {
    && e.key.Parses()
    && (|| LastFor(st, e.key.user) <= ss                                                 // rule (A)
        || (e.key.tag == TYPE_DELETION && e.key.sn <= ss && IsBase(v, level, e.key.user)))  // rule (B)
  }

  /** The entries a compaction writes out, from the i-th input entry on. */
  ghost function Retained(v: Version, level: nat, ss: nat, es: seq<Entry>, i: nat): seq<Entry>
    requires LevelOrder(v) && i <= |es|
    decreases |es| - i
  {
    if i == |es| then []
    else (if Drop(v, level, ss, StateAt(es, i), es[i]) then [] else [es[i]]) + Retained(v, level, ss, es, i + 1)
  }

  function Concat(fs: seq<File>): seq<Entry> {
    if fs == [] then [] else Concat(fs[..|fs| - 1]) + fs[|fs| - 1].entries
  }

  // Output files carry consecutive fresh numbers and hold consecutive runs of entries.
  predicate Outputs(fs: seq<File>, first: nat) {
    forall k :: 0 <= k < |fs| ==> fs[k].number == first + k && fs[k].entries != []
  }

  /** The compaction loop.  When an output file is closed (for its size or for the grandparent
      files it overlaps) and what size it then has is left open. */
  method DoCompactionWork(c: Compaction, input: seq<Entry>, smallestSnapshot: nat, firstNumber: nat)
    returns (outputs: seq<File>)
    requires c.Ok() && c.asked == None && Sorted(input)
    modifies c
    ensures c.Ok()
    ensures Concat(outputs) == Retained(c.v, c.level, smallestSnapshot, input, 0)
    ensures Outputs(outputs, firstNumber)
  {
    hide Retained, IsBase, Concat, LevelOrder, Sorted, Compaction.Skipped;
    outputs := [];
    ghost var written := [];
    assert Concat([]) == [] by { ConcatNone(); }
    var currentUserKey: Option<UserKey>, lastSequenceForKey: nat := None, MAX_SEQUENCE;
    var builder: seq<Entry> := [];  // empty when no output file is open
    var i := 0;
    while i < |input|
      invariant i <= |input| && c.Ok()
      invariant DropState(currentUserKey, lastSequenceForKey) == StateAt(input, i)
      invariant c.asked.Some? ==> i > 0 && c.asked.value <= input[i - 1].key.user
      invariant Outputs(outputs, firstNumber) && written == Concat(outputs) + builder
      invariant written + Retained(c.v, c.level, smallestSnapshot, input, i) ==
                Retained(c.v, c.level, smallestSnapshot, input, 0)
    {
      outputs, builder := MaybeFinish(outputs, builder, firstNumber);  // ShouldStopBefore
      var ikey := input[i].key;
      var drop := false;
      if i > 0 { Ordered(input, i - 1, i); }
      if !ikey.Parses() {
        // do not hide error keys
        currentUserKey := None;
        lastSequenceForKey := MAX_SEQUENCE;
      } else {
        if currentUserKey.None? || ikey.user != currentUserKey.value {
          // first occurrence of this user key
          currentUserKey := Some(ikey.user);
          lastSequenceForKey := MAX_SEQUENCE;
        }
        if lastSequenceForKey <= smallestSnapshot {
          // hidden by a newer entry for the same user key
          drop := true;
        } else if ikey.tag == TYPE_DELETION && ikey.sn <= smallestSnapshot {
          drop := c.IsBaseLevelForKey(ikey.user);
        }
        lastSequenceForKey := ikey.sn;
      }
      RetainedStep(c.v, c.level, smallestSnapshot, input, i, drop);
      if !drop {
        builder := builder + [input[i]];
        written := written + [input[i]];
        outputs, builder := MaybeFinish(outputs, builder, firstNumber);  // the file is big enough
      }
      i := i + 1;
    }
    if builder != [] {
      outputs := FinishOutputFile(outputs, builder, firstNumber);
    }
    RetainedStep(c.v, c.level, smallestSnapshot, input, i, false);
  }

  lemma ConcatNone()
    ensures Concat([]) == []
  {
  }

  lemma RetainedStep(v: Version, level: nat, ss: nat, es: seq<Entry>, i: nat, drop: bool)
    requires LevelOrder(v) && i <= |es|
    requires i < |es| ==> drop == Drop(v, level, ss, StateAt(es, i), es[i])
    ensures Retained(v, level, ss, es, i) ==
      if i == |es| then [] else (if drop then [] else [es[i]]) + Retained(v, level, ss, es, i + 1)
  {
  }

  method MaybeFinish(outputs: seq<File>, builder: seq<Entry>, firstNumber: nat) returns (r: seq<File>, open: seq<Entry>)
    requires Outputs(outputs, firstNumber)
    ensures Outputs(r, firstNumber) && Concat(r) + open == Concat(outputs) + builder
  {
    r, open := outputs, builder;
    var stop: bool := *;
    if stop && builder != [] {
      r := FinishOutputFile(outputs, builder, firstNumber);
      open := [];
    }
  }

  method FinishOutputFile(outputs: seq<File>, entries: seq<Entry>, firstNumber: nat) returns (r: seq<File>)
    requires Outputs(outputs, firstNumber) && entries != []
    ensures Outputs(r, firstNumber) && Concat(r) == Concat(outputs) + entries
  {
    var size: nat :| true;
    r := outputs + [File(firstNumber + |outputs|, size, entries)];
    assert r[..|r| - 1] == outputs;
  }
}
