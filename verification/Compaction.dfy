/**
 The merge loop of a compaction: which entries it drops, how it cuts its
 output into files, and what readers at each snapshot see before and after.
 */
module Compactions {
  import opened Options
  import opened Format
  import opened Versions

  /** No file below the output level may hold `user`. */
  ghost predicate IsBase(v: Version, level: nat, user: int) {
    forall l, f :: level + 2 <= l && In(v, l, f) ==> !(Smallest(f).user <= user <= Largest(f).user)
  }

  /** Rule (A): an entry is hidden when its predecessor is a newer version every snapshot already sees. */
  predicate Hidden(input: seq<Entry>, i: nat, snapshot: nat)
    requires i < |input|
  {
    i > 0 && input[i - 1].key.user == input[i].key.user && input[i - 1].key.seqno <= snapshot
  }

  /** A deletion marker with nothing below it that every snapshot already sees. */
  ghost predicate Obsolete(e: Entry, snapshot: nat, v: Version, level: nat) {
    e.key.kind.Deletion? && e.key.seqno <= snapshot && IsBase(v, level, e.key.user)
  }

  ghost predicate Dropped(input: seq<Entry>, i: nat, snapshot: nat, v: Version, level: nat)
    requires i < |input|
  {
    Hidden(input, i, snapshot) || Obsolete(input[i], snapshot, v, level)
  }

  /** What remains of the first `n` merged entries. */
  ghost function Survivors(input: seq<Entry>, n: nat, snapshot: nat, v: Version, level: nat): seq<Entry>
    requires n <= |input|
  {
    if n == 0 then []
    else
      Survivors(input, n - 1, snapshot, v, level)
      + if Dropped(input, n - 1, snapshot, v, level) then [] else [input[n - 1]]
  }

  lemma {:induction false} SurvivorsHas(input: seq<Entry>, n: nat, snapshot: nat, v: Version, level: nat, e: Entry)
    requires n <= |input|
    ensures e in Survivors(input, n, snapshot, v, level) <==>
            exists i :: 0 <= i < n && input[i] == e && !Dropped(input, i, snapshot, v, level)
  {
    if n > 0 {
      SurvivorsHas(input, n - 1, snapshot, v, level, e);
    }
  }

  lemma {:induction false} SurvivorsSorted(input: seq<Entry>, n: nat, snapshot: nat, v: Version, level: nat)
    requires n <= |input| && Sorted(input)
    ensures Sorted(Survivors(input, n, snapshot, v, level))
  {
    if n > 0 {
      SurvivorsSorted(input, n - 1, snapshot, v, level);
      var before := Survivors(input, n - 1, snapshot, v, level);
      forall k | 0 <= k < |before| ensures Less(before[k].key, input[n - 1].key) {
        SurvivorsHas(input, n - 1, snapshot, v, level, before[k]);
      }
    }
  }

  ghost function Flat(outputs: seq<seq<Entry>>): seq<Entry> {
    if outputs == [] then [] else Flat(outputs[..|outputs| - 1]) + outputs[|outputs| - 1]
  }

  class Compaction {
    const level: nat
    const inputVersion: Version
    /** One cursor per level; it only ever advances. */
    const levelPtrs: array<nat>

    constructor (level: nat, v: Version)
      requires ValidVersion(v) && level + 1 < NUM_LEVELS
      ensures this.level == level && inputVersion == v && Valid()
      ensures forall user :: Passed(user)
      ensures fresh(levelPtrs)
    {
      this.level := level;
      inputVersion := v;
      levelPtrs := new nat[NUM_LEVELS](_ => 0);
    }

    ghost predicate Valid()
      reads levelPtrs
    {
      && ValidVersion(inputVersion) && level + 1 < NUM_LEVELS && levelPtrs.Length == NUM_LEVELS
      && forall l :: 0 <= l < NUM_LEVELS ==> levelPtrs[l] <= |inputVersion[l]|
    }

    /** Every file a cursor has left behind ends before `user`. */
    ghost predicate Passed(user: int)
      reads levelPtrs
      requires Valid()
    {
      forall l, i :: 0 <= l < NUM_LEVELS && 0 <= i < levelPtrs[l] ==> Largest(inputVersion[l][i]).user < user
    }

    /** Asked for non-decreasing user keys, the moving cursors decide exactly IsBase. */
    method IsBaseLevelForKey(user: int) returns (base: bool)
      requires Valid() && Passed(user)
      modifies levelPtrs
      ensures Valid() && Passed(user)
      ensures base <==> IsBase(inputVersion, level, user)
    {
      for lvl := level + 2 to NUM_LEVELS
        invariant Valid() && Passed(user)
        invariant forall l, f :: level + 2 <= l < lvl && In(inputVersion, l, f) ==>
                  !(Smallest(f).user <= user <= Largest(f).user)
      {
        var files := inputVersion[lvl];
        while levelPtrs[lvl] < |files|
          invariant Valid() && Passed(user)
        {
          var f := files[levelPtrs[lvl]];
          if user <= Largest(f).user {
            if user >= Smallest(f).user {
              assert In(inputVersion, lvl, f);
              return false;
            }
            break;
          }
          levelPtrs[lvl] := levelPtrs[lvl] + 1;
        }
        forall g | g in files ensures !(Smallest(g).user <= user <= Largest(g).user) {
          var k :| 0 <= k < |files| && files[k] == g;
          if levelPtrs[lvl] < k {
            AcrossFiles(files, levelPtrs[lvl], k, files[levelPtrs[lvl]].entries[0], files[k].entries[0]);
          }
        }
      }
      base := true;
    }
  }

  /** Finished outputs and the open one hold exactly `es`, in order; no finished output is empty. */
  ghost predicate Written(outputs: seq<seq<Entry>>, builder: seq<Entry>, es: seq<Entry>) {
    Flat(outputs) + builder == es && forall k :: 0 <= k < |outputs| ==> outputs[k] != []
  }

  lemma CutKeeps(outputs: seq<seq<Entry>>, builder: seq<Entry>, es: seq<Entry>)
    requires Written(outputs, builder, es) && builder != []
    ensures Written(outputs + [builder], [], es)
  {
    assert (outputs + [builder])[..|outputs|] == outputs;
  }

  lemma AddKeeps(outputs: seq<seq<Entry>>, builder: seq<Entry>, es: seq<Entry>, e: Entry)
    requires Written(outputs, builder, es)
    ensures Written(outputs, builder + [e], es + [e])
  {
    assert Flat(outputs) + (builder + [e]) == (Flat(outputs) + builder) + [e];
  }

  /** The running variables of the loop: user key and sequence number of the previous entry. */
  datatype Running = Fresh | After(user: int, seqno: nat)

  ghost predicate Tracks(r: Running, input: seq<Entry>, i: nat)
    requires i <= |input|
  {
    r == if i == 0 then Fresh else After(input[i - 1].key.user, input[i - 1].key.seqno)
  }

  /** Sequence numbers take 56 bits of the packed tag. */
  ghost predicate Packed(input: seq<Entry>) {
    forall e :: e in input ==> e.key.seqno <= MAX_SEQUENCE
  }

  /**
   The two drop rules, as decided for entry `i` from the running variables and the cursors. The
   running number starts at the largest sequence number, so a snapshot as large as that drops everything.
   */
  method ShouldDrop(c: Compaction, input: seq<Entry>, i: nat, r: Running, smallestSnapshot: nat) returns (drop: bool)
    requires i < |input| && Tracks(r, input, i) && Packed(input)
    requires c.Valid() && c.Passed(input[i].key.user)
    modifies c.levelPtrs
    ensures c.Valid() && c.Passed(input[i].key.user)
    ensures drop <==> smallestSnapshot >= MAX_SEQUENCE || Dropped(input, i, smallestSnapshot, c.inputVersion, c.level)
  {
    var e := input[i];
    var lastSequenceForKey := if r.Fresh? || r.user != e.key.user then MAX_SEQUENCE else r.seqno;
    assert i > 0 ==> input[i - 1] in input;
    if lastSequenceForKey <= smallestSnapshot {
      drop := true;
    } else if e.key.kind.Deletion? && e.key.seqno <= smallestSnapshot {
      drop := c.IsBaseLevelForKey(e.key.user);
    } else {
      drop := false;
    }
  }

  /** What the first `n` merged entries leave in the outputs. */
  ghost function Kept(input: seq<Entry>, n: nat, snapshot: nat, v: Version, level: nat): seq<Entry>
    requires n <= |input|
  {
    if snapshot >= MAX_SEQUENCE then [] else Survivors(input, n, snapshot, v, level)
  }

  /** One more entry, dropped or not. */
  lemma KeptNext(input: seq<Entry>, i: nat, snapshot: nat, v: Version, level: nat, drop: bool)
    requires i < |input| && (drop <==> snapshot >= MAX_SEQUENCE || Dropped(input, i, snapshot, v, level))
    ensures Kept(input, i + 1, snapshot, v, level) ==
            Kept(input, i, snapshot, v, level) + if drop then [] else [input[i]]
  {
  }

  /** The outputs follow the two rules exactly when the snapshot is below the largest number or all goes anyway. */
  lemma KeptIsSurvivorsIff(input: seq<Entry>, snapshot: nat, v: Version, level: nat)
    ensures Kept(input, |input|, snapshot, v, level) == Survivors(input, |input|, snapshot, v, level) <==>
            snapshot < MAX_SEQUENCE || forall i :: 0 <= i < |input| ==> Dropped(input, i, snapshot, v, level)
  {
    var survivors := Survivors(input, |input|, snapshot, v, level);
    if survivors != [] {
      SurvivorsHas(input, |input|, snapshot, v, level, survivors[0]);
    }
    forall i | 0 <= i < |input| && !Dropped(input, i, snapshot, v, level) ensures survivors != [] {
      SurvivorsHas(input, |input|, snapshot, v, level, input[i]);
    }
  }

  /**
   DBImpl::DoCompactionWork: one pass over the merged input. `cutBefore` and `cutAfter` stand
   for the grandparent-overlap and file-size limits that end an output file.
   */
  method DoCompactionWork(c: Compaction, input: seq<Entry>, smallestSnapshot: nat,
                          cutBefore: nat -> bool, cutAfter: nat -> bool)
    returns (outputs: seq<seq<Entry>>)
    requires c.Valid() && (input != [] ==> c.Passed(input[0].key.user))
    requires Sorted(input) && Packed(input)
    modifies c.levelPtrs
    ensures Written(outputs, [], Kept(input, |input|, smallestSnapshot, c.inputVersion, c.level))
  {
    outputs := [];
    var builder: seq<Entry> := [];   // the open output; empty when no file is open
    var r := Fresh;
    for i := 0 to |input|
      invariant c.Valid() && (i < |input| ==> c.Passed(input[i].key.user))
      invariant Tracks(r, input, i)
      invariant Written(outputs, builder, Kept(input, i, smallestSnapshot, c.inputVersion, c.level))
    {
      ghost var done := Kept(input, i, smallestSnapshot, c.inputVersion, c.level);
      if cutBefore(i) && builder != [] {
        CutKeeps(outputs, builder, done);
        outputs, builder := outputs + [builder], [];
      }
      var drop := ShouldDrop(c, input, i, r, smallestSnapshot);
      KeptNext(input, i, smallestSnapshot, c.inputVersion, c.level, drop);
      r := After(input[i].key.user, input[i].key.seqno);
      if !drop {
        AddKeeps(outputs, builder, done, input[i]);
        builder := builder + [input[i]];
        if cutAfter(i) {
          CutKeeps(outputs, builder, done + [input[i]]);
          outputs, builder := outputs + [builder], [];
        }
      }
      if i + 1 < |input| { assert Less(input[i].key, input[i + 1].key); }
    }
    if builder != [] {
      CutKeeps(outputs, builder, Kept(input, |input|, smallestSnapshot, c.inputVersion, c.level));
      outputs := outputs + [builder];
    }
  }

  // ---- Every reader's view ----

  ghost predicate UniqueSeq(es: set<Entry>) {
    forall x, y :: x in es && y in es && x.key.user == y.key.user && x.key.seqno == y.key.seqno ==> x == y
  }

  ghost predicate Sees(es: set<Entry>, user: int, snapshot: nat, e: Entry) {
    Newest(es, user, snapshot, e) && e.key.kind.Value?
  }

  /** The value a reader at `snapshot` gets for `user`. */
  ghost function View(es: set<Entry>, user: int, snapshot: nat): Option<string> {
    if e: Entry :| Sees(es, user, snapshot, e) then Some(e.value) else None
  }

  lemma ViewOfNewest(es: set<Entry>, user: int, snapshot: nat, e: Entry)
    requires UniqueSeq(es) && Newest(es, user, snapshot, e)
    ensures View(es, user, snapshot) == if e.key.kind.Value? then Some(e.value) else None
  {
    if x: Entry :| Sees(es, user, snapshot, x) {
      assert x == e;
    }
    if e.key.kind.Value? { assert Sees(es, user, snapshot, e); }
  }

  lemma NewestExists(es: set<Entry>, user: int, snapshot: nat) returns (e: Entry)
    requires !NoneVisible(es, user, snapshot)
    ensures Newest(es, user, snapshot, e)
    decreases |es|
  {
    e :| e in es && e.key.user == user && e.key.seqno <= snapshot;
    var rest := es - {e};
    if !NoneVisible(rest, user, snapshot) {
      var x := NewestExists(rest, user, snapshot);
      if x.key.seqno > e.key.seqno { e := x; }
    }
    forall y | y in es && y.key.user == user && y.key.seqno <= snapshot ensures y.key.seqno <= e.key.seqno {
      if y in rest {}
    }
  }

  /**
   A compaction exposes old data when the newest version of a user key at the smallest
   snapshot is a deletion marker among the inputs, no deeper file may hold the key, and yet
   an older version left outside the inputs, the newest such, is a value.
   */
  ghost predicate Exposes(rest: set<Entry>, input: seq<Entry>, snapshot: nat, v: Version, level: nat) {
    exists e, x :: ExposedBy(rest, input, snapshot, v, level, e, x)
  }

  ghost predicate ExposedBy(rest: set<Entry>, input: seq<Entry>, snapshot: nat, v: Version, level: nat, e: Entry,
                            x: Entry) {
    && e in input && e.key.kind.Deletion? && Newest(rest + Elements(input), e.key.user, snapshot, e)
    && IsBase(v, level, e.key.user)
    && Sees(rest, e.key.user, snapshot, x)
  }

  ghost function Output(input: seq<Entry>, snapshot: nat, v: Version, level: nat): set<Entry> {
    Elements(Survivors(input, |input|, snapshot, v, level))
  }

  /** Among the inputs, everything older than a version all snapshots see is dropped. */
  lemma OlderIsHidden(input: seq<Entry>, snapshot: nat, v: Version, level: nat, e: Entry, x: Entry)
    requires Sorted(input) && UniqueSeq(Elements(input)) && e in input && e.key.seqno <= snapshot
    requires x in Output(input, snapshot, v, level) && x.key.user == e.key.user && x.key.seqno <= e.key.seqno
    ensures x == e
  {
    SurvivorsHas(input, |input|, snapshot, v, level, x);
    var i :| 0 <= i < |input| && input[i] == x && !Dropped(input, i, snapshot, v, level);
    var j :| 0 <= j < |input| && input[j] == e;
    assert x in Elements(input) && e in Elements(input);
    if i < j {
      assert Less(input[i].key, input[j].key);
    } else if j < i {
      assert false;
    }
  }

  lemma OutputWithinInput(input: seq<Entry>, snapshot: nat, v: Version, level: nat)
    ensures Output(input, snapshot, v, level) <= Elements(input)
  {
    forall x | x in Output(input, snapshot, v, level) ensures x in Elements(input) {
      SurvivorsHas(input, |input|, snapshot, v, level, x);
    }
  }

  /** The newest version a snapshot sees is dropped only as an obsolete deletion marker. */
  lemma NewestDropped(rest: set<Entry>, input: seq<Entry>, snapshot: nat, v: Version, level: nat, s: nat, e: Entry)
    requires Sorted(input) && UniqueSeq(rest + Elements(input)) && s >= snapshot
    requires Newest(rest + Elements(input), e.key.user, s, e)
    ensures e in rest + Output(input, snapshot, v, level) || (e in input && Obsolete(e, snapshot, v, level))
  {
    if e !in rest {
      SurvivorsHas(input, |input|, snapshot, v, level, e);
      var i :| 0 <= i < |input| && input[i] == e;
      if Hidden(input, i, snapshot) { assert false; }
    }
  }

  /** View preservation, one key and snapshot at a time. */
  lemma ViewKept(rest: set<Entry>, input: seq<Entry>, snapshot: nat, v: Version, level: nat, user: int, s: nat)
    requires Sorted(input) && UniqueSeq(rest + Elements(input)) && s >= snapshot
    requires !Exposes(rest, input, snapshot, v, level)
    ensures View(rest + Elements(input), user, s) == View(rest + Output(input, snapshot, v, level), user, s)
  {
    var before, after := rest + Elements(input), rest + Output(input, snapshot, v, level);
    OutputWithinInput(input, snapshot, v, level);
    if NoneVisible(before, user, s) {
      assert NoneVisible(after, user, s);
    } else {
      var e := NewestExists(before, user, s);
      NewestDropped(rest, input, snapshot, v, level, s, e);
      ViewOfNewest(before, user, s, e);
      if e in after {
        ViewOfNewest(after, user, s, e);
      } else if y: Entry :| Sees(after, user, s, y) {
        if y in rest {
          assert Sees(rest, user, snapshot, y);
          assert Newest(before, user, snapshot, e);
          assert ExposedBy(rest, input, snapshot, v, level, e, y);
        } else {
          OlderIsHidden(input, snapshot, v, level, e, y);
        }
        assert false;
      }
    }
  }

  /** An exposed value shows already at the smallest snapshot. */
  lemma ExposureShows(rest: set<Entry>, input: seq<Entry>, snapshot: nat, v: Version, level: nat) returns (user: int)
    requires Sorted(input) && UniqueSeq(rest + Elements(input)) && Exposes(rest, input, snapshot, v, level)
    ensures View(rest + Elements(input), user, snapshot) !=
            View(rest + Output(input, snapshot, v, level), user, snapshot)
  {
    var e, x :| ExposedBy(rest, input, snapshot, v, level, e, x);
    user := e.key.user;
    var before, after := rest + Elements(input), rest + Output(input, snapshot, v, level);
    OutputWithinInput(input, snapshot, v, level);
    ViewOfNewest(before, user, snapshot, e);
    forall y | y in after && y.key.user == user && y.key.seqno <= snapshot ensures y.key.seqno <= x.key.seqno {
      if y !in rest {
        assert y in before;
        OlderIsHidden(input, snapshot, v, level, e, y);
        TombstoneGone(input, snapshot, v, level, e);
      }
    }
    assert Newest(after, user, snapshot, x);
    ViewOfNewest(after, user, snapshot, x);
  }

  /** Every snapshot at or above the smallest keeps its view exactly when nothing is exposed. */
  lemma ViewsPreservedIff(rest: set<Entry>, input: seq<Entry>, snapshot: nat, v: Version, level: nat)
    requires Sorted(input) && UniqueSeq(rest + Elements(input))
    ensures !Exposes(rest, input, snapshot, v, level) <==>
            forall user, s :: s >= snapshot ==>
              View(rest + Elements(input), user, s) == View(rest + Output(input, snapshot, v, level), user, s)
  {
    if Exposes(rest, input, snapshot, v, level) {
      var user := ExposureShows(rest, input, snapshot, v, level);
    } else {
      forall user, s: nat | s >= snapshot
        ensures View(rest + Elements(input), user, s) == View(rest + Output(input, snapshot, v, level), user, s)
      {
        ViewKept(rest, input, snapshot, v, level, user, s);
      }
    }
  }

  lemma TombstoneGone(input: seq<Entry>, snapshot: nat, v: Version, level: nat, e: Entry)
    requires Obsolete(e, snapshot, v, level)
    ensures e !in Output(input, snapshot, v, level)
  {
    SurvivorsHas(input, |input|, snapshot, v, level, e);
  }

  /**
   The hypothesis under which LevelDB's argument holds: whatever is left outside the inputs
   for an input's user key is newer than it, or lies below in a level IsBase looks at.
   */
  ghost predicate UserKeyClosed(rest: set<Entry>, input: seq<Entry>, v: Version, level: nat) {
    forall x, y :: x in rest && y in input && x.key.user == y.key.user ==>
      x.key.seqno > y.key.seqno || !IsBase(v, level, y.key.user)
  }

  lemma ClosedExposesNothing(rest: set<Entry>, input: seq<Entry>, snapshot: nat, v: Version, level: nat)
    requires UserKeyClosed(rest, input, v, level)
    requires UniqueSeq(rest + Elements(input))
    ensures !Exposes(rest, input, snapshot, v, level)
  {
    if e, x :| ExposedBy(rest, input, snapshot, v, level, e, x) { assert false; }
  }
}
