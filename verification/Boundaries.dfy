/**
 Output cutting can leave versions of one user key in neighbouring files of a
 level, and above level 0 the choice of inputs does not pull in the neighbour.
 What that does to the order of the levels and to readers: the exact
 conditions, and inputs on which they fail.
 */
module Boundaries {
  import opened Options
  import opened Format
  import opened Versions
  import opened CompactionInputs
  import opened Compactions
  import opened Placement
  import opened Merging

  // ---- Level 0 ----

  /** At level 0 what stays behind shares no user key with the first input, so only level 1 matters. */
  lemma Level0Boundary(v: Version, job: Job)
    requires ValidVersion(v) && job.level == 0 && job.in0 != [] && InputsPresent(v, job) && Whole(v[0], job.in0)
    ensures forall f, g :: LeftAbove(v, job, g) && f in job.in0 ==> NoShared(g, f)
    ensures UpperClosed(v, job)
    ensures BoundaryClosed(v, job) <==> LowerClosed(v, job)
  {
    MissedAtLevel0(v[0], job.in0, LoUser(job.in0), HiUser(job.in0));
    forall g | LeftAbove(v, job, g) ensures g in v[0] && g !in job.in0 {}
    NoneSharedCloses(v, job);
  }

  lemma NoneSharedCloses(v: Version, job: Job)
    requires forall f, g :: LeftAbove(v, job, g) && f in job.in0 ==> NoShared(g, f)
    ensures UpperClosed(v, job)
  {
  }

  lemma MissedAtLevel0(files: seq<File>, in0: seq<File>, lo: int, hi: int)
    requires ValidFiles(files)
    requires forall f :: f in in0 ==> f in files && lo <= Smallest(f).user && Largest(f).user <= hi
    requires forall g :: g in files && Meets(g, Some(lo), Some(hi)) ==> g in in0
    ensures forall f, g :: g in files && g !in in0 && f in in0 ==> NoShared(g, f)
  {
    forall f, g | g in files && g !in in0 && f in in0 ensures NoShared(g, f) {
      NarrowMiss(f, g, lo, hi);
    }
  }

  // ---- The order of the levels ----

  ghost predicate NewestRead(job: Job, e: Entry) {
    Read(job, e) && forall y :: Read(job, y) && y.key.user == e.key.user ==> y.key.seqno <= e.key.seqno
  }

  /**
   A file left behind in the upper level holds a version of a user key that is not newer than the newest
   one read, and that newest one is in the first input and is not an obsolete deletion.
   */
  ghost predicate OlderLeftAbove(v: Version, job: Job, g: File, x: Entry, e: Entry) {
    && LeftAbove(v, job, g) && x in g.entries && ReadAbove(job, e)
    && x.key.user == e.key.user && x.key.seqno <= e.key.seqno
    && NewestRead(job, e) && !Obsolete(e, job.snapshot, job.base, job.level)
  }

  ghost predicate ReadAbove(job: Job, e: Entry) {
    exists f :: f in job.in0 && e in f.entries
  }

  lemma NewestReadExists(job: Job, input: seq<Entry>, y: Entry) returns (e: Entry)
    requires Merges(input, job) && Read(job, y)
    ensures NewestRead(job, e) && e.key.user == y.key.user && y.key.seqno <= e.key.seqno
  {
    var es := Elements(input);
    var top := TopNumber(es);
    assert y in es;
    e := NewestExists(es, y.key.user, top);
    forall z | Read(job, z) && z.key.user == e.key.user ensures z.key.seqno <= e.key.seqno {
      assert z in es;
    }
  }

  lemma TopNumber(es: set<Entry>) returns (top: nat)
    ensures forall e :: e in es ==> e.key.seqno <= top
  {
    top := 0;
    var rest := es;
    while rest != {}
      invariant rest <= es && forall e :: e in es - rest ==> e.key.seqno <= top
    {
      var e: Entry :| e in rest;
      rest := rest - {e};
      if e.key.seqno > top { top := e.key.seqno; }
    }
  }

  /** The newest version read survives unless it is an obsolete deletion. */
  lemma NewestSurvives(job: Job, input: seq<Entry>, e: Entry)
    requires Merges(input, job) && UniqueSeq(Elements(input)) && NewestRead(job, e)
    ensures e in Output(input, job.snapshot, job.base, job.level) <==> !Obsolete(e, job.snapshot, job.base, job.level)
  {
    SurvivorsHas(input, |input|, job.snapshot, job.base, job.level, e);
    var i :| 0 <= i < |input| && input[i] == e;
    assert i > 0 ==> input[i - 1] in Elements(input) && Less(input[i - 1].key, input[i].key) && Read(job, input[i - 1]);
  }

  /** If the newest version read is an obsolete deletion, no version of its user key is written. */
  lemma NothingSurvives(job: Job, input: seq<Entry>, e: Entry, y: Entry)
    requires Merges(input, job) && UniqueSeq(Elements(input)) && NewestRead(job, e)
    requires y in Output(input, job.snapshot, job.base, job.level) && y.key.user == e.key.user
    ensures !Obsolete(e, job.snapshot, job.base, job.level)
  {
    OutputWithinInput(input, job.snapshot, job.base, job.level);
    assert y in Elements(input);
    if Obsolete(e, job.snapshot, job.base, job.level) {
      OlderIsHidden(input, job.snapshot, job.base, job.level, e, y);
      NewestSurvives(job, input, e);
    }
  }

  lemma OlderFromViolation(v: Version, job: Job, input: seq<Entry>, g: File, x: Entry, y: Entry) returns (e: Entry)
    requires LevelOrder(v) && InputsPresent(v, job) && Merges(input, job) && UniqueSeq(Elements(input))
    requires LeftAbove(v, job, g) && x in g.entries && y in Output(input, job.snapshot, job.base, job.level)
    requires x.key.user == y.key.user && x.key.seqno <= y.key.seqno
    ensures OlderLeftAbove(v, job, g, x, e)
  {
    OutputWithinInput(input, job.snapshot, job.base, job.level);
    assert y in Elements(input);
    e := NewestReadExists(job, input, y);
    NothingSurvives(job, input, e, y);
    var f :| f in Inputs(job) && e in f.entries;
    assert In(v, job.level + 1, f) ==> Newer(g, f);
  }

  /**
   Installing a compaction keeps newer data above older exactly when no file left behind in the upper level
   holds an older version of a user key whose newest version read is written.
   */
  lemma InstallKeepsOrderIff(v: Version, job: Job, input: seq<Entry>, outs: seq<File>, v': Version)
    requires LevelOrder(v) && InputsPresent(v, job) && Installed(v, job, outs, v') && job.snapshot < MAX_SEQUENCE
    requires Merges(input, job) && UniqueSeq(Elements(input)) && Packed(input) && Compacted(input, job, outs)
    ensures LevelOrder(v') <==> !exists g, x, e :: OlderLeftAbove(v, job, g, x, e)
  {
    OutputsHold(input, job, outs);
    OutputsFromInputs(job, input, outs);
    InstallOrder(v, job, outs, v');
    if !OutputsOlder(v, job, outs) {
      var g, o :| LeftAbove(v, job, g) && o in outs && !Newer(g, o);
      var x, y :| x in g.entries && y in o.entries && x.key.user == y.key.user && x.key.seqno <= y.key.seqno;
      var e := OlderFromViolation(v, job, input, g, x, y);
    }
    if g, x, e :| OlderLeftAbove(v, job, g, x, e) {
      NewestSurvives(job, input, e);
      var o :| o in outs && e in o.entries;
      assert !Newer(g, o);
    }
  }

  /** Moving a file drops nothing: the order survives exactly when the file's level is closed. */
  lemma MoveOrder(v: Version, job: Job, v': Version)
    requires ValidVersion(v) && LevelOrder(v) && JobPlaced(v, job) && |job.in0| == 1 && job.in1 == []
    requires Installed(v, job, job.in0, v')
    ensures LevelOrder(v') <==> UpperClosed(v, job)
  {
    MoveIsInstall(v, job);
    InstallOrder(v, job, job.in0, v');
  }

  /**
   Above level 0 closedness shows in the bounds of files: no file left behind begins on the user key an input ends
   on.
   */
  lemma UpperClosedAtEnds(v: Version, job: Job)
    requires ValidVersion(v) && 0 < job.level < NUM_LEVELS && InputsPresent(v, job) && UniqueSeq(Contents(v))
    ensures UpperClosed(v, job) <==> !exists f, g :: f in job.in0 && LeftAbove(v, job, g) && EndsOn(f, g)
  {
    EndsOnIff(v, job.level, job.in0);
    forall f, g
      ensures LeftAbove(v, job, g) && f in job.in0 <==>
              In(v, job.level, g) && g !in job.in0 && f in job.in0
    {}
  }

  lemma LowerClosedAtEnds(v: Version, job: Job)
    requires ValidVersion(v) && job.level + 1 < NUM_LEVELS && InputsPresent(v, job) && UniqueSeq(Contents(v))
    ensures LowerClosed(v, job) <==> !exists f, g :: f in job.in1 && LeftBelow(v, job, g) && EndsOn(f, g)
  {
    EndsOnIff(v, job.level + 1, job.in1);
  }

  /** Above level 0, another file of the level begins on the user key on which the moved one ends. */
  ghost predicate Continued(v: Version, job: Job)
    requires job.in0 != []
  {
    job.level > 0 && exists g :: LeftAbove(v, job, g) && EndsOn(job.in0[0], g)
  }

  lemma ContinuedIff(v: Version, job: Job)
    requires ValidVersion(v) && UniqueSeq(Contents(v)) && job.level < NUM_LEVELS
    requires InputsPresent(v, job) && |job.in0| == 1 && (job.level == 0 ==> Whole(v[0], job.in0))
    ensures UpperClosed(v, job) <==> !Continued(v, job)
  {
    if job.level == 0 {
      Level0Boundary(v, job);
    } else {
      UpperClosedAtEnds(v, job);
      OnlyInput(job);
    }
  }

  lemma OnlyInput(job: Job)
    requires |job.in0| == 1
    ensures forall f :: f in job.in0 <==> f == job.in0[0]
  {
  }

  /** The test a caller could make before moving a file: the next file's first user key. At level 0 none is needed. */
  lemma MoveKeepsOrderIff(v: Version, job: Job, v': Version)
    requires ValidVersion(v) && LevelOrder(v) && UniqueSeq(Contents(v))
    requires job.base == v && GoodInputs(v, job.level, job.in0, job.in1) && |job.in0| == 1 && job.in1 == []
    requires Installed(v, job, job.in0, v')
    ensures LevelOrder(v') <==> !Continued(v, job)
  {
    StartPlaced(v, job);
    MoveOrder(v, job, v');
    ContinuedIff(v, job);
  }

  ghost predicate EndsOn(f: File, g: File) {
    Less(Largest(f), Smallest(g)) && Largest(f).user == Smallest(g).user
  }

  lemma EndsOnIff(v: Version, l: nat, fs: seq<File>)
    requires ValidVersion(v) && 0 < l < NUM_LEVELS && UniqueSeq(Contents(v)) && forall f :: f in fs ==> In(v, l, f)
    ensures forall f, g :: f in fs && In(v, l, g) && g !in fs ==> (Newer(g, f) <==> !EndsOn(f, g))
  {
    forall f, g | f in fs && In(v, l, g) && g !in fs ensures Newer(g, f) <==> !EndsOn(f, g) {
      ApartFromOrdered(v[l], f, g);
      NewerAtEnds(v, l, f, g);
    }
  }

  lemma NewerAtEnds(v: Version, l: nat, f: File, g: File)
    requires ValidVersion(v) && UniqueSeq(Contents(v)) && In(v, l, f) && In(v, l, g) && Apart(f, g)
    ensures Newer(g, f) <==> !EndsOn(f, g)
  {
    var last, first := f.entries[|f.entries| - 1], g.entries[0];
    if EndsOn(f, g) {
      assert last in f.entries && first in g.entries && last.key.seqno >= first.key.seqno;
    } else {
      forall x, y | x in g.entries && y in f.entries && x.key.user == y.key.user ensures x.key.seqno > y.key.seqno {
        WithinFile(g, x);
        WithinFile(f, y);
        InContents(v, l, g, x);
        InContents(v, l, f, y);
      }
    }
  }

  // ---- Inputs on which the conditions fail ----

  function Levels(level0: seq<File>, level1: seq<File>, level2: seq<File>): Version {
    [level0, level1, level2, [], [], [], []]
  }

  lemma LevelsHas(level0: seq<File>, level1: seq<File>, level2: seq<File>)
    ensures forall l, f :: In(Levels(level0, level1, level2), l, f) <==>
              (l == 0 && f in level0) || (l == 1 && f in level1) || (l == 2 && f in level2)
  {
  }

  function Put(user: int, seqno: nat, value: string): Entry {
    Entry(InternalKey(user, seqno, Value), value)
  }

  function Del(user: int, seqno: nat): Entry {
    Entry(InternalKey(user, seqno, Deletion), "")
  }

  function Table(number: nat, entries: seq<Entry>): File
    requires entries != []
  {
    TableFile(number, 0, entries)
  }

  lemma SingleIsGood(v: Version, level: nat, f: File)
    requires ValidVersion(v) && 0 < level && level + 1 < NUM_LEVELS && f in v[level] && v[level + 1] == []
    requires Smallest(f).user == Largest(f).user
    ensures GoodInputs(v, level, [f], [])
  {
    var lo := LoUser([f]);
    assert [f] + [] == [f];
    forall u | LoUser([f]) <= u <= HiUser([f]) ensures Covered([f], u) { assert f in [f]; }
  }

  lemma NeighboursValid(level1: seq<File>, newer: Entry, older: Entry)
    requires newer.key.user == older.key.user && MAX_SEQUENCE >= newer.key.seqno > older.key.seqno
    requires level1 == [Table(1, [newer]), Table(2, [older])]
    ensures ValidVersion(Levels([], level1, [])) && LevelOrder(Levels([], level1, []))
    ensures Contents(Levels([], level1, [])) == {newer, older}
  {
    var v := Levels([], level1, []);
    LevelsHas([], level1, []);
    InContents(v, 1, level1[0], newer);
    InContents(v, 1, level1[1], older);
    forall e | e in Contents(v) ensures e in {newer, older} { var l, f := FromContents(v, e); }
  }

  lemma FirstLeaves(v: Version, job: Job, a: File, b: File, outs: seq<File>)
    requires v == Levels([], [a, b], []) && job.level == 1 && job.in0 == [a] && job.in1 == [] && a != b && |outs| <= 1
    ensures Installed(v, job, outs, Levels([], [b], outs))
  {
  }

  lemma OutOfOrder(a: File, b: File, x: Entry, y: Entry)
    requires x in a.entries && y in b.entries && x.key.user == y.key.user && x.key.seqno > y.key.seqno
    ensures !LevelOrder(Levels([], [b], [a]))
  {
    LevelsHas([], [b], [a]);
    assert In(Levels([], [b], [a]), 1, b) && In(Levels([], [b], [a]), 2, a);
    assert !Newer(b, a);
  }

  /**
   Two versions of a user key in neighbouring files of level 1. The code may choose the first file alone; its
   newer version then goes below the older one.
   */
  lemma NewerVersionSinks(a: File, b: File, v: Version, v': Version, job: Job)
    requires a == Table(1, [Put(7, 9, "new")]) && b == Table(2, [Put(7, 5, "old")])
    requires v == Levels([], [a, b], []) && v' == Levels([], [b], [a]) && job == Job(1, [a], [], v, 9)
    ensures ValidVersion(v) && LevelOrder(v) && GoodInputs(v, 1, [a], [])
    ensures Installed(v, job, [a], v') && !LevelOrder(v')
  {
    NeighboursValid([a, b], Put(7, 9, "new"), Put(7, 5, "old"));
    SingleIsGood(v, 1, a);
    FirstLeaves(v, job, a, b, [a]);
    OutOfOrder(a, b, Put(7, 9, "new"), Put(7, 5, "old"));
  }

  /** With a deletion marker in the first file, the marker is dropped and the value left behind comes back. */
  lemma LeftBehindVersionResurfaces(a: File, b: File, v: Version, v': Version, job: Job)
    requires a == Table(1, [Del(7, 9)]) && b == Table(2, [Put(7, 5, "stale")])
    requires v == Levels([], [a, b], []) && v' == Levels([], [b], []) && job == Job(1, [a], [], v, 9)
    ensures ValidVersion(v) && LevelOrder(v) && GoodInputs(v, 1, [a], [])
    ensures Merges([Del(7, 9)], job) && Compacted([Del(7, 9)], job, []) && Installed(v, job, [], v')
    ensures View(Contents(v), 7, 9) == None && View(Contents(v'), 7, 9) == Some("stale")
  {
    MarkerMergesAway(a, b, Del(7, 9), Put(7, 5, "stale"), v, job);
  }

  lemma MarkerMergesAway(a: File, b: File, marker: Entry, stale: Entry, v: Version, job: Job)
    requires a == Table(1, [marker]) && b == Table(2, [stale]) && marker.key.kind.Deletion?
    requires stale.key.kind.Value?
    requires marker.key.user == stale.key.user && MAX_SEQUENCE > marker.key.seqno > stale.key.seqno
    requires v == Levels([], [a, b], []) && job == Job(1, [a], [], v, marker.key.seqno)
    ensures ValidVersion(v) && LevelOrder(v) && GoodInputs(v, 1, [a], [])
    ensures Merges([marker], job) && Compacted([marker], job, []) && Installed(v, job, [], Levels([], [b], []))
    ensures View(Contents(v), marker.key.user, marker.key.seqno) == None
    ensures View(Contents(Levels([], [b], [])), marker.key.user, marker.key.seqno) == Some(stale.value)
  {
    NeighboursValid([a, b], marker, stale);
    SingleIsGood(v, 1, a);
    FirstLeaves(v, job, a, b, []);
    NothingBelow([], [a, b], 1, marker.key.user);
    MarkerAlone(job, a, marker);
    OneFile(b, stale);
    MarkerGone({marker, stale}, {stale}, marker, stale);
  }

  lemma NothingBelow(level0: seq<File>, level1: seq<File>, level: nat, user: int)
    ensures IsBase(Levels(level0, level1, []), level, user)
  {
    LevelsHas(level0, level1, []);
  }

  /** Without its deletion marker an older value is seen again. */
  lemma MarkerGone(before: set<Entry>, after: set<Entry>, marker: Entry, stale: Entry)
    requires before == after + {marker} && stale in after && marker !in after && marker.key.kind.Deletion? &&
             stale.key.kind.Value?
    requires marker.key.user == stale.key.user && marker.key.seqno > stale.key.seqno
    requires forall e :: e in after && e.key.user == marker.key.user ==> e == stale
    ensures View(before, marker.key.user, marker.key.seqno) == None
    ensures View(after, marker.key.user, marker.key.seqno) == Some(stale.value)
  {
    var user, s := marker.key.user, marker.key.seqno;
    assert Newest(before, user, s, marker);
    assert Newest(after, user, s, stale);
    assert !Sees(before, user, s, marker) && Sees(after, user, s, stale);
  }

  /** A single obsolete deletion marker merges into nothing. */
  lemma MarkerAlone(job: Job, a: File, marker: Entry)
    requires Inputs(job) == [a] && a.entries == [marker] && job.snapshot < MAX_SEQUENCE
    requires Obsolete(marker, job.snapshot, job.base, job.level)
    ensures Merges([marker], job) && Compacted([marker], job, [])
  {
    assert a in Inputs(job) && marker in a.entries;
    assert Survivors([marker], 0, job.snapshot, job.base, job.level) == [];
    assert Survivors([marker], 1, job.snapshot, job.base, job.level) == [];
  }

  lemma OneFile(f: File, e: Entry)
    requires f.entries == [e]
    ensures Contents(Levels([], [f], [])) == {e}
  {
    var v := Levels([], [f], []);
    LevelsHas([], [f], []);
    InContents(v, 1, f, e);
    forall x | x in Contents(v) ensures x == e { var l, g := FromContents(v, x); }
  }

  /**
   At level 0 the same happens below: a level-0 file meets the first of two neighbours in level 1, whose last
   entry is the deletion marker of a value in the second.
   */
  lemma Level0CompactionResurfaces(z: File, f: File, g: File, v: Version, v': Version, job: Job, o: File)
    requires z == Table(3, [Put(3, 20, "z")]) && f == Table(1, [Put(3, 2, "f"), Del(7, 9)])
    requires g == Table(2, [Put(7, 5, "stale")]) && o == Table(4, [Put(3, 20, "z")])
    requires v == Levels([z], [f, g], []) && v' == Levels([], [o, g], []) && job == Job(0, [z], [f], v, 20)
    ensures ValidVersion(v) && LevelOrder(v) && GoodInputs(v, 0, [z], [f]) && UpperClosed(v, job) &&
            !LowerClosed(v, job)
    ensures Merges([Put(3, 20, "z"), Put(3, 2, "f"), Del(7, 9)], job)
    ensures Compacted([Put(3, 20, "z"), Put(3, 2, "f"), Del(7, 9)], job, [o]) && Installed(v, job, [o], v')
    ensures ValidVersion(v') && LevelOrder(v')
    ensures View(Contents(v), 7, 20) == None && View(Contents(v'), 7, 20) == Some("stale")
  {
    Level0Case(z, f, g, v, v', job, o, Put(3, 20, "z"), Put(3, 2, "f"), Del(7, 9), Put(7, 5, "stale"));
  }

  /**
   A new version of one key above; below, its old version and the marker of another key, then that key's old value.
   */
  ghost predicate Level0Shape(z: File, f: File, g: File, v: Version, job: Job, o: File,
                              top: Entry, under: Entry, marker: Entry, stale: Entry)
  {
    && z.entries == [top] && f.entries == [under, marker] && g.entries == [stale] && o.entries == [top]
    && f.number < z.number && f != g && z != f && z != g && o.number > f.number && g.number > f.number
    && top.key.user == under.key.user && under.key.user < marker.key.user == stale.key.user
    && MAX_SEQUENCE > top.key.seqno > marker.key.seqno > stale.key.seqno > under.key.seqno
    && marker.key.kind.Deletion? && stale.key.kind.Value? && top.key.kind.Value? && under.key.kind.Value?
    && v == Levels([z], [f, g], []) && job == Job(0, [z], [f], v, top.key.seqno)
  }

  lemma Level0Case(z: File, f: File, g: File, v: Version, v': Version, job: Job, o: File,
                   top: Entry, under: Entry, marker: Entry, stale: Entry)
    requires Level0Shape(z, f, g, v, job, o, top, under, marker, stale) && v' == Levels([], [o, g], [])
    ensures ValidVersion(v) && LevelOrder(v) && GoodInputs(v, 0, [z], [f]) && UpperClosed(v, job) &&
            !LowerClosed(v, job)
    ensures Merges([top, under, marker], job) && Compacted([top, under, marker], job, [o]) && Installed(v, job, [o], v')
    ensures ValidVersion(v') && LevelOrder(v')
    ensures View(Contents(v), marker.key.user, top.key.seqno) == None
    ensures View(Contents(v'), marker.key.user, top.key.seqno) == Some(stale.value)
  {
    Level0Start(z, f, g, v, job, o, top, under, marker, stale);
    Level0Ends(z, f, g, v, job, o, top, under, marker, stale);
    Level0Inputs(z, f, g, v, job, o, top, under, marker, stale);
    Level0Merge(z, f, g, v, job, o, top, under, marker, stale);
    Level0Result(z, f, g, v, v', job, o, top, under, marker, stale);
    Level0Views(z, f, g, v, v', job, o, top, under, marker, stale);
  }

  lemma Level0Start(z: File, f: File, g: File, v: Version, job: Job, o: File,
                    top: Entry, under: Entry, marker: Entry, stale: Entry)
    requires Level0Shape(z, f, g, v, job, o, top, under, marker, stale)
    ensures ValidVersion(v) && LevelOrder(v)
  {
    LevelsHas([z], [f, g], []);
  }

  lemma Level0Ends(z: File, f: File, g: File, v: Version, job: Job, o: File,
                    top: Entry, under: Entry, marker: Entry, stale: Entry)
    requires Level0Shape(z, f, g, v, job, o, top, under, marker, stale)
    ensures UpperClosed(v, job) && !LowerClosed(v, job)
  {
    LevelsHas([z], [f, g], []);
    assert stale in g.entries && marker in f.entries && !Newer(g, f);
    assert LeftBelow(v, job, g) && f in job.in1;
  }

  lemma Level0Inputs(z: File, f: File, g: File, v: Version, job: Job, o: File,
                     top: Entry, under: Entry, marker: Entry, stale: Entry)
    requires Level0Shape(z, f, g, v, job, o, top, under, marker, stale)
    ensures GoodInputs(v, 0, [z], [f])
  {
    PairIsGood(z, f, g, v, top.key.user);
  }

  lemma PairIsGood(z: File, f: File, g: File, v: Version, user: int)
    requires v == Levels([z], [f, g], []) && Smallest(z).user == user == Largest(z).user
    requires Smallest(f).user <= user <= Largest(f).user && user < Smallest(g).user
    ensures GoodInputs(v, 0, [z], [f])
  {
    FirstMeets(f, g, user);
    OneRange(z, user);
    assert [z] + [f] == [z, f];
    PairCovers(z, f);
  }

  lemma OneRange(z: File, user: int)
    requires Smallest(z).user == user == Largest(z).user
    ensures LoUser([z]) == user == HiUser([z])
  {
  }

  lemma FirstMeets(f: File, g: File, user: int)
    requires Smallest(f).user <= user <= Largest(f).user && user < Smallest(g).user
    ensures Overlapping([f, g], Some(user), Some(user)) == [f]
  {
    assert [f, g][..1] == [f] && [f][..0] == [];
    assert Overlapping([f], Some(user), Some(user)) == [f];
  }

  lemma PairCovers(z: File, f: File)
    requires Smallest(f).user <= Smallest(z).user <= Largest(z).user <= Largest(f).user
    ensures Covers([z, f], LoUser([z, f]), HiUser([z, f]))
  {
    var all := [z, f];
    forall u | LoUser(all) <= u <= HiUser(all) ensures Covered(all, u) { assert f in all; }
  }

  lemma Level0Merge(z: File, f: File, g: File, v: Version, job: Job, o: File,
                    top: Entry, under: Entry, marker: Entry, stale: Entry)
    requires Level0Shape(z, f, g, v, job, o, top, under, marker, stale)
    ensures Merges([top, under, marker], job) && Compacted([top, under, marker], job, [o])
  {
    var input := [top, under, marker];
    var s := job.snapshot;
    assert Inputs(job) == [z, f] && z in Inputs(job) && f in Inputs(job);
    forall e ensures e in input <==> Read(job, e) {
      if e in input { assert e in z.entries || e in f.entries; }
    }
    NothingBelow([z], [f, g], 0, marker.key.user);
    assert Survivors(input, 0, s, v, 0) == [];
    assert Survivors(input, 1, s, v, 0) == [top];
    assert Hidden(input, 1, s);
    assert Survivors(input, 2, s, v, 0) == [top];
    assert Obsolete(marker, s, v, 0);
    assert Survivors(input, 3, s, v, 0) == [top];
    assert Tables([o]) == [[top]];
    assert Flat([[top]]) == Flat([[top]][..0]) + [top];
    assert Flat([]) == [];
  }

  lemma Level0Result(z: File, f: File, g: File, v: Version, v': Version, job: Job, o: File,
                     top: Entry, under: Entry, marker: Entry, stale: Entry)
    requires Level0Shape(z, f, g, v, job, o, top, under, marker, stale) && v' == Levels([], [o, g], [])
    ensures Installed(v, job, [o], v') && ValidVersion(v') && LevelOrder(v')
  {
    LevelsHas([], [o, g], []);
  }

  lemma Level0Views(z: File, f: File, g: File, v: Version, v': Version, job: Job, o: File,
                    top: Entry, under: Entry, marker: Entry, stale: Entry)
    requires Level0Shape(z, f, g, v, job, o, top, under, marker, stale) && v' == Levels([], [o, g], [])
    ensures View(Contents(v), marker.key.user, top.key.seqno) == None
    ensures View(Contents(v'), marker.key.user, top.key.seqno) == Some(stale.value)
  {
    LevelsHas([z], [f, g], []);
    LevelsHas([], [o, g], []);
    InContents(v, 1, f, marker);
    InContents(v', 1, g, stale);
    forall e | e in Contents(v) ensures e in {top, under, marker, stale} { var l, h := FromContents(v, e); }
    forall e | e in Contents(v') ensures e in {top, stale} { var l, h := FromContents(v', e); }
    var user, s := marker.key.user, top.key.seqno;
    assert Newest(Contents(v), user, s, marker) && Newest(Contents(v'), user, s, stale);
    assert Sees(Contents(v'), user, s, stale);
    forall e ensures !Sees(Contents(v), user, s, e) {}
    forall e | Sees(Contents(v'), user, s, e) ensures e == stale {}
  }
}
