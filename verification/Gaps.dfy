/**
 Inputs with a gap. `PickCompaction` never leaves one, but `CompactRange` may
 read files with a gap between them, and a flush that comes meanwhile can put
 its table into the gap, at the level the output goes to.
 */
module Gaps {
  import opened Options
  import opened Format
  import opened Versions
  import opened CompactionInputs
  import opened Placement

  /** An output with entries on both sides of the table. */
  ghost predicate Straddles(o: File, f: File) {
    exists x, y :: x in o.entries && y in o.entries && Less(x.key, Smallest(f)) && Less(Largest(f), y.key)
  }

  /** Every entry of an output comes from an input, and no input meets the flushed table. */
  lemma OutputAvoids(v: Version, job: Job, outs: seq<File>, f: File, level: nat, v1: Version, o: File, e: Entry)
    requires ValidVersion(v) && InputsPresent(v, job) && ValidFile(f) && FromInputs(job, outs)
    requires Flushed(v, f, level, v1) && level >= job.level + 1 && o in outs && e in o.entries
    ensures Less(e.key, Smallest(f)) || Less(Largest(f), e.key)
  {
    assert Read(job, e);
    var h :| h in Inputs(job) && e in h.entries;
    InputIsIn(v, job, h);
    assert !Meets(h, Some(Smallest(f).user), Some(Largest(f).user));
    WithinFile(h, e);
  }

  lemma ApartUnlessStraddling(v: Version, job: Job, outs: seq<File>, f: File, level: nat, v1: Version, o: File)
    requires ValidVersion(v) && InputsPresent(v, job) && ValidFile(f) && FromInputs(job, outs)
    requires Flushed(v, f, level, v1) && level >= job.level + 1 && o in outs
    ensures Apart(f, o) <==> !Straddles(o, f)
  {
    var first, last := o.entries[0], o.entries[|o.entries| - 1];
    OutputAvoids(v, job, outs, f, level, v1, o, first);
    OutputAvoids(v, job, outs, f, level, v1, o, last);
    assert first in o.entries && last in o.entries;
    forall e | e in o.entries ensures !Less(e.key, Smallest(o)) && !Less(Largest(o), e.key) { WithinFile(o, e); }
  }

  lemma FlushedIsNotRead(v: Version, job: Job, f: File, level: nat, v1: Version)
    requires ValidFile(f) && InputsPresent(v, job) && Flushed(v, f, level, v1) && level == job.level + 1
    ensures f !in job.in1
  {
    WithinFile(f, f.entries[0]);
  }

  lemma InstalledAfterFlush(v: Version, job: Job, f: File, v1: Version, outs: seq<File>, v2: Version, g: File)
    requires |v| == NUM_LEVELS && job.level + 1 < NUM_LEVELS && Flushed(v, f, job.level + 1, v1)
    requires Installed(v1, job, outs, v2) && f !in job.in1
    ensures g in v2[job.level + 1] <==> g == f || g in outs || LeftBelow(v, job, g)
  {
    InstalledHas(v1, job, outs, v2, job.level + 1, g);
    FlushedHas(v, f, job.level + 1, v1, job.level + 1, g);
  }

  lemma OthersApart(v: Version, job: Job, f: File, v1: Version, outs: seq<File>, g: File, h: File)
    requires ValidVersion(v) && InputsPresent(v, job) && UnreadAside(v, job) && FromInputs(job, outs) && ValidFile(f)
    requires job.level + 1 < NUM_LEVELS && Flushed(v, f, job.level + 1, v1)
    requires LeftBelow(v, job, g) && (h == f || h in outs || LeftBelow(v, job, h)) && g != h
    ensures Apart(g, h)
  {
    if h == f {
      DisjointRanges(f, g);
    } else if h in outs {
      AsideOfOutput(v, job, outs, g, h);
    } else {
      ApartFromOrdered(v[job.level + 1], g, h);
    }
  }

  /**
   A table is flushed to the output level of a running compaction. Once the outputs are installed, however they
   are cut, the level is sorted and disjoint exactly when no output holds entries on both sides of the table.
   */
  lemma InstallAroundFlushIff(v: Version, job: Job, f: File, v1: Version, outs: seq<File>, v2: Version)
    requires ValidVersion(v) && InputsPresent(v, job) && UnreadAside(v, job) && job.level + 1 < NUM_LEVELS
    requires ValidFile(f) && Flushed(v, f, job.level + 1, v1)
    requires FromInputs(job, outs) && Installed(v1, job, outs, v2)
    ensures Ordered(v2[job.level + 1]) <==> forall o :: o in outs ==> !Straddles(o, f)
  {
    var n := job.level + 1;
    FlushedIsNotRead(v, job, f, n, v1);
    forall g ensures g in v2[n] <==> g == f || g in outs || LeftBelow(v, job, g) {
      InstalledAfterFlush(v, job, f, v1, outs, v2, g);
    }
    if forall o :: o in outs ==> !Straddles(o, f) {
      forall g, h | g in v2[n] && h in v2[n] && g != h ensures Apart(g, h) {
        AllApart(v, job, f, v1, outs, g, h);
      }
      assert ValidFiles(v2[n]) by { forall g | g in v2[n] ensures ValidFile(g) {} }
      OrderedFromApart(v2[n]);
    } else {
      var o :| o in outs && Straddles(o, f);
      ApartUnlessStraddling(v, job, outs, f, n, v1, o);
      StraddlerDiffers(o, f);
      if Ordered(v2[n]) { ApartFromOrdered(v2[n], f, o); }
    }
  }

  lemma AllApart(v: Version, job: Job, f: File, v1: Version, outs: seq<File>, g: File, h: File)
    requires ValidVersion(v) && InputsPresent(v, job) && UnreadAside(v, job) && FromInputs(job, outs) && ValidFile(f)
    requires job.level + 1 < NUM_LEVELS && Flushed(v, f, job.level + 1, v1)
    requires forall o :: o in outs ==> !Straddles(o, f)
    requires g == f || g in outs || LeftBelow(v, job, g)
    requires h == f || h in outs || LeftBelow(v, job, h)
    requires g != h
    ensures Apart(g, h)
  {
    if LeftBelow(v, job, g) {
      OthersApart(v, job, f, v1, outs, g, h);
    } else if LeftBelow(v, job, h) {
      OthersApart(v, job, f, v1, outs, h, g);
    } else if g == f {
      ApartUnlessStraddling(v, job, outs, f, job.level + 1, v1, h);
    } else if h == f {
      ApartUnlessStraddling(v, job, outs, f, job.level + 1, v1, g);
    } else {
      ApartFromOrdered(outs, g, h);
    }
  }

  lemma StraddlerDiffers(o: File, f: File)
    requires ValidFile(f) && Straddles(o, f)
    ensures o != f
  {
    forall x | x in f.entries ensures !Less(x.key, Smallest(f)) { WithinFile(f, x); }
  }

  // ---- When a gap admits a flush ----

  /** A user key inside the range of the inputs that no file at or above the output level covers. */
  ghost predicate GapOpen(v: Version, job: Job, u: int) {
    job.in0 != [] && LoUser(Inputs(job)) < u < HiUser(Inputs(job)) && Uncovered(v, job.level + 1, u)
  }

  ghost predicate Uncovered(v: Version, n: nat, u: int) {
    forall l, g :: l <= n && In(v, l, g) ==> !(Smallest(g).user <= u <= Largest(g).user)
  }

  /** A newest table that the code may place at the output level, not to one side of the inputs. */
  ghost predicate FallsInside(v: Version, job: Job, f: File, v1: Version) {
    NewestFile(v, f) && Flushed(v, f, job.level + 1, v1) && !OneSide(f, Inputs(job))
  }

  function Insert(fs: seq<File>, f: File): seq<File> {
    if fs == [] || Less(Smallest(f), Smallest(fs[0])) then [f] + fs else [fs[0]] + Insert(fs[1..], f)
  }

  ghost predicate Increasing(fs: seq<File>) {
    forall i, j :: 0 <= i < j < |fs| ==> Less(Smallest(fs[i]), Smallest(fs[j]))
  }

  lemma {:induction false} InsertIncreases(fs: seq<File>, f: File)
    requires Increasing(fs) && forall g :: g in fs ==> Smallest(g) != Smallest(f)
    ensures Increasing(Insert(fs, f))
    ensures forall g :: g in Insert(fs, f) <==> g in fs || g == f
  {
    if fs != [] && !Less(Smallest(f), Smallest(fs[0])) {
      assert fs[0] in fs && fs == [fs[0]] + fs[1..];
      InsertIncreases(fs[1..], f);
      var rest := Insert(fs[1..], f);
      CompareIsLess(Smallest(f), Smallest(fs[0]));
      forall j | 0 <= j < |rest| ensures Less(Smallest(fs[0]), Smallest(rest[j])) {
        assert rest[j] in rest;
        if rest[j] != f { var k :| 0 <= k < |fs[1..]| && fs[1..][k] == rest[j]; assert fs[k + 1] == rest[j]; }
      }
    }
  }

  lemma OrderedIncreases(fs: seq<File>)
    requires ValidFiles(fs) && Ordered(fs)
    ensures Increasing(fs)
  {
    forall i, j | 0 <= i < j < |fs| ensures Less(Smallest(fs[i]), Smallest(fs[j])) {
      assert fs[i] in fs;
      WithinFile(fs[i], fs[i].entries[0]);
    }
  }

  lemma {:induction false} TopFileNumber(fs: seq<File>) returns (top: nat)
    ensures forall f :: f in fs ==> f.number < top
  {
    top := 0;
    for i := 0 to |fs|
      invariant forall j :: 0 <= j < i ==> fs[j].number < top
    {
      if fs[i].number >= top { top := fs[i].number + 1; }
    }
  }

  lemma NewFileNumber(v: Version) returns (number: nat)
    ensures forall l, g :: In(v, l, g) ==> g.number < number
  {
    number := 0;
    for l := 0 to |v|
      invariant forall m, g :: m < l && In(v, m, g) ==> g.number < number
    {
      var top := TopFileNumber(v[l]);
      if top > number { number := top; }
    }
  }

  /** A table with the single user key `u` may be placed at a level no file at or above which covers `u`. */
  lemma PlaceAt(v: Version, n: nat, u: int) returns (f: File, v1: Version)
    requires ValidVersion(v) && 0 < n <= MAX_MEM_COMPACT_LEVEL
    requires Uncovered(v, n, u)
    requires forall e :: e in Contents(v) ==> e.key.seqno < MAX_SEQUENCE
    ensures NewestFile(v, f) && Flushed(v, f, n, v1) && Smallest(f).user == u == Largest(f).user
  {
    var number := NewFileNumber(v);
    f := TableFile(number, 0, [Entry(InternalKey(u, MAX_SEQUENCE, Value), "")]);
    OrderedIncreases(v[n]);
    forall g | g in v[n] ensures Smallest(g) != Smallest(f) {
      assert In(v, n, g);
      WithinFile(g, g.entries[0]);
    }
    InsertIncreases(v[n], f);
    v1 := v[n := Insert(v[n], f)];
    forall l, g | In(v, l, g) ensures Newer(f, g) {
      forall y | y in g.entries ensures y.key.seqno < MAX_SEQUENCE { InContents(v, l, g, y); }
    }
  }

  /** A table between two files is not to one side of them all. */
  lemma InsideIsNotAside(fs: seq<File>, f: File, lo: int, hi: int)
    requires forall h :: h in fs ==> ValidFile(h)
    requires exists a :: a in fs && Smallest(a).user == lo
    requires exists b :: b in fs && Largest(b).user == hi
    requires ValidFile(f) && lo < Smallest(f).user && Largest(f).user < hi
    ensures !OneSide(f, fs)
  {
    WithinFile(f, f.entries[0]);
    var a :| a in fs && Smallest(a).user == lo;
    var b :| b in fs && Largest(b).user == hi;
    WithinFile(a, a.entries[0]);
    WithinFile(b, b.entries[0]);
  }

  /** A table that meets no input but is not to one side of them has its user keys inside their range. */
  lemma InsideRange(fs: seq<File>, f: File, lo: int, hi: int)
    requires ValidFile(f) && !OneSide(f, fs) && forall h :: h in fs ==> ValidFile(h)
    requires forall h :: h in fs ==> !Meets(h, Some(Smallest(f).user), Some(Largest(f).user))
    requires forall h :: h in fs ==> lo <= Smallest(h).user && Largest(h).user <= hi
    ensures lo < Smallest(f).user < hi
  {
    var a :| a in fs && !Less(Largest(f), Smallest(a));
    var b :| b in fs && !Less(Largest(b), Smallest(f));
    WithinFile(a, a.entries[0]);
    WithinFile(b, b.entries[0]);
    WithinFile(f, f.entries[0]);
  }

  lemma InputsValid(v: Version, job: Job)
    requires ValidVersion(v) && InputsPresent(v, job)
    ensures forall h :: h in Inputs(job) ==> ValidFile(h) && (In(v, job.level, h) || In(v, job.level + 1, h))
  {
    forall h | h in Inputs(job) ensures ValidFile(h) && (In(v, job.level, h) || In(v, job.level + 1, h)) {
      InputIsIn(v, job, h);
    }
  }

  lemma FlushedUncovered(v: Version, f: File, n: nat, v1: Version)
    requires ValidFile(f) && Flushed(v, f, n, v1) && n > 0
    ensures Uncovered(v, n, Smallest(f).user)
  {
    WithinFile(f, f.entries[0]);
  }

  lemma FlushedMisses(v: Version, job: Job, f: File, v1: Version)
    requires ValidVersion(v) && InputsPresent(v, job) && Flushed(v, f, job.level + 1, v1)
    ensures forall h :: h in Inputs(job) ==> ValidFile(h) && !Meets(h, Some(Smallest(f).user), Some(Largest(f).user))
  {
    InputsValid(v, job);
  }

  lemma InsideIsGap(v: Version, job: Job, f: File, v1: Version)
    requires ValidVersion(v) && InputsPresent(v, job) && job.in0 != [] && FallsInside(v, job, f, v1)
    ensures GapOpen(v, job, Smallest(f).user)
  {
    FlushedMisses(v, job, f, v1);
    FlushedUncovered(v, f, job.level + 1, v1);
    InsideRange(Inputs(job), f, LoUser(Inputs(job)), HiUser(Inputs(job)));
  }

  /**
   A flush can fall between the inputs exactly when some user key inside their range is covered by no file at or
   above the output level. Inputs without a gap leave no such key; a gap that an unread file covers is harmless.
   */
  lemma GapIff(v: Version, job: Job)
    requires ValidVersion(v) && InputsPresent(v, job) && job.in0 != [] && job.level + 1 <= MAX_MEM_COMPACT_LEVEL
    requires forall e :: e in Contents(v) ==> e.key.seqno < MAX_SEQUENCE
    ensures (exists u :: GapOpen(v, job, u)) <==> exists f, v1 :: FallsInside(v, job, f, v1)
    ensures NoGap(job) ==> !exists u :: GapOpen(v, job, u)
  {
    if u :| GapOpen(v, job, u) {
      var f, v1 := PlaceAt(v, job.level + 1, u);
      InputsValid(v, job);
      InsideIsNotAside(Inputs(job), f, LoUser(Inputs(job)), HiUser(Inputs(job)));
      assert FallsInside(v, job, f, v1);
      NoGapIsClosed(v, job, u);
    }
    if f, v1 :| FallsInside(v, job, f, v1) { InsideIsGap(v, job, f, v1); }
  }

  lemma NoGapIsClosed(v: Version, job: Job, u: int)
    requires ValidVersion(v) && InputsPresent(v, job) && GapOpen(v, job, u)
    ensures !NoGap(job)
  {
    InputsValid(v, job);
    assert !Covered(Inputs(job), u);
  }

  /**
   An open gap breaks the level: some flush of user key `u` is permitted, and after it every way to cut the
   outputs that puts entries on both sides of `u` into one file leaves the level overlapping.
   */
  lemma GapLetsFlushIn(v: Version, job: Job, u: int) returns (f: File, v1: Version)
    requires ValidVersion(v) && InputsPresent(v, job) && UnreadAside(v, job) && job.level + 1 <= MAX_MEM_COMPACT_LEVEL
    requires GapOpen(v, job, u) && forall e :: e in Contents(v) ==> e.key.seqno < MAX_SEQUENCE
    ensures NewestFile(v, f) && Flushed(v, f, job.level + 1, v1) && ValidVersion(v1)
    ensures forall outs, v2 :: FromInputs(job, outs) && Installed(v1, job, outs, v2) ==>
              (Ordered(v2[job.level + 1]) <==> forall o :: o in outs ==> !OnBothSides(o, u))
  {
    f, v1 := PlaceAt(v, job.level + 1, u);
    FlushKeepsValid(v, f, job.level + 1, v1);
    forall outs, v2 | FromInputs(job, outs) && Installed(v1, job, outs, v2)
      ensures Ordered(v2[job.level + 1]) <==> forall o :: o in outs ==> !OnBothSides(o, u)
    {
      InstallAroundFlushIff(v, job, f, v1, outs, v2);
      forall o | o in outs ensures Straddles(o, f) <==> OnBothSides(o, u) {
        StraddlesUser(v, job, outs, f, v1, o, u);
      }
    }
  }

  ghost predicate OnBothSides(o: File, u: int) {
    exists x, y :: x in o.entries && y in o.entries && x.key.user < u < y.key.user
  }

  lemma StraddlesUser(v: Version, job: Job, outs: seq<File>, f: File, v1: Version, o: File, u: int)
    requires ValidVersion(v) && InputsPresent(v, job) && ValidFile(f) && FromInputs(job, outs) && o in outs
    requires Flushed(v, f, job.level + 1, v1) && Smallest(f).user == u == Largest(f).user
    ensures Straddles(o, f) <==> OnBothSides(o, u)
  {
    forall e | e in o.entries ensures e.key.user != u {
      assert Read(job, e);
      var h :| h in Inputs(job) && e in h.entries;
      InputIsIn(v, job, h);
      assert !Meets(h, Some(u), Some(u));
      WithinFile(h, e);
    }
  }
}
