/**
 How a flush, a trivial move and the end of a compaction change the levels of
 a version, and why each keeps the levels sorted and the newer data above the
 older. A memtable flush may happen while a compaction is running.
 */
module Placement {
  import opened Options
  import opened Format
  import opened Versions
  import opened CompactionInputs

  ghost predicate Apart(f: File, g: File) {
    Less(Largest(f), Smallest(g)) || Less(Largest(g), Smallest(f))
  }

  ghost predicate NoShared(f: File, g: File) {
    forall x, y :: x in f.entries && y in g.entries ==> x.key.user != y.key.user
  }

  /** The order in which a version lists the files of a level: smallest key, then number. */
  ghost predicate BySmallestKey(fs: seq<File>) {
    forall i, j :: 0 <= i < j < |fs| ==>
      Less(Smallest(fs[i]), Smallest(fs[j])) || (Smallest(fs[i]) == Smallest(fs[j]) && fs[i].number < fs[j].number)
  }

  /** What applying one edit does to one level: `gone` leave, `added` join, and the list stays in order. */
  ghost predicate Edited(fs: seq<File>, gone: seq<File>, added: seq<File>, fs': seq<File>) {
    && (forall f :: f in fs' <==> (f in fs && f !in gone) || f in added)
    && BySmallestKey(fs')
  }

  lemma OrderedFromApart(fs: seq<File>)
    requires ValidFiles(fs) && BySmallestKey(fs)
    requires forall f, g :: f in fs && g in fs && f != g ==> Apart(f, g)
    ensures Ordered(fs)
  {
    forall i, j | 0 <= i < j < |fs| ensures Less(Largest(fs[i]), Smallest(fs[j])) {
      assert fs[i] in fs && fs[j] in fs && fs[i] != fs[j];
      assert Apart(fs[i], fs[j]);
      WithinFile(fs[j], fs[j].entries[0]);
    }
  }

  lemma ApartFromOrdered(fs: seq<File>, f: File, g: File)
    requires Ordered(fs) && f in fs && g in fs && f != g
    ensures Apart(f, g)
  {
    var i :| 0 <= i < |fs| && fs[i] == f;
    var j :| 0 <= j < |fs| && fs[j] == g;
    assert i < j || j < i;
  }

  lemma DisjointRanges(f: File, g: File)
    requires ValidFile(f) && ValidFile(g)
    requires !Meets(g, Some(Smallest(f).user), Some(Largest(f).user))
    ensures NoShared(f, g) && Apart(f, g)
  {
    forall x, y | x in f.entries && y in g.entries ensures x.key.user != y.key.user {
      WithinFile(f, x);
      WithinFile(g, y);
    }
  }

  // ---- Flush ----

  ghost predicate Flushed(v: Version, f: File, level: nat, v': Version) {
    && MayPlace(v, Smallest(f).user, Largest(f).user, level)
    && |v'| == NUM_LEVELS
    && (forall l :: 0 <= l < NUM_LEVELS && l != level ==> v'[l] == v[l])
    && Edited(v[level], [], [f], v'[level])
  }

  /** The flushed table is newer than every file and has the largest number so far. */
  ghost predicate NewestFile(v: Version, f: File) {
    ValidFile(f) && forall l, g :: In(v, l, g) ==> Newer(f, g) && g.number < f.number
  }

  lemma FlushedHas(v: Version, f: File, level: nat, v': Version, l: int, g: File)
    requires Flushed(v, f, level, v')
    ensures In(v', l, g) <==> In(v, l, g) || (l == level && g == f)
  {
  }

  lemma FlushKeepsValid(v: Version, f: File, level: nat, v': Version)
    requires ValidVersion(v) && ValidFile(f) && Flushed(v, f, level, v')
    ensures ValidVersion(v')
  {
    if level > 0 {
      forall g, h | g in v'[level] && h in v'[level] && g != h ensures Apart(g, h) {
        if g == f {
          assert In(v, level, h);
          DisjointRanges(f, h);
        } else if h == f {
          assert In(v, level, g);
          DisjointRanges(f, g);
        } else {
          ApartFromOrdered(v[level], g, h);
        }
      }
      OrderedFromApart(v'[level]);
    }
  }

  lemma FlushKeepsOrder(v: Version, f: File, level: nat, v': Version)
    requires ValidVersion(v) && LevelOrder(v) && NewestFile(v, f) && Flushed(v, f, level, v')
    ensures LevelOrder(v')
  {
    forall l, m, g, h | l < m && In(v', l, g) && In(v', m, h) ensures Newer(g, h) {
      FlushedHas(v, f, level, v', l, g);
      FlushedHas(v, f, level, v', m, h);
      if !In(v, m, h) {
        assert In(v, l, g);
        DisjointRanges(f, g);
      } else if !In(v, l, g) {
        assert Newer(f, h);
      }
    }
    forall g, h | In(v', 0, g) && In(v', 0, h) ensures g.number > h.number ==> Newer(g, h)
      ensures g.number == h.number ==> g == h
    {
      FlushedHas(v, f, level, v', 0, g);
      FlushedHas(v, f, level, v', 0, h);
    }
  }

  // ---- A running compaction ----

  /** `base` is the version whose files the compaction saw when it was set up. */
  datatype Job = Job(level: nat, in0: seq<File>, in1: seq<File>, base: Version, snapshot: nat)

  ghost function Inputs(job: Job): seq<File> { job.in0 + job.in1 }

  ghost predicate OneSide(g: File, fs: seq<File>) {
    (forall f :: f in fs ==> Less(Largest(g), Smallest(f))) || (forall f :: f in fs ==> Less(Largest(f), Smallest(g)))
  }

  /** A file of the upper input level that the compaction does not read. */
  ghost predicate LeftAbove(v: Version, job: Job, g: File) {
    In(v, job.level, g) && g !in job.in0
  }

  /** A file of the output level that the compaction does not read. */
  ghost predicate LeftBelow(v: Version, job: Job, g: File) {
    In(v, job.level + 1, g) && g !in job.in1
  }

  /**
   The boundary hypotheses: within an input level, a file left behind holds no older version
   of an input's user key. Output cutting can break them above level 0.
   */
  ghost predicate UpperClosed(v: Version, job: Job) {
    forall f, g :: LeftAbove(v, job, g) && f in job.in0 ==> Newer(g, f)
  }

  ghost predicate LowerClosed(v: Version, job: Job) {
    forall f, g :: LeftBelow(v, job, g) && f in job.in1 ==> Newer(g, f)
  }

  ghost predicate BoundaryClosed(v: Version, job: Job) {
    UpperClosed(v, job) && LowerClosed(v, job)
  }

  ghost predicate InputsPresent(v: Version, job: Job) {
    && (forall f :: f in job.in0 ==> In(v, job.level, f))
    && (forall f :: f in job.in1 ==> In(v, job.level + 1, f))
  }

  ghost predicate UnreadAside(v: Version, job: Job) {
    forall g :: LeftBelow(v, job, g) ==> OneSide(g, Inputs(job))
  }

  ghost predicate DeeperKnown(v: Version, job: Job) {
    forall l, f, g :: job.level + 2 <= l && In(v, l, g) && f in Inputs(job) ==> In(job.base, l, g) || NoShared(g, f)
  }

  ghost predicate NoGap(job: Job) {
    job.in0 != [] && Covers(Inputs(job), LoUser(Inputs(job)), HiUser(Inputs(job)))
  }

  /** What stays true from set-up to install, whatever flushes come between. */
  ghost predicate JobPlaced(v: Version, job: Job) {
    && |v| == NUM_LEVELS && job.level + 1 < NUM_LEVELS && ValidVersion(job.base) && NoGap(job)
    && InputsPresent(v, job) && UnreadAside(v, job) && DeeperKnown(v, job)
  }

  /** What the boundary hypotheses give on top: unread files of the input levels are newer than the inputs. */
  ghost predicate UpperNewer(v: Version, job: Job) {
    forall f, g :: f in Inputs(job) && LeftAbove(v, job, g) ==> Newer(g, f)
  }

  ghost predicate LowerNewer(v: Version, job: Job) {
    forall f, g :: f in Inputs(job) && LeftBelow(v, job, g) ==> Newer(g, f)
  }

  /** Files of a sorted level that do not meet a range lie to one side of what is read inside it. */
  lemma UnreadIsAside(fs: seq<File>, in0: seq<File>, in1: seq<File>, lo: int, hi: int, g: File)
    requires ValidFiles(fs) && Ordered(fs) && in1 == Overlapping(fs, Some(lo), Some(hi))
    requires forall f :: f in in0 ==> lo <= Smallest(f).user && Largest(f).user <= hi
    requires g in fs && g !in in1
    ensures OneSide(g, in0 + in1)
  {
    OverlappingAll(fs, Some(lo), Some(hi));
    assert !Meets(g, Some(lo), Some(hi));
    WithinFile(g, g.entries[0]);
    forall f | f in in0 + in1
      ensures if Largest(g).user < lo then Less(Largest(g), Smallest(f)) else Less(Largest(f), Smallest(g))
    {
      if f in in1 {
        ApartFromOrdered(fs, f, g);
        WithinFile(f, f.entries[0]);
      }
    }
  }

  lemma AllUnreadAside(fs: seq<File>, in0: seq<File>, in1: seq<File>, lo: int, hi: int)
    requires ValidFiles(fs) && Ordered(fs) && in1 == Overlapping(fs, Some(lo), Some(hi))
    requires forall f :: f in in0 ==> lo <= Smallest(f).user && Largest(f).user <= hi
    ensures forall g :: g in fs && g !in in1 ==> OneSide(g, in0 + in1)
  {
    forall g | g in fs && g !in in1 ensures OneSide(g, in0 + in1) {
      UnreadIsAside(fs, in0, in1, lo, hi, g);
    }
  }

  lemma ReadIsPresent(v: Version, job: Job)
    requires NextInputs(v, job.level, job.in0, job.in1)
    ensures InputsPresent(v, job)
  {
    SubsetIsPresent(v, job.level, job.in0);
    OverlappingSubset(v[job.level + 1], LoUser(job.in0), HiUser(job.in0), job.in1);
    SubsetIsPresent(v, job.level + 1, job.in1);
  }

  lemma SubsetIsPresent(v: Version, level: nat, fs: seq<File>)
    requires level < |v| && forall f :: f in fs ==> f in v[level]
    ensures forall f :: f in fs ==> In(v, level, f)
  {
  }

  lemma OverlappingSubset(fs: seq<File>, lo: int, hi: int, gs: seq<File>)
    requires gs == Overlapping(fs, Some(lo), Some(hi))
    ensures forall f :: f in gs ==> f in fs
  {
    forall f | f in gs ensures f in fs { OverlappingHas(fs, Some(lo), Some(hi), f); }
  }

  /** A compaction set up by the code meets what the placement of its outputs needs, with no hypothesis. */
  lemma StartPlaced(v: Version, job: Job)
    requires ValidVersion(v) && job.base == v && GoodInputs(v, job.level, job.in0, job.in1)
    ensures JobPlaced(v, job)
  {
    ReadIsPresent(v, job);
    AllUnreadAside(v[job.level + 1], job.in0, job.in1, LoUser(job.in0), HiUser(job.in0));
  }

  lemma StartUpper(v: Version, job: Job)
    requires ValidVersion(v) && LevelOrder(v) && InputsPresent(v, job) && UpperClosed(v, job)
    ensures UpperNewer(v, job)
  {
    forall f, g | f in Inputs(job) && LeftAbove(v, job, g) ensures Newer(g, f) {
      if f !in job.in0 { assert In(v, job.level + 1, f); }
    }
  }

  lemma StartLower(v: Version, job: Job)
    requires ValidVersion(v) && NextInputs(v, job.level, job.in0, job.in1) && LowerClosed(v, job)
    ensures LowerNewer(v, job)
  {
    forall f, g | f in Inputs(job) && LeftBelow(v, job, g) ensures Newer(g, f) {
      if f !in job.in1 { MissedBelow(v, job, f, g); }
    }
  }

  /** A file of the output level that is not read has no user key in common with the first input. */
  lemma MissedBelow(v: Version, job: Job, f: File, g: File)
    requires ValidVersion(v) && NextInputs(v, job.level, job.in0, job.in1)
    requires f in job.in0 && LeftBelow(v, job, g)
    ensures NoShared(g, f)
  {
    var lo, hi := LoUser(job.in0), HiUser(job.in0);
    OverlappingHas(v[job.level + 1], Some(lo), Some(hi), g);
    assert f in v[job.level];
    NarrowMiss(f, g, lo, hi);
  }

  lemma NarrowMiss(f: File, g: File, lo: int, hi: int)
    requires ValidFile(f) && ValidFile(g) && lo <= Smallest(f).user && Largest(f).user <= hi
    requires !Meets(g, Some(lo), Some(hi))
    ensures NoShared(g, f)
  {
    DisjointRanges(f, g);
  }

  /** A table that meets no input of a gap-free compaction lies to one side of all of them. */
  lemma NoGapNoMiddle(f: File, fs: seq<File>)
    requires ValidFile(f) && fs != [] && Covers(fs, LoUser(fs), HiUser(fs))
    requires forall g :: g in fs ==> ValidFile(g) && !Meets(g, Some(Smallest(f).user), Some(Largest(f).user))
    ensures OneSide(f, fs)
  {
    var lo, hi := LoUser(fs), HiUser(fs);
    WithinFile(f, f.entries[0]);
    var covered := Covered(fs, Smallest(f).user);
    assert !(lo <= Smallest(f).user <= hi);
    var first :| first in fs && Smallest(first).user == lo;
    if Smallest(f).user < lo {
      assert Largest(f).user < lo by { WithinFile(first, first.entries[0]); }
      forall g | g in fs ensures Less(Largest(f), Smallest(g)) {}
    } else {
      forall g | g in fs ensures Less(Largest(g), Smallest(f)) {}
    }
  }

  lemma InputIsIn(v: Version, job: Job, h: File)
    requires ValidVersion(v) && InputsPresent(v, job) && h in Inputs(job)
    ensures ValidFile(h) && (In(v, job.level, h) || In(v, job.level + 1, h))
  {
  }

  /** A table flushed at or below the output level has no user key in common with the inputs. */
  lemma FlushMissesInputs(v: Version, f: File, level: nat, v': Version, job: Job)
    requires ValidVersion(v) && ValidFile(f) && Flushed(v, f, level, v') && InputsPresent(v, job) && NoGap(job)
    requires level >= job.level + 1
    ensures OneSide(f, Inputs(job))
    ensures forall h :: h in Inputs(job) ==> NoShared(f, h)
  {
    forall h | h in Inputs(job)
      ensures ValidFile(h) && NoShared(f, h) && !Meets(h, Some(Smallest(f).user), Some(Largest(f).user))
    {
      InputIsIn(v, job, h);
      DisjointRanges(f, h);
    }
    NoGapNoMiddle(f, Inputs(job));
  }

  /** A memtable flush in the middle of a compaction does not disturb it. */
  lemma FlushKeepsPlaced(v: Version, f: File, level: nat, v': Version, job: Job)
    requires ValidVersion(v) && ValidFile(f) && Flushed(v, f, level, v') && JobPlaced(v, job)
    ensures JobPlaced(v', job)
  {
    if level >= job.level + 1 { FlushMissesInputs(v, f, level, v', job); }
    FlushKeepsPresent(v, f, level, v', job);
    FlushKeepsAside(v, f, level, v', job);
  }

  lemma FlushKeepsPresent(v: Version, f: File, level: nat, v': Version, job: Job)
    requires Flushed(v, f, level, v') && InputsPresent(v, job)
    ensures InputsPresent(v', job)
  {
    forall h | h in job.in0 ensures In(v', job.level, h) { FlushedHas(v, f, level, v', job.level, h); }
    forall h | h in job.in1 ensures In(v', job.level + 1, h) { FlushedHas(v, f, level, v', job.level + 1, h); }
  }

  lemma FlushKeepsAside(v: Version, f: File, level: nat, v': Version, job: Job)
    requires Flushed(v, f, level, v') && UnreadAside(v, job) && DeeperKnown(v, job)
    requires level >= job.level + 1 ==> OneSide(f, Inputs(job)) && forall h :: h in Inputs(job) ==> NoShared(f, h)
    ensures UnreadAside(v', job) && DeeperKnown(v', job)
  {
    forall g | LeftBelow(v', job, g) ensures OneSide(g, Inputs(job)) {
      FlushedHas(v, f, level, v', job.level + 1, g);
    }
    forall l, h, g | job.level + 2 <= l && In(v', l, g) && h in Inputs(job)
      ensures In(job.base, l, g) || NoShared(g, h)
    {
      FlushedHas(v, f, level, v', l, g);
    }
  }

  /** A flushed table is newer than every input, wherever it goes. */
  lemma FlushKeepsNewer(v: Version, f: File, level: nat, v': Version, job: Job)
    requires ValidVersion(v) && NewestFile(v, f) && Flushed(v, f, level, v') && InputsPresent(v, job)
    ensures UpperNewer(v, job) ==> UpperNewer(v', job)
    ensures LowerNewer(v, job) ==> LowerNewer(v', job)
  {
    forall h, g | h in Inputs(job) && LeftAbove(v', job, g) ensures g == f ==> Newer(g, h)
      ensures g != f ==> LeftAbove(v, job, g)
    {
      FlushedHas(v, f, level, v', job.level, g);
      InputIsIn(v, job, h);
    }
    forall h, g | h in Inputs(job) && LeftBelow(v', job, g) ensures g == f ==> Newer(g, h)
      ensures g != f ==> LeftBelow(v, job, g)
    {
      FlushedHas(v, f, level, v', job.level + 1, g);
      InputIsIn(v, job, h);
    }
  }

  // ---- Installing the results ----

  ghost predicate Installed(v: Version, job: Job, outs: seq<File>, v': Version) {
    && |v'| == NUM_LEVELS && job.level + 1 < NUM_LEVELS && |v| == NUM_LEVELS
    && (forall l :: 0 <= l < NUM_LEVELS && l != job.level && l != job.level + 1 ==> v'[l] == v[l])
    && Edited(v[job.level], job.in0, [], v'[job.level])
    && Edited(v[job.level + 1], job.in1, outs, v'[job.level + 1])
  }

  /** Outputs are sorted, disjoint, and made of input entries only. */
  ghost predicate FromInputs(job: Job, outs: seq<File>) {
    && ValidFiles(outs) && Ordered(outs)
    && (forall o, e :: o in outs && e in o.entries ==> Read(job, e))
  }

  ghost predicate Read(job: Job, e: Entry) {
    exists f :: f in Inputs(job) && e in f.entries
  }

  lemma InstalledHas(v: Version, job: Job, outs: seq<File>, v': Version, l: int, g: File)
    requires Installed(v, job, outs, v')
    ensures In(v', l, g) <==>
            || (In(v, l, g) && !(l == job.level && g in job.in0) && !(l == job.level + 1 && g in job.in1))
            || (l == job.level + 1 && g in outs)
  {
  }

  lemma AsideOfOutput(v: Version, job: Job, outs: seq<File>, g: File, o: File)
    requires InputsPresent(v, job) && ValidVersion(v) && FromInputs(job, outs) && o in outs && OneSide(g, Inputs(job))
    ensures Apart(g, o)
  {
    var first, last := o.entries[0], o.entries[|o.entries| - 1];
    assert Read(job, first) && Read(job, last);
    var f :| f in Inputs(job) && first in f.entries;
    var h :| h in Inputs(job) && last in h.entries;
    InputIsIn(v, job, f);
    InputIsIn(v, job, h);
    EndsAside(g, o, f, h);
  }

  lemma EndsAside(g: File, o: File, f: File, h: File)
    requires ValidFile(f) && ValidFile(h)
    requires (Less(Largest(g), Smallest(f)) && Less(Largest(g), Smallest(h)))
          || (Less(Largest(f), Smallest(g)) && Less(Largest(h), Smallest(g)))
    requires o.entries[0] in f.entries && o.entries[|o.entries| - 1] in h.entries
    ensures Apart(g, o)
  {
    WithinFile(f, o.entries[0]);
    WithinFile(h, o.entries[|o.entries| - 1]);
  }

  lemma OutputLevelApart(v: Version, job: Job, outs: seq<File>, v': Version, g: File, h: File)
    requires ValidVersion(v) && InputsPresent(v, job) && UnreadAside(v, job) && FromInputs(job, outs)
    requires Installed(v, job, outs, v') && g in v'[job.level + 1] && h in v'[job.level + 1] && g != h
    ensures Apart(g, h)
  {
    var n := job.level + 1;
    InstalledHas(v, job, outs, v', n, g);
    InstalledHas(v, job, outs, v', n, h);
    if g in outs && h in outs {
      ApartFromOrdered(outs, g, h);
    } else if g in outs {
      AsideOfOutput(v, job, outs, h, g);
    } else if h in outs {
      AsideOfOutput(v, job, outs, g, h);
    } else {
      ApartFromOrdered(v[n], g, h);
    }
  }

  /** Installing outputs keeps every level above 0 sorted and disjoint; no boundary hypothesis is needed. */
  lemma InstallKeepsValid(v: Version, job: Job, outs: seq<File>, v': Version)
    requires ValidVersion(v) && JobPlaced(v, job) && FromInputs(job, outs) && Installed(v, job, outs, v')
    ensures ValidVersion(v')
  {
    var n := job.level + 1;
    forall g, h | g in v'[n] && h in v'[n] && g != h ensures Apart(g, h) {
      OutputLevelApart(v, job, outs, v', g, h);
    }
    OrderedFromApart(v'[n]);
    if job.level > 0 {
      forall g, h | g in v'[job.level] && h in v'[job.level] && g != h ensures Apart(g, h) {
        ApartFromOrdered(v[job.level], g, h);
      }
      OrderedFromApart(v'[job.level]);
    }
  }

  /** Every file left behind in the upper input level is newer than the outputs. */
  ghost predicate OutputsOlder(v: Version, job: Job, outs: seq<File>) {
    forall g, o :: LeftAbove(v, job, g) && o in outs ==> Newer(g, o)
  }

  /** The other pairs of files keep their order whatever is installed. */
  lemma InstallOrder(v: Version, job: Job, outs: seq<File>, v': Version)
    requires LevelOrder(v) && InputsPresent(v, job) && FromInputs(job, outs) && Installed(v, job, outs, v')
    ensures LevelOrder(v') <==> OutputsOlder(v, job, outs)
  {
    if OutputsOlder(v, job, outs) {
      forall l, m, g, h | l < m && In(v', l, g) && In(v', m, h) ensures Newer(g, h) {
        InstalledHas(v, job, outs, v', l, g);
        InstalledHas(v, job, outs, v', m, h);
        if m == job.level + 1 && h in outs {
          if l < job.level { OutputBelow(v, job, outs, l, g, h); } else { assert LeftAbove(v, job, g); }
        } else if l == job.level + 1 && g in outs {
          OutputAbove(v, job, outs, m, g, h);
        }
      }
      forall g | In(v', 0, g) ensures In(v, 0, g) {
        InstalledHas(v, job, outs, v', 0, g);
      }
    }
    forall g, o | LeftAbove(v, job, g) && o in outs ensures In(v', job.level, g) && In(v', job.level + 1, o) {
      InstalledHas(v, job, outs, v', job.level, g);
      InstalledHas(v, job, outs, v', job.level + 1, o);
    }
  }

  lemma OutputBelow(v: Version, job: Job, outs: seq<File>, l: int, g: File, o: File)
    requires LevelOrder(v) && InputsPresent(v, job) && FromInputs(job, outs) && o in outs
    requires In(v, l, g) && l < job.level
    ensures Newer(g, o)
  {
    forall x, y | x in g.entries && y in o.entries && x.key.user == y.key.user ensures x.key.seqno > y.key.seqno {
      assert Read(job, y);
      var f :| f in Inputs(job) && y in f.entries;
      assert In(v, job.level, f) || In(v, job.level + 1, f);
      assert Newer(g, f);
    }
  }

  lemma OutputAbove(v: Version, job: Job, outs: seq<File>, m: int, o: File, h: File)
    requires LevelOrder(v) && InputsPresent(v, job) && FromInputs(job, outs) && o in outs
    requires In(v, m, h) && m > job.level + 1
    ensures Newer(o, h)
  {
    forall x, y | x in o.entries && y in h.entries && x.key.user == y.key.user ensures x.key.seqno > y.key.seqno {
      assert Read(job, x);
      var f :| f in Inputs(job) && x in f.entries;
      assert In(v, job.level, f) || In(v, job.level + 1, f);
      assert Newer(f, h);
    }
  }
}
