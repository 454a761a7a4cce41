/**
 A version: for each level the list of its table files. Files of level 0 may
 overlap; files of every other level are sorted and disjoint.
 */
module Versions {
  import opened Options
  import opened Format

  datatype TableFile = TableFile(number: nat, size: nat, entries: seq<Entry>)

  const SOME_FILE: TableFile := TableFile(0, 0, [Entry(InternalKey(0, 0, Value), "")])

  /** Table files are never empty: an empty memtable or output produces no file. */
  type File = f: TableFile | |f.entries| > 0 witness SOME_FILE

  type Version = seq<seq<File>>

  function Smallest(f: File): InternalKey { f.entries[0].key }
  function Largest(f: File): InternalKey { f.entries[|f.entries| - 1].key }

  ghost predicate ValidFile(f: File) {
    Sorted(f.entries) && forall e :: e in f.entries ==> e.key.seqno <= MAX_SEQUENCE
  }

  ghost predicate ValidFiles(fs: seq<File>) {
    forall f :: f in fs ==> ValidFile(f)
  }

  /** Levels above 0: files in increasing, disjoint internal-key ranges. */
  ghost predicate Ordered(fs: seq<File>) {
    forall i, j :: 0 <= i < j < |fs| ==> Less(Largest(fs[i]), Smallest(fs[j]))
  }

  /** Every entry of `f` is newer than every entry of `g` for the same user key. */
  ghost predicate Newer(f: File, g: File) {
    forall x, y :: x in f.entries && y in g.entries && x.key.user == y.key.user ==> x.key.seqno > y.key.seqno
  }

  ghost predicate In(v: Version, level: int, f: File) {
    0 <= level < |v| && f in v[level]
  }

  /** Data moves only to larger levels, so smaller levels hold newer entries. */
  ghost predicate LevelOrder(v: Version) {
    && (forall l, m, f, g :: l < m && In(v, l, f) && In(v, m, g) ==> Newer(f, g))
    && (forall f, g :: In(v, 0, f) && In(v, 0, g) && f.number > g.number ==> Newer(f, g))
    && (forall f, g :: In(v, 0, f) && In(v, 0, g) && f.number == g.number ==> f == g)
  }

  ghost predicate ValidVersion(v: Version) {
    && |v| == NUM_LEVELS
    && (forall l :: 0 <= l < |v| ==> ValidFiles(v[l]))
    && (forall l :: 1 <= l < |v| ==> Ordered(v[l]))
  }

  ghost function Contents(v: Version): set<Entry> {
    set l, i, j | 0 <= l < |v| && 0 <= i < |v[l]| && 0 <= j < |v[l][i].entries| :: v[l][i].entries[j]
  }

  lemma InContents(v: Version, l: int, f: File, e: Entry)
    requires In(v, l, f) && e in f.entries
    ensures e in Contents(v)
  {
    var i :| 0 <= i < |v[l]| && v[l][i] == f;
    var j :| 0 <= j < |f.entries| && f.entries[j] == e;
    assert v[l][i].entries[j] == e;
  }

  lemma FromContents(v: Version, e: Entry) returns (l: nat, f: File)
    requires e in Contents(v)
    ensures In(v, l, f) && e in f.entries
  {
    var l', i, j :| 0 <= l' < |v| && 0 <= i < |v[l']| && 0 <= j < |v[l'][i].entries| && v[l'][i].entries[j] == e;
    l, f := l', v[l'][i];
  }

  /** Bounds of a sorted table: every entry lies between its smallest and largest key. */
  lemma WithinFile(f: File, e: Entry)
    requires ValidFile(f) && e in f.entries
    ensures e.key == Smallest(f) || Less(Smallest(f), e.key)
    ensures e.key == Largest(f) || Less(e.key, Largest(f))
    ensures Smallest(f).user <= e.key.user <= Largest(f).user
  {
    var j :| 0 <= j < |f.entries| && f.entries[j] == e;
  }

  /** Entries of an earlier file of a sorted level come before those of a later one. */
  lemma AcrossFiles(fs: seq<File>, i: nat, j: nat, x: Entry, y: Entry)
    requires ValidFiles(fs) && Ordered(fs) && i < j < |fs|
    requires x in fs[i].entries && y in fs[j].entries
    ensures Less(x.key, y.key)
  {
    assert fs[i] in fs && fs[j] in fs;
    WithinFile(fs[i], x);
    WithinFile(fs[j], y);
  }

  /** Binary search for the first file whose largest key is at or after `key`. */
  method FindFile(files: seq<File>, key: InternalKey) returns (right: nat)
    requires ValidFiles(files) && Ordered(files)
    ensures right <= |files|
    ensures forall i :: 0 <= i < right ==> Less(Largest(files[i]), key)
    ensures forall i :: right <= i < |files| ==> !Less(Largest(files[i]), key)
  {
    var left := 0;
    right := |files|;
    while left < right
      invariant 0 <= left <= right <= |files|
      invariant forall i :: 0 <= i < left ==> Less(Largest(files[i]), key)
      invariant forall i :: right <= i < |files| ==> !Less(Largest(files[i]), key)
    {
      var mid := (left + right) / 2;
      LargestIncreases(files);
      if Less(Largest(files[mid]), key) {
        left := mid + 1;
      } else {
        right := mid;
      }
    }
  }

  lemma LargestIncreases(files: seq<File>)
    requires ValidFiles(files) && Ordered(files)
    ensures forall i, j :: 0 <= i < j < |files| ==> Less(Largest(files[i]), Largest(files[j]))
  {
    forall i, j | 0 <= i < j < |files| ensures Less(Largest(files[i]), Largest(files[j])) {
      assert files[j] in files;
      WithinFile(files[j], files[j].entries[0]);
    }
  }

  // ---- Overlap with a range of user keys; None is an open end ----

  predicate AfterFile(user: Option<int>, f: File) {
    user.Some? && user.value > Largest(f).user
  }

  predicate BeforeFile(user: Option<int>, f: File) {
    user.Some? && user.value < Smallest(f).user
  }

  predicate Meets(f: File, lo: Option<int>, hi: Option<int>) {
    !AfterFile(lo, f) && !BeforeFile(hi, f)
  }

  method SomeFileOverlapsRange(disjoint: bool, files: seq<File>, lo: Option<int>, hi: Option<int>)
    returns (overlap: bool)
    requires ValidFiles(files)
    requires disjoint ==> Ordered(files)
    ensures overlap <==> exists f :: f in files && Meets(f, lo, hi)
  {
    if !disjoint {
      for i := 0 to |files|
        invariant forall j :: 0 <= j < i ==> !Meets(files[j], lo, hi)
      {
        if AfterFile(lo, files[i]) || BeforeFile(hi, files[i]) {
        } else {
          assert files[i] in files;
          return true;
        }
      }
      return false;
    }
    var index := 0;
    if lo.Some? {
      // The earliest possible internal key for the lower bound.
      index := FindFile(files, InternalKey(lo.value, MAX_SEQUENCE, Value));
    }
    forall i | 0 <= i < |files| ensures i < index <==> AfterFile(lo, files[i]) {
      assert files[i] in files;
      assert files[i].entries[|files[i].entries| - 1] in files[i].entries;
    }
    if index >= |files| {
      return false;
    }
    if BeforeFile(hi, files[index]) {
      forall i | index < i < |files| ensures BeforeFile(hi, files[i]) {
        AcrossFiles(files, index, i, files[index].entries[0], files[i].entries[0]);
      }
      return false;
    }
    assert files[index] in files && Meets(files[index], lo, hi);
    return true;
  }

  // ---- Version::Get ----

  ghost predicate ByNumberDescending(fs: seq<File>) {
    forall i, j :: 0 <= i < j < |fs| ==> fs[i].number >= fs[j].number
  }

  function InsertNewest(f: File, fs: seq<File>): (r: seq<File>)
    requires ByNumberDescending(fs)
    ensures ByNumberDescending(r) && |r| == |fs| + 1
    ensures forall g :: g in r <==> g == f || g in fs
  {
    if fs == [] || f.number >= fs[0].number then [f] + fs
    else
      var rest := InsertNewest(f, fs[1..]);
      assert forall i :: 0 <= i < |rest| ==> rest[i] in rest;
      assert forall g :: g in rest ==> g.number <= fs[0].number;
      [fs[0]] + rest
  }

  /** Level-0 candidates are searched from the highest file number down. */
  function NewestFirst(fs: seq<File>): (r: seq<File>)
    ensures ByNumberDescending(r) && |r| == |fs|
    ensures forall g :: g in r <==> g in fs
  {
    if fs == [] then [] else InsertNewest(fs[0], NewestFirst(fs[1..]))
  }

  /** Nothing a snapshot may see for `user` in `f` is newer than `bound`. */
  ghost predicate Bounded(f: File, user: int, snapshot: nat, bound: int) {
    forall x :: x in f.entries && x.key.user == user && x.key.seqno <= snapshot ==> x.key.seqno <= bound
  }

  lemma FileGet(f: File, user: int, snapshot: nat) returns (e: Entry)
    requires ValidFile(f)
    ensures RunGet(f.entries, user, snapshot).NotFound? ==> Bounded(f, user, snapshot, -1)
    ensures !RunGet(f.entries, user, snapshot).NotFound? ==>
              && e in f.entries && e.key.user == user && e.key.seqno <= snapshot
              && Bounded(f, user, snapshot, e.key.seqno)
              && RunGet(f.entries, user, snapshot) == Resolve(e)
  {
    RunGetAnswers(f.entries, user, snapshot);
    e := f.entries[0];
    if !RunGet(f.entries, user, snapshot).NotFound? {
      e :| Newest(Elements(f.entries), user, snapshot, e) && RunGet(f.entries, user, snapshot) == Resolve(e);
    } else {
      assert forall x :: x in f.entries ==> x in Elements(f.entries);
    }
  }

  lemma HitIsNewest(v: Version, l: int, f: File, user: int, snapshot: nat, e: Entry)
    requires In(v, l, f) && e in f.entries && e.key.user == user && e.key.seqno <= snapshot
    requires forall m, g :: In(v, m, g) ==> Bounded(g, user, snapshot, e.key.seqno)
    ensures Newest(Contents(v), user, snapshot, e)
  {
    InContents(v, l, f, e);
    forall x | x in Contents(v) && x.key.user == user && x.key.seqno <= snapshot
      ensures x.key.seqno <= e.key.seqno
    {
      var m, g := FromContents(v, x);
      assert In(v, m, g);
    }
  }

  /** The level-0 files whose user-key range holds `user`. */
  method Candidates(files: seq<File>, user: int, snapshot: nat) returns (tmp: seq<File>)
    requires ValidFiles(files)
    ensures forall f :: f in tmp ==> f in files
    ensures forall f :: f in files && f !in tmp ==> Bounded(f, user, snapshot, -1)
  {
    tmp := [];
    for i := 0 to |files|
      invariant forall f :: f in tmp ==> f in files
      invariant forall j :: 0 <= j < i ==> files[j] in tmp || Bounded(files[j], user, snapshot, -1)
    {
      assert files[i] in files;
      if user >= Smallest(files[i]).user && user <= Largest(files[i]).user {
        tmp := tmp + [files[i]];
      } else {
        forall x | x in files[i].entries ensures x.key.user != user { WithinFile(files[i], x); }
      }
    }
  }

  /** Search in level 0: newest file first, stop at the first hit. */
  method GetLevel0(files: seq<File>, user: int, snapshot: nat) returns (r: LookupResult, ghost e: Entry)
    requires ValidFiles(files)
    requires forall f, g :: f in files && g in files && f.number > g.number ==> Newer(f, g)
    requires forall f, g :: f in files && g in files && f.number == g.number ==> f == g
    ensures r.NotFound? ==> forall f :: f in files ==> Bounded(f, user, snapshot, -1)
    ensures !r.NotFound? ==>
              && r == Resolve(e) && e.key.user == user && e.key.seqno <= snapshot
              && (exists f :: f in files && e in f.entries)
              && (forall f :: f in files ==> Bounded(f, user, snapshot, e.key.seqno))
  {
    e := SOME_FILE.entries[0];
    r := NotFound;
    var tmp := Candidates(files, user, snapshot);
    var sorted := NewestFirst(tmp);
    for i := 0 to |sorted|
      invariant r.NotFound?
      invariant forall j :: 0 <= j < i ==> Bounded(sorted[j], user, snapshot, -1)
    {
      var f := sorted[i];
      assert f in sorted && f in files;
      e := FileGet(f, user, snapshot);
      r := RunGet(f.entries, user, snapshot);
      if !r.NotFound? {
        forall g | g in files ensures Bounded(g, user, snapshot, e.key.seqno) {
          Level0Hit(files, sorted, i, g, user, snapshot, e);
        }
        return;
      }
    }
  }

  lemma Level0Hit(files: seq<File>, sorted: seq<File>, i: nat, g: File, user: int, snapshot: nat, e: Entry)
    requires forall f, g :: f in files && g in files && f.number > g.number ==> Newer(f, g)
    requires forall f, g :: f in files && g in files && f.number == g.number ==> f == g
    requires ByNumberDescending(sorted) && i < |sorted| && sorted[i] in files && g in files
    requires forall j :: 0 <= j < i ==> Bounded(sorted[j], user, snapshot, -1)
    requires g !in sorted ==> Bounded(g, user, snapshot, -1)
    requires e in sorted[i].entries && e.key.user == user && Bounded(sorted[i], user, snapshot, e.key.seqno)
    ensures Bounded(g, user, snapshot, e.key.seqno)
  {
    if g in sorted && g != sorted[i] {
      var j :| 0 <= j < |sorted| && sorted[j] == g;
      if i < j { assert Newer(sorted[i], g); }
    }
  }

  /** One file suffices in a sorted level: the first whose largest key is at or after the lookup key. */
  method GetSortedLevel(files: seq<File>, user: int, snapshot: nat) returns (r: LookupResult, ghost e: Entry)
    requires ValidFiles(files) && Ordered(files)
    ensures r.NotFound? ==> forall f :: f in files ==> Bounded(f, user, snapshot, -1)
    ensures !r.NotFound? ==>
              && r == Resolve(e) && e.key.user == user && e.key.seqno <= snapshot
              && (exists f :: f in files && e in f.entries)
              && (forall f :: f in files ==> Bounded(f, user, snapshot, e.key.seqno))
  {
    e := SOME_FILE.entries[0];
    r := NotFound;
    var key := LookupKey(user, snapshot);
    var index := FindFile(files, key);
    forall i | 0 <= i < index ensures Bounded(files[i], user, snapshot, -1) {
      forall x | x in files[i].entries && x.key.user == user ensures x.key.seqno > snapshot {
        assert files[i] in files;
        WithinFile(files[i], x);
      }
    }
    if index < |files| {
      assert files[index] in files;
      e := FileGet(files[index], user, snapshot);
      if user < Smallest(files[index]).user {
        forall i | index <= i < |files| ensures Bounded(files[i], user, snapshot, -1) {
          PastUser(files, index, i, 0, user);
        }
      } else {
        r := RunGet(files[index].entries, user, snapshot);
        var at := SeekIndex(files[index].entries, key);
        assert at < |files[index].entries|;
        if r.NotFound? {
          forall i | index < i < |files| ensures Bounded(files[i], user, snapshot, -1) {
            PastUser(files, index, i, at, user);
          }
        } else {
          forall i | index < i < |files| ensures Bounded(files[i], user, snapshot, e.key.seqno) {
            forall x | x in files[i].entries && x.key.user == user ensures x.key.seqno <= e.key.seqno {
              AcrossFiles(files, index, i, e, x);
            }
          }
        }
      }
    }
  }

  lemma PastUser(files: seq<File>, index: nat, i: nat, at: nat, user: int)
    requires ValidFiles(files) && Ordered(files) && index <= i < |files|
    requires at < |files[index].entries| && files[index].entries[at].key.user > user
    requires i == index ==> at == 0
    ensures forall x :: x in files[i].entries ==> x.key.user > user
  {
    forall x | x in files[i].entries ensures x.key.user > user {
      assert files[index] in files;
      if i == index { WithinFile(files[index], x); }
      else { AcrossFiles(files, index, i, files[index].entries[at], x); }
    }
  }

  /** Version::Get: the entry with the greatest visible sequence number over all files. */
  method Get(v: Version, user: int, snapshot: nat) returns (r: LookupResult)
    requires ValidVersion(v) && LevelOrder(v)
    ensures Answers(Contents(v), user, snapshot, r)
  {
    for level := 0 to NUM_LEVELS
      invariant forall l, f :: l < level && In(v, l, f) ==> Bounded(f, user, snapshot, -1)
    {
      ghost var e;
      if level == 0 {
        assert forall f :: f in v[0] ==> In(v, 0, f);
        r, e := GetLevel0(v[0], user, snapshot);
      } else {
        r, e := GetSortedLevel(v[level], user, snapshot);
      }
      if !r.NotFound? {
        ghost var f :| f in v[level] && e in f.entries;
        forall m, g | In(v, m, g) ensures Bounded(g, user, snapshot, e.key.seqno) {
          if m > level { assert In(v, level, f); assert Newer(f, g); }
        }
        HitIsNewest(v, level, f, user, snapshot, e);
        return;
      }
    }
    forall x | x in Contents(v) && x.key.user == user ensures x.key.seqno > snapshot {
      var l, f := FromContents(v, x);
      assert In(v, l, f);
    }
    r := NotFound;
  }
}
