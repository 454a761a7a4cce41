/**
 Choosing where a flushed table goes and which files a compaction reads.
 */
module CompactionInputs {
  import opened Options
  import opened Format
  import opened Versions

  /** The files of `fs` that meet a range of user keys, in order. */
  function Overlapping(fs: seq<File>, lo: Option<int>, hi: Option<int>): seq<File> {
    if fs == [] then []
    else
      var last := fs[|fs| - 1];
      Overlapping(fs[..|fs| - 1], lo, hi) + if Meets(last, lo, hi) then [last] else []
  }

  lemma {:induction false} OverlappingHas(fs: seq<File>, lo: Option<int>, hi: Option<int>, f: File)
    ensures f in Overlapping(fs, lo, hi) <==> f in fs && Meets(f, lo, hi)
  {
    if fs != [] {
      OverlappingHas(fs[..|fs| - 1], lo, hi, f);
      assert fs == fs[..|fs| - 1] + [fs[|fs| - 1]];
    }
  }

  lemma OverlappingAll(fs: seq<File>, lo: Option<int>, hi: Option<int>)
    ensures forall f :: f in Overlapping(fs, lo, hi) <==> f in fs && Meets(f, lo, hi)
  {
    forall f { OverlappingHas(fs, lo, hi, f); }
  }

  /** [a, b] contains [lo, hi], and has the same open ends. */
  ghost predicate Wider(a: Option<int>, b: Option<int>, lo: Option<int>, hi: Option<int>) {
    && (a.Some? <==> lo.Some?) && (a.Some? ==> a.value <= lo.value)
    && (b.Some? <==> hi.Some?) && (b.Some? ==> hi.value <= b.value)
  }

  ghost predicate Inside(f: File, lo: Option<int>, hi: Option<int>) {
    && (lo.Some? ==> lo.value <= Smallest(f).user)
    && (hi.Some? ==> Largest(f).user <= hi.value)
  }

  /** No file crosses the border of the range. */
  ghost predicate Closed(fs: seq<File>, lo: Option<int>, hi: Option<int>) {
    forall f :: f in fs && Meets(f, lo, hi) ==> Inside(f, lo, hi)
  }

  /** The ranges of `fs` leave no gap between `lo` and `hi`. */
  ghost predicate Covers(fs: seq<File>, lo: int, hi: int) {
    forall u :: lo <= u <= hi ==> Covered(fs, u)
  }

  ghost predicate Covered(fs: seq<File>, u: int) {
    exists f :: f in fs && Smallest(f).user <= u <= Largest(f).user
  }

  // Restarts of the level-0 search are bounded by the file ends still outside the range.
  ghost function EndsOutside(f: File, lo: Option<int>, hi: Option<int>): nat {
    (if lo.Some? && Smallest(f).user < lo.value then 1 else 0) + (if hi.Some? &&
                                                                  Largest(f).user > hi.value then 1 else 0)
  }

  ghost function Outside(fs: seq<File>, lo: Option<int>, hi: Option<int>): nat {
    if fs == [] then 0 else Outside(fs[..|fs| - 1], lo, hi) + EndsOutside(fs[|fs| - 1], lo, hi)
  }

  lemma {:induction false} WideningShrinksOutside(fs: seq<File>, a: Option<int>, b: Option<int>,
                                                  lo: Option<int>, hi: Option<int>, f: File)
    requires Wider(a, b, lo, hi)
    ensures Outside(fs, a, b) <= Outside(fs, lo, hi)
    ensures f in fs && EndsOutside(f, a, b) < EndsOutside(f, lo, hi) ==> Outside(fs, a, b) < Outside(fs, lo, hi)
  {
    if fs != [] {
      WideningShrinksOutside(fs[..|fs| - 1], a, b, lo, hi, f);
      assert fs == fs[..|fs| - 1] + [fs[|fs| - 1]];
    }
  }

  /** Every range around the request that no file crosses contains [lo, hi]. */
  ghost predicate Least(files: seq<File>, begin: Option<int>, end: Option<int>, lo: Option<int>, hi: Option<int>) {
    forall a, b :: Wider(a, b, begin, end) && Closed(files, a, b) ==> Wider(a, b, lo, hi)
  }

  /** Growing a range file by file opens no gap. */
  ghost predicate CoverGrows(all: seq<File>, begin: Option<int>, end: Option<int>, lo: Option<int>, hi: Option<int>)
    requires Wider(lo, hi, begin, end)
  {
    begin.Some? && end.Some? && Covers(all, begin.value, end.value) ==> Covers(all, lo.value, hi.value)
  }

  /**
   Version::GetOverlappingInputs. Above level 0 it is one filtering pass. At level 0 a file
   that sticks out of the range widens the range and restarts the search; the result is the
   least range around the request that no file crosses, and the files that meet it.
   */
  method GetOverlappingInputs(level: nat, files: seq<File>, begin: Option<int>, end: Option<int>,
                              ghost extra: seq<File>)
    returns (inputs: seq<File>, lo: Option<int>, hi: Option<int>)
    requires ValidFiles(files)
    ensures inputs == Overlapping(files, lo, hi)
    ensures Wider(lo, hi, begin, end)
    ensures level > 0 ==> lo == begin && hi == end
    ensures level == 0 ==> Closed(files, lo, hi)
    ensures Least(files, begin, end, lo, hi)
    ensures CoverGrows(files + extra, begin, end, lo, hi)
  {
    lo, hi, inputs := begin, end, [];
    var i := 0;
    while i < |files|
      invariant 0 <= i <= |files| && Gathered(level, files[..i], lo, hi, inputs)
      invariant Reached(files, extra, begin, end, lo, hi)
      invariant level > 0 ==> lo == begin && hi == end
      decreases Outside(files, lo, hi), |files| - i
    {
      var f := files[i];
      GatherOne(level, files, i, lo, hi, inputs);
      i := i + 1;
      if lo.Some? && Largest(f).user < lo.value {
      } else if hi.Some? && Smallest(f).user > hi.value {
      } else {
        inputs := inputs + [f];
        if level == 0 {
          if lo.Some? && Smallest(f).user < lo.value {
            Widen(files, extra, f, begin, end, lo, hi, Some(Smallest(f).user), hi);
            lo, inputs, i := Some(Smallest(f).user), [], 0;
          } else if hi.Some? && Largest(f).user > hi.value {
            Widen(files, extra, f, begin, end, lo, hi, lo, Some(Largest(f).user));
            hi, inputs, i := Some(Largest(f).user), [], 0;
          }
        }
      }
    }
    assert files[..i] == files;
  }

  /** What one pass over `done` has collected; at level 0 no file seen crosses the border. */
  ghost predicate Gathered(level: nat, done: seq<File>, lo: Option<int>, hi: Option<int>, inputs: seq<File>) {
    inputs == Overlapping(done, lo, hi) && (level == 0 ==> Closed(done, lo, hi))
  }

  lemma GatherOne(level: nat, files: seq<File>, i: nat, lo: Option<int>, hi: Option<int>, inputs: seq<File>)
    requires ValidFiles(files) && i < |files| && Gathered(level, files[..i], lo, hi, inputs)
    ensures files[i] in files && Smallest(files[i]).user <= Largest(files[i]).user
    ensures !Meets(files[i], lo, hi) ==> Gathered(level, files[..i + 1], lo, hi, inputs)
    ensures Meets(files[i], lo, hi) && (level == 0 ==> Inside(files[i], lo, hi)) ==>
              Gathered(level, files[..i + 1], lo, hi, inputs + [files[i]])
  {
    var f := files[i];
    assert f in files;
    WithinFile(f, f.entries[0]);
    assert files[..i + 1] == files[..i] + [f] && files[..i + 1][..i] == files[..i];
    assert inputs + [] == inputs;
  }

  /** The range contains the request, is within every closed range that does, and opens no gap. */
  ghost predicate Reached(files: seq<File>, extra: seq<File>, begin: Option<int>, end: Option<int>,
                          lo: Option<int>, hi: Option<int>) {
    && Wider(lo, hi, begin, end) && Least(files, begin, end, lo, hi)
    && CoverGrows(files + extra, begin, end, lo, hi)
  }

  /** Widening the range to a file that sticks out of it keeps this, and leaves fewer file ends outside. */
  lemma Widen(files: seq<File>, extra: seq<File>, f: File, begin: Option<int>, end: Option<int>,
              lo: Option<int>, hi: Option<int>, lo': Option<int>, hi': Option<int>)
    requires f in files && Meets(f, lo, hi) && Smallest(f).user <= Largest(f).user
    requires Reached(files, extra, begin, end, lo, hi)
    requires || (lo' == lo && hi.Some? && hi' == Some(Largest(f).user) && Largest(f).user > hi.value)
             || (hi' == hi && lo.Some? && lo' == Some(Smallest(f).user) && Smallest(f).user < lo.value)
    ensures Reached(files, extra, begin, end, lo', hi') && Outside(files, lo', hi') < Outside(files, lo, hi)
  {
    WideningShrinksOutside(files, lo', hi', lo, hi, f);
    WideningKeepsCover(files + extra, f, begin, end, lo, hi, lo', hi');
    LeastAfterWidening(files, f, begin, end, lo, hi, lo', hi');
  }

  lemma WideningKeepsCover(all: seq<File>, f: File, begin: Option<int>, end: Option<int>,
                           lo: Option<int>, hi: Option<int>, lo': Option<int>, hi': Option<int>)
    requires f in all && Meets(f, lo, hi) && Smallest(f).user <= Largest(f).user
    requires Wider(lo, hi, begin, end)
    requires (lo' == lo && hi.Some? && hi' == Some(Largest(f).user))
          || (hi' == hi && lo.Some? && lo' == Some(Smallest(f).user))
    requires Wider(lo', hi', lo, hi) && CoverGrows(all, begin, end, lo, hi)
    ensures Wider(lo', hi', begin, end) && CoverGrows(all, begin, end, lo', hi')
  {
    if begin.Some? && end.Some? && Covers(all, begin.value, end.value) {
      forall u | lo'.value <= u <= hi'.value ensures Covered(all, u) {
        if lo.value <= u <= hi.value {} else { assert Smallest(f).user <= u <= Largest(f).user; }
      }
    }
  }

  lemma LeastAfterWidening(files: seq<File>, f: File, begin: Option<int>, end: Option<int>,
                           lo: Option<int>, hi: Option<int>, lo': Option<int>, hi': Option<int>)
    requires f in files && Meets(f, lo, hi)
    requires (lo' == lo && hi.Some? && hi' == Some(Largest(f).user))
          || (hi' == hi && lo.Some? && lo' == Some(Smallest(f).user))
    requires Least(files, begin, end, lo, hi)
    ensures Least(files, begin, end, lo', hi')
  {
    forall a, b | Wider(a, b, begin, end) && Closed(files, a, b) ensures Wider(a, b, lo', hi') {
      assert Wider(a, b, lo, hi);
      assert Meets(f, a, b);
      assert Inside(f, a, b);
    }
  }

  /** Least user key of a nonempty list of files. */
  function LoUser(fs: seq<File>): (lo: int)
    requires fs != []
    ensures forall f :: f in fs ==> lo <= Smallest(f).user
    ensures exists f :: f in fs && Smallest(f).user == lo
  {
    if |fs| == 1 then Smallest(fs[0]).user
    else
      var rest := LoUser(fs[1..]);
      assert fs == [fs[0]] + fs[1..];
      if Smallest(fs[0]).user < rest then (assert fs[0] in fs; Smallest(fs[0]).user) else rest
  }

  function HiUser(fs: seq<File>): (hi: int)
    requires fs != []
    ensures forall f :: f in fs ==> Largest(f).user <= hi
    ensures exists f :: f in fs && Largest(f).user == hi
  {
    if |fs| == 1 then Largest(fs[0]).user
    else
      var rest := HiUser(fs[1..]);
      assert fs == [fs[0]] + fs[1..];
      if Largest(fs[0]).user > rest then (assert fs[0] in fs; Largest(fs[0]).user) else rest
  }

  /** VersionSet::GetRange: the least and greatest internal key over the inputs. */
  method GetRange(inputs: seq<File>) returns (smallest: InternalKey, largest: InternalKey)
    requires inputs != []
    ensures forall f :: f in inputs ==> !Less(Smallest(f), smallest) && !Less(largest, Largest(f))
    ensures exists f :: f in inputs && Smallest(f) == smallest
    ensures exists f :: f in inputs && Largest(f) == largest
    ensures smallest.user == LoUser(inputs) && largest.user == HiUser(inputs)
  {
    smallest, largest := Smallest(inputs[0]), Largest(inputs[0]);
    for i := 1 to |inputs|
      invariant forall j :: 0 <= j < i ==> !Less(Smallest(inputs[j]), smallest) && !Less(largest, Largest(inputs[j]))
      invariant exists j :: 0 <= j < i && Smallest(inputs[j]) == smallest
      invariant exists j :: 0 <= j < i && Largest(inputs[j]) == largest
    {
      if Less(Smallest(inputs[i]), smallest) { smallest := Smallest(inputs[i]); }
      if Less(largest, Largest(inputs[i])) { largest := Largest(inputs[i]); }
    }
    var j :| 0 <= j < |inputs| && Smallest(inputs[j]) == smallest;
    var k :| 0 <= k < |inputs| && Largest(inputs[k]) == largest;
    assert inputs[j] in inputs && inputs[k] in inputs;
  }

  function TotalFileSize(fs: seq<File>): nat {
    if fs == [] then 0 else TotalFileSize(fs[..|fs| - 1]) + fs[|fs| - 1].size
  }

  /** The second input is exactly the files of the next level that meet the range of the first. */
  ghost predicate NextInputs(v: Version, level: nat, in0: seq<File>, in1: seq<File>) {
    && |v| == NUM_LEVELS && level + 1 < NUM_LEVELS && in0 != []
    && (forall f :: f in in0 ==> f in v[level])
    && in1 == Overlapping(v[level + 1], Some(LoUser(in0)), Some(HiUser(in0)))
  }

  /** No file left behind meets the range of the chosen ones. */
  ghost predicate Whole(files: seq<File>, in0: seq<File>)
    requires in0 != []
  {
    forall f :: f in files && Meets(f, Some(LoUser(in0)), Some(HiUser(in0))) ==> f in in0
  }

  /**
   What the chosen inputs of a compaction of `level` into `level + 1` satisfy: the second
   input is given by the first, at level 0 no file left behind meets the range of the first,
   and together the inputs leave no gap.
   */
  ghost predicate GoodInputs(v: Version, level: nat, in0: seq<File>, in1: seq<File>) {
    && NextInputs(v, level, in0, in1)
    && (level == 0 ==> Whole(v[0], in0))
    && Covers(in0 + in1, LoUser(in0 + in1), HiUser(in0 + in1))
  }

  lemma {:induction false} SameCountSameFiles(fs: seq<File>, lo: Option<int>, hi: Option<int>, a: Option<int>,
                                              b: Option<int>)
    requires Wider(a, b, lo, hi)
    ensures |Overlapping(fs, lo, hi)| <= |Overlapping(fs, a, b)|
    ensures |Overlapping(fs, lo, hi)| == |Overlapping(fs, a, b)| ==> Overlapping(fs, lo, hi) == Overlapping(fs, a, b)
  {
    if fs != [] { SameCountSameFiles(fs[..|fs| - 1], lo, hi, a, b); }
  }

  /** Files that meet a gap-free range leave no gap together with it. */
  lemma CoverWider(given: seq<File>, all: seq<File>, lo: int, hi: int, lo': int, hi': int)
    requires Covers(given, lo, hi) && forall f :: f in given ==> f in all
    requires forall f :: f in all ==> Meets(f, Some(lo), Some(hi))
    requires exists f :: f in all && Smallest(f).user == lo'
    requires exists f :: f in all && Largest(f).user == hi'
    ensures Covers(all, lo', hi')
  {
    var first :| first in all && Smallest(first).user == lo';
    var last :| last in all && Largest(last).user == hi';
    forall u | lo' <= u <= hi' ensures Covered(all, u) {
      if lo <= u <= hi {
        assert Covered(given, u);
      } else if u < lo {
        assert Smallest(first).user <= u <= Largest(first).user;
      } else {
        assert Smallest(last).user <= u <= Largest(last).user;
      }
    }
  }

  /** The inputs of level + 1 meet the range of level's inputs, so together they leave no gap. */
  lemma JoinedCover(in0: seq<File>, in1: seq<File>)
    requires in0 != [] && Covers(in0, LoUser(in0), HiUser(in0))
    requires forall f :: f in in0 ==> Smallest(f).user <= Largest(f).user
    requires forall f :: f in in1 ==> Meets(f, Some(LoUser(in0)), Some(HiUser(in0)))
    ensures Covers(in0 + in1, LoUser(in0 + in1), HiUser(in0 + in1))
  {
    var all := in0 + in1;
    CoverWider(in0, all, LoUser(in0), HiUser(in0), LoUser(all), HiUser(all));
  }

  /** Adding every file that meets a gap-free range leaves no gap. */
  lemma ExpandedCover(given: seq<File>, lo: int, hi: int, all: seq<File>)
    requires all != [] && Covers(given, lo, hi) && forall f :: f in given && Meets(f, Some(lo), Some(hi)) ==> f in all
    requires forall f :: f in all ==> Meets(f, Some(lo), Some(hi))
    ensures Covers(all, LoUser(all), HiUser(all))
  {
    forall u | LoUser(all) <= u <= HiUser(all) ensures Covered(all, u) {
      if lo <= u <= hi {
        assert Covered(given, u);
        var f :| f in given && Smallest(f).user <= u <= Largest(f).user;
        assert f in all;
      } else if u < lo {
        var f :| f in all && Smallest(f).user == LoUser(all);
      } else {
        var f :| f in all && Largest(f).user == HiUser(all);
      }
    }
  }

  /** A single file, or a level-0 set grown to closure, starts a compaction; see PickCompaction. */
  ghost predicate Seeded(v: Version, level: nat, in0: seq<File>) {
    && |v| == NUM_LEVELS && level + 1 < NUM_LEVELS && in0 != []
    && (forall f :: f in in0 ==> f in v[level])
    && (level == 0 ==> Whole(v[0], in0))
    && Covers(in0, LoUser(in0), HiUser(in0))
  }

  /** VersionSet::SetupOtherInputs, with the optional growth of the first input. */
  method SetupOtherInputs(v: Version, level: nat, inputs0: seq<File>, byteLimit: nat)
    returns (in0: seq<File>, in1: seq<File>)
    requires ValidVersion(v) && Seeded(v, level, inputs0)
    ensures GoodInputs(v, level, in0, in1)
    ensures forall f :: f in inputs0 ==> f in in0
  {
    in0 := inputs0;
    var smallest, largest := GetRange(in0);
    var lo, hi;
    in1, lo, hi := GetOverlappingInputs(level + 1, v[level + 1], Some(smallest.user), Some(largest.user), []);
    OverlappingAll(v[level + 1], lo, hi);
    forall f | f in in0 ensures Smallest(f).user <= Largest(f).user {
      assert f in v[level];
      WithinFile(f, f.entries[0]);
    }
    JoinedCover(in0, in1);
    var start, limit := GetRange(in0 + in1);
    if in1 != [] {
      var expanded0;
      expanded0, lo, hi := GetOverlappingInputs(level, v[level], Some(start.user), Some(limit.user), in1);
      if |expanded0| > |in0| && TotalFileSize(in1) + TotalFileSize(expanded0) < byteLimit {
        var newStart, newLimit := GetRange(expanded0);
        var expanded1, _, _ := GetOverlappingInputs(level + 1, v[level + 1], Some(newStart.user), Some(newLimit.user),
                                                    []);
        if |expanded1| == |in1| {
          ExpandedInputs(v, level, in0, in1, lo.value, hi.value, expanded0, expanded1);
          in0, in1 := expanded0, expanded1;
        }
      }
    }
  }

  lemma ExpandedInputs(v: Version, level: nat, in0: seq<File>, in1: seq<File>, lo: int, hi: int,
                       expanded0: seq<File>, expanded1: seq<File>)
    requires ValidVersion(v) && GoodInputs(v, level, in0, in1)
    requires expanded0 == Overlapping(v[level], Some(lo), Some(hi)) && expanded0 != []
    requires lo <= LoUser(in0 + in1) && HiUser(in0 + in1) <= hi
    requires level > 0 ==> lo == LoUser(in0 + in1) && HiUser(in0 + in1) == hi
    requires level == 0 ==> Closed(v[level], Some(lo), Some(hi))
    requires Covers(v[level] + in1, LoUser(in0 + in1), HiUser(in0 + in1)) ==> Covers(v[level] + in1, lo, hi)
    requires expanded1 == Overlapping(v[level + 1], Some(LoUser(expanded0)), Some(HiUser(expanded0)))
    requires |expanded1| == |in1|
    ensures GoodInputs(v, level, expanded0, expanded1)
    ensures forall f :: f in in0 ==> f in expanded0
  {
    OverlappingAll(v[level], Some(lo), Some(hi));
    OverlappingAll(v[level + 1], Some(LoUser(in0)), Some(HiUser(in0)));
    MeetsOwnRange(v[level], in0, in0 + in1, lo, hi);
    MeetsOwnRange(v[level + 1], in1, in0 + in1, lo, hi);
    RangeGrows(in0, expanded0);
    SameCountSameFiles(v[level + 1], Some(LoUser(in0)), Some(HiUser(in0)), Some(LoUser(expanded0)),
                       Some(HiUser(expanded0)));
    GrownCover(v[level], in0, in1, lo, hi, expanded0);
    if level == 0 { ClosedKeepsAll(v[0], expanded0, lo, hi); }
  }

  lemma MeetsOwnRange(files: seq<File>, fs: seq<File>, all: seq<File>, lo: int, hi: int)
    requires ValidFiles(files) && all != [] && lo <= LoUser(all) && HiUser(all) <= hi
    requires forall f :: f in fs ==> f in files && f in all
    ensures forall f :: f in fs ==> Meets(f, Some(lo), Some(hi))
  {
    forall f | f in fs ensures Meets(f, Some(lo), Some(hi)) {
      WithinFile(f, f.entries[0]);
    }
  }

  lemma ClosedKeepsAll(files: seq<File>, inputs: seq<File>, lo: int, hi: int)
    requires inputs != [] && Closed(files, Some(lo), Some(hi))
    requires forall f :: f in inputs <==> f in files && Meets(f, Some(lo), Some(hi))
    ensures forall f :: f in files && Meets(f, Some(LoUser(inputs)), Some(HiUser(inputs))) ==> f in inputs
  {
    forall f | f in inputs ensures Inside(f, Some(lo), Some(hi)) {}
    var least, greatest := LoUser(inputs), HiUser(inputs);
    var x :| x in inputs && Smallest(x).user == least;
    var y :| y in inputs && Largest(y).user == greatest;
    assert lo <= LoUser(inputs) && HiUser(inputs) <= hi;
  }

  lemma GrownCover(files: seq<File>, in0: seq<File>, in1: seq<File>, lo: int, hi: int, expanded0: seq<File>)
    requires in0 != [] && expanded0 != [] && forall f :: f in in0 ==> f in files
    requires forall f :: f in expanded0 <==> f in files && Meets(f, Some(lo), Some(hi))
    requires forall f :: f in in1 ==> Meets(f, Some(lo), Some(hi))
    requires Covers(in0 + in1, LoUser(in0 + in1), HiUser(in0 + in1))
    requires Covers(files + in1, LoUser(in0 + in1), HiUser(in0 + in1)) ==> Covers(files + in1, lo, hi)
    ensures Covers(expanded0 + in1, LoUser(expanded0 + in1), HiUser(expanded0 + in1))
  {
    forall u | LoUser(in0 + in1) <= u <= HiUser(in0 + in1) ensures Covered(files + in1, u) {
      assert Covered(in0 + in1, u);
      var f :| f in in0 + in1 && Smallest(f).user <= u <= Largest(f).user;
      assert f in files + in1;
    }
    ExpandedCover(files + in1, lo, hi, expanded0 + in1);
  }

  lemma RangeGrows(fs: seq<File>, gs: seq<File>)
    requires fs != [] && gs != [] && forall f :: f in fs ==> f in gs
    ensures LoUser(gs) <= LoUser(fs) && HiUser(fs) <= HiUser(gs)
  {
  }

  /** VersionSet::PickCompaction for any file that size or seek statistics may select. */
  method PickCompaction(v: Version, level: nat, picked: File, byteLimit: nat) returns (in0: seq<File>, in1: seq<File>)
    requires ValidVersion(v) && level + 1 < NUM_LEVELS && picked in v[level]
    ensures GoodInputs(v, level, in0, in1) && picked in in0
  {
    in0 := [picked];
    WithinFile(picked, picked.entries[0]);
    assert Covers(in0, LoUser(in0), HiUser(in0)) by {
      forall u | LoUser(in0) <= u <= HiUser(in0) ensures Covered(in0, u) { assert picked in in0; }
    }
    if level == 0 {
      var smallest, largest := GetRange(in0);
      var lo, hi;
      in0, lo, hi := GetOverlappingInputs(0, v[0], Some(smallest.user), Some(largest.user), []);
      ClosureIsSeeded(v, picked, in0, lo.value, hi.value);
    }
    in0, in1 := SetupOtherInputs(v, level, in0, byteLimit);
  }

  lemma ClosureIsSeeded(v: Version, picked: File, in0: seq<File>, lo: int, hi: int)
    requires ValidVersion(v) && picked in v[0] && in0 == Overlapping(v[0], Some(lo), Some(hi))
    requires lo <= Smallest(picked).user <= Largest(picked).user <= hi
    requires Closed(v[0], Some(lo), Some(hi))
    requires Covers(v[0] + [], Smallest(picked).user, Largest(picked).user) ==> Covers(v[0] + [], lo, hi)
    ensures picked in in0 && Seeded(v, 0, in0)
  {
    OverlappingAll(v[0], Some(lo), Some(hi));
    forall u | Smallest(picked).user <= u <= Largest(picked).user ensures Covered(v[0] + [], u) {
      assert picked in v[0] + [];
    }
    assert v[0] + [] == v[0];
    ExpandedCover(v[0], lo, hi, in0);
    ClosedKeepsAll(v[0], in0, lo, hi);
  }

  // ---- Version::PickLevelForMemTableOutput ----

  /** A flushed table may go to `target` when no file at or above that level meets its range. */
  ghost predicate MayPlace(v: Version, lo: int, hi: int, target: nat) {
    && |v| == NUM_LEVELS && target <= MAX_MEM_COMPACT_LEVEL
    && (target > 0 ==> forall l, f :: l <= target && In(v, l, f) ==> !Meets(f, Some(lo), Some(hi)))
  }

  method PickLevelForMemTableOutput(v: Version, lo: int, hi: int, grandparentLimit: nat) returns (level: nat)
    requires ValidVersion(v)
    ensures MayPlace(v, lo, hi, level)
  {
    level := 0;
    var overlap := SomeFileOverlapsRange(false, v[0], Some(lo), Some(hi));
    if !overlap {
      while level < MAX_MEM_COMPACT_LEVEL
        invariant level <= MAX_MEM_COMPACT_LEVEL
        invariant forall l, f :: l <= level && In(v, l, f) ==> !Meets(f, Some(lo), Some(hi))
      {
        overlap := SomeFileOverlapsRange(true, v[level + 1], Some(lo), Some(hi));
        if overlap { break; }
        if level + 2 < NUM_LEVELS {
          var grandparents, _, _ := GetOverlappingInputs(level + 2, v[level + 2], Some(lo), Some(hi), []);
          if TotalFileSize(grandparents) > grandparentLimit { break; }
        }
        level := level + 1;
      }
    }
  }
}
