/**
 VersionSet::Builder: collects the deletions and additions of any number of
 edits and merges them with the files of a base version. Files are of any type
 with a smallest key and a number. The levels do not affect each other, so
 most lemmas are about one level.
 */
module Builders {
  import opened Format

  datatype Order<!F> = Order(smallest: F -> InternalKey, number: F -> nat)

  /** BySmallestKey: smallest key first, ties by file number. */
  predicate Before<F>(o: Order<F>, a: F, b: F) {
    Less(o.smallest(a), o.smallest(b)) || (o.smallest(a) == o.smallest(b) && o.number(a) < o.number(b))
  }

  ghost predicate InOrder<F(!new)>(o: Order<F>, fs: seq<F>) {
    forall i, j :: 0 <= i < j < |fs| ==> Before(o, fs[i], fs[j])
  }

  datatype Deletion = Deletion(level: nat, number: nat)
  datatype Addition<+F> = Addition(level: nat, file: F)
  datatype Edit<+F> = Edit(deletions: seq<Deletion>, additions: seq<Addition<F>>)

  /** Per level: numbers to drop, and files to add in file order. */
  datatype LevelState<+F> = LevelState(deleted: set<nat>, added: seq<F>)

  const NUM: nat := NUM_LEVELS

  // ---- One level ----

  /** Insertion into the ordered set; an equivalent file already there wins. */
  function Insert<F>(o: Order<F>, fs: seq<F>, f: F): seq<F> {
    if fs == [] || Before(o, f, fs[0]) then [f] + fs
    else if Before(o, fs[0], f) then [fs[0]] + Insert(o, fs[1..], f)
    else fs
  }

  function AddFile<F>(o: Order<F>, s: LevelState<F>, f: F): LevelState<F> {
    LevelState(s.deleted - {o.number(f)}, Insert(o, s.added, f))
  }

  function AddFiles<F>(o: Order<F>, s: LevelState<F>, fs: seq<F>): LevelState<F> {
    if fs == [] then s else AddFile(o, AddFiles(o, s, fs[..|fs| - 1]), fs[|fs| - 1])
  }

  function DeletedAt(ds: seq<Deletion>, level: nat): set<nat> {
    set d | d in ds && d.level == level :: d.number
  }

  function AddedAt<F>(adds: seq<Addition<F>>, level: nat): seq<F> {
    if adds == [] then []
    else AddedAt(adds[..|adds| - 1], level) + if adds[|adds| - 1].level == level then [adds[|adds| - 1].file] else []
  }

  /** What applying an edit does to one level. */
  function Applied<F>(o: Order<F>, s: LevelState<F>, e: Edit<F>, level: nat): LevelState<F> {
    AddFiles(o, LevelState(s.deleted + DeletedAt(e.deletions, level), s.added), AddedAt(e.additions, level))
  }

  /** The two lists merged; a base file goes first unless the added one is before it. */
  function Merged<F>(o: Order<F>, base: seq<F>, added: seq<F>): seq<F>
    decreases |base| + |added|
  {
    if added == [] then base
    else if base != [] && !Before(o, added[0], base[0]) then [base[0]] + Merged(o, base[1..], added)
    else [added[0]] + Merged(o, base, added[1..])
  }

  /** MaybeAddFile for each file in turn. */
  function Kept<F>(o: Order<F>, deleted: set<nat>, fs: seq<F>): seq<F> {
    if fs == [] then []
    else MaybeAdd(o, deleted, fs[0]) + Kept(o, deleted, fs[1..])
  }

  function Saved<F>(o: Order<F>, base: seq<F>, s: LevelState<F>): seq<F> {
    Kept(o, s.deleted, Merged(o, base, s.added))
  }

  // ---- The builder ----

  class Builder<F(!new)> {
    const order: Order<F>
    const base: seq<seq<F>>
    var levels: seq<LevelState<F>>

    ghost predicate Valid() reads this {
      |levels| == NUM && |base| == NUM && forall l :: 0 <= l < NUM ==> InOrder(order, base[l])
    }

    constructor (order: Order<F>, base: seq<seq<F>>)
      requires |base| == NUM && forall l :: 0 <= l < NUM ==> InOrder(order, base[l])
      ensures Valid() && this.order == order && this.base == base
      ensures forall l :: 0 <= l < NUM ==> levels[l] == LevelState({}, [])
    {
      this.order, this.base := order, base;
      levels := seq(NUM, _ => LevelState({}, []));
    }

    /** Records one edit: deletions first, then additions. */
    method Apply(edit: Edit<F>)
      requires Valid()
      requires forall i :: 0 <= i < |edit.deletions| ==> edit.deletions[i].level < NUM
      requires forall i :: 0 <= i < |edit.additions| ==> edit.additions[i].level < NUM
      modifies this
      ensures Valid()
      ensures forall l :: 0 <= l < NUM ==> levels[l] == Applied(order, old(levels)[l], edit, l)
    {
      var ds, adds := edit.deletions, edit.additions;
      for i := 0 to |ds|
        invariant Valid()
        invariant forall l :: 0 <= l < NUM ==>
          levels[l] == LevelState(old(levels)[l].deleted + DeletedAt(ds[..i], l), old(levels)[l].added)
      {
        var level := ds[i].level;
        assert forall l: nat :: DeletedAt(ds[..i + 1], l) ==
                                DeletedAt(ds[..i], l) + if ds[i].level == l then {ds[i].number} else {};
        levels := levels[level := levels[level].(deleted := levels[level].deleted + {ds[i].number})];
      }
      assert ds[..|ds|] == ds;
      ghost var cleared := levels;
      for i := 0 to |adds|
        invariant Valid()
        invariant forall l :: 0 <= l < NUM ==> levels[l] == AddFiles(order, cleared[l], AddedAt(adds[..i], l))
      {
        var level, f := adds[i].level, adds[i].file;
        ghost var before := levels;
        levels := levels[level := AddFile(order, levels[level], f)];
        forall l | 0 <= l < NUM ensures levels[l] == AddFiles(order, cleared[l], AddedAt(adds[..i + 1], l)) {
          AddedNext(adds, i, l);
          AddFilesNext(order, cleared[l], AddedAt(adds[..i], l), f);
        }
      }
      assert adds[..|adds|] == adds;
    }

    /** First position at or after `from` whose file is after `f`. */
    method UpperBound(files: seq<F>, from: nat, f: F) returns (right: nat)
      requires InOrder(order, files) && from <= |files|
      ensures from <= right <= |files|
      ensures forall i :: from <= i < right ==> !Before(order, f, files[i])
      ensures right < |files| ==> Before(order, f, files[right])
    {
      var left := from;
      right := |files|;
      while left < right
        invariant from <= left <= right <= |files|
        invariant forall i :: from <= i < left ==> !Before(order, f, files[i])
        invariant right < |files| ==> Before(order, f, files[right])
      {
        var mid := (left + right) / 2;
        if Before(order, f, files[mid]) {
          right := mid;
        } else {
          forall i | from <= i < mid ensures !Before(order, f, files[i]) {
            assert Before(order, files[i], files[mid]);
          }
          left := mid + 1;
        }
      }
    }

    /** One level of SaveTo: for each added file first the smaller base files, then the file. */
    method SaveLevel(level: nat) returns (files: seq<F>)
      requires Valid() && level < NUM
      ensures files == Saved(order, base[level], levels[level])
    {
      var bs, added, gone := base[level], levels[level].added, levels[level].deleted;
      ghost var goal := Saved(order, bs, levels[level]);
      files := [];
      var b := 0;
      assert bs[0..] == bs && added[0..] == added;
      for a := 0 to |added|
        invariant 0 <= b <= |bs| && files + ToSave(order, gone, bs, b, added, a) == goal
      {
        var bpos := UpperBound(bs, b, added[a]);
        while b < bpos
          invariant b <= bpos && files + ToSave(order, gone, bs, b, added, a) == goal
        {
          SaveBase(order, gone, bs, b, added, a, files);
          files := files + MaybeAdd(order, gone, bs[b]);
          b := b + 1;
        }
        SaveAdded(order, gone, bs, b, added, a, files);
        files := files + MaybeAdd(order, gone, added[a]);
      }
      while b < |bs|
        invariant b <= |bs| && files + ToSave(order, gone, bs, b, added, |added|) == goal
      {
        SaveBase(order, gone, bs, b, added, |added|, files);
        files := files + MaybeAdd(order, gone, bs[b]);
        b := b + 1;
      }
    }
  }

  function MaybeAdd<F>(o: Order<F>, gone: set<nat>, f: F): seq<F> {
    if o.number(f) in gone then [] else [f]
  }

  /** What is still to be saved when `b` base files and `a` added files are done. */
  ghost function ToSave<F>(o: Order<F>, gone: set<nat>, bs: seq<F>, b: nat, added: seq<F>, a: nat): seq<F>
    requires b <= |bs| && a <= |added|
  {
    Kept(o, gone, Merged(o, bs[b..], added[a..]))
  }

  lemma SaveBase<F>(o: Order<F>, gone: set<nat>, bs: seq<F>, b: nat, added: seq<F>, a: nat, files: seq<F>)
    requires b < |bs| && a <= |added| && (a == |added| || !Before(o, added[a], bs[b]))
    ensures files + ToSave(o, gone, bs, b, added, a) ==
            files + MaybeAdd(o, gone, bs[b]) + ToSave(o, gone, bs, b + 1, added, a)
  {
    assert bs[b..][1..] == bs[b + 1..];
    var rest := Merged(o, bs[b + 1..], added[a..]);
    assert Merged(o, bs[b..], added[a..]) == [bs[b]] + rest;
    assert ([bs[b]] + rest)[1..] == rest;
  }

  lemma SaveAdded<F>(o: Order<F>, gone: set<nat>, bs: seq<F>, b: nat, added: seq<F>, a: nat, files: seq<F>)
    requires b <= |bs| && a < |added| && (b == |bs| || Before(o, added[a], bs[b]))
    ensures files + ToSave(o, gone, bs, b, added, a) ==
            files + MaybeAdd(o, gone, added[a]) + ToSave(o, gone, bs, b, added, a + 1)
  {
    assert added[a..][1..] == added[a + 1..];
    var rest := Merged(o, bs[b..], added[a + 1..]);
    assert Merged(o, bs[b..], added[a..]) == [added[a]] + rest;
    assert ([added[a]] + rest)[1..] == rest;
  }

  lemma AddedNext<F>(adds: seq<Addition<F>>, i: nat, level: nat)
    requires i < |adds|
    ensures AddedAt(adds[..i + 1], level) ==
            AddedAt(adds[..i], level) + if adds[i].level == level then [adds[i].file] else []
  {
    assert adds[..i + 1][..i] == adds[..i];
  }

  lemma AddFilesNext<F>(o: Order<F>, s: LevelState<F>, fs: seq<F>, f: F)
    ensures AddFiles(o, s, fs + [f]) == AddFile(o, AddFiles(o, s, fs), f)
    ensures AddFiles(o, s, fs + []) == AddFiles(o, s, fs)
  {
    assert (fs + [f])[..|fs|] == fs;
    assert fs + [] == fs;
  }

  // ---- What one level of SaveTo contains ----

  ghost predicate In<F>(f: F, a: seq<F>, b: seq<F>) { f in a || f in b }

  ghost predicate DistinctNumbers<F(!new)>(o: Order<F>, fs: seq<F>) {
    forall i, j :: 0 <= i < j < |fs| ==> o.number(fs[i]) != o.number(fs[j])
  }

  lemma {:induction false} MergedHas<F(!new)>(o: Order<F>, base: seq<F>, added: seq<F>)
    ensures forall f :: f in Merged(o, base, added) <==> In(f, base, added)
    decreases |base| + |added|
  {
    if added != [] {
      if base != [] && !Before(o, added[0], base[0]) {
        MergedHas(o, base[1..], added);
        assert base == [base[0]] + base[1..];
      } else {
        MergedHas(o, base, added[1..]);
        assert added == [added[0]] + added[1..];
      }
    }
  }

  /** No file of one list is equivalent to a file of the other in the file order. */
  ghost predicate NoTies<F(!new)>(o: Order<F>, a: seq<F>, b: seq<F>) {
    forall i, j :: 0 <= i < |a| && 0 <= j < |b| ==> o.number(a[i]) != o.number(b[j])
  }

  /** `f` is before all of `fs`. */
  ghost predicate First<F(!new)>(o: Order<F>, f: F, fs: seq<F>) {
    forall g :: g in fs ==> Before(o, f, g)
  }

  lemma InOrderTail<F(!new)>(o: Order<F>, fs: seq<F>)
    requires InOrder(o, fs) && fs != []
    ensures InOrder(o, fs[1..]) && First(o, fs[0], fs[1..])
  {
  }

  lemma InOrderCons<F(!new)>(o: Order<F>, f: F, fs: seq<F>)
    requires InOrder(o, fs) && First(o, f, fs)
    ensures InOrder(o, [f] + fs)
  {
  }

  lemma {:induction false} MergedInOrder<F(!new)>(o: Order<F>, base: seq<F>, added: seq<F>)
    requires InOrder(o, base) && InOrder(o, added) && NoTies(o, base, added)
    ensures InOrder(o, Merged(o, base, added))
    decreases |base| + |added|
  {
    if added != [] {
      if base != [] && !Before(o, added[0], base[0]) {
        InOrderTail(o, base);
        InOrderTail(o, added);
        MergedInOrder(o, base[1..], added);
        MergedHas(o, base[1..], added);
        assert Before(o, base[0], added[0]);
        assert First(o, base[0], Merged(o, base[1..], added));
        InOrderCons(o, base[0], Merged(o, base[1..], added));
      } else {
        InOrderTail(o, added);
        MergedInOrder(o, base, added[1..]);
        MergedHas(o, base, added[1..]);
        assert First(o, added[0], Merged(o, base, added[1..])) by {
          if base != [] { InOrderTail(o, base); }
        }
        InOrderCons(o, added[0], Merged(o, base, added[1..]));
      }
    }
  }

  lemma {:induction false} KeptIs<F(!new)>(o: Order<F>, deleted: set<nat>, fs: seq<F>)
    requires InOrder(o, fs)
    ensures forall f :: f in Kept(o, deleted, fs) <==> f in fs && o.number(f) !in deleted
    ensures InOrder(o, Kept(o, deleted, fs))
  {
    if fs != [] {
      InOrderTail(o, fs);
      KeptIs(o, deleted, fs[1..]);
      assert fs == [fs[0]] + fs[1..];
      if o.number(fs[0]) !in deleted { InOrderCons(o, fs[0], Kept(o, deleted, fs[1..])); }
    }
  }

  lemma SavedIs<F(!new)>(o: Order<F>, base: seq<F>, s: LevelState<F>)
    requires InOrder(o, base) && InOrder(o, s.added) && NoTies(o, base, s.added)
    ensures forall f :: f in Saved(o, base, s) <==> In(f, base, s.added) && o.number(f) !in s.deleted
    ensures InOrder(o, Saved(o, base, s))
  {
    MergedHas(o, base, s.added);
    MergedInOrder(o, base, s.added);
    KeptIs(o, s.deleted, Merged(o, base, s.added));
  }

  /** A list in file order is determined by its members. */
  lemma {:induction false} SameFiles<F(!new)>(o: Order<F>, a: seq<F>, b: seq<F>)
    requires InOrder(o, a) && InOrder(o, b) && forall f :: f in a <==> f in b
    ensures a == b
  {
    if b != [] { assert b[0] in b; }
    if a != [] {
      assert a[0] in b;
      assert b[0] in a;
      InOrderTail(o, a);
      InOrderTail(o, b);
      assert a == [a[0]] + a[1..] && b == [b[0]] + b[1..];
      assert a[0] == b[0];
      assert a[0] !in a[1..] && a[0] !in b[1..];
      forall f ensures f in a[1..] <==> f in b[1..] {
        assert f in a <==> f in b;
        assert f in a <==> f == a[0] || f in a[1..];
        assert f in b <==> f == b[0] || f in b[1..];
      }
      SameFiles(o, a[1..], b[1..]);
    }
  }

  // ---- Additions ----

  lemma {:induction false} InsertIs<F(!new)>(o: Order<F>, fs: seq<F>, f: F)
    requires InOrder(o, fs) && NoTies(o, [f], fs)
    ensures InOrder(o, Insert(o, fs, f)) && forall g :: g in Insert(o, fs, f) <==> g in fs || g == f
  {
    if fs != [] {
      InOrderTail(o, fs);
      assert fs == [fs[0]] + fs[1..];
      assert o.number([f][0]) != o.number(fs[0]);
      if Before(o, f, fs[0]) {
        InOrderCons(o, f, fs);
      } else {
        assert NoTies(o, [f], fs[1..]);
        InsertIs(o, fs[1..], f);
        InOrderCons(o, fs[0], Insert(o, fs[1..], f));
      }
    }
  }

  ghost function Numbers<F>(o: Order<F>, fs: seq<F>): set<nat> {
    set i | 0 <= i < |fs| :: o.number(fs[i])
  }

  lemma NumbersAppend<F(!new)>(o: Order<F>, fs: seq<F>, f: F)
    ensures Numbers(o, fs + [f]) == Numbers(o, fs) + {o.number(f)}
  {
    var all := fs + [f];
    assert all[|fs|] == f;
    forall n | n in Numbers(o, fs) ensures n in Numbers(o, all) {
      var i :| 0 <= i < |fs| && o.number(fs[i]) == n;
      assert all[i] == fs[i];
    }
  }

  /** Adding files with new numbers keeps the order, adds exactly them, and takes their numbers off the deletions. */
  lemma {:induction false} AddFilesIs<F(!new)>(o: Order<F>, s: LevelState<F>, fs: seq<F>)
    requires InOrder(o, s.added) && DistinctNumbers(o, fs) && NoTies(o, fs, s.added)
    ensures var t := AddFiles(o, s, fs);
            && InOrder(o, t.added) && (forall f :: f in t.added <==> f in s.added || f in fs)
            && t.deleted == s.deleted - Numbers(o, fs)
  {
    if fs != [] {
      var init, f := fs[..|fs| - 1], fs[|fs| - 1];
      assert fs == init + [f];
      AddFilesIs(o, s, init);
      var t := AddFiles(o, s, init);
      assert NoTies(o, [f], t.added) by {
        forall j | 0 <= j < |t.added| ensures o.number(f) != o.number(t.added[j]) {
          var g := t.added[j];
          assert g in s.added || g in init;
        }
      }
      InsertIs(o, t.added, f);
      NumbersAppend(o, init, f);
    }
  }

  // ---- Many edits at once and one at a time ----

  /** What one edit means for one level. */
  datatype LevelEdit<+F> = LevelEdit(deleted: set<nat>, added: seq<F>)

  function OnLevel<F>(e: Edit<F>, level: nat): LevelEdit<F> {
    LevelEdit(DeletedAt(e.deletions, level), AddedAt(e.additions, level))
  }

  function ApplyLevel<F>(o: Order<F>, s: LevelState<F>, e: LevelEdit<F>): LevelState<F> {
    AddFiles(o, LevelState(s.deleted + e.deleted, s.added), e.added)
  }

  function ApplyAll<F>(o: Order<F>, es: seq<LevelEdit<F>>): LevelState<F> {
    if es == [] then LevelState({}, []) else ApplyLevel(o, ApplyAll(o, es[..|es| - 1]), es[|es| - 1])
  }

  /** One builder for all edits, as in recovery. */
  function AllAtOnce<F>(o: Order<F>, base: seq<F>, es: seq<LevelEdit<F>>): seq<F> {
    Saved(o, base, ApplyAll(o, es))
  }

  /** One builder and one new version for each edit, as while the database runs. */
  function OneByOne<F>(o: Order<F>, base: seq<F>, es: seq<LevelEdit<F>>): seq<F> {
    if es == [] then base
    else Saved(o, OneByOne(o, base, es[..|es| - 1]), ApplyLevel(o, LevelState({}, []), es[|es| - 1]))
  }

  function AllAdded<F>(es: seq<LevelEdit<F>>): seq<F> {
    if es == [] then [] else AllAdded(es[..|es| - 1]) + es[|es| - 1].added
  }

  /** No number joins the level twice in its history. */
  ghost predicate AddedOnce<F(!new)>(o: Order<F>, base: seq<F>, es: seq<LevelEdit<F>>) {
    DistinctNumbers(o, base + AllAdded(es))
  }

  lemma DistinctParts<F(!new)>(o: Order<F>, a: seq<F>, b: seq<F>)
    requires DistinctNumbers(o, a + b)
    ensures DistinctNumbers(o, a) && DistinctNumbers(o, b) && NoTies(o, a, b) && NoTies(o, b, a)
  {
    var ab := a + b;
    assert forall i :: 0 <= i < |a| ==> ab[i] == a[i];
    assert forall i :: 0 <= i < |b| ==> ab[|a| + i] == b[i];
  }

  lemma OncePrefix<F(!new)>(o: Order<F>, base: seq<F>, es: seq<LevelEdit<F>>)
    requires es != [] && AddedOnce(o, base, es)
    ensures var init := es[..|es| - 1];
            && AddedOnce(o, base, init) && DistinctNumbers(o, es[|es| - 1].added)
            && NoTies(o, base + AllAdded(init), es[|es| - 1].added) && NoTies(o, base, AllAdded(init))
  {
    var init, e := es[..|es| - 1], es[|es| - 1];
    assert base + AllAdded(es) == (base + AllAdded(init)) + e.added;
    DistinctParts(o, base + AllAdded(init), e.added);
    DistinctParts(o, base, AllAdded(init));
  }

  lemma {:induction false} ApplyAllIs<F(!new)>(o: Order<F>, base: seq<F>, es: seq<LevelEdit<F>>)
    requires AddedOnce(o, base, es)
    ensures var s := ApplyAll(o, es);
            InOrder(o, s.added) && (forall f :: f in s.added <==> f in AllAdded(es)) && NoTies(o, base, s.added)
  {
    if es != [] {
      var init, e := es[..|es| - 1], es[|es| - 1];
      OncePrefix(o, base, es);
      ApplyAllIs(o, base, init);
      var s := ApplyAll(o, init);
      TiesWithin(o, base, AllAdded(init), s.added, e.added);
      AddFilesIs(o, LevelState(s.deleted + e.deleted, s.added), e.added);
      DistinctParts(o, base, AllAdded(es));
      TiesOfMembers(o, base, AllAdded(es), ApplyAll(o, es).added);
    }
  }

  lemma TiesOfMembers<F(!new)>(o: Order<F>, base: seq<F>, all: seq<F>, part: seq<F>)
    requires NoTies(o, base, all) && forall f :: f in part ==> f in all
    ensures NoTies(o, base, part)
  {
    forall i, j | 0 <= i < |base| && 0 <= j < |part| ensures o.number(base[i]) != o.number(part[j]) {
      assert part[j] in all;
    }
  }

  lemma TiesWithin<F(!new)>(o: Order<F>, base: seq<F>, all: seq<F>, part: seq<F>, more: seq<F>)
    requires NoTies(o, base + all, more) && forall f :: f in part ==> f in all
    ensures NoTies(o, more, part)
  {
    forall i, j | 0 <= i < |more| && 0 <= j < |part| ensures o.number(more[i]) != o.number(part[j]) {
      assert part[j] in all;
      var k :| 0 <= k < |all| && all[k] == part[j];
      assert (base + all)[|base| + k] == part[j];
    }
  }

  /** The files a version ends up with come from its base and the additions. */
  lemma {:induction false} OneByOneIs<F(!new)>(o: Order<F>, base: seq<F>, es: seq<LevelEdit<F>>)
    requires InOrder(o, base) && AddedOnce(o, base, es)
    ensures InOrder(o, OneByOne(o, base, es)) && forall f :: f in OneByOne(o, base, es) ==> f in base + AllAdded(es)
  {
    if es != [] {
      var init, e := es[..|es| - 1], es[|es| - 1];
      OncePrefix(o, base, es);
      OneByOneIs(o, base, init);
      var v := OneByOne(o, base, init);
      var s := ApplyLevel(o, LevelState({}, []), e);
      AddFilesIs(o, LevelState({} + e.deleted, []), e.added);
      VersionTies(o, base + AllAdded(init), v, e.added, s.added);
      SavedIs(o, v, s);
    }
  }

  lemma VersionTies<F(!new)>(o: Order<F>, all: seq<F>, v: seq<F>, more: seq<F>, added: seq<F>)
    requires NoTies(o, all, more) && (forall f :: f in v ==> f in all) && (forall f :: f in added ==> f in more)
    ensures NoTies(o, v, added)
  {
    forall i, j | 0 <= i < |v| && 0 <= j < |added| ensures o.number(v[i]) != o.number(added[j]) {
      assert v[i] in all && added[j] in more;
    }
  }

  /** One builder fed with a whole history builds the same list as applying the edits version by version. */
  lemma {:induction false} AllAtOnceIsOneByOne<F(!new)>(o: Order<F>, base: seq<F>, es: seq<LevelEdit<F>>)
    requires InOrder(o, base) && AddedOnce(o, base, es)
    ensures AllAtOnce(o, base, es) == OneByOne(o, base, es)
  {
    if es == [] {
      SavedNothing(o, base);
    } else {
      var init, e := es[..|es| - 1], es[|es| - 1];
      OncePrefix(o, base, es);
      AllAtOnceIsOneByOne(o, base, init);
      OneMoreEdit(o, base, init, e, es);
    }
  }

  lemma SavedNothing<F(!new)>(o: Order<F>, base: seq<F>)
    requires InOrder(o, base)
    ensures Saved(o, base, LevelState({}, [])) == base
  {
    SavedIs(o, base, LevelState({}, []));
    SameFiles(o, base, Saved(o, base, LevelState({}, [])));
  }

  /** The builder's state before and after the last edit of a history. */
  ghost predicate LastStep<F(!new)>(o: Order<F>, base: seq<F>, s: LevelState<F>, t: LevelState<F>, e: LevelEdit<F>) {
    && InOrder(o, s.added) && NoTies(o, base, s.added) && InOrder(o, t.added) && NoTies(o, base, t.added)
    && (forall f :: f in t.added <==> f in s.added || f in e.added)
    && t.deleted == s.deleted + e.deleted - Numbers(o, e.added)
  }

  lemma LastEdit<F(!new)>(o: Order<F>, base: seq<F>, init: seq<LevelEdit<F>>, e: LevelEdit<F>, es: seq<LevelEdit<F>>)
    requires AddedOnce(o, base, es) && es != [] && init == es[..|es| - 1] && e == es[|es| - 1]
    ensures LastStep(o, base, ApplyAll(o, init), ApplyAll(o, es), e)
    ensures forall f :: f in ApplyAll(o, init).added ==> f in AllAdded(init)
    ensures DistinctNumbers(o, e.added) && NoTies(o, base + AllAdded(init), e.added)
  {
    OncePrefix(o, base, es);
    ApplyAllIs(o, base, init);
    ApplyAllIs(o, base, es);
    var s := ApplyAll(o, init);
    TiesWithin(o, base, AllAdded(init), s.added, e.added);
    AddFilesIs(o, LevelState(s.deleted + e.deleted, s.added), e.added);
  }

  /** A file is kept by the one builder exactly when the last edit keeps it in the version before. */
  lemma KeptByLast<F(!new)>(o: Order<F>, base: seq<F>, all: seq<F>, s: LevelState<F>, t: LevelState<F>, e: LevelEdit<F>,
                            v: seq<F>, f: F)
    requires LastStep(o, base, s, t, e) && NoTies(o, base + all, e.added) && forall g :: g in s.added ==> g in all
    requires forall g :: g in v <==> In(g, base, s.added) && o.number(g) !in s.deleted
    ensures In(f, base, t.added) && o.number(f) !in t.deleted <==>
            In(f, v, e.added) && o.number(f) !in e.deleted - Numbers(o, e.added)
  {
    OldFileKept(o, base + all, e.added, f);
  }

  lemma OneMoreEdit<F(!new)>(o: Order<F>, base: seq<F>, init: seq<LevelEdit<F>>, e: LevelEdit<F>, es: seq<LevelEdit<F>>)
    requires InOrder(o, base) && AddedOnce(o, base, es) && es != [] && init == es[..|es| - 1] && e == es[|es| - 1]
    ensures Saved(o, base, ApplyAll(o, es)) == Saved(o, AllAtOnce(o, base, init), ApplyLevel(o, LevelState({}, []), e))
  {
    LastEdit(o, base, init, e, es);
    OneMoreState(o, base, AllAdded(init), ApplyAll(o, init), ApplyAll(o, es), e);
  }

  lemma OneMoreState<F(!new)>(o: Order<F>, base: seq<F>, all: seq<F>, s: LevelState<F>, t: LevelState<F>,
                              e: LevelEdit<F>)
    requires InOrder(o, base) && LastStep(o, base, s, t, e) && forall f :: f in s.added ==> f in all
    requires DistinctNumbers(o, e.added) && NoTies(o, base + all, e.added)
    ensures Saved(o, base, t) == Saved(o, Saved(o, base, s), ApplyLevel(o, LevelState({}, []), e))
  {
    var v := Saved(o, base, s);
    SavedIs(o, base, t);
    SavedIs(o, base, s);
    NextVersionHas(o, base + all, v, e);
    var r, r' := Saved(o, base, t), Saved(o, v, ApplyLevel(o, LevelState({}, []), e));
    forall f ensures f in r <==> f in r' {
      KeptByLast(o, base, all, s, t, e, v, f);
    }
    SameFiles(o, r, r');
  }

  /** What applying one edit to a version leaves. */
  lemma NextVersionHas<F(!new)>(o: Order<F>, all: seq<F>, v: seq<F>, e: LevelEdit<F>)
    requires InOrder(o, v) && DistinctNumbers(o, e.added) && NoTies(o, all, e.added) && forall f :: f in v ==> f in all
    ensures var r := Saved(o, v, ApplyLevel(o, LevelState({}, []), e));
            InOrder(o, r) && forall f :: f in r <==>
                In(f, v, e.added) && o.number(f) !in e.deleted - Numbers(o, e.added)
  {
    var step := ApplyLevel(o, LevelState({}, []), e);
    AddFilesIs(o, LevelState({} + e.deleted, []), e.added);
    VersionTies(o, all, v, e.added, step.added);
    SavedIs(o, v, step);
  }

  /** The number of a file that was there before is not among the numbers added now. */
  lemma OldFileKept<F(!new)>(o: Order<F>, all: seq<F>, more: seq<F>, f: F)
    requires NoTies(o, all, more)
    ensures f in all ==> o.number(f) !in Numbers(o, more)
    ensures f in more ==> o.number(f) in Numbers(o, more)
  {
  }

  // ---- A snapshot record restarts the history ----

  lemma {:induction false} OneByOneFrom<F>(o: Order<F>, base: seq<F>, first: LevelEdit<F>, es: seq<LevelEdit<F>>)
    ensures OneByOne(o, base, [first] + es) == OneByOne(o, Saved(o, base, ApplyLevel(o, LevelState({}, []), first)), es)
  {
    var all := [first] + es;
    if es == [] {
      assert all[..0] == [];
    } else {
      assert all[..|all| - 1] == [first] + es[..|es| - 1];
      OneByOneFrom(o, base, first, es[..|es| - 1]);
    }
  }

  lemma SnapshotRestores<F(!new)>(o: Order<F>, v: seq<F>)
    requires InOrder(o, v) && DistinctNumbers(o, v)
    ensures Saved(o, [], ApplyLevel(o, LevelState({}, []), LevelEdit({}, v))) == v
  {
    var s := ApplyLevel(o, LevelState({}, []), LevelEdit({}, v));
    AddFilesIs(o, LevelState({} + {}, []), v);
    SavedIs(o, [], s);
    SameFiles(o, Saved(o, [], s), v);
  }

  lemma {:induction false} AllAddedFrom<F>(first: LevelEdit<F>, es: seq<LevelEdit<F>>)
    ensures AllAdded([first] + es) == first.added + AllAdded(es)
  {
    var all := [first] + es;
    if es == [] {
      assert all[..0] == [];
    } else {
      assert all[..|all| - 1] == [first] + es[..|es| - 1];
      AllAddedFrom(first, es[..|es| - 1]);
    }
  }

  /** Replaying a snapshot of `v` and later edits, from nothing, gives the version that `v` became. */
  lemma SnapshotReplay<F(!new)>(o: Order<F>, v: seq<F>, es: seq<LevelEdit<F>>)
    requires InOrder(o, v) && AddedOnce(o, v, es)
    ensures AllAtOnce(o, [], [LevelEdit({}, v)] + es) == OneByOne(o, v, es)
  {
    var snapshot := LevelEdit({}, v);
    AllAddedFrom(snapshot, es);
    assert [] + AllAdded([snapshot] + es) == v + AllAdded(es);
    DistinctParts(o, v, AllAdded(es));
    AllAtOnceIsOneByOne(o, [], [snapshot] + es);
    OneByOneFrom(o, [], snapshot, es);
    SnapshotRestores(o, v);
  }

  lemma DeleteOnly<F>(o: Order<F>, s: LevelState<F>, n: nat)
    ensures ApplyLevel(o, s, LevelEdit({n}, [])) == LevelState(s.deleted + {n}, s.added)
  {
  }

  lemma AddOnly<F>(o: Order<F>, s: LevelState<F>, f: F)
    requires s.added == [] && s.deleted <= {o.number(f)}
    ensures ApplyLevel(o, s, LevelEdit({}, [f])) == LevelState({}, [f])
  {
    assert [f][..0] == [];
    assert s.deleted + {} == s.deleted;
    assert AddFiles(o, s, [f]) == AddFile(o, s, f);
    assert s.deleted - {o.number(f)} == {};
  }

  lemma TwoEdits<F>(e1: LevelEdit<F>, e2: LevelEdit<F>)
    ensures [e1, e2][..1] == [e1] && [e1][..0] == [] && AllAdded([e1, e2]) == e1.added + e2.added
  {
    var none: seq<LevelEdit<F>> := [];
    AllAddedFrom(e1, [e2]);
    AllAddedFrom(e2, none);
    assert [e1] + [e2] == [e1, e2] && [e2] + none == [e2];
    assert e2.added + [] == e2.added;
  }

  /** One builder over a deletion of the number and then its reuse keeps both files. */
  lemma ReusedAtOnce<F(!new)>(o: Order<F>, old': F, new': F)
    requires o.number(old') == o.number(new') && Less(o.smallest(old'), o.smallest(new'))
    ensures AllAtOnce(o, [old'], [LevelEdit({o.number(old')}, []), LevelEdit({}, [new'])]) == [old', new']
  {
    var n := o.number(old');
    var none: LevelState<F> := LevelState({}, []);
    var e1: LevelEdit<F>, e2 := LevelEdit({n}, []), LevelEdit({}, [new']);
    TwoEdits(e1, e2);
    DeleteOnly(o, none, n);
    AddOnly(o, LevelState({n}, []), new');
    assert ApplyAll(o, [e1]) == LevelState({n}, []) by { assert none.deleted + {n} == {n}; }
    assert Merged(o, [old'], [new']) == [old'] + Merged(o, [], [new']);
    KeptAll(o, [old', new']);
  }

  /** Version by version the old file is gone before the number comes back. */
  lemma ReusedOneByOne<F(!new)>(o: Order<F>, old': F, new': F)
    requires o.number(old') == o.number(new')
    ensures OneByOne(o, [old'], [LevelEdit({o.number(old')}, []), LevelEdit({}, [new'])]) == [new']
  {
    var n := o.number(old');
    var none: LevelState<F> := LevelState({}, []);
    var e1: LevelEdit<F>, e2 := LevelEdit({n}, []), LevelEdit({}, [new']);
    TwoEdits(e1, e2);
    DeleteOnly(o, none, n);
    AddOnly(o, none, new');
    var es := [e1, e2];
    assert es[..1] == [e1] && [e1][..0] == [];
    assert OneByOne(o, [old'], []) == [old'];
    assert OneByOne(o, [old'], [e1]) == Saved(o, [old'], LevelState({n}, [])) by { assert none.deleted + {n} == {n}; }
    assert Kept(o, {n}, [old']) == [] by { assert [old'][1..] == []; }
    assert OneByOne(o, [old'], es) == Saved(o, [], ApplyLevel(o, none, e2));
    assert Merged(o, [], [new']) == [new'];
    KeptAll(o, [new']);
  }

  /** Without the hypothesis the two differ: a number that is deleted and added again brings the old file back. */
  lemma ReusedNumberResurrects<F(!new)>(o: Order<F>, old': F, new': F)
    requires o.number(old') == o.number(new') && Less(o.smallest(old'), o.smallest(new'))
    ensures var es := [LevelEdit({o.number(old')}, []), LevelEdit({}, [new'])];
            !AddedOnce(o, [old'], es) && AllAtOnce(o, [old'], es) == [old', new'] && OneByOne(o, [old'], es) == [new']
  {
    var e1: LevelEdit<F>, e2 := LevelEdit({o.number(old')}, []), LevelEdit({}, [new']);
    TwoEdits(e1, e2);
    assert AllAdded([e1, e2]) == [new'];
    assert ([old'] + [new'])[0] == old' && ([old'] + [new'])[1] == new';
    ReusedAtOnce(o, old', new');
    ReusedOneByOne(o, old', new');
  }

  lemma {:induction false} KeptAll<F>(o: Order<F>, fs: seq<F>)
    ensures Kept(o, {}, fs) == fs
  {
    if fs != [] { KeptAll(o, fs[1..]); }
  }
}

/** One edit applied by a builder is the change of a level that flushes and compactions are reasoned about with. */
module BuilderPlacement {
  import opened Format
  import opened Versions
  import opened Placement
  import B = Builders

  function FileOrder(): B.Order<File> {
    B.Order((f: File) => Smallest(f), (f: File) => f.number)
  }

  /** The edit of one level: `gone` by number, `added` as files. */
  ghost function LevelEdit(gone: seq<File>, added: seq<File>): B.LevelEdit<File> {
    B.LevelEdit(B.Numbers(FileOrder(), gone), added)
  }

  lemma BuilderEdits(fs: seq<File>, gone: seq<File>, added: seq<File>)
    requires BySmallestKey(fs) && B.DistinctNumbers(FileOrder(), fs + added)
    requires forall f :: f in gone ==> f in fs
    ensures Edited(fs, gone, added, B.OneByOne(FileOrder(), fs, [LevelEdit(gone, added)]))
  {
    var o, e := FileOrder(), LevelEdit(gone, added);
    var none: B.LevelState<File> := B.LevelState({}, []);
    assert B.InOrder(o, fs);
    B.DistinctParts(o, fs, added);
    B.AddFilesIs(o, B.LevelState({} + e.deleted, []), added);
    var s := B.ApplyLevel(o, none, e);
    B.TiesOfMembers(o, fs, added, s.added);
    B.SavedIs(o, fs, s);
    var r := B.Saved(o, fs, s);
    assert B.OneByOne(o, fs, [e]) == r by { assert [e][..0] == []; }
    forall f ensures f in r <==> (f in fs && f !in gone) || f in added {
      GoneByNumber(fs, gone, added, f);
    }
    assert BySmallestKey(r);
  }

  /** A listed file leaves exactly if its number is among those of `gone`. */
  lemma GoneByNumber(fs: seq<File>, gone: seq<File>, added: seq<File>, f: File)
    requires B.DistinctNumbers(FileOrder(), fs + added) && forall g :: g in gone ==> g in fs
    ensures f in fs ==> (f.number in B.Numbers(FileOrder(), gone) <==> f in gone)
    ensures f in fs ==> f.number !in B.Numbers(FileOrder(), added)
    ensures f in added ==> f.number in B.Numbers(FileOrder(), added)
  {
    var o := FileOrder();
    B.DistinctParts(o, fs, added);
    if f in fs {
      var i :| 0 <= i < |fs| && fs[i] == f;
      forall k | 0 <= k < |gone| && gone[k].number == f.number ensures f in gone {
        assert gone[k] in fs;
        var j :| 0 <= j < |fs| && fs[j] == gone[k];
        assert o.number(fs[i]) == o.number(fs[j]);
      }
      if f in gone {
        var k :| 0 <= k < |gone| && gone[k] == f;
        assert o.number(gone[k]) == f.number;
      }
    }
  }
}
