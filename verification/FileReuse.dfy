/**
 One builder for a whole history of edits against one version per edit, for any
 edits at all. The two differ exactly in the files that come back: deleted by
 one edit, and then their number joins the level again with another file.
 */
module FileReuse {
  import opened Builders

  /** The last edit that mentions the number deletes it. */
  ghost predicate Deleted<F>(o: Order<F>, es: seq<LevelEdit<F>>, n: nat) {
    if es == [] then false
    else
      var init, e := es[..|es| - 1], es[|es| - 1];
      n !in Numbers(o, e.added) && (n in e.deleted || Deleted(o, init, n))
  }

  ghost predicate Joined<F>(base: seq<F>, es: seq<LevelEdit<F>>, f: F) {
    f in base || f in AllAdded(es)
  }

  /** `f` was there, its number was deleted, and then came back with another file and was not deleted again. */
  ghost predicate ComesBack<F(!new)>(o: Order<F>, base: seq<F>, es: seq<LevelEdit<F>>, f: F) {
    if es == [] then false
    else
      var init, e, n := es[..|es| - 1], es[|es| - 1], o.number(f);
      && f !in e.added
      && (if n in Numbers(o, e.added) then ComesBack(o, base, init, f) || (Joined(base, init, f) && Deleted(o, init, n))
          else n !in e.deleted && ComesBack(o, base, init, f))
  }

  /** Key and number tell files apart, as they do when a number is given to one file only. */
  ghost predicate TellsApart<F(!new)>(o: Order<F>, fs: seq<F>) {
    forall f, g :: f in fs && g in fs && !Before(o, f, g) && !Before(o, g, f) ==> f == g
  }

  // ---- Members, in any order ----

  lemma {:induction false} InsertHas<F(!new)>(o: Order<F>, fs: seq<F>, f: F)
    requires TellsApart(o, fs + [f])
    ensures forall g :: g in Insert(o, fs, f) <==> g in fs || g == f
  {
    if fs != [] {
      assert fs[0] in fs + [f] && f in fs + [f];
      assert fs == [fs[0]] + fs[1..];
      forall g | g in fs[1..] + [f] ensures g in fs + [f] {}
      InsertHas(o, fs[1..], f);
    }
  }

  lemma {:induction false} AddFilesHas<F(!new)>(o: Order<F>, s: LevelState<F>, fs: seq<F>)
    requires TellsApart(o, s.added + fs)
    ensures forall g :: g in AddFiles(o, s, fs).added <==> g in s.added || g in fs
    ensures AddFiles(o, s, fs).deleted == s.deleted - Numbers(o, fs)
  {
    if fs != [] {
      var init, f := fs[..|fs| - 1], fs[|fs| - 1];
      assert fs == init + [f];
      assert forall g :: g in s.added + init ==> g in s.added + fs;
      AddFilesHas(o, s, init);
      var t := AddFiles(o, s, init);
      assert forall g :: g in t.added + [f] ==> g in s.added + fs;
      InsertHas(o, t.added, f);
      NumbersAppend(o, init, f);
    }
  }

  lemma {:induction false} KeptHas<F(!new)>(o: Order<F>, deleted: set<nat>, fs: seq<F>)
    ensures forall f :: f in Kept(o, deleted, fs) <==> f in fs && o.number(f) !in deleted
  {
    if fs != [] {
      KeptHas(o, deleted, fs[1..]);
      assert fs == [fs[0]] + fs[1..];
    }
  }

  lemma SavedHas<F(!new)>(o: Order<F>, base: seq<F>, s: LevelState<F>, f: F)
    ensures f in Saved(o, base, s) <==> In(f, base, s.added) && o.number(f) !in s.deleted
  {
    MergedHas(o, base, s.added);
    KeptHas(o, s.deleted, Merged(o, base, s.added));
  }

  lemma PartTellsApart<F(!new)>(o: Order<F>, fs: seq<F>, gs: seq<F>)
    requires TellsApart(o, fs) && forall f :: f in gs ==> f in fs
    ensures TellsApart(o, gs)
  {
  }

  // ---- The two ways ----

  lemma {:induction false} AllAtOnceHas<F(!new)>(o: Order<F>, es: seq<LevelEdit<F>>, f: F)
    requires TellsApart(o, AllAdded(es))
    ensures forall g :: g in ApplyAll(o, es).added <==> g in AllAdded(es)
    ensures forall n :: n in ApplyAll(o, es).deleted <==> Deleted(o, es, n)
  {
    if es != [] {
      var init, e := es[..|es| - 1], es[|es| - 1];
      PartTellsApart(o, AllAdded(es), AllAdded(init));
      AllAtOnceHas(o, init, f);
      var s := ApplyAll(o, init);
      PartTellsApart(o, AllAdded(es), s.added + e.added);
      AddFilesHas(o, LevelState(s.deleted + e.deleted, s.added), e.added);
    }
  }

  lemma OneMoreHas<F(!new)>(o: Order<F>, v: seq<F>, e: LevelEdit<F>, f: F)
    requires TellsApart(o, e.added)
    ensures f in Saved(o, v, ApplyLevel(o, LevelState({}, []), e)) <==>
            In(f, v, e.added) && o.number(f) !in e.deleted - Numbers(o, e.added)
  {
    assert [] + e.added == e.added;
    AddFilesHas(o, LevelState({} + e.deleted, []), e.added);
    SavedHas(o, v, ApplyLevel(o, LevelState({}, []), e), f);
  }

  /** One builder keeps what one version after the other keeps, and the files that come back. */
  lemma {:induction false} BothWays<F(!new)>(o: Order<F>, base: seq<F>, es: seq<LevelEdit<F>>, f: F)
    requires TellsApart(o, AllAdded(es))
    ensures Joined(base, es, f) && !Deleted(o, es, o.number(f)) <==>
            f in OneByOne(o, base, es) || ComesBack(o, base, es, f)
    ensures !(f in OneByOne(o, base, es) && ComesBack(o, base, es, f))
  {
    if es != [] {
      var init, e := es[..|es| - 1], es[|es| - 1];
      PartTellsApart(o, AllAdded(es), AllAdded(init));
      PartTellsApart(o, AllAdded(es), e.added);
      BothWays(o, base, init, f);
      OneMoreHas(o, OneByOne(o, base, init), e, f);
      if f in e.added { NumberIn(o, e.added, f); }
    }
  }

  lemma NumberIn<F>(o: Order<F>, fs: seq<F>, f: F)
    requires f in fs
    ensures o.number(f) in Numbers(o, fs)
  {
    var i :| 0 <= i < |fs| && fs[i] == f;
  }

  ghost predicate SameMembers<F(!new)>(a: seq<F>, b: seq<F>) {
    forall f :: f in a <==> f in b
  }

  ghost predicate SomeComeBack<F(!new)>(o: Order<F>, base: seq<F>, es: seq<LevelEdit<F>>) {
    exists f :: ComesBack(o, base, es, f)
  }

  lemma OneComesBack<F(!new)>(o: Order<F>, base: seq<F>, es: seq<LevelEdit<F>>, f: F)
    requires ComesBack(o, base, es, f)
    ensures SomeComeBack(o, base, es)
  {
  }

  /** For any edits: one builder gives the files that one version per edit gives if and only if no file comes back. */
  lemma SameFilesIff<F(!new)>(o: Order<F>, base: seq<F>, es: seq<LevelEdit<F>>)
    requires TellsApart(o, AllAdded(es))
    ensures SameMembers(AllAtOnce(o, base, es), OneByOne(o, base, es)) <==> !SomeComeBack(o, base, es)
    ensures forall f :: f in OneByOne(o, base, es) ==> f in AllAtOnce(o, base, es)
  {
    var once, each := AllAtOnce(o, base, es), OneByOne(o, base, es);
    forall f ensures f in once <==> f in each || ComesBack(o, base, es, f)
      ensures !(f in each && ComesBack(o, base, es, f))
    {
      AllAtOnceHas(o, es, f);
      SavedHas(o, base, ApplyAll(o, es), f);
      BothWays(o, base, es, f);
    }
    if SameMembers(once, each) {
      forall f ensures !ComesBack(o, base, es, f) { assert f in once <==> f in each; }
    } else {
      var f :| (f in once) != (f in each);
      OneComesBack(o, base, es, f);
    }
  }
}
