/**
 File numbers: the version set hands each one out once. A table joins a level
 under a number of its own, or moves to a deeper level in the edit that deletes
 it above; so no number ever joins a level twice.
 */
module FileNumbers {
  import opened Coding
  import opened VersionEdits
  import B = Builders

  type Levels = seq<seq<FileMeta>>
  type FileOrder = B.Order<FileMeta>

  // ---- Edits as the builder sees them ----

  function EditOf(e: VersionEdit): B.Edit<FileMeta> {
    B.Edit(seq(|e.deleted|, i requires 0 <= i < |e.deleted| => B.Deletion(e.deleted[i].level, e.deleted[i].number)),
           seq(|e.files|, i requires 0 <= i < |e.files| => B.Addition(e.files[i].level, e.files[i].file)))
  }

  /** What a list of edits means for one level. */
  function At(es: seq<VersionEdit>, level: nat): seq<B.LevelEdit<FileMeta>> {
    seq(|es|, i requires 0 <= i < |es| => B.OnLevel(EditOf(es[i]), level))
  }

  ghost predicate GoodVersion(order: FileOrder, v: Levels) {
    |v| == LEVELS && forall l :: 0 <= l < LEVELS ==> B.InOrder(order, v[l])
  }

  /** No number joins a level twice. */
  ghost predicate NoReuse(order: FileOrder, v: Levels, es: seq<VersionEdit>) {
    |v| == LEVELS && forall l :: 0 <= l < LEVELS ==> B.AddedOnce(order, v[l], At(es, l))
  }

  /** Applying the edits one by one to `origin` gives `current`. */
  ghost predicate LeadTo(order: FileOrder, origin: Levels, edits: seq<VersionEdit>, current: Levels) {
    && GoodVersion(order, origin) && NoReuse(order, origin, edits) && |current| == LEVELS
    && (forall l :: 0 <= l < LEVELS ==> current[l] == B.OneByOne(order, origin[l], At(edits, l)))
  }

  function AddedHere(e: VersionEdit, l: nat): seq<FileMeta> { B.OnLevel(EditOf(e), l).added }

  function GoneHere(e: VersionEdit, l: nat): set<nat> { B.OnLevel(EditOf(e), l).deleted }

  // ---- Numbers ----

  /** The numbers that ever were at a level. */
  ghost function JoinedAt(order: FileOrder, origin: Levels, edits: seq<VersionEdit>, l: nat): set<nat>
    requires l < |origin|
  {
    B.Numbers(order, origin[l] + B.AllAdded(At(edits, l)))
  }

  ghost function LiveAt(order: FileOrder, current: Levels, l: nat): set<nat>
    requires l < |current|
  {
    B.Numbers(order, current[l])
  }

  /** A file that is at a level now was never at a deeper one. */
  ghost predicate OnlyDown(order: FileOrder, origin: Levels, edits: seq<VersionEdit>, current: Levels)
    requires |origin| == |current| == LEVELS
  {
    forall l, m :: 0 <= l < m < LEVELS ==> LiveAt(order, current, l) !! JoinedAt(order, origin, edits, m)
  }

  ghost predicate Below(ns: set<nat>, next: nat) {
    forall n :: n in ns ==> n < next
  }

  /** Numbers of tables, and those handed out for tables not yet installed, are below the counter. */
  ghost predicate HandedOut(order: FileOrder, origin: Levels, edits: seq<VersionEdit>, next: nat, reserved: set<nat>)
    requires |origin| == LEVELS
  {
    && (forall l :: 0 <= l < LEVELS ==> Below(JoinedAt(order, origin, edits, l), next))
    && (forall l :: 0 <= l < LEVELS ==> JoinedAt(order, origin, edits, l) !! reserved)
    && Below(reserved, next)
  }

  ghost predicate MovedDown(order: FileOrder, current: Levels, e: VersionEdit, l: nat, n: nat)
    requires l < |current|
  {
    exists k: nat :: k < l && n in LiveAt(order, current, k) && n in GoneHere(e, k)
  }

  /** The edits of the code: each table has a number handed out for it, or is moved down. */
  ghost predicate Sourced(order: FileOrder, current: Levels, reserved: set<nat>, e: VersionEdit)
    requires |current| == LEVELS
  {
    && (forall l :: 0 <= l < LEVELS ==> SourcedAt(order, current, reserved, e, l))
    && (forall l, m :: 0 <= l < m < LEVELS ==> NumbersAt(order, e, l) !! NumbersAt(order, e, m))
  }

  ghost function NumbersAt(order: FileOrder, e: VersionEdit, l: nat): set<nat> {
    B.Numbers(order, AddedHere(e, l))
  }

  ghost predicate SourcedAt(order: FileOrder, current: Levels, reserved: set<nat>, e: VersionEdit, l: nat)
    requires l < |current|
  {
    && B.DistinctNumbers(order, AddedHere(e, l))
    && forall n :: n in NumbersAt(order, e, l) ==> n in reserved || MovedDown(order, current, e, l, n)
  }

  /** A version to start from: every table has its own number, below the counter. */
  ghost predicate Numbered(order: FileOrder, v: Levels, next: nat) {
    && GoodVersion(order, v)
    && (forall l :: 0 <= l < LEVELS ==> B.DistinctNumbers(order, v[l]))
    && (forall l, m :: 0 <= l < m < LEVELS ==> LiveAt(order, v, l) !! LiveAt(order, v, m))
    && (forall l :: 0 <= l < LEVELS ==> Below(LiveAt(order, v, l), next))
  }

  // ---- One more edit ----

  lemma NumbersOf<F>(o: B.Order<F>, fs: seq<F>, n: nat)
    ensures n in B.Numbers(o, fs) <==> exists f :: f in fs && o.number(f) == n
  {
    if f :| f in fs && o.number(f) == n {
      var i :| 0 <= i < |fs| && fs[i] == f;
    }
  }

  lemma NumbersConcat<F>(o: B.Order<F>, a: seq<F>, b: seq<F>)
    ensures B.Numbers(o, a + b) == B.Numbers(o, a) + B.Numbers(o, b)
  {
    forall n ensures n in B.Numbers(o, a + b) <==> n in B.Numbers(o, a) || n in B.Numbers(o, b) {
      NumbersOf(o, a + b, n);
      NumbersOf(o, a, n);
      NumbersOf(o, b, n);
    }
  }

  lemma AtMore(es: seq<VersionEdit>, e: VersionEdit, l: nat)
    ensures At(es + [e], l) == At(es, l) + [B.OnLevel(EditOf(e), l)]
    ensures B.AllAdded(At(es + [e], l)) == B.AllAdded(At(es, l)) + AddedHere(e, l)
  {
    var all := At(es + [e], l);
    assert all == At(es, l) + [B.OnLevel(EditOf(e), l)];
    assert all[..|all| - 1] == At(es, l);
  }

  lemma JoinedMore(order: FileOrder, origin: Levels, edits: seq<VersionEdit>, e: VersionEdit, l: nat)
    requires l < |origin|
    ensures JoinedAt(order, origin, edits + [e], l) ==
            JoinedAt(order, origin, edits, l) + NumbersAt(order, e, l)
  {
    AtMore(edits, e, l);
    var have := origin[l] + B.AllAdded(At(edits, l));
    assert origin[l] + B.AllAdded(At(edits + [e], l)) == have + AddedHere(e, l);
    NumbersConcat(order, have, AddedHere(e, l));
  }

  /** Files that are there now joined at some time. */
  lemma LiveJoined(order: FileOrder, origin: Levels, edits: seq<VersionEdit>, current: Levels, l: nat)
    requires LeadTo(order, origin, edits, current) && l < LEVELS
    ensures LiveAt(order, current, l) <= JoinedAt(order, origin, edits, l)
  {
    B.OneByOneIs(order, origin[l], At(edits, l));
    forall n | n in LiveAt(order, current, l) ensures n in JoinedAt(order, origin, edits, l) {
      NumbersOf(order, current[l], n);
      var f :| f in current[l] && order.number(f) == n;
      assert f in origin[l] + B.AllAdded(At(edits, l));
      NumbersOf(order, origin[l] + B.AllAdded(At(edits, l)), n);
    }
  }

  /** A table the edit adds was not at that level before. */
  lemma AddedIsNew(order: FileOrder, origin: Levels, edits: seq<VersionEdit>, current: Levels, next: nat,
                   reserved: set<nat>, e: VersionEdit, l: nat, m: nat, n: nat)
    requires |origin| == |current| == LEVELS && l <= m < LEVELS
    requires OnlyDown(order, origin, edits, current) && HandedOut(order, origin, edits, next, reserved)
    requires Sourced(order, current, reserved, e) && n in NumbersAt(order, e, l)
    ensures n !in JoinedAt(order, origin, edits, m)
  {
    assert SourcedAt(order, current, reserved, e, l);
    if n !in reserved {
      var k: nat :| k < l && n in LiveAt(order, current, k) && n in GoneHere(e, k);
    }
  }

  lemma DistinctConcat<F(!new)>(o: B.Order<F>, a: seq<F>, b: seq<F>)
    requires B.DistinctNumbers(o, a) && B.DistinctNumbers(o, b)
    requires forall f :: f in b ==> o.number(f) !in B.Numbers(o, a)
    ensures B.DistinctNumbers(o, a + b)
  {
    var ab := a + b;
    forall i, j | 0 <= i < j < |ab| ensures o.number(ab[i]) != o.number(ab[j]) {
      if i < |a| <= j {
        assert ab[j] in b;
        assert o.number(a[i]) in B.Numbers(o, a);
      }
    }
  }

  /** The edits of the code never bring a number back to a level. */
  lemma SourcedIsNoReuse(order: FileOrder, origin: Levels, edits: seq<VersionEdit>, current: Levels, next: nat,
                         reserved: set<nat>, e: VersionEdit)
    requires LeadTo(order, origin, edits, current) && OnlyDown(order, origin, edits, current)
    requires HandedOut(order, origin, edits, next, reserved) && Sourced(order, current, reserved, e)
    ensures NoReuse(order, origin, edits + [e])
  {
    forall l | 0 <= l < LEVELS ensures B.AddedOnce(order, origin[l], At(edits + [e], l)) {
      AtMore(edits, e, l);
      var have := origin[l] + B.AllAdded(At(edits, l));
      forall f | f in AddedHere(e, l) ensures order.number(f) !in B.Numbers(order, have) {
        NumbersOf(order, AddedHere(e, l), order.number(f));
        AddedIsNew(order, origin, edits, current, next, reserved, e, l, l, order.number(f));
      }
      assert B.AddedOnce(order, origin[l], At(edits, l)) && SourcedAt(order, current, reserved, e, l);
      DistinctConcat(order, have, AddedHere(e, l));
      assert origin[l] + B.AllAdded(At(edits + [e], l)) == have + AddedHere(e, l);
    }
  }

  /** What is at a level after an edit: what it adds, and of the rest what it does not delete. */
  lemma LiveMore(order: FileOrder, origin: Levels, edits: seq<VersionEdit>, current: Levels, e: VersionEdit,
                 current': Levels, l: nat, n: nat)
    requires LeadTo(order, origin, edits, current) && LeadTo(order, origin, edits + [e], current') && l < LEVELS
    requires n in LiveAt(order, current', l) && n !in NumbersAt(order, e, l)
    ensures n in LiveAt(order, current, l) && n !in GoneHere(e, l)
  {
    var es, all := At(edits, l), At(edits + [e], l);
    AtMore(edits, e, l);
    assert all[..|all| - 1] == es && all[|all| - 1] == B.OnLevel(EditOf(e), l);
    B.OncePrefix(order, origin[l], all);
    B.OneByOneIs(order, origin[l], es);
    B.NextVersionHas(order, origin[l] + B.AllAdded(es), current[l], B.OnLevel(EditOf(e), l));
    NumbersOf(order, current'[l], n);
    var f :| f in current'[l] && order.number(f) == n;
    NumbersOf(order, AddedHere(e, l), n);
    NumbersOf(order, current[l], n);
  }

  lemma SourcedKeepsDown(order: FileOrder, origin: Levels, edits: seq<VersionEdit>, current: Levels, next: nat,
                         reserved: set<nat>, e: VersionEdit, current': Levels)
    requires LeadTo(order, origin, edits, current) && OnlyDown(order, origin, edits, current)
    requires HandedOut(order, origin, edits, next, reserved) && Sourced(order, current, reserved, e)
    requires LeadTo(order, origin, edits + [e], current')
    ensures OnlyDown(order, origin, edits + [e], current')
  {
    forall l, m | 0 <= l < m < LEVELS
      ensures LiveAt(order, current', l) !! JoinedAt(order, origin, edits + [e], m)
    {
      forall n | n in LiveAt(order, current', l) ensures n !in JoinedAt(order, origin, edits + [e], m) {
        DownOne(order, origin, edits, current, next, reserved, e, current', l, m, n);
      }
    }
  }

  lemma DownOne(order: FileOrder, origin: Levels, edits: seq<VersionEdit>, current: Levels, next: nat,
                reserved: set<nat>, e: VersionEdit, current': Levels, l: nat, m: nat, n: nat)
    requires LeadTo(order, origin, edits, current) && OnlyDown(order, origin, edits, current)
    requires HandedOut(order, origin, edits, next, reserved) && Sourced(order, current, reserved, e)
    requires LeadTo(order, origin, edits + [e], current')
    requires l < m < LEVELS && n in LiveAt(order, current', l)
    ensures n !in JoinedAt(order, origin, edits + [e], m)
  {
    JoinedMore(order, origin, edits, e, m);
    if n in NumbersAt(order, e, l) {
      AddedIsNew(order, origin, edits, current, next, reserved, e, l, m, n);
    } else {
      LiveMore(order, origin, edits, current, e, current', l, n);
      StaysAbove(order, origin, edits, current, next, reserved, e, l, m, n);
    }
  }

  /** A file that stays at its level is not added deeper by the same edit. */
  lemma StaysAbove(order: FileOrder, origin: Levels, edits: seq<VersionEdit>, current: Levels, next: nat,
                   reserved: set<nat>, e: VersionEdit, l: nat, m: nat, n: nat)
    requires LeadTo(order, origin, edits, current) && OnlyDown(order, origin, edits, current)
    requires HandedOut(order, origin, edits, next, reserved) && Sourced(order, current, reserved, e)
    requires l < m < LEVELS && n in LiveAt(order, current, l) && n !in GoneHere(e, l)
    ensures n !in NumbersAt(order, e, m)
  {
    assert SourcedAt(order, current, reserved, e, m);
    LiveJoined(order, origin, edits, current, l);
    if MovedDown(order, current, e, m, n) {
      var k: nat :| k < m && n in LiveAt(order, current, k) && n in GoneHere(e, k);
      OneLevel(order, origin, edits, current, k, l, n);
    }
  }

  lemma OneLevel(order: FileOrder, origin: Levels, edits: seq<VersionEdit>, current: Levels, k: nat, l: nat, n: nat)
    requires LeadTo(order, origin, edits, current) && OnlyDown(order, origin, edits, current)
    requires k < LEVELS && l < LEVELS && n in LiveAt(order, current, k) && n in LiveAt(order, current, l)
    ensures k == l
  {
    LiveJoined(order, origin, edits, current, k);
    LiveJoined(order, origin, edits, current, l);
  }

  ghost function AddedNumbers(order: FileOrder, e: VersionEdit): set<nat> {
    set l, n | 0 <= l < LEVELS && n in NumbersAt(order, e, l) :: n
  }

  /** The numbers of installed tables are taken off the reserved ones. */
  lemma SourcedKeepsHandedOut(order: FileOrder, origin: Levels, edits: seq<VersionEdit>, current: Levels, next: nat,
                              reserved: set<nat>, e: VersionEdit)
    requires LeadTo(order, origin, edits, current)
    requires HandedOut(order, origin, edits, next, reserved) && Sourced(order, current, reserved, e)
    ensures HandedOut(order, origin, edits + [e], next, reserved - AddedNumbers(order, e))
  {
    var left := reserved - AddedNumbers(order, e);
    forall l | 0 <= l < LEVELS
      ensures Below(JoinedAt(order, origin, edits + [e], l), next) && JoinedAt(order, origin, edits + [e], l) !! left
    {
      JoinedMore(order, origin, edits, e, l);
      forall n | n in NumbersAt(order, e, l) ensures n < next && n !in left {
        assert SourcedAt(order, current, reserved, e, l);
        if n !in reserved {
          var k: nat :| k < l && n in LiveAt(order, current, k) && n in GoneHere(e, k);
          LiveJoined(order, origin, edits, current, k);
        }
      }
    }
  }

  // ---- Starting, and starting again ----

  lemma NothingAdded(origin: Levels, l: nat)
    requires l < |origin|
    ensures origin[l] + B.AllAdded(At([], l)) == origin[l]
  {
  }

  lemma StartsNumbered(order: FileOrder, v: Levels, next: nat)
    requires Numbered(order, v, next)
    ensures LeadTo(order, v, [], v) && OnlyDown(order, v, [], v) && HandedOut(order, v, [], next, {})
  {
    forall l | 0 <= l < LEVELS
      ensures B.AddedOnce(order, v[l], At([], l)) && JoinedAt(order, v, [], l) == LiveAt(order, v, l)
    {
      NothingAdded(v, l);
    }
  }

  /** Whatever edits came, the current version is one to start from again. */
  lemma CurrentIsNumbered(order: FileOrder, origin: Levels, edits: seq<VersionEdit>, current: Levels, next: nat)
    requires LeadTo(order, origin, edits, current) && OnlyDown(order, origin, edits, current)
    requires forall l :: 0 <= l < LEVELS ==> Below(JoinedAt(order, origin, edits, l), next)
    ensures Numbered(order, current, next)
  {
    forall l | 0 <= l < LEVELS
      ensures B.InOrder(order, current[l]) && B.DistinctNumbers(order, current[l])
      ensures LiveAt(order, current, l) <= JoinedAt(order, origin, edits, l)
    {
      B.OneByOneIs(order, origin[l], At(edits, l));
      LiveJoined(order, origin, edits, current, l);
      PartIsDistinct(order, origin[l] + B.AllAdded(At(edits, l)), current[l]);
    }
  }

  lemma PartIsDistinct(order: FileOrder, all: seq<FileMeta>, part: seq<FileMeta>)
    requires B.DistinctNumbers(order, all) && B.InOrder(order, part) && forall f :: f in part ==> f in all
    ensures B.DistinctNumbers(order, part)
  {
    forall i, j | 0 <= i < j < |part| ensures order.number(part[i]) != order.number(part[j]) {
      assert B.Before(order, part[i], part[j]) && part[i] in all && part[j] in all;
      var a :| 0 <= a < |all| && all[a] == part[i];
      var b :| 0 <= b < |all| && all[b] == part[j];
      assert part[i] != part[j];
    }
  }

  // ---- The edits of the code ----

  function Additions(fs: seq<FileMeta>, level: nat): seq<B.Addition<FileMeta>> {
    seq(|fs|, i requires 0 <= i < |fs| => B.Addition(level, fs[i]))
  }

  lemma {:induction false} AddedOneLevel(fs: seq<FileMeta>, at: nat, level: nat)
    ensures B.AddedAt(Additions(fs, at), level) == if at == level then fs else []
  {
    if fs != [] {
      var init := fs[..|fs| - 1];
      AddedOneLevel(init, at, level);
      assert Additions(fs, at)[..|fs| - 1] == Additions(init, at);
    }
  }

  /** Outputs of a flush or a compaction: tables for one level, under numbers handed out for them. */
  lemma OutputsAreSourced(order: FileOrder, current: Levels, reserved: set<nat>, e: VersionEdit, outs: seq<FileMeta>,
                          level: nat)
    requires |current| == LEVELS && EditOf(e).additions == Additions(outs, level)
    requires B.DistinctNumbers(order, outs) && forall f :: f in outs ==> order.number(f) in reserved
    ensures Sourced(order, current, reserved, e)
  {
    forall l | 0 <= l < LEVELS
      ensures SourcedAt(order, current, reserved, e, l) && (l != level ==> NumbersAt(order, e, l) == {})
    {
      AddedOneLevel(outs, level, l);
      assert AddedHere(e, l) == if level == l then outs else [];
      forall n | n in NumbersAt(order, e, l) ensures n in reserved { NumbersOf(order, AddedHere(e, l), n); }
    }
  }

  /** A trivial move: the table leaves its level and joins the next one. */
  lemma MoveIsSourced(order: FileOrder, current: Levels, reserved: set<nat>, e: VersionEdit, f: FileMeta, level: nat)
    requires |current| == LEVELS && level + 1 < LEVELS && f in current[level]
    requires EditOf(e).deletions == [B.Deletion(level, order.number(f))]
    requires EditOf(e).additions == Additions([f], level + 1)
    ensures Sourced(order, current, reserved, e)
  {
    var n := order.number(f);
    NumbersOf(order, current[level], n);
    assert EditOf(e).deletions[0] == B.Deletion(level, n);
    assert n in GoneHere(e, level) && n in LiveAt(order, current, level);
    forall l | 0 <= l < LEVELS
      ensures SourcedAt(order, current, reserved, e, l) && (l != level + 1 ==> NumbersAt(order, e, l) == {})
    {
      AddedOneLevel([f], level + 1, l);
      assert AddedHere(e, l) == if level + 1 == l then [f] else [];
      assert level + 1 == l ==> MovedDown(order, current, e, l, n);
    }
  }
}
