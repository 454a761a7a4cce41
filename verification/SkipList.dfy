/**
 The memtable's skip list: nodes with one next pointer per level. One writer
 inserts while readers walk the pointers without locks. Keys are distinct, so
 a node is named by its key.
 */
module SkipLists {
  const MAX_HEIGHT: nat := 12

  datatype Node = Head | At(key: int)

  datatype Link = Null | To(key: int)

  /** The next pointers of one level. */
  type Pointers = map<Node, Link>

  predicate After(x: Node, key: int) {
    x.Head? || x.key < key
  }

  /** `l` points to the least key of `s` after `x`, or to nothing when there is none. */
  ghost predicate IsSucc(s: set<int>, x: Node, l: Link) {
    match l
    case Null => forall k :: k in s ==> !After(x, k)
    case To(n) => n in s && After(x, n) && forall k :: k in s && After(x, k) ==> n <= k
  }

  ghost predicate Member(s: set<int>, x: Node) {
    x.Head? || x.key in s
  }

  /** The pointers of a level link exactly the keys `s`, in increasing order. */
  ghost predicate Links(p: Pointers, s: set<int>) {
    forall x :: Member(s, x) ==> x in p && IsSucc(s, x, p[x])
  }

  /** `x` is the last node before `key` among `s`. */
  ghost predicate IsPred(s: set<int>, x: Node, key: int) {
    Member(s, x) && After(x, key) && forall k :: k in s && k < key ==> !After(x, k)
  }

  ghost function Remaining(s: set<int>, x: Node): set<int> {
    set k | k in s && After(x, k)
  }

  /** The list as a reader walks it from `x`. */
  ghost function Chain(p: Pointers, s: set<int>, x: Node): seq<int>
    requires Links(p, s) && Member(s, x)
    decreases |Remaining(s, x)|
  {
    match p[x]
    case Null => []
    case To(n) =>
      assert n in Remaining(s, x) && n !in Remaining(s, At(n));
      SmallerSet(Remaining(s, At(n)), Remaining(s, x), n);
      [n] + Chain(p, s, At(n))
  }

  lemma SmallerSet(a: set<int>, b: set<int>, x: int)
    requires a <= b && x in b && x !in a
    ensures |a| < |b|
  {
    assert x in b - a;
    assert b == a + (b - a);
    assert |b| == |a| + |b - a|;
  }

  /** A level is a sorted list of its keys. */
  lemma {:induction false} ChainIsSorted(p: Pointers, s: set<int>, x: Node)
    requires Links(p, s) && Member(s, x)
    ensures forall i, j :: 0 <= i < j < |Chain(p, s, x)| ==> Chain(p, s, x)[i] < Chain(p, s, x)[j]
    ensures forall k :: k in Chain(p, s, x) <==> k in s && After(x, k)
    decreases |Remaining(s, x)|
  {
    if p[x].To? {
      var n := p[x].key;
      assert n in Remaining(s, x) && n !in Remaining(s, At(n));
      SmallerSet(Remaining(s, At(n)), Remaining(s, x), n);
      ChainIsSorted(p, s, At(n));
      var rest := Chain(p, s, At(n));
      assert Chain(p, s, x) == [n] + rest;
      assert forall i :: 0 <= i < |rest| ==> rest[i] in rest;
      assert IsSucc(s, x, p[x]);
    } else {
      assert IsSucc(s, x, p[x]);
    }
  }

  /** Linking a new node behind its predecessor. */
  function LinkAfter(p: Pointers, prev: Node, key: int): Pointers
    requires prev in p
  {
    p[At(key) := p[prev]][prev := To(key)]
  }

  lemma LinkKeepsOrder(p: Pointers, s: set<int>, prev: Node, key: int)
    requires Links(p, s) && IsPred(s, prev, key) && key !in s
    ensures Links(LinkAfter(p, prev, key), s + {key})
  {
    var q := LinkAfter(p, prev, key);
    forall x | Member(s + {key}, x) ensures x in q && IsSucc(s + {key}, x, q[x]) {
      if x == prev {
      } else if x == At(key) {
      } else {
        assert Member(s, x);
      }
    }
  }

  // ---- The list as an object ----

  class SkipList {
    var next: seq<Pointers>
    var maxHeight: nat
    ghost var linked: seq<set<int>>

    constructor ()
      ensures Valid() && linked[0] == {}
    {
      next := seq(MAX_HEIGHT, _ => map[Head := Null]);
      maxHeight := 1;
      linked := seq(MAX_HEIGHT, _ => {});
    }

    ghost predicate Valid()
      reads this
    {
      && |next| == |linked| == MAX_HEIGHT && 1 <= maxHeight <= MAX_HEIGHT
      && (forall i :: 0 <= i < MAX_HEIGHT ==> Links(next[i], linked[i]))
      && (forall i :: 0 <= i < MAX_HEIGHT - 1 ==> linked[i + 1] <= linked[i])
      && (forall i :: maxHeight <= i < MAX_HEIGHT ==> linked[i] == {})
    }

    /** FindGreaterOrEqual, filling `prev` with the predecessor at every level in use. */
    method FindGreaterOrEqual(key: int) returns (node: Link, prev: seq<Node>)
      requires Valid()
      ensures |prev| == maxHeight && forall i :: 0 <= i < maxHeight ==> IsPred(linked[i], prev[i], key)
      ensures node.Null? ==> forall k :: k in linked[0] ==> k < key
      ensures node.To? ==> node.key in linked[0] && node.key >= key
      ensures node.To? ==> forall k :: k in linked[0] && k >= key ==> node.key <= k
    {
      var x, level := Head, maxHeight - 1;
      prev := seq(maxHeight, _ => Head);
      while true
        invariant 0 <= level < maxHeight && |prev| == maxHeight
        invariant Member(linked[level], x) && After(x, key)
        invariant forall i :: level < i < maxHeight ==> IsPred(linked[i], prev[i], key)
        decreases level, |Remaining(linked[level], x)|
      {
        var n := next[level][x];
        if n.To? && n.key < key {
          assert n.key in Remaining(linked[level], x) && n.key !in Remaining(linked[level], At(n.key));
          SmallerSet(Remaining(linked[level], At(n.key)), Remaining(linked[level], x), n.key);
          x := At(n.key);
        } else {
          prev := prev[level := x];
          if level == 0 {
            return n, prev;
          }
          level := level - 1;
        }
      }
    }

    /** FindLessThan: the last node before `key`. */
    method FindLessThan(key: int) returns (x: Node)
      requires Valid()
      ensures IsPred(linked[0], x, key)
    {
      var level := maxHeight - 1;
      x := Head;
      while true
        invariant 0 <= level < maxHeight && Member(linked[level], x) && After(x, key)
        decreases level, |Remaining(linked[level], x)|
      {
        var n := next[level][x];
        if n.Null? || n.key >= key {
          if level == 0 {
            return;
          }
          level := level - 1;
        } else {
          assert n.key in Remaining(linked[level], x) && n.key !in Remaining(linked[level], At(n.key));
          SmallerSet(Remaining(linked[level], At(n.key)), Remaining(linked[level], x), n.key);
          x := At(n.key);
        }
      }
    }

    /** FindLast: the last node, or the head of an empty list. */
    method FindLast() returns (x: Node)
      requires Valid()
      ensures Member(linked[0], x) && forall k :: k in linked[0] ==> !After(x, k)
    {
      var level := maxHeight - 1;
      x := Head;
      while true
        invariant 0 <= level < maxHeight && Member(linked[level], x)
        decreases level, |Remaining(linked[level], x)|
      {
        var n := next[level][x];
        if n.Null? {
          if level == 0 {
            return;
          }
          level := level - 1;
        } else {
          assert n.key in Remaining(linked[level], x) && n.key !in Remaining(linked[level], At(n.key));
          SmallerSet(Remaining(linked[level], At(n.key)), Remaining(linked[level], x), n.key);
          x := At(n.key);
        }
      }
    }

    /** Insert a new key with a node of any height. */
    method Insert(key: int, height: nat)
      requires Valid() && key !in linked[0] && 1 <= height <= MAX_HEIGHT
      modifies this
      ensures Valid()
      ensures linked[0] == old(linked[0]) + {key}
      ensures forall i :: 0 <= i < MAX_HEIGHT ==>
              linked[i] == if i < height then old(linked[i]) + {key} else old(linked[i])
    {
      var node, prev := FindGreaterOrEqual(key);
      if height > maxHeight {
        prev := prev + seq(height - maxHeight, _ => Head);
        maxHeight := height;
      }
      ghost var before := linked;
      Nested(linked);
      for i := 0 to height
        invariant |next| == |linked| == MAX_HEIGHT && height <= maxHeight <= MAX_HEIGHT && height <= |prev|
        invariant forall j :: 0 <= j < MAX_HEIGHT ==> Links(next[j], linked[j])
        invariant forall j :: 0 <= j < MAX_HEIGHT ==> linked[j] == if j < i then before[j] + {key} else before[j]
        invariant forall j :: i <= j < height ==> IsPred(before[j], prev[j], key)
        invariant forall j :: maxHeight <= j < MAX_HEIGHT ==> before[j] == {}
      {
        LinkKeepsOrder(next[i], linked[i], prev[i], key);
        next := next[i := LinkAfter(next[i], prev[i], key)];
        linked := linked[i := linked[i] + {key}];
      }
    }
  }

  lemma Nested(linked: seq<set<int>>)
    requires |linked| == MAX_HEIGHT && forall i :: 0 <= i < MAX_HEIGHT - 1 ==> linked[i + 1] <= linked[i]
    ensures forall i :: 0 <= i < MAX_HEIGHT ==> linked[i] <= linked[0]
  {
    forall i | 0 <= i < MAX_HEIGHT ensures linked[i] <= linked[0] { NestedUpTo(linked, i); }
  }

  lemma {:induction false} NestedUpTo(linked: seq<set<int>>, i: nat)
    requires |linked| == MAX_HEIGHT && i < MAX_HEIGHT
    requires forall i :: 0 <= i < MAX_HEIGHT - 1 ==> linked[i + 1] <= linked[i]
    ensures linked[i] <= linked[0]
  {
    if i > 0 { NestedUpTo(linked, i - 1); }
  }

  // ---- One writer and any number of readers, one pointer operation at a time ----

  /** Where the writer is inside Insert; `prev` was found before the first store. */
  datatype Writer =
    | Idle
    | Inserting(key: int, height: nat, prev: seq<Node>, level: nat, prepared: bool)

  /**
   Where a search stops: FindGreaterOrEqual and FindLessThan at the first key at or above theirs, FindLast at the
   end. The first takes the link it stops at, the other two the node before it.
   */
  datatype Goal = Upto(key: int) | End

  predicate Short(g: Goal, key: int) {
    g.End? || key < g.key
  }

  predicate ShortNode(g: Goal, x: Node) {
    x.Head? || Short(g, x.key)
  }

  /** A search in progress or done; `seen` is what the list held when it began. */
  datatype Reader =
    | Searching(goal: Goal, x: Node, level: nat, seen: set<int>)
    | Done(goal: Goal, before: Node, result: Link, seen: set<int>)

  datatype State = State(next: seq<Pointers>, linked: seq<set<int>>, maxHeight: nat, writer: Writer,
                         readers: map<nat, Reader>)

  datatype Step =
    | BeginInsert(key: int, height: nat, prev: seq<Node>)
    | RaiseHeight
    | PrepareLink
    | PublishLink
    | EndInsert
    | BeginSearch(id: nat, goal: Goal, height: nat)
    | LoadNext(id: nat)

  ghost predicate Does(s: State, step: Step, t: State) {
    match step
    case BeginInsert(key, height, prev) =>
      && s.writer.Idle? && 1 <= height <= MAX_HEIGHT && |s.linked| == MAX_HEIGHT && key !in s.linked[0]
      && |prev| == MAX_HEIGHT
      && (forall i :: 0 <= i < s.maxHeight && i < MAX_HEIGHT ==> IsPred(s.linked[i], prev[i], key))
      && (forall i :: s.maxHeight <= i < MAX_HEIGHT ==> prev[i] == Head)
      && t == s.(writer := Inserting(key, height, prev, 0, false))
    case RaiseHeight =>
      && s.writer.Inserting? && s.writer.level == 0 && !s.writer.prepared && s.writer.height > s.maxHeight
      && t == s.(maxHeight := s.writer.height)
    case PrepareLink =>
      // the new node's own pointer, not yet reachable
      && s.writer.Inserting? && !s.writer.prepared && s.writer.level < s.writer.height <= s.maxHeight
      && s.writer.level < |s.next| && s.writer.level < |s.writer.prev|
      && s.writer.prev[s.writer.level] in s.next[s.writer.level]
      && var p := s.next[s.writer.level];
         t == s.(next := s.next[s.writer.level := p[At(s.writer.key) := p[s.writer.prev[s.writer.level]]]],
                 writer := s.writer.(prepared := true))
    case PublishLink =>
      && s.writer.Inserting? && s.writer.prepared && s.writer.level < |s.next| == |s.linked| &&
          s.writer.level < |s.writer.prev|
      && var i := s.writer.level;
         t == s.(next := s.next[i := s.next[i][s.writer.prev[i] := To(s.writer.key)]],
                 linked := s.linked[i := s.linked[i] + {s.writer.key}],
                 writer := s.writer.(level := i + 1, prepared := false))
    case EndInsert =>
      && s.writer.Inserting? && s.writer.level == s.writer.height && t == s.(writer := Idle)
    case BeginSearch(id, goal, height) =>
      // any height stored so far may be read
      && id !in s.readers && 1 <= height <= s.maxHeight && |s.linked| == MAX_HEIGHT
      && t == s.(readers := s.readers[id := Searching(goal, Head, height - 1, s.linked[0])])
    case LoadNext(id) =>
      && id in s.readers && s.readers[id].Searching?
      && var r := s.readers[id];
      && r.level < |s.next| && r.x in s.next[r.level]
      && var n := s.next[r.level][r.x];
         t == s.(readers := s.readers[id :=
                 if n.To? && Short(r.goal, n.key) then r.(x := At(n.key))
                 else if r.level == 0 then Done(r.goal, r.x, n, r.seen)
                 else r.(level := r.level - 1)])
  }

  ghost predicate Initial(s: State) {
    s == State(seq(MAX_HEIGHT, _ => map[Head := Null]), seq(MAX_HEIGHT, _ => {}), 1, Idle, map[])
  }

  ghost predicate LevelsOK(s: State) {
    && |s.next| == |s.linked| == MAX_HEIGHT && 1 <= s.maxHeight <= MAX_HEIGHT
    && (forall i :: 0 <= i < MAX_HEIGHT ==> Links(s.next[i], s.linked[i]))
    && (forall i :: 0 <= i < MAX_HEIGHT - 1 ==> s.linked[i + 1] <= s.linked[i])
  }

  ghost predicate WriterOK(s: State)
    requires |s.next| == |s.linked| == MAX_HEIGHT
  {
    s.writer.Inserting? ==>
      var w := s.writer;
      && 1 <= w.height <= MAX_HEIGHT && w.level <= w.height && |w.prev| == MAX_HEIGHT
      && (w.prepared ==> w.level < w.height <= s.maxHeight)
      && (forall i :: 0 <= i < w.level ==> w.key in s.linked[i])
      && (forall i :: w.level <= i < MAX_HEIGHT ==> w.key !in s.linked[i])
      && (forall i :: w.level <= i < w.height ==> IsPred(s.linked[i], w.prev[i], w.key))
      && (w.prepared ==> IsPrepared(s.next[w.level], w.prev[w.level], w.key))
  }

  ghost predicate IsPrepared(p: Pointers, prev: Node, key: int) {
    prev in p && At(key) in p && p[At(key)] == p[prev]
  }

  /** Levels nobody has raised the list to are empty. */
  ghost predicate HeightOK(s: State)
    requires |s.linked| == MAX_HEIGHT
  {
    forall i :: s.maxHeight <= i < MAX_HEIGHT ==> s.linked[i] == {}
  }

  ghost predicate ReaderOK(s: State, r: Reader)
    requires |s.linked| == MAX_HEIGHT
  {
    && r.seen <= s.linked[0]
    && match r
       case Searching(goal, x, level, _) => level < MAX_HEIGHT && Member(s.linked[level], x) && ShortNode(goal, x)
       case Done(goal, before, result, seen) => Correct(goal, before, result, seen)
  }

  /** A finished search misses nothing that was there when it began. */
  ghost predicate Correct(g: Goal, before: Node, result: Link, seen: set<int>) {
    && (forall k :: k in seen && !Short(g, k) ==> result.To? && !Short(g, result.key) && result.key <= k)
    && (forall k :: k in seen && Short(g, k) ==> !After(before, k))
    && ShortNode(g, before)
  }

  /** `before` is the last node short of the goal, `result` leads to the first key that is not. */
  ghost predicate Exact(g: Goal, before: Node, result: Link, s: set<int>) {
    && Member(s, before) && ShortNode(g, before) && (forall k :: k in s && Short(g, k) ==> !After(before, k))
    && (result.To? ==> result.key in s && !Short(g, result.key))
    && (result.To? ==> forall k :: k in s && !Short(g, k) ==> result.key <= k)
    && (result.Null? ==> forall k :: k in s ==> Short(g, k))
  }

  ghost predicate ReadersOK(s: State)
    requires |s.linked| == MAX_HEIGHT
  {
    forall id :: id in s.readers ==> ReaderOK(s, s.readers[id])
  }

  ghost predicate Inv(s: State) {
    LevelsOK(s) && WriterOK(s) && HeightOK(s) && ReadersOK(s)
  }

  /** Where the last load stops in the list of that moment. */
  lemma LastLoadIsExact(p: Pointers, s: set<int>, x: Node, g: Goal)
    requires Links(p, s) && Member(s, x) && ShortNode(g, x)
    requires p[x].Null? || !Short(g, p[x].key)
    ensures Exact(g, x, p[x], s)
  {
  }

  lemma PublishKeepsLevels(s: State, t: State)
    requires LevelsOK(s) && WriterOK(s) && HeightOK(s) && Does(s, PublishLink, t)
    ensures LevelsOK(t) && WriterOK(t) && HeightOK(t)
  {
    var w := s.writer;
    var i := w.level;
    LinkKeepsOrder(s.next[i], s.linked[i], w.prev[i], w.key);
    assert s.next[i][w.prev[i] := To(w.key)] == LinkAfter(s.next[i], w.prev[i], w.key);
  }

  lemma PrepareKeepsLinks(p: Pointers, s: set<int>, key: int, l: Link)
    requires Links(p, s) && key !in s
    ensures Links(p[At(key) := l], s)
  {
    forall x | Member(s, x) ensures x in p[At(key) := l] && IsSucc(s, x, p[At(key) := l][x]) {}
  }

  lemma WriterStep(s: State, step: Step, t: State)
    requires Inv(s) && Does(s, step, t) && !step.BeginSearch? && !step.LoadNext?
    ensures LevelsOK(t) && WriterOK(t) && HeightOK(t)
  {
    match step
    case PublishLink => PublishKeepsLevels(s, t);
    case PrepareLink => PrepareKeepsLinks(s.next[s.writer.level], s.linked[s.writer.level], s.writer.key,
                                          s.next[s.writer.level][s.writer.prev[s.writer.level]]);
    case BeginInsert(key, height, prev) => Nested(s.linked);
    case _ =>
  }

  /** The writer only ever adds to levels, so no reader is disturbed. */
  lemma WriterKeepsReaders(s: State, step: Step, t: State)
    requires Inv(s) && Does(s, step, t) && !step.BeginSearch? && !step.LoadNext?
    requires |t.linked| == MAX_HEIGHT
    ensures ReadersOK(t)
  {
    assert t.readers == s.readers;
    forall id | id in t.readers ensures ReaderOK(t, t.readers[id]) {
      assert ReaderOK(s, s.readers[id]);
      assert forall i :: 0 <= i < MAX_HEIGHT ==> s.linked[i] <= t.linked[i];
    }
  }

  lemma ReaderStep(s: State, step: Step, t: State)
    requires Inv(s) && Does(s, step, t) && (step.BeginSearch? || step.LoadNext?)
    ensures Inv(t)
  {
    forall id | id in t.readers ensures ReaderOK(t, t.readers[id]) {
      if step.LoadNext? && id == step.id {
        var r := s.readers[id];
        assert ReaderOK(s, r);
        var n := s.next[r.level][r.x];
        assert IsSucc(s.linked[r.level], r.x, n);
        if n.Null? || !Short(r.goal, n.key) { LastLoadIsExact(s.next[r.level], s.linked[r.level], r.x, r.goal); }
      } else if id in s.readers {
        assert ReaderOK(s, s.readers[id]);
      }
    }
  }

  lemma StepKeepsInv(s: State, step: Step, t: State)
    requires Inv(s) && Does(s, step, t)
    ensures Inv(t)
  {
    if step.BeginSearch? || step.LoadNext? {
      ReaderStep(s, step, t);
    } else {
      WriterStep(s, step, t);
      WriterKeepsReaders(s, step, t);
    }
  }

  ghost predicate Run(states: seq<State>, steps: seq<Step>) {
    && |states| == |steps| + 1 && Initial(states[0])
    && forall i :: 0 <= i < |steps| ==> Does(states[i], steps[i], states[i + 1])
  }

  lemma {:induction false} RunInv(states: seq<State>, steps: seq<Step>, n: nat)
    requires Run(states, steps) && n < |states|
    ensures Inv(states[n])
  {
    if n > 0 {
      RunInv(states, steps, n - 1);
      StepKeepsInv(states[n - 1], steps[n - 1], states[n]);
    }
  }

  /** Under every interleaving each level is a sorted sublist of the level below. */
  lemma LevelsInEveryRun(states: seq<State>, steps: seq<Step>, n: nat, i: nat)
    requires Run(states, steps) && n < |states| && i < MAX_HEIGHT
    ensures |states[n].next| == |states[n].linked| == MAX_HEIGHT
    ensures Links(states[n].next[i], states[n].linked[i])
    ensures i > 0 ==> states[n].linked[i] <= states[n].linked[i - 1]
  {
    RunInv(states, steps, n);
  }

  /**
   Under every interleaving a finished search misses no key that the list held when it began, on either side of
   where it stopped.
   */
  lemma SearchesInEveryRun(states: seq<State>, steps: seq<Step>, n: nat, id: nat)
    requires Run(states, steps) && n < |states| && id in states[n].readers && states[n].readers[id].Done?
    ensures var r := states[n].readers[id]; Correct(r.goal, r.before, r.result, r.seen)
  {
    RunInv(states, steps, n);
    assert ReaderOK(states[n], states[n].readers[id]);
  }

  /** At its last load a search stops exactly where its goal lies in the level-0 list of that moment. */
  lemma LastLoadInEveryRun(states: seq<State>, steps: seq<Step>, n: nat, id: nat)
    requires Run(states, steps) && n < |steps| && steps[n] == LoadNext(id)
    requires id in states[n + 1].readers && states[n + 1].readers[id].Done?
    ensures var r, s := states[n + 1].readers[id], states[n].linked;
            |s| == MAX_HEIGHT && Exact(r.goal, r.before, r.result, s[0])
  {
    RunInv(states, steps, n);
    assert Does(states[n], steps[n], states[n + 1]);
    var r := states[n].readers[id];
    assert ReaderOK(states[n], r);
    LastLoadIsExact(states[n].next[0], states[n].linked[0], r.x, r.goal);
  }

  /** FindGreaterOrEqual: the least key at or above `target` of that moment, at most any seen at the beginning. */
  lemma SeekInEveryRun(states: seq<State>, steps: seq<Step>, n: nat, id: nat, target: int)
    requires Run(states, steps) && n < |steps| && steps[n] == LoadNext(id)
    requires id in states[n + 1].readers && states[n + 1].readers[id].Done?
    requires states[n + 1].readers[id].goal == Upto(target)
    ensures var r, s := states[n + 1].readers[id], states[n].linked;
            && |s| == MAX_HEIGHT && r.seen <= s[0]
            && (r.result.To? ==> r.result.key in s[0] && r.result.key >= target)
            && (r.result.To? ==> forall k :: k in s[0] && k >= target ==> r.result.key <= k)
            && (r.result.Null? ==> forall k :: k in s[0] ==> k < target)
  {
    LastLoadInEveryRun(states, steps, n, id);
    SeenIsThere(states, steps, n, id);
  }

  /** FindLessThan, by which an iterator steps back: the last node before `target` of that moment. */
  lemma PrevInEveryRun(states: seq<State>, steps: seq<Step>, n: nat, id: nat, target: int)
    requires Run(states, steps) && n < |steps| && steps[n] == LoadNext(id)
    requires id in states[n + 1].readers && states[n + 1].readers[id].Done?
    requires states[n + 1].readers[id].goal == Upto(target)
    ensures var r, s := states[n + 1].readers[id], states[n].linked;
            |s| == MAX_HEIGHT && r.seen <= s[0] && IsPred(s[0], r.before, target)
  {
    LastLoadInEveryRun(states, steps, n, id);
    SeenIsThere(states, steps, n, id);
  }

  /** FindLast: the last node of that moment, or the head when the list is empty. */
  lemma LastInEveryRun(states: seq<State>, steps: seq<Step>, n: nat, id: nat)
    requires Run(states, steps) && n < |steps| && steps[n] == LoadNext(id)
    requires id in states[n + 1].readers && states[n + 1].readers[id].Done?
    requires states[n + 1].readers[id].goal == End
    ensures var r, s := states[n + 1].readers[id], states[n].linked;
            && |s| == MAX_HEIGHT && r.seen <= s[0] && Member(s[0], r.before) && r.result == Null
            && (forall k :: k in s[0] ==> !After(r.before, k)) && (r.before.Head? <==> forall k :: k !in s[0])
  {
    LastLoadInEveryRun(states, steps, n, id);
    SeenIsThere(states, steps, n, id);
    var r, s := states[n + 1].readers[id], states[n].linked;
    forall k | k in s[0] ensures !After(r.before, k) { assert Short(End, k); }
  }

  lemma SeenIsThere(states: seq<State>, steps: seq<Step>, n: nat, id: nat)
    requires Run(states, steps) && n < |steps| && steps[n] == LoadNext(id) && id in states[n + 1].readers
    ensures |states[n].linked| == MAX_HEIGHT && states[n + 1].readers[id].seen <= states[n].linked[0]
  {
    RunInv(states, steps, n);
    assert Does(states[n], steps[n], states[n + 1]);
    assert ReaderOK(states[n], states[n].readers[id]);
  }
}
