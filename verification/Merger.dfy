/**
 MergingIterator: a cursor over the sorted merge of several sorted children
 with pairwise distinct keys, moving forwards and backwards.
 */
module MergingIterator {
  /** Keys stand for their rank in the comparator's order. */
  datatype Item = Item(key: int, value: string)

  datatype Direction = Forward | Reverse

  datatype Choice = None | Child(index: nat)

  ghost predicate Increasing(xs: seq<Item>) {
    forall i, j :: 0 <= i < j < |xs| ==> xs[i].key < xs[j].key
  }

  ghost predicate Differ(children: seq<seq<Item>>, c: nat, i: nat, d: nat, j: nat) {
    c < |children| && d < |children| && c != d && i < |children[c]| && j < |children[d]| ==>
      children[c][i].key != children[d][j].key
  }

  /** Keys of different children differ. */
  ghost predicate Distinct(children: seq<seq<Item>>) {
    forall c: nat, i: nat, d: nat, j: nat :: Differ(children, c, i, d, j)
  }

  ghost predicate Held(children: seq<seq<Item>>, x: Item) {
    exists c, i :: 0 <= c < |children| && 0 <= i < |children[c]| && children[c][i] == x
  }

  ghost predicate Listed(merged: seq<Item>, x: Item) { x in merged }

  /** `merged` is the sorted list of exactly the items of all children. */
  ghost predicate IsMerge(merged: seq<Item>, children: seq<seq<Item>>) {
    Increasing(merged) && forall x :: Listed(merged, x) <==> Held(children, x)
  }

  /** First position of `xs` whose key is at or above `key`. */
  function Seek(xs: seq<Item>, key: int): (p: nat)
    ensures p <= |xs| && (forall j :: 0 <= j < p ==> xs[j].key < key) && (p < |xs| ==> xs[p].key >= key)
  {
    if xs == [] || xs[0].key >= key then 0 else 1 + Seek(xs[1..], key)
  }

  /** A child's cursor; its length stands for the single invalid position. */
  function StepBack(xs: seq<Item>, p: nat): nat {
    if p == 0 then |xs| else p - 1
  }

  class Merger {
    const children: seq<seq<Item>>
    ghost const merged: seq<Item>
    var pos: seq<nat>
    var current: Choice
    var direction: Direction

    constructor (children: seq<seq<Item>>, ghost merged: seq<Item>)
      requires forall c :: 0 <= c < |children| ==> Increasing(children[c])
      requires Distinct(children) && IsMerge(merged, children)
      ensures this.children == children && this.merged == merged && Valid() && current.None?
    {
      this.children := children;
      this.merged := merged;
      pos := seq(|children|, c requires 0 <= c < |children| => |children[c]|);
      current := None;
      direction := Forward;
    }

    ghost predicate Static() {
      && (forall c :: 0 <= c < |children| ==> Increasing(children[c]))
      && Distinct(children) && IsMerge(merged, children)
    }

    ghost predicate Bounded()
      reads this
    {
      |pos| == |children| && forall c :: 0 <= c < |children| ==> pos[c] <= |children[c]|
    }

    /** Child `c` rests on its first key at or above `key`. */
    ghost predicate AtOrAfter(c: nat, p: nat, key: int)
      requires c < |children|
    {
      p <= |children[c]| && forall j :: 0 <= j < |children[c]| ==> (j < p <==> children[c][j].key < key)
    }

    /** Child `c` rests on its last key at or below `key`, or is invalid when it has none. */
    ghost predicate AtOrBefore(c: nat, p: nat, key: int)
      requires c < |children|
    {
      && p <= |children[c]|
      && (forall j :: 0 <= j < |children[c]| ==> (children[c][j].key <= key <==> p < |children[c]| && j <= p))
    }

    /** Child `c` rests on its first key above `key`. */
    ghost predicate Above(c: nat, p: nat, key: int)
      requires c < |children|
    {
      p <= |children[c]| && forall j :: 0 <= j < |children[c]| ==> (j < p <==> children[c][j].key <= key)
    }

    /** Child `c` rests on its last key below `key`, or is invalid when it has none. */
    ghost predicate Below(c: nat, p: nat, key: int)
      requires c < |children|
    {
      && p <= |children[c]|
      && forall j :: 0 <= j < |children[c]| ==> (children[c][j].key < key <==> p < |children[c]| && j <= p)
    }

    ghost predicate Valid()
      reads this
    {
      && Static() && Bounded()
      && match current
         case None => true
         case Child(c) =>
           && c < |children| && pos[c] < |children[c]|
           && forall d :: 0 <= d < |children| ==>
                if direction.Forward? then AtOrAfter(d, pos[d], children[c][pos[c]].key)
                else AtOrBefore(d, pos[d], children[c][pos[c]].key)
    }

    function Current(): Item
      reads this
      requires Valid() && current.Child?
    {
      children[current.index][pos[current.index]]
    }

    /** The cursor stands on item `m` of the merge; past its ends it is invalid. */
    ghost predicate At(m: int)
      reads this
      requires Valid()
    {
      if 0 <= m < |merged| then current.Child? && Current() == merged[m] else current.None?
    }

    /** No valid child is on a smaller key than the chosen one. */
    ghost predicate Smallest(choice: Choice, n: nat)
      reads this
      requires Bounded() && n <= |children|
    {
      match choice
      case None => forall c :: 0 <= c < n ==> pos[c] == |children[c]|
      case Child(s) =>
        && s < |children| && pos[s] < |children[s]|
        && forall c :: 0 <= c < n && pos[c] < |children[c]| ==> children[s][pos[s]].key <= children[c][pos[c]].key
    }

    ghost predicate Largest(choice: Choice, n: nat)
      reads this
      requires Bounded() && n <= |children|
    {
      match choice
      case None => forall c :: n <= c < |children| ==> pos[c] == |children[c]|
      case Child(s) =>
        && s < |children| && pos[s] < |children[s]|
        && forall c :: n <= c < |children| && pos[c] < |children[c]| ==>
            children[s][pos[s]].key >= children[c][pos[c]].key
    }

    method FindSmallest()
      requires Bounded()
      modifies this`current
      ensures Smallest(current, |children|)
    {
      var smallest := None;
      for i := 0 to |children|
        invariant Smallest(smallest, i)
      {
        if pos[i] < |children[i]| {
          if smallest.None? {
            smallest := Child(i);
          } else if children[i][pos[i]].key < children[smallest.index][pos[smallest.index]].key {
            smallest := Child(i);
          }
        }
      }
      current := smallest;
    }

    method FindLargest()
      requires Bounded()
      modifies this`current
      ensures Largest(current, 0)
    {
      var largest := None;
      for i := |children| downto 0
        invariant Largest(largest, i)
      {
        if pos[i] < |children[i]| {
          if largest.None? {
            largest := Child(i);
          } else if children[i][pos[i]].key > children[largest.index][pos[largest.index]].key {
            largest := Child(i);
          }
        }
      }
      current := largest;
    }

    /** Every child rests on its first key above item `m` of the merge. */
    ghost predicate AllPast(m: int)
      reads this
      requires Bounded() && -1 <= m < |merged|
    {
      forall c, j :: 0 <= c < |children| && 0 <= j < |children[c]| ==>
          (j < pos[c] <==> m >= 0 && children[c][j].key <= merged[m].key)
    }

    /** Every child rests on its last key below item `m` of the merge, or is invalid. */
    ghost predicate AllBefore(m: int)
      reads this
      requires Bounded() && 0 <= m <= |merged|
    {
      forall c, j :: 0 <= c < |children| && 0 <= j < |children[c]| ==>
        (pos[c] < |children[c]| && j <= pos[c] <==> m == |merged| || children[c][j].key < merged[m].key)
    }

    lemma OwnerOf(m: nat) returns (c: nat, i: nat)
      requires IsMerge(merged, children) && m < |merged|
      ensures c < |children| && i < |children[c]| && children[c][i] == merged[m]
    {
      assert Listed(merged, merged[m]);
      c, i :| 0 <= c < |children| && 0 <= i < |children[c]| && children[c][i] == merged[m];
    }

    lemma RankOf(c: nat, i: nat) returns (m: nat)
      requires IsMerge(merged, children) && c < |children| && i < |children[c]|
      ensures m < |merged| && merged[m] == children[c][i]
    {
      assert Held(children, children[c][i]);
      assert Listed(merged, children[c][i]);
      m :| 0 <= m < |merged| && merged[m] == children[c][i];
    }

    /** The smallest key above item m is item m + 1. */
    lemma SmallestIsNext(m: int)
      requires Static() && Bounded() && -1 <= m < |merged| && AllPast(m) && Smallest(current, |children|) &&
               direction.Forward?
      ensures Valid() && At(m + 1)
    {
      if current.Child? {
        var s := current.index;
        var x := children[s][pos[s]];
        forall d | 0 <= d < |children| ensures AtOrAfter(d, pos[d], x.key) {
          forall j | 0 <= j < |children[d]| ensures j < pos[d] <==> children[d][j].key < x.key {
            assert s == d || j >= pos[d] || children[d][j].key < x.key;
          }
        }
        var k := RankOf(s, pos[s]);
        if m + 1 < |merged| {
          var c, i := OwnerOf(m + 1);
          assert AtOrAfter(c, pos[c], x.key);
        }
      } else if m + 1 < |merged| {
        var c, i := OwnerOf(m + 1);
        assert false;
      }
    }

    /** The largest key below item m is item m - 1. */
    lemma LargestIsPrevious(m: int)
      requires Static() && Bounded() && 0 <= m <= |merged| && AllBefore(m) && Largest(current, 0) && direction.Reverse?
      ensures Valid() && At(m - 1)
    {
      if current.Child? {
        var s := current.index;
        var x := children[s][pos[s]];
        forall d | 0 <= d < |children| ensures AtOrBefore(d, pos[d], x.key) {
          forall j | 0 <= j < |children[d]|
            ensures children[d][j].key <= x.key <==> pos[d] < |children[d]| && j <= pos[d]
          {
            assert s == d || (pos[d] < |children[d]| && j <= pos[d]) || children[d][j].key > x.key;
          }
        }
        var k := RankOf(s, pos[s]);
        if m >= 1 {
          var c, i := OwnerOf(m - 1);
          assert AtOrBefore(c, pos[c], x.key);
        }
      } else if m >= 1 {
        var c, i := OwnerOf(m - 1);
        assert false;
      }
    }

    method SeekToFirst()
      requires Valid()
      modifies this
      ensures Valid() && At(0)
    {
      pos := seq(|children|, _ => 0);
      FindSmallest();
      direction := Forward;
      SmallestIsNext(-1);
    }

    method SeekToLast()
      requires Valid()
      modifies this
      ensures Valid() && At(|merged| - 1)
    {
      pos := seq(|children|, c requires 0 <= c < |children| => if children[c] == [] then 0 else |children[c]| - 1);
      FindLargest();
      direction := Reverse;
      LargestIsPrevious(|merged|);
    }

    method SeekTo(target: int, ghost m: nat)
      requires Valid()
      requires m <= |merged| && forall k :: 0 <= k < |merged| ==> (k < m <==> merged[k].key < target)
      modifies this
      ensures Valid() && At(m)
    {
      pos := seq(|children|, c requires 0 <= c < |children| => Seek(children[c], target));
      forall c, j | 0 <= c < |children| && 0 <= j < |children[c]|
        ensures j < pos[c] <==> m >= 1 && children[c][j].key <= merged[m - 1].key
      {
        var k := RankOf(c, j);
        assert j < pos[c] <==> children[c][j].key < target;
      }
      FindSmallest();
      direction := Forward;
      SmallestIsNext(m - 1);
    }

    method Next(ghost m: nat)
      requires Valid() && current.Child? && m < |merged| && At(m)
      modifies this
      ensures Valid() && At(m + 1)
    {
      var key := Current().key;
      var cur := current.index;
      if !direction.Forward? {
        var moved: seq<nat> := pos;
        for i := 0 to |children|
          invariant |moved| == |children| && moved[cur] == pos[cur]
          invariant forall c :: 0 <= c < i && c != cur ==> Above(c, moved[c], key)
          invariant forall c :: i <= c < |children| ==> moved[c] == pos[c]
        {
          if i != cur {
            var p: nat := Seek(children[i], key);
            if p < |children[i]| && children[i][p].key == key {
              p := p + 1;
            }
            moved := moved[i := p];
          }
        }
        pos := moved;
        direction := Forward;
      } else {
        forall d: nat | d < |children| && d != cur ensures Above(d, pos[d], key) {
          assert AtOrAfter(d, pos[d], key) && Differ(children, cur, pos[cur], d, pos[d]);
        }
      }
      pos := pos[cur := pos[cur] + 1];
      FindSmallest();
      SmallestIsNext(m);
    }

    method Prev(ghost m: nat)
      requires Valid() && current.Child? && m < |merged| && At(m)
      modifies this
      ensures Valid() && At(m - 1)
    {
      var key := Current().key;
      var cur := current.index;
      if !direction.Reverse? {
        var moved: seq<nat> := pos;
        for i := 0 to |children|
          invariant |moved| == |children| && moved[cur] == pos[cur]
          invariant forall c :: 0 <= c < i && c != cur ==> Below(c, moved[c], key)
          invariant forall c :: i <= c < |children| ==> moved[c] == pos[c]
        {
          if i != cur {
            var p: nat := Seek(children[i], key);
            if p < |children[i]| {
              p := StepBack(children[i], p);
            } else {
              p := if children[i] == [] then 0 else |children[i]| - 1;
            }
            moved := moved[i := p];
          }
        }
        pos := moved;
        direction := Reverse;
      } else {
        forall d: nat | d < |children| && d != cur ensures Below(d, pos[d], key) {
          assert AtOrBefore(d, pos[d], key) && Differ(children, cur, pos[cur], d, pos[d]);
        }
      }
      pos := pos[cur := StepBack(children[cur], pos[cur])];
      FindLargest();
      LargestIsPrevious(m);
    }
  }
}
