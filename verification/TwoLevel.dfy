/**
 TwoLevelIterator: an index iterator whose entries name blocks, and an
 iterator inside the current block. Together they are a cursor on the
 concatenation of the blocks, with empty blocks skipped.
 */
module TwoLevelIterator {
  import opened MergingIterator

  function Concat(blocks: seq<seq<Item>>): seq<Item> {
    if blocks == [] then [] else Concat(blocks[..|blocks| - 1]) + blocks[|blocks| - 1]
  }

  /** Where block `b` starts in the concatenation. */
  ghost function Offset(blocks: seq<seq<Item>>, b: nat): nat
    requires b <= |blocks|
  {
    |Concat(blocks[..b])|
  }

  lemma OffsetStep(blocks: seq<seq<Item>>, b: nat)
    requires b < |blocks|
    ensures Offset(blocks, b + 1) == Offset(blocks, b) + |blocks[b]|
  {
    assert blocks[..b + 1][..b] == blocks[..b];
  }

  lemma {:induction false} ConcatPrefix(blocks: seq<seq<Item>>, b: nat)
    requires b <= |blocks|
    ensures Concat(blocks[..b]) <= Concat(blocks)
    decreases |blocks|
  {
    if b < |blocks| {
      var init := blocks[..|blocks| - 1];
      assert init[..b] == blocks[..b];
      ConcatPrefix(init, b);
    } else {
      assert blocks[..b] == blocks;
    }
  }

  /** Item `p` of block `b` in the concatenation. */
  lemma ItemAt(blocks: seq<seq<Item>>, b: nat, p: nat)
    requires b < |blocks| && p < |blocks[b]|
    ensures Offset(blocks, b) + p < |Concat(blocks)| && Concat(blocks)[Offset(blocks, b) + p] == blocks[b][p]
  {
    OffsetStep(blocks, b);
    assert blocks[..b + 1][..b] == blocks[..b];
    assert Concat(blocks[..b + 1]) == Concat(blocks[..b]) + blocks[b];
    ConcatPrefix(blocks, b + 1);
  }

  lemma {:induction false} BlockOf(blocks: seq<seq<Item>>, m: nat) returns (b: nat, p: nat)
    requires m < |Concat(blocks)|
    ensures b < |blocks| && p < |blocks[b]| && m == Offset(blocks, b) + p
  {
    var init := blocks[..|blocks| - 1];
    if m < |Concat(init)| {
      b, p := BlockOf(init, m);
      assert init[..b] == blocks[..b];
    } else {
      b, p := |blocks| - 1, m - |Concat(init)|;
    }
  }

  /** An index key bounds its block from above and every later block from below. */
  ghost predicate IndexFits(blocks: seq<seq<Item>>, index: seq<int>) {
    && |index| == |blocks|
    && (forall b, p :: 0 <= b < |blocks| && 0 <= p < |blocks[b]| ==> blocks[b][p].key <= index[b])
    && (forall b, c, p :: 0 <= b < c < |blocks| && 0 <= p < |blocks[c]| ==> index[b] < blocks[c][p].key)
    && (forall b, c :: 0 <= b < c < |index| ==> index[b] < index[c])
  }

  function SeekIndexKey(index: seq<int>, target: int): (b: nat)
    ensures b <= |index| && (forall c :: 0 <= c < b ==> index[c] < target) && (b < |index| ==> index[b] >= target)
  {
    if index == [] || index[0] >= target then 0 else 1 + SeekIndexKey(index[1..], target)
  }

  /** The block iterator: absent, or inside a block; the block's length is its invalid position. */
  datatype Data = NoData | On(block: nat, at: nat)

  class TwoLevel {
    const blocks: seq<seq<Item>>
    const index: seq<int>
    var indexAt: nat
    var data: Data

    constructor (blocks: seq<seq<Item>>, index: seq<int>)
      requires IndexFits(blocks, index) && forall b :: 0 <= b < |blocks| ==> Increasing(blocks[b])
      ensures this.blocks == blocks && this.index == index && Valid() && data.NoData?
    {
      this.blocks := blocks;
      this.index := index;
      indexAt := |blocks|;
      data := NoData;
    }

    ghost predicate Bounded()
      reads this
    {
      && IndexFits(blocks, index) && (forall b :: 0 <= b < |blocks| ==> Increasing(blocks[b]))
      && indexAt <= |blocks|
      && (data.On? ==> data.block == indexAt < |blocks| && data.at <= |blocks[data.block]|)
    }

    ghost predicate Valid()
      reads this
    {
      Bounded() && (data.On? ==> data.at < |blocks[data.block]|)
    }

    /** The cursor stands on item `m` of the concatenation; past its ends it is invalid. */
    ghost predicate At(m: int)
      reads this
    {
      if 0 <= m < |Concat(blocks)|
      then data.On? && indexAt <= |blocks| && data.block < |blocks| && m == Offset(blocks, data.block) + data.at
      else data.NoData?
    }

    function Current(): Item
      reads this
      requires Valid() && data.On?
    {
      blocks[data.block][data.at]
    }

    /** InitDataBlock followed by a positioning call: an iterator on the index's block, if it has one. */
    method InitDataBlock(at: nat)
      requires indexAt <= |blocks|
      modifies this`data
      ensures data == if indexAt < |blocks| then On(indexAt, at) else NoData
    {
      if indexAt >= |blocks| {
        data := NoData;
      } else {
        data := On(indexAt, at);
      }
    }

    method SkipEmptyDataBlocksForward(ghost m: nat)
      requires Bounded() && (data.NoData? ==> indexAt == |blocks|)
      requires m == if data.On? then Offset(blocks, data.block) + data.at else Offset(blocks, |blocks|)
      modifies this
      ensures Valid() && At(m)
    {
      while data.NoData? || data.at == |blocks[data.block]|
        invariant Bounded() && (data.NoData? ==> indexAt == |blocks|)
        invariant m == if data.On? then Offset(blocks, data.block) + data.at else Offset(blocks, |blocks|)
        decreases |blocks| - indexAt
      {
        if indexAt == |blocks| {
          data := NoData;
          assert blocks[..|blocks|] == blocks;
          return;
        }
        OffsetStep(blocks, indexAt);
        indexAt := indexAt + 1;
        InitDataBlock(0);
      }
      ItemAt(blocks, data.block, data.at);
    }

    method SkipEmptyDataBlocksBackward(ghost m: int)
      requires Bounded() && (data.NoData? ==> indexAt == |blocks|)
      requires m == if data.NoData? then -1
                    else if data.at < |blocks[data.block]| then Offset(blocks, data.block) + data.at
                    else Offset(blocks, data.block) - 1
      modifies this
      ensures Valid() && At(m)
    {
      while data.NoData? || data.at == |blocks[data.block]|
        invariant Bounded() && (data.NoData? ==> indexAt == |blocks|)
        invariant m == if data.NoData? then -1
                       else if data.at < |blocks[data.block]| then Offset(blocks, data.block) + data.at
                       else Offset(blocks, data.block) - 1
        decreases if indexAt < |blocks| then indexAt + 1 else 0
      {
        if indexAt == |blocks| {
          data := NoData;
          return;
        }
        if indexAt == 0 {
          indexAt := |blocks|;
        } else {
          OffsetStep(blocks, indexAt - 1);
          indexAt := indexAt - 1;
        }
        InitDataBlock(if indexAt == |blocks| || blocks[indexAt] == [] then 0 else |blocks[indexAt]| - 1);
      }
      ItemAt(blocks, data.block, data.at);
    }

    method SeekToFirst()
      requires Valid()
      modifies this
      ensures Valid() && At(0)
    {
      indexAt := 0;
      InitDataBlock(0);
      SkipEmptyDataBlocksForward(0);
    }

    method SeekToLast()
      requires Valid()
      modifies this
      ensures Valid() && At(|Concat(blocks)| - 1)
    {
      indexAt := if |blocks| == 0 then 0 else |blocks| - 1;
      InitDataBlock(if indexAt == |blocks| || blocks[indexAt] == [] then 0 else |blocks[indexAt]| - 1);
      if |blocks| > 0 { OffsetStep(blocks, |blocks| - 1); }
      assert blocks[..|blocks|] == blocks;
      SkipEmptyDataBlocksBackward(|Concat(blocks)| - 1);
    }

    method Next(ghost m: nat)
      requires Valid() && data.On? && m < |Concat(blocks)| && At(m)
      modifies this
      ensures Valid() && At(m + 1)
    {
      data := On(data.block, data.at + 1);
      SkipEmptyDataBlocksForward(m + 1);
    }

    method Prev(ghost m: nat)
      requires Valid() && data.On? && m < |Concat(blocks)| && At(m)
      modifies this
      ensures Valid() && At(m - 1)
    {
      data := On(data.block, StepBack(blocks[data.block], data.at));
      SkipEmptyDataBlocksBackward(m - 1);
    }

    /** Seek in the index, then in that block, lands on the first key at or above the target. */
    method SeekTo(target: int, ghost m: nat)
      requires Valid()
      requires m <= |Concat(blocks)|
      requires forall k :: 0 <= k < |Concat(blocks)| ==> (k < m <==> Concat(blocks)[k].key < target)
      modifies this
      ensures Valid() && At(m)
    {
      indexAt := SeekIndexKey(index, target);
      InitDataBlock(if indexAt < |blocks| then Seek(blocks[indexAt], target) else 0);
      SeekLandsAt(blocks, index, target, m, indexAt, if data.On? then data.at else 0);
      SkipEmptyDataBlocksForward(m);
    }
  }

  /** Which items lie before the target: those of earlier blocks, and in block `b` those before `p`. */
  lemma SideOf(blocks: seq<seq<Item>>, index: seq<int>, target: int, b: nat, p: nat, c: nat, q: nat)
    requires IndexFits(blocks, index) && b == SeekIndexKey(index, target)
    requires c < |blocks| && q < |blocks[c]| && Increasing(blocks[c])
    requires b < |blocks| ==> p == Seek(blocks[b], target)
    ensures blocks[c][q].key < target <==> c < b || (c == b && q < p)
  {
    if c == b && p < q { assert blocks[c][p].key < blocks[c][q].key; }
  }

  /** The place of an item in the concatenation is ordered like its block and position. */
  lemma PlaceOf(blocks: seq<seq<Item>>, b: nat, p: nat, c: nat, q: nat)
    requires b <= |blocks| && (if b < |blocks| then p <= |blocks[b]| else p == 0)
    requires c < |blocks| && q < |blocks[c]|
    ensures Offset(blocks, c) + q < Offset(blocks, b) + p <==> c < b || (c == b && q < p)
  {
    OffsetMonotone(blocks, b, c);
    OffsetMonotone(blocks, c, b);
  }

  lemma PlaceWithin(blocks: seq<seq<Item>>, b: nat, p: nat)
    requires b <= |blocks| && (if b < |blocks| then p <= |blocks[b]| else p == 0)
    ensures Offset(blocks, b) + p <= |Concat(blocks)|
  {
    if b < |blocks| {
      OffsetStep(blocks, b);
      ConcatPrefix(blocks, b + 1);
    } else {
      assert blocks[..b] == blocks;
    }
  }

  lemma SameSide(blocks: seq<seq<Item>>, index: seq<int>, target: int, b: nat, p: nat, k: nat)
    requires IndexFits(blocks, index) && b == SeekIndexKey(index, target) && k < |Concat(blocks)|
    requires forall b :: 0 <= b < |blocks| ==> Increasing(blocks[b])
    requires if b < |blocks| then p == Seek(blocks[b], target) else p == 0
    ensures Concat(blocks)[k].key < target <==> k < Offset(blocks, b) + p
  {
    var c, q := BlockOf(blocks, k);
    ItemAt(blocks, c, q);
    SideOf(blocks, index, target, b, p, c, q);
    PlaceOf(blocks, b, p, c, q);
  }

  /** Seeking in the index and then in the block lands where seeking in the concatenation would. */
  lemma SeekLandsAt(blocks: seq<seq<Item>>, index: seq<int>, target: int, m: nat, b: nat, p: nat)
    requires IndexFits(blocks, index) && b == SeekIndexKey(index, target)
    requires forall b :: 0 <= b < |blocks| ==> Increasing(blocks[b])
    requires if b < |blocks| then p == Seek(blocks[b], target) else p == 0
    requires m <= |Concat(blocks)|
    requires forall k :: 0 <= k < |Concat(blocks)| ==> (k < m <==> Concat(blocks)[k].key < target)
    ensures m == Offset(blocks, b) + p
  {
    var g := Offset(blocks, b) + p;
    PlaceWithin(blocks, b, p);
    if m < g { SameSide(blocks, index, target, b, p, m); }
    if g < m { SameSide(blocks, index, target, b, p, g); }
  }

  lemma {:induction false} OffsetMonotone(blocks: seq<seq<Item>>, b: nat, c: nat)
    requires b <= |blocks| && c <= |blocks|
    ensures b < c ==> Offset(blocks, b) + |blocks[b]| <= Offset(blocks, c)
    decreases c
  {
    if b < c {
      OffsetStep(blocks, b);
      OffsetStep(blocks, c - 1);
      if b < c - 1 { OffsetMonotone(blocks, b, c - 1); }
    }
  }
}
