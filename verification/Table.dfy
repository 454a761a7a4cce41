/**
 What a table builder decides: how the sorted entries are cut into data blocks,
 which shortened key stands for each block in the index, and what the filter is
 told. A lookup by way of index, filter and one block must agree with a search
 of all entries. How this is laid out in a file is the subject of TableFiles.
 */
module Tables {
  import opened Options
  import opened Coding
  import opened Separators
  import opened FilterBlocks
  import opened TableFormat

  datatype Entry = Entry(key: Key, value: Bytes)

  /** A data block and its offset in the file. */
  datatype DataBlock = DataBlock(offset: nat, entries: seq<Entry>)

  ghost predicate Sorted(es: seq<Entry>) {
    forall i, j :: 0 <= i < j < |es| ==> KeyLess(es[i].key, es[j].key)
  }

  /** Block `j` is the stretch of the entries from `bounds[j]` to `bounds[j + 1]`. */
  ghost predicate BlockOK(blocks: seq<DataBlock>, entries: seq<Entry>, bounds: seq<nat>, j: nat)
    requires |bounds| == |blocks| + 1 && j < |blocks|
  {
    bounds[j] < bounds[j + 1] <= |entries| && blocks[j].entries == entries[bounds[j]..bounds[j + 1]]
  }

  ghost predicate CutInto(blocks: seq<DataBlock>, entries: seq<Entry>, bounds: seq<nat>) {
    && |bounds| == |blocks| + 1 && bounds[0] == 0 && bounds[|blocks|] <= |entries|
    && forall j :: 0 <= j < |blocks| ==> BlockOK(blocks, entries, bounds, j)
  }

  /** Index key `i` lies at or after the last key of block `i`, and parts it from the key that follows. */
  ghost predicate IndexOK(index: seq<Key>, entries: seq<Entry>, bounds: seq<nat>, i: nat)
    requires i < |index| && i + 1 < |bounds|
  {
    var end := bounds[i + 1];
    && 0 < end <= |entries| && KeyAtMost(entries[end - 1].key, index[i])
    && (end < |entries| ==> Separates(entries[end - 1].key, index[i], entries[end].key))
  }

  ghost predicate IndexedTo(index: seq<Key>, entries: seq<Entry>, bounds: seq<nat>) {
    |index| < |bounds| && forall i :: 0 <= i < |index| ==> IndexOK(index, entries, bounds, i)
  }

  /** The keys of a block were added to the filter under its offset. */
  ghost predicate Filtered(b: DataBlock, added: seq<Added>) {
    forall i :: 0 <= i < |b.entries| ==> Added(b.offset, b.entries[i].key.user) in added
  }

  ghost predicate AllFiltered(blocks: seq<DataBlock>, added: seq<Added>) {
    forall j :: 0 <= j < |blocks| ==> Filtered(blocks[j], added)
  }

  ghost predicate ValidKeys(ks: seq<Key>) {
    forall i :: 0 <= i < |ks| ==> ValidKey(ks[i])
  }

  ghost predicate ValidEntries(es: seq<Entry>) {
    forall i :: 0 <= i < |es| ==> ValidKey(es[i].key)
  }

  // ---- Building ----

  /** The cut of the entries into blocks, and the index keys so far. */
  ghost predicate Planned(entries: seq<Entry>, bounds: seq<nat>, blocks: seq<DataBlock>, data: seq<Entry>,
                          index: seq<Key>, pendingIndex: bool, lastKey: Key) {
    && Sorted(entries) && ValidEntries(entries) && ValidKeys(index)
    && (entries != [] ==> lastKey == entries[|entries| - 1].key)
    && CutInto(blocks, entries, bounds) && IsTail(data, entries, bounds[|blocks|])
    && IndexedTo(index, entries, bounds)
    && (if pendingIndex
        then |index| + 1 == |blocks| && data == []
        else |index| == |blocks| && (blocks != [] ==> data != []))
  }

  /** The entries from position `from` on. */
  ghost predicate IsTail(data: seq<Entry>, entries: seq<Entry>, from: nat) {
    from + |data| == |entries| && forall i :: 0 <= i < |data| ==> data[i] == entries[from + i]
  }

  lemma TailIs(data: seq<Entry>, entries: seq<Entry>, from: nat)
    ensures IsTail(data, entries, from) <==> from <= |entries| && data == entries[from..]
  {
  }

  /** What the filter has been told. */
  ghost predicate FilterKnows(blocks: seq<DataBlock>, data: seq<Entry>, offset: nat, added: seq<Added>) {
    AllFiltered(blocks, added) && Filtered(DataBlock(offset, data), added)
  }

  class TableBuilder {
    var blocks: seq<DataBlock>
    var data: seq<Entry>           // the block being built
    var index: seq<Key>
    var pendingIndex: bool         // the last block still lacks its index key
    var lastKey: Key
    var offset: nat
    const filter: FilterBlockBuilder
    ghost var entries: seq<Entry>
    ghost var bounds: seq<nat>

    ghost predicate Valid() reads this, filter {
      && filter.Valid() && filter.block == offset && FilterKnows(blocks, data, offset, filter.added)
      && Planned(entries, bounds, blocks, data, index, pendingIndex, lastKey)
    }

    constructor (hash: Bytes -> nat, bitsPerKey: nat, probes: bv8)
      ensures Valid() && entries == [] && fresh(filter) && filter.hash == hash
      ensures blocks == [] && data == [] && index == [] && offset == 0
    {
      filter := new FilterBlockBuilder(hash, bitsPerKey, probes);
      blocks, data, index, pendingIndex, lastKey, offset := [], [], [], false, Key([], 0), 0;
      entries, bounds := [], [0];
    }

    /** Adds the index key of the last block, if it lacks one, now that the entry that follows it is known. */
    method AddIndexKey(key: Key, ghost e: Entry)
      requires Valid() && e.key == key && (entries != [] ==> KeyLess(entries[|entries| - 1].key, key))
      modifies this`index, this`pendingIndex
      ensures !pendingIndex && |index| == |blocks| && old(index) <= index
      ensures IndexedTo(index, entries + [e], bounds) && ValidKeys(index)
    {
      if !pendingIndex {
        IndexSame(index, entries, bounds, e, blocks);
        return;
      }
      assert BlockOK(blocks, entries, bounds, |blocks| - 1);
      var sep := FindSeparator(lastKey, key);
      IndexMore(index, entries, bounds, sep, e, blocks);
      assert ValidKey(entries[|entries| - 1].key);
      index := index + [sep];
      pendingIndex := false;
    }

    /** Keys come in increasing order. */
    method Add(key: Key, value: Bytes)
      requires Valid() && ValidKey(key) && (entries != [] ==> KeyLess(entries[|entries| - 1].key, key))
      modifies this, filter
      ensures Valid() && entries == old(entries) + [Entry(key, value)]
      ensures data == old(data) + [Entry(key, value)] && blocks == old(blocks) && offset == old(offset)
      ensures !pendingIndex && old(index) <= index && ValidKeys(index)
      ensures |index| == |blocks| == |old(index)| + (if old(pendingIndex) then 1 else 0)
    {
      ghost var e := Entry(key, value);
      AddIndexKey(key, e);
      AddPlanned(entries, bounds, blocks, data, old(index), old(pendingIndex), lastKey, index, e);
      FilterTakes(blocks, data, offset, filter.added, e);
      filter.AddKey(key.user);
      lastKey, data, entries := key, data + [Entry(key, value)], entries + [e];
    }

    /** Closes the block being built, which takes `size` bytes with its trailer. */
    method Flush(size: nat)
      requires Valid()
      modifies this, filter
      ensures Valid() && entries == old(entries) && data == [] && (pendingIndex || blocks == [])
      ensures index == old(index)
      ensures if old(data) == [] then blocks == old(blocks) && offset == old(offset)
              else blocks == old(blocks) + [DataBlock(old(offset), old(data))] && offset == old(offset) + size
    {
      if data == [] { return; }
      FlushPlanned(entries, bounds, blocks, data, index, pendingIndex, lastKey, offset);
      FilterFlushed(blocks, data, offset, filter.added);
      blocks, bounds := blocks + [DataBlock(offset, data)], bounds + [|entries|];
      offset, data, pendingIndex := offset + size, [], true;
      filter.StartBlock(offset);
    }

    /** The filter block of a table whose blocks are all closed. */
    method FinishFilter() returns (filterBlock: Bytes)
      requires filter.Valid() && FilterKnows(blocks, data, offset, filter.added)
      modifies filter
      ensures FilterHolds(filterBlock, blocks, filter.result, filter.offsets, filter.hash)
    {
      ghost var added := filter.added;
      filterBlock := filter.Finish();
      PassesAll(filterBlock, blocks, added, filter.result, filter.offsets, filter.hash);
    }

    /** The last index key and the filter block. */
    method Finish() returns (filterBlock: Bytes)
      requires Valid() && data == []
      modifies this`index, this`pendingIndex, filter
      ensures Finished(blocks, index, entries, bounds) && ValidEntries(entries) && ValidKeys(index)
      ensures old(index) <= index && |index| == |old(index)| + (if old(pendingIndex) then 1 else 0)
      ensures FilterHolds(filterBlock, blocks, filter.result, filter.offsets, filter.hash)
    {
      FinishIndex();
      filterBlock := FinishFilter();
    }

    /** The index key of the last block; lookups in the finished table agree with a search of all entries. */
    method FinishIndex()
      requires Valid() && data == []
      modifies this`index, this`pendingIndex
      ensures Finished(blocks, index, entries, bounds) && ValidEntries(entries) && ValidKeys(index)
      ensures old(index) <= index && |index| == |old(index)| + (if old(pendingIndex) then 1 else 0)
    {
      assert bounds[|blocks|] == |entries|;
      if pendingIndex {
        assert BlockOK(blocks, entries, bounds, |blocks| - 1);
        var succ := FindSuccessor(lastKey);
        LastIndex(index, entries, bounds, succ, blocks);
        assert ValidKey(entries[|entries| - 1].key);
        index := index + [succ];
        pendingIndex := false;
      }
    }
  }

  /** One more entry, once the index is up to date with it. */
  lemma AddPlanned(entries: seq<Entry>, bounds: seq<nat>, blocks: seq<DataBlock>, data: seq<Entry>, index0: seq<Key>,
                   pending: bool, lastKey: Key, index: seq<Key>, e: Entry)
    requires Planned(entries, bounds, blocks, data, index0, pending, lastKey) && ValidKey(e.key)
    requires |index| == |blocks| && IndexedTo(index, entries + [e], bounds) && ValidKeys(index)
    requires entries != [] ==> KeyLess(entries[|entries| - 1].key, e.key)
    ensures Planned(entries + [e], bounds, blocks, data + [e], index, false, e.key)
  {
    SortedMore(entries, e);
    CutMore(blocks, entries, bounds, e);
    TailIs(data, entries, bounds[|blocks|]);
    TailIs(data + [e], entries + [e], bounds[|blocks|]);
  }

  lemma FlushPlanned(entries: seq<Entry>, bounds: seq<nat>, blocks: seq<DataBlock>, data: seq<Entry>, index: seq<Key>,
                     pending: bool, lastKey: Key, offset: nat)
    requires Planned(entries, bounds, blocks, data, index, pending, lastKey) && data != []
    ensures Planned(entries, bounds + [|entries|], blocks + [DataBlock(offset, data)], [], index, true, lastKey)
  {
    IndexFlushed(index, entries, bounds);
    TailIs(data, entries, bounds[|blocks|]);
    CutFlushed(blocks, entries, bounds, blocks + [DataBlock(offset, data)]);
  }

  lemma FilterTakes(blocks: seq<DataBlock>, data: seq<Entry>, offset: nat, added: seq<Added>, e: Entry)
    requires FilterKnows(blocks, data, offset, added)
    ensures FilterKnows(blocks, data + [e], offset, added + [Added(offset, e.key.user)])
  {
    FilteredMore(blocks, added, Added(offset, e.key.user));
    FilteredData(offset, data, added, e);
  }

  lemma FilterFlushed(blocks: seq<DataBlock>, data: seq<Entry>, offset: nat, added: seq<Added>)
    requires FilterKnows(blocks, data, offset, added)
    ensures forall next: nat :: FilterKnows(blocks + [DataBlock(offset, data)], [], next, added)
  {
    var blocks' := blocks + [DataBlock(offset, data)];
    forall j | 0 <= j < |blocks'| ensures Filtered(blocks'[j], added) {
      assert j < |blocks| ==> Filtered(blocks[j], added);
    }
  }

  /** A filter block that passes every key of every block. */
  ghost predicate FilterHolds(filterBlock: Bytes, blocks: seq<DataBlock>, result: seq<bv8>, offsets: seq<nat>,
                              hash: Bytes -> nat) {
    && OffsetsOK(result, offsets) && filterBlock == FilterBytes(result, offsets)
    && FilterPasses(blocks, result, offsets, hash)
  }

  lemma PassesAll(filterBlock: Bytes, blocks: seq<DataBlock>, added: seq<Added>, result: seq<bv8>, offsets: seq<nat>,
                  hash: Bytes -> nat)
    requires AllFiltered(blocks, added) && OffsetsOK(result, offsets) && filterBlock == FilterBytes(result, offsets)
    requires forall i :: 0 <= i < |added| ==> MayContain(result, offsets, hash, added[i].offset, added[i].key)
    ensures FilterHolds(filterBlock, blocks, result, offsets, hash)
  {
    forall j, i | 0 <= j < |blocks| && 0 <= i < |blocks[j].entries|
      ensures MayContain(result, offsets, hash, blocks[j].offset, blocks[j].entries[i].key.user)
    {
      assert Filtered(blocks[j], added);
      assert Added(blocks[j].offset, blocks[j].entries[i].key.user) in added;
    }
  }

  lemma LastIndex(index: seq<Key>, entries: seq<Entry>, bounds: seq<nat>, succ: Key, blocks: seq<DataBlock>)
    requires IndexedTo(index, entries, bounds) && CutInto(blocks, entries, bounds) && |index| + 1 == |blocks| &&
             bounds[|blocks|] == |entries|
    requires entries != [] && KeyAtMost(entries[|entries| - 1].key, succ)
    ensures IndexedTo(index + [succ], entries, bounds)
  {
    var index' := index + [succ];
    forall i | 0 <= i < |index'| ensures IndexOK(index', entries, bounds, i) {
      if i < |index| { assert IndexOK(index, entries, bounds, i); }
    }
  }

  lemma SortedMore(entries: seq<Entry>, e: Entry)
    requires Sorted(entries) && (entries != [] ==> KeyLess(entries[|entries| - 1].key, e.key))
    ensures Sorted(entries + [e])
  {
    var all := entries + [e];
    forall i, j | 0 <= i < j < |all| ensures KeyLess(all[i].key, all[j].key) {
      if j == |entries| && i < |entries| - 1 {
        KeyTransitive(entries[i].key, entries[|entries| - 1].key, e.key);
      }
    }
  }

  lemma CutMore(blocks: seq<DataBlock>, entries: seq<Entry>, bounds: seq<nat>, e: Entry)
    requires CutInto(blocks, entries, bounds)
    ensures CutInto(blocks, entries + [e], bounds) &&
            (entries + [e])[bounds[|blocks|]..] == entries[bounds[|blocks|]..] + [e]
  {
    forall j | 0 <= j < |blocks| ensures BlockOK(blocks, entries + [e], bounds, j) {
      assert BlockOK(blocks, entries, bounds, j);
      assert (entries + [e])[bounds[j]..bounds[j + 1]] == entries[bounds[j]..bounds[j + 1]];
    }
  }

  lemma CutFlushed(blocks: seq<DataBlock>, entries: seq<Entry>, bounds: seq<nat>, blocks': seq<DataBlock>)
    requires CutInto(blocks, entries, bounds) && bounds[|blocks|] < |entries|
    requires |blocks'| == |blocks| + 1 && blocks'[..|blocks|] == blocks &&
             blocks'[|blocks|].entries == entries[bounds[|blocks|]..]
    ensures CutInto(blocks', entries, bounds + [|entries|])
  {
    var bounds' := bounds + [|entries|];
    forall j | 0 <= j < |blocks'| ensures BlockOK(blocks', entries, bounds', j) {
      if j < |blocks| {
        assert blocks'[j] == blocks'[..|blocks|][j] == blocks[j];
        assert BlockOK(blocks, entries, bounds, j);
      } else {
        assert entries[bounds[j]..|entries|] == entries[bounds[j]..];
      }
    }
  }

  lemma IndexFlushed(index: seq<Key>, entries: seq<Entry>, bounds: seq<nat>)
    requires IndexedTo(index, entries, bounds)
    ensures IndexedTo(index, entries, bounds + [|entries|])
  {
    var bounds' := bounds + [|entries|];
    forall i | 0 <= i < |index| ensures IndexOK(index, entries, bounds', i) {
      assert IndexOK(index, entries, bounds, i);
    }
  }

  lemma IndexMore(index: seq<Key>, entries: seq<Entry>, bounds: seq<nat>, sep: Key, e: Entry, blocks: seq<DataBlock>)
    requires IndexedTo(index, entries, bounds) && CutInto(blocks, entries, bounds) && |index| + 1 == |blocks| &&
             bounds[|blocks|] == |entries|
    requires entries != []
    requires KeyAtMost(entries[|entries| - 1].key, sep) && Separates(entries[|entries| - 1].key, sep, e.key)
    ensures IndexedTo(index + [sep], entries + [e], bounds)
  {
    var index', entries' := index + [sep], entries + [e];
    forall i | 0 <= i < |index'| ensures IndexOK(index', entries', bounds, i) {
      if i < |index| {
        assert IndexOK(index, entries, bounds, i);
        BoundsIncrease(blocks, entries, bounds, i + 1, |blocks|);
      }
    }
  }

  lemma IndexSame(index: seq<Key>, entries: seq<Entry>, bounds: seq<nat>, e: Entry, blocks: seq<DataBlock>)
    requires IndexedTo(index, entries, bounds) && CutInto(blocks, entries, bounds) && |index| == |blocks| &&
             (blocks != [] ==> bounds[|blocks|] < |entries|)
    ensures IndexedTo(index, entries + [e], bounds)
  {
    var entries' := entries + [e];
    forall i | 0 <= i < |index| ensures IndexOK(index, entries', bounds, i) {
      assert IndexOK(index, entries, bounds, i);
      BoundsIncrease(blocks, entries, bounds, i + 1, |blocks|);
    }
  }

  lemma {:induction false} BoundsIncrease(blocks: seq<DataBlock>, entries: seq<Entry>, bounds: seq<nat>, i: nat, j: nat)
    requires CutInto(blocks, entries, bounds) && i <= j <= |blocks|
    ensures bounds[i] <= bounds[j] <= |entries| && (i < j ==> bounds[i] < bounds[j])
    decreases j - i
  {
    if i < j {
      BoundsIncrease(blocks, entries, bounds, i + 1, j);
      assert BlockOK(blocks, entries, bounds, i);
    } else if j < |blocks| {
      assert BlockOK(blocks, entries, bounds, j);
    }
  }

  lemma FilteredMore(blocks: seq<DataBlock>, added: seq<Added>, a: Added)
    requires AllFiltered(blocks, added)
    ensures AllFiltered(blocks, added + [a])
  {
    forall j | 0 <= j < |blocks| ensures Filtered(blocks[j], added + [a]) { assert Filtered(blocks[j], added); }
  }

  lemma FilteredData(offset: nat, data: seq<Entry>, added: seq<Added>, e: Entry)
    requires Filtered(DataBlock(offset, data), added)
    ensures Filtered(DataBlock(offset, data + [e]), added + [Added(offset, e.key.user)])
  {
    var b, b', more := DataBlock(offset, data), DataBlock(offset, data + [e]), added + [Added(offset, e.key.user)];
    forall i | 0 <= i < |b'.entries| ensures Added(b'.offset, b'.entries[i].key.user) in more {
      if i < |data| {
        assert Added(b.offset, b.entries[i].key.user) in added;
      } else {
        assert more[|added|] == Added(offset, e.key.user);
      }
    }
  }

  // ---- Lookup ----

  /** A finished table over `entries`. */
  ghost predicate Finished(blocks: seq<DataBlock>, index: seq<Key>, entries: seq<Entry>, bounds: seq<nat>) {
    && Sorted(entries) && CutInto(blocks, entries, bounds) && bounds[|blocks|] == |entries|
    && |index| == |blocks| && IndexedTo(index, entries, bounds)
  }

  /** The filter passes every key of every block. */
  ghost predicate FilterPasses(blocks: seq<DataBlock>, result: seq<bv8>, offsets: seq<nat>, hash: Bytes -> nat) {
    forall j, i :: 0 <= j < |blocks| && 0 <= i < |blocks[j].entries| ==>
      MayContain(result, offsets, hash, blocks[j].offset, blocks[j].entries[i].key.user)
  }

  /** Position of the first entry at or after `k`: what a search of all entries finds. */
  function FlatSeek(entries: seq<Entry>, k: Key): (p: nat)
    ensures p <= |entries| && (forall i :: 0 <= i < p ==> KeyLess(entries[i].key, k)) &&
            (p < |entries| ==> !KeyLess(entries[p].key, k))
  {
    if entries == [] || !KeyLess(entries[0].key, k) then 0 else 1 + FlatSeek(entries[1..], k)
  }

  /** The entry with the user key of `k` that a search of all entries finds. */
  function FlatGet(entries: seq<Entry>, k: Key): Option<Entry> {
    var p := FlatSeek(entries, k);
    if p < |entries| && entries[p].key.user == k.user then Some(entries[p]) else None
  }

  function IndexSeek(index: seq<Key>, k: Key): (p: nat)
    ensures p <= |index| && (forall i :: 0 <= i < p ==> KeyLess(index[i], k)) && (p < |index| ==> !KeyLess(index[p], k))
  {
    if index == [] || !KeyLess(index[0], k) then 0 else 1 + IndexSeek(index[1..], k)
  }

  lemma SeekIs(entries: seq<Entry>, k: Key, p: nat)
    requires Sorted(entries) && p <= |entries| && (forall i :: 0 <= i < p ==> KeyLess(entries[i].key, k)) &&
             (p < |entries| ==> !KeyLess(entries[p].key, k))
    ensures FlatSeek(entries, k) == p
  {
  }

  /** All entries before the chosen block are smaller than the key sought. */
  lemma EarlierBlocks(blocks: seq<DataBlock>, index: seq<Key>, entries: seq<Entry>, bounds: seq<nat>, k: Key, b: nat,
                      i: nat)
    requires Finished(blocks, index, entries, bounds) && b <= |index| && (b > 0 ==> KeyLess(index[b - 1], k)) &&
             i < bounds[b] && i < |entries|
    ensures KeyLess(entries[i].key, k)
  {
    assert IndexOK(index, entries, bounds, b - 1);
    var last := entries[bounds[b] - 1].key;
    if last != index[b - 1] { KeyTransitive(last, index[b - 1], k); }
    if i < bounds[b] - 1 { KeyTransitive(entries[i].key, last, k); }
  }

  /** If the chosen block has no entry at or after the key sought, no entry has its user key and is visible to it. */
  lemma BetweenBlocks(blocks: seq<DataBlock>, index: seq<Key>, entries: seq<Entry>, bounds: seq<nat>, k: Key, b: nat)
    requires Finished(blocks, index, entries, bounds) && b < |index| && !KeyLess(index[b], k) &&
             bounds[b + 1] < |entries|
    requires bounds[b + 1] > 0 && KeyLess(entries[bounds[b + 1] - 1].key, k)
    ensures entries[bounds[b + 1]].key.user != k.user && !KeyLess(entries[bounds[b + 1]].key, k)
  {
    assert IndexOK(index, entries, bounds, b);
    var last, sep, first := entries[bounds[b + 1] - 1].key, index[b], entries[bounds[b + 1]].key;
    KeyTotal(sep, k);
    assert sep != last;
    LessIrreflexive(k.user);
    if sep.user == k.user || Less(k.user, sep.user) {
      if sep.user != k.user { LessTransitive(k.user, sep.user, first.user); }
      assert KeyLess(k, first);
      KeyAsymmetric(k, first);
    }
  }

  /** The chosen block alone decides the search. */
  lemma FoundInBlock(blocks: seq<DataBlock>, index: seq<Key>, entries: seq<Entry>, bounds: seq<nat>, k: Key, b: nat)
    requires Finished(blocks, index, entries, bounds) && b < |index| && (b > 0 ==> KeyLess(index[b - 1], k)) &&
             !KeyLess(index[b], k)
    ensures FlatGet(blocks[b].entries, k) == FlatGet(entries, k)
  {
    var es := blocks[b].entries;
    var p := FlatSeek(es, k);
    InBlock(blocks, entries, bounds, b);
    UpToBlock(blocks, index, entries, bounds, k, b, p);
    if p == |es| && bounds[b + 1] < |entries| { BetweenBlocks(blocks, index, entries, bounds, k, b); }
    SeekIs(entries, k, bounds[b] + p);
  }

  lemma InBlock(blocks: seq<DataBlock>, entries: seq<Entry>, bounds: seq<nat>, b: nat)
    requires CutInto(blocks, entries, bounds) && b < |blocks|
    ensures bounds[b] < bounds[b + 1] <= |entries| && |blocks[b].entries| == bounds[b + 1] - bounds[b]
    ensures forall i :: 0 <= i < |blocks[b].entries| ==> blocks[b].entries[i] == entries[bounds[b] + i]
  {
    assert BlockOK(blocks, entries, bounds, b);
  }

  lemma UpToBlock(blocks: seq<DataBlock>, index: seq<Key>, entries: seq<Entry>, bounds: seq<nat>, k: Key, b: nat,
                  p: nat)
    requires Finished(blocks, index, entries, bounds) && b < |index| && (b > 0 ==> KeyLess(index[b - 1], k)) &&
             p == FlatSeek(blocks[b].entries, k)
    ensures bounds[b] + p <= |entries| && forall i :: 0 <= i < bounds[b] + p ==> KeyLess(entries[i].key, k)
  {
    InBlock(blocks, entries, bounds, b);
    var es := blocks[b].entries;
    forall i | 0 <= i < bounds[b] + p ensures KeyLess(entries[i].key, k) {
      if i < bounds[b] {
        EarlierBlocks(blocks, index, entries, bounds, k, b, i);
      } else {
        assert es[i - bounds[b]] == entries[i];
      }
    }
  }

  lemma NotFiltered(blocks: seq<DataBlock>, result: seq<bv8>, offsets: seq<nat>, hash: Bytes -> nat, b: nat, k: Key)
    requires FilterPasses(blocks, result, offsets, hash) && b < |blocks| &&
             !MayContain(result, offsets, hash, blocks[b].offset, k.user)
    ensures FlatGet(blocks[b].entries, k) == None
  {
    var es := blocks[b].entries;
    var p := FlatSeek(es, k);
    if p < |es| { assert MayContain(result, offsets, hash, blocks[b].offset, es[p].key.user); }
  }

  lemma BeyondAll(blocks: seq<DataBlock>, index: seq<Key>, entries: seq<Entry>, bounds: seq<nat>, k: Key)
    requires Finished(blocks, index, entries, bounds) && forall i :: 0 <= i < |index| ==> KeyLess(index[i], k)
    ensures FlatGet(entries, k) == None
  {
    forall i | 0 <= i < |entries| ensures KeyLess(entries[i].key, k) {
      EarlierBlocks(blocks, index, entries, bounds, k, |index|, i);
    }
  }

  /** Index keys strictly increase, so that seeking in the index is sound. */
  lemma IndexIncreases(blocks: seq<DataBlock>, index: seq<Key>, entries: seq<Entry>, bounds: seq<nat>, i: nat, j: nat)
    requires Finished(blocks, index, entries, bounds) && i < j < |index|
    ensures KeyLess(index[i], index[j])
  {
    assert IndexOK(index, entries, bounds, i) && IndexOK(index, entries, bounds, j);
    BoundsIncrease(blocks, entries, bounds, i + 1, j + 1);
    var first, last := entries[bounds[i + 1]].key, entries[bounds[j + 1] - 1].key;
    if first != last { KeyTransitive(index[i], first, last); }
    if last != index[j] { KeyTransitive(index[i], last, index[j]); }
  }
}
