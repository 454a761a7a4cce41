/**
 Table files: data blocks, filter block, metaindex and index block one after
 the other, each with a trailer, and the footer. A file that the writer has
 finished is opened, and a lookup in it agrees with a search of all entries.
 */
module TableFiles {
  import opened Options
  import opened Coding
  import opened Separators
  import opened FilterBlocks
  import opened TableFormat
  import opened Tables
  import B = Blocks

  // ---- What is written ----

  /** The entries of a block with their keys encoded. */
  function Encode(es: seq<Entry>): seq<B.Entry> {
    seq(|es|, i requires 0 <= i < |es| => B.Entry(KeyBytes(es[i].key), es[i].value))
  }

  /** The entries of the index block: a key and the handle of its block. */
  function EncodeIndex(index: seq<Key>, handles: seq<Handle>): seq<B.Entry>
    requires |index| <= |handles|
  {
    seq(|index|, i requires 0 <= i < |index| => B.Entry(KeyBytes(index[i]), HandleBytes(handles[i])))
  }

  /** The index block is up to date with the keys. */
  ghost predicate Indexes(es: seq<B.Entry>, index: seq<Key>, handles: seq<Handle>) {
    |index| <= |handles| && es == EncodeIndex(index, handles)
  }

  ghost predicate LaidAt(file: Bytes, b: DataBlock, h: Handle, sum: Checksum) {
    && h.offset == b.offset
    && exists contents :: Stored(file, h, contents, sum) && B.Encodes(contents, Encode(b.entries))
  }

  /** Every block lies where its handle says. */
  ghost predicate Laid(file: Bytes, blocks: seq<DataBlock>, handles: seq<Handle>, sum: Checksum) {
    |handles| == |blocks| && forall j :: 0 <= j < |blocks| ==> LaidAt(file, blocks[j], handles[j], sum)
  }

  ghost predicate ValidHandles(hs: seq<Handle>) {
    forall i :: 0 <= i < |hs| ==> ValidHandle(hs[i])
  }

  lemma LaidMore(file: Bytes, more: Bytes, blocks: seq<DataBlock>, handles: seq<Handle>, sum: Checksum)
    requires Laid(file, blocks, handles, sum)
    ensures Laid(file + more, blocks, handles, sum)
  {
    forall j | 0 <= j < |blocks| ensures LaidAt(file + more, blocks[j], handles[j], sum) {
      assert LaidAt(file, blocks[j], handles[j], sum);
      var contents :| Stored(file, handles[j], contents, sum) && B.Encodes(contents, Encode(blocks[j].entries));
      StoredMore(file, more, handles[j], contents, sum);
    }
  }

  lemma LaidNext(file: Bytes, blocks: seq<DataBlock>, handles: seq<Handle>, sum: Checksum, contents: Bytes,
                 data: seq<Entry>)
    requires Laid(file, blocks, handles, sum) && B.Encodes(contents, Encode(data))
    ensures Laid(WithBlock(file, contents, sum), blocks + [DataBlock(|file|, data)],
                 handles + [Handle(|file|, |contents|)], sum)
  {
    var file' := WithBlock(file, contents, sum);
    assert file' == file + (contents + Trailer(contents, sum));
    LaidMore(file, contents + Trailer(contents, sum), blocks, handles, sum);
    StoredAtEnd(file, contents, sum);
    assert LaidAt(file', DataBlock(|file|, data), Handle(|file|, |contents|), sum);
  }

  lemma EncodeMore(data: seq<Entry>, e: Entry)
    ensures Encode(data + [e]) == Encode(data) + [B.Entry(KeyBytes(e.key), e.value)]
  {
  }

  lemma IndexesMore(es: seq<B.Entry>, index: seq<Key>, handles: seq<Handle>, key: Key)
    requires Indexes(es, index, handles) && |index| < |handles|
    ensures Indexes(es + [B.Entry(KeyBytes(key), HandleBytes(handles[|index|]))], index + [key], handles)
  {
  }

  lemma IndexesLonger(es: seq<B.Entry>, index: seq<Key>, handles: seq<Handle>)
    requires handles != [] && Indexes(es, index, handles[..|handles| - 1])
    ensures Indexes(es, index, handles)
  {
  }

  /** A block being built whose restart points fit a word, also after one more entry. */
  ghost predicate Small(buffer: Bytes, restarts: seq<nat>) {
    B.InWords(restarts) && |restarts| + 1 < TWO32 && |buffer| < TWO32
  }

  // ---- Writing ----

  /** The blocks written so far and their handles, the last one among them. */
  ghost predicate Written(file: Bytes, blocks: seq<DataBlock>, handles: seq<Handle>, last: Handle, sum: Checksum) {
    && |handles| == |blocks| && ValidHandles(handles)
    && (handles != [] ==> last == handles[|handles| - 1])
    && (|file| < TWO64 ==> Laid(file, blocks, handles, sum))
  }

  lemma WrittenHandles(file: Bytes, blocks: seq<DataBlock>, handles: seq<Handle>, last: Handle, sum: Checksum)
    requires Written(file, blocks, handles, last, sum)
    ensures |handles| == |blocks| && ValidHandles(handles) && (handles != [] ==> last == handles[|handles| - 1])
  {
  }

  lemma WrittenNext(file: Bytes, blocks: seq<DataBlock>, handles: seq<Handle>, last: Handle, sum: Checksum,
                    contents: Bytes, data: seq<Entry>)
    requires Written(file, blocks, handles, last, sum) && B.Encodes(contents, Encode(data))
    ensures var h := HandleAt(file, contents);
            Written(WithBlock(file, contents, sum), blocks + [DataBlock(|file|, data)], handles + [h], h, sum)
  {
    if |WithBlock(file, contents, sum)| < TWO64 {
      HandleFits(file, contents, WithBlock(file, contents, sum), sum);
      LaidNext(file, blocks, handles, sum, contents, data);
    }
  }

  /**
   The file side of a table builder. Offsets and sizes take 64 bits; nothing is promised of a file that is longer.
   */
  class TableWriter {
    const blockSize: nat
    const interval: nat
    const sum: Checksum
    const metaKey: Bytes           // the name under which the filter is found
    const plan: TableBuilder
    const dataBlock: B.BlockBuilder
    const indexBlock: B.BlockBuilder
    var file: Bytes
    var pendingHandle: Handle      // where the last block lies
    ghost var handles: seq<Handle>

    ghost predicate Options() {
      && 8 < blockSize < TWO32 && interval >= 1 && AreBytes(metaKey) && |metaKey| < TWO32
      && dataBlock != indexBlock
    }

    /** The blocks written so far. */
    ghost predicate FileOK()
      reads this, plan
    {
      plan.offset == |file| && Written(file, plan.blocks, handles, pendingHandle, sum)
    }

    /** The block being built and the index. */
    ghost predicate BlocksOK()
      reads this, plan, dataBlock, indexBlock
    {
      && dataBlock.Valid() && dataBlock.layout.entries == Encode(plan.data) && B.InWords(dataBlock.restarts)
      && indexBlock.Valid() && Indexes(indexBlock.layout.entries, plan.index, handles)
    }

    ghost predicate Valid()
      reads this, plan, plan.filter, dataBlock, indexBlock
    {
      && Options() && plan.Valid() && FileOK() && BlocksOK()
      && Small(dataBlock.buffer, dataBlock.restarts)
    }

    constructor (hash: Bytes -> nat, bitsPerKey: nat, probes: bv8, metaKey: Bytes, interval: nat, blockSize: nat,
                 sum: Checksum)
      requires interval >= 1 && 8 < blockSize < TWO32 && AreBytes(metaKey) && |metaKey| < TWO32
      ensures Valid() && plan.entries == [] && plan.filter.hash == hash && this.metaKey == metaKey && this.sum == sum
      ensures fresh(plan) && fresh(plan.filter) && fresh(dataBlock) && fresh(indexBlock)
    {
      this.blockSize, this.interval, this.sum, this.metaKey := blockSize, interval, sum, metaKey;
      plan := new TableBuilder(hash, bitsPerKey, probes);
      dataBlock := new B.BlockBuilder(interval);
      indexBlock := new B.BlockBuilder(1);
      file, pendingHandle, handles := [], Handle(0, 0), [];
    }

    /** The key that the plan has added, if any, goes to the index block with the handle of its block. */
    method WriteIndexKey(pending: bool, index: seq<Key>, ghost before: seq<Key>)
      requires indexBlock.Valid() && Indexes(indexBlock.layout.entries, before, handles) && ValidKeys(index)
      requires before <= index && |index| == |handles| == |before| + (if pending then 1 else 0)
      requires ValidHandles(handles) && (handles != [] ==> pendingHandle == handles[|handles| - 1])
      modifies indexBlock
      ensures indexBlock.Valid() && Indexes(indexBlock.layout.entries, index, handles)
    {
      if !pending {
        assert before == index;
        return;
      }
      var n := |index| - 1;
      assert index == before + [index[n]];
      HandleRoundTrip(pendingHandle, []);
      KeyIsBytes(index[n]);
      IndexesMore(indexBlock.layout.entries, before, handles, index[n]);
      indexBlock.Add(KeyBytes(index[n]), HandleBytes(pendingHandle));
    }

    method Add(key: Key, value: Bytes)
      requires Valid() && ValidKey(key) && AreBytes(value) && |value| < TWO32
      requires plan.entries != [] ==> KeyLess(plan.entries[|plan.entries| - 1].key, key)
      modifies this, plan, plan.filter, dataBlock, indexBlock
      ensures Valid() && plan.entries == old(plan.entries) + [Entry(key, value)]
    {
      Take(key, value);
      if dataBlock.CurrentSizeEstimate() >= blockSize { Flush(); }
    }

    /** The entry joins the plan and the block being built. */
    method Take(key: Key, value: Bytes)
      requires Valid() && ValidKey(key) && AreBytes(value) && |value| < TWO32
      requires plan.entries != [] ==> KeyLess(plan.entries[|plan.entries| - 1].key, key)
      modifies plan, plan.filter, dataBlock, indexBlock
      ensures Options() && plan.Valid() && FileOK() && BlocksOK()
      ensures plan.entries == old(plan.entries) + [Entry(key, value)]
    {
      EncodeMore(plan.data, Entry(key, value));
      WrittenHandles(file, plan.blocks, handles, pendingHandle, sum);
      Plan(key, value);
      assert unchanged(dataBlock);
      KeyIsBytes(key);
      dataBlock.Add(KeyBytes(key), value);
    }

    /** The plan takes the entry, and the index block the key that it has become clear must stand before it. */
    method Plan(key: Key, value: Bytes)
      requires plan.Valid() && indexBlock.Valid() && Indexes(indexBlock.layout.entries, plan.index, handles)
      requires |handles| == |plan.blocks| && ValidHandles(handles) && ValidKey(key)
      requires handles != [] ==> pendingHandle == handles[|handles| - 1]
      requires plan.entries != [] ==> KeyLess(plan.entries[|plan.entries| - 1].key, key)
      modifies plan, plan.filter, indexBlock
      ensures plan.Valid() && plan.entries == old(plan.entries) + [Entry(key, value)]
      ensures plan.data == old(plan.data) + [Entry(key, value)]
      ensures plan.blocks == old(plan.blocks) && plan.offset == old(plan.offset)
      ensures indexBlock.Valid() && Indexes(indexBlock.layout.entries, plan.index, handles)
    {
      var pending := plan.pendingIndex;
      ghost var before := plan.index;
      plan.Add(key, value);
      assert unchanged(indexBlock);
      WriteIndexKey(pending, plan.index, before);
    }

    /** Writes the block being built, unless it is empty. */
    method Flush()
      requires Options() && plan.Valid() && FileOK() && BlocksOK()
      modifies this, plan, plan.filter, dataBlock
      ensures Valid() && plan.entries == old(plan.entries) && plan.data == []
    {
      assert |Encode(plan.data)| == |plan.data|;
      if !dataBlock.IsEmpty() {
        var contents := B.FinishBlock(dataBlock);
        WriteDataBlock(contents);
        FlushPlan(|contents| + TRAILER);
      }
    }

    /** The plan closes the block and a new one is begun. */
    method FlushPlan(size: nat)
      requires Options() && plan.Valid() && plan.data != [] && plan.offset + size == |file|
      requires Written(file, plan.blocks + [DataBlock(plan.offset, plan.data)], handles, pendingHandle, sum)
      requires dataBlock.Valid() && indexBlock.Valid() && |handles| > 0
      requires Indexes(indexBlock.layout.entries, plan.index, handles[..|handles| - 1])
      modifies plan, plan.filter, dataBlock
      ensures Valid() && plan.entries == old(plan.entries) && plan.data == []
    {
      IndexesLonger(indexBlock.layout.entries, plan.index, handles);
      dataBlock.Reset();
      plan.Flush(size);
      assert unchanged(indexBlock);
    }

    /** The finished block joins the file. */
    method WriteDataBlock(contents: Bytes)
      requires FileOK() && B.Encodes(contents, Encode(plan.data))
      modifies this
      ensures Written(file, plan.blocks + [DataBlock(plan.offset, plan.data)], handles, pendingHandle, sum)
      ensures plan.offset + |contents| + TRAILER == |file| && |handles| > 0 && handles[..|handles| - 1] == old(handles)
    {
      WrittenNext(file, plan.blocks, handles, pendingHandle, sum, contents, plan.data);
      pendingHandle := WriteRawBlock(contents);
      handles := handles + [pendingHandle];
    }

    /** A block and its trailer go to the file. */
    method WriteRawBlock(contents: Bytes) returns (h: Handle)
      modifies this`file
      ensures h == HandleAt(old(file), contents) && file == WithBlock(old(file), contents, sum)
    {
      h := Handle(|file| % TWO64, |contents| % TWO64);
      file := file + contents + Trailer(contents, sum);
    }

    /** The plan is completed: the last key is in the index block and the filter block is made. */
    method FinishPlan() returns (filterBlock: Bytes)
      requires plan.Valid() && plan.data == [] && indexBlock.Valid()
      requires Indexes(indexBlock.layout.entries, plan.index, handles)
      requires |handles| == |plan.blocks| && ValidHandles(handles)
      requires handles != [] ==> pendingHandle == handles[|handles| - 1]
      modifies plan, plan.filter, indexBlock
      ensures Finished(plan.blocks, plan.index, plan.entries, plan.bounds) && ValidEntries(plan.entries)
      ensures ValidKeys(plan.index) && indexBlock.Valid()
      ensures Indexes(indexBlock.layout.entries, plan.index, handles)
      ensures FilterHolds(filterBlock, plan.blocks, plan.filter.result, plan.filter.offsets, plan.filter.hash)
      ensures plan.entries == old(plan.entries) && plan.blocks == old(plan.blocks)
    {
      var pending := plan.pendingIndex;
      ghost var before := plan.index;
      filterBlock := plan.Finish();
      assert unchanged(indexBlock);
      WriteIndexKey(pending, plan.index, before);
    }

    /** The block that leads to the filter. */
    method MetaBlock(filter: Handle) returns (contents: Bytes)
      requires Options() && ValidHandle(filter)
      ensures B.Encodes(contents, [B.Entry(metaKey, HandleBytes(filter))])
    {
      var meta := new B.BlockBuilder(interval);
      HandleRoundTrip(filter, []);
      meta.Add(metaKey, HandleBytes(filter));
      assert meta.layout.entries == [B.Entry(metaKey, HandleBytes(filter))];
      contents := B.FinishBlock(meta);
    }

    /** Filter block, metaindex block, index block and footer. */
    method WriteTail(filterBlock: Bytes) returns (ghost p: Parts)
      requires Options() && indexBlock.Valid() && Indexes(indexBlock.layout.entries, plan.index, handles)
      requires Written(file, plan.blocks, handles, pendingHandle, sum)
      requires |handles| == |plan.index|
      modifies this`file
      ensures p.filterBlock == filterBlock && p.handles == handles
      ensures |file| < TWO64 && |p.indexBlock| < TWO32 ==> InFile(file, p, plan.blocks, plan.index, metaKey, sum)
    {
      var contents := B.FinishBlock(indexBlock);
      p := WriteBlocks(filterBlock, contents);
      if |file| < TWO64 && |contents| < TWO32 {
        TailInFile(old(file), file, p, plan.blocks, plan.index, metaKey, pendingHandle, sum);
      }
    }

    /** The three blocks one after the other, with the footer behind them. */
    method WriteBlocks(filterBlock: Bytes, indexContents: Bytes) returns (ghost p: Parts)
      requires Options()
      modifies this`file
      ensures HasTail(old(file), file, p, sum)
      ensures p.handles == handles && p.filterBlock == filterBlock && p.indexBlock == indexContents
      ensures B.Encodes(p.metaBlock, [B.Entry(metaKey, HandleBytes(p.filter))])
    {
      var filter := WriteRawBlock(filterBlock);
      var metaBlock := MetaBlock(filter);
      var meta := WriteRawBlock(metaBlock);
      var index := WriteRawBlock(indexContents);
      file := file + FooterBytes(meta, index);
      p := Parts(handles, filterBlock, metaBlock, indexContents, filter, meta, index);
    }

    /** Finishes the table; what was written is a table of all entries added. */
    method Finish() returns (ghost m: Made)
      requires Valid()
      modifies this, plan, plan.filter, dataBlock, indexBlock
      ensures m.entries == old(plan.entries)
      ensures |file| < TWO64 && |m.parts.indexBlock| < TWO32 && |m.result| < TWO32 ==>
                IsTable(file, m, plan.filter.hash, metaKey, sum)
    {
      Flush();
      WrittenHandles(file, plan.blocks, handles, pendingHandle, sum);
      var filterBlock := FinishPlan();
      ghost var p := WriteTail(filterBlock);
      m := Made(p, plan.blocks, plan.index, plan.entries, plan.bounds, plan.filter.result, plan.filter.offsets);
    }
  }

  /** Where everything but the plan lies, with the contents of the blocks that are not data blocks. */
  datatype Parts = Parts(handles: seq<Handle>, filterBlock: Bytes, metaBlock: Bytes, indexBlock: Bytes,
                         filter: Handle, meta: Handle, index: Handle)

  /** The blocks of a table stand in the file, and the footer at its end. */
  ghost predicate InFile(file: Bytes, p: Parts, blocks: seq<DataBlock>, index: seq<Key>, metaKey: Bytes,
                         sum: Checksum) {
    && Laid(file, blocks, p.handles, sum) && ValidHandles(p.handles)
    && Stored(file, p.filter, p.filterBlock, sum) && ValidHandle(p.filter)
    && Stored(file, p.meta, p.metaBlock, sum) && ValidHandle(p.meta)
    && Stored(file, p.index, p.indexBlock, sum) && ValidHandle(p.index)
    && B.Encodes(p.metaBlock, [B.Entry(metaKey, HandleBytes(p.filter))])
    && |index| == |p.handles| && B.Encodes(p.indexBlock, EncodeIndex(index, p.handles))
    && EndsWith(file, FooterBytes(p.meta, p.index))
  }

  ghost predicate EndsWith(s: Bytes, end: Bytes) {
    |end| <= |s| && s[|s| - |end|..] == end
  }

  /** A finished table: its plan, its filters, and where it all lies. */
  datatype Made = Made(parts: Parts, blocks: seq<DataBlock>, index: seq<Key>, entries: seq<Entry>, bounds: seq<nat>,
                       result: seq<bv8>, offsets: seq<nat>)

  /** The file is that table, written out. */
  ghost predicate IsTable(file: Bytes, m: Made, hash: Bytes -> nat, metaKey: Bytes, sum: Checksum) {
    && InFile(file, m.parts, m.blocks, m.index, metaKey, sum)
    && Finished(m.blocks, m.index, m.entries, m.bounds) && ValidEntries(m.entries) && ValidKeys(m.index)
    && FilterHolds(m.parts.filterBlock, m.blocks, m.result, m.offsets, hash) && |m.result| < TWO32
  }

  lemma LaidStays(start: Bytes, file: Bytes, blocks: seq<DataBlock>, handles: seq<Handle>, sum: Checksum)
    requires start <= file && Laid(start, blocks, handles, sum)
    ensures Laid(file, blocks, handles, sum)
  {
    assert file == start + file[|start|..];
    LaidMore(start, file[|start|..], blocks, handles, sum);
  }

  lemma StoredStays(start: Bytes, file: Bytes, h: Handle, contents: Bytes, sum: Checksum)
    requires start <= file && Stored(start, h, contents, sum)
    ensures Stored(file, h, contents, sum)
  {
    assert file == start + file[|start|..];
    StoredMore(start, file[|start|..], h, contents, sum);
  }

  /** The file with one more block. */
  function WithBlock(file: Bytes, contents: Bytes, sum: Checksum): Bytes { file + contents + Trailer(contents, sum) }

  /** Offsets and sizes are kept in 64 bits. */
  function HandleAt(file: Bytes, contents: Bytes): Handle { Handle(|file| % TWO64, |contents| % TWO64) }

  lemma HandleFits(file: Bytes, contents: Bytes, all: Bytes, sum: Checksum)
    requires WithBlock(file, contents, sum) <= all && |all| < TWO64
    ensures HandleAt(file, contents) == Handle(|file|, |contents|) && ValidHandle(HandleAt(file, contents))
    ensures Stored(all, HandleAt(file, contents), contents, sum) && file <= all
  {
    StoredAtEnd(file, contents, sum);
    StoredStays(WithBlock(file, contents, sum), all, Handle(|file|, |contents|), contents, sum);
    assert |file| + |contents| < TWO64;
    assert all[..|file|] == WithBlock(file, contents, sum)[..|file|] == file;
  }

  /** What the tail of the file is made of. */
  ghost predicate HasTail(start: Bytes, file: Bytes, p: Parts, sum: Checksum) {
    var one := WithBlock(start, p.filterBlock, sum);
    var two := WithBlock(one, p.metaBlock, sum);
    && file == WithBlock(two, p.indexBlock, sum) + FooterBytes(p.meta, p.index)
    && p.filter == HandleAt(start, p.filterBlock) && p.meta == HandleAt(one, p.metaBlock)
    && p.index == HandleAt(two, p.indexBlock)
  }

  lemma TailInFile(start: Bytes, file: Bytes, p: Parts, blocks: seq<DataBlock>, index: seq<Key>, metaKey: Bytes,
                   last: Handle, sum: Checksum)
    requires HasTail(start, file, p, sum) && Written(start, blocks, p.handles, last, sum) && |file| < TWO64
    requires B.Encodes(p.metaBlock, [B.Entry(metaKey, HandleBytes(p.filter))])
    requires |index| == |p.handles| && B.Encodes(p.indexBlock, EncodeIndex(index, p.handles))
    ensures InFile(file, p, blocks, index, metaKey, sum)
  {
    var one := WithBlock(start, p.filterBlock, sum);
    var two := WithBlock(one, p.metaBlock, sum);
    HandleFits(two, p.indexBlock, file, sum);
    HandleFits(one, p.metaBlock, file, sum);
    HandleFits(start, p.filterBlock, file, sum);
    LaidStays(start, file, blocks, p.handles, sum);
    FooterAtEnd(WithBlock(two, p.indexBlock, sum), p.meta, p.index);
  }

  lemma FooterAtEnd(file: Bytes, meta: Handle, index: Handle)
    ensures EndsWith(file + FooterBytes(meta, index), FooterBytes(meta, index))
  {
  }
}
