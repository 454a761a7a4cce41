/**
 Reading table files: opening one by its footer, and looking a key up by way of
 index block, filter and one data block, all read from the bytes of the file.
 */
module TableReads {
  import opened Options
  import opened Coding
  import opened Separators
  import opened FilterBlocks
  import opened TableFormat
  import opened Tables
  import opened TableFiles
  import B = Blocks

  /** An open table; without a filter every key may be there. */
  datatype Table = Table(file: Bytes, indexBlock: Bytes, filter: Option<FilterBlockReader>)

  // ---- Opening ----

  /** The place of the metaindex block, and the index block. */
  function OpenIndex(file: Bytes, paranoid: bool, sum: Checksum): Result<(Handle, Bytes)> {
    if |file| < FOOTER then Corruption("file is too short to be an sstable") else
    var footer := DecodeFooter(file[|file| - FOOTER..]);
    if footer.Corruption? then Corruption(footer.message) else
    var contents := ReadBlock(file, footer.value.1, paranoid, sum);
    if contents.Corruption? then Corruption(contents.message) else Ok((footer.value.0, contents.value))
  }

  lemma OpenIndexOf(file: Bytes, m: Made, hash: Bytes -> nat, metaKey: Bytes, paranoid: bool, sum: Checksum)
    requires IsTable(file, m, hash, metaKey, sum)
    ensures OpenIndex(file, paranoid, sum) == Ok((m.parts.meta, m.parts.indexBlock))
  {
    var p := m.parts;
    FooterRoundTrip(p.meta, p.index);
    StoredIsRead(file, p.index, p.indexBlock, paranoid, sum);
  }

  /** What an open table has at hand. */
  ghost predicate Opened(t: Table, m: Made) {
    t.indexBlock == m.parts.indexBlock && t.filter.Some? && Reads(t.filter.value, m.result, m.offsets)
  }

  /** Table::Open, on any file that is too short or has a bad footer or index block, and on any finished table. */
  method Open(file: Bytes, paranoid: bool, metaKey: Bytes, sum: Checksum, ghost m: Made, ghost hash: Bytes -> nat)
    returns (r: Result<Table>)
    requires OpenIndex(file, paranoid, sum).Ok? ==> IsTable(file, m, hash, metaKey, sum)
    ensures OpenIndex(file, paranoid, sum).Corruption? ==>
              r == Corruption(OpenIndex(file, paranoid, sum).message)
    ensures OpenIndex(file, paranoid, sum).Ok? ==> r.Ok? && r.value.file == file && Opened(r.value, m)
  {
    var head := OpenIndex(file, paranoid, sum);
    if head.Corruption? { return Corruption(head.message); }
    OpenIndexOf(file, m, hash, metaKey, paranoid, sum);
    var filter := ReadMeta(file, head.value.0, paranoid, metaKey, sum, m);
    r := Ok(Table(file, head.value.1, filter));
  }

  /** ReadMeta: the metaindex block leads to the filter; without one, or with damage, there is no filter. */
  method ReadMeta(file: Bytes, meta: Handle, paranoid: bool, metaKey: Bytes, sum: Checksum, ghost m: Made)
    returns (filter: Option<FilterBlockReader>)
    requires var p := m.parts;
      && Stored(file, meta, p.metaBlock, sum) && Stored(file, p.filter, p.filterBlock, sum)
      && B.Encodes(p.metaBlock, [B.Entry(metaKey, HandleBytes(p.filter))]) && ValidHandle(p.filter)
      && Contains(p.filterBlock, m.result, m.offsets)
    ensures filter.Some? && Reads(filter.value, m.result, m.offsets)
  {
    filter := None;
    StoredIsRead(file, meta, m.parts.metaBlock, paranoid, sum);
    var contents := ReadBlock(file, meta, paranoid, sum);
    if contents.Corruption? { return; }
    var found := SeekMeta(contents.value, metaKey, HandleBytes(m.parts.filter));
    if found.Some? { filter := ReadFilter(file, found.value, paranoid, sum, m); }
  }

  /** ReadFilter: the filter block at the place that the metaindex block gives. */
  method ReadFilter(file: Bytes, value: Bytes, paranoid: bool, sum: Checksum, ghost m: Made)
    returns (filter: Option<FilterBlockReader>)
    requires value == HandleBytes(m.parts.filter) && ValidHandle(m.parts.filter)
    requires Stored(file, m.parts.filter, m.parts.filterBlock, sum)
    requires Contains(m.parts.filterBlock, m.result, m.offsets)
    ensures filter.Some? && Reads(filter.value, m.result, m.offsets)
  {
    HandleAlone(m.parts.filter);
    var h := GetHandle(value);
    if h.NotParsed? { return None; }
    StoredIsRead(file, h.value, m.parts.filterBlock, paranoid, sum);
    var block := ReadBlock(file, h.value, paranoid, sum);
    if block.Corruption? { return None; }
    var reader := NewReader(block.value);
    filter := Some(reader);
  }

  lemma HandleAlone(h: Handle)
    requires ValidHandle(h)
    ensures GetHandle(HandleBytes(h)) == Parsed(h, [])
  {
    HandleRoundTrip(h, []);
    assert HandleBytes(h) + [] == HandleBytes(h);
  }

  /** Looks the filter's name up in the metaindex block. */
  method SeekMeta(contents: Bytes, metaKey: Bytes, ghost value: Bytes) returns (found: Option<Bytes>)
    requires B.Encodes(contents, [B.Entry(metaKey, value)])
    ensures found == Some(value)
  {
    ghost var es := [B.Entry(metaKey, value)];
    var iter := B.NewIterator(contents, es, B.Bytewise());
    B.BytewiseIsTransitive();
    LessIrreflexive(metaKey);
    iter.Seek(metaKey);
    assert !B.Bytewise()(iter.layout.entries[0].key, metaKey);
    assert iter.pos == 0;
    found := None;
    if iter.IsValid() && iter.key == metaKey { found := Some(iter.Value()); }
  }

  // ---- Looking up ----

  lemma EncodedOrder(a: Key, b: Key)
    requires ValidKey(a) && ValidKey(b)
    ensures InternalLess()(KeyBytes(a), KeyBytes(b)) <==> KeyLess(a, b)
  {
    KeyRoundTrip(a);
    KeyRoundTrip(b);
  }

  lemma BlockOrdered(es: seq<Entry>, l: B.Layout)
    requires Sorted(es) && ValidEntries(es) && l.entries == Encode(es)
    ensures B.Ordered(l, InternalLess())
  {
    InternalIsTransitive();
    forall i, j | 0 <= i < j < |es| ensures InternalLess()(l.entries[i].key, l.entries[j].key) {
      EncodedOrder(es[i].key, es[j].key);
    }
  }

  /** Seek in a data block: what a search of its entries finds. */
  method SeekBlock(contents: Bytes, k: Key, ghost es: seq<Entry>) returns (r: Option<Entry>)
    requires B.Encodes(contents, Encode(es)) && Sorted(es) && ValidEntries(es) && ValidKey(k)
    ensures r == FlatGet(es, k)
  {
    var iter := B.NewIterator(contents, Encode(es), InternalLess());
    BlockOrdered(es, iter.layout);
    iter.Seek(KeyBytes(k));
    ghost var p := iter.pos;
    forall i | 0 <= i < p ensures KeyLess(es[i].key, k) {
      assert iter.less(iter.layout.entries[i].key, KeyBytes(k));
      EncodedOrder(es[i].key, k);
    }
    if p < |es| { EncodedOrder(es[p].key, k); }
    SeekIs(es, k, p);
    r := None;
    if iter.IsValid() {
      KeyRoundTrip(es[p].key);
      var found := ParseKey(iter.key);
      if found.user == k.user { r := Some(Entry(found, iter.Value())); }
    }
  }

  lemma IndexOrdered(m: Made, l: B.Layout)
    requires Finished(m.blocks, m.index, m.entries, m.bounds) && ValidKeys(m.index)
    requires |m.index| <= |m.parts.handles| && l.entries == EncodeIndex(m.index, m.parts.handles)
    ensures B.Ordered(l, InternalLess())
  {
    InternalIsTransitive();
    forall i, j | 0 <= i < j < |m.index| ensures InternalLess()(l.entries[i].key, l.entries[j].key) {
      IndexIncreases(m.blocks, m.index, m.entries, m.bounds, i, j);
      EncodedOrder(m.index[i], m.index[j]);
    }
  }

  /** Seek in the index block: the value of the first key at or after `k`. */
  method SeekIndex(contents: Bytes, k: Key, ghost m: Made) returns (found: Option<Bytes>, ghost b: nat)
    requires |m.index| <= |m.parts.handles| && B.Encodes(contents, EncodeIndex(m.index, m.parts.handles))
    requires Finished(m.blocks, m.index, m.entries, m.bounds) && ValidKeys(m.index) && ValidKey(k)
    ensures b <= |m.index| && forall i :: 0 <= i < b ==> KeyLess(m.index[i], k)
    ensures b < |m.index| ==> !KeyLess(m.index[b], k) && found == Some(HandleBytes(m.parts.handles[b]))
    ensures b == |m.index| ==> found == None
  {
    var iter := B.NewIterator(contents, EncodeIndex(m.index, m.parts.handles), InternalLess());
    IndexOrdered(m, iter.layout);
    iter.Seek(KeyBytes(k));
    b := iter.pos;
    forall i | 0 <= i < b ensures KeyLess(m.index[i], k) {
      assert iter.less(iter.layout.entries[i].key, KeyBytes(k));
      EncodedOrder(m.index[i], k);
    }
    if b < |m.index| { EncodedOrder(m.index[b], k); }
    found := None;
    if iter.IsValid() { found := Some(iter.Value()); }
  }

  /** InternalGet, with the saver's check of the user key: in any finished table file it finds what is there. */
  method InternalGet(t: Table, k: Key, verify: bool, hash: Bytes -> nat, sum: Checksum, ghost m: Made,
                     ghost metaKey: Bytes)
    returns (r: Option<Entry>)
    requires IsTable(t.file, m, hash, metaKey, sum) && Opened(t, m) && ValidKey(k)
    ensures r == FlatGet(m.entries, k)
  {
    r := None;
    var found;
    ghost var b;
    found, b := SeekIndex(t.indexBlock, k, m);
    if found.None? {
      BeyondAll(m.blocks, m.index, m.entries, m.bounds, k);
      return;
    }
    HandleAlone(m.parts.handles[b]);
    var h := GetHandle(found.value);
    FoundInBlock(m.blocks, m.index, m.entries, m.bounds, k, b);
    if h.Parsed? {
      var may := MayHold(t, h.value.offset, k, hash, m);
      if !may {
        FilteredOut(t.file, m, hash, metaKey, sum, b, k);
        return;
      }
    }
    r := ReadAndSeek(t, h, k, verify, sum, m, b);
  }

  /** What the filter says no to is not in the block. */
  lemma FilteredOut(file: Bytes, m: Made, hash: Bytes -> nat, metaKey: Bytes, sum: Checksum, b: nat, k: Key)
    requires IsTable(file, m, hash, metaKey, sum) && b < |m.blocks|
    requires !MayContain(m.result, m.offsets, hash, m.parts.handles[b].offset, k.user)
    ensures FlatGet(m.blocks[b].entries, k) == None
  {
    assert LaidAt(file, m.blocks[b], m.parts.handles[b], sum);
    NotFiltered(m.blocks, m.result, m.offsets, hash, b, k);
  }

  method MayHold(t: Table, offset: nat, k: Key, hash: Bytes -> nat, ghost m: Made) returns (may: bool)
    requires Opened(t, m)
    ensures may == MayContain(m.result, m.offsets, hash, offset, k.user)
  {
    ReadsInBounds(t.filter.value, m.result, m.offsets);
    may := ReaderKeyMayMatch(t.filter.value, m.result, m.offsets, hash, offset, k.user);
  }

  /** BlockReader on the handle from the index, and a seek in the block. */
  method ReadAndSeek(t: Table, h: Parsed<Handle>, k: Key, verify: bool, sum: Checksum, ghost m: Made, ghost b: nat)
    returns (r: Option<Entry>)
    requires Laid(t.file, m.blocks, m.parts.handles, sum) && b < |m.blocks|
    requires h.Parsed? && h.value == m.parts.handles[b]
    requires CutInto(m.blocks, m.entries, m.bounds) && Sorted(m.entries) && ValidEntries(m.entries) && ValidKey(k)
    ensures r == FlatGet(m.blocks[b].entries, k)
  {
    assert LaidAt(t.file, m.blocks[b], m.parts.handles[b], sum);
    ghost var stored :| Stored(t.file, h.value, stored, sum) && B.Encodes(stored, Encode(m.blocks[b].entries));
    StoredIsRead(t.file, h.value, stored, verify, sum);
    InBlock(m.blocks, m.entries, m.bounds, b);
    var contents := ReadBlock(t.file, h.value, verify, sum);
    r := SeekBlock(contents.value, k, m.blocks[b].entries);
  }
}
