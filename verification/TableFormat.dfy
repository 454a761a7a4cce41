/**
 Parts of a table file: encoded internal keys, block handles, blocks with
 their trailers, and the footer.
 */
module TableFormat {
  import opened Options
  import opened Coding
  import opened Separators
  import B = Blocks

  const TRAILER: nat := 5
  const FOOTER: nat := 48
  const MAGIC_LOW: nat := 0x8b80_fb57
  const MAGIC_HIGH: nat := 0xdb47_7524

  /** The masked checksum of a block and its type byte. */
  type Checksum = Bytes -> nat

  // ---- Internal keys ----

  function KeyBytes(k: Key): Bytes { k.user + Fixed(k.tag, 8) }

  function ParseKey(s: Bytes): Key {
    if |s| < 8 then Key(s, 0) else Key(s[..|s| - 8], GetFixed(s[|s| - 8..], 8))
  }

  predicate ValidKey(k: Key) {
    AreBytes(k.user) && k.tag < TWO64 && |k.user| + 8 < TWO32
  }

  lemma KeyRoundTrip(k: Key)
    requires k.tag < TWO64
    ensures ParseKey(KeyBytes(k)) == k
  {
    var s := KeyBytes(k);
    assert s[..|s| - 8] == k.user && s[|s| - 8..] == Fixed(k.tag, 8) + [];
    Power256Eight();
    FixedRoundTrip(k.tag, 8, []);
  }

  lemma KeyIsBytes(k: Key)
    requires AreBytes(k.user)
    ensures AreBytes(KeyBytes(k))
  {
    FixedIsBytes(k.tag, 8);
  }

  /** InternalKeyComparator on encoded keys, with the bytewise order on user keys. */
  function InternalLess(): B.Comparator {
    (a, b) => KeyLess(ParseKey(a), ParseKey(b))
  }

  lemma InternalIsTransitive()
    ensures B.Transitive(InternalLess())
  {
    forall a, b, c | InternalLess()(a, b) && InternalLess()(b, c) ensures InternalLess()(a, c) {
      KeyTransitive(ParseKey(a), ParseKey(b), ParseKey(c));
    }
  }

  // ---- Handles ----

  /** Where a block lies in the file, without its trailer. */
  datatype Handle = Handle(offset: nat, size: nat)

  function HandleBytes(h: Handle): Bytes { Varint(h.offset) + Varint(h.size) }

  function GetHandle(s: Bytes): Parsed<Handle> {
    var offset := GetVarint64(s);
    if offset.NotParsed? then NotParsed else
    var size := GetVarint64(offset.rest);
    if size.NotParsed? then NotParsed else Parsed(Handle(offset.value, size.value), size.rest)
  }

  predicate ValidHandle(h: Handle) { h.offset < TWO64 && h.size < TWO64 }

  lemma HandleRoundTrip(h: Handle, rest: Bytes)
    requires ValidHandle(h)
    ensures GetHandle(HandleBytes(h) + rest) == Parsed(h, rest) && AreBytes(HandleBytes(h)) && |HandleBytes(h)| <= 20
  {
    assert HandleBytes(h) + rest == Varint(h.offset) + (Varint(h.size) + rest);
    Varint64RoundTrip(h.offset, Varint(h.size) + rest);
    Varint64RoundTrip(h.size, rest);
    VarintIsBytes(h.offset);
    VarintIsBytes(h.size);
    Varint64Short(h.offset);
    Varint64Short(h.size);
  }

  // ---- Footer ----

  function Zeros(n: nat): Bytes { seq(n, _ => 0) }

  /** Both handles, padded, and the magic number. */
  function FooterBytes(meta: Handle, index: Handle): (s: Bytes)
    ensures |s| == FOOTER
  {
    (HandleBytes(meta) + HandleBytes(index) + Zeros(FOOTER - 8))[..FOOTER - 8] + Fixed(MAGIC_LOW, 4) +
    Fixed(MAGIC_HIGH, 4)
  }

  function DecodeFooter(s: Bytes): Result<(Handle, Handle)>
    requires |s| == FOOTER
  {
    if GetFixed(s[FOOTER - 8..], 4) != MAGIC_LOW || GetFixed(s[FOOTER - 4..], 4) != MAGIC_HIGH then
      Corruption("not an sstable (bad magic number)")
    else
      var meta := GetHandle(s);
      if meta.NotParsed? then Corruption("bad block handle") else
      var index := GetHandle(meta.rest);
      if index.NotParsed? then Corruption("bad block handle") else Ok((meta.value, index.value))
  }

  lemma FooterRoundTrip(meta: Handle, index: Handle)
    requires ValidHandle(meta) && ValidHandle(index)
    ensures DecodeFooter(FooterBytes(meta, index)) == Ok((meta, index))
  {
    HandleRoundTrip(meta, []);
    HandleRoundTrip(index, []);
    var handles := HandleBytes(meta) + HandleBytes(index);
    var n := FOOTER - 8 - |handles|;
    assert (handles + Zeros(FOOTER - 8))[..FOOTER - 8] == handles + Zeros(n);
    var s, magic := FooterBytes(meta, index), Fixed(MAGIC_LOW, 4) + Fixed(MAGIC_HIGH, 4);
    assert s == HandleBytes(meta) + (HandleBytes(index) + (Zeros(n) + magic));
    HandleRoundTrip(meta, HandleBytes(index) + (Zeros(n) + magic));
    HandleRoundTrip(index, Zeros(n) + magic);
    assert s[FOOTER - 8..FOOTER - 4] == Fixed(MAGIC_LOW, 4) && s[FOOTER - 4..FOOTER] == Fixed(MAGIC_HIGH, 4);
    FixedAt(s, FOOTER - 8, MAGIC_LOW);
    FixedAt(s, FOOTER - 4, MAGIC_HIGH);
  }

  // ---- Blocks in the file ----

  /** No compression, and the checksum of the contents with this type. */
  function Trailer(contents: Bytes, sum: Checksum): (t: Bytes)
    ensures |t| == TRAILER
  {
    [0] + Fixed(sum(contents + [0]) % TWO32, 4)
  }

  /** The block stands at this place of the file, with its trailer behind it. */
  ghost predicate Stored(file: Bytes, h: Handle, contents: Bytes, sum: Checksum) {
    && h.size == |contents| && h.offset + h.size + TRAILER <= |file|
    && file[h.offset..h.offset + h.size + TRAILER] == contents + Trailer(contents, sum)
  }

  /** ReadBlock; compressed blocks are not read. */
  function ReadBlock(file: Bytes, h: Handle, verify: bool, sum: Checksum): Result<Bytes> {
    var n := h.size;
    if h.offset + n + TRAILER > |file| then Corruption("truncated block read") else
    var data := file[h.offset..h.offset + n + TRAILER];
    if verify && GetFixed(data[n + 1..], 4) != sum(data[..n + 1]) % TWO32 then Corruption("block checksum mismatch")
    else if data[n] != 0 then Corruption("bad block type")
    else Ok(data[..n])
  }

  /** A stored block is read back, with or without a check of its checksum. */
  lemma StoredIsRead(file: Bytes, h: Handle, contents: Bytes, verify: bool, sum: Checksum)
    requires Stored(file, h, contents, sum)
    ensures ReadBlock(file, h, verify, sum) == Ok(contents)
  {
    var n, data := h.size, contents + Trailer(contents, sum);
    assert data[n] == 0 && data[..n] == contents && data[..n + 1] == contents + [0];
    assert data[n + 1..n + 5] == Fixed(sum(contents + [0]) % TWO32, 4);
    FixedAt(data, n + 1, sum(contents + [0]) % TWO32);
  }

  /** Nothing that is appended disturbs it. */
  lemma StoredMore(file: Bytes, more: Bytes, h: Handle, contents: Bytes, sum: Checksum)
    requires Stored(file, h, contents, sum)
    ensures Stored(file + more, h, contents, sum)
  {
    var end := h.offset + h.size + TRAILER;
    assert (file + more)[h.offset..end] == file[h.offset..end];
  }

  lemma StoredAtEnd(file: Bytes, contents: Bytes, sum: Checksum)
    ensures Stored(file + contents + Trailer(contents, sum), Handle(|file|, |contents|), contents, sum)
  {
    var all := file + contents + Trailer(contents, sum);
    assert all == file + (contents + Trailer(contents, sum));
    assert all[|file|..|file| + |contents| + TRAILER] == contents + Trailer(contents, sum);
  }
}
