/**
 Table blocks: key/value entries that leave out the prefix a key shares with
 the one before, with restart points at entries that leave out nothing.
 */
module Blocks {
  import opened Coding
  import Separators

  datatype Entry = Entry(key: Bytes, value: Bytes)

  /** Lengths read from the head of an entry. */
  datatype Header = Header(shared: nat, nonShared: nat, valueLength: nat)

  // ---- One entry ----

  function EntryBytes(shared: nat, key: Bytes, value: Bytes): Bytes
    requires shared <= |key|
  {
    Varint(shared) + (Varint(|key| - shared) + (Varint(|value|) + (key[shared..] + value)))
  }

  function ReadHeader(s: Bytes): Parsed<Header> {
    var shared := GetVarint32(s);
    if shared.NotParsed? then NotParsed else
    var nonShared := GetVarint32(shared.rest);
    if nonShared.NotParsed? then NotParsed else
    var valueLength := GetVarint32(nonShared.rest);
    if valueLength.NotParsed? then NotParsed else
    Parsed(Header(shared.value, nonShared.value, valueLength.value), valueLength.rest)
  }

  /** What is left of the input starts with the key delta. */
  function ReadEntry(s: Bytes): Parsed<Header> {
    if |s| < 3 then NotParsed else
    var h := ReadHeader(s);
    if h.NotParsed? || |h.rest| < h.value.nonShared + h.value.valueLength then NotParsed else h
  }

  lemma OneByte(s: Bytes)
    requires s != [] && 0 <= s[0] < 128
    ensures GetVarint32(s) == Parsed(s[0], s[1..])
  {
    assert ReadVarint(s, 5) == Parsed(s[0] % 128, s[1..]);
  }

  /** DecodeEntry: the fast path for three one-byte lengths agrees with the general one. */
  method DecodeEntry(s: Bytes) returns (r: Parsed<Header>)
    requires AreBytes(s)
    ensures r == ReadEntry(s)
  {
    if |s| < 3 { return NotParsed; }
    if s[0] < 128 && s[1] < 128 && s[2] < 128 {
      OneByte(s);
      OneByte(s[1..]);
      OneByte(s[1..][1..]);
      assert s[1..][1..][1..] == s[3..] && s[1..][0] == s[1] && s[1..][1..][0] == s[2];
      r := Parsed(Header(s[0], s[1], s[2]), s[3..]);
    } else {
      var shared := GetVarint32Ptr(s);
      if shared.NotParsed? { return NotParsed; }
      var nonShared := GetVarint32Ptr(shared.rest);
      if nonShared.NotParsed? { return NotParsed; }
      var valueLength := GetVarint32Ptr(nonShared.rest);
      if valueLength.NotParsed? { return NotParsed; }
      r := Parsed(Header(shared.value, nonShared.value, valueLength.value), valueLength.rest);
    }
    if |r.rest| < r.value.nonShared + r.value.valueLength { r := NotParsed; }
  }

  predicate Fits(key: Bytes, value: Bytes) {
    |key| < TWO32 && |value| < TWO32
  }

  lemma EntryIsBytes(shared: nat, key: Bytes, value: Bytes)
    requires shared <= |key| && AreBytes(key) && AreBytes(value)
    ensures AreBytes(EntryBytes(shared, key, value))
  {
    VarintIsBytes(shared);
    VarintIsBytes(|key| - shared);
    VarintIsBytes(|value|);
  }

  lemma EntryRoundTrip(shared: nat, key: Bytes, value: Bytes, rest: Bytes)
    requires shared <= |key| && Fits(key, value)
    ensures ReadEntry(EntryBytes(shared, key, value) + rest) ==
            Parsed(Header(shared, |key| - shared, |value|), key[shared..] + value + rest)
    ensures |EntryBytes(shared, key, value)| >= 3
  {
    var tail := key[shared..] + value + rest;
    var c := Varint(|value|) + tail;
    var b := Varint(|key| - shared) + c;
    assert EntryBytes(shared, key, value) + rest == Varint(shared) + b;
    VarintIsBytes(shared);
    VarintIsBytes(|key| - shared);
    VarintIsBytes(|value|);
    Varint32RoundTrip(shared, b);
    Varint32RoundTrip(|key| - shared, c);
    Varint32RoundTrip(|value|, tail);
  }

  // ---- A block ----

  /**
   The entries of a block and how they lie in its data: entry `i` starts at `offs[i]` and leaves out `shared[i]`
   bytes.
   */
  datatype Layout = Layout(entries: seq<Entry>, offs: seq<nat>, shared: seq<nat>, starts: seq<nat>)

  ghost predicate Shape(l: Layout) {
    |l.offs| == |l.entries| + 1 && |l.shared| == |l.entries| && l.offs[0] == 0
  }

  /** Entry `i` is written in its place. */
  ghost predicate Piece(data: Bytes, l: Layout, i: nat)
    requires Shape(l) && i < |l.entries|
  {
    var e, sh := l.entries[i], l.shared[i];
    && l.offs[i] < l.offs[i + 1] <= |data| && sh <= |e.key| && Fits(e.key, e.value)
    && (i == 0 ==> sh == 0)
    && (i > 0 ==> sh <= |l.entries[i - 1].key| && l.entries[i - 1].key[..sh] == e.key[..sh])
    && data[l.offs[i]..l.offs[i + 1]] == EntryBytes(sh, e.key, e.value)
  }

  /** Restart point `j` is the offset of an entry written in full. */
  ghost predicate Start(l: Layout, restarts: seq<nat>, j: nat)
    requires Shape(l) && |restarts| == |l.starts| && j < |l.starts|
  {
    && l.starts[j] < |l.offs| && restarts[j] == l.offs[l.starts[j]]
    && (l.starts[j] < |l.entries| ==> l.shared[l.starts[j]] == 0)
    && (j == 0 ==> l.starts[j] == 0)
    && (j > 0 ==> l.starts[j - 1] < l.starts[j] < |l.entries|)
  }

  ghost predicate Built(data: Bytes, restarts: seq<nat>, l: Layout) {
    && Shape(l) && l.offs[|l.entries|] == |data|
    && (forall i :: 0 <= i < |l.entries| ==> Piece(data, l, i))
    && |restarts| == |l.starts| > 0
    && (forall j :: 0 <= j < |l.starts| ==> Start(l, restarts, j))
  }

  lemma {:induction false} OffsIncrease(data: Bytes, restarts: seq<nat>, l: Layout, i: nat, k: nat)
    requires Built(data, restarts, l) && i <= k <= |l.entries|
    ensures l.offs[i] <= l.offs[k] <= |data| && (i < k ==> l.offs[i] < l.offs[k])
    decreases k - i
  {
    if i < k {
      OffsIncrease(data, restarts, l, i + 1, k);
      assert Piece(data, l, i);
    } else if k < |l.entries| {
      assert Piece(data, l, k);
    }
  }

  /** Offsets order entries. */
  lemma OffsOrder(data: Bytes, restarts: seq<nat>, l: Layout, i: nat, k: nat)
    requires Built(data, restarts, l) && i <= |l.entries| && k <= |l.entries|
    ensures l.offs[i] < l.offs[k] <==> i < k
  {
    if i <= k { OffsIncrease(data, restarts, l, i, k); } else { OffsIncrease(data, restarts, l, k, i); }
  }

  // ---- Building ----

  class BlockBuilder {
    const interval: nat
    var buffer: Bytes
    var restarts: seq<nat>
    var counter: nat
    var lastKey: Bytes
    ghost var layout: Layout

    ghost predicate Valid() reads this {
      && interval >= 1 && counter <= interval
      && Built(buffer, restarts, layout) && AreBytes(buffer)
      && (layout.entries == [] ==> lastKey == [] && counter == 0)
      && (layout.entries != [] ==> lastKey == layout.entries[|layout.entries| - 1].key)
    }

    constructor (interval: nat)
      requires interval >= 1
      ensures Valid() && layout.entries == [] && this.interval == interval && buffer == [] && restarts == [0]
    {
      this.interval := interval;
      buffer, restarts, counter, lastKey := [], [0], 0, [];
      layout := Layout([], [0], [], [0]);
    }

    /** Starts a new block. */
    method Reset()
      requires Valid()
      modifies this
      ensures Valid() && layout.entries == [] && buffer == [] && restarts == [0]
    {
      buffer, restarts, counter, lastKey := [], [0], 0, [];
      layout := Layout([], [0], [], [0]);
    }

    function IsEmpty(): (empty: bool)
      reads this
      requires Valid()
      ensures empty <==> layout.entries == []
      ensures empty ==> restarts == [0]
    {
      assert Start(layout, restarts, 0) && (|restarts| > 1 ==> Start(layout, restarts, 1));
      OffsOrder(buffer, restarts, layout, 0, |layout.entries|);
      buffer == []
    }

    /** The size that the finished block would have. */
    function CurrentSizeEstimate(): (n: nat)
      reads this
      ensures n == |BlockBytes(buffer, restarts)|
    {
      FixedAllLength(restarts);
      |buffer| + 4 * |restarts| + 4
    }

    /** Add: a full key at a restart point, otherwise what it does not share with the last one. */
    method Add(key: Bytes, value: Bytes)
      requires Valid() && Fits(key, value) && AreBytes(key) && AreBytes(value)
      modifies this
      ensures Valid() && layout.entries == old(layout.entries) + [Entry(key, value)]
      ensures restarts == old(restarts) || restarts == old(restarts) + [|old(buffer)|]
    {
      var shared: nat := 0;
      ghost var n := |layout.entries|;
      var restarts', counter' := restarts, counter;
      ghost var starts' := layout.starts;
      if counter < interval {
        var minLength := if |lastKey| < |key| then |lastKey| else |key|;
        while shared < minLength && lastKey[shared] == key[shared]
          invariant shared <= minLength && lastKey[..shared] == key[..shared]
        {
          shared := shared + 1;
        }
      } else {
        restarts', counter' := restarts + [|buffer|], 0;
        starts' := layout.starts + [n];
      }
      var bytes := Varint(shared) + (Varint(|key| - shared) + (Varint(|value|) + (key[shared..] + value)));
      ghost var after := Layout(layout.entries + [Entry(key, value)], layout.offs + [|buffer| + |bytes|],
                                layout.shared + [shared], starts');
      AddKeepsBuilt(buffer, restarts, layout, key, value, shared, counter >= interval, restarts', after);
      EntryIsBytes(shared, key, value);
      lastKey := lastKey[..shared] + key[shared..];
      assert lastKey == key;
      buffer, restarts, counter := buffer + bytes, restarts', counter' + 1;
      layout := after;
    }
  }

  lemma AddKeepsBuilt(data: Bytes, restarts: seq<nat>, l: Layout, key: Bytes, value: Bytes, shared: nat,
                      restart: bool, restarts': seq<nat>, after: Layout)
    requires Built(data, restarts, l) && Fits(key, value) && shared <= |key|
    requires l.entries == [] ==> shared == 0 && !restart
    requires l.entries != [] ==>
               var last := l.entries[|l.entries| - 1].key;
               shared <= |last| && last[..shared] == key[..shared]
    requires restart ==> shared == 0
    requires restarts' == if restart then restarts + [|data|] else restarts
    requires after == Layout(l.entries + [Entry(key, value)], l.offs + [|data| + |EntryBytes(shared, key, value)|],
                             l.shared + [shared],
                             if restart then l.starts + [|l.entries|] else l.starts)
    ensures Built(data + EntryBytes(shared, key, value), restarts', after)
  {
    var bytes := EntryBytes(shared, key, value);
    var data' := data + bytes;
    EntryRoundTrip(shared, key, value, []);
    forall i | 0 <= i < |after.entries| ensures Piece(data', after, i) {
      if i < |l.entries| {
        assert Piece(data, l, i);
        assert after.offs[i + 1] == l.offs[i + 1];
        assert data'[l.offs[i]..l.offs[i + 1]] == data[l.offs[i]..l.offs[i + 1]];
      } else {
        assert after.offs[i] == |data|;
        assert data'[|data|..|data'|] == bytes;
      }
    }
    forall j | 0 <= j < |after.starts| ensures Start(after, restarts', j) {
      if j < |l.starts| {
        assert Start(l, restarts, j);
      } else {
        assert Start(l, restarts, j - 1);
      }
    }
  }

  // ---- Reading ----

  /** What DecodeEntry finds at entry `i`. */
  lemma EntryAt(data: Bytes, restarts: seq<nat>, l: Layout, i: nat)
    requires Built(data, restarts, l) && i < |l.entries|
    ensures l.offs[i] < l.offs[i + 1] <= |data|
    ensures var e, sh, r := l.entries[i], l.shared[i], ReadEntry(data[l.offs[i]..]);
      && sh <= |e.key| && r.Parsed? && r.value == Header(sh, |e.key| - sh, |e.value|)
      && |r.rest| == |data| - l.offs[i + 1] + (|e.key| - sh) + |e.value|
      && r.rest[..|e.key| - sh] == e.key[sh..] && data[l.offs[i + 1] - |e.value|..l.offs[i + 1]] == e.value
      && |e.value| <= l.offs[i + 1]
  {
    assert Piece(data, l, i);
    var e, sh := l.entries[i], l.shared[i];
    var rest := data[l.offs[i + 1]..];
    assert data[l.offs[i]..] == EntryBytes(sh, e.key, e.value) + rest;
    EntryRoundTrip(sh, e.key, e.value, rest);
    EndsWithValue(data, l.offs[i], l.offs[i + 1], sh, e.key, e.value);
  }

  lemma EndsWithValue(data: Bytes, from: nat, to: nat, sh: nat, key: Bytes, value: Bytes)
    requires from <= to <= |data| && sh <= |key| && data[from..to] == EntryBytes(sh, key, value)
    ensures |value| <= to && data[to - |value|..to] == value
  {
    var head := Varint(sh) + Varint(|key| - sh) + Varint(|value|) + key[sh..];
    assert EntryBytes(sh, key, value) == head + value;
    assert data[from..to][|head|..] == value;
    assert data[to - |value|..to] == data[from..to][|head|..];
  }

  /** Position `i` lies in the stretch that restart index `r` stands for. */
  ghost predicate InStretch(l: Layout, restarts: seq<nat>, r: nat, i: nat) {
    r < |l.starts| && l.starts[r] <= i && (r + 1 < |l.starts| ==> i <= l.starts[r + 1])
  }

  /** The key kept so far is good for parsing entry `i`. */
  ghost predicate KeyReady(l: Layout, key: Bytes, i: nat)
    requires Shape(l)
  {
    i < |l.entries| ==> l.shared[i] == 0 || (i > 0 && key == l.entries[i - 1].key)
  }

  /** A comparator: whether the first key comes before the second. */
  type Comparator = (Bytes, Bytes) -> bool

  ghost predicate Transitive(less: Comparator) {
    forall a, b, c :: less(a, b) && less(b, c) ==> less(a, c)
  }

  function Bytewise(): Comparator {
    (a, b) => Separators.Less(a, b)
  }

  /** The bytewise comparator is one. */
  lemma BytewiseIsTransitive()
    ensures Transitive(Bytewise())
  {
    forall a, b, c | Bytewise()(a, b) && Bytewise()(b, c) ensures Bytewise()(a, c) {
      Separators.LessTransitive(a, b, c);
    }
  }

  ghost predicate Ordered(l: Layout, less: Comparator) {
    Transitive(less) && forall i, j :: 0 <= i < j < |l.entries| ==> less(l.entries[i].key, l.entries[j].key)
  }

  lemma StartsWithin(data: Bytes, restarts: seq<nat>, l: Layout, j: nat)
    requires Built(data, restarts, l) && j < |restarts|
    ensures l.starts[j] <= |l.entries| && restarts[j] == l.offs[l.starts[j]] && (l.starts[j] < |l.entries| || j == 0)
    ensures l.starts[j] < |l.entries| ==> l.shared[l.starts[j]] == 0
  {
    assert Start(l, restarts, j);
  }

  lemma {:induction false} StartsIncrease(data: Bytes, restarts: seq<nat>, l: Layout, j: nat, k: nat)
    requires Built(data, restarts, l) && j < k < |restarts|
    ensures l.starts[j] < l.starts[k] < |l.entries|
  {
    assert Start(l, restarts, k);
    if j + 1 < k { StartsIncrease(data, restarts, l, j, k - 1); }
  }

  // ---- The restart array ----

  /** The bytes of a finished block. */
  function BlockBytes(data: Bytes, restarts: seq<nat>): Bytes {
    data + FixedAll(restarts) + Fixed(|restarts|, 4)
  }

  method Finish(buffer: Bytes, restarts: seq<nat>) returns (contents: Bytes)
    ensures contents == BlockBytes(buffer, restarts)
  {
    contents := buffer;
    for i := 0 to |restarts|
      invariant contents == buffer + FixedAll(restarts[..i])
    {
      contents := contents + Fixed(restarts[i], 4);
      assert restarts[..i + 1][..i] == restarts[..i];
    }
    assert restarts[..|restarts|] == restarts;
    contents := contents + Fixed(|restarts|, 4);
  }

  /** The entries come first, and after them restart point `j` is found at the place of the `j`th word. */
  ghost predicate Trailed(contents: Bytes, data: Bytes, restarts: seq<nat>) {
    && |contents| == |data| + 4 * |restarts| + 4 && contents[..|data|] == data
    && forall j :: 0 <= j < |restarts| ==> GetFixed(contents[|data| + 4 * j..], 4) == restarts[j]
  }

  /** Every number of a finished block fits a word. */
  ghost predicate InWords(restarts: seq<nat>) {
    |restarts| < TWO32 && forall j :: 0 <= j < |restarts| ==> restarts[j] < TWO32
  }

  lemma FinishedIsTrailed(data: Bytes, restarts: seq<nat>)
    requires InWords(restarts)
    ensures Trailed(BlockBytes(data, restarts), data, restarts)
    ensures var contents := BlockBytes(data, restarts); GetFixed(contents[|contents| - 4..], 4) == |restarts|
  {
    var contents := BlockBytes(data, restarts);
    FixedAllLength(restarts);
    assert contents[|contents| - 4..|contents|] == Fixed(|restarts|, 4);
    FixedAt(contents, |contents| - 4, |restarts|);
    forall j | 0 <= j < |restarts| ensures GetFixed(contents[|data| + 4 * j..], 4) == restarts[j] {
      FixedAllAt(restarts, j);
      assert contents[|data| + 4 * j..|data| + 4 * j + 4] == FixedAll(restarts)[4 * j..4 * j + 4];
      FixedAt(contents, |data| + 4 * j, restarts[j]);
    }
  }

  datatype Opened = BadContents | Opened(restartOffset: nat, numRestarts: nat)

  /** Block's constructor undoes Finish: it finds where the entries end and how many restart points follow. */
  method Open(contents: Bytes) returns (r: Opened)
    ensures forall data, restarts :: InWords(restarts) && contents == BlockBytes(data, restarts) ==>
              r == Opened(|data|, |restarts|)
    ensures r.Opened? ==> r.restartOffset + 4 * r.numRestarts + 4 == |contents|
  {
    forall data, restarts | InWords(restarts) && contents == BlockBytes(data, restarts)
      ensures |contents| == |data| + 4 * |restarts| + 4 && GetFixed(contents[|contents| - 4..], 4) == |restarts|
    {
      FinishedIsTrailed(data, restarts);
    }
    if |contents| < 4 { return BadContents; }
    var n := GetFixed(contents[|contents| - 4..], 4);
    var allowed := (|contents| - 4) / 4;
    r := if n > allowed then BadContents else Opened(|contents| - 4 * (n + 1), n);
  }

  /** Restart points of a built block are offsets in it. */
  lemma BuiltInWords(data: Bytes, restarts: seq<nat>, l: Layout)
    requires Built(data, restarts, l) && |data| < TWO32 && |restarts| < TWO32
    ensures InWords(restarts)
  {
    forall j | 0 <= j < |restarts| ensures restarts[j] < TWO32 {
      assert Start(l, restarts, j);
      OffsIncrease(data, restarts, l, l.starts[j], |l.entries|);
    }
  }

  ghost predicate Encoded(contents: Bytes, data: Bytes, restarts: seq<nat>, l: Layout) {
    Built(data, restarts, l) && AreBytes(data) && InWords(restarts) && contents == BlockBytes(data, restarts)
  }

  /** The contents of a finished block with these entries. */
  ghost predicate Encodes(contents: Bytes, es: seq<Entry>) {
    exists data, restarts, l :: Encoded(contents, data, restarts, l) && l.entries == es
  }

  /** Finish on a builder, whose restart points fit a word. */
  method FinishBlock(b: BlockBuilder) returns (contents: Bytes)
    requires b.Valid()
    ensures contents == BlockBytes(b.buffer, b.restarts)
    ensures InWords(b.restarts) ==> Encodes(contents, b.layout.entries)
    ensures |contents| < TWO32 ==> InWords(b.restarts)
  {
    contents := Finish(b.buffer, b.restarts);
    assert InWords(b.restarts) ==> Encoded(contents, b.buffer, b.restarts, b.layout);
    FixedAllLength(b.restarts);
    if |contents| < TWO32 { BuiltInWords(b.buffer, b.restarts, b.layout); }
  }

  /** Block::NewIterator on the contents of a finished block: an iterator over exactly the entries added. */
  method NewIterator(contents: Bytes, ghost es: seq<Entry>, less: Comparator) returns (it: Iter)
    requires Encodes(contents, es)
    ensures fresh(it) && it.Valid() && it.layout.entries == es && it.less == less && it.pos == |es|
  {
    ghost var data, restarts, l :| Encoded(contents, data, restarts, l) && l.entries == es;
    var r := Open(contents);
    FinishedIsTrailed(data, restarts);
    it := new Iter(contents, r.restartOffset, r.numRestarts, less, restarts, l);
  }

  class Iter {
    const contents: Bytes        // the entries and after them the restart array
    const restartOffset: nat
    const numRestarts: nat
    const data: Bytes            // the entries
    const less: Comparator
    var current: nat
    var restartIndex: nat
    var key: Bytes
    var valueStart: nat
    var valueEnd: nat
    ghost const restarts: seq<nat>
    ghost const layout: Layout
    ghost var pos: nat           // index of the entry the iterator is at

    ghost predicate Ready() reads this {
      && Built(data, restarts, layout) && AreBytes(data) && Trailed(contents, data, restarts)
      && restartOffset == |data| && numRestarts == |restarts|
    }

    function GetRestartPoint(index: nat): (offset: nat)
      reads this
      requires Ready() && index < numRestarts
      ensures offset == restarts[index]
    {
      GetFixed(contents[restartOffset + 4 * index..], 4)
    }

    ghost predicate At(i: nat) reads this {
      && Ready() && i < |layout.entries| && current == layout.offs[i] < |data|
      && key == layout.entries[i].key && valueStart <= valueEnd == layout.offs[i + 1] <= |data|
      && data[valueStart..valueEnd] == layout.entries[i].value
      && InStretch(layout, restarts, restartIndex, i)
    }

    /** At the entry with index `pos`, or past the last one. */
    ghost predicate Valid() reads this {
      Ready() && if pos < |layout.entries| then At(pos) else pos == |layout.entries| && current == |data|
    }

    /** Whether the iterator is at an entry. */
    function IsValid(): (valid: bool)
      reads this
      requires Valid()
      ensures valid <==> pos < |layout.entries|
    {
      current < restartOffset
    }

    function Value(): (v: Bytes)
      reads this
      requires Valid() && pos < |layout.entries|
      ensures v == layout.entries[pos].value
    {
      data[valueStart..valueEnd]
    }

    constructor (contents: Bytes, restartOffset: nat, numRestarts: nat, less: Comparator,
                 ghost restarts: seq<nat>, ghost layout: Layout)
      requires restartOffset <= |contents| && numRestarts == |restarts|
      requires Built(contents[..restartOffset], restarts, layout) && AreBytes(contents[..restartOffset])
      requires Trailed(contents, contents[..restartOffset], restarts)
      ensures Valid() && pos == |layout.entries| && this.less == less && this.layout == layout
    {
      this.contents, this.restartOffset, this.numRestarts := contents, restartOffset, numRestarts;
      this.data, this.less := contents[..restartOffset], less;
      this.restarts, this.layout := restarts, layout;
      current, restartIndex, key, valueStart, valueEnd := restartOffset, numRestarts, [], 0, 0;
      pos := |layout.entries|;
    }

    method SeekToRestartPoint(index: nat)
      requires Ready() && index < |restarts|
      modifies this
      ensures Ready() && restartIndex == index && layout.starts[index] <= |layout.entries|
      ensures valueEnd == layout.offs[layout.starts[index]] && KeyReady(layout, key, layout.starts[index])
      ensures InStretch(layout, restarts, index, layout.starts[index])
    {
      StartsWithin(data, restarts, layout, index);
      if index + 1 < |restarts| { StartsIncrease(data, restarts, layout, index, index + 1); }
      key := [];
      restartIndex := index;
      valueStart, valueEnd := GetRestartPoint(index), GetRestartPoint(index);
    }

    /** Moves to entry `i`, whose offset is the end of the last value. */
    method ParseNextKey(ghost i: nat) returns (ok: bool)
      requires Ready() && i <= |layout.entries| && valueEnd == layout.offs[i] && KeyReady(layout, key, i)
      requires restartIndex < |restarts| && layout.starts[restartIndex] <= i
      modifies this
      ensures Valid() && pos == i && ok == (i < |layout.entries|)
    {
      current := valueEnd;
      pos := i;
      OffsOrder(data, restarts, layout, i, |layout.entries|);
      if current >= |data| {
        current, restartIndex := restartOffset, numRestarts;
        return false;
      }
      key, valueStart, valueEnd := TakeEntry(data, restarts, layout, i, current, key);
      AdvanceRestart(i);
      ok := true;
    }

    method AdvanceRestart(ghost i: nat)
      requires Ready() && i < |layout.entries| && current == layout.offs[i]
      requires restartIndex < |restarts| && layout.starts[restartIndex] <= i
      modifies this`restartIndex
      ensures InStretch(layout, restarts, restartIndex, i)
    {
      while restartIndex + 1 < numRestarts && GetRestartPoint(restartIndex + 1) < current
        invariant restartIndex < |restarts| && layout.starts[restartIndex] <= i
        decreases |restarts| - restartIndex
      {
        StartsWithin(data, restarts, layout, restartIndex + 1);
        OffsOrder(data, restarts, layout, layout.starts[restartIndex + 1], i);
        restartIndex := restartIndex + 1;
      }
      if restartIndex + 1 < |restarts| {
        StartsWithin(data, restarts, layout, restartIndex + 1);
        OffsOrder(data, restarts, layout, layout.starts[restartIndex + 1], i);
      }
    }

    method Next()
      requires Valid() && pos < |layout.entries|
      modifies this
      ensures Valid() && pos == old(pos) + 1
    {
      NextKeyReady(data, restarts, layout, pos);
      var _ := ParseNextKey(pos + 1);
    }

    /** Parses on from entry `from` until the end of an entry reaches `limit`, the offset of entry `to`. */
    method ScanTo(ghost from: nat, ghost to: nat, limit: nat)
      requires Ready() && from <= to <= |layout.entries| && limit == layout.offs[to] &&
               (from < to || to == |layout.entries|)
      requires valueEnd == layout.offs[from] && KeyReady(layout, key, from)
      requires restartIndex < |restarts| && layout.starts[restartIndex] <= from
      modifies this
      ensures Valid() && pos == if from < to then to - 1 else |layout.entries|
    {
      var ok := ParseNextKey(from);
      if ok { OffsOrder(data, restarts, layout, pos + 1, to); }
      while ok && valueEnd < limit
        invariant Valid() && from <= pos <= to && ok == (from < to) &&
                  (ok ==> pos < to && (valueEnd < limit <==> pos + 1 < to))
        decreases (to as int) - (pos as int)
      {
        NextKeyReady(data, restarts, layout, pos);
        ok := ParseNextKey(pos + 1);
        OffsOrder(data, restarts, layout, pos + 1, to);
      }
    }

    /** Prev undoes Next; before the first entry the iterator becomes invalid. */
    method Prev()
      requires Valid() && pos < |layout.entries|
      modifies this
      ensures Valid() && pos == if old(pos) > 0 then old(pos) - 1 else |layout.entries|
    {
      var original := current;
      ghost var to := pos;
      while GetRestartPoint(restartIndex) >= original
        invariant Ready() && restartIndex < |restarts| && to == old(pos) < |layout.entries| &&
                  original == layout.offs[to]
        decreases restartIndex
      {
        StartsWithin(data, restarts, layout, restartIndex);
        OffsOrder(data, restarts, layout, layout.starts[restartIndex], to);
        if restartIndex == 0 {
          assert Start(layout, restarts, 0);
          current, restartIndex := restartOffset, numRestarts;
          pos := |layout.entries|;
          return;
        }
        restartIndex := restartIndex - 1;
      }
      StartsWithin(data, restarts, layout, restartIndex);
      OffsOrder(data, restarts, layout, layout.starts[restartIndex], to);
      SeekToRestartPoint(restartIndex);
      ScanTo(layout.starts[restartIndex], to, original);
    }

    method SeekToFirst()
      requires Ready()
      modifies this
      ensures Valid() && pos == 0
    {
      assert Start(layout, restarts, 0);
      SeekToRestartPoint(0);
      var _ := ParseNextKey(0);
    }

    method SeekToLast()
      requires Ready()
      modifies this
      ensures Valid() && pos == if layout.entries == [] then 0 else |layout.entries| - 1
    {
      var last := numRestarts - 1;
      StartsWithin(data, restarts, layout, last);
      assert Start(layout, restarts, 0);
      SeekToRestartPoint(last);
      ScanTo(layout.starts[last], |layout.entries|, |data|);
    }

    /** The restart point from which to scan: every entry before it is smaller than the target. */
    method FindRestart(target: Bytes) returns (left: nat)
      requires Ready() && Ordered(layout, less)
      ensures left < |restarts|
      ensures layout.starts[left] <= |layout.entries|
      ensures forall i :: 0 <= i < layout.starts[left] ==> less(layout.entries[i].key, target)
    {
      left := 0;
      var right := numRestarts - 1;
      assert Start(layout, restarts, 0);
      while left < right
        invariant 0 <= left <= right < |restarts| && layout.starts[left] <= |layout.entries|
        invariant forall i :: 0 <= i < layout.starts[left] ==> less(layout.entries[i].key, target)
      {
        var mid := (left + right + 1) / 2;
        StartsIncrease(data, restarts, layout, left, mid);
        StartsWithin(data, restarts, layout, mid);
        var midKey := RestartKey(mid);
        if less(midKey, target) {
          left := mid;
        } else {
          right := mid - 1;
        }
      }
    }

    /** The key at a restart point, read without the one before. */
    method RestartKey(mid: nat) returns (midKey: Bytes)
      requires Ready() && mid < |restarts| && layout.starts[mid] < |layout.entries|
      ensures midKey == layout.entries[layout.starts[mid]].key
    {
      ghost var i := layout.starts[mid];
      StartsWithin(data, restarts, layout, mid);
      EntryAt(data, restarts, layout, i);
      assert AreBytes(data[GetRestartPoint(mid)..]);
      var r := DecodeEntry(data[GetRestartPoint(mid)..]);
      midKey := r.rest[..r.value.nonShared];
      assert layout.entries[i].key[0..] == layout.entries[i].key;
    }

    /** Binary search over the restart points, then a scan: lands on the first key at or after the target. */
    method Seek(target: Bytes)
      requires Ready() && Ordered(layout, less)
      modifies this
      ensures Valid() && forall i :: 0 <= i < pos ==> less(layout.entries[i].key, target)
      ensures pos < |layout.entries| ==> !less(layout.entries[pos].key, target)
    {
      var left := FindRestart(target);
      SeekToRestartPoint(left);
      var ok := ParseNextKey(layout.starts[left]);
      ScanFor(target, ok);
    }

    /** Goes on to the first key at or after the target. */
    method ScanFor(target: Bytes, found: bool)
      requires Valid() && found == (pos < |layout.entries|)
      requires forall i :: 0 <= i < pos ==> less(layout.entries[i].key, target)
      modifies this
      ensures Valid() && forall i :: 0 <= i < pos ==> less(layout.entries[i].key, target)
      ensures pos < |layout.entries| ==> !less(layout.entries[pos].key, target)
    {
      var ok := found;
      while ok && less(key, target)
        invariant Valid() && ok == (pos < |layout.entries|)
        invariant forall i :: 0 <= i < pos ==> less(layout.entries[i].key, target)
        decreases |layout.entries| - pos
      {
        NextKeyReady(data, restarts, layout, pos);
        ok := ParseNextKey(pos + 1);
      }
    }
  }

  lemma NextKeyReady(data: Bytes, restarts: seq<nat>, l: Layout, i: nat)
    requires Built(data, restarts, l) && i < |l.entries|
    ensures KeyReady(l, l.entries[i].key, i + 1)
  {
  }

  lemma KeyRebuilt(data: Bytes, restarts: seq<nat>, l: Layout, i: nat, key: Bytes)
    requires Built(data, restarts, l) && i < |l.entries| && KeyReady(l, key, i)
    ensures var e, sh := l.entries[i], l.shared[i]; sh <= |key| && sh <= |e.key| && key[..sh] + e.key[sh..] == e.key
  {
    assert Piece(data, l, i);
    var e, sh := l.entries[i], l.shared[i];
    if sh > 0 { assert key[..sh] == e.key[..sh]; }
    assert e.key[..sh] + e.key[sh..] == e.key;
  }

  /** Decodes entry `i` at its offset: the key from the one before, and where the value lies. */
  method TakeEntry(data: Bytes, ghost restarts: seq<nat>, ghost l: Layout, ghost i: nat, current: nat, key: Bytes)
    returns (key': Bytes, valueStart: nat, valueEnd: nat)
    requires Built(data, restarts, l) && AreBytes(data) && i < |l.entries| && KeyReady(l, key, i) &&
             current == l.offs[i] < |data|
    ensures key' == l.entries[i].key && valueStart <= valueEnd == l.offs[i + 1] <= |data|
    ensures data[valueStart..valueEnd] == l.entries[i].value
  {
    EntryAt(data, restarts, l, i);
    KeyRebuilt(data, restarts, l, i, key);
    assert AreBytes(data[current..]);
    var r := DecodeEntry(data[current..]);
    var h := r.value;
    key' := key[..h.shared] + r.rest[..h.nonShared];
    valueStart := |data| - |r.rest| + h.nonShared;
    valueEnd := valueStart + h.valueLength;
  }
}
