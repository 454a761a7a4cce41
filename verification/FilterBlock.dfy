/** The filter block of a table: one Bloom filter for every 2 KB of file offset at which data blocks start. */
module FilterBlocks {
  import opened Bloom
  import opened Coding

  const FILTER_BASE_LG: nat := 11
  const FILTER_BASE: nat := 2048

  function FilterIndex(blockOffset: nat): nat { blockOffset / FILTER_BASE }

  /** A key of the data block that starts at `offset`. */
  datatype Added = Added(offset: nat, key: Key)

  /** Where the filter after number `i` starts; after the last one, the end of the filters. */
  function Limit(result: seq<bv8>, offsets: seq<nat>, i: nat): nat {
    if i + 1 < |offsets| then offsets[i + 1] else |result|
  }

  ghost predicate OffsetsOK(result: seq<bv8>, offsets: seq<nat>) {
    forall i :: 0 <= i < |offsets| ==> InPlace(result, offsets, i)
  }

  ghost predicate InPlace(result: seq<bv8>, offsets: seq<nat>, i: nat)
    requires i < |offsets|
  {
    offsets[i] <= Limit(result, offsets, i) <= |result|
  }

  function FilterAt(result: seq<bv8>, offsets: seq<nat>, i: nat): Filter
    requires i < |offsets|
  {
    if offsets[i] <= Limit(result, offsets, i) <= |result| then result[offsets[i]..Limit(result, offsets, i)] else []
  }

  /** KeyMayMatch of the reader: errors and unknown offsets count as possible matches. */
  ghost predicate MayContain(result: seq<bv8>, offsets: seq<nat>, hash: Key -> nat, blockOffset: nat, key: Key) {
    var i := FilterIndex(blockOffset);
    i >= |offsets| ||
    (if offsets[i] <= Limit(result, offsets, i) <= |result| then MayMatch(key, hash, FilterAt(result, offsets, i))
     else offsets[i] != Limit(result, offsets, i))
  }

  // ---- The block as bytes ----

  function ToBytes(bits: seq<bv8>): Bytes {
    seq(|bits|, i requires 0 <= i < |bits| => bits[i] as int)
  }

  function ToBits(s: Bytes): seq<bv8> {
    seq(|s|, i requires 0 <= i < |s| => ToBit8(s[i]))
  }

  function ToBit8(x: int): bv8 {
    if 0 <= x < 256 then x as bv8 else 0
  }

  lemma BitsBack(bits: seq<bv8>)
    ensures ToBits(ToBytes(bits)) == bits
  {
    forall i | 0 <= i < |bits| ensures ToBits(ToBytes(bits))[i] == bits[i] { ByteBack(bits[i]); }
  }

  lemma ByteBack(b: bv8)
    ensures ToBit8(b as int) == b
  {
  }

  /** Where the filters start, and at last where they end. */
  function Words(result: seq<bv8>, offsets: seq<nat>): seq<nat> { offsets + [|result|] }

  /** The filters, their offsets, the end of the filters, and the stretch as a power of two. */
  function FilterBytes(result: seq<bv8>, offsets: seq<nat>): Bytes {
    ToBytes(result) + FixedAll(Words(result, offsets)) + [FILTER_BASE_LG]
  }

  /** The words of a finished block, wherever they are asked for. */
  lemma WordAt(result: seq<bv8>, offsets: seq<nat>, i: nat)
    requires i <= |offsets| && |result| < TWO32 && OffsetsOK(result, offsets)
    ensures var s := FilterBytes(result, offsets);
            |s| == |result| + 4 * |offsets| + 5 && s[|s| - 1] == FILTER_BASE_LG &&
            GetFixed(s[|result| + 4 * i..], 4) == Words(result, offsets)[i]
  {
    var s, words := FilterBytes(result, offsets), Words(result, offsets);
    FixedAllLength(words);
    FixedAllAt(words, i);
    var at := |result| + 4 * i;
    assert s[at..at + 4] == FixedAll(words)[4 * i..4 * i + 4];
    assert i < |offsets| ==> InPlace(result, offsets, i);
    FixedAt(s, at, words[i]);
  }

  datatype FilterBlockReader = FilterBlockReader(contents: Bytes, arrayStart: nat, num: nat, baseLg: nat)

  /** The offsets a reader looks up lie in its contents. */
  predicate InBounds(r: FilterBlockReader) {
    r.num > 0 ==> r.arrayStart + 4 * r.num + 5 <= |r.contents|
  }

  /** A reader of the finished block of these filters. */
  ghost predicate Reads(r: FilterBlockReader, result: seq<bv8>, offsets: seq<nat>) {
    && Contains(r.contents, result, offsets)
    && r == FilterBlockReader(r.contents, |result|, |offsets|, FILTER_BASE_LG)
  }

  ghost predicate Contains(contents: Bytes, result: seq<bv8>, offsets: seq<nat>) {
    |result| < TWO32 && OffsetsOK(result, offsets) && contents == FilterBytes(result, offsets)
  }

  ghost predicate EndsIn(contents: Bytes, arrayStart: nat, num: nat) {
    && |contents| == arrayStart + 4 * num + 5 && contents[|contents| - 1] == FILTER_BASE_LG
    && GetFixed(contents[|contents| - 5..], 4) == arrayStart
  }

  lemma EndsInWords(contents: Bytes, result: seq<bv8>, offsets: seq<nat>)
    requires Contains(contents, result, offsets)
    ensures EndsIn(contents, |result|, |offsets|)
  {
    WordAt(result, offsets, |offsets|);
  }

  method ReadTail(contents: Bytes) returns (r: FilterBlockReader)
    ensures InBounds(r) && r.contents == contents
    ensures forall start, num :: EndsIn(contents, start, num) ==>
              r == FilterBlockReader(contents, start, num, FILTER_BASE_LG)
  {
    var n := |contents|;
    r := FilterBlockReader(contents, 0, 0, 0);
    if n >= 5 {
      var baseLg, lastWord := contents[n - 1] % 256, GetFixed(contents[n - 5..], 4);
      r := r.(baseLg := baseLg);
      if lastWord <= n - 5 {
        r := FilterBlockReader(contents, lastWord, (n - 5 - lastWord) / 4, baseLg);
      }
    }
  }

  /** Opening undoes Finish; contents that are too small or point outside themselves give a reader of no filters. */
  method NewReader(contents: Bytes) returns (r: FilterBlockReader)
    ensures InBounds(r) && r.contents == contents
    ensures forall result, offsets :: Contains(contents, result, offsets) ==> Reads(r, result, offsets)
  {
    r := ReadTail(contents);
    forall result, offsets | Contains(contents, result, offsets) ensures Reads(r, result, offsets) {
      EndsInWords(contents, result, offsets);
    }
  }

  function ShiftRight(x: nat, n: nat): nat {
    if n == 0 then x else ShiftRight(x / 2, n - 1)
  }

  lemma ShiftTwice(x: nat, n: nat)
    requires n >= 2
    ensures ShiftRight(x, n) == ShiftRight(x / 4, n - 2)
  {
    assert ShiftRight(x / 2, n - 1) == ShiftRight(x / 2 / 2, n - 2);
  }

  /** Shifting by eleven bits finds the stretch. */
  lemma ShiftIsFilterIndex(x: nat)
    ensures ShiftRight(x, FILTER_BASE_LG) == FilterIndex(x)
  {
    ShiftTwice(x, 11);
    ShiftTwice(x / 4, 9);
    ShiftTwice(x / 16, 7);
    ShiftTwice(x / 64, 5);
    ShiftTwice(x / 256, 3);
    assert ShiftRight(x / 1024, 1) == ShiftRight(x / 1024 / 2, 0);
  }

  lemma FilterSlice(result: seq<bv8>, rest: Bytes, start: nat, limit: nat)
    requires start <= limit <= |result|
    ensures ToBits((ToBytes(result) + rest)[start..limit]) == result[start..limit]
  {
    assert (ToBytes(result) + rest)[start..limit] == ToBytes(result[start..limit]);
    BitsBack(result[start..limit]);
  }

  /** What the reader finds for a stretch of a finished block. */
  lemma ReadsFilter(r: FilterBlockReader, result: seq<bv8>, offsets: seq<nat>, i: nat)
    requires Reads(r, result, offsets) && i < |offsets|
    ensures r.arrayStart + 4 * i + 8 <= |r.contents|
    ensures GetFixed(r.contents[r.arrayStart + 4 * i..], 4) == offsets[i]
    ensures GetFixed(r.contents[r.arrayStart + 4 * i + 4..], 4) == Limit(result, offsets, i)
    ensures offsets[i] <= Limit(result, offsets, i) <= r.arrayStart
    ensures ToBits(r.contents[offsets[i]..Limit(result, offsets, i)]) == FilterAt(result, offsets, i)
  {
    WordAt(result, offsets, i);
    WordAt(result, offsets, i + 1);
    assert r.arrayStart + 4 * i + 4 == |result| + 4 * (i + 1);
    assert InPlace(result, offsets, i);
    FilterSlice(result, FixedAll(Words(result, offsets)) + [FILTER_BASE_LG], offsets[i], Limit(result, offsets, i));
    assert r.contents == ToBytes(result) + (FixedAll(Words(result, offsets)) + [FILTER_BASE_LG]);
  }

  lemma ReadsInBounds(r: FilterBlockReader, result: seq<bv8>, offsets: seq<nat>)
    requires Reads(r, result, offsets)
    ensures InBounds(r)
  {
    WordAt(result, offsets, |offsets|);
  }

  /** What a reader says of a key when the words of a stretch are `start` and `limit`. */
  ghost predicate Says(contents: Bytes, arrayStart: nat, start: nat, limit: nat, hash: Key -> nat, key: Key)
    requires arrayStart <= |contents|
  {
    if start <= limit <= arrayStart then MayMatch(key, hash, ToBits(contents[start..limit])) else start != limit
  }

  method MatchStretch(contents: Bytes, arrayStart: nat, start: nat, limit: nat, hash: Key -> nat, key: Key)
      returns (may: bool)
    requires arrayStart <= |contents|
    ensures may == Says(contents, arrayStart, start, limit, hash, key)
  {
    if start <= limit && limit <= arrayStart {
      may := KeyMayMatch(key, hash, ToBits(contents[start..limit]));
      return;
    } else if start == limit {
      return false;
    }
    may := true;
  }

  function Word(r: FilterBlockReader, i: nat): nat
    requires InBounds(r) && 0 < r.num && i <= r.num
  {
    GetFixed(r.contents[r.arrayStart + 4 * i..], 4)
  }

  ghost predicate SaysAt(r: FilterBlockReader, i: nat, hash: Key -> nat, key: Key)
    requires InBounds(r)
  {
    i < r.num ==> Says(r.contents, r.arrayStart, Word(r, i), Word(r, i + 1), hash, key)
  }

  lemma WordsOf(r: FilterBlockReader, result: seq<bv8>, offsets: seq<nat>, i: nat)
    requires InBounds(r) && Reads(r, result, offsets) && i < |offsets|
    ensures i < r.num && Word(r, i) == offsets[i] && Word(r, i + 1) == Limit(result, offsets, i)
  {
    ReadsFilter(r, result, offsets, i);
    assert r.arrayStart + 4 * (i + 1) == r.arrayStart + 4 * i + 4;
  }

  lemma FilterSays(r: FilterBlockReader, result: seq<bv8>, offsets: seq<nat>, hash: Key -> nat, i: nat, key: Key)
    requires InBounds(r) && Reads(r, result, offsets) && i < |offsets|
    ensures SaysAt(r, i, hash, key) <==> MayMatch(key, hash, FilterAt(result, offsets, i))
  {
    WordsOf(r, result, offsets, i);
    ReadsFilter(r, result, offsets, i);
  }

  lemma InPlaceContains(result: seq<bv8>, offsets: seq<nat>, hash: Key -> nat, blockOffset: nat, key: Key)
    requires OffsetsOK(result, offsets)
    ensures var i := FilterIndex(blockOffset);
            MayContain(result, offsets, hash, blockOffset, key) <==>
            i >= |offsets| || MayMatch(key, hash, FilterAt(result, offsets, i))
  {
    var i := FilterIndex(blockOffset);
    assert i < |offsets| ==> InPlace(result, offsets, i);
  }

  lemma SaysMayContain(r: FilterBlockReader, result: seq<bv8>, offsets: seq<nat>, hash: Key -> nat, blockOffset: nat,
                       key: Key)
    requires InBounds(r) && Reads(r, result, offsets)
    ensures SaysAt(r, FilterIndex(blockOffset), hash, key) <==> MayContain(result, offsets, hash, blockOffset, key)
  {
    InPlaceContains(result, offsets, hash, blockOffset, key);
    if FilterIndex(blockOffset) < |offsets| {
      FilterSays(r, result, offsets, hash, FilterIndex(blockOffset), key);
    }
  }

  method ReaderKeyMayMatch(r: FilterBlockReader, ghost result: seq<bv8>, ghost offsets: seq<nat>, hash: Key -> nat,
                           blockOffset: nat, key: Key) returns (may: bool)
    requires InBounds(r)
    ensures Reads(r, result, offsets) ==> may == MayContain(result, offsets, hash, blockOffset, key)
  {
    var index := ShiftRight(blockOffset, r.baseLg);
    if Reads(r, result, offsets) {
      SaysMayContain(r, result, offsets, hash, blockOffset, key);
      ShiftIsFilterIndex(blockOffset);
    }
    may := true;
    if index < r.num {
      may := MatchStretch(r.contents, r.arrayStart, Word(r, index), Word(r, index + 1), hash, key);
    }
  }

  /** Each added key is in the filter of its block's stretch, or still waiting for it. */
  ghost predicate Covered(result: seq<bv8>, offsets: seq<nat>, pending: seq<Key>, hash: Key -> nat, a: Added) {
    var i := FilterIndex(a.offset);
    if i < |offsets| then InPlace(result, offsets, i) && MayMatch(a.key, hash, FilterAt(result, offsets, i))
    else i == |offsets| && a.key in pending
  }

  class FilterBlockBuilder {
    const hash: Key -> nat
    const bitsPerKey: nat
    const probes: bv8
    var pending: seq<Key>
    var result: seq<bv8>
    var offsets: seq<nat>
    ghost var added: seq<Added>
    ghost var block: nat          // offset of the block being built

    ghost predicate Valid() reads this {
      && OffsetsOK(result, offsets) && FilterIndex(block) == |offsets|
      && (forall i :: 0 <= i < |added| ==> Covered(result, offsets, pending, hash, added[i]))
    }

    constructor (hash: Key -> nat, bitsPerKey: nat, probes: bv8)
      ensures Valid() && added == [] && block == 0 && this.hash == hash
    {
      this.hash, this.bitsPerKey, this.probes := hash, bitsPerKey, probes;
      pending, result, offsets := [], [], [];
      added, block := [], 0;
    }

    /** Begins the block at this offset, first writing the filters of all earlier stretches. */
    method StartBlock(blockOffset: nat)
      requires Valid() && block <= blockOffset
      modifies this
      ensures Valid() && block == blockOffset && added == old(added)
    {
      var filterIndex := blockOffset / FILTER_BASE;
      while filterIndex > |offsets|
        invariant OffsetsOK(result, offsets) && |offsets| <= filterIndex && added == old(added)
        invariant forall i :: 0 <= i < |added| ==> Covered(result, offsets, pending, hash, added[i])
        decreases filterIndex - |offsets|
      {
        GenerateFilter();
      }
      block := blockOffset;
    }

    method AddKey(key: Key)
      requires Valid()
      modifies this
      ensures Valid() && block == old(block) && added == old(added) + [Added(block, key)]
    {
      ghost var before := pending;
      pending := pending + [key];
      added := added + [Added(block, key)];
      forall i | 0 <= i < |added| ensures Covered(result, offsets, pending, hash, added[i]) {
        if i < |old(added)| { assert Covered(result, offsets, before, hash, old(added)[i]); }
      }
    }

    method GenerateFilter()
      requires OffsetsOK(result, offsets)
      requires forall i :: 0 <= i < |added| ==> Covered(result, offsets, pending, hash, added[i])
      modifies this
      ensures OffsetsOK(result, offsets) && |offsets| == |old(offsets)| + 1 && pending == [] && added == old(added) &&
              block == old(block)
      ensures forall i :: 0 <= i < |added| ==> Covered(result, offsets, pending, hash, added[i])
    {
      var filter: Filter := [];
      if pending != [] {
        filter := CreateFilter(pending, hash, bitsPerKey, probes);
      }
      var result', offsets' := result + filter, offsets + [|result|];
      FilterAppended(result, offsets, filter);
      forall i | 0 <= i < |added| ensures Covered(result', offsets', [], hash, added[i]) {
        StillCovered(result, offsets, pending, hash, added[i], filter);
      }
      result, offsets, pending := result', offsets', [];
    }

    /** Writes the block; a reader of it never misses an added key. */
    method Finish() returns (contents: Bytes)
      requires Valid()
      modifies this
      ensures added == old(added)
      ensures OffsetsOK(result, offsets) && contents == FilterBytes(result, offsets)
      ensures forall i :: 0 <= i < |added| ==> MayContain(result, offsets, hash, added[i].offset, added[i].key)
    {
      if pending != [] { GenerateFilter(); }
      forall i | 0 <= i < |added| ensures MayContain(result, offsets, hash, added[i].offset, added[i].key) {
        assert Covered(result, offsets, pending, hash, added[i]);
      }
      contents := AppendOffsets(result, offsets);
    }
  }

  lemma OneMoreWord(prefix: Bytes, ns: seq<nat>, i: nat)
    requires i < |ns|
    ensures prefix + FixedAll(ns[..i]) + Fixed(ns[i], 4) == prefix + FixedAll(ns[..i + 1])
  {
    assert ns[..i + 1][..i] == ns[..i];
  }

  method AppendOffsets(result: seq<bv8>, offsets: seq<nat>) returns (contents: Bytes)
    ensures contents == FilterBytes(result, offsets)
  {
    contents := ToBytes(result);
    for i := 0 to |offsets|
      invariant contents == ToBytes(result) + FixedAll(offsets[..i])
    {
      OneMoreWord(ToBytes(result), offsets, i);
      contents := contents + Fixed(offsets[i], 4);
    }
    assert Words(result, offsets)[..|offsets|] == offsets[..|offsets|];
    OneMoreWord(ToBytes(result), Words(result, offsets), |offsets|);
    assert Words(result, offsets)[..|offsets| + 1] == Words(result, offsets);
    contents := contents + Fixed(|result|, 4) + [FILTER_BASE_LG];
  }

  lemma FilterAppended(result: seq<bv8>, offsets: seq<nat>, filter: Filter)
    requires OffsetsOK(result, offsets)
    ensures OffsetsOK(result + filter, offsets + [|result|])
    ensures forall i :: 0 <= i < |offsets| ==>
            FilterAt(result + filter, offsets + [|result|], i) == FilterAt(result, offsets, i)
    ensures FilterAt(result + filter, offsets + [|result|], |offsets|) == filter
  {
    var result', offsets' := result + filter, offsets + [|result|];
    forall i | 0 <= i < |offsets'| ensures InPlace(result', offsets', i) {
      if i < |offsets| { assert InPlace(result, offsets, i); }
    }
    forall i | 0 <= i < |offsets| ensures FilterAt(result', offsets', i) == FilterAt(result, offsets, i) {
      assert InPlace(result, offsets, i) && InPlace(result', offsets', i);
    }
    assert InPlace(result', offsets', |offsets|);
  }

  lemma StillCovered(result: seq<bv8>, offsets: seq<nat>, pending: seq<Key>, hash: Key -> nat, a: Added, filter: Filter)
    requires OffsetsOK(result, offsets) && Covered(result, offsets, pending, hash, a)
    requires forall i :: 0 <= i < |pending| ==> MayMatch(pending[i], hash, filter)
    ensures Covered(result + filter, offsets + [|result|], [], hash, a)
  {
    FilterAppended(result, offsets, filter);
    var i := FilterIndex(a.offset);
    assert InPlace(result + filter, offsets + [|result|], i);
  }
}
