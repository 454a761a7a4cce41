/** Variable-length integers and length-prefixed strings. A byte is an int from 0 to 255. */
module Coding {

  type Bytes = seq<int>

  const TWO32: nat := 0x1_0000_0000
  const TWO64: nat := 0x1_0000_0000_0000_0000

  /** What was read and what is left of the input, or failure. */
  datatype Parsed<+T> = NotParsed | Parsed(value: T, rest: Bytes)

  predicate AreBytes(s: Bytes) {
    forall i :: 0 <= i < |s| ==> 0 <= s[i] < 256
  }

  // ---- Writing ----

  /** Seven bits a byte, low bits first, high bit set on all but the last byte. */
  function Varint(v: nat): Bytes {
    if v < 128 then [v] else [v % 128 + 128] + Varint(v / 128)
  }

  lemma {:induction false} VarintIsBytes(v: nat)
    ensures AreBytes(Varint(v)) && |Varint(v)| >= 1
  {
    if v >= 128 { VarintIsBytes(v / 128); }
  }

  method EncodeVarint64(v: nat) returns (dst: Bytes)
    ensures dst == Varint(v)
  {
    dst := [];
    var left: nat := v;
    while left >= 128
      invariant dst + Varint(left) == Varint(v)
    {
      assert Varint(left) == [left % 128 + 128] + Varint(left / 128);
      dst := dst + [left % 128 + 128];
      left := left / 128;
    }
    dst := dst + [left];
  }

  /** The unrolled form for 32-bit values; a byte keeps the low eight bits of what is stored in it. */
  function EncodeVarint32(v: nat): Bytes {
    if v < 0x80 then [v]
    else if v < 0x4000 then [v % 128 + 128, v / 0x80]
    else if v < 0x20_0000 then [v % 128 + 128, v / 0x80 % 128 + 128, v / 0x4000]
    else if v < 0x1000_0000 then [v % 128 + 128, v / 0x80 % 128 + 128, v / 0x4000 % 128 + 128, v / 0x20_0000]
    else [v % 128 + 128, v / 0x80 % 128 + 128, v / 0x4000 % 128 + 128, v / 0x20_0000 % 128 + 128, v / 0x1000_0000 % 256]
  }

  lemma Varint32IsVarint(v: nat)
    requires v < TWO32
    ensures EncodeVarint32(v) == Varint(v) && |Varint(v)| <= 5
  {
    var a := v / 0x80;
    var b := v / 0x4000;
    if v >= 0x80 {
      assert Varint(v) == [v % 128 + 128] + Varint(a);
      if v >= 0x4000 {
        assert b == a / 128 && Varint(a) == [a % 128 + 128] + Varint(b);
        VarintTail(v, b);
      }
    }
  }

  lemma VarintTail(v: nat, b: nat)
    requires v < TWO32 && b == v / 0x4000
    ensures Varint(b) ==
      if b < 0x80 then [b]
      else if b < 0x4000 then [b % 128 + 128, v / 0x20_0000]
      else [b % 128 + 128, v / 0x20_0000 % 128 + 128, v / 0x1000_0000 % 256]
  {
    var c, d := v / 0x20_0000, v / 0x1000_0000;
    if b >= 0x80 {
      assert c == b / 128 && Varint(b) == [b % 128 + 128] + Varint(c);
      if b >= 0x4000 {
        assert d == c / 128 && d < 128 && Varint(c) == [c % 128 + 128] + Varint(d);
        assert Varint(d) == [d];
      }
    }
  }

  function LengthPrefixed(s: Bytes): Bytes {
    Varint(|s|) + s
  }

  // ---- Reading ----

  /** Reads at most `most` bytes; the value is not yet cut to a machine word. */
  function ReadVarint(s: Bytes, most: nat): (r: Parsed<nat>)
    ensures r.Parsed? ==> |r.rest| < |s|
    decreases |s|
  {
    if most == 0 || s == [] then
      NotParsed
    else if s[0] < 128 then
      Parsed(s[0] % 128, s[1..])
    else
      var r := ReadVarint(s[1..], most - 1);
      if r.NotParsed? then NotParsed else Parsed(s[0] % 128 + 128 * r.value, r.rest)
  }

  /** The value modulo the word size. */
  function Cut(v: nat, word: nat): nat
    requires word > 0
  {
    if v < word then v else v % word
  }

  /** A varint cut to a machine word. */
  function GetWord(s: Bytes, most: nat, word: nat): (r: Parsed<nat>)
    requires word > 0
    ensures r.Parsed? ==> |r.rest| < |s|
  {
    var r := ReadVarint(s, most);
    if r.NotParsed? then NotParsed else Parsed(Cut(r.value, word), r.rest)
  }

  function GetVarint32(s: Bytes): (r: Parsed<nat>)
    ensures r.Parsed? ==> |r.rest| < |s|
  {
    GetWord(s, 5, TWO32)
  }

  function GetVarint64(s: Bytes): (r: Parsed<nat>)
    ensures r.Parsed? ==> |r.rest| < |s|
  {
    GetWord(s, 10, TWO64)
  }

  function GetLengthPrefixed(s: Bytes): (r: Parsed<Bytes>)
    ensures r.Parsed? ==> |r.rest| < |s|
  {
    var n := GetVarint32(s);
    if n.NotParsed? || |n.rest| < n.value then NotParsed else Parsed(n.rest[..n.value], n.rest[n.value..])
  }

  /** The decoding loop: `scale` is 2 to the power of the shift; the fields of a byte never overlap, so OR adds them. */
  method GetVarintPtr(s: Bytes, most: nat) returns (r: Parsed<nat>)
    ensures r == ReadVarint(s, most)
  {
    var p, result, scale, left := s, 0, 1, most;
    while left > 0 && p != []
      invariant result >= 0 && scale >= 1 && left >= 0
      invariant ReadVarint(s, most) == Shifted(result, scale, ReadVarint(p, left))
      decreases left
    {
      var byte := p[0];
      p := p[1..];
      if byte < 128 {
        return Parsed(result + byte % 128 * scale, p);
      }
      ShiftedMore(result, scale, byte % 128, ReadVarint(p, left - 1));
      result := result + byte % 128 * scale;
      scale, left := scale * 128, left - 1;
    }
    r := NotParsed;
  }

  ghost function Shifted(result: nat, scale: nat, r: Parsed<nat>): Parsed<nat> {
    if r.NotParsed? then NotParsed else Parsed(result + r.value * scale, r.rest)
  }

  lemma ShiftedMore(result: nat, scale: nat, low: nat, r: Parsed<nat>)
    ensures r.Parsed? ==>
            Shifted(result, scale, Parsed(low + 128 * r.value, r.rest)) == Shifted(result + low * scale, scale * 128, r)
  {
    if r.Parsed? {
      assert (low + 128 * r.value) * scale == low * scale + r.value * (scale * 128);
    }
  }

  /** The fast path for one-byte values agrees with the loop. */
  method GetVarint32Ptr(s: Bytes) returns (r: Parsed<nat>)
    ensures r == GetVarint32(s)
  {
    if s != [] && s[0] < 128 {
      return Parsed(s[0] % 128, s[1..]);
    }
    r := GetVarintPtr(s, 5);
    if r.Parsed? { r := Parsed(Cut(r.value, TWO32), r.rest); }
  }

  // ---- Round trips ----

  lemma {:induction false} VarintRoundTrip(v: nat, rest: Bytes, most: nat)
    requires |Varint(v)| <= most
    ensures ReadVarint(Varint(v) + rest, most) == Parsed(v, rest)
  {
    var s := Varint(v) + rest;
    if v < 128 {
      assert s[1..] == rest;
    } else {
      VarintRoundTrip(v / 128, rest, most - 1);
      assert s[1..] == Varint(v / 128) + rest;
    }
  }

  /** `n` bytes hold 7n bits. */
  lemma {:induction false} VarintLength(v: nat, n: nat, limit: nat)
    requires n >= 1 && v < limit && limit == Power128(n)
    ensures |Varint(v)| <= n
  {
    if v >= 128 { VarintLength(v / 128, n - 1, Power128(n - 1)); }
  }

  function Power128(n: nat): nat {
    if n == 0 then 1 else 128 * Power128(n - 1)
  }

  lemma WordRoundTrip(v: nat, rest: Bytes, most: nat, word: nat)
    requires |Varint(v)| <= most && v < word
    ensures GetWord(Varint(v) + rest, most, word) == Parsed(v, rest)
  {
    VarintRoundTrip(v, rest, most);
  }

  lemma Varint32RoundTrip(v: nat, rest: Bytes)
    requires v < TWO32
    ensures GetVarint32(Varint(v) + rest) == Parsed(v, rest)
  {
    assert |Varint(v)| <= 5 by { Varint32IsVarint(v); }
    WordRoundTrip(v, rest, 5, TWO32);
  }

  lemma Varint64Short(v: nat)
    requires v < TWO64
    ensures |Varint(v)| <= 10
  {
    var five := Power128(5);
    assert five == 128 * 128 * 128 * 128 * 128;
    VarintLength(v, 10, Power128(10));
  }

  lemma Varint64RoundTrip(v: nat, rest: Bytes)
    requires v < TWO64
    ensures GetVarint64(Varint(v) + rest) == Parsed(v, rest)
  {
    Varint64Short(v);
    WordRoundTrip(v, rest, 10, TWO64);
  }

  lemma LengthPrefixedRoundTrip(s: Bytes, rest: Bytes)
    requires |s| < TWO32
    ensures GetLengthPrefixed(LengthPrefixed(s) + rest) == Parsed(s, rest)
  {
    assert LengthPrefixed(s) + rest == Varint(|s|) + (s + rest);
    Varint32RoundTrip(|s|, s + rest);
    assert (s + rest)[..|s|] == s && (s + rest)[|s|..] == rest;
  }

  // ---- Fixed-width integers, low byte first ----

  function Fixed(v: nat, width: nat): (s: Bytes)
    ensures |s| == width
  {
    if width == 0 then [] else [v % 256] + Fixed(v / 256, width - 1)
  }

  function GetFixed(s: Bytes, width: nat): nat
    requires width <= |s|
  {
    if width == 0 then 0 else s[0] % 256 + 256 * GetFixed(s[1..], width - 1)
  }

  function Power256(n: nat): nat {
    if n == 0 then 1 else 256 * Power256(n - 1)
  }

  lemma {:induction false} FixedRoundTrip(v: nat, width: nat, rest: Bytes)
    requires v < Power256(width)
    ensures GetFixed(Fixed(v, width) + rest, width) == v
  {
    if width > 0 {
      var s := Fixed(v, width) + rest;
      FixedRoundTrip(v / 256, width - 1, rest);
      assert s[1..] == Fixed(v / 256, width - 1) + rest;
      assert s[0] == v % 256;
    }
  }

  lemma Power256Four()
    ensures Power256(4) == TWO32
  {
    assert Power256(2) == 65536;
  }

  lemma Power256Eight()
    ensures Power256(8) == TWO64
  {
    assert Power256(4) == TWO32 by { Power256Four(); }
    assert Power256(6) == TWO32 * 65536;
  }

  lemma {:induction false} FixedIsBytes(v: nat, width: nat)
    ensures AreBytes(Fixed(v, width))
  {
    if width > 0 { FixedIsBytes(v / 256, width - 1); }
  }

  /** Words one after the other, four bytes each. */
  function FixedAll(ns: seq<nat>): Bytes {
    if ns == [] then [] else FixedAll(ns[..|ns| - 1]) + Fixed(ns[|ns| - 1], 4)
  }

  lemma {:induction false} FixedAllLength(ns: seq<nat>)
    ensures |FixedAll(ns)| == 4 * |ns|
  {
    if ns != [] { FixedAllLength(ns[..|ns| - 1]); }
  }

  lemma {:induction false} FixedAllAt(ns: seq<nat>, j: nat)
    requires j < |ns|
    ensures 4 * j + 4 <= |FixedAll(ns)| && FixedAll(ns)[4 * j..4 * j + 4] == Fixed(ns[j], 4)
  {
    var init := ns[..|ns| - 1];
    FixedAllLength(init);
    if j < |init| {
      FixedAllAt(init, j);
      assert FixedAll(ns)[4 * j..4 * j + 4] == FixedAll(init)[4 * j..4 * j + 4];
    } else {
      assert FixedAll(ns)[4 * j..4 * j + 4] == Fixed(ns[j], 4);
    }
  }

  /** The word at an offset. */
  lemma FixedAt(s: Bytes, at: nat, v: nat)
    requires at + 4 <= |s| && s[at..at + 4] == Fixed(v, 4) && v < TWO32
    ensures GetFixed(s[at..], 4) == v
  {
    assert s[at..] == Fixed(v, 4) + s[at + 4..];
    Power256Four();
    FixedRoundTrip(v, 4, s[at + 4..]);
  }
}
