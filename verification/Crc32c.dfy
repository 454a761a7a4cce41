/**
 CRC32C (section 12.1 of RFC 3720): the table-driven loops that take 16, 4 or
 1 byte at a time against the definition that divides bit by bit. A word is
 the set of its one bits, so that exclusive or is symmetric difference; a table
 maps a byte to the remainder it leaves after one to four zero bytes.
 */
module Crc32c {

  type Word = set<nat>
  type Remainder = Word -> Word

  function Xor(a: Word, b: Word): Word { (a - b) + (b - a) }
  function Shr(a: Word, k: nat): Word { set i | i in a && i >= k :: i - k }
  function Shl(a: Word, k: nat): Word { set i | i in a :: i + k }
  function Low8(a: Word): Word { set i | i in a && i < 8 }

  predicate IsByte(a: Word) { forall i :: i in a ==> i < 8 }

  /** The polynomial with its bits reversed: 0x82f63b78. */
  const POLY: Word := {31, 25, 23, 22, 21, 20, 18, 17, 13, 12, 11, 9, 8, 6, 5, 4, 3}

  /** 0xffffffff */
  const FLIP: Word := set i: nat | i < 32

  /** One bit of the division. */
  function Bit(poly: Word, l: Word): Word {
    Xor(Shr(l, 1), if 0 in l then poly else {})
  }

  function Bits(poly: Word, l: Word, n: nat): Word {
    if n == 0 then l else Bit(poly, Bits(poly, l, n - 1))
  }

  /** One zero byte: eight bits. */
  function Zero(l: Word): Word {
    Bits(POLY, l, 8)
  }

  /** The contribution of the bytes by the definition, for a remainder function. */
  function Fold(zero: Remainder, l: Word, bytes: seq<Word>): Word {
    if bytes == [] then l else zero(Xor(Fold(zero, l, bytes[..|bytes| - 1]), bytes[|bytes| - 1]))
  }

  /** The checksum of data with checksum `crc` followed by `bytes`. */
  function Checksum(crc: Word, bytes: seq<Word>): Word {
    Xor(Fold(Zero, Xor(crc, FLIP), bytes), FLIP)
  }

  // ---- Tables ----

  /**
   Looking up the low byte in table 0 and shifting the rest; also how each further table follows from the one
   before.
   */
  function Lookup(zero: Remainder, t: Word): Word {
    Xor(zero(Low8(t)), Shr(t, 8))
  }

  function Table1(zero: Remainder, i: Word): Word { Lookup(zero, zero(i)) }
  function Table2(zero: Remainder, i: Word): Word { Lookup(zero, Table1(zero, i)) }
  function Table3(zero: Remainder, i: Word): Word { Lookup(zero, Table2(zero, i)) }

  function Step1(zero: Remainder, l: Word, b: Word): Word {
    Xor(zero(Xor(Low8(l), b)), Shr(l, 8))
  }

  /** Four bytes, low one first. */
  function Load32(a: Word, b: Word, c: Word, d: Word): Word {
    Xor(Xor(Xor(a, Shl(b, 8)), Shl(c, 16)), Shl(d, 24))
  }

  function Step4(zero: Remainder, l: Word, word: Word): Word {
    var c := Xor(l, word);
    Xor(Xor(Xor(Table3(zero, Low8(c)), Table2(zero, Low8(Shr(c, 8)))), Table1(zero, Low8(Shr(c, 16)))),
        zero(Shr(c, 24)))
  }

  // ---- Exclusive or and shifts ----

  lemma XorAssoc(a: Word, b: Word, c: Word)
    ensures Xor(Xor(a, b), c) == Xor(a, Xor(b, c))
  {
  }

  lemma ShrXor(a: Word, b: Word, k: nat)
    ensures Shr(Xor(a, b), k) == Xor(Shr(a, k), Shr(b, k))
  {
    forall i: nat ensures i in Shr(Xor(a, b), k) <==> i in Xor(Shr(a, k), Shr(b, k)) {
      ShrHas(Xor(a, b), k, i);
      ShrHas(a, k, i);
      ShrHas(b, k, i);
    }
  }

  lemma ShrHas(a: Word, k: nat, i: nat)
    ensures i in Shr(a, k) <==> i + k in a
  {
    if i + k in a { assert i == (i + k) - k; }
  }

  lemma ShlHas(a: Word, k: nat, i: nat)
    ensures i in Shl(a, k) <==> i >= k && i - k in a
  {
    if i >= k && i - k in a { var j: nat := i - k; assert j in a && i == j + k; }
  }

  lemma ShrShr(a: Word, j: nat, k: nat)
    ensures Shr(Shr(a, j), k) == Shr(a, j + k)
  {
    forall i: nat ensures i in Shr(Shr(a, j), k) <==> i in Shr(a, j + k) {
      ShrHas(Shr(a, j), k, i);
      ShrHas(a, j, i + k);
      ShrHas(a, j + k, i);
    }
  }

  lemma ShrShl(a: Word, j: nat, k: nat)
    requires k <= j
    ensures Shr(Shl(a, j), k) == Shl(a, j - k)
  {
    forall i: nat ensures i in Shr(Shl(a, j), k) <==> i in Shl(a, j - k) {
      ShrHas(Shl(a, j), k, i);
      ShlHas(a, j, i + k);
      ShlHas(a, j - k, i);
    }
  }

  // ---- The bitwise definition is linear ----

  lemma BitLinear(poly: Word, a: Word, b: Word)
    ensures Bit(poly, Xor(a, b)) == Xor(Bit(poly, a), Bit(poly, b))
  {
    ShrXor(a, b, 1);
  }

  lemma {:induction false} BitsLinear(poly: Word, a: Word, b: Word, n: nat)
    ensures Bits(poly, Xor(a, b), n) == Xor(Bits(poly, a, n), Bits(poly, b, n))
  {
    if n > 0 {
      BitsLinear(poly, a, b, n - 1);
      BitLinear(poly, Bits(poly, a, n - 1), Bits(poly, b, n - 1));
    }
  }

  lemma {:induction false} BitsShift(poly: Word, x: Word, n: nat)
    requires forall i :: i in x ==> i >= n
    ensures Bits(poly, x, n) == Shr(x, n)
  {
    if n > 0 {
      BitsShift(poly, x, n - 1);
      ShrHas(x, n - 1, 0);
      ShrShr(x, n - 1, 1);
      assert Xor(Shr(x, n), {}) == Shr(x, n);
    } else {
      assert Shr(x, 0) == x by { forall i: nat ensures i in Shr(x, 0) <==> i in x { ShrHas(x, 0, i); } }
    }
  }

  ghost predicate LinearAt(f: Remainder, a: Word, b: Word) {
    f(Xor(a, b)) == Xor(f(a), f(b))
  }

  ghost predicate ShiftsAt(f: Remainder, x: Word) {
    (forall i :: i in x ==> i >= 8) ==> f(x) == Shr(x, 8)
  }

  /** Linear, and eight low zero bits are just shifted out. */
  ghost predicate IsRemainder(f: Remainder) {
    (forall a, b :: LinearAt(f, a, b)) && (forall x :: ShiftsAt(f, x))
  }

  lemma ZeroIsRemainder()
    ensures IsRemainder(Zero)
  {
    forall a, b ensures LinearAt(Zero, a, b) { BitsLinear(POLY, a, b, 8); }
    forall x ensures ShiftsAt(Zero, x) {
      if forall i :: i in x ==> i >= 8 { BitsShift(POLY, x, 8); }
    }
  }

  // ---- One byte, four bytes ----

  lemma LookupIs(zero: Remainder, t: Word)
    requires IsRemainder(zero)
    ensures Lookup(zero, t) == zero(t)
  {
    var high := t - Low8(t);
    assert Xor(Low8(t), high) == t;
    assert LinearAt(zero, Low8(t), high);
    assert ShiftsAt(zero, high);
    forall i: nat ensures i in Shr(high, 8) <==> i in Shr(t, 8) { ShrHas(high, 8, i); ShrHas(t, 8, i); }
    assert Shr(high, 8) == Shr(t, 8);
  }

  /** One table step is one byte of the definition. */
  lemma Step1Is(zero: Remainder, l: Word, b: Word)
    requires IsRemainder(zero) && IsByte(b)
    ensures Step1(zero, l, b) == zero(Xor(l, b))
  {
    LookupIs(zero, Xor(l, b));
    assert Low8(Xor(l, b)) == Xor(Low8(l), b);
    forall i: nat ensures i in Shr(Xor(l, b), 8) <==> i in Shr(l, 8) { ShrHas(Xor(l, b), 8, i); ShrHas(l, 8, i); }
    assert Shr(Xor(l, b), 8) == Shr(l, 8);
  }

  /** Division by two bytes, written with the tables. */
  lemma NextZero(zero: Remainder, t: Word, c: Word, k: nat)
    requires IsRemainder(zero)
    ensures zero(Xor(t, Shr(c, k))) == Xor(Lookup(zero, t), Xor(zero(Low8(Shr(c, k))), Shr(c, k + 8)))
  {
    assert LinearAt(zero, t, Shr(c, k));
    LookupIs(zero, t);
    LookupIs(zero, Shr(c, k));
    ShrShr(c, k, 8);
  }

  lemma XorMove(a: Word, b: Word, c: Word, d: Word)
    ensures Xor(Xor(a, b), Xor(c, d)) == Xor(Xor(Xor(a, b), c), d)
  {
    XorAssoc(Xor(a, b), c, d);
  }

  /** Division by four bytes is one step through the four tables. */
  lemma FourZeros(zero: Remainder, c: Word)
    requires IsRemainder(zero)
    ensures zero(zero(zero(zero(c)))) ==
      Xor(Xor(Xor(Table3(zero, Low8(c)), Table2(zero, Low8(Shr(c, 8)))), Table1(zero, Low8(Shr(c, 16)))),
          zero(Shr(c, 24)))
  {
    var c0, c1, c2 := Low8(c), Low8(Shr(c, 8)), Low8(Shr(c, 16));
    var t0, t1, t2 := zero(c0), Table1(zero, c0), Table2(zero, c0);
    var u0, u1 := zero(c1), Table1(zero, c1);
    var v0 := zero(c2);
    LookupIs(zero, c);
    var z1 := Xor(t0, Shr(c, 8));
    NextZero(zero, t0, c, 8);
    var z2 := Xor(Xor(t1, u0), Shr(c, 16));
    XorAssoc(t1, u0, Shr(c, 16));
    assert zero(z1) == z2;
    LookupTwo(zero, t1, u0);
    NextZero(zero, Xor(t1, u0), c, 16);
    var z3 := Xor(Xor(Xor(t2, u1), v0), Shr(c, 24));
    XorMove(t2, u1, v0, Shr(c, 24));
    assert zero(z2) == z3;
    assert LinearAt(zero, Xor(Xor(t2, u1), v0), Shr(c, 24));
    LookupTwo(zero, Xor(t2, u1), v0);
    LookupTwo(zero, t2, u1);
    LookupIs(zero, Xor(Xor(t2, u1), v0));
  }

  lemma LookupTwo(zero: Remainder, a: Word, b: Word)
    requires IsRemainder(zero)
    ensures Lookup(zero, Xor(a, b)) == Xor(Lookup(zero, a), Lookup(zero, b))
  {
    LookupIs(zero, Xor(a, b));
    LookupIs(zero, a);
    LookupIs(zero, b);
    assert LinearAt(zero, a, b);
  }

  /** A byte may join before the division, eight bits further up. */
  lemma JoinEarlier(zero: Remainder, x: Word, b: Word, k: nat)
    requires IsRemainder(zero)
    ensures Xor(zero(x), Shl(b, k)) == zero(Xor(x, Shl(b, k + 8)))
  {
    var up := Shl(b, k + 8);
    forall i | i in up ensures i >= 8 { ShlHas(b, k + 8, i); }
    assert ShiftsAt(zero, up);
    ShrShl(b, k + 8, 8);
    assert LinearAt(zero, x, up);
  }

  lemma ShlNothing(b: Word)
    ensures Shl(b, 0) == b
  {
    forall i: nat ensures i in Shl(b, 0) <==> i in b { ShlHas(b, 0, i); }
  }

  /** Four bytes one by one are four zero bytes after joining all four at once. */
  lemma FourBytes(zero: Remainder, l: Word, a: Word, b: Word, c: Word, d: Word)
    requires IsRemainder(zero)
    ensures zero(Xor(zero(Xor(zero(Xor(zero(Xor(l, a)), b)), c)), d)) ==
            zero(zero(zero(zero(Xor(l, Load32(a, b, c, d))))))
  {
    var y0 := Xor(l, a);
    var y1 := Xor(y0, Shl(b, 8));
    var y2 := Xor(y1, Shl(c, 16));
    var y3 := Xor(y2, Shl(d, 24));
    ShlNothing(b);
    ShlNothing(c);
    ShlNothing(d);
    JoinEarlier(zero, y0, b, 0);
    assert Xor(zero(y0), b) == zero(y1);
    JoinEarlier(zero, zero(y1), c, 0);
    JoinEarlier(zero, y1, c, 8);
    assert Xor(zero(zero(y1)), c) == zero(zero(y2));
    JoinEarlier(zero, zero(zero(y2)), d, 0);
    JoinEarlier(zero, zero(y2), d, 8);
    JoinEarlier(zero, y2, d, 16);
    assert Xor(zero(zero(zero(y2))), d) == zero(zero(zero(y3)));
    JoinAll(l, a, b, c, d);
  }

  lemma JoinAll(l: Word, a: Word, b: Word, c: Word, d: Word)
    ensures Xor(Xor(Xor(Xor(l, a), Shl(b, 8)), Shl(c, 16)), Shl(d, 24)) == Xor(l, Load32(a, b, c, d))
  {
    var x, y, z := Shl(b, 8), Shl(c, 16), Shl(d, 24);
    XorAssoc(l, a, x);
    XorAssoc(l, Xor(a, x), y);
    XorAssoc(l, Xor(Xor(a, x), y), z);
  }

  // ---- Extend ----

  lemma FoldNext(zero: Remainder, l: Word, bytes: seq<Word>, p: nat)
    requires p < |bytes|
    ensures Fold(zero, l, bytes[..p + 1]) == zero(Xor(Fold(zero, l, bytes[..p]), bytes[p]))
  {
    assert bytes[..p + 1][..p] == bytes[..p];
  }

  lemma FoldFour(zero: Remainder, l: Word, bytes: seq<Word>, p: nat)
    requires IsRemainder(zero) && p + 4 <= |bytes|
    ensures Fold(zero, l, bytes[..p + 4]) ==
            Step4(zero, Fold(zero, l, bytes[..p]), Load32(bytes[p], bytes[p + 1], bytes[p + 2], bytes[p + 3]))
  {
    var m := Fold(zero, l, bytes[..p]);
    FoldNext(zero, l, bytes, p);
    FoldNext(zero, l, bytes, p + 1);
    FoldNext(zero, l, bytes, p + 2);
    FoldNext(zero, l, bytes, p + 3);
    FourBytes(zero, m, bytes[p], bytes[p + 1], bytes[p + 2], bytes[p + 3]);
    FourZeros(zero, Xor(m, Load32(bytes[p], bytes[p + 1], bytes[p + 2], bytes[p + 3])));
  }

  ghost predicate AllBytes(bytes: seq<Word>) {
    forall i :: 0 <= i < |bytes| ==> IsByte(bytes[i])
  }

  /** STEP1 until `to`. */
  method OneByOne(zero: Remainder, start: Word, bytes: seq<Word>, from: nat, to: nat, l0: Word) returns (l: Word)
    requires IsRemainder(zero) && AllBytes(bytes) && from <= to <= |bytes| && l0 == Fold(zero, start, bytes[..from])
    ensures l == Fold(zero, start, bytes[..to])
  {
    l := l0;
    var p := from;
    while p != to
      invariant from <= p <= to && l == Fold(zero, start, bytes[..p])
      decreases (to as int) - (p as int)
    {
      FoldNext(zero, start, bytes, p);
      Step1Is(zero, l, bytes[p]);
      l, p := Step1(zero, l, bytes[p]), p + 1;
    }
  }

  /** One STEP4. */
  method FourAtOnce(zero: Remainder, ghost start: Word, bytes: seq<Word>, p: nat, l0: Word) returns (l: Word)
    requires IsRemainder(zero) && p + 4 <= |bytes| && l0 == Fold(zero, start, bytes[..p])
    ensures l == Fold(zero, start, bytes[..p + 4])
  {
    FoldFour(zero, start, bytes, p);
    l := Step4(zero, l0, Load32(bytes[p], bytes[p + 1], bytes[p + 2], bytes[p + 3]));
  }

  /** The loops of Extend over a buffer whose first aligned byte is at `aligned`. */
  method FoldBuffer(zero: Remainder, start: Word, bytes: seq<Word>, aligned: nat) returns (l: Word)
    requires IsRemainder(zero) && AllBytes(bytes)
    ensures l == Fold(zero, start, bytes)
  {
    l := start;
    var p, e := 0, |bytes|;
    assert bytes[..0] == [];
    if aligned <= e {
      l := OneByOne(zero, start, bytes, 0, aligned, l);
      p := aligned;
    }
    while e - p >= 16
      invariant 0 <= p <= e && l == Fold(zero, start, bytes[..p])
    {
      l := FourAtOnce(zero, start, bytes, p, l);
      l := FourAtOnce(zero, start, bytes, p + 4, l);
      l := FourAtOnce(zero, start, bytes, p + 8, l);
      l := FourAtOnce(zero, start, bytes, p + 12, l);
      p := p + 16;
    }
    while e - p >= 4
      invariant 0 <= p <= e && l == Fold(zero, start, bytes[..p])
    {
      l := FourAtOnce(zero, start, bytes, p, l);
      p := p + 4;
    }
    l := OneByOne(zero, start, bytes, p, e, l);
    assert bytes[..e] == bytes;
  }

  /** Extend gives the checksum of the definition, whatever the alignment. */
  method Extend(crc: Word, bytes: seq<Word>, aligned: nat) returns (r: Word)
    requires AllBytes(bytes)
    ensures r == Checksum(crc, bytes)
  {
    ZeroIsRemainder();
    var l := FoldBuffer(Zero, Xor(crc, FLIP), bytes, aligned);
    r := Xor(l, FLIP);
  }

  lemma {:induction false} FoldConcat(zero: Remainder, l: Word, a: seq<Word>, b: seq<Word>)
    ensures Fold(zero, l, a + b) == Fold(zero, Fold(zero, l, a), b)
  {
    if b == [] {
      assert a + b == a;
    } else {
      FoldConcat(zero, l, a, b[..|b| - 1]);
      assert (a + b)[..|a + b| - 1] == a + b[..|b| - 1];
    }
  }

  /** Extending by `a` and then by `b` is extending by both. */
  lemma ChecksumConcat(crc: Word, a: seq<Word>, b: seq<Word>)
    ensures Checksum(Checksum(crc, a), b) == Checksum(crc, a + b)
  {
    var l := Fold(Zero, Xor(crc, FLIP), a);
    assert Xor(Xor(l, FLIP), FLIP) == l;
    FoldConcat(Zero, Xor(crc, FLIP), a, b);
  }
}
