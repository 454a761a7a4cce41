/** The Bloom filter policy: double hashing over a string of bits, with the number of probes in the last byte. */
module Bloom {

  type Key = seq<int>
  type Filter = seq<bv8>

  const WORD: nat := 0x1_0000_0000

  // ---- Bits ----

  function Mask(j: nat): bv8 {
    if j == 0 then 1 else if j == 1 then 2 else if j == 2 then 4 else if j == 3 then 8
    else if j == 4 then 16 else if j == 5 then 32 else if j == 6 then 64 else 128
  }

  predicate BitSet(bytes: seq<bv8>, pos: nat)
    requires pos < 8 * |bytes|
  {
    bytes[pos / 8] & Mask(pos % 8) != 0
  }

  lemma OrSets(b: bv8, j: nat)
    ensures (b | Mask(j)) & Mask(j) != 0
  {
    var m := Mask(j);
    assert (b | m) & m == m;
  }

  lemma OrKeeps(b: bv8, m: bv8, n: bv8)
    requires b & n != 0
    ensures (b | m) & n != 0
  {
  }

  // ---- Probes ----

  /** The hash rotated right by 17 bits. */
  function Delta(h: nat): nat {
    h / 0x2_0000 + h % 0x2_0000 * 0x8000
  }

  /** The hash value of probe `j`: 32-bit addition of the delta each time. */
  function Probe(h: nat, j: nat): nat {
    if j == 0 then h else (Probe(h, j - 1) + Delta(h)) % WORD
  }

  function Position(h: nat, bits: nat): (p: nat)
    requires bits > 0
    ensures p < bits
  {
    h % bits
  }

  /** The first `k` probes of a hash hit set bits. */
  ghost predicate Hits(bytes: seq<bv8>, h: nat, k: nat) {
    |bytes| > 0 && forall j :: 0 <= j < k ==> Hit(bytes, h, j)
  }

  ghost predicate Hit(bytes: seq<bv8>, h: nat, j: nat) {
    |bytes| > 0 && BitSet(bytes, Position(Probe(h, j), 8 * |bytes|))
  }

  /** Every bit set in `a` is set in `b`. */
  ghost predicate Within(a: seq<bv8>, b: seq<bv8>) {
    |a| == |b| && forall p :: 0 <= p < 8 * |a| && BitSet(a, p) ==> BitSet(b, p)
  }

  lemma SetBit(a: seq<bv8>, pos: nat, b: seq<bv8>)
    requires pos < 8 * |a| && b == a[pos / 8 := a[pos / 8] | Mask(pos % 8)]
    ensures Within(a, b) && BitSet(b, pos)
  {
    OrSets(a[pos / 8], pos % 8);
    forall p | 0 <= p < 8 * |a| && BitSet(a, p) ensures BitSet(b, p) {
      if p / 8 == pos / 8 { OrKeeps(a[p / 8], Mask(pos % 8), Mask(p % 8)); }
    }
  }

  lemma HitsWithin(a: seq<bv8>, b: seq<bv8>, h: nat, k: nat)
    requires Within(a, b) && Hits(a, h, k)
    ensures Hits(b, h, k)
  {
    forall j | 0 <= j < k ensures Hit(b, h, j) { assert Hit(a, h, j); }
  }

  lemma WithinTransitive(a: seq<bv8>, b: seq<bv8>, c: seq<bv8>)
    requires Within(a, b) && Within(b, c)
    ensures Within(a, c)
  {
  }

  lemma ProbeSet(first: seq<bv8>, a: seq<bv8>, pos: nat, b: seq<bv8>, hash: nat, j: nat)
    requires |a| > 0 && pos == Position(Probe(hash, j), 8 * |a|) && b == a[pos / 8 := a[pos / 8] | Mask(pos % 8)]
    requires Within(first, a) && Hits(a, hash, j)
    ensures Within(first, b) && Hits(b, hash, j + 1)
  {
    SetBit(a, pos, b);
    WithinTransitive(first, a, b);
    HitsWithin(a, b, hash, j);
    assert Hit(b, hash, j);
  }

  // ---- The policy ----

  method SetProbes(bs: array<bv8>, hash: nat, k: nat)
    requires bs.Length > 0
    modifies bs
    ensures Within(old(bs[..]), bs[..]) && Hits(bs[..], hash, k)
  {
    var h, j := hash, 0;
    var bits := 8 * bs.Length;
    while j < k
      invariant 0 <= j <= k && h == Probe(hash, j)
      invariant Within(old(bs[..]), bs[..]) && Hits(bs[..], hash, j)
    {
      var pos := Position(h, bits);
      ghost var before := bs[..];
      bs[pos / 8] := bs[pos / 8] | Mask(pos % 8);
      ProbeSet(old(bs[..]), before, pos, bs[..], hash, j);
      h, j := (h + Delta(hash)) % WORD, j + 1;
    }
  }

  /** The filter for a list of keys; all probes of all keys are set in it. */
  method CreateFilter(keys: seq<Key>, hash: Key -> nat, bitsPerKey: nat, k: bv8) returns (filter: Filter)
    ensures |filter| >= 9 && filter[|filter| - 1] == k
    ensures forall i :: 0 <= i < |keys| ==> MayMatch(keys[i], hash, filter)
  {
    var bits := |keys| * bitsPerKey;
    if bits < 64 { bits := 64; }
    var bytes := (bits + 7) / 8;
    var bs := new bv8[bytes](_ => 0);
    for i := 0 to |keys|
      invariant forall x :: 0 <= x < i ==> Hits(bs[..], hash(keys[x]), k as nat)
    {
      ghost var before := bs[..];
      SetProbes(bs, hash(keys[i]), k as nat);
      forall x | 0 <= x < i ensures Hits(bs[..], hash(keys[x]), k as nat) {
        HitsWithin(before, bs[..], hash(keys[x]), k as nat);
      }
    }
    filter := bs[..] + [k];
    assert filter[..|filter| - 1] == bs[..];
  }

  /** False only if some probe of the key is certainly not set. */
  method KeyMayMatch(key: Key, hash: Key -> nat, filter: Filter) returns (match': bool)
    ensures match' == MayMatch(key, hash, filter)
  {
    if |filter| < 2 { return false; }
    var bytes, k := filter[..|filter| - 1], filter[|filter| - 1] as nat;
    if k > 30 { return true; }
    var h, j := hash(key), 0;
    while j < k
      invariant 0 <= j <= k && h == Probe(hash(key), j) && Hits(bytes, hash(key), j)
    {
      var pos := Position(h, 8 * |bytes|);
      if !BitSet(bytes, pos) {
        assert !Hit(bytes, hash(key), j);
        return false;
      }
      assert Hit(bytes, hash(key), j);
      h, j := (h + Delta(hash(key))) % WORD, j + 1;
    }
    match' := true;
  }

  ghost predicate MayMatch(key: Key, hash: Key -> nat, filter: Filter) {
    |filter| >= 2 && (filter[|filter| - 1] as nat > 30 ||
                      Hits(filter[..|filter| - 1], hash(key), filter[|filter| - 1] as nat))
  }
}
