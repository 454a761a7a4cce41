/**
 Key order on bytes, and the shortened keys that table indexes use: a separator
 lies between the last key of a block and the first of the next, a successor
 at or after the last key of all.
 */
module Separators {
  import opened Coding

  const MAX_TAG: nat := 0xFF_FFFF_FFFF_FFFF * 256 + 1   // largest sequence number, type value

  /** Bytes compared one by one; a prefix comes first. */
  predicate Less(a: Bytes, b: Bytes)
    decreases |a|
  {
    if b == [] then false
    else if a == [] then true
    else a[0] < b[0] || (a[0] == b[0] && Less(a[1..], b[1..]))
  }

  lemma {:induction false} LessTransitive(a: Bytes, b: Bytes, c: Bytes)
    requires Less(a, b) && Less(b, c)
    ensures Less(a, c)
    decreases |a|
  {
    if a != [] && a[0] == b[0] && b[0] == c[0] { LessTransitive(a[1..], b[1..], c[1..]); }
  }

  lemma {:induction false} LessTotal(a: Bytes, b: Bytes)
    ensures a == b || Less(a, b) || Less(b, a)
    decreases |a|
  {
    if a != [] && b != [] && a[0] == b[0] {
      LessTotal(a[1..], b[1..]);
      assert a == [a[0]] + a[1..] && b == [b[0]] + b[1..];
    }
  }

  lemma {:induction false} LessIrreflexive(a: Bytes)
    ensures !Less(a, a)
    decreases |a|
  {
    if a != [] { LessIrreflexive(a[1..]); }
  }

  /** After a common prefix of length `i` the first differing byte decides. */
  lemma {:induction false} LessAt(a: Bytes, b: Bytes, i: nat)
    requires i < |a| && i < |b| && a[..i] == b[..i] && a[i] < b[i]
    ensures Less(a, b)
    decreases i
  {
    if i > 0 {
      assert a[0] == a[..i][0] == b[..i][0] == b[0];
      assert a[1..][..i - 1] == a[..i][1..] && b[1..][..i - 1] == b[..i][1..];
      LessAt(a[1..], b[1..], i - 1);
    }
  }

  // ---- Bytewise comparator ----

  /** Shortens `start` in place to a string between it and `limit`, if there is one. */
  method FindShortestSeparator(start: Bytes, limit: Bytes) returns (r: Bytes)
    ensures r == start || (Less(start, r) && Less(r, limit) && |r| <= |start|)
    ensures AreBytes(start) ==> AreBytes(r)
  {
    r := start;
    var minLength := if |start| < |limit| then |start| else |limit|;
    var i := 0;
    while i < minLength && start[i] == limit[i]
      invariant 0 <= i <= minLength && start[..i] == limit[..i]
    {
      i := i + 1;
    }
    if i < minLength {
      var b := start[i];
      if b < 255 && b + 1 < limit[i] {
        r := start[..i] + [b + 1];
        assert r[..i] == start[..i] && r[i] == b + 1;
        LessAt(start, r, i);
        LessAt(r, limit, i);
      }
    }
  }

  /** Shortens `key` in place to a string at or after it. */
  method FindShortSuccessor(key: Bytes) returns (r: Bytes)
    ensures r == key || (Less(key, r) && |r| <= |key|)
    ensures (exists i :: 0 <= i < |key| && key[i] != 255) ==> r != key
    ensures AreBytes(key) ==> AreBytes(r)
  {
    r := key;
    var i := 0;
    while i < |key|
      invariant 0 <= i <= |key| && r == key && forall j :: 0 <= j < i ==> key[j] == 255
    {
      if key[i] != 255 {
        r := key[..i] + [key[i] + 1];
        assert r[..i] == key[..i] && r[i] == key[i] + 1;
        LessAt(key, r, i);
        return;
      }
      i := i + 1;
    }
  }

  // ---- Internal keys ----

  /** A user key and the packed sequence number and type. */
  datatype Key = Key(user: Bytes, tag: nat)

  predicate KeyLess(a: Key, b: Key) {
    Less(a.user, b.user) || (a.user == b.user && a.tag > b.tag)
  }

  predicate KeyAtMost(a: Key, b: Key) {
    a == b || KeyLess(a, b)
  }

  lemma KeyTransitive(a: Key, b: Key, c: Key)
    requires KeyLess(a, b) && KeyLess(b, c)
    ensures KeyLess(a, c)
  {
    if Less(a.user, b.user) && Less(b.user, c.user) { LessTransitive(a.user, b.user, c.user); }
  }

  lemma KeyTotal(a: Key, b: Key)
    ensures a == b || KeyLess(a, b) || KeyLess(b, a)
  {
    LessTotal(a.user, b.user);
  }

  lemma KeyAsymmetric(a: Key, b: Key)
    requires KeyLess(a, b)
    ensures !KeyLess(b, a) && a != b
  {
    LessIrreflexive(a.user);
    if Less(a.user, b.user) && Less(b.user, a.user) { LessTransitive(a.user, b.user, a.user); }
  }

  /**
   A key that may stand in the index between `last` and `first`: `last` itself, or one with a user key strictly
   between.
   */
  ghost predicate Separates(last: Key, sep: Key, first: Key) {
    sep == last || (Less(last.user, sep.user) && Less(sep.user, first.user))
  }

  /** What is made of a key is no longer, and consists of bytes if the key does. */
  ghost predicate Shortened(key: Key, r: Key) {
    |r.user| <= |key.user| && (r.tag == key.tag || r.tag == MAX_TAG) && (AreBytes(key.user) ==> AreBytes(r.user))
  }

  method FindSeparator(start: Key, limit: Key) returns (r: Key)
    requires KeyLess(start, limit)
    ensures KeyAtMost(start, r) && KeyLess(r, limit) && Separates(start, r, limit)
    ensures Shortened(start, r)
  {
    r := start;
    var tmp := FindShortestSeparator(start.user, limit.user);
    if |tmp| < |start.user| && Less(start.user, tmp) {
      LessIrreflexive(start.user);
      r := Key(tmp, MAX_TAG);
    }
  }

  method FindSuccessor(key: Key) returns (r: Key)
    ensures KeyAtMost(key, r) && (r == key || Less(key.user, r.user))
    ensures Shortened(key, r)
  {
    r := key;
    var tmp := FindShortSuccessor(key.user);
    if |tmp| < |key.user| && Less(key.user, tmp) {
      r := Key(tmp, MAX_TAG);
    }
  }
}
