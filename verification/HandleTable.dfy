/**
 The cache's hash table: an array of buckets, each a chain of handles linked
 through `next_hash`. The links are kept in a map from handle to link. The
 table refines a set of handles with distinct keys.
 */
module HandleTables {

  /** `id` is the handle's address. */
  datatype Handle = Handle(id: nat, key: string, hash: nat)

  datatype Link = Null | To(handle: Handle)

  predicate Matches(h: Handle, key: string, hash: nat) {
    h.hash == hash && h.key == key
  }

  ghost predicate PowerOfTwo(n: nat) {
    n == 1 || (n > 1 && n % 2 == 0 && PowerOfTwo(n / 2))
  }

  /** The bucket of a hash: its remainder by the number of buckets. */
  function Bucket(hash: nat, length: nat): (b: nat)
    requires length > 0
    ensures b < length
  {
    if hash < length then hash else Bucket(hash - length, length)
  }

  /** Bitwise and. */
  function And(a: nat, b: nat): nat {
    if a == 0 || b == 0 then 0 else (if a % 2 == 1 && b % 2 == 1 then 1 else 0) + 2 * And(a / 2, b / 2)
  }

  lemma {:induction false} BucketHalves(hash: nat, half: nat)
    requires half > 0
    ensures Bucket(hash, 2 * half) == hash % 2 + 2 * Bucket(hash / 2, half)
  {
    if hash >= 2 * half {
      BucketHalves(hash - 2 * half, half);
      assert (hash - 2 * half) / 2 == hash / 2 - half && (hash - 2 * half) % 2 == hash % 2;
    }
  }

  lemma {:induction false} OneBucket(hash: nat)
    ensures Bucket(hash, 1) == 0
  {
    if hash > 0 { OneBucket(hash - 1); }
  }

  /** The code masks the hash with one less than the number of buckets, which is a power of two. */
  lemma {:induction false} MaskIsBucket(hash: nat, length: nat)
    requires PowerOfTwo(length)
    ensures And(hash, length - 1) == Bucket(hash, length)
  {
    if length == 1 {
      OneBucket(hash);
    } else {
      var half := length / 2;
      assert length == 2 * half && (length - 1) / 2 == half - 1 && (length - 1) % 2 == 1;
      BucketHalves(hash, half);
      MaskIsBucket(hash / 2, half);
      if hash == 0 { MaskZero(half - 1); }
    }
  }

  lemma MaskZero(b: nat)
    ensures And(0, b) == 0
  {
  }

  /** Where the slot before position `i` of a chain points. */
  function LinkAt(chain: seq<Handle>, i: nat): Link {
    if i < |chain| then To(chain[i]) else Null
  }

  /** `chain` lists the handles reached from `head`. */
  ghost predicate Chain(next: map<Handle, Link>, head: Link, chain: seq<Handle>) {
    head == LinkAt(chain, 0) && forall i :: 0 <= i < |chain| ==> LinkedAt(next, chain, i)
  }

  ghost predicate LinkedAt(next: map<Handle, Link>, chain: seq<Handle>, i: nat)
    requires i < |chain|
  {
    chain[i] in next && next[chain[i]] == LinkAt(chain, i + 1)
  }

  /** No two handles of a chain have the same hash and key. */
  ghost predicate KeysDiffer(chain: seq<Handle>) {
    forall i, j :: 0 <= i < |chain| && 0 <= j < |chain| && i != j ==> Differ(chain, i, j)
  }

  ghost predicate Differ(chain: seq<Handle>, i: nat, j: nat)
    requires i < |chain| && j < |chain|
  {
    !Matches(chain[i], chain[j].key, chain[j].hash)
  }

  ghost predicate Home(chain: seq<Handle>, b: nat, length: nat, all: set<Handle>)
    requires length > 0
  {
    forall i :: 0 <= i < |chain| ==> chain[i] in all && Bucket(chain[i].hash, length) == b
  }

  /** The buckets hold exactly the handles of `all`, each where its hash says. */
  ghost predicate Spread(chains: seq<seq<Handle>>, all: set<Handle>) {
    && |chains| > 0
    && (forall h :: h in all ==> Housed(chains, h))
    && (forall b :: 0 <= b < |chains| ==> GoodBucket(chains, b, all))
  }

  ghost predicate Housed(chains: seq<seq<Handle>>, h: Handle) {
    |chains| > 0 && h in chains[Bucket(h.hash, |chains|)]
  }

  ghost predicate GoodBucket(chains: seq<seq<Handle>>, b: nat, all: set<Handle>)
    requires b < |chains|
  {
    Home(chains[b], b, |chains|, all) && KeysDiffer(chains[b])
  }

  ghost predicate Chains(list: seq<Link>, next: map<Handle, Link>, chains: seq<seq<Handle>>) {
    |list| == |chains| && forall b :: 0 <= b < |chains| ==> Chain(next, list[b], chains[b])
  }

  class HandleTable {
    var length: nat
    var elems: nat
    var list: seq<Link>
    var next: map<Handle, Link>       // the next_hash field of every handle
    ghost var chains: seq<seq<Handle>>
    ghost var all: set<Handle>

    ghost predicate Valid()
      reads this
    {
      && length == |list| && PowerOfTwo(length) && elems == |all|
      && Holds(list, next, chains, all)
    }

    constructor ()
      ensures Valid() && all == {}
    {
      list, next, length, elems := [Null, Null, Null, Null], map[], 4, 0;
      chains, all := [[], [], [], []], {};
      new;
      assert PowerOfTwo(2) && PowerOfTwo(4);
    }

    /**
     The slot that points to the matching handle, or the last slot of the bucket. A null `prev` stands for the
     bucket itself.
     */
    method FindPointer(key: string, hash: nat) returns (b: nat, prev: Link, cur: Link, ghost k: nat)
      requires Valid()
      ensures b == Bucket(hash, length) && k <= |chains[b]|
      ensures cur == LinkAt(chains[b], k) && prev == (if k > 0 then To(chains[b][k - 1]) else Null)
      ensures forall i :: 0 <= i < k ==> !Matches(chains[b][i], key, hash)
      ensures cur.To? ==> Matches(cur.handle, key, hash) && cur.handle in next
      ensures cur.To? ==> next[cur.handle] == LinkAt(chains[b], k + 1)
    {
      MaskIsBucket(hash, length);
      b := And(hash, length - 1);
      prev, cur, k := Null, list[b], 0;
      assert Chain(next, list[b], chains[b]);
      while cur.To? && !Matches(cur.handle, key, hash)
        invariant k <= |chains[b]|
        invariant cur == LinkAt(chains[b], k) && prev == (if k > 0 then To(chains[b][k - 1]) else Null)
        invariant forall i :: 0 <= i < k ==> !Matches(chains[b][i], key, hash)
        decreases |chains[b]| - k
      {
        assert LinkedAt(next, chains[b], k);
        prev, cur := cur, next[cur.handle];
        k := k + 1;
      }
      if k < |chains[b]| { assert LinkedAt(next, chains[b], k); }
    }

    method Lookup(key: string, hash: nat) returns (r: Link)
      requires Valid()
      ensures r.To? ==> r.handle in all && Matches(r.handle, key, hash)
      ensures r.Null? ==> forall h :: h in all ==> !Matches(h, key, hash)
    {
      ghost var k;
      var b, prev;
      b, prev, r, k := FindPointer(key, hash);
      NotFound(chains, all, b, k, key, hash);
    }

    /** Replaces the handle with the same key, if any, and returns it. */
    method Insert(h: Handle) returns (was: Link)
      requires Valid() && h !in all
      modifies this
      ensures Valid()
      ensures was.To? ==> was.handle in old(all) && Matches(was.handle, h.key, h.hash)
      ensures was.To? ==> all == old(all) - {was.handle} + {h}
      ensures was.Null? ==> all == old(all) + {h}
      ensures forall x :: x in old(all) && Matches(x, h.key, h.hash) ==> was == To(x)
    {
      var b, prev;
      ghost var k;
      b, prev, was, k := FindPointer(h.key, h.hash);
      NotFound(chains, all, b, k, h.key, h.hash);
      if was.To? { OnlyMatch(chains, all, was.handle, h.key, h.hash); }
      SizeAfter(all, was, h);
      list, next, chains := PutLinks(list, next, chains, all, b, prev, was, k, h);
      all := (if was.Null? then all else all - {was.handle}) + {h};
      if was.Null? {
        elems := elems + 1;
        if elems > length { Resize(); }
      }
    }

    /** Takes the matching handle, if any, out of the table. */
    method Remove(key: string, hash: nat) returns (r: Link)
      requires Valid()
      modifies this
      ensures Valid()
      ensures r.To? ==> r.handle in old(all) && Matches(r.handle, key, hash) && all == old(all) - {r.handle}
      ensures forall h :: h in all ==> !Matches(h, key, hash)
      ensures r.Null? ==> all == old(all)
    {
      var b, prev;
      ghost var k;
      b, prev, r, k := FindPointer(key, hash);
      NotFound(chains, all, b, k, key, hash);
      if r.To? {
        OnlyMatch(chains, all, r.handle, key, hash);
        ghost var list0, next0 := list, next;
        var after := next[r.handle];
        if prev.Null? { list := list[b := after]; } else { next := next[prev.handle := after]; }
        RemoveLinks(list0, next0, chains, all, b, k, list, next);
        SpreadRemove(chains, all, b, k);
        chains := chains[b := chains[b][..k] + chains[b][k + 1..]];
        all := all - {r.handle};
        elems := elems - 1;
      }
    }

    /** Doubles the number of buckets until it is enough and moves every handle to the front of its new bucket. */
    method Resize()
      requires Valid()
      modifies this
      ensures Valid() && all == old(all) && elems == old(elems) && length >= elems
    {
      var newLength := 4;
      assert PowerOfTwo(2) && PowerOfTwo(4);
      while newLength < elems
        invariant newLength >= 4 && PowerOfTwo(newLength)
      {
        newLength := newLength * 2;
      }
      ghost var newChains;
      var newList, newNext;
      newList, newNext, newChains := MoveAll(list, next, chains, all, newLength);
      list, next, length, chains := newList, newNext, newLength, newChains;
    }
  }

  /** Links a handle into the slot that FindPointer found, in place of the match if there is one. */
  method PutLinks(list: seq<Link>, next: map<Handle, Link>, ghost chains: seq<seq<Handle>>, ghost all: set<Handle>,
                  b: nat, prev: Link, was: Link, ghost k: nat, h: Handle)
    returns (list': seq<Link>, next': map<Handle, Link>, ghost chains': seq<seq<Handle>>)
    requires Holds(list, next, chains, all) && b == Bucket(h.hash, |chains|) && k <= |chains[b]| && h !in all
    requires was == LinkAt(chains[b], k) && prev == (if k > 0 then To(chains[b][k - 1]) else Null)
    requires forall i :: 0 <= i < k ==> !Matches(chains[b][i], h.key, h.hash)
    requires was.To? ==> Matches(was.handle, h.key, h.hash) && was.handle in next
    requires was.To? ==> next[was.handle] == LinkAt(chains[b], k + 1)
    ensures Holds(list', next', chains', (if was.Null? then all else all - {was.handle}) + {h}) && |list'| == |list|
  {
    InsertHolds(list, next, chains, all, b, k, h);
    chains' := chains[b := Replaced(chains[b], k, h)];
    var linked := next[h := if was.Null? then Null else next[was.handle]];
    if prev.Null? {
      list', next' := list[b := To(h)], linked;
    } else {
      list', next' := list, linked[prev.handle := To(h)];
    }
  }

  /** The table formed by these buckets holds exactly `all`. */
  ghost predicate Holds(list: seq<Link>, next: map<Handle, Link>, chains: seq<seq<Handle>>, all: set<Handle>) {
    Chains(list, next, chains) && Spread(chains, all)
  }

  /** The two loops of Resize. */
  method MoveAll(list: seq<Link>, next: map<Handle, Link>, ghost chains: seq<seq<Handle>>, ghost all: set<Handle>,
                 newLength: nat)
    returns (newList: seq<Link>, newNext: map<Handle, Link>, ghost newChains: seq<seq<Handle>>)
    requires Holds(list, next, chains, all) && newLength > 0
    ensures Holds(newList, newNext, newChains, all) && |newChains| == newLength
  {
    newList, newNext, newChains := seq(newLength, _ => Null), next, seq(newLength, _ => []);
    Started(list, next, chains, all, newList, newChains);
    newList, newNext, newChains := MoveBuckets(list, chains, all, newList, newNext, newChains);
    MovedAll(list, chains, all, newList, newNext, newChains);
  }

  method MoveBuckets(list: seq<Link>, ghost chains: seq<seq<Handle>>, ghost all: set<Handle>,
                     list0: seq<Link>, next0: map<Handle, Link>, ghost chains0: seq<seq<Handle>>)
    returns (newList: seq<Link>, newNext: map<Handle, Link>, ghost newChains: seq<seq<Handle>>)
    requires Spread(chains, all) && |list| == |chains| && Progress(list, chains, 0, list0, next0, chains0)
    ensures Progress(list, chains, |chains|, newList, newNext, newChains) && |newChains| == |chains0|
  {
    newList, newNext, newChains := list0, next0, chains0;
    var i: nat := 0;
    while i < |list|
      invariant 0 <= i <= |list| && Progress(list, chains, i, newList, newNext, newChains) && |newChains| == |chains0|
    {
      newList, newNext, newChains := MoveBucket(list, chains, all, i, newList, newNext, newChains);
      i := i + 1;
    }
    assert i == |chains|;
  }

  lemma Started(list: seq<Link>, next: map<Handle, Link>, chains: seq<seq<Handle>>, all: set<Handle>,
                newList: seq<Link>, newChains: seq<seq<Handle>>)
    requires Holds(list, next, chains, all)
    requires |newList| == |newChains| > 0
    requires forall b :: 0 <= b < |newChains| ==> newList[b] == Null && newChains[b] == []
    ensures Progress(list, chains, 0, newList, next, newChains)
  {
    EmptyHolds(newList, next, newChains);
  }

  lemma MovedAll(list: seq<Link>, chains: seq<seq<Handle>>, all: set<Handle>, newList: seq<Link>,
                 newNext: map<Handle, Link>, newChains: seq<seq<Handle>>)
    requires Spread(chains, all)
    ensures Progress(list, chains, |chains|, newList, newNext, newChains) ==> Holds(newList, newNext, newChains, all)
  {
    AllWithin(chains, all);
  }

  /** Buckets before `i` have been moved, those from `i` on are as before. */
  ghost predicate Progress(list: seq<Link>, chains: seq<seq<Handle>>, i: nat, newList: seq<Link>,
                           newNext: map<Handle, Link>, newChains: seq<seq<Handle>>) {
    i <= |chains| && Holds(newList, newNext, newChains, Within(chains, i)) && LeftChains(list, newNext, chains, i)
  }

  lemma EmptyHolds(list: seq<Link>, next: map<Handle, Link>, chains: seq<seq<Handle>>)
    requires |list| == |chains| > 0 && forall b :: 0 <= b < |chains| ==> list[b] == Null && chains[b] == []
    ensures Holds(list, next, chains, {})
  {
    forall b | 0 <= b < |chains| ensures Chain(next, list[b], chains[b]) && GoodBucket(chains, b, {}) {
      assert chains[b] == [];
    }
  }

  /** The inner loop, for one bucket. */
  method MoveBucket(list: seq<Link>, ghost chains: seq<seq<Handle>>, ghost all: set<Handle>, i: nat,
                    list0: seq<Link>, next0: map<Handle, Link>, ghost chains0: seq<seq<Handle>>)
    returns (newList: seq<Link>, newNext: map<Handle, Link>, ghost newChains: seq<seq<Handle>>)
    requires Spread(chains, all) && i < |list| == |chains| && Progress(list, chains, i, list0, next0, chains0)
    ensures Progress(list, chains, i + 1, newList, newNext, newChains) && |newChains| == |chains0|
  {
    newList, newNext, newChains := list0, next0, chains0;
    var h := list[i];
    ghost var j := 0;
    BucketStart(list, chains, i, list0, next0, chains0);
    while h.To?
      invariant j <= |chains[i]| && h == LinkAt(chains[i], j) &&
                PartMoved(list, chains, i, j, newList, newNext, newChains) && |newChains| == |chains0|
      decreases |chains[i]| - j
    {
      NextOnChain(list, newNext, chains, i, j);
      var x, after := h.handle, newNext[h.handle];
      newList, newNext, newChains := MoveOne(list, chains, all, i, j, newList, newNext, newChains, x);
      h, j := after, j + 1;
    }
    assert chains[i][..j] == chains[i];
  }

  /** Handles before position `j` of bucket `i`, and all earlier buckets, have been moved. */
  ghost predicate PartMoved(list: seq<Link>, chains: seq<seq<Handle>>, i: nat, j: nat, newList: seq<Link>,
                            newNext: map<Handle, Link>, newChains: seq<seq<Handle>>) {
    && LeftPart(list, newNext, chains, i, j)
    && Holds(newList, newNext, newChains, Within(chains, i) + Members(chains[i][..j]))
  }

  lemma BucketStart(list: seq<Link>, chains: seq<seq<Handle>>, i: nat, newList: seq<Link>, newNext: map<Handle, Link>,
                    newChains: seq<seq<Handle>>)
    requires i < |list| == |chains| && Progress(list, chains, i, newList, newNext, newChains)
    ensures PartMoved(list, chains, i, 0, newList, newNext, newChains) && list[i] == LinkAt(chains[i], 0)
  {
    assert Chain(newNext, list[i], chains[i]) && chains[i][0..] == chains[i];
    assert Within(chains, i) + Members(chains[i][..0]) == Within(chains, i);
  }

  lemma NextOnChain(list: seq<Link>, next: map<Handle, Link>, chains: seq<seq<Handle>>, i: nat, j: nat)
    requires LeftPart(list, next, chains, i, j) && j < |chains[i]|
    ensures chains[i][j] in next && next[chains[i][j]] == LinkAt(chains[i], j + 1)
  {
    assert LinkedAt(next, chains[i][j..], 0);
  }

  /** Moves the handle at position `j` of old bucket `i`. */
  method MoveOne(ghost list: seq<Link>, ghost chains: seq<seq<Handle>>, ghost all: set<Handle>, ghost i: nat,
                 ghost j: nat,
                 list0: seq<Link>, next0: map<Handle, Link>, ghost chains0: seq<seq<Handle>>, x: Handle)
    returns (newList: seq<Link>, newNext: map<Handle, Link>, ghost newChains: seq<seq<Handle>>)
    requires Spread(chains, all) && i < |chains| && j < |chains[i]| && x == chains[i][j]
    requires PartMoved(list, chains, i, j, list0, next0, chains0)
    ensures PartMoved(list, chains, i, j + 1, newList, newNext, newChains) && |newChains| == |chains0|
  {
    ghost var done := Within(chains, i) + Members(chains[i][..j]);
    assert chains[i][..j + 1] == chains[i][..j] + [x];
    assert Within(chains, i) + Members(chains[i][..j + 1]) == done + {x};
    var b := Bucket(x.hash, |list0|);
    NotYetMoved(chains, all, i, j, done);
    InBucket(chains, all, i, j);
    MoveLinks(list0, next0, chains0, done, b, x);
    SpreadFront(chains0, done, b, x);
    LeftKept(list, next0, chains, all, i + 1, x, list0[b]);
    assert GoodBucket(chains, i, all);
    RestKept(next0, chains[i], j, x, list0[b]);
    newNext, newList := next0[x := list0[b]], list0[b := To(x)];
    newChains := chains0[b := [x] + chains0[b]];
  }

  /** Bucket `i` from position `j` on, and all later buckets, are still linked as before. */
  ghost predicate LeftPart(list: seq<Link>, next: map<Handle, Link>, chains: seq<seq<Handle>>, i: nat, j: nat) {
    && LeftChains(list, next, chains, i + 1)
    && i < |chains| && j <= |chains[i]| && Chain(next, LinkAt(chains[i], j), chains[i][j..])
  }

  // ---- Chains ----

  ghost function Members(c: seq<Handle>): set<Handle> {
    set h | h in c
  }

  /** The handles of the first `n` buckets. */
  ghost function Within(chains: seq<seq<Handle>>, n: nat): set<Handle>
    requires n <= |chains|
  {
    if n == 0 then {} else Within(chains, n - 1) + Members(chains[n - 1])
  }

  lemma {:induction false} WithinIs(chains: seq<seq<Handle>>, n: nat, h: Handle)
    requires n <= |chains|
    ensures h in Within(chains, n) <==> exists b :: 0 <= b < n && h in chains[b]
  {
    if n > 0 { WithinIs(chains, n - 1, h); }
  }

  lemma AllWithin(chains: seq<seq<Handle>>, all: set<Handle>)
    requires Spread(chains, all)
    ensures Within(chains, |chains|) == all
  {
    forall h ensures h in Within(chains, |chains|) <==> h in all {
      WithinIs(chains, |chains|, h);
      if h in all { assert Housed(chains, h); }
      if exists b :: 0 <= b < |chains| && h in chains[b] {
        var b :| 0 <= b < |chains| && h in chains[b];
        assert GoodBucket(chains, b, all);
      }
    }
  }

  /** The chains of the buckets not yet moved are still intact. */
  ghost predicate LeftChains(list: seq<Link>, next: map<Handle, Link>, chains: seq<seq<Handle>>, from: nat) {
    |list| == |chains| && forall b :: from <= b < |chains| ==> Chain(next, list[b], chains[b])
  }

  lemma NotFound(chains: seq<seq<Handle>>, all: set<Handle>, b: nat, k: nat, key: string, hash: nat)
    requires Spread(chains, all) && b == Bucket(hash, |chains|) && k <= |chains[b]|
    requires forall i :: 0 <= i < k ==> !Matches(chains[b][i], key, hash)
    ensures k < |chains[b]| ==> chains[b][k] in all
    ensures k == |chains[b]| ==> forall h :: h in all ==> !Matches(h, key, hash)
  {
    assert GoodBucket(chains, b, all);
    if k == |chains[b]| {
      forall h | h in all && h.hash == hash ensures !Matches(h, key, hash) {
        assert Housed(chains, h);
      }
    }
  }

  /** Relinking a handle that is not on a chain leaves the chain alone. */
  lemma ChainKept(next: map<Handle, Link>, head: Link, chain: seq<Handle>, x: Handle, link: Link)
    requires Chain(next, head, chain) && x !in chain
    ensures Chain(next[x := link], head, chain)
  {
    var next' := next[x := link];
    forall i | 0 <= i < |chain| ensures LinkedAt(next', chain, i) {
      assert LinkedAt(next, chain, i);
    }
  }

  /** A handle is on no chain but that of its own bucket. */
  lemma OnlyHome(chains: seq<seq<Handle>>, all: set<Handle>, b: nat, x: Handle)
    requires Spread(chains, all) && b < |chains| && (x !in all || Bucket(x.hash, |chains|) != b)
    ensures x !in chains[b]
  {
    assert GoodBucket(chains, b, all);
  }

  lemma InBucket(chains: seq<seq<Handle>>, all: set<Handle>, b: nat, k: nat)
    requires Spread(chains, all) && b < |chains| && k < |chains[b]|
    ensures chains[b][k] in all && Bucket(chains[b][k].hash, |chains|) == b
  {
    assert GoodBucket(chains, b, all);
  }

  lemma DistinctHandles(chain: seq<Handle>, i: nat)
    requires KeysDiffer(chain) && i < |chain|
    ensures forall j :: 0 <= j < |chain| && j != i ==> chain[j] != chain[i]
  {
    forall j | 0 <= j < |chain| && j != i ensures chain[j] != chain[i] {
      assert Differ(chain, i, j);
    }
  }

  function Replaced(c: seq<Handle>, k: nat, h: Handle): seq<Handle>
    requires k <= |c|
  {
    c[..k] + [h] + (if k < |c| then c[k + 1..] else [])
  }

  lemma ReplacedChain(list: seq<Link>, next: map<Handle, Link>, b: nat, c: seq<Handle>, k: nat, h: Handle,
                      head': Link, next': map<Handle, Link>)
    requires b < |list| && Chain(next, list[b], c) && k <= |c| && h !in c && KeysDiffer(c)
    requires var linked := next[h := LinkAt(c, k + 1)];
             && next' == (if k == 0 then linked else linked[c[k - 1] := To(h)])
             && head' == (if k == 0 then To(h) else list[b])
    ensures Chain(next', head', Replaced(c, k, h))
  {
    var c' := Replaced(c, k, h);
    if k > 0 { DistinctHandles(c, k - 1); }
    forall i | 0 <= i < |c'| ensures LinkedAt(next', c', i) {
      if i != k { assert c'[i] == c[i] && LinkedAt(next, c, i); }
      assert i + 1 < |c'| && i + 1 != k ==> c'[i + 1] == c[i + 1];
    }
  }

  lemma InsertLinks(list: seq<Link>, next: map<Handle, Link>, chains: seq<seq<Handle>>, all: set<Handle>, b: nat,
                    k: nat, h: Handle,
                    list': seq<Link>, next': map<Handle, Link>)
    requires Chains(list, next, chains) && Spread(chains, all) && b == Bucket(h.hash, |chains|) && k <= |chains[b]| &&
             h !in all
    requires var linked := next[h := LinkAt(chains[b], k + 1)];
             && next' == (if k == 0 then linked else linked[chains[b][k - 1] := To(h)])
             && list' == (if k == 0 then list[b := To(h)] else list)
    ensures Chains(list', next', chains[b := Replaced(chains[b], k, h)])
  {
    var linked := next[h := LinkAt(chains[b], k + 1)];
    OnlyHome(chains, all, b, h);
    assert GoodBucket(chains, b, all);
    ReplacedChain(list, next, b, chains[b], k, h, list'[b], next');
    forall a | 0 <= a < |chains| && a != b ensures Chain(next', list'[a], chains[a]) {
      assert Chain(next, list[a], chains[a]);
      OnlyHome(chains, all, a, h);
      ChainKept(next, list[a], chains[a], h, LinkAt(chains[b], k + 1));
      if k > 0 {
        InBucket(chains, all, b, k - 1);
        OnlyHome(chains, all, a, chains[b][k - 1]);
        ChainKept(linked, list[a], chains[a], chains[b][k - 1], To(h));
      }
    }
  }

  lemma InsertHolds(list: seq<Link>, next: map<Handle, Link>, chains: seq<seq<Handle>>, all: set<Handle>, b: nat,
                    k: nat, h: Handle)
    requires Holds(list, next, chains, all) && b == Bucket(h.hash, |chains|) && k <= |chains[b]| && h !in all
    requires forall i :: 0 <= i < k ==> !Matches(chains[b][i], h.key, h.hash)
    requires k < |chains[b]| ==> Matches(chains[b][k], h.key, h.hash)
    ensures var linked := next[h := LinkAt(chains[b], k + 1)];
            Holds(if k == 0 then list[b := To(h)] else list,
                  if k == 0 then linked else linked[chains[b][k - 1] := To(h)],
                  chains[b := Replaced(chains[b], k, h)], (if k < |chains[b]| then all - {chains[b][k]} else all) + {h})
  {
    var linked := next[h := LinkAt(chains[b], k + 1)];
    InsertLinks(list, next, chains, all, b, k, h, if k == 0 then list[b := To(h)] else list,
                if k == 0 then linked else linked[chains[b][k - 1] := To(h)]);
    SpreadReplace(chains, all, b, k, h);
  }

  lemma SizeAfter(all: set<Handle>, was: Link, h: Handle)
    requires h !in all && (was.To? ==> was.handle in all)
    ensures |(if was.Null? then all else all - {was.handle}) + {h}| == if was.Null? then |all| + 1 else |all|
  {
    var others := if was.Null? then all else all - {was.handle};
    assert |others + {h}| == |others| + 1;
  }

  lemma SpreadReplace(chains: seq<seq<Handle>>, all: set<Handle>, b: nat, k: nat, h: Handle)
    requires Spread(chains, all) && b == Bucket(h.hash, |chains|) && k <= |chains[b]| && h !in all
    requires forall i :: 0 <= i < k ==> !Matches(chains[b][i], h.key, h.hash)
    requires k < |chains[b]| ==> Matches(chains[b][k], h.key, h.hash)
    ensures Spread(chains[b := Replaced(chains[b], k, h)],
                   (if k < |chains[b]| then all - {chains[b][k]} else all) + {h})
  {
    var c := chains[b];
    var c' := Replaced(c, k, h);
    var gone := if k < |c| then {c[k]} else {};
    var all', chains' := all - gone + {h}, chains[b := c'];
    assert all' == (if k < |c| then all - {c[k]} else all) + {h};
    assert forall i :: 0 <= i < |c'| ==> c'[i] == if i == k then h else c[i];
    assert GoodBucket(chains, b, all);
    if k < |c| { DistinctHandles(c, k); }
    forall x | x in all' ensures Housed(chains', x) {
      if x == h {
        assert c'[k] == h;
      } else if Bucket(x.hash, |chains|) == b {
        assert Housed(chains, x);
        var i :| 0 <= i < |c| && c[i] == x;
        assert c'[i] == x;
      } else {
        assert Housed(chains, x);
      }
    }
    ReplacedDiffers(c, k, h);
    forall a | 0 <= a < |chains'| ensures GoodBucket(chains', a, all') {
      if a != b { HomeWithout(chains, all, a, b, k, h); }
    }
  }

  lemma ReplacedDiffers(c: seq<Handle>, k: nat, h: Handle)
    requires KeysDiffer(c) && k <= |c| && forall i :: 0 <= i < k ==> !Matches(c[i], h.key, h.hash)
    requires k < |c| ==> Matches(c[k], h.key, h.hash)
    ensures KeysDiffer(Replaced(c, k, h))
  {
    var c' := Replaced(c, k, h);
    forall i, j | 0 <= i < |c'| && 0 <= j < |c'| && i != j ensures Differ(c', i, j) {
      assert i < |c| && j < |c| ==> Differ(c, i, j);
    }
  }

  lemma HomeWithout(chains: seq<seq<Handle>>, all: set<Handle>, a: nat, b: nat, k: nat, h: Handle)
    requires Spread(chains, all) && a < |chains| && b < |chains| && a != b && k <= |chains[b]|
    ensures Home(chains[a], a, |chains|, (if k < |chains[b]| then all - {chains[b][k]} else all) + {h}) &&
            KeysDiffer(chains[a])
  {
    assert GoodBucket(chains, a, all);
    if k < |chains[b]| { InBucket(chains, all, b, k); }
  }

  lemma RemoveLinks(list: seq<Link>, next: map<Handle, Link>, chains: seq<seq<Handle>>, all: set<Handle>, b: nat,
                    k: nat,
                    list': seq<Link>, next': map<Handle, Link>)
    requires Chains(list, next, chains) && Spread(chains, all) && b < |chains| && k < |chains[b]|
    requires next' == (if k == 0 then next else next[chains[b][k - 1] := LinkAt(chains[b], k + 1)])
    requires list' == (if k == 0 then list[b := LinkAt(chains[b], k + 1)] else list)
    ensures Chains(list', next', chains[b := chains[b][..k] + chains[b][k + 1..]])
  {
    var c := chains[b];
    assert Chain(next, list[b], c) && GoodBucket(chains, b, all);
    RemovedChain(next, list[b], c, k, list'[b], next');
    forall a | 0 <= a < |chains| && a != b ensures Chain(next', list'[a], chains[a]) {
      assert Chain(next, list[a], chains[a]);
      if k > 0 {
        InBucket(chains, all, b, k - 1);
        OnlyHome(chains, all, a, c[k - 1]);
        ChainKept(next, list[a], chains[a], c[k - 1], LinkAt(c, k + 1));
      }
    }
  }

  lemma RemovedChain(next: map<Handle, Link>, head: Link, c: seq<Handle>, k: nat, head': Link, next': map<Handle, Link>)
    requires Chain(next, head, c) && KeysDiffer(c) && k < |c|
    requires next' == (if k == 0 then next else next[c[k - 1] := LinkAt(c, k + 1)])
    requires head' == (if k == 0 then LinkAt(c, k + 1) else head)
    ensures Chain(next', head', c[..k] + c[k + 1..])
  {
    var c' := c[..k] + c[k + 1..];
    if k > 0 { DistinctHandles(c, k - 1); }
    forall i | 0 <= i < |c'| ensures LinkedAt(next', c', i) {
      var j := if i < k then i else i + 1;
      assert c'[i] == c[j] && LinkedAt(next, c, j);
      assert LinkAt(c', i + 1) == if i + 1 < k then LinkAt(c, i + 1) else LinkAt(c, i + 2);
    }
  }

  lemma SpreadRemove(chains: seq<seq<Handle>>, all: set<Handle>, b: nat, k: nat)
    requires Spread(chains, all) && b < |chains| && k < |chains[b]|
    ensures Spread(chains[b := chains[b][..k] + chains[b][k + 1..]], all - {chains[b][k]})
  {
    var c := chains[b];
    var c' := c[..k] + c[k + 1..];
    var all', chains' := all - {c[k]}, chains[b := c'];
    assert GoodBucket(chains, b, all);
    DistinctHandles(c, k);
    assert forall i :: 0 <= i < |c'| ==> c'[i] == c[if i < k then i else i + 1];
    forall x | x in all' ensures Housed(chains', x) {
      assert Housed(chains, x);
      if Bucket(x.hash, |chains|) == b {
        var i :| 0 <= i < |c| && c[i] == x;
        assert c'[if i < k then i else i - 1] == x;
      }
    }
    RemovedDiffers(c, k);
    forall a | 0 <= a < |chains'| ensures GoodBucket(chains', a, all') {
      if a != b {
        assert GoodBucket(chains, a, all);
        InBucket(chains, all, b, k);
      }
    }
  }

  lemma RemovedDiffers(c: seq<Handle>, k: nat)
    requires KeysDiffer(c) && k < |c|
    ensures KeysDiffer(c[..k] + c[k + 1..])
  {
    var c' := c[..k] + c[k + 1..];
    forall i, j | 0 <= i < |c'| && 0 <= j < |c'| && i != j ensures Differ(c', i, j) {
      assert Differ(c, if i < k then i else i + 1, if j < k then j else j + 1);
    }
  }

  // ---- Moving handles to new buckets ----

  lemma SamePlace(c: seq<Handle>, i: nat, j: nat)
    requires KeysDiffer(c) && i < |c| && j < |c|
    ensures Matches(c[i], c[j].key, c[j].hash) ==> i == j
  {
    if i != j { assert Differ(c, i, j); }
  }

  /** Two handles of a table with the same key and hash are the same. */
  lemma KeysUnique(chains: seq<seq<Handle>>, all: set<Handle>, x: Handle, y: Handle)
    requires Spread(chains, all) && x in all && y in all
    ensures Matches(x, y.key, y.hash) ==> x == y
  {
    if Matches(x, y.key, y.hash) {
      var b := Bucket(x.hash, |chains|);
      var c := chains[b];
      assert GoodBucket(chains, b, all) && Housed(chains, x) && Housed(chains, y);
      var i :| 0 <= i < |c| && c[i] == x;
      var j :| 0 <= j < |c| && c[j] == y;
      SamePlace(c, i, j);
    }
  }

  lemma OnlyMatch(chains: seq<seq<Handle>>, all: set<Handle>, y: Handle, key: string, hash: nat)
    requires Spread(chains, all) && y in all && Matches(y, key, hash)
    ensures forall x :: x in all && Matches(x, key, hash) ==> x == y
  {
    forall x | x in all && Matches(x, key, hash) ensures x == y { KeysUnique(chains, all, x, y); }
  }

  lemma NotYetMoved(chains: seq<seq<Handle>>, all: set<Handle>, i: nat, j: nat, done: set<Handle>)
    requires Spread(chains, all) && i < |chains| && j < |chains[i]| &&
             done == Within(chains, i) + Members(chains[i][..j])
    ensures chains[i][j] in all && chains[i][j] !in done
    ensures forall y :: y in done ==> !Matches(chains[i][j], y.key, y.hash)
  {
    var x := chains[i][j];
    InBucket(chains, all, i, j);
    assert GoodBucket(chains, i, all);
    DistinctHandles(chains[i], j);
    WithinIs(chains, i, x);
    forall b | 0 <= b < i ensures x !in chains[b] { OnlyHome(chains, all, b, x); }
    forall y | y in done ensures y in all && !Matches(x, y.key, y.hash) {
      if y in Within(chains, i) {
        WithinIs(chains, i, y);
        var b :| 0 <= b < i && y in chains[b];
        assert GoodBucket(chains, b, all);
      } else {
        assert y in chains[i] && GoodBucket(chains, i, all);
      }
      KeysUnique(chains, all, x, y);
    }
  }

  /** Putting a new handle at the front of its bucket. */
  lemma MoveLinks(list: seq<Link>, next: map<Handle, Link>, chains: seq<seq<Handle>>, done: set<Handle>, b: nat,
                  x: Handle)
    requires Chains(list, next, chains) && Spread(chains, done) && b == Bucket(x.hash, |chains|) && x !in done
    ensures Chains(list[b := To(x)], next[x := list[b]], chains[b := [x] + chains[b]])
  {
    var list', next', chains' := list[b := To(x)], next[x := list[b]], chains[b := [x] + chains[b]];
    forall a | 0 <= a < |chains'| ensures Chain(next', list'[a], chains'[a]) {
      assert Chain(next, list[a], chains[a]);
      OnlyHome(chains, done, a, x);
      ChainKept(next, list[a], chains[a], x, list[b]);
      if a == b { FrontChain(next', list[b], chains[b], x); }
    }
  }

  lemma FrontChain(next: map<Handle, Link>, head: Link, c: seq<Handle>, x: Handle)
    requires Chain(next, head, c) && x in next && next[x] == head
    ensures Chain(next, To(x), [x] + c)
  {
    var c' := [x] + c;
    forall i | 0 <= i < |c'| ensures LinkedAt(next, c', i) {
      if i > 0 { assert LinkedAt(next, c, i - 1); }
    }
  }

  lemma SpreadFront(chains: seq<seq<Handle>>, done: set<Handle>, b: nat, x: Handle)
    requires Spread(chains, done) && b == Bucket(x.hash, |chains|) && x !in done
    requires forall y :: y in done ==> !Matches(x, y.key, y.hash)
    ensures Spread(chains[b := [x] + chains[b]], done + {x})
  {
    var chains', done' := chains[b := [x] + chains[b]], done + {x};
    assert GoodBucket(chains, b, done);
    FrontDiffers(chains[b], x);
    forall a | 0 <= a < |chains'| ensures GoodBucket(chains', a, done') {
      assert GoodBucket(chains, a, done);
      HomeMore(chains[a], a, |chains|, done, x);
    }
    FrontHas(chains, done, b, x);
  }

  lemma FrontHas(chains: seq<seq<Handle>>, done: set<Handle>, b: nat, x: Handle)
    requires |chains| > 0 && b == Bucket(x.hash, |chains|) && forall h :: h in done ==> Housed(chains, h)
    ensures var chains' := chains[b := [x] + chains[b]]; forall h :: h in done + {x} ==> Housed(chains', h)
  {
    var chains' := chains[b := [x] + chains[b]];
    assert ([x] + chains[b])[0] == x;
    forall h | h in done + {x} ensures Housed(chains', h) {
      if h != x { assert Housed(chains, h); }
    }
  }

  lemma HomeMore(c: seq<Handle>, b: nat, length: nat, done: set<Handle>, x: Handle)
    requires length > 0 && Home(c, b, length, done)
    ensures Home(c, b, length, done + {x}) && (Bucket(x.hash, length) == b ==> Home([x] + c, b, length, done + {x}))
  {
  }

  lemma FrontDiffers(c: seq<Handle>, x: Handle)
    requires KeysDiffer(c) && forall i :: 0 <= i < |c| ==> !Matches(x, c[i].key, c[i].hash)
    ensures KeysDiffer([x] + c)
  {
    var c' := [x] + c;
    forall i, j | 0 <= i < |c'| && 0 <= j < |c'| && i != j ensures Differ(c', i, j) {
      if i > 0 && j > 0 { assert Differ(c, i - 1, j - 1); }
    }
  }

  lemma LeftKept(list: seq<Link>, next: map<Handle, Link>, chains: seq<seq<Handle>>, all: set<Handle>, from: nat,
                 x: Handle, link: Link)
    requires LeftChains(list, next, chains, from) && Spread(chains, all) && Bucket(x.hash, |chains|) < from
    ensures LeftChains(list, next[x := link], chains, from)
  {
    forall b | from <= b < |chains| ensures Chain(next[x := link], list[b], chains[b]) {
      OnlyHome(chains, all, b, x);
      ChainKept(next, list[b], chains[b], x, link);
    }
  }

  lemma RestKept(next: map<Handle, Link>, c: seq<Handle>, j: nat, x: Handle, link: Link)
    requires j < |c| && c[j] == x && KeysDiffer(c) && Chain(next, To(x), c[j..])
    ensures x in next && next[x] == LinkAt(c, j + 1) && Chain(next[x := link], LinkAt(c, j + 1), c[j + 1..])
  {
    var all, rest := c[j..], c[j + 1..];
    DistinctHandles(c, j);
    assert LinkedAt(next, all, 0) && all[0] == x;
    assert LinkAt(all, 1) == LinkAt(rest, 0);
    var next' := next[x := link];
    forall i | 0 <= i < |rest| ensures LinkedAt(next', rest, i) {
      assert rest[i] == all[i + 1] && LinkedAt(next, all, i + 1);
      assert rest[i] != c[j];
    }
  }
}
