/**
 One shard of the LRU cache: handles counted by references, two lists of the
 handles that are in the cache, a hash table and the total charge. The lists
 hold handles from oldest to newest.
 */
module LruCache {
  import opened HandleTables

  datatype Info = Info(refs: nat, inCache: bool)

  /**
   `charges` remembers the charge of every handle ever made, `finished` the handles whose deleter has run, in order.
   */
  datatype State = State(
    usage: int,
    infos: map<Handle, Info>,
    lru: seq<Handle>,
    inUse: seq<Handle>,
    charges: map<Handle, nat>,
    finished: seq<Handle>)

  // ---- Lists ----

  function RemoveFrom(q: seq<Handle>, h: Handle): seq<Handle> {
    if q == [] then [] else if q[0] == h then q[1..] else [q[0]] + RemoveFrom(q[1..], h)
  }

  ghost predicate NoDuplicates(q: seq<Handle>) {
    forall i, j :: 0 <= i < j < |q| ==> q[i] != q[j]
  }

  function Sum(charges: map<Handle, nat>, q: seq<Handle>): nat {
    if q == [] then 0 else (if q[0] in charges then charges[q[0]] else 0) + Sum(charges, q[1..])
  }

  lemma {:induction false} RemoveIs(q: seq<Handle>, h: Handle)
    requires NoDuplicates(q)
    ensures NoDuplicates(RemoveFrom(q, h))
    ensures forall x :: x in RemoveFrom(q, h) <==> x in q && x != h
    ensures h !in q ==> RemoveFrom(q, h) == q
  {
    if q != [] {
      Split(q);
      if q[0] != h {
        RemoveIs(q[1..], h);
        Joined(q[0], RemoveFrom(q[1..], h));
      }
    }
  }

  lemma Split(q: seq<Handle>)
    requires q != [] && NoDuplicates(q)
    ensures NoDuplicates(q[1..]) && q[0] !in q[1..] && q == [q[0]] + q[1..] && forall x :: x in q <==>
            x == q[0] || x in q[1..]
  {
    assert q == [q[0]] + q[1..];
  }

  lemma Joined(x: Handle, q: seq<Handle>)
    requires NoDuplicates(q) && x !in q
    ensures NoDuplicates([x] + q) && forall y :: y in [x] + q <==> y == x || y in q
  {
  }

  lemma {:induction false} SumRemove(charges: map<Handle, nat>, q: seq<Handle>, h: Handle)
    requires NoDuplicates(q) && h in charges
    ensures Sum(charges, RemoveFrom(q, h)) == Sum(charges, q) - if h in q then charges[h] else 0
  {
    if q != [] {
      assert q == [q[0]] + q[1..];
      if q[0] != h {
        SumRemove(charges, q[1..], h);
        assert ([q[0]] + RemoveFrom(q[1..], h))[1..] == RemoveFrom(q[1..], h);
      }
    }
  }

  lemma {:induction false} SumAppend(charges: map<Handle, nat>, q: seq<Handle>, h: Handle)
    requires h in charges
    ensures Sum(charges, q + [h]) == Sum(charges, q) + charges[h]
  {
    if q == [] {
      assert q + [h] == [h] && [h][1..] == [];
    } else {
      SumAppend(charges, q[1..], h);
      assert (q + [h])[1..] == q[1..] + [h];
    }
  }

  lemma {:induction false} SumOther(charges: map<Handle, nat>, q: seq<Handle>, h: Handle, charge: nat)
    requires h !in q
    ensures Sum(charges[h := charge], q) == Sum(charges, q)
  {
    if q != [] { SumOther(charges, q[1..], h, charge); }
  }

  // ---- Reference counting ----

  function ListRemove(s: State, h: Handle): State {
    s.(lru := RemoveFrom(s.lru, h), inUse := RemoveFrom(s.inUse, h))
  }

  function Ref(s: State, h: Handle): State
    requires h in s.infos
  {
    var i := s.infos[h];
    var moved := if i.refs == 1 && i.inCache then var r := ListRemove(s, h); r.(inUse := r.inUse + [h]) else s;
    moved.(infos := s.infos[h := i.(refs := i.refs + 1)])
  }

  function Unref(s: State, h: Handle): State
    requires h in s.infos && s.infos[h].refs > 0
  {
    var i := s.infos[h].(refs := s.infos[h].refs - 1);
    if i.refs == 0 then
      s.(infos := s.infos - {h}, finished := s.finished + [h])
    else
      var t := s.(infos := s.infos[h := i]);
      if i.inCache && i.refs == 1 then var r := ListRemove(t, h); r.(lru := r.lru + [h]) else t
  }

  /** The handle has left the hash table. */
  function FinishErase(s: State, h: Handle): State
    requires h in s.infos && h in s.charges && s.infos[h].refs > 0
  {
    var t := ListRemove(s, h);
    Unref(t.(infos := s.infos[h := s.infos[h].(inCache := false)], usage := s.usage - s.charges[h]), h)
  }

  /** A new handle held by the caller and, if it is cached, by the cache. */
  function Create(s: State, h: Handle, charge: nat, caching: bool): State {
    if caching then
      s.(infos := s.infos[h := Info(2, true)], inUse := s.inUse + [h], charges := s.charges[h := charge],
         usage := s.usage + charge)
    else
      s.(infos := s.infos[h := Info(1, false)], charges := s.charges[h := charge])
  }

  // ---- Invariant ----

  /** `held` counts the references of clients, `cached` is what the hash table holds. */
  ghost predicate RefsOK(s: State, held: multiset<Handle>, cached: set<Handle>) {
    && (forall h :: h in s.infos ==>
          s.infos[h].refs == held[h] + (if s.infos[h].inCache then 1 else 0) && s.infos[h].refs > 0)
    && (forall h :: h in held ==> h in s.infos)
    && (forall h :: h in cached <==> h in s.infos && s.infos[h].inCache)
  }

  /** Each cached handle is on exactly one list: the LRU list exactly when only the cache refers to it. */
  ghost predicate ListsOK(s: State) {
    && NoDuplicates(s.lru) && NoDuplicates(s.inUse)
    && (forall h :: h in s.lru <==> h in s.infos && s.infos[h].inCache && s.infos[h].refs == 1)
    && (forall h :: h in s.inUse <==> h in s.infos && s.infos[h].inCache && s.infos[h].refs >= 2)
  }

  ghost predicate UsageOK(s: State) {
    s.usage == Sum(s.charges, s.lru) + Sum(s.charges, s.inUse)
  }

  /** Deleters run once, and never for a handle somebody still refers to. */
  ghost predicate FinishedOK(s: State) {
    && NoDuplicates(s.finished)
    && (forall h :: h in s.finished ==> h !in s.infos)
    && (forall h :: h in s.charges <==> h in s.infos || h in s.finished)
  }

  ghost predicate Inv(s: State, held: multiset<Handle>, cached: set<Handle>) {
    RefsOK(s, held, cached) && ListsOK(s) && UsageOK(s) && FinishedOK(s)
  }

  lemma Listed(s: State, h: Handle)
    requires ListsOK(s)
    ensures var r := ListRemove(s, h);
            && NoDuplicates(r.lru) && NoDuplicates(r.inUse)
            && (forall x :: x in r.lru <==> x in s.lru && x != h) &&
                (forall x :: x in r.inUse <==> x in s.inUse && x != h)
  {
    RemoveIs(s.lru, h);
    RemoveIs(s.inUse, h);
  }

  lemma ChargesAfterRemove(s: State, h: Handle)
    requires ListsOK(s) && UsageOK(s) && h in s.charges
    ensures var r := ListRemove(s, h);
            Sum(s.charges, r.lru) + Sum(s.charges, r.inUse) ==
            s.usage - if h in s.lru || h in s.inUse then s.charges[h] else 0
  {
    SumRemove(s.charges, s.lru, h);
    SumRemove(s.charges, s.inUse, h);
  }

  lemma RefRefs(s: State, held: multiset<Handle>, cached: set<Handle>, h: Handle)
    requires RefsOK(s, held, cached) && h in s.infos
    ensures RefsOK(Ref(s, h), held + multiset{h}, cached)
  {
  }

  lemma RefLists(s: State, h: Handle)
    requires ListsOK(s) && h in s.infos && s.infos[h].refs > 0
    ensures ListsOK(Ref(s, h))
  {
    Listed(s, h);
  }

  lemma RefUsage(s: State, h: Handle)
    requires ListsOK(s) && UsageOK(s) && h in s.infos && h in s.charges
    ensures UsageOK(Ref(s, h))
  {
    ChargesAfterRemove(s, h);
    SumAppend(s.charges, RemoveFrom(s.inUse, h), h);
  }

  /** Handing out another reference. */
  lemma RefKeepsInv(s: State, held: multiset<Handle>, cached: set<Handle>, h: Handle)
    requires Inv(s, held, cached) && h in s.infos
    ensures Inv(Ref(s, h), held + multiset{h}, cached)
  {
    RefRefs(s, held, cached, h);
    RefLists(s, h);
    RefUsage(s, h);
    assert FinishedOK(Ref(s, h));
  }

  lemma UnrefRefs(s: State, held: multiset<Handle>, cached: set<Handle>, h: Handle)
    requires RefsOK(s, held, cached) && held[h] > 0
    ensures RefsOK(Unref(s, h), held - multiset{h}, cached)
  {
  }

  lemma UnrefLists(s: State, h: Handle)
    requires ListsOK(s) && h in s.infos && s.infos[h].refs > (if s.infos[h].inCache then 1 else 0)
    ensures ListsOK(Unref(s, h))
  {
    Listed(s, h);
  }

  lemma UnrefUsage(s: State, h: Handle)
    requires ListsOK(s) && UsageOK(s) && h in s.infos && h in s.charges &&
             s.infos[h].refs > (if s.infos[h].inCache then 1 else 0)
    ensures UsageOK(Unref(s, h))
  {
    ChargesAfterRemove(s, h);
    SumAppend(s.charges, RemoveFrom(s.lru, h), h);
  }

  lemma UnrefFinished(s: State, h: Handle)
    requires FinishedOK(s) && h in s.infos && s.infos[h].refs > 0
    ensures FinishedOK(Unref(s, h))
  {
  }

  lemma LastReference(s: State, held: multiset<Handle>, cached: set<Handle>, h: Handle)
    requires RefsOK(s, held, cached) && held[h] > 0
    ensures Unref(s, h).finished == s.finished + if held[h] == 1 && h !in cached then [h] else []
  {
  }

  /** Giving a reference back; the last one runs the deleter. */
  lemma UnrefKeepsInv(s: State, held: multiset<Handle>, cached: set<Handle>, h: Handle)
    requires Inv(s, held, cached) && held[h] > 0
    ensures Inv(Unref(s, h), held - multiset{h}, cached)
  {
    UnrefRefs(s, held, cached, h);
    UnrefLists(s, h);
    UnrefUsage(s, h);
    UnrefFinished(s, h);
  }

  lemma EraseRefs(s: State, held: multiset<Handle>, cached: set<Handle>, h: Handle)
    requires RefsOK(s, held, cached) && h in cached && h in s.charges
    ensures RefsOK(FinishErase(s, h), held, cached - {h})
  {
  }

  lemma EraseLists(s: State, h: Handle)
    requires ListsOK(s) && h in s.infos && h in s.charges && s.infos[h].refs > 0
    ensures ListsOK(FinishErase(s, h))
  {
    Listed(s, h);
  }

  /** Taking a handle out of the cache. */
  lemma EraseKeepsInv(s: State, held: multiset<Handle>, cached: set<Handle>, h: Handle)
    requires Inv(s, held, cached) && h in cached
    ensures Inv(FinishErase(s, h), held, cached - {h})
    ensures FinishErase(s, h).usage == s.usage - s.charges[h] && FinishErase(s, h).charges == s.charges
    ensures FinishErase(s, h).lru == RemoveFrom(s.lru, h)
  {
    EraseRefs(s, held, cached, h);
    EraseLists(s, h);
    ChargesAfterRemove(s, h);
    assert UsageOK(FinishErase(s, h));
    assert FinishedOK(FinishErase(s, h));
  }

  lemma CreateUsage(s: State, h: Handle, charge: nat, caching: bool)
    requires UsageOK(s) && h !in s.lru && h !in s.inUse
    ensures UsageOK(Create(s, h, charge, caching))
  {
    var charges := s.charges[h := charge];
    SumOther(s.charges, s.lru, h, charge);
    SumOther(s.charges, s.inUse, h, charge);
    SumAppend(charges, s.inUse, h);
  }

  lemma CreateRefs(s: State, held: multiset<Handle>, cached: set<Handle>, h: Handle, charge: nat, caching: bool)
    requires RefsOK(s, held, cached) && h !in s.infos
    ensures RefsOK(Create(s, h, charge, caching), held + multiset{h}, if caching then cached + {h} else cached)
  {
    assert held[h] == 0;
  }

  lemma CreateLists(s: State, h: Handle, charge: nat, caching: bool)
    requires ListsOK(s) && h !in s.infos
    ensures ListsOK(Create(s, h, charge, caching))
  {
  }

  lemma CreateKeepsInv(s: State, held: multiset<Handle>, cached: set<Handle>, h: Handle, charge: nat, caching: bool)
    requires Inv(s, held, cached) && h !in s.charges
    ensures Inv(Create(s, h, charge, caching), held + multiset{h}, if caching then cached + {h} else cached)
  {
    CreateUsage(s, h, charge, caching);
    CreateRefs(s, held, cached, h, charge, caching);
    CreateLists(s, h, charge, caching);
    assert FinishedOK(Create(s, h, charge, caching));
  }

  // ---- The cache ----

  ghost predicate IdsBelow(charges: map<Handle, nat>, n: nat) {
    forall h :: h in charges ==> h.id < n
  }

  ghost predicate Hashed(all: set<Handle>, hashOf: string -> nat) {
    forall h :: h in all ==> h.hash == hashOf(h.key)
  }

  lemma OneMore(charges: map<Handle, nat>, all: set<Handle>, hashOf: string -> nat, h: Handle, charge: nat)
    requires IdsBelow(charges, h.id) && Hashed(all, hashOf) && h.hash == hashOf(h.key)
    ensures h !in charges && IdsBelow(charges[h := charge], h.id + 1) && Hashed(all + {h}, hashOf)
  {
  }

  class LRUCache {
    const capacity: nat
    const hashOf: string -> nat
    const table: HandleTable
    var state: State
    var nextId: nat
    ghost var held: multiset<Handle>    // handles in the hands of clients

    ghost predicate Valid()
      reads this, table
    {
      table.Valid() && Inv(state, held, table.all) && IdsBelow(state.charges, nextId) && Hashed(table.all, hashOf)
    }

    constructor (capacity: nat, hashOf: string -> nat)
      ensures Valid() && this.capacity == capacity && this.hashOf == hashOf && fresh(table)
      ensures state == State(0, map[], [], [], map[], []) && held == multiset{}
    {
      this.capacity, this.hashOf := capacity, hashOf;
      table := new HandleTable();
      state, nextId, held := State(0, map[], [], [], map[], []), 0, multiset{};
    }

    /** The cached handle with this key, if any, with one more reference. */
    method Lookup(key: string) returns (r: Link)
      requires Valid()
      modifies this`state, this`held
      ensures Valid() && table.all == old(table.all)
      ensures r.To? <==> exists h :: h in table.all && h.key == key
      ensures r.To? ==> r.handle in table.all && r.handle.key == key
      ensures r.To? ==> held == old(held) + multiset{r.handle} && state == Ref(old(state), r.handle)
      ensures r.Null? ==> held == old(held) && state == old(state)
    {
      r := table.Lookup(key, hashOf(key));
      if r.To? {
        RefKeepsInv(state, held, table.all, r.handle);
        state, held := Ref(state, r.handle), held + multiset{r.handle};
      }
    }

    method Release(h: Handle)
      requires Valid() && held[h] > 0
      modifies this`state, this`held
      ensures Valid() && table.all == old(table.all) && held == old(held) - multiset{h} && state == Unref(old(state), h)
      // the deleter runs exactly when this was the last reference of all
      ensures state.finished == old(state).finished + if old(held)[h] == 1 && h !in table.all then [h] else []
    {
      UnrefKeepsInv(state, held, table.all, h);
      LastReference(state, held, table.all, h);
      state, held := Unref(state, h), held - multiset{h};
    }

    method Erase(key: string)
      requires Valid()
      modifies this`state, table
      ensures Valid() && Without(old(table.all), key, table.all)
      ensures forall h :: h in old(table.all) && h.key == key ==> state == FinishErase(old(state), h)
      ensures table.all == old(table.all) ==> state == old(state)
    {
      ghost var before := table.all;
      var r := table.Remove(key, hashOf(key));
      if r.To? {
        EraseKeepsInv(state, held, before, r.handle);
        state := FinishErase(state, r.handle);
      }
    }

    /** One turn of the eviction loops: the oldest unused handle goes, and its deleter runs. */
    method EvictOldest()
      requires Valid() && state.lru != []
      modifies this`state, table
      ensures Valid() && Evicted(old(state), 1, state) && table.all == old(table.all) - {old(state).lru[0]}
    {
      var e := state.lru[0];
      EvictStep(state, held, table.all);
      var _ := table.Remove(e.key, e.hash);
      state := FinishErase(state, e);
    }

    /** Evicts every handle no client holds. */
    method Prune()
      requires Valid()
      modifies this`state, table
      ensures Valid() && state.lru == [] && Evicted(old(state), |old(state).lru|, state)
    {
      ghost var n := 0;
      EvictedNone(state);
      while state.lru != []
        invariant Valid() && n <= |old(state).lru| && Evicted(old(state), n, state)
        decreases |old(state).lru| - n
      {
        ghost var before := state;
        EvictOldest();
        EvictedMore(old(state), n, before, state, capacity);
        n := n + 1;
      }
    }

    /**
     Evicts, oldest first, until the charge fits or nothing is left to evict; `n` handles go, and no fewer would do.
     */
    method EvictToFit() returns (ghost n: nat)
      requires Valid()
      modifies this`state, table
      ensures Valid() && n <= |old(state).lru| && Evicted(old(state), n, state)
      ensures state.usage <= capacity || state.lru == []
      ensures NoFewer(old(state), n, state, capacity)
      ensures table.all <= old(table.all)
    {
      n := 0;
      EvictedNone(state);
      while state.usage > capacity && state.lru != []
        invariant Valid() && n <= |old(state).lru| && Evicted(old(state), n, state)
        invariant NoFewer(old(state), n, state, capacity)
        invariant table.all <= old(table.all)
        decreases |old(state).lru| - n
      {
        ghost var before := state;
        EvictOldest();
        EvictedMore(old(state), n, before, state, capacity);
        n := n + 1;
      }
    }

    /** Puts a new handle in the hash table, unless the capacity is zero. */
    method Enter(h: Handle) returns (was: Link)
      requires table.Valid() && h !in table.all && h.hash == hashOf(h.key) && Hashed(table.all, hashOf)
      modifies table
      ensures table.Valid() && Hashed(table.all, hashOf)
      ensures was.To? ==> capacity > 0 && was.handle in old(table.all) && was.handle.key == h.key
      ensures table.all == Entered(old(table.all), h, capacity > 0, was)
      ensures capacity > 0 ==> OnlyOne(table.all, h)
    {
      was := Null;
      ghost var before := table.all;
      if capacity > 0 {
        was := table.Insert(h);
        OneHandlePerKey(before, hashOf, h, was);
      }
    }

    /** Makes a handle and puts it in the cache, unless the capacity is zero, in place of the key's old one. */
    method Place(key: string, charge: nat) returns (h: Handle, ghost was: Link)
      requires Valid()
      modifies this, table
      ensures Valid() && h.key == key && h !in old(state).charges && held == old(held) + multiset{h}
      ensures was.To? ==> was.handle in old(table.all) && was.handle.key == key
      ensures state == Placed(old(state), h, charge, capacity > 0, was)
      ensures capacity > 0 ==> OnlyOne(table.all, h)
    {
      h := Handle(nextId, key, hashOf(key));
      ghost var before := table.all;
      OneMore(state.charges, before, hashOf, h, charge);
      Charged(state, held, before);
      var r := Enter(h);
      was := r;
      nextId := nextId + 1;
      state := PlaceIn(state, held, before, h, charge, capacity > 0, r);
      held := held + multiset{h};
    }

    /**
     A new handle for the key. With a positive capacity it takes the place of the key's old handle in the
     cache; then the oldest unused handles are evicted while the charge is too high.
     */
    method Insert(key: string, charge: nat) returns (h: Handle, ghost was: Link, ghost n: nat)
      requires Valid()
      modifies this, table
      ensures Valid() && h.key == key && h !in old(state).charges && held == old(held) + multiset{h}
      ensures state.usage <= capacity || state.lru == []
      ensures was.To? ==> was.handle in old(table.all) && was.handle.key == key
      ensures var placed := Placed(old(state), h, charge, capacity > 0, was);
              Evicted(placed, n, state) && NoFewer(placed, n, state, capacity)
      ensures capacity > 0 ==> OnlyOne(table.all, h)
    {
      h, was := Place(key, charge);
      n := EvictToFit();
    }
  }

  /**
   The destructor's loop over the LRU list, when no client holds a handle: every handle ever made has been deleted
   once.
   */
  method Destroy(s: State, ghost cached: set<Handle>) returns (finished: seq<Handle>)
    requires Inv(s, multiset{}, cached)
    ensures s.inUse == [] && NoDuplicates(finished) && forall h :: h in s.charges <==> h in finished
  {
    NonEmptyHas(s.inUse);
    assert forall h :: h !in s.inUse;
    finished := s.finished;
    for i := 0 to |s.lru|
      invariant finished == s.finished + s.lru[..i]
    {
      finished := finished + [s.lru[i]];
    }
    AllFinished(s, cached);
    assert finished == s.finished + s.lru;
  }

  lemma NonEmptyHas(q: seq<Handle>)
    ensures q == [] || exists h :: h in q
  {
    if q != [] { assert q[0] in q; }
  }

  lemma AllFinished(s: State, cached: set<Handle>)
    requires Inv(s, multiset{}, cached)
    ensures NoDuplicates(s.finished + s.lru) && forall h :: h in s.charges <==> h in s.finished + s.lru
  {
    var all := s.finished + s.lru;
    assert forall i :: 0 <= i < |s.lru| ==> s.lru[i] in s.lru;
    assert forall i :: 0 <= i < |s.finished| ==> s.finished[i] in s.finished;
    forall h | h in s.infos ensures h in s.lru {
      assert s.infos[h].refs == 1 && s.infos[h].inCache;
    }
  }

  // ---- Insertion and eviction ----

  /** What the hash table holds after the new handle came and the old one of its key left. */
  ghost function Entered(cached: set<Handle>, h: Handle, caching: bool, was: Link): set<Handle> {
    if !caching then cached else if was.To? then cached - {was.handle} + {h} else cached + {h}
  }

  lemma OneHandlePerKey(before: set<Handle>, hashOf: string -> nat, h: Handle, was: Link)
    requires Hashed(before, hashOf) && h.hash == hashOf(h.key)
    requires forall x :: x in before && Matches(x, h.key, h.hash) ==> was == To(x)
    ensures Hashed(Entered(before, h, true, was), hashOf) && OnlyOne(Entered(before, h, true, was), h)
  {
  }

  /** No other handle has the key of `h`. */
  ghost predicate OnlyOne(all: set<Handle>, h: Handle) {
    forall x :: x in all && x.key == h.key ==> x == h
  }

  lemma Charged(s: State, held: multiset<Handle>, cached: set<Handle>)
    requires Inv(s, held, cached)
    ensures forall x :: x in cached ==> x in s.charges
  {
  }

  method PlaceIn(s: State, ghost held: multiset<Handle>, ghost cached: set<Handle>, h: Handle, charge: nat,
                 caching: bool, was: Link)
    returns (t: State)
    requires Inv(s, held, cached) && h !in s.charges
    requires was.To? ==> caching && was.handle in cached
    ensures Inv(t, held + multiset{h}, Entered(cached, h, caching, was)) && t.charges == s.charges[h := charge] &&
            t == Placed(s, h, charge, caching, was)
  {
    PlacedKeepsInv(s, held, cached, h, charge, caching, was);
    t := Create(s, h, charge, caching);
    if was.To? { t := FinishErase(t, was.handle); }
  }

  lemma PlacedKeepsInv(s: State, held: multiset<Handle>, cached: set<Handle>, h: Handle, charge: nat, caching: bool,
                       was: Link)
    requires Inv(s, held, cached) && h !in s.charges
    requires was.To? ==> caching && was.handle in cached
    ensures Inv(Placed(s, h, charge, caching, was), held + multiset{h}, Entered(cached, h, caching, was))
    ensures Placed(s, h, charge, caching, was).charges == s.charges[h := charge]
    ensures was.To? ==> var t := Create(s, h, charge, caching);
                        && was.handle in t.infos && was.handle in t.charges && t.infos[was.handle].refs > 0
                        && Placed(s, h, charge, caching, was) == FinishErase(t, was.handle)
  {
    CreateKeepsInv(s, held, cached, h, charge, caching);
    if was.To? {
      Charged(s, held, cached);
      EraseKeepsInv(Create(s, h, charge, true), held + multiset{h}, cached + {h}, was.handle);
      Swap(cached, h, was.handle);
    }
  }

  lemma Swap(cached: set<Handle>, h: Handle, gone: Handle)
    requires h != gone
    ensures cached - {gone} + {h} == cached + {h} - {gone}
  {
  }

  /** The state after the new handle joined and the old one of its key, if any, left. */
  ghost function Placed(s: State, h: Handle, charge: nat, caching: bool, was: Link): State {
    var t := Create(s, h, charge, caching);
    if was.To? && was.handle in t.infos && was.handle in t.charges && t.infos[was.handle].refs > 0
    then FinishErase(t, was.handle)
    else t
  }

  ghost function ChargeOf(s: State, h: Handle): nat {
    if h in s.charges then s.charges[h] else 0
  }

  /** The `n` oldest handles of the LRU list have gone and been deleted, in order; nothing else changed. */
  ghost predicate Evicted(s: State, n: nat, t: State) {
    && n <= |s.lru|
    && t.lru == s.lru[n..] && t.inUse == s.inUse && t.charges == s.charges
    && t.finished == s.finished + s.lru[..n]
    && t.usage == s.usage - Sum(s.charges, s.lru[..n])
    && (forall h :: h in t.infos <==> h in s.infos && h !in s.lru[..n])
    && (forall h :: h in t.infos ==> t.infos[h] == s.infos[h])
  }

  /** Without the last of the `n` evictions the charge would not fit. */
  ghost predicate NoFewer(s: State, n: nat, t: State, capacity: int) {
    0 < n <= |s.lru| ==> t.usage + ChargeOf(s, s.lru[n - 1]) > capacity
  }

  lemma EvictedNone(s: State)
    ensures Evicted(s, 0, s)
  {
  }

  lemma EvictedOne(s: State, held: multiset<Handle>, cached: set<Handle>)
    requires Inv(s, held, cached) && s.lru != []
    ensures s.lru[0] in s.infos && s.lru[0] in s.charges && s.infos[s.lru[0]].refs > 0
    ensures Evicted(s, 1, FinishErase(s, s.lru[0]))
  {
    var e := s.lru[0];
    assert e in s.lru;
    RemoveIs(s.inUse, e);
    assert s.lru[..1] == [e] && [e][1..] == [];
    assert Sum(s.charges, [e]) == s.charges[e];
  }

  /** Evicting the oldest handle keeps the invariant. */
  lemma EvictStep(s: State, held: multiset<Handle>, cached: set<Handle>)
    requires Inv(s, held, cached) && s.lru != []
    ensures var e := s.lru[0];
            && e in cached && e in s.infos && e in s.charges && s.infos[e].refs > 0 && Matches(e, e.key, e.hash)
            && Inv(FinishErase(s, e), held, cached - {e}) && Evicted(s, 1, FinishErase(s, e))
            && FinishErase(s, e).charges == s.charges
  {
    assert s.lru[0] in s.lru && s.lru[0] in cached;
    EvictedOne(s, held, cached);
    EraseKeepsInv(s, held, cached, s.lru[0]);
  }

  lemma EvictedMore(s: State, n: nat, t: State, u: State, capacity: int)
    requires Evicted(s, n, t) && Evicted(t, 1, u) && t.lru != []
    ensures n < |s.lru| && Evicted(s, n + 1, u)
    ensures t.usage > capacity ==> NoFewer(s, n + 1, u, capacity)
  {
    var e := t.lru[0];
    assert s.lru[..n + 1] == s.lru[..n] + [e] && t.lru[..1] == [e] && [e][1..] == [];
    SumConcat(s.charges, s.lru[..n], [e]);
    assert Sum(s.charges, [e]) == ChargeOf(s, e);
    assert s.lru[n..][1..] == s.lru[n + 1..];
  }

  lemma {:induction false} SumConcat(charges: map<Handle, nat>, a: seq<Handle>, b: seq<Handle>)
    ensures Sum(charges, a + b) == Sum(charges, a) + Sum(charges, b)
  {
    if a == [] {
      assert a + b == b;
    } else {
      SumConcat(charges, a[1..], b);
      assert (a + b)[1..] == a[1..] + b;
    }
  }

  /** `after` is `before` with the handle of this key, if any, taken out. */
  ghost predicate Without(before: set<Handle>, key: string, after: set<Handle>) {
    forall h :: h in after <==> h in before && h.key != key
  }
}
