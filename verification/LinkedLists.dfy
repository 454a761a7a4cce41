/**
 Circular doubly linked lists with a dummy head, as the cache and the snapshot
 list use them: LRU_Remove and LRU_Append relink two neighbours, and new nodes
 go in just before the head.
 */
module LinkedLists {

  class Node {
    const number: nat
    var next: Node
    var prev: Node

    constructor (number: nat)
      ensures this.number == number && next == this && prev == this
    {
      this.number := number;
      next, prev := this, this;
    }
  }

  ghost predicate Distinct(ring: seq<Node>) {
    forall i, j :: 0 <= i < j < |ring| ==> ring[i] != ring[j]
  }

  /** Neighbour after position `i` of a ring. */
  ghost function After(ring: seq<Node>, i: int): Node
    requires 0 <= i < |ring|
  {
    if i == |ring| - 1 then ring[0] else ring[i + 1]
  }

  ghost predicate Linked(ring: seq<Node>)
    reads ring
  {
    forall i :: 0 <= i < |ring| ==> ring[i].next == After(ring, i) && After(ring, i).prev == ring[i]
  }

  /** `nodes` are, from oldest to newest, the nodes on the list with dummy head `head`. */
  ghost predicate List(head: Node, nodes: seq<Node>)
    reads [head] + nodes
  {
    Distinct([head] + nodes) && Linked([head] + nodes)
  }

  /** The nodes without the one at position `k`. */
  function Without<T>(nodes: seq<T>, k: nat): seq<T>
    requires k < |nodes|
  {
    nodes[..k] + nodes[k + 1..]
  }

  method Remove(e: Node, ghost head: Node, ghost nodes: seq<Node>, ghost k: nat)
    requires List(head, nodes) && k < |nodes| && nodes[k] == e
    modifies [head] + nodes
    ensures List(head, Without(nodes, k))
    ensures e.next == old(e.next) && e.prev == old(e.prev)
  {
    ghost var ring := [head] + nodes;
    assert ring[k + 1] == e && After(ring, k) == e;
    assert e.next == After(ring, k + 1) && e.prev == ring[k];
    e.next.prev := e.prev;
    e.prev.next := e.next;
    ghost var ring' := [head] + Without(nodes, k);
    assert forall i :: 0 <= i < |ring'| ==> ring'[i] == ring[if i <= k then i else i + 1];
    forall i | 0 <= i < |ring'| ensures ring'[i].next == After(ring', i) && After(ring', i).prev == ring'[i] {
      var j := if i <= k then i else i + 1;
      assert ring'[i] == ring[j];
      if i == k {
        assert After(ring', i) == After(ring, k + 1);
      } else {
        assert After(ring', i) == After(ring, j);
      }
    }
  }

  method Append(list: Node, e: Node, ghost nodes: seq<Node>)
    requires List(list, nodes) && e != list && e !in nodes
    modifies [list] + nodes, e
    ensures List(list, nodes + [e])
  {
    ghost var ring := [list] + nodes;
    ghost var n := |nodes|;
    assert After(ring, n) == list && list.prev == ring[n];
    e.next := list;
    e.prev := list.prev;
    e.prev.next := e;
    e.next.prev := e;
    ghost var ring' := [list] + (nodes + [e]);
    assert forall i :: 0 <= i <= n ==> ring'[i] == ring[i];
    assert ring'[n + 1] == e;
    forall i | 0 <= i < |ring'| ensures ring'[i].next == After(ring', i) && After(ring', i).prev == ring'[i] {
      if i < n {
        assert ring'[i] == ring[i] && After(ring', i) == After(ring, i) && After(ring, i) == ring[i + 1];
      }
    }
  }

  // ---- Snapshots ----

  ghost predicate Ascending(nodes: seq<Node>) {
    forall i, j :: 0 <= i < j < |nodes| ==> nodes[i].number <= nodes[j].number
  }

  lemma WithoutKeeps(head: Node, nodes: seq<Node>, k: nat)
    requires Distinct([head] + nodes) && Ascending(nodes) && k < |nodes|
    ensures Ascending(Without(nodes, k)) && nodes[k] !in Without(nodes, k)
  {
    var rest := Without(nodes, k);
    assert forall i :: 0 <= i < |rest| ==> rest[i] == nodes[if i < k then i else i + 1];
    assert forall i :: 0 <= i < |nodes| ==> ([head] + nodes)[i + 1] == nodes[i];
  }

  /** SnapshotList: live snapshots in the order they were taken. */
  class SnapshotList {
    const list: Node
    ghost var live: seq<Node>

    ghost predicate Valid()
      reads this, list, live
    {
      List(list, live) && Ascending(live)
    }

    constructor ()
      ensures Valid() && live == [] && fresh(list)
    {
      list := new Node(0);
      live := [];
    }

    predicate Empty()
      requires Valid()
      reads this, list, live
      ensures Empty() <==> live == []
    {
      assert ([list] + live)[0] == list;
      assert live != [] ==> After([list] + live, 0) == live[0];
      list.next == list
    }

    /** The oldest snapshot has the smallest number of all live ones. */
    method Oldest() returns (s: Node)
      requires Valid() && live != []
      ensures s in live && s == live[0] && forall x :: x in live ==> s.number <= x.number
    {
      assert ([list] + live)[0] == list && After([list] + live, 0) == live[0];
      s := list.next;
    }

    /** Sequence numbers never go back, so a new snapshot is no older than any live one. */
    method New(seqno: nat) returns (s: Node)
      requires Valid() && forall x :: x in live ==> x.number <= seqno
      modifies this, list, live
      ensures Valid() && fresh(s) && s.number == seqno && live == old(live) + [s]
    {
      s := new Node(seqno);
      Append(list, s, live);
      live := live + [s];
    }

    method Delete(s: Node)
      requires Valid() && s in live
      modifies this, list, live
      ensures Valid() && s !in live
      ensures exists k :: 0 <= k < |old(live)| && old(live)[k] == s && live == Without(old(live), k)
    {
      ghost var k :| 0 <= k < |live| && live[k] == s;
      ghost var before := live;
      Remove(s, list, live, k);
      live := Without(live, k);
      WithoutKeeps(list, before, k);
    }
  }
}
