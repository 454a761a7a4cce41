/**
 Internal keys: a user key, a sequence number and a value type, ordered by
 increasing user key, then decreasing sequence number, then decreasing type.
 A user key is modelled by its rank in the user comparator's total order.
 */
module Format {

  /** The largest sequence number: eight low bits of a packed tag are left for the type. */
  const MAX_SEQUENCE: nat := 0xFF_FFFF_FFFF_FFFF
  const NUM_LEVELS: nat := 7
  const MAX_MEM_COMPACT_LEVEL: nat := 2

  datatype Kind = Deletion | Value

  datatype InternalKey = InternalKey(user: int, seqno: nat, kind: Kind)

  datatype Entry = Entry(key: InternalKey, value: string)

  /** Strict internal-key order. */
  predicate Less(a: InternalKey, b: InternalKey) {
    || a.user < b.user
    || (a.user == b.user && a.seqno > b.seqno)
    || (a.user == b.user && a.seqno == b.seqno && a.kind.Value? && b.kind.Deletion?)
  }

  /** The 64-bit tag stored after the user key. */
  function PackSequenceAndType(seqno: nat, kind: Kind): nat {
    seqno * 256 + if kind.Value? then 1 else 0
  }

  /** What the code compares: user keys first, then packed tags, larger tag first. */
  function Compare(a: InternalKey, b: InternalKey): int {
    if a.user < b.user then -1
    else if a.user > b.user then 1
    else if PackSequenceAndType(a.seqno, a.kind) > PackSequenceAndType(b.seqno, b.kind) then -1
    else if PackSequenceAndType(a.seqno, a.kind) < PackSequenceAndType(b.seqno, b.kind) then 1
    else 0
  }

  /** Comparing packed tags is the lexicographic order, and it is a strict total order on keys. */
  lemma CompareIsLess(a: InternalKey, b: InternalKey)
    ensures Compare(a, b) < 0 <==> Less(a, b)
    ensures Compare(a, b) > 0 <==> Less(b, a)
    ensures Compare(a, b) == 0 <==> a == b
  {
    assert a.kind.Value? <==> a.kind != Deletion;
    assert b.kind.Value? <==> b.kind != Deletion;
  }

  ghost predicate Sorted(es: seq<Entry>) {
    forall i, j :: 0 <= i < j < |es| ==> Less(es[i].key, es[j].key)
  }

  ghost function Elements(es: seq<Entry>): set<Entry> {
    set e | e in es
  }

  /** The key a reader seeks to: the first internal key a snapshot at `seqno` may see for `user`. */
  function LookupKey(user: int, seqno: nat): InternalKey {
    InternalKey(user, seqno, Value)
  }

  /** Seeking: index of the first entry at or after `target`. */
  function SeekIndex(es: seq<Entry>, target: InternalKey): (i: nat)
    ensures i <= |es|
    ensures forall j :: 0 <= j < i ==> Less(es[j].key, target)
    ensures i < |es| ==> !Less(es[i].key, target)
  {
    if es == [] || !Less(es[0].key, target) then 0
    else
      var rest := SeekIndex(es[1..], target);
      1 + rest
  }

  /** In a sorted run, everything from the sought index on is at or after the target. */
  lemma SeekIndexSplits(es: seq<Entry>, target: InternalKey, j: nat)
    requires Sorted(es) && j < |es|
    ensures j >= SeekIndex(es, target) <==> !Less(es[j].key, target)
  {
    var i := SeekIndex(es, target);
    if i < j {
      assert Less(es[i].key, es[j].key);
    }
  }

  /** `e` is the entry with the greatest sequence number a snapshot may see for `user`. */
  ghost predicate Newest(es: set<Entry>, user: int, snapshot: nat, e: Entry) {
    && e in es && e.key.user == user && e.key.seqno <= snapshot
    && forall x :: x in es && x.key.user == user && x.key.seqno <= snapshot ==> x.key.seqno <= e.key.seqno
  }

  ghost predicate NoneVisible(es: set<Entry>, user: int, snapshot: nat) {
    forall x :: x in es && x.key.user == user ==> x.key.seqno > snapshot
  }

  datatype LookupResult = Found(value: string) | Deleted | NotFound

  function Resolve(e: Entry): LookupResult {
    if e.key.kind.Value? then Found(e.value) else Deleted
  }

  /** The outcome a lookup of `user` at `snapshot` must have over the entries `es`. */
  ghost predicate Answers(es: set<Entry>, user: int, snapshot: nat, r: LookupResult) {
    match r
    case NotFound => NoneVisible(es, user, snapshot)
    case _ => exists e :: Newest(es, user, snapshot, e) && r == Resolve(e)
  }

  /** Lookup in one sorted run: seek, then check that the user key matches. */
  function RunGet(es: seq<Entry>, user: int, snapshot: nat): LookupResult {
    var i := SeekIndex(es, LookupKey(user, snapshot));
    if i < |es| && es[i].key.user == user then Resolve(es[i]) else NotFound
  }

  lemma RunGetAnswers(es: seq<Entry>, user: int, snapshot: nat)
    requires Sorted(es)
    ensures Answers(Elements(es), user, snapshot, RunGet(es, user, snapshot))
  {
    var target := LookupKey(user, snapshot);
    var i := SeekIndex(es, target);
    forall x | x in es && x.key.user == user && x.key.seqno <= snapshot
      ensures i < |es| && es[i].key.user == user && x.key.seqno <= es[i].key.seqno <= snapshot
    {
      var j :| 0 <= j < |es| && es[j] == x;
      SeekIndexSplits(es, target, j);
      assert i <= j;
      SeekIndexSplits(es, target, i);
      if i < j { assert Less(es[i].key, es[j].key); }
    }
    if i < |es| && es[i].key.user == user {
      SeekIndexSplits(es, target, i);
      assert Newest(Elements(es), user, snapshot, es[i]);
    }
  }
}
