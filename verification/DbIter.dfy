/**
 DBIter: a cursor over the user keys visible at one sequence number, built on
 an iterator over internal entries. It moves both ways, hides overwritten and
 deleted versions and entries newer than its snapshot.
 */
module DbIterator {
  import opened Options
  import opened Format
  import opened Compactions

  /** Internal order with at most one entry per user key and sequence number. */
  ghost predicate Proper(es: seq<Entry>) {
    forall i, j :: 0 <= i < j < |es| ==>
      es[i].key.user < es[j].key.user || (es[i].key.user == es[j].key.user && es[i].key.seqno > es[j].key.seqno)
  }

  predicate Visible(es: seq<Entry>, snapshot: nat, i: nat)
    requires i < |es|
  {
    es[i].key.seqno <= snapshot
  }

  /** Entry `i` is what the snapshot sees for its user key: the newest visible version, and a value. */
  ghost predicate Shown(es: seq<Entry>, snapshot: nat, i: nat) {
    && i < |es| && Visible(es, snapshot, i) && es[i].key.kind.Value?
    && forall j :: 0 <= j < i && es[j].key.user == es[i].key.user ==> !Visible(es, snapshot, j)
  }

  /** The pairs shown among the first `n` entries, in order: the list the cursor walks. */
  ghost function PairList(es: seq<Entry>, snapshot: nat, n: nat): seq<(int, string)>
    requires n <= |es|
  {
    if n == 0 then []
    else
      PairList(es, snapshot, n - 1) +
      if Shown(es, snapshot, n - 1) then [(es[n - 1].key.user, es[n - 1].value)] else []
  }

  lemma {:induction false} PairListHas(es: seq<Entry>, snapshot: nat, n: nat, p: (int, string))
    requires n <= |es|
    ensures p in PairList(es, snapshot, n) <==>
            exists i :: 0 <= i < n && Shown(es, snapshot, i) && p == (es[i].key.user, es[i].value)
  {
    if n > 0 { PairListHas(es, snapshot, n - 1, p); }
  }

  lemma ShownIsSeen(es: seq<Entry>, snapshot: nat, i: nat)
    requires Proper(es) && i < |es|
    ensures Shown(es, snapshot, i) <==> Sees(Elements(es), es[i].key.user, snapshot, es[i])
  {
    if Shown(es, snapshot, i) {
      forall x | x in Elements(es) && x.key.user == es[i].key.user && x.key.seqno <= snapshot
        ensures x.key.seqno <= es[i].key.seqno
      {
        var j :| 0 <= j < |es| && es[j] == x;
      }
    }
    if Sees(Elements(es), es[i].key.user, snapshot, es[i]) {
      forall j | 0 <= j < i && es[j].key.user == es[i].key.user ensures !Visible(es, snapshot, j) {
        assert es[j] in Elements(es);
      }
    }
  }

  /** The list is the snapshot's view: exactly the user keys it sees, each with its value. */
  lemma PairListIsView(es: seq<Entry>, snapshot: nat, user: int, value: string)
    requires Proper(es)
    ensures (user, value) in PairList(es, snapshot, |es|) <==> View(Elements(es), user, snapshot) == Some(value)
  {
    PairListHas(es, snapshot, |es|, (user, value));
    assert UniqueSeq(Elements(es));
    if i :| 0 <= i < |es| && Shown(es, snapshot, i) && (user, value) == (es[i].key.user, es[i].value) {
      ShownIsSeen(es, snapshot, i);
      ViewOfNewest(Elements(es), user, snapshot, es[i]);
    }
    if e: Entry :| Sees(Elements(es), user, snapshot, e) {
      var i :| 0 <= i < |es| && es[i] == e;
      ShownIsSeen(es, snapshot, i);
      ViewOfNewest(Elements(es), user, snapshot, e);
    }
  }

  ghost predicate Climbs(ps: seq<(int, string)>) {
    forall a, b :: 0 <= a < b < |ps| ==> ps[a].0 < ps[b].0
  }

  /** Its user keys strictly increase. */
  lemma {:induction false} PairListIncreases(es: seq<Entry>, snapshot: nat, n: nat)
    requires Proper(es) && n <= |es|
    ensures Climbs(PairList(es, snapshot, n))
  {
    if n > 0 {
      PairListIncreases(es, snapshot, n - 1);
      var init := PairList(es, snapshot, n - 1);
      if Shown(es, snapshot, n - 1) {
        forall k | 0 <= k < |init| ensures init[k].0 < es[n - 1].key.user {
          PairListHas(es, snapshot, n - 1, init[k]);
        }
      }
    }
  }

  /** The first shown entry at or after `from`; `|es|` when there is none. */
  ghost predicate FirstShown(es: seq<Entry>, snapshot: nat, from: nat, i: nat) {
    && from <= i <= |es| && (i < |es| ==> Shown(es, snapshot, i))
    && forall j :: from <= j < i ==> !Shown(es, snapshot, j)
  }

  /** The last shown entry before `until`; -1 when there is none. */
  ghost predicate LastShown(es: seq<Entry>, snapshot: nat, until: nat, i: int) {
    && -1 <= i < until <= |es| && (i >= 0 ==> Shown(es, snapshot, i))
    && forall j :: 0 <= j && i < j < until ==> !Shown(es, snapshot, j)
  }

  /** Index in the list of the shown entry at position `i`. */
  ghost function Rank(es: seq<Entry>, snapshot: nat, i: nat): nat
    requires i <= |es|
  {
    |PairList(es, snapshot, i)|
  }

  lemma {:induction false} RankSkips(es: seq<Entry>, snapshot: nat, from: nat, i: nat)
    requires from <= i <= |es| && forall j :: from <= j < i ==> !Shown(es, snapshot, j)
    ensures Rank(es, snapshot, i) == Rank(es, snapshot, from)
    decreases i
  {
    if from < i { RankSkips(es, snapshot, from, i - 1); }
  }

  datatype Direction = Forward | Reverse

  /** Moving backwards the inner iterator rests on the last visible entry of a smaller user key. */
  ghost predicate RestsBefore(es: seq<Entry>, snapshot: nat, p: nat, c: nat)
    requires c < |es|
  {
    && p <= |es|
    && (p < |es| ==> es[p].key.user < es[c].key.user && Visible(es, snapshot, p))
    && forall j :: 0 <= j < |es| && (p == |es| || p < j) && es[j].key.user < es[c].key.user ==>
         !Visible(es, snapshot, j)
  }

  /** What the fields of a valid iterator say about its current entry. */
  ghost predicate Stands(es: seq<Entry>, snapshot: nat, pos: nat, direction: Direction, savedKey: Option<int>,
                         savedValue: string, cur: nat)
  {
    && Shown(es, snapshot, cur)
    && (direction.Forward? ==> pos == cur)
    && (direction.Reverse? ==>
          savedKey == Some(es[cur].key.user) && savedValue == es[cur].value && RestsBefore(es, snapshot, pos, cur))
  }

  /**
   The iterator. `pos` is the inner iterator on `entries`, invalid when it equals their number;
   `cur` is the position of the current entry while `valid`.
   */
  class DBIter {
    const entries: seq<Entry>
    const sequence: nat
    var pos: nat
    var direction: Direction
    var valid: bool
    var savedKey: Option<int>
    var savedValue: string
    ghost var cur: nat

    constructor (entries: seq<Entry>, sequence: nat)
      requires Proper(entries)
      ensures this.entries == entries && this.sequence == sequence && Valid() && !valid
    {
      this.entries := entries;
      this.sequence := sequence;
      pos := |entries|;
      direction := Forward;
      valid := false;
      savedKey := None;
      savedValue := "";
      cur := 0;
    }

    /**
     The same iterator once other threads have written: the inner iterator still rests on the entry it rested on, or
     is still invalid. The cursor is where it was, on the same list.
     */
    constructor AfterWrites(it: DBIter, grown: seq<Entry>)
      requires it.Valid() && Sorted(grown) && Grown(it.entries, grown, it.sequence)
      ensures entries == grown && sequence == it.sequence && Valid() && Pairs() == it.Pairs()
      ensures Index() == it.Index() && direction == it.direction
    {
      var at := RestAfterWrites(it.entries, grown, it.sequence, it.pos);
      GrownSameList(it.entries, grown, it.sequence);
      ghost var c := 0;
      if it.valid { c := PlaceAfterWrites(it.entries, grown, it.sequence, it.pos, at, it.direction,
                                           it.savedKey, it.savedValue, it.cur); }
      entries, sequence, pos, direction, valid := grown, it.sequence, at, it.direction, it.valid;
      savedKey, savedValue, cur := it.savedKey, it.savedValue, c;
    }

    ghost predicate Valid()
      reads this
    {
      && Proper(entries) && pos <= |entries|
      && (if valid then Stands(entries, sequence, pos, direction, savedKey, savedValue, cur) else direction.Forward?)
    }

    /** The abstract cursor: an index into the list of visible pairs. */
    ghost function Index(): Option<nat>
      reads this
      requires Valid()
    {
      if valid then Some(Rank(entries, sequence, cur)) else None
    }

    ghost function Pairs(): seq<(int, string)> {
      PairList(entries, sequence, |entries|)
    }

    function Key(): (k: int)
      reads this
      requires Valid() && valid
      ensures Rank(entries, sequence, cur) < |Pairs()| && k == Pairs()[Rank(entries, sequence, cur)].0
    {
      RankIsIndex(entries, sequence, cur);
      if direction.Forward? then entries[pos].key.user else savedKey.value
    }

    function CurrentValue(): (v: string)
      reads this
      requires Valid() && valid
      ensures Rank(entries, sequence, cur) < |Pairs()| && v == Pairs()[Rank(entries, sequence, cur)].1
    {
      RankIsIndex(entries, sequence, cur);
      if direction.Forward? then entries[pos].value else savedValue
    }

    method FindNextUserEntry(skipping: bool, skip: Option<int>)
      requires Proper(entries) && pos < |entries| && direction.Forward? && (skipping ==> skip.Some?)
      requires skipping ==> forall i :: pos <= i < |entries| && Visible(entries, sequence, i) ==>
               entries[i].key.user >= skip.value
      requires forall j, i :: 0 <= j < pos <= i < |entries| ==>
                 entries[j].key.user == entries[i].key.user && Visible(entries, sequence, j) ==>
                   skipping && entries[i].key.user <= skip.value
      modifies this
      ensures Valid() && direction.Forward?
      ensures valid ==> old(pos) <= cur && (skipping ==> entries[cur].key.user > skip.value)
      ensures forall i :: old(pos) <= i < (if valid then cur else |entries|) && Shown(entries, sequence, i) ==>
                skipping && entries[i].key.user <= skip.value
    {
      var hiding, hidden := skipping, skip;
      while pos < |entries|
        invariant old(pos) <= pos <= |entries| && direction.Forward? && (hiding ==> hidden.Some?)
        invariant hiding ==> forall i :: pos <= i < |entries| && Visible(entries, sequence, i) ==>
                  entries[i].key.user >= hidden.value
        invariant forall j, i :: 0 <= j < pos <= i < |entries| ==>
                    entries[j].key.user == entries[i].key.user && Visible(entries, sequence, j) ==>
                      hiding && entries[i].key.user <= hidden.value
        invariant skipping ==> hiding && skip.value <= hidden.value
        invariant hiding && !(skipping && hidden == skip) ==>
                    exists j :: old(pos) <= j < pos && Visible(entries, sequence, j) &&
                        entries[j].key.user == hidden.value
        invariant forall i :: old(pos) <= i < pos && Shown(entries, sequence, i) ==>
                    skipping && entries[i].key.user <= skip.value
        decreases |entries| - pos
      {
        if Visible(entries, sequence, pos) {
          if entries[pos].key.kind.Deletion? {
            hidden, hiding := Some(entries[pos].key.user), true;
          } else if hiding && entries[pos].key.user <= hidden.value {
          } else {
            valid, savedKey, cur := true, None, pos;
            return;
          }
        }
        pos := pos + 1;
      }
      savedKey, valid := None, false;
    }

    method Next()
      requires Valid() && valid
      modifies this
      ensures Valid()
      ensures Index() == if old(Index()).value + 1 < |Pairs()| then Some(old(Index()).value + 1) else None
    {
      ghost var c := cur;
      if direction.Reverse? {
        direction := Forward;
        pos := if pos == |entries| then 0 else pos + 1;
      } else {
        savedKey := Some(entries[pos].key.user);
      }
      FindNextUserEntry(true, savedKey);
      ghost var to := if valid then cur else |entries|;
      assert FirstShown(entries, sequence, c + 1, to);
      NextInList(entries, sequence, c, to);
    }

    method FindPrevUserEntry()
      requires Proper(entries) && pos <= |entries| && direction.Reverse?
      requires 0 < pos + 1 < |entries| ==> entries[pos].key.user < entries[pos + 1].key.user
      modifies this
      ensures Valid()
      ensures LastShown(entries, sequence, if old(pos) < |entries| then old(pos) + 1 else 0, if valid then cur else -1)
    {
      var valueType := Deletion;
      ghost var hi: int := if pos < |entries| then pos else -1;
      ghost var low: int := hi;
      ghost var q: int := hi + 1;   // the visible entry scanned last; hi + 1 when none
      while pos < |entries|
        invariant pos <= |entries| && low == (if pos < |entries| then pos else -1) && direction.Reverse?
        invariant Scanned(entries, sequence, low, q, hi, valueType, savedKey, savedValue)
        decreases low + 1
      {
        if Visible(entries, sequence, pos) {
          if valueType.Value? && entries[pos].key.user < savedKey.value {
            break;
          }
          ScanTake(entries, sequence, low, q, hi, valueType, savedKey, savedValue);
          valueType := entries[pos].key.kind;
          if valueType.Deletion? {
            savedKey, savedValue := None, "";
          } else {
            savedKey, savedValue := Some(entries[pos].key.user), entries[pos].value;
          }
          q := pos;
        } else {
          ScanSkip(entries, sequence, low, q, hi, valueType, savedKey, savedValue);
        }
        pos := if pos == 0 then |entries| else pos - 1;
        low := low - 1;
      }
      ScanEnds(entries, sequence, pos, low, q, hi, valueType, savedKey, savedValue);
      if valueType.Deletion? {
        valid, savedKey, savedValue, direction := false, None, "", Forward;
      } else {
        valid, cur := true, q;
      }
    }

    method Prev()
      requires Valid() && valid
      modifies this
      ensures Valid()
      ensures Index() == if old(Index()).value > 0 then Some(old(Index()).value - 1) else None
    {
      ghost var c := cur;
      if direction.Forward? {
        savedKey := Some(entries[pos].key.user);
        while true
          invariant pos <= c && entries[pos].key.user == entries[c].key.user
          invariant savedKey == Some(entries[c].key.user) && direction.Forward? && valid && cur == c
          invariant forall j :: pos <= j < c ==> !Shown(entries, sequence, j)
          decreases pos
        {
          if pos == 0 {
            pos, valid, savedKey, savedValue := |entries|, false, None, "";
            PrevInList(entries, sequence, c, -1);
            return;
          }
          pos := pos - 1;
          if entries[pos].key.user < savedKey.value {
            break;
          }
        }
        direction := Reverse;
      }
      FindPrevUserEntry();
      ghost var to := if valid then cur else -1;
      assert LastShown(entries, sequence, c, to);
      PrevInList(entries, sequence, c, to);
    }

    method Seek(target: int)
      requires Valid()
      modifies this
      ensures Valid()
      ensures var k := if valid then Index().value else |Pairs()|;
              && k <= |Pairs()| && (valid <==> k < |Pairs()|)
              && (forall m :: 0 <= m < k ==> Pairs()[m].0 < target)
              && (k < |Pairs()| ==> Pairs()[k].0 >= target)
    {
      direction, savedValue := Forward, "";
      pos := SeekIndex(entries, LookupKey(target, sequence));
      forall j | 0 <= j < |entries| ensures j < pos <==> Less(entries[j].key, LookupKey(target, sequence)) {}
      if pos < |entries| {
        FindNextUserEntry(false, None);
      } else {
        valid := false;
      }
      SeekInList(entries, sequence, target, if valid then cur else |entries|);
    }

    method SeekToFirst()
      requires Valid()
      modifies this
      ensures Valid()
      ensures Index() == if |Pairs()| > 0 then Some(0) else None
    {
      direction, savedValue, pos := Forward, "", 0;
      if pos < |entries| {
        FindNextUserEntry(false, None);
      } else {
        valid := false;
      }
      FirstInList(entries, sequence, if valid then cur else |entries|);
    }

    method SeekToLast()
      requires Valid()
      modifies this
      ensures Valid()
      ensures Index() == if |Pairs()| > 0 then Some(|Pairs()| - 1) else None
    {
      direction, savedValue := Reverse, "";
      pos := if |entries| == 0 then 0 else |entries| - 1;
      FindPrevUserEntry();
      LastInList(entries, sequence, if valid then cur else -1);
    }
  }

  /** The backward scan has come down to `low`; `q` is the visible entry it met last. */
  ghost predicate Scanned(es: seq<Entry>, snapshot: nat, low: int, q: int, hi: int, kind: Kind, savedKey: Option<int>,
                          savedValue: string)
  {
    && -1 <= low < q <= hi + 1 <= |es|
    && (forall j :: 0 <= j && low < j < q ==> !Visible(es, snapshot, j))
    && (forall j :: 0 <= j && q < j <= hi ==> !Shown(es, snapshot, j))
    && (q == hi + 1 ==> kind.Deletion?)
    && (q <= hi ==> Visible(es, snapshot, q) && kind == es[q].key.kind)
    && (kind.Value? ==> savedKey == Some(es[q].key.user) && savedValue == es[q].value)
  }

  lemma ScanSkip(es: seq<Entry>, snapshot: nat, low: int, q: int, hi: int, kind: Kind, savedKey: Option<int>,
                 savedValue: string)
    requires Scanned(es, snapshot, low, q, hi, kind, savedKey, savedValue) && 0 <= low
    requires !Visible(es, snapshot, low)
    ensures Scanned(es, snapshot, low - 1, q, hi, kind, savedKey, savedValue)
  {
  }

  /** One more visible entry: what was met last is not shown, being deleted or of the same user key. */
  lemma ScanTake(es: seq<Entry>, snapshot: nat, low: int, q: int, hi: int, kind: Kind, savedKey: Option<int>,
                 savedValue: string)
    requires Proper(es) && Scanned(es, snapshot, low, q, hi, kind, savedKey, savedValue) && 0 <= low
    requires Visible(es, snapshot, low) && !(kind.Value? && es[low].key.user < savedKey.value)
    ensures Scanned(es, snapshot, low - 1, low, hi, es[low].key.kind,
                    if es[low].key.kind.Deletion? then None else Some(es[low].key.user),
                    if es[low].key.kind.Deletion? then "" else es[low].value)
  {
    forall j | 0 <= j && low < j <= hi ensures !Shown(es, snapshot, j) {
      if j == q && kind.Value? { assert es[low].key.user == es[q].key.user; }
    }
  }

  /** Where the scan ends: at a smaller user key, or before the first entry. */
  lemma ScanEnds(es: seq<Entry>, snapshot: nat, pos: nat, low: int, q: int, hi: int, kind: Kind, savedKey: Option<int>,
                 savedValue: string)
    requires Proper(es) && Scanned(es, snapshot, low, q, hi, kind, savedKey, savedValue)
    requires pos <= |es| && low == (if pos < |es| then pos else -1)
    requires pos < |es| ==> Visible(es, snapshot, pos) && kind.Value? && es[pos].key.user < savedKey.value
    requires 0 < hi + 1 < |es| ==> es[hi].key.user < es[hi + 1].key.user
    ensures LastShown(es, snapshot, if hi >= 0 then hi + 1 else 0, if kind.Value? then q else -1)
    ensures kind.Value? ==> Stands(es, snapshot, pos, Reverse, savedKey, savedValue, q)
  {
    if kind.Value? {
      forall j | 0 <= j < q && es[j].key.user == es[q].key.user ensures !Visible(es, snapshot, j) {}
      assert RestsBefore(es, snapshot, pos, q);
    } else if hi >= 0 {
      assert !Shown(es, snapshot, q) || q == hi + 1;
    }
  }

  /** More entries have joined, all above the snapshot. */
  ghost predicate Grown(es: seq<Entry>, grown: seq<Entry>, snapshot: nat) {
    && Proper(es) && Proper(grown) && (forall e :: e in es ==> e in grown)
    && forall e :: e in grown && e !in es ==> e.key.seqno > snapshot
  }

  ghost function PlaceOf(es: seq<Entry>, e: Entry): (i: nat)
    requires e in es
    ensures i < |es| && es[i] == e
  {
    var i :| 0 <= i < |es| && es[i] == e; i
  }

  /** The place of the entry that the inner iterator rests on. */
  method RestAfterWrites(es: seq<Entry>, grown: seq<Entry>, ghost snapshot: nat, pos: nat) returns (at: nat)
    requires Grown(es, grown, snapshot) && Sorted(grown) && pos <= |es|
    ensures SameRest(es, grown, pos, at)
  {
    if pos == |es| { return |grown|; }
    at := SeekIndex(grown, es[pos].key);
    SeekFinds(grown, es[pos], at);
  }

  lemma SeekFinds(es: seq<Entry>, e: Entry, at: nat)
    requires Sorted(es) && e in es && at == SeekIndex(es, e.key)
    ensures at < |es| && es[at] == e
  {
    var i := PlaceOf(es, e);
    SeekIndexSplits(es, e.key, i);
  }

  /** Entry `i` of the old list is entry `j` of the grown one, or both are past the end. */
  ghost predicate SameRest(es: seq<Entry>, grown: seq<Entry>, i: nat, j: nat) {
    && i <= |es| && j <= |grown| && (i == |es| <==> j == |grown|)
    && (i < |es| && j < |grown| ==> es[i] == grown[j])
  }

  /** Where the current entry is now, and how the inner iterator stands to it. */
  lemma PlaceAfterWrites(es: seq<Entry>, grown: seq<Entry>, snapshot: nat, p: nat, at: nat, direction: Direction,
                         savedKey: Option<int>, savedValue: string, c: nat) returns (c': nat)
    requires Grown(es, grown, snapshot) && SameRest(es, grown, p, at)
    requires Stands(es, snapshot, p, direction, savedKey, savedValue, c)
    ensures Stands(grown, snapshot, at, direction, savedKey, savedValue, c')
    ensures Rank(grown, snapshot, c') == Rank(es, snapshot, c)
  {
    c' := PlaceOf(grown, es[c]);
    GrownSameIndex(es, grown, snapshot, c, c');
    if p == c { SamePlace(grown, at, c'); }
    if direction.Reverse? { GrownRests(es, grown, snapshot, p, at, c, c'); }
  }

  lemma GrownShown(es: seq<Entry>, grown: seq<Entry>, snapshot: nat, i: nat, j: nat)
    requires Grown(es, grown, snapshot) && i < |es| && j < |grown| && es[i] == grown[j]
    ensures Shown(es, snapshot, i) <==> Shown(grown, snapshot, j)
  {
    ShownIsSeen(es, snapshot, i);
    ShownIsSeen(grown, snapshot, j);
  }

  lemma GrownSameList(es: seq<Entry>, grown: seq<Entry>, snapshot: nat)
    requires Grown(es, grown, snapshot)
    ensures PairList(es, snapshot, |es|) == PairList(grown, snapshot, |grown|)
  {
    var ps, qs := PairList(es, snapshot, |es|), PairList(grown, snapshot, |grown|);
    PairListIncreases(es, snapshot, |es|);
    PairListIncreases(grown, snapshot, |grown|);
    forall p ensures p in ps <==> p in qs {
      PairListHas(es, snapshot, |es|, p);
      PairListHas(grown, snapshot, |grown|, p);
      if p in ps {
        var i :| 0 <= i < |es| && Shown(es, snapshot, i) && p == (es[i].key.user, es[i].value);
        GrownShown(es, grown, snapshot, i, PlaceOf(grown, es[i]));
      }
      if p in qs {
        var j :| 0 <= j < |grown| && Shown(grown, snapshot, j) && p == (grown[j].key.user, grown[j].value);
        assert grown[j] in grown && Visible(grown, snapshot, j);
        GrownShown(es, grown, snapshot, PlaceOf(es, grown[j]), j);
      }
    }
    SamePairsSameList(ps, qs);
  }

  lemma SamePlace(es: seq<Entry>, i: nat, j: nat)
    requires Proper(es) && i < |es| && j < |es| && es[i] == es[j]
    ensures i == j
  {
  }

  lemma GrownRests(es: seq<Entry>, grown: seq<Entry>, snapshot: nat, p: nat, p': nat, c: nat, c': nat)
    requires Grown(es, grown, snapshot) && c < |es| && c' < |grown| && es[c] == grown[c']
    requires SameRest(es, grown, p, p')
    requires RestsBefore(es, snapshot, p, c)
    ensures RestsBefore(grown, snapshot, p', c')
  {
    forall j | 0 <= j < |grown| && (p' == |grown| || p' < j) && grown[j].key.user < grown[c'].key.user
      ensures !Visible(grown, snapshot, j)
    {
      if grown[j] in es { InOldOrder(es, grown, snapshot, p, p', PlaceOf(es, grown[j]), j); }
    }
  }

  lemma InOldOrder(es: seq<Entry>, grown: seq<Entry>, snapshot: nat, p: nat, p': nat, i: nat, j: nat)
    requires Grown(es, grown, snapshot) && i < |es| && j < |grown| && es[i] == grown[j]
    requires p < |es| ==> p' < |grown| && es[p] == grown[p'] && p' < j
    ensures p < |es| ==> p < i
  {
  }

  lemma GrownSameIndex(es: seq<Entry>, grown: seq<Entry>, snapshot: nat, i: nat, j: nat)
    requires Grown(es, grown, snapshot) && i < |es| && j < |grown| && es[i] == grown[j] && Shown(es, snapshot, i)
    ensures Shown(grown, snapshot, j) && Rank(es, snapshot, i) == Rank(grown, snapshot, j)
  {
    GrownShown(es, grown, snapshot, i, j);
    GrownSameList(es, grown, snapshot);
    PairListIncreases(es, snapshot, |es|);
    RankIsIndex(es, snapshot, i);
    RankIsIndex(grown, snapshot, j);
  }

  lemma {:induction false} SamePairsSameList(ps: seq<(int, string)>, qs: seq<(int, string)>)
    requires Climbs(ps) && Climbs(qs) && forall p :: p in ps <==> p in qs
    ensures ps == qs
  {
    assert qs != [] ==> qs[0] in qs;
    if ps != [] {
      assert ps[0] in qs;
      assert qs[0] in ps;
      assert ps[0] == qs[0];
      forall p ensures p in ps[1..] <==> p in qs[1..] {
        TailHas(ps, p);
        TailHas(qs, p);
      }
      SamePairsSameList(ps[1..], qs[1..]);
      assert ps == [ps[0]] + ps[1..] && qs == [qs[0]] + qs[1..];
    }
  }

  lemma TailHas(ps: seq<(int, string)>, p: (int, string))
    requires Climbs(ps) && ps != []
    ensures p in ps[1..] <==> p in ps && p != ps[0]
  {
    if p in ps && p != ps[0] {
      var a :| 0 <= a < |ps| && ps[a] == p;
      assert ps[1..][a - 1] == p;
    }
    if p in ps[1..] {
      var a :| 0 <= a < |ps[1..]| && ps[1..][a] == p;
      assert ps[a + 1] == p;
    }
  }

  lemma {:induction false} RankIsIndex(es: seq<Entry>, snapshot: nat, i: nat)
    requires Shown(es, snapshot, i)
    ensures Rank(es, snapshot, i) < |PairList(es, snapshot, |es|)|
    ensures PairList(es, snapshot, |es|)[Rank(es, snapshot, i)] == (es[i].key.user, es[i].value)
  {
    assert PairList(es, snapshot, i + 1) == PairList(es, snapshot, i) + [(es[i].key.user, es[i].value)];
    ListPrefix(es, snapshot, i + 1, |es|);
  }

  lemma {:induction false} ListPrefix(es: seq<Entry>, snapshot: nat, m: nat, n: nat)
    requires m <= n <= |es|
    ensures PairList(es, snapshot, m) <= PairList(es, snapshot, n)
    decreases n
  {
    if m < n { ListPrefix(es, snapshot, m, n - 1); }
  }

  lemma NextInList(es: seq<Entry>, snapshot: nat, c: nat, to: nat)
    requires Shown(es, snapshot, c) && FirstShown(es, snapshot, c + 1, to)
    ensures Rank(es, snapshot, to) == Rank(es, snapshot, c) + 1
    ensures to < |es| <==> Rank(es, snapshot, c) + 1 < |PairList(es, snapshot, |es|)|
  {
    RankSkips(es, snapshot, c + 1, to);
    assert Rank(es, snapshot, c + 1) == Rank(es, snapshot, c) + 1;
    if to < |es| { RankIsIndex(es, snapshot, to); }
  }

  lemma PrevInList(es: seq<Entry>, snapshot: nat, c: nat, to: int)
    requires Shown(es, snapshot, c) && LastShown(es, snapshot, c, to)
    ensures if to >= 0 then Rank(es, snapshot, c) == Rank(es, snapshot, to) + 1 else Rank(es, snapshot, c) == 0
  {
    RankSkips(es, snapshot, to + 1, c);
  }

  lemma SeekInList(es: seq<Entry>, snapshot: nat, target: int, to: nat)
    requires Proper(es) && to <= |es| && (to < |es| ==> Shown(es, snapshot, to) && es[to].key.user >= target)
    requires forall i :: 0 <= i < to && Shown(es, snapshot, i) ==> es[i].key.user < target
    ensures Rank(es, snapshot, to) <= |PairList(es, snapshot, |es|)|
    ensures to < |es| <==> Rank(es, snapshot, to) < |PairList(es, snapshot, |es|)|
    ensures forall m :: 0 <= m < Rank(es, snapshot, to) ==> PairList(es, snapshot, |es|)[m].0 < target
    ensures to < |es| ==> PairList(es, snapshot, |es|)[Rank(es, snapshot, to)].0 >= target
  {
    ListPrefix(es, snapshot, to, |es|);
    var front := PairList(es, snapshot, to);
    forall m | 0 <= m < |front| ensures front[m].0 < target { PairListHas(es, snapshot, to, front[m]); }
    if to < |es| { RankIsIndex(es, snapshot, to); }
  }

  lemma FirstInList(es: seq<Entry>, snapshot: nat, to: nat)
    requires FirstShown(es, snapshot, 0, to)
    ensures Rank(es, snapshot, to) == 0
    ensures to < |es| <==> |PairList(es, snapshot, |es|)| > 0
  {
    RankSkips(es, snapshot, 0, to);
    if to < |es| { RankIsIndex(es, snapshot, to); }
  }

  lemma LastInList(es: seq<Entry>, snapshot: nat, to: int)
    requires LastShown(es, snapshot, |es|, to)
    ensures if to >= 0 then Rank(es, snapshot, to) + 1 == |PairList(es, snapshot, |es|)|
            else PairList(es, snapshot, |es|) == []
  {
    RankSkips(es, snapshot, to + 1, |es|);
  }
}
