/**
 Reading while the store goes on: a lookup or an iterator pins the memtables
 and the version under the mutex and then reads them without it, while other
 threads write, flush and compact.
 */
module Reads {
  import opened Options
  import opened Format
  import opened Versions
  import opened Compactions
  import opened DbIterator
  import opened Lsm

  // ---- Memtables, immutable memtables and tables in turn ----

  ghost predicate Matches(r: LookupResult, v: Option<string>) {
    match r
    case Found(value) => v == Some(value)
    case _ => v == None
  }

  lemma AnswerIsView(es: set<Entry>, user: int, snapshot: nat, r: LookupResult)
    requires UniqueSeq(es) && Answers(es, user, snapshot, r)
    ensures Matches(r, View(es, user, snapshot))
  {
    if !r.NotFound? {
      var e :| Newest(es, user, snapshot, e) && r == Resolve(e);
      ViewOfNewest(es, user, snapshot, e);
    } else {
      forall e ensures !Sees(es, user, snapshot, e) {}
    }
  }

  /** A hit in a newer source answers for the union; a miss passes the question on. */
  lemma AnswersAbove(upper: set<Entry>, lower: set<Entry>, user: int, snapshot: nat, r: LookupResult)
    requires forall x, y :: x in upper && y in lower ==> x.key.seqno > y.key.seqno
    requires Answers(upper, user, snapshot, r) && !r.NotFound?
    ensures Answers(upper + lower, user, snapshot, r)
  {
    var e :| Newest(upper, user, snapshot, e) && r == Resolve(e);
    assert Newest(upper + lower, user, snapshot, e);
  }

  lemma AnswersBelow(upper: set<Entry>, lower: set<Entry>, user: int, snapshot: nat, r: LookupResult)
    requires NoneVisible(upper, user, snapshot) && Answers(lower, user, snapshot, r)
    ensures Answers(upper + lower, user, snapshot, r)
  {
    if !r.NotFound? {
      var e :| Newest(lower, user, snapshot, e) && r == Resolve(e);
      assert Newest(upper + lower, user, snapshot, e);
    }
  }

  // ---- What a pinned memtable holds later ----

  ghost predicate Alive(steps: seq<Step>, i: nat, j: nat) {
    i <= j <= |steps| && forall m :: i <= m < j ==> !steps[m].Reopen?
  }

  /**
   What the memtable of state `i` holds by state `j`: it takes writes until it is
   switched out and nothing after that.
   */
  ghost function Memtable(states: seq<State>, steps: seq<Step>, i: nat, j: nat): set<Entry>
    requires |states| == |steps| + 1 && i <= j < |states|
    decreases j - i
  {
    if i == j || steps[i].SwitchMemtable? then states[i].mem else Memtable(states, steps, i + 1, j)
  }

  /** A history only grows while the process lives. */
  lemma HistoryGrows(states: seq<State>, steps: seq<Step>, i: nat, j: nat)
    requires Run(states, steps) && Alive(steps, i, j)
    ensures states[i].history <= states[j].history
    decreases j - i
  {
    if i < j {
      StepExtends(states, steps, i);
      HistoryGrows(states, steps, i + 1, j);
    }
  }

  /** What a step that neither switches nor reopens adds to the memtable is newer than the history so far. */
  ghost predicate GrowsFrom(mem: set<Entry>, more: set<Entry>, h: seq<Op>) {
    mem <= more && forall e :: e in more ==> e in mem || e.key.seqno > |h|
  }

  lemma StepExtends(states: seq<State>, steps: seq<Step>, i: nat)
    requires Run(states, steps) && i < |steps| && !steps[i].Reopen?
    ensures states[i].history <= states[i + 1].history
    ensures !steps[i].SwitchMemtable? ==> GrowsFrom(states[i].mem, states[i + 1].mem, states[i].history)
  {
    assert Does(states[i], steps[i], states[i + 1]);
  }

  lemma MemtableIsSound(states: seq<State>, steps: seq<Step>, i: nat)
    requires Run(states, steps) && i < |states|
    ensures Sound(states[i].mem, states[i].history)
  {
    RunInv(states, steps, i);
  }

  lemma GrowsOn(mem: set<Entry>, more: set<Entry>, most: set<Entry>, h: seq<Op>, g: seq<Op>)
    requires GrowsFrom(mem, more, h) && GrowsFrom(more, most, g) && h <= g
    ensures GrowsFrom(mem, most, h)
  {
  }

  /** Later additions to a pinned memtable are newer than every sequence number of the time it was pinned. */
  lemma {:induction false} MemtableGrows(states: seq<State>, steps: seq<Step>, i: nat, j: nat)
    requires Run(states, steps) && Alive(steps, i, j)
    ensures GrowsFrom(states[i].mem, Memtable(states, steps, i, j), states[i].history)
    ensures Sound(Memtable(states, steps, i, j), states[j].history)
    decreases j - i
  {
    if i == j || steps[i].SwitchMemtable? {
      MemtableIsSound(states, steps, i);
      HistoryGrows(states, steps, i, j);
      SoundLater(states[i].mem, states[i].history, states[j].history);
    } else {
      StepExtends(states, steps, i);
      MemtableGrows(states, steps, i + 1, j);
      GrowsOn(states[i].mem, states[i + 1].mem, Memtable(states, steps, i + 1, j), states[i].history,
              states[i + 1].history);
    }
  }

  lemma SoundLater(es: set<Entry>, h: seq<Op>, g: seq<Op>)
    requires Sound(es, h) && h <= g
    ensures Sound(es, g)
  {
    forall e | e in es ensures Records(g, e) { assert Records(h, e); }
  }

  /** All a reader that pinned its sources in state `i` can come across by state `j`. */
  ghost function Pinned(states: seq<State>, steps: seq<Step>, i: nat, j: nat): set<Entry>
    requires |states| == |steps| + 1 && i <= j < |states|
  {
    Memtable(states, steps, i, j) + (Frozen(states[i]) + Contents(states[i].version))
  }

  ghost predicate Live(s: State, k: nat) {
    k in s.snapshots || k == |s.history|
  }

  /** At a live snapshot the pinned sources show the history of the time they were pinned, whatever happens since. */
  lemma PinnedSeesHistory(states: seq<State>, steps: seq<Step>, i: nat, j: nat, user: int, k: nat)
    requires Run(states, steps) && Alive(steps, i, j) && NoViewBreak(states, steps, i) && Live(states[i], k)
    ensures k <= |states[i].history| && UniqueSeq(Pinned(states, steps, i, j))
    ensures View(Pinned(states, steps, i, j), user, k) == SpecView(states[i].history, user, k)
  {
    ReadersSeeHistory(states, steps, i, user, k);
    RunInv(states, steps, i);
    MemtableGrows(states, steps, i, j);
    HistoryGrows(states, steps, i, j);
    SoundLater(All(states[i]), states[i].history, states[j].history);
    var later := Memtable(states, steps, i, j) - states[i].mem;
    assert Pinned(states, steps, i, j) == later + All(states[i]);
    SoundIsUnique(Pinned(states, steps, i, j), states[j].history);
    ViewBelow(later, All(states[i]), user, k);
  }

  /** In a pinned memtable everything is newer than in the pinned immutable memtable, and that than in the tables. */
  lemma PinnedLayers(states: seq<State>, steps: seq<Step>, i: nat, j: nat)
    requires Run(states, steps) && Alive(steps, i, j)
    ensures forall x, y ::
              x in Memtable(states, steps, i, j) && y in Frozen(states[i]) + Contents(states[i].version) ==>
                x.key.seqno > y.key.seqno
    ensures forall x, y :: x in Frozen(states[i]) && y in Contents(states[i].version) ==> x.key.seqno > y.key.seqno
  {
    RunInv(states, steps, i);
    MemtableGrows(states, steps, i, j);
    forall x | x in Memtable(states, steps, i, j) ensures x.key.seqno > states[i].frozen {
      if x !in states[i].mem { assert x in Memtable(states, steps, i, j) - states[i].mem; }
    }
  }

  /**
   DBImpl::Get: the sources are pinned in state `i`; the memtable is read as it is in state `j`. The memtables
   are given as the sorted runs their skip lists hold.
   */
  method Get(ghost states: seq<State>, ghost steps: seq<Step>, ghost i: nat, ghost j: nat,
             memRun: seq<Entry>, immRun: seq<Entry>, version: Version, user: int, snapshot: nat)
    returns (r: LookupResult)
    requires Run(states, steps) && Alive(steps, i, j) && Live(states[i], snapshot)
    requires NoOrderBreak(states, steps, i) && NoViewBreak(states, steps, i)
    requires Sorted(memRun) && Elements(memRun) == Memtable(states, steps, i, j)
    requires Sorted(immRun) && Elements(immRun) == Frozen(states[i]) && version == states[i].version
    ensures snapshot <= |states[i].history| && Matches(r, SpecView(states[i].history, user, snapshot))
  {
    PinnedLayers(states, steps, i, j);
    RunInv(states, steps, i);
    OrderInRunIff(states, steps, i);
    assert LevelOrder(version);
    ghost var below := Elements(immRun) + Contents(version);
    r := RunGet(memRun, user, snapshot);
    RunGetAnswers(memRun, user, snapshot);
    if !r.NotFound? {
      AnswersAbove(Elements(memRun), below, user, snapshot, r);
    } else {
      r := RunGet(immRun, user, snapshot);
      RunGetAnswers(immRun, user, snapshot);
      if !r.NotFound? {
        AnswersAbove(Elements(immRun), Contents(version), user, snapshot, r);
      } else {
        r := Versions.Get(version, user, snapshot);
        AnswersBelow(Elements(immRun), Contents(version), user, snapshot, r);
      }
      AnswersBelow(Elements(memRun), below, user, snapshot, r);
    }
    PinnedSeesHistory(states, steps, i, j, user, snapshot);
    AnswerIsView(Pinned(states, steps, i, j), user, snapshot, r);
  }

  // ---- Iterators ----

  lemma SortedIsProper(es: seq<Entry>)
    requires Sorted(es) && UniqueSeq(Elements(es))
    ensures Proper(es)
  {
    forall i, j | 0 <= i < j < |es|
      ensures es[i].key.user < es[j].key.user || (es[i].key.user == es[j].key.user && es[i].key.seqno > es[j].key.seqno)
    {
      assert Less(es[i].key, es[j].key);
      assert es[i] in Elements(es) && es[j] in Elements(es);
    }
  }

  /** The list is the map the history has at `k`, in increasing order of user keys. */
  ghost predicate IsMap(ps: seq<(int, string)>, h: seq<Op>, k: nat) {
    && k <= |h| && Climbs(ps)
    && forall user, value :: (user, value) in ps <==> SpecView(h, user, k) == Some(value)
  }

  /** An iterator opened in state `i` walks, at any later time, exactly the map the history had at its snapshot. */
  lemma IteratorWalksHistory(states: seq<State>, steps: seq<Step>, i: nat, j: nat, es: seq<Entry>, k: nat)
    requires Run(states, steps) && Alive(steps, i, j) && NoViewBreak(states, steps, i) && Live(states[i], k)
    requires Sorted(es) && Elements(es) == Pinned(states, steps, i, j)
    ensures Proper(es) && IsMap(PairList(es, k, |es|), states[i].history, k)
  {
    PinnedSeesHistory(states, steps, i, j, 0, k);
    SortedIsProper(es);
    PairListIncreases(es, k, |es|);
    forall user, value
      ensures (user, value) in PairList(es, k, |es|) <==> SpecView(states[i].history, user, k) == Some(value)
    {
      PinnedSeesHistory(states, steps, i, j, user, k);
      PairListIsView(es, k, user, value);
    }
  }

  /** A pinned memtable only gains entries, all above every sequence number of the time it was pinned. */
  lemma PinnedGrows(states: seq<State>, steps: seq<Step>, i: nat, j: nat, j': nat)
    requires Run(states, steps) && Alive(steps, i, j') && i <= j <= j'
    ensures Pinned(states, steps, i, j) <= Pinned(states, steps, i, j')
    ensures forall e :: e in Pinned(states, steps, i, j') && e !in Pinned(states, steps, i, j) ==>
              e.key.seqno > |states[i].history|
  {
    MemtableExtends(states, steps, i, j, j');
    MemtableGrows(states, steps, i, j');
    MemtableKeeps(states, steps, i, j);
  }

  lemma {:induction false} MemtableExtends(states: seq<State>, steps: seq<Step>, i: nat, j: nat, j': nat)
    requires Run(states, steps) && Alive(steps, i, j') && i <= j <= j'
    ensures Memtable(states, steps, i, j) <= Memtable(states, steps, i, j')
    decreases j - i
  {
    if i == j {
      MemtableKeeps(states, steps, i, j');
    } else if !steps[i].SwitchMemtable? {
      MemtableExtends(states, steps, i + 1, j, j');
    }
  }

  lemma MemtableKeeps(states: seq<State>, steps: seq<Step>, i: nat, j: nat)
    requires Run(states, steps) && Alive(steps, i, j)
    ensures states[i].mem <= Memtable(states, steps, i, j)
  {
    MemtableGrows(states, steps, i, j);
  }

  /** Writes that arrive while an iterator is open leave it the list it walks; what joins is above its snapshot. */
  lemma OpenIteratorIsStable(states: seq<State>, steps: seq<Step>, i: nat, j: nat, j': nat,
                             es: seq<Entry>, es': seq<Entry>, k: nat)
    requires Run(states, steps) && Alive(steps, i, j') && i <= j <= j'
    requires NoViewBreak(states, steps, i) && Live(states[i], k)
    requires Sorted(es) && Elements(es) == Pinned(states, steps, i, j)
    requires Sorted(es') && Elements(es') == Pinned(states, steps, i, j')
    ensures Grown(es, es', k)
    ensures PairList(es, k, |es|) == PairList(es', k, |es'|)
  {
    IteratorWalksHistory(states, steps, i, j, es, k);
    IteratorWalksHistory(states, steps, i, j', es', k);
    PinnedGrows(states, steps, i, j, j');
    forall e | e in es ensures e in es' { assert e in Elements(es); assert e in Elements(es'); }
    forall e | e in es' && e !in es ensures e.key.seqno > k { assert e in Elements(es') && e !in Elements(es); }
    SameMapSameList(PairList(es, k, |es|), PairList(es', k, |es'|), states[i].history, k);
  }

  /**
   An open iterator between two of its operations, while the store went from state `j` to state `j'`: the same
   cursor, at the same place of the same list, which is the map of the history at its snapshot.
   */
  method Resume(it: DBIter, ghost states: seq<State>, ghost steps: seq<Step>, ghost i: nat, ghost j: nat, ghost j': nat,
                grown: seq<Entry>) returns (resumed: DBIter)
    requires it.Valid() && Run(states, steps) && Alive(steps, i, j') && i <= j <= j'
    requires NoViewBreak(states, steps, i) && Live(states[i], it.sequence)
    requires Sorted(it.entries) && Elements(it.entries) == Pinned(states, steps, i, j)
    requires Sorted(grown) && Elements(grown) == Pinned(states, steps, i, j')
    ensures fresh(resumed) && resumed.Valid() && resumed.entries == grown && resumed.sequence == it.sequence
    ensures resumed.Index() == it.Index() && resumed.Pairs() == it.Pairs()
    ensures IsMap(resumed.Pairs(), states[i].history, it.sequence)
  {
    OpenIteratorIsStable(states, steps, i, j, j', it.entries, grown, it.sequence);
    IteratorWalksHistory(states, steps, i, j', grown, it.sequence);
    resumed := new DBIter.AfterWrites(it, grown);
  }

  lemma SameMapSameList(ps: seq<(int, string)>, qs: seq<(int, string)>, h: seq<Op>, k: nat)
    requires IsMap(ps, h, k) && IsMap(qs, h, k)
    ensures ps == qs
  {
    forall p: (int, string) ensures p in ps <==> p in qs {
      var (user, value) := p;
      assert p == (user, value);
      assert (user, value) in ps <==> SpecView(h, user, k) == Some(value);
      assert (user, value) in qs <==> SpecView(h, user, k) == Some(value);
    }
    SamePairsSameList(ps, qs);
  }
}
