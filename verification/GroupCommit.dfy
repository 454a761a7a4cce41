/**
 Concurrent writers: they queue up, the first one commits a group of batches
 with one log record, and the mutex is free while it logs and inserts. A step
 is what happens between two points where another thread may run.
 */
module GroupCommit {
  import opened Options
  import opened WriteBatches

  /** A waiting write; a writer without a batch only forces a memtable switch. */
  datatype Writer = Writer(id: nat, batch: Option<seq<Op>>, sync: bool, size: nat)

  function Batch(w: Writer): seq<Op> {
    if w.batch.Some? then w.batch.value else []
  }

  /** All updates of a list of writers, in order. */
  function Concat(ws: seq<Writer>): seq<Op> {
    if ws == [] then [] else Concat(ws[..|ws| - 1]) + Batch(ws[|ws| - 1])
  }

  // ---- Forming a group ----

  function Size(w: Writer): nat {
    if w.batch.Some? then w.size else 0
  }

  function TotalSize(ws: seq<Writer>): nat {
    if ws == [] then 0 else TotalSize(ws[..|ws| - 1]) + Size(ws[|ws| - 1])
  }

  /** One megabyte, or not much more than a small first batch. */
  function MaxSize(first: nat): nat {
    if first <= 0x2_0000 then first + 0x2_0000 else 0x10_0000
  }

  /**
   The first `n` writers form a group: none needs a sync that its leader does not do, and it is as large as allowed.
   */
  ghost predicate GroupOK(queue: seq<Writer>, n: nat) {
    && 1 <= n <= |queue| && queue[0].batch.Some?
    && (forall i :: 0 <= i < n && queue[i].sync ==> queue[0].sync)
    && (TotalSize(queue[..n]) <= MaxSize(queue[0].size) || TotalSize(queue[..n]) == queue[0].size)
    && (n == |queue| || (queue[n].sync && !queue[0].sync)
        || (queue[n].batch.Some? && TotalSize(queue[..n]) + queue[n].size > MaxSize(queue[0].size)))
  }

  lemma NextWriter(ws: seq<Writer>, i: nat)
    requires i < |ws|
    ensures Concat(ws[..i + 1]) == Concat(ws[..i]) + Batch(ws[i]) &&
            TotalSize(ws[..i + 1]) == TotalSize(ws[..i]) + Size(ws[i])
  {
    assert ws[..i + 1][..i] == ws[..i];
  }

  /** The first `n` writers have been taken, and may be together. */
  ghost predicate Taken(queue: seq<Writer>, n: nat, result: seq<Op>, size: nat) {
    && 1 <= n <= |queue| && queue[0].batch.Some?
    && (forall i :: 0 <= i < n && queue[i].sync ==> queue[0].sync)
    && (size <= MaxSize(queue[0].size) || size == queue[0].size)
    && result == Concat(queue[..n]) && size == TotalSize(queue[..n])
  }

  /** The next writer may not join. */
  predicate Stops(queue: seq<Writer>, n: nat, size: nat)
    requires queue != []
  {
    || n >= |queue| || (queue[n].sync && !queue[0].sync)
    || (queue[n].batch.Some? && size + queue[n].size > MaxSize(queue[0].size))
  }

  lemma TakeFirst(queue: seq<Writer>)
    requires queue != [] && queue[0].batch.Some?
    ensures Taken(queue, 1, queue[0].batch.value, queue[0].size)
  {
    NextWriter(queue, 0);
    assert queue[..0] == [];
  }

  lemma TakeNext(queue: seq<Writer>, n: nat, result: seq<Op>, size: nat)
    requires Taken(queue, n, result, size) && !Stops(queue, n, size)
    ensures Taken(queue, n + 1, result + Batch(queue[n]), size + Size(queue[n]))
  {
    NextWriter(queue, n);
  }

  method BuildBatchGroup(queue: seq<Writer>) returns (n: nat, result: seq<Op>)
    requires queue != [] && queue[0].batch.Some?
    ensures GroupOK(queue, n) && result == Concat(queue[..n])
  {
    var size: nat, maxSize: nat := queue[0].size, 0x10_0000;
    if size <= 0x2_0000 { maxSize := size + 0x2_0000; }
    n, result, size := GrowGroup(queue, size, maxSize);
  }

  /** The loop over the writers behind the leader. */
  method GrowGroup(queue: seq<Writer>, firstSize: nat, maxSize: nat) returns (n: nat, result: seq<Op>, size: nat)
    requires queue != [] && queue[0].batch.Some? && firstSize == queue[0].size && maxSize == MaxSize(firstSize)
    ensures Taken(queue, n, result, size) && Stops(queue, n, size)
  {
    n, result, size := 1, queue[0].batch.value, firstSize;
    TakeFirst(queue);
    while n < |queue|
      invariant Taken(queue, n, result, size)
      decreases |queue| - n
    {
      var w := queue[n];
      if w.sync && !queue[0].sync { break; }
      if w.batch.Some? && size + w.size > maxSize { break; }
      TakeNext(queue, n, result, size);
      n, result, size := n + 1, result + Batch(w), size + Size(w);
    }
  }

  // ---- Who joins ----

  /** Nothing stops the group before it takes writer `i`: no sync it may not do, and no batch that is too large. */
  predicate MayJoin(queue: seq<Writer>, i: nat)
    requires i < |queue|
  {
    i > 0 && forall j :: 1 <= j <= i ==> !Stops(queue, j, TotalSize(queue[..j]))
  }

  /** A batch has at least its header. */
  ghost predicate Sized(ws: seq<Writer>) {
    forall w :: w in ws && w.batch.Some? ==> w.size >= HEADER
  }

  lemma {:induction false} TotalGrows(queue: seq<Writer>, a: nat, b: nat)
    requires a <= b <= |queue|
    ensures TotalSize(queue[..a]) <= TotalSize(queue[..b])
    decreases b
  {
    if a < b {
      NextWriter(queue, b - 1);
      TotalGrows(queue, a, b - 1);
    }
  }

  lemma JoinedFits(queue: seq<Writer>, n: nat, j: nat)
    requires GroupOK(queue, n) && Sized(queue) && 1 <= j < n
    ensures !Stops(queue, j, TotalSize(queue[..j]))
  {
    NextWriter(queue, j);
    NextWriter(queue, 0);
    TotalGrows(queue, 1, j);
    TotalGrows(queue, j + 1, n);
    assert queue[..0] == [];
    assert queue[j] in queue;
  }

  /** Exactly the writers that nothing keeps out are in the group, with or without a batch. */
  lemma InGroupIff(queue: seq<Writer>, n: nat, i: nat)
    requires GroupOK(queue, n) && Sized(queue) && 0 < i < |queue|
    ensures i < n <==> MayJoin(queue, i)
  {
    if i < n {
      forall j | 1 <= j <= i ensures !Stops(queue, j, TotalSize(queue[..j])) { JoinedFits(queue, n, j); }
    } else {
      assert Stops(queue, n, TotalSize(queue[..n]));
    }
  }

  // ---- Steps ----

  datatype Phase = Idle | Committing(n: nat, logged: bool, inserted: nat)

  /** A log record: the updates of its members from sequence number `start` on. */
  datatype Record = Record(start: nat, members: seq<Writer>, synced: bool)

  /**
   `arrived` lists all writers in the order they queued up, `done` those acknowledged, `switched` those without a
   batch for which the memtable was switched.
   */
  datatype State = State(
    arrived: seq<Writer>,
    done: seq<Writer>,
    queue: seq<Writer>,
    phase: Phase,
    log: seq<Record>,
    mem: seq<Numbered>,
    last: nat,
    switched: seq<Writer>)

  datatype Step = Arrive(w: Writer) | PassNull | Begin(n: nat) | AddRecord | InsertOne | Finish

  function Group(s: State): seq<Writer> {
    if s.phase.Committing? && s.phase.n <= |s.queue| then s.queue[..s.phase.n] else []
  }

  ghost predicate Does(s: State, step: Step, t: State) {
    match step
    case Arrive(w) =>
      && (forall x :: x in s.arrived ==> x.id != w.id) && (w.batch.Some? ==> w.size >= HEADER)
      && t == s.(arrived := s.arrived + [w], queue := s.queue + [w])
    case PassNull =>
      && s.phase.Idle? && s.queue != [] && s.queue[0].batch.None?
      && t == s.(queue := s.queue[1..], done := s.done + [s.queue[0]], switched := s.switched + [s.queue[0]])
    case Begin(n) =>
      s.phase.Idle? && GroupOK(s.queue, n) && t == s.(phase := Committing(n, false, 0))
    case AddRecord =>
      s.phase.Committing? && !s.phase.logged && s.queue != []
      && t == s.(log := s.log + [Record(s.last + 1, Group(s), s.queue[0].sync)], phase := s.phase.(logged := true))
    case InsertOne =>
      s.phase.Committing? && s.phase.logged && s.phase.inserted < |Concat(Group(s))|
      && t == s.(mem := s.mem + [Numbered(s.last + 1 + s.phase.inserted, Concat(Group(s))[s.phase.inserted])],
                 phase := s.phase.(inserted := s.phase.inserted + 1))
    case Finish =>
      s.phase.Committing? && s.phase.logged && s.phase.inserted == |Concat(Group(s))| && s.phase.n <= |s.queue|
      && t == s.(done := s.done + Group(s), queue := s.queue[s.phase.n..], last := s.last + |Concat(Group(s))|,
                 phase := Idle)
  }

  // ---- Invariant ----

  function Members(log: seq<Record>): seq<Writer> {
    if log == [] then [] else Members(log[..|log| - 1]) + log[|log| - 1].members
  }

  /** The numbered updates that replaying the log gives. */
  function Logged(log: seq<Record>): seq<Numbered> {
    if log == [] then [] else Logged(log[..|log| - 1]) + Number(Concat(log[|log| - 1].members), log[|log| - 1].start)
  }

  ghost predicate QueueOK(s: State) {
    && s.arrived == s.done + s.queue && Sized(s.arrived)
    && (forall i, j :: 0 <= i < j < |s.arrived| ==> s.arrived[i].id != s.arrived[j].id)
    && (s.phase.Committing? ==> GroupRuns(s.queue, s.phase))
  }

  ghost predicate GroupRuns(queue: seq<Writer>, phase: Phase)
    requires phase.Committing?
  {
    && 1 <= phase.n <= |queue|
    && (forall i :: 0 <= i < phase.n && queue[i].sync ==> queue[0].sync)
    && phase.inserted <= |Concat(queue[..phase.n])| && (!phase.logged ==> phase.inserted == 0)
  }

  /** The updates committed so far, with those of the group in flight that have been logged. */
  function InLog(s: State): seq<Op> {
    Concat(s.done) + if s.phase.Committing? && s.phase.logged then Concat(Group(s)) else []
  }

  function InMem(s: State): seq<Op> {
    Concat(s.done) +
    if s.phase.Committing? && s.phase.inserted <= |Concat(Group(s))|
    then Concat(Group(s))[..s.phase.inserted]
    else []
  }

  ghost predicate DataOK(s: State) {
    && s.last == |Concat(s.done)|
    && Logged(s.log) == Number(InLog(s), 1)
    && s.mem == Number(InMem(s), 1)
  }

  ghost predicate SyncedIn(log: seq<Record>, w: Writer) {
    exists i :: 0 <= i < |log| && log[i].synced && w in log[i].members
  }

  ghost predicate SyncOK(s: State) {
    && (forall w :: w in s.done && w.sync && w.batch.Some? ==> SyncedIn(s.log, w))
    && (s.phase.Committing? && s.phase.logged ==>
          forall w :: w in Group(s) && w.sync && w.batch.Some? ==> SyncedIn(s.log, w))
  }

  ghost predicate InRecord(log: seq<Record>, w: Writer) {
    exists i :: 0 <= i < |log| && w in log[i].members
  }

  ghost predicate Logging(s: State, w: Writer) {
    s.phase.Committing? && s.phase.logged && w in Group(s)
  }

  /** Of the acknowledged writers without a batch, those in no group had the memtable switched, once each. */
  ghost predicate SwitchOK(s: State) {
    && (forall w :: w in s.switched ==> w in s.done && w.batch.None?)
    && (forall i, j :: 0 <= i < j < |s.switched| ==> s.switched[i] != s.switched[j])
    && (forall w :: w in s.done && w.batch.None? ==> (w in s.switched <==> !InRecord(s.log, w)))
    && (forall w :: InRecord(s.log, w) ==> w in s.done || Logging(s, w))
    && (forall w :: Logging(s, w) ==> InRecord(s.log, w))
  }

  ghost predicate Inv(s: State) {
    QueueOK(s) && DataOK(s) && SyncOK(s) && SwitchOK(s)
  }

  ghost predicate Initial(s: State) {
    s == State([], [], [], Idle, [], [], 0, [])
  }

  lemma ConcatOneMore(a: seq<Writer>, w: Writer)
    ensures Concat(a + [w]) == Concat(a) + Batch(w)
  {
    assert (a + [w])[..|a|] == a;
  }

  lemma JoinedOps(x: seq<Op>, y: seq<Op>, z: seq<Op>)
    ensures x + y + z == x + (y + z)
  {
  }

  lemma {:induction false} ConcatAppend(a: seq<Writer>, b: seq<Writer>)
    ensures Concat(a + b) == Concat(a) + Concat(b)
  {
    if b == [] {
      assert a + b == a;
    } else {
      var init, last := b[..|b| - 1], b[|b| - 1];
      assert a + b == a + init + [last];
      ConcatOneMore(a + init, last);
      ConcatAppend(a, init);
      JoinedOps(Concat(a), Concat(init), Batch(last));
    }
  }

  lemma NumberAppend(a: seq<Op>, b: seq<Op>, from: nat)
    ensures Number(a + b, from) == Number(a, from) + Number(b, from + |a|)
  {
  }

  lemma ArriveKeepsQueue(s: State, w: Writer, t: State)
    requires QueueOK(s) && Does(s, Arrive(w), t)
    ensures QueueOK(t)
  {
    if s.phase.Committing? { assert t.queue[..s.phase.n] == s.queue[..s.phase.n]; }
  }

  lemma PassKeepsQueue(s: State, t: State)
    requires QueueOK(s) && Does(s, PassNull, t)
    ensures QueueOK(t)
  {
    assert s.queue == [s.queue[0]] + s.queue[1..];
    assert s.done + s.queue == s.done + [s.queue[0]] + s.queue[1..];
  }

  lemma FinishKeepsQueue(s: State, t: State)
    requires QueueOK(s) && Does(s, Finish, t)
    ensures QueueOK(t)
  {
    assert s.queue == s.queue[..s.phase.n] + s.queue[s.phase.n..];
    assert s.done + s.queue == s.done + s.queue[..s.phase.n] + s.queue[s.phase.n..];
  }

  lemma PhaseKeepsQueue(s: State, step: Step, t: State)
    requires QueueOK(s) && Does(s, step, t) && (step.Begin? || step.AddRecord? || step.InsertOne?)
    ensures QueueOK(t)
  {
  }

  lemma StepKeepsQueue(s: State, step: Step, t: State)
    requires QueueOK(s) && Does(s, step, t)
    ensures QueueOK(t)
  {
    match step
    case Arrive(w) => ArriveKeepsQueue(s, w, t);
    case PassNull => PassKeepsQueue(s, t);
    case Finish => FinishKeepsQueue(s, t);
    case _ => PhaseKeepsQueue(s, step, t);
  }

  lemma ArriveKeepsData(s: State, w: Writer, t: State)
    requires QueueOK(s) && DataOK(s) && Does(s, Arrive(w), t)
    ensures DataOK(t) && Group(t) == Group(s)
  {
    if s.phase.Committing? { assert t.queue[..s.phase.n] == s.queue[..s.phase.n]; }
  }

  lemma PassKeepsData(s: State, t: State)
    requires DataOK(s) && Does(s, PassNull, t)
    ensures DataOK(t)
  {
    NextWriter(s.done + [s.queue[0]], |s.done|);
    assert (s.done + [s.queue[0]])[..|s.done|] == s.done && (s.done + [s.queue[0]])[..|s.done| + 1] == t.done;
    assert Concat(t.done) == Concat(s.done);
  }

  lemma RecordKeepsData(s: State, t: State)
    requires QueueOK(s) && DataOK(s) && Does(s, AddRecord, t)
    ensures DataOK(t)
  {
    var r := t.log[|t.log| - 1];
    assert t.log[..|t.log| - 1] == s.log;
    assert InLog(s) == Concat(s.done);
    NumberAppend(Concat(s.done), Concat(Group(s)), 1);
  }

  lemma NumberOneMore(a: seq<Op>, ops: seq<Op>, k: nat)
    requires k < |ops|
    ensures Number(a + ops[..k + 1], 1) == Number(a + ops[..k], 1) + [Numbered(|a| + 1 + k, ops[k])]
  {
    assert a + ops[..k + 1] == a + ops[..k] + [ops[k]];
    NumberAppend(a + ops[..k], [ops[k]], 1);
  }

  lemma InsertKeepsData(s: State, t: State)
    requires QueueOK(s) && DataOK(s) && Does(s, InsertOne, t)
    ensures DataOK(t)
  {
    NumberOneMore(Concat(s.done), Concat(Group(s)), s.phase.inserted);
    assert Group(t) == Group(s);
  }

  lemma FinishKeepsData(s: State, t: State)
    requires QueueOK(s) && DataOK(s) && Does(s, Finish, t)
    ensures DataOK(t)
  {
    var group := Group(s);
    ConcatAppend(s.done, group);
    WholeGroup(Concat(s.done), Concat(group), Concat(t.done));
  }

  lemma WholeGroup(a: seq<Op>, ops: seq<Op>, all: seq<Op>)
    requires all == a + ops
    ensures all + [] == all && a + ops[..|ops|] == all
  {
  }

  lemma StepKeepsSync(s: State, step: Step, t: State)
    requires QueueOK(s) && SyncOK(s) && Does(s, step, t)
    ensures SyncOK(t)
  {
    forall w | SyncedIn(s.log, w) ensures SyncedIn(t.log, w) {
      var i :| 0 <= i < |s.log| && s.log[i].synced && w in s.log[i].members;
      assert t.log[i] == s.log[i];
    }
    if step.Arrive? && s.phase.Committing? { assert t.queue[..s.phase.n] == s.queue[..s.phase.n]; }
    if step.AddRecord? {
      var r := t.log[|s.log|];
      forall w | w in Group(t) && w.sync && w.batch.Some? ensures SyncedIn(t.log, w) {
        assert r.synced && w in r.members;
      }
    }
  }

  lemma DoneIsPast(s: State, w: Writer)
    requires QueueOK(s) && w in s.done
    ensures w !in s.queue && w !in Group(s)
  {
    var i :| 0 <= i < |s.done| && s.done[i] == w;
    forall j | 0 <= j < |s.queue| ensures s.queue[j] != w {
      assert s.arrived[i] == w && s.arrived[|s.done| + j] == s.queue[j];
    }
  }

  lemma InLongerLog(log: seq<Record>, r: Record, w: Writer)
    ensures InRecord(log + [r], w) <==> InRecord(log, w) || w in r.members
  {
    var all := log + [r];
    assert all[|log|] == r;
    if i :| 0 <= i < |log| && w in log[i].members { assert w in all[i].members; }
  }

  lemma ArriveKeepsSwitch(s: State, w: Writer, t: State)
    requires QueueOK(s) && SwitchOK(s) && Does(s, Arrive(w), t)
    ensures SwitchOK(t)
  {
    if s.phase.Committing? { assert t.queue[..s.phase.n] == s.queue[..s.phase.n]; }
    forall x ensures Logging(t, x) <==> Logging(s, x) {}
  }

  lemma PassKeepsSwitch(s: State, t: State)
    requires QueueOK(s) && SwitchOK(s) && Does(s, PassNull, t)
    ensures SwitchOK(t)
  {
    var w := s.queue[0];
    assert w in s.queue;
    if w in s.done { DoneIsPast(s, w); }
    assert !InRecord(s.log, w);
  }

  lemma RecordKeepsSwitch(s: State, t: State)
    requires QueueOK(s) && SwitchOK(s) && Does(s, AddRecord, t)
    ensures SwitchOK(t)
  {
    forall w ensures InRecord(t.log, w) <==> InRecord(s.log, w) || w in Group(s) {
      InLongerLog(s.log, t.log[|s.log|], w);
    }
    forall w | w in s.done ensures w !in Group(s) { DoneIsPast(s, w); }
    assert Group(t) == Group(s);
  }

  lemma FinishKeepsSwitch(s: State, t: State)
    requires QueueOK(s) && SwitchOK(s) && Does(s, Finish, t)
    ensures SwitchOK(t)
  {
    forall w | w in s.done ensures w !in Group(s) { DoneIsPast(s, w); }
    forall w ensures Logging(s, w) <==> w in Group(s) {}
    assert forall w :: w in t.done <==> w in s.done || w in Group(s);
  }

  lemma StepKeepsSwitch(s: State, step: Step, t: State)
    requires QueueOK(s) && SwitchOK(s) && Does(s, step, t)
    ensures SwitchOK(t)
  {
    match step
    case Arrive(w) => ArriveKeepsSwitch(s, w, t);
    case PassNull => PassKeepsSwitch(s, t);
    case AddRecord => RecordKeepsSwitch(s, t);
    case Finish => FinishKeepsSwitch(s, t);
    case _ => assert forall w :: Logging(t, w) <==> Logging(s, w);
  }

  lemma StepKeepsInv(s: State, step: Step, t: State)
    requires Inv(s) && Does(s, step, t)
    ensures Inv(t)
  {
    StepKeepsQueue(s, step, t);
    StepKeepsSync(s, step, t);
    StepKeepsSwitch(s, step, t);
    match step
    case Arrive(w) => ArriveKeepsData(s, w, t);
    case PassNull => PassKeepsData(s, t);
    case Begin(_) => assert InLog(t) == InLog(s) && InMem(t) == InMem(s);
    case AddRecord => RecordKeepsData(s, t);
    case InsertOne => InsertKeepsData(s, t);
    case Finish => FinishKeepsData(s, t);
  }

  // ---- Every schedule ----

  ghost predicate Run(states: seq<State>, steps: seq<Step>) {
    && |states| == |steps| + 1 && Initial(states[0])
    && forall i :: 0 <= i < |steps| ==> Does(states[i], steps[i], states[i + 1])
  }

  lemma InitialInv(s: State)
    requires Initial(s)
    ensures Inv(s)
  {
  }

  lemma {:induction false} RunInv(states: seq<State>, steps: seq<Step>, k: nat)
    requires Run(states, steps) && k <= |steps|
    ensures Inv(states[k])
  {
    if k == 0 {
      InitialInv(states[0]);
    } else {
      RunInv(states, steps, k - 1);
      StepKeepsInv(states[k - 1], steps[k - 1], states[k - 1 + 1]);
    }
  }

  /**
   In every schedule, at every moment: writers are acknowledged in the order they queued up; the updates of the
   acknowledged ones are in the log and in the memtable once each, in that order, numbered from 1 without gaps;
   and a reader at the last sequence number sees exactly these, never part of a batch.
   */
  lemma CommittedInOrder(states: seq<State>, steps: seq<Step>, k: nat)
    requires Run(states, steps) && k <= |steps|
    ensures var s := states[k];
      && s.done <= s.arrived
      && Number(Concat(s.done), 1) <= Logged(s.log) && Number(Concat(s.done), 1) <= s.mem
      && s.last == |Concat(s.done)|
      && (forall i :: 0 <= i < |s.mem| ==> s.mem[i].seqno == i + 1)
      && (forall i :: 0 <= i < |Logged(s.log)| ==> Logged(s.log)[i].seqno == i + 1)
      && (forall i :: 0 <= i < |s.mem| ==> (s.mem[i].seqno <= s.last <==> i < |Concat(s.done)|))
  {
    RunInv(states, steps, k);
    var s := states[k];
    NumberPrefix(Concat(s.done), InLog(s));
    NumberPrefix(Concat(s.done), InMem(s));
  }

  lemma NumberPrefix(a: seq<Op>, b: seq<Op>)
    requires a <= b
    ensures Number(a, 1) <= Number(b, 1)
  {
    forall i | 0 <= i < |a| ensures Number(a, 1)[i] == Number(b, 1)[i] {}
  }

  lemma {:induction false} WithinConcat(ws: seq<Writer>, i: nat)
    requires i < |ws|
    ensures Concat(ws[..i]) + Batch(ws[i]) <= Concat(ws)
  {
    NextWriter(ws, i);
    ConcatAppend(ws[..i + 1], ws[i + 1..]);
    assert ws == ws[..i + 1] + ws[i + 1..];
  }

  /** Where the updates of an acknowledged writer are: right after those of the writers before it. */
  lemma BatchIsInPlace(states: seq<State>, steps: seq<Step>, k: nat, i: nat, j: nat)
    requires Run(states, steps) && k <= |steps| && i < |states[k].done| && j < |Batch(states[k].done[i])|
    ensures var s := states[k];
      var at := |Concat(s.done[..i])| + j;
      at < |s.mem| && s.mem[at] == Numbered(at + 1, Batch(s.done[i])[j]) && at < |Logged(s.log)| &&
          Logged(s.log)[at] == s.mem[at]
  {
    CommittedInOrder(states, steps, k);
    var s := states[k];
    WithinConcat(s.done, i);
    var at := |Concat(s.done[..i])| + j;
    assert (Concat(s.done[..i]) + Batch(s.done[i]))[at] == Batch(s.done[i])[j];
    assert Number(Concat(s.done), 1)[at] == Numbered(at + 1, Batch(s.done[i])[j]);
  }

  ghost predicate GroupTakes(s: State, step: Step, w: Writer) {
    step.Begin? && step.n <= |s.queue| && w in s.queue[..step.n]
  }

  ghost predicate TakenBefore(states: seq<State>, steps: seq<Step>, k: nat, w: Writer)
    requires k <= |steps| < |states|
  {
    exists m :: 0 <= m < k && GroupTakes(states[m], steps[m], w)
  }

  lemma TakenByNext(states: seq<State>, steps: seq<Step>, k: nat, w: Writer)
    requires 0 < k <= |steps| < |states|
    ensures TakenBefore(states, steps, k, w) <==>
            TakenBefore(states, steps, k - 1, w) || GroupTakes(states[k - 1], steps[k - 1], w)
  {
  }

  /** Whose record is in the log, or being made: whoever some group took. */
  lemma {:induction false} TakenIffInGroup(states: seq<State>, steps: seq<Step>, k: nat, w: Writer)
    requires Run(states, steps) && k <= |steps|
    ensures InRecord(states[k].log, w) || w in Group(states[k]) <==> TakenBefore(states, steps, k, w)
  {
    if k > 0 {
      TakenIffInGroup(states, steps, k - 1, w);
      RunInv(states, steps, k - 1);
      TakenByNext(states, steps, k, w);
      assert Does(states[k - 1], steps[k - 1], states[k - 1 + 1]);
      TakenStep(states[k - 1], steps[k - 1], states[k], w);
    }
  }

  lemma TakenStep(s: State, step: Step, t: State, w: Writer)
    requires Inv(s) && Does(s, step, t)
    ensures InRecord(t.log, w) || w in Group(t) <==> InRecord(s.log, w) || w in Group(s) || GroupTakes(s, step, w)
  {
    match step
    case Arrive(x) => if s.phase.Committing? { assert t.queue[..s.phase.n] == s.queue[..s.phase.n]; }
    case AddRecord => InLongerLog(s.log, t.log[|s.log|], w);
    case Finish => assert Logging(s, w) <==> w in Group(s);
    case _ =>
  }

  /** A leader forms its group while `w` waits behind it and nothing keeps `w` out. */
  ghost predicate Overtaken(s: State, step: Step, i: nat, w: Writer) {
    step.Begin? && 0 < i < |s.queue| && s.queue[i] == w && MayJoin(s.queue, i)
  }

  lemma TakenIsOvertaken(s: State, step: Step, t: State, w: Writer)
    requires Inv(s) && Does(s, step, t) && w.batch.None?
    ensures GroupTakes(s, step, w) <==> exists i :: Overtaken(s, step, i, w)
  {
    if step.Begin? {
      assert Sized(s.queue) by { forall x | x in s.queue ensures x in s.arrived {} }
      forall i | 0 < i < |s.queue| ensures i < step.n <==> MayJoin(s.queue, i) { InGroupIff(s.queue, step.n, i); }
      if GroupTakes(s, step, w) {
        var i :| 0 <= i < step.n && s.queue[i] == w;
        assert Overtaken(s, step, i, w);
      }
      if i: nat :| Overtaken(s, step, i, w) { assert s.queue[..step.n][i] == w; }
    }
  }

  /**
   A writer without a batch asks for a memtable switch. In every schedule it is acknowledged with a switch of its
   own exactly if no leader formed a group that nothing kept it out of; otherwise it shares the leader's record.
   */
  lemma OwnSwitchIff(states: seq<State>, steps: seq<Step>, k: nat, w: Writer)
    requires Run(states, steps) && k <= |steps| && w in states[k].done && w.batch.None?
    ensures w in states[k].switched <==>
            !exists m, i :: 0 <= m < k && Overtaken(states[m], steps[m], i, w)
    ensures w in states[k].switched <==> !InRecord(states[k].log, w)
    ensures forall i, j :: 0 <= i < j < |states[k].switched| ==> states[k].switched[i] != states[k].switched[j]
  {
    RunInv(states, steps, k);
    TakenIffInGroup(states, steps, k, w);
    DoneIsPast(states[k], w);
    forall m | 0 <= m < k
      ensures GroupTakes(states[m], steps[m], w) <==> exists i :: Overtaken(states[m], steps[m], i, w)
    {
      RunInv(states, steps, m);
      TakenIsOvertaken(states[m], steps[m], states[m + 1], w);
    }
  }

  /** A small write and behind it a request for a switch. */
  function Two(op: Op): seq<Writer> { [Writer(0, Some([op]), false, 20), Writer(1, None, false, 0)] }

  lemma TwoJoin(op: Op)
    ensures GroupOK(Two(op), 2) && Concat(Two(op)) == [op]
  {
    var q := Two(op);
    NextWriter(q, 0);
    NextWriter(q, 1);
    assert q[..0] == [] && q[..1] == [q[0]] && q[..2] == q;
  }

  function Arrived(q: seq<Writer>): State { State(q, [], q, Idle, [], [], 0, []) }

  function Committed(q: seq<Writer>, op: Op): State {
    State(q, q, [], Idle, [Record(1, q, false)], [Numbered(1, op)], 1, [])
  }

  lemma TwoArrive(op: Op)
    ensures Does(Arrived([]), Arrive(Two(op)[0]), Arrived(Two(op)[..1]))
    ensures Does(Arrived(Two(op)[..1]), Arrive(Two(op)[1]), Arrived(Two(op)))
  {
    assert Two(op)[..1] == [] + [Two(op)[0]] && Two(op) == Two(op)[..1] + [Two(op)[1]];
  }

  lemma TwoCommit(op: Op, s1: State, s2: State, s3: State)
    requires s1 == Arrived(Two(op)).(phase := Committing(2, false, 0))
    requires s2 == s1.(phase := Committing(2, true, 0), log := [Record(1, Two(op), false)])
    requires s3 == s2.(phase := Committing(2, true, 1), mem := [Numbered(1, op)])
    ensures Does(Arrived(Two(op)), Begin(2), s1) && Does(s1, AddRecord, s2) && Does(s2, InsertOne, s3)
    ensures Does(s3, Finish, Committed(Two(op), op))
  {
    TwoJoin(op);
    assert Two(op)[..2] == Two(op) && Two(op)[2..] == [];
  }

  /** Behind a small write a request for a switch is acknowledged and nothing is switched. */
  lemma SwitchSwallowed(op: Op) returns (states: seq<State>, steps: seq<Step>)
    ensures Run(states, steps) && |steps| == 6
    ensures var a, b := Writer(0, Some([op]), false, 20), Writer(1, None, false, 0);
            steps[0] == Arrive(a) && steps[1] == Arrive(b) && GroupOK([a, b], 2) &&
            states[6].done == [a, b] && states[6].queue == [] && states[6].switched == []
  {
    var q := Two(op);
    var s1 := Arrived(q).(phase := Committing(2, false, 0));
    var s2 := s1.(phase := Committing(2, true, 0), log := [Record(1, q, false)]);
    var s3 := s2.(phase := Committing(2, true, 1), mem := [Numbered(1, op)]);
    TwoArrive(op);
    TwoCommit(op, s1, s2, s3);
    TwoJoin(op);
    steps := [Arrive(q[0]), Arrive(q[1]), Begin(2), AddRecord, InsertOne, Finish];
    states := [Arrived([]), Arrived(q[..1]), Arrived(q), s1, s2, s3, Committed(q, op)];
  }

  /** A sync write is acknowledged only when its record has been synced. */
  lemma SyncWritesAreSynced(states: seq<State>, steps: seq<Step>, k: nat, w: Writer)
    requires Run(states, steps) && k <= |steps| && w in states[k].done && w.sync && w.batch.Some?
    ensures SyncedIn(states[k].log, w)
  {
    RunInv(states, steps, k);
  }
}
