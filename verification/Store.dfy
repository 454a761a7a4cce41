/**
 The tree and the disk together: the levels with their readers, as in Lsm, and
 the logs, tables and manifest that they are recovered from, as in Recovery.
 What a crash leaves of the logs decides which operations are there again, and
 what readers then see is the history of exactly these.
 */
module Store {
  import opened Options
  import opened Format
  import opened Versions
  import opened Compactions
  import L = Lsm
  import R = Recovery

  /** `written` is the operation logged under each sequence number, those of the batch in flight included. */
  datatype State = State(lsm: L.State, rec: R.State, written: seq<L.Op>)

  datatype Step =
    | LogBatch(ops: seq<L.Op>, sync: bool)
    | ApplyBatch
    | Switch
    | Disk(disk: R.Step)
    | Tree(tree: L.Step)
    | CommitFlush(flush: L.Step)
    | CommitCompaction(merge: L.Step)
    | Reopen(number: nat, newTables: map<nat, set<R.Batch>>, first: nat, files: seq<File>)

  /** Sequence number `i` belongs to one of the batches. */
  ghost predicate Covered(bs: seq<R.Batch>, i: nat) {
    exists b :: b in bs && b.start <= i < b.start + b.count
  }

  /** The history made of the batches that are left: their operations at their places, and nothing in between. */
  ghost function Survivors(written: seq<L.Op>, bs: seq<R.Batch>, n: nat): seq<L.Op> {
    seq(n, i requires 0 <= i < n => if i < |written| && Covered(bs, i + 1) then written[i] else L.Lost)
  }

  // ---- Steps ----

  /** Steps that the levels do not notice. */
  predicate DiskOnly(step: R.Step) {
    !step.AppendLog? && !step.ApplyMem? && !step.SwitchLog? && !step.WriteManifest? && !step.Recover?
  }

  /** Steps that the disk does not notice. */
  predicate TreeOnly(step: L.Step) {
    step.StartCompaction? || step.TakeSnapshot? || step.ReleaseSnapshot?
  }

  ghost function AfterWrite(l: L.State, ops: seq<L.Op>): L.State {
    l.(history := l.history + ops, mem := l.mem + L.BatchEntries(l.history, ops))
  }

  /** Operations logged and not yet in the memtable. */
  function InFlight(s: State): seq<L.Op> {
    if |s.lsm.history| <= |s.written| then s.written[|s.lsm.history|..] else []
  }

  ghost predicate Does(s: State, step: Step, t: State) {
    match step
    case LogBatch(ops, sync) =>
      && s.rec.memory.Up? && (forall i :: 0 <= i < |ops| ==> ops[i].Op?) && |s.written| + |ops| < MAX_SEQUENCE
      && R.Does(s.rec, R.AppendLog(R.Batch(s.rec.memory.nextSeq, |ops|), sync), t.rec)
      && t == State(s.lsm, t.rec, s.written + ops)
    case ApplyBatch =>
      R.Does(s.rec, R.ApplyMem, t.rec) && t == State(AfterWrite(s.lsm, InFlight(s)), t.rec, s.written)
    case Switch =>
      && R.Does(s.rec, R.SwitchLog, t.rec)
      && t == State(s.lsm.(imm := Some(s.lsm.mem), mem := {}, frozen := |s.lsm.history|), t.rec, s.written)
    case Disk(step) =>
      DiskOnly(step) && R.Does(s.rec, step, t.rec) && t == s.(rec := t.rec)
    case Tree(step) =>
      s.rec.memory.Up? && TreeOnly(step) && L.Does(s.lsm, step, t.lsm) && t == s.(lsm := t.lsm)
    case CommitFlush(step) =>
      && (step.Flush? || step.FlushEmpty?) && L.Does(s.lsm, step, t.lsm)
      && s.rec.memory.Up? && s.rec.memory.edit.Logging? && s.rec.memory.edit.forFlush
      && R.Does(s.rec, R.WriteManifest, t.rec) && t.written == s.written
    case CommitCompaction(step) =>
      && (step.FinishCompaction? || step.MoveFile?) && L.Does(s.lsm, step, t.lsm)
      && s.rec.memory.Up? && s.rec.memory.edit.Logging? && !s.rec.memory.edit.forFlush
      && R.Does(s.rec, R.WriteManifest, t.rec) && t.written == s.written
    case Reopen(n, newTables, first, files) =>
      && R.Does(s.rec, R.Recover(n, newTables), t.rec) && t.rec.memory.Up? && t.rec.memory.nextSeq > 0
      && t.written == Survivors(s.written, s.rec.history, t.rec.memory.nextSeq - 1)
      && s.lsm.flushed <= |t.written|
      && L.Rebuilt(AfterWrite(s.lsm, InFlight(s)), t.written, first, files, t.lsm)
  }

  ghost predicate Initial(s: State) {
    L.Initial(s.lsm) && R.Initial(s.rec) && s.written == []
  }

  // ---- What links the two ----

  /** Every batch left has its operations among those written. */
  ghost predicate HasOps(written: seq<L.Op>, bs: seq<R.Batch>) {
    forall b :: b in bs ==> OpsOf(written, b)
  }

  ghost predicate OpsOf(written: seq<L.Op>, b: R.Batch) {
    && 1 <= b.start && b.start + b.count <= |written| + 1
    && forall i :: b.start - 1 <= i < b.start - 1 + b.count ==> written[i].Op?
  }

  /** All operations up to `n` belong to batches of `bs`. */
  ghost predicate AllIn(written: seq<L.Op>, n: nat, bs: seq<R.Batch>) {
    forall i :: 0 <= i < n && i < |written| && written[i].Op? ==> Covered(bs, i + 1)
  }

  ghost predicate EndBy(bs: seq<R.Batch>, n: nat) {
    forall b :: b in bs ==> b.start + b.count <= n + 1
  }

  ghost predicate StartAfter(bs: seq<R.Batch>, n: nat) {
    forall b :: b in bs ==> b.start > n
  }

  /** In any state, running or crashed: tables hold what was flushed, logs what came after. */
  ghost predicate DiskLinks(s: State) {
    && s.lsm.history <= s.written && |s.written| < MAX_SEQUENCE && HasOps(s.written, s.rec.history)
    && (forall i :: |s.lsm.history| <= i < |s.written| ==> s.written[i].Op?)
    && AllIn(s.written, s.lsm.flushed, s.rec.durable)
    && EndBy(s.rec.durable, s.lsm.flushed) && StartAfter(R.Recovered(s.rec), s.lsm.flushed)
    && s.lsm.flushed < s.rec.disk.manifest.nextSeq <= |s.written| + 1
  }

  /** While the database runs: memtables hold the batches of their logs. */
  ghost predicate MemoryLinks(s: State) {
    s.rec.memory.Up? ==>
      var m := s.rec.memory;
      && m.nextSeq == |s.lsm.history| + 1
      && |s.written| == |s.lsm.history| + (if m.applying.Some? then m.applying.value.count else 0)
      && AllIn(s.written, |s.written|, s.rec.history)
      && (s.lsm.imm.Some? <==> R.ImmInLog(m))
      && StartAfter(m.mem, s.lsm.frozen)
      && (R.ImmInLog(m) ==> EndBy(m.imm.value, s.lsm.frozen))
      && (!m.edit.NoEdit? ==> s.lsm.flushed < m.edit.next.nextSeq <= |s.written| + 1)
      && (m.edit.Logging? && m.edit.forFlush ==> s.lsm.frozen < m.edit.next.nextSeq)
  }

  ghost predicate Linked(s: State) {
    DiskLinks(s) && MemoryLinks(s)
  }

  ghost predicate Inv(s: State) {
    L.Inv(s.lsm) && R.Inv(s.rec) && Linked(s)
  }

  // ---- Every step keeps the link ----

  lemma InitialInv(s: State)
    requires Initial(s)
    ensures Inv(s)
  {
    L.InitialInv(s.lsm);
    R.InitialInv(s.rec);
  }

  lemma SameRecovered(s: R.State, t: R.State)
    requires R.DiskOK(s) && R.DiskOK(t) && s.history == t.history && s.durable == t.durable
    ensures R.Recovered(s) == R.Recovered(t)
  {
    assert s.history[|s.durable|..] == R.Recovered(s);
    assert t.history[|t.durable|..] == R.Recovered(t);
  }

  lemma LogKeepsLinks(s: State, ops: seq<L.Op>, sync: bool, t: State)
    requires R.DiskOK(s.rec) && R.DiskOK(t.rec) && L.SnapshotsOK(s.lsm) && Linked(s) && Does(s, LogBatch(ops, sync), t)
    ensures Linked(t)
  {
    var b := R.Batch(s.rec.memory.nextSeq, |ops|);
    OneMoreRecovered(s.rec, b, sync, t.rec);
    LoggedLinks(s, ops, sync, t, b);
  }

  lemma OneMoreRecovered(s: R.State, b: R.Batch, sync: bool, t: R.State)
    requires R.DiskOK(s) && R.DiskOK(t) && R.Does(s, R.AppendLog(b, sync), t)
    ensures R.Recovered(t) == R.Recovered(s) + [b]
  {
    assert t.history[|t.durable|..] == R.Recovered(t);
    assert s.history[|s.durable|..] == R.Recovered(s);
  }

  lemma LoggedLinks(s: State, ops: seq<L.Op>, sync: bool, t: State, b: R.Batch)
    requires Linked(s) && Does(s, LogBatch(ops, sync), t) && s.lsm.flushed <= |s.lsm.history|
    requires b == R.Batch(s.rec.memory.nextSeq, |ops|) && R.Recovered(t.rec) == R.Recovered(s.rec) + [b]
    ensures Linked(t)
  {
    LogLinks(s.written, s.rec.history, ops, b);
    assert b in t.rec.history;
  }

  /** One more batch at the end. */
  lemma LogLinks(written: seq<L.Op>, bs: seq<R.Batch>, ops: seq<L.Op>, b: R.Batch)
    requires HasOps(written, bs) && b == R.Batch(|written| + 1, |ops|) && forall i :: 0 <= i < |ops| ==> ops[i].Op?
    ensures HasOps(written + ops, bs + [b])
    ensures AllIn(written, |written|, bs) ==> AllIn(written + ops, |written + ops|, bs + [b])
    ensures forall ds, n: nat :: n <= |written| && AllIn(written, n, ds) ==> AllIn(written + ops, n, ds)
  {
    var all := written + ops;
    forall x | x in bs + [b] ensures OpsOf(all, x) {
      if x in bs { assert OpsOf(written, x); }
    }
    if AllIn(written, |written|, bs) {
      forall i | 0 <= i < |all| && all[i].Op? ensures Covered(bs + [b], i + 1) {
        if i < |written| {
          assert Covered(bs, i + 1);
          var x :| x in bs && x.start <= i + 1 < x.start + x.count;
          assert x in bs + [b];
        } else {
          assert b in bs + [b];
        }
      }
    }
  }

  lemma ApplyKeepsLinks(s: State, t: State)
    requires R.DiskOK(s.rec) && R.DiskOK(t.rec) && R.SequenceOK(s.rec) && L.SnapshotsOK(s.lsm) && Linked(s)
    requires Does(s, ApplyBatch, t)
    ensures Linked(t)
  {
    SameRecovered(s.rec, t.rec);
    ApplyIsWrite(s, t);
    AppliedLinks(s, t);
  }

  lemma ApplyIsWrite(s: State, t: State)
    requires Linked(s) && R.SequenceOK(s.rec) && Does(s, ApplyBatch, t)
    ensures L.Does(s.lsm, L.Write(InFlight(s)), t.lsm) && s.lsm.history + InFlight(s) == s.written
  {
    FlightIsWrite(s);
  }

  lemma AppliedLinks(s: State, t: State)
    requires Linked(s) && R.SequenceOK(s.rec) && Does(s, ApplyBatch, t)
    requires s.lsm.history + InFlight(s) == s.written && s.lsm.frozen <= |s.lsm.history|
    requires R.Recovered(t.rec) == R.Recovered(s.rec)
    ensures Linked(t)
  {
  }

  lemma SwitchIsSwitch(s: State, t: State)
    requires Linked(s) && Does(s, Switch, t)
    ensures L.Does(s.lsm, L.SwitchMemtable, t.lsm)
  {
  }

  lemma SwitchKeepsLinks(s: State, t: State)
    requires R.DiskOK(s.rec) && R.DiskOK(t.rec) && R.LogsOK(s.rec) && R.EditOK(s.rec) && L.SnapshotsOK(s.lsm)
    requires Linked(s) && Does(s, Switch, t)
    ensures Linked(t)
  {
    SameRecovered(s.rec, t.rec);
    R.HistoryIs(s.rec);
    forall b | b in s.rec.memory.mem ensures b.start + b.count <= |s.lsm.history| + 1 {
      assert b in s.rec.history && OpsOf(s.written, b);
    }
  }

  ghost predicate SameEpochs(l: L.State, k: L.State) {
    l.history == k.history && l.imm == k.imm && l.flushed == k.flushed && l.frozen == k.frozen
  }

  lemma CompactionLinks(s: State, t: State)
    requires Linked(s) && SameEpochs(s.lsm, t.lsm) && s.written == t.written
    requires R.Does(s.rec, R.WriteManifest, t.rec) && !s.rec.memory.edit.forFlush
    requires R.DiskOK(s.rec) && R.DiskOK(t.rec)
    ensures Linked(t)
  {
    SameRecovered(s.rec, t.rec);
  }

  lemma FlushKeepsLinks(s: State, step: L.Step, t: State)
    requires R.DiskOK(s.rec) && R.DiskOK(t.rec) && R.LogsOK(s.rec) && R.EditOK(s.rec) && R.SequenceOK(s.rec)
    requires L.SnapshotsOK(s.lsm) && Linked(s) && Does(s, CommitFlush(step), t)
    ensures Linked(t)
  {
    FlushedRest(s.rec, t.rec);
    FlushedLinks(s, step, t);
  }

  /** What is left in logs once the immutable memtable's table is in the manifest. */
  function Rest(m: R.Memory): seq<R.Batch>
    requires m.Up?
  {
    m.mem + (if m.applying.Some? then [m.applying.value] else [])
  }

  lemma FlushedRest(s: R.State, t: R.State)
    requires R.DiskOK(s) && R.DiskOK(t) && R.LogsOK(s) && R.EditOK(s) && R.Does(s, R.WriteManifest, t)
    requires s.memory.Up? && s.memory.edit.Logging? && s.memory.edit.forFlush
    ensures s.memory.imm.Some? && t.durable == s.durable + s.memory.imm.value && R.Recovered(t) == Rest(s.memory)
    ensures t.history == t.durable + Rest(s.memory)
  {
    R.HistoryIs(s);
    assert t.history == t.durable + Rest(s.memory);
    assert t.history[|t.durable|..] == R.Recovered(t);
  }

  lemma FlushedLinks(s: State, step: L.Step, t: State)
    requires Linked(s) && Does(s, CommitFlush(step), t) && L.SnapshotsOK(s.lsm)
    requires s.rec.memory.imm.Some? && t.rec.durable == s.rec.durable + s.rec.memory.imm.value
    requires R.Recovered(t.rec) == Rest(s.rec.memory) && t.rec.history == t.rec.durable + Rest(s.rec.memory)
    requires R.SequenceOK(s.rec)
    ensures Linked(t)
  {
    var rest := Rest(s.rec.memory);
    assert StartAfter(rest, s.lsm.frozen);
    AllInFront(s.written, s.lsm.frozen, t.rec.durable, rest);
  }

  /** What starts later covers nothing before. */
  lemma AllInFront(written: seq<L.Op>, n: nat, front: seq<R.Batch>, rest: seq<R.Batch>)
    requires AllIn(written, |written|, front + rest) && StartAfter(rest, n)
    ensures AllIn(written, n, front)
  {
    forall i | 0 <= i < n && i < |written| && written[i].Op? ensures Covered(front, i + 1) {
      var b :| b in front + rest && b.start <= i + 1 < b.start + b.count;
      assert b !in rest;
    }
  }

  // ---- Crashes ----

  lemma {:induction false} SubMembers(a: seq<R.Batch>, b: seq<R.Batch>)
    requires R.SubOf(a, b)
    ensures forall x :: x in a ==> x in b
    decreases |b|
  {
    if a != [] {
      if a[0] == b[0] && R.SubOf(a[1..], b[1..]) {
        SubMembers(a[1..], b[1..]);
        assert a == [a[0]] + a[1..] && b == [b[0]] + b[1..];
      } else {
        SubMembers(a, b[1..]);
        assert b == [b[0]] + b[1..];
      }
    }
  }

  lemma CrashLinks(s: State, kept: map<nat, nat>, t: State)
    requires R.DiskOK(s.rec) && R.DiskOK(t.rec) && Linked(s) && Does(s, Disk(R.Crash(kept)), t)
    ensures Linked(t)
  {
    R.TruncatedIsSub(s.rec.disk.logs, kept, s.rec.disk.manifest.logNumber, s.rec.bound);
    SubMembers(R.Recovered(t.rec), R.Recovered(s.rec));
    assert s.rec.history == s.rec.durable + R.Recovered(s.rec);
    assert t.rec.history == t.rec.durable + R.Recovered(t.rec);
  }

  lemma DiskKeepsLinks(s: State, step: R.Step, t: State)
    requires R.DiskOK(s.rec) && R.DiskOK(t.rec) && R.EditOK(s.rec) && L.SnapshotsOK(s.lsm) && Linked(s)
    requires Does(s, Disk(step), t)
    ensures Linked(t)
  {
    match step
    case Crash(kept) => CrashLinks(s, kept, t);
    case _ =>
      QuietHistory(s.rec, step, t.rec);
      SameRecovered(s.rec, t.rec);
      QuietLinks(s, step, t);
  }

  lemma QuietHistory(s: R.State, step: R.Step, t: R.State)
    requires R.Does(s, step, t) && DiskOnly(step) && !step.Crash?
    ensures t.history == s.history && t.durable == s.durable && t.disk.manifest == s.disk.manifest
    ensures t.memory.Up? ==> s.memory.Up?
  {
  }

  lemma QuietLinks(s: State, step: R.Step, t: State)
    requires Linked(s) && L.SnapshotsOK(s.lsm) && R.EditOK(s.rec)
    requires Does(s, Disk(step), t) && !step.Crash? && t.rec.history == s.rec.history
    requires t.rec.durable == s.rec.durable && t.rec.disk.manifest == s.rec.disk.manifest
    requires R.Recovered(t.rec) == R.Recovered(s.rec)
    ensures Linked(t)
  {
  }

  // ---- Reopening ----

  /** What is left of the operations logged, up to the sequence number recovered, is a history to go on from. */
  lemma SurvivorsSurvive(s: State, n: nat)
    requires Linked(s) && s.rec.history == s.rec.durable + R.Recovered(s.rec) && L.SnapshotsOK(s.lsm)
    requires s.lsm.flushed <= n < MAX_SEQUENCE
    ensures L.Survives(AfterWrite(s.lsm, InFlight(s)), Survivors(s.written, s.rec.history, n))
  {
    var h, all := Survivors(s.written, s.rec.history, n), AfterWrite(s.lsm, InFlight(s)).history;
    assert all == s.written;
    forall i | 0 <= i < s.lsm.flushed ensures h[i] == all[i] {
      if s.written[i].Op? {
        var b :| b in s.rec.durable && b.start <= i + 1 < b.start + b.count;
        assert b in s.rec.history;
      }
    }
  }

  /** The sequence number to go on with is past every batch left and past everything flushed. */
  lemma NextIsPast(s: State, n: nat, newTables: map<nat, set<R.Batch>>, t: R.State)
    requires R.DiskOK(s.rec) && Linked(s) && R.Does(s.rec, R.Recover(n, newTables), t)
    ensures t.memory.Up? && s.lsm.flushed < t.memory.nextSeq <= |s.written| + 1
    ensures EndBy(s.rec.history, t.memory.nextSeq - 1)
  {
    var bs := R.Recovered(s.rec);
    R.RecoveredSequence(s.rec);
    if bs != [] {
      var last := bs[|bs| - 1];
      assert s.rec.history[|s.rec.history| - 1] == last;
      assert last in s.rec.history && OpsOf(s.written, last);
    }
    forall b | b in s.rec.history ensures b.start + b.count <= t.memory.nextSeq {
      var i :| 0 <= i < |s.rec.history| && s.rec.history[i] == b;
      LastEnds(s.rec.history, i);
    }
  }

  lemma LastEnds(bs: seq<R.Batch>, i: nat)
    requires R.Increasing(bs) && i < |bs|
    ensures bs[i].start + bs[i].count <= R.NextAfter(bs)
  {
    assert i < |bs| - 1 ==> bs[i].start + bs[i].count <= bs[|bs| - 1].start;
  }

  /** Reopening is a step of the levels: first the batch in flight, then the crash. */
  lemma ReopenIsReopen(s: State, n: nat, newTables: map<nat, set<R.Batch>>, first: nat, files: seq<File>, t: State)
    requires R.DiskOK(s.rec) && L.SnapshotsOK(s.lsm) && Linked(s) && Does(s, Reopen(n, newTables, first, files), t)
    ensures L.Does(AfterWrite(s.lsm, InFlight(s)), L.Reopen(t.written, first, files), t.lsm)
  {
    NextIsPast(s, n, newTables, t.rec);
    SurvivorsSurvive(s, t.rec.memory.nextSeq - 1);
  }

  lemma SurvivorsHave(written: seq<L.Op>, bs: seq<R.Batch>, n: nat)
    requires HasOps(written, bs) && EndBy(bs, n) && n <= |written|
    ensures HasOps(Survivors(written, bs, n), bs) && AllIn(Survivors(written, bs, n), n, bs)
  {
    var h := Survivors(written, bs, n);
    forall b | b in bs ensures OpsOf(h, b) {
      assert OpsOf(written, b);
      forall i | b.start - 1 <= i < b.start - 1 + b.count ensures h[i].Op? { assert Covered(bs, i + 1); }
    }
  }

  /** Recovery ends with everything in tables and a log of its own. */
  ghost predicate Fresh(t: R.State, history: seq<R.Batch>) {
    && t.history == history && t.durable == history && R.Recovered(t) == [] && t.memory.Up?
    && t.memory.mem == [] && t.memory.imm.None? && t.memory.applying.None? && t.memory.edit.NoEdit?
    && t.disk.manifest.nextSeq == t.memory.nextSeq
  }

  lemma RecoverIsFresh(s: R.State, n: nat, newTables: map<nat, set<R.Batch>>, t: R.State)
    requires R.DiskOK(s) && R.DiskOK(t) && R.Does(s, R.Recover(n, newTables), t)
    ensures Fresh(t, s.history)
  {
    assert t.history == t.durable + R.Recovered(t);
  }

  lemma FreshLinks(t: State, history: seq<R.Batch>)
    requires Fresh(t.rec, history) && t.lsm.history == t.written && |t.written| < MAX_SEQUENCE
    requires t.lsm.flushed == t.lsm.frozen == |t.written| && t.lsm.imm.None?
    requires t.rec.memory.nextSeq == |t.written| + 1
    requires HasOps(t.written, history) && AllIn(t.written, |t.written|, history) && EndBy(history, |t.written|)
    ensures Linked(t)
  {
  }

  lemma ReopenKeepsLinks(s: State, n: nat, newTables: map<nat, set<R.Batch>>, first: nat, files: seq<File>, t: State)
    requires R.DiskOK(s.rec) && R.DiskOK(t.rec) && Linked(s) && Does(s, Reopen(n, newTables, first, files), t)
    ensures Linked(t)
  {
    NextIsPast(s, n, newTables, t.rec);
    SurvivorsHave(s.written, s.rec.history, t.rec.memory.nextSeq - 1);
    RecoverIsFresh(s.rec, n, newTables, t.rec);
    FreshLinks(t, s.rec.history);
  }

  // ---- Every run ----

  lemma TreeLinks(s: State, t: State)
    requires Linked(s) && SameEpochs(s.lsm, t.lsm) && t == s.(lsm := t.lsm)
    ensures Linked(t)
  {
  }

  predicate Foreground(step: Step) {
    step.LogBatch? || step.ApplyBatch? || step.Switch? || step.Reopen?
  }

  lemma ForegroundLinks(s: State, step: Step, t: State)
    requires Inv(s) && R.DiskOK(t.rec) && Does(s, step, t) && Foreground(step)
    ensures Linked(t)
  {
    match step
    case LogBatch(ops, sync) => LogKeepsLinks(s, ops, sync, t);
    case ApplyBatch => ApplyKeepsLinks(s, t);
    case Switch => SwitchKeepsLinks(s, t);
    case Reopen(n, newTables, first, files) => ReopenKeepsLinks(s, n, newTables, first, files, t);
  }

  lemma BackgroundLinks(s: State, step: Step, t: State)
    requires Inv(s) && R.DiskOK(t.rec) && Does(s, step, t) && !Foreground(step)
    ensures Linked(t)
  {
    match step
    case Disk(disk) => DiskKeepsLinks(s, disk, t);
    case Tree(tree) =>
      QuietTree(s.lsm, tree, t.lsm);
      TreeLinks(s, t);
    case CommitFlush(flush) => FlushKeepsLinks(s, flush, t);
    case CommitCompaction(merge) => MergeLinks(s, merge, t);
  }

  lemma QuietTree(l: L.State, step: L.Step, k: L.State)
    requires L.Does(l, step, k) && (TreeOnly(step) || step.FinishCompaction? || step.MoveFile?)
    ensures SameEpochs(l, k)
  {
  }

  lemma MergeLinks(s: State, merge: L.Step, t: State)
    requires Linked(s) && R.DiskOK(s.rec) && R.DiskOK(t.rec) && Does(s, CommitCompaction(merge), t)
    ensures Linked(t)
  {
    QuietTree(s.lsm, merge, t.lsm);
    CompactionLinks(s, t);
  }

  function DiskStep(s: State, step: Step): Option<R.Step> {
    match step
    case LogBatch(ops, sync) =>
      if s.rec.memory.Up? then Some(R.AppendLog(R.Batch(s.rec.memory.nextSeq, |ops|), sync)) else None
    case ApplyBatch => Some(R.ApplyMem)
    case Switch => Some(R.SwitchLog)
    case Disk(disk) => Some(disk)
    case Tree(_) => None
    case CommitFlush(_) => Some(R.WriteManifest)
    case CommitCompaction(_) => Some(R.WriteManifest)
    case Reopen(n, newTables, _, _) => Some(R.Recover(n, newTables))
  }

  lemma StepKeepsDisk(s: State, step: Step, t: State)
    requires R.Inv(s.rec) && Does(s, step, t)
    ensures R.Inv(t.rec)
  {
    var disk := DiskStep(s, step);
    if disk.Some? { R.StepKeepsInv(s.rec, disk.value, t.rec); }
  }

  /** The step that the levels take, if any; a reopening takes two. */
  function TreeStep(s: State, step: Step): Option<L.Step> {
    match step
    case ApplyBatch => Some(L.Write(InFlight(s)))
    case Switch => Some(L.SwitchMemtable)
    case Tree(tree) => Some(tree)
    case CommitFlush(flush) => Some(flush)
    case CommitCompaction(merge) => Some(merge)
    case _ => None
  }

  lemma TreeStepIsStep(s: State, step: Step, t: State)
    requires Inv(s) && Does(s, step, t) && TreeStep(s, step).Some?
    ensures L.Does(s.lsm, TreeStep(s, step).value, t.lsm)
  {
    match step
    case ApplyBatch => ApplyIsWrite(s, t);
    case Switch => SwitchIsSwitch(s, t);
    case _ =>
  }

  /** The batch in flight can be written; after a crash it counts as written, whether it is left or not. */
  lemma FlightIsWrite(s: State)
    requires DiskLinks(s)
    ensures L.Does(s.lsm, L.Write(InFlight(s)), AfterWrite(s.lsm, InFlight(s)))
    ensures s.lsm.history + InFlight(s) == s.written
  {
    var ops := InFlight(s);
    forall i | 0 <= i < |ops| ensures ops[i].Op? { assert ops[i] == s.written[|s.lsm.history| + i]; }
  }

  lemma StepKeepsTree(s: State, step: Step, t: State)
    requires Inv(s) && Does(s, step, t)
    ensures L.Inv(t.lsm)
  {
    if TreeStep(s, step).Some? {
      TreeStepIsStep(s, step, t);
      L.StepKeepsInv(s.lsm, TreeStep(s, step).value, t.lsm);
    } else if step.Reopen? {
      var mid := AfterWrite(s.lsm, InFlight(s));
      FlightIsWrite(s);
      L.StepKeepsInv(s.lsm, L.Write(InFlight(s)), mid);
      ReopenIsReopen(s, step.number, step.newTables, step.first, step.files, t);
      L.StepKeepsInv(mid, L.Reopen(t.written, step.first, step.files), t.lsm);
    }
  }

  lemma StepKeepsInv(s: State, step: Step, t: State)
    requires Inv(s) && Does(s, step, t)
    ensures Inv(t)
  {
    StepKeepsDisk(s, step, t);
    StepKeepsTree(s, step, t);
    if Foreground(step) { ForegroundLinks(s, step, t); } else { BackgroundLinks(s, step, t); }
  }

  ghost predicate Run(states: seq<State>, steps: seq<Step>) {
    && |states| == |steps| + 1 && Initial(states[0])
    && forall i :: 0 <= i < |steps| ==> StepAt(states, steps, i)
  }

  ghost predicate StepAt(states: seq<State>, steps: seq<Step>, i: nat)
    requires i < |steps| < |states|
  {
    Does(states[i], steps[i], states[i + 1])
  }

  lemma {:induction false} RunInv(states: seq<State>, steps: seq<Step>, n: nat)
    requires Run(states, steps) && n < |states|
    ensures Inv(states[n])
  {
    if n == 0 {
      InitialInv(states[0]);
    } else {
      RunInv(states, steps, n - 1);
      InvNext(states, steps, n - 1);
    }
  }

  lemma InvNext(states: seq<State>, steps: seq<Step>, n: nat)
    requires Run(states, steps) && n < |steps| && Inv(states[n])
    ensures Inv(states[n + 1])
  {
    assert StepAt(states, steps, n);
    StepKeepsInv(states[n], steps[n], states[n + 1]);
  }

  // ---- What readers see ----

  /** No compaction that is committed exposes a value. */
  ghost predicate NoBreak(states: seq<State>, steps: seq<Step>, n: nat)
    requires n <= |steps| < |states|
  {
    forall i :: 0 <= i < n && steps[i].CommitCompaction? ==> !L.BreaksViews(states[i].lsm, steps[i].merge)
  }

  lemma ViewsStep(s: State, step: Step, t: State)
    requires Inv(s) && Does(s, step, t) && L.ViewsHold(s.lsm)
    requires step.CommitCompaction? ==> !L.BreaksViews(s.lsm, step.merge)
    ensures L.ViewsHold(t.lsm)
  {
    if TreeStep(s, step).Some? {
      TreeStepIsStep(s, step, t);
      if !step.CommitCompaction? { TreeBreaks(s, step, t); }
      TreeViews(s.lsm, TreeStep(s, step).value, t.lsm);
    } else if step.Reopen? {
      ReopenKeepsViews(s, step, t);
    } else {
      SameTree(s, step, t);
    }
  }

  lemma TreeBreaks(s: State, step: Step, t: State)
    requires Does(s, step, t) && TreeStep(s, step).Some? && !step.CommitCompaction?
    ensures !L.BreaksViews(s.lsm, TreeStep(s, step).value)
  {
  }

  lemma SameTree(s: State, step: Step, t: State)
    requires Does(s, step, t) && TreeStep(s, step).None? && !step.Reopen?
    ensures t.lsm == s.lsm
  {
  }

  lemma TreeViews(l: L.State, step: L.Step, k: L.State)
    requires L.Inv(l) && L.Does(l, step, k) && L.ViewsHold(l) && !L.BreaksViews(l, step)
    ensures L.ViewsHold(k)
  {
    L.StepKeepsViewsIff(l, step, k);
  }

  lemma ReopenKeepsViews(s: State, step: Step, t: State)
    requires Inv(s) && Does(s, step, t) && step.Reopen? && L.ViewsHold(s.lsm)
    ensures L.ViewsHold(t.lsm)
  {
    var mid, write := AfterWrite(s.lsm, InFlight(s)), L.Write(InFlight(s));
    FlightIsWrite(s);
    L.StepKeepsInv(s.lsm, write, mid);
    TreeViews(s.lsm, write, mid);
    ReopenIsReopen(s, step.number, step.newTables, step.first, step.files, t);
    TreeViews(mid, L.Reopen(t.written, step.first, step.files), t.lsm);
  }

  lemma {:induction false} ViewsInRun(states: seq<State>, steps: seq<Step>, n: nat)
    requires Run(states, steps) && n < |states| && NoBreak(states, steps, n)
    ensures L.ViewsHold(states[n].lsm)
  {
    if n == 0 {
      L.InitialInv(states[0].lsm);
    } else {
      ViewsInRun(states, steps, n - 1);
      ViewsNext(states, steps, n - 1);
    }
  }

  lemma ViewsNext(states: seq<State>, steps: seq<Step>, n: nat)
    requires Run(states, steps) && n < |steps| && L.ViewsHold(states[n].lsm)
    requires steps[n].CommitCompaction? ==> !L.BreaksViews(states[n].lsm, steps[n].merge)
    ensures L.ViewsHold(states[n + 1].lsm)
  {
    RunInv(states, steps, n);
    assert StepAt(states, steps, n);
    ViewsStep(states[n], steps[n], states[n + 1]);
  }

  /**
   In every state of every run in which the database is up: an operation stands at a place of the history exactly
   if one of the batches left in tables and logs covers it, and readers see that history.
   */
  lemma ReadersSeeWhatIsLeft(states: seq<State>, steps: seq<Step>, n: nat, user: int, k: nat)
    requires Run(states, steps) && n < |states| && NoBreak(states, steps, n) && states[n].rec.memory.Up?
    requires k in states[n].lsm.snapshots || k == |states[n].lsm.history|
    ensures var s := states[n];
      && s.lsm.history <= s.written
      && (forall i :: 0 <= i < |s.written| ==> (s.written[i].Op? <==> Covered(s.rec.history, i + 1)))
      && k <= |s.lsm.history| && View(L.All(s.lsm), user, k) == L.SpecView(s.lsm.history, user, k)
  {
    RunInv(states, steps, n);
    ViewsInRun(states, steps, n);
    var s := states[n];
    assert L.Agrees(L.All(s.lsm), s.lsm.history, user, k);
    forall i | 0 <= i < |s.written| && Covered(s.rec.history, i + 1) ensures s.written[i].Op? {
      var b :| b in s.rec.history && b.start <= i + 1 < b.start + b.count;
      assert OpsOf(s.written, b);
    }
  }

  /** After any crash and reopening readers see the history made of the batches that are left. */
  lemma ReopenedReadsSurvivors(states: seq<State>, steps: seq<Step>, n: nat, user: int)
    requires Run(states, steps) && n < |steps| && NoBreak(states, steps, n) && steps[n].Reopen?
    ensures var s, t := states[n], states[n + 1];
      var h := Survivors(s.written, s.rec.history, |t.lsm.history|);
      && t.lsm.history == h && t.rec.history == s.rec.history && EndBy(s.rec.history, |h|)
      && View(L.All(t.lsm), user, |h|) == L.SpecView(h, user, |h|)
  {
    RunInv(states, steps, n);
    assert StepAt(states, steps, n);
    ReopenedHistory(states[n], steps[n], states[n + 1]);
    AtEnd(states, steps, n + 1, user);
  }

  lemma ReopenedHistory(s: State, step: Step, t: State)
    requires R.DiskOK(s.rec) && Linked(s) && Does(s, step, t) && step.Reopen?
    ensures t.lsm.history == t.written && t.written == Survivors(s.written, s.rec.history, |t.written|)
    ensures t.rec.history == s.rec.history && EndBy(s.rec.history, |t.written|) && |t.written| <= |s.written|
  {
    NextIsPast(s, step.number, step.newTables, t.rec);
  }

  /** A reader at the last sequence number. */
  lemma AtEnd(states: seq<State>, steps: seq<Step>, n: nat, user: int)
    requires Run(states, steps) && n < |states| && NoBreak(states, steps, n)
    ensures var l := states[n].lsm;
            View(L.All(l), user, |l.history|) == L.SpecView(l.history, user, |l.history|)
  {
    RunInv(states, steps, n);
    ViewsInRun(states, steps, n);
    var l := states[n].lsm;
    assert L.Agrees(L.All(l), l.history, user, |l.history|);
  }

  // ---- Which operations are left ----

  lemma {:induction false} Stays(good: seq<bool>, j: nat, n: nat)
    requires j <= n < |good| && good[j] && forall i :: j <= i < n && good[i] ==> good[i + 1]
    ensures good[n]
    decreases n - j
  {
    if j < n { Stays(good, j + 1, n); }
  }

  ghost predicate HasBatch(s: State, b: R.Batch, ops: seq<L.Op>) {
    && b in s.rec.promised && b.count == |ops| && 1 <= b.start && b.start - 1 + |ops| <= |s.written|
    && forall i :: 0 <= i < |ops| ==> s.written[b.start - 1 + i] == ops[i]
  }

  lemma BatchStays(s: State, step: Step, t: State, b: R.Batch, ops: seq<L.Op>)
    requires Inv(s) && Does(s, step, t) && HasBatch(s, b, ops)
    ensures HasBatch(t, b, ops)
  {
    PromisesGrow(s, step, t);
    if step.Reopen? {
      R.PromisedIsLeft(s.rec, b);
      ReopenedHistory(s, step, t);
      BatchSurvives(s.written, s.rec.history, |t.written|, b, ops);
    }
  }

  /** A batch that is left keeps its operations. */
  lemma BatchSurvives(written: seq<L.Op>, bs: seq<R.Batch>, n: nat, b: R.Batch, ops: seq<L.Op>)
    requires b in bs && EndBy(bs, n) && b.count == |ops| && 1 <= b.start && b.start - 1 + |ops| <= |written|
    requires forall i :: 0 <= i < |ops| ==> written[b.start - 1 + i] == ops[i]
    ensures b.start - 1 + |ops| <= n
    ensures forall i :: 0 <= i < |ops| ==> Survivors(written, bs, n)[b.start - 1 + i] == ops[i]
  {
    forall i | 0 <= i < |ops| ensures Survivors(written, bs, n)[b.start - 1 + i] == ops[i] {
      assert Covered(bs, b.start - 1 + i + 1);
    }
  }

  lemma BatchStaysInRun(states: seq<State>, steps: seq<Step>, n: nat, b: R.Batch, ops: seq<L.Op>)
    requires Run(states, steps) && n < |steps| && HasBatch(states[n], b, ops)
    ensures HasBatch(states[n + 1], b, ops)
  {
    RunInv(states, steps, n);
    assert StepAt(states, steps, n);
    BatchStays(states[n], steps[n], states[n + 1], b, ops);
  }

  lemma BatchIsLogged(states: seq<State>, steps: seq<Step>, j: nat, ops: seq<L.Op>)
    requires Run(states, steps) && j < |steps| && steps[j] == LogBatch(ops, true) && states[j].rec.memory.Up?
    ensures HasBatch(states[j + 1], R.Batch(states[j].rec.memory.nextSeq, |ops|), ops)
  {
    RunInv(states, steps, j);
    assert StepAt(states, steps, j);
    LoggedHas(states[j], ops, states[j + 1]);
  }

  lemma LoggedHas(s: State, ops: seq<L.Op>, t: State)
    requires Linked(s) && Does(s, LogBatch(ops, true), t)
    ensures HasBatch(t, R.Batch(s.rec.memory.nextSeq, |ops|), ops)
  {
    var b := R.Batch(s.rec.memory.nextSeq, |ops|);
    R.StepKeepsPromises(s.rec, R.AppendLog(b, true), t.rec);
    assert b.start == |s.written| + 1;
  }

  lemma BatchIsLeft(states: seq<State>, steps: seq<Step>, n: nat, b: R.Batch, ops: seq<L.Op>)
    requires Run(states, steps) && n < |states| && HasBatch(states[n], b, ops)
    ensures b in states[n].rec.history
  {
    RunInv(states, steps, n);
    R.PromisedIsLeft(states[n].rec, b);
  }

  lemma PromisesGrow(s: State, step: Step, t: State)
    requires Does(s, step, t)
    ensures s.rec.promised <= t.rec.promised
  {
    var disk := DiskStep(s, step);
    if disk.Some? { R.StepKeepsPromises(s.rec, disk.value, t.rec); }
  }

  /** The operations of a sync write stay at their places whatever crashes come, and so are seen after each. */
  lemma SyncedOperationsStay(states: seq<State>, steps: seq<Step>, j: nat, n: nat, ops: seq<L.Op>)
    requires Run(states, steps) && j < n <= |steps| && steps[j] == LogBatch(ops, true) && states[j].rec.memory.Up?
    ensures var b := R.Batch(states[j].rec.memory.nextSeq, |ops|);
            b in states[n].rec.history && HasBatch(states[n], b, ops)
  {
    var b := R.Batch(states[j].rec.memory.nextSeq, |ops|);
    BatchIsLogged(states, steps, j, ops);
    var good := seq(|states|, i requires 0 <= i < |states| => HasBatch(states[i], b, ops));
    forall i | j + 1 <= i < n && good[i] ensures good[i + 1] { BatchStaysInRun(states, steps, i, b, ops); }
    Stays(good, j + 1, n);
    BatchIsLeft(states, steps, n, b, ops);
  }

  /** The operations of `written` are all there, in batches that are left. */
  ghost predicate Holds(s: State, written: seq<L.Op>) {
    && AllIn(s.written, |s.written|, s.rec.history)
    && forall i :: 0 <= i < |written| && written[i].Op? ==> i < |s.written| && s.written[i] == written[i]
  }

  ghost predicate CutsNothing(s: State, step: Step) {
    step.Disk? ==> R.CutsNothing(s.rec, step.disk)
  }

  lemma AllStays(s: State, step: Step, t: State, written: seq<L.Op>)
    requires Inv(s) && Does(s, step, t) && CutsNothing(s, step) && Holds(s, written)
    ensures Holds(t, written)
  {
    match step
    case LogBatch(ops, sync) => AllLogged(s, ops, sync, t, written);
    case Reopen(n, newTables, first, files) => AllSurvives(s, step, t, written);
    case Disk(disk) => SameBatches(s.rec, disk, t.rec);
    case _ => SameHistory(s, step, t);
  }

  lemma AllLogged(s: State, ops: seq<L.Op>, sync: bool, t: State, written: seq<L.Op>)
    requires Linked(s) && Does(s, LogBatch(ops, sync), t) && Holds(s, written)
    ensures Holds(t, written)
  {
    LogLinks(s.written, s.rec.history, ops, R.Batch(s.rec.memory.nextSeq, |ops|));
  }

  lemma AllSurvives(s: State, step: Step, t: State, written: seq<L.Op>)
    requires R.DiskOK(s.rec) && Linked(s) && Does(s, step, t) && step.Reopen? && Holds(s, written)
    ensures Holds(t, written)
  {
    ReopenedHistory(s, step, t);
    SurvivorsHave(s.written, s.rec.history, |t.written|);
    AllKept(s.written, s.rec.history, |t.written|);
  }

  /** If batches cover everything written, everything is left. */
  lemma AllKept(written: seq<L.Op>, bs: seq<R.Batch>, n: nat)
    requires AllIn(written, |written|, bs) && EndBy(bs, n)
    ensures forall i :: 0 <= i < |written| && written[i].Op? ==> i < n && Survivors(written, bs, n)[i] == written[i]
  {
    forall i | 0 <= i < |written| && written[i].Op? ensures i < n && Survivors(written, bs, n)[i] == written[i] {
      var b :| b in bs && b.start <= i + 1 < b.start + b.count;
    }
  }

  lemma SameHistory(s: State, step: Step, t: State)
    requires Does(s, step, t) && !step.LogBatch? && !step.Disk? && !step.Reopen?
    ensures t.rec.history == s.rec.history && t.written == s.written
  {
  }

  lemma SameBatches(s: R.State, step: R.Step, t: R.State)
    requires R.Inv(s) && R.Does(s, step, t) && DiskOnly(step) && R.CutsNothing(s, step)
    ensures t.history == s.history
  {
    match step
    case Crash(kept) => R.CrashLosesNothing(s, kept, t);
    case _ => QuietHistory(s, step, t);
  }

  /** If crashes cut nothing off the logs, every operation logged while the database was up is there ever after. */
  lemma OperationsStay(states: seq<State>, steps: seq<Step>, j: nat, n: nat)
    requires Run(states, steps) && j <= n <= |steps| && states[j].rec.memory.Up?
    requires forall i :: j <= i < n ==> CutsNothing(states[i], steps[i])
    ensures Holds(states[n], states[j].written)
  {
    var w := states[j].written;
    RunInv(states, steps, j);
    var good := seq(|states|, i requires 0 <= i < |states| => Holds(states[i], w));
    forall i | j <= i < n && good[i] ensures good[i + 1] { AllStaysInRun(states, steps, i, w); }
    Stays(good, j, n);
  }

  lemma AllStaysInRun(states: seq<State>, steps: seq<Step>, n: nat, written: seq<L.Op>)
    requires Run(states, steps) && n < |steps| && CutsNothing(states[n], steps[n]) && Holds(states[n], written)
    ensures Holds(states[n + 1], written)
  {
    RunInv(states, steps, n);
    assert StepAt(states, steps, n);
    AllStays(states[n], steps[n], states[n + 1], written);
  }
}
