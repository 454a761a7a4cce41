/**
 The store as a state machine: writes, memtable switch, flush, compaction
 (with flushes in the middle), trivial move, snapshots, and reopening after a
 crash. Its specification is the list of all operations ever written.
 */
module Lsm {
  import opened Options
  import opened Format
  import opened Versions
  import opened CompactionInputs
  import opened Compactions
  import opened Placement
  import opened Merging
  import opened Boundaries

  /** `Lost` stands for a sequence number whose operation a crash took away. */
  datatype Op = Op(user: int, kind: Kind, value: string) | Lost

  /**
   `floor` bounds the smallest snapshots finished compactions have used, `flushed` the sequence
   numbers in tables, and `frozen` those in tables and the immutable memtable.
   */
  datatype State = State(
    history: seq<Op>,
    mem: set<Entry>,
    imm: Option<set<Entry>>,
    version: Version,
    job: Option<Job>,
    snapshots: seq<nat>,
    nextFile: nat,
    floor: nat,
    flushed: nat,
    frozen: nat)

  // ---- Specification: a plain map at every sequence number ----

  function SpecView(h: seq<Op>, user: int, k: nat): Option<string>
    requires k <= |h|
  {
    if k == 0 then None
    else if h[k - 1].Op? && h[k - 1].user == user then
      (if h[k - 1].kind.Value? then Some(h[k - 1].value) else None)
    else SpecView(h, user, k - 1)
  }

  function EntryOf(i: nat, op: Op): Entry
    requires op.Op?
  {
    Entry(InternalKey(op.user, i, op.kind), op.value)
  }

  ghost predicate Records(h: seq<Op>, e: Entry) {
    1 <= e.key.seqno <= |h| && h[e.key.seqno - 1].Op? && e == EntryOf(e.key.seqno, h[e.key.seqno - 1])
  }

  ghost predicate Sound(es: set<Entry>, h: seq<Op>) {
    forall e :: e in es ==> Records(h, e)
  }

  ghost predicate Agrees(es: set<Entry>, h: seq<Op>, user: int, k: nat) {
    k <= |h| ==> View(es, user, k) == SpecView(h, user, k)
  }

  ghost predicate ViewsAgree(es: set<Entry>, h: seq<Op>, floor: nat) {
    forall user, k: nat :: floor <= k ==> Agrees(es, h, user, k)
  }

  // ---- Steps ----

  ghost function Frozen(s: State): set<Entry> {
    if s.imm.Some? then s.imm.value else {}
  }

  /** Entries in memory. */
  ghost function Upper(s: State): set<Entry> {
    s.mem + Frozen(s)
  }

  ghost function All(s: State): set<Entry> {
    Upper(s) + Contents(s.version)
  }

  /** A batch: one entry per operation, numbered on from the history. */
  ghost function BatchEntries(h: seq<Op>, ops: seq<Op>): set<Entry> {
    set i | 0 <= i < |ops| && ops[i].Op? :: EntryOf(|h| + i + 1, ops[i])
  }

  datatype Step =
    | Write(ops: seq<Op>)
    | SwitchMemtable
    | FlushEmpty
    | Flush(file: File, level: nat)
    | StartCompaction(job: Job)
    | FinishCompaction(input: seq<Entry>, outs: seq<File>)
    | MoveFile(move: Job)
    | TakeSnapshot
    | ReleaseSnapshot(index: nat)
    | Reopen(recovered: seq<Op>, first: nat, files: seq<File>)

  ghost function SmallestSnapshot(s: State): nat {
    if s.snapshots == [] then |s.history| else s.snapshots[0]
  }

  ghost predicate Chosen(s: State, job: Job) {
    && job.base == s.version && GoodInputs(s.version, job.level, job.in0, job.in1)
    && job.snapshot == SmallestSnapshot(s)
  }

  function Min(a: nat, b: nat): nat { if a < b then a else b }

  /** After a crash: what the tables hold is there, and of the later operations any may be lost. */
  ghost predicate Survives(s: State, h: seq<Op>) {
    && s.flushed <= |s.history| && s.flushed <= |h| < MAX_SEQUENCE && h[..s.flushed] == s.history[..s.flushed]
    && forall i :: s.flushed <= i < |h| ==> h[i].Lost? || (i < |s.history| && h[i] == s.history[i])
  }

  /** Tables written while the logs are replayed: all later operations, in order, under new increasing numbers. */
  ghost predicate Replayed(files: seq<File>, es: set<Entry>, first: nat) {
    && (forall i :: 0 <= i < |files| ==> Sorted(files[i].entries) && first <= files[i].number)
    && (forall e :: e in es <==> exists f :: f in files && e in f.entries)
    && (forall i, j :: 0 <= i < j < |files| ==> files[i].number < files[j].number && Before(files[i], files[j]))
  }

  ghost predicate Before(f: File, g: File) {
    forall x, y :: x in f.entries && y in g.entries ==> x.key.seqno < y.key.seqno
  }

  ghost predicate AtLevel0(v: Version, files: seq<File>, v': Version) {
    && |v| == NUM_LEVELS && |v'| == NUM_LEVELS && (forall l :: 0 < l < NUM_LEVELS ==> v'[l] == v[l])
    && Edited(v[0], [], files, v'[0])
  }

  ghost predicate Does(s: State, step: Step, t: State) {
    match step
    case Write(ops) =>
      && |s.history| + |ops| < MAX_SEQUENCE && (forall i :: 0 <= i < |ops| ==> ops[i].Op?)
      && t == s.(history := s.history + ops, mem := s.mem + BatchEntries(s.history, ops))
    case SwitchMemtable =>
      s.imm.None? && t == s.(imm := Some(s.mem), mem := {}, frozen := |s.history|)
    case FlushEmpty =>
      s.imm == Some({}) && t == s.(imm := None, flushed := s.frozen)
    case Flush(f, level) =>
      && s.imm.Some? && Sorted(f.entries) && Elements(f.entries) == s.imm.value && f.number == s.nextFile
      && Flushed(s.version, f, level, t.version)
      && t == s.(imm := None, version := t.version, nextFile := s.nextFile + 1, flushed := s.frozen)
    case StartCompaction(job) =>
      s.job.None? && Chosen(s, job) && t == s.(job := Some(job))
    case FinishCompaction(input, outs) =>
      && s.job.Some? && Merges(input, s.job.value) && Compacted(input, s.job.value, outs)
      && Installed(s.version, s.job.value, outs, t.version)
      && (forall o :: o in outs ==> o.number < t.nextFile) && s.nextFile <= t.nextFile
      && t == s.(job := None, version := t.version, nextFile := t.nextFile,
                 floor := Min(s.job.value.snapshot, s.flushed))
    case MoveFile(job) =>
      && s.job.None? && Chosen(s, job) && |job.in0| == 1 && job.in1 == []
      && Installed(s.version, job, job.in0, t.version)
      && t == s.(version := t.version)
    case TakeSnapshot =>
      t == s.(snapshots := s.snapshots + [|s.history|])
    case ReleaseSnapshot(i) =>
      i < |s.snapshots| && t == s.(snapshots := s.snapshots[..i] + s.snapshots[i + 1..])
    case Reopen(h, first, files) =>
      Survives(s, h) && Rebuilt(s, h, first, files, t)
  }

  /** The state after reopening: what was in memory is in new tables at level 0. */
  ghost predicate Rebuilt(s: State, h: seq<Op>, first: nat, files: seq<File>, t: State)
    requires s.flushed <= |h|
  {
    && (forall l, g :: In(s.version, l, g) ==> g.number < first)
    && Replayed(files, BatchEntries(h[..s.flushed], h[s.flushed..]), first)
    && AtLevel0(s.version, files, t.version)
    && first <= t.nextFile && (forall f :: f in files ==> f.number < t.nextFile)
    && t == State(h, {}, None, t.version, None, [], t.nextFile, s.floor, |h|, |h|)
  }

  ghost predicate Initial(s: State) {
    s == State([], {}, None, seq(NUM_LEVELS, _ => []), None, [], 0, 0, 0, 0)
  }

  // ---- What every step keeps, whatever inputs are chosen ----

  ghost predicate LevelsOK(s: State) {
    ValidVersion(s.version) && forall l, f :: In(s.version, l, f) ==> f.number < s.nextFile
  }

  ghost predicate SnapshotsOK(s: State) {
    && s.floor <= s.flushed <= s.frozen <= |s.history| < MAX_SEQUENCE && (s.imm.None? ==> s.flushed == s.frozen)
    && (forall i :: 0 <= i < |s.snapshots| ==> s.floor <= s.snapshots[i] <= |s.history|)
    && (forall i, j :: 0 <= i < j < |s.snapshots| ==> s.snapshots[i] <= s.snapshots[j])
  }

  /** Tables hold what was flushed, the immutable memtable what was frozen after that, the memtable the rest. */
  ghost predicate Epochs(s: State) {
    && (forall e :: e in Contents(s.version) ==> e.key.seqno <= s.flushed)
    && (forall e :: e in Frozen(s) ==> s.flushed < e.key.seqno <= s.frozen)
    && (forall e :: e in s.mem ==> s.frozen < e.key.seqno)
  }

  ghost predicate JobRuns(s: State) {
    s.job.Some? ==>
      && JobPlaced(s.version, s.job.value) && s.floor <= s.job.value.snapshot <= |s.history|
      && (forall i :: 0 <= i < |s.snapshots| ==> s.job.value.snapshot <= s.snapshots[i])
  }

  ghost predicate Inv(s: State) {
    LevelsOK(s) && SnapshotsOK(s) && Epochs(s) && JobRuns(s) && Sound(All(s), s.history)
  }

  lemma SameLevels(s: State, t: State)
    requires LevelsOK(s) && t.version == s.version && s.nextFile <= t.nextFile
    ensures LevelsOK(t)
  {
  }

  lemma SameJob(s: State, t: State)
    requires JobRuns(s) && t.version == s.version && t.job == s.job && t.snapshots == s.snapshots && t.floor == s.floor
    requires |s.history| <= |t.history|
    ensures JobRuns(t)
  {
  }

  // ---- Views of unions ----

  /** Sound entries have one value per user key and sequence number. */
  lemma SoundIsUnique(es: set<Entry>, h: seq<Op>)
    requires Sound(es, h)
    ensures UniqueSeq(es)
  {
  }

  lemma ViewBelow(upper: set<Entry>, lower: set<Entry>, user: int, k: nat)
    requires UniqueSeq(upper + lower) && NoneVisible(upper, user, k)
    ensures View(upper + lower, user, k) == View(lower, user, k)
  {
    if NoneVisible(lower, user, k) {
      assert NoneVisible(upper + lower, user, k);
    } else {
      var x := NewestExists(lower, user, k);
      assert Newest(upper + lower, user, k, x);
      ViewOfNewest(lower, user, k, x);
      ViewOfNewest(upper + lower, user, k, x);
    }
  }

  lemma ViewAbove(upper: set<Entry>, lower: set<Entry>, user: int, k: nat)
    requires UniqueSeq(upper + lower) && !NoneVisible(upper, user, k)
    requires forall x, y :: x in upper && y in lower ==> x.key.seqno > y.key.seqno
    ensures View(upper + lower, user, k) == View(upper, user, k)
  {
    var x := NewestExists(upper, user, k);
    assert Newest(upper + lower, user, k, x);
    ViewOfNewest(upper, user, k, x);
    ViewOfNewest(upper + lower, user, k, x);
  }

  /** Between two snapshots with no entry in between nothing changes. */
  lemma ViewBetween(es: set<Entry>, user: int, k: nat, k': nat)
    requires UniqueSeq(es) && k <= k' && forall e :: e in es && e.key.user == user ==> !(k < e.key.seqno <= k')
    ensures View(es, user, k) == View(es, user, k')
  {
    if NoneVisible(es, user, k) {
      assert NoneVisible(es, user, k');
    } else {
      var x := NewestExists(es, user, k);
      assert Newest(es, user, k', x);
      ViewOfNewest(es, user, k, x);
      ViewOfNewest(es, user, k', x);
    }
  }

  lemma SpecViewPrefix(h: seq<Op>, g: seq<Op>, user: int, k: nat)
    requires k <= |h| && k <= |g| && h[..k] == g[..k]
    ensures SpecView(h, user, k) == SpecView(g, user, k)
  {
    if k > 0 {
      assert h[k - 1] == h[..k][k - 1] == g[..k][k - 1] == g[k - 1];
      assert h[..k - 1] == h[..k][..k - 1] == g[..k][..k - 1] == g[..k - 1];
      SpecViewPrefix(h, g, user, k - 1);
    }
  }

  // ---- Writes ----

  /** The entry of one more operation; nothing for a lost one. */
  ghost function Added(i: nat, op: Op): set<Entry> {
    if op.Op? then {EntryOf(i, op)} else {}
  }

  lemma WriteOneSound(es: set<Entry>, h: seq<Op>, op: Op)
    requires Sound(es, h)
    ensures Sound(es + Added(|h| + 1, op), h + [op])
  {
    forall e | e in es + Added(|h| + 1, op) ensures Records(h + [op], e) {
      if e in es { assert Records(h, e); }
    }
  }

  lemma NewestView(es: set<Entry>, h: seq<Op>, op: Op, user: int)
    requires Sound(es, h) && Agrees(es, h, user, |h|)
    ensures Agrees(es + Added(|h| + 1, op), h + [op], user, |h| + 1)
  {
    var k, es' := |h| + 1, es + Added(|h| + 1, op);
    WriteOneSound(es, h, op);
    SoundIsUnique(es', h + [op]);
    if op.Op? && user == op.user {
      var e := EntryOf(k, op);
      assert Newest(es', user, k, e);
      ViewOfNewest(es', user, k, e);
    } else {
      assert Added(k, op) + es == es';
      ViewBelow(Added(k, op), es, user, k);
      SoundIsUnique(es, h);
      ViewBetween(es, user, |h|, k);
      SpecViewPrefix(h + [op], h, user, |h|);
    }
  }

  lemma WriteOneAgrees(es: set<Entry>, h: seq<Op>, floor: nat, op: Op)
    requires Sound(es, h) && ViewsAgree(es, h, floor) && floor <= |h|
    ensures Sound(es + Added(|h| + 1, op), h + [op])
    ensures ViewsAgree(es + Added(|h| + 1, op), h + [op], floor)
  {
    var es' := es + Added(|h| + 1, op);
    WriteOneSound(es, h, op);
    SoundIsUnique(es', h + [op]);
    forall user, k: nat | floor <= k ensures Agrees(es', h + [op], user, k) {
      if k <= |h| {
        assert Agrees(es, h, user, k);
        assert Added(|h| + 1, op) + es == es';
        ViewBelow(Added(|h| + 1, op), es, user, k);
        assert (h + [op])[..k] == h[..k];
        SpecViewPrefix(h + [op], h, user, k);
      } else if k == |h| + 1 {
        assert Agrees(es, h, user, |h|);
        NewestView(es, h, op, user);
      }
    }
  }

  lemma {:induction false} WriteAgrees(es: set<Entry>, h: seq<Op>, floor: nat, ops: seq<Op>)
    requires Sound(es, h) && floor <= |h|
    ensures Sound(es + BatchEntries(h, ops), h + ops)
    ensures ViewsAgree(es, h, floor) ==> ViewsAgree(es + BatchEntries(h, ops), h + ops, floor)
    decreases |ops|
  {
    if ops == [] {
      assert h + ops == h && es + BatchEntries(h, ops) == es;
    } else {
      var es1, h1 := es + Added(|h| + 1, ops[0]), h + [ops[0]];
      WriteOneSound(es, h, ops[0]);
      if ViewsAgree(es, h, floor) { WriteOneAgrees(es, h, floor, ops[0]); }
      WriteAgrees(es1, h1, floor, ops[1..]);
      assert h + ops == h1 + ops[1..];
      BatchSplits(h, ops);
      assert es + BatchEntries(h, ops) == es1 + BatchEntries(h1, ops[1..]);
    }
  }

  lemma BatchSplits(h: seq<Op>, ops: seq<Op>)
    requires ops != []
    ensures BatchEntries(h, ops) == Added(|h| + 1, ops[0]) + BatchEntries(h + [ops[0]], ops[1..])
  {
    var rest := BatchEntries(h + [ops[0]], ops[1..]);
    forall e | e in BatchEntries(h, ops) ensures e in Added(|h| + 1, ops[0]) + rest {
      var i :| 0 <= i < |ops| && ops[i].Op? && e == EntryOf(|h| + i + 1, ops[i]);
      if i > 0 { assert ops[1..][i - 1] == ops[i]; }
    }
    forall e | e in rest ensures e in BatchEntries(h, ops) {
      var i :| 0 <= i < |ops[1..]| && ops[1..][i].Op? && e == EntryOf(|h + [ops[0]]| + i + 1, ops[1..][i]);
      assert ops[i + 1] == ops[1..][i];
    }
  }

  /** A batch is numbered on from the history. */
  lemma BatchNumbers(h: seq<Op>, ops: seq<Op>)
    ensures forall e :: e in BatchEntries(h, ops) ==> |h| < e.key.seqno <= |h| + |ops|
  {
  }

  lemma WriteStep(s: State, ops: seq<Op>, t: State)
    requires Inv(s) && Does(s, Write(ops), t)
    ensures Inv(t)
    ensures ViewsAgree(All(s), s.history, s.floor) ==> ViewsAgree(All(t), t.history, t.floor)
  {
    WriteAgrees(All(s), s.history, s.floor, ops);
    BatchNumbers(s.history, ops);
    assert All(t) == All(s) + BatchEntries(s.history, ops);
    WriteEpochs(s, ops, t);
    SameLevels(s, t);
    SameJob(s, t);
  }

  lemma WriteEpochs(s: State, ops: seq<Op>, t: State)
    requires Epochs(s) && SnapshotsOK(s) && Does(s, Write(ops), t)
    ensures Epochs(t) && SnapshotsOK(t)
  {
    BatchNumbers(s.history, ops);
  }

  // ---- Flush ----

  lemma ContentsFlushed(v: Version, f: File, level: nat, v': Version)
    requires Flushed(v, f, level, v')
    ensures Contents(v') == Contents(v) + Elements(f.entries)
  {
    forall e | e in Contents(v') ensures e in Contents(v) + Elements(f.entries) {
      var l, g := FromContents(v', e);
      FlushedHas(v, f, level, v', l, g);
      if In(v, l, g) { InContents(v, l, g, e); }
    }
    forall e | e in Contents(v) + Elements(f.entries) ensures e in Contents(v') {
      if e in Contents(v) {
        var l, g := FromContents(v, e);
        FlushedHas(v, f, level, v', l, g);
        InContents(v', l, g, e);
      } else {
        FlushedHas(v, f, level, v', level, f);
        InContents(v', level, f, e);
      }
    }
  }

  lemma FlushedFileIsNewest(s: State, f: File)
    requires Inv(s) && Sorted(f.entries) && Elements(f.entries) == Frozen(s) && f.number == s.nextFile
    ensures NewestFile(s.version, f)
  {
    forall e | e in f.entries ensures s.flushed < e.key.seqno <= MAX_SEQUENCE {
      assert e in Elements(f.entries);
    }
    forall l, g | In(s.version, l, g) ensures Newer(f, g) {
      forall y | y in g.entries ensures y.key.seqno <= s.flushed { InContents(s.version, l, g, y); }
    }
  }

  lemma FlushLevels(s: State, f: File, level: nat, t: State)
    requires LevelsOK(s) && NewestFile(s.version, f) && Does(s, Flush(f, level), t)
    ensures LevelsOK(t)
  {
    FlushKeepsValid(s.version, f, level, t.version);
    forall l, g | In(t.version, l, g) ensures g.number < t.nextFile {
      FlushedHas(s.version, f, level, t.version, l, g);
    }
  }

  lemma FlushJob(s: State, f: File, level: nat, t: State)
    requires ValidVersion(s.version) && JobRuns(s) && NewestFile(s.version, f) && Does(s, Flush(f, level), t)
    ensures JobRuns(t)
  {
    if s.job.Some? { FlushKeepsPlaced(s.version, f, level, t.version, s.job.value); }
  }

  lemma FlushEpochs(s: State, f: File, level: nat, t: State)
    requires Epochs(s) && SnapshotsOK(s) && Does(s, Flush(f, level), t)
    ensures Epochs(t) && SnapshotsOK(t) && All(t) == All(s)
  {
    ContentsFlushed(s.version, f, level, t.version);
  }

  lemma FlushStep(s: State, f: File, level: nat, t: State)
    requires Inv(s) && Does(s, Flush(f, level), t)
    ensures Inv(t) && All(t) == All(s)
    ensures LevelOrder(s.version) ==> LevelOrder(t.version)
  {
    FlushedFileIsNewest(s, f);
    FlushLevels(s, f, level, t);
    FlushJob(s, f, level, t);
    FlushEpochs(s, f, level, t);
    if LevelOrder(s.version) { FlushKeepsOrder(s.version, f, level, t.version); }
  }

  // ---- Compaction ----

  ghost predicate ReadSmall(job: Job) {
    forall e :: Read(job, e) ==> e.key.seqno <= MAX_SEQUENCE
  }

  lemma InputIsSound(s: State, input: seq<Entry>)
    requires ValidVersion(s.version) && s.job.Some? && JobRuns(s) && SnapshotsOK(s) && Sound(All(s), s.history)
    requires Merges(input, s.job.value)
    ensures UniqueSeq(Contents(s.version)) && UniqueSeq(Elements(input)) && Packed(input) && ReadSmall(s.job.value)
    ensures Contents(s.version) == Rest(s.version, s.job.value) + Elements(input)
  {
    ContentsBefore(s.version, s.job.value, input);
    assert Contents(s.version) <= All(s);
    SoundIsUnique(All(s), s.history);
    forall e | e in input ensures e.key.seqno <= MAX_SEQUENCE {
      assert e in Elements(input) && e in All(s);
      assert Records(s.history, e);
    }
  }

  lemma FinishLevels(s: State, input: seq<Entry>, outs: seq<File>, t: State)
    requires LevelsOK(s) && JobRuns(s) && SnapshotsOK(s) && Does(s, FinishCompaction(input, outs), t)
    requires ReadSmall(s.job.value)
    ensures LevelsOK(t)
  {
    var job := s.job.value;
    OutputsFromInputs(job, input, outs);
    InstallKeepsValid(s.version, job, outs, t.version);
    forall l, g | In(t.version, l, g) ensures g.number < t.nextFile {
      InstalledHas(s.version, job, outs, t.version, l, g);
    }
  }

  lemma FinishEpochs(s: State, t: State)
    requires Epochs(s) && Contents(t.version) <= Contents(s.version) && t.mem == s.mem && t.imm == s.imm
    requires t.flushed == s.flushed && t.frozen == s.frozen && t.history == s.history && Sound(All(s), s.history)
    ensures Epochs(t) && Sound(All(t), t.history)
  {
    assert All(t) <= All(s);
  }

  lemma FinishSnapshots(s: State, input: seq<Entry>, outs: seq<File>, t: State)
    requires SnapshotsOK(s) && JobRuns(s) && Does(s, FinishCompaction(input, outs), t)
    ensures SnapshotsOK(t) && JobRuns(t)
  {
  }

  lemma FinishStep(s: State, input: seq<Entry>, outs: seq<File>, t: State)
    requires Inv(s) && Does(s, FinishCompaction(input, outs), t)
    ensures Inv(t)
  {
    InputIsSound(s, input);
    FinishLevels(s, input, outs, t);
    FinishTables(s, input, outs, t);
    FinishEpochs(s, t);
    FinishSnapshots(s, input, outs, t);
  }

  lemma StartStep(s: State, job: Job, t: State)
    requires Inv(s) && Does(s, StartCompaction(job), t)
    ensures Inv(t) && All(t) == All(s)
  {
    StartPlaced(s.version, job);
    StartJob(s, job, t);
    SameLevels(s, t);
    StartEntries(s, job, t);
  }

  lemma StartEntries(s: State, job: Job, t: State)
    requires SnapshotsOK(s) && Epochs(s) && Sound(All(s), s.history) && t == s.(job := Some(job))
    ensures SnapshotsOK(t) && Epochs(t) && Sound(All(t), t.history) && All(t) == All(s)
  {
    assert Upper(t) == Upper(s);
  }

  lemma StartJob(s: State, job: Job, t: State)
    requires SnapshotsOK(s) && JobPlaced(s.version, job) && job.snapshot == SmallestSnapshot(s)
    requires t == s.(job := Some(job))
    ensures JobRuns(t)
  {
  }

  lemma MoveLevels(s: State, job: Job, t: State)
    requires LevelsOK(s) && JobPlaced(s.version, job) && Does(s, MoveFile(job), t)
    ensures LevelsOK(t) && Contents(t.version) == Contents(s.version)
  {
    MoveIsInstall(s.version, job);
    InstallKeepsValid(s.version, job, job.in0, t.version);
    ContentsBefore(s.version, job, job.in0[0].entries);
    ContentsAfter(s.version, job, job.in0, t.version, job.in0[0].entries);
    forall l, g | In(t.version, l, g) ensures g.number < t.nextFile {
      InstalledHas(s.version, job, job.in0, t.version, l, g);
      if g in job.in0 { InputIsIn(s.version, job, g); }
    }
  }

  lemma MoveEpochs(s: State, job: Job, t: State)
    requires Epochs(s) && Contents(t.version) == Contents(s.version) && t == s.(version := t.version)
    ensures Epochs(t) && All(t) == All(s)
  {
  }

  lemma MoveStep(s: State, job: Job, t: State)
    requires Inv(s) && Does(s, MoveFile(job), t)
    ensures Inv(t) && All(t) == All(s)
  {
    assert JobPlaced(s.version, job) by { StartPlaced(s.version, job); }
    MoveLevels(s, job, t);
    MoveEpochs(s, job, t);
  }

  // ---- Memtable switch and snapshots ----

  ghost predicate Small(step: Step) {
    step.SwitchMemtable? || step.FlushEmpty? || step.TakeSnapshot? || step.ReleaseSnapshot?
  }

  lemma SmallStep(s: State, step: Step, t: State)
    requires Inv(s) && Does(s, step, t) && Small(step)
    ensures Inv(t) && All(t) == All(s)
  {
    SameLevels(s, t);
    assert Upper(t) == Upper(s);
    SmallSnapshots(s, step, t);
    SmallJob(s, t);
    SmallEpochs(s, step, t);
  }

  lemma SmallJob(s: State, t: State)
    requires JobRuns(s) && t.job == s.job && t.version == s.version && t.floor == s.floor && t.history == s.history
    requires forall k :: k in t.snapshots ==> k in s.snapshots || k == |s.history|
    ensures JobRuns(t)
  {
    forall i | 0 <= i < |t.snapshots| ensures t.snapshots[i] in s.snapshots || t.snapshots[i] == |s.history| {}
  }

  lemma SmallSnapshots(s: State, step: Step, t: State)
    requires SnapshotsOK(s) && Does(s, step, t) && Small(step)
    ensures SnapshotsOK(t) && t.job == s.job && t.version == s.version && t.floor == s.floor && t.history == s.history
    ensures forall k :: k in t.snapshots ==> k in s.snapshots || k == |s.history|
  {
  }

  lemma SmallEpochs(s: State, step: Step, t: State)
    requires Epochs(s) && SnapshotsOK(s) && Sound(All(s), s.history) && Does(s, step, t) && Small(step)
    ensures Epochs(t)
  {
    forall e | e in s.mem ensures e.key.seqno <= |s.history| { assert Records(s.history, e); }
  }

  // ---- Reopening after a crash ----

  lemma AtLevel0Has(v: Version, files: seq<File>, v': Version, l: int, g: File)
    requires AtLevel0(v, files, v')
    ensures In(v', l, g) <==> In(v, l, g) || (l == 0 && g in files)
  {
  }

  lemma ContentsReplayed(v: Version, files: seq<File>, es: set<Entry>, first: nat, v': Version)
    requires AtLevel0(v, files, v') && Replayed(files, es, first)
    ensures Contents(v') == Contents(v) + es
  {
    forall e | e in Contents(v') ensures e in Contents(v) + es {
      var l, g := FromContents(v', e);
      AtLevel0Has(v, files, v', l, g);
      if In(v, l, g) { InContents(v, l, g, e); }
    }
    forall e | e in Contents(v) + es ensures e in Contents(v') {
      if e in Contents(v) {
        var l, g := FromContents(v, e);
        AtLevel0Has(v, files, v', l, g);
        InContents(v', l, g, e);
      } else {
        var f :| f in files && e in f.entries;
        AtLevel0Has(v, files, v', 0, f);
        InContents(v', 0, f, e);
      }
    }
  }

  lemma ReplayedLevels(s: State, first: nat, files: seq<File>, es: set<Entry>, t: State)
    requires LevelsOK(s) && AtLevel0(s.version, files, t.version) && Replayed(files, es, first)
    requires forall e :: e in es ==> e.key.seqno <= MAX_SEQUENCE
    requires forall l, g :: In(s.version, l, g) ==> g.number < first
    requires first <= t.nextFile && forall f :: f in files ==> f.number < t.nextFile
    ensures LevelsOK(t)
  {
    forall g | g in t.version[0] ensures ValidFile(g) {
      if g in files {
        forall e | e in g.entries ensures e.key.seqno <= MAX_SEQUENCE { assert e in es; }
      }
    }
    forall l, g | In(t.version, l, g) ensures g.number < t.nextFile {
      AtLevel0Has(s.version, files, t.version, l, g);
    }
  }

  /** Replayed tables are newer than everything flushed, and among themselves the later has the larger number. */
  lemma ReplayKeepsOrder(v: Version, files: seq<File>, es: set<Entry>, first: nat, flushed: nat, v': Version)
    requires LevelOrder(v) && AtLevel0(v, files, v') && Replayed(files, es, first)
    requires forall e :: e in es ==> e.key.seqno > flushed
    requires forall e :: e in Contents(v) ==> e.key.seqno <= flushed
    requires forall l, g :: In(v, l, g) ==> g.number < first
    ensures LevelOrder(v')
  {
    forall l, f, g | f in files && In(v, l, g) ensures Newer(f, g) && f.number > g.number {
      ReplayedIsNewer(v, files, es, first, flushed, f, l, g);
    }
    forall f, g | f in files && g in files ensures f.number > g.number ==> Newer(f, g)
      ensures f.number == g.number ==> f == g
    {
      ReplayedInOrder(files, es, first, f, g);
    }
    forall l, g ensures In(v', l, g) <==> In(v, l, g) || (l == 0 && g in files) { AtLevel0Has(v, files, v', l, g); }
    OrderWith(v, files, v');
  }

  /** Files newer than all others, and in order among themselves, join level 0. */
  lemma OrderWith(v: Version, files: seq<File>, v': Version)
    requires LevelOrder(v) && forall l, g :: In(v', l, g) <==> In(v, l, g) || (l == 0 && g in files)
    requires forall l, f, g :: f in files && In(v, l, g) ==> Newer(f, g) && f.number > g.number
    requires forall f, g :: f in files && g in files && f.number > g.number ==> Newer(f, g)
    requires forall f, g :: f in files && g in files && f.number == g.number ==> f == g
    ensures LevelOrder(v')
  {
    forall l, m, f, g | l < m && In(v', l, f) && In(v', m, g) ensures Newer(f, g) {
      assert In(v, m, g);
    }
  }

  lemma ReplayedIsNewer(v: Version, files: seq<File>, es: set<Entry>, first: nat, flushed: nat, f: File, l: int,
                        g: File)
    requires Replayed(files, es, first) && f in files && In(v, l, g)
    requires forall e :: e in es ==> e.key.seqno > flushed
    requires forall e :: e in Contents(v) ==> e.key.seqno <= flushed
    requires forall m, h :: In(v, m, h) ==> h.number < first
    ensures Newer(f, g) && f.number > g.number
  {
    forall x | x in f.entries ensures x.key.seqno > flushed { assert x in es; }
    forall y | y in g.entries ensures y.key.seqno <= flushed { InContents(v, l, g, y); }
  }

  lemma ReplayedInOrder(files: seq<File>, es: set<Entry>, first: nat, f: File, g: File)
    requires Replayed(files, es, first) && f in files && g in files
    ensures f.number > g.number ==> Newer(f, g)
    ensures f.number == g.number ==> f == g
  {
    var i :| 0 <= i < |files| && files[i] == f;
    var j :| 0 <= j < |files| && files[j] == g;
    if i < j { assert Before(f, g); }
    if j < i { assert Before(g, f); }
  }

  /** Entries and views up to what was flushed do not depend on the memtables. */
  lemma TablesAgree(s: State, floor: nat)
    requires Epochs(s) && SnapshotsOK(s) && Sound(All(s), s.history)
    ensures Sound(Contents(s.version), s.history[..s.flushed])
    ensures ViewsAgree(All(s), s.history, floor) ==> ViewsAgree(Contents(s.version), s.history[..s.flushed], floor)
  {
    var es, h := Contents(s.version), s.history[..s.flushed];
    forall e | e in es ensures Records(h, e) { assert e in All(s) && Records(s.history, e); }
    SoundIsUnique(All(s), s.history);
    if ViewsAgree(All(s), s.history, floor) {
      forall user, k: nat | floor <= k ensures Agrees(es, h, user, k) {
        if k <= |h| {
          assert Agrees(All(s), s.history, user, k);
          ViewBelow(Upper(s), es, user, k);
          assert h[..k] == s.history[..k];
          SpecViewPrefix(h, s.history, user, k);
        }
      }
    }
  }

  lemma ReopenStep(s: State, h: seq<Op>, first: nat, files: seq<File>, t: State)
    requires Inv(s) && Does(s, Reopen(h, first, files), t)
    ensures Inv(t)
    ensures ViewsAgree(All(s), s.history, s.floor) ==> ViewsAgree(All(t), t.history, t.floor)
    ensures LevelOrder(s.version) ==> LevelOrder(t.version)
  {
    var kept, later := h[..s.flushed], h[s.flushed..];
    var es := BatchEntries(kept, later);
    BatchNumbers(kept, later);
    ReopenEntries(s, h, first, files, t, kept, later);
    ReplayedLevels(s, first, files, es, t);
    if LevelOrder(s.version) { ReplayKeepsOrder(s.version, files, es, first, s.flushed, t.version); }
  }

  lemma ReopenEntries(s: State, h: seq<Op>, first: nat, files: seq<File>, t: State, kept: seq<Op>, later: seq<Op>)
    requires Epochs(s) && SnapshotsOK(s) && Sound(All(s), s.history) && Does(s, Reopen(h, first, files), t)
    requires kept == h[..s.flushed] && later == h[s.flushed..]
    ensures Contents(t.version) == Contents(s.version) + BatchEntries(kept, later) && Sound(All(t), t.history)
    ensures ViewsAgree(All(s), s.history, s.floor) ==> ViewsAgree(All(t), t.history, t.floor)
  {
    var es := BatchEntries(kept, later);
    assert h == kept + later && kept == s.history[..s.flushed];
    TablesAgree(s, s.floor);
    WriteAgrees(Contents(s.version), kept, s.floor, later);
    ContentsReplayed(s.version, files, es, first, t.version);
    assert All(t) == Contents(s.version) + es;
  }

  // ---- One step ----

  lemma StepKeepsInv(s: State, step: Step, t: State)
    requires Inv(s) && Does(s, step, t)
    ensures Inv(t)
  {
    match step
    case Write(ops) => WriteStep(s, ops, t);
    case Flush(f, level) => FlushStep(s, f, level, t);
    case StartCompaction(job) => StartStep(s, job, t);
    case FinishCompaction(input, outs) => FinishStep(s, input, outs, t);
    case MoveFile(job) => MoveStep(s, job, t);
    case Reopen(h, first, files) => ReopenStep(s, h, first, files, t);
    case _ => SmallStep(s, step, t);
  }

  lemma InitialInv(s: State)
    requires Initial(s)
    ensures Inv(s) && LevelOrder(s.version) && ViewsAgree(All(s), s.history, s.floor)
  {
    forall user, k: nat ensures Agrees(All(s), s.history, user, k) {}
  }

  // ---- When a step breaks the level order ----

  /**
   Installing a compaction breaks the order when a file left behind in the upper level holds an older version of
   a user key that is written; moving a file breaks it when the next file begins on the user key it ends on.
   */
  ghost predicate BreaksOrder(s: State, step: Step) {
    match step
    case FinishCompaction(input, outs) =>
      s.job.Some? && exists g, x, e :: OlderLeftAbove(s.version, s.job.value, g, x, e)
    case MoveFile(job) => job.in0 != [] && Continued(s.version, job)
    case _ => false
  }

  lemma StepKeepsOrderIff(s: State, step: Step, t: State)
    requires Inv(s) && Does(s, step, t) && LevelOrder(s.version)
    ensures LevelOrder(t.version) <==> !BreaksOrder(s, step)
  {
    match step
    case Flush(f, level) => FlushStep(s, f, level, t);
    case FinishCompaction(input, outs) =>
      InputIsSound(s, input);
      InstallKeepsOrderIff(s.version, s.job.value, input, outs, t.version);
    case MoveFile(job) =>
      SoundIsUnique(All(s), s.history);
      MoveKeepsOrderIff(s.version, job, t.version);
    case Reopen(h, first, files) => ReopenStep(s, h, first, files, t);
    case _ =>
  }

  // ---- When a step breaks a view ----

  /** A finished compaction breaks a view when a deletion marker it drops exposes a value it did not read. */
  ghost predicate BreaksViews(s: State, step: Step) {
    match step
    case FinishCompaction(input, outs) =>
      s.job.Some? && Exposes(Rest(s.version, s.job.value), input, s.job.value.snapshot, s.job.value.base,
                             s.job.value.level)
    case _ => false
  }

  /** Entries in memory are newer than those in tables. */
  ghost predicate Layered(upper: set<Entry>, low: set<Entry>, flushed: nat) {
    && UniqueSeq(upper + low)
    && (forall e :: e in upper ==> e.key.seqno > flushed) && (forall e :: e in low ==> e.key.seqno <= flushed)
  }

  /** Views of tables carry over to those of all entries. */
  lemma ViewsCarry(upper: set<Entry>, low: set<Entry>, low': set<Entry>, flushed: nat, snapshot: nat, user: int, k: nat)
    requires Layered(upper, low, flushed) && low' <= low && k >= Min(snapshot, flushed)
    requires k >= snapshot ==> View(low, user, k) == View(low', user, k)
    requires View(low, user, snapshot) == View(low', user, snapshot)
    ensures View(upper + low, user, k) == View(upper + low', user, k)
  {
    if NoneVisible(upper, user, k) {
      ViewBelow(upper, low, user, k);
      ViewBelow(upper, low', user, k);
      if k < snapshot {
        ViewBetween(low, user, k, snapshot);
        ViewBetween(low', user, k, snapshot);
      }
    } else {
      ViewAbove(upper, low, user, k);
      ViewAbove(upper, low', user, k);
    }
  }

  lemma ExposureReaches(upper: set<Entry>, low: set<Entry>, low': set<Entry>, flushed: nat, snapshot: nat, user: int)
    requires Layered(upper, low, flushed) && low' <= low
    requires View(low, user, snapshot) != View(low', user, snapshot)
    ensures View(upper + low, user, Min(snapshot, flushed)) != View(upper + low', user, Min(snapshot, flushed))
  {
    var k := Min(snapshot, flushed);
    ViewBelow(upper, low, user, k);
    ViewBelow(upper, low', user, k);
    ViewBetween(low, user, k, snapshot);
    ViewBetween(low', user, k, snapshot);
  }

  /** Replacing inputs by outputs keeps every view from the new floor up exactly when nothing is exposed. */
  lemma MergeKeepsViewsIff(h: seq<Op>, upper: set<Entry>, rest: set<Entry>, input: seq<Entry>, job: Job, flushed: nat,
                           floor: nat)
    requires Sorted(input) && Layered(upper, rest + Elements(input), flushed)
    requires ViewsAgree(upper + (rest + Elements(input)), h, floor) && floor <= Min(job.snapshot, flushed) <= |h|
    ensures ViewsAgree(upper + (rest + Output(input, job.snapshot, job.base, job.level)), h,
                       Min(job.snapshot, flushed)) <==>
            !Exposes(rest, input, job.snapshot, job.base, job.level)
  {
    var low, low' := rest + Elements(input), rest + Output(input, job.snapshot, job.base, job.level);
    var k0 := Min(job.snapshot, flushed);
    OutputWithinInput(input, job.snapshot, job.base, job.level);
    assert UniqueSeq(low) && low' <= low;
    if Exposes(rest, input, job.snapshot, job.base, job.level) {
      var user := ExposureShows(rest, input, job.snapshot, job.base, job.level);
      ExposureReaches(upper, low, low', flushed, job.snapshot, user);
      assert Agrees(upper + low, h, user, k0);
      assert !Agrees(upper + low', h, user, k0);
    } else {
      forall user, k: nat | k0 <= k ensures Agrees(upper + low', h, user, k) {
        ViewKept(rest, input, job.snapshot, job.base, job.level, user, job.snapshot);
        if k >= job.snapshot { ViewKept(rest, input, job.snapshot, job.base, job.level, user, k); }
        ViewsCarry(upper, low, low', flushed, job.snapshot, user, k);
        assert Agrees(upper + low, h, user, k);
      }
    }
  }

  ghost predicate FinishFacts(s: State, input: seq<Entry>, t: State)
    requires s.job.Some?
  {
    var job := s.job.value;
    && All(s) == Upper(s) + (Rest(s.version, job) + Elements(input))
    && All(t) == Upper(s) + (Rest(s.version, job) + Output(input, job.snapshot, job.base, job.level))
    && Layered(Upper(s), Rest(s.version, job) + Elements(input), s.flushed)
    && s.floor <= Min(job.snapshot, s.flushed) <= |s.history|
    && t.floor == Min(job.snapshot, s.flushed) && t.history == s.history
  }

  lemma FinishTables(s: State, input: seq<Entry>, outs: seq<File>, t: State)
    requires ValidVersion(s.version) && SnapshotsOK(s) && JobRuns(s) && Does(s, FinishCompaction(input, outs), t)
    ensures Contents(s.version) == Rest(s.version, s.job.value) + Elements(input)
    ensures var job := s.job.value;
            Contents(t.version) == Rest(s.version, job) + Output(input, job.snapshot, job.base, job.level)
    ensures Contents(t.version) <= Contents(s.version)
  {
    FinishContents(s.version, s.job.value, input, outs, t.version);
  }

  lemma FinishUppers(s: State, input: seq<Entry>, outs: seq<File>, t: State)
    requires SnapshotsOK(s) && JobRuns(s) && Does(s, FinishCompaction(input, outs), t)
    ensures Upper(t) == Upper(s) && t.history == s.history && t.floor == Min(s.job.value.snapshot, s.flushed)
    ensures s.floor <= t.floor <= |s.history|
  {
  }

  lemma FinishSplits(s: State, input: seq<Entry>, outs: seq<File>, t: State)
    requires Inv(s) && Does(s, FinishCompaction(input, outs), t)
    ensures FinishFacts(s, input, t)
  {
    FinishTables(s, input, outs, t);
    FinishUppers(s, input, outs, t);
    StateLayered(s);
  }

  lemma FinishKeepsViewsIff(s: State, input: seq<Entry>, outs: seq<File>, t: State)
    requires s.job.Some? && FinishFacts(s, input, t) && Sorted(input) && ViewsAgree(All(s), s.history, s.floor)
    ensures ViewsAgree(All(t), t.history, t.floor) <==> !BreaksViews(s, FinishCompaction(input, outs))
  {
    MergeKeepsViewsIff(s.history, Upper(s), Rest(s.version, s.job.value), input, s.job.value, s.flushed, s.floor);
  }

  lemma StateLayered(s: State)
    requires Epochs(s) && SnapshotsOK(s) && Sound(All(s), s.history)
    ensures Layered(Upper(s), Contents(s.version), s.flushed)
  {
    SoundIsUnique(All(s), s.history);
  }

  lemma StepKeepsViewsIff(s: State, step: Step, t: State)
    requires Inv(s) && Does(s, step, t) && ViewsAgree(All(s), s.history, s.floor)
    ensures ViewsAgree(All(t), t.history, t.floor) <==> !BreaksViews(s, step)
  {
    match step
    case Write(ops) => WriteStep(s, ops, t);
    case Flush(f, level) => FlushStep(s, f, level, t);
    case StartCompaction(job) => StartStep(s, job, t);
    case FinishCompaction(input, outs) =>
      FinishSplits(s, input, outs, t);
      FinishKeepsViewsIff(s, input, outs, t);
    case MoveFile(job) => MoveStep(s, job, t);
    case Reopen(h, first, files) => ReopenStep(s, h, first, files, t);
    case _ => SmallStep(s, step, t);
  }

  // ---- Whole runs ----

  ghost predicate Run(states: seq<State>, steps: seq<Step>) {
    && |states| == |steps| + 1 && Initial(states[0])
    && forall i :: 0 <= i < |steps| ==> Does(states[i], steps[i], states[i + 1])
  }

  lemma {:induction false} RunInv(states: seq<State>, steps: seq<Step>, n: nat)
    requires Run(states, steps) && n < |states|
    ensures Inv(states[n])
  {
    if n == 0 {
      InitialInv(states[0]);
    } else {
      RunInv(states, steps, n - 1);
      StepKeepsInv(states[n - 1], steps[n - 1], states[n]);
    }
  }

  /** In every state of every run the levels above 0 are sorted and disjoint. */
  lemma LevelsInEveryRun(states: seq<State>, steps: seq<Step>, n: nat)
    requires Run(states, steps) && n < |states|
    ensures ValidVersion(states[n].version)
  {
    RunInv(states, steps, n);
  }

  /**
   What holds at first, and is kept by a step exactly when the step is not bad, holds up to `n` if none before is
   bad.
   */
  lemma {:induction false} GoodUntilBad(good: seq<bool>, bad: seq<bool>, n: nat)
    requires n < |good| && n <= |bad| && good[0]
    requires forall i :: 0 <= i < n && good[i] ==> (good[i + 1] <==> !bad[i])
    ensures (forall m :: 0 <= m <= n ==> good[m]) <==> forall i :: 0 <= i < n ==> !bad[i]
  {
    if n > 0 {
      GoodUntilBad(good, bad, n - 1);
      assert good[n - 1] ==> (good[n - 1 + 1] <==> !bad[n - 1]);
    }
  }

  ghost predicate OrderUpTo(states: seq<State>, n: nat)
    requires n < |states|
  {
    forall m :: 0 <= m <= n ==> LevelOrder(states[m].version)
  }

  ghost predicate NoOrderBreak(states: seq<State>, steps: seq<Step>, n: nat)
    requires n <= |steps| && n < |states|
  {
    forall i :: 0 <= i < n ==> !BreaksOrder(states[i], steps[i])
  }

  lemma OrderStep(states: seq<State>, steps: seq<Step>, i: nat)
    requires Run(states, steps) && i < |steps| && LevelOrder(states[i].version)
    ensures LevelOrder(states[i + 1].version) <==> !BreaksOrder(states[i], steps[i])
  {
    RunInv(states, steps, i);
    StepKeepsOrderIff(states[i], steps[i], states[i + 1]);
  }

  /** Newer data lies above older data all through a run exactly when no step of it breaks the order. */
  lemma OrderInRunIff(states: seq<State>, steps: seq<Step>, n: nat)
    requires Run(states, steps) && n < |states|
    ensures OrderUpTo(states, n) <==> NoOrderBreak(states, steps, n)
  {
    var good := seq(|states|, i requires 0 <= i < |states| => LevelOrder(states[i].version));
    var bad := seq(|steps|, i requires 0 <= i < |steps| => BreaksOrder(states[i], steps[i]));
    forall i | 0 <= i < n && good[i] ensures good[i + 1] <==> !bad[i] { OrderStep(states, steps, i); }
    InitialInv(states[0]);
    GoodUntilBad(good, bad, n);
    if OrderUpTo(states, n) { forall m | 0 <= m <= n ensures good[m] {} }
    if forall m :: 0 <= m <= n ==> good[m] {
      forall m | 0 <= m <= n ensures LevelOrder(states[m].version) { assert good[m]; }
    }
    if NoOrderBreak(states, steps, n) { forall i | 0 <= i < n ensures !bad[i] {} }
    if forall i :: 0 <= i < n ==> !bad[i] {
      forall i | 0 <= i < n ensures !BreaksOrder(states[i], steps[i]) { assert !bad[i]; }
    }
  }

  ghost predicate ViewsHold(s: State) {
    ViewsAgree(All(s), s.history, s.floor)
  }

  ghost predicate ViewsUpTo(states: seq<State>, n: nat)
    requires n < |states|
  {
    forall m :: 0 <= m <= n ==> ViewsHold(states[m])
  }

  ghost predicate NoViewBreak(states: seq<State>, steps: seq<Step>, n: nat)
    requires n <= |steps| && n < |states|
  {
    forall i :: 0 <= i < n ==> !BreaksViews(states[i], steps[i])
  }

  lemma ViewsStep(states: seq<State>, steps: seq<Step>, i: nat)
    requires Run(states, steps) && i < |steps| && ViewsHold(states[i])
    ensures ViewsHold(states[i + 1]) <==> !BreaksViews(states[i], steps[i])
  {
    RunInv(states, steps, i);
    StepKeepsViewsIff(states[i], steps[i], states[i + 1]);
  }

  /** Every view from the floor up is that of the history all through a run exactly when no step exposes a value. */
  lemma ViewsInRunIff(states: seq<State>, steps: seq<Step>, n: nat)
    requires Run(states, steps) && n < |states|
    ensures ViewsUpTo(states, n) <==> NoViewBreak(states, steps, n)
  {
    var good := seq(|states|, i requires 0 <= i < |states| => ViewsHold(states[i]));
    var bad := seq(|steps|, i requires 0 <= i < |steps| => BreaksViews(states[i], steps[i]));
    forall i | 0 <= i < n && good[i] ensures good[i + 1] <==> !bad[i] { ViewsStep(states, steps, i); }
    InitialInv(states[0]);
    GoodUntilBad(good, bad, n);
    if ViewsUpTo(states, n) { forall m | 0 <= m <= n ensures good[m] {} }
    if forall m :: 0 <= m <= n ==> good[m] {
      forall m | 0 <= m <= n ensures ViewsHold(states[m]) { assert good[m]; }
    }
    if NoViewBreak(states, steps, n) { forall i | 0 <= i < n ensures !bad[i] {} }
    if forall i :: 0 <= i < n ==> !bad[i] {
      forall i | 0 <= i < n ensures !BreaksViews(states[i], steps[i]) { assert !bad[i]; }
    }
  }

  /** Every live snapshot, and a reader of the latest sequence number, sees what was written. */
  lemma ReadersSeeHistory(states: seq<State>, steps: seq<Step>, n: nat, user: int, k: nat)
    requires Run(states, steps) && n < |states| && NoViewBreak(states, steps, n)
    requires k in states[n].snapshots || k == |states[n].history|
    ensures k <= |states[n].history|
    ensures View(All(states[n]), user, k) == SpecView(states[n].history, user, k)
  {
    RunInv(states, steps, n);
    ViewsInRunIff(states, steps, n);
    assert ViewsHold(states[n]);
    assert Agrees(All(states[n]), states[n].history, user, k);
  }

  // ---- Runs with closed inputs break nothing ----

  /** Above level 0, no file left behind in the upper level holds an older version of an input's user key. */
  ghost predicate UpperRun(states: seq<State>, steps: seq<Step>) {
    |states| == |steps| + 1 && forall i :: 0 <= i < |steps| ==> UpperChoice(states[i], steps[i])
  }

  ghost predicate UpperChoice(s: State, step: Step) {
    match step
    case StartCompaction(job) => job.level > 0 ==> UpperClosed(s.version, job)
    case MoveFile(job) => job.level > 0 ==> UpperClosed(s.version, job)
    case _ => true
  }

  /** The same in the output level. */
  ghost predicate LowerRun(states: seq<State>, steps: seq<Step>) {
    |states| == |steps| + 1 && forall i :: 0 <= i < |steps| ==> LowerChoice(states[i], steps[i])
  }

  ghost predicate LowerChoice(s: State, step: Step) {
    match step
    case StartCompaction(job) => LowerClosed(s.version, job)
    case _ => true
  }

  ghost predicate UpperKnown(s: State) {
    LevelOrder(s.version) && (s.job.Some? ==> UpperNewer(s.version, s.job.value))
  }

  ghost predicate LowerKnown(s: State) {
    s.job.Some? ==> LowerNewer(s.version, s.job.value)
  }

  lemma ChosenCloses(v: Version, job: Job)
    requires ValidVersion(v) && InputsPresent(v, job) && job.in0 != []
    requires if job.level == 0 then Whole(v[0], job.in0) else UpperClosed(v, job)
    ensures UpperClosed(v, job)
  {
    if job.level == 0 { Level0Boundary(v, job); }
  }

  lemma ChosenUpper(v: Version, job: Job)
    requires ValidVersion(v) && LevelOrder(v) && GoodInputs(v, job.level, job.in0, job.in1)
    requires job.level > 0 ==> UpperClosed(v, job)
    ensures UpperClosed(v, job) && UpperNewer(v, job)
  {
    ReadIsPresent(v, job);
    ChosenCloses(v, job);
    StartUpper(v, job);
  }

  lemma NewerBreaksNothing(v: Version, job: Job)
    requires UpperNewer(v, job)
    ensures !exists g, x, e :: OlderLeftAbove(v, job, g, x, e)
  {
    forall g, x, e | LeftAbove(v, job, g) && x in g.entries && ReadAbove(job, e) && x.key.user == e.key.user
      ensures x.key.seqno > e.key.seqno
    {
      var f :| f in job.in0 && e in f.entries;
      assert f in Inputs(job) && Newer(g, f);
    }
  }

  lemma StepKeepsUpper(s: State, step: Step, t: State)
    requires Inv(s) && Does(s, step, t) && UpperKnown(s) && UpperChoice(s, step)
    ensures UpperKnown(t) && !BreaksOrder(s, step)
  {
    match step
    case Flush(f, level) =>
      FlushStep(s, f, level, t);
      FlushUpper(s, f, level, t);
    case StartCompaction(job) => ChosenUpper(s.version, job);
    case FinishCompaction(input, outs) =>
      NewerBreaksNothing(s.version, s.job.value);
      StepKeepsOrderIff(s, step, t);
    case MoveFile(job) => MoveUpper(s, job, t);
    case Reopen(h, first, files) => ReopenStep(s, h, first, files, t);
    case _ =>
  }

  lemma MoveUpper(s: State, job: Job, t: State)
    requires Inv(s) && Does(s, MoveFile(job), t) && UpperKnown(s) && UpperChoice(s, MoveFile(job))
    ensures UpperKnown(t) && !BreaksOrder(s, MoveFile(job))
  {
    SoundIsUnique(All(s), s.history);
    ChosenUpper(s.version, job);
    ReadIsPresent(s.version, job);
    ContinuedIff(s.version, job);
    StepKeepsOrderIff(s, MoveFile(job), t);
  }

  lemma FlushUpper(s: State, f: File, level: nat, t: State)
    requires Inv(s) && Does(s, Flush(f, level), t)
    ensures s.job.Some? && UpperNewer(s.version, s.job.value) ==> UpperNewer(t.version, s.job.value)
    ensures s.job.Some? && LowerNewer(s.version, s.job.value) ==> LowerNewer(t.version, s.job.value)
  {
    FlushedFileIsNewest(s, f);
    if s.job.Some? { FlushKeepsNewer(s.version, f, level, t.version, s.job.value); }
  }

  lemma StepKeepsLower(s: State, step: Step, t: State)
    requires Inv(s) && Does(s, step, t) && LowerKnown(s) && LowerChoice(s, step)
    ensures LowerKnown(t)
  {
    match step
    case Flush(f, level) => FlushUpper(s, f, level, t);
    case StartCompaction(job) => StartLower(s.version, job);
    case _ =>
  }

  /** What the compaction leaves in tables is newer than the inputs, or below and known to IsBase. */
  lemma ClosedBreaksNoView(s: State, input: seq<Entry>, outs: seq<File>, t: State)
    requires Inv(s) && UpperKnown(s) && LowerKnown(s) && Does(s, FinishCompaction(input, outs), t)
    ensures !BreaksViews(s, FinishCompaction(input, outs))
  {
    var job := s.job.value;
    InputIsSound(s, input);
    assert UserKeyClosed(Rest(s.version, job), input, job.base, job.level) by {
      forall x, y | x in Rest(s.version, job) && y in input && x.key.user == y.key.user
        ensures x.key.seqno > y.key.seqno || !IsBase(job.base, job.level, y.key.user)
      {
        OutsideEntry(s.version, job, x, y);
      }
    }
    ClosedExposesNothing(Rest(s.version, job), input, job.snapshot, job.base, job.level);
  }

  lemma UpperStep(states: seq<State>, steps: seq<Step>, i: nat)
    requires Run(states, steps) && i < |steps| && UpperRun(states, steps) && UpperKnown(states[i])
    ensures UpperKnown(states[i + 1]) && !BreaksOrder(states[i], steps[i])
  {
    RunInv(states, steps, i);
    StepKeepsUpper(states[i], steps[i], states[i + 1]);
  }

  lemma LowerStep(states: seq<State>, steps: seq<Step>, i: nat)
    requires Run(states, steps) && i < |steps| && LowerRun(states, steps)
    requires UpperKnown(states[i]) && LowerKnown(states[i])
    ensures LowerKnown(states[i + 1]) && !BreaksViews(states[i], steps[i])
  {
    RunInv(states, steps, i);
    StepKeepsLower(states[i], steps[i], states[i + 1]);
    if steps[i].FinishCompaction? { ClosedBreaksNoView(states[i], steps[i].input, steps[i].outs, states[i + 1]); }
  }

  /** With closed upper inputs, which level 0 has by itself, the order of levels holds in every state. */
  lemma {:induction false} UpperRunKeepsOrder(states: seq<State>, steps: seq<Step>, n: nat)
    requires Run(states, steps) && n < |states| && UpperRun(states, steps)
    ensures UpperKnown(states[n]) && NoOrderBreak(states, steps, n)
  {
    if n == 0 {
      InitialInv(states[0]);
    } else {
      UpperRunKeepsOrder(states, steps, n - 1);
      UpperStep(states, steps, n - 1);
    }
  }

  /** With closed inputs in both levels no step of a run exposes a value. */
  lemma {:induction false} ClosedRunKeepsViews(states: seq<State>, steps: seq<Step>, n: nat)
    requires Run(states, steps) && n < |states| && UpperRun(states, steps) && LowerRun(states, steps)
    ensures LowerKnown(states[n]) && NoViewBreak(states, steps, n)
  {
    if n > 0 {
      ClosedRunKeepsViews(states, steps, n - 1);
      UpperRunKeepsOrder(states, steps, n - 1);
      LowerStep(states, steps, n - 1);
    }
  }
}
