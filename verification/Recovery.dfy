/**
 Durability: logs, table files and the manifest on disk, the memory state that
 writes them, and what opening the database after a crash brings back. Every
 step is one disk or memory update; a crash may come between any two.
 */
module Recovery {
  import opened Options

  /** A logged batch: its first sequence number and how many it uses. */
  datatype Batch = Batch(start: nat, count: nat)

  /** What replaying the descriptor gives: live tables, first log still needed, next file and sequence numbers. */
  datatype Manifest = Manifest(tables: set<nat>, logNumber: nat, nextFile: nat, nextSeq: nat)

  /**
   `synced` counts, for each log, the batches that are safe on disk; a table lists the batches it answers for,
   whether or not a merge has dropped entries of theirs that nobody can see.
   */
  datatype Disk = Disk(logs: map<nat, seq<Batch>>, synced: map<nat, nat>, tables: map<nat, set<Batch>>,
                       manifest: Manifest)

  /** A manifest record being written: prepared under the mutex, written without it, then installed. */
  datatype Edit = NoEdit | Logging(forFlush: bool, next: Manifest) | Logged(forFlush: bool, next: Manifest)

  datatype Job = Job(inputs: set<nat>, outputs: set<nat>)

  datatype Memory =
    | Down
    | Up(
        cur: nat,                  // number of the log being written
        mem: seq<Batch>,
        imm: Option<seq<Batch>>,
        immLog: nat,               // log of the immutable memtable
        applying: Option<Batch>,   // logged, not yet in the memtable
        nextSeq: nat,
        nextFile: nat,
        logNumber: nat,            // what DeleteObsoleteFiles compares logs with
        tables: set<nat>,          // current version
        live: seq<set<nat>>,       // versions held by readers
        pending: set<nat>,         // outputs being written
        flush: Option<nat>,        // table built from the immutable memtable
        job: Option<Job>,
        edit: Edit)

  /**
   `durable` lists the batches whose memtable is in the manifest's tables, `history` all batches
   logged and not lost, `promised` those acknowledged to a sync write. Logs are numbered below `bound`.
   */
  datatype State = State(disk: Disk, memory: Memory, durable: seq<Batch>, history: seq<Batch>, promised: set<Batch>,
                         bound: nat)

  // ---- Replay ----

  /** The batches of the logs numbered from `n` up, in the order of the logs. */
  function Replay(logs: map<nat, seq<Batch>>, n: nat, bound: nat): seq<Batch>
    decreases bound - n
  {
    if n >= bound then [] else (if n in logs then logs[n] else []) + Replay(logs, n + 1, bound)
  }

  function Recovered(s: State): seq<Batch> {
    Replay(s.disk.logs, s.disk.manifest.logNumber, s.bound)
  }

  /** Sequence number after the last batch; zero for none. */
  function NextAfter(bs: seq<Batch>): nat {
    if bs == [] then 0 else bs[|bs| - 1].start + bs[|bs| - 1].count
  }

  function Max(a: nat, b: nat): nat { if a < b then b else a }

  ghost predicate Increasing(bs: seq<Batch>) {
    forall i, j :: 0 <= i < j < |bs| ==> bs[i].start + bs[i].count <= bs[j].start
  }

  /** `a` is `b` with some elements left out. */
  ghost predicate SubOf(a: seq<Batch>, b: seq<Batch>)
    decreases |b|
  {
    || a == []
    || (b != [] && ((a[0] == b[0] && SubOf(a[1..], b[1..])) || SubOf(a, b[1..])))
  }

  /** Some table of `ns` holds `b`. */
  ghost predicate InTables(tables: map<nat, set<Batch>>, ns: set<nat>, b: Batch) {
    exists n :: n in ns && n in tables && b in tables[n]
  }

  /** The tables of `ns` hold exactly the batches of `bs`. */
  ghost predicate Hold(tables: map<nat, set<Batch>>, ns: set<nat>, bs: seq<Batch>) {
    forall b :: InTables(tables, ns, b) <==> b in bs
  }

  // ---- Steps ----

  datatype Step =
    | AppendLog(batch: Batch, sync: bool)
    | ApplyMem
    | SwitchLog
    | BuildTable
    | PrepareFlush
    | StartCompaction(inputs: set<nat>)
    | AddOutput(contents: set<Batch>)
    | PrepareCompaction
    | WriteManifest
    | InstallFlush
    | InstallCompaction
    | HoldVersion
    | DropVersion(index: nat)
    | DeleteObsolete
    | Crash(kept: map<nat, nat>)
    | StrayLog(number: nat)
    | StrayTable(number: nat, contents: set<Batch>)
    | Recover(number: nat, newTables: map<nat, set<Batch>>)

  function Truncated(logs: map<nat, seq<Batch>>, kept: map<nat, nat>): map<nat, seq<Batch>> {
    map l | l in logs :: if l in kept && kept[l] <= |logs[l]| then logs[l][..kept[l]] else logs[l]
  }

  ghost predicate KeepsSynced(d: Disk, kept: map<nat, nat>) {
    forall l :: l in d.logs ==> l in kept && l in d.synced && d.synced[l] <= kept[l] <= |d.logs[l]|
  }

  ghost predicate InLive(m: Memory, n: nat)
    requires m.Up?
  {
    n in m.pending || n in m.tables || exists i :: 0 <= i < |m.live| && n in m.live[i]
  }

  /** `n` is past the manifest's counter and past every log that has to be replayed. */
  ghost predicate Unused(d: Disk, n: nat) {
    d.manifest.nextFile <= n && forall l :: l in d.logs && d.manifest.logNumber <= l ==> l < n
  }

  ghost predicate DoesWrite(s: State, step: Step, t: State) {
    var d, m := s.disk, s.memory;
    match step
    case AppendLog(b, sync) =>
      && m.Up? && m.applying.None? && b.start == m.nextSeq && m.cur in d.logs && m.cur in d.synced
      && t == s.(disk := d.(logs := d.logs[m.cur := d.logs[m.cur] + [b]],
                            synced := d.synced[m.cur := if sync then |d.logs[m.cur]| + 1 else d.synced[m.cur]]),
                 memory := m.(applying := Some(b)),
                 history := s.history + [b],
                 promised := if sync then s.promised + {b} else s.promised)
    case ApplyMem =>
      && m.Up? && m.applying.Some?
      && t == s.(memory := m.(mem := m.mem + [m.applying.value], applying := None,
                              nextSeq := m.applying.value.start + m.applying.value.count))
    case SwitchLog =>
      && m.Up? && m.imm.None? && m.applying.None?
      && t == s.(disk := d.(logs := d.logs[m.nextFile := []], synced := d.synced[m.nextFile := 0]),
                 memory := m.(cur := m.nextFile, imm := Some(m.mem), immLog := m.cur, mem := [],
                              nextFile := m.nextFile + 1),
                 bound := m.nextFile + 1)
    case _ => false
  }

  ghost predicate DoesBackground(s: State, step: Step, t: State) {
    var d, m := s.disk, s.memory;
    match step
    case BuildTable =>
      && m.Up? && m.imm.Some? && m.flush.None? && m.edit.NoEdit?
      && t == s.(disk := d.(tables := d.tables[m.nextFile := set b | b in m.imm.value]),
                 memory := m.(flush := Some(m.nextFile), nextFile := m.nextFile + 1))
    case PrepareFlush =>
      && m.Up? && m.imm.Some? && m.flush.Some? && m.edit.NoEdit?
      && t == s.(memory := m.(edit :=
                              Logging(true, Manifest(m.tables + {m.flush.value}, m.cur, m.nextFile, m.nextSeq))))
    case StartCompaction(inputs) =>
      && m.Up? && m.job.None? && m.flush.None? && m.edit.NoEdit? && inputs <= m.tables
      && t == s.(memory := m.(job := Some(Job(inputs, {}))))
    case AddOutput(contents) =>
      && m.Up? && m.job.Some? && m.flush.None? && m.edit.NoEdit?
      && t == s.(disk := d.(tables := d.tables[m.nextFile := contents]),
                 memory := m.(pending := m.pending + {m.nextFile}, nextFile := m.nextFile + 1,
                              job := Some(m.job.value.(outputs := m.job.value.outputs + {m.nextFile}))))
    case PrepareCompaction =>
      // the merge has consumed its inputs: the outputs hold what the inputs held
      && m.Up? && m.job.Some? && m.flush.None? && m.edit.NoEdit?
      && (forall b :: InTables(d.tables, m.job.value.outputs, b) <==> InTables(d.tables, m.job.value.inputs, b))
      && t == s.(memory := m.(edit := Logging(false,
                 Manifest(m.tables - m.job.value.inputs + m.job.value.outputs, m.logNumber, m.nextFile, m.nextSeq))))
    case WriteManifest =>
      && m.Up? && m.edit.Logging?
      && t == s.(disk := d.(manifest := m.edit.next), memory := m.(edit := Logged(m.edit.forFlush, m.edit.next)),
                 durable := if m.edit.forFlush && m.imm.Some? then s.durable + m.imm.value else s.durable)
    case InstallFlush =>
      && m.Up? && m.edit.Logged? && m.edit.forFlush
      && t == s.(memory := m.(flush := None, imm := None, tables := m.edit.next.tables,
                              logNumber := m.edit.next.logNumber, edit := NoEdit))
    case InstallCompaction =>
      && m.Up? && m.edit.Logged? && !m.edit.forFlush && m.job.Some?
      && t == s.(memory := m.(tables := m.edit.next.tables, logNumber := m.edit.next.logNumber,
                              pending := m.pending - m.job.value.outputs, job := None, edit := NoEdit))
    case HoldVersion =>
      m.Up? && t == s.(memory := m.(live := m.live + [m.tables]))
    case DropVersion(i) =>
      m.Up? && i < |m.live| && t == s.(memory := m.(live := m.live[..i] + m.live[i + 1..]))
    case DeleteObsolete =>
      && m.Up? && m.flush.None? && m.edit.NoEdit?
      && t == s.(disk := d.(logs := map l | l in d.logs && l >= m.logNumber :: d.logs[l],
                            tables := map n | n in d.tables && InLive(m, n) :: d.tables[n]))
    case _ => false
  }

  ghost predicate DoesOpen(s: State, step: Step, t: State) {
    var d, m := s.disk, s.memory;
    match step
    case Crash(kept) =>
      && KeepsSynced(d, kept)
      && t == s.(disk := d.(logs := Truncated(d.logs, kept), synced := kept), memory := Down,
                 history := s.durable + Replay(Truncated(d.logs, kept), d.manifest.logNumber, s.bound))
    case StrayLog(n) =>
      // opening failed after creating its new log
      && m.Down? && Unused(d, n)
      && t == s.(disk := d.(logs := d.logs[n := []], synced := d.synced[n := 0]), bound := Max(s.bound, n + 1))
    case StrayTable(n, contents) =>
      // opening failed after writing a table for a replayed log
      m.Down? && d.manifest.nextFile <= n && t == s.(disk := d.(tables := d.tables[n := contents]))
    case Recover(n, newTables) =>
      // replayed logs become level-0 tables; the new manifest starts at a new log
      && m.Down? && Unused(d, n)
      && (forall k :: k in newTables ==> d.manifest.nextFile <= k < n)
      && Hold(newTables, newTables.Keys, Recovered(s))
      && var next := Max(d.manifest.nextSeq, NextAfter(Recovered(s)));
         var tables := d.manifest.tables + newTables.Keys;
         t == State(Disk(d.logs[n := []], d.synced[n := 0], d.tables + newTables, Manifest(tables, n, n + 1, next)),
                    Up(n, [], None, 0, None, next, n + 1, n, tables, [], {}, None, None, NoEdit),
                    s.durable + Recovered(s), s.history, s.promised, n + 1)
    case _ => false
  }

  ghost predicate Does(s: State, step: Step, t: State) {
    DoesWrite(s, step, t) || DoesBackground(s, step, t) || DoesOpen(s, step, t)
  }

  /** A new database: an empty manifest and no logs. */
  ghost predicate Initial(s: State) {
    s == State(Disk(map[], map[], map[], Manifest({}, 0, 2, 1)), Down, [], [], {}, 0)
  }

  // ---- Invariant ----

  /** Tables and logs together hold each batch of the history exactly once, in order. */
  ghost predicate ExactlyOnce(s: State) {
    && s.history == s.durable + Recovered(s)
    && Hold(s.disk.tables, s.disk.manifest.tables, s.durable)
  }

  ghost predicate ManifestOK(f: Manifest, durable: seq<Batch>) {
    && (forall n :: n in f.tables ==> n < f.nextFile)
    && f.logNumber < f.nextFile
    && NextAfter(durable) <= f.nextSeq
  }

  ghost predicate SyncedOK(s: State) {
    forall l :: l in s.disk.logs ==> l < s.bound && l in s.disk.synced && s.disk.synced[l] <= |s.disk.logs[l]|
  }

  ghost predicate DiskOK(s: State) {
    && ExactlyOnce(s) && Increasing(s.history) && SyncedOK(s)
    && s.disk.manifest.tables <= s.disk.tables.Keys
    && ManifestOK(s.disk.manifest, s.durable)
  }

  ghost predicate SafeIn(d: Disk, l: nat, b: Batch) {
    d.manifest.logNumber <= l && l in d.logs && l in d.synced && d.synced[l] <= |d.logs[l]| &&
        b in d.logs[l][..d.synced[l]]
  }

  /** Every batch acknowledged to a sync write is in the tables or in the synced part of a needed log. */
  ghost predicate PromisesKept(s: State) {
    forall b :: b in s.promised ==> b in s.durable || exists l :: SafeIn(s.disk, l, b)
  }

  /** The immutable memtable still lives only in its log. */
  predicate ImmInLog(m: Memory)
    requires m.Up?
  {
    m.imm.Some? && !(m.edit.Logged? && m.edit.forFlush)
  }

  ghost predicate LogsOK(s: State) {
    s.memory.Up? ==>
      var d, m := s.disk, s.memory;
      && m.cur in d.logs && d.logs[m.cur] == m.mem + (if m.applying.Some? then [m.applying.value] else [])
      && m.logNumber <= d.manifest.logNumber <= m.cur && s.bound <= m.nextFile
      && (forall l :: l in d.logs ==> l <= m.cur)
      && (ImmInLog(m) ==>
            m.immLog in d.logs && d.logs[m.immLog] == m.imm.value && d.manifest.logNumber <= m.immLog < m.cur)
      && (forall l :: l in d.logs && d.manifest.logNumber <= l < m.cur ==> ImmInLog(m) && l == m.immLog)
  }

  ghost predicate SequenceOK(s: State) {
    s.memory.Up? ==>
      var m := s.memory;
      && s.disk.manifest.nextSeq <= m.nextSeq
      && (if m.applying.Some? then s.history != [] && s.history[|s.history| - 1] == m.applying.value &&
          m.applying.value.start == m.nextSeq
          else NextAfter(s.history) <= m.nextSeq)
  }

  /**
   Tables that readers, the current version or a pending manifest record need exist and are below the file counter.
   */
  ghost predicate TablesOK(s: State) {
    s.memory.Up? ==>
      var d, m := s.disk, s.memory;
      && (forall n: nat :: InLive(m, n) ==> n in d.tables && n < m.nextFile)
      && (m.flush.Some? ==> m.imm.Some? && m.flush.value in d.tables && m.flush.value < m.nextFile
                            && d.tables[m.flush.value] == set b | b in m.imm.value)
      && (m.job.Some? ==> m.job.value.outputs <= m.pending && m.job.value.inputs <= m.tables)
  }

  /** The record under way is what the running state will become; otherwise manifest and memory agree. */
  ghost predicate EditOK(s: State) {
    s.memory.Up? ==>
      var d, m := s.disk, s.memory;
      && d.manifest.nextFile <= m.nextFile
      && (!m.edit.Logged? ==> d.manifest.tables == m.tables && d.manifest.logNumber == m.logNumber)
      && (m.edit.Logged? ==> d.manifest == m.edit.next)
      && (!m.edit.NoEdit? ==>
           && m.edit.next.nextFile <= m.nextFile && m.edit.next.nextSeq <= m.nextSeq
           && (forall n :: n in m.edit.next.tables ==> n in d.tables)
           && (if m.edit.forFlush
               then m.imm.Some? && m.flush.Some? && m.edit.next.logNumber == m.cur &&
                   m.edit.next.tables == m.tables + {m.flush.value}
               else m.flush.None? && m.job.Some? && m.edit.next.logNumber == m.logNumber
                    && m.edit.next.tables == m.tables - m.job.value.inputs + m.job.value.outputs))
      && (m.edit.Logging? ==> var durable := s.durable + (if m.edit.forFlush then m.imm.value else []);
                              ManifestOK(m.edit.next, durable) && Hold(d.tables, m.edit.next.tables, durable))
  }

  ghost predicate Inv(s: State) {
    DiskOK(s) && PromisesKept(s) && LogsOK(s) && SequenceOK(s) && TablesOK(s) && EditOK(s)
  }

  // ---- Lists ----

  lemma {:induction false} ReplayNothing(logs: map<nat, seq<Batch>>, n: nat, bound: nat)
    requires forall l :: l in logs && n <= l < bound ==> logs[l] == []
    ensures Replay(logs, n, bound) == []
    decreases bound - n
  {
    if n < bound { ReplayNothing(logs, n + 1, bound); }
  }

  /** Only the part of the logs from `n` on matters. */
  lemma {:induction false} ReplaySame(a: map<nat, seq<Batch>>, b: map<nat, seq<Batch>>, n: nat, bound: nat)
    requires forall l :: n <= l < bound ==> (l in a <==> l in b) && (l in a ==> a[l] == b[l])
    ensures Replay(a, n, bound) == Replay(b, n, bound)
    decreases bound - n
  {
    if n < bound { ReplaySame(a, b, n + 1, bound); }
  }

  lemma {:induction false} ReplaySkip(logs: map<nat, seq<Batch>>, n: nat, k: nat, bound: nat)
    requires n <= k <= bound && forall l :: l in logs && n <= l < k ==> logs[l] == []
    ensures Replay(logs, n, bound) == Replay(logs, k, bound)
    decreases k - n
  {
    if n < k { ReplaySkip(logs, n + 1, k, bound); }
  }

  /** Any bound above the logs will do. */
  lemma {:induction false} ReplayBounds(logs: map<nat, seq<Batch>>, n: nat, bound: nat, bound': nat)
    requires forall l :: l in logs ==> l < bound && (l < bound' || logs[l] == [])
    ensures Replay(logs, n, bound') == Replay(logs, n, bound)
    decreases bound' - n
  {
    if n < bound' {
      ReplayBounds(logs, n + 1, bound, bound');
    } else {
      ReplayNothing(logs, n, bound);
    }
  }

  /** With one log from `n` on, or two, the replay is their contents. */
  lemma ReplayOne(logs: map<nat, seq<Batch>>, n: nat, c: nat, bound: nat)
    requires n <= c < bound && c in logs && forall l :: l in logs && n <= l < bound && l != c ==> logs[l] == []
    ensures Replay(logs, n, bound) == logs[c]
  {
    ReplaySkip(logs, n, c, bound);
    ReplayNothing(logs, c + 1, bound);
  }

  lemma ReplayTwo(logs: map<nat, seq<Batch>>, n: nat, a: nat, c: nat, bound: nat)
    requires n <= a < c < bound && a in logs && c in logs
    requires forall l :: l in logs && n <= l < bound && l != a && l != c ==> logs[l] == []
    ensures Replay(logs, n, bound) == logs[a] + logs[c]
  {
    ReplaySkip(logs, n, a, bound);
    ReplayOne(logs, a + 1, c, bound);
  }

  lemma {:induction false} SubRefl(a: seq<Batch>)
    ensures SubOf(a, a)
  {
    if a != [] { SubRefl(a[1..]); }
  }

  lemma {:induction false} SubAppend(a: seq<Batch>, b: seq<Batch>, c: seq<Batch>, d: seq<Batch>)
    requires SubOf(a, b) && SubOf(c, d)
    ensures SubOf(a + c, b + d)
    decreases |b|
  {
    if b == [] {
      assert a + c == c && b + d == d;
    } else {
      assert (b + d)[1..] == b[1..] + d;
      if a != [] && a[0] == b[0] && SubOf(a[1..], b[1..]) {
        SubAppend(a[1..], b[1..], c, d);
        assert (a + c)[1..] == a[1..] + c;
      } else {
        assert SubOf(a, b[1..]);
        SubAppend(a, b[1..], c, d);
      }
    }
  }

  lemma SubPrefix(b: seq<Batch>, n: nat)
    requires n <= |b|
    ensures SubOf(b[..n], b)
  {
    SubRefl(b[..n]);
    assert SubOf([], b[n..]);
    SubAppend(b[..n], b[..n], [], b[n..]);
    assert b[..n] + [] == b[..n] && b[..n] + b[n..] == b;
  }

  lemma {:induction false} SubIncreasing(a: seq<Batch>, b: seq<Batch>)
    requires SubOf(a, b) && Increasing(b)
    ensures Increasing(a)
    ensures forall x :: x in a ==> x in b
    decreases |b|
  {
    if a != [] {
      if a[0] == b[0] && SubOf(a[1..], b[1..]) {
        SubIncreasing(a[1..], b[1..]);
        assert forall i :: 0 < i < |a| ==> a[i] == a[1..][i - 1] && a[i] in a[1..];
        forall j | 0 < j < |a| ensures a[0].start + a[0].count <= a[j].start {
          assert a[j] in b[1..];
        }
      } else {
        SubIncreasing(a, b[1..]);
      }
    }
  }

  lemma {:induction false} TruncatedIsSub(logs: map<nat, seq<Batch>>, kept: map<nat, nat>, n: nat, bound: nat)
    ensures SubOf(Replay(Truncated(logs, kept), n, bound), Replay(logs, n, bound))
    decreases bound - n
  {
    if n < bound {
      TruncatedIsSub(logs, kept, n + 1, bound);
      var b := if n in logs then logs[n] else [];
      var a := if n in logs then Truncated(logs, kept)[n] else [];
      if n in logs && n in kept && kept[n] <= |logs[n]| { SubPrefix(b, kept[n]); } else { SubRefl(b); }
      SubAppend(a, b, Replay(Truncated(logs, kept), n + 1, bound), Replay(logs, n + 1, bound));
    }
  }

  lemma {:induction false} ReplayHas(logs: map<nat, seq<Batch>>, n: nat, bound: nat, l: nat, b: Batch)
    requires n <= l < bound && l in logs && b in logs[l]
    ensures b in Replay(logs, n, bound)
    decreases bound - n
  {
    if n < l { ReplayHas(logs, n + 1, bound, l, b); }
  }

  lemma NextOfConcat(a: seq<Batch>, b: seq<Batch>)
    ensures NextAfter(a + b) == if b == [] then NextAfter(a) else NextAfter(b)
  {
    if b == [] { assert a + b == a; }
  }

  lemma NextIncreases(a: seq<Batch>, b: seq<Batch>)
    requires Increasing(a + b)
    ensures NextAfter(a) <= NextAfter(a + b)
  {
    if a != [] && b != [] {
      var ab := a + b;
      assert ab[|a| - 1] == a[|a| - 1] && ab[|ab| - 1] == b[|b| - 1];
      assert ab[|a| - 1].start + ab[|a| - 1].count <= ab[|ab| - 1].start;
    } else if b == [] {
      assert a + b == a;
    }
  }

  // ---- What recovery brings back ----

  /** In a running database the needed logs are the immutable memtable's and the current one. */
  lemma RecoveredIs(s: State)
    requires SyncedOK(s) && LogsOK(s) && s.memory.Up?
    ensures Recovered(s) == (if ImmInLog(s.memory) then s.memory.imm.value else []) + s.disk.logs[s.memory.cur]
  {
    var d, m := s.disk, s.memory;
    if ImmInLog(m) { ReplayTwo(d.logs, d.manifest.logNumber, m.immLog, m.cur, s.bound); }
    else { ReplayOne(d.logs, d.manifest.logNumber, m.cur, s.bound); assert [] + d.logs[m.cur] == d.logs[m.cur]; }
  }

  /** The sequence number recovered from manifest and logs continues the history. */
  lemma RecoveredSequence(s: State)
    requires DiskOK(s)
    ensures NextAfter(s.history) <= Max(s.disk.manifest.nextSeq, NextAfter(Recovered(s)))
  {
    NextOfConcat(s.durable, Recovered(s));
  }

  /**
   A process crash, with nothing cut off, loses nothing; any crash keeps order, invents nothing and keeps every
   promise.
   */
  lemma CrashLosesNothing(s: State, kept: map<nat, nat>, t: State)
    requires DiskOK(s) && PromisesKept(s) && DoesOpen(s, Crash(kept), t)
    ensures SubOf(t.history, s.history)
    ensures forall b :: b in s.promised ==> b in t.history
    ensures (forall l :: l in s.disk.logs ==> kept[l] == |s.disk.logs[l]|) ==> t.history == s.history
  {
    var d := s.disk;
    var logs := Truncated(d.logs, kept);
    TruncatedIsSub(d.logs, kept, d.manifest.logNumber, s.bound);
    SubRefl(s.durable);
    SubAppend(s.durable, s.durable, Replay(logs, d.manifest.logNumber, s.bound), Recovered(s));
    forall b | b in s.promised ensures b in t.history {
      if b !in s.durable {
        var l :| SafeIn(d, l, b);
        assert d.logs[l][..d.synced[l]] <= logs[l];
        ReplayHas(logs, d.manifest.logNumber, s.bound, l, b);
      }
    }
    if forall l :: l in d.logs ==> kept[l] == |d.logs[l]| {
      forall l | l in d.logs ensures logs[l] == d.logs[l] {}
      ReplaySame(logs, d.logs, d.manifest.logNumber, s.bound);
    }
  }

  // ---- Every step keeps the invariant ----

  /** The batches of the memtable, and of the immutable one, end the history. */
  lemma HistoryIs(s: State)
    requires DiskOK(s) && LogsOK(s) && s.memory.Up?
    ensures var m := s.memory;
            s.history == s.durable + (if ImmInLog(m) then m.imm.value else []) + m.mem +
                (if m.applying.Some? then [m.applying.value] else [])
  {
    RecoveredIs(s);
  }

  lemma IncreasingAppend(bs: seq<Batch>, b: Batch)
    requires Increasing(bs) && NextAfter(bs) <= b.start
    ensures Increasing(bs + [b])
  {
    var c := bs + [b];
    forall i, j | 0 <= i < j < |c| ensures c[i].start + c[i].count <= c[j].start {
      if j == |bs| && i < |bs| - 1 {
        assert bs[i].start + bs[i].count <= bs[|bs| - 1].start;
      }
    }
  }

  lemma AppendKeepsInv(s: State, b: Batch, sync: bool, t: State)
    requires Inv(s) && DoesWrite(s, AppendLog(b, sync), t)
    ensures Inv(t)
  {
    var d, m := s.disk, s.memory;
    IncreasingAppend(s.history, b);
    RecoveredIs(s);
    assert LogsOK(t);
    assert SyncedOK(t);
    RecoveredIs(t);
    assert t.disk.logs[m.cur] == d.logs[m.cur] + [b];
    assert t.history == t.durable + Recovered(t);
    assert DiskOK(t);
    PromisesAfterAppend(s, b, sync, t);
    assert forall n: nat :: InLive(t.memory, n) ==> InLive(m, n);
    assert TablesOK(t);
    assert EditOK(t);
  }

  lemma PromisesAfterAppend(s: State, b: Batch, sync: bool, t: State)
    requires SyncedOK(s) && LogsOK(s) && PromisesKept(s) && DoesWrite(s, AppendLog(b, sync), t)
    ensures PromisesKept(t)
  {
    var d, m := s.disk, s.memory;
    forall p | p in t.promised ensures p in t.durable || exists l :: SafeIn(t.disk, l, p) {
      if p in s.promised && p !in s.durable {
        var l :| SafeIn(d, l, p);
        assert d.logs[l][..d.synced[l]] <= t.disk.logs[l][..t.disk.synced[l]];
        assert SafeIn(t.disk, l, p);
      } else if p !in s.promised {
        assert t.disk.logs[m.cur][|d.logs[m.cur]|] == b;
        assert SafeIn(t.disk, m.cur, b);
      }
    }
  }

  lemma ApplyKeepsInv(s: State, t: State)
    requires Inv(s) && DoesWrite(s, ApplyMem, t)
    ensures Inv(t)
  {
    assert forall n: nat :: InLive(t.memory, n) ==> InLive(s.memory, n);
    assert EditOK(t);
    assert LogsOK(t);
    assert DiskOK(t);
    assert forall l, b :: SafeIn(s.disk, l, b) ==> SafeIn(t.disk, l, b);
  }

  lemma SwitchKeepsInv(s: State, t: State)
    requires Inv(s) && DoesWrite(s, SwitchLog, t)
    ensures Inv(t)
  {
    var d, m := s.disk, s.memory;
    RecoveredIs(s);
    assert LogsOK(t);
    assert SyncedOK(t);
    RecoveredIs(t);
    assert DiskOK(t);
    assert forall l, b :: SafeIn(d, l, b) ==> SafeIn(t.disk, l, b);
    assert forall n: nat :: InLive(t.memory, n) ==> InLive(m, n);
    assert TablesOK(t);
    assert EditOK(t);
  }

  /** Writing a table nobody needs yet changes none of the needed ones. */
  lemma HoldUnused(tables: map<nat, set<Batch>>, ns: set<nat>, n: nat, contents: set<Batch>, b: Batch)
    requires n !in ns
    ensures InTables(tables[n := contents], ns, b) <==> InTables(tables, ns, b)
  {
    var after := tables[n := contents];
    if InTables(tables, ns, b) {
      var k :| k in ns && k in tables && b in tables[k];
      assert k in after && b in after[k];
    }
  }

  lemma TableKeepsDisk(s: State, n: nat, contents: set<Batch>, t: State)
    requires DiskOK(s) && PromisesKept(s) && s.disk.manifest.nextFile <= n
    requires t.disk == s.disk.(tables := s.disk.tables[n := contents])
    requires t.durable == s.durable && t.history == s.history && t.promised == s.promised && t.bound == s.bound
    ensures DiskOK(t) && PromisesKept(t)
  {
    forall b
      ensures InTables(t.disk.tables, t.disk.manifest.tables, b) <==> InTables(s.disk.tables, t.disk.manifest.tables, b)
    {
      HoldUnused(s.disk.tables, s.disk.manifest.tables, n, contents, b);
    }
    assert ExactlyOnce(t);
    forall b | b in t.promised ensures b in t.durable || exists l :: SafeIn(t.disk, l, b) {
      if b !in s.durable {
        var l :| SafeIn(s.disk, l, b);
        assert SafeIn(t.disk, l, b);
      }
    }
  }

  lemma BuildKeepsInv(s: State, t: State)
    requires Inv(s) && DoesBackground(s, BuildTable, t)
    ensures Inv(t)
  {
    TableKeepsDisk(s, s.memory.nextFile, (set b | b in s.memory.imm.value), t);
    assert forall n: nat :: InLive(t.memory, n) ==> InLive(s.memory, n);
    assert TablesOK(t);
  }

  lemma OutputKeepsInv(s: State, contents: set<Batch>, t: State)
    requires Inv(s) && DoesBackground(s, AddOutput(contents), t)
    ensures Inv(t)
  {
    TableKeepsDisk(s, s.memory.nextFile, contents, t);
    assert forall n: nat :: InLive(t.memory, n) ==> n == s.memory.nextFile || InLive(s.memory, n);
    assert TablesOK(t);
  }

  /** Steps that change memory only. */
  lemma MemoryKeepsDisk(s: State, t: State)
    requires DiskOK(s) && PromisesKept(s) && t == s.(memory := t.memory)
    ensures DiskOK(t) && PromisesKept(t)
  {
    assert ExactlyOnce(t);
    assert forall l, b :: SafeIn(s.disk, l, b) ==> SafeIn(t.disk, l, b);
  }

  lemma FlushTableHolds(tables: map<nat, set<Batch>>, ns: set<nat>, n: nat, old': seq<Batch>, new': seq<Batch>)
    requires Hold(tables, ns, old') && n in tables && tables[n] == set b | b in new'
    ensures Hold(tables, ns + {n}, old' + new')
  {
    forall b ensures InTables(tables, ns + {n}, b) <==> b in old' + new' {
      if b in old' {
        assert InTables(tables, ns, b);
        var k :| k in ns && k in tables && b in tables[k];
        assert k in ns + {n};
      } else if b in new' {
        assert n in ns + {n} && b in tables[n];
      }
    }
  }

  lemma PrepareFlushKeepsInv(s: State, t: State)
    requires Inv(s) && DoesBackground(s, PrepareFlush, t)
    ensures Inv(t)
  {
    var d, m := s.disk, s.memory;
    MemoryKeepsDisk(s, t);
    assert forall n: nat :: InLive(t.memory, n) ==> InLive(m, n);
    assert TablesOK(t);
    FlushTableHolds(d.tables, m.tables, m.flush.value, s.durable, m.imm.value);
    HistoryIs(s);
    var flushed := s.durable + m.imm.value;
    assert s.history == flushed + (m.mem + (if m.applying.Some? then [m.applying.value] else []));
    PrefixEnds(s, flushed, m.mem);
    assert ManifestOK(t.memory.edit.next, flushed) by {
      forall n: nat | n in t.memory.edit.next.tables ensures n < m.nextFile {
        assert n == m.flush.value || InLive(m, n);
      }
    }
    assert EditOK(t) by {
      forall n: nat | n in t.memory.edit.next.tables ensures n in d.tables {
        assert n == m.flush.value || InLive(m, n);
      }
    }
  }

  /** Whatever was in a memtable ends before the next sequence number. */
  lemma PrefixEnds(s: State, a: seq<Batch>, b: seq<Batch>)
    requires DiskOK(s) && SequenceOK(s) && s.memory.Up?
    requires s.history == a + (b + (if s.memory.applying.Some? then [s.memory.applying.value] else []))
    ensures NextAfter(a) <= s.memory.nextSeq
  {
    var m := s.memory;
    if m.applying.None? {
      NextIncreases(a, b + []);
    } else if a != [] {
      var h := s.history;
      assert h[|a| - 1] == a[|a| - 1];
      assert h[|a| - 1].start + h[|a| - 1].count <= h[|h| - 1].start;
    }
  }

  lemma PrepareCompactionKeepsInv(s: State, t: State)
    requires Inv(s) && DoesBackground(s, PrepareCompaction, t)
    ensures Inv(t)
  {
    var d, m := s.disk, s.memory;
    MemoryKeepsDisk(s, t);
    assert forall n: nat :: InLive(t.memory, n) ==> InLive(m, n);
    assert TablesOK(t);
    CompactionHolds(d.tables, m.tables, m.job.value, s.durable);
    assert s.durable + [] == s.durable;
    forall n: nat | n in t.memory.edit.next.tables ensures n < m.nextFile && n in d.tables { assert InLive(m, n); }
    assert EditOK(t);
  }

  lemma CompactionHolds(tables: map<nat, set<Batch>>, ns: set<nat>, job: Job, bs: seq<Batch>)
    requires Hold(tables, ns, bs) && job.inputs <= ns
    requires forall b :: InTables(tables, job.outputs, b) <==> InTables(tables, job.inputs, b)
    ensures Hold(tables, ns - job.inputs + job.outputs, bs)
  {
    var after := ns - job.inputs + job.outputs;
    forall b ensures InTables(tables, after, b) <==> b in bs {
      if b in bs {
        assert InTables(tables, ns, b);
        var k :| k in ns && k in tables && b in tables[k];
        if k in job.inputs {
          assert InTables(tables, job.inputs, b);
          var o :| o in job.outputs && o in tables && b in tables[o];
          assert o in after;
        } else {
          assert k in after;
        }
      }
      if InTables(tables, after, b) {
        var k :| k in after && k in tables && b in tables[k];
        if k in job.outputs {
          assert InTables(tables, job.outputs, b);
          var i :| i in job.inputs && i in tables && b in tables[i];
          assert i in ns;
        }
        assert InTables(tables, ns, b);
      }
    }
  }

  lemma WriteManifestKeepsInv(s: State, t: State)
    requires Inv(s) && DoesBackground(s, WriteManifest, t)
    ensures Inv(t)
  {
    var d, m := s.disk, s.memory;
    RecoveredIs(s);
    assert LogsOK(t);
    RecoveredIs(t);
    assert t.history == t.durable + Recovered(t);
    assert s.durable + [] == s.durable;
    assert ExactlyOnce(t);
    assert DiskOK(t);
    forall b | b in t.promised ensures b in t.durable || exists l :: SafeIn(t.disk, l, b) {
      if b !in s.durable {
        var l :| SafeIn(d, l, b);
        if l == m.cur || !m.edit.forFlush { assert SafeIn(t.disk, l, b); }
      }
    }
    assert forall n: nat :: InLive(t.memory, n) ==> InLive(m, n);
    assert TablesOK(t);
  }

  lemma InstallKeepsInv(s: State, step: Step, t: State)
    requires Inv(s) && (step.InstallFlush? || step.InstallCompaction?) && DoesBackground(s, step, t)
    ensures Inv(t)
  {
    var d, m := s.disk, s.memory;
    MemoryKeepsDisk(s, t);
    assert forall n: nat :: InLive(t.memory, n) ==> n in m.edit.next.tables || InLive(m, n);
    assert forall n: nat :: n in m.edit.next.tables ==> n in d.tables && n < m.nextFile;
    assert TablesOK(t);
    assert EditOK(t);
    assert LogsOK(t);
  }

  /** Holding, dropping or starting on a version makes no further table needed. */
  lemma ReaderLive(s: State, step: Step, t: State, n: nat)
    requires (step.HoldVersion? || step.DropVersion? || step.StartCompaction?) && DoesBackground(s, step, t)
    requires InLive(t.memory, n)
    ensures InLive(s.memory, n)
  {
    var m := s.memory;
    if !(n in m.pending || n in m.tables) {
      var i :| 0 <= i < |t.memory.live| && n in t.memory.live[i];
      if step.HoldVersion? {
        assert i < |m.live| ==> n in m.live[i];
      } else if step.DropVersion? {
        assert n in m.live[if i < step.index then i else i + 1];
      }
    }
  }

  lemma ReaderKeepsInv(s: State, step: Step, t: State)
    requires Inv(s) && (step.HoldVersion? || step.DropVersion? || step.StartCompaction?) && DoesBackground(s, step, t)
    ensures Inv(t)
  {
    MemoryKeepsDisk(s, t);
    forall n: nat | InLive(t.memory, n) ensures InLive(s.memory, n) { ReaderLive(s, step, t, n); }
    assert TablesOK(t);
  }

  /** Deleting obsolete files removes no log that recovery would replay and no table that anybody needs. */
  lemma DeleteKeepsNeeded(s: State, t: State)
    requires Inv(s) && DoesBackground(s, DeleteObsolete, t)
    ensures forall l :: l in s.disk.logs && s.disk.manifest.logNumber <= l ==>
              l in t.disk.logs && t.disk.logs[l] == s.disk.logs[l]
    ensures forall n: nat :: n in s.disk.manifest.tables || InLive(s.memory, n) ==>
              n in s.disk.tables && n in t.disk.tables && t.disk.tables[n] == s.disk.tables[n]
    ensures Recovered(t) == Recovered(s)
  {
    ReplaySame(s.disk.logs, t.disk.logs, s.disk.manifest.logNumber, s.bound);
    assert forall n: nat :: n in s.disk.manifest.tables ==> InLive(s.memory, n);
  }

  lemma DeleteKeepsInv(s: State, t: State)
    requires Inv(s) && DoesBackground(s, DeleteObsolete, t)
    ensures Inv(t)
  {
    DeleteKeepsNeeded(s, t);
    HoldSame(s.disk.tables, t.disk.tables, s.disk.manifest.tables, s.durable);
    assert ExactlyOnce(t);
    assert DiskOK(t);
    assert forall l, b :: SafeIn(s.disk, l, b) ==> SafeIn(t.disk, l, b);
    assert PromisesKept(t);
    assert forall n: nat :: InLive(t.memory, n) ==> InLive(s.memory, n);
    assert TablesOK(t);
    assert EditOK(t);
    assert LogsOK(t);
  }

  lemma HoldSame(a: map<nat, set<Batch>>, b: map<nat, set<Batch>>, ns: set<nat>, bs: seq<Batch>)
    requires Hold(a, ns, bs) && forall n :: n in ns ==> n in a && n in b && a[n] == b[n]
    ensures Hold(b, ns, bs)
  {
    forall x ensures InTables(b, ns, x) <==> x in bs {
      assert InTables(a, ns, x) <==> x in bs;
      if InTables(a, ns, x) {
        var n :| n in ns && n in a && x in a[n];
        assert n in b && x in b[n];
      }
      if InTables(b, ns, x) {
        var n :| n in ns && n in b && x in b[n];
        assert n in a && x in a[n];
      }
    }
  }

  lemma CrashKeepsInv(s: State, kept: map<nat, nat>, t: State)
    requires Inv(s) && DoesOpen(s, Crash(kept), t)
    ensures Inv(t)
  {
    CrashLosesNothing(s, kept, t);
    SubIncreasing(t.history, s.history);
    assert ExactlyOnce(t);
    assert SyncedOK(t);
    forall b | b in t.promised ensures b in t.durable || exists l :: SafeIn(t.disk, l, b) {
      if b !in s.durable {
        var l :| SafeIn(s.disk, l, b);
        assert s.disk.logs[l][..s.disk.synced[l]] <= t.disk.logs[l][..t.disk.synced[l]];
        assert SafeIn(t.disk, l, b);
      }
    }
  }

  lemma StrayLogKeepsInv(s: State, n: nat, t: State)
    requires Inv(s) && DoesOpen(s, StrayLog(n), t)
    ensures Inv(t)
  {
    NewLogKeepsReplay(s, n, t.bound);
    assert ExactlyOnce(t);
    assert SyncedOK(t);
    assert forall l, b :: SafeIn(s.disk, l, b) ==> SafeIn(t.disk, l, b);
  }

  /** Creating a log under an unused number overwrites nothing that has to be replayed. */
  lemma NewLogKeepsReplay(s: State, n: nat, bound: nat)
    requires SyncedOK(s) && Unused(s.disk, n) && s.disk.manifest.logNumber < s.disk.manifest.nextFile && n < bound
    ensures Replay(s.disk.logs[n := []], s.disk.manifest.logNumber, bound) == Recovered(s)
  {
    var d := s.disk;
    var logs := d.logs[n := []];
    var high := Max(s.bound, bound);
    ReplayBounds(logs, d.manifest.logNumber, high, bound);
    ReplayBounds(d.logs, d.manifest.logNumber, s.bound, high);
    NewEmptyLog(d.logs, d.manifest.logNumber, n, high);
  }

  lemma {:induction false} NewEmptyLog(logs: map<nat, seq<Batch>>, k: nat, n: nat, bound: nat)
    requires n !in logs
    ensures Replay(logs[n := []], k, bound) == Replay(logs, k, bound)
    decreases bound - k
  {
    if k < bound { NewEmptyLog(logs, k + 1, n, bound); }
  }

  lemma RecoverKeepsInv(s: State, n: nat, newTables: map<nat, set<Batch>>, t: State)
    requires Inv(s) && DoesOpen(s, Recover(n, newTables), t)
    ensures Inv(t)
  {
    var d := s.disk;
    RecoveredSequence(s);
    RecoveredTables(d, newTables, s.durable, Recovered(s));
    assert Recovered(t) == [] by { ReplayNothing(t.disk.logs, n, n + 1); }
    assert SyncedOK(t);
    assert s.durable + Recovered(s) + [] == s.durable + Recovered(s);
    assert DiskOK(t);
    assert PromisesKept(t) by {
      forall b | b in t.promised ensures b in t.durable {
        if b !in s.durable {
          var l :| SafeIn(d, l, b);
          ReplayHas(d.logs, d.manifest.logNumber, s.bound, l, b);
        }
      }
    }
    assert LogsOK(t);
    assert forall k: nat :: InLive(t.memory, k) ==> k in t.memory.tables;
  }

  lemma RecoveredTables(d: Disk, newTables: map<nat, set<Batch>>, a: seq<Batch>, b: seq<Batch>)
    requires Hold(d.tables, d.manifest.tables, a) && d.manifest.tables <= d.tables.Keys &&
             Hold(newTables, newTables.Keys, b)
    requires forall k :: k in newTables ==> k !in d.manifest.tables
    ensures Hold(d.tables + newTables, d.manifest.tables + newTables.Keys, a + b)
  {
    var all, ns := d.tables + newTables, d.manifest.tables + newTables.Keys;
    forall x ensures InTables(all, ns, x) <==> x in a + b {
      if InTables(d.tables, d.manifest.tables, x) {
        var k :| k in d.manifest.tables && k in d.tables && x in d.tables[k];
        assert k in ns && k in all && x in all[k];
      }
      if InTables(newTables, newTables.Keys, x) {
        var k :| k in newTables.Keys && k in newTables && x in newTables[k];
        assert k in ns && k in all && x in all[k];
      }
      if InTables(all, ns, x) {
        var k :| k in ns && k in all && x in all[k];
        if k in newTables { assert InTables(newTables, newTables.Keys, x); }
        else { assert InTables(d.tables, d.manifest.tables, x); }
      }
    }
  }

  lemma WriteStepKeepsInv(s: State, step: Step, t: State)
    requires Inv(s) && DoesWrite(s, step, t)
    ensures Inv(t)
  {
    match step
    case AppendLog(b, sync) => AppendKeepsInv(s, b, sync, t);
    case ApplyMem => ApplyKeepsInv(s, t);
    case SwitchLog => SwitchKeepsInv(s, t);
  }

  lemma BackgroundStepKeepsInv(s: State, step: Step, t: State)
    requires Inv(s) && DoesBackground(s, step, t)
    ensures Inv(t)
  {
    match step
    case BuildTable => BuildKeepsInv(s, t);
    case PrepareFlush => PrepareFlushKeepsInv(s, t);
    case AddOutput(contents) => OutputKeepsInv(s, contents, t);
    case PrepareCompaction => PrepareCompactionKeepsInv(s, t);
    case WriteManifest => WriteManifestKeepsInv(s, t);
    case InstallFlush => InstallKeepsInv(s, step, t);
    case InstallCompaction => InstallKeepsInv(s, step, t);
    case DeleteObsolete => DeleteKeepsInv(s, t);
    case _ => ReaderKeepsInv(s, step, t);
  }

  lemma OpenStepKeepsInv(s: State, step: Step, t: State)
    requires Inv(s) && DoesOpen(s, step, t)
    ensures Inv(t)
  {
    match step
    case Crash(kept) => CrashKeepsInv(s, kept, t);
    case StrayLog(n) => StrayLogKeepsInv(s, n, t);
    case StrayTable(n, contents) => TableKeepsDisk(s, n, contents, t);
    case Recover(n, newTables) => RecoverKeepsInv(s, n, newTables, t);
  }

  lemma StepKeepsInv(s: State, step: Step, t: State)
    requires Inv(s) && Does(s, step, t)
    ensures Inv(t)
  {
    if DoesWrite(s, step, t) {
      WriteStepKeepsInv(s, step, t);
    } else if DoesBackground(s, step, t) {
      BackgroundStepKeepsInv(s, step, t);
    } else {
      OpenStepKeepsInv(s, step, t);
    }
  }

  // ---- Replaying the logs ----

  /** The tables of `tables` and the memtable `mem` together hold exactly `bs`. */
  ghost predicate Replayed(tables: map<nat, set<Batch>>, mem: set<Batch>, bs: seq<Batch>) {
    forall b :: InTables(tables, tables.Keys, b) || b in mem <==> b in bs
  }

  lemma TableTakesMem(tables: map<nat, set<Batch>>, mem: set<Batch>, n: nat, bs: seq<Batch>)
    requires Replayed(tables, mem, bs) && n !in tables
    ensures Replayed(tables[n := mem], {}, bs)
  {
    var after := tables[n := mem];
    forall b ensures InTables(after, after.Keys, b) <==> b in bs {
      assert InTables(tables, tables.Keys, b) || b in mem <==> b in bs;
      if b in mem {
        assert n in after.Keys && b in after[n];
      } else if InTables(tables, tables.Keys, b) {
        var k :| k in tables.Keys && k in tables && b in tables[k];
        assert k in after.Keys && b in after[k];
      }
      if InTables(after, after.Keys, b) {
        var k :| k in after.Keys && k in after && b in after[k];
        assert k == n || k in tables.Keys;
      }
    }
  }

  lemma MemTakesBatch(tables: map<nat, set<Batch>>, mem: set<Batch>, bs: seq<Batch>, b: Batch)
    requires Replayed(tables, mem, bs)
    ensures Replayed(tables, mem + {b}, bs + [b])
  {
    forall x ensures InTables(tables, tables.Keys, x) || x in mem + {b} <==> x in bs + [b] {
      assert InTables(tables, tables.Keys, x) || x in mem <==> x in bs;
    }
  }

  /** Table numbers handed out so far, all from `first` up. */
  ghost predicate NumberedFrom(tables: map<nat, set<Batch>>, first: nat, nextFile: nat) {
    first <= nextFile && forall k :: k in tables ==> first <= k < nextFile
  }

  /** RecoverLogFile: read one log into a memtable, writing it out whenever `full` says so and at the end. */
  method RecoverLogFile(log: seq<Batch>, ghost first: nat, ghost done: seq<Batch>, tables: map<nat, set<Batch>>,
                        nextFile: nat, maxNext: nat,
                        full: set<Batch> -> bool)
    returns (tables': map<nat, set<Batch>>, nextFile': nat, maxNext': nat)
    requires Replayed(tables, {}, done) && NumberedFrom(tables, first, nextFile)
    requires Increasing(done + log) && maxNext == NextAfter(done)
    ensures Replayed(tables', {}, done + log) && NumberedFrom(tables', first, nextFile') && nextFile <= nextFile'
    ensures maxNext' == NextAfter(done + log)
  {
    tables', nextFile', maxNext' := tables, nextFile, maxNext;
    var mem: set<Batch> := {};
    var i := 0;
    assert done + log[..0] == done;
    while i < |log|
      invariant 0 <= i <= |log|
      invariant Replayed(tables', mem, done + log[..i]) && NumberedFrom(tables', first, nextFile') &&
                nextFile <= nextFile'
      invariant maxNext' == NextAfter(done + log[..i])
    {
      var batch := log[i];
      MemTakesBatch(tables', mem, done + log[..i], batch);
      assert done + log[..i] + [batch] == done + log[..i + 1];
      NextOfPrefix(done, log, i);
      mem := mem + {batch};
      if batch.start + batch.count > maxNext' { maxNext' := batch.start + batch.count; }
      if full(mem) {
        TableTakesMem(tables', mem, nextFile', done + log[..i + 1]);
        tables', nextFile', mem := tables'[nextFile' := mem], nextFile' + 1, {};
      }
      i := i + 1;
    }
    assert log[..|log|] == log;
    if mem != {} {
      TableTakesMem(tables', mem, nextFile', done + log);
      tables', nextFile' := tables'[nextFile' := mem], nextFile' + 1;
    }
  }

  lemma NextOfPrefix(done: seq<Batch>, log: seq<Batch>, i: nat)
    requires Increasing(done + log) && i < |log|
    ensures NextAfter(done + log[..i]) <= log[i].start && NextAfter(done + log[..i + 1]) == log[i].start + log[i].count
  {
    var all := done + log;
    assert all[|done| + i] == log[i];
    if |done| + i > 0 {
      assert (done + log[..i])[|done| + i - 1] == all[|done| + i - 1];
    }
  }

  lemma {:induction false} ReplaySplit(logs: map<nat, seq<Batch>>, n: nat, k: nat, bound: nat)
    requires n <= k <= bound
    ensures Replay(logs, n, bound) == Replay(logs, n, k) + Replay(logs, k, bound)
    decreases k - n
  {
    if n < k {
      ReplaySplit(logs, n + 1, k, bound);
      var here := if n in logs then logs[n] else [];
      assert here + (Replay(logs, n + 1, k) + Replay(logs, k, bound)) == here + Replay(logs, n + 1, k) +
             Replay(logs, k, bound);
    }
  }

  lemma ReplayNext(logs: map<nat, seq<Batch>>, n: nat, k: nat, bound: nat)
    requires n <= k < bound
    ensures Replay(logs, n, k + 1) == Replay(logs, n, k) + (if k in logs then logs[k] else [])
    ensures Replay(logs, n, bound) == Replay(logs, n, k + 1) + Replay(logs, k + 1, bound)
  {
    ReplaySplit(logs, n, k, k + 1);
    ReplaySplit(logs, n, k + 1, bound);
  }

  /**
   The log loop of DBImpl::Recover, with log numbers marked used after each log. What it returns meets
   the conditions of the Recover step.
   */
  method RecoverLogs(d: Disk, bound: nat, full: set<Batch> -> bool)
    returns (number: nat, newTables: map<nat, set<Batch>>, nextSeq: nat)
    requires forall l :: l in d.logs ==> l < bound
    requires Increasing(Replay(d.logs, d.manifest.logNumber, bound)) && d.manifest.logNumber < d.manifest.nextFile
    ensures Unused(d, number)
    ensures forall k :: k in newTables ==> d.manifest.nextFile <= k < number
    ensures Hold(newTables, newTables.Keys, Replay(d.logs, d.manifest.logNumber, bound))
    ensures nextSeq == Max(d.manifest.nextSeq, NextAfter(Replay(d.logs, d.manifest.logNumber, bound)))
  {
    var first := d.manifest.logNumber;
    var nextFile: nat, maxNext: nat, l: nat := d.manifest.nextFile, 0, first;
    newTables := map[];
    while l < bound
      invariant first <= l && (l <= bound || l == first)
      invariant Replayed(newTables, {}, Replay(d.logs, first, l))
      invariant NumberedFrom(newTables, d.manifest.nextFile, nextFile)
      invariant forall k :: k in d.logs && first <= k < l ==> k < nextFile
      invariant maxNext == NextAfter(Replay(d.logs, first, l))
    {
      ghost var done := Replay(d.logs, first, l);
      ReplayNext(d.logs, first, l, bound);
      if l in d.logs {
        IncreasingPrefix(done + d.logs[l], Replay(d.logs, l + 1, bound));
        newTables, nextFile, maxNext :=
            RecoverLogFile(d.logs[l], d.manifest.nextFile, done, newTables, nextFile, maxNext, full);
        if nextFile <= l { nextFile := l + 1; }
      } else {
        assert done + [] == done;
      }
      l := l + 1;
    }
    assert Replay(d.logs, first, l) == Replay(d.logs, first, bound);
    number, nextSeq := nextFile, Max(d.manifest.nextSeq, maxNext);
  }

  lemma IncreasingPrefix(a: seq<Batch>, b: seq<Batch>)
    requires Increasing(a + b)
    ensures Increasing(a)
  {
    assert forall i :: 0 <= i < |a| ==> (a + b)[i] == a[i];
  }

  // ---- Every run ----

  ghost predicate Run(states: seq<State>, steps: seq<Step>) {
    && |states| == |steps| + 1
    && Initial(states[0])
    && forall i :: 0 <= i < |steps| ==> Does(states[i], steps[i], states[i + 1])
  }

  lemma InitialInv(s: State)
    requires Initial(s)
    ensures Inv(s)
  {
    assert Recovered(s) == [];
  }

  lemma {:induction false} RunInv(states: seq<State>, steps: seq<Step>, k: nat)
    requires Run(states, steps) && k <= |steps|
    ensures Inv(states[k])
  {
    if k == 0 {
      InitialInv(states[0]);
    } else {
      RunInv(states, steps, k - 1);
      StepKeepsInv(states[k - 1], steps[k - 1], states[k]);
    }
  }

  lemma PromisedIsLeft(s: State, b: Batch)
    requires DiskOK(s) && PromisesKept(s) && b in s.promised
    ensures b in s.history
  {
    if b !in s.durable {
      var l :| SafeIn(s.disk, l, b);
      ReplayHas(s.disk.logs, s.disk.manifest.logNumber, s.bound, l, b);
    }
  }

  /** A batch with entries is never both in a table and in a log that would be replayed. */
  lemma NeverTwice(s: State, b: Batch)
    requires DiskOK(s) && b.count > 0 && InTables(s.disk.tables, s.disk.manifest.tables, b)
    ensures b in s.history && b !in Recovered(s)
  {
    assert b in s.durable;
    var i :| 0 <= i < |s.durable| && s.durable[i] == b;
    forall j | 0 <= j < |Recovered(s)| ensures Recovered(s)[j] != b {
      assert s.history[i] == b && s.history[|s.durable| + j] == Recovered(s)[j];
    }
  }

  /**
   At every step boundary of every run, also between the two halves of a manifest update and during
   recovery: each batch not lost to an unsynced crash is in the manifest's tables or, exclusively, in the
   logs that would be replayed; acknowledged sync writes are among them; the recovered sequence number is
   past them all; and all files needed for it exist.
   */
  lemma DurableInEveryRun(states: seq<State>, steps: seq<Step>, k: nat)
    requires Run(states, steps) && k <= |steps|
    ensures var s := states[k];
      && (forall b :: b in s.history <==> InTables(s.disk.tables, s.disk.manifest.tables, b) || b in Recovered(s))
      && (forall b: Batch :: b.count > 0 && InTables(s.disk.tables, s.disk.manifest.tables, b) ==> b !in Recovered(s))
      && (forall b :: b in s.promised ==> b in s.history)
      && Increasing(s.history)
      && NextAfter(s.history) <= Max(s.disk.manifest.nextSeq, NextAfter(Recovered(s)))
      && s.disk.manifest.tables <= s.disk.tables.Keys
      && (s.memory.Up? ==> forall n: nat :: InLive(s.memory, n) ==> n in s.disk.tables)
  {
    RunInv(states, steps, k);
    var s := states[k];
    forall b: Batch | b.count > 0 && InTables(s.disk.tables, s.disk.manifest.tables, b) ensures b !in Recovered(s) {
      NeverTwice(s, b);
    }
    forall b | b in s.promised ensures b in s.history { PromisedIsLeft(s, b); }
    RecoveredSequence(s);
  }

  lemma StepKeepsPromises(s: State, step: Step, t: State)
    requires Does(s, step, t)
    ensures s.promised <= t.promised
    ensures step.AppendLog? && step.sync ==> step.batch in t.promised
  {
  }

  lemma {:induction false} PromisedStays(states: seq<State>, steps: seq<Step>, j: nat, k: nat, b: Batch)
    requires Run(states, steps) && j <= k <= |steps| && b in states[j].promised
    ensures b in states[k].promised
    decreases k
  {
    if j < k {
      PromisedStays(states, steps, j, k - 1, b);
      StepKeepsPromises(states[k - 1], steps[k - 1], states[k]);
    }
  }

  /** Once a sync write is acknowledged, no later crash, recovery or clean-up loses it. */
  lemma SyncedWritesSurvive(states: seq<State>, steps: seq<Step>, j: nat, k: nat, b: Batch)
    requires Run(states, steps) && j < k <= |steps| && steps[j] == AppendLog(b, true)
    ensures b in states[k].history
  {
    assert Does(states[j], steps[j], states[j + 1]);
    PromisedStays(states, steps, j + 1, k, b);
    DurableInEveryRun(states, steps, k);
  }

  /** The step is not a crash that cuts a log short. */
  ghost predicate CutsNothing(s: State, step: Step) {
    step.Crash? ==> forall l :: l in s.disk.logs && l in step.kept ==> step.kept[l] == |s.disk.logs[l]|
  }

  lemma StepLosesNothing(s: State, step: Step, t: State)
    requires DiskOK(s) && PromisesKept(s) && Does(s, step, t) && CutsNothing(s, step)
    ensures s.history <= t.history
  {
    if step.Crash? {
      assert KeepsSynced(s.disk, step.kept);
      CrashLosesNothing(s, step.kept, t);
    }
  }

  lemma RunStepLosesNothing(states: seq<State>, steps: seq<Step>, k: nat)
    requires Run(states, steps) && k < |steps| && CutsNothing(states[k], steps[k])
    ensures states[k].history <= states[k + 1].history
  {
    RunInv(states, steps, k);
    StepLosesNothing(states[k], steps[k], states[k + 1]);
  }

  lemma {:induction false} GrowsAlong(histories: seq<seq<Batch>>, j: nat, k: nat)
    requires j <= k < |histories| && forall i :: j <= i < k ==> histories[i] <= histories[i + 1]
    ensures histories[j] <= histories[k]
    decreases k
  {
    if j < k {
      GrowsAlong(histories, j, k - 1);
      assert histories[k - 1] <= histories[k - 1 + 1];
    }
  }

  /** With process crashes only, where the operating system keeps what was appended, no logged batch is ever lost. */
  lemma NothingLost(states: seq<State>, steps: seq<Step>, j: nat, k: nat)
    requires Run(states, steps) && j <= k <= |steps|
    requires forall i :: j <= i < k ==> CutsNothing(states[i], steps[i])
    ensures states[j].history <= states[k].history
  {
    var histories := seq(|states|, i requires 0 <= i < |states| => states[i].history);
    forall i | j <= i < k ensures histories[i] <= histories[i + 1] {
      RunStepLosesNothing(states, steps, i);
    }
    GrowsAlong(histories, j, k);
  }
}
