/**
 The manifest: a log of version edits that starts with a snapshot of a version.
 LogAndApply appends an edit and installs the version it leads to; Recover
 reads the log back with a single builder.
 */
module Manifests {
  import opened Options
  import opened Coding
  import opened VersionEdits
  import opened FileNumbers
  import B = Builders

  datatype Recovered = Recovered(levels: Levels, logNumber: nat, prevLogNumber: nat, nextFile: nat, lastSequence: nat)

  datatype Counters = Counters(log: Option<nat>, prev: Option<nat>, next: Option<nat>, last: Option<nat>)

  function Later(have: Option<nat>, field: Option<nat>): Option<nat> {
    if field.Some? then field else have
  }

  function Count(c: Counters, e: VersionEdit): Counters {
    Counters(Later(c.log, e.logNumber), Later(c.prev, e.prevLogNumber), Later(c.next, e.nextFile),
             Later(c.last, e.lastSequence))
  }

  /** For each counter the value in the last edit that has it. */
  function Counted(es: seq<VersionEdit>): Counters {
    if es == [] then Counters(None, None, None, None) else Count(Counted(es[..|es| - 1]), es[|es| - 1])
  }

  function Or(o: Option<nat>, otherwise: nat): nat {
    if o.Some? then o.value else otherwise
  }

  function NoLevels(): Levels { seq(LEVELS, _ => []) }

  // ---- Recover ----

  function ReadRecord(name: Bytes, record: Bytes): Result<VersionEdit> {
    var e := Decoded(EMPTY, record);
    if e.Ok? && e.value.comparator.Some? && e.value.comparator.value != name then
      Corruption("does not match existing comparator")
    else e
  }

  /** All records in order, or the first error. */
  function ReadAll(read: Bytes -> Result<VersionEdit>, records: seq<Bytes>): Result<seq<VersionEdit>> {
    if records == [] then Ok([]) else
    var init := ReadAll(read, records[..|records| - 1]);
    if init.Corruption? then init else
    var e := read(records[|records| - 1]);
    if e.Corruption? then Corruption(e.message) else Ok(init.value + [e.value])
  }

  /** What reading the manifest must give: versions built one edit after the other, and the latest counters. */
  ghost predicate Replays(order: FileOrder, es: seq<VersionEdit>, r: Result<Recovered>) {
    var c := Counted(es);
    if c.next.None? then r == Corruption("no meta-nextfile entry in descriptor")
    else if c.log.None? then r == Corruption("no meta-lognumber entry in descriptor")
    else if c.last.None? then r == Corruption("no last-sequence-number entry in descriptor")
    else
      && r.Ok? && |r.value.levels| == LEVELS
      && (forall l :: 0 <= l < LEVELS ==> r.value.levels[l] == B.AllAtOnce(order, [], At(es, l)))
      && r.value.logNumber == c.log.value && r.value.prevLogNumber == Or(c.prev, 0)
      && r.value.nextFile == c.next.value + 1 && r.value.lastSequence == c.last.value
  }

  /** Recovery fails with the first bad record, and otherwise replays all of them. */
  ghost predicate RecoversTo(order: FileOrder, es: Result<seq<VersionEdit>>, r: Result<Recovered>) {
    if es.Corruption? then r == Corruption(es.message) else Replays(order, es.value, r)
  }

  lemma ReadNext(read: Bytes -> Result<VersionEdit>, records: seq<Bytes>, i: nat)
    requires i < |records|
    ensures ReadAll(read, records[..i + 1]) ==
      var init := ReadAll(read, records[..i]);
      if init.Corruption? then init else
      var e := read(records[i]);
      if e.Corruption? then Corruption(e.message) else Ok(init.value + [e.value])
  {
    assert records[..i + 1][..i] == records[..i];
  }

  lemma {:induction false} ReadStops(read: Bytes -> Result<VersionEdit>, records: seq<Bytes>, i: nat)
    requires i <= |records| && ReadAll(read, records[..i]).Corruption?
    ensures ReadAll(read, records) == ReadAll(read, records[..i])
    decreases |records| - i
  {
    if i == |records| {
      assert records[..i] == records;
    } else {
      ReadNext(read, records, i);
      ReadStops(read, records, i + 1);
    }
  }

  lemma AtNext(es: seq<VersionEdit>, e: VersionEdit, order: FileOrder, level: nat)
    ensures At(es + [e], level) == At(es, level) + [B.OnLevel(EditOf(e), level)]
    ensures B.ApplyAll(order, At(es + [e], level)) ==
            B.Applied(order, B.ApplyAll(order, At(es, level)), EditOf(e), level)
  {
    assert At(es + [e], level) == At(es, level) + [B.OnLevel(EditOf(e), level)];
    assert At(es + [e], level)[..|es|] == At(es, level);
  }

  /** The builder has taken in exactly these edits. */
  ghost predicate Holding(order: FileOrder, levels: seq<B.LevelState<FileMeta>>, es: seq<VersionEdit>) {
    |levels| == LEVELS && forall l :: 0 <= l < LEVELS ==> levels[l] == B.ApplyAll(order, At(es, l))
  }

  lemma HoldingNext(order: FileOrder, levels: seq<B.LevelState<FileMeta>>, levels': seq<B.LevelState<FileMeta>>,
                    es: seq<VersionEdit>, e: VersionEdit)
    requires Holding(order, levels, es) && |levels'| == LEVELS
    requires forall l :: 0 <= l < LEVELS ==> levels'[l] == B.Applied(order, levels[l], EditOf(e), l)
    ensures Holding(order, levels', es + [e])
  {
    forall l | 0 <= l < LEVELS ensures levels'[l] == B.ApplyAll(order, At(es + [e], l)) { AtNext(es, e, order, l); }
  }

  lemma CountedNext(es: seq<VersionEdit>, e: VersionEdit)
    ensures Counted(es + [e]) == Count(Counted(es), e)
  {
    assert (es + [e])[..|es|] == es;
  }

  /** Decode one record and give it to the builder, unless it is bad or of another comparator. */
  method ReplayRecord(builder: B.Builder<FileMeta>, name: Bytes, record: Bytes, c: Counters, ghost es: seq<VersionEdit>)
    returns (d: Result<VersionEdit>, c': Counters)
    requires builder.Valid() && Holding(builder.order, builder.levels, es) && c == Counted(es)
    modifies builder
    ensures builder.Valid() && d == ReadRecord(name, record)
    ensures d.Ok? ==> Holding(builder.order, builder.levels, es + [d.value]) && c' == Counted(es + [d.value])
  {
    c' := c;
    d := DecodeFrom(EMPTY, record);
    DecodedLevels(EMPTY, record);
    if d.Corruption? { return; }
    if d.value.comparator.Some? && d.value.comparator.value != name {
      d := Corruption("does not match existing comparator");
      return;
    }
    builder.Apply(EditOf(d.value));
    HoldingNext(builder.order, old(builder.levels), builder.levels, es, d.value);
    CountedNext(es, d.value);
    c' := Count(c, d.value);
  }

  /** Check that the counters were set, and save what the builder holds. */
  method SaveRecovered(builder: B.Builder<FileMeta>, c: Counters, ghost es: seq<VersionEdit>)
      returns (r: Result<Recovered>)
    requires builder.Valid() && builder.base == NoLevels()
    requires Holding(builder.order, builder.levels, es) && c == Counted(es)
    ensures Replays(builder.order, es, r)
  {
    if c.next.None? { return Corruption("no meta-nextfile entry in descriptor"); }
    if c.log.None? { return Corruption("no meta-lognumber entry in descriptor"); }
    if c.last.None? { return Corruption("no last-sequence-number entry in descriptor"); }
    var levels := SaveAll(builder);
    r := Ok(Recovered(levels, c.log.value, Or(c.prev, 0), c.next.value + 1, c.last.value));
  }

  /** VersionSet::Recover: decode record after record into one builder, keep the latest counters, save once. */
  method Recover(order: FileOrder, name: Bytes, records: seq<Bytes>) returns (r: Result<Recovered>)
    ensures RecoversTo(order, ReadAll(Reader(name), records), r)
  {
    var builder := new B.Builder<FileMeta>(order, NoLevels());
    var c := Counters(None, None, None, None);
    ghost var es: seq<VersionEdit> := [];
    ghost var read := Reader(name);
    var i := 0;
    while i < |records|
      invariant 0 <= i <= |records| && builder.Valid() && fresh(builder) && builder.order == order &&
                builder.base == NoLevels()
      invariant ReadAll(read, records[..i]) == Ok(es) && c == Counted(es) && Holding(order, builder.levels, es)
    {
      ReadNext(read, records, i);
      var d;
      d, c := ReplayRecord(builder, name, records[i], c, es);
      if d.Corruption? {
        ReadStops(read, records, i + 1);
        return Corruption(d.message);
      }
      es, i := es + [d.value], i + 1;
    }
    assert records[..i] == records;
    r := SaveRecovered(builder, c, es);
  }

  /** SaveTo: all levels. */
  method SaveAll(builder: B.Builder<FileMeta>) returns (levels: Levels)
    requires builder.Valid()
    ensures |levels| == LEVELS
    ensures forall l :: 0 <= l < LEVELS ==> levels[l] == B.Saved(builder.order, builder.base[l], builder.levels[l])
  {
    levels := [];
    for l := 0 to LEVELS
      invariant |levels| == l
      invariant forall k :: 0 <= k < l ==> levels[k] == B.Saved(builder.order, builder.base[k], builder.levels[k])
    {
      var files := builder.SaveLevel(l);
      levels := levels + [files];
    }
  }

  // ---- Writing the manifest ----

  /** The record of WriteSnapshot: all files of all levels from `level` on. */
  function FilesFrom(v: Levels, level: nat): seq<NewFile>
    decreases |v| - level
  {
    if level >= |v| then []
    else FilesAt(v, level) + FilesFrom(v, level + 1)
  }

  function Snapshot(name: Bytes, pointers: seq<Pointer>, v: Levels): VersionEdit {
    EMPTY.(comparator := Some(name), pointers := pointers, files := FilesFrom(v, 0))
  }

  /** LogAndApply fills in what the edit does not set. */
  function Filled(e: VersionEdit, logNumber: nat, prevLogNumber: nat, nextFile: nat, lastSequence: nat): VersionEdit {
    e.(logNumber := Some(Or(e.logNumber, logNumber)), prevLogNumber := Some(Or(e.prevLogNumber, prevLogNumber)),
       nextFile := Some(nextFile), lastSequence := Some(lastSequence))
  }

  function RecordOf(e: VersionEdit): Bytes { Encoded(Fields(e)) }

  /** A record that a database with this comparator reads back as it was. */
  ghost predicate Readable(name: Bytes, e: VersionEdit) {
    ValidEdit(e) && (e.comparator == None || e.comparator == Some(name))
  }

  ghost function ReadableBy(name: Bytes): VersionEdit -> bool {
    e => Readable(name, e)
  }

  lemma ReadBack(name: Bytes, e: VersionEdit)
    requires Readable(name, e)
    ensures ReadRecord(name, RecordOf(e)) == Ok(e)
  {
    EditRoundTrip(EMPTY, e);
    assert [] + e.pointers == e.pointers;
    assert Cleared(EMPTY) == EMPTY;
  }

  lemma {:induction false} ReadWritten(read: Bytes -> Result<VersionEdit>, records: seq<Bytes>, es: seq<VersionEdit>)
    requires |records| == |es| && forall i :: 0 <= i < |es| ==> read(records[i]) == Ok(es[i])
    ensures ReadAll(read, records) == Ok(es)
  {
    if es != [] {
      ReadWritten(read, records[..|es| - 1], es[..|es| - 1]);
      assert es == es[..|es| - 1] + [es[|es| - 1]];
    }
  }

  /** Reading undoes writing on the records of the kind `ok`. */
  ghost predicate Inverts(read: Bytes -> Result<VersionEdit>, write: VersionEdit -> Bytes, ok: VersionEdit -> bool) {
    forall e :: ok(e) ==> read(write(e)) == Ok(e)
  }

  ghost function Reader(name: Bytes): Bytes -> Result<VersionEdit> {
    r => ReadRecord(name, r)
  }

  /** EncodeTo and DecodeFrom are such a pair. */
  lemma RecordsInvert(name: Bytes)
    ensures Inverts(Reader(name), RecordOf, ReadableBy(name))
  {
    forall e | ReadableBy(name)(e) ensures Reader(name)(RecordOf(e)) == Ok(e) { ReadBack(name, e); }
  }

  /** Reading a manifest gives back the snapshot and the edits written to it. */
  lemma ReadManifest(read: Bytes -> Result<VersionEdit>, write: VersionEdit -> Bytes, ok: VersionEdit -> bool,
                     snapshot: VersionEdit, edits: seq<VersionEdit>, records: seq<Bytes>)
    requires Inverts(read, write, ok) && Written(write, ok, snapshot, edits, records)
    ensures ReadAll(read, records) == Ok([snapshot] + edits)
  {
    var all := [snapshot] + edits;
    forall i | 0 <= i < |all| ensures read(records[i]) == Ok(all[i]) {
      if i > 0 { assert all[i] == edits[i - 1] && edits[i - 1] in edits; }
    }
    ReadWritten(read, records, all);
  }

  function FilesAt(v: Levels, level: nat): seq<NewFile>
    requires level < |v|
  {
    seq(|v[level]|, i requires 0 <= i < |v[level]| => NewFile(level, v[level][i]))
  }

  lemma SnapshotStep(v: Levels, from: nat, level: nat)
    requires level < |v| && from < |v|
    ensures B.AddedAt(EditAdditions(FilesFrom(v, from)), level) ==
            (if from == level then v[from] else []) + B.AddedAt(EditAdditions(FilesFrom(v, from + 1)), level)
  {
    var here, rest := EditAdditions(FilesAt(v, from)), EditAdditions(FilesFrom(v, from + 1));
    assert here == Additions(v[from], from);
    AddedOneLevel(v[from], from, level);
    AddedConcat(here, rest, level);
    AdditionsConcat(FilesAt(v, from), FilesFrom(v, from + 1));
  }

  lemma {:induction false} SnapshotAt(v: Levels, from: nat, level: nat)
    requires level < |v|
    ensures B.AddedAt(EditAdditions(FilesFrom(v, from)), level) == if from <= level then v[level] else []
    decreases |v| - from
  {
    if from < |v| {
      SnapshotAt(v, from + 1, level);
      SnapshotStep(v, from, level);
    }
  }

  lemma AdditionsConcat(a: seq<NewFile>, b: seq<NewFile>)
    ensures EditAdditions(a + b) == EditAdditions(a) + EditAdditions(b)
  {
  }

  function EditAdditions(fs: seq<NewFile>): seq<B.Addition<FileMeta>> {
    seq(|fs|, i requires 0 <= i < |fs| => B.Addition(fs[i].level, fs[i].file))
  }

  lemma {:induction false} AddedConcat(a: seq<B.Addition<FileMeta>>, b: seq<B.Addition<FileMeta>>, level: nat)
    ensures B.AddedAt(a + b, level) == B.AddedAt(a, level) + B.AddedAt(b, level)
  {
    if b == [] {
      assert a + b == a;
    } else {
      AddedConcat(a, b[..|b| - 1], level);
      assert (a + b)[..|a + b| - 1] == a + b[..|b| - 1];
    }
  }

  lemma SnapshotOnLevel(name: Bytes, pointers: seq<Pointer>, v: Levels, level: nat)
    requires level < |v|
    ensures B.OnLevel(EditOf(Snapshot(name, pointers, v)), level) == B.LevelEdit({}, v[level])
  {
    var e := Snapshot(name, pointers, v);
    assert EditOf(e).additions == EditAdditions(FilesFrom(v, 0));
    SnapshotAt(v, 0, level);
    assert B.DeletedAt(EditOf(e).deletions, level) == {};
  }

  ghost predicate SnapshotOf(e: VersionEdit, v: Levels) {
    |v| == LEVELS && forall l :: 0 <= l < LEVELS ==> B.OnLevel(EditOf(e), l) == B.LevelEdit({}, v[l])
  }

  /** Reading a snapshot and later edits rebuilds the version those edits led to. */
  lemma ReplayRebuilds(order: FileOrder, first: VersionEdit, v: Levels, es: seq<VersionEdit>, level: nat)
    requires SnapshotOf(first, v) && GoodVersion(order, v) && NoReuse(order, v, es) && level < LEVELS
    ensures B.AllAtOnce(order, [], At([first] + es, level)) == B.OneByOne(order, v[level], At(es, level))
  {
    assert At([first] + es, level) == [B.LevelEdit({}, v[level])] + At(es, level);
    B.SnapshotReplay(order, v[level], At(es, level));
  }

  /** The descriptor log holds the snapshot and the edits, all of the kind `ok`. */
  ghost predicate Written(write: VersionEdit -> Bytes, ok: VersionEdit -> bool, snapshot: VersionEdit,
                          edits: seq<VersionEdit>, records: seq<Bytes>) {
    (forall e :: e in edits ==> ok(e)) && ok(snapshot) && records == WriteAll(write, [snapshot] + edits)
  }

  function WriteAll(write: VersionEdit -> Bytes, es: seq<VersionEdit>): seq<Bytes> {
    seq(|es|, i requires 0 <= i < |es| => write(es[i]))
  }

  ghost predicate Latest(edits: seq<VersionEdit>, logNumber: nat, prevLogNumber: nat) {
    edits != [] ==>
      var e := edits[|edits| - 1];
      e.logNumber == Some(logNumber) && e.prevLogNumber == Some(prevLogNumber) && e.nextFile.Some? &&
          e.lastSequence.Some?
  }

  /** The counter in the last record is past all tables. */
  ghost predicate CounterWritten(order: FileOrder, origin: Levels, edits: seq<VersionEdit>)
    requires |origin| == LEVELS
  {
    edits != [] && edits[|edits| - 1].nextFile.Some? ==>
      forall l :: 0 <= l < LEVELS ==> Below(JoinedAt(order, origin, edits, l), edits[|edits| - 1].nextFile.value)
  }

  /** What the version set knows of file numbers. */
  ghost predicate NumbersOK(order: FileOrder, origin: Levels, edits: seq<VersionEdit>, current: Levels, next: nat,
                            reserved: set<nat>)
    requires |origin| == |current| == LEVELS
  {
    && OnlyDown(order, origin, edits, current) && HandedOut(order, origin, edits, next, reserved)
    && CounterWritten(order, origin, edits)
  }

  ghost predicate Described(write: VersionEdit -> Bytes, ok: VersionEdit -> bool, name: Bytes, pointers: seq<Pointer>,
                            origin: Levels, first: VersionEdit, edits: seq<VersionEdit>, records: seq<Bytes>) {
    if records == [] then edits == [] && SnapshotFits(ok, name, pointers, origin)
    else Written(write, ok, first, edits, records) && SnapshotOf(first, origin)
  }

  /** The descriptor holds a snapshot of `origin` and `edits`; `current` is what they lead to. */
  ghost predicate Consistent(order: FileOrder, name: Bytes, write: VersionEdit -> Bytes, ok: VersionEdit -> bool,
                             current: Levels, pointers: seq<Pointer>, records: seq<Bytes>, origin: Levels,
                             first: VersionEdit, edits: seq<VersionEdit>, next: nat, reserved: set<nat>)
  {
    && LeadTo(order, origin, edits, current) && NumbersOK(order, origin, edits, current, next, reserved)
    && Described(write, ok, name, pointers, origin, first, edits, records)
  }

  /** The running version set, with the manifest it has written. */
  class VersionSet {
    const order: FileOrder
    const name: Bytes
    const write: VersionEdit -> Bytes      // the record encoder
    ghost const ok: VersionEdit -> bool    // the records it encodes faithfully
    var current: Levels
    var logNumber: nat
    var prevLogNumber: nat
    var nextFile: nat
    var lastSequence: nat
    var pointers: seq<Pointer>     // compaction pointers at the time of the snapshot
    var records: seq<Bytes>        // the descriptor log; empty until the first edit
    ghost var origin: Levels       // version in the snapshot record
    ghost var first: VersionEdit   // the snapshot record
    ghost var edits: seq<VersionEdit>
    ghost var reserved: set<nat>   // numbers handed out and not yet used for an installed table

    ghost predicate Valid() reads this {
      && Consistent(order, name, write, ok, current, pointers, records, origin, first, edits, nextFile, reserved)
      && Latest(edits, logNumber, prevLogNumber)
    }

    /** As after recovery: a version, and no descriptor of its own yet. */
    constructor (order: FileOrder, name: Bytes, write: VersionEdit -> Bytes, ghost ok: VersionEdit -> bool,
                 version: Levels, pointers: seq<Pointer>,
                 logNumber: nat, prevLogNumber: nat, nextFile: nat, lastSequence: nat)
      requires Numbered(order, version, nextFile) && SnapshotFits(ok, name, pointers, version)
      ensures Valid() && this.order == order && this.name == name && this.write == write && this.ok == ok
      ensures current == version && origin == version && edits == [] && records == [] && reserved == {}
      ensures this.nextFile == nextFile
    {
      this.order, this.name, this.write, this.ok, this.current, this.pointers := order, name, write, ok, version,
          pointers;
      this.logNumber, this.prevLogNumber, this.nextFile, this.lastSequence := logNumber, prevLogNumber, nextFile,
          lastSequence;
      records, origin, first, edits, reserved := [], version, EMPTY, [], {};
      new;
      StartsNumbered(order, version, nextFile);
    }

    /** A number for a new file. */
    method NewFileNumber() returns (n: nat)
      requires Valid()
      modifies this`nextFile, this`reserved
      ensures Valid() && n !in old(reserved) && reserved == old(reserved) + {n} && nextFile == old(nextFile) + 1
    {
      n := nextFile;
      nextFile, reserved := nextFile + 1, reserved + {n};
    }

    /** Takes a number back that was handed out last and not used. */
    method ReuseFileNumber(n: nat)
      requires Valid() && n in reserved
      modifies this`nextFile, this`reserved
      ensures Valid() && if old(nextFile) == n + 1 then nextFile == n && reserved == old(reserved) - {n}
                         else nextFile == old(nextFile) && reserved == old(reserved)
    {
      if nextFile == n + 1 {
        NumberReturned(order, origin, edits, current, n, reserved);
        nextFile, reserved := n, reserved - {n};
      }
    }

    /** A number found on disk is not handed out any more. */
    method MarkFileNumberUsed(n: nat)
      requires Valid()
      modifies this`nextFile
      ensures Valid() && nextFile > n && nextFile >= old(nextFile)
    {
      if nextFile <= n { nextFile := n + 1; }
    }

    /** LogAndApply without I/O errors. */
    method LogAndApply(edit: VersionEdit)
      requires Valid()
      requires MayLog(order, ok, current, reserved, Filled(edit, logNumber, prevLogNumber, nextFile, lastSequence))
      modifies this
      ensures Valid() && origin == old(origin) && nextFile == old(nextFile) && lastSequence == old(lastSequence)
      ensures edits == old(edits) + [Filled(edit, old(logNumber), old(prevLogNumber), nextFile, lastSequence)]
      ensures logNumber == Or(edit.logNumber, old(logNumber)) &&
              prevLogNumber == Or(edit.prevLogNumber, old(prevLogNumber))
      ensures reserved == old(reserved) - AddedNumbers(order, edits[|edits| - 1])
    {
      var e := Filled(edit, logNumber, prevLogNumber, nextFile, lastSequence);
      var version, log;
      ghost var snapshot;
      version, log, snapshot := Logged(order, name, write, ok, current, pointers, records, origin, first, edits,
                                       nextFile, reserved, e);
      Install(e, version, log, snapshot);
    }

    method Install(e: VersionEdit, version: Levels, log: seq<Bytes>, ghost snapshot: VersionEdit)
      requires Consistent(order, name, write, ok, version, pointers, log, origin, snapshot, edits + [e], nextFile,
                          reserved - AddedNumbers(order, e))
      requires e.logNumber.Some? && e.prevLogNumber.Some? && e.nextFile.Some? && e.lastSequence.Some?
      modifies this
      ensures Valid() && origin == old(origin) && nextFile == old(nextFile) && lastSequence == old(lastSequence)
      ensures edits == old(edits) + [e] && reserved == old(reserved) - AddedNumbers(order, e)
      ensures current == version && logNumber == e.logNumber.value && prevLogNumber == e.prevLogNumber.value
    {
      records, current, logNumber, prevLogNumber := log, version, e.logNumber.value, e.prevLogNumber.value;
      first, edits, reserved := snapshot, edits + [e], reserved - AddedNumbers(order, e);
    }
  }

  /** An edit of the code: it reads back, its levels exist, and its tables have their own numbers or are moved down. */
  ghost predicate MayLog(order: FileOrder, ok: VersionEdit -> bool, current: Levels, reserved: set<nat>,
                         e: VersionEdit)
    requires |current| == LEVELS
  {
    Sourced(order, current, reserved, e) && ok(e) && LevelsExist(e)
  }

  /** Builds the next version and appends the edit to the descriptor. */
  method Logged(order: FileOrder, name: Bytes, write: VersionEdit -> Bytes, ghost ok: VersionEdit -> bool,
                current: Levels, pointers: seq<Pointer>, records: seq<Bytes>, ghost origin: Levels,
                ghost first: VersionEdit, ghost edits: seq<VersionEdit>, ghost next: nat, ghost reserved: set<nat>,
                e: VersionEdit)
    returns (version: Levels, log: seq<Bytes>, ghost snapshot: VersionEdit)
    requires Consistent(order, name, write, ok, current, pointers, records, origin, first, edits, next, reserved)
    requires MayLog(order, ok, current, reserved, e) && e.nextFile == Some(next)
    ensures Consistent(order, name, write, ok, version, pointers, log, origin, snapshot, edits + [e], next,
                       reserved - AddedNumbers(order, e))
  {
    MayLogIsNoReuse(order, ok, origin, edits, current, next, reserved, e);
    version := BuildNext(order, origin, current, edits, e);
    if records == [] { NothingYet(order, origin, current); }
    log, snapshot := AddRecord(write, ok, name, pointers, current, origin, first, edits, records, e);
    NumbersMore(order, ok, origin, edits, current, next, reserved, e, version);
  }

  lemma MayLogIsNoReuse(order: FileOrder, ok: VersionEdit -> bool, origin: Levels, edits: seq<VersionEdit>,
                        current: Levels, next: nat, reserved: set<nat>, e: VersionEdit)
    requires LeadTo(order, origin, edits, current) && NumbersOK(order, origin, edits, current, next, reserved)
    requires MayLog(order, ok, current, reserved, e)
    ensures NoReuse(order, origin, edits + [e]) && ok(e) && LevelsExist(e)
  {
    SourcedIsNoReuse(order, origin, edits, current, next, reserved, e);
  }

  lemma NothingYet(order: FileOrder, origin: Levels, current: Levels)
    requires LeadTo(order, origin, [], current)
    ensures current == origin
  {
    forall l | 0 <= l < LEVELS ensures current[l] == origin[l] { assert At([], l) == []; }
  }

  lemma NumberReturned(order: FileOrder, origin: Levels, edits: seq<VersionEdit>, current: Levels, n: nat,
                       reserved: set<nat>)
    requires |origin| == |current| == LEVELS && n in reserved
    requires NumbersOK(order, origin, edits, current, n + 1, reserved)
    ensures NumbersOK(order, origin, edits, current, n, reserved - {n})
  {
    forall l | 0 <= l < LEVELS ensures Below(JoinedAt(order, origin, edits, l), n) {
      assert Below(JoinedAt(order, origin, edits, l), n + 1);
    }
  }

  lemma NumbersMore(order: FileOrder, ok: VersionEdit -> bool, origin: Levels, edits: seq<VersionEdit>,
                    current: Levels, next: nat, reserved: set<nat>, e: VersionEdit, current': Levels)
    requires LeadTo(order, origin, edits, current) && LeadTo(order, origin, edits + [e], current')
    requires NumbersOK(order, origin, edits, current, next, reserved) && MayLog(order, ok, current, reserved, e)
    requires e.nextFile == Some(next)
    ensures NumbersOK(order, origin, edits + [e], current', next, reserved - AddedNumbers(order, e))
  {
    SourcedKeepsDown(order, origin, edits, current, next, reserved, e, current');
    SourcedKeepsHandedOut(order, origin, edits, current, next, reserved, e);
  }

  /** Builds the next version with a builder of its own. */
  method BuildNext(order: FileOrder, ghost origin: Levels, current: Levels, ghost edits: seq<VersionEdit>,
                   e: VersionEdit)
    returns (version: Levels)
    requires LeadTo(order, origin, edits, current) && NoReuse(order, origin, edits + [e]) && LevelsExist(e)
    ensures LeadTo(order, origin, edits + [e], version)
  {
    forall l | 0 <= l < LEVELS ensures B.InOrder(order, current[l]) { B.OneByOneIs(order, origin[l], At(edits, l)); }
    var builder := new B.Builder<FileMeta>(order, current);
    builder.Apply(EditOf(e));
    version := SaveAll(builder);
    forall l | 0 <= l < LEVELS ensures version[l] == B.OneByOne(order, origin[l], At(edits + [e], l)) {
      NextVersion(order, origin[l], edits, e, l);
    }
  }

  ghost predicate SnapshotFits(ok: VersionEdit -> bool, name: Bytes, pointers: seq<Pointer>, v: Levels) {
    ok(Snapshot(name, pointers, v))
  }

  /** WriteSnapshot: one record with all files of the version. */
  method WriteSnapshot(ghost write: VersionEdit -> Bytes, ghost ok: VersionEdit -> bool, name: Bytes,
                       pointers: seq<Pointer>, v: Levels)
    returns (snapshot: VersionEdit)
    requires SnapshotFits(ok, name, pointers, v) && |v| == LEVELS
    ensures SnapshotOf(snapshot, v) && Written(write, ok, snapshot, [], [write(snapshot)])
  {
    snapshot := Snapshot(name, pointers, v);
    forall l | 0 <= l < LEVELS ensures B.OnLevel(EditOf(snapshot), l) == B.LevelEdit({}, v[l]) {
      SnapshotOnLevel(name, pointers, v, l);
    }
  }

  /** Appends an edit to the descriptor, after a snapshot if there is none yet. */
  method AddRecord(write: VersionEdit -> Bytes, ghost ok: VersionEdit -> bool, name: Bytes, pointers: seq<Pointer>,
                   current: Levels, ghost origin: Levels, ghost first: VersionEdit, ghost edits: seq<VersionEdit>,
                   records: seq<Bytes>, e: VersionEdit)
    returns (log: seq<Bytes>, ghost snapshot: VersionEdit)
    requires Described(write, ok, name, pointers, origin, first, edits, records) && ok(e) && |origin| == LEVELS
    requires records == [] ==> current == origin
    ensures log != [] && Described(write, ok, name, pointers, origin, snapshot, edits + [e], log)
  {
    log, snapshot := records, first;
    if log == [] {
      var s := WriteSnapshot(write, ok, name, pointers, current);
      log, snapshot := [write(s)], s;
    }
    WrittenMore(write, ok, snapshot, edits, log, e);
    log := log + [write(e)];
  }

  lemma WrittenMore(write: VersionEdit -> Bytes, ok: VersionEdit -> bool, first: VersionEdit, edits: seq<VersionEdit>,
                    records: seq<Bytes>, e: VersionEdit)
    requires Written(write, ok, first, edits, records) && ok(e)
    ensures Written(write, ok, first, edits + [e], records + [write(e)])
  {
    assert [first] + (edits + [e]) == [first] + edits + [e];
  }

  lemma NextVersion(order: FileOrder, base: seq<FileMeta>, es: seq<VersionEdit>, e: VersionEdit, level: nat)
    ensures B.OneByOne(order, base, At(es + [e], level)) ==
            B.Saved(order, B.OneByOne(order, base, At(es, level)),
                    B.Applied(order, B.LevelState({}, []), EditOf(e), level))
  {
    var all := At(es + [e], level);
    assert all == At(es, level) + [B.OnLevel(EditOf(e), level)];
    assert all[..|all| - 1] == At(es, level);
  }

  lemma ReplayGives(order: FileOrder, first: VersionEdit, origin: Levels, edits: seq<VersionEdit>, current: Levels,
                    r: Result<Recovered>)
    requires SnapshotOf(first, origin) && LeadTo(order, origin, edits, current) && edits != []
    requires var e := edits[|edits| - 1];
             e.logNumber.Some? && e.prevLogNumber.Some? && e.nextFile.Some? && e.lastSequence.Some?
    requires Replays(order, [first] + edits, r)
    ensures var e := edits[|edits| - 1];
            r == Ok(Recovered(current, e.logNumber.value, e.prevLogNumber.value, e.nextFile.value + 1,
                              e.lastSequence.value))
  {
    var all := [first] + edits;
    assert all[|all| - 1] == edits[|edits| - 1];
    assert Counted(all) == Count(Counted(all[..|all| - 1]), all[|all| - 1]);
    forall l | 0 <= l < LEVELS ensures r.value.levels[l] == current[l] {
      ReplayRebuilds(order, first, origin, edits, l);
    }
    assert r.value.levels == current;
  }

  /**
   After any number of LogAndApply calls the manifest, read back, gives the current version and the
   counters of the last edit: again a version set can start from them.
   */
  lemma ManifestGivesCurrent(vs: VersionSet, read: Bytes -> Result<VersionEdit>, r: Result<Recovered>)
    requires vs.Valid() && vs.edits != [] && Inverts(read, vs.write, vs.ok)
    requires RecoversTo(vs.order, ReadAll(read, vs.records), r)
    ensures r.Ok? && r.value.levels == vs.current && r.value.logNumber == vs.logNumber &&
            r.value.prevLogNumber == vs.prevLogNumber
    ensures var e := vs.edits[|vs.edits| - 1];
            Some(r.value.nextFile - 1) == e.nextFile && Some(r.value.lastSequence) == e.lastSequence
    ensures Numbered(vs.order, r.value.levels, r.value.nextFile)
  {
    CurrentIsNumbered(vs.order, vs.origin, vs.edits, vs.current, vs.edits[|vs.edits| - 1].nextFile.value + 1);
    ReadManifest(read, vs.write, vs.ok, vs.first, vs.edits, vs.records);
    ReplayGives(vs.order, vs.first, vs.origin, vs.edits, vs.current, r);
  }

  /** With the code's own records: recovery reads back what the version set has. */
  lemma RecoveredIsCurrent(vs: VersionSet, r: Result<Recovered>)
    requires vs.Valid() && vs.edits != [] && vs.write == RecordOf && vs.ok == ReadableBy(vs.name)
    requires RecoversTo(vs.order, ReadAll(Reader(vs.name), vs.records), r)
    ensures r.Ok? && r.value.levels == vs.current && r.value.logNumber == vs.logNumber &&
            r.value.prevLogNumber == vs.prevLogNumber && Numbered(vs.order, r.value.levels, r.value.nextFile)
  {
    RecordsInvert(vs.name);
    ManifestGivesCurrent(vs, Reader(vs.name), r);
  }
}
