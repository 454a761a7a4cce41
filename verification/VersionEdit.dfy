/** Manifest records: a list of tagged fields, written by EncodeTo and read back by DecodeFrom. */
module VersionEdits {
  import opened Options
  import opened Coding

  const LEVELS: nat := 7

  /** Keys are stored as the bytes of an internal key. */
  datatype FileMeta = FileMeta(number: nat, size: nat, smallest: Bytes, largest: Bytes)

  datatype Pointer = Pointer(level: nat, key: Bytes)
  datatype Deleted = Deleted(level: nat, number: nat)
  datatype NewFile = NewFile(level: nat, file: FileMeta)

  /** `deleted` is an ordered set: strictly increasing by level, then number. */
  datatype VersionEdit = VersionEdit(
    comparator: Option<Bytes>,
    logNumber: Option<nat>,
    prevLogNumber: Option<nat>,
    nextFile: Option<nat>,
    lastSequence: Option<nat>,
    pointers: seq<Pointer>,
    deleted: seq<Deleted>,
    files: seq<NewFile>)

  const EMPTY: VersionEdit := VersionEdit(None, None, None, None, None, [], [], [])

  datatype Field =
    | Comparator(name: Bytes)
    | LogNumber(number: nat)
    | PrevLogNumber(number: nat)
    | NextFile(number: nat)
    | LastSequence(number: nat)
    | CompactPointer(pointer: Pointer)
    | DeletedFile(deleted: Deleted)
    | AddedFile(added: NewFile)

  predicate Before(a: Deleted, b: Deleted) {
    a.level < b.level || (a.level == b.level && a.number < b.number)
  }

  ghost predicate Increasing(ds: seq<Deleted>) {
    forall i, j :: 0 <= i < j < |ds| ==> Before(ds[i], ds[j])
  }

  predicate ValidMeta(f: FileMeta) {
    f.number < TWO64 && f.size < TWO64 && |f.smallest| < TWO32 && |f.largest| < TWO32
  }

  predicate ValidField(f: Field) {
    match f
    case Comparator(name) => |name| < TWO32
    case LogNumber(n) => n < TWO64
    case PrevLogNumber(n) => n < TWO64
    case NextFile(n) => n < TWO64
    case LastSequence(n) => n < TWO64
    case CompactPointer(p) => p.level < LEVELS && |p.key| < TWO32
    case DeletedFile(d) => d.level < LEVELS && d.number < TWO64
    case AddedFile(a) => a.level < LEVELS && ValidMeta(a.file)
  }

  ghost predicate ValidFields(fs: seq<Field>) {
    forall i :: 0 <= i < |fs| ==> ValidField(fs[i])
  }

  /** The values fit their machine types. */
  ghost predicate ValidEdit(e: VersionEdit) {
    && Increasing(e.deleted)
    && (e.comparator.Some? ==> |e.comparator.value| < TWO32)
    && Fits(e.logNumber) && Fits(e.prevLogNumber) && Fits(e.nextFile) && Fits(e.lastSequence)
    && (forall i :: 0 <= i < |e.pointers| ==> ValidField(CompactPointer(e.pointers[i])))
    && (forall i :: 0 <= i < |e.deleted| ==> ValidField(DeletedFile(e.deleted[i])))
    && (forall i :: 0 <= i < |e.files| ==> ValidField(AddedFile(e.files[i])))
  }

  predicate Fits(o: Option<nat>) { o.Some? ==> o.value < TWO64 }

  // ---- Writing ----

  function Tag(f: Field): nat {
    match f
    case Comparator(_) => 1
    case LogNumber(_) => 2
    case NextFile(_) => 3
    case LastSequence(_) => 4
    case CompactPointer(_) => 5
    case DeletedFile(_) => 6
    case AddedFile(_) => 7
    case PrevLogNumber(_) => 9
  }

  function MetaBytes(f: FileMeta): Bytes {
    Varint(f.number) + (Varint(f.size) + (LengthPrefixed(f.smallest) + LengthPrefixed(f.largest)))
  }

  function Body(f: Field): Bytes {
    match f
    case Comparator(name) => LengthPrefixed(name)
    case LogNumber(n) => Varint(n)
    case PrevLogNumber(n) => Varint(n)
    case NextFile(n) => Varint(n)
    case LastSequence(n) => Varint(n)
    case CompactPointer(p) => Varint(p.level) + LengthPrefixed(p.key)
    case DeletedFile(d) => Varint(d.level) + Varint(d.number)
    case AddedFile(a) => Varint(a.level) + MetaBytes(a.file)
  }

  function Item(f: Field): Bytes {
    Varint(Tag(f)) + Body(f)
  }

  function Joined(item: Field -> Bytes, fs: seq<Field>): Bytes {
    if fs == [] then [] else Joined(item, fs[..|fs| - 1]) + item(fs[|fs| - 1])
  }

  function Encoded(fs: seq<Field>): Bytes {
    Joined(Item, fs)
  }

  function PointerFields(ps: seq<Pointer>): seq<Field> { seq(|ps|, i requires 0 <= i < |ps| => CompactPointer(ps[i])) }
  function DeletedFields(ds: seq<Deleted>): seq<Field> { seq(|ds|, i requires 0 <= i < |ds| => DeletedFile(ds[i])) }
  function AddedFields(fs: seq<NewFile>): seq<Field> { seq(|fs|, i requires 0 <= i < |fs| => AddedFile(fs[i])) }

  function Present(f: Option<Field>): seq<Field> { if f.Some? then [f.value] else [] }

  function ComparatorField(e: VersionEdit): Option<Field> {
    if e.comparator.Some? then Some(Comparator(e.comparator.value)) else None
  }

  function LogField(e: VersionEdit): Option<Field> {
    if e.logNumber.Some? then Some(LogNumber(e.logNumber.value)) else None
  }

  function PrevLogField(e: VersionEdit): Option<Field> {
    if e.prevLogNumber.Some? then Some(PrevLogNumber(e.prevLogNumber.value)) else None
  }

  function NextField(e: VersionEdit): Option<Field> {
    if e.nextFile.Some? then Some(NextFile(e.nextFile.value)) else None
  }

  function LastField(e: VersionEdit): Option<Field> {
    if e.lastSequence.Some? then Some(LastSequence(e.lastSequence.value)) else None
  }

  function ScalarFields(e: VersionEdit): seq<Field> {
    [] + Present(ComparatorField(e)) + Present(LogField(e)) + Present(PrevLogField(e)) + Present(NextField(e)) +
        Present(LastField(e))
  }

  /** The fields of a record in the order they are written. */
  function Fields(e: VersionEdit): seq<Field> {
    ScalarFields(e) + PointerFields(e.pointers) + DeletedFields(e.deleted) + AddedFields(e.files)
  }

  lemma JoinedAppend(item: Field -> Bytes, fs: seq<Field>, f: Field)
    ensures Joined(item, fs + [f]) == Joined(item, fs) + item(f)
  {
    assert (fs + [f])[..|fs|] == fs;
  }

  method AppendOptional(item: Field -> Bytes, dst: Bytes, ghost fs: seq<Field>, f: Option<Field>) returns (dst': Bytes)
    requires dst == Joined(item, fs)
    ensures dst' == Joined(item, fs + Present(f))
  {
    dst' := dst;
    if f.Some? {
      JoinedAppend(item, fs, f.value);
      dst' := dst + item(f.value);
    } else {
      assert fs + [] == fs;
    }
  }

  method AppendAll(item: Field -> Bytes, dst: Bytes, ghost fs: seq<Field>, more: seq<Field>) returns (dst': Bytes)
    requires dst == Joined(item, fs)
    ensures dst' == Joined(item, fs + more)
  {
    dst' := dst;
    var i := 0;
    assert fs + more[..0] == fs;
    while i < |more|
      invariant 0 <= i <= |more| && dst' == Joined(item, fs + more[..i])
    {
      JoinedAppend(item, fs + more[..i], more[i]);
      assert fs + more[..i] + [more[i]] == fs + more[..i + 1];
      dst' := dst' + item(more[i]);
      i := i + 1;
    }
    assert more[..i] == more;
  }

  method EncodeTo(e: VersionEdit) returns (dst: Bytes)
    ensures dst == Encoded(Fields(e))
  {
    ghost var f1 := [] + Present(ComparatorField(e));
    ghost var f2 := f1 + Present(LogField(e));
    ghost var f3 := f2 + Present(PrevLogField(e));
    ghost var f4 := f3 + Present(NextField(e));
    ghost var f5 := f4 + Present(LastField(e));
    dst := AppendOptional(Item, [], [], ComparatorField(e));
    dst := AppendOptional(Item, dst, f1, LogField(e));
    dst := AppendOptional(Item, dst, f2, PrevLogField(e));
    dst := AppendOptional(Item, dst, f3, NextField(e));
    dst := AppendOptional(Item, dst, f4, LastField(e));
    dst := AppendAll(Item, dst, f5, PointerFields(e.pointers));
    dst := AppendAll(Item, dst, f5 + PointerFields(e.pointers), DeletedFields(e.deleted));
    dst := AppendAll(Item, dst, f5 + PointerFields(e.pointers) + DeletedFields(e.deleted), AddedFields(e.files));
  }

  // ---- Reading ----

  function GetLevel(s: Bytes): (r: Parsed<nat>)
    ensures r.Parsed? ==> |r.rest| < |s|
  {
    var v := GetVarint32(s);
    if v.Parsed? && v.value < LEVELS then v else NotParsed
  }

  function GetMeta(s: Bytes): (r: Parsed<FileMeta>)
    ensures r.Parsed? ==> |r.rest| < |s|
  {
    var number := GetVarint64(s);
    if number.NotParsed? then NotParsed else
    var size := GetVarint64(number.rest);
    if size.NotParsed? then NotParsed else
    var smallest := GetLengthPrefixed(size.rest);
    if smallest.NotParsed? then NotParsed else
    var largest := GetLengthPrefixed(smallest.rest);
    if largest.NotParsed? then NotParsed else
    Parsed(FileMeta(number.value, size.value, smallest.value, largest.value), largest.rest)
  }

  function ReadComparator(s: Bytes): (r: Parsed<Field>)
    ensures r.Parsed? ==> |r.rest| < |s|
  {
    var name := GetLengthPrefixed(s);
    if name.NotParsed? then NotParsed else Parsed(Comparator(name.value), name.rest)
  }

  function NumberField(tag: nat, n: nat): Field {
    if tag == 2 then LogNumber(n)
    else if tag == 9 then PrevLogNumber(n)
    else if tag == 3 then NextFile(n)
    else LastSequence(n)
  }

  function ReadNumber(tag: nat, s: Bytes): (r: Parsed<Field>)
    ensures r.Parsed? ==> |r.rest| < |s|
  {
    var number := GetVarint64(s);
    if number.NotParsed? then NotParsed else Parsed(NumberField(tag, number.value), number.rest)
  }

  function ReadPointer(s: Bytes): (r: Parsed<Field>)
    ensures r.Parsed? ==> |r.rest| < |s|
  {
    var level := GetLevel(s);
    if level.NotParsed? then NotParsed else
    var key := GetLengthPrefixed(level.rest);
    if key.NotParsed? then NotParsed else Parsed(CompactPointer(Pointer(level.value, key.value)), key.rest)
  }

  function ReadDeleted(s: Bytes): (r: Parsed<Field>)
    ensures r.Parsed? ==> |r.rest| < |s|
  {
    var level := GetLevel(s);
    if level.NotParsed? then NotParsed else
    var number := GetVarint64(level.rest);
    if number.NotParsed? then NotParsed else Parsed(DeletedFile(Deleted(level.value, number.value)), number.rest)
  }

  function ReadAdded(s: Bytes): (r: Parsed<Field>)
    ensures r.Parsed? ==> |r.rest| < |s|
  {
    var level := GetLevel(s);
    if level.NotParsed? then NotParsed else
    var meta := GetMeta(level.rest);
    if meta.NotParsed? then NotParsed else Parsed(AddedFile(NewFile(level.value, meta.value)), meta.rest)
  }

  function ReadBody(tag: nat, s: Bytes): (r: Parsed<Field>)
    ensures r.Parsed? ==> |r.rest| < |s|
  {
    if tag == 1 then ReadComparator(s)
    else if tag == 2 || tag == 9 || tag == 3 || tag == 4 then ReadNumber(tag, s)
    else if tag == 5 then ReadPointer(s)
    else if tag == 6 then ReadDeleted(s)
    else if tag == 7 then ReadAdded(s)
    else NotParsed
  }

  function Message(tag: nat): string {
    if tag == 1 then "comparator name"
    else if tag == 2 then "log number"
    else if tag == 9 then "previous log number"
    else if tag == 3 then "next file number"
    else if tag == 4 then "last sequence number"
    else if tag == 5 then "compaction pointer"
    else if tag == 6 then "deleted file"
    else if tag == 7 then "new-file entry"
    else "unknown tag"
  }

  /** Insertion into the ordered set of deleted files. */
  function Insert(ds: seq<Deleted>, d: Deleted): seq<Deleted> {
    if ds == [] || Before(d, ds[0]) then [d] + ds
    else if ds[0] == d then ds
    else [ds[0]] + Insert(ds[1..], d)
  }

  function Take(e: VersionEdit, f: Field): VersionEdit {
    match f
    case Comparator(name) => e.(comparator := Some(name))
    case LogNumber(n) => e.(logNumber := Some(n))
    case PrevLogNumber(n) => e.(prevLogNumber := Some(n))
    case NextFile(n) => e.(nextFile := Some(n))
    case LastSequence(n) => e.(lastSequence := Some(n))
    case CompactPointer(p) => e.(pointers := e.pointers + [p])
    case DeletedFile(d) => e.(deleted := Insert(e.deleted, d))
    case AddedFile(a) => e.(files := e.files + [a])
  }

  /** Clear resets every part but the compaction pointers. */
  function Cleared(e: VersionEdit): VersionEdit {
    EMPTY.(pointers := e.pointers)
  }

  function Decoded(e: VersionEdit, s: Bytes): Result<VersionEdit>
    decreases |s|
  {
    var tag := GetVarint32(s);
    if tag.NotParsed? then
      if s == [] then Ok(e) else Corruption("invalid tag")
    else
      var f := ReadBody(tag.value, tag.rest);
      if f.NotParsed? then Corruption(Message(tag.value)) else Decoded(Take(e, f.value), f.rest)
  }

  method DecodeFrom(self: VersionEdit, src: Bytes) returns (r: Result<VersionEdit>)
    ensures r == Decoded(Cleared(self), src)
  {
    var e, input := Cleared(self), src;
    var tag := GetVarint32(input);
    while tag.Parsed?
      invariant tag == GetVarint32(input)
      invariant Decoded(e, input) == Decoded(Cleared(self), src)
      decreases |input|
    {
      var f := ReadBody(tag.value, tag.rest);
      if f.NotParsed? { return Corruption(Message(tag.value)); }
      e, input := Take(e, f.value), f.rest;
      tag := GetVarint32(input);
    }
    r := if input == [] then Ok(e) else Corruption("invalid tag");
  }

  /** All levels mentioned exist. */
  ghost predicate LevelsExist(e: VersionEdit) {
    && (forall i :: 0 <= i < |e.pointers| ==> e.pointers[i].level < LEVELS)
    && (forall i :: 0 <= i < |e.deleted| ==> e.deleted[i].level < LEVELS)
    && (forall i :: 0 <= i < |e.files| ==> e.files[i].level < LEVELS)
  }

  lemma {:induction false} InsertKeepsLevels(ds: seq<Deleted>, d: Deleted)
    requires d.level < LEVELS && forall i :: 0 <= i < |ds| ==> ds[i].level < LEVELS
    ensures forall i :: 0 <= i < |Insert(ds, d)| ==> Insert(ds, d)[i].level < LEVELS
  {
    if ds != [] { InsertKeepsLevels(ds[1..], d); }
  }

  ghost predicate LevelOK(f: Field) {
    match f
    case CompactPointer(p) => p.level < LEVELS
    case DeletedFile(d) => d.level < LEVELS
    case AddedFile(a) => a.level < LEVELS
    case _ => true
  }

  lemma ReadLevel(tag: nat, s: Bytes)
    ensures ReadBody(tag, s).Parsed? ==> LevelOK(ReadBody(tag, s).value)
  {
  }

  lemma TakeKeepsLevels(e: VersionEdit, f: Field)
    requires LevelsExist(e) && LevelOK(f)
    ensures LevelsExist(Take(e, f))
  {
    if f.DeletedFile? { InsertKeepsLevels(e.deleted, f.deleted); }
  }

  /** Decoding never yields a level that does not exist. */
  lemma {:induction false} DecodedLevels(e: VersionEdit, s: Bytes)
    requires LevelsExist(e)
    ensures Decoded(e, s).Ok? ==> LevelsExist(Decoded(e, s).value)
    decreases |s|
  {
    var tag := GetVarint32(s);
    if tag.Parsed? {
      var f := ReadBody(tag.value, tag.rest);
      if f.Parsed? {
        ReadLevel(tag.value, tag.rest);
        TakeKeepsLevels(e, f.value);
        DecodedLevels(Take(e, f.value), f.rest);
      }
    }
  }

  // ---- Round trip ----

  lemma LevelRoundTrip(level: nat, rest: Bytes)
    requires level < LEVELS
    ensures GetLevel(Varint(level) + rest) == Parsed(level, rest)
  {
    Varint32RoundTrip(level, rest);
  }

  lemma MetaRoundTrip(f: FileMeta, rest: Bytes)
    requires ValidMeta(f)
    ensures GetMeta(MetaBytes(f) + rest) == Parsed(f, rest)
  {
    var d := LengthPrefixed(f.largest) + rest;
    var c := LengthPrefixed(f.smallest) + d;
    var b := Varint(f.size) + c;
    assert MetaBytes(f) + rest == Varint(f.number) + b;
    Varint64RoundTrip(f.number, b);
    Varint64RoundTrip(f.size, c);
    LengthPrefixedRoundTrip(f.smallest, d);
    LengthPrefixedRoundTrip(f.largest, rest);
  }

  lemma PointerRoundTrip(p: Pointer, rest: Bytes)
    requires ValidField(CompactPointer(p))
    ensures ReadPointer(Body(CompactPointer(p)) + rest) == Parsed(CompactPointer(p), rest)
  {
    assert Body(CompactPointer(p)) + rest == Varint(p.level) + (LengthPrefixed(p.key) + rest);
    LevelRoundTrip(p.level, LengthPrefixed(p.key) + rest);
    LengthPrefixedRoundTrip(p.key, rest);
  }

  lemma DeletedRoundTrip(d: Deleted, rest: Bytes)
    requires ValidField(DeletedFile(d))
    ensures ReadDeleted(Body(DeletedFile(d)) + rest) == Parsed(DeletedFile(d), rest)
  {
    assert Body(DeletedFile(d)) + rest == Varint(d.level) + (Varint(d.number) + rest);
    LevelRoundTrip(d.level, Varint(d.number) + rest);
    Varint64RoundTrip(d.number, rest);
  }

  lemma AddedRoundTrip(a: NewFile, rest: Bytes)
    requires ValidField(AddedFile(a))
    ensures ReadAdded(Body(AddedFile(a)) + rest) == Parsed(AddedFile(a), rest)
  {
    var meta := MetaBytes(a.file);
    assert Body(AddedFile(a)) + rest == Varint(a.level) + (meta + rest);
    MetaRoundTrip(a.file, rest);
    LevelRoundTrip(a.level, meta + rest);
  }

  lemma NumberRoundTrip(tag: nat, n: nat, rest: Bytes)
    requires n < TWO64
    ensures ReadNumber(tag, Varint(n) + rest) == Parsed(NumberField(tag, n), rest)
  {
    Varint64RoundTrip(n, rest);
  }

  lemma BodyRoundTrip(f: Field, rest: Bytes)
    requires ValidField(f)
    ensures ReadBody(Tag(f), Body(f) + rest) == Parsed(f, rest)
  {
    match f
    case Comparator(name) => LengthPrefixedRoundTrip(name, rest);
    case LogNumber(n) => NumberRoundTrip(2, n, rest);
    case PrevLogNumber(n) => NumberRoundTrip(9, n, rest);
    case NextFile(n) => NumberRoundTrip(3, n, rest);
    case LastSequence(n) => NumberRoundTrip(4, n, rest);
    case CompactPointer(p) => PointerRoundTrip(p, rest);
    case DeletedFile(d) => DeletedRoundTrip(d, rest);
    case AddedFile(a) => AddedRoundTrip(a, rest);
  }

  function TakeAll(e: VersionEdit, fs: seq<Field>): VersionEdit {
    if fs == [] then e else Take(TakeAll(e, fs[..|fs| - 1]), fs[|fs| - 1])
  }

  /** A tag and what follows it decode to one field, whatever their bytes are. */
  lemma DecodeItem(e: VersionEdit, f: Field, s: Bytes, tag: nat, tail: Bytes, rest: Bytes)
    requires GetVarint32(s) == Parsed(tag, tail) && ReadBody(tag, tail) == Parsed(f, rest)
    ensures Decoded(e, s) == Decoded(Take(e, f), rest)
  {
  }

  lemma ItemSplits(f: Field, rest: Bytes)
    requires ValidField(f)
    ensures GetVarint32(Item(f) + rest) == Parsed(Tag(f), Body(f) + rest)
  {
    assert Item(f) + rest == Varint(Tag(f)) + (Body(f) + rest);
    Varint32RoundTrip(Tag(f), Body(f) + rest);
  }

  lemma DecodeOne(e: VersionEdit, f: Field, rest: Bytes)
    requires ValidField(f)
    ensures Decoded(e, Item(f) + rest) == Decoded(Take(e, f), rest)
  {
    ItemSplits(f, rest);
    BodyRoundTrip(f, rest);
    DecodeItem(e, f, Item(f) + rest, Tag(f), Body(f) + rest, rest);
  }

  lemma {:induction false} DecodeFields(e: VersionEdit, fs: seq<Field>, rest: Bytes)
    requires ValidFields(fs)
    ensures Decoded(e, Encoded(fs) + rest) == Decoded(TakeAll(e, fs), rest)
  {
    if fs == [] {
      assert Encoded(fs) + rest == rest;
    } else {
      var init, f := fs[..|fs| - 1], fs[|fs| - 1];
      var last := Item(f);
      assert Encoded(fs) + rest == Encoded(init) + (last + rest);
      DecodeFields(e, init, last + rest);
      DecodeOne(TakeAll(e, init), f, rest);
    }
  }

  // ---- Fields rebuild the record ----

  lemma {:induction false} TakeConcat(e: VersionEdit, a: seq<Field>, b: seq<Field>)
    ensures TakeAll(e, a + b) == TakeAll(TakeAll(e, a), b)
  {
    if b == [] {
      assert a + b == a;
    } else {
      var init := b[..|b| - 1];
      assert (a + b)[..|a + b| - 1] == a + init;
      TakeConcat(e, a, init);
    }
  }

  lemma {:induction false} InsertLast(ds: seq<Deleted>, d: Deleted)
    requires forall i :: 0 <= i < |ds| ==> Before(ds[i], d)
    ensures Insert(ds, d) == ds + [d]
  {
    if ds != [] { InsertLast(ds[1..], d); }
  }

  lemma {:induction false} TakePointers(e: VersionEdit, ps: seq<Pointer>)
    ensures TakeAll(e, PointerFields(ps)) == e.(pointers := e.pointers + ps)
  {
    if ps == [] {
      assert e.pointers + ps == e.pointers;
    } else {
      var init := ps[..|ps| - 1];
      TakePointers(e, init);
      assert PointerFields(ps)[..|ps| - 1] == PointerFields(init);
      assert e.pointers + init + [ps[|ps| - 1]] == e.pointers + ps;
    }
  }

  lemma {:induction false} TakeDeleted(e: VersionEdit, ds: seq<Deleted>)
    requires Increasing(ds) && e.deleted == []
    ensures TakeAll(e, DeletedFields(ds)) == e.(deleted := ds)
  {
    if ds != [] {
      var init := ds[..|ds| - 1];
      TakeDeleted(e, init);
      assert DeletedFields(ds)[..|ds| - 1] == DeletedFields(init);
      InsertLast(init, ds[|ds| - 1]);
      assert init + [ds[|ds| - 1]] == ds;
    }
  }

  lemma {:induction false} TakeFiles(e: VersionEdit, fs: seq<NewFile>)
    ensures TakeAll(e, AddedFields(fs)) == e.(files := e.files + fs)
  {
    if fs == [] {
      assert e.files + fs == e.files;
    } else {
      var init := fs[..|fs| - 1];
      TakeFiles(e, init);
      assert AddedFields(fs)[..|fs| - 1] == AddedFields(init);
      assert e.files + init + [fs[|fs| - 1]] == e.files + fs;
    }
  }

  lemma TakeOptional(e: VersionEdit, fs: seq<Field>, f: Option<Field>)
    ensures TakeAll(e, fs + Present(f)) == if f.Some? then Take(TakeAll(e, fs), f.value) else TakeAll(e, fs)
  {
    if f.Some? { assert (fs + [f.value])[..|fs|] == fs; } else { assert fs + [] == fs; }
  }

  lemma TakeScalars(self: VersionEdit, e: VersionEdit)
    ensures TakeAll(Cleared(self), ScalarFields(e)) == e.(pointers := self.pointers, deleted := [], files := [])
  {
    var c := Cleared(self);
    var f1 := [] + Present(ComparatorField(e));
    var f2 := f1 + Present(LogField(e));
    var f3 := f2 + Present(PrevLogField(e));
    var f4 := f3 + Present(NextField(e));
    TakeOptional(c, [], ComparatorField(e));
    TakeOptional(c, f1, LogField(e));
    TakeOptional(c, f2, PrevLogField(e));
    TakeOptional(c, f3, NextField(e));
    TakeOptional(c, f4, LastField(e));
  }

  lemma FieldsAreValid(e: VersionEdit)
    requires ValidEdit(e)
    ensures ValidFields(Fields(e))
  {
    var a, b, c, d := ScalarFields(e), PointerFields(e.pointers), DeletedFields(e.deleted), AddedFields(e.files);
    ScalarsAreValid(e);
    ValidConcat(a, b);
    ValidConcat(a + b, c);
    ValidConcat(a + b + c, d);
  }

  lemma ScalarsAreValid(e: VersionEdit)
    requires ValidEdit(e)
    ensures ValidFields(ScalarFields(e))
  {
    var a, b, c, d, f := Present(ComparatorField(e)), Present(LogField(e)), Present(PrevLogField(e)),
        Present(NextField(e)), Present(LastField(e));
    ValidConcat([], a);
    ValidConcat([] + a, b);
    ValidConcat([] + a + b, c);
    ValidConcat([] + a + b + c, d);
    ValidConcat([] + a + b + c + d, f);
  }

  lemma ValidConcat(a: seq<Field>, b: seq<Field>)
    requires ValidFields(a) && ValidFields(b)
    ensures ValidFields(a + b)
  {
  }

  /** Taking all fields of a record into a cleared one rebuilds it behind the receiver's own pointers. */
  lemma FieldsRebuild(self: VersionEdit, e: VersionEdit)
    requires ValidEdit(e)
    ensures TakeAll(Cleared(self), Fields(e)) == e.(pointers := self.pointers + e.pointers)
  {
    var c := Cleared(self);
    var p, d, f := PointerFields(e.pointers), DeletedFields(e.deleted), AddedFields(e.files);
    var s := ScalarFields(e);
    TakeConcat(c, s + p + d, f);
    TakeConcat(c, s + p, d);
    TakeConcat(c, s, p);
    TakeScalars(self, e);
    ListsRebuild(e.(pointers := self.pointers, deleted := [], files := []), e);
  }

  lemma ListsRebuild(e1: VersionEdit, e: VersionEdit)
    requires ValidEdit(e) && e1.deleted == [] && e1.files == []
    ensures TakeAll(TakeAll(TakeAll(e1, PointerFields(e.pointers)), DeletedFields(e.deleted)), AddedFields(e.files)) ==
            e1.(pointers := e1.pointers + e.pointers, deleted := e.deleted, files := e.files)
  {
    TakePointers(e1, e.pointers);
    var e2 := e1.(pointers := e1.pointers + e.pointers);
    TakeDeleted(e2, e.deleted);
    TakeFiles(e2.(deleted := e.deleted), e.files);
    assert [] + e.files == e.files;
  }

  lemma DecodeNothing(e: VersionEdit)
    ensures Decoded(e, []) == Ok(e)
  {
  }

  /**
   Decoding what was encoded restores every part of the record. The receiver's own compaction pointers
   stay in front, because clearing does not remove them.
   */
  lemma EditRoundTrip(self: VersionEdit, e: VersionEdit)
    requires ValidEdit(e)
    ensures Decoded(Cleared(self), Encoded(Fields(e))) == Ok(e.(pointers := self.pointers + e.pointers))
  {
    var fs := Fields(e);
    FieldsAreValid(e);
    DecodeFields(Cleared(self), fs, []);
    assert Encoded(fs) + [] == Encoded(fs);
    FieldsRebuild(self, e);
    DecodeNothing(e.(pointers := self.pointers + e.pointers));
  }

  /** The plain round trip holds exactly for a receiver without compaction pointers of its own. */
  lemma RoundTripIff(self: VersionEdit, e: VersionEdit)
    requires ValidEdit(e)
    ensures Decoded(Cleared(self), Encoded(Fields(e))) == Ok(e) <==> self.pointers == []
  {
    EditRoundTrip(self, e);
    var both := self.pointers + e.pointers;
    assert |both| == |self.pointers| + |e.pointers|;
    if self.pointers == [] { assert both == e.pointers; }
  }

  /** Two well-formed records with the same bytes are the same record. */
  lemma EncodingIsInjective(a: VersionEdit, b: VersionEdit)
    requires ValidEdit(a) && ValidEdit(b) && Encoded(Fields(a)) == Encoded(Fields(b))
    ensures a == b
  {
    RoundTripIff(EMPTY, a);
    RoundTripIff(EMPTY, b);
  }
}
