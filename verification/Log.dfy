/**
 The log format: records cut into fragments that never cross a 32 KB block,
 each with a 7-byte header of checksum, length and type. The reader is
 specified on arbitrary bytes; on what the writer wrote, cut anywhere, it
 returns exactly the whole records and reports nothing.
 */
module LogFormat {
  import opened Options
  import Coding

  const BLOCK: nat := 32768
  const HEADER: nat := 7

  const ZERO: int := 0
  const FULL: int := 1
  const FIRST: int := 2
  const MIDDLE: int := 3
  const LAST: int := 4

  /** A byte of a file; decoding masks to eight bits where the code does. */
  type Byte = int

  type Word = x: int | 0 <= x < 0x1_0000_0000

  /** The stored checksum of a fragment: any function of its type and payload. */
  type Checksum = (int, seq<Byte>) -> Word

  function Length(low: Byte, high: Byte): nat { low % 256 + high % 256 * 256 }

  // ---- Writer. Positions inside a block run from 0 to BLOCK inclusive. ----

  /** Fewer than 7 bytes at the end of a block are filled with zeros and skipped. */
  function Pad(o: nat): nat
    requires o <= BLOCK
  {
    if BLOCK - o < HEADER then BLOCK - o else 0
  }

  /** Offset in its block of the fragment written next. */
  function Start(o: nat): nat
    requires o <= BLOCK
  {
    if BLOCK - o < HEADER then 0 else o
  }

  function Avail(o: nat): nat
    requires o <= BLOCK
  {
    BLOCK - Start(o) - HEADER
  }

  function Zeros(n: nat): (z: seq<Byte>)
    ensures |z| == n
  {
    seq(n, _ => 0)
  }

  function Header(kind: Byte, data: seq<Byte>, sum: Checksum): (h: seq<Byte>)
    requires |data| <= 0xFFFF
    ensures |h| == HEADER
  {
    Coding.Fixed(sum(kind, data), 4) + [|data| % 256, |data| / 256, kind]
  }

  /** One fragment as it appears in the file after offset `o`, block trailer included. */
  function Chunk(o: nat, kind: Byte, data: seq<Byte>, sum: Checksum): (c: seq<Byte>)
    requires o <= BLOCK && |data| <= Avail(o)
    ensures |c| == Pad(o) + HEADER + |data|
  {
    Zeros(Pad(o)) + (Header(kind, data, sum) + data)
  }

  function Kind(begin: bool, end: bool): Byte {
    if begin && end then FULL else if begin then FIRST else if end then LAST else MIDDLE
  }

  function Piece(o: nat, data: seq<Byte>): (n: nat)
    requires o <= BLOCK
    ensures n <= |data| && n <= Avail(o)
  {
    if |data| < Avail(o) then |data| else Avail(o)
  }

  function FirstChunk(o: nat, data: seq<Byte>, begin: bool, sum: Checksum): seq<Byte>
    requires o <= BLOCK
  {
    Chunk(o, Kind(begin, Piece(o, data) == |data|), data[..Piece(o, data)], sum)
  }

  /** Offset in its block just after the first chunk. */
  function After(o: nat, data: seq<Byte>): (e: nat)
    requires o <= BLOCK
    ensures e <= BLOCK
  {
    Start(o) + HEADER + Piece(o, data)
  }

  /** A whole record written at offset `o` of a block. */
  function RecordBytes(o: nat, data: seq<Byte>, begin: bool, sum: Checksum): seq<Byte>
    requires o <= BLOCK
    decreases |data|, if Avail(o) == 0 then 1 else 0
  {
    if Piece(o, data) == |data| then FirstChunk(o, data, begin, sum)
    else FirstChunk(o, data, begin, sum) + RecordBytes(After(o, data), data[Piece(o, data)..], false, sum)
  }

  /** Offset in its block at which a record written at `o` ends. */
  function RecordEnd(o: nat, data: seq<Byte>): (e: nat)
    requires o <= BLOCK
    ensures e <= BLOCK
    decreases |data|, if Avail(o) == 0 then 1 else 0
  {
    if Piece(o, data) == |data| then After(o, data) else RecordEnd(After(o, data), data[Piece(o, data)..])
  }

  /** The file that writing `records` one after the other produces. */
  function LogBytes(o: nat, records: seq<seq<Byte>>, sum: Checksum): seq<Byte>
    requires o <= BLOCK
    decreases |records|
  {
    if records == [] then []
    else RecordBytes(o, records[0], true, sum) + LogBytes(RecordEnd(o, records[0]), records[1..], sum)
  }

  class Writer {
    const sum: Checksum
    var dest: seq<Byte>
    var blockOffset: nat

    constructor (sum: Checksum)
      ensures Valid() && dest == [] && blockOffset == 0 && this.sum == sum
    {
      this.sum := sum;
      dest, blockOffset := [], 0;
    }

    ghost predicate Valid()
      reads this
    {
      blockOffset <= BLOCK
    }

    method EmitPhysicalRecord(kind: Byte, data: seq<Byte>)
      requires Valid() && blockOffset + HEADER + |data| <= BLOCK
      modifies this
      ensures Valid() && dest == old(dest) + (Header(kind, data, sum) + data)
      ensures blockOffset == old(blockOffset) + HEADER + |data|
    {
      dest := dest + (Header(kind, data, sum) + data);
      blockOffset := blockOffset + HEADER + |data|;
    }

    /** One round of the fragmentation loop. */
    method AddFragment(left: seq<Byte>, begin: bool) returns (length: nat)
      requires Valid()
      modifies this
      ensures Valid() && length == Piece(old(blockOffset), left) && blockOffset == After(old(blockOffset), left)
      ensures dest == old(dest) + FirstChunk(old(blockOffset), left, begin, sum)
    {
      var leftover := BLOCK - blockOffset;
      if leftover < HEADER {
        if leftover > 0 {
          dest := dest + Zeros(leftover);
        }
        blockOffset := 0;
      }
      assert dest == old(dest) + Zeros(Pad(old(blockOffset)));
      var avail := BLOCK - blockOffset - HEADER;
      length := if |left| < avail then |left| else avail;
      EmitPhysicalRecord(Kind(begin, length == |left|), left[..length]);
    }

    method AddRecord(slice: seq<Byte>)
      requires Valid()
      modifies this
      ensures Valid() && dest == old(dest) + RecordBytes(old(blockOffset), slice, true, sum)
      ensures blockOffset == RecordEnd(old(blockOffset), slice)
    {
      var left := slice;
      var begin := true;
      while true
        invariant Valid()
        invariant dest + RecordBytes(blockOffset, left, begin, sum) ==
                  old(dest) + RecordBytes(old(blockOffset), slice, true, sum)
        invariant RecordEnd(blockOffset, left) == RecordEnd(old(blockOffset), slice)
        decreases |left|, if Avail(blockOffset) == 0 then 1 else 0
      {
        ghost var d, o := dest, blockOffset;
        var length := AddFragment(left, begin);
        if length == |left| {
          return;
        }
        ghost var c, rest := FirstChunk(o, left, begin, sum), RecordBytes(After(o, left), left[length..], false, sum);
        assert (d + c) + rest == d + (c + rest);
        left, begin := left[length..], false;
      }
    }
  }

  lemma LogFrom(o: nat, records: seq<seq<Byte>>, i: nat, sum: Checksum)
    requires o <= BLOCK && i < |records|
    ensures LogBytes(o, records[i..], sum) ==
            RecordBytes(o, records[i], true, sum) + LogBytes(RecordEnd(o, records[i]), records[i + 1..], sum)
  {
    assert records[i..][1..] == records[i + 1..];
  }

  /** What has been written and what is still to be written make up the goal. */
  ghost predicate Towards(dest: seq<Byte>, rest: seq<Byte>, goal: seq<Byte>) {
    dest + rest == goal
  }

  lemma OneFurther(dest: seq<Byte>, more: seq<Byte>, rest: seq<Byte>, goal: seq<Byte>)
    requires Towards(dest, more + rest, goal)
    ensures Towards(dest + more, rest, goal)
  {
    assert (dest + more) + rest == dest + (more + rest);
  }

  /** Adding records one after the other makes the log of them all. */
  method WriteLog(w: Writer, records: seq<seq<Byte>>)
    requires w.Valid()
    modifies w
    ensures w.Valid() && w.dest == old(w.dest) + LogBytes(old(w.blockOffset), records, w.sum)
  {
    ghost var goal := w.dest + LogBytes(w.blockOffset, records, w.sum);
    assert records[0..] == records;
    for i := 0 to |records|
      invariant w.Valid() && Towards(w.dest, LogBytes(w.blockOffset, records[i..], w.sum), goal)
    {
      LogFrom(w.blockOffset, records, i, w.sum);
      OneFurther(w.dest, RecordBytes(w.blockOffset, records[i], true, w.sum),
                 LogBytes(RecordEnd(w.blockOffset, records[i]), records[i + 1..], w.sum), goal);
      w.AddRecord(records[i]);
    }
  }

  // ---- Reader, on arbitrary bytes. A position is a block number and an offset in it. ----

  datatype Physical =
    | Fragment(kind: Byte, data: seq<Byte>, block: nat, offset: nat)
    | Eof
    | Bad(reported: bool, block: nat, offset: nat)

  function BufEnd(file: seq<Byte>, b: nat): nat {
    if (b + 1) * BLOCK <= |file| then (b + 1) * BLOCK else |file|
  }

  /** Offset of the end of the data in block `b`. */
  function Filled(file: seq<Byte>, b: nat): nat
    requires b * BLOCK <= |file|
  {
    BufEnd(file, b) - b * BLOCK
  }

  datatype Parse = TooLong | Preallocated | Mismatch | Good(kind: Byte, data: seq<Byte>)

  /** Decode the header at the front of a buffer and check the fragment behind it. */
  function ParseBuffer(buffer: seq<Byte>, sum: Checksum): (r: Parse)
    requires |buffer| >= HEADER
    ensures r.Good? ==> HEADER + |r.data| <= |buffer|
  {
    var length := Length(buffer[4], buffer[5]);
    var kind := buffer[6];
    if HEADER + length > |buffer| then TooLong
    else if kind == ZERO && length == 0 then Preallocated
    else
      var data := buffer[HEADER..HEADER + length];
      if Coding.GetFixed(buffer[..4], 4) != sum(kind, data) then Mismatch else Good(kind, data)
  }

  /** The fragment at offset `o` of block `b`, where a whole header is present. */
  function ParseAt(file: seq<Byte>, b: nat, o: nat, sum: Checksum): Physical
    requires b * BLOCK + o + HEADER <= BufEnd(file, b)
  {
    match ParseBuffer(file[b * BLOCK + o..BufEnd(file, b)], sum)
    case TooLong => if BufEnd(file, b) == (b + 1) * BLOCK then Bad(true, b, BLOCK) else Eof
    case Preallocated => Bad(false, b, Filled(file, b))
    case Mismatch => Bad(true, b, Filled(file, b))
    case Good(kind, data) => Fragment(kind, data, b, o + HEADER + |data|)
  }

  predicate InFile(file: seq<Byte>, b: nat, o: nat) {
    o <= BLOCK && b * BLOCK + o <= |file|
  }

  /** What the reader finds next; after a bad fragment the rest of its block is dropped. */
  function ReadPhysical(file: seq<Byte>, b: nat, o: nat, sum: Checksum): (r: Physical)
    requires InFile(file, b, o)
    ensures r.Fragment? ==> InFile(file, r.block, r.offset) && b * BLOCK + o < r.block * BLOCK + r.offset
    ensures r.Bad? ==> InFile(file, r.block, r.offset) && b * BLOCK + o < r.block * BLOCK + r.offset
  {
    if b * BLOCK + o + HEADER <= BufEnd(file, b) then ParseAt(file, b, o, sum)
    else if (b + 1) * BLOCK <= |file| &&
        (b + 1) * BLOCK + HEADER <= BufEnd(file, b + 1) then ParseAt(file, b + 1, 0, sum)
    else Eof
  }

  /** What the physical layer hands on: a fragment, or notice of bytes it dropped. */
  datatype Item = Frag(kind: Byte, data: seq<Byte>) | Dropped(reported: bool)

  function ToItem(r: Physical): Item
    requires !r.Eof?
  {
    if r.Bad? then Dropped(r.reported) else Frag(r.kind, r.data)
  }

  /** The physical layer: what it finds at each position. */
  type Source = (nat, nat) -> Physical

  function FileSource(file: seq<Byte>, sum: Checksum): Source {
    (b: nat, o: nat) => if InFile(file, b, o) then ReadPhysical(file, b, o, sum) else Eof
  }

  /** Everything a source delivers from a position on, until it ends or stops advancing. */
  function Stream(read: Source, limit: nat, b: nat, o: nat): seq<Item>
    decreases limit - (b * BLOCK + o)
  {
    var r := read(b, o);
    if r.Eof? then []
    else if b * BLOCK + o < r.block * BLOCK + r.offset <= limit then [ToItem(r)] + Stream(read, limit, r.block,
        r.offset)
    else [ToItem(r)]
  }

  /** The records a reader returns, and how many corruptions it reports. */
  datatype Outcome = Outcome(records: seq<seq<Byte>>, reports: nat)

  function Reported(n: nat, r: Outcome): Outcome {
    r.(reports := r.reports + n)
  }

  function Cons(record: seq<Byte>, r: Outcome): Outcome {
    r.(records := [record] + r.records)
  }

  /** Joining fragments into records; `scratch` holds the fragments of a record begun. */
  function Join(ps: seq<Item>, scratch: Option<seq<Byte>>): Outcome {
    if ps == [] then Outcome([], 0)
    else
      var broken := if scratch.Some? && scratch.value != [] then 1 else 0;
      match ps[0]
      case Dropped(reported) =>
        Reported((if reported then 1 else 0) + (if scratch.Some? then 1 else 0), Join(ps[1..], None))
      case Frag(kind, data) =>
        if kind == FULL then Reported(broken, Cons(data, Join(ps[1..], None)))
        else if kind == FIRST then Reported(broken, Join(ps[1..], Some(data)))
        else if kind == MIDDLE then
          (if scratch.Some? then Join(ps[1..], Some(scratch.value + data)) else Reported(1, Join(ps[1..], None)))
        else if kind == LAST then
          (if scratch.Some? then Cons(scratch.value + data, Join(ps[1..], None)) else Reported(1, Join(ps[1..], None)))
        else Reported(1, Join(ps[1..], None))
  }

  /** Everything a reader returns for a file. */
  function ReadAll(file: seq<Byte>, sum: Checksum): Outcome {
    Join(Stream(FileSource(file, sum), |file|, 0, 0), None)
  }

  /** A block's last few bytes cannot hold a header: reading goes on at the next block. */
  lemma SkipTrailer(file: seq<Byte>, b: nat, o: nat, sum: Checksum)
    requires InFile(file, b, o) && (b + 1) * BLOCK <= |file| && BLOCK - o < HEADER
    ensures ReadPhysical(file, b, o, sum) == ReadPhysical(file, b + 1, 0, sum)
  {
  }

  /** At the end of the file no header is left. */
  lemma NothingLeft(file: seq<Byte>, b: nat, o: nat, sum: Checksum)
    requires InFile(file, b, o) && |file| < (b + 1) * BLOCK && |file| < b * BLOCK + o + HEADER
    ensures ReadPhysical(file, b, o, sum) == Eof
  {
  }

  lemma HeaderPresent(file: seq<Byte>, b: nat, o: nat, sum: Checksum)
    requires InFile(file, b, o) && b * BLOCK + o + HEADER <= BufEnd(file, b)
    ensures ReadPhysical(file, b, o, sum) == ParseAt(file, b, o, sum)
  {
  }

  class Reader {
    const file: seq<Byte>
    const sum: Checksum
    var filePos: nat          // bytes read from the file so far
    var buffer: seq<Byte>     // the unread part of the current block
    var eof: bool             // the last read returned less than a block
    var reports: nat
    var block: nat            // position of the first unread byte (the code keeps the end of the buffer)
    var offset: nat

    constructor (file: seq<Byte>, sum: Checksum)
      ensures Valid() && block == 0 && offset == 0 && reports == 0 && this.file == file && this.sum == sum
    {
      this.file := file;
      this.sum := sum;
      filePos, buffer, eof, reports := 0, [], false, 0;
      block, offset := 0, 0;
    }

    ghost predicate Valid()
      reads this
    {
      && |buffer| <= filePos <= |file| && buffer == file[filePos - |buffer|..filePos]
      && InFile(file, block, offset) && filePos - |buffer| == block * BLOCK + offset
      && (Loaded() || (block == 0 && filePos == 0 && !eof))
    }

    /** The buffer reaches to the end of the current block, or to the end of the file inside it. */
    ghost predicate Loaded()
      reads this
    {
      filePos == BufEnd(file, block) && (eof <==> filePos < (block + 1) * BLOCK)
    }

    /** Read the next block when what is left of this one cannot hold a header. */
    method Refill()
      requires Valid() && |buffer| < HEADER && !eof
      modifies this
      ensures Valid() && reports == old(reports) && (eof || |buffer| == BLOCK)
      ensures ReadPhysical(file, block, offset, sum) == ReadPhysical(file, old(block), old(offset), sum)
    {
      var next := if filePos == 0 then 0 else block + 1;
      if next != block { SkipTrailer(file, block, offset, sum); }
      Load(next);
    }

    /** Read block `next`, at whose start the file position is. */
    method Load(next: nat)
      requires Valid() && |buffer| < HEADER && !eof && next == (if filePos == 0 then 0 else block + 1)
      modifies this
      ensures Valid() && reports == old(reports) && (eof || |buffer| == BLOCK) && block == next && offset == 0
    {
      assert filePos == next * BLOCK && offset <= BLOCK;
      var n := if filePos + BLOCK <= |file| then BLOCK else |file| - filePos;
      block, offset := next, 0;
      buffer := file[filePos..filePos + n];
      filePos := filePos + n;
      if n < BLOCK {
        eof := true;
      }
    }

    /** Reader::ReadPhysicalRecord with a zero initial offset. */
    method ReadPhysicalRecord() returns (r: Physical)
      requires Valid()
      modifies this
      ensures Valid() && r == ReadPhysical(file, old(block), old(offset), sum)
      ensures r.Fragment? ==> block == r.block && offset == r.offset && reports == old(reports)
      ensures r.Bad? ==> block == r.block && offset == r.offset && reports == old(reports) + if r.reported then 1 else 0
      ensures r.Eof? ==> reports == old(reports)
    {
      if |buffer| < HEADER && !eof {
        Refill();
      }
      r := ReadBuffered();
    }

    /** With a header in the buffer, or nothing more to read. */
    method ReadBuffered() returns (r: Physical)
      requires Valid() && (|buffer| >= HEADER || eof)
      modifies this
      ensures Valid() && r == ReadPhysical(file, old(block), old(offset), sum)
      ensures r.Fragment? ==> block == r.block && offset == r.offset && reports == old(reports)
      ensures r.Bad? ==> block == r.block && offset == r.offset && reports == old(reports) + if r.reported then 1 else 0
      ensures r.Eof? ==> reports == old(reports)
    {
      if |buffer| >= HEADER {
        HeaderPresent(file, block, offset, sum);
        r := TakeFragment();
      } else {
        NothingLeft(file, block, offset, sum);
        offset := offset + |buffer|;
        buffer := [];
        r := Eof;
      }
    }

    /** Consume `n` bytes of the buffer. */
    method RemovePrefix(n: nat)
      requires Valid() && 0 < n <= |buffer|
      modifies this
      ensures Valid() && block == old(block) && offset == old(offset) + n && filePos == old(filePos)
      ensures eof == old(eof) && reports == old(reports)
    {
      assert buffer[n..] == file[filePos - (|buffer| - n)..filePos];
      buffer := buffer[n..];
      offset := offset + n;
    }

    method TakeFragment() returns (r: Physical)
      requires Valid() && |buffer| >= HEADER
      modifies this
      ensures Valid() && r == ParseAt(file, old(block), old(offset), sum)
      ensures r.Fragment? ==> block == r.block && offset == r.offset && reports == old(reports)
      ensures r.Bad? ==> block == r.block && offset == r.offset && reports == old(reports) + if r.reported then 1 else 0
      ensures r.Eof? ==> reports == old(reports)
    {
      var parse := ParseBuffer(buffer, sum);
      ghost var at := ParseAt(file, block, offset, sum);
      assert buffer == file[block * BLOCK + offset..BufEnd(file, block)];
      if parse.Good? {
        RemovePrefix(HEADER + |parse.data|);
        return Fragment(parse.kind, parse.data, block, offset);
      }
      RemovePrefix(|buffer|);
      if parse.TooLong? && eof {
        return Eof;
      }
      r := Bad(!parse.Preallocated?, block, offset);
      if r.reported {
        reports := reports + 1;
      }
    }

    /** What the physical layer will still deliver. */
    ghost function Rest(): seq<Item>
      reads this
      requires Valid()
    {
      Stream(FileSource(file, sum), |file|, block, offset)
    }

    method NextPhysical() returns (r: Physical)
      requires Valid()
      modifies this
      ensures Valid() && reports == old(reports) + if r.Bad? && r.reported then 1 else 0
      ensures r.Eof? ==> old(Rest()) == []
      ensures !r.Eof? ==> old(Rest()) == [ToItem(r)] + Rest() && block * BLOCK + offset > old(block * BLOCK + offset)
    {
      r := ReadPhysicalRecord();
    }

    /** One round of ReadRecord's loop: `more` asks for another. */
    method ReadFragment(scratch: Option<seq<Byte>>)
        returns (more: bool, record: Option<seq<Byte>>, next: Option<seq<Byte>>)
      requires Valid()
      modifies this
      ensures Valid() && reports >= old(reports)
      ensures more || record.Some? ==> block * BLOCK + offset > old(block * BLOCK + offset)
      ensures Join(old(Rest()), scratch) ==
              Reported(reports - old(reports),
                       if more then Join(Rest(), next)
                       else if record.Some? then Cons(record.value, Join(Rest(), None))
                       else Outcome([], 0))
    {
      var r := NextPhysical();
      if r.Eof? {
        return false, None, None;
      }
      var done, n;
      done, n, record, next := JoinStep(ToItem(r), scratch, Rest());
      reports := reports + n;
      more := !done;
    }

    /** Reader::ReadRecord: join fragments until a record is complete. */
    method ReadRecord() returns (record: Option<seq<Byte>>)
      requires Valid()
      modifies this
      ensures Valid() && reports >= old(reports)
      ensures record.Some? ==> block * BLOCK + offset > old(block * BLOCK + offset)
      ensures Join(old(Rest()), None) ==
              Reported(reports - old(reports),
                       if record.Some? then Cons(record.value, Join(Rest(), None)) else Outcome([], 0))
    {
      var scratch: Option<seq<Byte>>, more := None, true;   // scratch is Some inside a fragmented record
      record := None;
      while more
        invariant Valid() && reports >= old(reports)
        invariant more ==> block * BLOCK + offset >= old(block * BLOCK + offset)
        invariant record.Some? ==> block * BLOCK + offset > old(block * BLOCK + offset)
        invariant Join(old(Rest()), None) ==
                  Reported(reports - old(reports),
                           if more then Join(Rest(), scratch)
                           else if record.Some? then Cons(record.value, Join(Rest(), None))
                           else Outcome([], 0))
        decreases more, |file| - (block * BLOCK + offset)
      {
        more, record, scratch := ReadFragment(scratch);
      }
    }
  }

  /** Reading records until there is none gives everything the log holds, with the corruptions reported. */
  method ReadLog(r: Reader) returns (records: seq<seq<Byte>>)
    requires r.Valid() && r.block == 0 && r.offset == 0 && r.reports == 0
    modifies r
    ensures Outcome(records, r.reports) == ReadAll(r.file, r.sum)
  {
    records := [];
    var more := true;
    while more
      invariant r.Valid()
      invariant ReadAll(r.file, r.sum) ==
                Prepended(records, Reported(r.reports, if more then Join(r.Rest(), None) else Outcome([], 0)))
      decreases more, |r.file| - (r.block * BLOCK + r.offset)
    {
      ghost var before, n := r.Rest(), r.reports;
      var record := r.ReadRecord();
      ghost var rest := Join(r.Rest(), None);
      if record.Some? {
        PrependOne(records, record.value, r.reports, rest);
        records := records + [record.value];
      } else {
        more := false;
      }
    }
  }

  function Prepended(records: seq<seq<Byte>>, r: Outcome): Outcome {
    r.(records := records + r.records)
  }

  lemma PrependOne(records: seq<seq<Byte>>, record: seq<Byte>, n: nat, r: Outcome)
    ensures Prepended(records, Reported(n, Cons(record, r))) == Prepended(records + [record], Reported(n, r))
  {
    assert records + ([record] + r.records) == (records + [record]) + r.records;
  }

  /** The switch on the fragment type; `n` reports besides the one of the physical layer. */
  method JoinStep(r: Item, scratch: Option<seq<Byte>>, ghost rest: seq<Item>)
    returns (done: bool, n: nat, record: Option<seq<Byte>>, next: Option<seq<Byte>>)
    ensures done ==> record.Some? && next.None?
    ensures Join([r] + rest, scratch) ==
            Reported((if r.Dropped? && r.reported then 1 else 0) + n,
                     if done then Cons(record.value, Join(rest, None)) else Join(rest, next))
  {
    assert ([r] + rest)[1..] == rest;
    done, n, record, next := false, 0, None, None;
    var broken := if scratch.Some? && scratch.value != [] then 1 else 0;
    match r {
      case Dropped(_) =>
        n := if scratch.Some? then 1 else 0;
      case Frag(kind, data) =>
        if kind == FULL {
          done, n, record := true, broken, Some(data);
        } else if kind == FIRST {
          n, next := broken, Some(data);
        } else if kind == MIDDLE {
          if scratch.None? { n := 1; } else { next := Some(scratch.value + data); }
        } else if kind == LAST {
          if scratch.None? { n := 1; } else { done, record := true, Some(scratch.value + data); }
        } else {
          n := 1;
        }
    }
  }

  // ---- Round trip with crash prefix ----

  ghost predicate Holds(full: seq<Byte>, p: nat, bs: seq<Byte>) {
    p + |bs| <= |full| && full[p..p + |bs|] == bs
  }

  lemma HoldsParts(full: seq<Byte>, p: nat, a: seq<Byte>, b: seq<Byte>)
    requires Holds(full, p, a + b)
    ensures Holds(full, p, a) && Holds(full, p + |a|, b)
  {
    assert full[p..p + |a|] == full[p..p + |a + b|][..|a|];
    assert full[p + |a|..p + |a| + |b|] == full[p..p + |a + b|][|a|..];
  }

  /** Block that holds the fragment written after offset `o` of block `b`. */
  function NextBlock(b: nat, o: nat): nat {
    if BLOCK - o < HEADER then b + 1 else b
  }

  /** A written fragment at the front of a buffer parses, or the buffer ends too soon. */
  lemma ParseWritten(buffer: seq<Byte>, kind: Byte, data: seq<Byte>, sum: Checksum)
    requires |buffer| >= HEADER && FULL <= kind <= LAST && |data| <= 0xFFFF
    requires buffer[..HEADER] == Header(kind, data, sum)
    requires HEADER + |data| <= |buffer| ==> buffer[HEADER..HEADER + |data|] == data
    ensures ParseBuffer(buffer, sum) == if HEADER + |data| <= |buffer| then Good(kind, data) else TooLong
  {
    HeaderFields(kind, data, sum);
    var h := buffer[..HEADER];
    assert buffer[4] == h[4] && buffer[5] == h[5] && buffer[6] == h[6];
    assert buffer[..4] == h[..4];
  }

  lemma HeaderFields(kind: Byte, data: seq<Byte>, sum: Checksum)
    requires |data| <= 0xFFFF
    ensures var h := Header(kind, data, sum);
            Length(h[4], h[5]) == |data| && h[6] == kind && Coding.GetFixed(h[..4], 4) == sum(kind, data)
  {
    var h := Header(kind, data, sum);
    assert h[..4] == Coding.Fixed(sum(kind, data), 4);
    assert h[..4] + [] == h[..4];
    Coding.Power256Four();
    Coding.FixedRoundTrip(sum(kind, data), 4, []);
  }

  lemma ParseWrittenAt(full: seq<Byte>, file: seq<Byte>, b: nat, o: nat, kind: Byte, data: seq<Byte>, sum: Checksum)
    requires file <= full && o + HEADER + |data| <= BLOCK && FULL <= kind <= LAST
    requires Holds(full, b * BLOCK + o, Header(kind, data, sum) + data)
    requires b * BLOCK + o + HEADER <= BufEnd(file, b)
    ensures ParseAt(file, b, o, sum) ==
            if b * BLOCK + o + HEADER + |data| <= |file| then Fragment(kind, data, b, o + HEADER + |data|) else Eof
  {
    var s, e := b * BLOCK + o, BufEnd(file, b);
    var buffer := file[s..e];
    HoldsParts(full, s, Header(kind, data, sum), data);
    assert buffer[..HEADER] == full[s..s + HEADER];
    if HEADER + |data| <= |buffer| { assert buffer[HEADER..HEADER + |data|] == full[s + HEADER..s + HEADER + |data|]; }
    ParseWritten(buffer, kind, data, sum);
  }

  /** A fragment that was written is read back, or the cut file ends first. */
  lemma PhysicalRoundTrip(full: seq<Byte>, file: seq<Byte>, b: nat, o: nat, kind: Byte, data: seq<Byte>, sum: Checksum)
    requires file <= full && InFile(file, b, o) && |data| <= Avail(o) && FULL <= kind <= LAST
    requires Holds(full, b * BLOCK + o, Chunk(o, kind, data, sum))
    ensures ReadPhysical(file, b, o, sum) ==
            if b * BLOCK + o + |Chunk(o, kind, data, sum)| <= |file|
            then Fragment(kind, data, NextBlock(b, o), Start(o) + HEADER + |data|) else Eof
  {
    HoldsParts(full, b * BLOCK + o, Zeros(Pad(o)), Header(kind, data, sum) + data);
    if BLOCK - o < HEADER {
      if (b + 1) * BLOCK + HEADER <= |file| { ParseWrittenAt(full, file, b + 1, 0, kind, data, sum); }
    } else {
      if b * BLOCK + o + HEADER <= |file| { ParseWrittenAt(full, file, b, o, kind, data, sum); }
    }
  }

  // The writer's output as a list of fragments.

  predicate Fits(o: nat, fs: seq<Item>)
    requires o <= BLOCK
    decreases |fs|
  {
    fs == [] || (fs[0].Frag? && FULL <= fs[0].kind <= LAST && |fs[0].data| <= Avail(o) &&
                 Fits(Start(o) + HEADER + |fs[0].data|, fs[1..]))
  }

  function Bytes(o: nat, fs: seq<Item>, sum: Checksum): seq<Byte>
    requires o <= BLOCK && Fits(o, fs)
    decreases |fs|
  {
    if fs == [] then []
    else Chunk(o, fs[0].kind, fs[0].data, sum) + Bytes(Start(o) + HEADER + |fs[0].data|, fs[1..], sum)
  }

  /** How many of the fragments lie wholly within the first `n` bytes. */
  function Within(o: nat, fs: seq<Item>, n: nat): (c: nat)
    requires o <= BLOCK && Fits(o, fs)
    ensures c <= |fs|
    decreases |fs|
  {
    if fs == [] then 0
    else
      var size := Pad(o) + HEADER + |fs[0].data|;
      if size > n then 0 else 1 + Within(Start(o) + HEADER + |fs[0].data|, fs[1..], n - size)
  }

  ghost predicate WrittenAt(full: seq<Byte>, limit: nat, b: nat, o: nat, kind: Byte, data: seq<Byte>, sum: Checksum) {
    && o <= BLOCK && b * BLOCK + o <= limit && FULL <= kind <= LAST && |data| <= Avail(o)
    && Holds(full, b * BLOCK + o, Chunk(o, kind, data, sum))
  }

  /** What must be read at a written fragment: the fragment, or the end when the cut comes first. */
  function Expected(limit: nat, b: nat, o: nat, kind: Byte, data: seq<Byte>): Physical
    requires o <= BLOCK
  {
    if b * BLOCK + o + Pad(o) + HEADER + |data| <= limit then Fragment(kind, data, NextBlock(b, o),
                                                                       Start(o) + HEADER + |data|) else Eof
  }

  ghost predicate AtEnd(limit: nat, b: nat, o: nat) { o <= BLOCK && b * BLOCK + o == limit }

  /** A source that delivers written fragments, and ends where the file ends. */
  ghost predicate DeliversWritten(read: Source, full: seq<Byte>, limit: nat, sum: Checksum) {
    && (forall b: nat, o: nat, kind, data :: WrittenAt(full, limit, b, o, kind, data, sum) ==>
        read(b, o) == Expected(limit, b, o, kind, data))
    && (forall b: nat, o: nat :: AtEnd(limit, b, o) ==> read(b, o).Eof?)
  }

  /** The file cut at any byte is such a source. */
  lemma FileDeliversWritten(full: seq<Byte>, file: seq<Byte>, sum: Checksum)
    requires file <= full
    ensures DeliversWritten(FileSource(file, sum), full, |file|, sum)
  {
    var read := FileSource(file, sum);
    forall b: nat, o: nat, kind, data | WrittenAt(full, |file|, b, o, kind, data, sum)
      ensures read(b, o) == Expected(|file|, b, o, kind, data)
    {
      PhysicalRoundTrip(full, file, b, o, kind, data, sum);
    }
  }

  /** The fragments written after `o` that lie wholly within the next `n` bytes. */
  function Cut(o: nat, fs: seq<Item>, n: nat): seq<Item>
    requires o <= BLOCK && Fits(o, fs)
  {
    fs[..Within(o, fs, n)]
  }

  lemma CutCons(o: nat, f: Item, rest: seq<Item>, n: nat)
    requires o <= BLOCK && Fits(o, [f] + rest)
    ensures Fits(Start(o) + HEADER + |f.data|, rest)
    ensures var size := Pad(o) + HEADER + |f.data|;
            Cut(o, [f] + rest, n) == if size > n then [] else [f] + Cut(Start(o) + HEADER + |f.data|, rest, n - size)
  {
    assert ([f] + rest)[1..] == rest;
    var size, q := Pad(o) + HEADER + |f.data|, Start(o) + HEADER + |f.data|;
    if size <= n {
      var m := Within(q, rest, n - size);
      assert ([f] + rest)[..m + 1] == [f] + rest[..m];
    }
  }

  lemma BytesCons(o: nat, f: Item, rest: seq<Item>, sum: Checksum)
    requires o <= BLOCK && f.Frag? && FULL <= f.kind <= LAST && |f.data| <= Avail(o) &&
             Fits(Start(o) + HEADER + |f.data|, rest)
    ensures Fits(o, [f] + rest)
    ensures Bytes(o, [f] + rest, sum) == Chunk(o, f.kind, f.data, sum) + Bytes(Start(o) + HEADER + |f.data|, rest, sum)
  {
    assert ([f] + rest)[1..] == rest;
  }

  /** A source that delivers written fragments streams exactly those that lie wholly inside the cut. */
  lemma {:induction false} StreamRoundTrip(read: Source, full: seq<Byte>, limit: nat, b: nat, o: nat, fs: seq<Item>,
                                           sum: Checksum)
    requires DeliversWritten(read, full, limit, sum)
    requires o <= BLOCK && b * BLOCK + o <= limit <= |full| && Fits(o, fs)
    requires Holds(full, b * BLOCK + o, Bytes(o, fs, sum)) && |full| == b * BLOCK + o + |Bytes(o, fs, sum)|
    ensures Stream(read, limit, b, o) == Cut(o, fs, limit - (b * BLOCK + o))
    decreases |fs|
  {
    if fs == [] {
      assert AtEnd(limit, b, o);
    } else {
      var f, rest := fs[0], fs[1..];
      assert fs == [f] + rest;
      var b', q, size := SplitFirst(full, limit, b, o, f, rest, sum);
      if b * BLOCK + o + size <= limit {
        StreamRoundTrip(read, full, limit, b', q, rest, sum);
      }
      StreamFirst(read, limit, b, o, f, b', q, size);
    }
  }

  lemma StreamFirst(read: Source, limit: nat, b: nat, o: nat, f: Item, b': nat, q: nat, size: nat)
    requires f.Frag? && size > 0 && b' * BLOCK + q == b * BLOCK + o + size
    requires read(b, o) == if b * BLOCK + o + size <= limit then Fragment(f.kind, f.data, b', q) else Eof
    ensures Stream(read, limit, b, o) == if b * BLOCK + o + size <= limit then [f] + Stream(read, limit, b', q) else []
  {
  }

  /** The positions after the first fragment. */
  lemma AfterFirst(b: nat, o: nat, data: seq<Byte>)
    requires o <= BLOCK && |data| <= Avail(o)
    ensures var q, size := Start(o) + HEADER + |data|, Pad(o) + HEADER + |data|;
            q <= BLOCK && NextBlock(b, o) * BLOCK + q == b * BLOCK + o + size
  {
  }

  lemma SplitBytes(full: seq<Byte>, at: nat, o: nat, f: Item, rest: seq<Item>, q: nat, sum: Checksum)
    requires o <= BLOCK && Fits(o, [f] + rest) && q == Start(o) + HEADER + |f.data|
    requires Holds(full, at, Bytes(o, [f] + rest, sum)) && |full| == at + |Bytes(o, [f] + rest, sum)|
    ensures Fits(q, rest) && FULL <= f.kind <= LAST && |f.data| <= Avail(o)
    ensures Holds(full, at, Chunk(o, f.kind, f.data, sum))
    ensures var size := Pad(o) + HEADER + |f.data|;
            Holds(full, at + size, Bytes(q, rest, sum)) && |full| == at + size + |Bytes(q, rest, sum)|
  {
    assert ([f] + rest)[1..] == rest;
    BytesCons(o, f, rest, sum);
    HoldsParts(full, at, Chunk(o, f.kind, f.data, sum), Bytes(q, rest, sum));
  }

  /** Splitting off the first fragment: its size, where the bytes behind it start, and what they are. */
  lemma SplitFirst(full: seq<Byte>, limit: nat, b: nat, o: nat, f: Item, rest: seq<Item>, sum: Checksum)
    returns (b': nat, q: nat, size: nat)
    requires o <= BLOCK && b * BLOCK + o <= limit <= |full| && Fits(o, [f] + rest)
    requires Holds(full, b * BLOCK + o, Bytes(o, [f] + rest, sum)) &&
             |full| == b * BLOCK + o + |Bytes(o, [f] + rest, sum)|
    ensures f.Frag? && WrittenAt(full, limit, b, o, f.kind, f.data, sum)
    ensures Expected(limit, b, o, f.kind, f.data) ==
            if b * BLOCK + o + size <= limit then Fragment(f.kind, f.data, b', q) else Eof
    ensures size > 0 && q <= BLOCK && b' * BLOCK + q == b * BLOCK + o + size
    ensures Fits(q, rest) && Holds(full, b' * BLOCK + q, Bytes(q, rest, sum)) &&
            |full| == b' * BLOCK + q + |Bytes(q, rest, sum)|
    ensures Cut(o, [f] + rest, limit - (b * BLOCK + o)) ==
            if b * BLOCK + o + size <= limit then [f] + Cut(q, rest, limit - (b * BLOCK + o) - size) else []
  {
    b', q, size := NextBlock(b, o), Start(o) + HEADER + |f.data|, Pad(o) + HEADER + |f.data|;
    SplitBytes(full, b * BLOCK + o, o, f, rest, q, sum);
    AfterFirst(b, o, f.data);
    CutCons(o, f, rest, limit - (b * BLOCK + o));
  }

  // A record's fragments, and what joining them gives.

  function Frags(o: nat, data: seq<Byte>, begin: bool): (fs: seq<Item>)
    requires o <= BLOCK
    ensures fs != []
    decreases |data|, if Avail(o) == 0 then 1 else 0
  {
    var n := Piece(o, data);
    if n == |data| then [Frag(Kind(begin, true), data)]
    else [Frag(Kind(begin, false), data[..n])] + Frags(After(o, data), data[n..], false)
  }

  function LogFrags(o: nat, records: seq<seq<Byte>>): seq<Item>
    requires o <= BLOCK
    decreases |records|
  {
    if records == [] then [] else Frags(o, records[0], true) + LogFrags(RecordEnd(o, records[0]), records[1..])
  }

  lemma {:induction false} FragsAreBytes(o: nat, data: seq<Byte>, begin: bool, rest: seq<Item>, sum: Checksum)
    requires o <= BLOCK && Fits(RecordEnd(o, data), rest)
    ensures Fits(o, Frags(o, data, begin) + rest)
    ensures Bytes(o, Frags(o, data, begin) + rest, sum) == RecordBytes(o, data, begin, sum) +
            Bytes(RecordEnd(o, data), rest, sum)
    decreases |data|, if Avail(o) == 0 then 1 else 0
  {
    var n := Piece(o, data);
    if n == |data| {
      assert data[..n] == data;
      BytesCons(o, Frag(Kind(begin, true), data), rest, sum);
    } else {
      var f, more := Frag(Kind(begin, false), data[..n]), Frags(After(o, data), data[n..], false);
      FragsAreBytes(After(o, data), data[n..], false, rest, sum);
      BytesCons(o, f, more + rest, sum);
      Assoc([f], more, rest);
      Assoc(FirstChunk(o, data, begin, sum), RecordBytes(After(o, data), data[n..], false, sum),
            Bytes(RecordEnd(o, data), rest, sum));
    }
  }

  lemma Assoc<T>(a: seq<T>, b: seq<T>, c: seq<T>)
    ensures a + b + c == a + (b + c)
  {
  }

  lemma {:induction false} LogFragsAreBytes(o: nat, records: seq<seq<Byte>>, sum: Checksum)
    requires o <= BLOCK
    ensures Fits(o, LogFrags(o, records)) && Bytes(o, LogFrags(o, records), sum) == LogBytes(o, records, sum)
    decreases |records|
  {
    if records != [] {
      LogFragsAreBytes(RecordEnd(o, records[0]), records[1..], sum);
      FragsAreBytes(o, records[0], true, LogFrags(RecordEnd(o, records[0]), records[1..]), sum);
    }
  }

  function Begun(scratch: Option<seq<Byte>>): seq<Byte> {
    if scratch.Some? then scratch.value else []
  }

  lemma JoinLast(data: seq<Byte>, scratch: Option<seq<Byte>>, rest: seq<Item>)
    ensures Join([Frag(Kind(scratch.None?, true), data)] + rest, scratch) ==
            Cons(Begun(scratch) + data, Join(rest, None))
  {
    assert ([Frag(Kind(scratch.None?, true), data)] + rest)[1..] == rest;
    assert [] + data == data;
  }

  lemma JoinMore(data: seq<Byte>, scratch: Option<seq<Byte>>, rest: seq<Item>)
    ensures Join([Frag(Kind(scratch.None?, false), data)] + rest, scratch) == Join(rest, Some(Begun(scratch) + data))
  {
    assert ([Frag(Kind(scratch.None?, false), data)] + rest)[1..] == rest;
    assert [] + data == data;
  }

  /** All fragments of a record join to the record. */
  lemma {:induction false} JoinFrags(o: nat, data: seq<Byte>, scratch: Option<seq<Byte>>, rest: seq<Item>)
    requires o <= BLOCK
    ensures Join(Frags(o, data, scratch.None?) + rest, scratch) == Cons(Begun(scratch) + data, Join(rest, None))
    decreases |data|, if Avail(o) == 0 then 1 else 0
  {
    var n := Piece(o, data);
    if n == |data| {
      JoinLast(data, scratch, rest);
    } else {
      var more, tail := Some(Begun(scratch) + data[..n]), Frags(After(o, data), data[n..], false);
      JoinFrags(After(o, data), data[n..], more, rest);
      JoinMore(data[..n], scratch, tail + rest);
      Assoc([Frag(Kind(scratch.None?, false), data[..n])], tail, rest);
      Assoc(Begun(scratch), data[..n], data[n..]);
      assert data[..n] + data[n..] == data;
    }
  }

  /** Some but not all of them, at the end of the data, join to nothing and report nothing. */
  lemma {:induction false} JoinSomeFrags(o: nat, data: seq<Byte>, scratch: Option<seq<Byte>>, m: nat)
    requires o <= BLOCK && m < |Frags(o, data, scratch.None?)|
    ensures Join(Frags(o, data, scratch.None?)[..m], scratch) == Outcome([], 0)
    decreases |data|, if Avail(o) == 0 then 1 else 0
  {
    if m > 0 {
      var n := Piece(o, data);
      var f, tail := Frag(Kind(scratch.None?, false), data[..n]), Frags(After(o, data), data[n..], false);
      JoinSomeFrags(After(o, data), data[n..], Some(Begun(scratch) + data[..n]), m - 1);
      JoinMore(data[..n], scratch, tail[..m - 1]);
      assert ([f] + tail)[..m] == [f] + tail[..m - 1];
    }
  }

  /** Bytes a record takes when written at offset `o`. */
  function RecordSize(o: nat, data: seq<Byte>): nat
    requires o <= BLOCK
    decreases |data|, if Avail(o) == 0 then 1 else 0
  {
    Pad(o) + HEADER + Piece(o, data) + if Piece(o, data) ==
        |data| then 0 else RecordSize(After(o, data), data[Piece(o, data)..])
  }

  lemma {:induction false} RecordBytesSize(o: nat, data: seq<Byte>, begin: bool, sum: Checksum)
    requires o <= BLOCK
    ensures |RecordBytes(o, data, begin, sum)| == RecordSize(o, data)
    decreases |data|, if Avail(o) == 0 then 1 else 0
  {
    if Piece(o, data) != |data| { RecordBytesSize(After(o, data), data[Piece(o, data)..], false, sum); }
  }

  /** The first of several fragments, and what is behind it. */
  lemma CutFirst(o: nat, data: seq<Byte>, begin: bool, rest: seq<Item>, n: nat)
    requires o <= BLOCK && Piece(o, data) < |data| && Fits(o, Frags(o, data, begin) + rest)
    requires Pad(o) + HEADER + Piece(o, data) <= n
    ensures var k := Piece(o, data); var tail := Frags(After(o, data), data[k..], false) + rest;
            && Fits(After(o, data), tail)
            && Cut(o, Frags(o, data, begin) + rest, n) ==
               [Frag(Kind(begin, false), data[..k])] + Cut(After(o, data), tail, n - (Pad(o) + HEADER + k))
  {
    var k := Piece(o, data);
    var f, tail := Frag(Kind(begin, false), data[..k]), Frags(After(o, data), data[k..], false);
    Assoc([f], tail, rest);
    CutCons(o, f, tail + rest, n);
  }

  /** A cut behind the first record keeps all its fragments. */
  lemma {:induction false} CutBehind(o: nat, data: seq<Byte>, begin: bool, rest: seq<Item>, n: nat)
    requires o <= BLOCK && Fits(RecordEnd(o, data), rest) && Fits(o, Frags(o, data, begin) + rest)
    requires RecordSize(o, data) <= n
    ensures Cut(o, Frags(o, data, begin) + rest, n) == Frags(o, data, begin) + Cut(RecordEnd(o, data), rest,
            n - RecordSize(o, data))
    decreases |data|, if Avail(o) == 0 then 1 else 0
  {
    var k := Piece(o, data);
    if k == |data| {
      CutCons(o, Frag(Kind(begin, true), data), rest, n);
    } else {
      CutFirst(o, data, begin, rest, n);
      CutBehind(After(o, data), data[k..], false, rest, n - (Pad(o) + HEADER + k));
      Assoc([Frag(Kind(begin, false), data[..k])], Frags(After(o, data), data[k..], false),
            Cut(RecordEnd(o, data), rest, n - RecordSize(o, data)));
    }
  }

  lemma {:induction false} CutInside(o: nat, data: seq<Byte>, begin: bool, rest: seq<Item>, n: nat) returns (m: nat)
    requires o <= BLOCK && Fits(o, Frags(o, data, begin) + rest)
    requires RecordSize(o, data) > n
    ensures m < |Frags(o, data, begin)| && Cut(o, Frags(o, data, begin) + rest, n) == Frags(o, data, begin)[..m]
    decreases |data|, if Avail(o) == 0 then 1 else 0
  {
    m := 0;
    var k := Piece(o, data);
    if k == |data| {
      CutCons(o, Frag(Kind(begin, true), data), rest, n);
    } else {
      var f, tail := Frag(Kind(begin, false), data[..k]), Frags(After(o, data), data[k..], false);
      Assoc([f], tail, rest);
      CutCons(o, f, tail + rest, n);
      if Pad(o) + HEADER + k <= n {
        m := CutInside(After(o, data), data[k..], false, rest, n - (Pad(o) + HEADER + k));
        assert ([f] + tail)[..m + 1] == [f] + tail[..m];
        m := m + 1;
      }
    }
  }

  /** How many of the records lie wholly within the first `n` bytes. */
  function WholeWithin(o: nat, records: seq<seq<Byte>>, n: nat): (c: nat)
    requires o <= BLOCK
    ensures c <= |records|
    decreases |records|
  {
    if records == [] || RecordSize(o, records[0]) > n then 0
    else 1 + WholeWithin(RecordEnd(o, records[0]), records[1..], n - RecordSize(o, records[0]))
  }

  /** All of them, when nothing is cut off; and the count is right: one byte less loses the last record. */
  lemma {:induction false} WholeWithinAll(o: nat, records: seq<seq<Byte>>, n: nat, sum: Checksum)
    requires o <= BLOCK
    ensures n >= |LogBytes(o, records, sum)| <==> WholeWithin(o, records, n) == |records|
    decreases |records|
  {
    if records != [] {
      var size := RecordSize(o, records[0]);
      RecordBytesSize(o, records[0], true, sum);
      if size <= n { WholeWithinAll(RecordEnd(o, records[0]), records[1..], n - size, sum); }
    }
  }

  /** The whole fragments inside a cut join to the whole records inside it. */
  lemma {:induction false} JoinLog(o: nat, records: seq<seq<Byte>>, n: nat)
    requires o <= BLOCK && Fits(o, LogFrags(o, records))
    ensures Join(Cut(o, LogFrags(o, records), n), None) == Outcome(records[..WholeWithin(o, records, n)], 0)
    decreases |records|
  {
    if records != [] {
      var r, rest := Frags(o, records[0], true), LogFrags(RecordEnd(o, records[0]), records[1..]);
      var o', size := RecordEnd(o, records[0]), RecordSize(o, records[0]);
      FragsFit(o, records[0], true, rest);
      if size <= n {
        CutBehind(o, records[0], true, rest, n);
        JoinLog(o', records[1..], n - size);
        var cut, c := Cut(o', rest, n - size), WholeWithin(o', records[1..], n - size);
        JoinFrags(o, records[0], None, cut);
        JoinedList(r + cut, records, c, cut);
      } else {
        var m := CutInside(o, records[0], true, rest, n);
        JoinSomeFrags(o, records[0], None, m);
      }
    }
  }

  lemma JoinedList(all: seq<Item>, records: seq<seq<Byte>>, c: nat, cut: seq<Item>)
    requires records != [] && c <= |records| - 1
    requires Join(all, None) == Cons([] + records[0], Join(cut, None)) &&
             Join(cut, None) == Outcome(records[1..][..c], 0)
    ensures Join(all, None) == Outcome(records[..c + 1], 0)
  {
    assert [] + records[0] == records[0];
    assert records[..c + 1] == [records[0]] + records[1..][..c];
  }

  lemma {:induction false} FragsFit(o: nat, data: seq<Byte>, begin: bool, rest: seq<Item>)
    requires o <= BLOCK && Fits(o, Frags(o, data, begin) + rest)
    ensures Fits(RecordEnd(o, data), rest)
    decreases |data|, if Avail(o) == 0 then 1 else 0
  {
    var all := Frags(o, data, begin) + rest;
    if Piece(o, data) == |data| {
      assert all[1..] == rest;
    } else {
      assert all[1..] == Frags(After(o, data), data[Piece(o, data)..], false) + rest;
      FragsFit(After(o, data), data[Piece(o, data)..], false, rest);
    }
  }

  /**
   Whatever was written, a reader of the file cut at byte `k` returns the records wholly inside
   the cut, in order, and reports no corruption; an uncut file gives back every record.
   */
  lemma CutLogReadsWholeRecords(records: seq<seq<Byte>>, k: nat, sum: Checksum)
    requires k <= |LogBytes(0, records, sum)|
    ensures ReadAll(LogBytes(0, records, sum)[..k], sum) == Outcome(records[..WholeWithin(0, records, k)], 0)
    ensures ReadAll(LogBytes(0, records, sum), sum) == Outcome(records, 0)
  {
    CutLog(records, k, sum);
    CutLog(records, |LogBytes(0, records, sum)|, sum);
    WholeWithinAll(0, records, |LogBytes(0, records, sum)|, sum);
    assert records[..|records|] == records;
    assert LogBytes(0, records, sum)[..|LogBytes(0, records, sum)|] == LogBytes(0, records, sum);
  }

  lemma CutLog(records: seq<seq<Byte>>, k: nat, sum: Checksum)
    requires k <= |LogBytes(0, records, sum)|
    ensures ReadAll(LogBytes(0, records, sum)[..k], sum) == Outcome(records[..WholeWithin(0, records, k)], 0)
  {
    var full := LogBytes(0, records, sum);
    var file, fs := full[..k], LogFrags(0, records);
    LogFragsAreBytes(0, records, sum);
    assert full[0..|full|] == full;
    FileDeliversWritten(full, file, sum);
    StreamRoundTrip(FileSource(file, sum), full, k, 0, 0, fs, sum);
    JoinLog(0, records, k);
  }
}
