/** Write batches: a header with a sequence number and a count, and the updates one after the other. */
module WriteBatches {
  import opened Coding

  datatype Op = Put(key: Bytes, value: Bytes) | Delete(key: Bytes)

  /** An update with the sequence number it gets. */
  datatype Numbered = Numbered(seqno: nat, op: Op)

  datatype Outcome = Ok | Corruption(message: string)

  const HEADER: nat := 12

  predicate ValidOp(op: Op) {
    |op.key| < TWO32 && (op.Put? ==> |op.value| < TWO32)
  }

  ghost predicate ValidOps(ops: seq<Op>) {
    forall i :: 0 <= i < |ops| ==> ValidOp(ops[i])
  }

  function OpBytes(op: Op): Bytes {
    if op.Put? then [1] + (LengthPrefixed(op.key) + LengthPrefixed(op.value)) else [0] + LengthPrefixed(op.key)
  }

  // ---- Any format of updates ----

  type Writing = Op -> Bytes
  type Reading = Bytes -> Read

  datatype Read = Read(op: Op, rest: Bytes) | Bad(message: string)

  function Body(write: Writing, ops: seq<Op>): Bytes {
    if ops == [] then [] else Body(write, ops[..|ops| - 1]) + write(ops[|ops| - 1])
  }

  /** Reading takes at least one byte. */
  predicate Advances(r: Read, input: Bytes) {
    r.Read? ==> |r.rest| < |input|
  }

  /** What Iterate passes to its handler: the updates before the end or the first error. */
  function Handled(read: Reading, input: Bytes): seq<Op>
    decreases |input|
  {
    if input == [] then [] else
    var r := read(input);
    if r.Bad? || !Advances(r, input) then [] else [r.op] + Handled(read, r.rest)
  }

  function Failure(read: Reading, input: Bytes): Outcome
    decreases |input|
  {
    if input == [] then Ok else
    var r := read(input);
    if r.Bad? || !Advances(r, input) then Corruption(if r.Bad? then r.message else "") else Failure(read, r.rest)
  }

  /** Reading undoes writing one update. */
  ghost predicate Undoes(read: Reading, write: Writing, op: Op) {
    forall rest :: Rereads(read, write, op, rest)
  }

  ghost predicate Rereads(read: Reading, write: Writing, op: Op, rest: Bytes) {
    write(op) + rest != [] && read(write(op) + rest) == Read(op, rest) && |rest| < |write(op) + rest|
  }

  lemma {:induction false} ReadBack(read: Reading, write: Writing, ops: seq<Op>, rest: Bytes)
    requires forall i :: 0 <= i < |ops| ==> Undoes(read, write, ops[i])
    ensures Handled(read, Body(write, ops) + rest) == ops + Handled(read, rest)
    ensures Failure(read, Body(write, ops) + rest) == Failure(read, rest)
  {
    if ops == [] {
      assert Body(write, ops) + rest == rest;
    } else {
      var init, op := ops[..|ops| - 1], ops[|ops| - 1];
      var more := write(op) + rest;
      assert Body(write, ops) + rest == Body(write, init) + more;
      ReadBack(read, write, init, more);
      assert Rereads(read, write, op, rest);
      assert ops == init + [op];
    }
  }

  lemma BodyOneMore(write: Writing, a: seq<Op>, op: Op)
    ensures Body(write, a + [op]) == Body(write, a) + write(op)
  {
    assert (a + [op])[..|a|] == a;
  }

  lemma Joined(x: Bytes, y: Bytes, z: Bytes)
    ensures x + y + z == x + (y + z)
  {
  }

  lemma {:induction false} BodyConcat(write: Writing, a: seq<Op>, b: seq<Op>)
    ensures Body(write, a + b) == Body(write, a) + Body(write, b)
  {
    if b == [] {
      assert a + b == a;
    } else {
      var init, last := b[..|b| - 1], b[|b| - 1];
      assert a + b == a + init + [last];
      BodyOneMore(write, a + init, last);
      BodyConcat(write, a, init);
      Joined(Body(write, a), Body(write, init), write(last));
    }
  }

  // ---- The format ----

  function ReadOp(input: Bytes): (r: Read)
    ensures input != [] ==> Advances(r, input)
  {
    if input != [] && input[0] == 1 then ReadPut(input[1..])
    else if input != [] && input[0] == 0 then ReadDelete(input[1..])
    else Bad("unknown WriteBatch tag")
  }

  function ReadPut(input: Bytes): (r: Read)
    ensures Advances(r, input)
  {
    var key := GetLengthPrefixed(input);
    if key.NotParsed? then Bad("bad WriteBatch Put") else
    var value := GetLengthPrefixed(key.rest);
    if value.NotParsed? then Bad("bad WriteBatch Put") else Read(Put(key.value, value.value), value.rest)
  }

  function ReadDelete(input: Bytes): (r: Read)
    ensures Advances(r, input)
  {
    var key := GetLengthPrefixed(input);
    if key.NotParsed? then Bad("bad WriteBatch Delete") else Read(Delete(key.value), key.rest)
  }

  lemma PutRoundTrip(key: Bytes, value: Bytes, rest: Bytes)
    requires |key| < TWO32 && |value| < TWO32
    ensures ReadPut(LengthPrefixed(key) + LengthPrefixed(value) + rest) == Read(Put(key, value), rest)
  {
    var tail := LengthPrefixed(value) + rest;
    assert LengthPrefixed(key) + LengthPrefixed(value) + rest == LengthPrefixed(key) + tail;
    LengthPrefixedRoundTrip(key, tail);
    LengthPrefixedRoundTrip(value, rest);
  }

  lemma DeleteRoundTrip(key: Bytes, rest: Bytes)
    requires |key| < TWO32
    ensures ReadDelete(LengthPrefixed(key) + rest) == Read(Delete(key), rest)
  {
    LengthPrefixedRoundTrip(key, rest);
  }

  lemma TailOf(first: int, body: Bytes, rest: Bytes)
    ensures var s := [first] + body + rest; s != [] && s[0] == first && s[1..] == body + rest
  {
  }

  lemma OpRoundTrip(op: Op)
    requires ValidOp(op)
    ensures Undoes(ReadOp, OpBytes, op)
  {
    forall rest ensures Rereads(ReadOp, OpBytes, op, rest) {
      if op.Put? {
        TailOf(1, LengthPrefixed(op.key) + LengthPrefixed(op.value), rest);
        PutRoundTrip(op.key, op.value, rest);
      } else {
        TailOf(0, LengthPrefixed(op.key), rest);
        DeleteRoundTrip(op.key, rest);
      }
    }
  }

  /** Consecutive sequence numbers from `from` on. */
  function Number(ops: seq<Op>, from: nat): seq<Numbered> {
    seq(|ops|, i requires 0 <= i < |ops| => Numbered(from + i, ops[i]))
  }

  /** Writing a list of updates and iterating over the result gives the list back. */
  lemma BodyRoundTrip(ops: seq<Op>)
    requires ValidOps(ops)
    ensures Handled(ReadOp, Body(OpBytes, ops)) == ops && Failure(ReadOp, Body(OpBytes, ops)) == Ok
  {
    forall i | 0 <= i < |ops| ensures Undoes(ReadOp, OpBytes, ops[i]) { OpRoundTrip(ops[i]); }
    ReadBack(ReadOp, OpBytes, ops, []);
    assert Body(OpBytes, ops) + [] == Body(OpBytes, ops);
  }

  /** MemTableInserter over a list of updates. */
  method AddAll(mem: seq<Numbered>, ops: seq<Op>, from: nat) returns (mem': seq<Numbered>)
    ensures mem' == mem + Number(ops, from)
  {
    mem' := mem;
    var sequence := from;
    for i := 0 to |ops|
      invariant sequence == from + i && mem' == mem + Number(ops, from)[..i]
    {
      mem' := mem' + [Numbered(sequence, ops[i])];
      sequence := sequence + 1;
    }
  }

  method IterateBody(read: Reading, body: Bytes, count: nat) returns (handled: seq<Op>, outcome: Outcome)
    requires forall input :: input != [] ==> Advances(read(input), input)
    ensures handled == Handled(read, body) && outcome == Ending(read, body, count)
  {
    var input := body;
    handled := [];
    while input != []
      invariant handled + Handled(read, input) == Handled(read, body) && Failure(read, input) == Failure(read, body)
      decreases |input|
    {
      var r := read(input);
      assert Advances(r, input);
      if r.Bad? { return handled, Corruption(r.message); }
      handled, input := handled + [r.op], r.rest;
    }
    outcome := if |handled| != count then Corruption("WriteBatch has wrong count") else Ok;
  }

  /** The first malformed update, or a count in the header that is not the number of updates. */
  function Ending(read: Reading, body: Bytes, count: nat): Outcome {
    if Failure(read, body) != Ok then Failure(read, body)
    else if |Handled(read, body)| != count then Corruption("WriteBatch has wrong count")
    else Ok
  }

  /** Iterate over any string; one without a whole header is rejected before an update is handled. */
  method IterateContents(read: Reading, contents: Bytes) returns (handled: seq<Op>, outcome: Outcome)
    requires forall input :: input != [] ==> Advances(read(input), input)
    ensures |contents| < HEADER ==> handled == [] && outcome == Corruption("malformed WriteBatch (too small)")
    ensures forall n: nat, c: nat, b: Bytes :: InHeader(n, c, b, contents) ==>
              handled == Handled(read, b) && outcome == Ending(read, b, c)
  {
    forall n: nat, c: nat, b: Bytes | InHeader(n, c, b, contents)
      ensures |contents| >= HEADER && GetFixed(contents[8..], 4) == c && contents[HEADER..] == b
    {
      HeaderRoundTrip(n, c, b, 8, 4);
    }
    if |contents| < HEADER { return [], Corruption("malformed WriteBatch (too small)"); }
    handled, outcome := IterateBody(read, contents[HEADER..], GetFixed(contents[8..], 4));
  }

  /** The header is kept decoded; Contents gives the string form. */
  class WriteBatch {
    var sequence: nat
    var count: nat
    var body: Bytes

    /** The batch holds `ops`, and its header says so. */
    ghost predicate Holds(write: Writing, ops: seq<Op>) reads this {
      count == |ops| && body == Body(write, ops)
    }

    constructor ()
      ensures Holds(OpBytes, []) && sequence == 0
    {
      sequence, count, body := 0, 0, [];
    }

    /** Put and Delete. */
    method Add(write: Writing, op: Op, ghost ops: seq<Op>)
      requires Holds(write, ops)
      modifies this
      ensures Holds(write, ops + [op]) && sequence == old(sequence)
    {
      count := count + 1;
      body := body + write(op);
      assert (ops + [op])[..|ops|] == ops;
    }

    /** Append: counts add up and the updates of `src` follow. */
    method Append(src: WriteBatch, ghost write: Writing, ghost ops: seq<Op>, ghost more: seq<Op>)
      requires src != this && Holds(write, ops) && src.Holds(write, more)
      modifies this
      ensures Holds(write, ops + more) && sequence == old(sequence)
    {
      count := count + src.count;
      body := body + src.body;
      BodyConcat(write, ops, more);
    }

    /** Iterate, with the updates passed to the handler in order. */
    method Iterate(read: Reading) returns (handled: seq<Op>, outcome: Outcome)
      requires forall input :: input != [] ==> Advances(read(input), input)
      ensures handled == Handled(read, body) && outcome == Ending(read, body, count)
    {
      handled, outcome := IterateBody(read, body, count);
    }

    /** InsertInto: every update once, with consecutive sequence numbers from the batch's own. */
    method InsertInto(mem: seq<Numbered>, ghost ops: seq<Op>) returns (mem': seq<Numbered>, outcome: Outcome)
      requires Holds(OpBytes, ops) && ValidOps(ops)
      ensures outcome == Ok && mem' == mem + Number(ops, sequence)
    {
      BodyRoundTrip(ops);
      var handled;
      handled, outcome := Iterate(ReadOp);
      mem' := AddAll(mem, handled, sequence);
    }

    function Contents(): Bytes
      reads this
    {
      Fixed(sequence, 8) + (Fixed(count, 4) + body)
    }

    /** SetContents, for a string that has at least a header. */
    method SetContents(contents: Bytes)
      requires |contents| >= HEADER
      modifies this
      ensures forall n: nat, c: nat, b: Bytes :: InHeader(n, c, b, contents) ==>
                sequence == n && count == c && body == b
    {
      sequence, count, body := GetFixed(contents, 8), GetFixed(contents[8..], 4), contents[HEADER..];
      forall n: nat, c: nat, b: Bytes | InHeader(n, c, b, contents) ensures sequence == n && count == c && body == b {
        HeaderRoundTrip(n, c, b, 8, 4);
      }
    }
  }

  /** `contents` is the string form of a batch with this header and body. */
  ghost predicate InHeader(sequence: nat, count: nat, body: Bytes, contents: Bytes) {
    contents == Fixed(sequence, 8) + (Fixed(count, 4) + body) && sequence < Power256(8) && count < Power256(4)
  }

  lemma HeaderRoundTrip(sequence: nat, count: nat, body: Bytes, a: nat, b: nat)
    requires sequence < Power256(a) && count < Power256(b)
    ensures var s := Fixed(sequence, a) + (Fixed(count, b) + body);
            GetFixed(s, a) == sequence && GetFixed(s[a..], b) == count && s[a + b..] == body
  {
    var tail := Fixed(count, b) + body;
    var s := Fixed(sequence, a) + tail;
    FixedRoundTrip(sequence, a, tail);
    assert s[a..] == tail;
    FixedRoundTrip(count, b, body);
  }
}
