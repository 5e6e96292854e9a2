/** The byte buffer of a connection: a growing array with a reader and a writer index, proved to be a byte queue. */
module Buffers {

  type byte = x: int | 0 <= x < 256

  const CHEAP_PREPEND: nat := 8
  const INITIAL_SIZE: nat := 1024
  const EXTRA_SIZE: nat := 65536

  function Max(a: int, b: int): int { if a < b then b else a }

  /** What `readv` gives back: an error, or the bytes that were waiting (none at end of file). */
  datatype ReadResult = ReadError | Received(data: seq<byte>)

  datatype Op = Append(data: seq<byte>) | Read(input: ReadResult) | Ensure(len: nat) | Retrieve(len: nat)

  /** A byte queue: what goes in at the back comes out at the front. */
  function Queue(q: seq<byte>, ops: seq<Op>): seq<byte>
    decreases |ops|
  {
    if ops == [] then q else Queue(QueueStep(q, ops[0]), ops[1..])
  }

  function QueueStep(q: seq<byte>, op: Op): seq<byte> {
    match op
    case Append(data) => q + data
    case Read(input) => if input.Received? then q + input.data else q
    case Ensure(len) => q
    case Retrieve(len) => if len <= |q| then q[len..] else []
  }

  // ---------------------------------------------------------------- where the bytes lie

  /** The size of the vector and the two indices. */
  datatype Layout = Layout(size: nat, reader: nat, writer: nat)

  predicate Proper(y: Layout) {
    CHEAP_PREPEND <= y.reader <= y.writer <= y.size
  }

  function Readable(y: Layout): int {
    y.writer - y.reader
  }

  function Dropped(y: Layout, len: nat): Layout {
    if len < Readable(y) then y.(reader := y.reader + len) else y.(reader := CHEAP_PREPEND, writer := CHEAP_PREPEND)
  }

  /** Room for `len` more bytes: as it is, at the end of a larger vector, or after moving to the front. */
  function Roomy(y: Layout, len: nat): Layout
    requires Proper(y)
  {
    if len <= y.size - y.writer then y
    else if y.size - y.writer + y.reader < len + CHEAP_PREPEND then y.(size := y.writer + len)
    else y.(reader := CHEAP_PREPEND, writer := CHEAP_PREPEND + Readable(y))
  }

  function Filled(y: Layout, n: nat): Layout
    requires Proper(y)
  {
    var y' := Roomy(y, n);
    y'.(writer := y'.writer + n)
  }

  /** How many bytes one scatter read can take: the writeable part, and 64K of stack space if that is larger. */
  function Room(y: Layout): int {
    var writeable := y.size - y.writer;
    if writeable < EXTRA_SIZE then writeable + EXTRA_SIZE else writeable
  }

  /** A read of `n` bytes: what does not fit into the writeable part is appended. */
  function Spilled(y: Layout, n: nat): Layout
    requires Proper(y)
  {
    var writeable := y.size - y.writer;
    if n <= writeable then y.(writer := y.writer + n) else Filled(y.(writer := y.size), n - writeable)
  }

  function LayoutStep(y: Layout, op: Op): Layout
    requires Proper(y)
  {
    match op
    case Append(data) => Filled(y, |data|)
    case Read(input) => if input.Received? then Spilled(y, |input.data|) else y
    case Ensure(len) => Roomy(y, len)
    case Retrieve(len) => Dropped(y, len)
  }

  /** `m` bounds the readable length plus the requested length at every request, and the kernel hands over no more
      than the room there is at that moment. */
  predicate WithinStep(y: Layout, op: Op, m: nat) {
    match op
    case Append(data) => Readable(y) + |data| <= m
    case Read(input) => input.Received? ==> |input.data| <= Room(y) && Readable(y) + |input.data| <= m
    case Ensure(len) => Readable(y) + len <= m
    case Retrieve(len) => true
  }

  /** Every step keeps the indices in order and the vector within max(its size, 7 + 2m). */
  lemma LayoutStaysProper(y: Layout, op: Op, m: nat)
    requires Proper(y) && WithinStep(y, op, m)
    ensures 8 <= LayoutStep(y, op).reader <= LayoutStep(y, op).writer <= LayoutStep(y, op).size
    ensures Proper(LayoutStep(y, op)) && y.size <= LayoutStep(y, op).size <= Max(y.size, 7 + 2 * m)
  {
  }

  predicate Within(y: Layout, ops: seq<Op>, m: nat)
    decreases |ops|
  {
    ops == [] || (Proper(y) && WithinStep(y, ops[0], m) && Within(LayoutStep(y, ops[0]), ops[1..], m))
  }

  function Layouts(y: Layout, ops: seq<Op>, m: nat): Layout
    requires Proper(y) && Within(y, ops, m)
    decreases |ops|
  {
    if ops == [] then y else
      LayoutStaysProper(y, ops[0], m);
      Layouts(LayoutStep(y, ops[0]), ops[1..], m)
  }

  class Buffer {
    var buffer: array<byte>
    var readerIndex: nat
    var writerIndex: nat

    ghost predicate Valid()
      reads this
    {
      CHEAP_PREPEND <= readerIndex <= writerIndex <= buffer.Length
    }

    /** The readable bytes: what the owner of the buffer thinks it holds. */
    ghost function Contents(): (s: seq<byte>)
      requires Valid()
      reads this, buffer
      ensures |s| == writerIndex - readerIndex
    {
      buffer[readerIndex..writerIndex]
    }

    ghost function Shape(): Layout
      reads this
    {
      Layout(buffer.Length, readerIndex, writerIndex)
    }

    constructor (initialSize: nat := INITIAL_SIZE)
      ensures Valid() && fresh(buffer)
      ensures Contents() == [] && Shape() == Layout(CHEAP_PREPEND + initialSize, CHEAP_PREPEND, CHEAP_PREPEND)
    {
      buffer := new byte[CHEAP_PREPEND + initialSize](_ => 0);
      readerIndex, writerIndex := CHEAP_PREPEND, CHEAP_PREPEND;
    }

    function ReadableBytes(): (n: nat)
      requires Valid()
      reads this, buffer
      ensures n == |Contents()|
    {
      writerIndex - readerIndex
    }

    function WriteableBytes(): nat
      requires Valid()
      reads this
    {
      buffer.Length - writerIndex
    }

    method Retrieve(len: nat)
      requires Valid()
      modifies this`readerIndex, this`writerIndex
      ensures Valid()
      ensures Contents() == if len <= |old(Contents())| then old(Contents())[len..] else []
      ensures Shape() == Dropped(old(Shape()), len)
    {
      if len < ReadableBytes() {
        readerIndex := readerIndex + len;
      } else {
        RetrieveAll();
      }
    }

    method RetrieveAll()
      requires Valid()
      modifies this`readerIndex, this`writerIndex
      ensures Valid() && Contents() == [] && readerIndex == writerIndex == CHEAP_PREPEND
    {
      readerIndex, writerIndex := CHEAP_PREPEND, CHEAP_PREPEND;
    }

    /** Reads `len` bytes from the reader index, wherever they come from; up to the readable length
        they are exactly a prefix of the contents. The bytes read must lie inside the vector. */
    method RetrieveAsString(len: nat) returns (result: seq<byte>)
      requires Valid() && readerIndex + len <= buffer.Length
      modifies this`readerIndex, this`writerIndex
      ensures Valid() && |result| == len
      ensures len <= |old(Contents())| ==> result == old(Contents())[..len] && Contents() == old(Contents())[len..]
      ensures len > |old(Contents())| ==> old(Contents()) <= result && Contents() == []
    {
      result := buffer[readerIndex..readerIndex + len];
      assert Contents() == if len <= |Contents()| then result + Contents()[len..] else result[..|Contents()|];
      Retrieve(len);
    }

    method RetrieveAllAsString() returns (result: seq<byte>)
      requires Valid()
      modifies this`readerIndex, this`writerIndex
      ensures Valid() && result == old(Contents()) && Contents() == []
    {
      result := RetrieveAsString(ReadableBytes());
    }

    /** Room for `len` more bytes, without touching what is readable. The vector only grows when moving
        the readable bytes to the front would not do. */
    method EnsureWriteableBytes(len: nat)
      requires Valid()
      modifies this, buffer
      ensures Valid() && Contents() == old(Contents()) && len <= WriteableBytes()
      ensures Shape() == Roomy(old(Shape()), len)
      ensures if old(buffer.Length) < 8 + |old(Contents())| + len then fresh(buffer) else buffer == old(buffer)
      ensures old(buffer.Length) <= buffer.Length <= Max(old(buffer.Length), 7 + 2 * (|old(Contents())| + len))
    {
      if len > WriteableBytes() {
        MakePlace(len);
      }
    }

    method MakePlace(len: nat)
      requires Valid() && len > WriteableBytes()
      modifies this, buffer
      ensures Valid() && Contents() == old(Contents()) && len <= WriteableBytes()
      ensures Shape() == Roomy(old(Shape()), len)
      ensures if old(buffer.Length) < CHEAP_PREPEND + |old(Contents())| + len then fresh(buffer)
                else buffer == old(buffer)
      ensures old(buffer.Length) <= buffer.Length <= Max(old(buffer.Length), 7 + 2 * (|old(Contents())| + len))
    {
      if WriteableBytes() + readerIndex < len + CHEAP_PREPEND {
        Resize(writerIndex + len);
      } else {
        var readable := ReadableBytes();
        MoveToFront();
        readerIndex := CHEAP_PREPEND;
        writerIndex := readerIndex + readable;
      }
    }

    /** `_buffer_.resize(size)` to a larger size: a new block with the old bytes and zeros behind them. */
    method Resize(size: nat)
      requires Valid() && buffer.Length <= size
      modifies this`buffer
      ensures Valid() && fresh(buffer) && buffer.Length == size
      ensures buffer[..old(buffer.Length)] == old(buffer[..])
      ensures Contents() == old(Contents())
    {
      var larger := new byte[size](_ => 0);
      forall i | 0 <= i < buffer.Length {
        larger[i] := buffer[i];
      }
      buffer := larger;
      assert buffer[..old(buffer.Length)] == old(buffer[..]);
      assert Contents() == buffer[..old(buffer.Length)][readerIndex..writerIndex];
    }

    /** The overlapping copy of the readable bytes to index 8, element by element from the front:
        safe because it only runs when the reader index lies strictly beyond its target. */
    method MoveToFront()
      requires Valid() && CHEAP_PREPEND < readerIndex
      modifies buffer
      ensures buffer[CHEAP_PREPEND..CHEAP_PREPEND + (writerIndex - readerIndex)] == old(Contents())
    {
      var n, shift := writerIndex - readerIndex, readerIndex - CHEAP_PREPEND;
      ghost var before := buffer[..];
      var i := 0;
      while i < n
        invariant 0 <= i <= n
        invariant forall j :: CHEAP_PREPEND <= j < CHEAP_PREPEND + i ==> buffer[j] == before[j + shift]
        invariant forall j :: readerIndex + i <= j < writerIndex ==> buffer[j] == before[j]
      {
        buffer[CHEAP_PREPEND + i] := buffer[readerIndex + i];
        i := i + 1;
      }
    }

    /** Appending extends the contents by exactly the data; the vector stays within the space bound. */
    method Append(data: seq<byte>)
      requires Valid()
      modifies this, buffer
      ensures Valid() && Contents() == old(Contents()) + data && Shape() == Filled(old(Shape()), |data|)
      ensures buffer == old(buffer) || fresh(buffer)
      ensures old(buffer.Length) <= buffer.Length <= Max(old(buffer.Length), 7 + 2 * (|old(Contents())| + |data|))
    {
      EnsureWriteableBytes(|data|);
      FillWriteable(data);
    }

    /** Puts `data` into the writeable part, from the writer index on, and moves the index behind it. */
    method FillWriteable(data: seq<byte>)
      requires Valid() && |data| <= WriteableBytes()
      modifies this`writerIndex, buffer
      ensures Valid() && Contents() == old(Contents()) + data
      ensures writerIndex == old(writerIndex) + |data|
    {
      forall i | 0 <= i < |data| {
        buffer[writerIndex + i] := data[i];
      }
      assert buffer[readerIndex..writerIndex] == old(Contents());
      writerIndex := writerIndex + |data|;
      assert Contents() == buffer[readerIndex..writerIndex - |data|] + buffer[writerIndex - |data|..writerIndex];
    }

    /** The scatter read: the writeable part first, then 64K of stack space when the former is smaller.
        Whatever the kernel hands over within that room extends the contents by exactly those bytes. */
    method Readfd(input: ReadResult) returns (n: int)
      requires Valid()
      requires input.Received? ==> |input.data| <= Room(Shape())
      modifies this, buffer
      ensures Valid()
      ensures Shape() == if input.Received? then Spilled(old(Shape()), |input.data|) else old(Shape())
      ensures n == if input.Received? then |input.data| else -1
      ensures Contents() == old(Contents()) + if input.Received? then input.data else []
      ensures buffer == old(buffer) || fresh(buffer)
      ensures input.ReadError? ==> buffer == old(buffer)
      ensures input.Received? ==>
                old(buffer.Length) <= buffer.Length <= Max(old(buffer.Length),
                                                           7 + 2 * (|old(Contents())| + |input.data|))
    {
      var writeable := WriteableBytes();
      if input.ReadError? {
        return -1;
      }
      n := |input.data|;
      if n <= writeable {
        FillWriteable(input.data);
      } else {
        FillWriteable(input.data[..writeable]);
        Append(input.data[writeable..]);
        assert input.data == input.data[..writeable] + input.data[writeable..];
      }
    }

    /** Any operation within the bound `m` does to the contents what it does to the queue, and to the indices what it
        does to the layout. */
    method Perform(op: Op, m: nat)
      requires Valid() && WithinStep(Shape(), op, m)
      modifies this, buffer
      ensures Valid() && Contents() == QueueStep(old(Contents()), op) && Shape() == LayoutStep(old(Shape()), op)
      ensures buffer == old(buffer) || fresh(buffer)
    {
      match op {
        case Append(data) => Append(data);
        case Read(input) => var n := Readfd(input);
        case Ensure(len) => EnsureWriteableBytes(len);
        case Retrieve(len) => Retrieve(len);
      }
    }
  }

  /** Over runs of any length, with reads of whatever size the buffer has room for, the buffer is the byte queue and
      its vector stays within max(8 + initial, 7 + 2m). */
  method RunBuffer(initialSize: nat, ops: seq<Op>, m: nat) returns (b: Buffer)
    requires Within(Layout(CHEAP_PREPEND + initialSize, CHEAP_PREPEND, CHEAP_PREPEND), ops, m)
    ensures fresh(b) && b.Valid() && b.Contents() == Queue([], ops)
    ensures b.Shape() == Layouts(Layout(CHEAP_PREPEND + initialSize, CHEAP_PREPEND, CHEAP_PREPEND), ops, m)
    ensures b.buffer.Length <= Max(8 + initialSize, 7 + 2 * m) && 8 <= b.readerIndex <= b.writerIndex
  {
    hide QueueStep, WithinStep, LayoutStep;
    b := new Buffer(initialSize);
    ghost var start := b.Shape();
    var k := 0;
    assert ops[0..] == ops;
    while k < |ops|
      invariant 0 <= k <= |ops|
      invariant fresh(b) && fresh(b.buffer) && b.Valid()
      invariant Within(b.Shape(), ops[k..], m) && Layouts(b.Shape(), ops[k..], m) == Layouts(start, ops, m)
      invariant Queue(b.Contents(), ops[k..]) == Queue([], ops)
      invariant b.buffer.Length <= Max(CHEAP_PREPEND + initialSize, 7 + 2 * m)
    {
      assert ops[k..][0] == ops[k] && ops[k..][1..] == ops[k + 1..];
      LayoutStaysProper(b.Shape(), ops[k], m);
      b.Perform(ops[k], m);
      k := k + 1;
    }
  }

  /** The largest spill: a first read that fills a fresh buffer and all of the stack space. */
  lemma LargestFirstRead(initialSize: nat, data: seq<byte>)
    requires initialSize < 65536
    ensures Within(Layout(8 + initialSize, 8, 8), [Read(Received(data))], |data|) <==> |data| <= initialSize + 65536
  {
    var y := Layout(8 + initialSize, 8, 8);
    if |data| <= initialSize + 65536 {
      LayoutStaysProper(y, Read(Received(data)), |data|);
    }
  }

  function In(op: Op): seq<byte> {
    match op
    case Append(data) => data
    case Read(input) => if input.Received? then input.data else []
    case Ensure(_) => []
    case Retrieve(_) => []
  }

  function Out(q: seq<byte>, op: Op): seq<byte> {
    match op
    case Retrieve(len) => if len <= |q| then q[..len] else q
    case _ => []
  }

  function AllIn(ops: seq<Op>): seq<byte> {
    if ops == [] then [] else In(ops[0]) + AllIn(ops[1..])
  }

  function AllOut(q: seq<byte>, ops: seq<Op>): seq<byte>
    decreases |ops|
  {
    if ops == [] then [] else Out(q, ops[0]) + AllOut(QueueStep(q, ops[0]), ops[1..])
  }

  lemma StepConserves(q: seq<byte>, op: Op)
    ensures q + In(op) == Out(q, op) + QueueStep(q, op)
  {
  }

  /** No byte is lost, invented or reordered: what was put in is what was taken out followed by what is left. */
  lemma {:induction false} QueueConserves(q: seq<byte>, ops: seq<Op>)
    ensures q + AllIn(ops) == AllOut(q, ops) + Queue(q, ops)
    decreases |ops|
  {
    if ops == [] {
      assert q + [] == [] + q;
    } else {
      hide QueueStep, In, Out;
      var q' := QueueStep(q, ops[0]);
      StepConserves(q, ops[0]);
      QueueConserves(q', ops[1..]);
      Regroup(q, In(ops[0]), AllIn(ops[1..]), Out(q, ops[0]), q', AllOut(q', ops[1..]), Queue(q', ops[1..]));
    }
  }

  lemma Regroup(q: seq<byte>, i: seq<byte>, rest: seq<byte>, o: seq<byte>, q': seq<byte>, os: seq<byte>, z: seq<byte>)
    requires q + i == o + q' && q' + rest == os + z
    ensures q + (i + rest) == (o + os) + z
  {
    assert q + (i + rest) == (q + i) + rest;
    assert (o + q') + rest == o + (q' + rest);
    assert o + (os + z) == (o + os) + z;
  }
}
