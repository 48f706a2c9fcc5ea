/**
 * The small buffered writer in front of a file: data is collected until the buffer would overflow, then
 * handed on; data larger than the buffer bypasses it. Sizes and offsets are 32-bit.
 */
module ProfileBuffer {
  import opened Base
  import opened Varints

  /** What has been delivered, what is still buffered, and how much the buffer holds. */
  datatype IO = IO(delivered: Bytes, buffered: Bytes, capacity: Uint32)

  /** The buffer is never filled beyond its capacity. */
  predicate Sound(io: IO) {
    |io.buffered| <= io.capacity
  }

  /** The file writer that may refuse to write; then nothing is delivered. */
  datatype Attempt = Attempt(io: IO, ok: bool)

  function FlushIO(io: IO, accept: bool): Attempt {
    if io.buffered == [] then Attempt(io, true)
    else if accept then Attempt(io.(delivered := io.delivered + io.buffered, buffered := []), true)
    else Attempt(io, false)
  }

  /** The sum is computed in 32 bits. */
  predicate NeedsFlush(io: IO, size: Uint32) {
    (size + |io.buffered|) % TWO_32 > io.capacity
  }

  /** `acceptFlush` and `acceptData`: whether the file takes the buffer, and the data that bypasses it. */
  function WriteIO(io: IO, data: Bytes, acceptFlush: bool, acceptData: bool): Attempt
    requires |data| < TWO_32
  {
    var flushed := if NeedsFlush(io, |data|) then FlushIO(io, acceptFlush) else Attempt(io, true);
    if !flushed.ok then flushed
    else if |data| > io.capacity then
      if acceptData then Attempt(flushed.io.(delivered := flushed.io.delivered + data), true)
      else Attempt(flushed.io, false)
    else Attempt(flushed.io.(buffered := flushed.io.buffered + data), true)
  }

  function Stream(io: IO): Bytes {
    io.delivered + io.buffered
  }

  /** The sum of sizes wrapped, and the wrapped sum does not call for a flush. */
  predicate MissedFlush(io: IO, size: Uint32) {
    size + |io.buffered| >= TWO_32 && size + |io.buffered| - TWO_32 <= io.capacity
  }

  /**
   * A successful write appends to the stream exactly if no flush was missed, or the data happens to commute
   * with what is buffered, and the data that stays in the buffer fits it exactly if no flush was missed.
   */
  lemma WriteAppendsIff(io: IO, data: Bytes, acceptFlush: bool, acceptData: bool)
    requires Sound(io) && |data| < TWO_32 && WriteIO(io, data, acceptFlush, acceptData).ok
    ensures var io' := WriteIO(io, data, acceptFlush, acceptData).io;
            && (Stream(io') == Stream(io) + data
                <==> !MissedFlush(io, |data|) || |data| <= io.capacity || io.buffered + data == data + io.buffered)
            && (Sound(io') <==> !MissedFlush(io, |data|) || |data| > io.capacity)
  {
    var size, io' := |data|, WriteIO(io, data, acceptFlush, acceptData).io;
    WrappedSum(io, size);
    if NeedsFlush(io, size) {
      assert io.delivered + io.buffered + data == (io.delivered + io.buffered) + (data + []);
      assert io.delivered + io.buffered + ([] + data) == io.delivered + io.buffered + data;
    } else if size > io.capacity {
      assert Stream(io') == io.delivered + (data + io.buffered);
      assert Stream(io) + data == io.delivered + (io.buffered + data);
      CancelPrefix(io.delivered, data + io.buffered, io.buffered + data);
    } else {
      assert io.delivered + (io.buffered + data) == io.delivered + io.buffered + data;
    }
  }

  lemma CancelPrefix(p: Bytes, a: Bytes, b: Bytes)
    ensures p + a == p + b <==> a == b
  {
    assert (p + a)[|p|..] == a && (p + b)[|p|..] == b;
  }

  lemma WrappedSum(io: IO, size: Uint32)
    requires Sound(io)
    ensures !NeedsFlush(io, size) && size + |io.buffered| > io.capacity <==> MissedFlush(io, size)
  {
    var sum := size + |io.buffered|;
    if sum >= TWO_32 {
      assert sum % TWO_32 == sum - TWO_32;
    } else {
      assert sum % TWO_32 == sum;
    }
  }

  /** With the buffer the runtime itself provides, almost four gigabytes at once are written out of order. */
  lemma OutOfOrderExample(io: IO, data: Bytes)
    requires io == IO([], [0], 8 * 1024) && data == seq(TWO_32 - 1, _ => 1)
    ensures WriteIO(io, data, true, true) == Attempt(IO(data, [0], 8 * 1024), true)
    ensures Stream(WriteIO(io, data, true, true).io) != Stream(io) + data
  {
    assert ([] + data) == data;
    assert (data + [0])[0] == 1 && (([] + [0]) + data)[0] == 0;
  }

  // ---------------------------------------------------------------- whole sequences

  datatype Op = Write(data: Bytes, acceptFlush: bool, acceptData: bool) | Flush(accept: bool)

  predicate Sized(op: Op) {
    op.Write? ==> |op.data| < TWO_32
  }

  function Perform(io: IO, op: Op): Attempt
    requires Sized(op)
  {
    match op
    case Write(data, f, d) => WriteIO(io, data, f, d)
    case Flush(accept) => FlushIO(io, accept)
  }

  function Payload(op: Op): Bytes {
    if op.Write? then op.data else []
  }

  /** A caller goes on until something fails. */
  function PerformAll(io: IO, ops: seq<Op>): Attempt
    requires forall i :: 0 <= i < |ops| ==> Sized(ops[i])
    decreases |ops|
  {
    if ops == [] then Attempt(io, true)
    else
      var r := Perform(io, ops[0]);
      if r.ok then PerformAll(r.io, ops[1..]) else r
  }

  function Written(ops: seq<Op>): Bytes {
    if ops == [] then [] else Payload(ops[0]) + Written(ops[1..])
  }

  /** No write of the run misses a flush. */
  predicate NeverMisses(io: IO, ops: seq<Op>)
    requires forall i :: 0 <= i < |ops| ==> Sized(ops[i])
    decreases |ops|
  {
    ops == []
    || (&& Sized(ops[0])
        && (ops[0].Write? ==> !MissedFlush(io, |ops[0].data|))
        && var r := Perform(io, ops[0]); r.ok ==> NeverMisses(r.io, ops[1..]))
  }

  /** Writes that leave room for a full buffer in 32 bits never do. */
  lemma {:induction false} SmallWritesNeverMiss(io: IO, ops: seq<Op>)
    requires Sound(io)
    requires forall i :: 0 <= i < |ops| ==> ops[i].Write? ==> |ops[i].data| + io.capacity < TWO_32
    ensures forall i :: 0 <= i < |ops| ==> Sized(ops[i])
    ensures NeverMisses(io, ops)
    decreases |ops|
  {
    hide WriteIO;
    hide FlushIO;
    if ops != [] {
      StepKeepsOrder(io, ops[0]);
      var r := Perform(io, ops[0]);
      if r.ok {
        SmallWritesNeverMiss(r.io, ops[1..]);
      }
    }
  }

  lemma StepKeepsOrder(io: IO, op: Op)
    requires Sound(io) && Sized(op) && (op.Write? ==> !MissedFlush(io, |op.data|))
    ensures var r := Perform(io, op);
            && Sound(r.io) && r.io.capacity == io.capacity
            && Stream(r.io) == if r.ok then Stream(io) + Payload(op) else Stream(io)
  {
    if op.Write? {
      var r := WriteIO(io, op.data, op.acceptFlush, op.acceptData);
      if r.ok {
        WriteAppendsIff(io, op.data, op.acceptFlush, op.acceptData);
      } else {
        assert io.delivered + io.buffered + [] == io.delivered + io.buffered;
      }
    } else {
      assert io.delivered + io.buffered + [] == io.delivered + io.buffered;
      assert Stream(io) + [] == Stream(io);
    }
  }

  /**
   * After any sequence of writes and flushes, what was delivered and what is buffered are together the
   * concatenation of the writes that succeeded: all of them, or those before the first operation that fails.
   */
  lemma {:induction false} BufferedIsDirect(io: IO, ops: seq<Op>) returns (k: nat)
    requires (forall i :: 0 <= i < |ops| ==> Sized(ops[i])) && Sound(io) && NeverMisses(io, ops)
    ensures k <= |ops| && PerformAll(io, ops[..k]).ok
    ensures var r := PerformAll(io, ops);
            && Sound(r.io) && Stream(r.io) == Stream(io) + Written(ops[..k])
            && (r.ok <==> k == |ops|)
            && (!r.ok ==> !Perform(PerformAll(io, ops[..k]).io, ops[k]).ok)
    decreases |ops|
  {
    hide Stream;
    hide WriteIO;
    hide FlushIO;
    if ops == [] {
      k := 0;
      assert Stream(io) + [] == Stream(io);
    } else {
      var r := Perform(io, ops[0]);
      StepKeepsOrder(io, ops[0]);
      if r.ok {
        var j := BufferedIsDirect(r.io, ops[1..]);
        k := j + 1;
        assert ops[..k][0] == ops[0] && ops[..k][1..] == ops[1..][..j];
        Assoc(Stream(io), Payload(ops[0]), Written(ops[1..][..j]));
      } else {
        k := 0;
        assert ops[..0] == [];
        assert Stream(io) + [] == Stream(io);
      }
    }
  }

  lemma Assoc(a: Bytes, b: Bytes, c: Bytes)
    ensures a + b + c == a + (b + c)
  {
  }

  // ---------------------------------------------------------------- the code

  /** A file that takes or refuses what it is given; refusing leaves it as it is. */
  class FileWriter {
    var contents: Bytes

    method Put(data: Bytes, accept: bool) returns (failed: bool)
      modifies this
      ensures failed == !accept
      ensures contents == if accept then old(contents) + data else old(contents)
    {
      if accept {
        contents := contents + data;
      }
      failed := !accept;
    }
  }

  class BufferIO {
    const file: FileWriter
    const buffer: array<Byte>
    const capacity: Uint32
    var offset: nat

    ghost predicate Valid()
      reads this, file, buffer
    {
      buffer.Length == capacity && offset <= capacity
    }

    ghost function View(): IO
      requires Valid()
      reads this, file, buffer
    {
      IO(file.contents, buffer[..offset], capacity)
    }

    constructor (file: FileWriter, buffer: array<Byte>)
      requires buffer.Length < TWO_32
      ensures Valid() && this.file == file && this.buffer == buffer
      ensures View() == IO(file.contents, [], buffer.Length)
    {
      this.file := file;
      this.buffer := buffer;
      capacity := buffer.Length;
      offset := 0;
    }

    /** Hands on what is buffered. */
    method FlushOut(accept: bool) returns (failed: bool)
      requires Valid()
      modifies this, file
      ensures Valid() && Attempt(View(), !failed) == FlushIO(old(View()), accept)
    {
      failed := false;
      if offset != 0 {
        failed := file.Put(buffer[..offset], accept);
        if !failed {
          offset := 0;
        }
      }
    }

    /** Writes data; a missed flush must not push data that stays in the buffer beyond its end. */
    method Put(data: Bytes, acceptFlush: bool, acceptData: bool) returns (failed: bool)
      requires Valid() && |data| < TWO_32
      requires |data| <= capacity ==> !MissedFlush(View(), |data|)
      modifies this, file, buffer
      ensures Valid() && Attempt(View(), !failed) == WriteIO(old(View()), data, acceptFlush, acceptData)
    {
      WrappedSum(View(), |data|);
      if (|data| + offset) % TWO_32 > capacity {
        failed := FlushOut(acceptFlush);
        if failed {
          return;
        }
      }
      if |data| > capacity {
        failed := file.Put(data, acceptData);
      } else {
        ghost var before: Bytes := buffer[..offset];
        forall k | 0 <= k < |data| {
          buffer[offset + k] := data[k];
        }
        assert buffer[..offset + |data|] == before + data;
        offset := offset + |data|;
        failed := false;
      }
    }
  }
}
