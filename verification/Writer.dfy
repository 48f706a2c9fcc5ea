/**
 * The generated code writes a message into a buffer from back to front: the last field first, and of each
 * field its payload, then its length, then its tag. What is already written never moves.
 */
module Writer {
  import opened Base
  import opened Varints
  import opened Messages

  // ---------------------------------------------------------------- the fields of a message

  /** A number, left out when it is zero. */
  function VarintField(num: int, v: nat): seq<Token> {
    if v == 0 then [] else [TokVarint(num, v)]
  }

  function BytesField(num: int, b: Bytes): seq<Token> {
    if b == [] then [] else [TokBytes(num, b)]
  }

  /** A flag, left out when it is not set. */
  function BoolField(num: int, b: bool): seq<Token> {
    VarintField(num, if b then 1 else 0)
  }

  function RepeatedField(num: int, bs: seq<Bytes>): (ts: seq<Token>)
    ensures forall i :: 0 <= i < |ts| ==> ts[i].TokBytes? && ts[i].num == num
  {
    if bs == [] then [] else [TokBytes(num, bs[0])] + RepeatedField(num, bs[1..])
  }

  lemma EncodeOne(t: Token)
    requires !t.TokSkipped? && OneByteTag(t.num)
    ensures AllTagged([t]) && EncodeAll([t]) == EncodeToken(t)
  {
  }

  /** The sizes the generated code adds up are those of the encodings. */
  lemma FieldSizes(num: int, v: nat, b: Bytes)
    requires OneByteTag(num)
    ensures AllTagged([TokVarint(num, v)]) && |EncodeAll([TokVarint(num, v)])| == 1 + Sov(v)
    ensures AllTagged([TokBytes(num, b)]) && |EncodeAll([TokBytes(num, b)])| == 1 + |b| + Sov(|b|)
  {
    hide Sov;
    EncodeOne(TokVarint(num, v));
    EncodeOne(TokBytes(num, b));
    SovIsExact(v);
    SovIsExact(|b|);
  }

  // ---------------------------------------------------------------- filling the buffer

  /** The fields `done` stand in the buffer between i and end; all other bytes are as they were. */
  ghost predicate Written(now: Bytes, orig: Bytes, end: nat, i: nat, done: seq<Token>) {
    && AllTagged(done)
    && i + |EncodeAll(done)| == end <= |orig|
    && now == Overwritten(orig, i, EncodeAll(done))
  }

  lemma OverwriteBefore(orig: Bytes, j: nat, front: Bytes, i: nat, done: Bytes)
    requires j + |front| == i && i + |done| <= |orig|
    ensures Overwritten(Overwritten(orig, i, done), j, front) == Overwritten(orig, j, front + done)
  {
  }

  lemma {:induction false} WrittenBefore(
    mid: Bytes, now: Bytes, orig: Bytes, end: nat, i: nat, done: seq<Token>, j: nat, fs: seq<Token>)
    requires Written(mid, orig, end, i, done)
    requires AllTagged(fs) && j + |EncodeAll(fs)| == i && now == Overwritten(mid, j, EncodeAll(fs))
    ensures Written(now, orig, end, j, fs + done)
  {
    hide EncodeAll;
    EncodeConcat(fs, done);
    OverwriteBefore(orig, j, EncodeAll(fs), i, EncodeAll(done));
  }

  /** Writes a tag just before i. */
  method PutByte(data: array<Byte>, i: nat, b: Byte) returns (j: nat)
    requires 0 < i <= data.Length
    modifies data
    ensures j == i - 1 && data[..] == Overwritten(old(data[..]), j, [b])
  {
    j := i - 1;
    data[j] := b;
  }

  /** Copies a payload so that it ends at i. */
  method PutPayload(data: array<Byte>, i: nat, b: Bytes) returns (j: nat)
    requires |b| <= i <= data.Length
    modifies data
    ensures j == i - |b| && data[..] == Overwritten(old(data[..]), j, b)
  {
    j := i - |b|;
    forall k | 0 <= k < |b| {
      data[j + k] := b[k];
    }
  }

  /** Writes the length of what stands between i and the fields already written, and the tag before it. */
  method PutHeader(data: array<Byte>, i: nat, num: int, len: nat) returns (j: nat)
    requires OneByteTag(num) && 1 + |Varint(len)| <= i <= data.Length
    modifies data
    ensures j == i - 1 - |Varint(len)| && data[..] == Overwritten(old(data[..]), j, [8 * num + 2] + Varint(len))
  {
    ghost var orig: Bytes := data[..];
    var k := EncodeVarint(data, i, len);
    j := PutByte(data, k, 8 * num + 2);
    OverwriteBefore(orig, j, [8 * num + 2], k, Varint(len));
  }

  /** A number with its tag, or nothing. */
  method PutVarint(
    data: array<Byte>, i: nat, num: int, v: nat, ghost orig: Bytes, ghost end: nat, ghost done: seq<Token>)
    returns (j: nat)
    requires OneByteTag(num) && Written(data[..], orig, end, i, done)
    requires |EncodeAll(VarintField(num, v))| <= i
    modifies data
    ensures j == i - |EncodeAll(VarintField(num, v))|
    ensures Written(data[..], orig, end, j, VarintField(num, v) + done)
  {
    hide EncodeAll;
    hide Varint;
    j := i;
    if v != 0 {
      EncodeOne(TokVarint(num, v));
      ghost var mid: Bytes := data[..];
      var k := EncodeVarint(data, i, v);
      j := PutByte(data, k, 8 * num);
      OverwriteBefore(mid, j, [8 * num], k, Varint(v));
      WrittenBefore(mid, data[..], orig, end, i, done, j, [TokVarint(num, v)]);
    } else {
      EmptyEncoding();
      assert [] + done == done;
    }
  }

  /** A payload with its length and tag. */
  method PutBytes(
    data: array<Byte>, i: nat, num: int, b: Bytes, ghost orig: Bytes, ghost end: nat, ghost done: seq<Token>)
    returns (j: nat)
    requires OneByteTag(num) && Written(data[..], orig, end, i, done)
    requires |EncodeAll([TokBytes(num, b)])| <= i
    modifies data
    ensures j == i - |EncodeAll([TokBytes(num, b)])|
    ensures Written(data[..], orig, end, j, [TokBytes(num, b)] + done)
  {
    hide EncodeAll;
    hide Varint;
    EncodeOne(TokBytes(num, b));
    ghost var mid: Bytes := data[..];
    var k := PutPayload(data, i, b);
    j := PutHeader(data, k, num, |b|);
    OverwriteBefore(mid, j, [8 * num + 2] + Varint(|b|), k, b);
    assert [8 * num + 2] + Varint(|b|) + b == EncodeToken(TokBytes(num, b));
    WrittenBefore(mid, data[..], orig, end, i, done, j, [TokBytes(num, b)]);
  }

  /** The header of a nested message that has just been written before the fields `done`. */
  method PutNested(data: array<Byte>, i: nat, num: int, size: nat, ghost b: Bytes, ghost orig: Bytes, ghost end: nat,
                   ghost done: seq<Token>, ghost mid: Bytes)
    returns (j: nat)
    requires OneByteTag(num) && size == |b| && i + |b| <= |mid| && Written(mid, orig, end, i + |b|, done)
    requires |EncodeAll([TokBytes(num, b)])| <= i + |b| && data[..] == Overwritten(mid, i, b)
    modifies data
    ensures Written(data[..], orig, end, j, [TokBytes(num, b)] + done)
  {
    hide EncodeAll;
    hide Varint;
    EncodeOne(TokBytes(num, b));
    j := PutHeader(data, i, num, size);
    OverwriteBefore(mid, j, [8 * num + 2] + Varint(|b|), i, b);
    assert [8 * num + 2] + Varint(|b|) + b == EncodeToken(TokBytes(num, b));
    WrittenBefore(mid, data[..], orig, end, i + |b|, done, j, [TokBytes(num, b)]);
  }

  /** A payload, or nothing when it is empty. */
  method PutNonempty(
    data: array<Byte>, i: nat, num: int, b: Bytes, ghost orig: Bytes, ghost end: nat, ghost done: seq<Token>)
    returns (j: nat)
    requires OneByteTag(num) && Written(data[..], orig, end, i, done)
    requires |EncodeAll(BytesField(num, b))| <= i
    modifies data
    ensures j == i - |EncodeAll(BytesField(num, b))|
    ensures Written(data[..], orig, end, j, BytesField(num, b) + done)
  {
    j := i;
    if |b| > 0 {
      j := PutBytes(data, i, num, b, orig, end, done);
    } else {
      EmptyEncoding();
      assert [] + done == done;
    }
  }

  lemma RepeatedSuffix(num: int, bs: seq<Bytes>, k: nat)
    requires OneByteTag(num) && k < |bs|
    ensures RepeatedField(num, bs[k..]) == [TokBytes(num, bs[k])] + RepeatedField(num, bs[k + 1..])
    ensures |EncodeAll(RepeatedField(num, bs[k..]))|
            == |EncodeAll([TokBytes(num, bs[k])])| + |EncodeAll(RepeatedField(num, bs[k + 1..]))|
  {
    assert bs[k..][1..] == bs[k + 1..];
    EncodeConcat([TokBytes(num, bs[k])], RepeatedField(num, bs[k + 1..]));
  }

  lemma {:induction false} RepeatedSuffixSize(num: int, bs: seq<Bytes>, k: nat)
    requires OneByteTag(num) && k <= |bs|
    ensures |EncodeAll(RepeatedField(num, bs[k..]))| <= |EncodeAll(RepeatedField(num, bs))|
  {
    hide EncodeAll;
    if k == 0 {
      assert bs[0..] == bs;
    } else {
      RepeatedSuffixSize(num, bs, k - 1);
      RepeatedSuffix(num, bs, k - 1);
    }
  }

  /** Repeated payloads, the last one first. */
  method PutRepeated(data: array<Byte>, i: nat, num: int, bs: seq<Bytes>, ghost orig: Bytes, ghost end: nat)
    returns (j: nat)
    requires OneByteTag(num) && i == end <= data.Length && data[..] == orig
    requires |EncodeAll(RepeatedField(num, bs))| <= i
    modifies data
    ensures Written(data[..], orig, end, j, RepeatedField(num, bs))
  {
    hide EncodeAll;
    j := i;
    var k := |bs|;
    StartWriting(orig, end);
    while k > 0
      invariant 0 <= k <= |bs| && Written(data[..], orig, end, j, RepeatedField(num, bs[k..]))
    {
      k := k - 1;
      RepeatedSuffix(num, bs, k);
      RepeatedSuffixSize(num, bs, k);
      j := PutBytes(data, j, num, bs[k], orig, end, RepeatedField(num, bs[k + 1..]));
    }
    assert bs[0..] == bs;
  }

  lemma StartWriting(orig: Bytes, end: nat)
    requires end <= |orig|
    ensures Written(orig, orig, end, end, [])
  {
  }

  /** The size of repeated payloads, added up one by one. */
  method RepeatedSize(num: int, bs: seq<Bytes>) returns (n: nat)
    requires OneByteTag(num)
    ensures n == |EncodeAll(RepeatedField(num, bs))|
  {
    hide EncodeAll;
    hide Sov;
    n := 0;
    var k := 0;
    assert bs[0..] == bs;
    while k < |bs|
      invariant k <= |bs|
      invariant n + |EncodeAll(RepeatedField(num, bs[k..]))| == |EncodeAll(RepeatedField(num, bs))|
    {
      RepeatedSuffix(num, bs, k);
      FieldSizes(num, 0, bs[k]);
      n := n + 1 + |bs[k]| + Sov(|bs[k]|);
      k := k + 1;
    }
    assert EncodeAll([]) == [] by { EmptyEncoding(); }
  }

  lemma EmptyEncoding()
    ensures EncodeAll([]) == []
  {
  }

  /** The size of a field that is left out when it is zero, or empty. */
  lemma OptionalSizes(num: int, v: nat, b: Bytes)
    requires OneByteTag(num)
    ensures |EncodeAll(VarintField(num, v))| == if v != 0 then 1 + Sov(v) else 0
    ensures |EncodeAll(BytesField(num, b))| == if |b| > 0 then 1 + |b| + Sov(|b|) else 0
  {
    FieldSizes(num, v, b);
    EmptyEncoding();
  }

  lemma SovOfFlag()
    ensures Sov(1) == 1
  {
    SovIsExact(1);
  }

  // ---------------------------------------------------------------- what can be read back

  /** No payload is longer than the encoding it is part of. */
  lemma {:induction false} PayloadsFit(ts: seq<Token>, i: nat)
    requires AllTagged(ts) && i < |ts| && ts[i].TokBytes?
    ensures |ts[i].payload| <= |EncodeAll(ts)|
  {
    if i > 0 {
      PayloadsFit(ts[1..], i - 1);
    }
  }

  /** Fields of the right kinds can be read back if their encoding is not longer than a 63-bit length. */
  lemma ReadBack(kind: int -> Kind, ts: seq<Token>)
    requires AllTagged(ts) && |EncodeAll(ts)| < TWO_63
    requires forall i :: 0 <= i < |ts| ==> match ts[i]
                                           case TokVarint(num, v) => kind(num).KVarint? && v < TWO_64
                                           case TokBytes(num, _) => kind(num).KBytes?
    ensures AllWritable(kind, ts)
  {
    forall i | 0 <= i < |ts| ensures Writable(kind, ts[i]) {
      if ts[i].TokBytes? {
        PayloadsFit(ts, i);
      }
    }
  }

  /** Taking in a field that may have been left out. */
  lemma ApplyVarint<M>(sc: Schema<M>, m: M, num: int, v: nat, m': M)
    requires AllWritable(sc.kind, VarintField(num, v))
    requires v == 0 ==> m' == m
    requires v != 0 ==> sc.kind(num).KVarint? && sc.apply(m, TokVarint(num, Low(v, sc.kind(num).width))) == Ok(m')
    ensures ApplyAll(sc, m, VarintField(num, v)) == Ok(m')
  {
    if v != 0 {
      assert VarintField(num, v)[0] == TokVarint(num, v);
      ApplyOne(sc, m, TokVarint(num, v), m');
    }
  }

  lemma ApplyBytes<M>(sc: Schema<M>, m: M, num: int, b: Bytes, m': M)
    requires AllWritable(sc.kind, BytesField(num, b))
    requires b == [] ==> m' == m
    requires b != [] ==> sc.apply(m, TokBytes(num, b)) == Ok(m')
    ensures ApplyAll(sc, m, BytesField(num, b)) == Ok(m')
  {
    if b != [] {
      assert BytesField(num, b)[0] == TokBytes(num, b);
      ApplyOne(sc, m, TokBytes(num, b), m');
    }
  }

  lemma ApplyOne<M>(sc: Schema<M>, m: M, t: Token, m': M)
    requires Writable(sc.kind, t) && sc.apply(m, Received(sc.kind, t)) == Ok(m')
    ensures AllWritable(sc.kind, [t]) && ApplyAll(sc, m, [t]) == Ok(m')
  {
    assert [t][1..] == [];
  }

  lemma ApplyNothing<M>(sc: Schema<M>, m: M)
    ensures ApplyAll(sc, m, []) == Ok(m)
  {
  }

  lemma WritableParts(kind: int -> Kind, a: seq<Token>, b: seq<Token>)
    requires AllWritable(kind, a + b)
    ensures AllWritable(kind, a) && AllWritable(kind, b)
  {
    forall i | 0 <= i < |a| ensures Writable(kind, a[i]) {
      assert (a + b)[i] == a[i];
    }
    forall i | 0 <= i < |b| ensures Writable(kind, b[i]) {
      assert (a + b)[|a| + i] == b[i];
    }
  }

  lemma WordsFit(v: nat)
    ensures v < TWO_64 ==> Low(v, 64) == v
    ensures v < TWO_32 ==> Low(v, 32) == v
  {
    hide Low;
    LowIsMod(v, 64);
    LowIsMod(v, 32);
    Pow2Values();
    hide Pow2;
    if v < TWO_64 {
      SmallMod(v, TWO_64);
    }
    if v < TWO_32 {
      SmallMod(v, TWO_32);
    }
  }
}
