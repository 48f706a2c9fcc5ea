/** The messages of `tendermint.crypto`: Merkle proofs and proof operations. */
module ProofCodec {
  import opened Base
  import opened Varints
  import opened Messages
  import opened Writer
  import opened Reader

  datatype Proof = Proof(total: Int64, index: Int64, leafHash: Bytes, aunts: seq<Bytes>)
  datatype ValueOp = ValueOp(key: Bytes, proof: Option<Proof>)
  datatype ProofOp = ProofOp(kind: Bytes, key: Bytes, data: Bytes)
  datatype ProofOps = ProofOps(ops: seq<ProofOp>)

  const NO_PROOF := Proof(0, 0, [], [])
  const NO_VALUE_OP := ValueOp([], None)
  const NO_PROOF_OP := ProofOp([], [], [])

  /** A field given later replaces an earlier one, unless it was left out. */
  function Later<T(==)>(zero: T, before: T, after: T): T {
    if after == zero then before else after
  }

  // ---------------------------------------------------------------- Proof

  function ProofTail(m: Proof): seq<Token> {
    BytesField(3, m.leafHash) + RepeatedField(4, m.aunts)
  }

  function ProofFields(m: Proof): (ts: seq<Token>)
    ensures AllTagged(ts)
  {
    VarintField(1, ToUint64(m.total)) + (VarintField(2, ToUint64(m.index)) + ProofTail(m))
  }

  function EncodeProof(m: Proof): Bytes {
    EncodeAll(ProofFields(m))
  }

  function ProofKind(num: int): Kind {
    match num
    case 1 => KVarint(64)
    case 2 => KVarint(64)
    case 3 => KBytes
    case 4 => KBytes
    case _ => KUnknown
  }

  function ApplyProof(m: Proof, t: Token): Parse<Proof> {
    match t
    case TokVarint(1, v) => Ok(m.(total := ToInt64(v)))
    case TokVarint(2, v) => Ok(m.(index := ToInt64(v)))
    case TokBytes(3, b) => Ok(m.(leafHash := b))
    case TokBytes(4, b) => Ok(m.(aunts := m.aunts + [b]))
    case _ => Ok(m)
  }

  function ProofSchema(): Schema<Proof> {
    Schema(ProofKind, ApplyProof)
  }

  /** What a message holds after a second one has been read into it. */
  function MergeProof(a: Proof, b: Proof): Proof {
    Proof(Later(0, a.total, b.total), Later(0, a.index, b.index), Later([], a.leafHash, b.leafHash), a.aunts + b.aunts)
  }

  lemma ProofSplit(m: Proof)
    ensures AllTagged(ProofTail(m))
    ensures |EncodeProof(m)| == |EncodeAll(VarintField(1, ToUint64(m.total)))|
                                + |EncodeAll(VarintField(2, ToUint64(m.index)))| + |EncodeAll(ProofTail(m))|
    ensures |EncodeAll(ProofTail(m))| == |EncodeAll(BytesField(3, m.leafHash))| + |EncodeAll(RepeatedField(4, m.aunts))|
  {
    hide EncodeAll;
    EncodeConcat(BytesField(3, m.leafHash), RepeatedField(4, m.aunts));
    EncodeConcat(VarintField(2, ToUint64(m.index)), ProofTail(m));
    EncodeConcat(VarintField(1, ToUint64(m.total)), VarintField(2, ToUint64(m.index)) + ProofTail(m));
  }

  method SizeProof(m: Proof) returns (n: nat)
    ensures n == |EncodeProof(m)|
  {
    hide EncodeAll;
    hide Sov;
    n := 0;
    if m.total != 0 {
      n := n + 1 + Sov(ToUint64(m.total));
    }
    if m.index != 0 {
      n := n + 1 + Sov(ToUint64(m.index));
    }
    if |m.leafHash| > 0 {
      n := n + 1 + |m.leafHash| + Sov(|m.leafHash|);
    }
    var l := RepeatedSize(4, m.aunts);
    n := n + l;
    ProofSplit(m);
    OptionalSizes(1, ToUint64(m.total), []);
    OptionalSizes(2, ToUint64(m.index), []);
    OptionalSizes(3, 0, m.leafHash);
  }

  /** Fills the part of the buffer that ends at `end`; no other byte changes. */
  method ProofToSizedBuffer(m: Proof, data: array<Byte>, end: nat) returns (i: nat)
    requires |EncodeProof(m)| <= end <= data.Length
    modifies data
    ensures i == end - |EncodeProof(m)|
    ensures data[..] == Overwritten(old(data[..]), i, EncodeProof(m))
  {
    hide EncodeAll;
    ProofSplit(m);
    ghost var orig: Bytes := data[..];
    i := PutRepeated(data, end, 4, m.aunts, orig, end);
    i := PutNonempty(data, i, 3, m.leafHash, orig, end, RepeatedField(4, m.aunts));
    ghost var tail := ProofTail(m);
    i := PutVarint(data, i, 2, ToUint64(m.index), orig, end, tail);
    i := PutVarint(data, i, 1, ToUint64(m.total), orig, end, VarintField(2, ToUint64(m.index)) + tail);
  }

  /** Allocates a buffer of the computed size and fills it; every byte of it is written. */
  method MarshalProof(m: Proof) returns (out: Bytes)
    ensures out == EncodeProof(m)
  {
    var size := SizeProof(m);
    var data := new Byte[size];
    var i := ProofToSizedBuffer(m, data, size);
    out := data[..size - i];
  }

  lemma {:induction false} ApplyAunts(m: Proof, bs: seq<Bytes>)
    requires AllWritable(ProofKind, RepeatedField(4, bs))
    ensures ApplyAll(ProofSchema(), m, RepeatedField(4, bs)) == Ok(m.(aunts := m.aunts + bs))
    decreases |bs|
  {
    if bs == [] {
      assert m.aunts + bs == m.aunts;
    } else {
      var ts := RepeatedField(4, bs);
      assert ts[1..] == RepeatedField(4, bs[1..]);
      forall i | 0 <= i < |bs| - 1 && i < |ts[1..]| ensures Writable(ProofKind, ts[1..][i]) {
        assert ts[1..][i] == ts[i + 1];
      }
      var m' := m.(aunts := m.aunts + [bs[0]]);
      ApplyAunts(m', bs[1..]);
      AppendHead(m.aunts, bs);
    }
  }

  lemma ApplyProofTail(m: Proof, a: Proof)
    requires AllWritable(ProofKind, ProofTail(m))
    ensures ApplyAll(ProofSchema(), a, ProofTail(m))
            == Ok(a.(leafHash := Later([], a.leafHash, m.leafHash), aunts := a.aunts + m.aunts))
  {
    hide ApplyAll;
    var a' := a.(leafHash := Later([], a.leafHash, m.leafHash));
    WritableParts(ProofKind, BytesField(3, m.leafHash), RepeatedField(4, m.aunts));
    ApplyBytes(ProofSchema(), a, 3, m.leafHash, a');
    ApplyConcat(ProofSchema(), a, BytesField(3, m.leafHash), a', RepeatedField(4, m.aunts));
    ApplyAunts(a', m.aunts);
  }

  /** Reading an encoded proof into any proof merges the two. */
  lemma ProofMerges(a: Proof, m: Proof)
    requires |EncodeProof(m)| < TWO_63
    ensures Unmarshal(ProofSchema(), a, EncodeProof(m)) == Ok(MergeProof(a, m))
  {
    hide ApplyAll;
    hide EncodeAll;
    hide Low;
    var sc, t, x := ProofSchema(), ToUint64(m.total), ToUint64(m.index);
    var f1, f2, tail := VarintField(1, t), VarintField(2, x), ProofTail(m);
    ReadBack(ProofKind, ProofFields(m));
    WritableParts(ProofKind, f1, f2 + tail);
    WritableParts(ProofKind, f2, tail);
    var a1 := a.(total := Later(0, a.total, m.total));
    var a2 := a1.(index := Later(0, a.index, m.index));
    WordsFit(t);
    WordsFit(x);
    SignedRoundTrips(m.total, 0);
    SignedRoundTrips(m.index, 0);
    ApplyVarint(sc, a, 1, t, a1);
    ApplyVarint(sc, a1, 2, x, a2);
    ApplyProofTail(m, a2);
    ApplyConcat(sc, a1, f2, a2, tail);
    ApplyConcat(sc, a, f1, a1, f2 + tail);
    UnmarshalWritten(sc, a, ProofFields(m), MergeProof(a, m));
  }

  /** Encoding a proof and reading it into an empty one gives it back, negative numbers included. */
  lemma ProofRoundTrip(m: Proof)
    requires |EncodeProof(m)| < TWO_63
    ensures Unmarshal(ProofSchema(), NO_PROOF, EncodeProof(m)) == Ok(m)
  {
    hide EncodeProof;
    hide Unmarshal;
    ProofMerges(NO_PROOF, m);
    assert [] + m.aunts == m.aunts;
  }

  // ---------------------------------------------------------------- ValueOp

  function NestedProof(m: ValueOp): seq<Token> {
    if m.proof.None? then [] else [TokBytes(2, EncodeProof(m.proof.value))]
  }

  function ValueOpFields(m: ValueOp): (ts: seq<Token>)
    ensures AllTagged(ts)
  {
    BytesField(1, m.key) + NestedProof(m)
  }

  function EncodeValueOp(m: ValueOp): Bytes {
    EncodeAll(ValueOpFields(m))
  }

  function ValueOpKind(num: int): Kind {
    match num
    case 1 => KBytes
    case 2 => KBytes
    case _ => KUnknown
  }

  function ApplyValueOp(m: ValueOp, t: Token): Parse<ValueOp> {
    match t
    case TokBytes(1, b) => Ok(m.(key := b))
    case TokBytes(2, b) =>
      var p :- Unmarshal(ProofSchema(), if m.proof.None? then NO_PROOF else m.proof.value, b);
      Ok(m.(proof := Some(p)))
    case _ => Ok(m)
  }

  function ValueOpSchema(): Schema<ValueOp> {
    Schema(ValueOpKind, ApplyValueOp)
  }

  /** The nested proofs are merged, not replaced. */
  function MergeValueOp(a: ValueOp, b: ValueOp): ValueOp {
    ValueOp(Later([], a.key, b.key),
            if b.proof.None? then a.proof
            else Some(MergeProof(if a.proof.None? then NO_PROOF else a.proof.value, b.proof.value)))
  }

  method SizeValueOp(m: ValueOp) returns (n: nat)
    ensures n == |EncodeValueOp(m)|
  {
    hide EncodeAll;
    hide Sov;
    n := 0;
    if |m.key| > 0 {
      n := n + 1 + |m.key| + Sov(|m.key|);
    }
    OptionalSizes(1, 0, m.key);
    EncodeConcat(BytesField(1, m.key), NestedProof(m));
    EmptyEncoding();
    if m.proof.Some? {
      var l := SizeProof(m.proof.value);
      FieldSizes(2, 0, EncodeProof(m.proof.value));
      n := n + 1 + l + Sov(l);
    }
  }

  method ValueOpToSizedBuffer(m: ValueOp, data: array<Byte>, end: nat) returns (i: nat)
    requires |EncodeValueOp(m)| <= end <= data.Length
    modifies data
    ensures i == end - |EncodeValueOp(m)|
    ensures data[..] == Overwritten(old(data[..]), i, EncodeValueOp(m))
  {
    hide EncodeAll;
    hide EncodeProof;
    EncodeConcat(BytesField(1, m.key), NestedProof(m));
    ghost var orig: Bytes := data[..];
    i := end;
    StartWriting(orig, end);
    if m.proof.Some? {
      ghost var b := EncodeProof(m.proof.value);
      FieldSizes(2, 0, b);
      var start := ProofToSizedBuffer(m.proof.value, data, i);
      i := PutNested(data, start, 2, i - start, b, orig, end, [], orig);
      assert [TokBytes(2, b)] + [] == [TokBytes(2, b)];
    }
    i := PutNonempty(data, i, 1, m.key, orig, end, NestedProof(m));
  }

  /** Allocates a buffer of the computed size and fills it; every byte of it is written. */
  method MarshalValueOp(m: ValueOp) returns (out: Bytes)
    ensures out == EncodeValueOp(m)
  {
    var size := SizeValueOp(m);
    var data := new Byte[size];
    var i := ValueOpToSizedBuffer(m, data, size);
    out := data[..size - i];
  }

  lemma {:induction false} ApplyNestedProof(m: ValueOp, a: ValueOp)
    requires AllWritable(ValueOpKind, NestedProof(m))
    ensures ApplyAll(ValueOpSchema(), a, NestedProof(m)) == Ok(a.(proof := MergeValueOp(a, m).proof))
  {
    hide EncodeProof;
    if m.proof.Some? {
      var t := NestedProof(m)[0];
      ProofMerges(if a.proof.None? then NO_PROOF else a.proof.value, m.proof.value);
      ApplyOne(ValueOpSchema(), a, t, a.(proof := MergeValueOp(a, m).proof));
    }
  }

  lemma ValueOpMerges(a: ValueOp, m: ValueOp)
    requires |EncodeValueOp(m)| < TWO_63
    ensures Unmarshal(ValueOpSchema(), a, EncodeValueOp(m)) == Ok(MergeValueOp(a, m))
  {
    hide ApplyAll;
    hide EncodeAll;
    hide EncodeProof;
    var sc, f1, f2 := ValueOpSchema(), BytesField(1, m.key), NestedProof(m);
    ReadBack(ValueOpKind, ValueOpFields(m));
    WritableParts(ValueOpKind, f1, f2);
    var a1 := a.(key := Later([], a.key, m.key));
    ApplyBytes(sc, a, 1, m.key, a1);
    ApplyNestedProof(m, a1);
    ApplyConcat(sc, a, f1, a1, f2);
    UnmarshalWritten(sc, a, ValueOpFields(m), MergeValueOp(a, m));
  }

  lemma {:induction false} ValueOpRoundTrip(m: ValueOp)
    requires |EncodeValueOp(m)| < TWO_63
    ensures Unmarshal(ValueOpSchema(), NO_VALUE_OP, EncodeValueOp(m)) == Ok(m)
  {
    hide EncodeValueOp;
    ValueOpMerges(NO_VALUE_OP, m);
    if m.proof.Some? {
      assert [] + m.proof.value.aunts == m.proof.value.aunts;
    }
  }

  /** Two encodings one after the other are read as one message that merges the two. */
  lemma {:induction false} ConcatenatedValueOps(a: ValueOp, b: ValueOp)
    requires |EncodeValueOp(a)| < TWO_63 && |EncodeValueOp(b)| < TWO_63
    ensures Unmarshal(ValueOpSchema(), NO_VALUE_OP, EncodeValueOp(a) + EncodeValueOp(b)) == Ok(MergeValueOp(a, b))
  {
    hide Unmarshal;
    hide EncodeValueOp;
    ValueOpRoundTrip(a);
    ValueOpMerges(a, b);
    ConcatenationMerges(ValueOpSchema(), NO_VALUE_OP, EncodeValueOp(a), EncodeValueOp(b));
  }

  // ---------------------------------------------------------------- ProofOp

  function ProofOpFields(m: ProofOp): (ts: seq<Token>)
    ensures AllTagged(ts)
  {
    BytesField(1, m.kind) + (BytesField(2, m.key) + BytesField(3, m.data))
  }

  function EncodeProofOp(m: ProofOp): Bytes {
    EncodeAll(ProofOpFields(m))
  }

  function ProofOpKind(num: int): Kind {
    if 1 <= num <= 3 then KBytes else KUnknown
  }

  function ApplyProofOp(m: ProofOp, t: Token): Parse<ProofOp> {
    match t
    case TokBytes(1, b) => Ok(m.(kind := b))
    case TokBytes(2, b) => Ok(m.(key := b))
    case TokBytes(3, b) => Ok(m.(data := b))
    case _ => Ok(m)
  }

  function ProofOpSchema(): Schema<ProofOp> {
    Schema(ProofOpKind, ApplyProofOp)
  }

  lemma ProofOpSplit(m: ProofOp)
    ensures |EncodeProofOp(m)| == |EncodeAll(BytesField(1, m.kind))| + |EncodeAll(BytesField(2, m.key))|
                                  + |EncodeAll(BytesField(3, m.data))|
  {
    hide EncodeAll;
    EncodeConcat(BytesField(2, m.key), BytesField(3, m.data));
    EncodeConcat(BytesField(1, m.kind), BytesField(2, m.key) + BytesField(3, m.data));
  }

  method SizeProofOp(m: ProofOp) returns (n: nat)
    ensures n == |EncodeProofOp(m)|
  {
    hide EncodeAll;
    hide Sov;
    n := 0;
    if |m.kind| > 0 {
      n := n + 1 + |m.kind| + Sov(|m.kind|);
    }
    if |m.key| > 0 {
      n := n + 1 + |m.key| + Sov(|m.key|);
    }
    if |m.data| > 0 {
      n := n + 1 + |m.data| + Sov(|m.data|);
    }
    ProofOpSplit(m);
    OptionalSizes(1, 0, m.kind);
    OptionalSizes(2, 0, m.key);
    OptionalSizes(3, 0, m.data);
  }

  method ProofOpToSizedBuffer(m: ProofOp, data: array<Byte>, end: nat) returns (i: nat)
    requires |EncodeProofOp(m)| <= end <= data.Length
    modifies data
    ensures i == end - |EncodeProofOp(m)|
    ensures data[..] == Overwritten(old(data[..]), i, EncodeProofOp(m))
  {
    hide EncodeAll;
    ProofOpSplit(m);
    ghost var orig: Bytes := data[..];
    StartWriting(orig, end);
    i := PutNonempty(data, end, 3, m.data, orig, end, []);
    ghost var done := BytesField(3, m.data);
    assert done + [] == done;
    i := PutNonempty(data, i, 2, m.key, orig, end, done);
    i := PutNonempty(data, i, 1, m.kind, orig, end, BytesField(2, m.key) + done);
  }

  /** Allocates a buffer of the computed size and fills it; every byte of it is written. */
  method MarshalProofOp(m: ProofOp) returns (out: Bytes)
    ensures out == EncodeProofOp(m)
  {
    var size := SizeProofOp(m);
    var data := new Byte[size];
    var i := ProofOpToSizedBuffer(m, data, size);
    out := data[..size - i];
  }

  lemma {:induction false} ProofOpRoundTrip(m: ProofOp)
    requires |EncodeProofOp(m)| < TWO_63
    ensures Unmarshal(ProofOpSchema(), NO_PROOF_OP, EncodeProofOp(m)) == Ok(m)
  {
    hide ApplyAll;
    hide EncodeAll;
    var sc, f1, f2, f3 := ProofOpSchema(), BytesField(1, m.kind), BytesField(2, m.key), BytesField(3, m.data);
    ReadBack(ProofOpKind, ProofOpFields(m));
    WritableParts(ProofOpKind, f1, f2 + f3);
    WritableParts(ProofOpKind, f2, f3);
    var a1 := NO_PROOF_OP.(kind := m.kind);
    var a2 := a1.(key := m.key);
    ApplyBytes(sc, NO_PROOF_OP, 1, m.kind, a1);
    ApplyBytes(sc, a1, 2, m.key, a2);
    ApplyBytes(sc, a2, 3, m.data, m);
    ApplyConcat(sc, a1, f2, a2, f3);
    ApplyConcat(sc, NO_PROOF_OP, f1, a1, f2 + f3);
    UnmarshalWritten(sc, NO_PROOF_OP, ProofOpFields(m), m);
  }

  // ---------------------------------------------------------------- ProofOps

  function EncodeEach(ops: seq<ProofOp>): (bs: seq<Bytes>)
    ensures |bs| == |ops| && forall i :: 0 <= i < |ops| ==> bs[i] == EncodeProofOp(ops[i])
  {
    if ops == [] then [] else [EncodeProofOp(ops[0])] + EncodeEach(ops[1..])
  }

  function EncodeProofOps(m: ProofOps): Bytes {
    EncodeAll(RepeatedField(1, EncodeEach(m.ops)))
  }

  function ProofOpsKind(num: int): Kind {
    if num == 1 then KBytes else KUnknown
  }

  function ApplyProofOps(m: ProofOps, t: Token): Parse<ProofOps> {
    match t
    case TokBytes(1, b) =>
      var op :- Unmarshal(ProofOpSchema(), NO_PROOF_OP, b);
      Ok(ProofOps(m.ops + [op]))
    case _ => Ok(m)
  }

  function ProofOpsSchema(): Schema<ProofOps> {
    Schema(ProofOpsKind, ApplyProofOps)
  }

  method SizeProofOps(m: ProofOps) returns (n: nat)
    ensures n == |EncodeProofOps(m)|
  {
    hide EncodeAll;
    hide EncodeProofOp;
    hide Sov;
    n := 0;
    ghost var bs := EncodeEach(m.ops);
    assert bs[0..] == bs;
    var k := 0;
    while k < |m.ops|
      invariant k <= |m.ops|
      invariant n + |EncodeAll(RepeatedField(1, bs[k..]))| == |EncodeAll(RepeatedField(1, bs))|
    {
      RepeatedSuffix(1, bs, k);
      FieldSizes(1, 0, bs[k]);
      var l := SizeProofOp(m.ops[k]);
      n := n + 1 + l + Sov(l);
      k := k + 1;
    }
    EmptyEncoding();
  }

  method ProofOpsToSizedBuffer(m: ProofOps, data: array<Byte>, end: nat) returns (i: nat)
    requires |EncodeProofOps(m)| <= end <= data.Length
    modifies data
    ensures i == end - |EncodeProofOps(m)|
    ensures data[..] == Overwritten(old(data[..]), i, EncodeProofOps(m))
  {
    hide EncodeAll;
    hide EncodeProofOp;
    ghost var orig: Bytes, bs := data[..], EncodeEach(m.ops);
    StartWriting(orig, end);
    i := end;
    var k := |m.ops|;
    while k > 0
      invariant 0 <= k <= |m.ops| && Written(data[..], orig, end, i, RepeatedField(1, bs[k..]))
    {
      k := k - 1;
      RepeatedSuffix(1, bs, k);
      RepeatedSuffixSize(1, bs, k);
      FieldSizes(1, 0, bs[k]);
      ghost var mid: Bytes := data[..];
      var start := ProofOpToSizedBuffer(m.ops[k], data, i);
      i := PutNested(data, start, 1, i - start, bs[k], orig, end, RepeatedField(1, bs[k + 1..]), mid);
    }
    assert bs[0..] == bs;
  }

  /** Allocates a buffer of the computed size and fills it; every byte of it is written. */
  method MarshalProofOps(m: ProofOps) returns (out: Bytes)
    ensures out == EncodeProofOps(m)
  {
    var size := SizeProofOps(m);
    var data := new Byte[size];
    var i := ProofOpsToSizedBuffer(m, data, size);
    out := data[..size - i];
  }

  lemma FirstOp(ops: seq<ProofOp>)
    requires ops != []
    ensures RepeatedField(1, EncodeEach(ops))
            == [TokBytes(1, EncodeProofOp(ops[0]))] + RepeatedField(1, EncodeEach(ops[1..]))
  {
    hide EncodeProofOp;
    assert EncodeEach(ops)[1..] == EncodeEach(ops[1..]);
  }

  lemma ApplyOp(a: ProofOps, op: ProofOp)
    requires Writable(ProofOpsKind, TokBytes(1, EncodeProofOp(op)))
    ensures AllWritable(ProofOpsKind, [TokBytes(1, EncodeProofOp(op))])
    ensures ApplyAll(ProofOpsSchema(), a, [TokBytes(1, EncodeProofOp(op))]) == Ok(ProofOps(a.ops + [op]))
  {
    hide EncodeProofOp;
    hide ApplyAll;
    hide Unmarshal;
    ProofOpRoundTrip(op);
    ApplyOne(ProofOpsSchema(), a, TokBytes(1, EncodeProofOp(op)), ProofOps(a.ops + [op]));
  }

  lemma {:induction false} ApplyOps(a: ProofOps, ops: seq<ProofOp>)
    requires AllWritable(ProofOpsKind, RepeatedField(1, EncodeEach(ops)))
    ensures ApplyAll(ProofOpsSchema(), a, RepeatedField(1, EncodeEach(ops))) == Ok(ProofOps(a.ops + ops))
    decreases |ops|
  {
    hide EncodeProofOp;
    hide ApplyAll;
    hide Unmarshal;
    if ops == [] {
      assert a.ops + ops == a.ops;
      ApplyNothing(ProofOpsSchema(), a);
    } else {
      hide EncodeEach;
      hide RepeatedField;
      var head, rest := [TokBytes(1, EncodeProofOp(ops[0]))], RepeatedField(1, EncodeEach(ops[1..]));
      FirstOp(ops);
      WritableParts(ProofOpsKind, head, rest);
      assert Writable(ProofOpsKind, head[0]);
      var a' := ProofOps(a.ops + [ops[0]]);
      ApplyOp(a, ops[0]);
      ApplyConcat(ProofOpsSchema(), a, head, a', rest);
      ApplyOps(a', ops[1..]);
      AppendHead(a.ops, ops);
    }
  }

  lemma AppendHead<T>(a: seq<T>, s: seq<T>)
    requires s != []
    ensures a + [s[0]] + s[1..] == a + s
  {
  }

  lemma {:induction false} ProofOpsMerge(a: ProofOps, m: ProofOps)
    requires |EncodeProofOps(m)| < TWO_63
    ensures Unmarshal(ProofOpsSchema(), a, EncodeProofOps(m)) == Ok(ProofOps(a.ops + m.ops))
  {
    hide ApplyAll;
    hide EncodeAll;
    var ts := RepeatedField(1, EncodeEach(m.ops));
    ReadBack(ProofOpsKind, ts);
    ApplyOps(a, m.ops);
    UnmarshalWritten(ProofOpsSchema(), a, ts, ProofOps(a.ops + m.ops));
  }

  lemma {:induction false} ProofOpsRoundTrip(m: ProofOps)
    requires |EncodeProofOps(m)| < TWO_63
    ensures Unmarshal(ProofOpsSchema(), ProofOps([]), EncodeProofOps(m)) == Ok(m)
  {
    hide EncodeProofOps;
    ProofOpsMerge(ProofOps([]), m);
    assert [] + m.ops == m.ops;
  }

  /** What one side marshals the other side reads back. */
  method TransmitValueOp(m: ValueOp) returns (r: Parse<ValueOp>)
    requires |EncodeValueOp(m)| < TWO_63
    ensures r == Ok(m)
  {
    hide Unmarshal;
    hide EncodeValueOp;
    var data := MarshalValueOp(m);
    ValueOpRoundTrip(m);
    r := Decode(ValueOpSchema(), NO_VALUE_OP, data);
  }

  /** What one side marshals the other side reads back. */
  method TransmitProofOps(m: ProofOps) returns (r: Parse<ProofOps>)
    requires |EncodeProofOps(m)| < TWO_63
    ensures r == Ok(m)
  {
    hide Unmarshal;
    hide EncodeProofOps;
    var data := MarshalProofOps(m);
    ProofOpsRoundTrip(m);
    r := Decode(ProofOpsSchema(), ProofOps([]), data);
  }
}
