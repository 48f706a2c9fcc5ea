/** The messages of `tendermint.statesync`: a oneof over requests and responses for snapshots and chunks. */
module StateSyncCodec {
  import opened Base
  import opened Varints
  import opened Messages
  import opened Writer
  import opened Reader

  datatype SnapshotsResponse =
    SnapshotsResponse(height: Uint64, format: Uint32, chunks: Uint32, hash: Bytes, metadata: Bytes)
  datatype ChunkRequest = ChunkRequest(height: Uint64, format: Uint32, index: Uint32)
  datatype ChunkResponse = ChunkResponse(height: Uint64, format: Uint32, index: Uint32, chunk: Bytes, missing: bool)
  datatype Message =
    | Unset
    | AskSnapshots
    | TellSnapshots(snapshots: SnapshotsResponse)
    | AskChunk(wanted: ChunkRequest)
    | TellChunk(found: ChunkResponse)

  const NO_SNAPSHOTS := SnapshotsResponse(0, 0, 0, [], [])
  const NO_REQUEST := ChunkRequest(0, 0, 0)
  const NO_CHUNK := ChunkResponse(0, 0, 0, [], false)

  // ---------------------------------------------------------------- the three numbers every message starts with

  function Numbers(h: nat, f: nat, x: nat): (ts: seq<Token>)
    ensures AllTagged(ts)
  {
    VarintField(1, h) + (VarintField(2, f) + VarintField(3, x))
  }

  lemma NumbersSplit(h: nat, f: nat, x: nat)
    ensures |EncodeAll(Numbers(h, f, x))|
            == |EncodeAll(VarintField(1, h))| + |EncodeAll(VarintField(2, f))| + |EncodeAll(VarintField(3, x))|
  {
    hide EncodeAll;
    EncodeConcat(VarintField(2, f), VarintField(3, x));
    EncodeConcat(VarintField(1, h), VarintField(2, f) + VarintField(3, x));
  }

  method SizeNumbers(h: nat, f: nat, x: nat) returns (n: nat)
    ensures n == |EncodeAll(Numbers(h, f, x))|
  {
    hide EncodeAll;
    hide Sov;
    n := 0;
    if h != 0 {
      n := n + 1 + Sov(h);
    }
    if f != 0 {
      n := n + 1 + Sov(f);
    }
    if x != 0 {
      n := n + 1 + Sov(x);
    }
    NumbersSplit(h, f, x);
    OptionalSizes(1, h, []);
    OptionalSizes(2, f, []);
    OptionalSizes(3, x, []);
  }

  method PutNumbers(data: array<Byte>, end: nat, h: nat, f: nat, x: nat, ghost orig: Bytes, ghost last: nat,
                    ghost done: seq<Token>)
    returns (i: nat)
    requires Written(data[..], orig, last, end, done) && |EncodeAll(Numbers(h, f, x))| <= end
    modifies data
    ensures Written(data[..], orig, last, i, Numbers(h, f, x) + done)
  {
    hide EncodeAll;
    NumbersSplit(h, f, x);
    i := PutVarint(data, end, 3, x, orig, last, done);
    i := PutVarint(data, i, 2, f, orig, last, VarintField(3, x) + done);
    ghost var two := VarintField(2, f) + (VarintField(3, x) + done);
    i := PutVarint(data, i, 1, h, orig, last, two);
    assert VarintField(1, h) + two == Numbers(h, f, x) + done;
  }

  /** Taking in the three numbers, for any type that stores them so. */
  lemma ApplyNumbers<M>(sc: Schema<M>, a: M, h: nat, f: nat, x: nat, a1: M, a2: M, a3: M)
    requires h < TWO_64 && f < TWO_32 && x < TWO_32
    requires sc.kind(1) == KVarint(64) && sc.kind(2) == KVarint(32) && sc.kind(3) == KVarint(32)
    requires if h == 0 then a1 == a else sc.apply(a, TokVarint(1, h)) == Ok(a1)
    requires if f == 0 then a2 == a1 else sc.apply(a1, TokVarint(2, f)) == Ok(a2)
    requires if x == 0 then a3 == a2 else sc.apply(a2, TokVarint(3, x)) == Ok(a3)
    ensures AllWritable(sc.kind, Numbers(h, f, x)) && ApplyAll(sc, a, Numbers(h, f, x)) == Ok(a3)
  {
    hide ApplyAll;
    hide Low;
    WordsFit(h);
    WordsFit(f);
    WordsFit(x);
    var f1, f2, f3 := VarintField(1, h), VarintField(2, f), VarintField(3, x);
    ApplyVarint(sc, a, 1, h, a1);
    ApplyVarint(sc, a1, 2, f, a2);
    ApplyVarint(sc, a2, 3, x, a3);
    ApplyConcat(sc, a1, f2, a2, f3);
    ApplyConcat(sc, a, f1, a1, f2 + f3);
  }

  // ---------------------------------------------------------------- SnapshotsResponse

  function Hashes(m: SnapshotsResponse): (ts: seq<Token>)
    ensures AllTagged(ts)
  {
    BytesField(4, m.hash) + BytesField(5, m.metadata)
  }

  function SnapshotsResponseFields(m: SnapshotsResponse): (ts: seq<Token>)
    ensures AllTagged(ts)
  {
    Numbers(m.height, m.format, m.chunks) + Hashes(m)
  }

  function EncodeSnapshotsResponse(m: SnapshotsResponse): Bytes {
    EncodeAll(SnapshotsResponseFields(m))
  }

  function SnapshotsResponseKind(num: int): Kind {
    match num
    case 1 => KVarint(64)
    case 2 => KVarint(32)
    case 3 => KVarint(32)
    case 4 => KBytes
    case 5 => KBytes
    case _ => KUnknown
  }

  function ApplySnapshotsResponse(m: SnapshotsResponse, t: Token): Parse<SnapshotsResponse> {
    match t
    case TokVarint(1, v) => Ok(m.(height := v % TWO_64))
    case TokVarint(2, v) => Ok(m.(format := v % TWO_32))
    case TokVarint(3, v) => Ok(m.(chunks := v % TWO_32))
    case TokBytes(4, b) => Ok(m.(hash := b))
    case TokBytes(5, b) => Ok(m.(metadata := b))
    case _ => Ok(m)
  }

  function SnapshotsResponseSchema(): Schema<SnapshotsResponse> {
    Schema(SnapshotsResponseKind, ApplySnapshotsResponse)
  }

  lemma SnapshotsResponseSplit(m: SnapshotsResponse)
    ensures |EncodeSnapshotsResponse(m)|
            == |EncodeAll(Numbers(m.height, m.format, m.chunks))|
               + |EncodeAll(BytesField(4, m.hash))| + |EncodeAll(BytesField(5, m.metadata))|
  {
    hide EncodeAll;
    EncodeConcat(BytesField(4, m.hash), BytesField(5, m.metadata));
    EncodeConcat(Numbers(m.height, m.format, m.chunks), Hashes(m));
  }

  method SizeSnapshotsResponse(m: SnapshotsResponse) returns (n: nat)
    ensures n == |EncodeSnapshotsResponse(m)|
  {
    hide EncodeAll;
    hide Sov;
    n := SizeNumbers(m.height, m.format, m.chunks);
    if |m.hash| > 0 {
      n := n + 1 + |m.hash| + Sov(|m.hash|);
    }
    if |m.metadata| > 0 {
      n := n + 1 + |m.metadata| + Sov(|m.metadata|);
    }
    SnapshotsResponseSplit(m);
    OptionalSizes(4, 0, m.hash);
    OptionalSizes(5, 0, m.metadata);
  }

  method SnapshotsResponseToSizedBuffer(m: SnapshotsResponse, data: array<Byte>, end: nat) returns (i: nat)
    requires |EncodeSnapshotsResponse(m)| <= end <= data.Length
    modifies data
    ensures i == end - |EncodeSnapshotsResponse(m)|
    ensures data[..] == Overwritten(old(data[..]), i, EncodeSnapshotsResponse(m))
  {
    hide EncodeAll;
    SnapshotsResponseSplit(m);
    ghost var orig: Bytes, done := data[..], BytesField(5, m.metadata);
    StartWriting(orig, end);
    i := PutNonempty(data, end, 5, m.metadata, orig, end, []);
    assert done + [] == done;
    i := PutNonempty(data, i, 4, m.hash, orig, end, done);
    i := PutNumbers(data, i, m.height, m.format, m.chunks, orig, end, Hashes(m));
  }

  lemma ApplyHashes(m: SnapshotsResponse, a: SnapshotsResponse)
    requires AllWritable(SnapshotsResponseKind, Hashes(m)) && a.hash == [] && a.metadata == []
    ensures ApplyAll(SnapshotsResponseSchema(), a, Hashes(m)) == Ok(a.(hash := m.hash, metadata := m.metadata))
  {
    hide ApplyAll;
    var sc, f4, f5 := SnapshotsResponseSchema(), BytesField(4, m.hash), BytesField(5, m.metadata);
    var a4 := a.(hash := m.hash);
    WritableParts(SnapshotsResponseKind, f4, f5);
    ApplyBytes(sc, a, 4, m.hash, a4);
    ApplyBytes(sc, a4, 5, m.metadata, a4.(metadata := m.metadata));
    ApplyConcat(sc, a, f4, a4, f5);
  }

  lemma {:induction false} SnapshotsResponseRoundTrip(m: SnapshotsResponse)
    requires |EncodeSnapshotsResponse(m)| < TWO_63
    ensures Unmarshal(SnapshotsResponseSchema(), NO_SNAPSHOTS, EncodeSnapshotsResponse(m)) == Ok(m)
  {
    hide ApplyAll;
    hide EncodeAll;
    var sc, numbers := SnapshotsResponseSchema(), Numbers(m.height, m.format, m.chunks);
    ReadBack(SnapshotsResponseKind, SnapshotsResponseFields(m));
    hide Unmarshal;
    WritableParts(SnapshotsResponseKind, numbers, Hashes(m));
    var a1 := NO_SNAPSHOTS.(height := m.height);
    var a2 := a1.(format := m.format);
    var a3 := a2.(chunks := m.chunks);
    ApplyNumbers(sc, NO_SNAPSHOTS, m.height, m.format, m.chunks, a1, a2, a3);
    ApplyHashes(m, a3);
    ApplyConcat(sc, NO_SNAPSHOTS, numbers, a3, Hashes(m));
    UnmarshalWritten(sc, NO_SNAPSHOTS, SnapshotsResponseFields(m), m);
  }

  // ---------------------------------------------------------------- ChunkRequest

  function EncodeChunkRequest(m: ChunkRequest): Bytes {
    EncodeAll(Numbers(m.height, m.format, m.index))
  }

  function ChunkRequestKind(num: int): Kind {
    match num
    case 1 => KVarint(64)
    case 2 => KVarint(32)
    case 3 => KVarint(32)
    case _ => KUnknown
  }

  function ApplyChunkRequest(m: ChunkRequest, t: Token): Parse<ChunkRequest> {
    match t
    case TokVarint(1, v) => Ok(m.(height := v % TWO_64))
    case TokVarint(2, v) => Ok(m.(format := v % TWO_32))
    case TokVarint(3, v) => Ok(m.(index := v % TWO_32))
    case _ => Ok(m)
  }

  function ChunkRequestSchema(): Schema<ChunkRequest> {
    Schema(ChunkRequestKind, ApplyChunkRequest)
  }

  method ChunkRequestToSizedBuffer(m: ChunkRequest, data: array<Byte>, end: nat) returns (i: nat)
    requires |EncodeChunkRequest(m)| <= end <= data.Length
    modifies data
    ensures i == end - |EncodeChunkRequest(m)|
    ensures data[..] == Overwritten(old(data[..]), i, EncodeChunkRequest(m))
  {
    hide EncodeAll;
    ghost var orig: Bytes := data[..];
    StartWriting(orig, end);
    ghost var ts := Numbers(m.height, m.format, m.index);
    assert ts + [] == ts;
    i := PutNumbers(data, end, m.height, m.format, m.index, orig, end, []);
  }

  lemma ChunkRequestRoundTrip(m: ChunkRequest)
    ensures Unmarshal(ChunkRequestSchema(), NO_REQUEST, EncodeChunkRequest(m)) == Ok(m)
  {
    var a1 := NO_REQUEST.(height := m.height);
    var a2 := a1.(format := m.format);
    hide ApplyAll;
    hide EncodeAll;
    ApplyNumbers(ChunkRequestSchema(), NO_REQUEST, m.height, m.format, m.index, a1, a2, m);
    UnmarshalWritten(ChunkRequestSchema(), NO_REQUEST, Numbers(m.height, m.format, m.index), m);
  }

  // ---------------------------------------------------------------- ChunkResponse

  function ChunkTail(m: ChunkResponse): (ts: seq<Token>)
    ensures AllTagged(ts)
  {
    BytesField(4, m.chunk) + BoolField(5, m.missing)
  }

  function ChunkResponseFields(m: ChunkResponse): (ts: seq<Token>)
    ensures AllTagged(ts)
  {
    Numbers(m.height, m.format, m.index) + ChunkTail(m)
  }

  function EncodeChunkResponse(m: ChunkResponse): Bytes {
    EncodeAll(ChunkResponseFields(m))
  }

  function ChunkResponseKind(num: int): Kind {
    match num
    case 1 => KVarint(64)
    case 2 => KVarint(32)
    case 3 => KVarint(32)
    case 4 => KBytes
    case 5 => KVarint(64)
    case _ => KUnknown
  }

  function ApplyChunkResponse(m: ChunkResponse, t: Token): Parse<ChunkResponse> {
    match t
    case TokVarint(1, v) => Ok(m.(height := v % TWO_64))
    case TokVarint(2, v) => Ok(m.(format := v % TWO_32))
    case TokVarint(3, v) => Ok(m.(index := v % TWO_32))
    case TokBytes(4, b) => Ok(m.(chunk := b))
    case TokVarint(5, v) => Ok(m.(missing := v != 0))
    case _ => Ok(m)
  }

  function ChunkResponseSchema(): Schema<ChunkResponse> {
    Schema(ChunkResponseKind, ApplyChunkResponse)
  }

  lemma ChunkResponseSplit(m: ChunkResponse)
    ensures |EncodeChunkResponse(m)| == |EncodeAll(Numbers(m.height, m.format, m.index))|
                                        + |EncodeAll(BytesField(4, m.chunk))| + |EncodeAll(BoolField(5, m.missing))|
  {
    hide EncodeAll;
    EncodeConcat(BytesField(4, m.chunk), BoolField(5, m.missing));
    EncodeConcat(Numbers(m.height, m.format, m.index), ChunkTail(m));
  }

  method SizeChunkResponse(m: ChunkResponse) returns (n: nat)
    ensures n == |EncodeChunkResponse(m)|
  {
    hide EncodeAll;
    hide Sov;
    n := SizeNumbers(m.height, m.format, m.index);
    if |m.chunk| > 0 {
      n := n + 1 + |m.chunk| + Sov(|m.chunk|);
    }
    if m.missing {
      n := n + 2;
    }
    ChunkResponseSplit(m);
    OptionalSizes(4, 0, m.chunk);
    OptionalSizes(5, if m.missing then 1 else 0, []);
    SovOfFlag();
  }

  method ChunkResponseToSizedBuffer(m: ChunkResponse, data: array<Byte>, end: nat) returns (i: nat)
    requires |EncodeChunkResponse(m)| <= end <= data.Length
    modifies data
    ensures i == end - |EncodeChunkResponse(m)|
    ensures data[..] == Overwritten(old(data[..]), i, EncodeChunkResponse(m))
  {
    hide EncodeAll;
    ChunkResponseSplit(m);
    ghost var orig: Bytes, done := data[..], BoolField(5, m.missing);
    StartWriting(orig, end);
    i := PutVarint(data, end, 5, if m.missing then 1 else 0, orig, end, []);
    assert done + [] == done;
    i := PutNonempty(data, i, 4, m.chunk, orig, end, done);
    i := PutNumbers(data, i, m.height, m.format, m.index, orig, end, ChunkTail(m));
  }

  lemma ApplyChunkTail(m: ChunkResponse, a: ChunkResponse)
    requires AllWritable(ChunkResponseKind, ChunkTail(m)) && a.chunk == [] && !a.missing
    ensures ApplyAll(ChunkResponseSchema(), a, ChunkTail(m)) == Ok(a.(chunk := m.chunk, missing := m.missing))
  {
    hide ApplyAll;
    hide Low;
    var sc, e := ChunkResponseSchema(), if m.missing then 1 else 0;
    var f4, f5 := BytesField(4, m.chunk), VarintField(5, e);
    var a4 := a.(chunk := m.chunk);
    WritableParts(ChunkResponseKind, f4, f5);
    WordsFit(e);
    ApplyBytes(sc, a, 4, m.chunk, a4);
    ApplyVarint(sc, a4, 5, e, a4.(missing := m.missing));
    ApplyConcat(sc, a, f4, a4, f5);
  }

  lemma {:induction false} ChunkResponseRoundTrip(m: ChunkResponse)
    requires |EncodeChunkResponse(m)| < TWO_63
    ensures Unmarshal(ChunkResponseSchema(), NO_CHUNK, EncodeChunkResponse(m)) == Ok(m)
  {
    hide ApplyAll;
    hide EncodeAll;
    var sc, numbers := ChunkResponseSchema(), Numbers(m.height, m.format, m.index);
    ReadBack(ChunkResponseKind, ChunkResponseFields(m));
    hide Unmarshal;
    WritableParts(ChunkResponseKind, numbers, ChunkTail(m));
    var a1 := NO_CHUNK.(height := m.height);
    var a2 := a1.(format := m.format);
    var a3 := a2.(index := m.index);
    ApplyNumbers(sc, NO_CHUNK, m.height, m.format, m.index, a1, a2, a3);
    ApplyChunkTail(m, a3);
    ApplyConcat(sc, NO_CHUNK, numbers, a3, ChunkTail(m));
    UnmarshalWritten(sc, NO_CHUNK, ChunkResponseFields(m), m);
  }

  // ---------------------------------------------------------------- Message

  function EncodeVariant(m: Message): Bytes
    requires !m.Unset?
  {
    match m
    case AskSnapshots => []
    case TellSnapshots(r) => EncodeSnapshotsResponse(r)
    case AskChunk(r) => EncodeChunkRequest(r)
    case TellChunk(r) => EncodeChunkResponse(r)
  }

  function VariantNumber(m: Message): int
    requires !m.Unset?
  {
    match m
    case AskSnapshots => 1
    case TellSnapshots(_) => 2
    case AskChunk(_) => 3
    case TellChunk(_) => 4
  }

  function MessageFields(m: Message): (ts: seq<Token>)
    ensures AllTagged(ts)
  {
    if m.Unset? then [] else [TokBytes(VariantNumber(m), EncodeVariant(m))]
  }

  function EncodeMessage(m: Message): Bytes {
    EncodeAll(MessageFields(m))
  }

  function MessageKind(num: int): Kind {
    if 1 <= num <= 4 then KBytes else KUnknown
  }

  /** Each variant is read into a fresh message that replaces the one before. */
  function ApplyMessage(m: Message, t: Token): Parse<Message> {
    match t
    case TokBytes(1, b) =>
      var _ :- Unmarshal(EmptySchema(), Empty, b);
      Ok(AskSnapshots)
    case TokBytes(2, b) =>
      var r :- Unmarshal(SnapshotsResponseSchema(), NO_SNAPSHOTS, b);
      Ok(TellSnapshots(r))
    case TokBytes(3, b) =>
      var r :- Unmarshal(ChunkRequestSchema(), NO_REQUEST, b);
      Ok(AskChunk(r))
    case TokBytes(4, b) =>
      var r :- Unmarshal(ChunkResponseSchema(), NO_CHUNK, b);
      Ok(TellChunk(r))
    case _ => Ok(m)
  }

  function MessageSchema(): Schema<Message> {
    Schema(MessageKind, ApplyMessage)
  }

  method SizeVariant(m: Message) returns (n: nat)
    requires !m.Unset?
    ensures n == |EncodeVariant(m)|
  {
    hide EncodeAll;
    match m {
      case AskSnapshots => n := 0;
      case TellSnapshots(r) => n := SizeSnapshotsResponse(r);
      case AskChunk(r) => n := SizeNumbers(r.height, r.format, r.index);
      case TellChunk(r) => n := SizeChunkResponse(r);
    }
  }

  method SizeMessage(m: Message) returns (n: nat)
    ensures n == |EncodeMessage(m)|
  {
    hide EncodeAll;
    hide Sov;
    n := 0;
    EmptyEncoding();
    if !m.Unset? {
      FieldSizes(VariantNumber(m), 0, EncodeVariant(m));
      var l := SizeVariant(m);
      n := n + 1 + l + Sov(l);
    }
  }

  method VariantToSizedBuffer(m: Message, data: array<Byte>, end: nat) returns (i: nat)
    requires !m.Unset? && |EncodeVariant(m)| <= end <= data.Length
    modifies data
    ensures i == end - |EncodeVariant(m)|
    ensures data[..] == Overwritten(old(data[..]), i, EncodeVariant(m))
  {
    hide EncodeSnapshotsResponse;
    hide EncodeChunkRequest;
    hide EncodeChunkResponse;
    match m {
      case AskSnapshots => i := end;
      case TellSnapshots(r) => i := SnapshotsResponseToSizedBuffer(r, data, end);
      case AskChunk(r) => i := ChunkRequestToSizedBuffer(r, data, end);
      case TellChunk(r) => i := ChunkResponseToSizedBuffer(r, data, end);
    }
  }

  method MessageToSizedBuffer(m: Message, data: array<Byte>, end: nat) returns (i: nat)
    requires |EncodeMessage(m)| <= end <= data.Length
    modifies data
    ensures i == end - |EncodeMessage(m)|
    ensures data[..] == Overwritten(old(data[..]), i, EncodeMessage(m))
  {
    hide EncodeAll;
    hide EncodeVariant;
    ghost var orig: Bytes := data[..];
    StartWriting(orig, end);
    i := end;
    if !m.Unset? {
      ghost var b := EncodeVariant(m);
      FieldSizes(VariantNumber(m), 0, b);
      var start := VariantToSizedBuffer(m, data, i);
      i := PutNested(data, start, VariantNumber(m), i - start, b, orig, end, [], orig);
      assert MessageFields(m) + [] == MessageFields(m);
    }
  }

  method MarshalMessage(m: Message) returns (out: Bytes)
    ensures out == EncodeMessage(m)
  {
    var size := SizeMessage(m);
    var data := new Byte[size];
    var i := MessageToSizedBuffer(m, data, size);
    out := data[..size - i];
  }

  /** Reading an encoded message replaces whatever was there, unless no variant was set. */
  lemma {:induction false} MessageMerges(a: Message, m: Message)
    requires |EncodeMessage(m)| < TWO_63
    ensures Unmarshal(MessageSchema(), a, EncodeMessage(m)) == Ok(if m.Unset? then a else m)
  {
    hide EncodeAll;
    hide EncodeVariant;
    var sc, ts, m' := MessageSchema(), MessageFields(m), if m.Unset? then a else m;
    ReadBack(MessageKind, ts);
    if !m.Unset? {
      assert Writable(MessageKind, ts[0]);
      ReadVariant(a, m);
      ApplyOne(sc, a, ts[0], m');
    }
    UnmarshalWritten(sc, a, ts, m');
  }

  lemma ReadVariant(a: Message, m: Message)
    requires !m.Unset? && |EncodeVariant(m)| < TWO_63
    ensures ApplyMessage(a, TokBytes(VariantNumber(m), EncodeVariant(m))) == Ok(m)
  {
    hide EncodeSnapshotsResponse;
    hide EncodeChunkRequest;
    hide EncodeChunkResponse;
    match m
    case AskSnapshots =>
    case TellSnapshots(r) => SnapshotsResponseRoundTrip(r);
    case AskChunk(r) => ChunkRequestRoundTrip(r);
    case TellChunk(r) => ChunkResponseRoundTrip(r);
  }

  /** What one side marshals the other side reads back. */
  method TransmitMessage(m: Message) returns (r: Parse<Message>)
    requires |EncodeMessage(m)| < TWO_63
    ensures r == Ok(m)
  {
    hide Unmarshal;
    hide EncodeMessage;
    var data := MarshalMessage(m);
    MessageMerges(Unset, m);
    r := Decode(MessageSchema(), Unset, data);
  }
}
