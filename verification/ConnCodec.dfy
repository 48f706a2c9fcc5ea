/** The messages of `tendermint.p2p` that connections exchange: a oneof over pings, pongs and packets of data. */
module ConnCodec {
  import opened Base
  import opened Varints
  import opened Messages
  import opened Writer
  import opened Reader

  datatype PacketMsg = PacketMsg(channelID: Int32, eof: bool, data: Bytes)
  datatype Packet = Unset | Ping | Pong | Msg(msg: PacketMsg)

  const NO_PACKET_MSG := PacketMsg(0, false, [])

  // ---------------------------------------------------------------- PacketMsg

  function PacketMsgTail(m: PacketMsg): seq<Token> {
    BoolField(2, m.eof) + BytesField(3, m.data)
  }

  function PacketMsgFields(m: PacketMsg): (ts: seq<Token>)
    ensures AllTagged(ts)
  {
    VarintField(1, ToUint64(m.channelID)) + PacketMsgTail(m)
  }

  function EncodePacketMsg(m: PacketMsg): Bytes {
    EncodeAll(PacketMsgFields(m))
  }

  function PacketMsgKind(num: int): Kind {
    match num
    case 1 => KVarint(32)
    case 2 => KVarint(64)
    case 3 => KBytes
    case _ => KUnknown
  }

  function ApplyPacketMsg(m: PacketMsg, t: Token): Parse<PacketMsg> {
    match t
    case TokVarint(1, v) => Ok(m.(channelID := ToInt32(v)))
    case TokVarint(2, v) => Ok(m.(eof := v != 0))
    case TokBytes(3, b) => Ok(m.(data := b))
    case _ => Ok(m)
  }

  function PacketMsgSchema(): Schema<PacketMsg> {
    Schema(PacketMsgKind, ApplyPacketMsg)
  }

  lemma PacketMsgSplit(m: PacketMsg)
    ensures AllTagged(PacketMsgTail(m))
    ensures |EncodePacketMsg(m)| == |EncodeAll(VarintField(1, ToUint64(m.channelID)))| + |EncodeAll(PacketMsgTail(m))|
    ensures |EncodeAll(PacketMsgTail(m))| == |EncodeAll(BoolField(2, m.eof))| + |EncodeAll(BytesField(3, m.data))|
  {
    hide EncodeAll;
    EncodeConcat(BoolField(2, m.eof), BytesField(3, m.data));
    EncodeConcat(VarintField(1, ToUint64(m.channelID)), PacketMsgTail(m));
  }

  method SizePacketMsg(m: PacketMsg) returns (n: nat)
    ensures n == |EncodePacketMsg(m)|
  {
    hide EncodeAll;
    hide Sov;
    n := 0;
    if m.channelID != 0 {
      n := n + 1 + Sov(ToUint64(m.channelID));
    }
    if m.eof {
      n := n + 2;
    }
    if |m.data| > 0 {
      n := n + 1 + |m.data| + Sov(|m.data|);
    }
    PacketMsgSplit(m);
    OptionalSizes(1, ToUint64(m.channelID), []);
    OptionalSizes(2, if m.eof then 1 else 0, []);
    SovOfFlag();
    OptionalSizes(3, 0, m.data);
  }

  method PacketMsgToSizedBuffer(m: PacketMsg, data: array<Byte>, end: nat) returns (i: nat)
    requires |EncodePacketMsg(m)| <= end <= data.Length
    modifies data
    ensures i == end - |EncodePacketMsg(m)|
    ensures data[..] == Overwritten(old(data[..]), i, EncodePacketMsg(m))
  {
    hide EncodeAll;
    PacketMsgSplit(m);
    ghost var orig: Bytes, done := data[..], BytesField(3, m.data);
    StartWriting(orig, end);
    i := PutNonempty(data, end, 3, m.data, orig, end, []);
    assert done + [] == done;
    i := PutVarint(data, i, 2, if m.eof then 1 else 0, orig, end, done);
    i := PutVarint(data, i, 1, ToUint64(m.channelID), orig, end, PacketMsgTail(m));
  }

  method MarshalPacketMsg(m: PacketMsg) returns (out: Bytes)
    ensures out == EncodePacketMsg(m)
  {
    var size := SizePacketMsg(m);
    var data := new Byte[size];
    var i := PacketMsgToSizedBuffer(m, data, size);
    out := data[..size - i];
  }

  /** The channel survives even though it is written with 64 bits and read with 32. */
  lemma PacketMsgRoundTrip(m: PacketMsg)
    requires |EncodePacketMsg(m)| < TWO_63
    ensures Unmarshal(PacketMsgSchema(), NO_PACKET_MSG, EncodePacketMsg(m)) == Ok(m)
  {
    hide ApplyAll;
    hide EncodeAll;
    hide Low;
    var sc, c, e := PacketMsgSchema(), ToUint64(m.channelID), if m.eof then 1 else 0;
    var f1, f2, f3 := VarintField(1, c), VarintField(2, e), BytesField(3, m.data);
    ReadBack(PacketMsgKind, PacketMsgFields(m));
    WritableParts(PacketMsgKind, f1, f2 + f3);
    WritableParts(PacketMsgKind, f2, f3);
    var a1 := NO_PACKET_MSG.(channelID := m.channelID);
    var a2 := a1.(eof := m.eof);
    WordsFit(e);
    ChannelSurvives(m.channelID);
    ApplyVarint(sc, NO_PACKET_MSG, 1, c, a1);
    ApplyVarint(sc, a1, 2, e, a2);
    ApplyBytes(sc, a2, 3, m.data, m);
    ApplyConcat(sc, a1, f2, a2, f3);
    ApplyConcat(sc, NO_PACKET_MSG, f1, a1, f2 + f3);
    UnmarshalWritten(sc, NO_PACKET_MSG, PacketMsgFields(m), m);
  }

  lemma {:induction false} ChannelSurvives(y: Int32)
    ensures ToInt32(Low(ToUint64(y), 32)) == y
  {
    hide Low;
    LowIsMod(ToUint64(y), 32);
    Pow2Values();
    SmallMod(ToUint64(y) % TWO_32, TWO_32);
    SignedRoundTrips(0, y);
  }

  // ---------------------------------------------------------------- Packet

  function PacketFields(m: Packet): (ts: seq<Token>)
    ensures AllTagged(ts)
  {
    match m
    case Unset => []
    case Ping => [TokBytes(1, [])]
    case Pong => [TokBytes(2, [])]
    case Msg(msg) => [TokBytes(3, EncodePacketMsg(msg))]
  }

  function EncodePacket(m: Packet): Bytes {
    EncodeAll(PacketFields(m))
  }

  function PacketKind(num: int): Kind {
    if 1 <= num <= 3 then KBytes else KUnknown
  }

  /** Each variant is read into a fresh message that replaces the one before. */
  function ApplyPacket(m: Packet, t: Token): Parse<Packet> {
    match t
    case TokBytes(1, b) =>
      var _ :- Unmarshal(EmptySchema(), Empty, b);
      Ok(Ping)
    case TokBytes(2, b) =>
      var _ :- Unmarshal(EmptySchema(), Empty, b);
      Ok(Pong)
    case TokBytes(3, b) =>
      var msg :- Unmarshal(PacketMsgSchema(), NO_PACKET_MSG, b);
      Ok(Msg(msg))
    case _ => Ok(m)
  }

  function PacketSchema(): Schema<Packet> {
    Schema(PacketKind, ApplyPacket)
  }

  method SizePacket(m: Packet) returns (n: nat)
    ensures n == |EncodePacket(m)|
  {
    hide EncodeAll;
    hide Sov;
    hide EncodePacketMsg;
    EmptyEncoding();
    match m {
      case Unset => n := 0;
      case Ping =>
        FieldSizes(1, 0, []);
        n := 1 + Sov(0);
      case Pong =>
        FieldSizes(2, 0, []);
        n := 1 + Sov(0);
      case Msg(msg) =>
        FieldSizes(3, 0, EncodePacketMsg(msg));
        var l := SizePacketMsg(msg);
        n := 1 + l + Sov(l);
    }
  }

  method PacketToSizedBuffer(m: Packet, data: array<Byte>, end: nat) returns (i: nat)
    requires |EncodePacket(m)| <= end <= data.Length
    modifies data
    ensures i == end - |EncodePacket(m)|
    ensures data[..] == Overwritten(old(data[..]), i, EncodePacket(m))
  {
    hide EncodeAll;
    hide EncodePacketMsg;
    ghost var orig: Bytes := data[..];
    StartWriting(orig, end);
    ghost var ts := PacketFields(m);
    assert ts + [] == ts;
    i := end;
    match m {
      case Unset =>
      case Ping => i := PutBytes(data, i, 1, [], orig, end, []);
      case Pong => i := PutBytes(data, i, 2, [], orig, end, []);
      case Msg(msg) =>
        ghost var b := EncodePacketMsg(msg);
        FieldSizes(3, 0, b);
        var start := PacketMsgToSizedBuffer(msg, data, i);
        i := PutNested(data, start, 3, i - start, b, orig, end, [], orig);
    }
  }

  method MarshalPacket(m: Packet) returns (out: Bytes)
    ensures out == EncodePacket(m)
  {
    var size := SizePacket(m);
    var data := new Byte[size];
    var i := PacketToSizedBuffer(m, data, size);
    out := data[..size - i];
  }

  /** Reading an encoded packet replaces whatever was there, unless no variant was set. */
  lemma {:induction false} PacketMerges(a: Packet, m: Packet)
    requires |EncodePacket(m)| < TWO_63
    ensures Unmarshal(PacketSchema(), a, EncodePacket(m)) == Ok(if m.Unset? then a else m)
  {
    hide EncodeAll;
    hide EncodePacketMsg;
    var sc, ts, m' := PacketSchema(), PacketFields(m), if m.Unset? then a else m;
    ReadBack(PacketKind, ts);
    if !m.Unset? {
      assert Writable(PacketKind, ts[0]);
      if m.Msg? {
        PayloadsFit(ts, 0);
        PacketMsgRoundTrip(m.msg);
      }
      ApplyOne(sc, a, ts[0], m');
    }
    UnmarshalWritten(sc, a, ts, m');
  }

  /** What one side marshals the other side reads back. */
  method TransmitPacket(m: Packet) returns (r: Parse<Packet>)
    requires |EncodePacket(m)| < TWO_63
    ensures r == Ok(m)
  {
    hide Unmarshal;
    hide EncodePacket;
    var data := MarshalPacket(m);
    PacketMerges(Unset, m);
    r := Decode(PacketSchema(), Unset, data);
  }
}
