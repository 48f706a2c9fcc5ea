/**
 * Messages on the wire. The generated code repeats the same reading and writing of fields for every
 * message type; it is modelled once, with a schema that says which fields a type knows and what each of
 * them does to a message. The laws of the format are proved for every schema.
 */
module Messages {
  import opened Base
  import opened Varints
  import opened Wire

  // ---------------------------------------------------------------- reading one field

  /** How a field of a known number is read; an unknown one is skipped. */
  datatype Kind = KVarint(width: nat) | KBytes | KUnknown

  datatype Token = TokVarint(num: int, value: nat) | TokBytes(num: int, payload: Bytes) | TokSkipped

  /** The field number of a tag, in a 32-bit variable. */
  function FieldNum(wire: nat): int {
    ToInt32(wire / 8)
  }

  /** The field at the start of data and its length. */
  function Lex(kind: int -> Kind, data: Bytes): (r: Parse<(Token, nat)>)
    ensures r.Ok? ==> 0 < r.value.1 <= |data|
  {
    var (raw, n) :- ReadVarint(data, 0);
    var wire := raw % TWO_64;
    var num, wireType := FieldNum(wire), wire % 8;
    if wireType == 4 then Err(EndGroup)
    else if num <= 0 then Err(IllegalTag)
    else match kind(num)
      case KVarint(width) =>
        if wireType != 0 then Err(WrongWireType)
        else
          var (v, k) :- ReadVarint(data[n..], 0);
          Ok((TokVarint(num, Low(v, width)), n + k))
      case KBytes =>
        if wireType != 2 then Err(WrongWireType)
        else
          var (v, k) :- ReadVarint(data[n..], 0);
          var start, len := n + k, v % TWO_64;
          if len >= TWO_63 then Err(InvalidLength)
          else if start + len > |data| then Err(UnexpectedEOF)
          else Ok((TokBytes(num, data[start..start + len]), start + len))
      case KUnknown =>
        var k :- Skip(data, 0);
        if k > |data| then Err(UnexpectedEOF) else Ok((TokSkipped, k))
  }

  /** A skip within the data does not depend on what follows. */
  lemma SkipPrefix(a: Bytes, b: Bytes)
    requires Skip(a, 0).Ok? && Skip(a, 0).value <= |a|
    ensures Skip(a + b, 0) == Skip(a, 0)
  {
    hide Skip;
    var n := Skip(a, 0).value;
    var f := SkipIsSound(a);
    SkipIsComplete(f, a[n..] + b);
    assert Render(f) + (a[n..] + b) == a + b;
  }

  /** Neither does a field. */
  lemma LexPrefix(kind: int -> Kind, a: Bytes, b: Bytes)
    requires Lex(kind, a).Ok?
    ensures Lex(kind, a + b) == Lex(kind, a)
  {
    hide ReadVarint;
    hide Skip;
    var (raw, n) := ReadVarint(a, 0).value;
    ReadVarintPrefix(a, b, 0);
    var num := FieldNum(raw % TWO_64);
    if kind(num).KUnknown? {
      SkipPrefix(a, b);
    } else {
      assert (a + b)[n..] == a[n..] + b;
      ReadVarintPrefix(a[n..], b, 0);
      if kind(num).KBytes? {
        var (v, k) := ReadVarint(a[n..], 0).value;
        var start, len := n + k, v % TWO_64;
        assert (a + b)[start..start + len] == a[start..start + len];
      }
    }
  }

  // ---------------------------------------------------------------- reading a message

  datatype Schema<!M> = Schema(kind: int -> Kind, apply: (M, Token) -> Parse<M>)

  /** Reads fields into a message until the data is used up. */
  function Unmarshal<M>(sc: Schema<M>, m: M, data: Bytes): Parse<M>
    decreases |data|
  {
    if data == [] then Ok(m)
    else
      var (tok, n) :- Lex(sc.kind, data);
      var m' :- if tok.TokSkipped? then Ok(m) else sc.apply(m, tok);
      Unmarshal(sc, m', data[n..])
  }

  datatype Empty = Empty

  /** A message type without fields skips everything. */
  function EmptySchema(): Schema<Empty> {
    Schema(_ => KUnknown, (m, _) => Ok(m))
  }

  /** One round of the reading loop. */
  lemma UnmarshalStep<M>(sc: Schema<M>, m: M, head: Bytes, rest: Bytes, tok: Token, m': M)
    requires head != [] && Lex(sc.kind, head + rest) == Ok((tok, |head|))
    requires (if tok.TokSkipped? then Ok(m) else sc.apply(m, tok)) == Ok(m')
    ensures Unmarshal(sc, m, head + rest) == Unmarshal(sc, m', rest)
  {
    hide Lex;
    assert (head + rest)[|head|..] == rest;
  }

  /** Reading two encodings one after the other is reading their concatenation. */
  lemma {:induction false} ConcatenationMerges<M>(sc: Schema<M>, m: M, a: Bytes, b: Bytes)
    ensures Unmarshal(sc, m, a).Ok? ==> Unmarshal(sc, m, a + b) == Unmarshal(sc, Unmarshal(sc, m, a).value, b)
    decreases |a|
  {
    hide Lex;
    if a == [] {
      assert a + b == b;
    } else if Unmarshal(sc, m, a).Ok? {
      var (tok, n) := Lex(sc.kind, a).value;
      var m' := if tok.TokSkipped? then m else sc.apply(m, tok).value;
      LexPrefix(sc.kind, a, b);
      ConcatenationMerges(sc, m', a[n..], b);
      assert a[..n] + (a[n..] + b) == a + b;
      UnmarshalStep(sc, m, a[..n], a[n..] + b, tok, m');
    }
  }

  /** A well-formed field whose number the schema does not know. */
  ghost predicate Unknown(kind: int -> Kind, f: RawField) {
    && WellFormed(f)
    && var num := FieldNum(VarintValue(f.tag)); num > 0 && kind(num).KUnknown?
  }

  lemma TagOf(f: RawField)
    requires WellFormed(f)
    ensures IsVarint(f.tag) && VarintValue(f.tag) % 8 != 4 && f.tag != []
    ensures f.tag <= Render(f)
  {
    hide ReadVarint;
  }

  lemma {:induction false} LexUnknown(kind: int -> Kind, f: RawField, rest: Bytes)
    requires Unknown(kind, f)
    ensures Lex(kind, Render(f) + rest) == Ok((TokSkipped, |Render(f)|))
  {
    hide ReadVarint;
    hide Skip;
    TagOf(f);
    var data := Render(f) + rest;
    var behind := Render(f)[|f.tag|..] + rest;
    assert data == f.tag + behind;
    VarintAtFront(f.tag, behind);
    SkipIsComplete(f, rest);
  }

  /** The data is a sequence of complete fields, whatever they hold. */
  predicate Boundary(kind: int -> Kind, data: Bytes)
    decreases |data|
  {
    data == [] || (Lex(kind, data).Ok? && Boundary(kind, data[Lex(kind, data).value.1..]))
  }

  /**
   * A field unknown to the reader, however it is nested, can be inserted at any field boundary of any
   * data without changing what is read, or how reading fails.
   */
  lemma {:induction false} UnknownFieldsAreIgnored<M>(sc: Schema<M>, m: M, a: Bytes, f: RawField, b: Bytes)
    requires Boundary(sc.kind, a) && Unknown(sc.kind, f)
    ensures Unmarshal(sc, m, a + Render(f) + b) == Unmarshal(sc, m, a + b)
    decreases |a|
  {
    hide Lex;
    if a == [] {
      TagOf(f);
      LexUnknown(sc.kind, f, b);
      UnmarshalStep(sc, m, Render(f), b, TokSkipped, m);
      assert a + Render(f) + b == Render(f) + b && a + b == b;
    } else {
      var (tok, n) := Lex(sc.kind, a).value;
      UnmarshalField(sc, m, a, Render(f) + b);
      UnmarshalField(sc, m, a, b);
      assert a + Render(f) + b == a + (Render(f) + b);
      assert a[n..] + Render(f) + b == a[n..] + (Render(f) + b);
      var r := if tok.TokSkipped? then Ok(m) else sc.apply(m, tok);
      if r.Ok? {
        UnknownFieldsAreIgnored(sc, r.value, a[n..], f, b);
      }
    }
  }

  /** Reading data that starts with a complete field: the field, then the rest. */
  lemma UnmarshalField<M>(sc: Schema<M>, m: M, a: Bytes, b: Bytes)
    requires a != [] && Lex(sc.kind, a).Ok?
    ensures var (tok, n) := Lex(sc.kind, a).value;
            var r := if tok.TokSkipped? then Ok(m) else sc.apply(m, tok);
            Unmarshal(sc, m, a + b) == if r.Ok? then Unmarshal(sc, r.value, a[n..] + b) else Err(r.error)
  {
    hide Lex;
    var n := Lex(sc.kind, a).value.1;
    LexPrefix(sc.kind, a, b);
    assert (a + b)[n..] == a[n..] + b;
  }

  // ---------------------------------------------------------------- writing fields

  predicate OneByteTag(num: int) {
    1 <= num <= 15
  }

  function EncodeToken(t: Token): Bytes
    requires !t.TokSkipped? && OneByteTag(t.num)
  {
    match t
    case TokVarint(num, v) => [8 * num] + Varint(v)
    case TokBytes(num, b) => [8 * num + 2] + (Varint(|b|) + b)
  }

  /** A field a reader of this kind can read back. */
  predicate Writable(kind: int -> Kind, t: Token) {
    && !t.TokSkipped? && OneByteTag(t.num)
    && match t
       case TokVarint(num, v) => kind(num).KVarint? && v < TWO_64
       case TokBytes(num, b) => kind(num).KBytes? && |b| < TWO_63
  }

  /** What the reader gets: a varint is cut to the width of the variable it is read into. */
  function Received(kind: int -> Kind, t: Token): Token
    requires Writable(kind, t)
  {
    match t
    case TokVarint(num, v) => TokVarint(num, Low(v, kind(num).width))
    case TokBytes(_, _) => t
  }

  lemma ReadTag(num: int, wireType: nat, rest: Bytes)
    requires OneByteTag(num) && wireType < 8
    ensures var data := [8 * num + wireType] + rest;
            ReadVarint(data, 0) == Ok((8 * num + wireType, 1)) && data[1..] == rest
    ensures FieldNum((8 * num + wireType) % TWO_64) == num
    ensures (8 * num + wireType) % TWO_64 % 8 == wireType
  {
    assert (8 * num + wireType) % TWO_64 == 8 * num + wireType;
    assert (8 * num + wireType) / 8 == num;
  }

  /** The next field a reader finds is the one that was written. */
  lemma LexWritten(kind: int -> Kind, t: Token, rest: Bytes)
    requires Writable(kind, t)
    ensures Lex(kind, EncodeToken(t) + rest) == Ok((Received(kind, t), |EncodeToken(t)|))
  {
    hide ReadVarint;
    hide Varint;
    match t
    case TokVarint(num, v) =>
      var behind := Varint(v) + rest;
      assert EncodeToken(t) + rest == [8 * num + 0] + behind;
      ReadTag(num, 0, behind);
      VarintLength(v);
      VarintRoundTrip(v, rest, 0);
    case TokBytes(num, b) =>
      var behind := Varint(|b|) + (b + rest);
      assert EncodeToken(t) + rest == [8 * num + 2] + behind;
      ReadTag(num, 2, behind);
      VarintLength(|b|);
      VarintRoundTrip(|b|, b + rest, 0);
      var data, start := [8 * num + 2] + behind, 1 + |Varint(|b|)|;
      assert data[start..start + |b|] == b;
  }

  ghost predicate AllWritable(kind: int -> Kind, ts: seq<Token>) {
    forall i :: 0 <= i < |ts| ==> Writable(kind, ts[i])
  }

  predicate AllTagged(ts: seq<Token>) {
    forall i :: 0 <= i < |ts| ==> !ts[i].TokSkipped? && OneByteTag(ts[i].num)
  }

  function EncodeAll(ts: seq<Token>): Bytes
    requires AllTagged(ts)
  {
    if ts == [] then [] else EncodeToken(ts[0]) + EncodeAll(ts[1..])
  }

  lemma {:induction false} EncodeConcat(a: seq<Token>, b: seq<Token>)
    requires AllTagged(a) && AllTagged(b)
    ensures EncodeAll(a + b) == EncodeAll(a) + EncodeAll(b)
  {
    if a == [] {
      assert a + b == b;
    } else {
      assert (a + b)[0] == a[0] && (a + b)[1..] == a[1..] + b;
      EncodeConcat(a[1..], b);
    }
  }

  /** The message that results from taking in fields one after the other. */
  function ApplyAll<M>(sc: Schema<M>, m: M, ts: seq<Token>): Parse<M>
    requires AllWritable(sc.kind, ts)
    decreases |ts|
  {
    if ts == [] then Ok(m)
    else
      var m' :- sc.apply(m, Received(sc.kind, ts[0]));
      ApplyAll(sc, m', ts[1..])
  }

  lemma {:induction false} ApplyConcat<M>(sc: Schema<M>, m: M, a: seq<Token>, m1: M, b: seq<Token>)
    requires AllWritable(sc.kind, a) && AllWritable(sc.kind, b) && ApplyAll(sc, m, a) == Ok(m1)
    ensures AllWritable(sc.kind, a + b) && ApplyAll(sc, m, a + b) == ApplyAll(sc, m1, b)
    decreases |a|
  {
    if a == [] {
      assert a + b == b;
    } else {
      assert (a + b)[0] == a[0] && (a + b)[1..] == a[1..] + b;
      ApplyConcat(sc, sc.apply(m, Received(sc.kind, a[0])).value, a[1..], m1, b);
    }
  }

  /** Reading what was written takes in exactly the fields written, in order. */
  lemma {:induction false} UnmarshalWritten<M>(sc: Schema<M>, m: M, ts: seq<Token>, m': M)
    requires AllWritable(sc.kind, ts) && AllTagged(ts) && ApplyAll(sc, m, ts) == Ok(m')
    ensures Unmarshal(sc, m, EncodeAll(ts)) == Ok(m')
    decreases |ts|
  {
    hide Lex;
    hide EncodeToken;
    if ts != [] {
      var m1 := sc.apply(m, Received(sc.kind, ts[0])).value;
      UnmarshalWritten(sc, m1, ts[1..], m');
      TokenIsNotEmpty(ts[0]);
      LexWritten(sc.kind, ts[0], EncodeAll(ts[1..]));
      UnmarshalStep(sc, m, EncodeToken(ts[0]), EncodeAll(ts[1..]), Received(sc.kind, ts[0]), m1);
    }
  }

  lemma TokenIsNotEmpty(t: Token)
    requires !t.TokSkipped? && OneByteTag(t.num)
    ensures EncodeToken(t) != []
  {
  }
}
