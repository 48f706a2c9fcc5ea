/**
 * The loops of the generated code that read: skipping a field with a cursor and a nesting depth, and
 * reading a message field by field. Each is proved to do what the format says.
 */
module Reader {
  import opened Base
  import opened Varints
  import opened Wire
  import opened Messages

  /** A result about a suffix, in terms of the whole. */
  function At(i: nat, r: Parse<nat>): Parse<nat> {
    match r
    case Ok(n) => Ok(i + n)
    case Err(e) => Err(e)
  }

  /** Moves the cursor over a varint without computing its value. */
  method SkipVarintAt(data: Bytes, i: nat) returns (r: Parse<nat>)
    requires i <= |data|
    ensures r == At(i, SkipVarint(data[i..], 0))
  {
    var pos, shift := i, 0;
    while true
      invariant i <= pos <= |data|
      invariant At(i, SkipVarint(data[i..], 0)) == At(pos, SkipVarint(data[pos..], shift))
      decreases |data| - pos
    {
      if shift >= 64 {
        return Err(IntOverflow);
      }
      if pos >= |data| {
        return Err(UnexpectedEOF);
      }
      assert data[pos..][1..] == data[pos + 1..];
      pos := pos + 1;
      if data[pos - 1] < 128 {
        return Ok(pos);
      }
      shift := shift + 7;
    }
  }

  function AtBoth(i: nat, r: Parse<(nat, nat)>): Parse<(nat, nat)> {
    match r
    case Ok((n, depth)) => Ok((i + n, depth))
    case Err(e) => Err(e)
  }

  lemma LowByte(raw: nat)
    ensures Low(raw, 64) == raw % TWO_64 && Low(raw, 64) % 8 == raw % 8
  {
    LowIsMod(raw, 64);
    Pow2Values();
    var q, w := raw / TWO_64, raw % TWO_64;
    assert raw == q * TWO_64 + w == w + (q * 0x2000_0000_0000_0000) * 8;
    AddMultipleMod(w, q * 0x2000_0000_0000_0000, 8);
  }

  /** One round of skipping: a tag and what belongs to it. */
  method SkipOneAt(data: Bytes, i: nat, depth: nat) returns (r: Parse<(nat, nat)>)
    requires i < |data|
    ensures r == AtBoth(i, SkipOne(data[i..], depth))
  {
    hide ReadVarint;
    hide SkipVarint;
    hide Low;
    var tag := DecodeVarint(data, i, 64);
    if tag.Err? {
      return Err(tag.error);
    }
    var (wire, pos) := tag.value;
    LowByte(ReadVarint(data[i..], 0).value.0);
    assert data[i..][pos - i..] == data[pos..];
    match wire % 8 {
      case 0 =>
        var k := SkipVarintAt(data, pos);
        return match k case Ok(n) => Ok((n, depth)) case Err(e) => Err(e);
      case 1 => return Ok((pos + 8, depth));
      case 2 =>
        var length := DecodeVarint(data, pos, 64);
        if length.Err? {
          return Err(length.error);
        }
        LowByte(ReadVarint(data[pos..], 0).value.0);
        if length.value.0 >= TWO_63 {
          return Err(InvalidLength);
        }
        return Ok((length.value.1 + length.value.0, depth));
      case 3 => return Ok((pos, depth + 1));
      case 4 => return if depth == 0 then Err(UnexpectedEndOfGroup) else Ok((pos, depth - 1));
      case 5 => return Ok((pos + 4, depth));
      case _ => return Err(IllegalWireType);
    }
  }

  /** Skips the field at the start of data, with everything nested in it. */
  method SkipField(data: Bytes) returns (r: Parse<nat>)
    ensures r == Skip(data, 0)
  {
    hide SkipOne;
    var i, depth := 0, 0;
    assert data[0..] == data;
    while i < |data|
      invariant i <= |data| ==> Skip(data, 0) == At(i, Skip(data[i..], depth))
      invariant i > |data| ==> Skip(data, 0) == Err(UnexpectedEOF)
      decreases |data| - i
    {
      var step := SkipOneAt(data, i, depth);
      if step.Err? {
        return Err(step.error);
      }
      var (next, depth') := step.value;
      if depth' == 0 {
        return Ok(next);
      }
      assert next <= |data| ==> data[i..][next - i..] == data[next..];
      i, depth := next, depth';
    }
    r := Err(UnexpectedEOF);
  }

  // ---------------------------------------------------------------- messages

  function FieldAt(kind: int -> Kind, data: Bytes, i: nat): Parse<(Token, nat)>
    requires i <= |data|
  {
    match Lex(kind, data[i..])
    case Ok((tok, n)) => Ok((tok, i + n))
    case Err(e) => Err(e)
  }

  /** Reads the field at the cursor and moves the cursor behind it. */
  method ReadField(kind: int -> Kind, data: Bytes, i: nat) returns (r: Parse<(Token, nat)>)
    requires i < |data|
    ensures r == FieldAt(kind, data, i)
  {
    hide ReadVarint;
    hide Skip;
    hide Low;
    var tag := DecodeVarint(data, i, 64);
    if tag.Err? {
      return Err(tag.error);
    }
    var (wire, pos) := tag.value;
    LowByte(ReadVarint(data[i..], 0).value.0);
    assert data[i..][pos - i..] == data[pos..];
    var num, wireType := FieldNum(wire), wire % 8;
    if wireType == 4 {
      return Err(EndGroup);
    }
    if num <= 0 {
      return Err(IllegalTag);
    }
    match kind(num) {
      case KVarint(width) =>
        if wireType != 0 {
          return Err(WrongWireType);
        }
        var v := DecodeVarint(data, pos, width);
        return match v case Ok((x, next)) => Ok((TokVarint(num, x), next)) case Err(e) => Err(e);
      case KBytes =>
        if wireType != 2 {
          return Err(WrongWireType);
        }
        var length := DecodeVarint(data, pos, 64);
        if length.Err? {
          return Err(length.error);
        }
        LowByte(ReadVarint(data[pos..], 0).value.0);
        var (len, start) := length.value;
        if len >= TWO_63 {
          return Err(InvalidLength);
        }
        if start + len > |data| {
          return Err(UnexpectedEOF);
        }
        assert data[i..][start - i..start - i + len] == data[start..start + len];
        return Ok((TokBytes(num, data[start..start + len]), start + len));
      case KUnknown =>
        var skipped := SkipField(data[i..]);
        if skipped.Err? {
          return Err(skipped.error);
        }
        if i + skipped.value > |data| {
          return Err(UnexpectedEOF);
        }
        return Ok((TokSkipped, i + skipped.value));
    }
  }

  /** Reads a whole message into what is already there. */
  method Decode<M>(sc: Schema<M>, start: M, data: Bytes) returns (r: Parse<M>)
    ensures r == Unmarshal(sc, start, data)
  {
    hide Lex;
    var m, i := start, 0;
    assert data[0..] == data;
    while i < |data|
      invariant i <= |data|
      invariant Unmarshal(sc, start, data) == Unmarshal(sc, m, data[i..])
    {
      var field := ReadField(sc.kind, data, i);
      if field.Err? {
        return Err(field.error);
      }
      var (tok, next) := field.value;
      assert data[i..][next - i..] == data[next..];
      if !tok.TokSkipped? {
        var applied := sc.apply(m, tok);
        if applied.Err? {
          return Err(applied.error);
        }
        m := applied.value;
      }
      i := next;
    }
    r := Ok(m);
  }
}
