/**
 * The wire format, as in section "Message Structure" of the Protocol Buffers encoding specification:
 * fields with their tags, skipping fields a reader does not know, and parsing a message field by field.
 */
module Wire {
  import opened Base
  import opened Varints

  // ---------------------------------------------------------------- skipping

  /** The length of the varint at the start of data, whatever its value. */
  function SkipVarint(data: Bytes, shift: nat): (r: Parse<nat>)
    ensures r == match ReadVarint(data, shift) case Ok((_, n)) => Ok(n) case Err(e) => Err(e)
  {
    if shift >= 64 then Err(IntOverflow)
    else if data == [] then Err(UnexpectedEOF)
    else if data[0] < 128 then Ok(1)
    else
      var n :- SkipVarint(data[1..], shift + 7);
      Ok(n + 1)
  }

  /** What one tag opens: how many bytes it takes together with its payload, and the new depth. */
  function SkipOne(data: Bytes, depth: nat): (r: Parse<(nat, nat)>)
    ensures r.Ok? ==> r.value.0 > 0
  {
    var (raw, n) :- ReadVarint(data, 0);
    match raw % 8
    case 0 =>
      var k :- SkipVarint(data[n..], 0);
      Ok((n + k, depth))
    case 1 => Ok((n + 8, depth))
    case 2 =>
      var (raw', k) :- ReadVarint(data[n..], 0);
      var len := raw' % TWO_64;
      if len >= TWO_63 then Err(InvalidLength) else Ok((n + k + len, depth))
    case 3 => Ok((n, depth + 1))
    case 4 => if depth == 0 then Err(UnexpectedEndOfGroup) else Ok((n, depth - 1))
    case 5 => Ok((n + 4, depth))
    case _ => Err(IllegalWireType)
  }

  /** The length of the field at the start of data, nested groups included; it may exceed the data. */
  function Skip(data: Bytes, depth: nat): (r: Parse<nat>)
    ensures r.Ok? ==> r.value > 0
    decreases |data|
  {
    if data == [] then Err(UnexpectedEOF)
    else
      var (n, depth') :- SkipOne(data, depth);
      if depth' == 0 then Ok(n)
      else if n >= |data| then Err(UnexpectedEOF)
      else
        var k :- Skip(data[n..], depth');
        Ok(n + k)
  }

  // ---------------------------------------------------------------- what there is to skip

  /** A field as it stands on the wire; tags and lengths need not be written in the shortest way. */
  datatype RawField =
    | RawVarint(tag: Bytes, value: Bytes)
    | RawFixed64(tag: Bytes, bytes: Bytes)
    | RawBytes(tag: Bytes, length: Bytes, payload: Bytes)
    | RawGroup(tag: Bytes, body: seq<RawField>, endTag: Bytes)
    | RawFixed32(tag: Bytes, bytes: Bytes)

  /** A complete varint and nothing else. */
  predicate IsVarint(bs: Bytes) {
    ReadVarint(bs, 0).Ok? && ReadVarint(bs, 0).value.1 == |bs|
  }

  function VarintValue(bs: Bytes): nat
    requires IsVarint(bs)
  {
    ReadVarint(bs, 0).value.0 % TWO_64
  }

  predicate IsTag(bs: Bytes, wireType: nat) {
    IsVarint(bs) && ReadVarint(bs, 0).value.0 % 8 == wireType
  }

  predicate WellFormed(f: RawField) {
    match f
    case RawVarint(tag, value) => IsTag(tag, 0) && IsVarint(value)
    case RawFixed64(tag, bytes) => IsTag(tag, 1) && |bytes| == 8
    case RawBytes(tag, length, payload) =>
      IsTag(tag, 2) && IsVarint(length) && VarintValue(length) == |payload| < TWO_63
    case RawGroup(tag, body, endTag) => IsTag(tag, 3) && WellFormedAll(body) && IsTag(endTag, 4)
    case RawFixed32(tag, bytes) => IsTag(tag, 5) && |bytes| == 4
  }

  predicate WellFormedAll(fs: seq<RawField>) {
    fs == [] || (WellFormed(fs[0]) && WellFormedAll(fs[1..]))
  }

  function Render(f: RawField): Bytes {
    match f
    case RawVarint(tag, value) => tag + value
    case RawFixed64(tag, bytes) => tag + bytes
    case RawBytes(tag, length, payload) => tag + (length + payload)
    case RawGroup(tag, body, endTag) => tag + (RenderAll(body) + endTag)
    case RawFixed32(tag, bytes) => tag + bytes
  }

  function RenderAll(fs: seq<RawField>): Bytes {
    if fs == [] then [] else Render(fs[0]) + RenderAll(fs[1..])
  }

  // ---------------------------------------------------------------- skipping is exact

  lemma VarintAtFront(bs: Bytes, rest: Bytes)
    requires IsVarint(bs)
    ensures ReadVarint(bs + rest, 0) == Ok((ReadVarint(bs, 0).value.0, |bs|))
    ensures (bs + rest)[|bs|..] == rest
  {
    ReadVarintPrefix(bs, rest, 0);
  }

  /** A length, n bytes further on. */
  function Plus(n: nat, r: Parse<nat>): Parse<nat> {
    match r
    case Ok(k) => Ok(n + k)
    case Err(e) => Err(e)
  }

  lemma SkipStep(head: Bytes, rest: Bytes, depth: nat, depth': nat)
    requires head != [] && SkipOne(head + rest, depth) == Ok((|head|, depth'))
    ensures Skip(head + rest, depth) == if depth' == 0 then Ok(|head|) else Plus(|head|, Skip(rest, depth'))
  {
    assert (head + rest)[|head|..] == rest;
  }

  lemma SkipOneVarint(tag: Bytes, value: Bytes, rest: Bytes, depth: nat)
    requires IsTag(tag, 0) && IsVarint(value)
    ensures SkipOne(tag + (value + rest), depth) == Ok((|tag| + |value|, depth))
  {
    VarintAtFront(tag, value + rest);
    VarintAtFront(value, rest);
  }

  lemma SkipOneBytes(tag: Bytes, length: Bytes, payload: Bytes, rest: Bytes, depth: nat)
    requires IsTag(tag, 2) && IsVarint(length) && VarintValue(length) == |payload| < TWO_63
    ensures SkipOne(tag + (length + (payload + rest)), depth) == Ok((|tag| + |length| + |payload|, depth))
  {
    VarintAtFront(tag, length + (payload + rest));
    VarintAtFront(length, payload + rest);
  }

  lemma SkipOneTag(tag: Bytes, wireType: nat, rest: Bytes, depth: nat)
    requires IsTag(tag, wireType) && wireType in {1, 3, 4, 5} && (wireType == 4 ==> depth > 0)
    ensures SkipOne(tag + rest, depth) ==
            Ok((match wireType case 1 => |tag| + 8 case 5 => |tag| + 4 case _ => |tag|,
                match wireType case 3 => depth + 1 case 4 => depth - 1 case _ => depth))
  {
    VarintAtFront(tag, rest);
  }

  /** A field that is not a group is one step. */
  lemma SkipLeaf(f: RawField, rest: Bytes, depth: nat)
    requires WellFormed(f) && !f.RawGroup?
    ensures SkipOne(Render(f) + rest, depth) == Ok((|Render(f)|, depth))
  {
    match f
    case RawVarint(tag, value) =>
      assert Render(f) + rest == tag + (value + rest);
      SkipOneVarint(tag, value, rest, depth);
    case RawFixed64(tag, bytes) =>
      assert Render(f) + rest == tag + (bytes + rest);
      SkipOneTag(tag, 1, bytes + rest, depth);
    case RawBytes(tag, length, payload) =>
      assert Render(f) + rest == tag + (length + (payload + rest));
      SkipOneBytes(tag, length, payload, rest, depth);
    case RawFixed32(tag, bytes) =>
      assert Render(f) + rest == tag + (bytes + rest);
      SkipOneTag(tag, 5, bytes + rest, depth);
  }

  lemma SkipOpenTag(tag: Bytes, inside: Bytes, depth: nat)
    requires IsTag(tag, 3)
    ensures Skip(tag + inside, depth) == Plus(|tag|, Skip(inside, depth + 1))
  {
    SkipOneTag(tag, 3, inside, depth);
    SkipStep(tag, inside, depth, depth + 1);
  }

  lemma SkipEndTag(endTag: Bytes, rest: Bytes, depth: nat)
    requires IsTag(endTag, 4)
    ensures Skip(endTag + rest, depth + 1) == Passed(|endTag|, depth, Skip(rest, depth))
  {
    SkipOneTag(endTag, 4, rest, depth + 1);
    SkipStep(endTag, rest, depth + 1, depth);
  }

  /** What a field of n bytes makes of a skip, given what would come behind it. */
  function Passed(n: nat, depth: nat, behind: Parse<nat>): Parse<nat> {
    if depth == 0 then Ok(n) else Plus(n, behind)
  }

  lemma PlusTwice(m: nat, n: nat, r: Parse<nat>)
    ensures Plus(m, Plus(n, r)) == Plus(m + n, r)
  {
  }

  lemma PlusPassed(m: nat, n: nat, depth: nat, r: Parse<nat>)
    ensures Plus(m, Passed(n, depth, r)) == Passed(m + n, depth, r)
  {
  }

  /** One field in front of anything, met at any depth. */
  lemma {:induction false} SkipField(f: RawField, rest: Bytes, depth: nat)
    requires WellFormed(f)
    ensures Skip(Render(f) + rest, depth) == Passed(|Render(f)|, depth, Skip(rest, depth))
    decreases f, 1
  {
    hide Skip;
    if f.RawGroup? {
      SkipGroup(f.tag, f.body, f.endTag, rest, depth);
      assert Render(f) + rest == f.tag + (RenderAll(f.body) + (f.endTag + rest));
    } else {
      SkipLeaf(f, rest, depth);
      SkipStep(Render(f), rest, depth, depth);
    }
  }

  lemma {:induction false} SkipGroup(tag: Bytes, body: seq<RawField>, endTag: Bytes, rest: Bytes, depth: nat)
    requires IsTag(tag, 3) && WellFormedAll(body) && IsTag(endTag, 4)
    ensures Skip(tag + (RenderAll(body) + (endTag + rest)), depth)
            == Passed(|tag| + |RenderAll(body)| + |endTag|, depth, Skip(rest, depth))
    decreases body, 2
  {
    hide Skip;
    SkipAll(body, endTag + rest, depth + 1);
    SkipAround(tag, RenderAll(body), endTag, rest, depth);
  }

  /** The two tags around the body of a group. */
  lemma {:induction false} SkipAround(tag: Bytes, inner: Bytes, endTag: Bytes, rest: Bytes, depth: nat)
    requires IsTag(tag, 3) && IsTag(endTag, 4)
    requires Skip(inner + (endTag + rest), depth + 1) == Plus(|inner|, Skip(endTag + rest, depth + 1))
    ensures Skip(tag + (inner + (endTag + rest)), depth)
            == Passed(|tag| + |inner| + |endTag|, depth, Skip(rest, depth))
  {
    hide Skip;
    var tail := endTag + rest;
    SkipOpenTag(tag, inner + tail, depth);
    PlusTwice(|tag|, |inner|, Skip(tail, depth + 1));
    SkipEndTag(endTag, rest, depth);
    PlusPassed(|tag| + |inner|, |endTag|, depth, Skip(rest, depth));
  }

  lemma {:induction false} SkipAll(fs: seq<RawField>, rest: Bytes, depth: nat)
    requires WellFormedAll(fs) && depth > 0
    ensures Skip(RenderAll(fs) + rest, depth) == Plus(|RenderAll(fs)|, Skip(rest, depth))
    decreases fs, 1
  {
    hide Skip;
    if fs == [] {
      assert RenderAll(fs) + rest == rest;
    } else {
      var more := RenderAll(fs[1..]) + rest;
      SkipField(fs[0], more, depth);
      SkipAll(fs[1..], rest, depth);
      PlusTwice(|Render(fs[0])|, |RenderAll(fs[1..])|, Skip(rest, depth));
      assert RenderAll(fs) + rest == Render(fs[0]) + more;
    }
  }

  /** Skipping a well-formed field, however its groups nest, takes exactly its bytes. */
  lemma SkipIsComplete(f: RawField, rest: Bytes)
    requires WellFormed(f)
    ensures Skip(Render(f) + rest, 0) == Ok(|Render(f)|)
  {
    SkipField(f, rest, 0);
  }

  // ---------------------------------------------------------------- whatever is skipped is a field

  lemma {:induction false} ReadVarintExact(data: Bytes, shift: nat)
    requires ReadVarint(data, shift).Ok?
    ensures var n := ReadVarint(data, shift).value.1; ReadVarint(data[..n], shift) == ReadVarint(data, shift)
    decreases |data|
  {
    var n := ReadVarint(data, shift).value.1;
    if data[0] >= 128 {
      ReadVarintExact(data[1..], shift + 7);
      assert data[..n][1..] == data[1..][..n - 1];
    }
  }

  lemma DropTake(data: Bytes, n: nat, k: nat)
    requires n <= k <= |data|
    ensures data[n..][..k - n] == data[n..k]
  {
  }

  /** The field a single step goes over, unless the step enters or leaves a group. */
  lemma StepIsLeaf(data: Bytes, depth: nat) returns (f: RawField)
    requires SkipOne(data, depth).Ok? && SkipOne(data, depth).value.1 == depth
    requires SkipOne(data, depth).value.0 <= |data|
    ensures WellFormed(f) && Render(f) == data[..SkipOne(data, depth).value.0]
  {
    hide ReadVarint;
    var (raw, n) := ReadVarint(data, 0).value;
    var k := SkipOne(data, depth).value.0;
    var tag := data[..n];
    ReadVarintExact(data, 0);
    match raw % 8
    case 0 =>
      ReadVarintExact(data[n..], 0);
      f := RawVarint(tag, data[n..k]);
      DropTake(data, n, k);
      assert Render(f) == data[..k];
    case 1 =>
      f := RawFixed64(tag, data[n..k]);
      assert Render(f) == data[..k];
    case 2 =>
      var m := ReadVarint(data[n..], 0).value.1;
      ReadVarintExact(data[n..], 0);
      DropTake(data, n, n + m);
      f := RawBytes(tag, data[n..n + m], data[n + m..k]);
      assert Render(f) == data[..k];
    case _ =>
      f := RawFixed32(tag, data[n..k]);
      assert Render(f) == data[..k];
  }

  /** The tag a single step goes over when it enters or leaves a group. */
  lemma StepIsTag(data: Bytes, depth: nat)
    requires SkipOne(data, depth).Ok? && SkipOne(data, depth).value.1 != depth
    ensures var (k, depth') := SkipOne(data, depth).value;
            && k <= |data|
            && if depth' == depth + 1 then IsTag(data[..k], 3) else IsTag(data[..k], 4) && depth' == depth - 1
  {
    hide ReadVarint;
    ReadVarintExact(data, 0);
  }

  /** What remains of an open group: the fields up to its end tag, and the end tag. */
  datatype Segment = Segment(body: seq<RawField>, endTag: Bytes)

  predicate WellFormedSegment(s: Segment) {
    WellFormedAll(s.body) && IsTag(s.endTag, 4)
  }

  function RenderSegments(ss: seq<Segment>): Bytes {
    if ss == [] then [] else RenderAll(ss[0].body) + ss[0].endTag + RenderSegments(ss[1..])
  }

  predicate Closes(ss: seq<Segment>, depth: nat, bytes: Bytes) {
    |ss| == depth && (forall i :: 0 <= i < |ss| ==> WellFormedSegment(ss[i])) && RenderSegments(ss) == bytes
  }

  lemma PrependField(f: RawField, ss: seq<Segment>, depth: nat, bytes: Bytes) returns (all: seq<Segment>)
    requires WellFormed(f) && depth > 0 && Closes(ss, depth, bytes)
    ensures Closes(all, depth, Render(f) + bytes)
  {
    var first := Segment([f] + ss[0].body, ss[0].endTag);
    assert first.body[1..] == ss[0].body;
    all := [first] + ss[1..];
    assert all[1..] == ss[1..];
    assert RenderSegments(all) == Render(f) + RenderSegments(ss);
  }

  /** Inside groups, a skip that stays within the data closes all of them. */
  lemma {:induction false} SkipClosesGroups(data: Bytes, depth: nat) returns (ss: seq<Segment>)
    requires depth > 0 && Skip(data, depth).Ok? && Skip(data, depth).value <= |data|
    ensures Closes(ss, depth, data[..Skip(data, depth).value])
    decreases |data|
  {
    hide SkipOne;
    var n := Skip(data, depth).value;
    var (k, depth') := SkipOne(data, depth).value;
    var rest := data[k..];
    if depth' != depth {
      StepIsTag(data, depth);
    }
    if depth' == 0 {
      ss := [Segment([], data[..k])];
      assert RenderSegments(ss[1..]) == [];
      assert RenderSegments(ss) == data[..k];
    } else {
      var more := SkipClosesGroups(rest, depth');
      assert data[..n] == data[..k] + rest[..n - k];
      if depth' == depth {
        var f := StepIsLeaf(data, depth);
        ss := PrependField(f, more, depth, rest[..n - k]);
      } else if depth' == depth + 1 {
        ss := WrapGroup(data[..k], more, depth, rest[..n - k]);
      } else {
        ss := [Segment([], data[..k])] + more;
        assert ss[1..] == more;
        assert RenderSegments(ss) == data[..k] + RenderSegments(more);
      }
    }
  }

  lemma WrapGroup(tag: Bytes, more: seq<Segment>, depth: nat, bytes: Bytes) returns (ss: seq<Segment>)
    requires IsTag(tag, 3) && depth > 0 && Closes(more, depth + 1, bytes)
    ensures Closes(ss, depth, tag + bytes)
  {
    hide ReadVarint;
    var f := RawGroup(tag, more[0].body, more[0].endTag);
    var inner := RenderAll(more[0].body) + more[0].endTag;
    var outer := RenderSegments(more[1..]);
    assert bytes == inner + outer;
    ss := PrependField(f, more[1..], depth, outer);
    assert Render(f) + outer == tag + bytes;
  }

  lemma {:induction false} SkipIsSound(data: Bytes) returns (f: RawField)
    requires Skip(data, 0).Ok? && Skip(data, 0).value <= |data|
    ensures WellFormed(f) && Render(f) == data[..Skip(data, 0).value]
  {
    hide SkipOne;
    var n := Skip(data, 0).value;
    var (k, depth) := SkipOne(data, 0).value;
    if depth == 0 {
      f := StepIsLeaf(data, 0);
    } else {
      StepIsTag(data, 0);
      var ss := SkipClosesGroups(data[k..], 1);
      f := RawGroup(data[..k], ss[0].body, ss[0].endTag);
      assert RenderSegments(ss[1..]) == [];
      DropTake(data, k, n);
      assert data[..n] == data[..k] + data[k..n];
      assert Render(f) == data[..n];
    }
  }

  /**
   * A skip that stays within the data has gone over exactly one well-formed field, and every well-formed
   * field can be gone over in this way.
   */
  lemma SkipIsExact(data: Bytes, n: nat)
    requires n <= |data|
    ensures Skip(data, 0) == Ok(n) <==> exists f :: WellFormed(f) && Render(f) == data[..n]
  {
    hide Skip;
    if Skip(data, 0) == Ok(n) {
      var f := SkipIsSound(data);
    }
    if exists f :: WellFormed(f) && Render(f) == data[..n] {
      var f :| WellFormed(f) && Render(f) == data[..n];
      SkipIsComplete(f, data[n..]);
      assert Render(f) + data[n..] == data;
    }
  }
}
