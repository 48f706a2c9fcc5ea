/**
 * Base 128 varints, as in section "Base 128 Varints" of the Protocol Buffers encoding specification:
 * the size formula, the loop that writes them and the loop that reads them.
 */
module Varints {
  import opened Base

  datatype Error =
    | IntOverflow | UnexpectedEOF | InvalidLength | EndGroup | IllegalTag | WrongWireType | IllegalWireType
    | UnexpectedEndOfGroup

  datatype Parse<+T> = Ok(value: T) | Err(error: Error) {
    predicate IsFailure() {
      Err?
    }

    function PropagateFailure<U>(): Parse<U>
      requires Err?
    {
      Err(error)
    }

    function Extract(): T
      requires Ok?
    {
      value
    }
  }

  // ---------------------------------------------------------------- powers of two and bits

  function Pow2(n: nat): (p: nat)
    ensures p > 0
  {
    if n == 0 then 1 else 2 * Pow2(n - 1)
  }

  const TWO_32: nat := 0x1_0000_0000
  const TWO_63: nat := 0x8000_0000_0000_0000
  const TWO_64: nat := 0x1_0000_0000_0000_0000

  lemma Pow2Values()
    ensures Pow2(7) == 128 && Pow2(32) == TWO_32 && Pow2(64) == TWO_64
  {
    assert Pow2(2) == 4;
    assert Pow2(4) == 16;
    assert Pow2(6) == 64;
    assert Pow2(8) == 256;
    Pow2Add(8, 8);
    assert Pow2(16) == 0x1_0000;
    Pow2Add(16, 16);
    assert Pow2(32) == TWO_32;
    Pow2Add(32, 32);
  }

  lemma {:induction false} Pow2Add(m: nat, n: nat)
    ensures Pow2(m + n) == Pow2(m) * Pow2(n)
  {
    if m > 0 {
      Pow2Add(m - 1, n);
      MulAssoc(2, Pow2(m - 1), Pow2(n));
    }
  }

  /** The number of bits of x, as `math/bits.Len64`. */
  function BitLen(x: nat): nat {
    if x == 0 then 0 else 1 + BitLen(x / 2)
  }

  /** Bitwise or. */
  function BitOr(a: nat, b: nat): nat
    decreases a + b
  {
    if a == 0 && b == 0 then 0
    else 2 * BitOr(a / 2, b / 2) + if a % 2 == 1 || b % 2 == 1 then 1 else 0
  }

  lemma {:induction false} BitOrZero(b: nat)
    ensures BitOr(0, b) == b && BitOr(b, 0) == b
  {
    if b > 0 {
      BitOrZero(b / 2);
    }
  }

  /** Or-ing bits above position s onto a number below it adds them. */
  lemma {:induction false} BitOrDisjoint(a: nat, k: nat, s: nat)
    requires a < Pow2(s)
    ensures BitOr(a, k * Pow2(s)) == a + k * Pow2(s)
    decreases s
  {
    var b := k * Pow2(s);
    if s == 0 || (a == 0 && b == 0) {
      BitOrZero(b);
    } else {
      var h := k * Pow2(s - 1);
      assert b == 2 * h by {
        MulAssoc(k, 2, Pow2(s - 1));
      }
      BitOrDisjoint(a / 2, k, s - 1);
      assert BitOr(a, 2 * h) == 2 * BitOr(a / 2, h) + if a % 2 == 1 then 1 else 0;
    }
  }

  // ---------------------------------------------------------------- multiplication and remainder

  lemma MulAssoc(a: nat, b: nat, c: nat)
    ensures a * (b * c) == (a * b) * c == b * (a * c)
  {
  }

  lemma MulDist(a: nat, b: nat, c: nat)
    ensures (a + b) * c == a * c + b * c
  {
  }

  lemma MulMono(a: nat, b: nat, p: nat)
    requires a <= b
    ensures a * p <= b * p
  {
  }

  /** Quotient and remainder are determined by their equation. */
  lemma DivModUnique(a: nat, m: nat, q: nat, r: nat)
    requires r < m && a == q * m + r
    ensures a / m == q && a % m == r
  {
    var q', r' := a / m, a % m;
    assert a == q' * m + r';
    if q' < q {
      MulMono(q' + 1, q, m);
      MulDist(q', 1, m);
    } else if q < q' {
      MulMono(q + 1, q', m);
      MulDist(q, 1, m);
    }
  }

  lemma MultipleMod(k: nat, m: nat)
    requires m > 0
    ensures (k * m) % m == 0
  {
    DivModUnique(k * m, m, k, 0);
  }

  lemma AddMultipleMod(a: nat, k: nat, m: nat)
    requires m > 0
    ensures (a + k * m) % m == a % m
  {
    var q, r := a / m, a % m;
    assert a == q * m + r;
    MulDist(q, k, m);
    DivModUnique(a + k * m, m, q + k, r);
  }

  lemma SmallMod(a: nat, m: nat)
    requires a < m
    ensures a % m == a
  {
    DivModUnique(a, m, 0, a);
  }

  // ---------------------------------------------------------------- writing

  /** The size of a varint as the generated code computes it. */
  function Sov(x: nat): nat {
    (BitLen(BitOr(x, 1)) + 6) / 7
  }

  /** The bytes of a varint: groups of seven bits, lowest first, all but the last one marked. */
  function Varint(v: nat): (bs: Bytes)
    ensures bs != []
  {
    if v < 128 then [v] else [v % 128 + 128] + Varint(v / 128)
  }

  lemma BitLenOrOne(x: nat)
    ensures BitLen(BitOr(x, 1)) == if x == 0 then 1 else BitLen(x)
  {
    BitOrZero(x / 2);
    assert BitOr(x, 1) / 2 == x / 2;
  }

  lemma BitLenGroup(x: nat)
    requires x >= 128
    ensures BitLen(x) == 7 + BitLen(x / 128)
  {
    assert x / 2 / 2 / 2 / 2 / 2 / 2 / 2 == x / 128;
    assert BitLen(x) == 1 + BitLen(x / 2) == 2 + BitLen(x / 2 / 2) == 3 + BitLen(x / 2 / 2 / 2)
                     == 4 + BitLen(x / 2 / 2 / 2 / 2);
    assert BitLen(x / 2 / 2 / 2 / 2) == 1 + BitLen(x / 2 / 2 / 2 / 2 / 2) == 2 + BitLen(x / 2 / 2 / 2 / 2 / 2 / 2)
                                     == 3 + BitLen(x / 2 / 2 / 2 / 2 / 2 / 2 / 2);
  }

  lemma {:induction false} BitLenBound(x: nat, n: nat)
    requires x < Pow2(n)
    ensures BitLen(x) <= n
    decreases n
  {
    if x > 0 {
      BitLenBound(x / 2, n - 1);
    }
  }

  /** The size formula gives exactly the number of bytes written. */
  lemma {:induction false} SovIsExact(v: nat)
    ensures Sov(v) == |Varint(v)|
  {
    BitLenOrOne(v);
    if v >= 128 {
      SovIsExact(v / 128);
      BitLenOrOne(v / 128);
      BitLenGroup(v);
    } else if v > 0 {
      Pow2Values();
      BitLenBound(v, 7);
    }
  }

  /** A 64-bit value takes at most ten bytes. */
  lemma VarintLength(v: nat)
    requires v < TWO_64
    ensures 1 <= |Varint(v)| <= 10
  {
    VarintBound(v, 10);
  }

  lemma {:induction false} VarintBound(v: nat, k: nat)
    requires k > 0 && v < Pow128(k)
    ensures |Varint(v)| <= k
    decreases k
  {
    if v >= 128 {
      assert k > 1;
      VarintBound(v / 128, k - 1);
    }
  }

  function Pow128(k: nat): nat {
    if k == 0 then 1 else 128 * Pow128(k - 1)
  }

  /** Writes the varint of v so that it ends at offset, and returns where it starts. */
  method EncodeVarint(data: array<Byte>, offset: nat, v: nat) returns (base: nat)
    requires |Varint(v)| <= offset <= data.Length
    modifies data
    ensures base == offset - |Varint(v)|
    ensures data[..] == Overwritten(old(data[..]), base, Varint(v))
  {
    SovIsExact(v);
    var o := offset - Sov(v);
    base := o;
    var x := v;
    ghost var orig: Bytes, written: Bytes := data[..], [];
    while x >= 128
      invariant base + |written| == o && o + |Varint(x)| == offset
      invariant written + Varint(x) == Varint(v)
      invariant data[..] == Overwritten(orig, base, written)
    {
      data[o] := x % 128 + 128;
      OverwriteNext(orig, base, written, x % 128 + 128);
      assert written + ([x % 128 + 128] + Varint(x / 128)) == written + [x % 128 + 128] + Varint(x / 128);
      written := written + [x % 128 + 128];
      x := x / 128;
      o := o + 1;
    }
    data[o] := x;
    OverwriteNext(orig, base, written, x);
  }

  /** The bytes of a buffer after some of them have been overwritten from position i on. */
  ghost function Overwritten(orig: Bytes, i: nat, written: Bytes): Bytes
    requires i + |written| <= |orig|
  {
    orig[..i] + written + orig[i + |written|..]
  }

  lemma OverwriteNext(orig: Bytes, i: nat, written: Bytes, b: Byte)
    requires i + |written| < |orig|
    ensures Overwritten(orig, i, written)[i + |written| := b] == Overwritten(orig, i, written + [b])
  {
  }

  // ---------------------------------------------------------------- reading

  /**
   * The value and the length of the varint at the start of data, before truncation to a machine word.
   * `shift` is the position of the next group; a group beyond position 63 is an overflow, whatever it holds.
   */
  function ReadVarint(data: Bytes, shift: nat): (r: Parse<(nat, nat)>)
    ensures r.Ok? ==> 1 <= r.value.1 <= |data|
  {
    if shift >= 64 then Err(IntOverflow)
    else if data == [] then Err(UnexpectedEOF)
    else if data[0] < 128 then Ok((data[0], 1))
    else
      var (v, n) :- ReadVarint(data[1..], shift + 7);
      Ok((data[0] - 128 + 128 * v, n + 1))
  }

  /** Reading back what was written gives the value and consumes exactly its bytes. */
  lemma {:induction false} VarintRoundTrip(v: nat, rest: Bytes, shift: nat)
    requires 7 * |Varint(v)| + shift <= 70
    ensures ReadVarint(Varint(v) + rest, shift) == Ok((v, |Varint(v)|))
    decreases v
  {
    var data := Varint(v) + rest;
    if v >= 128 {
      assert data[1..] == Varint(v / 128) + rest;
      VarintRoundTrip(v / 128, rest, shift + 7);
    }
  }

  /** More bytes behind a varint change nothing. */
  lemma {:induction false} ReadVarintPrefix(a: Bytes, b: Bytes, shift: nat)
    requires ReadVarint(a, shift).Ok?
    ensures ReadVarint(a + b, shift) == ReadVarint(a, shift)
    decreases |a|
  {
    if a[0] >= 128 {
      assert (a + b)[1..] == a[1..] + b;
      ReadVarintPrefix(a[1..], b, shift + 7);
    }
  }

  /** The lowest bits of x. */
  function Low(x: nat, width: nat): nat {
    if width == 0 then 0 else 2 * Low(x / 2, width - 1) + x % 2
  }

  lemma {:induction false} LowIsMod(x: nat, width: nat)
    ensures Low(x, width) == x % Pow2(width)
  {
    if width > 0 {
      LowIsMod(x / 2, width - 1);
      DoubleMod(x / 2, x % 2, Pow2(width - 1));
    }
  }

  lemma DoubleMod(h: nat, b: nat, p: nat)
    requires p > 0 && b < 2
    ensures (2 * h + b) % (2 * p) == 2 * (h % p) + b
  {
    var q, r := h / p, h % p;
    assert h == q * p + r;
    MulAssoc(q, 2, p);
    DivModUnique(2 * h + b, 2 * p, q, 2 * r + b);
  }

  /** A left shift in a word of the given width. */
  function Shl(x: nat, shift: nat, width: nat): nat {
    (x * Pow2(shift)) % Pow2(width)
  }

  /** The number whose bits from position shift on are those of x. */
  function Above(low: nat, x: nat, shift: nat): nat {
    if shift == 0 then low + x else 2 * Above(low / 2, x, shift - 1) + low % 2
  }

  lemma {:induction false} AboveIsSum(low: nat, x: nat, shift: nat)
    ensures Above(low, x, shift) == low + x * Pow2(shift)
  {
    if shift > 0 {
      AboveIsSum(low / 2, x, shift - 1);
      MulAssoc(x, 2, Pow2(shift - 1));
    }
  }

  /** One round of the reading loop: or-ing the shifted group adds it, within the width of the word. */
  lemma OrGroup(low: nat, x: nat, shift: nat, width: nat)
    requires low < Pow2(shift) && x < 128
    ensures BitOr(low % Pow2(width), Shl(x, shift, width)) == Above(low, x, shift) % Pow2(width)
  {
    AboveIsSum(low, x, shift);
    if shift >= width {
      OrGroupBeyond(low, x, shift, width);
    } else {
      OrGroupWithin(low, x, shift, width);
    }
  }

  /** A group above the word is lost. */
  lemma OrGroupBeyond(low: nat, x: nat, shift: nat, width: nat)
    requires shift >= width
    ensures BitOr(low % Pow2(width), Shl(x, shift, width)) == (low + x * Pow2(shift)) % Pow2(width)
  {
    var q, e := Pow2(width), Pow2(shift - width);
    Pow2Add(shift - width, width);
    MulAssoc(x, e, q);
    assert x * Pow2(shift) == (x * e) * q;
    MultipleMod(x * e, q);
    AddMultipleMod(low, x * e, q);
    BitOrZero(low % q);
  }

  lemma OrGroupWithin(low: nat, x: nat, shift: nat, width: nat)
    requires shift < width && low < Pow2(shift)
    ensures BitOr(low % Pow2(width), Shl(x, shift, width)) == (low + x * Pow2(shift)) % Pow2(width)
  {
    var p, e := Pow2(shift), Pow2(width - shift);
    Pow2Add(shift, width - shift);
    Truncated(low, x, p, e);
    BitOrDisjoint(low, x % e, shift);
  }

  lemma ShiftSplit(x: nat, p: nat, e: nat)
    requires e > 0
    ensures x * p == (x / e) * (p * e) + (x % e) * p
  {
    var q, t := x / e, x % e;
    assert x == q * e + t;
    MulDist(q * e, t, p);
    MulAssoc(q, e, p);
    assert p * e == e * p;
  }

  lemma BelowProduct(low: nat, t: nat, p: nat, e: nat)
    requires low < p && t < e
    ensures low + t * p < p * e
  {
    MulMono(t + 1, e, p);
    MulDist(t, 1, p);
    assert p * e == e * p;
  }

  /** Truncating to p * e what is shifted by p truncates it to e. */
  lemma Truncated(low: nat, x: nat, p: nat, e: nat)
    requires low < p && e > 0
    ensures p * e > 0
    ensures (x * p) % (p * e) == (x % e) * p && low % (p * e) == low
    ensures (low + x * p) % (p * e) == low + (x % e) * p
  {
    ShiftSplit(x, p, e);
    BelowProduct(low, x % e, p, e);
    BelowProduct(0, x % e, p, e);
    BelowProduct(low, 0, p, e);
    var m, q, y, r := p * e, x / e, x * p, (x % e) * p;
    DivModUnique(y, m, q, r);
    SmallMod(low, m);
    DivModUnique(low + y, m, q, low + r);
  }

  /** Below its shift, then below the next one. */
  lemma GroupBound(low: nat, x: nat, shift: nat)
    requires low < Pow2(shift) && x < 128
    ensures Above(low, x, shift) < Pow2(shift + 7)
  {
    var p := Pow2(shift);
    AboveIsSum(low, x, shift);
    Pow2Add(shift, 7);
    Pow2Values();
    MulDist(x, 1, p);
    MulMono(x + 1, 128, p);
  }

  /** What a varint at position i is worth in a word of the given width, and where it ends. */
  function ReadWord(data: Bytes, i: nat, width: nat): Parse<(nat, nat)>
    requires i <= |data|
  {
    var (v, n) :- ReadVarint(data[i..], 0);
    Ok((Low(v, width), i + n))
  }

  /** The reading loop of the generated code, for a variable of the given width. */
  method DecodeVarint(data: Bytes, i: nat, width: nat) returns (r: Parse<(nat, nat)>)
    requires i <= |data|
    ensures r == ReadWord(data, i, width)
  {
    var acc, shift, pos := 0, 0, i;
    ghost var low: nat := 0;
    LowIsMod(0, width);
    SmallMod(0, Pow2(width));
    StartReading(data, i);
    while true
      invariant i <= pos <= |data| && low < Pow2(shift) && acc == Low(low, width)
      invariant ReadVarint(data[i..], 0) == Resumed(ReadVarint(data[pos..], shift), low, shift, pos - i)
      decreases |data| - pos
    {
      if shift >= 64 {
        return Err(IntOverflow);
      }
      if pos >= |data| {
        return Err(UnexpectedEOF);
      }
      var b := data[pos];
      ReadGroup(data, pos, low, shift, pos - i);
      acc := OrShifted(acc, b % 128, shift, width, low);
      pos := pos + 1;
      if b < 128 {
        return Ok((acc, pos));
      }
      low := Above(low, b % 128, shift);
      shift := shift + 7;
    }
  }

  /** One round: the group is shifted into place and or-ed onto the word. */
  method OrShifted(acc: nat, x: nat, shift: nat, width: nat, ghost low: nat) returns (acc': nat)
    requires low < Pow2(shift) && x < 128 && acc == Low(low, width)
    ensures acc' == Low(Above(low, x, shift), width) && Above(low, x, shift) < Pow2(shift + 7)
  {
    acc' := BitOr(acc, Shl(x, shift, width));
    LowIsMod(low, width);
    LowIsMod(Above(low, x, shift), width);
    OrGroup(low, x, shift, width);
    GroupBound(low, x, shift);
  }

  /** A varint read in two parts. */
  ghost function Resumed(r: Parse<(nat, nat)>, low: nat, shift: nat, n: nat): Parse<(nat, nat)> {
    match r
    case Err(e) => Err(e)
    case Ok((v, k)) => Ok((Above(low, v, shift), n + k))
  }

  lemma StartReading(data: Bytes, i: nat)
    requires i <= |data|
    ensures ReadVarint(data[i..], 0) == Resumed(ReadVarint(data[i..], 0), 0, 0, 0)
  {
  }

  /** What one more group adds to what has been read. */
  lemma ReadGroup(data: Bytes, pos: nat, low: nat, shift: nat, n: nat)
    requires pos < |data| && shift < 64
    ensures Resumed(ReadVarint(data[pos..], shift), low, shift, n)
            == if data[pos] < 128 then Ok((Above(low, data[pos] % 128, shift), n + 1))
               else Resumed(ReadVarint(data[pos + 1..], shift + 7), Above(low, data[pos] % 128, shift), shift + 7,
                            n + 1)
  {
    assert data[pos..][1..] == data[pos + 1..];
    if data[pos] >= 128 {
      var r := ReadVarint(data[pos + 1..], shift + 7);
      if r.Ok? {
        AboveTwice(low, data[pos] % 128, r.value.0, shift);
      }
    }
  }

  lemma AboveTwice(low: nat, x: nat, v: nat, shift: nat)
    ensures Above(Above(low, x, shift), v, shift + 7) == Above(low, x + 128 * v, shift)
  {
    var p := Pow2(shift);
    AboveIsSum(low, x + 128 * v, shift);
    AboveIsSum(low, x, shift);
    AboveIsSum(Above(low, x, shift), v, shift + 7);
    Pow2Add(shift, 7);
    Pow2Values();
    MulDist(x, 128 * v, p);
    MulAssoc(v, p, 128);
    MulAssoc(v, 128, p);
  }

  // ---------------------------------------------------------------- signed words

  type Int64 = x: int | -0x8000_0000_0000_0000 <= x < 0x8000_0000_0000_0000
  type Int32 = x: int | -0x8000_0000 <= x < 0x8000_0000
  type Uint64 = x: int | 0 <= x < 0x1_0000_0000_0000_0000
  type Uint32 = x: int | 0 <= x < 0x1_0000_0000

  /** The conversion of a signed word to 64 bits, which extends the sign. */
  function ToUint64(x: int): Uint64 {
    x % TWO_64
  }

  function ToInt64(u: nat): Int64 {
    var w := u % TWO_64;
    if w < TWO_63 then w else w - TWO_64
  }

  function ToInt32(u: nat): Int32 {
    var w := u % TWO_32;
    if w < 0x8000_0000 then w else w - TWO_32
  }

  lemma SignedRoundTrips(x: Int64, y: Int32)
    ensures ToInt64(ToUint64(x)) == x
    ensures ToInt32(ToUint64(y)) == y
  {
    if y < 0 {
      assert ToUint64(y) == y + TWO_64;
      assert (y + TWO_64) % TWO_32 == y + TWO_32;
    }
  }
}
