/**
 * The in-shuffle and the mock address format built on it. A perfect shuffle of 2m elements moves the element
 * at position p, counted from one, to position 2p modulo 2m + 1.
 */
module Riffle {
  import opened Base
  import opened Varints

  // ---------------------------------------------------------------- one shuffle

  function Interleave<T>(right: seq<T>, left: seq<T>): (r: seq<T>)
    requires |right| == |left|
    ensures |r| == 2 * |left|
  {
    if right == [] then [] else [right[0], left[0]] + Interleave(right[1..], left[1..])
  }

  /** The upper half first; the odd element at the end, if there is one, is dropped. */
  function Shuffle<T>(s: seq<T>): seq<T> {
    var m := |s| / 2;
    Interleave(s[m..2 * m], s[..m])
  }

  lemma {:induction false} InterleaveSnoc<T>(right: seq<T>, left: seq<T>, x: T, y: T)
    requires |right| == |left|
    ensures Interleave(right + [x], left + [y]) == Interleave(right, left) + [x, y]
    decreases |right|
  {
    if right == [] {
      assert right + [x] == [x] && left + [y] == [y];
      assert [x][1..] == [] && [y][1..] == [];
      assert Interleave([x], [y]) == [x, y] + Interleave([x][1..], [y][1..]);
    } else {
      assert (right + [x])[1..] == right[1..] + [x] && (left + [y])[1..] == left[1..] + [y];
      InterleaveSnoc(right[1..], left[1..], x, y);
    }
  }

  /** The loop that deals the two halves alternately. */
  method RiffleShuffle<T>(input: seq<T>) returns (out: seq<T>)
    ensures out == Shuffle(input)
  {
    var mid := |input| / 2;
    var left, right := input[..mid], input[mid..];
    var i := 0;
    out := [];
    while i < mid
      invariant i <= mid && out == Interleave(right[..i], left[..i])
    {
      InterleaveSnoc(right[..i], left[..i], right[i], left[i]);
      assert right[..i] + [right[i]] == right[..i + 1] && left[..i] + [left[i]] == left[..i + 1];
      out := out + [right[i], left[i]];
      i := i + 1;
    }
    assert right[..mid] == input[mid..2 * mid] && left[..mid] == input[..mid];
  }

  lemma {:induction false} InterleaveAt<T>(right: seq<T>, left: seq<T>, k: nat)
    requires k < |right| == |left|
    ensures Interleave(right, left)[2 * k] == right[k] && Interleave(right, left)[2 * k + 1] == left[k]
  {
    if k > 0 {
      InterleaveAt(right[1..], left[1..], k - 1);
      var tail := Interleave(right[1..], left[1..]);
      assert Interleave(right, left)[2 * k] == tail[2 * (k - 1)];
      assert Interleave(right, left)[2 * k + 1] == tail[2 * (k - 1) + 1];
    }
  }

  lemma {:induction false} InterleaveKeepsElements<T>(right: seq<T>, left: seq<T>)
    requires |right| == |left|
    ensures multiset(Interleave(right, left)) == multiset(right) + multiset(left)
  {
    if right != [] {
      hide Interleave;
      InterleaveKeepsElements(right[1..], left[1..]);
      Unfolded(right, left);
      HeadTail(right);
      HeadTail(left);
      Regroup(right[0], left[0], right[1..], left[1..], Interleave(right[1..], left[1..]));
    }
  }

  lemma Unfolded<T>(right: seq<T>, left: seq<T>)
    requires |right| == |left| > 0
    ensures Interleave(right, left) == [right[0]] + ([left[0]] + Interleave(right[1..], left[1..]))
  {
    var tail := Interleave(right[1..], left[1..]);
    assert Interleave(right, left) == [right[0], left[0]] + tail;
    hide Interleave;
    Pair(right[0], left[0], tail);
  }

  lemma Pair<T>(x: T, y: T, tail: seq<T>)
    ensures [x, y] + tail == [x] + ([y] + tail)
  {
  }

  lemma HeadTail<T>(s: seq<T>)
    requires s != []
    ensures s == [s[0]] + s[1..]
  {
  }

  lemma Regroup<T>(x: T, y: T, r: seq<T>, l: seq<T>, t: seq<T>)
    requires multiset(t) == multiset(r) + multiset(l)
    ensures multiset([x] + ([y] + t)) == multiset([x] + r) + multiset([y] + l)
  {
  }

  /** A shuffle of an even number of elements is a permutation. */
  lemma ShuffleKeepsElements<T>(s: seq<T>)
    requires |s| % 2 == 0
    ensures |Shuffle(s)| == |s| && multiset(Shuffle(s)) == multiset(s)
  {
    hide Interleave;
    var m := |s| / 2;
    InterleaveKeepsElements(s[m..2 * m], s[..m]);
    assert s == s[..m] + s[m..2 * m];
  }

  /** Of an odd number of elements the last one is lost; the others are shuffled as if it were not there. */
  lemma OddShuffleDropsLast<T>(s: seq<T>)
    requires |s| % 2 == 1
    ensures Shuffle(s) == Shuffle(s[..|s| - 1])
    ensures multiset(Shuffle(s)) + multiset([s[|s| - 1]]) == multiset(s)
  {
    var m, t := |s| / 2, s[..|s| - 1];
    assert |t| / 2 == m && t[m..2 * m] == s[m..2 * m] && t[..m] == s[..m];
    ShuffleKeepsElements(t);
    assert s == t + [s[|s| - 1]];
  }

  // ---------------------------------------------------------------- many shuffles

  /** Where the element at position p, counted from one, goes. */
  function Step(n: nat, p: nat): nat
    requires 1 <= p <= n
  {
    if 2 * p <= n then 2 * p else 2 * p - (n + 1)
  }

  lemma {:induction false} StepStays(n: nat, p: nat)
    requires n % 2 == 0 && 1 <= p <= n
    ensures 1 <= Step(n, p) <= n && Step(n, p) == (2 * p) % (n + 1)
  {
    if 2 * p <= n {
      SmallMod(2 * p, n + 1);
    } else {
      DivModUnique(2 * p, n + 1, 1, 2 * p - (n + 1));
    }
  }

  lemma ShuffleMoves<T>(s: seq<T>, p: nat)
    requires |s| % 2 == 0 && 1 <= p <= |s|
    ensures |Shuffle(s)| == |s| && 1 <= Step(|s|, p) <= |s|
    ensures Shuffle(s)[Step(|s|, p) - 1] == s[p - 1]
  {
    var m := |s| / 2;
    if p <= m {
      InterleaveAt(s[m..2 * m], s[..m], p - 1);
    } else {
      InterleaveAt(s[m..2 * m], s[..m], p - 1 - m);
    }
  }

  /** f^k, as the composition of k copies of the shuffle. */
  function Power<T>(s: seq<T>, k: nat): seq<T>
    decreases k
  {
    if k == 0 then s else Power(Shuffle(s), k - 1)
  }

  function Position(n: nat, k: nat, p: nat): nat
    requires n % 2 == 0 && 1 <= p <= n
    decreases k
  {
    if k == 0 then p else StepStays(n, p); Position(n, k - 1, Step(n, p))
  }

  lemma {:induction false} PowerMoves<T>(s: seq<T>, k: nat, p: nat)
    requires |s| % 2 == 0 && 1 <= p <= |s|
    ensures |Power(s, k)| == |s| && 1 <= Position(|s|, k, p) <= |s|
    ensures Power(s, k)[Position(|s|, k, p) - 1] == s[p - 1]
    decreases k
  {
    if k > 0 {
      StepStays(|s|, p);
      ShuffleMoves(s, p);
      PowerMoves(Shuffle(s), k - 1, Step(|s|, p));
    }
  }

  lemma {:induction false} PositionIsPower(n: nat, k: nat, p: nat)
    requires n % 2 == 0 && 1 <= p <= n
    ensures Position(n, k, p) == (Pow2(k) * p) % (n + 1)
    decreases k
  {
    if k == 0 {
      SmallMod(p, n + 1);
    } else {
      StepStays(n, p);
      PositionIsPower(n, k - 1, Step(n, p));
      assert Step(n, p) == (2 * p) % (n + 1);
      Doubled(Pow2(k - 1), p, n + 1);
    }
  }

  lemma {:induction false} Doubled(x: nat, p: nat, m: nat)
    requires m > 0
    ensures ((2 * x) * p) % m == (x * ((2 * p) % m)) % m
  {
    var q, r := (2 * p) / m, (2 * p) % m;
    MulAssoc(2, x, p);
    MulDist(q * m, r, x);
    MulAssoc(x, q, m);
    assert x * (2 * p) == x * r + (x * q) * m;
    AddMultipleMod(x * r, x * q, m);
  }

  /** After k shuffles the element at position p is at position 2^k p modulo the length plus one. */
  lemma {:induction false} RiffleLaw<T>(s: seq<T>, k: nat, p: nat)
    requires |s| % 2 == 0 && 1 <= p <= |s|
    ensures |Power(s, k)| == |s| && 1 <= (Pow2(k) * p) % (|s| + 1) <= |s|
    ensures Power(s, k)[(Pow2(k) * p) % (|s| + 1) - 1] == s[p - 1]
  {
    hide Power;
    hide Position;
    hide Pow2;
    PowerMoves(s, k, p);
    PositionIsPower(|s|, k, p);
  }

  /** k shuffles restore every sequence of an even length n exactly if 2^k is one modulo n + 1. */
  lemma {:induction false} RestoredIf<T>(s: seq<T>, k: nat)
    requires |s| % 2 == 0 && Pow2(k) % (|s| + 1) == 1 % (|s| + 1)
    ensures Power(s, k) == s
  {
    hide Power;
    hide Pow2;
    var n, r := |s|, Power(s, k);
    if n == 0 {
      EmptyPower(s, k);
    } else {
      SmallMod(1, n + 1);
      RiffleLaw(s, k, 1);
      forall i | 0 <= i < n ensures r[i] == s[i] {
        OneTimes(Pow2(k), i + 1, n + 1);
        RiffleLaw(s, k, i + 1);
      }
      assert r == s;
    }
  }

  lemma {:induction false} EmptyPower<T>(s: seq<T>, k: nat)
    ensures s == [] ==> Power(s, k) == []
    decreases k
  {
    if k > 0 && s == [] {
      EmptyPower(Shuffle(s), k - 1);
    }
  }

  lemma {:induction false} OneTimes(x: nat, p: nat, m: nat)
    requires m > 1 && x % m == 1 && p < m
    ensures (x * p) % m == p
  {
    var q := x / m;
    assert x == q * m + 1;
    MulDist(q * m, 1, p);
    MulAssoc(q, m, p);
    MulAssoc(q, p, m);
    DivModUnique(x * p, m, q * p, p);
  }

  lemma RestoredOnlyIf(n: nat, k: nat)
    requires n % 2 == 0 && n > 0 && Pow2(k) % (n + 1) != 1
    ensures exists s: seq<nat> :: |s| == n && Power(s, k) != s
  {
    var s: seq<nat> := seq(n, i => i);
    RiffleLaw(s, k, 1);
    var p := (Pow2(k) * 1) % (n + 1);
    assert Pow2(k) * 1 == Pow2(k);
    assert Power(s, k)[p - 1] == 0 && s[p - 1] != 0;
  }

  lemma {:induction false} PowersModulo(k: nat)
    ensures Pow2(20) % 55 == 1 && Pow2(20) % 25 == 1
    ensures 0 < k < 20 ==> Pow2(k) % 55 != 1 && Pow2(k) % 25 != 1
  {
    PowersBelow20();
  }

  /** Twenty shuffles restore every sequence of 54 elements, or of 24. */
  lemma TwentyRestores<T>(s: seq<T>)
    requires |s| == 54 || |s| == 24
    ensures Power(s, 20) == s
  {
    hide Power;
    PowersModulo(0);
    RestoredIf(s, 20);
  }

  /** Fewer do not. */
  lemma FewerDoNotRestore(n: nat, k: nat)
    requires (n == 54 || n == 24) && 0 < k < 20
    ensures exists s: seq<nat> :: |s| == n && Power(s, k) != s
  {
    hide Power;
    PowersModulo(k);
    RestoredOnlyIf(n, k);
  }

  lemma PowersBelow20()
    ensures Pow2(1) == 2 && Pow2(2) == 4 && Pow2(3) == 8 && Pow2(4) == 16 && Pow2(5) == 32
    ensures Pow2(6) == 64 && Pow2(7) == 128 && Pow2(8) == 256 && Pow2(9) == 512 && Pow2(10) == 1024
    ensures Pow2(11) == 2048 && Pow2(12) == 4096 && Pow2(13) == 8192 && Pow2(14) == 16384 && Pow2(15) == 32768
    ensures Pow2(16) == 65536 && Pow2(17) == 131072 && Pow2(18) == 262144 && Pow2(19) == 524288
    ensures Pow2(20) == 1048576
  {
  }

  // ---------------------------------------------------------------- rotation and digit sums

  function RotateLeft<T>(s: seq<T>, n: nat): seq<T>
    requires n <= |s|
  {
    s[n..] + s[..n]
  }

  function RotateRight<T>(s: seq<T>, n: nat): seq<T>
    requires n <= |s|
  {
    s[|s| - n..] + s[..|s| - n]
  }

  lemma RotateBack<T>(s: seq<T>, n: nat)
    requires n <= |s|
    ensures RotateRight(RotateLeft(s, n), n) == s
  {
    var r := RotateLeft(s, n);
    assert r[|s| - n..] == s[..n] && r[..|s| - n] == s[n..];
  }

  function DigitSum(s: Bytes): nat {
    if s == [] then 0 else s[0] + DigitSum(s[1..])
  }

  lemma {:induction false} DigitSumConcat(a: Bytes, b: Bytes)
    ensures DigitSum(a + b) == DigitSum(a) + DigitSum(b)
  {
    if a == [] {
      assert a + b == b;
    } else {
      assert (a + b)[0] == a[0] && (a + b)[1..] == a[1..] + b;
      DigitSumConcat(a[1..], b);
    }
  }

  lemma {:induction false} RotationKeepsDigitSum(s: Bytes, n: nat)
    requires n <= |s|
    ensures DigitSum(RotateLeft(s, n)) == DigitSum(s)
  {
    assert s == s[..n] + s[n..];
    DigitSumConcat(s[..n], s[n..]);
    DigitSumConcat(s[n..], s[..n]);
  }

  /** Adds the bytes up from left to right. */
  method SumDigits(s: Bytes) returns (sum: nat)
    ensures sum == DigitSum(s)
  {
    sum := 0;
    var i := 0;
    assert s[0..] == s;
    while i < |s|
      invariant i <= |s| && sum + DigitSum(s[i..]) == DigitSum(s)
    {
      assert s[i..][1..] == s[i + 1..];
      sum := sum + s[i];
      i := i + 1;
    }
  }

  // ---------------------------------------------------------------- mock addresses

  const CANONICAL_LENGTH: nat := 54
  const SHUFFLES_ENCODE: nat := 18
  const SHUFFLES_DECODE: nat := 2

  datatype AddressError = TooShort | TooLong | WrongLength | NotText | NotNormalized

  datatype Result = Success(bytes: Bytes) | Failure(error: AddressError)

  /** Cuts off, or fills up with zeros. */
  function Resize(s: Bytes, n: nat): (r: Bytes)
    ensures |r| == n
  {
    if |s| >= n then s[..n] else s + seq(n - |s|, _ => 0)
  }

  function NonZero(s: Bytes): Bytes {
    if s == [] then [] else (if s[0] != 0 then [s[0]] else []) + NonZero(s[1..])
  }

  /** `lower` is the conversion to lower case, which may change the length. */
  function Canonicalize(lower: Bytes -> Bytes, input: Bytes): Result {
    if |input| < 3 then Failure(TooShort)
    else if |input| > CANONICAL_LENGTH then Failure(TooLong)
    else
      var out := Resize(lower(input), CANONICAL_LENGTH);
      Success(Power(RotateLeft(out, DigitSum(out) % CANONICAL_LENGTH), SHUFFLES_ENCODE))
  }

  /** `utf8` tells which byte sequences are text. */
  function Humanize(utf8: Bytes -> bool, canonical: Bytes): Result {
    if |canonical| != CANONICAL_LENGTH then Failure(WrongLength)
    else
      PowerLength(canonical, SHUFFLES_DECODE);
      var tmp := Power(canonical, SHUFFLES_DECODE);
      Text(utf8, NonZero(RotateRight(tmp, DigitSum(tmp) % CANONICAL_LENGTH)))
  }

  function Text(utf8: Bytes -> bool, s: Bytes): Result {
    if utf8(s) then Success(s) else Failure(NotText)
  }

  function Validate(utf8: Bytes -> bool, lower: Bytes -> Bytes, input: Bytes): Result {
    match Canonicalize(lower, input)
    case Failure(e) => Failure(e)
    case Success(canonical) =>
      match Humanize(utf8, canonical)
      case Failure(e) => Failure(e)
      case Success(human) => if input != human then Failure(NotNormalized) else Success(input)
  }

  lemma {:induction false} PowerLength<T>(s: seq<T>, k: nat)
    requires |s| % 2 == 0
    ensures |Power(s, k)| == |s|
    decreases k
  {
    if k > 0 {
      PowerLength(Shuffle(s), k - 1);
    }
  }

  lemma {:induction false} PowerAdd<T>(s: seq<T>, j: nat, k: nat)
    ensures Power(Power(s, j), k) == Power(s, j + k)
    decreases j
  {
    if j > 0 {
      PowerAdd(Shuffle(s), j - 1, k);
    }
  }

  /** Two more shuffles undo the eighteen, and the digit sum tells how far to rotate back. */
  lemma {:induction false} CanonicalIsUndone(utf8: Bytes -> bool, out: Bytes)
    requires |out| == CANONICAL_LENGTH
    ensures var shift := DigitSum(out) % CANONICAL_LENGTH;
            Humanize(utf8, Power(RotateLeft(out, shift), SHUFFLES_ENCODE)) == Text(utf8, NonZero(out))
  {
    hide DigitSum;
    hide NonZero;
    var shift := DigitSum(out) % CANONICAL_LENGTH;
    var rotated := RotateLeft(out, shift);
    assert |rotated| == CANONICAL_LENGTH;
    TwentyRestores(rotated);
    PowerAdd(rotated, SHUFFLES_ENCODE, SHUFFLES_DECODE);
    PowerLength(rotated, SHUFFLES_ENCODE);
    RotationKeepsDigitSum(out, shift);
    RotateBack(out, shift);
  }

  /**
   * For every input of an acceptable length, going to the canonical form and back gives the lower-case input,
   * cut to the canonical length and without zero bytes, if that is text; every other input is refused.
   */
  lemma AddressRoundTrip(utf8: Bytes -> bool, lower: Bytes -> Bytes, input: Bytes)
    ensures var r := Canonicalize(lower, input);
            if 3 <= |input| <= CANONICAL_LENGTH then
              && r.Success? && |r.bytes| == CANONICAL_LENGTH
              && Humanize(utf8, r.bytes) == Text(utf8, NonZero(Resize(lower(input), CANONICAL_LENGTH)))
            else r.Failure?
  {
    hide Power;
    hide DigitSum;
    hide Humanize;
    if 3 <= |input| <= CANONICAL_LENGTH {
      var out := Resize(lower(input), CANONICAL_LENGTH);
      var shift := DigitSum(out) % CANONICAL_LENGTH;
      CanonicalIsUndone(utf8, out);
      PowerLength(RotateLeft(out, shift), SHUFFLES_ENCODE);
    }
  }

  lemma {:induction false} NonZeroConcat(a: Bytes, b: Bytes)
    ensures NonZero(a + b) == NonZero(a) + NonZero(b)
  {
    if a == [] {
      assert a + b == b;
    } else {
      assert (a + b)[0] == a[0] && (a + b)[1..] == a[1..] + b;
      NonZeroConcat(a[1..], b);
    }
  }

  lemma {:induction false} NonZeroFacts(s: Bytes)
    ensures |NonZero(s)| <= |s| && 0 !in NonZero(s)
    ensures 0 !in s ==> NonZero(s) == s
    ensures (forall i :: 0 <= i < |s| ==> s[i] == 0) ==> NonZero(s) == []
  {
    if s != [] {
      NonZeroFacts(s[1..]);
      assert s == [s[0]] + s[1..];
    }
  }

  /**
   * An address is valid if and only if it is text of an acceptable length and equal to its lower-case form cut
   * to the canonical length and without zero bytes. For a conversion that keeps the length and neither adds
   * nor removes zero bytes that means: equal to its lower-case form, and without zero bytes.
   */
  lemma {:induction false} ValidIffNormalized(utf8: Bytes -> bool, lower: Bytes -> Bytes, input: Bytes)
    ensures Validate(utf8, lower, input).Success?
            <==> && 3 <= |input| <= CANONICAL_LENGTH && utf8(input)
                 && input == NonZero(Resize(lower(input), CANONICAL_LENGTH))
    ensures |lower(input)| == |input| && (0 in lower(input) <==> 0 in input) ==>
              (Validate(utf8, lower, input).Success?
               <==> 3 <= |input| <= CANONICAL_LENGTH && utf8(input) && lower(input) == input && 0 !in input)
  {
    hide Humanize;
    hide Canonicalize;
    hide NonZero;
    hide Resize;
    AddressRoundTrip(utf8, lower, input);
    var low := lower(input);
    if 3 <= |input| <= CANONICAL_LENGTH && |low| == |input| {
      ResizeIsPadding(low, CANONICAL_LENGTH);
      NonZeroFacts(low);
    }
  }

  lemma ResizeIsPadding(s: Bytes, n: nat)
    requires |s| <= n
    ensures NonZero(Resize(s, n)) == NonZero(s)
  {
    hide NonZero;
    var zeros: Bytes := seq(n - |s|, _ => 0);
    NonZeroConcat(s, zeros);
    NonZeroFacts(zeros);
    if |s| == n {
      assert s[..n] == s;
    } else {
      assert NonZero(s) + [] == NonZero(s);
    }
  }

  /** Shuffles as often as it is told. */
  method ShuffleTimes(s: Bytes, times: nat) returns (out: Bytes)
    ensures out == Power(s, times)
  {
    out := s;
    for i := 0 to times
      invariant Power(out, times - i) == Power(s, times)
    {
      out := RiffleShuffle(out);
    }
  }

  method AddrCanonicalize(lower: Bytes -> Bytes, input: Bytes) returns (r: Result)
    ensures r == Canonicalize(lower, input)
  {
    hide Power;
    if |input| < 3 {
      return Failure(TooShort);
    }
    if |input| > CANONICAL_LENGTH {
      return Failure(TooLong);
    }
    var out := Resize(lower(input), CANONICAL_LENGTH);
    var sum := SumDigits(out);
    out := ShuffleTimes(RotateLeft(out, sum % CANONICAL_LENGTH), SHUFFLES_ENCODE);
    r := Success(out);
  }

  method AddrHumanize(utf8: Bytes -> bool, canonical: Bytes) returns (r: Result)
    ensures r == Humanize(utf8, canonical)
  {
    hide Power;
    if |canonical| != CANONICAL_LENGTH {
      return Failure(WrongLength);
    }
    PowerLength(canonical, SHUFFLES_DECODE);
    var tmp := ShuffleTimes(canonical, SHUFFLES_DECODE);
    var sum := SumDigits(tmp);
    r := Text(utf8, NonZero(RotateRight(tmp, sum % CANONICAL_LENGTH)));
  }
}
