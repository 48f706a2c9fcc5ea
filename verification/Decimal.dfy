/**
 * Decimal rendering of natural numbers, as the formatting macros of the engine print
 * counters and amounts, and the seed string from which contract addresses are generated.
 */
module Decimal {

  function Digit(d: nat): char
    requires d < 10
  {
    "0123456789"[d]
  }

  /** The decimal numeral of n, without leading zeros. */
  function Dec(n: nat): string {
    if n < 10 then [Digit(n)] else Dec(n / 10) + [Digit(n % 10)]
  }

  lemma {:induction false} DecDigits(n: nat)
    ensures Dec(n) != []
    ensures forall i :: 0 <= i < |Dec(n)| ==> '0' <= Dec(n)[i] <= '9'
  {
    if n >= 10 {
      DecDigits(n / 10);
    }
  }

  lemma {:induction false} DecInjective(m: nat, n: nat)
    requires Dec(m) == Dec(n)
    ensures m == n
  {
    hide Dec;
    LastDigit(m);
    LastDigit(n);
    if m >= 10 && n >= 10 {
      DecInjective(m / 10, n / 10);
    }
  }

  lemma LastDigit(n: nat)
    ensures Dec(n) != [] && Dec(n)[|Dec(n)| - 1] == Digit(n % 10)
    ensures if n < 10 then |Dec(n)| == 1 else |Dec(n)| > 1 && Dec(n)[..|Dec(n)| - 1] == Dec(n / 10)
  {
    DecDigits(n / 10);
  }

  /** The text hashed to obtain the address of the c-th instance of a code. */
  function Seed(codeId: nat, c: nat): string {
    "seeeed_" + Dec(codeId) + "_" + Dec(c)
  }

  /** Two strings that agree up to their first separator have the same parts. */
  lemma SplitAtSeparator(a: string, b: string, a': string, b': string, sep: char)
    requires a + [sep] + b == a' + [sep] + b'
    requires sep !in a && sep !in a'
    ensures a == a' && b == b'
  {
    var s := a + [sep] + b;
    assert s[|a|] == sep && s[|a'|] == sep;
    assert forall i :: 0 <= i < |a| ==> s[i] == a[i];
    assert forall i :: 0 <= i < |a'| ==> s[i] == a'[i];
    assert |a| == |a'|;
    assert a == s[..|a|] && a' == s[..|a|];
    assert b == s[|a| + 1..] && b' == s[|a'| + 1..];
  }

  /** Distinct (code, counter) pairs give distinct seeds. */
  lemma SeedInjective(code: nat, c: nat, code': nat, c': nat)
    requires Seed(code, c) == Seed(code', c')
    ensures code == code' && c == c'
  {
    hide Dec;
    DecDigits(code);
    DecDigits(code');
    var p := "seeeed_";
    assert Seed(code, c) == p + (Dec(code) + ['_'] + Dec(c));
    assert Seed(code', c') == p + (Dec(code') + ['_'] + Dec(c'));
    assert Seed(code, c)[|p|..] == Dec(code) + ['_'] + Dec(c);
    assert Seed(code', c')[|p|..] == Dec(code') + ['_'] + Dec(c');
    assert '_' !in Dec(code) && '_' !in Dec(code');
    SplitAtSeparator(Dec(code), Dec(c), Dec(code'), Dec(c'), '_');
    DecInjective(code, code');
    DecInjective(c, c');
  }
}
