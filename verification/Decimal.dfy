/**
 Decimal numerals: printing, padding and reading natural numbers, and how the
 order of equally long numerals is the order of their values.
 */
module Decimal {
  import opened Prelude
  import opened Strings

  predicate IsDigit(c: char) {
    '0' <= c <= '9'
  }

  predicate AllDigits(s: string) {
    forall i :: 0 <= i < |s| ==> IsDigit(s[i])
  }

  function DigitOf(c: char): nat
    requires IsDigit(c)
  {
    c as nat - '0' as nat
  }

  function CharOf(d: nat): (c: char)
    requires d < 10
    ensures IsDigit(c) && DigitOf(c) == d
  {
    '0' + d as char
  }

  function Value(s: string): nat
    requires AllDigits(s)
  {
    if s == [] then 0 else 10 * Value(s[..|s| - 1]) + DigitOf(s[|s| - 1])
  }

  /** `strconv.FormatUint(n, 10)`. */
  function Print(n: nat): (s: string)
    ensures s != [] && AllDigits(s)
  {
    if n < 10 then [CharOf(n)] else Print(n / 10) + [CharOf(n % 10)]
  }

  /** A numeral that is not `0` does not start with one. */
  predicate Shortest(s: string) {
    s != [] && AllDigits(s) && (|s| > 1 ==> s[0] != '0')
  }

  /** `strconv.ParseUint(s, 10, 64)`: leading zeros are allowed, a sign is not. */
  function ParseUint(s: string): Option<nat> {
    if s != [] && AllDigits(s) && Value(s) <= MaxUint64 then Some(Value(s)) else None
  }

  function Zeros(n: nat): (s: string)
    ensures |s| == n && AllDigits(s)
  {
    seq(n, _ => '0')
  }

  /** `fmt.Sprintf("%0*d", width, n)` for a natural number. */
  function Padded(n: nat, width: nat): (s: string)
    ensures AllDigits(s)
  {
    var digits := Print(n);
    if |digits| >= width then digits else Zeros(width - |digits|) + digits
  }

  function Pow10(n: nat): (p: nat)
    ensures p > 0
  {
    if n == 0 then 1 else 10 * Pow10(n - 1)
  }

  // ---------- Printing and reading ----------

  lemma {:induction false} PrintValue(n: nat)
    ensures Value(Print(n)) == n && Shortest(Print(n))
    ensures n > 0 ==> Print(n)[0] != '0'
    decreases n
  {
    if n >= 10 {
      PrintValue(n / 10);
      assert Print(n)[..|Print(n)| - 1] == Print(n / 10);
    } else {
      assert Print(n)[..0] == [];
    }
  }

  /** A shortest numeral is determined by its value. */
  lemma {:induction false} ShortestUnique(s: string)
    requires Shortest(s)
    ensures Print(Value(s)) == s
    ensures |s| > 1 ==> Value(s) >= 10
  {
    if |s| > 1 {
      var init := s[..|s| - 1];
      ShortestUnique(init);
      if |init| == 1 {
        assert init[..0] == [] && Value(init) == DigitOf(s[0]) && Value(init) > 0;
      }
      assert s == init + [s[|s| - 1]];
    } else {
      assert s[..0] == [];
    }
  }

  lemma {:induction false} ValueBound(s: string)
    requires AllDigits(s)
    ensures Value(s) < Pow10(|s|)
  {
    if s != [] {
      ValueBound(s[..|s| - 1]);
    }
  }

  lemma {:induction false} ValueHead(s: string)
    requires AllDigits(s) && s != []
    ensures Value(s) == DigitOf(s[0]) * Pow10(|s| - 1) + Value(s[1..])
  {
    if |s| > 1 {
      var init := s[..|s| - 1];
      ValueHead(init);
      assert s[1..][..|s| - 2] == init[1..];
    } else {
      assert s[..0] == [] && s[1..] == [];
    }
  }

  lemma {:induction false} ZerosValue(n: nat, s: string)
    requires AllDigits(s)
    ensures AllDigits(Zeros(n) + s) && Value(Zeros(n) + s) == Value(s)
  {
    if n > 0 {
      var t := Zeros(n) + s;
      ValueHead(t);
      assert t[1..] == Zeros(n - 1) + s;
      ZerosValue(n - 1, s);
    } else {
      assert Zeros(0) + s == s;
    }
  }

  /** Numerals that fit in `k` digits print in at most `k`. */
  lemma {:induction false} PrintLength(n: nat, k: nat)
    requires k > 0 && n < Pow10(k)
    ensures |Print(n)| <= k
  {
    if n >= 10 {
      PrintLength(n / 10, k - 1);
    }
  }

  /** A padded number has exactly the width, when it fits, and keeps its value. */
  lemma PaddedValue(n: nat, width: nat)
    requires width > 0 && n < Pow10(width)
    ensures |Padded(n, width)| == width && Value(Padded(n, width)) == n
  {
    PrintValue(n);
    PrintLength(n, width);
    ZerosValue(width - |Print(n)|, Print(n));
  }

  // ---------- Order ----------

  /** Equally long numerals are ordered as strings like their values. */
  lemma {:induction false} EqualLengthOrder(a: string, b: string)
    requires AllDigits(a) && AllDigits(b) && |a| == |b|
    ensures LexLess(a, b) <==> Value(a) < Value(b)
    ensures a == b <==> Value(a) == Value(b)
  {
    if a != [] {
      EqualLengthOrder(a[1..], b[1..]);
      ValueHead(a);
      ValueHead(b);
      ValueBound(a[1..]);
      ValueBound(b[1..]);
      HeadDecides(DigitOf(a[0]), DigitOf(b[0]), Pow10(|a| - 1), Value(a[1..]), Value(b[1..]));
      HeadDecides(DigitOf(b[0]), DigitOf(a[0]), Pow10(|a| - 1), Value(b[1..]), Value(a[1..]));
      assert a == [a[0]] + a[1..] && b == [b[0]] + b[1..];
    }
  }

  lemma HeadDecides(x: nat, y: nat, p: nat, u: nat, v: nat)
    requires u < p
    ensures x < y ==> x * p + u < y * p + v
  {
    if x < y {
      assert (x + 1) * p <= y * p;
    }
  }
}
