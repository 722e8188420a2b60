/** Decimal numbers as strconv reads and prints them (base 10, no sign). */
module Decimal {
  import opened Basics

  predicate IsDigit(c: char) { '0' <= c <= '9' }

  function DigitValue(c: char): nat
    requires IsDigit(c)
  {
    (c - '0') as nat
  }

  function DigitChar(d: nat): (c: char)
    requires d < 10
    ensures IsDigit(c) && DigitValue(c) == d
  {
    '0' + d as char
  }

  predicate AllDigits(s: string) { forall i :: 0 <= i < |s| ==> IsDigit(s[i]) }

  function Value(s: string): nat
    requires AllDigits(s)
  {
    if s == [] then 0 else 10 * Value(s[..|s| - 1]) + DigitValue(s[|s| - 1])
  }

  /** strconv.ParseUint(s, 10, bits), with limit the first number that does not fit. */
  function ParseUint(s: string, limit: nat): Option<nat> {
    if s == [] || !AllDigits(s) || Value(s) >= limit then None else Some(Value(s))
  }

  /** strconv.FormatUint(n, 10). */
  function FormatUint(n: nat): (s: string)
    ensures s != [] && AllDigits(s)
  {
    if n < 10 then [DigitChar(n)] else FormatUint(n / 10) + [DigitChar(n % 10)]
  }

  /** No sign, no leading zero. */
  predicate Canonical(s: string) { s != [] && AllDigits(s) && (|s| > 1 ==> s[0] != '0') }

  lemma {:induction false} ValueOfFormat(n: nat)
    ensures Value(FormatUint(n)) == n
    ensures Canonical(FormatUint(n)) && (n > 0 ==> FormatUint(n)[0] != '0')
  {
    if n >= 10 {
      ValueOfFormat(n / 10);
      var s := FormatUint(n);
      assert s[..|s| - 1] == FormatUint(n / 10) && s[|s| - 1] == DigitChar(n % 10);
    } else {
      var s := FormatUint(n);
      assert s[..|s| - 1] == [];
      assert Value([]) == 0;
    }
  }

  lemma {:induction false} FormatOfValue(s: string)
    requires Canonical(s)
    ensures FormatUint(Value(s)) == s && (s[0] != '0' ==> Value(s) > 0)
  {
    var init, last := s[..|s| - 1], s[|s| - 1];
    assert s == init + [last] && DigitChar(DigitValue(last)) == last;
    if |s| == 1 {
      assert Value(init) == 0;
    } else {
      assert s[0] == init[0];
      FormatOfValue(init);
      Append(Value(init), DigitValue(last));
    }
  }

  lemma Append(n: nat, d: nat)
    requires n > 0 && d < 10
    ensures FormatUint(10 * n + d) == FormatUint(n) + [DigitChar(d)]
  {
  }

  /** Printing gives the text back exactly when it is canonical. */
  lemma PrintsBack(s: string)
    requires s != [] && AllDigits(s)
    ensures FormatUint(Value(s)) == s <==> Canonical(s)
  {
    ValueOfFormat(Value(s));
    if Canonical(s) { FormatOfValue(s); }
  }

  function Pow10(k: nat): nat { if k == 0 then 1 else 10 * Pow10(k - 1) }

  lemma {:induction false} FormatLength(n: nat, k: nat)
    requires k > 0 && n < Pow10(k)
    ensures |FormatUint(n)| <= k
  {
    if n >= 10 {
      assert k > 1 by { assert Pow10(1) == 10; }
      FormatLength(n / 10, k - 1);
    }
  }

  /** A 64-bit number has at most 20 digits. */
  lemma SixtyFourBits(n: nat)
    requires n < 0x1_0000_0000_0000_0000
    ensures |FormatUint(n)| <= 20
  {
    assert Pow10(20) == 100_000_000_000_000_000_000 by {
      assert Pow10(5) == 100_000;
      assert Pow10(10) == 10_000_000_000;
      assert Pow10(15) == 1_000_000_000_000_000;
    }
    FormatLength(n, 20);
  }

  lemma ParseOfFormat(n: nat, limit: nat)
    requires n < limit
    ensures ParseUint(FormatUint(n), limit) == Some(n)
  {
    ValueOfFormat(n);
  }
}
