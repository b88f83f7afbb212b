/**
 * Decimal text: strconv.Atoi, strconv.Itoa and the zero-padded `%0Nd`
 * verb of fmt, over ASCII digits.
 */
module Strconv {
  import opened Wrappers
  import opened GoTypes

  predicate IsDigit(c: char) { '0' <= c <= '9' }

  predicate AllDigits(s: string) {
    forall k | 0 <= k < |s| :: IsDigit(s[k])
  }

  function Digit(d: nat): char
    requires d < 10
  {
    ('0' as int + d) as char
  }

  /** The number a string of decimal digits denotes, most significant first. */
  function Value(s: string): nat
    requires AllDigits(s)
  {
    if s == [] then 0 else Value(s[..|s| - 1]) * 10 + (s[|s| - 1] as int - '0' as int)
  }

  function Pow10(n: nat): (p: nat)
    ensures p >= 1
  {
    if n == 0 then 1 else 10 * Pow10(n - 1)
  }

  /** fmt's `%0*d` of a value below 10^width: exactly width digits, zero-padded. */
  function ZeroPadded(n: nat, width: nat): (r: string)
    requires n < Pow10(width)
    ensures |r| == width
    ensures AllDigits(r)
    ensures Value(r) == n
  {
    if width == 0 then "" else
      var r := ZeroPadded(n / 10, width - 1) + [Digit(n % 10)];
      assert r[..|r| - 1] == ZeroPadded(n / 10, width - 1);
      r
  }

  /** The shortest decimal text of n (no leading zero unless n is 0). */
  function Decimal(n: nat): (r: string)
    ensures |r| >= 1
    ensures AllDigits(r)
    ensures |r| > 1 ==> r[0] != '0'
    ensures Value(r) == n
  {
    if n < 10 then [Digit(n)] else
      var r := Decimal(n / 10) + [Digit(n % 10)];
      assert r[..|r| - 1] == Decimal(n / 10);
      r
  }

  /** strconv.Itoa. */
  function FormatInt(n: int): string {
    if n < 0 then "-" + Decimal(-n) else Decimal(n)
  }

  /**
   * strconv.Atoi: an optional sign and one or more decimal digits whose value
   * fits in 64 bits; anything else is a syntax or range error (None).
   */
  function Atoi(s: string): (r: Option<int64>)
    ensures r.Some? ==> s != [] && AllDigits(s[1..]) && (IsDigit(s[0]) || (|s| > 1 && (s[0] == '-' || s[0] == '+')))
  {
    if s == [] then None else
      var digits := if s[0] == '-' || s[0] == '+' then s[1..] else s;
      if digits == [] || !AllDigits(digits) then None else
        var magnitude: int := Value(digits);
        var v := if s[0] == '-' then -magnitude else magnitude;
        if MinInt64 <= v <= MaxInt64 then Some(v) else None
  }

  /** Atoi reads back every 64-bit value that Itoa writes. */
  lemma AtoiFormatInt(n: int64)
    ensures Atoi(FormatInt(n)) == Some(n)
  {
    var s, m: int := FormatInt(n), n;
    if m < 0 {
      assert s[1..] == Decimal(-m);
    } else {
      assert IsDigit(s[0]);
    }
  }

  /** A character other than a digit after the first position is a syntax error. */
  lemma AtoiRejectsNonDigit(s: string, k: nat)
    requires 0 < k < |s| && !IsDigit(s[k])
    ensures Atoi(s) == None
  {
  }

  /** The leading character must be a digit or a sign followed by digits. */
  lemma AtoiRejectsBadLead(s: string)
    requires s != [] && !IsDigit(s[0]) && s[0] != '-' && s[0] != '+'
    ensures Atoi(s) == None
  {
  }
}
