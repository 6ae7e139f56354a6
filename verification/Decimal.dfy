/** Decimal numerals: strconv.Itoa, and strconv.ParseInt with base 10 for a given width. */
module Decimal {
  import opened Prelude

  /** ParseInt accepts n of b bits when -limit <= n < limit, with limit = 2^(b-1). */
  const LIMIT_32 := 0x8000_0000
  const LIMIT_64 := 0x8000_0000_0000_0000

  function Digit(d: nat): char
    requires d < 10
  {
    "0123456789"[d]
  }

  function DigitValue(c: char): Option<nat> {
    if '0' <= c <= '9' then Some(c as int - '0' as int) else None
  }

  function Digits(n: nat): (s: string)
    ensures s != "" && forall i :: 0 <= i < |s| ==> '0' <= s[i] <= '9'
  {
    if n < 10 then [Digit(n)] else Digits(n / 10) + [Digit(n % 10)]
  }

  function Itoa(n: int): string {
    if n < 0 then "-" + Digits(-n) else Digits(n)
  }

  function ParseDigits(s: string): Option<nat> {
    if s == "" then None
    else
      var last := DigitValue(s[|s| - 1]);
      if |s| == 1 || last.None? then last
      else
        var front := ParseDigits(s[..|s| - 1]);
        if front.None? then None else Some(10 * front.value + last.value)
  }

  function ParseInt(s: string, limit: nat): Option<int> {
    if s == "" then None
    else
      var negative := s[0] == '-';
      var magnitude := ParseDigits(if negative || s[0] == '+' then s[1..] else s);
      if magnitude.None? then None
      else if negative then (if magnitude.value > limit then None else Some(-(magnitude.value as int)))
      else (if magnitude.value >= limit then None else Some(magnitude.value))
  }

  lemma {:induction false} DigitsRoundTrip(n: nat)
    ensures ParseDigits(Digits(n)) == Some(n)
  {
    if n >= 10 {
      DigitsRoundTrip(n / 10);
      assert Digits(n)[..|Digits(n)| - 1] == Digits(n / 10);
    }
  }

  /** A numeral is a non-empty text of digits. */
  lemma {:induction false} NumeralsExactly(s: string)
    ensures ParseDigits(s).Some? <==> s != "" && forall i :: 0 <= i < |s| ==> '0' <= s[i] <= '9'
  {
    if |s| > 1 {
      NumeralsExactly(s[..|s| - 1]);
    }
  }

  /** Leading zeros do not count. */
  lemma {:induction false} LeadingZero(s: string)
    requires s != ""
    ensures ParseDigits("0" + s) == ParseDigits(s)
  {
    var n := |s| - 1;
    assert ("0" + s)[..n + 1] == "0" + s[..n];
    if n > 0 {
      LeadingZero(s[..n]);
    } else {
      assert ParseDigits("0") == Some(0);
      assert "0" + s[..0] == "0";
    }
  }

  /** A numeral without a sign is below the bound of the width. */
  lemma NoSignExactly(s: string, limit: nat)
    requires s == "" || (s[0] != '+' && s[0] != '-')
    ensures ParseInt(s, limit) ==
      if ParseDigits(s).Some? && ParseDigits(s).value < limit then Some(ParseDigits(s).value as int) else None
  {
  }

  lemma PlusExactly(s: string, limit: nat)
    ensures ParseInt("+" + s, limit) ==
      if ParseDigits(s).Some? && ParseDigits(s).value < limit then Some(ParseDigits(s).value as int) else None
  {
    assert ("+" + s)[1..] == s;
  }

  /** With a minus sign the bound itself is within the width. */
  lemma MinusExactly(s: string, limit: nat)
    ensures ParseInt("-" + s, limit) ==
      if ParseDigits(s).Some? && ParseDigits(s).value <= limit then Some(-(ParseDigits(s).value as int)) else None
  {
    assert ("-" + s)[1..] == s;
  }

  lemma SignedDigits(s: string, n: nat, limit: nat)
    requires s != "" && '0' <= s[0] <= '9' && ParseDigits(s) == Some(n)
    ensures n < limit ==> ParseInt(s, limit) == Some(n)
    ensures n <= limit ==> ParseInt("-" + s, limit) == Some(-(n as int))
  {
    assert ("-" + s)[1..] == s;
  }

  lemma {:induction false} ItoaRoundTrip(n: int, limit: nat)
    requires -(limit as int) <= n < limit
    ensures Itoa(n) != "" && ParseInt(Itoa(n), limit) == Some(n)
  {
    var magnitude := if n < 0 then -n else n;
    DigitsRoundTrip(magnitude);
    SignedDigits(Digits(magnitude), magnitude, limit);
  }

  lemma ItoaInjective(m: int, n: int)
    requires Itoa(m) == Itoa(n)
    ensures m == n
  {
    var limit := (if m < 0 then -m else m) + (if n < 0 then -n else n) + 1;
    ItoaRoundTrip(m, limit);
    ItoaRoundTrip(n, limit);
  }
}
