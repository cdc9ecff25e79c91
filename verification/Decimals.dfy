/** Printing and parsing of integers in base 10. */
module Decimals {
  import opened Options

  const MAX_INT64 := 0x7fff_ffff_ffff_ffff

  function Digit(d: nat): char
    requires d < 10
  {
    '0' + d as char
  }

  function Digits(n: nat): (s: string)
    ensures s != ""
  {
    if n < 10 then [Digit(n)] else Digits(n / 10) + [Digit(n % 10)]
  }

  /** The %d format. */
  function Decimal(n: int): string { if n < 0 then "-" + Digits(-n) else Digits(n) }

  predicate AllDigits(s: string) { forall i :: 0 <= i < |s| ==> '0' <= s[i] <= '9' }

  function Value(s: string): nat
    requires AllDigits(s)
  {
    if s == "" then 0 else 10 * Value(s[..|s| - 1]) + (s[|s| - 1] as int - '0' as int)
  }

  /** A 64-bit integer in base 10: an optional sign, digits, and the range. */
  function ParseInt(s: string): Option<int> {
    if s == "" then None
    else
      var negative := s[0] == '-';
      var body := if s[0] == '-' || s[0] == '+' then s[1..] else s;
      if body == "" || !AllDigits(body) then None
      else
        var n: int := Value(body);
        if negative then (if n <= MAX_INT64 + 1 then Some(-n) else None)
        else (if n <= MAX_INT64 then Some(n) else None)
  }

  lemma {:induction false} DigitsRoundTrip(n: nat)
    ensures AllDigits(Digits(n)) && Value(Digits(n)) == n
  {
    if n >= 10 {
      DigitsRoundTrip(n / 10);
      var s := Digits(n);
      assert s[..|s| - 1] == Digits(n / 10) && s[|s| - 1] == Digit(n % 10);
    } else {
      assert Value("") == 0;
      assert [Digit(n)][..0] == "";
    }
  }

  lemma ParseDigits(s: string)
    requires s != "" && AllDigits(s)
    ensures ParseInt(s) == if Value(s) <= MAX_INT64 then Some(Value(s)) else None
    ensures ParseInt("-" + s) == if Value(s) <= MAX_INT64 + 1 then Some(-(Value(s) as int)) else None
  {
  }

  /** Printing and parsing is the identity on 64-bit integers, and fails beyond them. */
  lemma DecimalRoundTrip(n: int)
    ensures ParseInt(Decimal(n)) == if -MAX_INT64 - 1 <= n <= MAX_INT64 then Some(n) else None
  {
    var m: nat := if n < 0 then -n else n;
    DigitsRoundTrip(m);
    ParseDigits(Digits(m));
  }
}
