/** The decimal conversions of Go's `strconv` and the 64-bit `int`
    arithmetic the VM rules rely on: `int` is 64 bits wide, products wrap
    around and `/` truncates toward zero. */
module Strconv {
  import opened Outcomes
  import opened Strings

  const MinInt64: int := -0x8000_0000_0000_0000
  const MaxInt64: int := 0x7FFF_FFFF_FFFF_FFFF
  const TwoTo64: int := 0x1_0000_0000_0000_0000

  /** A mathematical integer reduced to Go's 64-bit two's complement `int`. */
  function Wrap64(x: int): (r: int)
    ensures MinInt64 <= r <= MaxInt64
    ensures (r - x) % TwoTo64 == 0
    ensures MinInt64 <= x <= MaxInt64 ==> r == x
  {
    (x - MinInt64) % TwoTo64 + MinInt64
  }

  /** Go's integer `/` for a positive divisor: the quotient is truncated
      toward zero, so the remainder takes the sign of the dividend. */
  function GoQuo(a: int, b: int): (q: int)
    requires b > 0
    ensures 0 <= a ==> q * b <= a < q * b + b
    ensures a < 0 ==> q * b - b < a <= q * b
  {
    if a >= 0 then a / b else -((-a) / b)
  }

  predicate IsDigit(c: char)
  {
    '0' <= c <= '9'
  }

  predicate AllDigits(s: string)
  {
    forall i :: 0 <= i < |s| ==> IsDigit(s[i])
  }

  function DigitChar(d: nat): (c: char)
    requires d < 10
    ensures IsDigit(c)
  {
    ('0' as int + d) as char
  }

  /** The value of a run of decimal digits, most significant first. */
  function DigitsValue(s: string): nat
    requires AllDigits(s)
  {
    if s == [] then 0 else DigitsValue(s[..|s| - 1]) * 10 + (s[|s| - 1] as int - '0' as int)
  }

  /** The decimal digits of `n`, without leading zeros. */
  function Decimal(n: nat): (s: string)
    ensures s != [] && AllDigits(s)
  {
    if n < 10 then [DigitChar(n)] else Decimal(n / 10) + [DigitChar(n % 10)]
  }

  /** Reading the digits back gives the number. */
  lemma {:induction false} DecimalValue(n: nat)
    ensures DigitsValue(Decimal(n)) == n
  {
    if n >= 10 {
      var s := Decimal(n);
      assert s[..|s| - 1] == Decimal(n / 10);
      DecimalValue(n / 10);
    }
  }

  /** `strconv.Itoa`. */
  function Itoa(n: int): (s: string)
    ensures s != [] && (s[0] == '-' || IsDigit(s[0]))
    ensures forall i :: 1 <= i < |s| ==> IsDigit(s[i])
  {
    if n < 0 then "-" + Decimal(-n) else Decimal(n)
  }

  /** The text after an optional leading sign. */
  function Unsigned(s: string): (u: string)
    ensures |u| <= |s|
  {
    if s != [] && (s[0] == '-' || s[0] == '+') then s[1..] else s
  }

  /** `strconv.Atoi`: an optional `+` or `-` and at least one decimal digit
      whose value fits in 64 bits; anything else is an error. */
  function Atoi(s: string): (r: Option<int>)
    ensures r.Some? ==> MinInt64 <= r.value <= MaxInt64
    ensures r.Some? ==> Unsigned(s) != [] && AllDigits(Unsigned(s))
  {
    var u := Unsigned(s);
    if u == [] || !AllDigits(u) then None
    else
      var v: int := if s[0] == '-' then -(DigitsValue(u) as int) else DigitsValue(u);
      if MinInt64 <= v <= MaxInt64 then Some(v) else None
  }

  /** `Atoi` reads back every 64-bit integer `Itoa` writes. */
  lemma AtoiItoa(n: int)
    requires MinInt64 <= n <= MaxInt64
    ensures Atoi(Itoa(n)) == Some(n)
  {
    var s := Itoa(n);
    if n < 0 {
      assert s[0] == '-' && Unsigned(s) == Decimal(-n);
      DecimalValue(-n);
    } else {
      assert s[0] != '-' && s[0] != '+' && Unsigned(s) == Decimal(n);
      DecimalValue(n);
    }
  }

  /** Neither case mapping nor trimming touches the text `Itoa` writes. */
  lemma ItoaIsPlain(n: int)
    ensures Upper(Itoa(n)) == Itoa(n)
    ensures forall i :: 0 <= i < |Itoa(n)| ==> !IsSpace(Itoa(n)[i])
  {
    var s := Itoa(n);
    assert forall i :: 0 <= i < |s| ==> UpperChar(s[i]) == s[i];
  }
}
