/**
 * The parts of Go's `strconv` and integer arithmetic that the model needs:
 * `strconv.Itoa`, `strconv.Atoi` (64-bit `int`), and the truncating `/` and `%`
 * of Go, which differ from Dafny's Euclidean operators on negative operands.
 */
module Strconv {
  import opened Results

  const MinInt64: int := -0x8000_0000_0000_0000
  const MaxInt64: int := 0x7FFF_FFFF_FFFF_FFFF

  /** Go's `a / b`: the quotient truncated toward zero. */
  function Quot(a: int, b: int): (q: int)
    requires b != 0
    ensures a >= 0 && b > 0 ==> q == a / b
    ensures a < 0 && b > 0 ==> q == -((-a) / b)
  {
    if a >= 0 then (if b > 0 then a / b else -(a / (-b)))
    else (if b > 0 then -((-a) / b) else (-a) / (-b))
  }

  /** Go's `a % b`: takes the sign of the dividend, so `a == Quot(a, b) * b + Rem(a, b)`. */
  function Rem(a: int, b: int): (r: int)
    requires b != 0
    ensures a == Quot(a, b) * b + r
    ensures a >= 0 && b > 0 ==> r == a % b && 0 <= r < b
    ensures a < 0 && b > 0 ==> -b < r <= 0
  {
    a - Quot(a, b) * b
  }

  predicate IsDigit(c: char) { '0' <= c <= '9' }

  function DigitChar(d: nat): (c: char)
    requires d < 10
    ensures IsDigit(c) && (c as int) - ('0' as int) == d
  {
    ((('0' as int) + d) as char)
  }

  function DigitValue(c: char): (d: nat)
    requires IsDigit(c)
    ensures d < 10
  {
    (c as int) - ('0' as int)
  }

  predicate AllDigits(s: string) { forall i :: 0 <= i < |s| ==> IsDigit(s[i]) }

  /** Decimal digits of `n`, most significant first, without leading zeros. */
  function NatToString(n: nat): (s: string)
    decreases n
  {
    if n < 10 then [DigitChar(n)] else NatToString(n / 10) + [DigitChar(n % 10)]
  }

  /** Go's `strconv.Itoa`: a minus sign for negative numbers, then the digits. */
  function Itoa(n: int): string {
    if n < 0 then "-" + NatToString(-n) else NatToString(n)
  }

  /** The number a non-empty run of decimal digits denotes. */
  function DigitsValue(s: string): nat
    requires AllDigits(s)
    decreases |s|
  {
    if s == [] then 0 else DigitsValue(s[..|s| - 1]) * 10 + DigitValue(s[|s| - 1])
  }

  /**
   * Go's `strconv.Atoi`: an optional sign followed by at least one decimal digit,
   * and the value must fit a 64-bit `int`; anything else is an error.
   */
  function Atoi(s: string): Option<int> {
    var neg := |s| > 0 && s[0] == '-';
    var digits := if |s| > 0 && (s[0] == '-' || s[0] == '+') then s[1..] else s;
    if digits == [] || !AllDigits(digits) then None
    else
      var mag: int := DigitsValue(digits);
      var v := if neg then -mag else mag;
      if MinInt64 <= v <= MaxInt64 then Some(v) else None
  }

  lemma {:induction false} NatToStringDigits(n: nat)
    ensures |NatToString(n)| > 0
    ensures AllDigits(NatToString(n))
    ensures DigitsValue(NatToString(n)) == n
    decreases n
  {
    if n >= 10 {
      NatToStringDigits(n / 10);
      var s := NatToString(n);
      assert s[..|s| - 1] == NatToString(n / 10);
    }
  }

  /** `Atoi` undoes `Itoa` on every 64-bit integer. */
  lemma ItoaRoundTrip(n: int)
    requires MinInt64 <= n <= MaxInt64
    ensures Atoi(Itoa(n)) == Some(n)
  {
    if n < 0 {
      NatToStringDigits(-n);
      assert ("-" + NatToString(-n))[1..] == NatToString(-n);
    } else {
      NatToStringDigits(n);
    }
  }

  /** `Itoa` never produces a letter: its output is a sign and digits. */
  lemma ItoaChars(n: int)
    ensures forall i :: 0 <= i < |Itoa(n)| ==> Itoa(n)[i] == '-' || IsDigit(Itoa(n)[i])
  {
    if n < 0 { NatToStringDigits(-n); } else { NatToStringDigits(n); }
  }

  lemma DivUnique(a: int, n: int, q: int, r: int)
    requires n > 0 && 0 <= r < n && a == q * n + r
    ensures a / n == q
  {
    var q' := a / n;
    var r' := a % n;
    var k := q - q';
    assert q * n - q' * n == r' - r;
    assert k * n == q * n - q' * n;
    if k >= 1 {
      MulAtLeast(k, n);
    } else if k <= -1 {
      MulAtLeast(-k, n);
    }
  }

  lemma MulAtLeast(k: int, n: int)
    requires k >= 1 && n > 0
    ensures k * n >= n
  {
    assert k * n == n + (k - 1) * n;
  }
}
