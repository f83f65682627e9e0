/** Base-ten text of integers: the `%d` verb of the chain payload. */
module BaseTen {
  import opened Records

  const MIN_INT64: int := -0x8000_0000_0000_0000
  const MAX_INT64: int := 0x7FFF_FFFF_FFFF_FFFF

  predicate IsInt64(n: int) {
    MIN_INT64 <= n <= MAX_INT64
  }

  function Digit(d: int): char
    requires 0 <= d < 10
  {
    (48 + d) as char
  }

  predicate IsDigit(c: char) {
    '0' <= c <= '9'
  }

  function DigitValue(c: char): nat
    requires IsDigit(c)
  {
    c as int - 48
  }

  /** The digits of a natural number, most significant first. */
  function Natural(n: nat): (s: string)
    ensures |s| > 0
    ensures forall i :: 0 <= i < |s| ==> IsDigit(s[i])
  {
    if n < 10 then [Digit(n)] else Natural(n / 10) + [Digit(n % 10)]
  }

  function Decimal(n: int): (s: string)
    ensures '|' !in s
  {
    if n < 0 then "-" + Natural(-n) else Natural(n)
  }

  function ParseNatural(s: string): nat
    requires forall i :: 0 <= i < |s| ==> IsDigit(s[i])
  {
    if s == [] then 0
    else 10 * ParseNatural(s[..|s| - 1]) + DigitValue(s[|s| - 1])
  }

  /** Reads back a signed decimal; a bare sign or any other text is no number. */
  function Parse(s: string): Option<int> {
    if |s| > 1 && s[0] == '-' && forall i :: 0 <= i < |s[1..]| ==> IsDigit(s[1..][i]) then
      var n: int := ParseNatural(s[1..]);
      Some(-n)
    else if |s| > 0 && forall i :: 0 <= i < |s| ==> IsDigit(s[i]) then
      Some(ParseNatural(s))
    else
      None
  }

  /** The digit characters in order. */
  lemma DigitText(d: int)
    requires 0 <= d < 10
    ensures Digit(d) == "0123456789"[d] && DigitValue("0123456789"[d]) == d
  {
  }

  lemma {:induction false} NaturalRoundTrip(n: nat)
    ensures ParseNatural(Natural(n)) == n
  {
    if n >= 10 {
      NaturalRoundTrip(n / 10);
      assert Natural(n)[..|Natural(n)| - 1] == Natural(n / 10);
    } else {
      assert ParseNatural([]) == 0;
      assert Natural(n)[..0] == [];
    }
  }

  lemma DecimalRoundTrip(n: int)
    ensures Parse(Decimal(n)) == Some(n)
  {
    if n < 0 {
      assert Decimal(n)[1..] == Natural(-n);
      NaturalRoundTrip(-n);
    } else {
      NaturalRoundTrip(n);
      assert IsDigit(Decimal(n)[0]);
    }
  }

  lemma DecimalInjective(m: int, n: int)
    requires Decimal(m) == Decimal(n)
    ensures m == n
  {
    DecimalRoundTrip(m);
    DecimalRoundTrip(n);
  }
}
