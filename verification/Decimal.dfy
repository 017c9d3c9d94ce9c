/** Integers rendered in decimal, as `%d` does. */
module Decimal {

  const DIGITS: string := "0123456789"

  predicate IsDigit(c: char) {
    '0' <= c <= '9'
  }

  predicate AllDigits(s: string) {
    forall i :: 0 <= i < |s| ==> IsDigit(s[i])
  }

  function Digit(d: nat): (c: char)
    requires d < 10
    ensures IsDigit(c) && c as int - '0' as int == d
  {
    DIGITS[d]
  }

  function Render(n: nat): (s: string)
    ensures s != "" && AllDigits(s)
  {
    if n < 10 then [Digit(n)] else Render(n / 10) + [Digit(n % 10)]
  }

  function RenderInt(n: int): string {
    if n < 0 then "-" + Render(-n) else Render(n)
  }

  /** Reads a string of digits. */
  function Value(s: string): nat
    requires AllDigits(s)
  {
    if s == "" then 0
    else 10 * Value(s[..|s| - 1]) + (s[|s| - 1] as int - '0' as int)
  }

  lemma {:induction false} ValueRender(n: nat)
    ensures Value(Render(n)) == n
  {
    if n < 10 {
      assert [Digit(n)][..0] == "";
    } else {
      ValueRender(n / 10);
      var s := Render(n / 10);
      assert (s + [Digit(n % 10)])[..|s|] == s;
    }
  }

  function IntValue(s: string): int
    requires AllDigits(s) || (s != "" && s[0] == '-' && AllDigits(s[1..]))
  {
    if AllDigits(s) then Value(s) else 0 - Value(s[1..])
  }

  lemma {:induction false} IntValueRender(n: int)
    ensures
      var s := RenderInt(n);
      && (AllDigits(s) || (s[0] == '-' && AllDigits(s[1..])))
      && IntValue(s) == n
  {
    if n < 0 {
      ValueRender(-n);
      var s := RenderInt(n);
      assert s[1..] == Render(-n);
      assert !IsDigit(s[0]);
    } else {
      ValueRender(n);
    }
  }

  /** Different integers never render alike. */
  lemma RenderInjective(a: int, b: int)
    requires RenderInt(a) == RenderInt(b)
    ensures a == b
  {
    IntValueRender(a);
    IntValueRender(b);
  }
}
