/** Decimal numerals of natural numbers. */
module Decimal {
  import opened Wrappers

  predicate IsDigit(c: char) {
    '0' <= c <= '9'
  }

  ghost predicate AllDigits(s: string) {
    forall i :: 0 <= i < |s| ==> IsDigit(s[i])
  }

  function DigitChar(d: int): (c: char)
    requires 0 <= d < 10
    ensures IsDigit(c) && c as int - '0' as int == d
  {
    ('0' as int + d) as char
  }

  function Print(n: nat): (s: string)
    ensures s != "" && AllDigits(s)
  {
    if n < 10 then [DigitChar(n)] else Print(n / 10) + [DigitChar(n % 10)]
  }

  function Value(s: string): (n: int)
    ensures AllDigits(s) ==> n >= 0
  {
    if s == "" then 0 else 10 * Value(s[..|s| - 1]) + (s[|s| - 1] as int - '0' as int)
  }

  predicate IsNumeral(s: string) {
    s != "" && forall i :: 0 <= i < |s| ==> IsDigit(s[i])
  }

  function Parse(s: string): (n: Option<nat>) {
    if IsNumeral(s) then Some(Value(s)) else None
  }

  lemma {:induction false} ValuePrint(n: nat)
    ensures Value(Print(n)) == n
  {
    if n >= 10 {
      ValuePrint(n / 10);
      assert Print(n)[..|Print(n)| - 1] == Print(n / 10);
    } else {
      assert Print(n)[..0] == "";
    }
  }

  /** A numeral without a leading zero is the printed form of its value. */
  lemma {:induction false} PrintValue(s: string)
    requires IsNumeral(s) && (s == "0" || s[0] != '0')
    ensures Value(s) >= 0 && Print(Value(s)) == s
    ensures s != "0" ==> Value(s) > 0
  {
    var init, last := s[..|s| - 1], s[|s| - 1];
    assert s == init + [last];
    if |s| == 1 {
      assert Value(init) == 0;
    } else {
      PrintValue(init);
    }
  }

  lemma ParsePrint(n: nat)
    ensures Parse(Print(n)) == Some(n)
  {
    ValuePrint(n);
  }

  lemma {:induction false} PrintShape(n: nat)
    ensures n < 100 ==> |Print(n)| <= 2
    ensures n < 1000 ==> |Print(n)| <= 3
    ensures Print(n)[0] == '0' <==> n == 0
  {
    if n >= 10 {
      PrintShape(n / 10);
    }
  }
}
