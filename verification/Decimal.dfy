/** Decimal numerals. */
module Decimal {
  predicate IsDigit(c: char) { '0' <= c <= '9' }

  predicate AllDigits(s: string) { forall i :: 0 <= i < |s| ==> IsDigit(s[i]) }

  /** The number spelt by the leading digits of s, after the digits already read. */
  function DigitsValue(s: string, read: nat): nat {
    if |s| == 0 || !IsDigit(s[0]) then read
    else DigitsValue(s[1..], 10 * read + (s[0] as int - '0' as int))
  }

  function Digit(d: nat): (c: char)
    requires d < 10
    ensures IsDigit(c) && c as int - '0' as int == d
  {
    ('0' as int + d) as char
  }

  function Dec(n: nat): (s: string)
    ensures |s| > 0 && AllDigits(s)
  {
    if n < 10 then [Digit(n)] else Dec(n / 10) + [Digit(n % 10)]
  }

  lemma {:induction false} ValueOfAppended(s: string, c: char, read: nat)
    requires AllDigits(s) && IsDigit(c)
    ensures DigitsValue(s + [c], read) == 10 * DigitsValue(s, read) + (c as int - '0' as int)
  {
    if |s| == 0 {
      assert s + [c] == [c];
      assert [c][1..] == "";
      assert DigitsValue([c], read) == DigitsValue([c][1..], 10 * read + (c as int - '0' as int));
    } else {
      assert (s + [c])[1..] == s[1..] + [c];
      ValueOfAppended(s[1..], c, 10 * read + (s[0] as int - '0' as int));
    }
  }

  /** Reading a numeral gives back the number. */
  lemma {:induction false} ValueOfDec(n: nat)
    ensures DigitsValue(Dec(n), 0) == n
  {
    if n < 10 {
      var c := Digit(n);
      assert [c][1..] == "";
      assert DigitsValue([c], 0) == DigitsValue([c][1..], n);
    } else {
      ValueOfDec(n / 10);
      ValueOfAppended(Dec(n / 10), Digit(n % 10), 0);
    }
  }

  lemma DecInjective(m: nat, n: nat)
    requires Dec(m) == Dec(n)
    ensures m == n
  {
    ValueOfDec(m);
    ValueOfDec(n);
  }
}
