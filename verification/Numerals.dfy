/** The values of numerals, and chains of negations (src/parsing/parser.cpp:420-443, 539-551). */
module Numerals {
  import opened Tokens
  import opened Decimal
  import opened Ast
  import opened Grammar
  import opened Printing
  import opened Derivations
  import opened RoundTrip

  // ---------- Integers ----------

  /** A numeral is read as its value or, if that is out of range, as the largest 64-bit integer. */
  lemma IntegerValue(n: nat)
    ensures StrToInt64(Dec(n)) <= n && (n <= INT64_MAX ==> StrToInt64(Dec(n)) == n)
    ensures n > INT64_MAX ==> StrToInt64(Dec(n)) == 0x7FFF_FFFF_FFFF_FFFF
  {
    hide Dec, DigitsValue;
    ValueOfDec(n);
  }

  // ---------- Floats ----------

  function Ten(n: nat): (t: nat)
    ensures t > 0
  {
    if n == 0 then 1 else 10 * Ten(n - 1)
  }

  /** v is a written in front of b, which has as many digits as t has zeros. */
  predicate Joined(v: int, a: int, t: nat, b: int) { v == a * t + b }

  lemma {:induction false} DigitsBehind(s: string, read: nat)
    requires AllDigits(s)
    ensures Joined(DigitsValue(s, read), read, Ten(|s|), DigitsValue(s, 0))
    decreases |s|
  {
    hide Joined;
    if |s| == 0 {
      JoinedNothing(read);
    } else {
      var d := s[0] as int - '0' as int;
      DigitsBehind(s[1..], 10 * read + d);
      DigitsBehind(s[1..], d);
      JoinedStep(read, d, Ten(|s| - 1), DigitsValue(s[1..], 0), DigitsValue(s, 0), DigitsValue(s, read));
    }
  }

  lemma JoinedNothing(a: nat)
    ensures Joined(a, a, 1, 0)
  {
  }

  lemma JoinedStep(read: nat, d: nat, t: nat, rest: nat, v: nat, w: nat)
    requires Joined(w, 10 * read + d, t, rest) && Joined(v, d, t, rest)
    ensures Joined(w, read, 10 * t, v)
  {
    assert (10 * read + d) * t == read * (10 * t) + d * t;
  }

  lemma DigitsJoined(a: string, b: string)
    requires AllDigits(a) && AllDigits(b)
    ensures Joined(DigitsValue(a + b, 0), DigitsValue(a, 0), Ten(|b|), DigitsValue(b, 0))
  {
    hide Joined, DigitsValue, Ten;
    DigitsThrough(a, b, 0);
    DigitsBehind(b, DigitsValue(a, 0));
  }

  lemma {:induction false} DigitsThrough(a: string, b: string, read: nat)
    requires AllDigits(a)
    ensures DigitsValue(a + b, read) == DigitsValue(b, DigitsValue(a, read))
    decreases |a|
  {
    if |a| == 0 {
      assert a + b == b;
    } else {
      assert (a + b)[1..] == a[1..] + b;
      DigitsThrough(a[1..], b, 10 * read + (a[0] as int - '0' as int));
    }
  }

  /** f times t is ten units of v. */
  predicate FractionIs(f: real, t: nat, unit: real, v: int) { f * t as real == unit * 10.0 * v as real }

  lemma {:induction false} FractionScaled(s: string, unit: real)
    requires AllDigits(s)
    ensures FractionIs(FractionValue(s, unit), Ten(|s|), unit, DigitsValue(s, 0))
    decreases |s|
  {
    hide FractionIs, Joined;
    if |s| == 0 {
      NoFraction(unit);
    } else {
      var d := s[0] as int - '0' as int;
      FractionScaled(s[1..], unit / 10.0);
      DigitsBehind(s[1..], d);
      assert FractionValue(s, unit) == d as real * unit + FractionValue(s[1..], unit / 10.0);
      assert Ten(|s|) == 10 * Ten(|s| - 1) && DigitsValue(s, 0) == DigitsValue(s[1..], d);
      hide FractionValue, DigitsValue, Ten;
      FractionStep(FractionValue(s[1..], unit / 10.0), Ten(|s| - 1), unit, DigitsValue(s[1..], 0), d, DigitsValue(s, 0));
    }
  }

  lemma NoFraction(unit: real)
    ensures FractionIs(0.0, 1, unit, 0)
  {
  }

  lemma FractionStep(f: real, t: nat, unit: real, rest: nat, d: int, v: nat)
    requires FractionIs(f, t, unit / 10.0, rest) && Joined(v, d, t, rest)
    ensures FractionIs(d as real * unit + f, 10 * t, unit, v)
  {
    assert unit / 10.0 * 10.0 == unit;
    assert v as real == d as real * t as real + rest as real;
    assert (10 * t) as real == 10.0 * t as real;
    Scaled(d as real, unit, f, t as real, rest as real);
  }

  lemma Scaled(d: real, unit: real, f: real, t: real, rest: real)
    requires f * t == unit * rest
    ensures (d * unit + f) * (10.0 * t) == unit * 10.0 * (d * t + rest)
  {
    assert (d * unit + f) * (10.0 * t) == 10.0 * (d * unit * t) + 10.0 * (f * t);
    assert unit * 10.0 * (d * t + rest) == 10.0 * (unit * (d * t)) + 10.0 * (unit * rest);
    assert d * unit * t == unit * (d * t);
  }

  lemma {:induction false} DigitsSkipped(whole: string, rest: string)
    requires AllDigits(whole) && (|rest| > 0 ==> !IsDigit(rest[0]))
    ensures SkipDigits(whole + rest) == rest && DigitsValue(whole + rest, 0) == DigitsValue(whole, 0)
  {
    SkipThrough(whole, rest);
    DigitsThrough(whole, rest, 0);
  }

  lemma {:induction false} SkipThrough(whole: string, rest: string)
    requires AllDigits(whole) && (|rest| > 0 ==> !IsDigit(rest[0]))
    ensures SkipDigits(whole + rest) == rest
    decreases |whole|
  {
    if |whole| == 0 {
      assert whole + rest == rest;
    } else {
      assert (whole + rest)[1..] == whole[1..] + rest;
      SkipThrough(whole[1..], rest);
    }
  }

  /** A float numeral is the integer of all its digits, divided by ten for every digit behind the point. */
  lemma FloatValue(whole: string, part: string)
    requires AllDigits(whole) && AllDigits(part)
    ensures FractionIs(StrToReal(whole + "." + part), Ten(|part|), 0.1, DigitsValue(whole + part, 0))
  {
    hide FractionIs, Joined, StrToReal, DigitsValue, FractionValue, Ten;
    FractionScaled(part, 0.1);
    DigitsJoined(whole, part);
    FloatParts(whole, part);
    WholeAdded(DigitsValue(whole, 0), FractionValue(part, 0.1), Ten(|part|), DigitsValue(part, 0),
               DigitsValue(whole + part, 0));
  }

  lemma FloatParts(whole: string, part: string)
    requires AllDigits(whole) && AllDigits(part)
    ensures StrToReal(whole + "." + part) == DigitsValue(whole, 0) as real + FractionValue(part, 0.1)
  {
    hide DigitsValue, FractionValue;
    var tail := "." + part;
    assert whole + "." + part == whole + tail && tail[1..] == part;
    DigitsSkipped(whole, tail);
  }

  lemma WholeAdded(w: nat, f: real, t: nat, p: nat, v: nat)
    requires FractionIs(f, t, 0.1, p) && Joined(v, w, t, p)
    ensures FractionIs(w as real + f, t, 0.1, v)
  {
    assert v as real == w as real * t as real + p as real;
    assert (w as real + f) * t as real == w as real * t as real + f * t as real;
  }

  // ---------- Negations ----------

  function Bangs(n: nat): (r: seq<Token>)
    ensures |r| == n
  {
    if n == 0 then [] else [Sign(BANG)] + Bangs(n - 1)
  }

  lemma {:induction false} NegationsDerive(ts: seq<Token>, i: nat, n: nat, b: bool)
    requires Stands(ts, i, Bangs(n) + [Sign(if b then TRUE else FALSE)])
    ensures Derives(ts, i, i + n + 1, Fresh(Lit(BoolLit(if n % 2 == 0 then b else !b))), UNARY)
    decreases n
  {
    hide Stands, Derives, Sign, Bangs;
    var word := [Sign(if b then TRUE else FALSE)];
    if n == 0 {
      NoBangs(word);
      WordDerives(ts, i, b);
    } else {
      BangsSplit(n, word);
      StandsSplit(ts, i, [Sign(BANG)], Bangs(n - 1) + word);
      StandsOne(ts, i, Sign(BANG));
      SignType(BANG);
      NegationsDerive(ts, i + 1, n - 1, b);
      FoldDerives(ts, i, i + n + 1, BANG, Fresh(Lit(BoolLit(if (n - 1) % 2 == 0 then b else !b))));
    }
  }

  /** A chain of negations in front of a boolean folds to one literal, negated if the chain is odd. */
  lemma NegationsFold(ts: seq<Token>, i: nat, n: nat, b: bool)
    requires Stands(ts, i, Bangs(n) + [Sign(if b then TRUE else FALSE)]) && !IsCallOrMemberOrIndex(Peek(ts, i + n + 1))
    ensures i + n + 1 <= |ts|
    ensures ParseUnary(ts, i) == Done(Fresh(Lit(BoolLit(if n % 2 == 0 then b else !b))), i + n + 1, 0)
  {
    hide Stands, Derives, ParseUnary, Bangs, Sign, IsCallOrMemberOrIndex;
    var e := Fresh(Lit(BoolLit(if n % 2 == 0 then b else !b)));
    NegationsDerive(ts, i, n, b);
    DerivesMoves(ts, i, i + n + 1, e, UNARY);
    UnaryDerived(ts, i, i + n + 1, e);
  }

  lemma NoBangs(word: seq<Token>)
    ensures Bangs(0) + word == word
  {
  }

  lemma BangsSplit(n: nat, word: seq<Token>)
    requires n > 0
    ensures Bangs(n) + word == [Sign(BANG)] + (Bangs(n - 1) + word)
  {
    hide Sign;
  }

  lemma WordDerives(ts: seq<Token>, i: nat, b: bool)
    requires Stands(ts, i, [Sign(if b then TRUE else FALSE)])
    ensures Derives(ts, i, i + 1, Fresh(Lit(BoolLit(b))), UNARY)
  {
    hide Derives, Text;
    var e := Fresh(Lit(BoolLit(b)));
    StandsOne(ts, i, Sign(if b then TRUE else FALSE));
    assert OperandDerives(ts, i, i + 1, e);
    OperandIsDerived(ts, i, i + 1, e);
    Loosen(ts, i, i + 1, e, OPERAND, UNARY);
  }
}
