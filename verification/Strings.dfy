/** Concatenations regrouped. */
module Strings {
  lemma Regroup(o: string, a: string, b: string, c: string)
    ensures o + "" == o && o + a + b + c == o + (a + (b + c))
  {
  }

  lemma Concat(o: string, a: string, b: string, c: string, d: string)
    ensures o + a + b + c == o + (a + b + c)
    ensures o + a + b + c + d == o + (a + b + c + d)
  {
  }
}
