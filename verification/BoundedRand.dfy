/** Bounded random numbers by multiplication and rejection
    (benchmark/sql/join_hash_table_benchmark.cpp:53-71): every output is equally likely. */
module BoundedRandom {
  import opened Division

  const WORDS: nat := 0x1_0000_0000

  type Word = x: nat | x < WORDS

  function Low(x: nat, range: nat): nat { x * range % WORDS }

  function Out(x: nat, range: nat): nat { x * range / WORDS }

  function Threshold(range: nat): nat
    requires range > 0
  {
    WORDS % range
  }

  predicate Accepted(x: nat, range: nat)
    requires range > 0
  {
    Low(x, range) >= Threshold(range)
  }

  // ---------- The generator ----------

  /** The threshold, computed with at most one division. */
  method ComputeThreshold(range: Word) returns (t: nat)
    requires range > 0
    ensures t == Threshold(range)
  {
    t := WORDS - range;
    if t >= range {
      t := t - range;
      Divided(t, range);
      Product(range, t / range, -2);
      QuotientIs(WORDS, range, t / range + 2, t % range);
      if t >= range {
        t := t % range;
      } else {
        QuotientIs(t, range, 0, t);
      }
    } else {
      QuotientIs(WORDS, range, 1, t);
    }
  }

  /** Draws from a stream of words that holds an acceptable one: the result comes from the first
      acceptable word, and the words up to it are used up. */
  method BoundedRand(words: seq<Word>, range: Word) returns (r: nat, used: nat)
    requires range > 0 && exists i :: 0 <= i < |words| && Accepted(words[i], range)
    ensures 0 < used <= |words| && Accepted(words[used - 1], range) && r == Out(words[used - 1], range)
    ensures forall i :: 0 <= i < used - 1 ==> !Accepted(words[i], range)
    ensures r < range
  {
    hide Low, Out, Threshold;
    var x := words[0];
    var m := x * range;
    used := 1;
    var l := m % WORDS;
    assert l == Low(x, range) by { LowIs(x, range); }
    ThresholdBelow(range);
    if l < range {
      var t := ComputeThreshold(range);
      while l < t
        invariant 0 < used <= |words| && x == words[used - 1] && m == x * range && l == Low(x, range)
        invariant forall i :: 0 <= i < used - 1 ==> !Accepted(words[i], range)
        decreases |words| - used
      {
        x := words[used];
        m := x * range;
        used := used + 1;
        l := m % WORDS;
        assert l == Low(x, range) by { LowIs(x, range); }
      }
    }
    r := m / WORDS;
    OutBelow(x, range);
  }

  lemma LowIs(x: nat, range: nat)
    ensures Low(x, range) == x * range % WORDS && Out(x, range) == x * range / WORDS
  {
  }

  lemma ThresholdBelow(range: nat)
    requires range > 0
    ensures Threshold(range) < range
  {
  }

  lemma OutBelow(x: Word, range: nat)
    requires range > 0
    ensures Out(x, range) < range && Out(x, range) == x * range / WORDS
  {
    Grows(range, x, WORDS);
    Divided(x * range, WORDS);
    if Out(x, range) >= range {
      Grows(WORDS, range, Out(x, range));
    }
  }

  // ---------- Uniformity ----------

  /** The accepted words that give v. */
  ghost function Sources(range: nat, v: nat): set<nat>
    requires range > 0
  {
    set x: nat | x < WORDS && Accepted(x, range) && Out(x, range) == v
  }

  predicate Within(x: nat, lo: nat, n: nat) { lo <= x < lo + n }

  ghost function Interval(lo: nat, n: nat): set<nat> { set x: nat | x < lo + n && Within(x, lo, n) }

  lemma {:induction false} IntervalSize(lo: nat, n: nat)
    ensures |Interval(lo, n)| == n
  {
    if n == 0 {
      assert Interval(lo, 0) == {};
    } else {
      IntervalSize(lo, n - 1);
      assert Interval(lo, n) == Interval(lo, n - 1) + {lo + n - 1};
    }
  }

  /** The word x is accepted and gives v exactly when its product lies in the upper part of block v. */
  lemma SourceIff(range: nat, v: nat, x: nat)
    requires range > 0
    ensures Accepted(x, range) && Out(x, range) == v
            <==> v * WORDS + Threshold(range) <= x * range < v * WORDS + WORDS
  {
    Divided(x * range, WORDS);
    if v * WORDS + Threshold(range) <= x * range < v * WORDS + WORDS {
      QuotientIs(x * range, WORDS, v, x * range - v * WORDS);
    }
  }

  /** The least factor that lifts range to n. */
  function CeilDiv(n: nat, range: nat): nat
    requires range > 0
  {
    (n + range - 1) / range
  }

  lemma CeilDivIff(n: nat, range: nat, x: nat)
    requires range > 0
    ensures n <= x * range <==> CeilDiv(n, range) <= x
  {
    var c := CeilDiv(n, range);
    Divided(n + range - 1, range);
    if c <= x {
      Grows(range, c, x);
    } else {
      Grows(range, x, c);
    }
  }

  lemma CeilDivShift(n: nat, range: nat, q: nat)
    requires range > 0
    ensures CeilDiv(n + q * range, range) == CeilDiv(n, range) + q
  {
    Divided(n + range - 1, range);
    Product(range, CeilDiv(n, range), q);
    QuotientIs(n + q * range + range - 1, range, CeilDiv(n, range) + q, (n + range - 1) % range);
  }

  lemma SourcesAreInterval(range: Word, v: nat)
    requires 0 < range && v < range
    ensures Sources(range, v) == Interval(CeilDiv(v * WORDS + Threshold(range), range), WORDS / range)
  {
    hide Accepted, Out, Threshold, CeilDiv;
    var lo, q := v * WORDS + Threshold(range), WORDS / range;
    assert WORDS == q * range + Threshold(range) by { ThresholdIs(range); }
    CeilDivShift(lo, range, q);
    assert lo + q * range == v * WORDS + WORDS;
    forall x: nat
      ensures x in Sources(range, v) <==> x in Interval(CeilDiv(lo, range), q)
    {
      SourceIff(range, v, x);
      CeilDivIff(lo, range, x);
      CeilDivIff(lo + q * range, range, x);
      if x * range < v * WORDS + WORDS {
        IsWord(range, v, x);
      }
    }
  }

  lemma ThresholdIs(range: nat)
    requires range > 0
    ensures WORDS == WORDS / range * range + Threshold(range)
  {
    Divided(WORDS, range);
  }

  lemma IsWord(range: nat, v: nat, x: nat)
    requires v < range && x * range < v * WORDS + WORDS
    ensures x < WORDS
  {
    Grows(WORDS, v, range);
    if x >= WORDS {
      Grows(range, WORDS, x);
    }
  }

  /** Uniformity: each output below range comes from exactly 2^32 / range accepted words, rounded down. */
  lemma {:induction false} Uniform(range: Word, v: nat)
    requires 0 < range && v < range
    ensures |Sources(range, v)| == WORDS / range
  {
    SourcesAreInterval(range, v);
    IntervalSize(CeilDiv(v * WORDS + Threshold(range), range), WORDS / range);
  }

  // ---------- Rejections ----------

  ghost function SourcesBelow(range: nat, n: nat): set<nat>
    requires range > 0
  {
    set x: nat | x < WORDS && Accepted(x, range) && Out(x, range) < n
  }

  lemma {:induction false} SourcesBelowSize(range: Word, n: nat)
    requires 0 < range && n <= range
    ensures |SourcesBelow(range, n)| == n * (WORDS / range)
  {
    hide Accepted, Out;
    if n == 0 {
      assert SourcesBelow(range, 0) == {};
    } else {
      SourcesBelowSize(range, n - 1);
      Uniform(range, n - 1);
      assert SourcesBelow(range, n) == SourcesBelow(range, n - 1) + Sources(range, n - 1);
      assert SourcesBelow(range, n - 1) !! Sources(range, n - 1);
      Product(WORDS / range, n - 1, 1);
    }
  }

  ghost function Rejected(range: nat): set<nat>
    requires range > 0
  {
    set x: nat | x < WORDS && !Accepted(x, range)
  }

  /** Exactly 2^32 mod range of the 2^32 words are rejected, fewer than half. */
  lemma {:induction false} FewRejected(range: Word)
    requires range > 0
    ensures |Rejected(range)| == WORDS % range && 2 * |Rejected(range)| < WORDS
  {
    hide Out, Accepted, SourcesBelow, Rejected, Interval, Threshold;
    SourcesBelowSize(range, range);
    forall x: nat | x < WORDS ensures Out(x, range) < range { OutBelow(x, range); }
    TakenOrRejected(range);
    IntervalSize(0, WORDS);
    assert |SourcesBelow(range, range)| + |Rejected(range)| == WORDS;
    Divided(WORDS, range);
    assert range * (WORDS / range) == WORDS / range * range;
    HalfAtMost(range);
  }

  lemma TakenOrRejected(range: Word)
    requires range > 0 && forall x: nat | x < WORDS :: Out(x, range) < range
    ensures Interval(0, WORDS) == SourcesBelow(range, range) + Rejected(range)
    ensures SourcesBelow(range, range) !! Rejected(range)
  {
    hide Accepted, Out;
  }

  lemma HalfAtMost(range: Word)
    requires range > 0
    ensures 2 * (WORDS % range) < WORDS
  {
    if 2 * range > WORDS {
      QuotientIs(WORDS, range, 1, WORDS - range);
    } else {
      Divided(WORDS, range);
    }
  }
}
