/** Bracket matching across lines (build-support/cpplint.py:1744-1978), on lines without angle brackets:
    the forward and the backward matcher find exactly the correctly paired bracket, so each undoes the
    other. */
module Brackets {
  predicate IsOpen(c: char) { c == '(' || c == '[' || c == '{' }
  predicate IsClose(c: char) { c == ')' || c == ']' || c == '}' }

  /** The bracket on the other side; other characters are their own partners. */
  function Partner(c: char): char {
    match c
    case '(' => ')' case '[' => ']' case '{' => '}'
    case ')' => '(' case ']' => '[' case '}' => '{'
    case _ => c
  }

  // ---------- Correctly paired text ----------

  /** Every bracket is closed by its partner, with paired text in between. */
  predicate Paired(s: string) {
    || |s| == 0
    || (!IsOpen(s[0]) && !IsClose(s[0]) && Paired(s[1..]))
    || (IsOpen(s[0]) && exists j :: 0 < j < |s| && s[j] == Partner(s[0]) && Paired(s[1..j]) && Paired(s[j + 1..]))
  }

  /** The bracket at i is closed by the one at j. */
  predicate Matches(t: string, i: nat, j: nat) {
    i < j < |t| && IsOpen(t[i]) && t[j] == Partner(t[i]) && Paired(t[i + 1..j])
  }

  lemma PairedWrap(o: char, p: string, q: string)
    requires IsOpen(o) && Paired(p) && Paired(q)
    ensures Paired([o] + p + [Partner(o)] + q)
  {
    var s := [o] + p + [Partner(o)] + q;
    var j := |p| + 1;
    assert s[1..j] == p && s[j + 1..] == q && s[j] == Partner(o);
  }

  lemma PairEnd(s: string) returns (j: nat)
    requires |s| > 0 && IsOpen(s[0]) && Paired(s)
    ensures 0 < j < |s| && s[j] == Partner(s[0]) && Paired(s[1..j]) && Paired(s[j + 1..])
  {
    j :| 0 < j < |s| && s[j] == Partner(s[0]) && Paired(s[1..j]) && Paired(s[j + 1..]);
  }

  /** Round, square and curly brackets each pair with their own kind. */
  lemma KindsPair(p: string)
    requires Paired(p)
    ensures Paired("(" + p + ")") && Paired("[" + p + "]") && Paired("{" + p + "}")
  {
    hide Paired;
    assert Paired("") by { EmptyPaired(); }
    PairedWrap('(', p, "");
    PairedWrap('[', p, "");
    PairedWrap('{', p, "");
    assert ['('] + p + [')'] + "" == "(" + p + ")";
    assert ['['] + p + [']'] + "" == "[" + p + "]";
    assert ['{'] + p + ['}'] + "" == "{" + p + "}";
  }

  lemma EmptyPaired()
    ensures Paired("")
  {
  }

  lemma PairedNeutral(c: char, p: string)
    requires !IsOpen(c) && !IsClose(c) && Paired(p)
    ensures Paired([c] + p)
  {
    assert ([c] + p)[1..] == p;
  }

  lemma SplitAt(s: string, j: nat)
    requires 0 < j < |s|
    ensures s == [s[0]] + s[1..j] + [s[j]] + s[j + 1..]
  {
  }

  lemma Regroup(a: string, b: string, c: string, d: string)
    ensures a + b + c + d == a + b + (c + d)
  {
  }

  lemma {:induction false} PairedAppend(a: string, b: string)
    requires Paired(a) && Paired(b)
    ensures Paired(a + b)
    decreases |a|
  {
    if |a| == 0 {
      assert a + b == b;
    } else if !IsOpen(a[0]) {
      PairedAppend(a[1..], b);
      assert (a + b)[1..] == a[1..] + b;
    } else {
      var j := PairEnd(a);
      hide Paired;
      PairedAppend(a[j + 1..], b);
      PairedWrap(a[0], a[1..j], a[j + 1..] + b);
      SplitAt(a, j);
      Regroup([a[0]] + a[1..j], [a[j]], a[j + 1..], b);
    }
  }

  // ---------- The forward matcher ----------

  /** What scanning a text does to a stack of open brackets: the last bracket is closed before position
      at, or the brackets do not fit, or some are still open at the end. */
  datatype Scan = Found(at: nat) | Mismatch | Open(stack: string) {
    function Shift(n: nat): Scan { if Found? then Found(at + n) else this }
  }

  function Forward(stack: string, s: string): Scan
    decreases |s|
  {
    if |s| == 0 then Open(stack)
    else if IsOpen(s[0]) then Forward(stack + [s[0]], s[1..]).Shift(1)
    else if IsClose(s[0]) then
      if |stack| == 0 || s[0] != Partner(stack[|stack| - 1]) then Mismatch
      else if |stack| == 1 then Found(1)
      else Forward(stack[..|stack| - 1], s[1..]).Shift(1)
    else if s[0] == ';' && |stack| == 0 then Mismatch
    else Forward(stack, s[1..]).Shift(1)
  }

  lemma {:induction false} ForwardAppend(stack: string, a: string, b: string)
    ensures Forward(stack, a + b)
            == match Forward(stack, a) case Open(st) => Forward(st, b).Shift(|a|) case r => r
    decreases |a|
  {
    if |a| == 0 {
      assert a + b == b;
    } else {
      assert (a + b)[0] == a[0] && (a + b)[1..] == a[1..] + b;
      if IsOpen(a[0]) {
        ForwardAppend(stack + [a[0]], a[1..], b);
      } else if IsClose(a[0]) {
        if |stack| > 1 {
          ForwardAppend(stack[..|stack| - 1], a[1..], b);
        }
      } else {
        ForwardAppend(stack, a[1..], b);
      }
    }
  }

  lemma {:induction false} FoundInside(stack: string, s: string)
    ensures Forward(stack, s).Found? ==> 0 < Forward(stack, s).at <= |s|
    decreases |s|
  {
    if |s| > 0 {
      if IsOpen(s[0]) {
        FoundInside(stack + [s[0]], s[1..]);
      } else if IsClose(s[0]) {
        if |stack| > 1 { FoundInside(stack[..|stack| - 1], s[1..]); }
      } else {
        FoundInside(stack, s[1..]);
      }
    }
  }

  /** Paired text leaves the open brackets as they are. */
  lemma {:induction false} PairedKeepsStack(stack: string, s: string)
    requires |stack| > 0 && Paired(s)
    ensures Forward(stack, s) == Open(stack)
    decreases |s|
  {
    if |s| > 0 {
      if !IsOpen(s[0]) {
        PairedKeepsStack(stack, s[1..]);
      } else {
        var j := PairEnd(s);
        var inner := stack + [s[0]];
        PairedKeepsStack(inner, s[1..j]);
        PairedKeepsStack(stack, s[j + 1..]);
        assert s[1..] == s[1..j] + s[j..];
        ForwardAppend(inner, s[1..j], s[j..]);
        assert s[j..][1..] == s[j + 1..] && inner[..|inner| - 1] == stack;
        assert IsClose(Partner(s[0])) && !IsOpen(Partner(s[0]));
        assert Forward(inner, s[j..]) == Forward(stack, s[j + 1..]).Shift(1);
      }
    }
  }

  /** The text closes the brackets of the stack one after the other, with paired text between. */
  predicate Unwinds(stack: string, s: string)
    decreases |stack|
  {
    if |stack| == 0 then |s| == 0
    else exists m :: 0 <= m < |s| && Paired(s[..m]) && s[m] == Partner(stack[|stack| - 1])
                     && Unwinds(stack[..|stack| - 1], s[m + 1..])
  }

  lemma UnwindsBy(stack: string, p: string, rest: string)
    requires |stack| > 0 && Paired(p) && Unwinds(stack[..|stack| - 1], rest)
    ensures Unwinds(stack, p + [Partner(stack[|stack| - 1])] + rest)
  {
    var s := p + [Partner(stack[|stack| - 1])] + rest;
    assert s[..|p|] == p && s[|p|] == Partner(stack[|stack| - 1]) && s[|p| + 1..] == rest;
  }

  /** Text that ends up closing the stack only has paired text between the brackets that do. */
  lemma {:induction false} FoundUnwinds(stack: string, s: string)
    requires |stack| > 0 && Forward(stack, s).Found?
    ensures Forward(stack, s).at <= |s| && Unwinds(stack, s[..Forward(stack, s).at])
    decreases |s|
  {
    hide Unwinds, Paired, Partner;
    FoundInside(stack, s);
    var n := Forward(stack, s).at;
    var c := s[0];
    if IsOpen(c) {
      var inner := stack + [c];
      FoundInside(inner, s[1..]);
      FoundUnwinds(inner, s[1..]);
      assert s[1..][..n - 1] == s[1..n] && inner[..|inner| - 1] == stack;
      OpenUnwinds(stack, c, s[1..n]);
      assert [c] + s[1..n] == s[..n];
    } else if IsClose(c) {
      if |stack| > 1 {
        FoundInside(stack[..|stack| - 1], s[1..]);
        FoundUnwinds(stack[..|stack| - 1], s[1..]);
        assert s[1..][..n - 1] == s[1..n];
        UnwindsBy(stack, "", s[1..n]);
        assert "" + [c] + s[1..n] == s[..n];
      } else {
        UnwindsBy(stack, "", "");
        assert "" + [c] + "" == s[..1];
      }
    } else {
      FoundInside(stack, s[1..]);
      FoundUnwinds(stack, s[1..]);
      assert s[1..][..n - 1] == s[1..n];
      NeutralUnwinds(stack, c, s[1..n]);
      assert [c] + s[1..n] == s[..n];
    }
  }

  lemma Unwound(stack: string, s: string) returns (m: nat)
    requires |stack| > 0 && Unwinds(stack, s)
    ensures m < |s| && Paired(s[..m]) && s[m] == Partner(stack[|stack| - 1]) && Unwinds(stack[..|stack| - 1], s[m + 1..])
    ensures s == s[..m] + [Partner(stack[|stack| - 1])] + s[m + 1..]
  {
    hide Paired, Partner;
    m :| 0 <= m < |s| && Paired(s[..m]) && s[m] == Partner(stack[|stack| - 1]) && Unwinds(stack[..|stack| - 1], s[m + 1..]);
    assert s == s[..m] + [s[m]] + s[m + 1..];
  }

  lemma OpenUnwinds(stack: string, c: char, s: string)
    requires IsOpen(c) && |stack| > 0 && Unwinds(stack + [c], s)
    ensures Unwinds(stack, [c] + s)
  {
    hide Paired, Unwinds, IsOpen, Partner;
    var inner, last := stack + [c], Partner(stack[|stack| - 1]);
    assert inner[..|inner| - 1] == stack;
    var m := Unwound(inner, s);
    var p, rest := s[..m], s[m + 1..];
    var k := Unwound(stack, rest);
    var q, more := rest[..k], rest[k + 1..];
    PairedWrap(c, p, q);
    UnwindsBy(stack, [c] + p + [Partner(c)] + q, more);
    Chain([c], p, [Partner(c)], q, [last], more);
  }

  lemma Chain(c: string, p: string, d: string, q: string, e: string, r: string)
    ensures c + (p + d + (q + e + r)) == (c + p + d + q) + e + r
  {
  }

  lemma NeutralUnwinds(stack: string, c: char, s: string)
    requires !IsOpen(c) && !IsClose(c) && |stack| > 0 && Unwinds(stack, s)
    ensures Unwinds(stack, [c] + s)
  {
    hide Paired, Unwinds, IsOpen, IsClose, Partner;
    var m := Unwound(stack, s);
    PairedNeutral(c, s[..m]);
    UnwindsBy(stack, [c] + s[..m], s[m + 1..]);
    Chain([], [c], s[..m], [Partner(stack[|stack| - 1])], s[m + 1..], []);
    assert [c] + s == [c] + s[..m] + [Partner(stack[|stack| - 1])] + s[m + 1..];
  }

  /** The forward matcher stops behind the matching bracket, and stops nowhere else. */
  lemma {:induction false} ForwardExact(t: string, i: nat, j: nat)
    requires i < |t| && IsOpen(t[i])
    ensures j >= i ==> (Forward("", t[i..]) == Found(j + 1 - i) <==> Matches(t, i, j))
  {
    hide Paired, Unwinds;
    var o, rest := t[i], t[i + 1..];
    assert t[i..][1..] == rest && "" + [o] == [o];
    assert Forward("", t[i..]) == Forward([o], rest).Shift(1);
    if Matches(t, i, j) {
      var mid := t[i + 1..j];
      PairedKeepsStack([o], mid);
      assert rest == mid + t[j..];
      ForwardAppend([o], mid, t[j..]);
      assert IsClose(Partner(o)) && !IsOpen(Partner(o));
    }
    if j >= i && Forward("", t[i..]) == Found(j + 1 - i) {
      FoundUnwinds([o], rest);
      FoundAtBracket([o], rest, j - i);
      assert rest[..j - i][..j - i - 1] == t[i + 1..j];
      assert t[j] == rest[j - i - 1];
    }
  }

  lemma FoundAtBracket(stack: string, s: string, n: nat)
    requires |stack| == 1 && n <= |s| && Unwinds(stack, s[..n])
    ensures 0 < n && Paired(s[..n][..n - 1]) && s[n - 1] == Partner(stack[0])
  {
    hide Paired;
    var m := Unwound(stack, s[..n]);
    assert |s[..n][m + 1..]| == 0;
  }

  // ---------- The backward matcher ----------

  /** Scans from the end of s; Found gives the position of the opening bracket. */
  function Backward(stack: string, s: string): Scan
    decreases |s|
  {
    if |s| == 0 then Open(stack)
    else
      var n := |s| - 1;
      if IsClose(s[n]) then Backward(stack + [s[n]], s[..n])
      else if IsOpen(s[n]) then
        if |stack| == 0 || s[n] != Partner(stack[|stack| - 1]) then Mismatch
        else if |stack| == 1 then Found(n)
        else Backward(stack[..|stack| - 1], s[..n])
      else if s[n] == ';' && |stack| == 0 then Mismatch
      else Backward(stack, s[..n])
  }

  lemma {:induction false} BackwardAppend(stack: string, a: string, b: string)
    ensures Backward(stack, a + b)
            == match Backward(stack, b) case Open(st) => Backward(st, a) case r => r.Shift(|a|)
    decreases |b|
  {
    if |b| == 0 {
      assert a + b == a;
    } else {
      var n := |b| - 1;
      assert (a + b)[|a| + n] == b[n] && (a + b)[..|a| + n] == a + b[..n];
      if IsClose(b[n]) {
        BackwardAppend(stack + [b[n]], a, b[..n]);
      } else if IsOpen(b[n]) {
        if |stack| > 1 {
          BackwardAppend(stack[..|stack| - 1], a, b[..n]);
        }
      } else {
        BackwardAppend(stack, a, b[..n]);
      }
    }
  }

  /** The text read from the right in a mirror: reversed, each bracket replaced by its partner. */
  function Mirror(s: string): (m: string)
    ensures |m| == |s| && forall k :: 0 <= k < |s| ==> m[k] == Partner(s[|s| - 1 - k])
  {
    seq(|s|, k requires 0 <= k < |s| => Partner(s[|s| - 1 - k]))
  }

  function Partners(s: string): (m: string)
    ensures |m| == |s| && forall k :: 0 <= k < |s| ==> m[k] == Partner(s[k])
  {
    seq(|s|, k requires 0 <= k < |s| => Partner(s[k]))
  }

  lemma PartnerSwaps(c: char)
    ensures Partner(Partner(c)) == c && (IsOpen(Partner(c)) <==> IsClose(c)) && (IsClose(Partner(c)) <==> IsOpen(c))
    ensures Partner(c) == ';' <==> c == ';'
  {
  }

  lemma {:induction false} BackwardIsMirrored(stack: string, s: string)
    ensures Backward(stack, s)
            == match Forward(Partners(stack), Mirror(s))
               case Found(n) => if n <= |s| then Found(|s| - n) else Mismatch
               case Mismatch => Mismatch
               case Open(st) => Open(Partners(st))
    decreases |s|
  {
    hide Partner, IsOpen, IsClose;
    if |s| == 0 {
      PartnersTwice(stack);
      assert Mirror(s) == "";
    } else {
      var n := |s| - 1;
      var c := s[n];
      PartnerSwaps(c);
      assert Mirror(s)[0] == Partner(c) && Mirror(s)[1..] == Mirror(s[..n]);
      if IsClose(c) {
        BackwardIsMirrored(stack + [c], s[..n]);
        assert Partners(stack + [c]) == Partners(stack) + [Partner(c)];
      } else if IsOpen(c) {
        if |stack| > 0 {
          PartnerSwaps(stack[|stack| - 1]);
          BackwardIsMirrored(stack[..|stack| - 1], s[..n]);
          assert Partners(stack[..|stack| - 1]) == Partners(stack)[..|stack| - 1];
        }
      } else {
        BackwardIsMirrored(stack, s[..n]);
      }
    }
  }

  lemma PartnersTwice(s: string)
    ensures Partners(Partners(s)) == s
  {
    forall k | 0 <= k < |s| ensures Partners(Partners(s))[k] == s[k] { PartnerSwaps(s[k]); }
  }

  lemma {:induction false} PairedMirror(s: string)
    requires Paired(s)
    ensures Paired(Mirror(s))
    decreases |s|
  {
    if |s| > 0 {
      if !IsOpen(s[0]) {
        PairedMirror(s[1..]);
        PartnerSwaps(s[0]);
        PairedNeutral(Partner(s[0]), "");
        assert Mirror(s) == Mirror(s[1..]) + ([Partner(s[0])] + "");
        PairedAppend(Mirror(s[1..]), [Partner(s[0])] + "");
      } else {
        PairMirror(s);
      }
    }
  }

  lemma {:induction false} PairMirror(s: string)
    requires Paired(s) && |s| > 0 && IsOpen(s[0])
    ensures Paired(Mirror(s))
    decreases |s|, 0
  {
    var j := PairEnd(s);
    hide Paired, Partner, IsOpen, IsClose;
    var c := s[j];
    PairedMirror(s[1..j]);
    PairedMirror(s[j + 1..]);
    PartnerSwaps(s[0]);
    PartnerSwaps(c);
    assert Paired("") by { NothingPaired(); }
    PairedWrap(Partner(c), Mirror(s[1..j]), "");
    var wrapped := [Partner(c)] + Mirror(s[1..j]) + [Partner(Partner(c))] + "";
    PairedAppend(Mirror(s[j + 1..]), wrapped);
    MirrorSplit(s, j);
  }

  lemma MirrorSplit(s: string, j: nat)
    requires 0 < j < |s|
    ensures Mirror(s) == Mirror(s[j + 1..]) + ([Partner(s[j])] + Mirror(s[1..j]) + [Partner(s[0])] + "")
  {
    hide Partner;
  }

  lemma NothingPaired()
    ensures Paired("")
  {
  }

  lemma MirrorTwice(s: string)
    ensures Mirror(Mirror(s)) == s
  {
    forall k | 0 <= k < |s| ensures Mirror(Mirror(s))[k] == s[k] { PartnerSwaps(s[k]); }
  }

  /** The backward matcher stops at the matching bracket, and stops nowhere else. */
  lemma {:induction false} BackwardExact(t: string, i: nat, j: nat)
    requires j < |t| && IsClose(t[j])
    ensures Backward("", t[..j + 1]) == Found(i) <==> Matches(t, i, j)
  {
    hide Paired, Partner, IsOpen, IsClose, Backward, Forward;
    var s := t[..j + 1];
    var u := Mirror(s);
    BackwardIsMirrored("", s);
    assert Partners("") == "";
    PartnerSwaps(t[j]);
    assert u[0] == Partner(t[j]) && u[0..] == u;
    FoundInside("", u);
    if i <= j {
      ForwardExact(u, 0, j - i);
      PartnerSwaps(t[i]);
      assert u[j - i] == Partner(t[i]);
      if i < j {
        assert u[1..j - i] == Mirror(t[i + 1..j]);
        PairedMirrorIff(t[i + 1..j]);
        assert Matches(u, 0, j - i) <==> Matches(t, i, j);
      }
    }
  }

  lemma PairedMirrorIff(s: string)
    ensures Paired(Mirror(s)) <==> Paired(s)
  {
    hide Paired;
    MirrorTwice(s);
    if Paired(s) { PairedMirror(s); }
    if Paired(Mirror(s)) { PairedMirror(Mirror(s)); }
  }
}
