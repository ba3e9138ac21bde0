/** Precedence climbing returns the one tree that the operator table allows (src/parsing/parser.cpp:378-407). */
module PrecedenceTheorems {
  import opened Tokens
  import opened Ast
  import opened Grammar

  /** The operators on each level, from the loosest to the tightest; no other token is one. */
  lemma OperatorLadder(t: TokenType)
    ensures Precedence(t) == 3 <==> t.OR?
    ensures Precedence(t) == 4 <==> t.AND?
    ensures Precedence(t) == 5 <==> t.BIT_OR?
    ensures Precedence(t) == 6 <==> t.BIT_XOR?
    ensures Precedence(t) == 7 <==> t.AMPERSAND?
    ensures Precedence(t) == 8 <==> t.EQUAL_EQUAL? || t.BANG_EQUAL?
    ensures Precedence(t) == 9 <==> t.LESS? || t.LESS_EQUAL? || t.GREATER? || t.GREATER_EQUAL?
    ensures Precedence(t) == 10 <==> t.BIT_SHL? || t.BIT_SHR?
    ensures Precedence(t) == 11 <==> t.PLUS? || t.MINUS?
    ensures Precedence(t) == 12 <==> t.STAR? || t.SLASH? || t.PERCENT?
    ensures IsInfix(t) <==> 3 <= Precedence(t) <= 12
  {
  }

  datatype Item = Operand(e: Expr) | Operator(op: TokenType)

  /** The operands and operators of a tree from left to right. */
  function Yield(s: Shape): (y: seq<Item>)
    ensures |y| > 0
  {
    match s
    case Atom(e) => [Operand(e)]
    case Infix(op, left, right) => Yield(left) + [Operator(op)] + Yield(right)
  }

  /** Every operator binds tighter than min, left operands bind at least as tightly as their operator
      and right operands strictly tighter. */
  predicate WellShaped(s: Shape, min: nat) {
    match s
    case Atom(_) => true
    case Infix(op, left, right) =>
      Precedence(op) > min && WellShaped(left, Precedence(op) - 1) && WellShaped(right, Precedence(op))
  }

  /** The items are what the stream holds from token i up to token j: unary operands, parsed with errs
      errors in all, with operator tokens between them. */
  predicate Reads(ts: seq<Token>, i: nat, items: seq<Item>, j: nat, errs: nat)
    decreases |items|
  {
    && i <= |ts| && |items| > 0 && items[0].Operand?
    && var u := ParseUnary(ts, i);
       && u.Done? && u.val == items[0].e && u.errs <= errs
       && if |items| == 1 then j == u.next && errs == u.errs
          else && items[1].Operator? && u.next < |ts| && ts[u.next].ty == items[1].op
               && Reads(ts, u.next + 1, items[2..], j, errs - u.errs)
  }

  lemma {:induction false} ReadsBounds(ts: seq<Token>, i: nat, items: seq<Item>, j: nat, errs: nat)
    requires Reads(ts, i, items, j, errs)
    ensures j <= |ts|
    decreases |items|
  {
    if |items| > 1 {
      var u := ParseUnary(ts, i);
      ReadsBounds(ts, u.next + 1, items[2..], j, errs - u.errs);
    }
  }

  lemma {:induction false} ReadsAppend(ts: seq<Token>, i: nat, a: seq<Item>, k: nat, e: nat, op: TokenType, b: seq<Item>, j: nat, f: nat)
    requires Reads(ts, i, a, k, e) && k < |ts| && ts[k].ty == op && Reads(ts, k + 1, b, j, f)
    ensures Reads(ts, i, a + [Operator(op)] + b, j, e + f)
    decreases |a|
  {
    var u := ParseUnary(ts, i);
    var whole := a + [Operator(op)] + b;
    if |a| == 1 {
      assert whole[2..] == b;
    } else {
      ReadsAppend(ts, u.next + 1, a[2..], k, e - u.errs, op, b, j, f);
      assert whole[2..] == a[2..] + [Operator(op)] + b;
    }
  }

  lemma {:induction false} ReadsSplit(ts: seq<Token>, i: nat, a: seq<Item>, op: TokenType, b: seq<Item>, j: nat, errs: nat)
    returns (k: nat, e: nat)
    requires |a| > 0 && Reads(ts, i, a + [Operator(op)] + b, j, errs) && |a| % 2 == 1
    ensures k < |ts| && ts[k].ty == op && e <= errs && Reads(ts, i, a, k, e) && Reads(ts, k + 1, b, j, errs - e)
    decreases |a|
  {
    var u := ParseUnary(ts, i);
    var whole := a + [Operator(op)] + b;
    if |a| == 1 {
      assert whole[2..] == b;
      k, e := u.next, u.errs;
    } else {
      assert whole[2..] == a[2..] + [Operator(op)] + b;
      k, e := ReadsSplit(ts, u.next + 1, a[2..], op, b, j, errs - u.errs);
      e := e + u.errs;
    }
  }

  lemma {:induction false} YieldOdd(s: Shape)
    ensures |Yield(s)| % 2 == 1
  {
    if s.Infix? {
      YieldOdd(s.left);
      YieldOdd(s.right);
    }
  }

  lemma {:induction false} WellShapedWeaken(s: Shape, min: nat, lower: nat)
    requires WellShaped(s, min) && lower <= min
    ensures WellShaped(s, lower)
  {
  }

  // ---------- Soundness ----------

  /** Whatever climbing returns respects the table, spells the tokens consumed, and leaves a token that
      does not bind tighter than min. */
  lemma {:induction false} ClimbSound(ts: seq<Token>, i: nat, min: nat)
    requires i <= |ts| && Climb(ts, i, min).Done?
    ensures var r := Climb(ts, i, min);
            WellShaped(r.val, min) && Reads(ts, i, Yield(r.val), r.next, r.errs) && Precedence(Peek(ts, r.next)) <= min
    decreases Left(ts, i), 5
  {
    var u := ParseUnary(ts, i);
    ClimbOnSound(ts, i, u.next, Atom(u.val), min, u.errs);
  }

  lemma {:induction false} ClimbOnSound(ts: seq<Token>, start: nat, i: nat, left: Shape, min: nat, errs: nat)
    requires start <= i <= |ts| && ClimbOn(ts, i, left, min, errs).Done?
    requires WellShaped(left, min) && Reads(ts, start, Yield(left), i, errs)
    requires left.Infix? ==> Precedence(Peek(ts, i)) <= Precedence(left.op)
    ensures var r := ClimbOn(ts, i, left, min, errs);
            WellShaped(r.val, min) && Reads(ts, start, Yield(r.val), r.next, r.errs) && Precedence(Peek(ts, r.next)) <= min
    decreases Left(ts, i), 1
  {
    hide Reads, ParseUnary;
    var op := Peek(ts, i);
    if Precedence(op) > min {
      var r := Climb(ts, i + 1, Precedence(op));
      ClimbSound(ts, i + 1, Precedence(op));
      ReadsAppend(ts, start, Yield(left), i, errs, op, Yield(r.val), r.next, r.errs);
      ClimbOnSound(ts, start, r.next, Infix(op, left, r.val), min, errs + r.errs);
    }
  }

  // ---------- Completeness ----------

  /** A tree that respects the table is rebuilt from its tokens, and climbing then continues from it. */
  lemma {:induction false} ClimbRebuilds(ts: seq<Token>, i: nat, s: Shape, j: nat, errs: nat, min: nat)
    requires i <= |ts| && WellShaped(s, min) && Reads(ts, i, Yield(s), j, errs)
    requires s.Infix? ==> Precedence(Peek(ts, j)) <= Precedence(s.op)
    ensures j <= |ts| && Climb(ts, i, min) == ClimbOn(ts, j, s, min, errs)
    decreases s
  {
    ReadsBounds(ts, i, Yield(s), j, errs);
    if s.Infix? {
      InfixRebuilds(ts, i, s, j, errs, min);
    } else {
      hide ClimbOn;
    }
  }

  lemma {:induction false} InfixRebuilds(ts: seq<Token>, i: nat, s: Shape, j: nat, errs: nat, min: nat)
    requires i <= |ts| && s.Infix? && WellShaped(s, min) && Reads(ts, i, Yield(s), j, errs) && j <= |ts|
    requires Precedence(Peek(ts, j)) <= Precedence(s.op)
    ensures Climb(ts, i, min) == ClimbOn(ts, j, s, min, errs)
    decreases s, 0
  {
    hide ParseUnary, Reads, Climb, ClimbOn, Precedence;
    var op, left, right := s.op, s.left, s.right;
    YieldOdd(left);
    var k, e := ReadsSplit(ts, i, Yield(left), op, Yield(right), j, errs);
    WellShapedWeaken(left, Precedence(op) - 1, min);
    ClimbRebuilds(ts, i, left, k, e, min);
    ClimbRebuilds(ts, k + 1, right, j, errs - e, Precedence(op));
    ClimbStops(ts, j, right, Precedence(op), errs - e);
    ClimbStep(ts, k, left, min, e, right, j, errs - e);
  }

  lemma ClimbStops(ts: seq<Token>, j: nat, s: Shape, min: nat, errs: nat)
    requires j <= |ts| && Precedence(Peek(ts, j)) <= min
    ensures ClimbOn(ts, j, s, min, errs) == Done(s, j, errs)
  {
  }

  /** One turn of climbing on. */
  lemma ClimbTurn(ts: seq<Token>, k: nat, left: Shape, min: nat, e: nat)
    requires k <= |ts| && Precedence(Peek(ts, k)) > min && ClimbOn(ts, k, left, min, e).Done?
    ensures k < |ts| && Climb(ts, k + 1, Precedence(ts[k].ty)).Done?
    ensures var r := Climb(ts, k + 1, Precedence(ts[k].ty));
            ClimbOn(ts, k, left, min, e) == ClimbOn(ts, r.next, Infix(ts[k].ty, left, r.val), min, e + r.errs)
  {
    hide Climb;
  }

  lemma ClimbStart(ts: seq<Token>, i: nat, min: nat)
    requires i <= |ts| && Climb(ts, i, min).Done?
    ensures var u := ParseUnary(ts, i);
            u.Done? && Climb(ts, i, min) == ClimbOn(ts, u.next, Atom(u.val), min, u.errs)
  {
    hide ParseUnary, ClimbOn;
  }

  lemma ClimbStep(ts: seq<Token>, k: nat, left: Shape, min: nat, e: nat, right: Shape, j: nat, f: nat)
    requires k < |ts| && Precedence(ts[k].ty) > min && j <= |ts| && Climb(ts, k + 1, Precedence(ts[k].ty)) == Done(right, j, f)
    ensures ClimbOn(ts, k, left, min, e) == ClimbOn(ts, j, Infix(ts[k].ty, left, right), min, e + f)
  {
    hide Climb, Precedence;
  }

  /** Precedence climbing, exactly: it returns s and stops at j if and only if s respects the table,
      the tokens up to j spell s, and the token at j does not bind tighter than min. */
  lemma {:induction false} ClimbExact(ts: seq<Token>, i: nat, min: nat, s: Shape, j: nat, errs: nat)
    requires i <= |ts|
    ensures Climb(ts, i, min) == Done(s, j, errs)
            <==> WellShaped(s, min) && Reads(ts, i, Yield(s), j, errs) && Precedence(Peek(ts, j)) <= min
  {
    if Climb(ts, i, min) == Done(s, j, errs) {
      ClimbSound(ts, i, min);
    }
    if WellShaped(s, min) && Reads(ts, i, Yield(s), j, errs) && Precedence(Peek(ts, j)) <= min {
      ClimbRebuilds(ts, i, s, j, errs, min);
    }
  }

  // ---------- Uniqueness ----------

  /** No other tree over the same operands and operators respects the table. */
  lemma {:induction false} UniqueShape(s: Shape, t: Shape, min: nat)
    requires WellShaped(s, min) && WellShaped(t, min) && Yield(s) == Yield(t)
    ensures s == t
    decreases s
  {
    YieldOdd(s);
    YieldOdd(t);
    if s.Infix? && t.Infix? {
      var k, m := |Yield(s.left)|, |Yield(t.left)|;
      assert Yield(s)[k] == Operator(s.op) && Yield(t)[m] == Operator(t.op);
      if k < m {
        RootIsLast(t, min, k);
        RootIsLast(s, min, m);
      } else if m < k {
        RootIsLast(s, min, m);
        RootIsLast(t, min, k);
      }
      assert Yield(s.left) == Yield(s)[..k] && Yield(s.right) == Yield(s)[k + 1..];
      assert Yield(t.left) == Yield(t)[..m] && Yield(t.right) == Yield(t)[m + 1..];
      UniqueShape(s.left, t.left, Precedence(s.op) - 1);
      UniqueShape(s.right, t.right, Precedence(s.op));
    }
  }

  /** Operators of a shape bind tighter than its bound; the root is the last of the loosest ones. */
  lemma {:induction false} RootIsLast(s: Shape, min: nat, i: nat)
    requires s.Infix? && WellShaped(s, min) && i < |Yield(s)| && Yield(s)[i].Operator?
    ensures i < |Yield(s.left)| ==> Precedence(Yield(s)[i].op) >= Precedence(s.op)
    ensures i > |Yield(s.left)| ==> Precedence(Yield(s)[i].op) > Precedence(s.op)
  {
    var k := |Yield(s.left)|;
    if i < k {
      BindsTighter(s.left, Precedence(s.op) - 1, i);
    } else if i > k {
      BindsTighter(s.right, Precedence(s.op), i - k - 1);
    }
  }

  lemma {:induction false} BindsTighter(s: Shape, min: nat, i: nat)
    requires WellShaped(s, min) && i < |Yield(s)| && Yield(s)[i].Operator?
    ensures Precedence(Yield(s)[i].op) > min
  {
    if s.Infix? {
      var k := |Yield(s.left)|;
      if i < k {
        BindsTighter(s.left, Precedence(s.op) - 1, i);
      } else if i > k {
        BindsTighter(s.right, Precedence(s.op), i - k - 1);
      }
    }
  }
}
