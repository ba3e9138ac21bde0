/** Sign folding in the parser (src/parsing/parser.cpp:426-441) and the index check that relies on it
    (src/sema/sema_expr.cpp:228-248). */
module Folding {
  import opened Options
  import opened Types
  import opened Tokens
  import opened Ast
  import opened Scopes
  import opened Grammar
  import opened Printing
  import opened Decimal
  import opened Derivations
  import opened RoundTrip
  import opened Sema

  // ---------- The range of literals ----------

  /** Every integer literal can be negated without overflow. */
  predicate InRange(e: Expr)
    decreases e
  {
    match e.node
    case Lit(lit) => lit.IntLit? ==> -INT64_MAX <= lit.n <= INT64_MAX
    case Ident(_) => true
    case Binary(_, left, right) => InRange(left) && InRange(right)
    case Compare(_, left, right) => InRange(left) && InRange(right)
    case Unary(_, input) => InRange(input)
    case Call(fn, args) => InRange(fn) && forall i :: 0 <= i < |args| ==> InRange(args[i])
    case BuiltinCall(fn, args) => InRange(fn) && forall i :: 0 <= i < |args| ==> InRange(args[i])
    case Index(obj, index) => InRange(obj) && InRange(index)
    case Member(obj, member) => InRange(obj) && InRange(member)
    case Cast(_, input) => InRange(input)
    case Bad => true
  }

  predicate AllInRange(es: seq<Expr>) { forall i :: 0 <= i < |es| ==> InRange(es[i]) }

  predicate ShapeInRange(s: Shape) {
    match s
    case Atom(e) => InRange(e)
    case Infix(_, left, right) => ShapeInRange(left) && ShapeInRange(right)
  }

  lemma {:induction false} ToExprInRange(s: Shape)
    requires ShapeInRange(s)
    ensures InRange(ToExpr(s))
  {
    if s.Infix? {
      ToExprInRange(s.left);
      ToExprInRange(s.right);
    }
  }

  /** Every integer literal the parser builds, on any token stream, lies between -(2^63 - 1) and 2^63 - 1. */
  lemma {:induction false} ParsedInRange(ts: seq<Token>, i: nat)
    requires i <= |ts| && ParseExpression(ts, i).Done?
    ensures InRange(ParseExpression(ts, i).val)
    decreases Left(ts, i), 6
  {
    hide InRange;
    ClimbInRange(ts, i, 1);
    ToExprInRange(Climb(ts, i, 1).val);
  }

  lemma {:induction false} ClimbInRange(ts: seq<Token>, i: nat, min: nat)
    requires i <= |ts| && Climb(ts, i, min).Done?
    ensures ShapeInRange(Climb(ts, i, min).val)
    decreases Left(ts, i), 5
  {
    hide InRange;
    UnaryInRange(ts, i);
    var u := ParseUnary(ts, i);
    ClimbOnInRange(ts, u.next, Atom(u.val), min, u.errs);
  }

  lemma {:induction false} ClimbOnInRange(ts: seq<Token>, i: nat, left: Shape, min: nat, errs: nat)
    requires i <= |ts| && ShapeInRange(left) && ClimbOn(ts, i, left, min, errs).Done?
    ensures ShapeInRange(ClimbOn(ts, i, left, min, errs).val)
    decreases Left(ts, i), 1
  {
    var op := Peek(ts, i);
    if Precedence(op) > min {
      ClimbInRange(ts, i + 1, Precedence(op));
      var r := Climb(ts, i + 1, Precedence(op));
      ClimbOnInRange(ts, r.next, Infix(op, left, r.val), min, errs + r.errs);
    }
  }

  lemma {:induction false} UnaryInRange(ts: seq<Token>, i: nat)
    requires i <= |ts| && ParseUnary(ts, i).Done?
    ensures InRange(ParseUnary(ts, i).val)
    decreases Left(ts, i), 4
  {
    hide ParsePrimary, InRange;
    if IsUnaryOp(Peek(ts, i)) {
      UnaryInRange(ts, i + 1);
      FoldInRange(Peek(ts, i), ParseUnary(ts, i + 1).val);
    } else {
      PrimaryInRange(ts, i);
    }
  }

  lemma FoldInRange(op: TokenType, e: Expr)
    requires InRange(e)
    ensures InRange(Fold(op, e))
  {
  }

  lemma {:induction false} PrimaryInRange(ts: seq<Token>, i: nat)
    requires i <= |ts| && ParsePrimary(ts, i).Done?
    ensures InRange(ParsePrimary(ts, i).val)
    decreases Left(ts, i), 3
  {
    hide ParseOperand, Postfix, InRange;
    OperandInRange(ts, i);
    var o := ParseOperand(ts, i);
    PostfixInRange(ts, o.next, o.val, o.errs);
  }

  lemma {:induction false} PostfixInRange(ts: seq<Token>, i: nat, e: Expr, errs: nat)
    requires i <= |ts| && InRange(e) && Postfix(ts, i, e, errs).Done?
    ensures InRange(Postfix(ts, i, e, errs).val)
    decreases Left(ts, i), 1
  {
    hide ParseExpression, ParseOperand, ParseArgs;
    if Peek(ts, i).LEFT_PAREN? {
      ArgsInRange(ts, i + 1, []);
      var a := ParseArgs(ts, i + 1, []);
      PostfixInRange(ts, a.next, Fresh(Call(e, a.val)), errs + a.errs);
    } else if Peek(ts, i).DOT? {
      OperandInRange(ts, i + 1);
      var m := ParseOperand(ts, i + 1);
      PostfixInRange(ts, m.next, Fresh(Member(e, m.val)), errs + m.errs);
    } else if Peek(ts, i).LEFT_BRACKET? {
      ParsedInRange(ts, i + 1);
      var x := ParseExpression(ts, i + 1);
      PostfixInRange(ts, Advance(ts, x.next), Fresh(Index(e, x.val)), errs + x.errs + Expect(ts, x.next, RIGHT_BRACKET));
    }
  }

  lemma {:induction false} ArgsInRange(ts: seq<Token>, i: nat, args: seq<Expr>)
    requires i <= |ts| && AllInRange(args) && ParseArgs(ts, i, args).Done?
    ensures AllInRange(ParseArgs(ts, i, args).val)
    decreases Left(ts, i), 7
  {
    hide ParseExpression, InRange;
    if Peek(ts, i) != RIGHT_PAREN {
      ParsedInRange(ts, i);
      var a := ParseExpression(ts, i);
      ArgsInRange(ts, if Peek(ts, a.next) == COMMA then a.next + 1 else a.next, args + [a.val]);
    }
  }

  lemma {:induction false} OperandInRange(ts: seq<Token>, i: nat)
    requires i <= |ts| && ParseOperand(ts, i).Done?
    ensures InRange(ParseOperand(ts, i).val)
    decreases Left(ts, i), 2
  {
    hide ParseExpression, ParseArgs, StrToReal, StrToInt64;
    if Peek(ts, i).LEFT_PAREN? {
      ParsedInRange(ts, i + 1);
    } else if Peek(ts, i).BUILTIN_IDENTIFIER? {
      ArgsInRange(ts, Advance(ts, i + 1), []);
    }
  }

  // ---------- Sign chains ----------

  predicate AreSigns(signs: seq<TokenType>) {
    forall i :: 0 <= i < |signs| ==> signs[i].PLUS? || signs[i].MINUS?
  }

  /** -1 for an odd number of minus signs. */
  function SignOf(signs: seq<TokenType>): int {
    if |signs| == 0 then 1 else (if signs[0].MINUS? then -1 else 1) * SignOf(signs[1..])
  }

  function Marks(signs: seq<TokenType>): (r: seq<Token>)
    ensures |r| == |signs|
    ensures forall i :: 0 <= i < |signs| ==> r[i].ty == signs[i]
  {
    if |signs| == 0 then [] else [Token(signs[0], "")] + Marks(signs[1..])
  }

  function Folded(signs: seq<TokenType>, digits: string): int { SignOf(signs) * StrToInt64(digits) }

  /** One more sign in front. */
  lemma SignFolds(ts: seq<Token>, i: nat, n: int, j: nat)
    requires i < |ts| && (ts[i].ty.PLUS? || ts[i].ty.MINUS?) && Derives(ts, i + 1, j, Fresh(Lit(IntLit(n))), UNARY)
    ensures Derives(ts, i, j, Fresh(Lit(IntLit(if ts[i].ty.MINUS? then -n else n))), UNARY)
  {
    hide Derives;
    FoldDerives(ts, i, j, ts[i].ty, Fresh(Lit(IntLit(n))));
  }

  lemma NoSigns(digits: string)
    ensures Folded([], digits) == StrToInt64(digits)
  {
  }

  lemma SignTimes(signs: seq<TokenType>, digits: string)
    requires |signs| > 0
    ensures Folded(signs, digits) == if signs[0].MINUS? then -Folded(signs[1..], digits) else Folded(signs[1..], digits)
  {
    hide StrToInt64;
    var s, v := SignOf(signs[1..]), StrToInt64(digits);
    assert (-1 * s) * v == -(s * v);
  }

  /** Any chain of signs before an integer derives one literal of the signed, saturated value. */
  lemma {:induction false} ChainDerives(ts: seq<Token>, i: nat, signs: seq<TokenType>, digits: string)
    requires AreSigns(signs) && Stands(ts, i, Marks(signs) + [Token(INTEGER, digits)])
    ensures Derives(ts, i, i + |signs| + 1, Fresh(Lit(IntLit(Folded(signs, digits)))), UNARY)
    decreases |signs|
  {
    hide Stands, Derives, SignOf, Folded;
    if |signs| == 0 {
      assert signs == [] && Marks(signs) == [];
      assert Marks(signs) + [Token(INTEGER, digits)] == [Token(INTEGER, digits)];
      NoChain(ts, i, digits);
    } else {
      ChainParts(ts, i, signs, digits);
      ChainDerives(ts, i + 1, signs[1..], digits);
      SignFolds(ts, i, Folded(signs[1..], digits), i + |signs| + 1);
      SignTimes(signs, digits);
    }
  }

  /** Any chain of signs before an integer folds to one literal of the signed, saturated value. */
  lemma ChainFolds(ts: seq<Token>, i: nat, signs: seq<TokenType>, digits: string)
    requires AreSigns(signs) && Stands(ts, i, Marks(signs) + [Token(INTEGER, digits)])
    requires !IsCallOrMemberOrIndex(Peek(ts, i + |signs| + 1))
    ensures i + |signs| + 1 <= |ts|
    ensures ParseUnary(ts, i) == Done(Fresh(Lit(IntLit(Folded(signs, digits)))), i + |signs| + 1, 0)
  {
    hide Stands, Derives, ParseUnary, Folded, IsCallOrMemberOrIndex;
    var e := Fresh(Lit(IntLit(Folded(signs, digits))));
    ChainDerives(ts, i, signs, digits);
    DerivesMoves(ts, i, i + |signs| + 1, e, UNARY);
    UnaryDerived(ts, i, i + |signs| + 1, e);
  }

  lemma NoChain(ts: seq<Token>, i: nat, digits: string)
    requires Stands(ts, i, [Token(INTEGER, digits)])
    ensures Derives(ts, i, i + 1, Fresh(Lit(IntLit(Folded([], digits)))), UNARY)
  {
    hide Derives, DigitsValue;
    var e := Fresh(Lit(IntLit(StrToInt64(digits))));
    NoSigns(digits);
    StandsOne(ts, i, Token(INTEGER, digits));
    assert OperandDerives(ts, i, i + 1, e);
    OperandIsDerived(ts, i, i + 1, e);
    Loosen(ts, i, i + 1, e, OPERAND, UNARY);
  }

  lemma MarksSplit(signs: seq<TokenType>, d: Token)
    requires |signs| > 0
    ensures Marks(signs) + [d] == [Token(signs[0], "")] + (Marks(signs[1..]) + [d])
  {
    var first, more := [Token(signs[0], "")], Marks(signs[1..]);
    assert Marks(signs) == first + more;
    hide Marks;
    assert first + more + [d] == first + (more + [d]);
  }

  lemma ChainParts(ts: seq<Token>, i: nat, signs: seq<TokenType>, digits: string)
    requires |signs| > 0 && Stands(ts, i, Marks(signs) + [Token(INTEGER, digits)])
    ensures i < |ts| && ts[i].ty == signs[0] && Stands(ts, i + 1, Marks(signs[1..]) + [Token(INTEGER, digits)])
  {
    hide Stands, Marks;
    var first, rest := [Token(signs[0], "")], Marks(signs[1..]) + [Token(INTEGER, digits)];
    MarksSplit(signs, Token(INTEGER, digits));
    StandsSplit(ts, i, first, rest);
    StandsOne(ts, i, first[0]);
  }

  // ---------- The index check ----------

  /** obj[signs digits] as tokens. */
  function IndexToks(obj: Expr, signs: seq<TokenType>, digits: string): seq<Token>
    requires Printable(obj)
  {
    Toks(obj) + [Token(LEFT_BRACKET, "")] + (Marks(signs) + [Token(INTEGER, digits)]) + [Token(RIGHT_BRACKET, "")]
  }

  lemma IndexParses(obj: Expr, signs: seq<TokenType>, digits: string)
    requires NormalPostfix(obj) && Printable(obj) && AreSigns(signs)
    ensures var ts := IndexToks(obj, signs, digits);
            ParseExpression(ts, 0) == Done(Fresh(Index(obj, Fresh(Lit(IntLit(Folded(signs, digits)))))), |ts|, 0)
  {
    hide Folded, Derives, ParseExpression, Toks, Stands, NormalPostfix, Printable;
    var ts := IndexToks(obj, signs, digits);
    var chain := Marks(signs) + [Token(INTEGER, digits)];
    var n := Fresh(Lit(IntLit(Folded(signs, digits))));
    var e := Fresh(Index(obj, n));
    var k := |Toks(obj)|;
    WholeStream(ts);
    StandsBracket(ts, 0, Toks(obj), Token(LEFT_BRACKET, ""), chain, Token(RIGHT_BRACKET, ""));
    PostfixRebuilds(ts, 0, obj);
    ChainDerives(ts, k + 1, signs, digits);
    Loosen(ts, k + 1, |ts| - 1, n, UNARY, 1);
    IndexDerives(ts, 0, k, |ts|, obj, n);
    Loosen(ts, 0, |ts|, e, POSTFIX, 1);
    DerivedParses(ts, 0, |ts|, e);
  }

  /** The bounds check on a literal index: one error, unless the value lies within the array. */
  lemma LiteralIndex(env: Env, obj: Expr, n: int, length: nat, elem: Type)
    requires length > 0 && -INT64_MAX <= n <= INT64_MAX
    requires Visit(env, obj).Checked? && Visit(env, obj).e.ty == Some(Array(length, elem))
    ensures var v := Visit(env, Fresh(Index(obj, Fresh(Lit(IntLit(n))))));
            && v.Checked?
            && v.errs == Visit(env, obj).errs
                         + (if n < 0 then [NegativeArrayIndexValue] else if n >= length then [OutOfBoundsArrayIndexValue] else [])
            && v.e.ty == if 0 <= n < length then Some(elem) else None
  {
    hide VisitCall, VisitBinary, VisitCompare, VisitMember, ResolveName;
    var i := Fresh(Lit(IntLit(n)));
    assert Visit(env, i) == Checked(Expr(i.node, Some(NaturalType(i.node.lit))), []);
  }

  /** Folding and the bounds check agree: whatever expression has an array type of known length, a sign
      chain is accepted as its index exactly when the folded value lies within the array, and is reported
      exactly once otherwise. */
  lemma {:induction false} IndexAccepted(
      env: Env, obj: Expr, length: nat, elem: Type, signs: seq<TokenType>, digits: string)
    requires NormalPostfix(obj) && Printable(obj) && AreSigns(signs) && length > 0
    requires Visit(env, obj).Checked? && Visit(env, obj).e.ty == Some(Array(length, elem)) && Visit(env, obj).errs == []
    ensures var p := ParseExpression(IndexToks(obj, signs, digits), 0);
            && p.Done? && p.errs == 0 && Visit(env, p.val).Checked?
            && var v := Visit(env, p.val);
               && (|v.errs| == 0 <==> 0 <= Folded(signs, digits) < length)
               && (|v.errs| == 0 <==> v.e.ty == Some(elem))
               && |v.errs| <= 1
  {
    hide Folded, Visit, ParseExpression, IndexToks, NormalPostfix, Printable;
    IndexParses(obj, signs, digits);
    FoldedInRange(signs, digits);
    LiteralIndex(env, obj, Folded(signs, digits), length, elem);
  }

  lemma FoldedInRange(signs: seq<TokenType>, digits: string)
    ensures -INT64_MAX <= Folded(signs, digits) <= INT64_MAX
  {
    hide StrToInt64, SignOf;
    SignIsOne(signs);
  }

  lemma {:induction false} SignIsOne(signs: seq<TokenType>)
    ensures SignOf(signs) == 1 || SignOf(signs) == -1
  {
    if |signs| > 0 { SignIsOne(signs[1..]); }
  }
}
