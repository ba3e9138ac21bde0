/** The expression grammar as a relation between tokens and trees, with parentheses around any operand and
    commas between arguments optional. The parser reads a tree without an error exactly when its tokens
    derive it (src/parsing/parser.cpp:374-574). */
module Derivations {
  import opened Tokens
  import opened Decimal
  import opened Ast
  import opened Grammar
  import opened PrecedenceTheorems

  /** What may stand right behind a whole expression. */
  predicate Follows(t: TokenType) { Precedence(t) <= 1 && !IsCallOrMemberOrIndex(t) }

  /** Levels above those of the infix operators: what may stand outside parentheses gets less. */
  const UNARY := 12
  const POSTFIX := 13
  const OPERAND := 14

  /** Prefix operators that a literal takes in. */
  predicate Folds(op: TokenType, e: Expr) {
    e.node.Lit? && ((op.BANG? && e.node.lit.BoolLit?) || ((op.PLUS? || op.MINUS?) && e.node.lit.IntLit?))
  }

  /** The token is a literal of this value; an integer out of range stands for the largest one. */
  predicate Denotes(t: Token, lit: Literal) {
    match lit
    case NilLit => t.ty.NIL?
    case BoolLit(b) => if b then t.ty.TRUE? else t.ty.FALSE?
    case IntLit(n) =>
      && t.ty.INTEGER? && n <= DigitsValue(t.literal, 0) && n <= 0x7FFF_FFFF_FFFF_FFFF
      && (n == DigitsValue(t.literal, 0) || n == 0x7FFF_FFFF_FFFF_FFFF)
    case FloatLit(x, single) => t.ty.FLOAT? && single && x == StrToReal(t.literal)
    case StringLit(s) => t.ty.STRING? && s == t.literal
  }

  /** The tokens from i up to j derive e, whose operators outside parentheses bind tighter than min. */
  ghost predicate Derives(ts: seq<Token>, i: nat, j: nat, e: Expr, min: nat)
    decreases j - i, 3
  {
    && i < j <= |ts| && e.ty.None?
    && (|| OperandDerives(ts, i, j, e)
        || (min <= POSTFIX && PostfixDerives(ts, i, j, e))
        || (min <= UNARY && PrefixDerives(ts, i, j, e))
        || InfixDerives(ts, i, j, e, min))
  }

  /** A literal, a name, a builtin call, or anything in parentheses. The token behind a builtin name is
      taken for a parenthesis. */
  ghost predicate OperandDerives(ts: seq<Token>, i: nat, j: nat, e: Expr)
    requires i < j <= |ts|
    decreases j - i, 2
  {
    || (i + 1 < j && ts[i].ty.LEFT_PAREN? && ts[j - 1].ty.RIGHT_PAREN? && Derives(ts, i + 1, j - 1, e, 1))
    || (e.node.Lit? && j == i + 1 && Denotes(ts[i], e.node.lit))
    || (e.node.Ident? && j == i + 1 && ts[i] == Token(IDENTIFIER, e.node.name))
    || (e.node.BuiltinCall? && i + 3 <= j && ts[i].ty.BUILTIN_IDENTIFIER? && ts[j - 1].ty.RIGHT_PAREN?
        && e.node.builtin == Fresh(Ident(ts[i].literal)) && ListDerives(ts, i + 2, j - 1, e.node.actuals))
  }

  /** Calls, members and indexes, from the left. */
  ghost predicate PostfixDerives(ts: seq<Token>, i: nat, j: nat, e: Expr)
    requires i < j <= |ts|
    decreases j - i, 2
  {
    match e.node
    case Call(fn, args) =>
      exists k :: i < k && k + 1 < j && Derives(ts, i, k, fn, POSTFIX) && ts[k].ty.LEFT_PAREN?
                  && ListDerives(ts, k + 1, j - 1, args) && ts[j - 1].ty.RIGHT_PAREN?
    case Member(obj, member) =>
      exists k :: i < k < j && Derives(ts, i, k, obj, POSTFIX) && ts[k].ty.DOT?
                  && Derives(ts, k + 1, j, member, OPERAND)
    case Index(obj, index) =>
      exists k :: i < k && k + 1 < j && Derives(ts, i, k, obj, POSTFIX) && ts[k].ty.LEFT_BRACKET?
                  && Derives(ts, k + 1, j - 1, index, 1) && ts[j - 1].ty.RIGHT_BRACKET?
    case _ => false
  }

  /** A prefix operator, or a literal that has taken it in. */
  ghost predicate PrefixDerives(ts: seq<Token>, i: nat, j: nat, e: Expr)
    requires i < j <= |ts|
    decreases j - i, 2
  {
    match e.node
    case Unary(op, input) =>
      IsUnaryOp(op) && !Folds(op, input) && ts[i].ty == op && Derives(ts, i + 1, j, input, UNARY)
    case Lit(IntLit(n)) =>
      || (ts[i].ty.PLUS? && Derives(ts, i + 1, j, e, UNARY))
      || (ts[i].ty.MINUS? && Derives(ts, i + 1, j, Fresh(Lit(IntLit(-n))), UNARY))
    case Lit(BoolLit(b)) => ts[i].ty.BANG? && Derives(ts, i + 1, j, Fresh(Lit(BoolLit(!b))), UNARY)
    case _ => false
  }

  /** Two operands, the left one as tight as the operator, the right one tighter. */
  ghost predicate InfixDerives(ts: seq<Token>, i: nat, j: nat, e: Expr, min: nat)
    requires i < j <= |ts|
    decreases j - i, 2
  {
    match e.node
    case Binary(op, left, right) => !IsCompareOp(op) && SidesDerive(ts, i, j, op, left, right, min)
    case Compare(op, left, right) => IsCompareOp(op) && SidesDerive(ts, i, j, op, left, right, min)
    case _ => false
  }

  ghost predicate SidesDerive(ts: seq<Token>, i: nat, j: nat, op: TokenType, left: Expr, right: Expr, min: nat)
    requires i < j <= |ts|
    decreases j - i, 1
  {
    Precedence(op) > min
    && exists k :: i < k < j && Derives(ts, i, k, left, Precedence(op) - 1) && ts[k].ty == op
                   && Derives(ts, k + 1, j, right, Precedence(op))
  }

  /** Arguments, each with a comma behind it or none. Behind an argument stands nothing that could go on
      with it. */
  ghost predicate ListDerives(ts: seq<Token>, i: nat, j: nat, args: seq<Expr>)
    decreases j - i, 4
  {
    if |args| == 0 then i == j
    else exists k :: i < k <= j && j <= |ts| && Derives(ts, i, k, args[0], 1) && Follows(Peek(ts, k))
                     && ListDerives(ts, AfterComma(ts, k, j), j, args[1..])
  }

  function AfterComma(ts: seq<Token>, k: nat, j: nat): (n: nat)
    requires k <= j <= |ts|
    ensures k <= n <= j
  {
    if k < j && ts[k].ty.COMMA? then k + 1 else k
  }

  lemma Loosen(ts: seq<Token>, i: nat, j: nat, e: Expr, min: nat, lower: nat)
    requires Derives(ts, i, j, e, min) && lower <= min
    ensures Derives(ts, i, j, e, lower)
  {
    assert i < j <= |ts|;
    if InfixDerives(ts, i, j, e, min) {
      InfixLoosens(ts, i, j, e, min, lower);
    }
    hide OperandDerives, PostfixDerives, PrefixDerives, InfixDerives;
  }

  lemma InfixLoosens(ts: seq<Token>, i: nat, j: nat, e: Expr, min: nat, lower: nat)
    requires i < j <= |ts| && InfixDerives(ts, i, j, e, min) && lower <= min
    ensures InfixDerives(ts, i, j, e, lower)
  {
    hide Derives, Precedence, IsCompareOp;
  }

  // ---------- What is read is derived ----------

  lemma {:induction false} ParsedDerives(ts: seq<Token>, i: nat)
    requires i <= |ts| && ParseExpression(ts, i).Done? && ParseExpression(ts, i).errs == 0
    ensures var r := ParseExpression(ts, i); Derives(ts, i, r.next, r.val, 1) && Follows(Peek(ts, r.next))
    decreases Left(ts, i), 6
  {
    hide Derives, WellShaped, Reads;
    var c := Climb(ts, i, 1);
    ClimbSound(ts, i, 1);
    ShapeDerives(ts, i, c.val, c.next, 1);
  }

  lemma {:induction false} ShapeDerives(ts: seq<Token>, i: nat, s: Shape, j: nat, min: nat)
    requires i <= |ts| && WellShaped(s, min) && Reads(ts, i, Yield(s), j, 0) && min <= UNARY
    ensures Derives(ts, i, j, ToExpr(s), min) && !IsCallOrMemberOrIndex(Peek(ts, j))
    decreases Left(ts, i), 5, s
  {
    hide Derives, Precedence, IsCallOrMemberOrIndex, ParseUnary;
    match s
    case Atom(e) =>
      UnaryParsed(ts, i);
      Loosen(ts, i, j, e, UNARY, min);
    case Infix(op, left, right) =>
      YieldOdd(left);
      var k, none := ReadsSplit(ts, i, Yield(left), op, Yield(right), j, 0);
      TableEnds(op);
      ShapeDerives(ts, i, left, k, Precedence(op) - 1);
      DerivesMoves(ts, i, k, ToExpr(left), Precedence(op) - 1);
      ShapeDerives(ts, k + 1, right, j, Precedence(op));
      DerivesMoves(ts, k + 1, j, ToExpr(right), Precedence(op));
      SidesTogether(ts, i, k, j, op, ToExpr(left), ToExpr(right), min);
  }

  lemma TableEnds(op: TokenType)
    ensures Precedence(op) <= UNARY
  {
  }

  lemma DerivesMoves(ts: seq<Token>, i: nat, j: nat, e: Expr, min: nat)
    requires Derives(ts, i, j, e, min)
    ensures i < j <= |ts|
  {
  }

  lemma SidesTogether(ts: seq<Token>, i: nat, k: nat, j: nat, op: TokenType, left: Expr, right: Expr, min: nat)
    requires i < k < j <= |ts| && ts[k].ty == op && Precedence(op) > min
    requires Derives(ts, i, k, left, Precedence(op) - 1) && Derives(ts, k + 1, j, right, Precedence(op))
    ensures Derives(ts, i, j, Grammar.Operator(op, left, right), min)
  {
    hide Derives, Precedence, IsCompareOp;
    assert SidesDerive(ts, i, j, op, left, right, min);
    assert InfixDerives(ts, i, j, Grammar.Operator(op, left, right), min);
    InfixIsDerived(ts, i, j, Grammar.Operator(op, left, right), min);
  }

  lemma InfixIsDerived(ts: seq<Token>, i: nat, j: nat, e: Expr, min: nat)
    requires i < j <= |ts| && e.ty.None? && InfixDerives(ts, i, j, e, min)
    ensures Derives(ts, i, j, e, min)
  {
    hide OperandDerives, PostfixDerives, PrefixDerives, InfixDerives;
  }

  lemma {:induction false} UnaryParsed(ts: seq<Token>, i: nat)
    requires i <= |ts| && ParseUnary(ts, i).Done? && ParseUnary(ts, i).errs == 0
    ensures var r := ParseUnary(ts, i); Derives(ts, i, r.next, r.val, UNARY) && !IsCallOrMemberOrIndex(Peek(ts, r.next))
    decreases Left(ts, i), 4
  {
    hide Derives, Fold, ParsePrimary, IsCallOrMemberOrIndex;
    var r := ParseUnary(ts, i);
    if IsUnaryOp(Peek(ts, i)) {
      UnaryParsed(ts, i + 1);
      FoldDerives(ts, i, r.next, ts[i].ty, ParseUnary(ts, i + 1).val);
    } else {
      PrimaryParsed(ts, i);
      Loosen(ts, i, r.next, r.val, POSTFIX, UNARY);
    }
  }

  lemma PrefixIsDerived(ts: seq<Token>, i: nat, j: nat, e: Expr)
    requires i < j <= |ts| && e.ty.None? && PrefixDerives(ts, i, j, e)
    ensures Derives(ts, i, j, e, UNARY)
  {
    hide OperandDerives, PostfixDerives, PrefixDerives, InfixDerives;
  }

  lemma FoldDerives(ts: seq<Token>, i: nat, j: nat, op: TokenType, e: Expr)
    requires i < |ts| && ts[i].ty == op && IsUnaryOp(op) && Derives(ts, i + 1, j, e, UNARY)
    ensures Derives(ts, i, j, Fold(op, e), UNARY)
  {
    DerivesMoves(ts, i + 1, j, e, UNARY);
    Unlabelled(ts, i + 1, j, e, UNARY);
    assert PrefixDerives(ts, i, j, Fold(op, e)) by {
      hide Derives;
      if e.node.Lit? && e.node.lit.IntLit? { assert e == Fresh(Lit(IntLit(-(-e.node.lit.n)))); }
      if e.node.Lit? && e.node.lit.BoolLit? { assert e == Fresh(Lit(BoolLit(!(!e.node.lit.b)))); }
    }
    hide OperandDerives, PostfixDerives, PrefixDerives, InfixDerives;
  }

  lemma Unlabelled(ts: seq<Token>, i: nat, j: nat, e: Expr, min: nat)
    requires Derives(ts, i, j, e, min)
    ensures e == Fresh(e.node)
  {
  }

  lemma {:induction false} PrimaryParsed(ts: seq<Token>, i: nat)
    requires i <= |ts| && ParsePrimary(ts, i).Done? && ParsePrimary(ts, i).errs == 0
    ensures var r := ParsePrimary(ts, i);
            Derives(ts, i, r.next, r.val, POSTFIX) && !IsCallOrMemberOrIndex(Peek(ts, r.next))
    decreases Left(ts, i), 3
  {
    hide Derives, ParseOperand, Postfix, IsCallOrMemberOrIndex;
    var o := ParseOperand(ts, i);
    PostfixSteps(ts, o.next, o.val, o.errs);
    OperandParsed(ts, i);
    Loosen(ts, i, o.next, o.val, OPERAND, POSTFIX);
    PostfixParsed(ts, i, o.next, o.val, o.errs);
  }

  lemma PostfixSteps(ts: seq<Token>, i: nat, e: Expr, errs: nat)
    requires i <= |ts| && Postfix(ts, i, e, errs).Done? && Postfix(ts, i, e, errs).errs == 0
    ensures errs == 0
  {
  }

  lemma {:induction false} PostfixParsed(ts: seq<Token>, from: nat, i: nat, e: Expr, errs: nat)
    requires i <= |ts| && Derives(ts, from, i, e, POSTFIX)
    requires Postfix(ts, i, e, errs).Done? && Postfix(ts, i, e, errs).errs == 0
    ensures var r := Postfix(ts, i, e, errs);
            Derives(ts, from, r.next, r.val, POSTFIX) && !IsCallOrMemberOrIndex(Peek(ts, r.next))
    decreases Left(ts, i), 1
  {
    hide Derives, ListDerives, ParseExpression, ParseOperand, ParseArgs, Follows;
    match Peek(ts, i)
    case LEFT_PAREN =>
      var a := ParseArgs(ts, i + 1, []);
      var args := ArgsParsed(ts, i + 1, []);
      assert [] + args == args;
      CallDerives(ts, from, i, a.next, e, args);
      PostfixParsed(ts, from, a.next, Fresh(Call(e, a.val)), errs + a.errs);
    case DOT =>
      var m := ParseOperand(ts, i + 1);
      OperandParsed(ts, i + 1);
      MemberDerives(ts, from, i, m.next, e, m.val);
      PostfixParsed(ts, from, m.next, Fresh(Member(e, m.val)), errs + m.errs);
    case LEFT_BRACKET =>
      var x := ParseExpression(ts, i + 1);
      ParsedDerives(ts, i + 1);
      PostfixSteps(ts, x.next + 1, Fresh(Index(e, x.val)), errs + x.errs);
      IndexDerives(ts, from, i, x.next + 1, e, x.val);
      PostfixParsed(ts, from, x.next + 1, Fresh(Index(e, x.val)), errs + x.errs);
    case _ =>
  }

  lemma CallDerives(ts: seq<Token>, i: nat, k: nat, j: nat, fn: Expr, args: seq<Expr>)
    requires Derives(ts, i, k, fn, POSTFIX) && k + 1 < j <= |ts| && ts[k].ty.LEFT_PAREN?
    requires ListDerives(ts, k + 1, j - 1, args) && ts[j - 1].ty.RIGHT_PAREN?
    ensures Derives(ts, i, j, Fresh(Call(fn, args)), POSTFIX)
  {
    hide ListDerives;
    DerivesMoves(ts, i, k, fn, POSTFIX);
    PostfixIsDerived(ts, i, j, Fresh(Call(fn, args))) by { hide Derives; }
  }

  lemma MemberDerives(ts: seq<Token>, i: nat, k: nat, j: nat, obj: Expr, member: Expr)
    requires Derives(ts, i, k, obj, POSTFIX) && k < |ts| && ts[k].ty.DOT? && Derives(ts, k + 1, j, member, OPERAND)
    ensures Derives(ts, i, j, Fresh(Member(obj, member)), POSTFIX)
  {
    DerivesMoves(ts, i, k, obj, POSTFIX);
    DerivesMoves(ts, k + 1, j, member, OPERAND);
    PostfixIsDerived(ts, i, j, Fresh(Member(obj, member))) by { hide Derives; }
  }

  lemma IndexDerives(ts: seq<Token>, i: nat, k: nat, j: nat, obj: Expr, index: Expr)
    requires Derives(ts, i, k, obj, POSTFIX) && k + 1 < j <= |ts| && ts[k].ty.LEFT_BRACKET?
    requires Derives(ts, k + 1, j - 1, index, 1) && ts[j - 1].ty.RIGHT_BRACKET?
    ensures Derives(ts, i, j, Fresh(Index(obj, index)), POSTFIX)
  {
    DerivesMoves(ts, i, k, obj, POSTFIX);
    PostfixIsDerived(ts, i, j, Fresh(Index(obj, index))) by { hide Derives; }
  }

  lemma PostfixIsDerived(ts: seq<Token>, i: nat, j: nat, e: Expr)
    requires i < j <= |ts| && e.ty.None? && PostfixDerives(ts, i, j, e)
    ensures Derives(ts, i, j, e, POSTFIX)
  {
    hide OperandDerives, PostfixDerives, PrefixDerives, InfixDerives;
  }

  /** The arguments read from i on. */
  lemma {:induction false} ArgsParsed(ts: seq<Token>, i: nat, done: seq<Expr>) returns (args: seq<Expr>)
    requires i <= |ts| && ParseArgs(ts, i, done).Done? && ParseArgs(ts, i, done).errs == 0
    ensures var r := ParseArgs(ts, i, done);
            && i < r.next <= |ts| && r.val == done + args && ts[r.next - 1].ty.RIGHT_PAREN?
            && ListDerives(ts, i, r.next - 1, args)
    decreases Left(ts, i), 7
  {
    hide Derives, ListDerives, ParseExpression, Follows;
    if Peek(ts, i) == RIGHT_PAREN {
      args := [];
      NoArgs(ts, i);
      assert done + args == done;
    } else {
      var a := ParseExpression(ts, i);
      ParsedDerives(ts, i);
      DerivesMoves(ts, i, a.next, a.val, 1);
      var rest := ArgsParsed(ts, if Peek(ts, a.next) == COMMA then a.next + 1 else a.next, done + [a.val]);
      args := [a.val] + rest;
      assert done + [a.val] + rest == done + args && args[1..] == rest;
      OneArg(ts, i, a.next, ParseArgs(ts, i, done).next - 1, args);
    }
  }

  lemma NoArgs(ts: seq<Token>, i: nat)
    ensures ListDerives(ts, i, i, [])
  {
  }

  lemma OneArg(ts: seq<Token>, i: nat, k: nat, j: nat, args: seq<Expr>)
    requires |args| > 0 && i < k <= j <= |ts| && Derives(ts, i, k, args[0], 1) && Follows(Peek(ts, k))
    requires ListDerives(ts, AfterComma(ts, k, j), j, args[1..])
    ensures ListDerives(ts, i, j, args)
  {
    hide Derives, Follows;
  }

  lemma {:induction false} OperandParsed(ts: seq<Token>, i: nat)
    requires i <= |ts| && ParseOperand(ts, i).Done? && ParseOperand(ts, i).errs == 0
    ensures Derives(ts, i, ParseOperand(ts, i).next, ParseOperand(ts, i).val, OPERAND)
    decreases Left(ts, i), 2
  {
    hide Derives, ListDerives, ParseExpression, ParseArgs, StrToReal, DigitsValue, Follows;
    var r := ParseOperand(ts, i);
    if Peek(ts, i).LEFT_PAREN? {
      var inner := ParseExpression(ts, i + 1);
      ParsedDerives(ts, i + 1);
      Unlabelled(ts, i + 1, inner.next, inner.val, 1);
    } else if Peek(ts, i).BUILTIN_IDENTIFIER? {
      var args := ArgsParsed(ts, Advance(ts, i + 1), []);
      assert [] + args == args;
    }
    assert OperandDerives(ts, i, r.next, r.val);
    OperandIsDerived(ts, i, r.next, r.val);
  }

  lemma OperandIsDerived(ts: seq<Token>, i: nat, j: nat, e: Expr)
    requires i < j <= |ts| && e.ty.None? && OperandDerives(ts, i, j, e)
    ensures Derives(ts, i, j, e, OPERAND)
  {
    hide OperandDerives, PostfixDerives, PrefixDerives, InfixDerives;
  }

  // ---------- What is derived is read ----------

  lemma {:induction false} DerivedParses(ts: seq<Token>, i: nat, j: nat, e: Expr)
    requires Derives(ts, i, j, e, 1) && Follows(Peek(ts, j))
    ensures ParseExpression(ts, i) == Done(e, j, 0)
    decreases j - i, 6
  {
    hide Derives, WellShaped, Reads, Climb, Precedence;
    DerivesMoves(ts, i, j, e, 1);
    var s := ShapeDerived(ts, i, j, e, 1);
    ClimbExact(ts, i, 1, s, j, 0);
    assert Climb(ts, i, 1) == Done(s, j, 0);
  }

  /** The operators outside parentheses make a shape that respects the table, over operands that are read. */
  lemma {:induction false} ShapeDerived(ts: seq<Token>, i: nat, j: nat, e: Expr, min: nat) returns (s: Shape)
    requires Derives(ts, i, j, e, min) && !IsCallOrMemberOrIndex(Peek(ts, j))
    ensures WellShaped(s, min) && ToExpr(s) == e && i <= |ts| && Reads(ts, i, Yield(s), j, 0)
    decreases j - i, 5
  {
    hide Precedence, IsCompareOp, IsCallOrMemberOrIndex, ParseUnary;
    DerivesMoves(ts, i, j, e, min);
    if InfixDerives(ts, i, j, e, min) {
      hide Derives, Reads;
      Unlabelled(ts, i, j, e, min);
      var op, left, right, k := Sides(ts, i, j, e, min);
      OperatorEnds(op);
      DerivesMoves(ts, k + 1, j, right, Precedence(op));
      var l := ShapeDerived(ts, i, k, left, Precedence(op) - 1);
      var r := ShapeDerived(ts, k + 1, j, right, Precedence(op));
      s := Infix(op, l, r);
      ReadsAppend(ts, i, Yield(l), k, 0, op, Yield(r), j, 0);
    } else {
      s := Atom(e);
      NotInfix(ts, i, j, e, min);
      hide Derives;
      UnaryDerived(ts, i, j, e);
    }
  }

  lemma Sides(ts: seq<Token>, i: nat, j: nat, e: Expr, min: nat) returns (op: TokenType, left: Expr, right: Expr, k: nat)
    requires i < j <= |ts| && InfixDerives(ts, i, j, e, min)
    ensures Precedence(op) > min && i < k < j && ts[k].ty == op
    ensures Fresh(e.node) == Grammar.Operator(op, left, right)
    ensures Derives(ts, i, k, left, Precedence(op) - 1) && Derives(ts, k + 1, j, right, Precedence(op))
  {
    hide Derives, Precedence, IsCompareOp;
    if e.node.Binary? {
      op, left, right := e.node.op, e.node.left, e.node.right;
    } else {
      op, left, right := e.node.cmp, e.node.lhs, e.node.rhs;
    }
    assert SidesDerive(ts, i, j, op, left, right, min);
    k :| i < k < j && Derives(ts, i, k, left, Precedence(op) - 1) && ts[k].ty == op
         && Derives(ts, k + 1, j, right, Precedence(op));
  }

  lemma OperatorEnds(op: TokenType)
    requires Precedence(op) > 0
    ensures !IsCallOrMemberOrIndex(op)
  {
  }

  lemma NotInfix(ts: seq<Token>, i: nat, j: nat, e: Expr, min: nat)
    requires i < j <= |ts| && Derives(ts, i, j, e, min) && !InfixDerives(ts, i, j, e, min)
    ensures Derives(ts, i, j, e, UNARY)
  {
    hide OperandDerives, PostfixDerives, PrefixDerives, InfixDerives;
  }

  lemma NoInfixAbove(ts: seq<Token>, i: nat, j: nat, e: Expr, min: nat)
    requires i < j <= |ts| && min >= UNARY
    ensures !InfixDerives(ts, i, j, e, min)
  {
    hide Derives;
  }

  lemma {:induction false} UnaryDerived(ts: seq<Token>, i: nat, j: nat, e: Expr)
    requires Derives(ts, i, j, e, UNARY) && !IsCallOrMemberOrIndex(Peek(ts, j))
    ensures i <= |ts| && ParseUnary(ts, i) == Done(e, j, 0)
    decreases j - i, 4
  {
    hide IsCallOrMemberOrIndex, ParsePrimary, ParseOperand, Postfix, IsUnaryOp;
    DerivesMoves(ts, i, j, e, UNARY);
    if PrefixDerives(ts, i, j, e) {
      hide Derives, Fold;
      Unlabelled(ts, i, j, e, UNARY);
      var input := Input(ts, i, j, e);
      UnaryDerived(ts, i + 1, j, input);
    } else {
      NoInfixAbove(ts, i, j, e, UNARY);
      NotPrefix(ts, i, j, e);
      hide Derives;
      PrimaryDerived(ts, i, j, e);
      PostfixDone(ts, j, e);
    }
  }

  lemma Input(ts: seq<Token>, i: nat, j: nat, e: Expr) returns (input: Expr)
    requires i < j <= |ts| && PrefixDerives(ts, i, j, e) && e == Fresh(e.node)
    ensures IsUnaryOp(ts[i].ty) && Derives(ts, i + 1, j, input, UNARY) && Fold(ts[i].ty, input) == e
  {
    hide Derives;
    match e.node {
      case Unary(_, x) => input := x;
      case Lit(IntLit(n)) => input := if ts[i].ty.PLUS? then e else Fresh(Lit(IntLit(-n)));
      case Lit(BoolLit(b)) => input := Fresh(Lit(BoolLit(!b)));
    }
  }

  lemma NotPrefix(ts: seq<Token>, i: nat, j: nat, e: Expr)
    requires i < j <= |ts| && Derives(ts, i, j, e, UNARY)
    requires !PrefixDerives(ts, i, j, e) && !InfixDerives(ts, i, j, e, UNARY)
    ensures Derives(ts, i, j, e, POSTFIX)
  {
    hide OperandDerives, PostfixDerives, PrefixDerives, InfixDerives;
  }

  lemma PostfixDone(ts: seq<Token>, j: nat, e: Expr)
    requires j <= |ts| && !IsCallOrMemberOrIndex(Peek(ts, j))
    ensures Postfix(ts, j, e, 0) == Done(e, j, 0)
  {
  }

  /** A primary expression is read as far as it goes, and what follows is taken on to it. */
  lemma {:induction false} PrimaryDerived(ts: seq<Token>, i: nat, j: nat, e: Expr)
    requires Derives(ts, i, j, e, POSTFIX)
    ensures i < j <= |ts| && !IsUnaryOp(ts[i].ty) && ts[i].ty != RIGHT_PAREN && ParsePrimary(ts, i) == Postfix(ts, j, e, 0)
    decreases j - i, 3
  {
    hide IsUnaryOp, ParsePrimary, ParseOperand, ParseExpression, ParseArgs, Postfix, ListDerives;
    DerivesMoves(ts, i, j, e, POSTFIX);
    if PostfixDerives(ts, i, j, e) {
      hide Derives;
      Unlabelled(ts, i, j, e, POSTFIX);
      match e.node
      case Call(fn, args) =>
        var k :| i < k && k + 1 < j && Derives(ts, i, k, fn, POSTFIX) && ts[k].ty.LEFT_PAREN?
                 && ListDerives(ts, k + 1, j - 1, args) && ts[j - 1].ty.RIGHT_PAREN?;
        PrimaryDerived(ts, i, k, fn);
        ArgsDerived(ts, k + 1, j - 1, [], args);
        assert [] + args == args;
        CallStep(ts, k, fn, args, j);
      case Member(obj, member) =>
        var k :| i < k < j && Derives(ts, i, k, obj, POSTFIX) && ts[k].ty.DOT?
                 && Derives(ts, k + 1, j, member, OPERAND);
        PrimaryDerived(ts, i, k, obj);
        OperandDerived(ts, k + 1, j, member);
        MemberStep(ts, k, obj, member, j);
      case Index(obj, index) =>
        var k :| i < k && k + 1 < j && Derives(ts, i, k, obj, POSTFIX) && ts[k].ty.LEFT_BRACKET?
                 && Derives(ts, k + 1, j - 1, index, 1) && ts[j - 1].ty.RIGHT_BRACKET?;
        PrimaryDerived(ts, i, k, obj);
        BracketStops(ts, j - 1);
        DerivedParses(ts, k + 1, j - 1, index);
        IndexStep(ts, k, obj, index, j - 1);
    } else {
      NoInfixAbove(ts, i, j, e, POSTFIX);
      NotPostfix(ts, i, j, e);
      hide Derives;
      OperandDerived(ts, i, j, e);
      PrimaryStart(ts, i, e, j);
    }
  }

  lemma PrimaryStart(ts: seq<Token>, i: nat, e: Expr, j: nat)
    requires i <= |ts| && ParseOperand(ts, i) == Done(e, j, 0)
    ensures ParsePrimary(ts, i) == Postfix(ts, j, e, 0)
  {
    hide ParseOperand, Postfix;
  }

  lemma CallStep(ts: seq<Token>, k: nat, fn: Expr, args: seq<Expr>, j: nat)
    requires k < |ts| && ts[k].ty == LEFT_PAREN && ParseArgs(ts, k + 1, []) == Done(args, j, 0)
    ensures Postfix(ts, k, fn, 0) == Postfix(ts, j, Fresh(Call(fn, args)), 0)
  {
    hide ParseArgs;
  }

  lemma IndexStep(ts: seq<Token>, k: nat, obj: Expr, index: Expr, j: nat)
    requires k < j < |ts| && ts[k].ty == LEFT_BRACKET && ts[j].ty == RIGHT_BRACKET
    requires ParseExpression(ts, k + 1) == Done(index, j, 0)
    ensures Postfix(ts, k, obj, 0) == Postfix(ts, j + 1, Fresh(Index(obj, index)), 0)
  {
  }

  lemma MemberStep(ts: seq<Token>, k: nat, obj: Expr, member: Expr, j: nat)
    requires k < |ts| && ts[k].ty == DOT && ParseOperand(ts, k + 1) == Done(member, j, 0)
    ensures Postfix(ts, k, obj, 0) == Postfix(ts, j, Fresh(Member(obj, member)), 0)
  {
    hide ParseOperand;
  }

  lemma BracketStops(ts: seq<Token>, j: nat)
    requires j < |ts| && (ts[j].ty == RIGHT_BRACKET || ts[j].ty == RIGHT_PAREN || ts[j].ty == COMMA)
    ensures Follows(Peek(ts, j))
  {
  }

  lemma NotPostfix(ts: seq<Token>, i: nat, j: nat, e: Expr)
    requires i < j <= |ts| && Derives(ts, i, j, e, POSTFIX)
    requires !PostfixDerives(ts, i, j, e) && !InfixDerives(ts, i, j, e, POSTFIX)
    ensures Derives(ts, i, j, e, OPERAND)
  {
    hide OperandDerives, PostfixDerives, PrefixDerives, InfixDerives;
  }

  lemma {:induction false} OperandDerived(ts: seq<Token>, i: nat, j: nat, e: Expr)
    requires Derives(ts, i, j, e, OPERAND)
    ensures i < j <= |ts| && !IsUnaryOp(ts[i].ty) && ts[i].ty != RIGHT_PAREN && ParseOperand(ts, i) == Done(e, j, 0)
    decreases j - i, 2
  {
    hide ListDerives, ParseExpression, ParseArgs, StrToReal, DigitsValue, Denotes, Follows;
    DerivesMoves(ts, i, j, e, OPERAND);
    NoInfixAbove(ts, i, j, e, OPERAND);
    assert OperandDerives(ts, i, j, e);
    Unlabelled(ts, i, j, e, OPERAND);
    hide Derives;
    if i + 1 < j && ts[i].ty.LEFT_PAREN? && ts[j - 1].ty.RIGHT_PAREN? && Derives(ts, i + 1, j - 1, e, 1) {
      BracketStops(ts, j - 1);
      DerivedParses(ts, i + 1, j - 1, e);
    } else if e.node.BuiltinCall? {
      ArgsDerived(ts, i + 2, j - 1, [], e.node.actuals);
      assert [] + e.node.actuals == e.node.actuals;
    } else if e.node.Lit? {
      LiteralDerived(ts, i, e);
    }
  }

  lemma LiteralDerived(ts: seq<Token>, i: nat, e: Expr)
    requires i < |ts| && e == Fresh(e.node) && e.node.Lit? && Denotes(ts[i], e.node.lit)
    ensures ParseOperand(ts, i) == Done(e, i + 1, 0) && !IsUnaryOp(ts[i].ty) && ts[i].ty != RIGHT_PAREN
  {
    hide StrToReal, DigitsValue;
  }

  lemma {:induction false} ArgsDerived(ts: seq<Token>, i: nat, j: nat, done: seq<Expr>, args: seq<Expr>)
    requires ListDerives(ts, i, j, args) && j < |ts| && ts[j].ty.RIGHT_PAREN?
    ensures i <= j && ParseArgs(ts, i, done) == Done(done + args, j + 1, 0)
    decreases j - i, 7
  {
    hide Derives, ParseExpression, Follows;
    if |args| == 0 {
      assert done + args == done;
    } else {
      hide ParseArgs;
      var k :| i < k <= j && j <= |ts| && Derives(ts, i, k, args[0], 1) && Follows(Peek(ts, k))
               && ListDerives(ts, AfterComma(ts, k, j), j, args[1..]);
      DerivedParses(ts, i, k, args[0]);
      NoClosing(ts, i, k, args[0]);
      ArgsDerived(ts, AfterComma(ts, k, j), j, done + [args[0]], args[1..]);
      assert done + [args[0]] + args[1..] == done + args;
      ArgNext(ts, i, done, args[0], k);
    }
  }

  /** One argument, with the comma behind it if there is one. */
  lemma ArgNext(ts: seq<Token>, i: nat, done: seq<Expr>, e: Expr, k: nat)
    requires i < k < |ts| && !ts[i].ty.RIGHT_PAREN? && ParseExpression(ts, i) == Done(e, k, 0)
    ensures var j := if Peek(ts, k).COMMA? then k + 1 else k;
            var all := ParseArgs(ts, j, done + [e]);
            ParseArgs(ts, i, done) == if all.Done? then Done(all.val, all.next, all.errs) else all
  {
    hide ParseExpression;
  }

  /** A closing parenthesis or bracket starts nothing. */
  lemma ClosingReports(ts: seq<Token>, i: nat)
    requires i < |ts| && (ts[i].ty.RIGHT_PAREN? || ts[i].ty.RIGHT_BRACKET?) && ParseExpression(ts, i).Done?
    ensures ParseExpression(ts, i).errs > 0
  {
    hide Postfix, ClimbOn;
    assert ParseOperand(ts, i) == Done(Fresh(Bad), i + 1, 1);
    assert ParsePrimary(ts, i) == Postfix(ts, i + 1, Fresh(Bad), 1);
    var u := ParseUnary(ts, i);
    assert Climb(ts, i, 1) == ClimbOn(ts, u.next, Atom(u.val), 1, u.errs);
  }

  lemma NoClosing(ts: seq<Token>, i: nat, j: nat, e: Expr)
    requires i < j <= |ts| && ParseExpression(ts, i) == Done(e, j, 0)
    ensures !ts[i].ty.RIGHT_PAREN?
  {
    hide ParseExpression;
    if ts[i].ty.RIGHT_PAREN? {
      ClosingReports(ts, i);
    }
  }

  /** Exactly: the parser reads e from the tokens from i up to j without an error if and only if they
      derive e and the token behind them cannot go on with it. */
  lemma ParsesExactly(ts: seq<Token>, i: nat, e: Expr, j: nat)
    requires i <= |ts|
    ensures ParseExpression(ts, i) == Done(e, j, 0) <==> Derives(ts, i, j, e, 1) && Follows(Peek(ts, j))
  {
    hide ParseExpression, Derives, Follows;
    if ParseExpression(ts, i) == Done(e, j, 0) {
      ParsedDerives(ts, i);
    }
    if Derives(ts, i, j, e, 1) && Follows(Peek(ts, j)) {
      DerivedParses(ts, i, j, e);
    }
  }
}
