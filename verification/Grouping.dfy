/** Grouping parentheses: with them every tree the parser can build comes back from tokens. */
module Grouping {
  import opened Tokens
  import opened Decimal
  import opened Ast
  import opened Grammar
  import opened Printing
  import opened RoundTrip
  import opened Derivations

  // ---------- The trees of the parser ----------

  /** No labels, no casts, operators in their classes, literals in range, and no prefix operator that the
      parser would have folded into its literal. */
  predicate IsTree(e: Expr)
    decreases e
  {
    e.ty.None? &&
    match e.node
    case Lit(lit) => lit.IntLit? ==> -INT64_MAX <= lit.n <= INT64_MAX
    case Ident(_) => true
    case Binary(op, left, right) => IsInfix(op) && !IsCompareOp(op) && IsTree(left) && IsTree(right)
    case Compare(op, left, right) => IsInfix(op) && IsCompareOp(op) && IsTree(left) && IsTree(right)
    case Unary(op, input) => IsUnaryOp(op) && IsTree(input) && !Folds(op, input)
    case Call(fn, args) => IsTree(fn) && AreTrees(args)
    case BuiltinCall(fn, args) => fn.ty.None? && fn.node.Ident? && AreTrees(args)
    case Index(obj, index) => IsTree(obj) && IsTree(index)
    case Member(obj, member) => IsTree(obj) && IsTree(member)
    case Cast(_, _) => false
    case Bad => false
  }

  predicate AreTrees(es: seq<Expr>)
    decreases es
  {
    forall i :: 0 <= i < |es| ==> IsTree(es[i])
  }

  /** Whatever tokens derive is such a tree. */
  lemma {:induction false} DerivedIsTree(ts: seq<Token>, i: nat, j: nat, e: Expr, min: nat)
    requires Derives(ts, i, j, e, min) && min >= 1
    ensures IsTree(e)
    decreases j - i, 1
  {
    Unlabelled(ts, i, j, e, min);
    DerivesMoves(ts, i, j, e, min);
    hide IsTree;
    if OperandDerives(ts, i, j, e) {
      OperandIsTree(ts, i, j, e);
    } else if PostfixDerives(ts, i, j, e) {
      PostfixIsTree(ts, i, j, e);
    } else if PrefixDerives(ts, i, j, e) {
      PrefixIsTree(ts, i, j, e);
    } else {
      assert InfixDerives(ts, i, j, e, min);
      InfixIsTree(ts, i, j, e, min);
    }
  }

  lemma {:induction false} OperandIsTree(ts: seq<Token>, i: nat, j: nat, e: Expr)
    requires i < j <= |ts| && e.ty.None? && OperandDerives(ts, i, j, e)
    ensures IsTree(e)
    decreases j - i, 0
  {
    hide Derives, ListDerives, StrToReal, DigitsValue;
    if i + 1 < j && Derives(ts, i + 1, j - 1, e, 1) {
      DerivedIsTree(ts, i + 1, j - 1, e, 1);
    } else if e.node.BuiltinCall? {
      ListIsTrees(ts, i + 2, j - 1, e.node.actuals);
    }
  }

  lemma {:induction false} PostfixIsTree(ts: seq<Token>, i: nat, j: nat, e: Expr)
    requires i < j <= |ts| && e.ty.None? && PostfixDerives(ts, i, j, e)
    ensures IsTree(e)
    decreases j - i, 0
  {
    hide Derives, ListDerives;
    match e.node
    case Call(fn, args) =>
      var k :| i < k && k + 1 < j && Derives(ts, i, k, fn, POSTFIX) && ts[k].ty.LEFT_PAREN?
               && ListDerives(ts, k + 1, j - 1, args) && ts[j - 1].ty.RIGHT_PAREN?;
      DerivedIsTree(ts, i, k, fn, POSTFIX);
      ListIsTrees(ts, k + 1, j - 1, args);
    case Member(obj, member) =>
      var k :| i < k < j && Derives(ts, i, k, obj, POSTFIX) && ts[k].ty.DOT? && Derives(ts, k + 1, j, member, OPERAND);
      DerivedIsTree(ts, i, k, obj, POSTFIX);
      DerivedIsTree(ts, k + 1, j, member, OPERAND);
    case Index(obj, index) =>
      var k :| i < k && k + 1 < j && Derives(ts, i, k, obj, POSTFIX) && ts[k].ty.LEFT_BRACKET?
               && Derives(ts, k + 1, j - 1, index, 1) && ts[j - 1].ty.RIGHT_BRACKET?;
      DerivedIsTree(ts, i, k, obj, POSTFIX);
      DerivedIsTree(ts, k + 1, j - 1, index, 1);
  }

  lemma {:induction false} PrefixIsTree(ts: seq<Token>, i: nat, j: nat, e: Expr)
    requires i < j <= |ts| && e.ty.None? && PrefixDerives(ts, i, j, e)
    ensures IsTree(e)
    decreases j - i, 0
  {
    hide Derives;
    match e.node
    case Unary(op, input) => DerivedIsTree(ts, i + 1, j, input, UNARY);
    case Lit(IntLit(n)) =>
      if Derives(ts, i + 1, j, e, UNARY) {
        DerivedIsTree(ts, i + 1, j, e, UNARY);
      } else {
        DerivedIsTree(ts, i + 1, j, Fresh(Lit(IntLit(-n))), UNARY);
      }
    case Lit(BoolLit(b)) =>
  }

  lemma {:induction false} InfixIsTree(ts: seq<Token>, i: nat, j: nat, e: Expr, min: nat)
    requires i < j <= |ts| && e.ty.None? && min >= 1 && InfixDerives(ts, i, j, e, min)
    ensures IsTree(e)
    decreases j - i, 0
  {
    hide Derives, IsCompareOp;
    var op, left, right, k := Sides(ts, i, j, e, min);
    DerivedIsTree(ts, i, k, left, Precedence(op) - 1);
    DerivedIsTree(ts, k + 1, j, right, Precedence(op));
  }

  lemma {:induction false} ListIsTrees(ts: seq<Token>, i: nat, j: nat, args: seq<Expr>)
    requires ListDerives(ts, i, j, args)
    ensures AreTrees(args)
    decreases j - i, 2
  {
    hide Derives, Follows, IsTree;
    if |args| > 0 {
      var k :| i < k <= j && j <= |ts| && Derives(ts, i, k, args[0], 1) && Follows(Peek(ts, k))
               && ListDerives(ts, AfterComma(ts, k, j), j, args[1..]);
      DerivedIsTree(ts, i, k, args[0], 1);
      ListIsTrees(ts, AfterComma(ts, k, j), j, args[1..]);
      assert forall n :: 0 < n < |args| ==> args[n] == args[1..][n - 1];
    }
  }

  /** So whatever the parser builds without an error, from any tokens, is such a tree. */
  lemma ParsedIsTree(ts: seq<Token>, i: nat)
    requires i <= |ts| && ParseExpression(ts, i).Done? && ParseExpression(ts, i).errs == 0
    ensures IsTree(ParseExpression(ts, i).val)
  {
    hide ParseExpression, Derives, IsTree, Follows;
    ParsedDerives(ts, i);
    DerivedIsTree(ts, i, ParseExpression(ts, i).next, ParseExpression(ts, i).val, 1);
  }

  // ---------- Writing trees with parentheses ----------

  /** The tokens of a tree with every operand in parentheses. */
  function Grouped(e: Expr): seq<Token>
    requires Printable(e)
    decreases e, 1
  {
    match e.node
    case Lit(lit) => LiteralToks(lit)
    case Ident(name) => [Token(IDENTIFIER, name)]
    case Binary(op, left, right) => Parens(left) + [Sign(op)] + Parens(right)
    case Compare(op, left, right) => Parens(left) + [Sign(op)] + Parens(right)
    case Unary(op, input) => [Sign(op)] + Parens(input)
    case Call(fn, args) => Parens(fn) + [Sign(LEFT_PAREN)] + (GroupedArgs(args) + [Sign(RIGHT_PAREN)])
    case BuiltinCall(fn, args) =>
      [Token(BUILTIN_IDENTIFIER, fn.node.name)] + [Sign(LEFT_PAREN)] + (GroupedArgs(args) + [Sign(RIGHT_PAREN)])
    case Index(obj, index) => Parens(obj) + [Sign(LEFT_BRACKET)] + Grouped(index) + [Sign(RIGHT_BRACKET)]
    case Member(obj, member) => Parens(obj) + [Sign(DOT)] + Parens(member)
    case Cast(_, input) => Parens(input)
  }

  function LiteralToks(lit: Literal): seq<Token>
    requires !lit.FloatLit?
  {
    match lit
    case NilLit => [Sign(NIL)]
    case BoolLit(b) => [Sign(if b then TRUE else FALSE)]
    case StringLit(s) => [Token(STRING, s)]
    case IntLit(n) => if n < 0 then [Sign(MINUS)] + [Token(INTEGER, Dec(-n))] else [Token(INTEGER, Dec(n))]
  }

  function Parens(e: Expr): seq<Token>
    requires Printable(e)
    decreases e, 2
  {
    [Sign(LEFT_PAREN)] + Grouped(e) + [Sign(RIGHT_PAREN)]
  }

  function GroupedArgs(args: seq<Expr>): seq<Token>
    requires forall i :: 0 <= i < |args| ==> Printable(args[i])
    decreases args
  {
    if |args| == 0 then []
    else if |args| == 1 then Grouped(args[0])
    else Grouped(args[0]) + [Sign(COMMA)] + GroupedArgs(args[1..])
  }

  // ---------- Reading them back ----------

  lemma {:induction false} ParensDerive(ts: seq<Token>, i: nat, e: Expr)
    requires IsTree(e) && Printable(e) && Stands(ts, i, Parens(e))
    ensures Derives(ts, i, i + |Parens(e)|, e, OPERAND)
    decreases e, 2
  {
    hide Stands, Grouped, Derives, Follows, IsTree, Printable;
    assert Parens(e) == [] + [Sign(LEFT_PAREN)] + Grouped(e) + [Sign(RIGHT_PAREN)];
    StandsBracket(ts, i, [], Sign(LEFT_PAREN), Grouped(e), Sign(RIGHT_PAREN));
    GroupedDerives(ts, i + 1, e);
    var j := i + 1 + |Grouped(e)|;
    Unlabelled(ts, i + 1, j, e, 1);
    DerivesMoves(ts, i + 1, j, e, 1);
    assert OperandDerives(ts, i, j + 1, e);
    OperandIsDerived(ts, i, j + 1, e);
  }

  /** The grouped tokens of a tree derive it. */
  lemma {:induction false} GroupedDerives(ts: seq<Token>, i: nat, e: Expr)
    requires IsTree(e) && Printable(e) && Stands(ts, i, Grouped(e))
    ensures Derives(ts, i, i + |Grouped(e)|, e, 1)
    decreases e, 1
  {
    hide Stands, Grouped, Derives, IsTree, Parens, GroupedArgs;
    match e.node
    case Lit(_) => LiteralDerives(ts, i, e);
    case Ident(_) => NameDerives(ts, i, e);
    case Binary(op, left, right) => InfixDerive(ts, i, e, op, left, right);
    case Compare(op, left, right) => InfixDerive(ts, i, e, op, left, right);
    case Unary(_, _) => PrefixDerive(ts, i, e);
    case Call(_, _) => CallDerive(ts, i, e);
    case BuiltinCall(_, _) => BuiltinDerive(ts, i, e);
    case Index(_, _) => IndexDerive(ts, i, e);
    case Member(_, _) => MemberDerive(ts, i, e);
    case Cast(_, _) => NoCast(e);
  }

  lemma NoCast(e: Expr)
    requires IsTree(e)
    ensures !e.node.Cast?
  {
  }

  lemma LiteralDerives(ts: seq<Token>, i: nat, e: Expr)
    requires e.node.Lit? && IsTree(e) && Printable(e) && Stands(ts, i, Grouped(e))
    ensures Derives(ts, i, i + |Grouped(e)|, e, 1)
  {
    hide Stands, Dec, DigitsValue, Derives;
    var lit := e.node.lit;
    if lit.IntLit? && lit.n < 0 {
      StandsSplit(ts, i, [Sign(MINUS)], [Token(INTEGER, Dec(-lit.n))]);
      StandsOne(ts, i, Sign(MINUS));
      StandsOne(ts, i + 1, Token(INTEGER, Dec(-lit.n)));
      PlainDerives(ts, i + 1, IntLit(-lit.n));
      NegativeDerives(ts, i, e);
    } else {
      StandsOne(ts, i, LiteralToks(lit)[0]);
      assert LiteralToks(lit) == [LiteralToks(lit)[0]];
      PlainDerives(ts, i, lit);
      Loosen(ts, i, i + 1, e, OPERAND, 1);
    }
  }

  lemma PlainDerives(ts: seq<Token>, i: nat, lit: Literal)
    requires !lit.FloatLit? && (lit.IntLit? ==> 0 <= lit.n <= INT64_MAX)
    requires i < |ts| && ts[i] == LiteralToks(lit)[0]
    ensures Derives(ts, i, i + 1, Fresh(Lit(lit)), OPERAND)
  {
    hide Dec, DigitsValue, Derives, StrToReal;
    if lit.IntLit? { ValueOfDec(lit.n); }
    assert OperandDerives(ts, i, i + 1, Fresh(Lit(lit)));
    OperandIsDerived(ts, i, i + 1, Fresh(Lit(lit)));
  }

  lemma NegativeDerives(ts: seq<Token>, i: nat, e: Expr)
    requires e == Fresh(e.node) && e.node.Lit? && e.node.lit.IntLit? && i + 1 < |ts| && ts[i].ty.MINUS?
    requires Derives(ts, i + 1, i + 2, Fresh(Lit(IntLit(-e.node.lit.n))), OPERAND)
    ensures Derives(ts, i, i + 2, e, 1)
  {
    hide Derives;
    var number := Fresh(Lit(IntLit(-e.node.lit.n)));
    Loosen(ts, i + 1, i + 2, number, OPERAND, UNARY);
    FoldDerives(ts, i, i + 2, MINUS, number);
    assert Fold(MINUS, number) == e;
    Loosen(ts, i, i + 2, e, UNARY, 1);
  }

  lemma NameDerives(ts: seq<Token>, i: nat, e: Expr)
    requires e.node.Ident? && IsTree(e) && Printable(e) && Stands(ts, i, Grouped(e))
    ensures Derives(ts, i, i + |Grouped(e)|, e, 1)
  {
    hide Stands, Derives;
    StandsOne(ts, i, Token(IDENTIFIER, e.node.name));
    assert OperandDerives(ts, i, i + 1, e);
    OperandIsDerived(ts, i, i + 1, e);
    Loosen(ts, i, i + 1, e, OPERAND, 1);
  }

  lemma {:induction false} PrefixDerive(ts: seq<Token>, i: nat, e: Expr)
    requires e.node.Unary? && IsTree(e) && Printable(e) && Stands(ts, i, Grouped(e))
    ensures Derives(ts, i, i + |Grouped(e)|, e, 1)
    decreases e, 0
  {
    hide Stands, Parens, Derives;
    var op, input := e.node.prefix, e.node.input;
    var j := i + |Grouped(e)|;
    StandsSplit(ts, i, [Sign(op)], Parens(input));
    StandsOne(ts, i, Sign(op));
    ParensDerive(ts, i + 1, input);
    DerivesMoves(ts, i + 1, j, input, OPERAND);
    Loosen(ts, i + 1, j, input, OPERAND, UNARY);
    assert PrefixDerives(ts, i, j, e);
    PrefixIsDerived(ts, i, j, e);
    Loosen(ts, i, j, e, UNARY, 1);
  }

  lemma {:induction false} InfixDerive(ts: seq<Token>, i: nat, e: Expr, op: TokenType, left: Expr, right: Expr)
    requires e.node == Binary(op, left, right) || e.node == Compare(op, left, right)
    requires IsTree(e) && Printable(e) && Stands(ts, i, Grouped(e))
    ensures Derives(ts, i, i + |Grouped(e)|, e, 1)
    decreases e, 0
  {
    hide Stands, Parens, Derives, Precedence;
    var k, j := i + |Parens(left)|, i + |Grouped(e)|;
    StandsThree(ts, i, Parens(left), Sign(op), Parens(right));
    ParensDerive(ts, i, left);
    ParensDerive(ts, k + 1, right);
    DerivesMoves(ts, i, k, left, OPERAND);
    DerivesMoves(ts, k + 1, j, right, OPERAND);
    TableEnds(op);
    Loosen(ts, i, k, left, OPERAND, Precedence(op) - 1);
    Loosen(ts, k + 1, j, right, OPERAND, Precedence(op));
    SidesTogether(ts, i, k, j, op, left, right, 1);
  }

  lemma {:induction false} CallDerive(ts: seq<Token>, i: nat, e: Expr)
    requires e.node.Call? && IsTree(e) && Printable(e) && Stands(ts, i, Grouped(e))
    ensures Derives(ts, i, i + |Grouped(e)|, e, 1)
    decreases e, 0
  {
    hide Stands, Parens, GroupedArgs, Derives, ListDerives;
    var fn, args := e.node.fn, e.node.args;
    var k, j := i + |Parens(fn)|, i + |Grouped(e)|;
    StandsThree(ts, i, Parens(fn), Sign(LEFT_PAREN), GroupedArgs(args) + [Sign(RIGHT_PAREN)]);
    ParensDerive(ts, i, fn);
    Loosen(ts, i, k, fn, OPERAND, POSTFIX);
    ArgsDerive(ts, k + 1, args);
    CallDerives(ts, i, k, j, fn, args);
    Loosen(ts, i, j, e, POSTFIX, 1);
  }

  lemma {:induction false} BuiltinDerive(ts: seq<Token>, i: nat, e: Expr)
    requires e.node.BuiltinCall? && IsTree(e) && Printable(e) && Stands(ts, i, Grouped(e))
    ensures Derives(ts, i, i + |Grouped(e)|, e, 1)
    decreases e, 0
  {
    hide Stands, GroupedArgs, Derives, ListDerives;
    var name, args := Token(BUILTIN_IDENTIFIER, e.node.builtin.node.name), e.node.actuals;
    var j := i + |Grouped(e)|;
    StandsThree(ts, i, [name], Sign(LEFT_PAREN), GroupedArgs(args) + [Sign(RIGHT_PAREN)]);
    StandsOne(ts, i, name);
    ArgsDerive(ts, i + 2, args);
    assert OperandDerives(ts, i, j, e);
    OperandIsDerived(ts, i, j, e);
    Loosen(ts, i, j, e, OPERAND, 1);
  }

  lemma {:induction false} IndexDerive(ts: seq<Token>, i: nat, e: Expr)
    requires e.node.Index? && IsTree(e) && Printable(e) && Stands(ts, i, Grouped(e))
    ensures Derives(ts, i, i + |Grouped(e)|, e, 1)
    decreases e, 0
  {
    hide Stands, Parens, Grouped, Derives;
    var obj, index := e.node.obj, e.node.index;
    var k, j := i + |Parens(obj)|, i + |Grouped(e)|;
    IndexPlaces(ts, i, e);
    ParensDerive(ts, i, obj);
    Loosen(ts, i, k, obj, OPERAND, POSTFIX);
    GroupedDerives(ts, k + 1, index);
    DerivesMoves(ts, k + 1, j - 1, index, 1);
    IndexDerives(ts, i, k, j, obj, index);
    Loosen(ts, i, j, e, POSTFIX, 1);
  }

  lemma IndexPlaces(ts: seq<Token>, i: nat, e: Expr)
    requires e.node.Index? && Printable(e) && Stands(ts, i, Grouped(e))
    ensures var p, g := Parens(e.node.obj), Grouped(e.node.index);
            var k := i + |p|; var j := k + 1 + |g|;
            && Stands(ts, i, p) && k < |ts| && ts[k].ty == LEFT_BRACKET
            && Stands(ts, k + 1, g) && j < |ts| && ts[j].ty == RIGHT_BRACKET && i + |Grouped(e)| == j + 1
  {
    hide Stands, Parens;
    StandsBracket(ts, i, Parens(e.node.obj), Sign(LEFT_BRACKET), Grouped(e.node.index), Sign(RIGHT_BRACKET));
  }

  lemma {:induction false} MemberDerive(ts: seq<Token>, i: nat, e: Expr)
    requires e.node.Member? && IsTree(e) && Printable(e) && Stands(ts, i, Grouped(e))
    ensures Derives(ts, i, i + |Grouped(e)|, e, 1)
    decreases e, 0
  {
    hide Stands, Parens, Derives;
    var obj, member := e.node.base, e.node.member;
    var k, j := i + |Parens(obj)|, i + |Grouped(e)|;
    StandsThree(ts, i, Parens(obj), Sign(DOT), Parens(member));
    ParensDerive(ts, i, obj);
    Loosen(ts, i, k, obj, OPERAND, POSTFIX);
    ParensDerive(ts, k + 1, member);
    MemberDerives(ts, i, k, j, obj, member);
    Loosen(ts, i, j, e, POSTFIX, 1);
  }

  lemma {:induction false} ArgsDerive(ts: seq<Token>, i: nat, args: seq<Expr>)
    requires AreTrees(args) && forall k :: 0 <= k < |args| ==> Printable(args[k])
    requires Stands(ts, i, GroupedArgs(args) + [Sign(RIGHT_PAREN)])
    ensures var j := i + |GroupedArgs(args)|;
            j < |ts| && ts[j].ty == RIGHT_PAREN && ListDerives(ts, i, j, args)
    decreases args
  {
    hide Stands, Grouped, Derives, ListDerives, IsTree, Printable, Follows;
    var j := i + |GroupedArgs(args)|;
    StandsSplit(ts, i, GroupedArgs(args), [Sign(RIGHT_PAREN)]);
    StandsOne(ts, j, Sign(RIGHT_PAREN));
    if |args| == 0 {
      NoArgs(ts, i);
      assert args == [];
    } else {
      var a := Grouped(args[0]);
      var k := i + |a|;
      if |args| == 1 {
        GroupedDerives(ts, i, args[0]);
        NoArgs(ts, j);
        assert args[1..] == [];
      } else {
        var rest := GroupedArgs(args[1..]);
        StandsThree(ts, i, a, Sign(COMMA), rest);
        assert a + [Sign(COMMA)] + rest + [Sign(RIGHT_PAREN)] == a + [Sign(COMMA)] + (rest + [Sign(RIGHT_PAREN)]);
        StandsThree(ts, i, a, Sign(COMMA), rest + [Sign(RIGHT_PAREN)]);
        GroupedDerives(ts, i, args[0]);
        ArgsDerive(ts, k + 1, args[1..]);
      }
      DerivesMoves(ts, i, k, args[0], 1);
      BracketStops(ts, k);
      OneArg(ts, i, k, j, args);
    }
  }

  // ---------- The theorem ----------

  /** Grouped round trip, exactly: parsing the grouped tokens of a tree returns that tree from exactly
      those tokens, without an error, if and only if the parser can build it at all. */
  lemma GroupedExact(e: Expr)
    requires Printable(e)
    ensures ParseExpression(Grouped(e), 0) == Done(e, |Grouped(e)|, 0) <==> IsTree(e)
  {
    hide ParseExpression, Grouped, IsTree, Printable, Derives, Follows;
    ParsesExactly(Grouped(e), 0, e, |Grouped(e)|);
    WholeStream(Grouped(e));
    if IsTree(e) {
      GroupedDerives(Grouped(e), 0, e);
    } else if Derives(Grouped(e), 0, |Grouped(e)|, e, 1) {
      DerivedIsTree(Grouped(e), 0, |Grouped(e)|, e, 1);
    }
  }

  /** What the printer loses comes back with parentheses: (a + b) * c. */
  lemma GroupingKept(a: string, b: string, c: string)
    ensures var sum := Fresh(Binary(PLUS, Fresh(Ident(a)), Fresh(Ident(b))));
            var e := Fresh(Binary(STAR, sum, Fresh(Ident(c))));
            Printable(e) && ParseExpression(Grouped(e), 0) == Done(e, |Grouped(e)|, 0)
  {
    hide ParseExpression, Grouped;
    var x, y, z := Fresh(Ident(a)), Fresh(Ident(b)), Fresh(Ident(c));
    assert IsTree(x) && IsTree(y) && IsTree(z) && Printable(x) && Printable(y) && Printable(z);
    var sum := Fresh(Binary(PLUS, x, y));
    assert IsTree(sum) && Printable(sum);
    GroupedExact(Fresh(Binary(STAR, sum, z)));
  }
}
