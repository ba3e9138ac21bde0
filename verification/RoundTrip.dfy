/** Parsing undoes printing: the printer writes no parentheses, so an expression comes back from its
    tokens exactly when it is in normal form. */
module RoundTrip {
  import opened Tokens
  import opened Decimal
  import opened LexTheorems
  import opened Ast
  import opened Grammar
  import opened Printing
  import opened Derivations

  // ---------- Normal form ----------

  /** Infix operators that bind tighter than min, left operands at least as tightly, right operands
      strictly tighter. */
  predicate Normal(e: Expr, min: nat)
    decreases e, 3
  {
    match e.node
    case Binary(op, left, right) =>
      && e.ty.None? && Precedence(op) > min && IsInfix(op) && !IsCompareOp(op)
      && Normal(left, Precedence(op) - 1) && Normal(right, Precedence(op))
    case Compare(op, left, right) =>
      && e.ty.None? && Precedence(op) > min && IsInfix(op) && IsCompareOp(op)
      && Normal(left, Precedence(op) - 1) && Normal(right, Precedence(op))
    case _ => NormalUnary(e)
  }

  /** Prefix operators, none of which the parser would fold into its literal. */
  predicate NormalUnary(e: Expr)
    decreases e, 2
  {
    match e.node
    case Unary(op, input) =>
      && e.ty.None? && IsUnaryOp(op) && NormalUnary(input)
      && !(op.BANG? && input.node.Lit? && input.node.lit.BoolLit?)
      && !((op.PLUS? || op.MINUS?) && input.node.Lit? && input.node.lit.IntLit?)
    case Lit(IntLit(n)) => e.ty.None? && -INT64_MAX <= n <= INT64_MAX
    case _ => NormalPostfix(e)
  }

  predicate NormalPostfix(e: Expr)
    decreases e, 1
  {
    match e.node
    case Call(fn, args) => e.ty.None? && NormalPostfix(fn) && NormalArgs(args)
    case Index(obj, index) => e.ty.None? && NormalPostfix(obj) && Normal(index, 1)
    case Member(obj, member) => e.ty.None? && NormalPostfix(obj) && NormalOperand(member)
    case _ => NormalOperand(e)
  }

  predicate NormalOperand(e: Expr)
    decreases e, 0
  {
    e.ty.None? &&
    match e.node
    case Lit(IntLit(n)) => 0 <= n <= INT64_MAX
    case Lit(lit) => !lit.FloatLit?
    case Ident(_) => true
    case BuiltinCall(fn, args) => fn.ty.None? && fn.node.Ident? && NormalArgs(args)
    case _ => false
  }

  predicate NormalArgs(args: seq<Expr>)
    decreases args
  {
    forall i :: 0 <= i < |args| ==> Normal(args[i], 1)
  }

  lemma {:induction false} NormalPrints(e: Expr, min: nat)
    requires Normal(e, min)
    ensures Printable(e)
    decreases e, 3
  {
    match e.node
    case Binary(op, left, right) => NormalPrints(left, Precedence(op) - 1); NormalPrints(right, Precedence(op));
    case Compare(op, left, right) => NormalPrints(left, Precedence(op) - 1); NormalPrints(right, Precedence(op));
    case _ => UnaryPrints(e);
  }

  lemma {:induction false} UnaryPrints(e: Expr)
    requires NormalUnary(e)
    ensures Printable(e)
    decreases e, 2
  {
    match e.node
    case Unary(_, input) => UnaryPrints(input);
    case Lit(lit) => if !lit.IntLit? { PostfixPrints(e); }
    case _ => PostfixPrints(e);
  }

  lemma {:induction false} PostfixPrints(e: Expr)
    requires NormalPostfix(e)
    ensures Printable(e)
    decreases e, 1
  {
    match e.node
    case Call(fn, args) =>
      PostfixPrints(fn);
      forall i | 0 <= i < |args| ensures Printable(args[i]) { NormalPrints(args[i], 1); }
    case Index(obj, index) => PostfixPrints(obj); NormalPrints(index, 1);
    case Member(obj, member) => PostfixPrints(obj); OperandPrints(member);
    case _ => OperandPrints(e);
  }

  lemma {:induction false} OperandPrints(e: Expr)
    requires NormalOperand(e)
    ensures Printable(e)
    decreases e, 0
  {
    match e.node
    case BuiltinCall(_, args) =>
      forall i | 0 <= i < |args| ensures Printable(args[i]) { NormalPrints(args[i], 1); }
    case _ =>
  }

  // ---------- The tokens of each node ----------

  function Toks(e: Expr): seq<Token>
    requires Printable(e)
  {
    TokensOf(Chunks(e))
  }

  function ArgToks(args: seq<Expr>): seq<Token>
    requires forall i :: 0 <= i < |args| ==> Printable(args[i])
  {
    TokensOf(ArgChunks(args))
  }

  lemma TokensOfOne(t: Token)
    ensures TokensOf([Spelt(t)]) == [t]
  {
    assert [Spelt(t)][1..] == [];
    assert TokensOf([Spelt(t)]) == [t] + TokensOf([]);
  }

  lemma TokensOfBlank(cs: seq<Chunk>)
    ensures TokensOf([BLANK] + cs) == TokensOf(cs)
  {
    assert ([BLANK] + cs)[1..] == cs;
    assert TokensOf([BLANK] + cs) == [] + TokensOf(cs);
  }

  lemma TokensOfMark(t: TokenType, cs: seq<Chunk>)
    ensures TokensOf([Mark(t)] + cs) == [Sign(t)] + TokensOf(cs)
  {
    hide Sign;
    assert ([Mark(t)] + cs)[1..] == cs;
  }

  lemma InfixToks(op: TokenType, left: Expr, right: Expr)
    requires Printable(left) && Printable(right)
    ensures TokensOf(Chunks(left) + [BLANK, Mark(op), BLANK] + Chunks(right)) == Toks(left) + [Sign(op)] + Toks(right)
  {
    hide TokensOf, Chunks, Sign, Printable;
    var l, r := Chunks(left), Chunks(right);
    assert [BLANK, Mark(op), BLANK] + r == [BLANK] + ([Mark(op)] + ([BLANK] + r));
    TokensOfBlank([Mark(op)] + ([BLANK] + r));
    TokensOfMark(op, [BLANK] + r);
    TokensOfBlank(r);
    TokensAppend(l, [BLANK, Mark(op), BLANK] + r);
    assert l + [BLANK, Mark(op), BLANK] + r == l + ([BLANK, Mark(op), BLANK] + r);
    assert Toks(left) + ([Sign(op)] + Toks(right)) == Toks(left) + [Sign(op)] + Toks(right);
  }

  lemma BracketToks(before: seq<Chunk>, open: TokenType, inner: seq<Chunk>, close: TokenType)
    ensures TokensOf(before + [Mark(open)] + inner + [Mark(close)])
            == TokensOf(before) + [Sign(open)] + TokensOf(inner) + [Sign(close)]
  {
    hide TokensOf, Sign;
    TokensAppend(before + [Mark(open)] + inner, [Mark(close)]);
    TokensAppend(before + [Mark(open)], inner);
    TokensAppend(before, [Mark(open)]);
    TokensOfOne(Sign(open));
    TokensOfOne(Sign(close));
  }

  lemma CommaToks(first: seq<Chunk>, rest: seq<Chunk>)
    ensures TokensOf(first + [Mark(COMMA), BLANK] + rest) == TokensOf(first) + [Sign(COMMA)] + TokensOf(rest)
  {
    hide TokensOf, Sign;
    assert [Mark(COMMA), BLANK] + rest == [Mark(COMMA)] + ([BLANK] + rest);
    TokensOfBlank(rest);
    TokensOfMark(COMMA, [BLANK] + rest);
    TokensAppend(first, [Mark(COMMA), BLANK] + rest);
    assert first + [Mark(COMMA), BLANK] + rest == first + ([Mark(COMMA), BLANK] + rest);
    assert TokensOf(first) + ([Sign(COMMA)] + TokensOf(rest)) == TokensOf(first) + [Sign(COMMA)] + TokensOf(rest);
  }

  // ---------- Where tokens stand in a stream ----------

  /** The tokens xs stand in the stream from position i on. */
  predicate Stands(ts: seq<Token>, i: nat, xs: seq<Token>) {
    i + |xs| <= |ts| && ts[i..i + |xs|] == xs
  }

  lemma StandsSplit(ts: seq<Token>, i: nat, a: seq<Token>, b: seq<Token>)
    ensures Stands(ts, i, a + b) <==> Stands(ts, i, a) && Stands(ts, i + |a|, b)
  {
    if Stands(ts, i, a + b) {
      assert ts[i..i + |a|] == (a + b)[..|a|] == a;
      assert ts[i + |a|..i + |a| + |b|] == (a + b)[|a|..] == b;
    }
    if Stands(ts, i, a) && Stands(ts, i + |a|, b) {
      assert ts[i..i + |a| + |b|] == ts[i..i + |a|] + ts[i + |a|..i + |a| + |b|];
    }
  }

  lemma StandsInside(ts: seq<Token>, i: nat, xs: seq<Token>)
    requires Stands(ts, i, xs)
    ensures i + |xs| <= |ts|
  {
  }

  lemma StandsOne(ts: seq<Token>, i: nat, t: Token)
    ensures Stands(ts, i, [t]) <==> i < |ts| && ts[i] == t
  {
  }

  lemma StandsThree(ts: seq<Token>, i: nat, a: seq<Token>, t: Token, b: seq<Token>)
    requires Stands(ts, i, a + [t] + b)
    ensures Stands(ts, i, a) && i + |a| < |ts| && ts[i + |a|] == t && Stands(ts, i + |a| + 1, b)
  {
    hide Stands;
    StandsSplit(ts, i, a + [t], b);
    StandsSplit(ts, i, a, [t]);
    StandsOne(ts, i + |a|, t);
  }

  lemma StandsBracket(ts: seq<Token>, i: nat, a: seq<Token>, t: Token, b: seq<Token>, u: Token)
    requires Stands(ts, i, a + [t] + b + [u])
    ensures Stands(ts, i, a) && i + |a| < |ts| && ts[i + |a|] == t
    ensures Stands(ts, i + |a| + 1, b) && i + |a| + 1 + |b| < |ts| && ts[i + |a| + 1 + |b|] == u
  {
    hide Stands;
    StandsSplit(ts, i, a + [t] + b, [u]);
    StandsOne(ts, i + |a| + 1 + |b|, u);
    StandsThree(ts, i, a, t, b);
  }

  lemma WholeStream(ts: seq<Token>)
    ensures Stands(ts, 0, ts) && Follows(Peek(ts, |ts|))
  {
  }

  // ---------- Where the parts of each node stand ----------

  lemma CallParts(ts: seq<Token>, i: nat, e: Expr)
    requires e.node.Call? && Printable(e) && Stands(ts, i, Toks(e))
    ensures var fn, args := e.node.fn, e.node.args;
            var k := i + |Toks(fn)|;
            && Stands(ts, i, Toks(fn)) && k < |ts| && ts[k].ty == LEFT_PAREN
            && Stands(ts, k + 1, ArgToks(args) + [Sign(RIGHT_PAREN)])
            && i + |Toks(e)| == k + 1 + |ArgToks(args)| + 1
  {
    hide Stands, TokensOf;
    var fn, args := e.node.fn, e.node.args;
    BracketToks(Chunks(fn), LEFT_PAREN, ArgChunks(args), RIGHT_PAREN);
    assert Toks(e) == Toks(fn) + [Sign(LEFT_PAREN)] + (ArgToks(args) + [Sign(RIGHT_PAREN)]);
    StandsThree(ts, i, Toks(fn), Sign(LEFT_PAREN), ArgToks(args) + [Sign(RIGHT_PAREN)]);
  }

  lemma IndexParts(ts: seq<Token>, i: nat, e: Expr)
    requires e.node.Index? && Printable(e) && Stands(ts, i, Toks(e))
    ensures var obj, index := e.node.obj, e.node.index;
            var k := i + |Toks(obj)|; var j := k + 1 + |Toks(index)|;
            && Stands(ts, i, Toks(obj)) && k < |ts| && ts[k].ty == LEFT_BRACKET
            && Stands(ts, k + 1, Toks(index)) && j < |ts| && ts[j].ty == RIGHT_BRACKET && i + |Toks(e)| == j + 1
  {
    hide Stands, TokensOf;
    var obj, index := e.node.obj, e.node.index;
    var x, y := Toks(obj), Toks(index);
    BracketToks(Chunks(obj), LEFT_BRACKET, Chunks(index), RIGHT_BRACKET);
    assert Toks(e) == x + [Sign(LEFT_BRACKET)] + y + [Sign(RIGHT_BRACKET)];
    StandsBracket(ts, i, x, Sign(LEFT_BRACKET), y, Sign(RIGHT_BRACKET));
  }

  lemma InfixParts(ts: seq<Token>, i: nat, e: Expr, op: TokenType, left: Expr, right: Expr)
    requires e.node == Binary(op, left, right) || e.node == Compare(op, left, right)
    requires Printable(e) && Stands(ts, i, Toks(e))
    ensures var k := i + |Toks(left)|;
            && Stands(ts, i, Toks(left)) && k < |ts| && ts[k].ty == op && Stands(ts, k + 1, Toks(right))
            && i + |Toks(e)| == k + 1 + |Toks(right)|
  {
    hide Stands, TokensOf, Sign, IsInfix;
    var x, y := Toks(left), Toks(right);
    InfixToks(op, left, right);
    assert Toks(e) == x + [Sign(op)] + y;
    StandsThree(ts, i, x, Sign(op), y);
    SignType(op);
  }

  lemma PrefixParts(ts: seq<Token>, i: nat, e: Expr)
    requires e.node.Unary? && Printable(e) && Stands(ts, i, Toks(e))
    ensures i < |ts| && ts[i].ty == e.node.prefix && Stands(ts, i + 1, Toks(e.node.input))
    ensures |Toks(e)| == 1 + |Toks(e.node.input)|
  {
    hide Stands, TokensOf, IsUnaryOp;
    var op, input := e.node.prefix, e.node.input;
    TokensOfMark(op, Chunks(input));
    StandsSplit(ts, i, [Sign(op)], Toks(input));
    StandsOne(ts, i, Sign(op));
    SignType(op);
  }

  lemma MemberParts(ts: seq<Token>, i: nat, e: Expr)
    requires e.node.Member? && Printable(e) && Stands(ts, i, Toks(e))
    ensures var k := i + |Toks(e.node.base)|;
            && Stands(ts, i, Toks(e.node.base)) && k < |ts| && ts[k].ty == DOT
            && Stands(ts, k + 1, Toks(e.node.member)) && i + |Toks(e)| == k + 1 + |Toks(e.node.member)|
  {
    hide Stands, TokensOf;
    var obj, member := e.node.base, e.node.member;
    TokensAppend(Chunks(obj) + [Mark(DOT)], Chunks(member));
    TokensAppend(Chunks(obj), [Mark(DOT)]);
    TokensOfOne(Sign(DOT));
    StandsThree(ts, i, Toks(obj), Sign(DOT), Toks(member));
  }

  lemma BuiltinParts(ts: seq<Token>, i: nat, e: Expr)
    requires e.node.BuiltinCall? && Printable(e) && Stands(ts, i, Toks(e))
    ensures var args := e.node.actuals;
            && i < |ts| && ts[i] == Token(BUILTIN_IDENTIFIER, e.node.builtin.node.name)
            && Stands(ts, i + 2, ArgToks(args) + [Sign(RIGHT_PAREN)]) && |Toks(e)| == 2 + |ArgToks(args)| + 1
  {
    hide Stands, TokensOf;
    var args := e.node.actuals;
    var name := Token(BUILTIN_IDENTIFIER, e.node.builtin.node.name);
    assert [Spelt(name), Mark(LEFT_PAREN)] == [Spelt(name)] + [Mark(LEFT_PAREN)];
    BracketToks([Spelt(name)], LEFT_PAREN, ArgChunks(args), RIGHT_PAREN);
    TokensOfOne(name);
    assert Toks(e) == [name] + [Sign(LEFT_PAREN)] + (ArgToks(args) + [Sign(RIGHT_PAREN)]);
    StandsThree(ts, i, [name], Sign(LEFT_PAREN), ArgToks(args) + [Sign(RIGHT_PAREN)]);
    StandsOne(ts, i, name);
  }

  lemma SignType(t: TokenType)
    ensures Sign(t).ty == t
  {
  }

  lemma FewArgs(args: seq<Expr>)
    requires forall k :: 0 <= k < |args| ==> Printable(args[k])
    ensures |args| == 0 ==> |ArgToks(args)| == 0
    ensures |args| == 1 ==> ArgToks(args) == Toks(args[0])
  {
  }

  lemma MoreArgs(ts: seq<Token>, i: nat, args: seq<Expr>)
    requires |args| > 1 && (forall k :: 0 <= k < |args| ==> Printable(args[k]))
    requires Stands(ts, i, ArgToks(args) + [Sign(RIGHT_PAREN)])
    ensures var k := i + |Toks(args[0])|;
            && Stands(ts, i, Toks(args[0])) && k < |ts| && ts[k] == Sign(COMMA) && ts[k].ty == COMMA
            && Stands(ts, k + 1, ArgToks(args[1..]) + [Sign(RIGHT_PAREN)])
            && |ArgToks(args)| == |Toks(args[0])| + 1 + |ArgToks(args[1..])|
  {
    hide Stands, TokensOf, Printable, Chunks;
    CommaToks(Chunks(args[0]), ArgChunks(args[1..]));
    assert ArgToks(args) + [Sign(RIGHT_PAREN)] == Toks(args[0]) + [Sign(COMMA)] + (ArgToks(args[1..]) + [Sign(RIGHT_PAREN)]);
    StandsThree(ts, i, Toks(args[0]), Sign(COMMA), ArgToks(args[1..]) + [Sign(RIGHT_PAREN)]);
  }

  lemma NoTokens()
    ensures TokensOf([]) == []
  {
  }

  // ---------- Printed normal forms are derived ----------

  /** The tokens of a normal form derive it. */
  lemma {:induction false} NormalDerives(ts: seq<Token>, i: nat, e: Expr, min: nat)
    requires Normal(e, min) && min <= UNARY && Printable(e) && Stands(ts, i, Toks(e))
    ensures Derives(ts, i, i + |Toks(e)|, e, min)
    decreases e, 4
  {
    hide Stands, Toks, Derives, NormalUnary;
    if e.node.Binary? {
      InfixRebuilds(ts, i, e, e.node.op, e.node.left, e.node.right, min);
    } else if e.node.Compare? {
      InfixRebuilds(ts, i, e, e.node.cmp, e.node.lhs, e.node.rhs, min);
    } else {
      UnaryRebuilds(ts, i, e);
      Loosen(ts, i, i + |Toks(e)|, e, UNARY, min);
    }
  }

  lemma {:induction false} InfixRebuilds(ts: seq<Token>, i: nat, e: Expr, op: TokenType, left: Expr, right: Expr, min: nat)
    requires e.node == Binary(op, left, right) || e.node == Compare(op, left, right)
    requires Normal(e, min) && Printable(e) && Stands(ts, i, Toks(e))
    ensures Derives(ts, i, i + |Toks(e)|, e, min)
    decreases e, 0
  {
    hide Stands, Toks, Derives, Precedence, IsInfix;
    var k, j := i + |Toks(left)|, i + |Toks(e)|;
    InfixParts(ts, i, e, op, left, right);
    TableEnds(op);
    NormalDerives(ts, i, left, Precedence(op) - 1);
    NormalDerives(ts, k + 1, right, Precedence(op));
    DerivesMoves(ts, i, k, left, Precedence(op) - 1);
    DerivesMoves(ts, k + 1, j, right, Precedence(op));
    SidesTogether(ts, i, k, j, op, left, right, min);
  }

  lemma {:induction false} UnaryRebuilds(ts: seq<Token>, i: nat, e: Expr)
    requires NormalUnary(e) && Printable(e) && Stands(ts, i, Toks(e))
    ensures Derives(ts, i, i + |Toks(e)|, e, UNARY)
    decreases e, 3
  {
    hide Stands, Toks, Derives;
    var j := i + |Toks(e)|;
    if e.node.Unary? {
      PrefixParts(ts, i, e);
      UnaryRebuilds(ts, i + 1, e.node.input);
      DerivesMoves(ts, i + 1, j, e.node.input, UNARY);
      assert PrefixDerives(ts, i, j, e);
      PrefixIsDerived(ts, i, j, e);
    } else if e.node.Lit? && e.node.lit.IntLit? && e.node.lit.n < 0 {
      NegativeRebuilds(ts, i, e);
    } else {
      hide NormalPostfix;
      PostfixRebuilds(ts, i, e);
      Loosen(ts, i, j, e, POSTFIX, UNARY);
    }
  }

  lemma NegativeRebuilds(ts: seq<Token>, i: nat, e: Expr)
    requires e.node.Lit? && e.node.lit.IntLit? && -INT64_MAX <= e.node.lit.n < 0 && e.ty.None?
    requires Printable(e) && Stands(ts, i, Toks(e))
    ensures Derives(ts, i, i + |Toks(e)|, e, UNARY)
  {
    hide Stands, TokensOf, Derives;
    var positive := Fresh(Lit(IntLit(-e.node.lit.n)));
    var j := i + |Toks(e)|;
    assert Chunks(e) == [Mark(MINUS)] + Chunks(positive);
    TokensOfMark(MINUS, Chunks(positive));
    StandsSplit(ts, i, [Sign(MINUS)], Toks(positive));
    StandsOne(ts, i, Sign(MINUS));
    LiteralRebuilds(ts, i + 1, positive);
    Loosen(ts, i + 1, j, positive, OPERAND, UNARY);
    FoldDerives(ts, i, j, MINUS, positive);
    assert Fold(MINUS, positive) == e;
  }

  /** The tokens of a call, member or index chain derive it. */
  lemma {:induction false} PostfixRebuilds(ts: seq<Token>, i: nat, e: Expr)
    requires NormalPostfix(e) && Printable(e) && Stands(ts, i, Toks(e))
    ensures Derives(ts, i, i + |Toks(e)|, e, POSTFIX)
    decreases e, 2
  {
    hide Stands, Toks, Derives, NormalOperand;
    if e.node.Call? {
      CallRebuilds(ts, i, e);
    } else if e.node.Index? {
      IndexRebuilds(ts, i, e);
    } else if e.node.Member? {
      MemberRebuilds(ts, i, e);
    } else {
      OperandRebuilds(ts, i, e);
      Loosen(ts, i, i + |Toks(e)|, e, OPERAND, POSTFIX);
    }
  }

  lemma {:induction false} CallRebuilds(ts: seq<Token>, i: nat, e: Expr)
    requires e.node.Call? && NormalPostfix(e) && Printable(e) && Stands(ts, i, Toks(e))
    ensures Derives(ts, i, i + |Toks(e)|, e, POSTFIX)
    decreases e, 1
  {
    hide Stands, Toks, Derives, ListDerives, ArgToks, NormalArgs;
    var fn, args := e.node.fn, e.node.args;
    var k := i + |Toks(fn)|;
    CallParts(ts, i, e);
    PostfixRebuilds(ts, i, fn);
    ArgsRebuild(ts, k + 1, args);
    CallDerives(ts, i, k, i + |Toks(e)|, fn, args);
  }

  lemma {:induction false} IndexRebuilds(ts: seq<Token>, i: nat, e: Expr)
    requires e.node.Index? && NormalPostfix(e) && Printable(e) && Stands(ts, i, Toks(e))
    ensures Derives(ts, i, i + |Toks(e)|, e, POSTFIX)
    decreases e, 1
  {
    hide Stands, Toks, Derives, Normal;
    var obj, index := e.node.obj, e.node.index;
    var k, j := i + |Toks(obj)|, i + |Toks(e)|;
    IndexParts(ts, i, e);
    PostfixRebuilds(ts, i, obj);
    NormalDerives(ts, k + 1, index, 1);
    DerivesMoves(ts, k + 1, j - 1, index, 1);
    IndexDerives(ts, i, k, j, obj, index);
  }

  lemma {:induction false} MemberRebuilds(ts: seq<Token>, i: nat, e: Expr)
    requires e.node.Member? && NormalPostfix(e) && Printable(e) && Stands(ts, i, Toks(e))
    ensures Derives(ts, i, i + |Toks(e)|, e, POSTFIX)
    decreases e, 1
  {
    hide Stands, Toks, Derives, NormalOperand;
    var obj, member := e.node.base, e.node.member;
    var k := i + |Toks(obj)|;
    MemberParts(ts, i, e);
    PostfixRebuilds(ts, i, obj);
    OperandRebuilds(ts, k + 1, member);
    MemberDerives(ts, i, k, i + |Toks(e)|, obj, member);
  }

  lemma {:induction false} OperandRebuilds(ts: seq<Token>, i: nat, e: Expr)
    requires NormalOperand(e) && Printable(e) && Stands(ts, i, Toks(e))
    ensures Derives(ts, i, i + |Toks(e)|, e, OPERAND)
    decreases e, 1
  {
    hide Stands, Toks, Derives;
    match e.node
    case BuiltinCall(_, _) => BuiltinRebuilds(ts, i, e);
    case Lit(_) => LiteralRebuilds(ts, i, e);
    case Ident(_) => NameRebuilds(ts, i, e);
  }

  lemma NameRebuilds(ts: seq<Token>, i: nat, e: Expr)
    requires e.node.Ident? && e.ty.None? && Stands(ts, i, Toks(e))
    ensures Derives(ts, i, i + |Toks(e)|, e, OPERAND)
  {
    hide Stands, TokensOf, Derives;
    TokensOfOne(Token(IDENTIFIER, e.node.name));
    StandsOne(ts, i, Token(IDENTIFIER, e.node.name));
    assert OperandDerives(ts, i, i + 1, e);
    OperandIsDerived(ts, i, i + 1, e);
  }

  lemma {:induction false} BuiltinRebuilds(ts: seq<Token>, i: nat, e: Expr)
    requires e.node.BuiltinCall? && NormalOperand(e) && Printable(e) && Stands(ts, i, Toks(e))
    ensures Derives(ts, i, i + |Toks(e)|, e, OPERAND)
    decreases e, 0
  {
    hide Stands, Toks, ArgToks, Derives, ListDerives, NormalArgs;
    var args := e.node.actuals;
    BuiltinParts(ts, i, e);
    ArgsRebuild(ts, i + 2, args);
    assert OperandDerives(ts, i, i + |Toks(e)|, e);
    OperandIsDerived(ts, i, i + |Toks(e)|, e);
  }

  lemma LiteralRebuilds(ts: seq<Token>, i: nat, e: Expr)
    requires e.node.Lit? && NormalOperand(e) && Printable(e) && Stands(ts, i, Toks(e))
    ensures Derives(ts, i, i + |Toks(e)|, e, OPERAND)
  {
    hide Stands, TokensOf, Dec, DigitsValue, Derives, StrToReal;
    var t := match e.node.lit
      case NilLit => Sign(NIL)
      case BoolLit(b) => Sign(if b then TRUE else FALSE)
      case IntLit(n) => Token(INTEGER, Dec(n))
      case StringLit(s) => Token(STRING, s);
    assert Chunks(e) == [Spelt(t)];
    TokensOfOne(t);
    StandsOne(ts, i, t);
    if e.node.lit.IntLit? {
      ValueOfDec(e.node.lit.n);
    }
    assert OperandDerives(ts, i, i + 1, e);
    OperandIsDerived(ts, i, i + 1, e);
  }

  /** Arguments printed with commas are derived up to the closing parenthesis. */
  lemma {:induction false} ArgsRebuild(ts: seq<Token>, i: nat, args: seq<Expr>)
    requires NormalArgs(args) && (forall k :: 0 <= k < |args| ==> Printable(args[k]))
    requires Stands(ts, i, ArgToks(args) + [Sign(RIGHT_PAREN)])
    ensures var j := i + |ArgToks(args)|;
            j < |ts| && ts[j].ty == RIGHT_PAREN && ListDerives(ts, i, j, args)
    decreases args, 0
  {
    hide Stands, ArgToks, Toks, Derives, ListDerives, Normal, Printable, Follows;
    var j := i + |ArgToks(args)|;
    StandsSplit(ts, i, ArgToks(args), [Sign(RIGHT_PAREN)]);
    StandsOne(ts, j, Sign(RIGHT_PAREN));
    FewArgs(args);
    if |args| == 0 {
      Derivations.NoArgs(ts, i);
      assert args == [];
    } else {
      var k := i + |Toks(args[0])|;
      if |args| == 1 {
        NormalDerives(ts, i, args[0], 1);
        Derivations.NoArgs(ts, j);
        assert args[1..] == [];
      } else {
        MoreArgs(ts, i, args);
        NormalDerives(ts, i, args[0], 1);
        ArgsRebuild(ts, k + 1, args[1..]);
      }
      DerivesMoves(ts, i, k, args[0], 1);
      BracketStops(ts, k);
      OneArg(ts, i, k, j, args);
    }
  }

  /** A normal-form expression is returned from its tokens, using exactly those tokens. */
  lemma ExpressionRebuilds(ts: seq<Token>, i: nat, e: Expr)
    requires Normal(e, 1) && Printable(e) && Stands(ts, i, Toks(e)) && Follows(Peek(ts, i + |Toks(e)|))
    ensures i < i + |Toks(e)| <= |ts| && ParseExpression(ts, i) == Done(e, i + |Toks(e)|, 0)
  {
    hide Stands, Toks, Derives, Normal, Printable, Follows, ParseExpression;
    NormalDerives(ts, i, e, 1);
    DerivesMoves(ts, i, i + |Toks(e)|, e, 1);
    DerivedParses(ts, i, i + |Toks(e)|, e);
  }
}
