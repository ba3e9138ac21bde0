/** What parsing keeps: the operands and index brackets of an error-free parse are those of the tokens it
    read, in order. */
module Operands {
  import opened Tokens
  import opened Ast
  import opened Decimal
  import opened Grammar
  import opened Derivations

  /** An operand without what folding changes: a number without its sign, a boolean without its value.
      The brackets of an index go with the operands. No token stands for a cast or for a bad expression. */
  datatype Leaf =
    | NilLeaf
    | BoolLeaf
    | NumberLeaf(n: nat)
    | FloatLeaf(x: real)
    | StringLeaf(s: string)
    | NameLeaf(name: string)
    | BuiltinLeaf(builtin: string)
    | OpenLeaf
    | CloseLeaf
    | NoLeaf

  function LiteralLeaf(lit: Literal): Leaf {
    match lit
    case NilLit => NilLeaf
    case BoolLit(_) => BoolLeaf
    case IntLit(n) => NumberLeaf(if n < 0 then -n else n)
    case FloatLit(x, _) => FloatLeaf(x)
    case StringLit(s) => StringLeaf(s)
  }

  /** The operands of a tree from the left. */
  function Leaves(e: Expr): seq<Leaf>
    decreases e
  {
    match e.node
    case Lit(lit) => [LiteralLeaf(lit)]
    case Ident(name) => [NameLeaf(name)]
    case Binary(_, left, right) => Leaves(left) + Leaves(right)
    case Compare(_, left, right) => Leaves(left) + Leaves(right)
    case Unary(_, input) => Leaves(input)
    case Call(fn, args) => Leaves(fn) + ArgLeaves(args)
    case BuiltinCall(fn, args) => [if fn.node.Ident? then BuiltinLeaf(fn.node.name) else NoLeaf] + ArgLeaves(args)
    case Index(obj, index) => Leaves(obj) + ([OpenLeaf] + Leaves(index) + [CloseLeaf])
    case Member(obj, member) => Leaves(obj) + Leaves(member)
    case Cast(_, input) => [NoLeaf] + Leaves(input)
    case Bad => [NoLeaf]
  }

  function ArgLeaves(args: seq<Expr>): seq<Leaf>
    decreases args
  {
    if |args| == 0 then [] else ArgLeaves(args[..|args| - 1]) + Leaves(args[|args| - 1])
  }

  function TokenLeaves(t: Token): seq<Leaf> {
    if t.ty.NIL? then [NilLeaf]
    else if t.ty.TRUE? || t.ty.FALSE? then [BoolLeaf]
    else if t.ty.INTEGER? then [NumberLeaf(StrToInt64(t.literal))]
    else if t.ty.FLOAT? then [FloatLeaf(StrToReal(t.literal))]
    else if t.ty.STRING? then [StringLeaf(t.literal)]
    else if t.ty.IDENTIFIER? then [NameLeaf(t.literal)]
    else if t.ty.BUILTIN_IDENTIFIER? then [BuiltinLeaf(t.literal)]
    else if t.ty.LEFT_BRACKET? then [OpenLeaf]
    else if t.ty.RIGHT_BRACKET? then [CloseLeaf]
    else []
  }

  /** The parser takes the token behind a builtin name for a parenthesis without looking at it. */
  function Step(ts: seq<Token>, i: nat): nat
    requires i < |ts|
  {
    if ts[i].ty.BUILTIN_IDENTIFIER? then i + 2 else i + 1
  }

  /** Stepping from i leads to j. */
  predicate Reaches(ts: seq<Token>, i: nat, j: nat)
    decreases j - i
  {
    i == j || (i < j <= |ts| && Reaches(ts, Step(ts, i), j))
  }

  /** The operands among the tokens from i to j. */
  function Between(ts: seq<Token>, i: nat, j: nat): seq<Leaf>
    decreases j - i
  {
    if i < j <= |ts| then TokenLeaves(ts[i]) + Between(ts, Step(ts, i), j) else []
  }

  predicate Kept(ts: seq<Token>, i: nat, j: nat, leaves: seq<Leaf>) {
    Reaches(ts, i, j) && leaves == Between(ts, i, j)
  }

  lemma {:induction false} Joined(ts: seq<Token>, i: nat, j: nat, k: nat, a: seq<Leaf>, b: seq<Leaf>)
    requires Kept(ts, i, j, a) && Kept(ts, j, k, b)
    ensures Kept(ts, i, k, a + b)
    decreases j - i
  {
    hide TokenLeaves;
    ReachesForward(ts, j, k);
    if i == j {
      assert a + b == b;
    } else {
      var rest := Between(ts, Step(ts, i), j);
      Joined(ts, Step(ts, i), j, k, rest, b);
      assert TokenLeaves(ts[i]) + (rest + b) == a + b;
    }
  }

  lemma {:induction false} ReachesForward(ts: seq<Token>, i: nat, j: nat)
    requires Reaches(ts, i, j)
    ensures i <= j
  {
  }

  /** A token that is no builtin name. */
  lemma One(ts: seq<Token>, i: nat)
    requires i < |ts| && !ts[i].ty.BUILTIN_IDENTIFIER?
    ensures Kept(ts, i, i + 1, TokenLeaves(ts[i]))
  {
    hide TokenLeaves;
    assert Reaches(ts, i + 1, i + 1) && Between(ts, i + 1, i + 1) == [];
    assert TokenLeaves(ts[i]) + [] == TokenLeaves(ts[i]);
  }

  /** A token that is no operand. */
  lemma Silent(ts: seq<Token>, i: nat, j: nat, leaves: seq<Leaf>)
    requires i < |ts| && TokenLeaves(ts[i]) == [] && Kept(ts, i + 1, j, leaves)
    ensures Kept(ts, i, j, leaves)
  {
    ReachesForward(ts, i + 1, j);
  }

  lemma SilentEnd(ts: seq<Token>, i: nat, j: nat, leaves: seq<Leaf>)
    requires j < |ts| && TokenLeaves(ts[j]) == [] && Kept(ts, i, j, leaves)
    ensures Kept(ts, i, j + 1, leaves)
  {
    hide TokenLeaves, Kept;
    assert Kept(ts, j, j + 1, []) by { Nothing(ts, j); }
    Joined(ts, i, j, j + 1, leaves, []);
    assert leaves + [] == leaves;
  }

  lemma Nothing(ts: seq<Token>, j: nat)
    requires j < |ts| && TokenLeaves(ts[j]) == []
    ensures Kept(ts, j, j + 1, [])
  {
  }

  lemma OperatorIsSilent(t: Token)
    requires Precedence(t.ty) > 0 || IsUnaryOp(t.ty)
    ensures TokenLeaves(t) == []
  {
  }

  /** Other punctuation is no operand. */
  lemma Mute(ts: seq<Token>, i: nat)
    requires Peek(ts, i).LEFT_PAREN? || Peek(ts, i).RIGHT_PAREN? || Peek(ts, i).DOT? || Peek(ts, i).COMMA?
    ensures i < |ts| && TokenLeaves(ts[i]) == []
  {
  }

  lemma BuiltinName(ts: seq<Token>, i: nat)
    requires i + 2 <= |ts| && ts[i].ty.BUILTIN_IDENTIFIER?
    ensures Kept(ts, i, i + 2, [BuiltinLeaf(ts[i].literal)])
  {
  }

  lemma Bracketed(ts: seq<Token>, i: nat, j: nat, leaves: seq<Leaf>)
    requires Peek(ts, i).LEFT_BRACKET? && Peek(ts, j).RIGHT_BRACKET? && Kept(ts, i + 1, j, leaves)
    ensures Kept(ts, i, j + 1, [OpenLeaf] + leaves + [CloseLeaf])
  {
    hide Kept;
    One(ts, i);
    One(ts, j);
    Joined(ts, i, i + 1, j, [OpenLeaf], leaves);
    Joined(ts, i, j, j + 1, [OpenLeaf] + leaves, [CloseLeaf]);
  }

  lemma {:induction false} FirstArg(args: seq<Expr>)
    requires |args| > 0
    ensures ArgLeaves(args) == Leaves(args[0]) + ArgLeaves(args[1..])
    decreases |args|
  {
    hide Leaves;
    var n := |args| - 1;
    if n == 0 {
      assert args[..0] == [] && ArgLeaves([]) == [];
    } else {
      FirstArg(args[..n]);
      assert args[..n][0] == args[0] && args[..n][1..] == args[1..][..n - 1];
      assert args[1..][n - 1] == args[n];
    }
  }

  // ---------- Derivations keep operands ----------

  lemma {:induction false} DerivedKept(ts: seq<Token>, i: nat, j: nat, e: Expr, min: nat)
    requires Derives(ts, i, j, e, min)
    ensures Kept(ts, i, j, Leaves(e))
    decreases j - i, 1
  {
    DerivesMoves(ts, i, j, e, min);
    hide Kept, Leaves;
    if OperandDerives(ts, i, j, e) {
      OperandKept(ts, i, j, e);
    } else if PostfixDerives(ts, i, j, e) {
      PostfixKept(ts, i, j, e);
    } else if PrefixDerives(ts, i, j, e) {
      PrefixKept(ts, i, j, e);
    } else {
      assert InfixDerives(ts, i, j, e, min);
      InfixKept(ts, i, j, e, min);
    }
  }

  lemma {:induction false} OperandKept(ts: seq<Token>, i: nat, j: nat, e: Expr)
    requires i < j <= |ts| && OperandDerives(ts, i, j, e)
    ensures Kept(ts, i, j, Leaves(e))
    decreases j - i, 0
  {
    hide Kept, Derives, ListDerives, StrToReal, DigitsValue, ArgLeaves;
    if i + 1 < j && ts[i].ty.LEFT_PAREN? && Derives(ts, i + 1, j - 1, e, 1) {
      DerivedKept(ts, i + 1, j - 1, e, 1);
      Mute(ts, i);
      Mute(ts, j - 1);
      Silent(ts, i, j - 1, Leaves(e));
      SilentEnd(ts, i, j - 1, Leaves(e));
    } else if e.node.BuiltinCall? {
      ListKept(ts, i + 2, j - 1, e.node.actuals);
      Mute(ts, j - 1);
      SilentEnd(ts, i + 2, j - 1, ArgLeaves(e.node.actuals));
      BuiltinName(ts, i);
      Joined(ts, i, i + 2, j, [BuiltinLeaf(ts[i].literal)], ArgLeaves(e.node.actuals));
    } else {
      One(ts, i);
    }
  }

  lemma {:induction false} PostfixKept(ts: seq<Token>, i: nat, j: nat, e: Expr)
    requires i < j <= |ts| && PostfixDerives(ts, i, j, e)
    ensures Kept(ts, i, j, Leaves(e))
    decreases j - i, 0
  {
    hide Kept, Derives, ListDerives, ArgLeaves, TokenLeaves;
    match e.node
    case Call(fn, args) =>
      var k :| i < k && k + 1 < j && Derives(ts, i, k, fn, POSTFIX) && ts[k].ty.LEFT_PAREN?
               && ListDerives(ts, k + 1, j - 1, args) && ts[j - 1].ty.RIGHT_PAREN?;
      DerivedKept(ts, i, k, fn, POSTFIX);
      ListKept(ts, k + 1, j - 1, args);
      Mute(ts, k);
      Mute(ts, j - 1);
      Silent(ts, k, j - 1, ArgLeaves(args));
      SilentEnd(ts, k, j - 1, ArgLeaves(args));
      Joined(ts, i, k, j, Leaves(fn), ArgLeaves(args));
    case Member(obj, member) =>
      var k :| i < k < j && Derives(ts, i, k, obj, POSTFIX) && ts[k].ty.DOT? && Derives(ts, k + 1, j, member, OPERAND);
      DerivedKept(ts, i, k, obj, POSTFIX);
      DerivedKept(ts, k + 1, j, member, OPERAND);
      Mute(ts, k);
      Silent(ts, k, j, Leaves(member));
      Joined(ts, i, k, j, Leaves(obj), Leaves(member));
    case Index(obj, index) =>
      var k :| i < k && k + 1 < j && Derives(ts, i, k, obj, POSTFIX) && ts[k].ty.LEFT_BRACKET?
               && Derives(ts, k + 1, j - 1, index, 1) && ts[j - 1].ty.RIGHT_BRACKET?;
      DerivedKept(ts, i, k, obj, POSTFIX);
      DerivedKept(ts, k + 1, j - 1, index, 1);
      Bracketed(ts, k, j - 1, Leaves(index));
      Joined(ts, i, k, j, Leaves(obj), [OpenLeaf] + Leaves(index) + [CloseLeaf]);
  }

  lemma {:induction false} PrefixKept(ts: seq<Token>, i: nat, j: nat, e: Expr)
    requires i < j <= |ts| && PrefixDerives(ts, i, j, e)
    ensures Kept(ts, i, j, Leaves(e))
    decreases j - i, 0
  {
    hide Kept, Derives, TokenLeaves;
    SameNode(ts, i, j, e);
    var input := Input(ts, i, j, Fresh(e.node));
    DerivedKept(ts, i + 1, j, input, UNARY);
    OperatorIsSilent(ts[i]);
    Silent(ts, i, j, Leaves(input));
    FoldLeaves(ts[i].ty, input);
    SameLeaves(e);
  }

  lemma SameLeaves(e: Expr)
    ensures Leaves(Fresh(e.node)) == Leaves(e)
  {
  }

  lemma SameNode(ts: seq<Token>, i: nat, j: nat, e: Expr)
    requires i < j <= |ts| && PrefixDerives(ts, i, j, e)
    ensures PrefixDerives(ts, i, j, Fresh(e.node))
  {
  }

  lemma FoldLeaves(op: TokenType, e: Expr)
    ensures Leaves(Fold(op, e)) == Leaves(e)
  {
  }

  lemma {:induction false} InfixKept(ts: seq<Token>, i: nat, j: nat, e: Expr, min: nat)
    requires i < j <= |ts| && InfixDerives(ts, i, j, e, min)
    ensures Kept(ts, i, j, Leaves(e))
    decreases j - i, 0
  {
    hide Kept, Derives, IsCompareOp, TokenLeaves, Precedence;
    var op, left, right, k := Sides(ts, i, j, e, min);
    DerivedKept(ts, i, k, left, Precedence(op) - 1);
    DerivedKept(ts, k + 1, j, right, Precedence(op));
    OperatorIsSilent(ts[k]);
    Silent(ts, k, j, Leaves(right));
    Joined(ts, i, k, j, Leaves(left), Leaves(right));
  }

  lemma {:induction false} ListKept(ts: seq<Token>, i: nat, j: nat, args: seq<Expr>)
    requires ListDerives(ts, i, j, args) && i <= |ts|
    ensures Kept(ts, i, j, ArgLeaves(args))
    decreases j - i, 2
  {
    hide Kept, Derives, Follows, Leaves, TokenLeaves;
    if |args| == 0 {
      hide ArgLeaves;
      Empty(ts, i);
      assert ArgLeaves(args) == [] by { NoLeaves(args); }
    } else {
      hide ArgLeaves;
      var k :| i < k <= j && j <= |ts| && Derives(ts, i, k, args[0], 1) && Follows(Peek(ts, k))
               && ListDerives(ts, AfterComma(ts, k, j), j, args[1..]);
      DerivedKept(ts, i, k, args[0], 1);
      ListKept(ts, AfterComma(ts, k, j), j, args[1..]);
      if AfterComma(ts, k, j) > k {
        Mute(ts, k);
        Silent(ts, k, j, ArgLeaves(args[1..]));
      }
      Joined(ts, i, k, j, Leaves(args[0]), ArgLeaves(args[1..]));
      FirstArg(args);
    }
  }

  lemma Empty(ts: seq<Token>, i: nat)
    ensures Kept(ts, i, i, [])
  {
  }

  lemma NoLeaves(args: seq<Expr>)
    requires |args| == 0
    ensures ArgLeaves(args) == []
  {
  }

  /** Operands and index brackets are conserved: an error-free parse loses, invents and reorders none. */
  lemma OperandsKept(ts: seq<Token>, i: nat)
    requires i <= |ts| && ParseExpression(ts, i).Done? && ParseExpression(ts, i).errs == 0
    ensures Kept(ts, i, ParseExpression(ts, i).next, Leaves(ParseExpression(ts, i).val))
  {
    hide ParseExpression, Derives, Kept, Leaves, Follows;
    ParsedDerives(ts, i);
    DerivedKept(ts, i, ParseExpression(ts, i).next, ParseExpression(ts, i).val, 1);
  }
}
