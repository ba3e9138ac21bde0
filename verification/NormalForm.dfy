/** Normal form is exactly what the round trip needs: without grouping parentheses the parser builds
    normal forms only. */
module NormalForm {
  import opened Tokens
  import opened Decimal
  import opened LexTheorems
  import opened Ast
  import opened Grammar
  import opened Printing
  import opened Derivations
  import opened RoundTrip

  /** The last tokens of printed expressions, and builtin names. */
  predicate Ends(t: TokenType) {
    t.NIL? || t.FALSE? || t.TRUE? || t.BUILTIN_IDENTIFIER? || t.IDENTIFIER? || t.INTEGER? || t.STRING?
    || t.RIGHT_PAREN? || t.RIGHT_BRACKET?
  }

  /** No parenthesis groups an operand, every builtin name is called, and there are no float literals. */
  predicate Ungrouped(ts: seq<Token>) {
    forall k :: 0 <= k < |ts| ==> UngroupedAt(ts, k)
  }

  /** The same of the tokens from lo up to hi. */
  predicate UngroupedIn(ts: seq<Token>, lo: nat, hi: nat) {
    forall k :: lo <= k < hi && k < |ts| ==> UngroupedAt(ts, k)
  }

  predicate UngroupedAt(ts: seq<Token>, k: nat)
    requires k < |ts|
  {
    && (ts[k].ty.LEFT_PAREN? ==> k > 0 && Ends(ts[k - 1].ty))
    && (ts[k].ty.BUILTIN_IDENTIFIER? ==> k + 1 < |ts| && ts[k + 1].ty.LEFT_PAREN?)
    && !ts[k].ty.FLOAT?
  }

  // ---------- Derivations without grouping give normal forms ----------

  lemma InfixIsNoUnary(e: Expr)
    requires e.node.Binary? || e.node.Compare?
    ensures !NormalUnary(e)
  {
    assert !NormalOperand(e);
    assert !NormalPostfix(e);
  }

  /** Behind a token that does not end an expression there is no parenthesis. */
  lemma NoGroupAfter(ts: seq<Token>, lo: nat, hi: nat, i: nat)
    requires i < |ts| && UngroupedIn(ts, lo, hi) && lo <= i && !Ends(ts[i].ty)
    requires i + 1 < hi || i + 1 == |ts|
    ensures !Peek(ts, i + 1).LEFT_PAREN?
  {
    if i + 1 < |ts| {
      assert UngroupedAt(ts, i + 1);
    }
  }

  lemma NarrowUngrouped(ts: seq<Token>, lo: nat, hi: nat, i: nat, j: nat)
    requires UngroupedIn(ts, lo, hi) && lo <= i && j <= hi
    ensures UngroupedIn(ts, i, j)
  {
  }

  lemma {:induction false} DerivedNormal(ts: seq<Token>, i: nat, j: nat, e: Expr, min: nat)
    requires Derives(ts, i, j, e, min) && 1 <= min <= UNARY && UngroupedIn(ts, i, j) && !Peek(ts, i).LEFT_PAREN?
    ensures Normal(e, min)
    decreases j - i, 4
  {
    DerivesMoves(ts, i, j, e, min);
    Unlabelled(ts, i, j, e, min);
    if InfixDerives(ts, i, j, e, min) {
      hide Derives, UngroupedIn, IsCompareOp, Precedence, Normal;
      var op, left, right, k := Sides(ts, i, j, e, min);
      DerivesMoves(ts, k + 1, j, right, Precedence(op));
      NarrowUngrouped(ts, i, j, i, k);
      NarrowUngrouped(ts, i, j, k + 1, j);
      TableEnds(op);
      DerivedNormal(ts, i, k, left, Precedence(op) - 1);
      assert !Ends(op) by { OperatorIsNoEnd(op); }
      NoGroupAfter(ts, i, j, k);
      DerivedNormal(ts, k + 1, j, right, Precedence(op));
      InfixNormal(op, left, right, min);
    } else {
      NotInfix(ts, i, j, e, min);
      hide Derives, UngroupedIn, NormalUnary;
      UnaryNormal(ts, i, j, e);
      if e.node.Binary? || e.node.Compare? { InfixIsNoUnary(e); }
    }
  }

  lemma OperatorIsNoEnd(op: TokenType)
    requires Precedence(op) > 0
    ensures !Ends(op)
  {
  }

  lemma InfixNormal(op: TokenType, left: Expr, right: Expr, min: nat)
    requires Precedence(op) > min >= 1 && Normal(left, Precedence(op) - 1) && Normal(right, Precedence(op))
    ensures Normal(Grammar.Operator(op, left, right), min)
  {
  }

  lemma {:induction false} UnaryNormal(ts: seq<Token>, i: nat, j: nat, e: Expr)
    requires Derives(ts, i, j, e, UNARY) && UngroupedIn(ts, i, j) && !Peek(ts, i).LEFT_PAREN?
    ensures NormalUnary(e)
    decreases j - i, 3
  {
    DerivesMoves(ts, i, j, e, UNARY);
    Unlabelled(ts, i, j, e, UNARY);
    if PrefixDerives(ts, i, j, e) {
      hide Derives, UngroupedIn, NormalUnary;
      var input := Input(ts, i, j, e);
      DerivesMoves(ts, i + 1, j, input, UNARY);
      NoGroupAfter(ts, i, j, i);
      NarrowUngrouped(ts, i, j, i + 1, j);
      UnaryNormal(ts, i + 1, j, input);
      FoldNormal(ts[i].ty, input);
    } else {
      NoInfixAbove(ts, i, j, e, UNARY);
      NotPrefix(ts, i, j, e);
      hide Derives, UngroupedIn, NormalPostfix;
      PostfixNormal(ts, i, j, e);
      PostfixIsUnary(e);
    }
  }

  lemma PostfixIsUnary(e: Expr)
    requires NormalPostfix(e)
    ensures NormalUnary(e)
  {
  }

  lemma FoldNormal(op: TokenType, e: Expr)
    requires IsUnaryOp(op) && NormalUnary(e)
    ensures NormalUnary(Fold(op, e))
  {
    var r := Fold(op, e);
    if r.node.Lit? && !r.node.lit.IntLit? {
      assert e.node.lit.BoolLit? && NormalOperand(r);
      assert NormalPostfix(r);
    }
  }

  lemma {:induction false} PostfixNormal(ts: seq<Token>, i: nat, j: nat, e: Expr)
    requires Derives(ts, i, j, e, POSTFIX) && UngroupedIn(ts, i, j) && !Peek(ts, i).LEFT_PAREN?
    ensures NormalPostfix(e)
    decreases j - i, 2
  {
    DerivesMoves(ts, i, j, e, POSTFIX);
    Unlabelled(ts, i, j, e, POSTFIX);
    if PostfixDerives(ts, i, j, e) {
      hide Derives, UngroupedIn;
      match e.node
      case Call(_, _) => CallNormal(ts, i, j, e);
      case Member(_, _) => MemberNormal(ts, i, j, e);
      case Index(_, _) => IndexNormal(ts, i, j, e);
    } else {
      NoInfixAbove(ts, i, j, e, POSTFIX);
      NotPostfix(ts, i, j, e);
      hide Derives, UngroupedIn, NormalOperand;
      OperandNormal(ts, i, j, e);
      OperandIsPostfix(e);
    }
  }

  lemma {:induction false} CallNormal(ts: seq<Token>, i: nat, j: nat, e: Expr)
    requires e.node.Call? && i < j <= |ts| && PostfixDerives(ts, i, j, e) && e.ty.None?
    requires UngroupedIn(ts, i, j) && !Peek(ts, i).LEFT_PAREN?
    ensures NormalPostfix(e)
    decreases j - i, 1
  {
    hide Derives, UngroupedIn, ListDerives, NormalArgs;
    var fn, args := e.node.fn, e.node.args;
    var k :| i < k && k + 1 < j && Derives(ts, i, k, fn, POSTFIX) && ts[k].ty.LEFT_PAREN?
             && ListDerives(ts, k + 1, j - 1, args) && ts[j - 1].ty.RIGHT_PAREN?;
    NarrowUngrouped(ts, i, j, i, k);
    PostfixNormal(ts, i, k, fn);
    NoGroupAfter(ts, i, j, k);
    NarrowUngrouped(ts, i, j, k + 1, j);
    ListNormal(ts, k + 1, j - 1, args);
  }

  lemma {:induction false} MemberNormal(ts: seq<Token>, i: nat, j: nat, e: Expr)
    requires e.node.Member? && i < j <= |ts| && PostfixDerives(ts, i, j, e) && e.ty.None?
    requires UngroupedIn(ts, i, j) && !Peek(ts, i).LEFT_PAREN?
    ensures NormalPostfix(e)
    decreases j - i, 1
  {
    hide Derives, UngroupedIn, NormalOperand;
    var obj, member := e.node.base, e.node.member;
    var k :| i < k < j && Derives(ts, i, k, obj, POSTFIX) && ts[k].ty.DOT? && Derives(ts, k + 1, j, member, OPERAND);
    DerivesMoves(ts, k + 1, j, member, OPERAND);
    NarrowUngrouped(ts, i, j, i, k);
    PostfixNormal(ts, i, k, obj);
    NoGroupAfter(ts, i, j, k);
    NarrowUngrouped(ts, i, j, k + 1, j);
    OperandNormal(ts, k + 1, j, member);
  }

  lemma {:induction false} IndexNormal(ts: seq<Token>, i: nat, j: nat, e: Expr)
    requires e.node.Index? && i < j <= |ts| && PostfixDerives(ts, i, j, e) && e.ty.None?
    requires UngroupedIn(ts, i, j) && !Peek(ts, i).LEFT_PAREN?
    ensures NormalPostfix(e)
    decreases j - i, 1
  {
    hide Derives, UngroupedIn, Normal;
    var obj, index := e.node.obj, e.node.index;
    var k :| i < k && k + 1 < j && Derives(ts, i, k, obj, POSTFIX) && ts[k].ty.LEFT_BRACKET?
             && Derives(ts, k + 1, j - 1, index, 1) && ts[j - 1].ty.RIGHT_BRACKET?;
    NarrowUngrouped(ts, i, j, i, k);
    PostfixNormal(ts, i, k, obj);
    NoGroupAfter(ts, i, j, k);
    NarrowUngrouped(ts, i, j, k + 1, j - 1);
    DerivedNormal(ts, k + 1, j - 1, index, 1);
  }

  lemma OperandIsPostfix(e: Expr)
    requires NormalOperand(e)
    ensures NormalPostfix(e)
  {
  }

  lemma {:induction false} OperandNormal(ts: seq<Token>, i: nat, j: nat, e: Expr)
    requires Derives(ts, i, j, e, OPERAND) && UngroupedIn(ts, i, j) && !Peek(ts, i).LEFT_PAREN?
    ensures NormalOperand(e)
    decreases j - i, 1
  {
    hide ListDerives, StrToReal, DigitsValue;
    DerivesMoves(ts, i, j, e, OPERAND);
    Unlabelled(ts, i, j, e, OPERAND);
    NoInfixAbove(ts, i, j, e, OPERAND);
    assert OperandDerives(ts, i, j, e);
    hide Derives, NormalArgs;
    assert UngroupedAt(ts, i);
    if e.node.BuiltinCall? {
      assert ts[i + 1].ty.LEFT_PAREN?;
      NoGroupAfter(ts, i, j, i + 1);
      NarrowUngrouped(ts, i, j, i + 2, j);
      ListNormal(ts, i + 2, j - 1, e.node.actuals);
    }
  }

  lemma {:induction false} ListNormal(ts: seq<Token>, i: nat, j: nat, args: seq<Expr>)
    requires ListDerives(ts, i, j, args) && j < |ts| && UngroupedIn(ts, i, j + 1) && !Peek(ts, i).LEFT_PAREN?
    ensures NormalArgs(args)
    decreases j - i, 5
  {
    hide Derives, UngroupedIn, NormalArgs;
    if |args| == 0 {
      FewNormal(args);
    } else {
      var k :| i < k <= j && j <= |ts| && Derives(ts, i, k, args[0], 1) && Follows(Peek(ts, k))
               && ListDerives(ts, AfterComma(ts, k, j), j, args[1..]);
      var next := AfterComma(ts, k, j);
      hide ListDerives, Normal;
      NarrowUngrouped(ts, i, j + 1, i, k);
      DerivedNormal(ts, i, k, args[0], 1);
      NoGroupNext(ts, i, k, j);
      hide Follows, AfterComma;
      NarrowUngrouped(ts, i, j + 1, next, j + 1);
      ListNormal(ts, next, j, args[1..]);
      MoreNormal(args);
    }
  }

  lemma FewNormal(args: seq<Expr>)
    requires |args| == 0
    ensures NormalArgs(args)
  {
  }

  lemma MoreNormal(args: seq<Expr>)
    requires |args| > 0 && Normal(args[0], 1) && NormalArgs(args[1..])
    ensures NormalArgs(args)
  {
    hide Normal;
    assert forall n :: 0 < n < |args| ==> args[n] == args[1..][n - 1];
  }

  /** The next argument starts without a parenthesis, with a comma in front or not. */
  lemma NoGroupNext(ts: seq<Token>, i: nat, k: nat, j: nat)
    requires i <= k <= j < |ts| && UngroupedIn(ts, i, j + 1) && Follows(Peek(ts, k))
    ensures !Peek(ts, AfterComma(ts, k, j)).LEFT_PAREN?
  {
    hide UngroupedIn, Precedence;
    if AfterComma(ts, k, j) > k { NoGroupAfter(ts, i, j + 1, k); }
  }

  /** An error-free parse of tokens without grouping is in normal form. */
  lemma ParsedIsNormal(ts: seq<Token>, lo: nat, hi: nat, i: nat)
    requires i <= |ts| && UngroupedIn(ts, lo, hi) && lo <= i && !Peek(ts, i).LEFT_PAREN?
    requires ParseExpression(ts, i).Done? && ParseExpression(ts, i).errs == 0
    requires ParseExpression(ts, i).next <= hi
    ensures Normal(ParseExpression(ts, i).val, 1)
  {
    hide ParseExpression, Derives, Normal, UngroupedIn, Follows;
    var r := ParseExpression(ts, i);
    ParsedDerives(ts, i);
    NarrowUngrouped(ts, lo, hi, i, r.next);
    DerivedNormal(ts, i, r.next, r.val, 1);
  }

  // ---------- Printed tokens have no grouping parentheses ----------

  predicate Phrase(ts: seq<Token>) {
    |ts| > 0 && Ungrouped(ts) && Ends(ts[|ts| - 1].ty)
  }

  lemma UngroupedAppend(a: seq<Token>, b: seq<Token>)
    requires Ungrouped(a) && Ungrouped(b)
    ensures Ungrouped(a + b)
  {
    forall k | 0 <= k < |a + b| ensures UngroupedAt(a + b, k) {
      if k < |a| {
        assert UngroupedAt(a, k);
      } else {
        assert UngroupedAt(b, k - |a|);
      }
    }
  }

  lemma UngroupedOne(t: Token)
    requires !t.ty.LEFT_PAREN? && !t.ty.BUILTIN_IDENTIFIER? && !t.ty.FLOAT?
    ensures Ungrouped([t])
  {
  }

  lemma UngroupedCall(a: seq<Token>, b: seq<Token>)
    requires Phrase(a) && Ungrouped(b)
    ensures Phrase(a + [Sign(LEFT_PAREN)] + b + [Sign(RIGHT_PAREN)])
  {
    var ts := a + [Sign(LEFT_PAREN)] + b + [Sign(RIGHT_PAREN)];
    forall k | 0 <= k < |ts| ensures UngroupedAt(ts, k) {
      if k < |a| {
        assert UngroupedAt(a, k);
      } else if |a| < k <= |a| + |b| {
        assert UngroupedAt(b, k - |a| - 1);
      }
    }
  }

  lemma UngroupedBuiltin(name: string, b: seq<Token>)
    requires Ungrouped(b)
    ensures Phrase([Token(BUILTIN_IDENTIFIER, name)] + [Sign(LEFT_PAREN)] + b + [Sign(RIGHT_PAREN)])
  {
    var ts := [Token(BUILTIN_IDENTIFIER, name)] + [Sign(LEFT_PAREN)] + b + [Sign(RIGHT_PAREN)];
    forall k | 0 <= k < |ts| ensures UngroupedAt(ts, k) {
      if 2 <= k < 2 + |b| {
        assert UngroupedAt(b, k - 2);
      }
    }
  }

  lemma PhraseJoined(a: seq<Token>, t: Token, b: seq<Token>)
    requires Phrase(a) && Phrase(b) && !t.ty.LEFT_PAREN? && !t.ty.BUILTIN_IDENTIFIER? && !t.ty.FLOAT?
    ensures Phrase(a + [t] + b)
  {
    hide Ungrouped;
    UngroupedOne(t);
    UngroupedAppend(a, [t]);
    UngroupedAppend(a + [t], b);
    assert (a + [t] + b)[|a| + |b|] == b[|b| - 1];
  }

  lemma {:induction false} ToksPhrase(e: Expr)
    requires Printable(e)
    ensures Phrase(Toks(e))
    decreases e
  {
    hide TokensOf, Ungrouped, Phrase;
    match e.node
    case Lit(lit) => LiteralPhrase(e);
    case Ident(name) =>
      TokensOfOne(Token(IDENTIFIER, name));
      OnePhrase(Token(IDENTIFIER, name));
    case Binary(op, left, right) => InfixPhrase(e, op, left, right);
    case Compare(op, left, right) => InfixPhrase(e, op, left, right);
    case Unary(op, input) =>
      TokensOfMark(op, Chunks(input));
      ToksPhrase(input);
      PrefixPhrase(op, Toks(input));
    case Call(fn, args) =>
      BracketToks(Chunks(fn), LEFT_PAREN, ArgChunks(args), RIGHT_PAREN);
      ToksPhrase(fn);
      ArgsUngrouped(args);
      UngroupedCall(Toks(fn), ArgToks(args));
    case BuiltinCall(fn, args) =>
      var name := Token(BUILTIN_IDENTIFIER, fn.node.name);
      assert [Spelt(name), Mark(LEFT_PAREN)] == [Spelt(name)] + [Mark(LEFT_PAREN)];
      BracketToks([Spelt(name)], LEFT_PAREN, ArgChunks(args), RIGHT_PAREN);
      TokensOfOne(name);
      ArgsUngrouped(args);
      UngroupedBuiltin(fn.node.name, ArgToks(args));
    case Index(obj, index) => IndexPhrase(e);
    case Member(obj, member) => MemberPhrase(e);
    case Cast(kind, input) =>
      var name := Token(IDENTIFIER, CastName(kind));
      assert [Spelt(name), Mark(LEFT_PAREN)] == [Spelt(name)] + [Mark(LEFT_PAREN)];
      BracketToks([Spelt(name)], LEFT_PAREN, Chunks(input), RIGHT_PAREN);
      TokensOfOne(name);
      OnePhrase(name);
      ToksPhrase(input);
      assert Ungrouped(Toks(input)) by { PhraseIsUngrouped(Toks(input)); }
      UngroupedCall([name], Toks(input));
  }

  lemma PhraseIsUngrouped(ts: seq<Token>)
    requires Phrase(ts)
    ensures |ts| > 0 && Ungrouped(ts) && Ends(ts[|ts| - 1].ty)
  {
  }

  lemma UngroupedThere(ts: seq<Token>, k: nat)
    requires Ungrouped(ts) && k < |ts|
    ensures UngroupedAt(ts, k)
  {
  }

  lemma OnePhrase(t: Token)
    requires Ends(t.ty) && !t.ty.BUILTIN_IDENTIFIER?
    ensures Phrase([t])
  {
  }

  lemma PrefixPhrase(op: TokenType, ts: seq<Token>)
    requires IsUnaryOp(op) && Phrase(ts)
    ensures Phrase([Sign(op)] + ts)
  {
    UngroupedOne(Sign(op));
    UngroupedAppend([Sign(op)], ts);
  }

  lemma LiteralPhrase(e: Expr)
    requires e.node.Lit? && Printable(e)
    ensures Phrase(Toks(e))
  {
    hide TokensOf, Ungrouped, Phrase, Dec;
    match e.node.lit
    case NilLit => TokensOfOne(Sign(NIL)); OnePhrase(Sign(NIL));
    case BoolLit(b) => TokensOfOne(Sign(if b then TRUE else FALSE)); OnePhrase(Sign(if b then TRUE else FALSE));
    case StringLit(s) => TokensOfOne(Token(STRING, s)); OnePhrase(Token(STRING, s));
    case IntLit(n) =>
      var t := Token(INTEGER, Dec(if n < 0 then -n else n));
      TokensOfOne(t);
      OnePhrase(t);
      if n < 0 {
        assert Chunks(e) == [Mark(MINUS)] + [Spelt(t)];
        TokensOfMark(MINUS, [Spelt(t)]);
        PrefixPhrase(MINUS, [t]);
      }
  }

  lemma {:induction false} InfixPhrase(e: Expr, op: TokenType, left: Expr, right: Expr)
    requires e.node == Binary(op, left, right) || e.node == Compare(op, left, right)
    requires Printable(e)
    ensures Phrase(Toks(e))
    decreases e, 0
  {
    hide TokensOf, Ungrouped, Phrase;
    InfixToks(op, left, right);
    ToksPhrase(left);
    ToksPhrase(right);
    PhraseJoined(Toks(left), Sign(op), Toks(right));
  }

  lemma {:induction false} IndexPhrase(e: Expr)
    requires e.node.Index? && Printable(e)
    ensures Phrase(Toks(e))
    decreases e, 0
  {
    hide TokensOf, Ungrouped, Phrase;
    var obj, index := e.node.obj, e.node.index;
    BracketToks(Chunks(obj), LEFT_BRACKET, Chunks(index), RIGHT_BRACKET);
    ToksPhrase(obj);
    ToksPhrase(index);
    PhraseJoined(Toks(obj), Sign(LEFT_BRACKET), Toks(index));
    PhraseClosed(Toks(obj) + [Sign(LEFT_BRACKET)] + Toks(index));
  }

  lemma PhraseClosed(ts: seq<Token>)
    requires Phrase(ts)
    ensures Phrase(ts + [Sign(RIGHT_BRACKET)])
  {
    UngroupedOne(Sign(RIGHT_BRACKET));
    UngroupedAppend(ts, [Sign(RIGHT_BRACKET)]);
  }

  lemma {:induction false} MemberPhrase(e: Expr)
    requires e.node.Member? && Printable(e)
    ensures Phrase(Toks(e))
    decreases e, 0
  {
    hide TokensOf, Ungrouped, Phrase;
    var obj, member := e.node.base, e.node.member;
    TokensAppend(Chunks(obj) + [Mark(DOT)], Chunks(member));
    TokensAppend(Chunks(obj), [Mark(DOT)]);
    TokensOfOne(Sign(DOT));
    ToksPhrase(obj);
    ToksPhrase(member);
    PhraseJoined(Toks(obj), Sign(DOT), Toks(member));
  }

  lemma {:induction false} ArgsUngrouped(args: seq<Expr>)
    requires forall i :: 0 <= i < |args| ==> Printable(args[i])
    ensures Ungrouped(ArgToks(args))
    decreases args
  {
    hide TokensOf, Ungrouped, Phrase, Printable, Chunks;
    if |args| == 0 {
      NoTokens();
      NothingUngrouped();
    } else {
      ToksPhrase(args[0]);
      PhraseIsUngrouped(Toks(args[0]));
      if |args| > 1 {
        CommaToks(Chunks(args[0]), ArgChunks(args[1..]));
        ArgsUngrouped(args[1..]);
        UngroupedOne(Sign(COMMA));
        UngroupedAppend(Toks(args[0]), [Sign(COMMA)]);
        UngroupedAppend(Toks(args[0]) + [Sign(COMMA)], ArgToks(args[1..]));
      }
    }
  }

  lemma NothingUngrouped()
    ensures Ungrouped([])
  {
  }

  // ---------- The theorem ----------

  /** Round trip, exactly: parsing the printed tokens of a tree returns that tree from exactly those
      tokens, without an error, if and only if the tree is in normal form. */
  lemma {:induction false} RoundTripExact(e: Expr)
    requires Printable(e)
    ensures ParseExpression(Toks(e), 0) == Done(e, |Toks(e)|, 0) <==> Normal(e, 1)
  {
    hide TokensOf, Ungrouped, Normal, Printable, ParseExpression;
    ToksPhrase(e);
    PhraseIsUngrouped(Toks(e));
    if Normal(e, 1) {
      ExpressionRebuilds(Toks(e), 0, e);
    } else if ParseExpression(Toks(e), 0) == Done(e, |Toks(e)|, 0) {
      NoGroupFirst(Toks(e));
      ParsedIsNormal(Toks(e), 0, |Toks(e)|, 0);
    }
  }

  lemma NoGroupFirst(ts: seq<Token>)
    requires Ungrouped(ts)
    ensures !Peek(ts, 0).LEFT_PAREN?
  {
    if |ts| > 0 {
      assert UngroupedAt(ts, 0);
    }
  }

  /** Grouping is what the printer loses: (a + b) * c prints as a + b * c, which parses differently. */
  lemma GroupingIsLost(a: string, b: string, c: string)
    ensures var sum := Fresh(Binary(PLUS, Fresh(Ident(a)), Fresh(Ident(b))));
            var e := Fresh(Binary(STAR, sum, Fresh(Ident(c))));
            Printable(e) && ParseExpression(Toks(e), 0) != Done(e, |Toks(e)|, 0)
  {
    var x, y, z := Fresh(Ident(a)), Fresh(Ident(b)), Fresh(Ident(c));
    assert Printable(x) && Printable(y) && Printable(z);
    var sum := Fresh(Binary(PLUS, x, y));
    assert Printable(sum);
    var e := Fresh(Binary(STAR, sum, z));
    assert Printable(e);
    RoundTripExact(e);
    assert !Normal(sum, 11);
  }
}
