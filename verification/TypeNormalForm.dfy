/** Which printed types parse back: exactly those whose array lengths do. */
module TypeNormalForm {
  import opened Options
  import opened Tokens
  import opened Decimal
  import opened LexTheorems
  import opened Ast
  import opened Grammar
  import opened Printing
  import opened RoundTrip
  import opened NormalForm
  import opened TypeDerivations
  import opened TypeRoundTrip
  import opened Derivations

  import O = Operands

  // ---------- Operands and brackets of printed tokens ----------

  /** How many operands and index brackets there are. */
  function Count(ts: seq<Token>): nat {
    if |ts| == 0 then 0 else |O.TokenLeaves(ts[0])| + Count(ts[1..])
  }

  lemma {:induction false} CountAppend(a: seq<Token>, b: seq<Token>)
    ensures Count(a + b) == Count(a) + Count(b)
  {
    hide O.TokenLeaves;
    if |a| == 0 {
      assert a + b == b;
    } else {
      assert (a + b)[1..] == a[1..] + b;
      CountAppend(a[1..], b);
    }
  }

  lemma CountOne(t: Token)
    ensures Count([t]) == |O.TokenLeaves(t)|
  {
    hide O.TokenLeaves;
    assert [t][1..] == [];
  }

  lemma CountSign(t: TokenType)
    requires IsInfix(t) || IsUnaryOp(t) || t.LEFT_PAREN? || t.RIGHT_PAREN? || t.DOT? || t.COMMA?
    ensures Count([Sign(t)]) == 0
  {
    hide Text;
    CountOne(Sign(t));
  }

  lemma CountAround(a: seq<Token>, t: Token, b: seq<Token>)
    ensures Count(a + [t] + b) == Count(a) + |O.TokenLeaves(t)| + Count(b)
  {
    CountAppend(a + [t], b);
    CountAppend(a, [t]);
    CountOne(t);
  }

  /** Printing keeps the number of operands and index brackets. */
  lemma {:induction false} CountToks(e: Expr)
    requires Printable(e)
    ensures Count(Toks(e)) == |O.Leaves(e)|
    decreases e
  {
    hide TokensOf, Count;
    match e.node
    case Lit(lit) => CountLiteral(e);
    case Ident(name) =>
      TokensOfOne(Token(IDENTIFIER, name));
      CountOne(Token(IDENTIFIER, name));
    case Binary(op, left, right) => CountInfix(e, op, left, right);
    case Compare(op, left, right) => CountInfix(e, op, left, right);
    case Unary(op, input) =>
      TokensOfMark(op, Chunks(input));
      CountToks(input);
      CountSign(op);
      CountAppend([Sign(op)], Toks(input));
    case Call(_, _) => CountCall(e);
    case BuiltinCall(_, _) => CountBuiltin(e);
    case Index(_, _) => CountIndex(e);
    case Member(_, _) => CountMember(e);
    case Cast(_, _) => CountCast(e);
  }

  lemma CountLiteral(e: Expr)
    requires e.node.Lit? && Printable(e)
    ensures Count(Toks(e)) == 1
  {
    hide TokensOf, Count, Dec;
    match e.node.lit
    case NilLit => TokensOfOne(Sign(NIL)); CountOne(Sign(NIL));
    case BoolLit(b) =>
      var t := Sign(if b then TRUE else FALSE);
      TokensOfOne(t);
      CountOne(t);
    case StringLit(s) => TokensOfOne(Token(STRING, s)); CountOne(Token(STRING, s));
    case IntLit(n) =>
      var t := Token(INTEGER, Dec(if n < 0 then -n else n));
      TokensOfOne(t);
      CountOne(t);
      if n < 0 {
        assert Chunks(e) == [Mark(MINUS)] + [Spelt(t)];
        TokensOfMark(MINUS, [Spelt(t)]);
        CountSign(MINUS);
        CountAppend([Sign(MINUS)], [t]);
      }
  }

  lemma {:induction false} CountInfix(e: Expr, op: TokenType, left: Expr, right: Expr)
    requires e.node == Binary(op, left, right) || e.node == Compare(op, left, right)
    requires Printable(e)
    ensures Count(Toks(e)) == |O.Leaves(e)|
    decreases e, 0
  {
    hide TokensOf, Count, IsInfix;
    InfixToks(op, left, right);
    CountToks(left);
    CountToks(right);
    CountSign(op);
    CountOne(Sign(op));
    CountAround(Toks(left), Sign(op), Toks(right));
  }

  lemma CountParens(before: seq<Token>, inner: seq<Token>)
    ensures Count(before + [Sign(LEFT_PAREN)] + inner + [Sign(RIGHT_PAREN)]) == Count(before) + Count(inner)
  {
    hide Count, Sign;
    CountSign(LEFT_PAREN);
    CountSign(RIGHT_PAREN);
    CountAppend(before + [Sign(LEFT_PAREN)] + inner, [Sign(RIGHT_PAREN)]);
    CountAppend(before + [Sign(LEFT_PAREN)], inner);
    CountAppend(before, [Sign(LEFT_PAREN)]);
  }

  lemma {:induction false} CountCall(e: Expr)
    requires e.node.Call? && Printable(e)
    ensures Count(Toks(e)) == |O.Leaves(e)|
    decreases e, 0
  {
    hide TokensOf, Count;
    var fn, args := e.node.fn, e.node.args;
    BracketToks(Chunks(fn), LEFT_PAREN, ArgChunks(args), RIGHT_PAREN);
    CountParens(Toks(fn), ArgToks(args));
    CountToks(fn);
    CountArgs(args);
  }

  lemma {:induction false} CountBuiltin(e: Expr)
    requires e.node.BuiltinCall? && Printable(e)
    ensures Count(Toks(e)) == |O.Leaves(e)|
    decreases e, 0
  {
    hide TokensOf, Count;
    var name, args := Token(BUILTIN_IDENTIFIER, e.node.builtin.node.name), e.node.actuals;
    assert [Spelt(name), Mark(LEFT_PAREN)] == [Spelt(name)] + [Mark(LEFT_PAREN)];
    BracketToks([Spelt(name)], LEFT_PAREN, ArgChunks(args), RIGHT_PAREN);
    TokensOfOne(name);
    CountOne(name);
    CountParens([name], ArgToks(args));
    CountArgs(args);
  }

  lemma {:induction false} CountCast(e: Expr)
    requires e.node.Cast? && Printable(e)
    ensures Count(Toks(e)) == |O.Leaves(e)|
    decreases e, 0
  {
    hide TokensOf, Count;
    var name, input := Token(IDENTIFIER, CastName(e.node.cast)), e.node.from;
    assert [Spelt(name), Mark(LEFT_PAREN)] == [Spelt(name)] + [Mark(LEFT_PAREN)];
    BracketToks([Spelt(name)], LEFT_PAREN, Chunks(input), RIGHT_PAREN);
    TokensOfOne(name);
    CountOne(name);
    CountParens([name], Toks(input));
    CountToks(input);
  }

  lemma {:induction false} CountIndex(e: Expr)
    requires e.node.Index? && Printable(e)
    ensures Count(Toks(e)) == |O.Leaves(e)|
    decreases e, 0
  {
    hide TokensOf, Count;
    var obj, index := e.node.obj, e.node.index;
    BracketToks(Chunks(obj), LEFT_BRACKET, Chunks(index), RIGHT_BRACKET);
    CountToks(obj);
    CountToks(index);
    CountAppend(Toks(obj) + [Sign(LEFT_BRACKET)] + Toks(index), [Sign(RIGHT_BRACKET)]);
    CountAround(Toks(obj), Sign(LEFT_BRACKET), Toks(index));
    CountOne(Sign(RIGHT_BRACKET));
  }

  lemma {:induction false} CountMember(e: Expr)
    requires e.node.Member? && Printable(e)
    ensures Count(Toks(e)) == |O.Leaves(e)|
    decreases e, 0
  {
    hide TokensOf, Count;
    var obj, member := e.node.base, e.node.member;
    TokensAppend(Chunks(obj) + [Mark(DOT)], Chunks(member));
    TokensAppend(Chunks(obj), [Mark(DOT)]);
    TokensOfOne(Sign(DOT));
    CountToks(obj);
    CountToks(member);
    CountSign(DOT);
    CountOne(Sign(DOT));
    CountAround(Toks(obj), Sign(DOT), Toks(member));
  }

  lemma {:induction false} CountArgs(args: seq<Expr>)
    requires forall i :: 0 <= i < |args| ==> Printable(args[i])
    ensures Count(ArgToks(args)) == |O.ArgLeaves(args)|
    decreases args
  {
    hide TokensOf, Count, Printable, Chunks, O.Leaves;
    if |args| == 0 {
      NoTokens();
      assert Count([]) == 0 by { CountNothing(); }
    } else {
      CountToks(args[0]);
      O.FirstArg(args);
      if |args| > 1 {
        CommaToks(Chunks(args[0]), ArgChunks(args[1..]));
        CountArgs(args[1..]);
        CountSign(COMMA);
        CountOne(Sign(COMMA));
        CountAround(Toks(args[0]), Sign(COMMA), ArgToks(args[1..]));
      }
    }
  }

  lemma CountNothing()
    ensures Count([]) == 0
  {
  }

  // ---------- An index in brackets ends at its bracket ----------

  lemma {:induction false} CountBetween(ts: seq<Token>, i: nat, j: nat)
    requires i <= j <= |ts|
    requires forall k :: i <= k < j ==> CalledAt(ts, k, j)
    ensures O.Reaches(ts, i, j) && |O.Between(ts, i, j)| == Count(ts[i..j])
    decreases j - i
  {
    hide O.TokenLeaves;
    if i < j {
      assert CalledAt(ts, i, j);
      assert ts[i..j][1..] == ts[i + 1..j];
      if ts[i].ty.BUILTIN_IDENTIFIER? {
        CountBetween(ts, i + 2, j);
        assert ts[i + 1..j][1..] == ts[i + 2..j];
        assert |O.TokenLeaves(ts[i + 1])| == 0 by { O.Mute(ts, i + 1); }
      } else {
        CountBetween(ts, i + 1, j);
      }
    }
  }

  lemma {:induction false} ReachesOn(ts: seq<Token>, i: nat, j: nat, k: nat)
    requires O.Reaches(ts, i, j) && O.Reaches(ts, i, k) && j <= k
    ensures O.Reaches(ts, j, k)
    decreases j - i
  {
    if i < j {
      ReachesOn(ts, O.Step(ts, i), j, k);
    }
  }

  /** Parsing never crosses the bracket behind the tokens of the tree it returns. */
  lemma StopsAtBracket(ts: seq<Token>, i: nat, e: Expr)
    requires Printable(e) && Stands(ts, i, Toks(e)) && Peek(ts, i + |Toks(e)|).RIGHT_BRACKET?
    requires ParseExpression(ts, i).Done? && ParseExpression(ts, i).errs == 0 && ParseExpression(ts, i).val == e
    ensures ParseExpression(ts, i).next <= i + |Toks(e)|
  {
    hide ParseExpression, Toks, Printable, O.Leaves, Count;
    var b, next := i + |Toks(e)|, ParseExpression(ts, i).next;
    O.OperandsKept(ts, i);
    CalledBuiltins(ts, i, e);
    CountBetween(ts, i, b);
    CountToks(e);
    if b < next {
      ReachesOn(ts, i, b, next);
      O.Joined(ts, i, b, next, O.Between(ts, i, b), O.Between(ts, b, next));
      CloseCounts(ts, b, next);
    }
  }

  lemma CloseCounts(ts: seq<Token>, b: nat, next: nat)
    requires Peek(ts, b).RIGHT_BRACKET? && b < next <= |ts|
    ensures |O.Between(ts, b, next)| > 0
  {
  }

  lemma CalledBuiltins(ts: seq<Token>, i: nat, e: Expr)
    requires Printable(e) && Stands(ts, i, Toks(e))
    ensures var j := i + |Toks(e)|;
            && (forall k :: i <= k < j ==> CalledAt(ts, k, j))
            && UngroupedIn(ts, i, j) && !Peek(ts, i).LEFT_PAREN?
  {
    hide Toks, Printable, Ungrouped, CalledAt;
    ToksPhrase(e);
    var xs := Toks(e);
    PhraseIsUngrouped(xs);
    var j := i + |xs|;
    forall k | i <= k < j ensures CalledAt(ts, k, j) { UngroupedShifted(ts, i, xs, k); }
    forall k | i <= k < j ensures UngroupedAt(ts, k) { UngroupedShifted(ts, i, xs, k); }
    UngroupedShifted(ts, i, xs, i);
  }

  predicate CalledAt(ts: seq<Token>, k: nat, j: nat)
    requires k < j <= |ts|
  {
    ts[k].ty.BUILTIN_IDENTIFIER? ==> k + 1 < j && ts[k + 1].ty.LEFT_PAREN?
  }

  lemma UngroupedShifted(ts: seq<Token>, i: nat, xs: seq<Token>, k: nat)
    requires Stands(ts, i, xs) && Ungrouped(xs) && i <= k < i + |xs|
    ensures CalledAt(ts, k, i + |xs|) && UngroupedAt(ts, k) && (k == i ==> !ts[k].ty.LEFT_PAREN?)
  {
    hide Ungrouped;
    UngroupedThere(xs, k - i);
    assert ts[k] == xs[k - i] && (k > i ==> ts[k - 1] == xs[k - i - 1]);
    assert k + 1 < i + |xs| ==> ts[k + 1] == xs[k - i + 1];
  }

  /** A length that its tokens derive between brackets is in normal form, does not start with a star, and
      ends at its bracket. */
  lemma LengthNormal(ts: seq<Token>, i: nat, k: nat, e: Expr)
    requires Printable(e) && Stands(ts, i, Toks(e)) && Peek(ts, i + |Toks(e)|).RIGHT_BRACKET?
    requires Derives(ts, i, k, e, 1) && Peek(ts, k).RIGHT_BRACKET? && !Peek(ts, i).STAR?
    ensures Normal(e, 1) && !DereferencesFirst(e) && k == i + |Toks(e)|
  {
    hide ParseExpression, Derives, Toks, Printable, Normal, UngroupedIn, Follows;
    var b := i + |Toks(e)|;
    DerivesMoves(ts, i, k, e, 1);
    BracketStops(ts, k);
    BracketStops(ts, b);
    Derivations.DerivedParses(ts, i, k, e);
    StopsAtBracket(ts, i, e);
    CalledBuiltins(ts, i, e);
    NarrowUngrouped(ts, i, b, i, k);
    DerivedNormal(ts, i, k, e, 1);
    NormalDerives(ts, i, e, 1);
    Derivations.DerivedParses(ts, i, b, e);
    FirstToken(e, 1);
    StandsFirst(ts, i, Toks(e));
  }

  // ---------- Types ----------

  /** A type that derives from its printed tokens is normal. */
  lemma {:induction false} TypeNormal(ts: seq<Token>, i: nat, j: nat, t: TypeRepr)
    requires PrintableType(t) && Stands(ts, i, TypeToks(t)) && TypeDerives(ts, i, j, t)
    ensures NormalType(t)
    decreases t, 1
  {
    hide TypeToks, Stands;
    match t
    case Named(_) =>
    case PointerTo(_) =>
      PointerParts(ts, i, t);
      TypeNormal(ts, i + 1, j, t.base);
    case ArrayOf(_, _) => ArrayNormal(ts, i, j, t);
    case MapFrom(_, _) => MapNormal(ts, i, j, t);
    case FunctionFrom(_, _) => FunctionNormal(ts, i, j, t);
  }

  /** Tokens derive a type up to one place only. */
  lemma TypeEnds(ts: seq<Token>, i: nat, j: nat, k: nat, t: TypeRepr)
    requires TypeDerives(ts, i, j, t) && TypeDerives(ts, i, k, t)
    ensures j == k
  {
    hide TypeDerives, ParseType;
    TypeDerivations.DerivedParses(ts, i, j, t);
    TypeDerivations.DerivedParses(ts, i, k, t);
  }

  lemma {:induction false} ArrayNormal(ts: seq<Token>, i: nat, j: nat, t: TypeRepr)
    requires t.ArrayOf? && PrintableType(t) && Stands(ts, i, TypeToks(t)) && TypeDerives(ts, i, j, t)
    ensures NormalType(t)
    decreases t, 0
  {
    hide TypeToks, Stands, LengthChunks, LengthDerives, Normal, Printable, DereferencesFirst;
    var k :| i < k < j && ts[k].ty.RIGHT_BRACKET? && LengthDerives(ts, i + 1, k, t.length) && TypeDerives(ts, k + 1, j, t.elem);
    ArrayParts(ts, i, t);
    LengthEnds(ts, i + 1, k, t.length);
    TypeNormal(ts, k + 1, j, t.elem);
  }

  lemma LengthEnds(ts: seq<Token>, i: nat, k: nat, length: Option<Expr>)
    requires length.Some? ==> Printable(length.value)
    requires var n := TokensOf(LengthChunks(length)); Stands(ts, i, n) && Peek(ts, i + |n|).RIGHT_BRACKET?
    requires LengthDerives(ts, i, k, length) && Peek(ts, k).RIGHT_BRACKET?
    ensures k == i + |TokensOf(LengthChunks(length))|
    ensures length.Some? ==> Normal(length.value, 1) && !DereferencesFirst(length.value)
  {
    hide TokensOf, Stands, Derives, Normal, Printable, Chunks, DereferencesFirst;
    if length.Some? {
      LengthNormal(ts, i, k, length.value);
    } else {
      TokensOfOne(Sign(STAR));
    }
  }

  lemma {:induction false} MapNormal(ts: seq<Token>, i: nat, j: nat, t: TypeRepr)
    requires t.MapFrom? && PrintableType(t) && Stands(ts, i, TypeToks(t)) && TypeDerives(ts, i, j, t)
    ensures NormalType(t)
    decreases t, 0
  {
    hide TypeToks, Stands;
    var k :| i + 2 < k < j && TypeDerives(ts, i + 2, k, t.key) && ts[k].ty.RIGHT_BRACKET? && TypeDerives(ts, k + 1, j, t.val);
    hide TypeDerives;
    MapParts(ts, i, t);
    TypeNormal(ts, i + 2, k, t.key);
    NormalTypeDerives(ts, i + 2, t.key);
    TypeEnds(ts, i + 2, k, i + 2 + |TypeToks(t.key)|, t.key);
    TypeNormal(ts, k + 1, j, t.val);
  }

  lemma {:induction false} FunctionNormal(ts: seq<Token>, i: nat, j: nat, t: TypeRepr)
    requires t.FunctionFrom? && PrintableType(t) && Stands(ts, i, TypeToks(t)) && TypeDerives(ts, i, j, t)
    ensures NormalType(t)
    decreases t, 0
  {
    hide TypeToks, ParamToks, Stands, ParamsDerive, ParseParams;
    var k :| i < k && k + 1 < j && ParamsDerive(ts, i + 1, k, t.params) && ts[k].ty.RIGHT_PAREN?
             && ts[k + 1].ty.ARROW? && TypeDerives(ts, k + 2, j, t.ret);
    hide TypeDerives;
    var b := i + 1 + |ParamToks(t.params)|;
    FunctionParts(ts, i, t);
    ParamsNormal(ts, i + 1, k, t.params);
    ParamsRebuild(ts, i + 1, t.params);
    ParamsDerived(ts, i + 1, k, [], t.params);
    ParamsDerived(ts, i + 1, b, [], t.params);
    TypeNormal(ts, k + 2, j, t.ret);
  }

  lemma {:induction false} ParamsNormal(ts: seq<Token>, i: nat, j: nat, params: seq<FieldRepr>)
    requires forall k :: 0 <= k < |params| ==> PrintableType(params[k].ty)
    requires Stands(ts, i, ParamToks(params)) && ParamsDerive(ts, i, j, params)
    ensures forall k :: 0 <= k < |params| ==> NormalType(params[k].ty)
    decreases params, 0
  {
    hide Stands, TokensOf, ParamDerives, ParseParam, NormalType, PrintableType, ParamChunk;
    if |params| > 0 {
      var first, rest := params[0], params[1..];
      var k :| i < k <= j && j <= |ts| && ParamDerives(ts, i, k, first)
               && if k == j then |params| == 1 else ts[k].ty.COMMA? && ParamsDerive(ts, k + 1, j, rest);
      hide ParamsDerive;
      FirstParam(ts, i, params);
      ParamNormal(ts, i, k, first);
      ParamRebuilds(ts, i, first);
      ParamDerived(ts, i, k, first);
      ParamDerived(ts, i, i + |TokensOf(ParamChunk(first))|, first);
      if |rest| > 0 {
        ParamsNormal(ts, k + 1, j, rest);
      }
      forall n | 0 <= n < |params| ensures NormalType(params[n].ty) {
        if n > 0 { assert params[n] == rest[n - 1]; }
      }
    }
  }

  lemma FirstParam(ts: seq<Token>, i: nat, params: seq<FieldRepr>)
    requires |params| > 0 && forall k :: 0 <= k < |params| ==> PrintableType(params[k].ty)
    requires Stands(ts, i, ParamToks(params))
    ensures var j := i + |TokensOf(ParamChunk(params[0]))|;
            && Stands(ts, i, TokensOf(ParamChunk(params[0]))) && i < |ts| && !ts[i].ty.RIGHT_PAREN?
            && (|params| == 1 ==> j == i + |ParamToks(params)|)
            && (|params| > 1 ==> j < |ts| && ts[j].ty.COMMA? && Stands(ts, j + 1, ParamToks(params[1..]))
                                 && j + 1 + |ParamToks(params[1..])| == i + |ParamToks(params)|)
  {
    hide Stands, TokensOf, PrintableType, ParamChunk;
    if |params| == 1 { assert ParamChunks(params) == ParamChunk(params[0]); }
    if |params| > 1 {
      CommaToks(ParamChunk(params[0]), ParamChunks(params[1..]));
      StandsThree(ts, i, TokensOf(ParamChunk(params[0])), Sign(COMMA), ParamToks(params[1..]));
    }
    ParamParts(ts, i, params[0]);
  }

  lemma {:induction false} ParamNormal(ts: seq<Token>, i: nat, k: nat, p: FieldRepr)
    requires PrintableType(p.ty) && Stands(ts, i, TokensOf(ParamChunk(p))) && ParamDerives(ts, i, k, p)
    ensures NormalType(p.ty)
    decreases p, 0
  {
    hide Stands, TokensOf, ParamChunk, TypeDerives, NormalType, PrintableType;
    ParamParts(ts, i, p);
    TypeNormal(ts, if |p.fieldName| > 0 then i + 2 else i + 1, k, p.ty);
  }

  /** Type round trip, exactly: parsing the printed tokens returns the representation from exactly those
      tokens, without an error, if and only if every array length is in normal form and does not start
      with a dereference. */
  lemma TypeRoundTripExact(t: TypeRepr)
    requires PrintableType(t)
    ensures ParseType(TypeToks(t), 0) == Done(t, |TypeToks(t)|, 0) <==> NormalType(t)
  {
    hide TypeToks, NormalType, PrintableType, TypeDerives, ParseType;
    WholeStream(TypeToks(t));
    TypeDerivations.ParsesExactly(TypeToks(t), 0, t, |TypeToks(t)|);
    if NormalType(t) {
      NormalTypeDerives(TypeToks(t), 0, t);
    } else if TypeDerives(TypeToks(t), 0, |TypeToks(t)|, t) {
      TypeNormal(TypeToks(t), 0, |TypeToks(t)|, t);
    }
  }
}
