/** Printed types parse back to the same representation (src/ast/ast_pretty_print.cpp, src/parsing/parser.cpp:591-757). */
module TypeRoundTrip {
  import opened Options
  import opened Tokens
  import opened LexTheorems
  import opened Ast
  import opened Grammar
  import opened Printing
  import opened Derivations
  import opened RoundTrip
  import opened TypeDerivations

  /** Array lengths are in normal form and do not start with a dereference, whose star would be taken
      for the unknown length. */
  predicate NormalType(t: TypeRepr)
    decreases t
  {
    match t
    case Named(_) => true
    case PointerTo(base) => NormalType(base)
    case ArrayOf(None, elem) => NormalType(elem)
    case ArrayOf(Some(length), elem) => Normal(length, 1) && !DereferencesFirst(length) && NormalType(elem)
    case MapFrom(key, val) => NormalType(key) && NormalType(val)
    case FunctionFrom(params, ret) => (forall i :: 0 <= i < |params| ==> NormalType(params[i].ty)) && NormalType(ret)
    case StructWith(_) => false
    case Missing => false
  }

  predicate DereferencesFirst(e: Expr)
    decreases e
  {
    match e.node
    case Binary(_, left, _) => DereferencesFirst(left)
    case Compare(_, left, _) => DereferencesFirst(left)
    case Unary(op, _) => op.STAR?
    case _ => false
  }

  lemma {:induction false} NormalTypePrints(t: TypeRepr)
    requires NormalType(t)
    ensures PrintableType(t)
    decreases t
  {
    match t
    case Named(_) =>
    case PointerTo(base) => NormalTypePrints(base);
    case ArrayOf(None, elem) => NormalTypePrints(elem);
    case ArrayOf(Some(length), elem) => NormalPrints(length, 1); NormalTypePrints(elem);
    case MapFrom(key, val) => NormalTypePrints(key); NormalTypePrints(val);
    case FunctionFrom(params, ret) =>
      forall i | 0 <= i < |params| ensures PrintableType(params[i].ty) { NormalTypePrints(params[i].ty); }
      NormalTypePrints(ret);
  }

  function TypeToks(t: TypeRepr): seq<Token>
    requires PrintableType(t)
  {
    TokensOf(TypeChunks(t))
  }

  function ParamToks(params: seq<FieldRepr>): seq<Token>
    requires forall i :: 0 <= i < |params| ==> PrintableType(params[i].ty)
  {
    TokensOf(ParamChunks(params))
  }

  /** The tokens of a normal type derive it. */
  lemma {:induction false} NormalTypeDerives(ts: seq<Token>, i: nat, t: TypeRepr)
    requires NormalType(t) && PrintableType(t) && Stands(ts, i, TypeToks(t))
    ensures TypeDerives(ts, i, i + |TypeToks(t)|, t)
    decreases t, 1
  {
    hide TypeToks, Stands, TypeDerives;
    match t
    case Named(_) => NameRebuilds(ts, i, t);
    case PointerTo(_) => PointerRebuilds(ts, i, t);
    case ArrayOf(_, _) => ArrayRebuilds(ts, i, t);
    case MapFrom(_, _) => MapRebuilds(ts, i, t);
    case FunctionFrom(_, _) => FunctionRebuilds(ts, i, t);
  }

  /** So in any stream they are read back, whatever follows. */
  lemma TypeRebuilds(ts: seq<Token>, i: nat, t: TypeRepr)
    requires NormalType(t) && PrintableType(t) && Stands(ts, i, TypeToks(t))
    ensures i < i + |TypeToks(t)| <= |ts| && ParseType(ts, i) == Done(t, i + |TypeToks(t)|, 0)
  {
    hide TypeToks, Stands, TypeDerives, ParseType, NormalType, PrintableType;
    NormalTypeDerives(ts, i, t);
    TypeDerivations.DerivedParses(ts, i, i + |TypeToks(t)|, t);
  }

  lemma NameRebuilds(ts: seq<Token>, i: nat, t: TypeRepr)
    requires t.Named? && PrintableType(t) && Stands(ts, i, TypeToks(t))
    ensures TypeDerives(ts, i, i + |TypeToks(t)|, t)
  {
    hide Stands, TokensOf, Text;
    var n := Token(if t.name == Text(NIL) then NIL else IDENTIFIER, t.name);
    TokensOfOne(n);
    StandsOne(ts, i, n);
  }

  lemma {:induction false} PointerRebuilds(ts: seq<Token>, i: nat, t: TypeRepr)
    requires t.PointerTo? && NormalType(t) && PrintableType(t) && Stands(ts, i, TypeToks(t))
    ensures TypeDerives(ts, i, i + |TypeToks(t)|, t)
    decreases t, 0
  {
    hide Stands, TypeToks, TypeDerives;
    PointerParts(ts, i, t);
    NormalTypeDerives(ts, i + 1, t.base);
    PointerDerives(ts, i, i + |TypeToks(t)|, t.base);
  }

  lemma PointerParts(ts: seq<Token>, i: nat, t: TypeRepr)
    requires t.PointerTo? && PrintableType(t) && Stands(ts, i, TypeToks(t))
    ensures i < |ts| && ts[i].ty == STAR && Stands(ts, i + 1, TypeToks(t.base)) && |TypeToks(t)| == 1 + |TypeToks(t.base)|
  {
    hide Stands, TokensOf;
    TokensOfMark(STAR, TypeChunks(t.base));
    StandsSplit(ts, i, [Sign(STAR)], TypeToks(t.base));
    StandsOne(ts, i, Sign(STAR));
  }

  lemma {:induction false} FirstToken(e: Expr, min: nat)
    requires Normal(e, min) && Printable(e) && |Toks(e)| > 0
    ensures Toks(e)[0].ty.STAR? <==> DereferencesFirst(e)
    decreases e
  {
    hide TokensOf;
    match e.node
    case Binary(op, left, right) => InfixFirst(e, op, left, right);
    case Compare(op, left, right) => InfixFirst(e, op, left, right);
    case Unary(op, input) => TokensOfMark(op, Chunks(input));
    case _ => NoStarFirst(e);
  }

  lemma {:induction false} InfixFirst(e: Expr, op: TokenType, left: Expr, right: Expr)
    requires e.node == Binary(op, left, right) || e.node == Compare(op, left, right)
    requires Printable(e) && Normal(left, Precedence(op) - 1) && Precedence(op) > 0
    ensures |Toks(e)| > 0 && (Toks(e)[0].ty.STAR? <==> DereferencesFirst(left))
    decreases e, 0
  {
    hide TokensOf;
    InfixToks(op, left, right);
    HasTokens(left, Precedence(op) - 1);
    FirstToken(left, Precedence(op) - 1);
  }

  lemma HasTokens(e: Expr, min: nat)
    requires Normal(e, min) && min <= UNARY && Printable(e)
    ensures |Toks(e)| > 0
  {
    hide Toks, Normal, Derives, Follows;
    WholeStream(Toks(e));
    NormalDerives(Toks(e), 0, e, min);
    DerivesMoves(Toks(e), 0, |Toks(e)|, e, min);
  }

  lemma NoStarFirst(e: Expr)
    requires Printable(e) && |Toks(e)| > 0 && !e.node.Unary? && !e.node.Binary? && !e.node.Compare? && NormalUnary(e)
    ensures !Toks(e)[0].ty.STAR?
  {
    if e.node.Lit? && e.node.lit.IntLit? && e.node.lit.n < 0 {
      hide TokensOf;
      assert Chunks(e) == [Mark(MINUS)] + [Number(-e.node.lit.n)];
      TokensOfMark(MINUS, [Number(-e.node.lit.n)]);
    } else {
      hide Toks, NormalPostfix, Printable;
      PostfixStarts(e);
    }
  }

  lemma PostfixStarts(e: Expr)
    requires Printable(e) && NormalPostfix(e)
    ensures |Toks(e)| > 0 && !IsUnaryOp(Toks(e)[0].ty)
  {
    hide Toks, Stands, Derives, NormalPostfix, Printable, IsUnaryOp, Follows, ParsePrimary, Postfix;
    WholeStream(Toks(e));
    PostfixRebuilds(Toks(e), 0, e);
    PrimaryDerived(Toks(e), 0, |Toks(e)|, e);
  }

  lemma ArrayToks(length: seq<Chunk>, elem: seq<Chunk>)
    ensures TokensOf([Mark(LEFT_BRACKET)] + length + [Mark(RIGHT_BRACKET)] + elem)
            == [] + [Sign(LEFT_BRACKET)] + (TokensOf(length) + [Sign(RIGHT_BRACKET)] + TokensOf(elem))
  {
    hide TokensOf, Sign;
    var rest := length + ([Mark(RIGHT_BRACKET)] + elem);
    assert [Mark(LEFT_BRACKET)] + length + [Mark(RIGHT_BRACKET)] + elem == [Mark(LEFT_BRACKET)] + rest;
    TokensOfMark(LEFT_BRACKET, rest);
    TokensOfMark(RIGHT_BRACKET, elem);
    TokensAppend(length, [Mark(RIGHT_BRACKET)] + elem);
    assert TokensOf(length) + ([Sign(RIGHT_BRACKET)] + TokensOf(elem)) == TokensOf(length) + [Sign(RIGHT_BRACKET)] + TokensOf(elem);
  }

  function LengthChunks(length: Option<Expr>): seq<Chunk>
    requires length.Some? ==> Printable(length.value)
  {
    if length.Some? then Chunks(length.value) else [Mark(STAR)]
  }

  lemma ArrayParts(ts: seq<Token>, i: nat, t: TypeRepr)
    requires t.ArrayOf? && PrintableType(t) && Stands(ts, i, TypeToks(t))
    ensures var k := i + 1 + |TokensOf(LengthChunks(t.length))|;
            && k < |ts| && ts[i].ty == LEFT_BRACKET && ts[k] == Sign(RIGHT_BRACKET)
            && Stands(ts, i + 1, TokensOf(LengthChunks(t.length))) && Stands(ts, k + 1, TypeToks(t.elem))
            && i + |TypeToks(t)| == k + 1 + |TypeToks(t.elem)|
  {
    hide Stands, TokensOf, Chunks, Printable;
    var length := LengthChunks(t.length);
    ArrayToks(length, TypeChunks(t.elem));
    ArrayPlaces(ts, i, TokensOf(length), TypeToks(t.elem));
  }

  lemma ArrayPlaces(ts: seq<Token>, i: nat, n: seq<Token>, elem: seq<Token>)
    requires Stands(ts, i, [] + [Sign(LEFT_BRACKET)] + (n + [Sign(RIGHT_BRACKET)] + elem))
    ensures var k := i + 1 + |n|;
            && k < |ts| && ts[i].ty == LEFT_BRACKET && ts[k] == Sign(RIGHT_BRACKET)
            && Stands(ts, i + 1, n) && Stands(ts, k + 1, elem)
  {
    hide Stands;
    StandsThree(ts, i, [], Sign(LEFT_BRACKET), n + [Sign(RIGHT_BRACKET)] + elem);
    StandsThree(ts, i + 1, n, Sign(RIGHT_BRACKET), elem);
  }

  lemma {:induction false} ArrayRebuilds(ts: seq<Token>, i: nat, t: TypeRepr)
    requires t.ArrayOf? && NormalType(t) && PrintableType(t) && Stands(ts, i, TypeToks(t))
    ensures TypeDerives(ts, i, i + |TypeToks(t)|, t)
    decreases t, 0
  {
    hide Stands, TypeToks, LengthChunks, LengthDerives, TypeDerives, Normal, Printable, DereferencesFirst;
    var k := i + 1 + |TokensOf(LengthChunks(t.length))|;
    ArrayParts(ts, i, t);
    LengthRebuilds(ts, i + 1, t.length);
    NormalTypeDerives(ts, k + 1, t.elem);
    ArrayDerives(ts, i, k, i + |TypeToks(t)|, t.length, t.elem);
  }

  lemma LengthRebuilds(ts: seq<Token>, i: nat, length: Option<Expr>)
    requires length.Some? ==> Normal(length.value, 1) && Printable(length.value) && !DereferencesFirst(length.value)
    requires Stands(ts, i, TokensOf(LengthChunks(length)))
    ensures LengthDerives(ts, i, i + |TokensOf(LengthChunks(length))|, length)
  {
    hide Stands, TokensOf, Normal, Printable, Chunks, Derives, DereferencesFirst;
    var n := TokensOf(LengthChunks(length));
    if length.Some? {
      assert n == Toks(length.value);
      NormalDerives(ts, i, length.value, 1);
      DerivesMoves(ts, i, i + |n|, length.value, 1);
      FirstToken(length.value, 1);
      StandsFirst(ts, i, n);
    } else {
      TokensOfOne(Sign(STAR));
      StandsOne(ts, i, Sign(STAR));
    }
  }

  lemma StandsFirst(ts: seq<Token>, i: nat, xs: seq<Token>)
    requires Stands(ts, i, xs) && |xs| > 0
    ensures i < |ts| && ts[i] == xs[0]
  {
  }

  lemma {:induction false} MapRebuilds(ts: seq<Token>, i: nat, t: TypeRepr)
    requires t.MapFrom? && NormalType(t) && PrintableType(t) && Stands(ts, i, TypeToks(t))
    ensures TypeDerives(ts, i, i + |TypeToks(t)|, t)
    decreases t, 0
  {
    hide Stands, TypeToks, TypeDerives;
    var k := i + 2 + |TypeToks(t.key)|;
    MapParts(ts, i, t);
    NormalTypeDerives(ts, i + 2, t.key);
    NormalTypeDerives(ts, k + 1, t.val);
    MapDerives(ts, i, k, i + |TypeToks(t)|, t.key, t.val);
  }

  lemma MapParts(ts: seq<Token>, i: nat, t: TypeRepr)
    requires t.MapFrom? && PrintableType(t) && Stands(ts, i, TypeToks(t))
    ensures var k := i + 2 + |TypeToks(t.key)|;
            && k < |ts| && ts[i].ty == MAP && ts[i + 1].ty == LEFT_BRACKET && ts[k].ty == RIGHT_BRACKET
            && Stands(ts, i + 2, TypeToks(t.key)) && Stands(ts, k + 1, TypeToks(t.val))
            && |TypeToks(t.key)| + |TypeToks(t.val)| + 3 == |TypeToks(t)|
  {
    hide Stands, TokensOf;
    var key, val := TypeChunks(t.key), TypeChunks(t.val);
    assert [Mark(MAP), Mark(LEFT_BRACKET)] == [Mark(MAP)] + [Mark(LEFT_BRACKET)];
    BracketToks([Mark(MAP)], LEFT_BRACKET, key, RIGHT_BRACKET);
    TokensOfOne(Sign(MAP));
    TokensAppend([Mark(MAP), Mark(LEFT_BRACKET)] + key + [Mark(RIGHT_BRACKET)], val);
    assert TypeToks(t) == [Sign(MAP)] + [Sign(LEFT_BRACKET)] + (TypeToks(t.key) + [Sign(RIGHT_BRACKET)] + TypeToks(t.val));
    StandsThree(ts, i, [Sign(MAP)], Sign(LEFT_BRACKET), TypeToks(t.key) + [Sign(RIGHT_BRACKET)] + TypeToks(t.val));
    StandsOne(ts, i, Sign(MAP));
    StandsThree(ts, i + 2, TypeToks(t.key), Sign(RIGHT_BRACKET), TypeToks(t.val));
  }

  lemma {:induction false} FunctionRebuilds(ts: seq<Token>, i: nat, t: TypeRepr)
    requires t.FunctionFrom? && NormalType(t) && PrintableType(t) && Stands(ts, i, TypeToks(t))
    ensures TypeDerives(ts, i, i + |TypeToks(t)|, t)
    decreases t, 0
  {
    hide Stands, TypeToks, ParamToks, ParamsDerive, TypeDerives;
    var j := i + 1 + |ParamToks(t.params)|;
    FunctionParts(ts, i, t);
    ParamsRebuild(ts, i + 1, t.params);
    NormalTypeDerives(ts, j + 2, t.ret);
    FunctionDerives(ts, i, j, i + |TypeToks(t)|, t.params, t.ret);
  }

  lemma FunctionParts(ts: seq<Token>, i: nat, t: TypeRepr)
    requires t.FunctionFrom? && PrintableType(t) && Stands(ts, i, TypeToks(t))
    ensures var j := i + 1 + |ParamToks(t.params)|;
            && j + 2 <= |ts| && ts[i].ty == LEFT_PAREN && ts[j].ty == RIGHT_PAREN && ts[j + 1].ty == ARROW
            && Stands(ts, i + 1, ParamToks(t.params)) && Stands(ts, j + 2, TypeToks(t.ret))
            && i + |TypeToks(t)| == j + 2 + |TypeToks(t.ret)|
  {
    hide Stands, TokensOf;
    ArrowToks(ParamChunks(t.params), TypeChunks(t.ret));
    FunctionPlaces(ts, i, ParamToks(t.params), TypeToks(t.ret));
  }

  lemma FunctionPlaces(ts: seq<Token>, i: nat, p: seq<Token>, r: seq<Token>)
    requires Stands(ts, i, [] + [Sign(LEFT_PAREN)] + (p + ([Sign(RIGHT_PAREN)] + [Sign(ARROW)] + r)))
    ensures var j := i + 1 + |p|;
            && j + 2 <= |ts| && ts[i].ty == LEFT_PAREN && ts[j].ty == RIGHT_PAREN && ts[j + 1].ty == ARROW
            && Stands(ts, i + 1, p) && Stands(ts, j + 2, r)
  {
    hide Stands;
    var rest := [Sign(RIGHT_PAREN)] + [Sign(ARROW)] + r;
    StandsThree(ts, i, [], Sign(LEFT_PAREN), p + rest);
    StandsSplit(ts, i + 1, p, rest);
    StandsThree(ts, i + 1 + |p|, [Sign(RIGHT_PAREN)], Sign(ARROW), r);
    StandsOne(ts, i + 1 + |p|, Sign(RIGHT_PAREN));
  }

  lemma ArrowToks(params: seq<Chunk>, ret: seq<Chunk>)
    ensures TokensOf([Mark(LEFT_PAREN)] + params + [Mark(RIGHT_PAREN), BLANK, Mark(ARROW), BLANK] + ret)
            == [] + [Sign(LEFT_PAREN)] + (TokensOf(params) + ([Sign(RIGHT_PAREN)] + [Sign(ARROW)] + TokensOf(ret)))
  {
    hide TokensOf, Sign;
    var tail := [BLANK] + ([Mark(ARROW)] + ([BLANK] + ret));
    TokensOfBlank(ret);
    TokensOfMark(ARROW, [BLANK] + ret);
    TokensOfBlank([Mark(ARROW)] + ([BLANK] + ret));
    TokensOfMark(RIGHT_PAREN, tail);
    TokensAppend(params, [Mark(RIGHT_PAREN)] + tail);
    TokensOfMark(LEFT_PAREN, params + ([Mark(RIGHT_PAREN)] + tail));
    assert [Mark(LEFT_PAREN)] + params + [Mark(RIGHT_PAREN), BLANK, Mark(ARROW), BLANK] + ret
        == [Mark(LEFT_PAREN)] + (params + ([Mark(RIGHT_PAREN)] + tail));
    assert [Sign(RIGHT_PAREN)] + ([Sign(ARROW)] + TokensOf(ret)) == [Sign(RIGHT_PAREN)] + [Sign(ARROW)] + TokensOf(ret);
  }

  lemma {:induction false} ParamsRebuild(ts: seq<Token>, i: nat, params: seq<FieldRepr>)
    requires forall k :: 0 <= k < |params| ==> NormalType(params[k].ty) && PrintableType(params[k].ty)
    requires Stands(ts, i, ParamToks(params))
    ensures ParamsDerive(ts, i, i + |ParamToks(params)|, params)
    decreases params, 0
  {
    hide Stands, TokensOf, ParamDerives, ParamsDerive, NormalType, PrintableType, ParamChunk;
    if |params| == 0 {
      NoTokens();
      NoParams(ts, i);
      assert params == [];
    } else {
      var k := i + |TokensOf(ParamChunk(params[0]))|;
      if |params| > 1 {
        CommaToks(ParamChunk(params[0]), ParamChunks(params[1..]));
        StandsThree(ts, i, TokensOf(ParamChunk(params[0])), Sign(COMMA), ParamToks(params[1..]));
        ParamsRebuild(ts, k + 1, params[1..]);
      }
      ParamRebuilds(ts, i, params[0]);
      ParamMoves(ts, i, k, params[0]);
      StandsInside(ts, i, ParamToks(params));
      OneParam(ts, i, k, i + |ParamToks(params)|, params);
    }
  }

  /** A printed parameter, named or not, is derived. */
  lemma {:induction false} ParamRebuilds(ts: seq<Token>, i: nat, p: FieldRepr)
    requires NormalType(p.ty) && PrintableType(p.ty) && Stands(ts, i, TokensOf(ParamChunk(p)))
    ensures ParamDerives(ts, i, i + |TokensOf(ParamChunk(p))|, p)
    decreases p, 0
  {
    hide Stands, TokensOf, ParamChunk, TypeDerives, ParamDerives, NormalType, PrintableType;
    ParamParts(ts, i, p);
    var k := if |p.fieldName| > 0 then i + 1 else i;
    NormalTypeDerives(ts, k + 1, p.ty);
    ColonDerives(ts, i, k, i + |TokensOf(ParamChunk(p))|, p);
  }

  lemma ColonDerives(ts: seq<Token>, i: nat, k: nat, j: nat, p: FieldRepr)
    requires k < |ts| && ts[k].ty.COLON? && TypeDerives(ts, k + 1, j, p.ty)
    requires if |p.fieldName| > 0 then k == i + 1 && ts[i] == Token(IDENTIFIER, p.fieldName) else k == i
    ensures ParamDerives(ts, i, j, p)
  {
    hide TypeDerives;
    TypeMoves(ts, k + 1, j, p.ty);
  }

  lemma ParamParts(ts: seq<Token>, i: nat, p: FieldRepr)
    requires PrintableType(p.ty) && Stands(ts, i, TokensOf(ParamChunk(p)))
    ensures var j := if |p.fieldName| > 0 then i + 1 else i;
            && j < |ts| && (j > i ==> ts[i] == Token(IDENTIFIER, p.fieldName)) && ts[j].ty == COLON
            && Stands(ts, j + 1, TypeToks(p.ty)) && i + |TokensOf(ParamChunk(p))| == j + 1 + |TypeToks(p.ty)|
  {
    hide Stands, TokensOf, PrintableType, TypeChunks;
    var t := TypeChunks(p.ty);
    var name := Token(IDENTIFIER, p.fieldName);
    assert [Mark(COLON), BLANK] + t == [Mark(COLON)] + ([BLANK] + t);
    TokensOfBlank(t);
    TokensOfMark(COLON, [BLANK] + t);
    if |p.fieldName| > 0 {
      TokensAppend([Spelt(name)], [Mark(COLON), BLANK] + t);
      assert ParamChunk(p) == [Spelt(name)] + ([Mark(COLON), BLANK] + t);
      TokensOfOne(name);
      assert TokensOf(ParamChunk(p)) == [name] + [Sign(COLON)] + TypeToks(p.ty);
      StandsThree(ts, i, [name], Sign(COLON), TypeToks(p.ty));
      StandsOne(ts, i, name);
    } else {
      assert ParamChunk(p) == [Mark(COLON), BLANK] + t;
      StandsSplit(ts, i, [Sign(COLON)], TypeToks(p.ty));
      StandsOne(ts, i, Sign(COLON));
    }
  }

  /** Why a length may not start with a dereference: [*n]int is read as an array of unknown length. */
  lemma StarIsUnknownLength(n: string, elem: string)
    ensures var length := Fresh(Unary(STAR, Fresh(Ident(n))));
            var t := ArrayOf(Some(length), Named(elem));
            Normal(length, 1) && PrintableType(t) && ParseType(TypeToks(t), 0) != Done(t, |TypeToks(t)|, 0)
  {
    hide TokensOf, ParseType;
    var x := Fresh(Ident(n));
    var length := Fresh(Unary(STAR, x));
    var t := ArrayOf(Some(length), Named(elem));
    assert NormalOperand(x);
    assert NormalPostfix(x);
    assert NormalUnary(length);
    var tail := Chunks(x) + [Mark(RIGHT_BRACKET)] + TypeChunks(Named(elem));
    assert TypeChunks(t) == [Mark(LEFT_BRACKET)] + ([Mark(STAR)] + tail);
    TokensOfMark(LEFT_BRACKET, [Mark(STAR)] + tail);
    TokensOfMark(STAR, tail);
    var ts := TypeToks(t);
    assert ts[0] == Sign(LEFT_BRACKET) && ts[1] == Sign(STAR);
    StarLength(ts);
  }

  lemma StarLength(ts: seq<Token>)
    requires |ts| > 1 && ts[0].ty == LEFT_BRACKET && ts[1].ty == STAR
    ensures var r := ParseType(ts, 0); r.Done? ==> r.val.ArrayOf? && r.val.length == None
  {
    assert ParseLength(ts, 1).val == None;
  }
}
