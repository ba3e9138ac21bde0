/** The pretty printer for expressions and types (src/ast/ast_pretty_print.cpp): the chunks each tree
    prints as, and the visitor that appends their characters to the output stream. */
module Printing {
  import opened Tokens
  import opened Strings
  import opened Decimal
  import opened Lexer
  import opened LexTheorems
  import opened Ast
  import opened Grammar

  const BLANK := Gap(" ")

  /** A keyword or operator. */
  function Sign(t: TokenType): Token { Token(t, if IsKeyword(t) then Text(t) else "") }

  function Mark(t: TokenType): Chunk { Spelt(Sign(t)) }

  function Name(name: string): Chunk { Spelt(Token(IDENTIFIER, name)) }

  function Number(n: nat): Chunk { Spelt(Token(INTEGER, Dec(n))) }

  function CastName(kind: CastKind): string {
    match kind
    case SqlBoolToBool => "SqlBoolToBool"
    case BitCast => "BitCast"
  }

  /** The tokens whose text is fixed. */
  predicate HasFixedText(t: TokenType) { IsKeyword(t) || IsOperator(t) }

  lemma OperatorsHaveText(t: TokenType)
    requires IsInfix(t) || IsUnaryOp(t)
    ensures HasFixedText(t)
  {
  }

  /** Expressions over the operators of the grammar, without float literals, whose text is rounded, and
      without bad expressions, which are never printed. */
  predicate Printable(e: Expr)
    decreases e
  {
    match e.node
    case Lit(lit) => !lit.FloatLit?
    case Ident(_) => true
    case Binary(op, left, right) => IsInfix(op) && Printable(left) && Printable(right)
    case Compare(op, left, right) => IsInfix(op) && Printable(left) && Printable(right)
    case Unary(op, input) => IsUnaryOp(op) && Printable(input)
    case Call(fn, args) => Printable(fn) && forall i :: 0 <= i < |args| ==> Printable(args[i])
    case BuiltinCall(fn, args) => fn.node.Ident? && forall i :: 0 <= i < |args| ==> Printable(args[i])
    case Index(obj, index) => Printable(obj) && Printable(index)
    case Member(obj, member) => Printable(obj) && Printable(member)
    case Cast(_, input) => Printable(input)
    case Bad => false
  }

  function LiteralChunks(lit: Literal): seq<Chunk>
    requires !lit.FloatLit?
  {
    match lit
    case NilLit => [Mark(NIL)]
    case BoolLit(b) => [Mark(if b then TRUE else FALSE)]
    case IntLit(n) => if n < 0 then [Mark(MINUS), Number(-n)] else [Number(n)]
    case StringLit(s) => [Spelt(Token(STRING, s))]
  }

  function Chunks(e: Expr): seq<Chunk>
    requires Printable(e)
    decreases e
  {
    match e.node
    case Lit(lit) => LiteralChunks(lit)
    case Ident(name) => [Name(name)]
    case Binary(op, left, right) => Chunks(left) + [BLANK, Mark(op), BLANK] + Chunks(right)
    case Compare(op, left, right) => Chunks(left) + [BLANK, Mark(op), BLANK] + Chunks(right)
    case Unary(op, input) => [Mark(op)] + Chunks(input)
    case Call(fn, args) => Chunks(fn) + [Mark(LEFT_PAREN)] + ArgChunks(args) + [Mark(RIGHT_PAREN)]
    case BuiltinCall(fn, args) =>
      [Spelt(Token(BUILTIN_IDENTIFIER, fn.node.name)), Mark(LEFT_PAREN)] + ArgChunks(args) + [Mark(RIGHT_PAREN)]
    case Index(obj, index) => Chunks(obj) + [Mark(LEFT_BRACKET)] + Chunks(index) + [Mark(RIGHT_BRACKET)]
    case Member(obj, member) => Chunks(obj) + [Mark(DOT)] + Chunks(member)
    case Cast(kind, input) => [Name(CastName(kind)), Mark(LEFT_PAREN)] + Chunks(input) + [Mark(RIGHT_PAREN)]
  }

  function ArgChunks(args: seq<Expr>): seq<Chunk>
    requires forall i :: 0 <= i < |args| ==> Printable(args[i])
    decreases args
  {
    if |args| == 0 then []
    else if |args| == 1 then Chunks(args[0])
    else Chunks(args[0]) + [Mark(COMMA), BLANK] + ArgChunks(args[1..])
  }

  // ---------- Types ----------

  /** Struct types print without their keyword and are not part of this model; Missing is never printed. */
  predicate PrintableType(t: TypeRepr)
    decreases t
  {
    match t
    case Named(_) => true
    case PointerTo(base) => PrintableType(base)
    case ArrayOf(length, elem) => (length.Some? ==> Printable(length.value)) && PrintableType(elem)
    case MapFrom(key, val) => PrintableType(key) && PrintableType(val)
    case FunctionFrom(params, ret) =>
      (forall i :: 0 <= i < |params| ==> PrintableType(params[i].ty)) && PrintableType(ret)
    case StructWith(_) => false
    case Missing => false
  }

  /** The keyword nil is also the name of a type. */
  function TypeName(name: string): Chunk { Spelt(Token(if name == Text(NIL) then NIL else IDENTIFIER, name)) }

  function TypeChunks(t: TypeRepr): seq<Chunk>
    requires PrintableType(t)
    decreases t
  {
    match t
    case Named(name) => [TypeName(name)]
    case PointerTo(base) => [Mark(STAR)] + TypeChunks(base)
    case ArrayOf(length, elem) =>
      [Mark(LEFT_BRACKET)] + (if length.Some? then Chunks(length.value) else [Mark(STAR)])
      + [Mark(RIGHT_BRACKET)] + TypeChunks(elem)
    case MapFrom(key, val) =>
      [Mark(MAP), Mark(LEFT_BRACKET)] + TypeChunks(key) + [Mark(RIGHT_BRACKET)] + TypeChunks(val)
    case FunctionFrom(params, ret) =>
      [Mark(LEFT_PAREN)] + ParamChunks(params) + [Mark(RIGHT_PAREN), BLANK, Mark(ARROW), BLANK] + TypeChunks(ret)
  }

  /** A parameter without a name still prints its colon. */
  function ParamName(name: string): seq<Chunk> {
    (if |name| == 0 then [] else [Name(name)]) + [Mark(COLON), BLANK]
  }

  function ParamChunk(p: FieldRepr): seq<Chunk>
    requires PrintableType(p.ty)
    decreases p
  {
    ParamName(p.fieldName) + TypeChunks(p.ty)
  }

  function ParamChunks(params: seq<FieldRepr>): seq<Chunk>
    requires forall i :: 0 <= i < |params| ==> PrintableType(params[i].ty)
    decreases params
  {
    if |params| == 0 then []
    else if |params| == 1 then ParamChunk(params[0])
    else ParamChunk(params[0]) + [Mark(COMMA), BLANK] + ParamChunks(params[1..])
  }

  // ---------- The characters of each node ----------

  function Show(e: Expr): string
    requires Printable(e)
  {
    Render(Chunks(e))
  }

  function ShowType(t: TypeRepr): string
    requires PrintableType(t)
  {
    Render(TypeChunks(t))
  }

  lemma MarkSpells(t: TokenType)
    requires HasFixedText(t)
    ensures Spell(Sign(t)) == Text(t)
  {
  }

  lemma RenderOne(t: Token)
    ensures Render([Spelt(t)]) == Spell(t)
  {
    hide Spell;
    assert [Spelt(t)][1..] == [];
    assert Render([Spelt(t)]) == Spell(t) + Render([]);
  }

  lemma RenderMark(t: TokenType)
    requires HasFixedText(t)
    ensures Render([Mark(t)]) == Text(t)
  {
    MarkSpells(t);
    RenderOne(Sign(t));
  }

  lemma RenderBlank()
    ensures Render([BLANK]) == " "
  {
    assert [BLANK][1..] == [];
    assert Render([BLANK]) == " " + Render([]);
  }

  lemma RenderThree(a: seq<Chunk>, m: seq<Chunk>, b: seq<Chunk>)
    ensures Render(a + m + b) == Render(a) + Render(m) + Render(b)
  {
    RenderAppend(a + m, b);
    RenderAppend(a, m);
  }

  lemma SpacedOperator(op: TokenType)
    requires HasFixedText(op)
    ensures Render([BLANK, Mark(op), BLANK]) == " " + Text(op) + " "
  {
    hide Render;
    RenderBlank();
    RenderMark(op);
    RenderThree([BLANK], [Mark(op)], [BLANK]);
    assert [BLANK] + [Mark(op)] + [BLANK] == [BLANK, Mark(op), BLANK];
  }

  lemma InfixShows(op: TokenType, left: seq<Chunk>, right: seq<Chunk>)
    requires HasFixedText(op)
    ensures Render(left + [BLANK, Mark(op), BLANK] + right) == Render(left) + (" " + Text(op) + " ") + Render(right)
  {
    hide Render;
    SpacedOperator(op);
    RenderThree(left, [BLANK, Mark(op), BLANK], right);
  }

  lemma CommaShows(first: seq<Chunk>, rest: seq<Chunk>)
    ensures Render(first + [Mark(COMMA), BLANK] + rest) == Render(first) + ", " + Render(rest)
  {
    hide Render, Text, HasFixedText;
    Separators();
    RenderMark(COMMA);
    RenderBlank();
    RenderAppend([Mark(COMMA)], [BLANK]);
    assert [Mark(COMMA)] + [BLANK] == [Mark(COMMA), BLANK];
    RenderThree(first, [Mark(COMMA), BLANK], rest);
  }

  lemma BracketShows(before: seq<Chunk>, open: TokenType, inner: seq<Chunk>, close: TokenType)
    requires HasFixedText(open) && HasFixedText(close)
    ensures Render(before + [Mark(open)] + inner + [Mark(close)]) == Render(before) + Text(open) + Render(inner) + Text(close)
  {
    hide Render;
    RenderMark(open);
    RenderMark(close);
    RenderThree(before, [Mark(open)], inner);
    RenderAppend(before + [Mark(open)] + inner, [Mark(close)]);
  }

  lemma Brackets()
    ensures HasFixedText(LEFT_PAREN) && Text(LEFT_PAREN) == "("
    ensures HasFixedText(RIGHT_PAREN) && Text(RIGHT_PAREN) == ")"
    ensures HasFixedText(LEFT_BRACKET) && Text(LEFT_BRACKET) == "["
    ensures HasFixedText(RIGHT_BRACKET) && Text(RIGHT_BRACKET) == "]"
  {
  }

  lemma Separators()
    ensures HasFixedText(DOT) && Text(DOT) == "."
    ensures HasFixedText(COMMA) && Text(COMMA) == ","
    ensures HasFixedText(COLON) && Text(COLON) == ":"
    ensures HasFixedText(ARROW) && Text(ARROW) == "->"
  {
  }

  lemma Signs()
    ensures HasFixedText(STAR) && Text(STAR) == "*"
    ensures HasFixedText(MINUS) && Text(MINUS) == "-"
    ensures HasFixedText(MAP) && Text(MAP) == "map"
  {
  }

  lemma LiteralWords()
    ensures HasFixedText(NIL) && Text(NIL) == "nil"
    ensures HasFixedText(TRUE) && Text(TRUE) == "true"
    ensures HasFixedText(FALSE) && Text(FALSE) == "false"
  {
  }

  lemma WordShows(t: TokenType, w: string)
    requires t.IDENTIFIER? || t.INTEGER?
    ensures Render([Spelt(Token(t, w))]) == w
  {
    RenderOne(Token(t, w));
  }

  lemma ParamNameShows(name: string)
    ensures Render(ParamName(name)) == name + ": "
  {
    hide Render, Text, HasFixedText;
    Separators();
    RenderMark(COLON);
    RenderBlank();
    RenderAppend([Mark(COLON)], [BLANK]);
    assert [Mark(COLON)] + [BLANK] == [Mark(COLON), BLANK];
    if |name| > 0 {
      WordShows(IDENTIFIER, name);
      RenderAppend([Name(name)], [Mark(COLON), BLANK]);
    } else {
      assert ParamName(name) == [Mark(COLON), BLANK];
    }
  }

  lemma LiteralShows(lit: Literal)
    requires !lit.FloatLit?
    ensures Render(LiteralChunks(lit)) == match lit
              case NilLit => "nil"
              case BoolLit(b) => if b then "true" else "false"
              case IntLit(n) => if n < 0 then "-" + Dec(-n) else Dec(n)
              case StringLit(text) => "\"" + text + "\""
  {
    hide Render, Dec, Spell, Text, HasFixedText;
    Signs();
    LiteralWords();
    match lit
    case NilLit => RenderMark(NIL);
    case BoolLit(b) => RenderMark(if b then TRUE else FALSE);
    case IntLit(n) =>
      if n < 0 {
        RenderMark(MINUS);
        WordShows(INTEGER, Dec(-n));
        RenderAppend([Mark(MINUS)], [Number(-n)]);
        assert [Mark(MINUS)] + [Number(-n)] == [Mark(MINUS), Number(-n)];
      } else {
        WordShows(INTEGER, Dec(n));
      }
    case StringLit(text) => QuoteShows(text);
  }

  lemma QuoteShows(text: string)
    ensures Render([Spelt(Token(STRING, text))]) == "\"" + text + "\""
  {
    RenderOne(Token(STRING, text));
  }

  lemma BuiltinCallShows(name: string, args: seq<Chunk>)
    ensures Render([Spelt(Token(BUILTIN_IDENTIFIER, name)), Mark(LEFT_PAREN)] + args + [Mark(RIGHT_PAREN)])
            == "@" + name + "(" + Render(args) + ")"
  {
    hide Render, Text, HasFixedText;
    Brackets();
    BuiltinShows(name);
    var first := [Spelt(Token(BUILTIN_IDENTIFIER, name))];
    BracketShows(first, LEFT_PAREN, args, RIGHT_PAREN);
    assert first + [Mark(LEFT_PAREN)] == [Spelt(Token(BUILTIN_IDENTIFIER, name)), Mark(LEFT_PAREN)];
  }

  lemma MapShows(key: seq<Chunk>, val: seq<Chunk>)
    ensures Render([Mark(MAP), Mark(LEFT_BRACKET)] + key + [Mark(RIGHT_BRACKET)] + val)
            == "map[" + Render(key) + "]" + Render(val)
  {
    hide Render, Text, HasFixedText;
    Brackets();
    Signs();
    RenderMark(MAP);
    BracketShows([Mark(MAP)], LEFT_BRACKET, key, RIGHT_BRACKET);
    assert [Mark(MAP)] + [Mark(LEFT_BRACKET)] == [Mark(MAP), Mark(LEFT_BRACKET)];
    RenderAppend([Mark(MAP), Mark(LEFT_BRACKET)] + key + [Mark(RIGHT_BRACKET)], val);
    assert "map" + "[" == "map[";
  }

  lemma NothingShows()
    ensures Render([]) == ""
  {
  }

  lemma TypeNameShows(name: string)
    ensures Render([TypeName(name)]) == name
  {
    var t := if name == Text(NIL) then NIL else IDENTIFIER;
    RenderOne(Token(t, name));
  }

  lemma ArrowShows(params: seq<Chunk>, ret: seq<Chunk>)
    ensures Render([Mark(LEFT_PAREN)] + params + [Mark(RIGHT_PAREN), BLANK, Mark(ARROW), BLANK] + ret)
            == "(" + Render(params) + ") -> " + Render(ret)
  {
    hide Render, Text, HasFixedText;
    Brackets();
    Separators();
    NothingShows();
    BracketShows([], LEFT_PAREN, params, RIGHT_PAREN);
    InfixShows(ARROW, [Mark(LEFT_PAREN)] + params + [Mark(RIGHT_PAREN)], ret);
    assert [] + [Mark(LEFT_PAREN)] == [Mark(LEFT_PAREN)];
    assert [Mark(LEFT_PAREN)] + params + [Mark(RIGHT_PAREN), BLANK, Mark(ARROW), BLANK] + ret
        == [Mark(LEFT_PAREN)] + params + [Mark(RIGHT_PAREN)] + [BLANK, Mark(ARROW), BLANK] + ret;
  }

  lemma LengthShows(length: seq<Chunk>, elem: seq<Chunk>)
    ensures Render([Mark(LEFT_BRACKET)] + length + [Mark(RIGHT_BRACKET)] + elem) == "[" + Render(length) + "]" + Render(elem)
  {
    hide Render, Text, HasFixedText;
    Brackets();
    NothingShows();
    BracketShows([], LEFT_BRACKET, length, RIGHT_BRACKET);
    assert [] + [Mark(LEFT_BRACKET)] == [Mark(LEFT_BRACKET)];
    RenderAppend([Mark(LEFT_BRACKET)] + length + [Mark(RIGHT_BRACKET)], elem);
  }

  lemma BuiltinShows(name: string)
    ensures Render([Spelt(Token(BUILTIN_IDENTIFIER, name))]) == "@" + name
  {
    RenderOne(Token(BUILTIN_IDENTIFIER, name));
  }

  /** What is left to print of a list from element i on. */
  function ArgsFrom(args: seq<Expr>, i: nat): string
    requires i <= |args| && forall i :: 0 <= i < |args| ==> Printable(args[i])
  {
    (if 0 < i < |args| then ", " else "") + Render(ArgChunks(args[i..]))
  }

  lemma NextArg(args: seq<Expr>, i: nat)
    requires i < |args| && forall i :: 0 <= i < |args| ==> Printable(args[i])
    ensures ArgsFrom(args, i) == (if i > 0 then ", " else "") + (Show(args[i]) + ArgsFrom(args, i + 1))
  {
    hide Render, Printable, Chunks;
    assert args[i..][0] == args[i] && args[i..][1..] == args[i + 1..];
    if i + 1 < |args| {
      CommaShows(Chunks(args[i]), ArgChunks(args[i + 1..]));
    } else {
      NothingShows();
      assert args[i..] == [args[i]];
    }
  }

  lemma AllArgs(args: seq<Expr>)
    requires forall i :: 0 <= i < |args| ==> Printable(args[i])
    ensures ArgsFrom(args, 0) == Render(ArgChunks(args)) && ArgsFrom(args, |args|) == ""
  {
    assert args[0..] == args;
  }

  function ParamsFrom(params: seq<FieldRepr>, i: nat): string
    requires i <= |params| && forall i :: 0 <= i < |params| ==> PrintableType(params[i].ty)
  {
    (if 0 < i < |params| then ", " else "") + Render(ParamChunks(params[i..]))
  }

  lemma ParamShows(p: FieldRepr)
    requires PrintableType(p.ty)
    ensures Render(ParamChunk(p)) == p.fieldName + ": " + ShowType(p.ty)
  {
    hide Render, PrintableType, ParamName, TypeChunks;
    ParamNameShows(p.fieldName);
    RenderAppend(ParamName(p.fieldName), TypeChunks(p.ty));
  }

  lemma NextParam(params: seq<FieldRepr>, i: nat)
    requires i < |params| && forall i :: 0 <= i < |params| ==> PrintableType(params[i].ty)
    ensures ParamsFrom(params, i)
            == (if i > 0 then ", " else "") + (Render(ParamChunk(params[i])) + ParamsFrom(params, i + 1))
  {
    hide Render, PrintableType, ParamChunk;
    assert params[i..][0] == params[i] && params[i..][1..] == params[i + 1..];
    if i + 1 < |params| {
      CommaShows(ParamChunk(params[i]), ParamChunks(params[i + 1..]));
    } else {
      NothingShows();
      assert params[i..] == [params[i]];
    }
  }

  lemma AllParams(params: seq<FieldRepr>)
    requires forall i :: 0 <= i < |params| ==> PrintableType(params[i].ty)
    ensures ParamsFrom(params, 0) == Render(ParamChunks(params)) && ParamsFrom(params, |params|) == ""
  {
    hide ParamChunk, PrintableType;
    assert params[0..] == params && params[|params|..] == [];
    assert ParamChunks(params[|params|..]) == [];
    hide ParamChunks;
    NothingShows();
    hide Render;
  }

  // ---------- The text, node by node ----------

  /** The texts of a list with ", " between them. */
  function Listed(texts: seq<string>): string {
    if |texts| == 0 then ""
    else if |texts| == 1 then texts[0]
    else texts[0] + ", " + Listed(texts[1..])
  }

  function Shown(args: seq<Expr>): (r: seq<string>)
    requires forall i :: 0 <= i < |args| ==> Printable(args[i])
    ensures |r| == |args| && forall i :: 0 <= i < |args| ==> r[i] == Show(args[i])
  {
    seq(|args|, i requires 0 <= i < |args| => Show(args[i]))
  }

  lemma {:induction false} ArgsShown(args: seq<Expr>)
    requires forall i :: 0 <= i < |args| ==> Printable(args[i])
    ensures Render(ArgChunks(args)) == Listed(Shown(args))
    decreases |args|
  {
    hide Render, Chunks, Printable;
    if |args| == 0 {
      NothingShows();
    } else if |args| > 1 {
      CommaShows(Chunks(args[0]), ArgChunks(args[1..]));
      ArgsShown(args[1..]);
      assert Shown(args)[1..] == Shown(args[1..]);
    }
  }

  function LiteralText(lit: Literal): string
    requires !lit.FloatLit?
  {
    match lit
    case NilLit => "nil"
    case BoolLit(b) => if b then "true" else "false"
    case IntLit(n) => if n < 0 then "-" + Dec(-n) else Dec(n)
    case StringLit(s) => "\"" + s + "\""
  }

  /** The text of an expression from those of its parts. */
  function TextFrom(e: Expr): string
    requires Printable(e)
  {
    match e.node
    case Lit(lit) => LiteralText(lit)
    case Ident(name) => name
    case Binary(op, left, right) => Show(left) + (" " + Text(op) + " ") + Show(right)
    case Compare(op, left, right) => Show(left) + (" " + Text(op) + " ") + Show(right)
    case Unary(op, input) => Text(op) + Show(input)
    case Call(fn, args) => Show(fn) + "(" + Listed(Shown(args)) + ")"
    case BuiltinCall(fn, args) => "@" + fn.node.name + "(" + Listed(Shown(args)) + ")"
    case Index(obj, index) => Show(obj) + "[" + Show(index) + "]"
    case Member(obj, member) => Show(obj) + "." + Show(member)
    case Cast(kind, input) =>
      (if kind.BitCast? then "BitCast" else "SqlBoolToBool") + "(" + Show(input) + ")"
  }

  /** An expression prints as its parts with their operators and brackets, in order. */
  lemma {:induction false} ShownInOrder(e: Expr)
    requires Printable(e)
    ensures Show(e) == TextFrom(e)
  {
    hide Render, Spell, Text, HasFixedText, IsInfix, IsUnaryOp, Dec, Listed, Shown;
    Brackets();
    Separators();
    match e.node
    case Lit(lit) => LiteralShows(lit);
    case Ident(name) => WordShows(IDENTIFIER, name);
    case Binary(op, left, right) =>
      OperatorsHaveText(op);
      InfixShows(op, Chunks(left), Chunks(right));
    case Compare(op, left, right) =>
      OperatorsHaveText(op);
      InfixShows(op, Chunks(left), Chunks(right));
    case Unary(op, input) =>
      OperatorsHaveText(op);
      RenderMark(op);
      RenderAppend([Mark(op)], Chunks(input));
    case Call(fn, args) =>
      ArgsShown(args);
      BracketShows(Chunks(fn), LEFT_PAREN, ArgChunks(args), RIGHT_PAREN);
    case BuiltinCall(fn, args) =>
      ArgsShown(args);
      BuiltinCallShows(fn.node.name, ArgChunks(args));
    case Index(obj, index) => BracketShows(Chunks(obj), LEFT_BRACKET, Chunks(index), RIGHT_BRACKET);
    case Member(obj, member) =>
      RenderMark(DOT);
      RenderThree(Chunks(obj), [Mark(DOT)], Chunks(member));
    case Cast(kind, input) =>
      WordShows(IDENTIFIER, CastName(kind));
      BracketShows([Name(CastName(kind))], LEFT_PAREN, Chunks(input), RIGHT_PAREN);
      assert [Name(CastName(kind)), Mark(LEFT_PAREN)] == [Name(CastName(kind))] + [Mark(LEFT_PAREN)];
  }

  function ParamTexts(params: seq<FieldRepr>): (r: seq<string>)
    requires forall i :: 0 <= i < |params| ==> PrintableType(params[i].ty)
    ensures |r| == |params|
    ensures forall i :: 0 <= i < |params| ==> r[i] == params[i].fieldName + ": " + ShowType(params[i].ty)
  {
    seq(|params|, i requires 0 <= i < |params| => params[i].fieldName + ": " + ShowType(params[i].ty))
  }

  lemma {:induction false} ParamsShown(params: seq<FieldRepr>)
    requires forall i :: 0 <= i < |params| ==> PrintableType(params[i].ty)
    ensures Render(ParamChunks(params)) == Listed(ParamTexts(params))
    decreases |params|
  {
    hide Render, ParamChunk, PrintableType, ShowType;
    if |params| == 0 {
      NothingShows();
    } else {
      ParamShows(params[0]);
      if |params| > 1 {
        CommaShows(ParamChunk(params[0]), ParamChunks(params[1..]));
        ParamsShown(params[1..]);
        assert ParamTexts(params)[1..] == ParamTexts(params[1..]);
      }
    }
  }

  function TypeTextFrom(t: TypeRepr): string
    requires PrintableType(t)
  {
    match t
    case Named(name) => name
    case PointerTo(base) => "*" + ShowType(base)
    case ArrayOf(length, elem) => "[" + (if length.Some? then Show(length.value) else "*") + "]" + ShowType(elem)
    case MapFrom(key, val) => "map[" + ShowType(key) + "]" + ShowType(val)
    case FunctionFrom(params, ret) => "(" + Listed(ParamTexts(params)) + ") -> " + ShowType(ret)
  }

  lemma {:induction false} TypeShownInOrder(t: TypeRepr)
    requires PrintableType(t)
    ensures ShowType(t) == TypeTextFrom(t)
  {
    hide Render, Spell, Text, HasFixedText, Dec, Listed, ParamTexts, Chunks, ParamChunks;
    Signs();
    RenderMark(STAR);
    match t
    case Named(name) => TypeNameShows(name);
    case PointerTo(base) => RenderAppend([Mark(STAR)], TypeChunks(base));
    case ArrayOf(length, elem) =>
      LengthShows(if length.Some? then Chunks(length.value) else [Mark(STAR)], TypeChunks(elem));
    case MapFrom(key, val) => MapShows(TypeChunks(key), TypeChunks(val));
    case FunctionFrom(params, ret) =>
      ParamsShown(params);
      ArrowShows(ParamChunks(params), TypeChunks(ret));
  }

  // ---------- The visitor ----------

  class PrettyPrinter {
    var os: string

    constructor ()
      ensures os == ""
    {
      os := "";
    }

    method Write(s: string)
      modifies this
      ensures os == old(os) + s
    {
      os := os + s;
    }

    method VisitExpression(e: Expr)
      requires Printable(e)
      modifies this
      ensures os == old(os) + Show(e)
      decreases e, 1
    {
      hide Render, Chunks;
      match e.node
      case Lit(_) => VisitLiteralExpression(e);
      case Ident(_) => VisitIdentifierExpression(e);
      case Binary(_, _, _) => VisitBinaryOpExpression(e);
      case Compare(_, _, _) => VisitComparisonOpExpression(e);
      case Unary(_, _) => VisitUnaryOpExpression(e);
      case Call(_, _) => VisitCallExpression(e);
      case BuiltinCall(_, _) => VisitBuiltinCallExpression(e);
      case Index(_, _) => VisitIndexExpression(e);
      case Member(_, _) => VisitMemberExpression(e);
      case Cast(_, _) => VisitImplicitCastExpression(e);
    }

    method VisitLiteralExpression(e: Expr)
      requires e.node.Lit? && Printable(e)
      modifies this
      ensures os == old(os) + Show(e)
      decreases e, 0
    {
      hide Render, Spell, Text, Dec;
      LiteralShows(e.node.lit);
      match e.node.lit
      case NilLit => Write("nil");
      case BoolLit(b) => Write(if b then "true" else "false");
      case IntLit(n) => Write(if n < 0 then "-" + Dec(-n) else Dec(n));
      case StringLit(s) => Write("\"" + s + "\"");
    }

    method VisitIdentifierExpression(e: Expr)
      requires e.node.Ident? && Printable(e)
      modifies this
      ensures os == old(os) + Show(e)
      decreases e, 0
    {
      hide Render, Spell, Text, HasFixedText, IsInfix, IsUnaryOp;
      Write(e.node.name);
      WordShows(IDENTIFIER, e.node.name);
    }

    method VisitBinaryOpExpression(e: Expr)
      requires e.node.Binary? && Printable(e)
      modifies this
      ensures os == old(os) + Show(e)
      decreases e, 0
    {
      hide Render, Spell, Text, HasFixedText, IsInfix, IsUnaryOp;
      OperatorsHaveText(e.node.op);
      VisitExpression(e.node.left);
      Write(" " + Text(e.node.op) + " ");
      VisitExpression(e.node.right);
      InfixShows(e.node.op, Chunks(e.node.left), Chunks(e.node.right));
      Concat(old(os), Show(e.node.left), " " + Text(e.node.op) + " ", Show(e.node.right), "");
    }

    method VisitComparisonOpExpression(e: Expr)
      requires e.node.Compare? && Printable(e)
      modifies this
      ensures os == old(os) + Show(e)
      decreases e, 0
    {
      hide Render, Spell, Text, HasFixedText, IsInfix, IsUnaryOp;
      OperatorsHaveText(e.node.cmp);
      VisitExpression(e.node.lhs);
      Write(" " + Text(e.node.cmp) + " ");
      VisitExpression(e.node.rhs);
      InfixShows(e.node.cmp, Chunks(e.node.lhs), Chunks(e.node.rhs));
      Concat(old(os), Show(e.node.lhs), " " + Text(e.node.cmp) + " ", Show(e.node.rhs), "");
    }

    method VisitUnaryOpExpression(e: Expr)
      requires e.node.Unary? && Printable(e)
      modifies this
      ensures os == old(os) + Show(e)
      decreases e, 0
    {
      hide Render, Spell, Text, HasFixedText, IsInfix, IsUnaryOp;
      OperatorsHaveText(e.node.prefix);
      Write(Text(e.node.prefix));
      VisitExpression(e.node.input);
      RenderMark(e.node.prefix);
      RenderAppend([Mark(e.node.prefix)], Chunks(e.node.input));
    }

    method VisitCallExpression(e: Expr)
      requires e.node.Call? && Printable(e)
      modifies this
      ensures os == old(os) + Show(e)
      decreases e, 0
    {
      hide Render, Spell, Text, HasFixedText, IsInfix, IsUnaryOp;
      Brackets();
      VisitExpression(e.node.fn);
      Write("(");
      VisitArguments(e.node.args);
      Write(")");
      BracketShows(Chunks(e.node.fn), LEFT_PAREN, ArgChunks(e.node.args), RIGHT_PAREN);
      Concat(old(os), Show(e.node.fn), "(", Render(ArgChunks(e.node.args)), ")");
    }

    method VisitBuiltinCallExpression(e: Expr)
      requires e.node.BuiltinCall? && Printable(e)
      modifies this
      ensures os == old(os) + Show(e)
      decreases e, 0
    {
      hide Render, Spell, Text, HasFixedText, IsInfix, IsUnaryOp;
      Write("@");
      VisitExpression(e.node.builtin);
      Write("(");
      VisitArguments(e.node.actuals);
      Write(")");
      ghost var name := e.node.builtin.node.name;
      WordShows(IDENTIFIER, name);
      BuiltinCallShows(name, ArgChunks(e.node.actuals));
      Concat(old(os), "@", name, "(", Render(ArgChunks(e.node.actuals)));
      Regroup(old(os), "@" + name + "(", Render(ArgChunks(e.node.actuals)), ")");
    }

    method VisitIndexExpression(e: Expr)
      requires e.node.Index? && Printable(e)
      modifies this
      ensures os == old(os) + Show(e)
      decreases e, 0
    {
      hide Render, Spell, Text, HasFixedText, IsInfix, IsUnaryOp;
      Brackets();
      VisitExpression(e.node.obj);
      Write("[");
      VisitExpression(e.node.index);
      Write("]");
      BracketShows(Chunks(e.node.obj), LEFT_BRACKET, Chunks(e.node.index), RIGHT_BRACKET);
      Concat(old(os), Show(e.node.obj), "[", Show(e.node.index), "]");
    }

    method VisitMemberExpression(e: Expr)
      requires e.node.Member? && Printable(e)
      modifies this
      ensures os == old(os) + Show(e)
      decreases e, 0
    {
      hide Render, Spell, Text, HasFixedText, IsInfix, IsUnaryOp;
      Separators();
      VisitExpression(e.node.base);
      Write(".");
      VisitExpression(e.node.member);
      RenderMark(DOT);
      RenderThree(Chunks(e.node.base), [Mark(DOT)], Chunks(e.node.member));
    }

    method VisitImplicitCastExpression(e: Expr)
      requires e.node.Cast? && Printable(e)
      modifies this
      ensures os == old(os) + Show(e)
      decreases e, 0
    {
      hide Render, Spell, Text, HasFixedText, IsInfix, IsUnaryOp;
      Brackets();
      var name := CastName(e.node.cast);
      Write(name + "(");
      VisitExpression(e.node.from);
      Write(")");
      WordShows(IDENTIFIER, name);
      BracketShows([Name(name)], LEFT_PAREN, Chunks(e.node.from), RIGHT_PAREN);
      assert [Name(name), Mark(LEFT_PAREN)] == [Name(name)] + [Mark(LEFT_PAREN)];
    }

    /** The arguments with ", " between them. */
    method VisitArguments(args: seq<Expr>)
      requires forall i :: 0 <= i < |args| ==> Printable(args[i])
      modifies this
      ensures os == old(os) + Render(ArgChunks(args))
      decreases args, 0
    {
      hide ArgsFrom, Show, Printable, ArgChunks;
      var first := true;
      AllArgs(args);
      for i := 0 to |args|
        invariant first == (i == 0)
        invariant os + ArgsFrom(args, i) == old(os) + Render(ArgChunks(args))
      {
        ghost var before := os;
        NextArg(args, i);
        if !first {
          Write(", ");
        }
        first := false;
        VisitExpression(args[i]);
        Regroup(before, if i > 0 then ", " else "", Show(args[i]), ArgsFrom(args, i + 1));
      }
    }

    // ---------- Types ----------

    method VisitType(t: TypeRepr)
      requires PrintableType(t)
      modifies this
      ensures os == old(os) + ShowType(t)
      decreases t, 1
    {
      hide Render, TypeChunks;
      match t
      case Named(_) => VisitTypeName(t);
      case PointerTo(_) => VisitPointerTypeRepr(t);
      case ArrayOf(_, _) => VisitArrayTypeRepr(t);
      case MapFrom(_, _) => VisitMapTypeRepr(t);
      case FunctionFrom(_, _) => VisitFunctionTypeRepr(t);
    }

    method VisitTypeName(t: TypeRepr)
      requires t.Named? && PrintableType(t)
      modifies this
      ensures os == old(os) + ShowType(t)
      decreases t, 0
    {
      hide Render, Spell, Text, HasFixedText, IsInfix, IsUnaryOp;
      Write(t.name);
      TypeNameShows(t.name);
    }

    method VisitPointerTypeRepr(t: TypeRepr)
      requires t.PointerTo? && PrintableType(t)
      modifies this
      ensures os == old(os) + ShowType(t)
      decreases t, 0
    {
      hide Render, Spell, Text, HasFixedText, IsInfix, IsUnaryOp;
      Signs();
      Write("*");
      VisitType(t.base);
      RenderMark(STAR);
      RenderAppend([Mark(STAR)], TypeChunks(t.base));
    }

    method VisitArrayTypeRepr(t: TypeRepr)
      requires t.ArrayOf? && PrintableType(t)
      modifies this
      ensures os == old(os) + ShowType(t)
      decreases t, 0
    {
      hide Render, Spell, Text, HasFixedText, IsInfix, IsUnaryOp;
      Signs();
      Write("[");
      if t.length.Some? {
        VisitExpression(t.length.value);
      } else {
        Write("*");
      }
      Write("]");
      VisitType(t.elem);
      RenderMark(STAR);
      ghost var length := if t.length.Some? then Chunks(t.length.value) else [Mark(STAR)];
      LengthShows(length, TypeChunks(t.elem));
      Concat(old(os), "[", Render(length), "]", ShowType(t.elem));
    }

    method VisitMapTypeRepr(t: TypeRepr)
      requires t.MapFrom? && PrintableType(t)
      modifies this
      ensures os == old(os) + ShowType(t)
      decreases t, 0
    {
      hide Render, Spell, Text, HasFixedText, IsInfix, IsUnaryOp;
      Write("map[");
      VisitType(t.key);
      Write("]");
      VisitType(t.val);
      MapShows(TypeChunks(t.key), TypeChunks(t.val));
      Concat(old(os), "map[", ShowType(t.key), "]", ShowType(t.val));
    }

    method VisitFunctionTypeRepr(t: TypeRepr)
      requires t.FunctionFrom? && PrintableType(t)
      modifies this
      ensures os == old(os) + ShowType(t)
      decreases t, 0
    {
      hide Render, Spell, Text, HasFixedText, IsInfix, IsUnaryOp;
      Write("(");
      VisitParameters(t.params);
      Write(") -> ");
      VisitType(t.ret);
      ArrowShows(ParamChunks(t.params), TypeChunks(t.ret));
      Concat(old(os), "(", Render(ParamChunks(t.params)), ") -> ", ShowType(t.ret));
    }

    method VisitParameter(p: FieldRepr)
      requires PrintableType(p.ty)
      modifies this
      ensures os == old(os) + Render(ParamChunk(p))
      decreases p, 0
    {
      hide Render, ParamChunk, PrintableType, TypeChunks;
      ParamShows(p);
      Write(p.fieldName + ": ");
      VisitType(p.ty);
    }

    method VisitParameters(params: seq<FieldRepr>)
      requires forall i :: 0 <= i < |params| ==> PrintableType(params[i].ty)
      modifies this
      ensures os == old(os) + Render(ParamChunks(params))
      decreases params, 0
    {
      hide ParamsFrom, ParamChunk, ParamChunks, PrintableType;
      var first := true;
      AllParams(params);
      for i := 0 to |params|
        invariant first == (i == 0)
        invariant os + ParamsFrom(params, i) == old(os) + Render(ParamChunks(params))
      {
        ghost var before := os;
        NextParam(params, i);
        if !first {
          Write(", ");
        }
        first := false;
        VisitParameter(params[i]);
        Regroup(before, if i > 0 then ", " else "", Render(ParamChunk(params[i])), ParamsFrom(params, i + 1));
      }
    }
  }
}
