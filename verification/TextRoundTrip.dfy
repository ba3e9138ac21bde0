/** From text to text: the characters the printer writes scan and parse back to the printed tree. */
module TextRoundTrip {
  import opened Options
  import opened Tokens
  import opened Decimal
  import opened Lexer
  import opened LexTheorems
  import opened Ast
  import opened Grammar
  import opened Printing
  import opened RoundTrip
  import opened NormalForm
  import opened Operands

  /** Names are identifiers and strings can be quoted. Casts are inserted by the type checker alone. */
  predicate Spellable(e: Expr)
    decreases e
  {
    match e.node
    case Lit(lit) => lit.StringLit? ==> Quotable(lit.s)
    case Ident(name) => WellFormed(Token(IDENTIFIER, name))
    case Binary(_, left, right) => Spellable(left) && Spellable(right)
    case Compare(_, left, right) => Spellable(left) && Spellable(right)
    case Unary(_, input) => Spellable(input)
    case Call(fn, args) => Spellable(fn) && forall i :: 0 <= i < |args| ==> Spellable(args[i])
    case BuiltinCall(fn, args) =>
      && fn.node.Ident? && WellFormed(Token(BUILTIN_IDENTIFIER, fn.node.name))
      && forall i :: 0 <= i < |args| ==> Spellable(args[i])
    case Index(obj, index) => Spellable(obj) && Spellable(index)
    case Member(obj, member) => Spellable(obj) && Spellable(member)
    case Cast(_, _) => false
    case Bad => false
  }

  /** The characters that can stand behind an expression in printed text. */
  predicate Delimits(c: char) {
    c == ' ' || c == '(' || c == ')' || c == '[' || c == ']' || c == ',' || c == '.'
  }

  predicate Delimited(rest: string) { |rest| == 0 || Delimits(rest[0]) }

  /** The next character does not run into the token, unless it is a point behind an integer. */
  predicate Apart(t: TokenType, rest: string) {
    if t.INTEGER? then |rest| == 0 || !IsDigit(rest[0]) else Separate(t, rest)
  }

  /** Well-formed tokens and blanks; at most a point runs into what is before it. */
  predicate Loose(cs: seq<Chunk>, rest: string) {
    |cs| == 0 ||
    (&& (match cs[0]
         case Spelt(t) => WellFormed(t) && Apart(t.ty, Render(cs[1..]) + rest)
         case Gap(_) => cs[0] == BLANK)
     && Loose(cs[1..], rest))
  }

  // ---------- First characters ----------

  /** No operator runs into such a character. */
  predicate Opens(s: string) { |s| > 0 && s[0] != '=' && s[0] != '>' && s[0] != '<' }

  lemma OpensAppend(s: string, t: string)
    requires Opens(s)
    ensures Opens(s + t)
  {
  }

  lemma SpellOpens(t: Token)
    requires CanOpen(t)
    ensures Opens(Spell(t))
  {
    hide WordType, IsFloat;
    if t.ty.FLOAT? { FloatOpens(t.literal); }
  }

  predicate OpensWith(cs: seq<Chunk>) {
    |cs| > 0 && cs[0].Spelt? && CanOpen(cs[0].token)
  }

  predicate CanOpen(t: Token) {
    WellFormed(t) && (HasText(t.ty) || t.ty.NIL? || t.ty.TRUE? || t.ty.FALSE? || IsUnaryOp(t.ty))
  }

  lemma {:induction false} FirstOpens(e: Expr)
    requires Printable(e) && Spellable(e)
    ensures OpensWith(Chunks(e))
    decreases e
  {
    hide CanOpen, WellFormed, Dec, IsUnaryOp, IsInfix, LiteralChunks, Text, WordType, Sign;
    match e.node
    case Lit(lit) => LiteralOpens(lit);
    case Ident(name) => TextCanOpen(Token(IDENTIFIER, name));
    case Binary(_, left, _) => FirstOpens(left);
    case Compare(_, left, _) => FirstOpens(left);
    case Unary(op, _) => SignCanOpen(op);
    case Call(fn, _) => FirstOpens(fn);
    case BuiltinCall(fn, _) => TextCanOpen(Token(BUILTIN_IDENTIFIER, fn.node.name));
    case Index(obj, _) => FirstOpens(obj);
    case Member(obj, _) => FirstOpens(obj);
  }

  lemma TextCanOpen(t: Token)
    requires WellFormed(t) && HasText(t.ty)
    ensures CanOpen(t)
  {
  }

  lemma SignCanOpen(t: TokenType)
    requires t.NIL? || t.TRUE? || t.FALSE? || IsUnaryOp(t)
    ensures CanOpen(Sign(t))
  {
    hide Text;
  }

  lemma LiteralOpens(lit: Literal)
    requires !lit.FloatLit? && (lit.StringLit? ==> Quotable(lit.s))
    ensures OpensWith(LiteralChunks(lit))
  {
    hide CanOpen, WellFormed, Dec, Quotable, Text, WordType, Sign;
    match lit
    case NilLit => SignCanOpen(NIL);
    case BoolLit(b) => SignCanOpen(if b then TRUE else FALSE);
    case StringLit(s) => StringWellFormed(s); TextCanOpen(Token(STRING, s));
    case IntLit(n) =>
      SignCanOpen(MINUS);
      NumberWellFormed(if n < 0 then -n else n);
      TextCanOpen(Token(INTEGER, Dec(if n < 0 then -n else n)));
  }

  lemma ShowOpens(e: Expr)
    requires Printable(e) && Spellable(e)
    ensures Opens(Show(e))
  {
    hide Opens, Spell, CanOpen, Chunks, Printable, Spellable, WellFormed;
    FirstOpens(e);
    var t := Chunks(e)[0].token;
    SpellOpens(t);
    OpensAppend(Spell(t), Render(Chunks(e)[1..]));
  }

  // ---------- Well-formed tokens ----------

  lemma SignWellFormed(t: TokenType)
    requires HasFixedText(t) || IsUnaryOp(t) || IsInfix(t)
    ensures WellFormed(Sign(t))
  {
    hide Text;
  }

  lemma NumberWellFormed(n: nat)
    ensures WellFormed(Token(INTEGER, Dec(n)))
  {
    hide Dec, WordType;
  }

  lemma StringWellFormed(s: string)
    requires Quotable(s)
    ensures WellFormed(Token(STRING, s))
  {
    hide WordType;
  }

  // ---------- Spacing ----------

  lemma {:induction false} LooseAppend(a: seq<Chunk>, b: seq<Chunk>, rest: string)
    requires Loose(a, Render(b) + rest) && Loose(b, rest)
    ensures Loose(a + b, rest)
  {
    hide Apart, WellFormed, Spell;
    if |a| == 0 {
      assert a + b == b;
    } else {
      assert (a + b)[1..] == a[1..] + b;
      RenderAppend(a[1..], b);
      assert Render(a[1..]) + (Render(b) + rest) == Render(a[1..] + b) + rest;
      LooseAppend(a[1..], b, rest);
    }
  }

  lemma LooseOne(t: Token, rest: string)
    requires WellFormed(t) && Apart(t.ty, rest)
    ensures Loose([Spelt(t)], rest)
  {
    hide WellFormed, Apart;
    assert [Spelt(t)][1..] == [];
    assert Render([]) + rest == rest;
  }

  lemma LooseBlank(cs: seq<Chunk>, rest: string)
    requires Loose(cs, rest)
    ensures Loose([BLANK] + cs, rest)
  {
    hide WellFormed, Apart;
    assert ([BLANK] + cs)[1..] == cs;
  }

  /** A token before spaced chunks. */
  lemma LooseCons(t: Token, cs: seq<Chunk>, rest: string)
    requires WellFormed(t) && Apart(t.ty, Render(cs) + rest) && Loose(cs, rest)
    ensures Loose([Spelt(t)] + cs, rest)
  {
    hide WellFormed, Apart, Render;
    assert ([Spelt(t)] + cs)[1..] == cs;
  }

  /** Punctuation that no character runs into. */
  lemma MarkApart(t: TokenType, rest: string)
    requires t.LEFT_PAREN? || t.RIGHT_PAREN? || t.LEFT_BRACKET? || t.RIGHT_BRACKET? || t.COMMA? || t.DOT? || t.COLON? || t.ARROW? || t.STAR?
    ensures Apart(t, rest) && WellFormed(Sign(t))
  {
    hide Text;
  }

  lemma BlankApart(t: TokenType, rest: string)
    requires |rest| > 0 && rest[0] == ' '
    ensures Apart(t, rest)
  {
  }

  lemma OperandApart(op: TokenType, rest: string)
    requires IsUnaryOp(op) && Opens(rest)
    ensures Apart(op, rest)
  {
  }

  /** The text of an expression runs into nothing that may stand behind it. */
  lemma {:induction false} LooseExpr(e: Expr, rest: string)
    requires Printable(e) && Spellable(e) && Delimited(rest)
    ensures Loose(Chunks(e), rest)
    decreases e, 1
  {
    hide Loose, Chunks, Delimited, WellFormed, Quotable, IsInfix, IsUnaryOp;
    match e.node
    case Lit(lit) => LooseLiteral(e, rest);
    case Ident(name) => LooseName(e, rest);
    case Binary(op, left, right) => LooseInfix(e, op, left, right, rest);
    case Compare(op, left, right) => LooseInfix(e, op, left, right, rest);
    case Unary(op, input) => LoosePrefix(e, rest);
    case Call(fn, args) => LooseCall(e, rest);
    case BuiltinCall(fn, args) => LooseBuiltin(e, rest);
    case Index(obj, index) => LooseIndex(e, rest);
    case Member(obj, member) => LooseMember(e, rest);
  }

  lemma DelimitedApart(t: TokenType, rest: string)
    requires Delimited(rest) && (HasText(t) || t.NIL? || t.TRUE? || t.FALSE?)
    requires !t.FLOAT?
    ensures Apart(t, rest)
  {
  }

  lemma LooseLiteral(e: Expr, rest: string)
    requires e.node.Lit? && Printable(e) && Spellable(e) && Delimited(rest)
    ensures Loose(Chunks(e), rest)
  {
    hide Loose, Delimited, WellFormed, Apart, Dec, Text, Render, Quotable;
    match e.node.lit
    case NilLit => SignWellFormed(NIL); DelimitedApart(NIL, rest); LooseOne(Sign(NIL), rest);
    case BoolLit(b) =>
      var t := if b then TRUE else FALSE;
      SignWellFormed(t);
      DelimitedApart(t, rest);
      LooseOne(Sign(t), rest);
    case StringLit(s) =>
      StringWellFormed(s);
      DelimitedApart(STRING, rest);
      LooseOne(Token(STRING, s), rest);
    case IntLit(n) =>
      var t := Token(INTEGER, Dec(if n < 0 then -n else n));
      NumberWellFormed(if n < 0 then -n else n);
      DelimitedApart(INTEGER, rest);
      LooseOne(t, rest);
      if n < 0 {
        assert Chunks(e) == [Mark(MINUS)] + [Spelt(t)];
        SignWellFormed(MINUS);
        TextCanOpen(t);
        SpellOpens(t);
        RenderOne(t);
        OpensAppend(Render([Spelt(t)]), rest);
        OperandApart(MINUS, Render([Spelt(t)]) + rest);
        LooseCons(Sign(MINUS), [Spelt(t)], rest);
      }
  }

  lemma LooseName(e: Expr, rest: string)
    requires e.node.Ident? && Printable(e) && Spellable(e) && Delimited(rest)
    ensures Loose(Chunks(e), rest)
  {
    hide Loose, Delimited, WellFormed, Apart;
    DelimitedApart(IDENTIFIER, rest);
    LooseOne(Token(IDENTIFIER, e.node.name), rest);
  }

  lemma {:induction false} LooseInfix(e: Expr, op: TokenType, left: Expr, right: Expr, rest: string)
    requires e.node == Binary(op, left, right) || e.node == Compare(op, left, right)
    requires Printable(e) && Spellable(e) && Delimited(rest)
    ensures Loose(Chunks(e), rest)
    decreases e, 0
  {
    hide Loose, WellFormed, Apart, Render, Text, Delimited;
    var l, r := Chunks(left), Chunks(right);
    LooseExpr(right, rest);
    var tail := [BLANK] + ([Mark(op)] + ([BLANK] + r));
    OperatorLoose(op, r, rest);
    assert Delimited(Render(tail) + rest) by { BlankDelimits(Render(tail) + rest); }
    LooseExpr(left, Render(tail) + rest);
    LooseAppend(l, tail, rest);
    assert l + tail == l + [BLANK, Mark(op), BLANK] + r;
  }

  lemma OperatorLoose(op: TokenType, r: seq<Chunk>, rest: string)
    requires IsInfix(op) && Loose(r, rest)
    ensures var tail := [BLANK] + ([Mark(op)] + ([BLANK] + r));
            Loose(tail, rest) && |Render(tail)| > 0 && Render(tail)[0] == ' '
  {
    hide Loose, WellFormed, Apart, Render, Text;
    LooseBlank(r, rest);
    SignWellFormed(op);
    RenderBlank();
    RenderAppend([BLANK], r);
    BlankApart(op, Render([BLANK] + r) + rest);
    LooseCons(Sign(op), [BLANK] + r, rest);
    LooseBlank([Mark(op)] + ([BLANK] + r), rest);
    RenderAppend([BLANK], [Mark(op)] + ([BLANK] + r));
  }

  lemma BlankDelimits(rest: string)
    requires |rest| > 0 && (rest[0] == ' ' || rest[0] == '.')
    ensures Delimited(rest)
  {
  }

  lemma {:induction false} LoosePrefix(e: Expr, rest: string)
    requires e.node.Unary? && Printable(e) && Spellable(e) && Delimited(rest)
    ensures Loose(Chunks(e), rest)
    decreases e, 0
  {
    hide Loose, WellFormed, Apart, Render, Text, Delimited, Opens, IsUnaryOp;
    var op, input := e.node.prefix, e.node.input;
    LooseExpr(input, rest);
    ShowOpens(input);
    OpensAppend(Show(input), rest);
    OperandApart(op, Show(input) + rest);
    SignWellFormed(op);
    LooseCons(Sign(op), Chunks(input), rest);
  }

  /** open inner close, where the closing mark runs into nothing. */
  lemma LooseBracket(before: seq<Chunk>, open: TokenType, inner: seq<Chunk>, close: TokenType, rest: string)
    requires (open.LEFT_PAREN? && close.RIGHT_PAREN?) || (open.LEFT_BRACKET? && close.RIGHT_BRACKET?)
    requires Loose(inner, Text(close) + rest)
    requires forall tail :: Loose(before, Text(open) + tail)
    ensures Loose(before + [Mark(open)] + inner + [Mark(close)], rest)
  {
    hide Loose, WellFormed, Apart, Render, Text;
    LooseClosed(inner, close, rest);
    Brackets();
    var tail := inner + [Mark(close)];
    MarkApart(open, Render(tail) + rest);
    LooseCons(Sign(open), tail, rest);
    RenderMark(open);
    RenderAppend([Mark(open)], tail);
    assert Render([Mark(open)] + tail) + rest == Text(open) + (Render(tail) + rest);
    LooseAppend(before, [Mark(open)] + tail, rest);
    assert before + ([Mark(open)] + tail) == before + [Mark(open)] + inner + [Mark(close)];
  }

  lemma LooseClosed(inner: seq<Chunk>, close: TokenType, rest: string)
    requires (close.RIGHT_PAREN? || close.RIGHT_BRACKET?) && Loose(inner, Text(close) + rest)
    ensures Loose(inner + [Mark(close)], rest)
  {
    hide Loose, WellFormed, Apart, Render, Text;
    MarkApart(close, rest);
    LooseOne(Sign(close), rest);
    Brackets();
    RenderMark(close);
    LooseAppend(inner, [Mark(close)], rest);
  }

  lemma BracketDelimits(t: TokenType, rest: string)
    requires t.LEFT_PAREN? || t.RIGHT_PAREN? || t.LEFT_BRACKET? || t.RIGHT_BRACKET? || t.COMMA?
    ensures Delimited(Text(t) + rest)
  {
  }

  lemma {:induction false} LooseCall(e: Expr, rest: string)
    requires e.node.Call? && Printable(e) && Spellable(e)
    ensures Loose(Chunks(e), rest)
    decreases e, 0
  {
    hide Loose, Render, Text, Delimited;
    var fn, args := e.node.fn, e.node.args;
    forall tail ensures Loose(Chunks(fn), Text(LEFT_PAREN) + tail) {
      BracketDelimits(LEFT_PAREN, tail);
      LooseExpr(fn, Text(LEFT_PAREN) + tail);
    }
    LooseArgs(args, rest);
    LooseBracket(Chunks(fn), LEFT_PAREN, ArgChunks(args), RIGHT_PAREN, rest);
  }

  lemma {:induction false} LooseBuiltin(e: Expr, rest: string)
    requires e.node.BuiltinCall? && Printable(e) && Spellable(e)
    ensures Loose(Chunks(e), rest)
    decreases e, 0
  {
    hide Loose, Render, Text, Delimited, WellFormed, Apart;
    var t, args := Token(BUILTIN_IDENTIFIER, e.node.builtin.node.name), e.node.actuals;
    forall tail ensures Loose([Spelt(t)], Text(LEFT_PAREN) + tail) {
      BracketDelimits(LEFT_PAREN, tail);
      DelimitedApart(t.ty, Text(LEFT_PAREN) + tail);
      LooseOne(t, Text(LEFT_PAREN) + tail);
    }
    LooseArgs(args, rest);
    LooseBracket([Spelt(t)], LEFT_PAREN, ArgChunks(args), RIGHT_PAREN, rest);
    assert [Spelt(t), Mark(LEFT_PAREN)] == [Spelt(t)] + [Mark(LEFT_PAREN)];
  }

  lemma {:induction false} LooseArgs(args: seq<Expr>, rest: string)
    requires forall i :: 0 <= i < |args| ==> Printable(args[i]) && Spellable(args[i])
    ensures Loose(ArgChunks(args), Text(RIGHT_PAREN) + rest)
    decreases args
  {
    hide Loose, Render, Text, Delimited, Printable, Spellable, Chunks, WellFormed, Apart;
    var end := Text(RIGHT_PAREN) + rest;
    if |args| == 0 {
      NothingLoose(end);
    } else if |args| == 1 {
      BracketDelimits(RIGHT_PAREN, rest);
      LooseExpr(args[0], end);
    } else {
      var more := ArgChunks(args[1..]);
      LooseArgs(args[1..], rest);
      LooseBlank(more, end);
      MarkApart(COMMA, Render([BLANK] + more) + end);
      LooseCons(Sign(COMMA), [BLANK] + more, end);
      var tail := [Mark(COMMA)] + ([BLANK] + more);
      Separators();
      RenderMark(COMMA);
      RenderAppend([Mark(COMMA)], [BLANK] + more);
      assert Render(tail) + end == Text(COMMA) + (Render([BLANK] + more) + end);
      BracketDelimits(COMMA, Render([BLANK] + more) + end);
      LooseExpr(args[0], Render(tail) + end);
      LooseAppend(Chunks(args[0]), tail, end);
      assert Chunks(args[0]) + tail == Chunks(args[0]) + [Mark(COMMA), BLANK] + more;
    }
  }

  lemma NothingLoose(rest: string)
    ensures Loose([], rest)
  {
  }

  lemma {:induction false} LooseIndex(e: Expr, rest: string)
    requires e.node.Index? && Printable(e) && Spellable(e)
    ensures Loose(Chunks(e), rest)
    decreases e, 0
  {
    hide Loose, Render, Text, Delimited;
    var obj, index := e.node.obj, e.node.index;
    forall tail ensures Loose(Chunks(obj), Text(LEFT_BRACKET) + tail) {
      BracketDelimits(LEFT_BRACKET, tail);
      LooseExpr(obj, Text(LEFT_BRACKET) + tail);
    }
    BracketDelimits(RIGHT_BRACKET, rest);
    LooseExpr(index, Text(RIGHT_BRACKET) + rest);
    LooseBracket(Chunks(obj), LEFT_BRACKET, Chunks(index), RIGHT_BRACKET, rest);
  }

  lemma {:induction false} LooseMember(e: Expr, rest: string)
    requires e.node.Member? && Printable(e) && Spellable(e) && Delimited(rest)
    ensures Loose(Chunks(e), rest)
    decreases e, 0
  {
    hide Loose, Render, Text, Delimited, WellFormed, Apart;
    var obj, member := e.node.base, e.node.member;
    var m := Chunks(member);
    LooseExpr(member, rest);
    MarkApart(DOT, Render(m) + rest);
    LooseCons(Sign(DOT), m, rest);
    Separators();
    RenderMark(DOT);
    RenderAppend([Mark(DOT)], m);
    BlankDelimits(Render([Mark(DOT)] + m) + rest);
    LooseExpr(obj, Render([Mark(DOT)] + m) + rest);
    LooseAppend(Chunks(obj), [Mark(DOT)] + m, rest);
    assert Chunks(obj) + ([Mark(DOT)] + m) == Chunks(obj) + [Mark(DOT)] + m;
  }

  // ---------- Points behind numbers ----------

  predicate IntegerThenPoint(cs: seq<Chunk>) {
    |cs| > 1 && cs[0].Spelt? && cs[0].token.ty.INTEGER? && cs[1] == Mark(DOT)
  }

  /** No integer literal stands right in front of a point. */
  predicate PointFree(cs: seq<Chunk>) {
    |cs| == 0 || (!IntegerThenPoint(cs) && PointFree(cs[1..]))
  }

  lemma PointIsDot(cs: seq<Chunk>)
    requires Loose(cs, "") && |Render(cs)| > 0 && Render(cs)[0] == '.'
    ensures |cs| > 0 && cs[0] == Mark(DOT)
  {
    hide Apart;
    var t := cs[0].token;
    SpellStarts(t);
    assert Render(cs)[0] == Spell(t)[0];
  }

  lemma SpellStarts(t: Token)
    requires WellFormed(t)
    ensures |Spell(t)| > 0 && (Spell(t)[0] == '.' ==> t == Sign(DOT))
  {
    hide WordType;
    if HasText(t.ty) {
      if t.ty.FLOAT? { SpellOpens(t); }
    } else if IsKeyword(t.ty) {
      KeywordIsWord(t.ty);
    } else {
      OperatorFromText(t.ty);
    }
  }

  lemma {:induction false} LooseIsSpaced(cs: seq<Chunk>)
    requires Loose(cs, "") && PointFree(cs)
    ensures Spaced(cs, "")
  {
    hide WellFormed, Apart, Separate, Render;
    if |cs| > 0 {
      LooseIsSpaced(cs[1..]);
      assert Render(cs[1..]) + "" == Render(cs[1..]);
      if cs[0].Gap? {
        assert IsGap(" ") by { assert " "[..1] == " " && IsPiece(" ") && IsGap(" "[1..]); }
      } else {
        ChunkSeparate(cs);
      }
    }
  }

  lemma FloatStarts(d: string, rest: string)
    requires |d| > 0 && AllDigits(d)
    ensures NextToken(d + "." + rest).Tok? && NextToken(d + "." + rest).token.ty.FLOAT?
  {
    var s := d + "." + rest;
    assert s == d + ("." + rest);
    DigitsOfPrefix(d, "." + rest);
    assert s[0] == d[0] && s[|d|] == '.';
  }

  /** The first point behind an integer makes a float literal of it. */
  lemma {:induction false} FloatAppears(cs: seq<Chunk>) returns (k: nat)
    requires Loose(cs, "") && !PointFree(cs)
    ensures var ts := ScanAll(Render(cs)).tokens;
            && k < |ts| && k < |TokensOf(cs)| && ts[..k] == TokensOf(cs)[..k]
            && ts[k].ty.FLOAT? && TokensOf(cs)[k].ty.INTEGER?
  {
    hide WellFormed, ScanAll, Spell, Apart;
    var after := Render(cs[1..]);
    if IntegerThenPoint(cs) {
      k := 0;
      FloatFirst(cs);
    } else {
      var i := FloatAppears(cs[1..]);
      if cs[0].Gap? {
        k := i;
        BlankSkipped(after);
      } else {
        k := i + 1;
        TokenFirst(cs);
        OneTokenMore(cs[0].token, ScanAll(after).tokens, TokensOf(cs[1..]), i);
      }
    }
  }

  lemma OneTokenMore(t: Token, a: seq<Token>, b: seq<Token>, k: nat)
    requires k <= |a| && k <= |b| && a[..k] == b[..k]
    ensures ([t] + a)[..k + 1] == ([t] + b)[..k + 1]
  {
    assert ([t] + a)[..k + 1] == [t] + a[..k];
    assert ([t] + b)[..k + 1] == [t] + b[..k];
  }

  lemma TokenFirst(cs: seq<Chunk>)
    requires |cs| > 0 && cs[0].Spelt? && Loose(cs, "") && !IntegerThenPoint(cs)
    ensures ScanAll(Render(cs)).tokens == [cs[0].token] + ScanAll(Render(cs[1..])).tokens
    ensures TokensOf(cs) == [cs[0].token] + TokensOf(cs[1..])
  {
    hide WellFormed, NextToken, Spell;
    var t, after := cs[0].token, Render(cs[1..]);
    assert after + "" == after;
    ChunkSeparate(cs);
    TokenScans(t, after);
    NotTheEnd(t);
  }

  lemma LooseHead(cs: seq<Chunk>)
    requires |cs| > 0 && cs[0].Spelt? && Loose(cs, "")
    ensures Apart(cs[0].token.ty, Render(cs[1..])) && Loose(cs[1..], "")
  {
    hide Apart, WellFormed;
    assert Render(cs[1..]) + "" == Render(cs[1..]);
  }

  lemma ApartIsSeparate(t: TokenType, rest: string)
    requires Apart(t, rest) && !t.INTEGER?
    ensures Separate(t, rest)
  {
    hide Separate;
  }

  /** A loose chunk is separate when no point stands behind an integer. */
  lemma ChunkSeparate(cs: seq<Chunk>)
    requires |cs| > 0 && cs[0].Spelt? && Loose(cs, "") && !IntegerThenPoint(cs)
    ensures Separate(cs[0].token.ty, Render(cs[1..]))
  {
    hide Loose, Render;
    var t, after := cs[0].token.ty, Render(cs[1..]);
    LooseHead(cs);
    if t.INTEGER? {
      if |after| > 0 && after[0] == '.' { PointIsDot(cs[1..]); }
    } else {
      ApartIsSeparate(t, after);
    }
  }

  lemma FloatFirst(cs: seq<Chunk>)
    requires Loose(cs, "") && IntegerThenPoint(cs)
    ensures |ScanAll(Render(cs)).tokens| > 0 && ScanAll(Render(cs)).tokens[0].ty.FLOAT?
    ensures |TokensOf(cs)| > 0 && TokensOf(cs)[0].ty.INTEGER?
  {
    hide NextToken, Render, Loose;
    PointedText(cs);
    FloatStarts(cs[0].token.literal, Render(cs[2..]));
  }

  lemma PointedText(cs: seq<Chunk>)
    requires Loose(cs, "") && IntegerThenPoint(cs)
    ensures var d := cs[0].token.literal;
            |d| > 0 && AllDigits(d) && Render(cs) == d + "." + Render(cs[2..])
  {
    hide Apart;
    assert cs[1..][1..] == cs[2..];
  }

  lemma BlankSkipped(s: string)
    ensures ScanAll(" " + s) == ScanAll(s)
  {
    hide TokenAt;
    assert (" " + s)[1..] == s;
    ScanSkips(" " + s, s);
  }

  // ---------- Operands of scanned text ----------

  predicate LeafSpells(l: Leaf) {
    match l
    case NameLeaf(x) => WellFormed(Token(IDENTIFIER, x))
    case BuiltinLeaf(x) => WellFormed(Token(BUILTIN_IDENTIFIER, x))
    case StringLeaf(s) => Quotable(s)
    case NoLeaf => false
    case _ => true
  }

  lemma {:induction false} BetweenSpells(ts: seq<Token>, i: nat, j: nat)
    requires forall k :: 0 <= k < |ts| && HasText(ts[k].ty) ==> WellFormed(ts[k])
    ensures forall l :: l in Between(ts, i, j) ==> LeafSpells(l)
    decreases j - i
  {
    hide WordType, StrToInt64, StrToReal;
    if i < j <= |ts| {
      BetweenSpells(ts, Step(ts, i), j);
    }
  }

  lemma {:induction false} SpellableByLeaves(e: Expr)
    requires Printable(e) && forall l :: l in Leaves(e) ==> LeafSpells(l)
    ensures Spellable(e) && forall l :: l in Leaves(e) ==> !l.FloatLeaf?
    decreases e
  {
    hide WellFormed, Quotable;
    match e.node
    case Lit(lit) => assert LiteralLeaf(lit) in Leaves(e);
    case Ident(name) => assert NameLeaf(name) in Leaves(e);
    case Binary(_, left, right) => SpellableByLeaves(left); SpellableByLeaves(right);
    case Compare(_, left, right) => SpellableByLeaves(left); SpellableByLeaves(right);
    case Unary(_, input) => SpellableByLeaves(input);
    case Call(fn, args) => SpellableByLeaves(fn); SpellableArgs(args);
    case BuiltinCall(fn, args) =>
      var name := BuiltinLeaf(fn.node.name);
      assert Leaves(e) == [name] + ArgLeaves(args);
      assert LeafSpells(name) by { assert Leaves(e)[0] == name; }
      SpellableArgs(args);
    case Index(obj, index) => SpellableByLeaves(obj); SpellableByLeaves(index);
    case Member(obj, member) => SpellableByLeaves(obj); SpellableByLeaves(member);
    case Cast(_, _) => CastHasNoToken(e);
  }

  lemma CastHasNoToken(e: Expr)
    requires e.node.Cast?
    ensures NoLeaf in Leaves(e)
  {
    assert Leaves(e)[0] == NoLeaf;
  }

  lemma {:induction false} SpellableArgs(args: seq<Expr>)
    requires forall i :: 0 <= i < |args| ==> Printable(args[i])
    requires forall l :: l in ArgLeaves(args) ==> LeafSpells(l)
    ensures forall i :: 0 <= i < |args| ==> Spellable(args[i])
    ensures forall l :: l in ArgLeaves(args) ==> !l.FloatLeaf?
    decreases args
  {
    hide Spellable, Printable, Leaves, LeafSpells;
    if |args| > 0 {
      var n := |args| - 1;
      SpellableByLeaves(args[n]);
      SpellableArgs(args[..n]);
      forall i | 0 <= i < |args| ensures Spellable(args[i]) {
        if i < n { assert args[i] == args[..n][i]; }
      }
    }
  }

  /** A float token that is not taken for the parenthesis of a builtin call is an operand. */
  lemma {:induction false} FloatIsOperand(ts: seq<Token>, i: nat, j: nat, k: nat)
    requires Reaches(ts, i, j) && i <= k < j <= |ts| && ts[k].ty.FLOAT?
    requires k > 0 ==> !ts[k - 1].ty.BUILTIN_IDENTIFIER?
    ensures FloatLeaf(StrToReal(ts[k].literal)) in Between(ts, i, j)
    decreases j - i
  {
    hide StrToReal, StrToInt64;
    if i < k {
      FloatIsOperand(ts, Step(ts, i), j, k);
    }
  }

  // ---------- The theorem ----------

  /** What reading a whole text as one expression gives, if there is nothing behind it and no error. */
  function ParseText(s: string): Option<Expr> {
    match ScanAll(s)
    case StuckIn(_) => None
    case Tokens(ts) =>
      match ParseExpression(ts, 0)
      case Done(e, next, errs) => if next == |ts| && errs == 0 then Some(e) else None
      case Loops => None
      case FunctionLiteral => None
  }

  /** Text round trip, exactly: scanning and parsing the printed characters returns the tree if and only
      if it is in normal form, its names are identifiers, its strings can be quoted, and no integer
      literal stands right in front of a point. */
  lemma {:induction false} TextRoundTripExact(e: Expr)
    requires Printable(e)
    ensures ParseText(Show(e)) == Some(e) <==> Normal(e, 1) && Spellable(e) && PointFree(Chunks(e))
  {
    hide Normal, Spellable, Printable, PointFree, Chunks, ParseText;
    if Spellable(e) && PointFree(Chunks(e)) {
      SpeltTokens(e);
      RoundTripExact(e);
      TextIsTokens(e);
    } else if ParseText(Show(e)) == Some(e) {
      TextSpells(e);
      NoFloatToken(e);
    }
  }

  lemma SpeltTokens(e: Expr)
    requires Printable(e) && Spellable(e) && PointFree(Chunks(e))
    ensures ScanAll(Show(e)) == Tokens(Toks(e))
  {
    hide Spellable, Printable, PointFree, Chunks, Loose, Spaced, Render, TokensOf, ScanAll;
    LooseExpr(e, "");
    LooseIsSpaced(Chunks(e));
    LexicalRoundTrip(Chunks(e));
  }

  lemma TextIsTokens(e: Expr)
    requires Printable(e) && ScanAll(Show(e)) == Tokens(Toks(e))
    ensures ParseText(Show(e)) == Some(e) <==> ParseExpression(Toks(e), 0) == Done(e, |Toks(e)|, 0)
  {
    hide ParseExpression, ScanAll;
  }

  /** A tree that comes back from its text only has names and strings that can be scanned. */
  lemma TextSpells(e: Expr)
    requires Printable(e) && ParseText(Show(e)) == Some(e)
    ensures Spellable(e) && forall l :: l in Leaves(e) ==> !l.FloatLeaf?
  {
    hide ParseExpression, ScanAll, Spellable, Printable, Leaves, LeafSpells, WellFormed;
    var ts := ScanAll(Show(e)).tokens;
    OperandsKept(ts, 0);
    ScannedWellFormed(Show(e));
    BetweenSpells(ts, 0, |ts|);
    SpellableByLeaves(e);
  }

  lemma NoFloatToken(e: Expr)
    requires Printable(e) && Spellable(e) && ParseText(Show(e)) == Some(e)
    requires forall l :: l in Leaves(e) ==> !l.FloatLeaf?
    ensures PointFree(Chunks(e))
  {
    hide ParseExpression, ScanAll, Spellable, Printable, Leaves, PointFree, Chunks, Loose, TokensOf, Render, Ungrouped,
         StrToReal;
    if !PointFree(Chunks(e)) {
      LooseExpr(e, "");
      var ts := ScanAll(Show(e)).tokens;
      var k := FloatAppears(Chunks(e));
      OperandsKept(ts, 0);
      ToksPhrase(e);
      if k > 0 {
        assert ts[k - 1] == ts[..k][k - 1] == Toks(e)[k - 1];
        assert UngroupedAt(Toks(e), k - 1) by { PhraseIsUngrouped(Toks(e)); UngroupedThere(Toks(e), k - 1); }
      }
      FloatIsOperand(ts, 0, |ts|, k);
    }
  }

  /** Why a point may not follow a number: 5 . x prints as 5.x, which starts with a float literal. */
  lemma PointJoinsNumber(n: nat, x: string)
    requires n <= INT64_MAX
    ensures var e := Fresh(Member(Fresh(Lit(IntLit(n))), Fresh(Ident(x))));
            Normal(e, 1) && Printable(e) && ParseText(Show(e)) != Some(e)
  {
    hide ParseText, Spellable;
    var five, field := Fresh(Lit(IntLit(n))), Fresh(Ident(x));
    var e := Fresh(Member(five, field));
    assert NormalOperand(five) && NormalOperand(field);
    assert NormalPostfix(five);
    assert NormalPostfix(e);
    assert Chunks(e) == [Number(n), Mark(DOT), Name(x)];
    TextRoundTripExact(e);
  }
}
