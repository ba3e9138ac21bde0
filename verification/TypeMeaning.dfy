/** What a printed type means: its text scans to the tokens of the type, and they parse to the
    representation of the type (src/ast/type_printer.cpp:33-98). */
module TypeMeaning {
  import opened Options
  import opened Types
  import opened Tokens
  import opened Decimal
  import opened Lexer
  import opened LexTheorems
  import opened Ast
  import opened Grammar
  import opened Printing
  import opened RoundTrip
  import opened Sema
  import opened TypePrinting
  import opened TypeRoundTrip
  import opened WrittenTypes

  // ---------- Scanning the text ----------

  function Prepend(ts: seq<Token>, s: Stream): Stream {
    match s
    case Tokens(more) => Tokens(ts + more)
    case StuckIn(more) => StuckIn(ts + more)
  }

  lemma PrependTwice(a: seq<Token>, b: seq<Token>, s: Stream)
    ensures Prepend(a + b, s) == Prepend(a, Prepend(b, s))
  {
    assert forall more: seq<Token> :: a + b + more == a + (b + more);
  }

  /** The tokens of a type, element by element; structs keep the types of their fields only. */
  function TextToks(t: Type): seq<Token>
    decreases t
  {
    match t
    case Builtin(kind) => [NameToken(TplName(kind))]
    case StringType => [NameToken("string")]
    case Pointer(base) => [Sign(STAR)] + TextToks(base)
    case Array(length, elem) => [Sign(LEFT_BRACKET)] + ([LengthToken(length)] + ([Sign(RIGHT_BRACKET)] + TextToks(elem)))
    case Map(key, val) =>
      [Sign(MAP)] + ([Sign(LEFT_BRACKET)] + (TextToks(key) + ([Sign(RIGHT_BRACKET)] + TextToks(val))))
    case Struct(_, fields) => [Sign(STRUCT)] + ([Sign(LEFT_BRACE)] + (ListToks(fields) + [Sign(RIGHT_BRACE)]))
    case Function(params, ret) =>
      [Sign(LEFT_PAREN)] + (ListToks(params) + ([Sign(RIGHT_PAREN)] + ([Sign(ARROW)] + TextToks(ret))))
  }

  function LengthToken(length: nat): Token { if length == 0 then Sign(STAR) else Token(INTEGER, Dec(length)) }

  function ListToks(fs: seq<Field>): seq<Token>
    decreases fs
  {
    if |fs| == 0 then []
    else if |fs| == 1 then TextToks(fs[0].ty)
    else TextToks(fs[0].ty) + ([Sign(COMMA)] + ListToks(fs[1..]))
  }

  /** A well-formed token that nothing runs into is the first token of the text. */
  lemma OneScans(t: Token, rest: string)
    requires WellFormed(t) && Separate(t.ty, rest)
    ensures ScanAll(Spell(t) + rest) == Prepend([t], ScanAll(rest))
  {
    hide NextToken, WellFormed, Separate, Spell;
    TokenScans(t, rest);
    NotTheEnd(t);
  }

  /** Punctuation and keywords, by their text. */
  lemma MarkScans(t: TokenType, text: string, rest: string)
    requires HasFixedText(t) && Text(t) == text && Separate(t, rest)
    ensures ScanAll(text + rest) == Prepend([Sign(t)], ScanAll(rest))
  {
    hide Text, Separate, ScanAll;
    MarkSpells(t);
    OneScans(Sign(t), rest);
  }

  lemma Marks()
    ensures HasFixedText(STAR) && Text(STAR) == "*" && HasFixedText(LEFT_BRACKET) && Text(LEFT_BRACKET) == "["
    ensures HasFixedText(RIGHT_BRACKET) && Text(RIGHT_BRACKET) == "]" && HasFixedText(MAP) && Text(MAP) == "map"
    ensures HasFixedText(LEFT_PAREN) && Text(LEFT_PAREN) == "(" && HasFixedText(RIGHT_PAREN) && Text(RIGHT_PAREN) == ")"
    ensures HasFixedText(ARROW) && Text(ARROW) == "->" && HasFixedText(COMMA) && Text(COMMA) == ","
    ensures HasFixedText(STRUCT) && Text(STRUCT) == "struct"
    ensures HasFixedText(LEFT_BRACE) && Text(LEFT_BRACE) == "{" && HasFixedText(RIGHT_BRACE) && Text(RIGHT_BRACE) == "}"
  {
    hide Text, HasFixedText;
    Brackets();
    Separators();
    Signs();
    Braces();
  }

  lemma Braces()
    ensures HasFixedText(STRUCT) && Text(STRUCT) == "struct"
    ensures HasFixedText(LEFT_BRACE) && Text(LEFT_BRACE) == "{" && HasFixedText(RIGHT_BRACE) && Text(RIGHT_BRACE) == "}"
  {
  }

  lemma Apart(t: TokenType, rest: string)
    ensures (t.STAR? || t.LEFT_BRACKET? || t.RIGHT_BRACKET? || t.LEFT_PAREN? || t.RIGHT_PAREN? || t.ARROW? || t.COMMA?
             || t.LEFT_BRACE? || t.RIGHT_BRACE?) ==> Separate(t, rest)
    ensures (t.MAP? || t.STRUCT? || t.IDENTIFIER? || t.NIL?) && Ended(rest) ==> Separate(t, rest)
  {
  }

  /** One mark in front of text whose tokens are known. */
  lemma MarkThen(t: TokenType, text: string, rest: string, ts: seq<Token>, s: Stream)
    requires HasFixedText(t) && Text(t) == text && Separate(t, rest) && ScanAll(rest) == Prepend(ts, s)
    ensures ScanAll(text + rest) == Prepend([Sign(t)] + ts, s)
  {
    hide Text, Separate, ScanAll;
    MarkScans(t, text, rest);
    PrependTwice([Sign(t)], ts, s);
  }

  /** The text of a type, with anything behind it that is no part of a word, scans to its tokens. */
  lemma {:induction false} TextScans(t: Type, x: string)
    requires WellNamed(t) && Ended(x)
    ensures ScanAll(TypeText(t) + x) == Prepend(TextToks(t), ScanAll(x))
    decreases t, 1
  {
    hide ScanAll, TypeText, TextToks, WellNamed, Ended;
    match t
    case Builtin(kind) => WordScansHere(t, x);
    case StringType => WordScansHere(t, x);
    case Pointer(_) => PointerScans(t, x);
    case Array(_, _) => ArrayScans(t, x);
    case Map(_, _) => MapScans(t, x);
    case Struct(_, _) => StructScans(t, x);
    case Function(_, _) => FunctionScans(t, x);
  }

  lemma WordScansHere(t: Type, x: string)
    requires (t.Builtin? || t.StringType?) && WellNamed(t) && Ended(x)
    ensures ScanAll(TypeText(t) + x) == Prepend(TextToks(t), ScanAll(x))
  {
    hide ScanAll, TplName, Text, Ended, Nameable;
    var w := if t.Builtin? then TplName(t.kind) else "string";
    if t.Builtin? { NameableWord(t.kind); } else { StringWord(); }
    var n := NameToken(w);
    Apart(n.ty, x);
    OneScans(n, x);
  }

  lemma {:induction false} PointerScans(t: Type, x: string)
    requires t.Pointer? && WellNamed(t) && Ended(x)
    ensures ScanAll(TypeText(t) + x) == Prepend(TextToks(t), ScanAll(x))
    decreases t, 0
  {
    hide ScanAll, Text, Separate, HasFixedText;
    var rest := TypeText(t.base) + x;
    assert TypeText(t) + x == "*" + rest;
    TextScans(t.base, x);
    Marks();
    Apart(STAR, rest);
    MarkThen(STAR, "*", rest, TextToks(t.base), ScanAll(x));
  }

  lemma {:induction false} ArrayScans(t: Type, x: string)
    requires t.Array? && WellNamed(t) && Ended(x)
    ensures ScanAll(TypeText(t) + x) == Prepend(TextToks(t), ScanAll(x))
    decreases t, 0
  {
    hide ScanAll, Text, Separate, HasFixedText, LengthText, LengthToken;
    var elem := TypeText(t.elem) + x;
    var close := "]" + elem;
    var length := LengthText(t.length) + close;
    Nest("[", LengthText(t.length), "]", TypeText(t.elem), x);
    assert TypeText(t) + x == "[" + length;
    TextScans(t.elem, x);
    Marks();
    Apart(RIGHT_BRACKET, elem);
    MarkThen(RIGHT_BRACKET, "]", elem, TextToks(t.elem), ScanAll(x));
    var ts := [Sign(RIGHT_BRACKET)] + TextToks(t.elem);
    LengthScans(t.length, elem);
    PrependTwice([LengthToken(t.length)], ts, ScanAll(x));
    Apart(LEFT_BRACKET, length);
    MarkThen(LEFT_BRACKET, "[", length, [LengthToken(t.length)] + ts, ScanAll(x));
  }

  lemma LengthScans(n: nat, rest: string)
    ensures ScanAll(LengthText(n) + ("]" + rest)) == Prepend([LengthToken(n)], ScanAll("]" + rest))
  {
    hide ScanAll, Dec, Text, HasFixedText;
    if n == 0 {
      Marks();
      Apart(STAR, "]" + rest);
      MarkScans(STAR, "*", "]" + rest);
    } else {
      NumeralSpelt(Dec(n));
      assert ("]" + rest)[0] == ']';
      OneScans(Token(INTEGER, Dec(n)), "]" + rest);
    }
  }

  lemma {:induction false} MapScans(t: Type, x: string)
    requires t.Map? && WellNamed(t) && Ended(x)
    ensures ScanAll(TypeText(t) + x) == Prepend(TextToks(t), ScanAll(x))
    decreases t, 0
  {
    hide ScanAll, Text, Separate, HasFixedText, TypeText;
    var val := TypeText(t.val) + x;
    var close := "]" + val;
    var key := TypeText(t.key) + close;
    MapSplits(t, x);
    Marks();
    TextScans(t.val, x);
    Apart(RIGHT_BRACKET, val);
    MarkThen(RIGHT_BRACKET, "]", val, TextToks(t.val), ScanAll(x));
    var ts := [Sign(RIGHT_BRACKET)] + TextToks(t.val);
    TextScans(t.key, close);
    PrependTwice(TextToks(t.key), ts, ScanAll(x));
    Apart(LEFT_BRACKET, key);
    MarkThen(LEFT_BRACKET, "[", key, TextToks(t.key) + ts, ScanAll(x));
    Apart(MAP, "[" + key);
    MarkThen(MAP, "map", "[" + key, [Sign(LEFT_BRACKET)] + (TextToks(t.key) + ts), ScanAll(x));
  }

  lemma FunctionSplits(t: Type, x: string)
    requires t.Function?
    ensures TypeText(t) + x == "(" + (ListText(t.params) + (")" + ("->" + (TypeText(t.ret) + x))))
  {
    hide ListText;
    var ret := TypeText(t.ret) + x;
    Nest("(", ListText(t.params), ")->", TypeText(t.ret), x);
    assert ")->" + ret == ")" + ("->" + ret);
  }

  lemma MapSplits(t: Type, x: string)
    requires t.Map?
    ensures TypeText(t) + x == "map" + ("[" + (TypeText(t.key) + ("]" + (TypeText(t.val) + x))))
  {
    assert "map[" == "map" + "[";
    Nest("map[", TypeText(t.key), "]", TypeText(t.val), x);
  }

  lemma {:induction false} FunctionScans(t: Type, x: string)
    requires t.Function? && WellNamed(t) && Ended(x)
    ensures ScanAll(TypeText(t) + x) == Prepend(TextToks(t), ScanAll(x))
    decreases t, 0
  {
    hide ScanAll, Text, Separate, HasFixedText, ListText, ListToks, TypeText;
    var ret := TypeText(t.ret) + x;
    var close := ")" + ("->" + ret);
    var list := ListText(t.params) + close;
    FunctionSplits(t, x);
    Marks();
    TextScans(t.ret, x);
    Apart(ARROW, ret);
    MarkThen(ARROW, "->", ret, TextToks(t.ret), ScanAll(x));
    Apart(RIGHT_PAREN, "->" + ret);
    MarkThen(RIGHT_PAREN, ")", "->" + ret, [Sign(ARROW)] + TextToks(t.ret), ScanAll(x));
    var ts := [Sign(RIGHT_PAREN)] + ([Sign(ARROW)] + TextToks(t.ret));
    ListScans(t.params, close);
    PrependTwice(ListToks(t.params), ts, ScanAll(x));
    Apart(LEFT_PAREN, list);
    MarkThen(LEFT_PAREN, "(", list, ListToks(t.params) + ts, ScanAll(x));
  }

  lemma {:induction false} StructScans(t: Type, x: string)
    requires t.Struct? && WellNamed(t) && Ended(x)
    ensures ScanAll(TypeText(t) + x) == Prepend(TextToks(t), ScanAll(x))
    decreases t, 0
  {
    hide ScanAll, Text, Separate, HasFixedText, ListText, ListToks;
    var list := ListText(t.fields) + ("}" + x);
    assert "struct{" == "struct" + "{";
    Nest("struct{", ListText(t.fields), "}", "", x);
    assert TypeText(t) + x == "struct" + ("{" + list);
    Marks();
    Apart(RIGHT_BRACE, x);
    MarkScans(RIGHT_BRACE, "}", x);
    ListScans(t.fields, "}" + x);
    PrependTwice(ListToks(t.fields), [Sign(RIGHT_BRACE)], ScanAll(x));
    Apart(LEFT_BRACE, list);
    MarkThen(LEFT_BRACE, "{", list, ListToks(t.fields) + [Sign(RIGHT_BRACE)], ScanAll(x));
    Apart(STRUCT, "{" + list);
    MarkThen(STRUCT, "struct", "{" + list, [Sign(LEFT_BRACE)] + (ListToks(t.fields) + [Sign(RIGHT_BRACE)]), ScanAll(x));
  }

  lemma {:induction false} ListScans(fs: seq<Field>, x: string)
    requires Ended(x) && forall i :: 0 <= i < |fs| ==> WellNamed(fs[i].ty)
    ensures ScanAll(ListText(fs) + x) == Prepend(ListToks(fs), ScanAll(x))
    decreases fs
  {
    hide ScanAll, Text, Separate, HasFixedText, TypeText, TextToks, WellNamed;
    if |fs| == 0 {
      assert ListText(fs) + x == x;
      NothingPrepended(ScanAll(x));
    } else if |fs| == 1 {
      TextScans(fs[0].ty, x);
    } else {
      var rest := ListText(fs[1..]) + x;
      assert ListText(fs) + x == TypeText(fs[0].ty) + ("," + rest);
      ListScans(fs[1..], x);
      Marks();
      Apart(COMMA, rest);
      MarkThen(COMMA, ",", rest, ListToks(fs[1..]), ScanAll(x));
      TextScans(fs[0].ty, "," + rest);
      PrependTwice(TextToks(fs[0].ty), [Sign(COMMA)] + ListToks(fs[1..]), ScanAll(x));
    }
  }

  lemma NothingPrepended(s: Stream)
    ensures Prepend([], s) == s
  {
    assert forall more: seq<Token> :: [] + more == more;
  }

  // ---------- Names ----------

  /** Keywords are made of small letters. */
  lemma KeywordIsSmall(t: TokenType)
    requires IsKeyword(t)
    ensures |Text(t)| > 0 && 'a' <= Text(t)[0] <= 'z' && 'a' <= Text(t)[|Text(t)| - 1] <= 'z'
  {
    hide Text;
    if IsEarly(t) { EarlyIsSmall(t); } else { LateIsSmall(t); }
  }

  lemma EarlyIsSmall(t: TokenType)
    requires IsEarly(t)
    ensures |Text(t)| > 0 && 'a' <= Text(t)[0] <= 'z' && 'a' <= Text(t)[|Text(t)| - 1] <= 'z'
  {
  }

  lemma LateIsSmall(t: TokenType)
    requires IsKeyword(t) && !IsEarly(t)
    ensures |Text(t)| > 0 && 'a' <= Text(t)[0] <= 'z' && 'a' <= Text(t)[|Text(t)| - 1] <= 'z'
  {
  }

  /** A word with a capital in front or a digit at the end is no keyword. */
  lemma NoKeyword(w: string)
    requires |w| > 0 && AllIdent(w) && !IsDigit(w[0])
    requires !('a' <= w[0] <= 'z' && 'a' <= w[|w| - 1] <= 'z')
    ensures WellFormed(Token(IDENTIFIER, w)) && w != Text(NIL)
  {
    hide Text, WordType;
    WordTypeText(w);
    if IsKeyword(WordType(w)) { KeywordIsSmall(WordType(w)); }
    KeywordIsSmall(NIL);
  }

  lemma NamedByIdentifier(w: string)
    requires WellFormed(Token(IDENTIFIER, w)) && w != Text(NIL)
    ensures WellFormed(NameToken(w)) && Spell(NameToken(w)) == w && NameToken(w).ty == IDENTIFIER
  {
    hide WordType, Text;
  }

  lemma StringWord()
    ensures WellFormed(NameToken("string")) && Spell(NameToken("string")) == "string"
    ensures NameToken("string").ty == IDENTIFIER
  {
    assert WordType("string") == IDENTIFIER && Text(NIL) == "nil";
    NamedByIdentifier("string");
  }

  lemma NameableWord(kind: BuiltinKind)
    requires Nameable(kind)
    ensures var n := NameToken(TplName(kind)); WellFormed(n) && Spell(n) == TplName(kind) && (n.ty.IDENTIFIER? || n.ty.NIL?)
  {
    hide TplName, Text, WordType, AllIdent, WellFormed;
    if kind.NonPrimitive? {
      EngineName(kind);
    } else if kind.Nil? || kind.Bool? {
      SmallWord(kind);
    } else {
      LargeWord(kind);
      NoKeyword(TplName(kind));
      NamedByIdentifier(TplName(kind));
    }
  }

  lemma SmallWord(kind: BuiltinKind)
    requires kind.Nil? || kind.Bool?
    ensures var n := NameToken(TplName(kind)); WellFormed(n) && Spell(n) == TplName(kind) && (n.ty.IDENTIFIER? || n.ty.NIL?)
  {
    assert WordType("bool") == IDENTIFIER && Text(NIL) == "nil";
  }

  lemma LargeWord(kind: BuiltinKind)
    requires !kind.NonPrimitive? && !kind.Nil? && !kind.Bool?
    ensures var w := TplName(kind);
            |w| > 0 && AllIdent(w) && !IsDigit(w[0]) && !('a' <= w[0] <= 'z' && 'a' <= w[|w| - 1] <= 'z')
  {
    hide AllIdent;
    NameIsWord(kind);
  }

  /** Only the engine classes are found under their own names. */
  lemma EngineName(kind: BuiltinKind)
    requires kind.NonPrimitive? && Nameable(kind)
    ensures var n := NameToken(TplName(kind)); WellFormed(n) && Spell(n) == TplName(kind) && n.ty.IDENTIFIER?
  {
    hide Text, WordType, AllIdent, WellFormed, IsEngineClass;
    FoundIsEngine(kind.name);
    EngineIsWord(kind.name);
    NoKeyword(kind.name);
    NamedByIdentifier(kind.name);
  }

  lemma FoundIsEngine(name: string)
    requires LookupBuiltinType(name) == Some(Builtin(NonPrimitive(name)))
    ensures IsEngineClass(name)
  {
    hide IsEngineClass;
  }

  lemma EngineIsWord(name: string)
    requires IsEngineClass(name)
    ensures |name| > 0 && AllIdent(name) && 'A' <= name[0] <= 'Z'
  {
    hide AllIdent;
    var i :| 0 <= i < |NON_PRIMITIVE_NAMES| && NON_PRIMITIVE_NAMES[i] == name;
    EngineNames(i);
  }

  // ---------- The meaning ----------

  /** No struct, whose fields are printed without their names, and lengths that a literal can have. */
  predicate Plain(t: Type)
    decreases t
  {
    match t
    case Builtin(_) => true
    case StringType => true
    case Pointer(base) => Plain(base)
    case Array(length, elem) => length <= INT64_MAX && Plain(elem)
    case Map(key, val) => Plain(key) && Plain(val)
    case Struct(_, _) => false
    case Function(params, ret) => (forall i :: 0 <= i < |params| ==> Plain(params[i].ty)) && Plain(ret)
  }

  /** The representation of a type: builtins under their names, unnamed parameters. */
  function Represented(t: Type): TypeRepr
    requires Plain(t)
    decreases t
  {
    match t
    case Builtin(kind) => Named(TplName(kind))
    case StringType => Named("string")
    case Pointer(base) => PointerTo(Represented(base))
    case Array(length, elem) =>
      ArrayOf(if length == 0 then None else Some(Fresh(Lit(IntLit(length)))), Represented(elem))
    case Map(key, val) => MapFrom(Represented(key), Represented(val))
    case Function(params, ret) => FunctionFrom(AllRepresented(params), Represented(ret))
  }

  function AllRepresented(fs: seq<Field>): (r: seq<FieldRepr>)
    requires forall i :: 0 <= i < |fs| ==> Plain(fs[i].ty)
    ensures |r| == |fs|
    decreases fs
  {
    if |fs| == 0 then [] else [FieldRepr("", Represented(fs[0].ty))] + AllRepresented(fs[1..])
  }

  function AsWritten(t: Type): Written
    requires Plain(t)
    decreases t
  {
    match t
    case Builtin(kind) => WrittenName(TplName(kind))
    case StringType => WrittenName("string")
    case Pointer(base) => WrittenPointer(AsWritten(base))
    case Array(length, elem) =>
      WrittenArray(if length == 0 then None else Some(Fresh(Lit(IntLit(length)))), AsWritten(elem))
    case Map(key, val) => WrittenMap(AsWritten(key), AsWritten(val))
    case Function(params, ret) => WrittenFunction(BareParams(params), AsWritten(ret))
  }

  function BareParams(fs: seq<Field>): (r: seq<WrittenParam>)
    requires forall i :: 0 <= i < |fs| ==> Plain(fs[i].ty)
    ensures |r| == |fs| && forall i :: 0 <= i < |fs| ==> r[i] == BareParam(AsWritten(fs[i].ty))
    decreases fs
  {
    if |fs| == 0 then [] else [BareParam(AsWritten(fs[0].ty))] + BareParams(fs[1..])
  }

  lemma {:induction false} WrittenIs(t: Type)
    requires Plain(t) && WellNamed(t)
    ensures Writable(AsWritten(t)) && Meaning(AsWritten(t)) == Represented(t)
    decreases t
  {
    match t
    case Builtin(kind) =>
    case StringType =>
    case Pointer(base) => WrittenIs(base);
    case Array(length, elem) =>
      WrittenIs(elem);
      if length > 0 { LiteralLength(length); }
    case Map(key, val) => WrittenIs(key); WrittenIs(val);
    case Function(params, ret) => WrittenParams(params); WrittenIs(ret);
  }

  lemma LiteralLength(n: nat)
    requires n <= INT64_MAX
    ensures var e := Fresh(Lit(IntLit(n)));
            Normal(e, 1) && Printable(e) && !DereferencesFirst(e) && TokensOf(Chunks(e)) == [Token(INTEGER, Dec(n))]
  {
    hide Dec;
    TokensOfOne(Token(INTEGER, Dec(n)));
  }

  lemma {:induction false} WrittenParams(fs: seq<Field>)
    requires forall i :: 0 <= i < |fs| ==> Plain(fs[i].ty) && WellNamed(fs[i].ty)
    ensures forall i :: 0 <= i < |fs| ==> ParamWritable(BareParams(fs)[i])
    ensures ParamMeanings(BareParams(fs)) == AllRepresented(fs)
    decreases fs
  {
    hide WellNamed;
    if |fs| > 0 {
      WrittenIs(fs[0].ty);
      WrittenParams(fs[1..]);
      assert BareParams(fs)[1..] == BareParams(fs[1..]);
      forall i | 0 <= i < |fs| ensures ParamWritable(BareParams(fs)[i]) {
        if i > 0 { assert BareParams(fs)[i] == BareParams(fs[1..])[i - 1]; }
      }
    }
  }

  lemma {:induction false} SameToks(t: Type)
    requires Plain(t) && WellNamed(t) && Writable(AsWritten(t))
    ensures WToks(AsWritten(t)) == TextToks(t)
    decreases t, 1
  {
    hide Nameable, TokensOf, Text;
    match t
    case Builtin(kind) =>
    case StringType =>
    case Pointer(base) => WrittenIs(base); SameToks(base);
    case Array(_, _) => SameArrayToks(t);
    case Map(_, _) => SameMapToks(t);
    case Function(_, _) => SameFunctionToks(t);
  }

  lemma {:induction false} SameArrayToks(t: Type)
    requires t.Array? && Plain(t) && WellNamed(t) && Writable(AsWritten(t))
    ensures WToks(AsWritten(t)) == TextToks(t)
    decreases t, 0
  {
    hide TokensOf, Text, Dec, Sign;
    WrittenIs(t.elem);
    SameToks(t.elem);
    if t.length > 0 { LiteralLength(t.length); } else { TokensOfOne(Sign(STAR)); }
    var n := TokensOf(LengthChunks(AsWritten(t).length));
    assert n == [LengthToken(t.length)];
    RegroupTwo([Sign(LEFT_BRACKET)], n, [Sign(RIGHT_BRACKET)], TextToks(t.elem));
  }

  lemma RegroupTwo(a: seq<Token>, n: seq<Token>, b: seq<Token>, r: seq<Token>)
    ensures [] + a + (n + b + r) == a + (n + (b + r))
  {
  }

  lemma {:induction false} SameMapToks(t: Type)
    requires t.Map? && Plain(t) && WellNamed(t) && Writable(AsWritten(t))
    ensures WToks(AsWritten(t)) == TextToks(t)
    decreases t, 0
  {
    hide Text, Sign;
    WrittenIs(t.key);
    WrittenIs(t.val);
    SameToks(t.key);
    SameToks(t.val);
    var k, v := TextToks(t.key), TextToks(t.val);
    assert [Sign(MAP)] + [Sign(LEFT_BRACKET)] + (k + [Sign(RIGHT_BRACKET)] + v)
        == [Sign(MAP)] + ([Sign(LEFT_BRACKET)] + (k + ([Sign(RIGHT_BRACKET)] + v)));
  }

  lemma {:induction false} SameFunctionToks(t: Type)
    requires t.Function? && Plain(t) && WellNamed(t) && Writable(AsWritten(t))
    ensures WToks(AsWritten(t)) == TextToks(t)
    decreases t, 0
  {
    hide Text, Sign, WParams, ListToks;
    WrittenParams(t.params);
    WrittenIs(t.ret);
    SameListToks(t.params);
    SameToks(t.ret);
    RegroupFour([Sign(LEFT_PAREN)], ListToks(t.params), [Sign(RIGHT_PAREN)], [Sign(ARROW)], TextToks(t.ret));
  }

  lemma RegroupFour(a: seq<Token>, p: seq<Token>, b: seq<Token>, c: seq<Token>, r: seq<Token>)
    ensures [] + a + (p + (b + c + r)) == a + (p + (b + (c + r)))
  {
  }

  lemma {:induction false} SameListToks(fs: seq<Field>)
    requires forall i :: 0 <= i < |fs| ==> Plain(fs[i].ty) && WellNamed(fs[i].ty)
    requires forall i :: 0 <= i < |fs| ==> ParamWritable(BareParams(fs)[i])
    ensures WParams(BareParams(fs)) == ListToks(fs)
    decreases fs
  {
    hide WellNamed, Plain, TextToks, WToks, AsWritten;
    if |fs| > 0 {
      assert BareParams(fs)[0] == BareParam(AsWritten(fs[0].ty));
      SameToks(fs[0].ty);
      if |fs| > 1 {
        WrittenParams(fs[1..]);
        SameListToks(fs[1..]);
        assert BareParams(fs)[1..] == BareParams(fs[1..]);
        assert TextToks(fs[0].ty) + [Sign(COMMA)] + ListToks(fs[1..])
            == TextToks(fs[0].ty) + ([Sign(COMMA)] + ListToks(fs[1..]));
      }
    }
  }

  /** The printed text of a type means the type: scanned and parsed it is the representation of the type,
      from exactly the tokens of the text. */
  lemma TextMeans(t: Type)
    requires WellNamed(t) && Plain(t)
    ensures var s := ScanAll(TypeText(t));
            s.Tokens? && ParseType(s.tokens, 0) == Done(Represented(t), |s.tokens|, 0)
  {
    hide TypeText, TextToks, WellNamed, Plain, ScanAll, ParseType, WToks, Represented, AsWritten;
    assert TypeText(t) + "" == TypeText(t);
    TextScans(t, "");
    NothingScans();
    assert TextToks(t) + [] == TextToks(t);
    WrittenIs(t);
    SameToks(t);
    WrittenExact(AsWritten(t));
  }

  lemma NothingScans()
    ensures ScanAll("") == Tokens([])
  {
  }
}
