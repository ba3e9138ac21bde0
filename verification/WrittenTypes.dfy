/** All ways of writing a type: parameters with a name, with a colon alone, or bare, and struct types
    with their keyword (src/parsing/parser.cpp:591-757). */
module WrittenTypes {
  import opened Options
  import opened Tokens
  import opened LexTheorems
  import opened Ast
  import opened Grammar
  import opened Printing
  import opened RoundTrip
  import opened TypeDerivations
  import opened TypeRoundTrip

  datatype Written =
    | WrittenName(name: string)
    | WrittenPointer(base: Written)
    | WrittenArray(length: Option<Expr>, elem: Written)
    | WrittenMap(key: Written, val: Written)
    | WrittenFunction(params: seq<WrittenParam>, ret: Written)
    | WrittenStruct(fields: seq<WrittenField>)

  /** name ':' type, ':' type, or a type alone. */
  datatype WrittenParam = NamedParam(paramName: string, ty: Written) | ColonParam(ty: Written) | BareParam(ty: Written)

  datatype WrittenField = WrittenField(fieldName: string, fieldType: Written)

  /** What is meant: a parameter has a name exactly when one is written in front of a colon. */
  function Meaning(w: Written): TypeRepr
    decreases w
  {
    match w
    case WrittenName(name) => Named(name)
    case WrittenPointer(base) => PointerTo(Meaning(base))
    case WrittenArray(length, elem) => ArrayOf(length, Meaning(elem))
    case WrittenMap(key, val) => MapFrom(Meaning(key), Meaning(val))
    case WrittenFunction(params, ret) => FunctionFrom(ParamMeanings(params), Meaning(ret))
    case WrittenStruct(fields) => StructWith(FieldMeanings(fields))
  }

  function ParamMeaning(p: WrittenParam): FieldRepr
    decreases p
  {
    FieldRepr(if p.NamedParam? then p.paramName else "", Meaning(p.ty))
  }

  function ParamMeanings(ps: seq<WrittenParam>): (r: seq<FieldRepr>)
    ensures |r| == |ps|
    decreases ps
  {
    if |ps| == 0 then [] else [ParamMeaning(ps[0])] + ParamMeanings(ps[1..])
  }

  function FieldMeanings(fs: seq<WrittenField>): (r: seq<FieldRepr>)
    ensures |r| == |fs|
    decreases fs
  {
    if |fs| == 0 then [] else [FieldRepr(fs[0].fieldName, Meaning(fs[0].fieldType))] + FieldMeanings(fs[1..])
  }

  /** Array lengths as they can be written, and names that are there. */
  predicate Writable(w: Written)
    decreases w
  {
    match w
    case WrittenName(name) => |name| > 0
    case WrittenPointer(base) => Writable(base)
    case WrittenArray(length, elem) =>
      && (length.Some? ==> Normal(length.value, 1) && Printable(length.value) && !DereferencesFirst(length.value))
      && Writable(elem)
    case WrittenMap(key, val) => Writable(key) && Writable(val)
    case WrittenFunction(params, ret) => (forall i :: 0 <= i < |params| ==> ParamWritable(params[i])) && Writable(ret)
    case WrittenStruct(fields) => forall i :: 0 <= i < |fields| ==> Writable(fields[i].fieldType)
  }

  predicate ParamWritable(p: WrittenParam)
    decreases p
  {
    Writable(p.ty) && (p.NamedParam? ==> |p.paramName| > 0)
  }

  function NameToken(name: string): Token { Token(if name == Text(NIL) then NIL else IDENTIFIER, name) }

  function WToks(w: Written): seq<Token>
    requires Writable(w)
    decreases w
  {
    match w
    case WrittenName(name) => [NameToken(name)]
    case WrittenPointer(base) => [Sign(STAR)] + WToks(base)
    case WrittenArray(length, elem) =>
      [] + [Sign(LEFT_BRACKET)] + (TokensOf(LengthChunks(length)) + [Sign(RIGHT_BRACKET)] + WToks(elem))
    case WrittenMap(key, val) =>
      [Sign(MAP)] + [Sign(LEFT_BRACKET)] + (WToks(key) + [Sign(RIGHT_BRACKET)] + WToks(val))
    case WrittenFunction(params, ret) =>
      [] + [Sign(LEFT_PAREN)] + (WParams(params) + ([Sign(RIGHT_PAREN)] + [Sign(ARROW)] + WToks(ret)))
    case WrittenStruct(fields) => [Sign(STRUCT)] + [Sign(LEFT_BRACE)] + (WFields(fields) + [Sign(RIGHT_BRACE)])
  }

  function WParam(p: WrittenParam): seq<Token>
    requires ParamWritable(p)
    decreases p
  {
    match p
    case NamedParam(name, ty) => [Token(IDENTIFIER, name)] + [Sign(COLON)] + WToks(ty)
    case ColonParam(ty) => [Sign(COLON)] + WToks(ty)
    case BareParam(ty) => WToks(ty)
  }

  function WParams(ps: seq<WrittenParam>): seq<Token>
    requires forall i :: 0 <= i < |ps| ==> ParamWritable(ps[i])
    decreases ps
  {
    if |ps| == 0 then []
    else if |ps| == 1 then WParam(ps[0])
    else WParam(ps[0]) + [Sign(COMMA)] + WParams(ps[1..])
  }

  function WFields(fs: seq<WrittenField>): seq<Token>
    requires forall i :: 0 <= i < |fs| ==> Writable(fs[i].fieldType)
    decreases fs
  {
    if |fs| == 0 then []
    else [Token(IDENTIFIER, fs[0].fieldName)] + [Sign(COLON)] + (WToks(fs[0].fieldType) + WFields(fs[1..]))
  }

  /** However a type is written, its tokens derive what is meant. */
  lemma {:induction false} WrittenDerives(ts: seq<Token>, i: nat, w: Written)
    requires Writable(w) && Stands(ts, i, WToks(w))
    ensures TypeDerives(ts, i, i + |WToks(w)|, Meaning(w))
    decreases w, 1
  {
    hide Stands, WToks, Meaning, Writable, TypeDerives;
    match w
    case WrittenName(_) => NameWritten(ts, i, w);
    case WrittenPointer(_) => PointerWritten(ts, i, w);
    case WrittenArray(_, _) => ArrayWritten(ts, i, w);
    case WrittenMap(_, _) => MapWritten(ts, i, w);
    case WrittenFunction(_, _) => FunctionWritten(ts, i, w);
    case WrittenStruct(_) => StructWritten(ts, i, w);
  }

  lemma NameWritten(ts: seq<Token>, i: nat, w: Written)
    requires w.WrittenName? && Writable(w) && Stands(ts, i, WToks(w))
    ensures TypeDerives(ts, i, i + |WToks(w)|, Meaning(w))
  {
    hide Stands, Text;
    StandsOne(ts, i, NameToken(w.name));
  }

  lemma {:induction false} PointerWritten(ts: seq<Token>, i: nat, w: Written)
    requires w.WrittenPointer? && Writable(w) && Stands(ts, i, WToks(w))
    ensures TypeDerives(ts, i, i + |WToks(w)|, Meaning(w))
    decreases w, 0
  {
    hide Stands, TypeDerives;
    StandsSplit(ts, i, [Sign(STAR)], WToks(w.base));
    StandsOne(ts, i, Sign(STAR));
    WrittenDerives(ts, i + 1, w.base);
    PointerDerives(ts, i, i + |WToks(w)|, Meaning(w.base));
  }

  lemma {:induction false} ArrayWritten(ts: seq<Token>, i: nat, w: Written)
    requires w.WrittenArray? && Writable(w) && Stands(ts, i, WToks(w))
    ensures TypeDerives(ts, i, i + |WToks(w)|, Meaning(w))
    decreases w, 0
  {
    hide Stands, TokensOf, LengthChunks, LengthDerives, TypeDerives, Normal, Printable, DereferencesFirst, Sign;
    var n := TokensOf(LengthChunks(w.length));
    var k := i + 1 + |n|;
    ArrayPlaces(ts, i, n, WToks(w.elem));
    SignType(RIGHT_BRACKET);
    LengthRebuilds(ts, i + 1, w.length);
    WrittenDerives(ts, k + 1, w.elem);
    ArrayDerives(ts, i, k, i + |WToks(w)|, w.length, Meaning(w.elem));
  }

  lemma {:induction false} MapWritten(ts: seq<Token>, i: nat, w: Written)
    requires w.WrittenMap? && Writable(w) && Stands(ts, i, WToks(w))
    ensures TypeDerives(ts, i, i + |WToks(w)|, Meaning(w))
    decreases w, 0
  {
    hide Stands, TypeDerives, WToks, Meaning, Writable;
    MapParts(ts, i, w);
    var k := i + 2 + |WToks(w.key)|;
    WrittenDerives(ts, i + 2, w.key);
    WrittenDerives(ts, k + 1, w.val);
    MapDerives(ts, i, k, i + |WToks(w)|, Meaning(w.key), Meaning(w.val));
  }

  lemma MapParts(ts: seq<Token>, i: nat, w: Written)
    requires w.WrittenMap? && Writable(w) && Stands(ts, i, WToks(w))
    ensures Writable(w.key) && Writable(w.val) && Meaning(w) == MapFrom(Meaning(w.key), Meaning(w.val))
    ensures var k := i + 2 + |WToks(w.key)|;
            && k < |ts| && ts[i].ty == MAP && ts[i + 1].ty == LEFT_BRACKET && ts[k].ty == RIGHT_BRACKET
            && Stands(ts, i + 2, WToks(w.key)) && Stands(ts, k + 1, WToks(w.val))
            && i + |WToks(w)| == k + 1 + |WToks(w.val)|
  {
    hide Stands, Sign;
    MapPlaces(ts, i, WToks(w.key), WToks(w.val));
  }

  lemma MapPlaces(ts: seq<Token>, i: nat, k: seq<Token>, v: seq<Token>)
    requires Stands(ts, i, [Sign(MAP)] + [Sign(LEFT_BRACKET)] + (k + [Sign(RIGHT_BRACKET)] + v))
    ensures var j := i + 2 + |k|;
            && j < |ts| && ts[i].ty == MAP && ts[i + 1].ty == LEFT_BRACKET && ts[j].ty == RIGHT_BRACKET
            && Stands(ts, i + 2, k) && Stands(ts, j + 1, v)
  {
    hide Stands;
    StandsThree(ts, i, [Sign(MAP)], Sign(LEFT_BRACKET), k + [Sign(RIGHT_BRACKET)] + v);
    StandsOne(ts, i, Sign(MAP));
    StandsThree(ts, i + 2, k, Sign(RIGHT_BRACKET), v);
  }

  lemma {:induction false} FunctionWritten(ts: seq<Token>, i: nat, w: Written)
    requires w.WrittenFunction? && Writable(w) && Stands(ts, i, WToks(w))
    ensures TypeDerives(ts, i, i + |WToks(w)|, Meaning(w))
    decreases w, 0
  {
    hide Stands, TypeDerives, ParamsDerive, WParams, ParamMeanings, ParamWritable;
    var p, r := WParams(w.params), WToks(w.ret);
    var k := i + 1 + |p|;
    FunctionPlaces(ts, i, p, r);
    ParamsWritten(ts, i + 1, w.params);
    WrittenDerives(ts, k + 2, w.ret);
    FunctionDerives(ts, i, k, i + |WToks(w)|, ParamMeanings(w.params), Meaning(w.ret));
  }

  /** Parameters written in any mixture of the three ways. */
  lemma {:induction false} ParamsWritten(ts: seq<Token>, i: nat, ps: seq<WrittenParam>)
    requires forall k :: 0 <= k < |ps| ==> ParamWritable(ps[k])
    requires Stands(ts, i, WParams(ps)) && Peek(ts, i + |WParams(ps)|).RIGHT_PAREN?
    ensures ParamsDerive(ts, i, i + |WParams(ps)|, ParamMeanings(ps))
    decreases ps, 0
  {
    hide Stands, ParamDerives, ParamsDerive, ParamWritable, ParamMeaning, WParam;
    if |ps| == 0 {
      NoParams(ts, i);
    } else {
      var k := i + |WParam(ps[0])|;
      if |ps| > 1 {
        StandsThree(ts, i, WParam(ps[0]), Sign(COMMA), WParams(ps[1..]));
        ParamsWritten(ts, k + 1, ps[1..]);
      }
      ParamWritten(ts, i, ps[0]);
      ParamMoves(ts, i, k, ParamMeaning(ps[0]));
      StandsInside(ts, i, WParams(ps));
      assert ParamMeanings(ps)[1..] == ParamMeanings(ps[1..]);
      OneParam(ts, i, k, i + |WParams(ps)|, ParamMeanings(ps));
    }
  }

  /** One parameter, up to the comma or parenthesis behind it. */
  lemma {:induction false} ParamWritten(ts: seq<Token>, i: nat, p: WrittenParam)
    requires ParamWritable(p) && Stands(ts, i, WParam(p))
    requires var t := Peek(ts, i + |WParam(p)|); t.COMMA? || t.RIGHT_PAREN?
    ensures ParamDerives(ts, i, i + |WParam(p)|, ParamMeaning(p))
    decreases p, 0
  {
    hide Stands, TypeDerives, WToks, Meaning, Writable;
    var j := i + |WParam(p)|;
    match p
    case NamedParam(name, ty) =>
      StandsThree(ts, i, [Token(IDENTIFIER, name)], Sign(COLON), WToks(ty));
      StandsOne(ts, i, Token(IDENTIFIER, name));
      WrittenDerives(ts, i + 2, ty);
      TypeMoves(ts, i + 2, j, Meaning(ty));
    case ColonParam(ty) =>
      StandsSplit(ts, i, [Sign(COLON)], WToks(ty));
      StandsOne(ts, i, Sign(COLON));
      WrittenDerives(ts, i + 1, ty);
      TypeMoves(ts, i + 1, j, Meaning(ty));
    case BareParam(ty) => BareWritten(ts, i, ty);
  }

  /** A bare type is a parameter without a name. */
  lemma {:induction false} BareWritten(ts: seq<Token>, i: nat, w: Written)
    requires Writable(w) && Stands(ts, i, WToks(w))
    requires var t := Peek(ts, i + |WToks(w)|); t.COMMA? || t.RIGHT_PAREN?
    ensures ParamDerives(ts, i, i + |WToks(w)|, FieldRepr("", Meaning(w)))
    decreases w, 2
  {
    hide Stands, TypeDerives, Text;
    WrittenDerives(ts, i, w);
    TypeMoves(ts, i, i + |WToks(w)|, Meaning(w));
    FirstToken(ts, i, w);
  }

  /** A name, or a token that only starts types. */
  lemma FirstToken(ts: seq<Token>, i: nat, w: Written)
    requires Writable(w) && Stands(ts, i, WToks(w))
    ensures i < |ts| && (w.WrittenName? ==> ts[i] == NameToken(w.name) && |WToks(w)| == 1)
    ensures !w.WrittenName? ==> var t := ts[i].ty; t.STAR? || t.LEFT_BRACKET? || t.MAP? || t.LEFT_PAREN? || t.STRUCT?
  {
    hide Text, TokensOf, LengthChunks, WParams, WFields;
    assert ts[i] == ts[i..i + |WToks(w)|][0];
  }

  // ---------- Struct types ----------

  lemma {:induction false} StructWritten(ts: seq<Token>, i: nat, w: Written)
    requires w.WrittenStruct? && Writable(w) && Stands(ts, i, WToks(w))
    ensures TypeDerives(ts, i, i + |WToks(w)|, Meaning(w))
    decreases w, 0
  {
    hide Stands, FieldsDerive, WFields, FieldMeanings;
    var n := WFields(w.fields);
    StandsThree(ts, i, [Sign(STRUCT)], Sign(LEFT_BRACE), n + [Sign(RIGHT_BRACE)]);
    StandsOne(ts, i, Sign(STRUCT));
    StandsSplit(ts, i + 2, n, [Sign(RIGHT_BRACE)]);
    StandsOne(ts, i + 2 + |n|, Sign(RIGHT_BRACE));
    FieldsWritten(ts, i + 2, w.fields);
  }

  lemma {:induction false} FieldsWritten(ts: seq<Token>, i: nat, fs: seq<WrittenField>)
    requires forall k :: 0 <= k < |fs| ==> Writable(fs[k].fieldType)
    requires Stands(ts, i, WFields(fs))
    ensures FieldsDerive(ts, i, i + |WFields(fs)|, FieldMeanings(fs))
    decreases fs, 0
  {
    hide Stands, Writable, TypeDerives, FieldsDerive, WToks, Meaning;
    if |fs| == 0 {
      NoFields(ts, i);
    } else {
      var t := WToks(fs[0].fieldType);
      var k := i + 2 + |t|;
      FieldPlaces(ts, i, fs[0].fieldName, t, WFields(fs[1..]));
      WrittenDerives(ts, i + 2, fs[0].fieldType);
      TypeMoves(ts, i + 2, k, Meaning(fs[0].fieldType));
      FieldsWritten(ts, k, fs[1..]);
      StandsInside(ts, i, WFields(fs));
      assert FieldMeanings(fs)[1..] == FieldMeanings(fs[1..]);
      OneField(ts, i, k, i + |WFields(fs)|, FieldMeanings(fs));
    }
  }

  lemma FieldPlaces(ts: seq<Token>, i: nat, name: string, t: seq<Token>, rest: seq<Token>)
    requires Stands(ts, i, [Token(IDENTIFIER, name)] + [Sign(COLON)] + (t + rest))
    ensures i + 2 <= |ts| && ts[i] == Token(IDENTIFIER, name) && ts[i + 1].ty == COLON
    ensures Stands(ts, i + 2, t) && Stands(ts, i + 2 + |t|, rest)
  {
    hide Stands;
    StandsThree(ts, i, [Token(IDENTIFIER, name)], Sign(COLON), t + rest);
    StandsOne(ts, i, Token(IDENTIFIER, name));
    StandsSplit(ts, i + 2, t, rest);
  }

  // ---------- The theorem ----------

  /** Type names, pointers, arrays, maps, functions and structs, with parameters written in any mixture
      of ways: the whole stream is read as what is meant, without an error. */
  lemma WrittenExact(w: Written)
    requires Writable(w)
    ensures ParseType(WToks(w), 0) == Done(Meaning(w), |WToks(w)|, 0)
  {
    hide WToks, Meaning, Writable, TypeDerives, ParseType;
    WholeStream(WToks(w));
    WrittenDerives(WToks(w), 0, w);
    DerivedParses(WToks(w), 0, |WToks(w)|, Meaning(w));
  }

  /** A function type without parameter names: every parameter is unnamed and the types keep their order. */
  lemma {:induction false} BareMeans(types: seq<Written>)
    ensures var ps := seq(|types|, k requires 0 <= k < |types| => BareParam(types[k]));
            ParamMeanings(ps) == seq(|types|, k requires 0 <= k < |types| => FieldRepr("", Meaning(types[k])))
    decreases |types|
  {
    if |types| > 0 {
      BareMeans(types[1..]);
      var ps := seq(|types|, k requires 0 <= k < |types| => BareParam(types[k]));
      var rest := types[1..];
      assert ps[1..] == seq(|rest|, k requires 0 <= k < |rest| => BareParam(rest[k]));
    }
  }
}
