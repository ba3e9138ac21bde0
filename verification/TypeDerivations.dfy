/** The grammar of types as a relation between tokens and types, with every way of writing parameters; the
    parser reads a type without an error exactly when its tokens derive it (src/parsing/parser.cpp:591-757). */
module TypeDerivations {
  import opened Options
  import opened Tokens
  import opened Ast
  import opened Grammar
  import D = Derivations

  /** The tokens from i up to j derive t. */
  ghost predicate TypeDerives(ts: seq<Token>, i: nat, j: nat, t: TypeRepr)
    decreases j - i, 2
  {
    && i < j <= |ts|
    && match t
       case Named(name) => j == i + 1 && (ts[i].ty.IDENTIFIER? || ts[i].ty.NIL?) && ts[i].literal == name
       case PointerTo(base) => ts[i].ty.STAR? && TypeDerives(ts, i + 1, j, base)
       case ArrayOf(length, elem) =>
         ts[i].ty.LEFT_BRACKET?
         && exists k :: i < k < j && ts[k].ty.RIGHT_BRACKET? && LengthDerives(ts, i + 1, k, length)
                        && TypeDerives(ts, k + 1, j, elem)
       case MapFrom(key, val) =>
         i + 2 < j && ts[i].ty.MAP? && ts[i + 1].ty.LEFT_BRACKET?
         && exists k :: i + 2 < k < j && TypeDerives(ts, i + 2, k, key) && ts[k].ty.RIGHT_BRACKET?
                        && TypeDerives(ts, k + 1, j, val)
       case FunctionFrom(params, ret) =>
         ts[i].ty.LEFT_PAREN?
         && exists k :: i < k && k + 1 < j && ParamsDerive(ts, i + 1, k, params) && ts[k].ty.RIGHT_PAREN?
                        && ts[k + 1].ty.ARROW? && TypeDerives(ts, k + 2, j, ret)
       case StructWith(fields) =>
         i + 3 <= j && ts[i].ty.STRUCT? && ts[j - 1].ty.RIGHT_BRACE? && FieldsDerive(ts, i + 2, j - 1, fields)
       case Missing => false
  }

  /** A star for an unknown length; anything else is an expression. */
  ghost predicate LengthDerives(ts: seq<Token>, i: nat, j: nat, length: Option<Expr>) {
    && i < j <= |ts|
    && if ts[i].ty.STAR? then j == i + 1 && length.None? else length.Some? && D.Derives(ts, i, j, length.value, 1)
  }

  /** An identifier without characters, which the scanner never reads, counts as no name. */
  predicate IsNameless(t: Token) { t.ty.IDENTIFIER? && |t.literal| == 0 }

  /** A name with a colon, a colon alone, or the type alone. */
  ghost predicate ParamDerives(ts: seq<Token>, i: nat, j: nat, p: FieldRepr)
    decreases j - i, 3
  {
    && i < j <= |ts|
    && if ts[i].ty.IDENTIFIER? && Peek(ts, i + 1).COLON? then
         p.fieldName == ts[i].literal && TypeDerives(ts, i + 2, j, p.ty)
       else
         p.fieldName == "" && TypeDerives(ts, if ts[i].ty.COLON? || IsNameless(ts[i]) then i + 1 else i, j, p.ty)
  }

  /** Parameters with commas between them; one more may end the list. */
  ghost predicate ParamsDerive(ts: seq<Token>, i: nat, j: nat, params: seq<FieldRepr>)
    decreases j - i, 4
  {
    if |params| == 0 then i == j
    else exists k :: i < k <= j && j <= |ts| && ParamDerives(ts, i, k, params[0])
                     && if k == j then |params| == 1 else ts[k].ty.COMMA? && ParamsDerive(ts, k + 1, j, params[1..])
  }

  ghost predicate FieldsDerive(ts: seq<Token>, i: nat, j: nat, fields: seq<FieldRepr>)
    decreases j - i, 4
  {
    if |fields| == 0 then i == j
    else exists k :: i + 2 < k <= j && j <= |ts| && ts[i] == Token(IDENTIFIER, fields[0].fieldName)
                     && ts[i + 1].ty.COLON? && TypeDerives(ts, i + 2, k, fields[0].ty)
                     && FieldsDerive(ts, k, j, fields[1..])
  }

  // ---------- What is read is derived ----------

  lemma {:induction false} ParsedDerives(ts: seq<Token>, i: nat)
    requires i <= |ts| && ParseType(ts, i).Done? && ParseType(ts, i).errs == 0
    ensures TypeDerives(ts, i, ParseType(ts, i).next, ParseType(ts, i).val)
    decreases Left(ts, i), 2, 1
  {
    hide TypeDerives;
    match Peek(ts, i)
    case NIL | IDENTIFIER => NameDerives(ts, i);
    case MAP => MapParsed(ts, i);
    case LEFT_PAREN => FunctionParsed(ts, i);
    case STAR => PointerParsed(ts, i);
    case LEFT_BRACKET => ArrayParsed(ts, i);
    case STRUCT => StructParsed(ts, i);
    case _ =>
  }

  lemma NameDerives(ts: seq<Token>, i: nat)
    requires Peek(ts, i).NIL? || Peek(ts, i).IDENTIFIER?
    ensures TypeDerives(ts, i, i + 1, Grammar.Named(Symbol(ts, i)))
  {
  }

  lemma {:induction false} PointerParsed(ts: seq<Token>, i: nat)
    requires Peek(ts, i).STAR? && ParseType(ts, i).Done? && ParseType(ts, i).errs == 0
    ensures TypeDerives(ts, i, ParseType(ts, i).next, ParseType(ts, i).val)
    decreases Left(ts, i), 2, 0
  {
    hide ParseLength, ParseParams, ParseFields;
    ParsedDerives(ts, i + 1);
  }

  lemma {:induction false} ArrayParsed(ts: seq<Token>, i: nat)
    requires Peek(ts, i).LEFT_BRACKET? && ParseType(ts, i).Done? && ParseType(ts, i).errs == 0
    ensures TypeDerives(ts, i, ParseType(ts, i).next, ParseType(ts, i).val)
    decreases Left(ts, i), 2, 0
  {
    hide ParseLength, ParseParams, ParseFields, LengthDerives;
    var l := ParseLength(ts, i + 1);
    LengthParsed(ts, i + 1);
    ParsedDerives(ts, l.next);
  }

  lemma {:induction false} MapParsed(ts: seq<Token>, i: nat)
    requires Peek(ts, i).MAP? && ParseType(ts, i).Done? && ParseType(ts, i).errs == 0
    ensures TypeDerives(ts, i, ParseType(ts, i).next, ParseType(ts, i).val)
    decreases Left(ts, i), 2, 0
  {
    hide ParseType, TypeDerives;
    MapTurn(ts, i);
    var k := ParseType(ts, i + 2);
    ParsedDerives(ts, i + 2);
    ParsedDerives(ts, k.next + 1);
    MapDerives(ts, i, k.next, ParseType(ts, i).next, k.val, ParseType(ts, k.next + 1).val);
  }

  lemma MapTurn(ts: seq<Token>, i: nat)
    requires Peek(ts, i).MAP? && ParseType(ts, i).Done? && ParseType(ts, i).errs == 0
    ensures i + 2 <= |ts| && ts[i + 1].ty.LEFT_BRACKET?
    ensures var k := ParseType(ts, i + 2);
            && k.Done? && k.errs == 0 && k.next < |ts| && ts[k.next].ty.RIGHT_BRACKET?
            && var v := ParseType(ts, k.next + 1);
               v.Done? && v.errs == 0 && ParseType(ts, i) == Done(MapFrom(k.val, v.val), v.next, 0)
  {
    hide ParseType, Expect, Advance, Peek;
    Present(ts, i);
    MapUnfolds(ts, i);
    Met(ts, i + 1, LEFT_BRACKET);
    var k := ParseType(ts, i + 2);
    Met(ts, k.next, RIGHT_BRACKET);
  }

  lemma Present(ts: seq<Token>, i: nat)
    requires !Peek(ts, i).EOS?
    ensures i < |ts|
  {
  }

  lemma MapUnfolds(ts: seq<Token>, i: nat)
    requires Peek(ts, i).MAP? && i < |ts|
    ensures var next := Advance(ts, i + 1);
            var k := ParseType(ts, next);
            ParseType(ts, i).Done? ==>
              && k.Done?
              && var v := ParseType(ts, Advance(ts, k.next));
                 v.Done? && ParseType(ts, i) == Done(MapFrom(k.val, v.val), v.next,
                   Expect(ts, i + 1, LEFT_BRACKET) + k.errs + Expect(ts, k.next, RIGHT_BRACKET) + v.errs)
  {
    hide ParseLength, ParseParams, ParseFields, Expect;
  }

  lemma MapDerives(ts: seq<Token>, i: nat, k: nat, j: nat, key: TypeRepr, val: TypeRepr)
    requires i + 2 <= k < |ts| && ts[i].ty.MAP? && ts[i + 1].ty.LEFT_BRACKET? && ts[k].ty.RIGHT_BRACKET?
    requires TypeDerives(ts, i + 2, k, key) && TypeDerives(ts, k + 1, j, val)
    ensures TypeDerives(ts, i, j, MapFrom(key, val))
  {
    TypeMoves(ts, i + 2, k, key);
    TypeMoves(ts, k + 1, j, val);
  }

  lemma {:induction false} FunctionParsed(ts: seq<Token>, i: nat)
    requires Peek(ts, i).LEFT_PAREN? && ParseType(ts, i).Done? && ParseType(ts, i).errs == 0
    ensures TypeDerives(ts, i, ParseType(ts, i).next, ParseType(ts, i).val)
    decreases Left(ts, i), 2, 0
  {
    hide ParseType, ParseParams, TypeDerives;
    FunctionTurn(ts, i);
    var p := ParseParams(ts, i + 1, []);
    var params := ParamsParsed(ts, i + 1, []);
    assert [] + params == params;
    ParsedDerives(ts, p.next + 2);
    FunctionDerives(ts, i, p.next, ParseType(ts, i).next, params, ParseType(ts, p.next + 2).val);
  }

  lemma FunctionTurn(ts: seq<Token>, i: nat)
    requires Peek(ts, i).LEFT_PAREN? && ParseType(ts, i).Done? && ParseType(ts, i).errs == 0
    ensures var p := ParseParams(ts, i + 1, []);
            && p.Done? && p.errs == 0 && p.next + 1 < |ts| && ts[p.next].ty.RIGHT_PAREN? && ts[p.next + 1].ty.ARROW?
            && var r := ParseType(ts, p.next + 2);
               r.Done? && r.errs == 0 && ParseType(ts, i) == Done(FunctionFrom(p.val, r.val), r.next, 0)
  {
    hide ParseType, ParseParams, Expect, Advance, Peek;
    Present(ts, i);
    FunctionUnfolds(ts, i);
    var p := ParseParams(ts, i + 1, []);
    var arrow := Advance(ts, p.next);
    Met(ts, p.next, RIGHT_PAREN);
    Met(ts, arrow, ARROW);
  }

  /** What Expect finds. */
  lemma Met(ts: seq<Token>, i: nat, t: TokenType)
    requires t != EOS && Expect(ts, i, t) == 0
    ensures i < |ts| && ts[i].ty == t && Advance(ts, i) == i + 1
  {
  }

  lemma FunctionUnfolds(ts: seq<Token>, i: nat)
    requires Peek(ts, i).LEFT_PAREN? && i < |ts|
    ensures var p := ParseParams(ts, i + 1, []);
            ParseType(ts, i).Done? ==>
              && p.Done?
              && var arrow := Advance(ts, p.next);
                 var r := ParseType(ts, Advance(ts, arrow));
                 r.Done? && ParseType(ts, i) == Done(FunctionFrom(p.val, r.val), r.next,
                   p.errs + Expect(ts, p.next, RIGHT_PAREN) + Expect(ts, arrow, ARROW) + r.errs)
  {
    hide ParseLength, ParseParams, ParseFields, Expect;
  }

  lemma FunctionDerives(ts: seq<Token>, i: nat, k: nat, j: nat, params: seq<FieldRepr>, ret: TypeRepr)
    requires i < k && k + 1 < |ts| && ts[i].ty.LEFT_PAREN? && ts[k].ty.RIGHT_PAREN? && ts[k + 1].ty.ARROW?
    requires ParamsDerive(ts, i + 1, k, params) && TypeDerives(ts, k + 2, j, ret)
    ensures TypeDerives(ts, i, j, FunctionFrom(params, ret))
  {
    hide ParamsDerive;
    TypeMoves(ts, k + 2, j, ret);
  }

  lemma {:induction false} StructParsed(ts: seq<Token>, i: nat)
    requires Peek(ts, i).STRUCT? && ParseType(ts, i).Done? && ParseType(ts, i).errs == 0
    ensures TypeDerives(ts, i, ParseType(ts, i).next, ParseType(ts, i).val)
    decreases Left(ts, i), 2, 0
  {
    hide ParseLength, ParseParams, ParseFields, FieldsDerive;
    var fields := FieldsParsed(ts, Advance(ts, i + 1), []);
    assert [] + fields == fields;
  }

  lemma LengthParsed(ts: seq<Token>, i: nat)
    requires i <= |ts| && ParseLength(ts, i).Done? && ParseLength(ts, i).errs == 0
    ensures var r := ParseLength(ts, i);
            i < r.next <= |ts| && ts[r.next - 1].ty.RIGHT_BRACKET? && LengthDerives(ts, i, r.next - 1, r.val)
  {
    hide ParseExpression, D.Derives;
    if !Peek(ts, i).STAR? {
      D.ParsedDerives(ts, i);
    }
  }

  lemma {:induction false} ParamParsed(ts: seq<Token>, i: nat)
    requires i <= |ts| && ParseParam(ts, i).Done? && ParseParam(ts, i).errs == 0
    ensures ParamDerives(ts, i, ParseParam(ts, i).next, ParseParam(ts, i).val)
    decreases Left(ts, i), 3
  {
    hide ParseType;
    if Peek(ts, i).IDENTIFIER? && Peek(ts, i + 1).COLON? {
      ParsedDerives(ts, i + 2);
    } else if Peek(ts, i).COLON? || (Peek(ts, i).IDENTIFIER? && IsNameless(ts[i])) {
      ParsedDerives(ts, i + 1);
    } else if !Peek(ts, i).IDENTIFIER? {
      ParsedDerives(ts, i);
    }
  }

  /** The parameters read from i on. */
  lemma {:induction false} ParamsParsed(ts: seq<Token>, i: nat, done: seq<FieldRepr>) returns (params: seq<FieldRepr>)
    requires i <= |ts| && ParseParams(ts, i, done).Done? && ParseParams(ts, i, done).errs == 0
    requires Peek(ts, ParseParams(ts, i, done).next).RIGHT_PAREN?
    ensures var r := ParseParams(ts, i, done);
            i <= r.next && r.val == done + params && ParamsDerive(ts, i, r.next, params)
    decreases Left(ts, i), 4
  {
    hide ParseParam, ParamDerives, ParamsDerive;
    var r := ParseParams(ts, i, done);
    if Peek(ts, i).RIGHT_PAREN? {
      params := [];
      NoParams(ts, i);
      assert done + params == done;
    } else {
      var p := ParseParam(ts, i);
      ParamParsed(ts, i);
      ParamMoves(ts, i, p.next, p.val);
      if Peek(ts, p.next).COMMA? {
        var rest := ParamsParsed(ts, p.next + 1, done + [p.val]);
        params := [p.val] + rest;
        assert done + [p.val] + rest == done + params && params[1..] == rest;
      } else {
        params := [p.val];
      }
      OneParam(ts, i, p.next, r.next, params);
    }
  }

  lemma NoParams(ts: seq<Token>, i: nat)
    ensures ParamsDerive(ts, i, i, [])
  {
  }

  lemma ParamMoves(ts: seq<Token>, i: nat, j: nat, p: FieldRepr)
    requires ParamDerives(ts, i, j, p)
    ensures i < j <= |ts|
  {
  }

  lemma OneParam(ts: seq<Token>, i: nat, k: nat, j: nat, params: seq<FieldRepr>)
    requires |params| > 0 && i < k <= j <= |ts| && ParamDerives(ts, i, k, params[0])
    requires if k == j then |params| == 1 else ts[k].ty.COMMA? && ParamsDerive(ts, k + 1, j, params[1..])
    ensures ParamsDerive(ts, i, j, params)
  {
    hide ParamDerives;
  }

  /** The fields read from i on. */
  lemma {:induction false} FieldsParsed(ts: seq<Token>, i: nat, done: seq<FieldRepr>) returns (fields: seq<FieldRepr>)
    requires i <= |ts| && ParseFields(ts, i, done).Done? && ParseFields(ts, i, done).errs == 0
    ensures var r := ParseFields(ts, i, done);
            && i < r.next && ts[r.next - 1].ty.RIGHT_BRACE? && r.val == done + fields
            && FieldsDerive(ts, i, r.next - 1, fields)
    decreases Left(ts, i), 3
  {
    hide ParseType, TypeDerives, FieldsDerive;
    var r := ParseFields(ts, i, done);
    if Peek(ts, i).RIGHT_BRACE? {
      fields := [];
      NoFields(ts, i);
      assert done + fields == done;
    } else {
      var t := ParseType(ts, Advance(ts, i + 1));
      ParsedDerives(ts, Advance(ts, i + 1));
      TypeMoves(ts, i + 2, t.next, t.val);
      var f := FieldRepr(Symbol(ts, i), t.val);
      var rest := FieldsParsed(ts, t.next, done + [f]);
      fields := [f] + rest;
      assert done + [f] + rest == done + fields && fields[1..] == rest;
      OneField(ts, i, t.next, r.next - 1, fields);
    }
  }

  lemma NoFields(ts: seq<Token>, i: nat)
    ensures FieldsDerive(ts, i, i, [])
  {
  }

  lemma TypeMoves(ts: seq<Token>, i: nat, j: nat, t: TypeRepr)
    requires TypeDerives(ts, i, j, t)
    ensures i < j <= |ts|
  {
  }

  lemma OneField(ts: seq<Token>, i: nat, k: nat, j: nat, fields: seq<FieldRepr>)
    requires |fields| > 0 && i + 2 < k <= j <= |ts| && ts[i] == Token(IDENTIFIER, fields[0].fieldName)
    requires ts[i + 1].ty.COLON? && TypeDerives(ts, i + 2, k, fields[0].ty) && FieldsDerive(ts, k, j, fields[1..])
    ensures FieldsDerive(ts, i, j, fields)
  {
    hide TypeDerives;
  }

  lemma PointerDerives(ts: seq<Token>, i: nat, j: nat, base: TypeRepr)
    requires i < |ts| && ts[i].ty.STAR? && TypeDerives(ts, i + 1, j, base)
    ensures TypeDerives(ts, i, j, PointerTo(base))
  {
    TypeMoves(ts, i + 1, j, base);
  }

  lemma ArrayDerives(ts: seq<Token>, i: nat, k: nat, j: nat, length: Option<Expr>, elem: TypeRepr)
    requires i < k < |ts| && ts[i].ty.LEFT_BRACKET? && ts[k].ty.RIGHT_BRACKET?
    requires LengthDerives(ts, i + 1, k, length) && TypeDerives(ts, k + 1, j, elem)
    ensures TypeDerives(ts, i, j, ArrayOf(length, elem))
  {
    hide LengthDerives;
    TypeMoves(ts, k + 1, j, elem);
  }

  // ---------- One production at a time ----------

  lemma ArrayStep(ts: seq<Token>, i: nat, length: Option<Expr>, k: nat, elem: TypeRepr, j: nat)
    requires i < |ts| && ts[i].ty == LEFT_BRACKET && k <= |ts|
    requires ParseLength(ts, i + 1) == Done(length, k, 0) && ParseType(ts, k) == Done(elem, j, 0)
    ensures ParseType(ts, i) == Done(ArrayOf(length, elem), j, 0)
  {
    hide ParseLength;
  }

  lemma Inside(ts: seq<Token>, i: nat, k: nat)
    requires i + 1 < k < |ts|
    ensures Peek(ts, i) == ts[i].ty && Advance(ts, i + 1) == i + 2 && Advance(ts, k) == k + 1
    ensures ts[i + 1].ty == LEFT_BRACKET ==> Expect(ts, i + 1, LEFT_BRACKET) == 0
    ensures ts[k].ty == RIGHT_BRACKET ==> Expect(ts, k, RIGHT_BRACKET) == 0
  {
  }

  lemma MapStep(ts: seq<Token>, i: nat, key: TypeRepr, k: nat, val: TypeRepr, j: nat)
    requires i + 1 < k < |ts| && ts[i].ty == MAP && ts[i + 1].ty == LEFT_BRACKET && ts[k].ty == RIGHT_BRACKET
    requires ParseType(ts, i + 2) == Done(key, k, 0) && ParseType(ts, k + 1) == Done(val, j, 0)
    ensures ParseType(ts, i) == Done(MapFrom(key, val), j, 0)
  {
    hide ParseLength, ParseParams, ParseFields, Expect, Advance, Peek;
    assert Peek(ts, i) == MAP && Advance(ts, i + 1) == i + 2 && Advance(ts, k) == k + 1 by { Inside(ts, i, k); }
    assert Expect(ts, i + 1, LEFT_BRACKET) == 0 && Expect(ts, k, RIGHT_BRACKET) == 0 by { Inside(ts, i, k); }
  }

  lemma FunctionStep(ts: seq<Token>, i: nat, params: seq<FieldRepr>, k: nat, ret: TypeRepr, j: nat)
    requires i < k && k + 2 <= |ts| && ts[i].ty == LEFT_PAREN && ts[k].ty == RIGHT_PAREN && ts[k + 1].ty == ARROW
    requires ParseParams(ts, i + 1, []) == Done(params, k, 0) && ParseType(ts, k + 2) == Done(ret, j, 0)
    ensures ParseType(ts, i) == Done(FunctionFrom(params, ret), j, 0)
  {
    hide ParseParams;
    assert Peek(ts, i) == LEFT_PAREN;
  }

  lemma StructStep(ts: seq<Token>, i: nat)
    requires i + 2 <= |ts| && ts[i].ty == STRUCT && ParseFields(ts, i + 2, []).Done?
    ensures var f := ParseFields(ts, i + 2, []); ParseType(ts, i) == Done(StructWith(f.val), f.next, f.errs)
  {
    hide ParseFields, ParseParams, ParseLength;
    assert Peek(ts, i) == STRUCT && Advance(ts, i + 1) == i + 2;
  }

  lemma FieldStep(ts: seq<Token>, i: nat, done: seq<FieldRepr>, f: FieldRepr, j: nat)
    requires i + 2 <= |ts| && ts[i] == Token(IDENTIFIER, f.fieldName) && ts[i + 1].ty == COLON
    requires ParseType(ts, i + 2) == Done(f.ty, j, 0) && ParseFields(ts, j, done + [f]).Done?
    ensures ParseFields(ts, i, done) == ParseFields(ts, j, done + [f])
  {
    hide ParseType;
    assert FieldRepr(Symbol(ts, i), f.ty) == f;
  }

  lemma ParamStep(ts: seq<Token>, i: nat, done: seq<FieldRepr>, p: FieldRepr, j: nat)
    requires i < |ts| && j <= |ts| && !ts[i].ty.RIGHT_PAREN? && ParseParam(ts, i) == Done(p, j, 0)
    ensures !Peek(ts, j).COMMA? ==> ParseParams(ts, i, done) == Done(done + [p], j, 0)
    ensures Peek(ts, j).COMMA? && ParseParams(ts, j + 1, done + [p]).Done?
            ==> ParseParams(ts, i, done) == ParseParams(ts, j + 1, done + [p])
  {
    hide ParseParam;
  }

  // ---------- What is derived is read ----------

  lemma {:induction false} DerivedParses(ts: seq<Token>, i: nat, j: nat, t: TypeRepr)
    requires TypeDerives(ts, i, j, t)
    ensures i < j <= |ts| && ParseType(ts, i) == Done(t, j, 0)
    decreases j - i, 2
  {
    hide ParseType, ParseLength, ParseParams, ParseFields, LengthDerives, ParamsDerive, FieldsDerive;
    match t
    case Named(name) => NameRead(ts, i, name);
    case PointerTo(base) =>
      DerivedParses(ts, i + 1, j, base);
      PointerStep(ts, i, base, j);
    case ArrayOf(length, elem) =>
      var k :| i < k < j && ts[k].ty.RIGHT_BRACKET? && LengthDerives(ts, i + 1, k, length) && TypeDerives(ts, k + 1, j, elem);
      LengthDerived(ts, i + 1, k, length);
      DerivedParses(ts, k + 1, j, elem);
      ArrayStep(ts, i, length, k + 1, elem, j);
    case MapFrom(key, val) =>
      var k :| i + 2 < k < j && TypeDerives(ts, i + 2, k, key) && ts[k].ty.RIGHT_BRACKET? && TypeDerives(ts, k + 1, j, val);
      DerivedParses(ts, i + 2, k, key);
      DerivedParses(ts, k + 1, j, val);
      MapStep(ts, i, key, k, val, j);
    case FunctionFrom(params, ret) =>
      var k :| i < k && k + 1 < j && ParamsDerive(ts, i + 1, k, params) && ts[k].ty.RIGHT_PAREN?
               && ts[k + 1].ty.ARROW? && TypeDerives(ts, k + 2, j, ret);
      ParamsDerived(ts, i + 1, k, [], params);
      assert [] + params == params;
      DerivedParses(ts, k + 2, j, ret);
      FunctionStep(ts, i, params, k, ret, j);
    case StructWith(fields) =>
      FieldsDerived(ts, i + 2, j - 1, [], fields);
      assert [] + fields == fields;
      StructStep(ts, i);
  }

  lemma NameRead(ts: seq<Token>, i: nat, name: string)
    requires i < |ts| && (ts[i].ty.IDENTIFIER? || ts[i].ty.NIL?) && ts[i].literal == name
    ensures ParseType(ts, i) == Done(Grammar.Named(name), i + 1, 0)
  {
  }

  lemma PointerStep(ts: seq<Token>, i: nat, base: TypeRepr, j: nat)
    requires i < |ts| && ts[i].ty.STAR? && ParseType(ts, i + 1) == Done(base, j, 0)
    ensures ParseType(ts, i) == Done(PointerTo(base), j, 0)
  {
    hide ParseParams, ParseFields, ParseLength;
  }

  lemma LengthDerived(ts: seq<Token>, i: nat, j: nat, length: Option<Expr>)
    requires LengthDerives(ts, i, j, length) && j < |ts| && ts[j].ty.RIGHT_BRACKET?
    ensures ParseLength(ts, i) == Done(length, j + 1, 0)
  {
    hide ParseExpression, D.Derives;
    if !ts[i].ty.STAR? {
      D.BracketStops(ts, j);
      D.DerivedParses(ts, i, j, length.value);
      NoBracket(ts, i, length.value, j);
    }
  }

  /** A closing bracket starts no expression. */
  lemma NoBracket(ts: seq<Token>, i: nat, e: Expr, j: nat)
    requires i < |ts| && ParseExpression(ts, i) == Done(e, j, 0)
    ensures !ts[i].ty.RIGHT_BRACKET?
  {
    hide ParseExpression;
    if ts[i].ty.RIGHT_BRACKET? {
      D.ClosingReports(ts, i);
    }
  }

  lemma {:induction false} ParamDerived(ts: seq<Token>, i: nat, j: nat, p: FieldRepr)
    requires ParamDerives(ts, i, j, p)
    ensures i < j <= |ts| && !ts[i].ty.RIGHT_PAREN? && ParseParam(ts, i) == Done(p, j, 0)
    decreases j - i, 3
  {
    hide ParseType;
    if ts[i].ty.IDENTIFIER? && Peek(ts, i + 1).COLON? {
      DerivedParses(ts, i + 2, j, p.ty);
    } else if ts[i].ty.COLON? || IsNameless(ts[i]) {
      DerivedParses(ts, i + 1, j, p.ty);
    } else if !ts[i].ty.IDENTIFIER? {
      DerivedParses(ts, i, j, p.ty);
    }
  }

  lemma {:induction false} ParamsDerived(ts: seq<Token>, i: nat, j: nat, done: seq<FieldRepr>, params: seq<FieldRepr>)
    requires ParamsDerive(ts, i, j, params) && j < |ts| && ts[j].ty.RIGHT_PAREN?
    ensures i <= j && ParseParams(ts, i, done) == Done(done + params, j, 0)
    decreases j - i, 4
  {
    hide ParamDerives, ParseParam;
    if |params| == 0 {
      assert done + params == done;
    } else {
      hide ParseParams;
      var k :| i < k <= j && j <= |ts| && ParamDerives(ts, i, k, params[0])
               && if k == j then |params| == 1 else ts[k].ty.COMMA? && ParamsDerive(ts, k + 1, j, params[1..]);
      ParamDerived(ts, i, k, params[0]);
      if k == j {
        assert done + params == done + [params[0]];
      } else {
        ParamsDerived(ts, k + 1, j, done + [params[0]], params[1..]);
        assert done + [params[0]] + params[1..] == done + params;
      }
      ParamStep(ts, i, done, params[0], k);
    }
  }

  lemma {:induction false} FieldsDerived(ts: seq<Token>, i: nat, j: nat, done: seq<FieldRepr>, fields: seq<FieldRepr>)
    requires FieldsDerive(ts, i, j, fields) && j < |ts| && ts[j].ty.RIGHT_BRACE?
    ensures i <= j && ParseFields(ts, i, done) == Done(done + fields, j + 1, 0)
    decreases j - i, 4
  {
    hide TypeDerives, ParseType;
    if |fields| == 0 {
      assert done + fields == done;
    } else {
      hide ParseFields;
      var k :| i + 2 < k <= j && j <= |ts| && ts[i] == Token(IDENTIFIER, fields[0].fieldName)
               && ts[i + 1].ty.COLON? && TypeDerives(ts, i + 2, k, fields[0].ty)
               && FieldsDerive(ts, k, j, fields[1..]);
      DerivedParses(ts, i + 2, k, fields[0].ty);
      FieldsDerived(ts, k, j, done + [fields[0]], fields[1..]);
      assert done + [fields[0]] + fields[1..] == done + fields;
      FieldStep(ts, i, done, fields[0], k);
    }
  }

  /** Exactly: the parser reads t from the tokens from i up to j without an error if and only if they
      derive it. */
  lemma ParsesExactly(ts: seq<Token>, i: nat, t: TypeRepr, j: nat)
    requires i <= |ts|
    ensures ParseType(ts, i) == Done(t, j, 0) <==> TypeDerives(ts, i, j, t)
  {
    hide ParseType, TypeDerives;
    if ParseType(ts, i) == Done(t, j, 0) {
      ParsedDerives(ts, i);
    }
    if TypeDerives(ts, i, j, t) {
      DerivedParses(ts, i, j, t);
    }
  }
}
