/** The expression and type grammar as functions of the token stream (src/parsing/parser.cpp). Class
    Parser in ParserMethods.dfy runs the same grammar with the source's loops. */
module Grammar {
  import opened Options
  import opened Tokens
  import opened Ast
  import opened Decimal

  /** What a production does: it returns a value, having moved to token next and reported errs errors;
      or it never returns; or it reaches a function literal, whose body is statements. */
  datatype Out<+T> = Done(val: T, next: nat, errs: nat) | Loops | FunctionLiteral {
    predicate IsFailure() { !Done? }

    function PropagateFailure<U>(): Out<U>
      requires IsFailure()
    {
      if Loops? then Loops else FunctionLiteral
    }

    function Extract(): (T, nat, nat)
      requires Done?
    {
      (val, next, errs)
    }
  }

  function Peek(ts: seq<Token>, i: nat): TokenType {
    if i < |ts| then ts[i].ty else EOS
  }

  /** The position after Next: the scanner stays at the end of the stream. */
  function Advance(ts: seq<Token>, i: nat): (j: nat)
    ensures i <= j && (i <= |ts| ==> j <= |ts|) && (i < |ts| ==> j == i + 1)
  {
    if i < |ts| then i + 1 else i
  }

  /** The literal of the token at i, which GetSymbol reads after Next. */
  function Symbol(ts: seq<Token>, i: nat): string {
    if i < |ts| then ts[i].literal else ""
  }

  /** Expect reports when the token it consumes is another one. */
  function Expect(ts: seq<Token>, i: nat, t: TokenType): nat {
    if Peek(ts, i) == t then 0 else 1
  }

  function Left(ts: seq<Token>, i: nat): nat {
    if i < |ts| then |ts| - i else 0
  }

  // ---------- Numbers ----------

  const INT64_MAX: int := 0x7FFF_FFFF_FFFF_FFFF

  /** strtoll on an unsigned numeral: saturates at the top of the range. */
  function StrToInt64(s: string): (n: int)
    ensures 0 <= n <= INT64_MAX
  {
    var v := DigitsValue(s, 0);
    if v > INT64_MAX then INT64_MAX else v
  }

  /** The value of digits after the decimal point, without the rounding of strtof. */
  function FractionValue(s: string, unit: real): real {
    if |s| == 0 || !IsDigit(s[0]) then 0.0
    else (s[0] as int - '0' as int) as real * unit + FractionValue(s[1..], unit / 10.0)
  }

  function SkipDigits(s: string): (r: string)
    ensures |r| <= |s|
  {
    if |s| > 0 && IsDigit(s[0]) then SkipDigits(s[1..]) else s
  }

  function StrToReal(s: string): real {
    var rest := SkipDigits(s);
    DigitsValue(s, 0) as real + (if |rest| > 0 && rest[0] == '.' then FractionValue(rest[1..], 0.1) else 0.0)
  }

  // ---------- Expressions ----------

  /** The tree of infix operators over unary operands that precedence climbing builds. */
  datatype Shape = Atom(e: Expr) | Infix(op: TokenType, left: Shape, right: Shape)

  function Operator(op: TokenType, left: Expr, right: Expr): Expr {
    Fresh(if IsCompareOp(op) then Compare(op, left, right) else Binary(op, left, right))
  }

  function ToExpr(s: Shape): Expr {
    match s
    case Atom(e) => e
    case Infix(op, left, right) => Operator(op, ToExpr(left), ToExpr(right))
  }

  function ParseExpression(ts: seq<Token>, i: nat): (r: Out<Expr>)
    requires i <= |ts|
    ensures r.Done? ==> i <= r.next <= |ts| && (i < |ts| ==> i < r.next)
    decreases Left(ts, i), 6
  {
    var (shape, next, errs) :- Climb(ts, i, LOWEST_PRECEDENCE + 1);
    Done(ToExpr(shape), next, errs)
  }

  /** Precedence climbing: a unary operand, then every operator that binds tighter than min, each with
      a right operand made of strictly tighter operators. */
  function Climb(ts: seq<Token>, i: nat, min: nat): (r: Out<Shape>)
    requires i <= |ts|
    ensures r.Done? ==> i <= r.next <= |ts| && (i < |ts| ==> i < r.next)
    decreases Left(ts, i), 5
  {
    var (e, next, errs) :- ParseUnary(ts, i);
    ClimbOn(ts, next, Atom(e), min, errs)
  }

  function ClimbOn(ts: seq<Token>, i: nat, left: Shape, min: nat, errs: nat): (r: Out<Shape>)
    requires i <= |ts|
    ensures r.Done? ==> i <= r.next <= |ts| && errs <= r.errs
    decreases Left(ts, i), 1
  {
    var op := Peek(ts, i);
    if Precedence(op) <= min then Done(left, i, errs)
    else
      var (right, next, more) :- Climb(ts, i + 1, Precedence(op));
      ClimbOn(ts, next, Infix(op, left, right), min, errs + more)
  }

  /** The rewrites of a prefix operator applied to a literal. */
  function Fold(op: TokenType, e: Expr): Expr {
    match e.node
    case Lit(BoolLit(b)) => if op.BANG? then Fresh(Lit(BoolLit(!b))) else Fresh(Unary(op, e))
    case Lit(IntLit(n)) =>
      if op.PLUS? then e else if op.MINUS? then Fresh(Lit(IntLit(-n))) else Fresh(Unary(op, e))
    case _ => Fresh(Unary(op, e))
  }

  function ParseUnary(ts: seq<Token>, i: nat): (r: Out<Expr>)
    requires i <= |ts|
    ensures r.Done? ==> i <= r.next <= |ts| && (i < |ts| ==> i < r.next)
    decreases Left(ts, i), 4
  {
    if IsUnaryOp(Peek(ts, i)) then
      var (e, next, errs) :- ParseUnary(ts, i + 1);
      Done(Fold(Peek(ts, i), e), next, errs)
    else ParsePrimary(ts, i)
  }

  function ParsePrimary(ts: seq<Token>, i: nat): (r: Out<Expr>)
    requires i <= |ts|
    ensures r.Done? ==> i <= r.next <= |ts| && (i < |ts| ==> i < r.next)
    decreases Left(ts, i), 3
  {
    var (e, next, errs) :- ParseOperand(ts, i);
    Postfix(ts, next, e, errs)
  }

  /** Calls, member accesses and index expressions on e, as far as they go. */
  function Postfix(ts: seq<Token>, i: nat, e: Expr, errs: nat): (r: Out<Expr>)
    requires i <= |ts|
    ensures r.Done? ==> i <= r.next <= |ts| && errs <= r.errs
    decreases Left(ts, i), 1
  {
    match Peek(ts, i)
    case LEFT_PAREN =>
      var (args, next, more) :- ParseArgs(ts, i + 1, []);
      Postfix(ts, next, Fresh(Call(e, args)), errs + more)
    case DOT =>
      var (member, next, more) :- ParseOperand(ts, i + 1);
      Postfix(ts, next, Fresh(Member(e, member)), errs + more)
    case LEFT_BRACKET =>
      var (index, next, more) :- ParseExpression(ts, i + 1);
      Postfix(ts, Advance(ts, next), Fresh(Index(e, index)), errs + more + Expect(ts, next, RIGHT_BRACKET))
    case _ => Done(e, i, errs)
  }

  /** Arguments up to the closing parenthesis; commas between them are optional. At the end of the
      stream the loop goes on for ever, since it only stops at a parenthesis. */
  function ParseArgs(ts: seq<Token>, i: nat, args: seq<Expr>): (r: Out<seq<Expr>>)
    requires i <= |ts|
    ensures r.Done? ==> i < r.next <= |ts|
    decreases Left(ts, i), 7
  {
    if Peek(ts, i) == RIGHT_PAREN then Done(args, i + 1, 0)
    else if i == |ts| then Loops
    else
      var (arg, next, errs) :- ParseExpression(ts, i);
      var (all, end, more) :- ParseArgs(ts, if Peek(ts, next) == COMMA then next + 1 else next, args + [arg]);
      Done(all, end, errs + more)
  }

  function ParseOperand(ts: seq<Token>, i: nat): (r: Out<Expr>)
    requires i <= |ts|
    ensures r.Done? ==> i <= r.next <= |ts| && (i < |ts| ==> i < r.next)
    decreases Left(ts, i), 2
  {
    match Peek(ts, i)
    case NIL => Done(Fresh(Lit(NilLit)), i + 1, 0)
    case FALSE => Done(Fresh(Lit(BoolLit(false))), i + 1, 0)
    case TRUE => Done(Fresh(Lit(BoolLit(true))), i + 1, 0)
    case BUILTIN_IDENTIFIER =>
      var (args, next, errs) :- ParseArgs(ts, Advance(ts, i + 1), []);
      Done(Fresh(BuiltinCall(Fresh(Ident(Symbol(ts, i))), args)), next, errs)
    case IDENTIFIER => Done(Fresh(Ident(Symbol(ts, i))), i + 1, 0)
    case INTEGER => Done(Fresh(Lit(IntLit(StrToInt64(Symbol(ts, i))))), i + 1, 0)
    case FLOAT => Done(Fresh(Lit(FloatLit(StrToReal(Symbol(ts, i)), true))), i + 1, 0)
    case STRING => Done(Fresh(Lit(StringLit(Symbol(ts, i)))), i + 1, 0)
    case FUN => FunctionLiteral
    case LEFT_PAREN =>
      var (e, next, errs) :- ParseExpression(ts, i + 1);
      Done(e, Advance(ts, next), errs + Expect(ts, next, RIGHT_PAREN))
    case _ => Done(Fresh(Bad), Advance(ts, i), 1)
  }

  // ---------- Types ----------

  /** A type as written; Missing is the null a production returns after reporting an error. */
  datatype TypeRepr =
    | Named(name: string)
    | PointerTo(base: TypeRepr)
    | ArrayOf(length: Option<Expr>, elem: TypeRepr)
    | MapFrom(key: TypeRepr, val: TypeRepr)
    | FunctionFrom(params: seq<FieldRepr>, ret: TypeRepr)
    | StructWith(fields: seq<FieldRepr>)
    | Missing

  /** A parameter or field; an unnamed parameter has the empty name. */
  datatype FieldRepr = FieldRepr(fieldName: string, ty: TypeRepr)

  function ParseType(ts: seq<Token>, i: nat): (r: Out<TypeRepr>)
    requires i <= |ts|
    ensures r.Done? ==> i <= r.next <= |ts|
    decreases Left(ts, i), 2
  {
    match Peek(ts, i)
    case NIL | IDENTIFIER => Done(Named(Symbol(ts, i)), i + 1, 0)
    case MAP =>
      var (key, next, errs) :- ParseType(ts, Advance(ts, i + 1));
      var (val, end, more) :- ParseType(ts, Advance(ts, next));
      Done(MapFrom(key, val), end,
           Expect(ts, i + 1, LEFT_BRACKET) + errs + Expect(ts, next, RIGHT_BRACKET) + more)
    case LEFT_PAREN =>
      var (params, next, errs) :- ParseParams(ts, i + 1, []);
      var arrow := Advance(ts, next);
      var (ret, end, more) :- ParseType(ts, Advance(ts, arrow));
      Done(FunctionFrom(params, ret), end, errs + Expect(ts, next, RIGHT_PAREN) + Expect(ts, arrow, ARROW) + more)
    case STAR =>
      var (base, next, errs) :- ParseType(ts, i + 1);
      Done(PointerTo(base), next, errs)
    case LEFT_BRACKET =>
      var (length, next, errs) :- ParseLength(ts, i + 1);
      var (elem, end, more) :- ParseType(ts, next);
      Done(ArrayOf(length, elem), end, errs + more)
    case STRUCT =>
      var (fields, next, errs) :- ParseFields(ts, Advance(ts, i + 1), []);
      Done(StructWith(fields), next, errs)
    case _ => Done(Missing, i, 1)
  }

  /** The length of an array type and its closing bracket; STAR stands for an unknown length. */
  function ParseLength(ts: seq<Token>, i: nat): (r: Out<Option<Expr>>)
    requires i <= |ts|
    ensures r.Done? ==> i <= r.next <= |ts|
  {
    if Peek(ts, i).RIGHT_BRACKET? then Done(None, i + 1, 1)
    else if Peek(ts, i).STAR? then Done(None, Advance(ts, i + 1), Expect(ts, i + 1, RIGHT_BRACKET))
    else
      var (e, next, errs) :- ParseExpression(ts, i);
      Done(Some(e), Advance(ts, next), errs + Expect(ts, next, RIGHT_BRACKET))
  }

  /** Parameters up to, not including, the closing parenthesis. */
  function ParseParams(ts: seq<Token>, i: nat, params: seq<FieldRepr>): (r: Out<seq<FieldRepr>>)
    requires i <= |ts|
    ensures r.Done? ==> i <= r.next <= |ts|
    decreases Left(ts, i), 4
  {
    if Peek(ts, i) == RIGHT_PAREN then Done(params, i, 0)
    else
      var (p, next, errs) :- ParseParam(ts, i);
      if Peek(ts, next) != COMMA then Done(params + [p], next, errs)
      else
        var (all, end, more) :- ParseParams(ts, next + 1, params + [p]);
        Done(all, end, errs + more)
  }

  /** One turn of the parameter loop. */
  lemma ParamsTurn(ts: seq<Token>, i: nat, params: seq<FieldRepr>)
    requires i <= |ts| && Peek(ts, i) != RIGHT_PAREN && ParseParams(ts, i, params).Done?
    ensures var r, p := ParseParams(ts, i, params), ParseParam(ts, i);
            && p.Done?
            && (Peek(ts, p.next) != COMMA ==> r == Done(params + [p.val], p.next, p.errs))
            && (Peek(ts, p.next) == COMMA ==>
                  var more := ParseParams(ts, p.next + 1, params + [p.val]);
                  more.Done? && r.val == more.val && r.next == more.next && r.errs == p.errs + more.errs)
  {
    hide ParseParam;
  }

  /** name ':' type, or a type alone; a lone identifier is a type. */
  function ParseParam(ts: seq<Token>, i: nat): (r: Out<FieldRepr>)
    requires i <= |ts|
    ensures r.Done? ==> i <= r.next <= |ts|
    decreases Left(ts, i), 3
  {
    var named := Peek(ts, i) == IDENTIFIER;
    var name := if named then Symbol(ts, i) else "";
    var j := if named then i + 1 else i;
    if Peek(ts, j) == COLON || |name| == 0 then
      var (t, next, errs) :- ParseType(ts, if Peek(ts, j) == COLON then j + 1 else j);
      Done(FieldRepr(name, t), next, errs)
    else Done(FieldRepr("", Named(name)), j, 0)
  }

  /** Fields up to and including the closing brace; like the argument loop it never ends at the end of
      the stream. */
  function ParseFields(ts: seq<Token>, i: nat, fields: seq<FieldRepr>): (r: Out<seq<FieldRepr>>)
    requires i <= |ts|
    ensures r.Done? ==> i <= r.next <= |ts|
    decreases Left(ts, i), 3
  {
    if Peek(ts, i) == RIGHT_BRACE then Done(fields, i + 1, 0)
    else if i == |ts| then Loops
    else
      var (t, next, errs) :- ParseType(ts, Advance(ts, i + 1));
      var (all, end, more) :- ParseFields(ts, next, fields + [FieldRepr(Symbol(ts, i), t)]);
      Done(all, end, Expect(ts, i, IDENTIFIER) + Expect(ts, i + 1, COLON) + errs + more)
  }
}
