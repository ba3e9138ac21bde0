/** The parser with its loops (src/parsing/parser.cpp): methods that consume the token stream, each
    proved to do what the grammar function of the same production says. */
module Parsing {
  import opened Options
  import opened Tokens
  import opened Ast
  import opened Grammar
  import opened PrecedenceTheorems

  lemma StructFields(ts: seq<Token>, i: nat)
    requires i < |ts| && ts[i].ty == STRUCT && ParseType(ts, i).Done?
    ensures var r, all := ParseType(ts, i), ParseFields(ts, Advance(ts, i + 1), []);
            all.Done? && r == Done(StructWith(all.val), all.next, all.errs)
  {
    hide ParseFields;
  }

  lemma ParamsEnd(ts: seq<Token>, i: nat, params: seq<FieldRepr>)
    requires i <= |ts| && Peek(ts, i) == RIGHT_PAREN
    ensures ParseParams(ts, i, params) == Done(params, i, 0)
  {
  }

  /** One turn of the field loop. */
  lemma FieldsTurn(ts: seq<Token>, i: nat, fields: seq<FieldRepr>)
    requires i <= |ts| && Peek(ts, i) != RIGHT_BRACE && ParseFields(ts, i, fields).Done?
    ensures i < |ts|
    ensures var r, t := ParseFields(ts, i, fields), ParseType(ts, Advance(ts, i + 1));
            && t.Done?
            && var more := ParseFields(ts, t.next, fields + [FieldRepr(Symbol(ts, i), t.val)]);
               && more.Done? && r.val == more.val && r.next == more.next
               && r.errs == Expect(ts, i, IDENTIFIER) + Expect(ts, i + 1, COLON) + t.errs + more.errs
  {
    hide ParseType;
  }

  lemma FieldsEnd(ts: seq<Token>, i: nat, fields: seq<FieldRepr>)
    requires Peek(ts, i) == RIGHT_BRACE
    ensures i < |ts| && ParseFields(ts, i, fields) == Done(fields, i + 1, 0)
  {
  }

  /** One turn of the postfix loop. */
  lemma PostfixTurn(ts: seq<Token>, i: nat, e: Expr, errs: nat)
    requires i <= |ts| && Postfix(ts, i, e, errs).Done?
    ensures Peek(ts, i).LEFT_PAREN? ==>
              var a := ParseArgs(ts, i + 1, []);
              a.Done? && Postfix(ts, i, e, errs) == Postfix(ts, a.next, Fresh(Call(e, a.val)), errs + a.errs)
    ensures Peek(ts, i).DOT? ==>
              var m := ParseOperand(ts, i + 1);
              m.Done? && Postfix(ts, i, e, errs) == Postfix(ts, m.next, Fresh(Member(e, m.val)), errs + m.errs)
    ensures Peek(ts, i).LEFT_BRACKET? ==>
              var x := ParseExpression(ts, i + 1);
              x.Done? && Postfix(ts, i, e, errs)
              == Postfix(ts, Advance(ts, x.next), Fresh(Index(e, x.val)), errs + x.errs + Expect(ts, x.next, RIGHT_BRACKET))
    ensures !IsCallOrMemberOrIndex(Peek(ts, i)) ==> Postfix(ts, i, e, errs) == Done(e, i, errs)
  {
    hide ParseArgs, ParseOperand, ParseExpression;
  }

  class Parser {
    const ts: seq<Token>
    var pos: nat
    var literal: string
    var errors: nat

    constructor (ts: seq<Token>)
      ensures this.ts == ts && pos == 0 && errors == 0
    {
      this.ts := ts;
      pos := 0;
      literal := "";
      errors := 0;
    }

    /** The parser has done what the outcome r says, starting with errs errors. */
    ghost predicate Reached<T>(r: Out<T>, val: T, errs: nat)
      reads this
    {
      r.Done? && val == r.val && pos == r.next && errors == errs + r.errs
    }

    function PeekNext(): TokenType
      reads this
    {
      Peek(ts, pos)
    }

    method Next() returns (t: TokenType)
      modifies this
      ensures t == Peek(ts, old(pos)) && pos == Advance(ts, old(pos)) && literal == Symbol(ts, old(pos))
      ensures errors == old(errors)
    {
      t := PeekNext();
      literal := Symbol(ts, pos);
      pos := Advance(ts, pos);
    }

    /** Takes the next token, whatever it is; a debug build checks it. */
    method Consume(t: TokenType)
      modifies this
      ensures pos == Advance(ts, old(pos)) && literal == Symbol(ts, old(pos)) && errors == old(errors)
    {
      var _ := Next();
    }

    method ExpectNext(t: TokenType)
      modifies this
      ensures pos == Advance(ts, old(pos)) && errors == old(errors) + Expect(ts, old(pos), t)
      ensures literal == Symbol(ts, old(pos))
    {
      var next := Next();
      if next != t {
        errors := errors + 1;
      }
    }

    method Matches(t: TokenType) returns (yes: bool)
      modifies this
      ensures yes == (Peek(ts, old(pos)) == t) && errors == old(errors)
      ensures pos == if yes then Advance(ts, old(pos)) else old(pos)
      ensures yes ==> literal == Symbol(ts, old(pos))
    {
      if PeekNext() != t { return false; }
      Consume(t);
      return true;
    }

    // ---------- Expressions ----------

    method ParseExpr() returns (e: Expr)
      requires pos <= |ts| && ParseExpression(ts, pos).Done?
      modifies this
      ensures Reached(ParseExpression(ts, old(pos)), e, old(errors))
      decreases Left(ts, pos), 6
    {
      e := ParseBinaryOpExpression(LOWEST_PRECEDENCE + 1);
    }

    /** The loop counts precedences down from that of the first operator to min. */
    method ParseBinaryOpExpression(min: nat) returns (left: Expr)
      requires pos <= |ts| && Climb(ts, pos, min).Done?
      modifies this
      ensures var r := Climb(ts, old(pos), min);
              r.Done? && left == ToExpr(r.val) && pos == r.next && errors == old(errors) + r.errs
      decreases Left(ts, pos), 5
    {
      hide Climb, ClimbOn, ParseUnary, Precedence, Reads, WellShaped;
      ghost var start, errs := pos, errors;
      ClimbStart(ts, pos, min);
      left := ParseUnaryOpExpression();
      ghost var shape := Atom(left);
      var prec := Precedence(PeekNext());
      while prec > min
        invariant start <= pos <= |ts| && errors >= errs && left == ToExpr(shape)
        invariant ClimbOn(ts, pos, shape, min, errors - errs) == Climb(ts, start, min)
        invariant Precedence(Peek(ts, pos)) <= prec
        decreases prec
      {
        if Precedence(PeekNext()) < min {
          break;
        }
        while Precedence(PeekNext()) == prec
          invariant start <= pos <= |ts| && errors >= errs && left == ToExpr(shape)
          invariant ClimbOn(ts, pos, shape, min, errors - errs) == Climb(ts, start, min)
          invariant Precedence(Peek(ts, pos)) <= prec
          decreases Left(ts, pos)
        {
          ClimbTurn(ts, pos, shape, min, errors - errs);
          ClimbSound(ts, pos + 1, prec);
          ghost var r := Climb(ts, pos + 1, prec);
          var op := Next();
          var right := ParseBinaryOpExpression(prec);
          shape := Infix(op, shape, r.val);
          if IsCompareOp(op) {
            left := Fresh(Compare(op, left, right));
          } else {
            left := Fresh(Binary(op, left, right));
          }
        }
        prec := prec - 1;
      }
      ClimbStops(ts, pos, shape, min, errors - errs);
    }

    method ParseUnaryOpExpression() returns (e: Expr)
      requires pos <= |ts| && ParseUnary(ts, pos).Done?
      modifies this
      ensures Reached(ParseUnary(ts, old(pos)), e, old(errors))
      decreases Left(ts, pos), 4
    {
      if IsUnaryOp(PeekNext()) {
        var op := Next();
        var expression := ParseUnaryOpExpression();
        if expression.node.Lit? {
          var lit := expression.node.lit;
          if op == BANG && lit.BoolLit? {
            return Fresh(Lit(BoolLit(!lit.b)));
          } else if lit.IntLit? {
            if op == PLUS {
              return expression;
            } else if op == MINUS {
              return Fresh(Lit(IntLit(-lit.n)));
            }
          }
        }
        return Fresh(Unary(op, expression));
      }
      e := ParsePrimaryExpression();
    }

    method ParsePrimaryExpression() returns (result: Expr)
      requires pos <= |ts| && ParsePrimary(ts, pos).Done?
      modifies this
      ensures Reached(ParsePrimary(ts, old(pos)), result, old(errors))
      decreases Left(ts, pos), 3
    {
      hide ParseArgs, ParseExpression, ParseOperand, Postfix;
      ghost var start, errs := pos, errors;
      result := ParseOperandExpression();
      var more := true;
      while more
        invariant start <= pos <= |ts| && (start < |ts| ==> start < pos) && errors >= errs
        invariant Postfix(ts, pos, result, errors - errs) == ParsePrimary(ts, start)
        invariant !more ==> !IsCallOrMemberOrIndex(Peek(ts, pos))
        decreases Left(ts, pos), more
      {
        if IsCallOrMemberOrIndex(PeekNext()) {
          result := ParsePostfix(result, errors - errs);
        }
        more := IsCallOrMemberOrIndex(PeekNext());
      }
      PostfixTurn(ts, pos, result, errors - errs);
    }

    /** One call, member access or index expression on e. */
    method ParsePostfix(e: Expr, ghost errs: nat) returns (result: Expr)
      requires pos < |ts| && IsCallOrMemberOrIndex(Peek(ts, pos)) && Postfix(ts, pos, e, errs).Done?
      modifies this
      ensures old(pos) < pos <= |ts| && errors >= old(errors)
      ensures Postfix(ts, pos, result, errs + errors - old(errors)) == Postfix(ts, old(pos), e, errs)
      decreases Left(ts, pos), 1
    {
      hide ParseArgs, ParseExpression, ParseOperand, Postfix;
      PostfixTurn(ts, pos, e, errs);
      if PeekNext() == LEFT_PAREN {
        Consume(LEFT_PAREN);
        var args := ParseArguments();
        result := Fresh(Call(e, args));
      } else if PeekNext() == DOT {
        Consume(DOT);
        var member := ParseOperandExpression();
        result := Fresh(Member(e, member));
      } else {
        Consume(LEFT_BRACKET);
        var index := ParseExpr();
        ExpectNext(RIGHT_BRACKET);
        result := Fresh(Index(e, index));
      }
    }

    /** The argument loop of calls and builtin calls, from behind the opening parenthesis. */
    method ParseArguments() returns (args: seq<Expr>)
      requires pos <= |ts| && ParseArgs(ts, pos, []).Done?
      modifies this
      ensures Reached(ParseArgs(ts, old(pos), []), args, old(errors))
      decreases Left(ts, pos), 7
    {
      ghost var start, errs := pos, errors;
      args := [];
      while PeekNext() != RIGHT_PAREN
        invariant start <= pos <= |ts| && errors >= errs && ParseArgs(ts, pos, args).Done?
        invariant var r, all := ParseArgs(ts, pos, args), ParseArgs(ts, start, []);
                  all.Done? && r.val == all.val && r.next == all.next && errors + r.errs == errs + all.errs
        decreases Left(ts, pos)
      {
        var arg := ParseExpr();
        args := args + [arg];
        if PeekNext() == COMMA {
          var _ := Next();
        }
      }
      ExpectNext(RIGHT_PAREN);
    }

    method ParseOperandExpression() returns (e: Expr)
      requires pos <= |ts| && ParseOperand(ts, pos).Done?
      modifies this
      ensures Reached(ParseOperand(ts, old(pos)), e, old(errors))
      decreases Left(ts, pos), 2
    {
      hide ParseArgs, ParseExpression, StrToReal, StrToInt64;
      var next := PeekNext();
      if next.NIL? {
        Consume(NIL);
        return Fresh(Lit(NilLit));
      } else if next.FALSE? || next.TRUE? {
        var t := Next();
        return Fresh(Lit(BoolLit(t == TRUE)));
      } else if next.BUILTIN_IDENTIFIER? {
        var _ := Next();
        var name := Fresh(Ident(literal));
        Consume(LEFT_PAREN);
        var args := ParseArguments();
        return Fresh(BuiltinCall(name, args));
      } else if next.IDENTIFIER? {
        var _ := Next();
        return Fresh(Ident(literal));
      } else if next.INTEGER? {
        var _ := Next();
        return Fresh(Lit(IntLit(StrToInt64(literal))));
      } else if next.FLOAT? {
        var _ := Next();
        return Fresh(Lit(FloatLit(StrToReal(literal), true)));
      } else if next.STRING? {
        var _ := Next();
        return Fresh(Lit(StringLit(literal)));
      } else if next.LEFT_PAREN? {
        Consume(LEFT_PAREN);
        e := ParseExpr();
        ExpectNext(RIGHT_PAREN);
        return;
      }
      errors := errors + 1;
      var _ := Next();
      return Fresh(Bad);
    }

    // ---------- Types ----------

    method ParseTypeExpr() returns (t: TypeRepr)
      requires pos <= |ts| && ParseType(ts, pos).Done?
      modifies this
      ensures Reached(ParseType(ts, old(pos)), t, old(errors))
      decreases Left(ts, pos), 12
    {
      var next := PeekNext();
      if next.NIL? || next.IDENTIFIER? {
        var _ := Next();
        return Named(literal);
      } else if next.MAP? {
        t := ParseMapType();
      } else if next.LEFT_PAREN? {
        t := ParseFunctionType();
      } else if next.STAR? {
        t := ParsePointerType();
      } else if next.LEFT_BRACKET? {
        t := ParseArrayType();
      } else if next.STRUCT? {
        t := ParseStructType();
      } else {
        errors := errors + 1;
        return Missing;
      }
    }

    method ParseMapType() returns (t: TypeRepr)
      requires pos < |ts| && ts[pos].ty == MAP && ParseType(ts, pos).Done?
      modifies this
      ensures Reached(ParseType(ts, old(pos)), t, old(errors))
      decreases Left(ts, pos), 11
    {
      Consume(MAP);
      ExpectNext(LEFT_BRACKET);
      var key := ParseTypeExpr();
      ExpectNext(RIGHT_BRACKET);
      var val := ParseTypeExpr();
      return MapFrom(key, val);
    }

    method ParsePointerType() returns (t: TypeRepr)
      requires pos < |ts| && ts[pos].ty == STAR && ParseType(ts, pos).Done?
      modifies this
      ensures Reached(ParseType(ts, old(pos)), t, old(errors))
      decreases Left(ts, pos), 11
    {
      ExpectNext(STAR);
      var base := ParseTypeExpr();
      return PointerTo(base);
    }

    method ParseArrayType() returns (t: TypeRepr)
      requires pos < |ts| && ts[pos].ty == LEFT_BRACKET && ParseType(ts, pos).Done?
      modifies this
      ensures Reached(ParseType(ts, old(pos)), t, old(errors))
      decreases Left(ts, pos), 11
    {
      Consume(LEFT_BRACKET);
      var len := None;
      var closed := Matches(RIGHT_BRACKET);
      if !closed {
        var star := Matches(STAR);
        if !star {
          var e := ParseExpr();
          len := Some(e);
        }
        ExpectNext(RIGHT_BRACKET);
      } else {
        errors := errors + 1;
      }
      var elem := ParseTypeExpr();
      return ArrayOf(len, elem);
    }

    method ParseFunctionType() returns (t: TypeRepr)
      requires pos < |ts| && ts[pos].ty == LEFT_PAREN && ParseType(ts, pos).Done?
      modifies this
      ensures Reached(ParseType(ts, old(pos)), t, old(errors))
      decreases Left(ts, pos), 11
    {
      Consume(LEFT_PAREN);
      var params := ParseParameters();
      ExpectNext(RIGHT_PAREN);
      ExpectNext(ARROW);
      var ret := ParseTypeExpr();
      return FunctionFrom(params, ret);
    }

    method ParseParameters() returns (params: seq<FieldRepr>)
      requires pos <= |ts| && ParseParams(ts, pos, []).Done?
      modifies this
      ensures Reached(ParseParams(ts, old(pos), []), params, old(errors))
      decreases Left(ts, pos), 14
    {
      hide ParseParam, ParseType, ParseParams;
      ghost var start, errs := pos, errors;
      params := [];
      while PeekNext() != RIGHT_PAREN
        invariant start <= pos <= |ts| && errors >= errs && ParseParams(ts, pos, params).Done?
        invariant var r, all := ParseParams(ts, pos, params), ParseParams(ts, start, []);
                  all.Done? && r.val == all.val && r.next == all.next && errors + r.errs == errs + all.errs
        decreases Left(ts, pos)
      {
        ParamsTurn(ts, pos, params);
        var p := ParseParameter();
        params := params + [p];
        var comma := Matches(COMMA);
        if !comma {
          return;
        }
      }
      ParamsEnd(ts, pos, params);
    }

    method ParseParameter() returns (p: FieldRepr)
      requires pos <= |ts| && ParseParam(ts, pos).Done?
      modifies this
      ensures Reached(ParseParam(ts, old(pos)), p, old(errors))
      decreases Left(ts, pos), 13
    {
      var ident := "";
      var named := Matches(IDENTIFIER);
      if named {
        ident := literal;
      }
      var colon := Matches(COLON);
      if colon || |ident| == 0 {
        var ty := ParseTypeExpr();
        return FieldRepr(ident, ty);
      } else {
        return FieldRepr("", Named(ident));
      }
    }

    method ParseStructType() returns (t: TypeRepr)
      requires pos < |ts| && ts[pos].ty == STRUCT && ParseType(ts, pos).Done?
      modifies this
      ensures Reached(ParseType(ts, old(pos)), t, old(errors))
      decreases Left(ts, pos), 11
    {
      hide ParseType, ParseFields, Expect;
      StructFields(ts, pos);
      ghost var errs := errors;
      Consume(STRUCT);
      Consume(LEFT_BRACE);
      ghost var start := pos;
      var fields := [];
      while PeekNext() != RIGHT_BRACE
        invariant start <= pos <= |ts| && errors >= errs && ParseFields(ts, pos, fields).Done?
        invariant var r, all := ParseFields(ts, pos, fields), ParseFields(ts, start, []);
                  all.Done? && r.val == all.val && r.next == all.next && errors + r.errs == errs + all.errs
        decreases Left(ts, pos)
      {
        FieldsTurn(ts, pos, fields);
        ExpectNext(IDENTIFIER);
        var name := literal;
        ExpectNext(COLON);
        var ty := ParseTypeExpr();
        fields := fields + [FieldRepr(name, ty)];
      }
      FieldsEnd(ts, pos, fields);
      Consume(RIGHT_BRACE);
      return StructWith(fields);
    }
  }
}
