/** Expressions (src/include/ast/ast.h). Every node carries the type label the source keeps in
    Expression::type_; the parser leaves it unset and the type checker fills it in. */
module Ast {
  import opened Options
  import opened Types
  import opened Tokens

  type Label = Option<Type>

  /** A float literal keeps its 64-bit value and whether that value survives a trip through 32 bits. */
  datatype Literal =
    | NilLit
    | BoolLit(b: bool)
    | IntLit(n: int)
    | FloatLit(x: real, single: bool)
    | StringLit(s: string)

  /** The cast kinds the type checker inserts into expressions. */
  datatype CastKind = SqlBoolToBool | BitCast

  datatype Expr = Expr(node: Node, ty: Label)

  datatype Node =
    | Lit(lit: Literal)
    | Ident(name: string)
    | Binary(op: TokenType, left: Expr, right: Expr)
    | Compare(cmp: TokenType, lhs: Expr, rhs: Expr)
    | Unary(prefix: TokenType, input: Expr)
    | Call(fn: Expr, args: seq<Expr>)
    | BuiltinCall(builtin: Expr, actuals: seq<Expr>)
    | Index(obj: Expr, index: Expr)
    | Member(base: Expr, member: Expr)
    | Cast(cast: CastKind, from: Expr)
    | Bad

  /** A node without a label, as the node factory makes it. */
  function Fresh(node: Node): Expr { Expr(node, None) }

  // ---------- The program without its annotations ----------

  /** The tree with every label dropped and every inserted cast removed. */
  function Erase(e: Expr): Expr
    decreases e
  {
    match e.node
    case Lit(_) => Fresh(e.node)
    case Ident(_) => Fresh(e.node)
    case Binary(op, left, right) => Fresh(Binary(op, Erase(left), Erase(right)))
    case Compare(op, left, right) => Fresh(Compare(op, Erase(left), Erase(right)))
    case Unary(op, input) => Fresh(Unary(op, Erase(input)))
    case Call(fn, args) => Fresh(Call(Erase(fn), EraseAll(args)))
    case BuiltinCall(fn, args) => Fresh(BuiltinCall(Erase(fn), EraseAll(args)))
    case Index(obj, index) => Fresh(Index(Erase(obj), Erase(index)))
    case Member(obj, member) => Fresh(Member(Erase(obj), Erase(member)))
    case Cast(_, input) => Erase(input)
    case Bad => Fresh(Bad)
  }

  function EraseAll(es: seq<Expr>): (r: seq<Expr>)
    ensures |r| == |es|
    ensures forall i :: 0 <= i < |es| ==> r[i] == Erase(es[i])
    decreases es
  {
    if es == [] then [] else [Erase(es[0])] + EraseAll(es[1..])
  }
}
