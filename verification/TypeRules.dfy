/** The typing rules for single nodes, stated by kinds of types rather than by the checker's cases. */
module TypeRules {
  import opened Options
  import opened Types
  import opened Tokens
  import opened Ast
  import opened Division

  /** An integer type of so many bits. */
  datatype Width = Width(bits: nat, signed: bool)

  function WidthOf(t: Type): Option<Width> {
    if !t.Builtin? then None
    else match t.kind
      case Int8 => Some(Width(8, true)) case UInt8 => Some(Width(8, false))
      case Int16 => Some(Width(16, true)) case UInt16 => Some(Width(16, false))
      case Int32 => Some(Width(32, true)) case UInt32 => Some(Width(32, false))
      case Int64 => Some(Width(64, true)) case UInt64 => Some(Width(64, false))
      case _ => None
  }

  /** A literal is a 64-bit integer, so 64 bits have room for every one above. */
  predicate HasRoom(n: int, w: Width)
    requires w.bits > 0
  {
    && (if w.signed then w.bits == 64 || -(Pow2(w.bits - 1) as int) <= n else 0 <= n)
    && (w.bits == 64 || n < Pow2(if w.signed then w.bits - 1 else w.bits))
  }

  predicate IsInt64(n: int) { -0x8000_0000_0000_0000 <= n <= 0x7FFF_FFFF_FFFF_FFFF }

  /** The literals that are values of a type. */
  predicate LiteralFits(lit: Literal, t: Type) {
    match lit
    case NilLit => t.Pointer?
    case BoolLit(_) => t == Builtin(Bool)
    case StringLit(_) => t == StringType
    case IntLit(n) => WidthOf(t).Some? && HasRoom(n, WidthOf(t).value)
    case FloatLit(x, single) =>
      || t == Builtin(Float64)
      || (t == Builtin(Float32) && single && IsNormalFloat(x))
  }

  /** Between 2^-126 and (2^24 - 1) * 2^104. */
  predicate IsNormalFloat(x: real) {
    && 1.0 <= x * (0x4000_0000_0000_0000_0000_0000_0000_0000 as real)
    && x <= (0xFF_FFFF * 0x100_0000_0000_0000_0000_0000_0000) as real
  }

  /** The type a literal has on its own: the 32-bit one if it fits. */
  predicate NaturalFor(lit: Literal, t: Type) {
    match lit
    case NilLit => t == Builtin(BuiltinKind.Nil)
    case BoolLit(_) => t == Builtin(Bool)
    case StringLit(_) => t == StringType
    case IntLit(n) => t == Builtin(if -0x8000_0000 <= n < 0x8000_0000 then Int32 else Int64)
    case FloatLit(_, _) => t == Builtin(if LiteralFits(lit, Builtin(Float32)) then Float32 else Float64)
  }

  /** The operator takes a value of type t to one of type r. */
  predicate UnaryRule(op: TokenType, t: Type, r: Type) {
    match op
    case BANG => t == Builtin(Bool) && r == Builtin(Bool)
    case BIT_NOT => t.IsArithmetic() && r == t
    case MINUS => t.IsArithmetic() && r == t
    case STAR => t == Pointer(r)
    case AMPERSAND => !t.Function? && r == Pointer(t)
    case _ => false
  }

  predicate IsSqlKind(k: BuiltinKind) {
    match k
    case BooleanVal | IntegerVal | RealVal | DecimalVal | StringVal | DateVal | TimestampVal => true
    case _ => false
  }

  /** Comparing two values of type t gives one of type r; pointers are only equal or not. */
  predicate CompareOne(op: TokenType, t: Type, r: Type) {
    match t
    case Builtin(k) => r == Builtin(if IsSqlKind(k) then BooleanVal else Bool)
    case Pointer(_) => (op.EQUAL_EQUAL? || op.BANG_EQUAL?) && r == Builtin(Bool)
    case _ => r == Builtin(Bool)
  }

  /** A pointer to an array of known length may be passed for an array of unknown length. */
  predicate ArrayDecays(from: Type, to: Type) {
    to.Array? && from.Pointer? && from.base.Array?
    && to == Array(0, from.base.elem) && from.base.length > 0
  }

  // ---------- Kinds and operators ----------

  /** What each kind of number is, by width. */
  lemma NumbersExact(t: Type)
    ensures t.IsInteger() <==> WidthOf(t).Some? || t == Builtin(Int128) || t == Builtin(UInt128)
    ensures t.IsFloat() <==> t == Builtin(Float32) || t == Builtin(Float64)
    ensures t.IsArithmetic() <==>
              t.IsInteger() || t.IsFloat() || t == Builtin(IntegerVal) || t == Builtin(RealVal) || t == Builtin(DecimalVal)
    ensures t.IsSqlValue() <==> t.Builtin? && IsSqlKind(t.kind)
  {
  }

  /** The operators by precedence: equality binds at 8, comparison at 8 and 9. */
  lemma ComparesByPrecedence(op: TokenType)
    ensures IsEqualityOp(op) <==> Precedence(op) == 8
    ensures IsCompareOp(op) <==> Precedence(op) == 8 || Precedence(op) == 9
  {
  }

  /** For the literals there are, having room is lying in the range of the type. */
  lemma RoomIsRange(n: int, w: Width)
    requires IsInt64(n) && 0 < w.bits <= 64
    ensures HasRoom(n, w)
            <==> if w.signed then -(Pow2(w.bits - 1) as int) <= n < Pow2(w.bits - 1) else 0 <= n < Pow2(w.bits)
  {
    SmallPowers();
    Pow2Add(32, 32);
    assert Pow2(64) == 2 * Pow2(63);
  }
}
