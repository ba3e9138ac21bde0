/** The expression checker as a function of the tree (src/sema/sema_expr.cpp, sema_checking.cpp).
    Class Checker in SemaNodes.dfy performs it on a heap of nodes. */
module Sema {
  import opened Options
  import opened Types
  import opened Tokens
  import opened Ast
  import opened Scopes
  import opened Division
  import opened TypeRules

  datatype ErrorMessage =
    | MismatchedTypesToBinary | IllegalTypesForBinary | NonFunction | MismatchedCallArgs
    | IncorrectCallArgType | UndefinedVariable | InvalidIndexOperation | NonIntegerArrayIndexValue
    | NegativeArrayIndexValue | OutOfBoundsArrayIndexValue | InvalidOperation
    | MemberObjectNotComposite | ExpectedIdentifierForMember | FieldObjectDoesNotExist

  /** Ways the checker stops without an answer: UNREACHABLE, which aborts the process; As<> on a
      node of another class; the exception for implicit casts; and the builtin-call check, which is
      not part of this model. */
  datatype Stop = Unreachable | BadCast | CastException | BuiltinCheck

  // ---------- Literals ----------

  /** IsRepresentable has no case for the 128-bit integer kinds. */
  predicate Impossible(lit: Literal, ty: Type) {
    lit.IntLit? && (ty.Is(Int128) || ty.Is(UInt128))
  }

  /** 2^-126 and (2^24 - 1) * 2^104, the bounds of <cfloat>. */
  const FLT_MIN: real := 1.0 / (0x4000_0000_0000_0000_0000_0000_0000_0000 as real)
  const FLT_MAX: real := 0xFFFF_FF00_0000_0000_0000_0000_0000_0000 as real

  predicate IsIntegerOf(n: int, ty: Type): (b: bool)
    requires ty.IsInteger() && !ty.Is(Int128) && !ty.Is(UInt128)
    ensures b <==> LiteralFits(IntLit(n), ty)
  {
    SmallPowers();
    match ty.kind
    case Int8 => -0x80 <= n <= 0x7F
    case Int16 => -0x8000 <= n <= 0x7FFF
    case Int32 => -0x8000_0000 <= n <= 0x7FFF_FFFF
    case Int64 => true
    case UInt8 => 0 <= n <= 0xFF
    case UInt16 => 0 <= n <= 0xFFFF
    case UInt32 => 0 <= n <= 0xFFFF_FFFF
    case _ => 0 <= n
  }

  predicate IsFloatOf(x: real, single: bool, ty: Type): (b: bool)
    requires ty.IsFloat()
    ensures b <==> LiteralFits(FloatLit(x, single), ty)
  {
    ty.kind == Float32 ==> FLT_MIN <= x <= FLT_MAX && single
  }

  predicate IsRepresentable(lit: Literal, ty: Type): (b: bool)
    requires !Impossible(lit, ty)
    ensures b <==> LiteralFits(lit, ty)
  {
    if ty.IsInteger() then lit.IntLit? && IsIntegerOf(lit.n, ty)
    else if ty.IsFloat() then lit.FloatLit? && IsFloatOf(lit.x, lit.single, ty)
    else
      || (ty.StringType? && lit.StringLit?)
      || (ty.Is(Bool) && lit.BoolLit?)
      || (ty.Pointer? && lit.NilLit?)
  }

  lemma RoomIn32(n: int)
    ensures LiteralFits(IntLit(n), Builtin(Int32)) <==> -0x8000_0000 <= n < 0x8000_0000
  {
    SmallPowers();
  }

  /** The label VisitLiteralExpression gives. */
  function NaturalType(lit: Literal): (t: Type)
    ensures NaturalFor(lit, t)
  {
    match lit
    case NilLit => Builtin(BuiltinKind.Nil)
    case BoolLit(_) => Builtin(Bool)
    case FloatLit(_, _) => if IsRepresentable(lit, Builtin(Float32)) then Builtin(Float32) else Builtin(Float64)
    case IntLit(n) =>
      RoomIn32(n);
      if IsRepresentable(lit, Builtin(Int32)) then Builtin(Int32) else Builtin(Int64)
    case StringLit(_) => StringType
  }

  // ---------- Names ----------

  const NON_PRIMITIVE_NAMES: seq<string> := [
    "AggregationHashTable", "AnalysisStats", "AHTIterator", "AHTVectorIterator",
    "AHTOverflowPartitionIterator", "CompactStorage", "CSVReader", "Date", "ExecutionContext",
    "FilterManager", "HashTableEntry", "JoinHashTable", "MemoryPool", "Sorter", "SorterIterator",
    "TableVectorIterator", "ThreadStateContainer", "Timestamp", "TupleIdList", "VarlenEntry",
    "VarlenHeap", "VectorProjection", "VectorProjectionIterator", "CountAggregate",
    "CountStarAggregate", "AvgAggregate", "IntegerMaxAggregate", "IntegerMinAggregate",
    "IntegerSumAggregate", "RealMaxAggregate", "RealMinAggregate", "RealSumAggregate",
    "DateMinAggregate", "DateMaxAggregate", "StringMinAggregate", "StringMaxAggregate"]

  predicate IsEngineClass(name: string) { name in NON_PRIMITIVE_NAMES }

  /** Context::LookupBuiltinType: every builtin under its TPL name, and the aliases int, float, void. */
  function LookupBuiltinType(name: string): Option<Type> {
    match name
    case "nil" | "void" => Some(Builtin(BuiltinKind.Nil))
    case "bool" => Some(Builtin(Bool))
    case "int8" => Some(Builtin(Int8)) case "int16" => Some(Builtin(Int16))
    case "int32" | "int" => Some(Builtin(Int32)) case "int64" => Some(Builtin(Int64))
    case "uint8" => Some(Builtin(UInt8)) case "uint16" => Some(Builtin(UInt16))
    case "uint32" => Some(Builtin(UInt32)) case "uint64" => Some(Builtin(UInt64))
    case "int128" => Some(Builtin(Int128)) case "uint128" => Some(Builtin(UInt128))
    case "float32" | "float" => Some(Builtin(Float32)) case "float64" => Some(Builtin(Float64))
    case "BooleanVal" => Some(Builtin(BooleanVal)) case "IntegerVal" => Some(Builtin(IntegerVal))
    case "RealVal" => Some(Builtin(RealVal)) case "DecimalVal" => Some(Builtin(DecimalVal))
    case "StringVal" => Some(Builtin(StringVal)) case "DateVal" => Some(Builtin(DateVal))
    case "TimestampVal" => Some(Builtin(TimestampVal))
    case _ => if IsEngineClass(name) then Some(Builtin(NonPrimitive(name))) else None
  }

  /** The other names of builtin types. */
  lemma AliasesFound()
    ensures LookupBuiltinType("int") == LookupBuiltinType("int32") == Some(Builtin(Int32))
    ensures LookupBuiltinType("float") == LookupBuiltinType("float32") == Some(Builtin(Float32))
    ensures LookupBuiltinType("void") == LookupBuiltinType("nil") == Some(Builtin(BuiltinKind.Nil))
  {
  }

  /** A name stands for its innermost declaration, or else for the builtin type of that name. */
  predicate Names(env: Env, name: string, t: Type) {
    Lookup(env, name) == Some(t) || (Lookup(env, name).None? && LookupBuiltinType(name) == Some(t))
  }

  function ResolveName(env: Env, name: string): (r: Option<Type>)
    ensures forall t :: r == Some(t) <==> Names(env, name, t)
  {
    var t := Lookup(env, name);
    if t.Some? then t else LookupBuiltinType(name)
  }

  // ---------- Assignment constraints and operand checks ----------

  datatype Assign = Assignable(e: Expr) | NotAssignable | AssignStops

  /** A pointer to an array of known length passes for the unknown-length array of its elements. */
  predicate Decays(from: Type, to: Type): (b: bool)
    ensures b <==> ArrayDecays(from, to)
  {
    && to.Array? && to.HasUnknownLength()
    && from.Pointer? && from.base.Array? && from.base.HasKnownLength()
    && to.elem == from.base.elem
  }

  /** On success the expression carries the target type and is the same program. */
  function CheckAssignmentConstraints(target: Type, e: Expr): (r: Assign)
    requires e.ty.Some?
    ensures r.Assignable? ==> r.e.ty == Some(target) && Erase(r.e) == Erase(e)
  {
    if e.ty.value == target then Assignable(e)
    else if e.node.Lit? then
      if Impossible(e.node.lit, target) then AssignStops
      else if IsRepresentable(e.node.lit, target) then Assignable(Expr(e.node, Some(target)))
      else NotAssignable
    else if Decays(e.ty.value, target) then Assignable(Expr(Cast(BitCast, e), Some(target)))
    else if target.Is(Bool) && e.ty.value.Is(BooleanVal) then Assignable(Expr(Cast(SqlBoolToBool, e), Some(target)))
    else NotAssignable
  }

  /** The operands after a check and the label for their parent; no label means an error was reported. */
  datatype Operands = Operands(ty: Label, left: Expr, right: Expr, errs: seq<ErrorMessage>) | OperandsStop

  function ToBool(e: Expr): (r: Expr)
    requires e.ty.Some?
    ensures r.ty == Some(if e.ty.value.Is(BooleanVal) then Builtin(Bool) else e.ty.value) && Erase(r) == Erase(e)
  {
    if e.ty.value.Is(BooleanVal) then Expr(Cast(SqlBoolToBool, e), Some(Builtin(Bool))) else e
  }

  /** The check changes its operands by labels and casts only, and reports exactly when it gives no type. */
  predicate KeepsOperands(o: Operands, left: Expr, right: Expr) {
    o.Operands? ==>
      && Erase(o.left) == Erase(left) && Erase(o.right) == Erase(right)
      && (o.ty.None? <==> |o.errs| > 0)
  }

  function CheckLogicalOperands(left: Expr, right: Expr): (o: Operands)
    requires left.ty.Some? && right.ty.Some?
    ensures o.Operands? && KeepsOperands(o, left, right)
  {
    var l, r := ToBool(left), ToBool(right);
    if l.ty.value.Is(Bool) && r.ty.value.Is(Bool) then Operands(Some(Builtin(Bool)), l, r, [])
    else Operands(None, l, r, [MismatchedTypesToBinary])
  }

  function CheckArithmeticOperands(left: Expr, right: Expr): (o: Operands)
    requires left.ty.Some? && right.ty.Some?
    ensures KeepsOperands(o, left, right)
  {
    if !left.ty.value.IsArithmetic() || !right.ty.value.IsArithmetic() then
      Operands(None, left, right, [IllegalTypesForBinary])
    else if left.ty == right.ty then Operands(left.ty, left, right, [])
    else match CheckAssignmentConstraints(left.ty.value, right)
      case AssignStops => OperandsStop
      case Assignable(r) => Operands(left.ty, left, r, [])
      case NotAssignable =>
        match CheckAssignmentConstraints(right.ty.value, left)
        case AssignStops => OperandsStop
        case Assignable(l) => Operands(right.ty, l, right, [])
        case NotAssignable => Operands(None, left, right, [IllegalTypesForBinary])
  }

  /** What comparing two operands of one type gives; pointers only compare for equality. */
  function ComparedType(op: TokenType, t: Type): (r: Option<Type>)
    ensures forall u :: r == Some(u) <==> CompareOne(op, t, u)
  {
    if t.Pointer? && !IsEqualityOp(op) then None
    else Some(Builtin(if t.IsSqlValue() then BooleanVal else Bool))
  }

  function CompareResult(op: TokenType, left: Expr, right: Expr): (o: Operands)
    requires left.ty.Some? && right.ty.Some?
    ensures o.Operands? && o.left == left && o.right == right
    ensures o.ty == ComparedType(op, left.ty.value) && (o.ty.None? <==> |o.errs| > 0)
  {
    var t := ComparedType(op, left.ty.value);
    Operands(t, left, right, if t.None? then [IllegalTypesForBinary] else [])
  }

  function CheckComparisonOperands(op: TokenType, left: Expr, right: Expr): (o: Operands)
    requires left.ty.Some? && right.ty.Some?
    ensures KeepsOperands(o, left, right)
  {
    match CheckAssignmentConstraints(right.ty.value, left)
    case AssignStops => OperandsStop
    case Assignable(l) => CompareResult(op, l, right)
    case NotAssignable =>
      match CheckAssignmentConstraints(left.ty.value, right)
      case AssignStops => OperandsStop
      case Assignable(r) => CompareResult(op, left, r)
      case NotAssignable => Operands(None, left, right, [IllegalTypesForBinary])
  }

  // ---------- The visitor ----------

  /** The tree a visit leaves and the errors it reports, or the way it stops. */
  datatype Result = Checked(e: Expr, errs: seq<ErrorMessage>) | Stopped(why: Stop)
  datatype ArgsResult = ArgsVisited(args: seq<Expr>, errs: seq<ErrorMessage>, typed: bool) | ArgsStopped(why: Stop)

  predicate IsLogicalOp(op: TokenType) { op.AND? || op.OR? }

  predicate IsArithmeticOp(op: TokenType) {
    op.AMPERSAND? || op.BIT_XOR? || op.BIT_OR? || op.BIT_SHL? || op.BIT_SHR?
    || op.PLUS? || op.MINUS? || op.STAR? || op.SLASH? || op.PERCENT?
  }

  function Visit(env: Env, e: Expr): Result
    decreases e
  {
    match e.node
    case Lit(lit) => Checked(Expr(e.node, Some(NaturalType(lit))), [])
    case Ident(name) =>
      var t := ResolveName(env, name);
      if t.Some? then Checked(Expr(e.node, t), []) else Checked(e, [UndefinedVariable])
    case Binary(op, left, right) =>
      var l := Visit(env, left);
      if l.Stopped? then l else
      var r := Visit(env, right);
      if r.Stopped? then r else VisitBinary(op, l.e, r.e, e.ty, l.errs + r.errs)
    case Compare(op, left, right) =>
      var l := Visit(env, left);
      if l.Stopped? then l else
      var r := Visit(env, right);
      if r.Stopped? then r else VisitCompare(op, l.e, r.e, e.ty, l.errs + r.errs)
    case Unary(op, input) =>
      var i := Visit(env, input);
      if i.Stopped? then i else VisitUnary(op, i.e, e.ty, i.errs)
    case Call(fn, args) =>
      var f := Visit(env, fn);
      if f.Stopped? then f else
      if f.e.ty.None? then Checked(Expr(Call(f.e, args), e.ty), f.errs) else
      if !f.e.ty.value.Function? then Checked(Expr(Call(f.e, args), e.ty), f.errs + [NonFunction]) else
      if |args| != |f.e.ty.value.params| then
        if f.e.node.Ident? then Checked(Expr(Call(f.e, args), e.ty), f.errs + [MismatchedCallArgs])
        else Stopped(BadCast)
      else
      var a := VisitArgs(env, args);
      if a.ArgsStopped? then Stopped(a.why) else
      if !a.typed then Checked(Expr(Call(f.e, a.args), e.ty), f.errs + a.errs) else
      VisitCall(f.e, a.args, e.ty, f.errs + a.errs)
    case BuiltinCall(_, _) => Stopped(BuiltinCheck)
    case Index(obj, index) =>
      var o := Visit(env, obj);
      if o.Stopped? then o else
      var i := Visit(env, index);
      if i.Stopped? then i else VisitIndex(o.e, i.e, e.ty, o.errs + i.errs)
    case Member(obj, member) =>
      var o := Visit(env, obj);
      if o.Stopped? then o else VisitMember(o.e, member, e.ty, o.errs)
    case Cast(_, _) => Stopped(CastException)
    case Bad => Checked(e, [])
  }

  // Each of the following finishes one kind of node once its children are visited: it takes the
  // visited children, the label the node had, and the errors reported so far.

  function VisitBinary(op: TokenType, left: Expr, right: Expr, ty: Label, errs: seq<ErrorMessage>): Result {
    if left.ty.None? || right.ty.None? || (!IsLogicalOp(op) && !IsArithmeticOp(op)) then
      Checked(Expr(Binary(op, left, right), ty), errs)
    else
      var o := if IsLogicalOp(op) then CheckLogicalOperands(left, right) else CheckArithmeticOperands(left, right);
      if o.OperandsStop? then Stopped(Unreachable)
      else Checked(Expr(Binary(op, o.left, o.right), o.ty), errs + o.errs)
  }

  function VisitCompare(op: TokenType, left: Expr, right: Expr, ty: Label, errs: seq<ErrorMessage>): Result {
    if left.ty.None? || right.ty.None? || !IsCompareOp(op) then
      Checked(Expr(Compare(op, left, right), ty), errs)
    else
      var o := CheckComparisonOperands(op, left, right);
      if o.OperandsStop? then Stopped(Unreachable)
      else Checked(Expr(Compare(op, o.left, o.right), o.ty), errs + o.errs)
  }

  /** The type of a unary expression, when the operator accepts its input. */
  function UnaryType(op: TokenType, t: Type): (r: Option<Type>)
    ensures forall u :: r == Some(u) <==> UnaryRule(op, t, u)
  {
    match op
    case BANG => if t.Is(Bool) then Some(t) else None
    case BIT_NOT | MINUS => if t.IsArithmetic() then Some(t) else None
    case STAR => if t.Pointer? then Some(t.base) else None
    case AMPERSAND => if t.Function? then None else Some(Pointer(t))
    case _ => None
  }

  predicate IsCheckedUnaryOp(op: TokenType) {
    op.BANG? || op.BIT_NOT? || op.MINUS? || op.STAR? || op.AMPERSAND?
  }

  function VisitUnary(op: TokenType, input: Expr, ty: Label, errs: seq<ErrorMessage>): Result {
    if input.ty.None? then Checked(Expr(Unary(op, input), ty), errs)
    else if !IsCheckedUnaryOp(op) then Stopped(Unreachable)
    else
      var t := UnaryType(op, input.ty.value);
      if t.Some? then Checked(Expr(Unary(op, input), t), errs)
      else Checked(Expr(Unary(op, input), ty), errs + [InvalidOperation])
  }

  function VisitIndex(obj: Expr, index: Expr, ty: Label, errs: seq<ErrorMessage>): Result {
    if obj.ty.None? || index.ty.None? then Checked(Expr(Index(obj, index), ty), errs)
    else
      var t := obj.ty.value;
      if !t.Array? && !t.Map? then Checked(Expr(Index(obj, index), ty), errs + [InvalidIndexOperation])
      else if !index.ty.value.IsInteger() then
        Checked(Expr(Index(obj, index), ty), errs + [NonIntegerArrayIndexValue])
      else if t.Map? then Checked(Expr(Index(obj, index), Some(t.val)), errs)
      else if index.node.Lit? && index.node.lit.IntLit? && index.node.lit.n < 0 then
        Checked(Expr(Index(obj, index), ty), errs + [NegativeArrayIndexValue])
      else if index.node.Lit? && index.node.lit.IntLit? && t.HasKnownLength() && index.node.lit.n >= t.length then
        Checked(Expr(Index(obj, index), ty), errs + [OutOfBoundsArrayIndexValue])
      else Checked(Expr(Index(obj, index), Some(t.elem)), errs)
  }

  function VisitMember(obj: Expr, member: Expr, ty: Label, errs: seq<ErrorMessage>): Result {
    if obj.ty.None? then Checked(Expr(Member(obj, member), ty), errs)
    else
      var t := if obj.ty.value.Pointer? then obj.ty.value.base else obj.ty.value;
      if !t.Struct? then Checked(Expr(Member(obj, member), ty), errs + [MemberObjectNotComposite])
      else if !member.node.Ident? then Checked(Expr(Member(obj, member), ty), errs + [ExpectedIdentifierForMember])
      else
        var m := LookupField(t.fields, member.node.name);
        if m.None? then Checked(Expr(Member(obj, member), ty), errs + [FieldObjectDoesNotExist])
        else Checked(Expr(Member(obj, member), m), errs)
  }

  function VisitCall(fn: Expr, args: seq<Expr>, ty: Label, errs: seq<ErrorMessage>): Result
    requires fn.ty.Some? && fn.ty.value.Function? && |args| == |fn.ty.value.params|
    requires forall i :: 0 <= i < |args| ==> args[i].ty.Some?
  {
    var c := CheckArgs(fn, fn.ty.value.params, args);
    if c.ArgsStopped? then Stopped(c.why)
    else Checked(Expr(Call(fn, c.args), if c.typed then Some(fn.ty.value.ret) else ty), errs + c.errs)
  }

  /** Resolves the arguments from the left and gives up at the first one without a type. */
  function VisitArgs(env: Env, args: seq<Expr>): (r: ArgsResult)
    ensures r.ArgsVisited? ==> |r.args| == |args|
    ensures r.ArgsVisited? && r.typed ==> forall i :: 0 <= i < |args| ==> r.args[i].ty.Some?
    decreases args
  {
    if args == [] then ArgsVisited([], [], true) else
    var a := Visit(env, args[0]);
    if a.Stopped? then ArgsStopped(a.why) else
    if a.e.ty.None? then ArgsVisited([a.e] + args[1..], a.errs, false) else
    var rest := VisitArgs(env, args[1..]);
    if rest.ArgsStopped? then rest
    else ArgsVisited([a.e] + rest.args, a.errs + rest.errs, rest.typed)
  }

  /** Checks each argument against its parameter; typed says that none failed. */
  function CheckArgs(fn: Expr, params: seq<Field>, args: seq<Expr>): (r: ArgsResult)
    requires |params| == |args| && forall i :: 0 <= i < |args| ==> args[i].ty.Some?
    ensures r.ArgsVisited? ==> |r.args| == |args| && (|r.errs| == 0 <==> r.typed)
    ensures r.ArgsVisited? ==> forall i :: 0 <= i < |args| ==> Erase(r.args[i]) == Erase(args[i])
  {
    if args == [] then ArgsVisited([], [], true) else
    match CheckAssignmentConstraints(params[0].ty, args[0])
    case AssignStops => ArgsStopped(Unreachable)
    case Assignable(a) =>
      var rest := CheckArgs(fn, params[1..], args[1..]);
      if rest.ArgsStopped? then rest else ArgsVisited([a] + rest.args, rest.errs, rest.typed)
    case NotAssignable =>
      if !fn.node.Ident? then ArgsStopped(BadCast) else
      var rest := CheckArgs(fn, params[1..], args[1..]);
      if rest.ArgsStopped? then rest
      else ArgsVisited([args[0]] + rest.args, [IncorrectCallArgType] + rest.errs, false)
  }
}
