/** What the expression checker guarantees: the trees it types need no further coercion, it changes
    nothing but labels and casts, and it accepts exactly the typable trees. */
module SemaTheorems {
  import opened Options
  import opened Types
  import opened Tokens
  import opened Ast
  import opened Scopes
  import opened TypeRules
  import opened Sema

  // ---------- A strict checker: no coercions, every label recomputed from the children ----------

  predicate Strict(env: Env, e: Expr)
    decreases e
  {
    e.ty.Some? &&
    match e.node
    case Lit(lit) =>
      NaturalFor(lit, e.ty.value) || LiteralFits(lit, e.ty.value)
    case Ident(name) => Names(env, name, e.ty.value)
    case Binary(op, left, right) =>
      && Strict(env, left) && Strict(env, right) && left.ty == e.ty && right.ty == e.ty
      && (if IsLogicalOp(op) then e.ty.value.Is(Bool) else IsArithmeticOp(op) && e.ty.value.IsArithmetic())
    case Compare(op, left, right) =>
      && Strict(env, left) && Strict(env, right) && left.ty == right.ty && IsCompareOp(op)
      && CompareOne(op, left.ty.value, e.ty.value)
    case Unary(op, input) =>
      Strict(env, input) && UnaryRule(op, input.ty.value, e.ty.value)
    case Call(fn, args) =>
      && Strict(env, fn) && fn.ty.value.Function? && |args| == |fn.ty.value.params|
      && (forall i :: 0 <= i < |args| ==> Strict(env, args[i]) && args[i].ty == Some(fn.ty.value.params[i].ty))
      && e.ty.value == fn.ty.value.ret
    case BuiltinCall(_, _) => false
    case Index(obj, index) =>
      && Strict(env, obj) && Strict(env, index) && index.ty.value.IsInteger()
      && IndexRule(obj.ty.value, index, e.ty.value)
    case Member(obj, member) => Strict(env, obj) && MemberRule(obj.ty.value, member, e.ty.value)
    case Cast(SqlBoolToBool, input) =>
      Strict(env, input) && input.ty.value.Is(BooleanVal) && e.ty.value.Is(Bool)
    case Cast(BitCast, input) => Strict(env, input) && ArrayDecays(input.ty.value, e.ty.value)
    case Bad => false
  }

  predicate IndexRule(obj: Type, index: Expr, to: Type) {
    || (obj.Map? && to == obj.val)
    || (obj.Array? && to == obj.elem
        && (index.node.Lit? && index.node.lit.IntLit? ==>
              0 <= index.node.lit.n && (obj.HasKnownLength() ==> index.node.lit.n < obj.length)))
  }

  predicate MemberRule(obj: Type, member: Expr, to: Type) {
    var t := if obj.Pointer? then obj.base else obj;
    t.Struct? && member.node.Ident? && LookupField(t.fields, member.node.name) == Some(to)
  }

  // ---------- Assignment constraints ----------

  /** The coercions the language allows, as a relation on an expression, its type and a target. */
  predicate Passes(e: Expr, from: Type, to: Type) {
    || from == to
    || (e.node.Lit? && LiteralFits(e.node.lit, to))
    || (!e.node.Lit? && ArrayDecays(from, to))
    || (!e.node.Lit? && from.Is(BooleanVal) && to.Is(Bool))
  }

  lemma PassesUnchanged(e: Expr, t: Type)
    ensures Passes(e, t, t)
  {
  }

  /** The check succeeds exactly on Passes, and then its expression is strict at the target type. */
  lemma {:induction false} AssignmentCorrect(env: Env, target: Type, e: Expr)
    requires e.ty.Some? && Strict(env, e)
    ensures var r := CheckAssignmentConstraints(target, e);
            && (r.Assignable? <==> Passes(e, e.ty.value, target))
            && (r.Assignable? ==> Strict(env, r.e) && r.e.ty == Some(target))
  {
  }

  /** The comment above the check lists nil for functions and maps, and primitive booleans for SQL
      booleans; the code allows neither. */
  lemma DocumentedButRejected(p: Type, r: Type, k: Type, v: Type, x: string)
    ensures CheckAssignmentConstraints(Function([Field(x, p)], r), Expr(Lit(NilLit), Some(Builtin(BuiltinKind.Nil)))).NotAssignable?
    ensures CheckAssignmentConstraints(Map(k, v), Expr(Lit(NilLit), Some(Builtin(BuiltinKind.Nil)))).NotAssignable?
    ensures CheckAssignmentConstraints(Builtin(BooleanVal), Expr(Ident(x), Some(Builtin(Bool)))).NotAssignable?
    ensures CheckAssignmentConstraints(Builtin(BooleanVal), Expr(Lit(BoolLit(true)), Some(Builtin(Bool)))).NotAssignable?
  {
  }

  // ---------- The checker changes labels and casts only ----------

  lemma {:induction false} VisitErases(env: Env, e: Expr)
    requires Visit(env, e).Checked?
    ensures Erase(Visit(env, e).e) == Erase(e)
    decreases e
  {
    hide ResolveName, NaturalType;
    match e.node
    case Lit(_) =>
    case Ident(_) =>
    case Binary(_, left, right) => VisitErases(env, left); VisitErases(env, right);
    case Compare(_, left, right) => VisitErases(env, left); VisitErases(env, right);
    case Unary(_, input) => VisitErases(env, input);
    case Call(fn, args) =>
      VisitErases(env, fn);
      var f := Visit(env, fn).e;
      if f.ty.Some? && f.ty.value.Function? && |args| == |f.ty.value.params| {
        ArgsErase(env, args);
        var a := VisitArgs(env, args);
        if a.typed {
          assert EraseAll(CheckArgs(f, f.ty.value.params, a.args).args) == EraseAll(a.args);
        }
      }
    case BuiltinCall(_, _) =>
    case Index(obj, index) => VisitErases(env, obj); VisitErases(env, index);
    case Member(obj, _) => VisitErases(env, obj);
    case Cast(_, _) =>
    case Bad =>
  }

  lemma {:induction false} ArgsErase(env: Env, args: seq<Expr>)
    requires VisitArgs(env, args).ArgsVisited?
    ensures EraseAll(VisitArgs(env, args).args) == EraseAll(args)
    decreases args
  {
    if args != [] {
      VisitErases(env, args[0]);
      if Visit(env, args[0]).e.ty.Some? {
        ArgsErase(env, args[1..]);
      }
    }
  }

  // ---------- Elaboration soundness ----------

  /** Parsed trees: no labels, no casts, and no node the parser reports as an error. Builtin calls are
      excluded because their checks are not modelled. */
  predicate Source(e: Expr)
    decreases e
  {
    e.ty.None? &&
    match e.node
    case Lit(_) => true
    case Ident(_) => true
    case Binary(op, left, right) => (IsLogicalOp(op) || IsArithmeticOp(op)) && Source(left) && Source(right)
    case Compare(op, left, right) => IsCompareOp(op) && Source(left) && Source(right)
    case Unary(_, input) => Source(input)
    case Call(fn, args) => Source(fn) && forall i :: 0 <= i < |args| ==> Source(args[i])
    case BuiltinCall(_, _) => false
    case Index(obj, index) => Source(obj) && Source(index)
    case Member(obj, _) => Source(obj)
    case Cast(_, _) => false
    case Bad => false
  }

  /** The visit leaves a label exactly when it reports nothing, and then its tree is strict. */
  predicate Elaborated(env: Env, v: Result) {
    v.Checked? ==> (|v.errs| == 0 <==> v.e.ty.Some?) && (v.e.ty.Some? ==> Strict(env, v.e))
  }

  lemma {:induction false} LogicalElaborated(env: Env, op: TokenType, l: Result, r: Result)
    requires IsLogicalOp(op) && l.Checked? && r.Checked? && Elaborated(env, l) && Elaborated(env, r)
    ensures Elaborated(env, VisitBinary(op, l.e, r.e, None, l.errs + r.errs))
  {
    hide CheckArithmeticOperands, ToBool, IsArithmeticOp, Erase;
    if l.e.ty.Some? && r.e.ty.Some? {
      ToBoolStrict(env, l.e);
      ToBoolStrict(env, r.e);
    }
  }

  lemma {:induction false} ToBoolStrict(env: Env, e: Expr)
    requires e.ty.Some? && Strict(env, e)
    ensures Strict(env, ToBool(e))
  {
  }

  lemma {:induction false} ArithmeticElaborated(env: Env, op: TokenType, l: Result, r: Result)
    requires IsArithmeticOp(op) && l.Checked? && r.Checked? && Elaborated(env, l) && Elaborated(env, r)
    ensures Elaborated(env, VisitBinary(op, l.e, r.e, None, l.errs + r.errs))
  {
    hide CheckLogicalOperands, CheckArithmeticOperands, CheckAssignmentConstraints, Passes, Type.IsArithmetic, Erase, Strict;
    LogicalIsNotArithmetic(op);
    if l.e.ty.Some? && r.e.ty.Some? {
      AssignmentCorrect(env, l.e.ty.value, r.e);
      AssignmentCorrect(env, r.e.ty.value, l.e);
      ArithmeticStrict(env, op, l.e, r.e);
    }
  }

  lemma {:induction false} ArithmeticStrict(env: Env, op: TokenType, l: Expr, r: Expr)
    requires IsArithmeticOp(op) && l.ty.Some? && r.ty.Some? && Strict(env, l) && Strict(env, r)
    requires var a := CheckAssignmentConstraints(l.ty.value, r); a.Assignable? ==> Strict(env, a.e) && a.e.ty == l.ty
    requires var a := CheckAssignmentConstraints(r.ty.value, l); a.Assignable? ==> Strict(env, a.e) && a.e.ty == r.ty
    ensures var o := CheckArithmeticOperands(l, r);
            o.Operands? && o.ty.Some? ==> Strict(env, Expr(Binary(op, o.left, o.right), o.ty))
  {
    hide CheckAssignmentConstraints, Type.IsArithmetic, Erase;
    LogicalIsNotArithmetic(op);
  }

  lemma LogicalIsNotArithmetic(op: TokenType)
    requires IsArithmeticOp(op)
    ensures !IsLogicalOp(op)
  {
  }

  lemma {:induction false} CompareElaborated(env: Env, op: TokenType, l: Result, r: Result)
    requires IsCompareOp(op) && l.Checked? && r.Checked?
    requires Elaborated(env, l) && Elaborated(env, r)
    ensures Elaborated(env, VisitCompare(op, l.e, r.e, None, l.errs + r.errs))
  {
    if l.e.ty.Some? && r.e.ty.Some? {
      AssignmentCorrect(env, l.e.ty.value, r.e);
      AssignmentCorrect(env, r.e.ty.value, l.e);
    }
  }

  lemma {:induction false} CallElaborated(env: Env, fn: Expr, args: seq<Expr>, errs: seq<ErrorMessage>)
    requires |errs| == 0 && fn.ty.Some? && fn.ty.value.Function? && |args| == |fn.ty.value.params| && Strict(env, fn)
    requires forall i :: 0 <= i < |args| ==> args[i].ty.Some? && Strict(env, args[i])
    ensures Elaborated(env, VisitCall(fn, args, None, errs))
  {
    CheckArgsCorrect(env, fn, fn.ty.value.params, args);
  }

  /** All arguments pass exactly when none is reported, and then each is strict at its parameter's type. */
  lemma {:induction false} CheckArgsCorrect(env: Env, fn: Expr, params: seq<Field>, args: seq<Expr>)
    requires |params| == |args| && forall i :: 0 <= i < |args| ==> args[i].ty.Some? && Strict(env, args[i])
    ensures var c := CheckArgs(fn, params, args);
            && (c.ArgsVisited? && c.typed <==> AllPass(params, args))
            && (c.ArgsVisited? && c.typed ==>
                  forall i :: 0 <= i < |args| ==> Strict(env, c.args[i]) && c.args[i].ty == Some(params[i].ty))
    decreases args
  {
    if args != [] {
      AssignmentCorrect(env, params[0].ty, args[0]);
      CheckArgsCorrect(env, fn, params[1..], args[1..]);
    }
  }

  predicate AllPass(params: seq<Field>, args: seq<Expr>)
    requires |params| == |args| && forall i :: 0 <= i < |args| ==> args[i].ty.Some?
  {
    args == [] || (Passes(args[0], args[0].ty.value, params[0].ty) && AllPass(params[1..], args[1..]))
  }

  lemma {:induction false} LeafElaborated(env: Env, e: Expr)
    requires Source(e) && (e.node.Lit? || e.node.Ident?)
    ensures Elaborated(env, Visit(env, e))
  {
  }

  lemma {:induction false} UnaryElaborated(env: Env, op: TokenType, i: Result)
    requires i.Checked? && Elaborated(env, i)
    ensures Elaborated(env, VisitUnary(op, i.e, None, i.errs))
  {
  }

  lemma {:induction false} IndexElaborated(env: Env, o: Result, i: Result)
    requires o.Checked? && i.Checked? && Elaborated(env, o) && Elaborated(env, i)
    ensures Elaborated(env, VisitIndex(o.e, i.e, None, o.errs + i.errs))
  {
    hide Type.IsInteger;
  }

  lemma {:induction false} MemberElaborated(env: Env, o: Result, member: Expr)
    requires o.Checked? && Elaborated(env, o)
    ensures Elaborated(env, VisitMember(o.e, member, None, o.errs))
  {
    hide LookupField;
  }

  /** Elaboration soundness: a tree the checker labels without reporting an error passes the strict
      checker. */
  lemma {:induction false} Elaboration(env: Env, e: Expr)
    requires Source(e)
    ensures Elaborated(env, Visit(env, e))
    decreases e
  {
    hide VisitBinary, VisitCompare, VisitUnary, VisitCall, VisitIndex, VisitMember, ResolveName, NaturalType, Strict;
    match e.node
    case Lit(_) => LeafElaborated(env, e);
    case Ident(_) => LeafElaborated(env, e);
    case Binary(op, left, right) =>
      Elaboration(env, left);
      Elaboration(env, right);
      var l, r := Visit(env, left), Visit(env, right);
      if l.Checked? && r.Checked? {
        if IsLogicalOp(op) { LogicalElaborated(env, op, l, r); } else { ArithmeticElaborated(env, op, l, r); }
      }
    case Compare(op, left, right) =>
      Elaboration(env, left);
      Elaboration(env, right);
      var l, r := Visit(env, left), Visit(env, right);
      if l.Checked? && r.Checked? { CompareElaborated(env, op, l, r); }
    case Unary(op, input) =>
      Elaboration(env, input);
      var i := Visit(env, input);
      if i.Checked? { UnaryElaborated(env, op, i); }
    case Call(fn, args) =>
      Elaboration(env, fn);
      ArgsElaboration(env, args);
      var f, a := Visit(env, fn), VisitArgs(env, args);
      if f.Checked? && f.e.ty.Some? && f.e.ty.value.Function? && |args| == |f.e.ty.value.params|
         && a.ArgsVisited? && a.typed {
        CallElaborated(env, f.e, a.args, f.errs + a.errs);
      }
    case Index(obj, index) =>
      Elaboration(env, obj);
      Elaboration(env, index);
      var o, i := Visit(env, obj), Visit(env, index);
      if o.Checked? && i.Checked? { IndexElaborated(env, o, i); }
    case Member(obj, member) =>
      Elaboration(env, obj);
      var o := Visit(env, obj);
      if o.Checked? { MemberElaborated(env, o, member); }
  }

  predicate ArgsElaborated(env: Env, v: ArgsResult) {
    v.ArgsVisited? ==>
      && (|v.errs| == 0 <==> v.typed)
      && (v.typed ==> forall i :: 0 <= i < |v.args| ==> Strict(env, v.args[i]))
  }

  lemma {:induction false} ArgsElaboration(env: Env, args: seq<Expr>)
    requires forall i :: 0 <= i < |args| ==> Source(args[i])
    ensures ArgsElaborated(env, VisitArgs(env, args))
    decreases args
  {
    if args != [] {
      Elaboration(env, args[0]);
      ArgsElaboration(env, args[1..]);
    }
  }

  // ---------- Exact acceptance ----------

  /** The typing rules of the language, read off without an order of checks: some coercion of one
      operand to the other's type, of each argument to its parameter, and none anywhere else. */
  ghost predicate HasType(env: Env, e: Expr, t: Type)
    decreases e, 0
  {
    match e.node
    case Lit(lit) => NaturalFor(lit, t)
    case Ident(name) => Names(env, name, t)
    case Binary(op, left, right) =>
      exists a, b :: HasType(env, left, a) && HasType(env, right, b) && BinaryRule(op, left, a, right, b, t)
    case Compare(op, left, right) =>
      exists a, b :: HasType(env, left, a) && HasType(env, right, b) && CompareRule(op, left, a, right, b, t)
    case Unary(op, input) =>
      exists a :: HasType(env, input, a) && UnaryRule(op, a, t)
    case Call(fn, args) =>
      exists f ::
        && HasType(env, fn, f) && f.Function? && f.ret == t && |args| == |f.params|
        && forall i :: 0 <= i < |args| ==> Fits(env, args[i], f.params[i].ty)
    case BuiltinCall(_, _) => false
    case Index(obj, index) =>
      exists a, b :: HasType(env, obj, a) && HasType(env, index, b) && b.IsInteger() && IndexRule(a, index, t)
    case Member(obj, member) => exists a :: HasType(env, obj, a) && MemberRule(a, member, t)
    case Cast(_, _) => false
    case Bad => false
  }

  predicate BinaryRule(op: TokenType, left: Expr, a: Type, right: Expr, b: Type, t: Type) {
    if IsLogicalOp(op) then t.Is(Bool) && IsAnyBool(a) && IsAnyBool(b)
    else IsArithmeticOp(op) && a.IsArithmetic() && b.IsArithmetic() && Meet(left, a, right, b, t)
  }

  predicate CompareRule(op: TokenType, left: Expr, a: Type, right: Expr, b: Type, t: Type) {
    (Passes(right, b, a) && CompareOne(op, a, t)) || (Passes(left, a, b) && CompareOne(op, b, t))
  }

  /** Some type of the argument passes for the parameter's. */
  ghost predicate Fits(env: Env, arg: Expr, param: Type)
    decreases arg, 1
  {
    exists a :: HasType(env, arg, a) && Passes(arg, a, param)
  }

  predicate IsAnyBool(t: Type) { t.Is(Bool) || t.Is(BooleanVal) }

  /** One operand already has type c and the other passes for it. */
  predicate Meet(left: Expr, a: Type, right: Expr, b: Type, c: Type) {
    (c == a && Passes(right, b, a)) || (c == b && Passes(left, a, b))
  }

  predicate Labels(v: Result, t: Type) { v.Checked? && v.e.ty == Some(t) }

  /** The labels the checker can leave on a tree are exactly its types. */
  ghost predicate Exact(env: Env, e: Expr) {
    forall t :: HasType(env, e, t) <==> Labels(Visit(env, e), t)
  }

  /** A visited expression v of source e with its label: literals keep their node and natural type. */
  predicate Visited(e: Expr, v: Expr) {
    && (e.node.Lit? || v.node.Lit? ==> v.node == e.node)
    && (e.node.Lit? && v.ty.Some? ==> v.ty.value == NaturalType(e.node.lit))
  }

  lemma {:induction false} VisitVisits(env: Env, e: Expr)
    requires Visit(env, e).Checked?
    ensures Visited(e, Visit(env, e).e)
  {
    hide ResolveName, NaturalType;
  }

  lemma {:induction false} VerdictIsPasses(target: Type, e: Expr, v: Expr)
    requires v.ty.Some? && Visited(e, v)
    ensures CheckAssignmentConstraints(target, v).Assignable? <==> Passes(e, v.ty.value, target)
  {
  }

  /** Two operands never pass for each other's types unless the types agree. */
  lemma {:induction false} MeetIsUnique(e: Expr, v: Expr, f: Expr, w: Expr)
    requires v.ty.Some? && w.ty.Some? && Visited(e, v) && Visited(f, w)
    requires Passes(e, v.ty.value, w.ty.value) && Passes(f, w.ty.value, v.ty.value)
    ensures v.ty == w.ty
  {
  }

  lemma {:induction false} ArithmeticVerdict(op: TokenType, e: Expr, l: Expr, f: Expr, r: Expr, errs: seq<ErrorMessage>, t: Type)
    requires IsArithmeticOp(op) && l.ty.Some? && r.ty.Some? && Visited(e, l) && Visited(f, r)
    ensures Labels(VisitBinary(op, l, r, None, errs), t)
            <==> l.ty.value.IsArithmetic() && r.ty.value.IsArithmetic() && Meet(e, l.ty.value, f, r.ty.value, t)
  {
    hide CheckAssignmentConstraints, Meet, Visited, Type.IsArithmetic, CheckLogicalOperands;
    if l.ty.value.IsArithmetic() && r.ty.value.IsArithmetic() { ArithmeticMeets(e, l, f, r, t); }
  }

  lemma {:induction false} ArithmeticMeets(e: Expr, l: Expr, f: Expr, r: Expr, t: Type)
    requires l.ty.Some? && r.ty.Some? && Visited(e, l) && Visited(f, r)
    requires l.ty.value.IsArithmetic() && r.ty.value.IsArithmetic()
    ensures var o := CheckArithmeticOperands(l, r);
            (o.Operands? && o.ty == Some(t)) <==> Meet(e, l.ty.value, f, r.ty.value, t)
  {
    hide CheckAssignmentConstraints, Passes, Visited, Type.IsArithmetic;
    VerdictIsPasses(l.ty.value, f, r);
    VerdictIsPasses(r.ty.value, e, l);
    if Passes(f, r.ty.value, l.ty.value) && Passes(e, l.ty.value, r.ty.value) { MeetIsUnique(e, l, f, r); }
    if CheckAssignmentConstraints(l.ty.value, r).AssignStops? { StopsAlone(f, r, e, l); }
    assert Passes(f, l.ty.value, l.ty.value) by { PassesUnchanged(f, l.ty.value); }
  }

  lemma {:induction false} CompareVerdict(op: TokenType, e: Expr, l: Expr, f: Expr, r: Expr, errs: seq<ErrorMessage>, t: Type)
    requires IsCompareOp(op) && l.ty.Some? && r.ty.Some? && Visited(e, l) && Visited(f, r)
    ensures Labels(VisitCompare(op, l, r, None, errs), t) <==> CompareRule(op, e, l.ty.value, f, r.ty.value, t)
  {
    hide CheckComparisonOperands, CompareRule, Visited, IsCompareOp;
    ComparisonMeets(op, e, l, f, r, t);
  }

  /** The label of a comparison, by which of the two assignment checks succeeds. */
  lemma {:induction false} ComparisonLabel(op: TokenType, l: Expr, r: Expr)
    requires l.ty.Some? && r.ty.Some?
    ensures var o, a := CheckComparisonOperands(op, l, r), CheckAssignmentConstraints(r.ty.value, l);
            && (a.Assignable? ==> o.Operands? && o.ty == ComparedType(op, r.ty.value))
            && (a.AssignStops? ==> o.OperandsStop?)
  {
    hide CheckAssignmentConstraints, CompareResult, ComparedType;
  }

  lemma {:induction false} SecondLabel(op: TokenType, l: Expr, r: Expr)
    requires l.ty.Some? && r.ty.Some? && CheckAssignmentConstraints(r.ty.value, l).NotAssignable?
    ensures var o, b := CheckComparisonOperands(op, l, r), CheckAssignmentConstraints(l.ty.value, r);
            && (b.Assignable? ==> o.Operands? && o.ty == ComparedType(op, l.ty.value))
            && (b.AssignStops? ==> o.OperandsStop?)
            && (b.NotAssignable? ==> o.Operands? && o.ty.None?)
  {
    hide CheckAssignmentConstraints, CompareResult, ComparedType;
  }

  lemma {:induction false} ComparisonMeets(op: TokenType, e: Expr, l: Expr, f: Expr, r: Expr, t: Type)
    requires l.ty.Some? && r.ty.Some? && Visited(e, l) && Visited(f, r)
    ensures var o := CheckComparisonOperands(op, l, r);
            (o.Operands? && o.ty == Some(t)) <==> CompareRule(op, e, l.ty.value, f, r.ty.value, t)
  {
    hide CheckAssignmentConstraints, CheckComparisonOperands, CompareRule, Visited, Passes;
    if CheckAssignmentConstraints(r.ty.value, l).Assignable? {
      FirstMeets(op, e, l, f, r, t);
    } else {
      SecondMeets(op, e, l, f, r, t);
    }
  }

  lemma {:induction false} FirstMeets(op: TokenType, e: Expr, l: Expr, f: Expr, r: Expr, t: Type)
    requires l.ty.Some? && r.ty.Some? && Visited(e, l) && Visited(f, r)
    requires CheckAssignmentConstraints(r.ty.value, l).Assignable?
    ensures var o := CheckComparisonOperands(op, l, r);
            (o.Operands? && o.ty == Some(t)) <==> CompareRule(op, e, l.ty.value, f, r.ty.value, t)
  {
    hide CheckAssignmentConstraints, CheckComparisonOperands, Passes, Visited, ComparedType;
    VerdictIsPasses(r.ty.value, e, l);
    ComparisonLabel(op, l, r);
    if Passes(f, r.ty.value, l.ty.value) { MeetIsUnique(e, l, f, r); }
  }

  lemma {:induction false} SecondMeets(op: TokenType, e: Expr, l: Expr, f: Expr, r: Expr, t: Type)
    requires l.ty.Some? && r.ty.Some? && Visited(e, l) && Visited(f, r)
    requires !CheckAssignmentConstraints(r.ty.value, l).Assignable?
    ensures var o := CheckComparisonOperands(op, l, r);
            (o.Operands? && o.ty == Some(t)) <==> CompareRule(op, e, l.ty.value, f, r.ty.value, t)
  {
    hide CheckAssignmentConstraints, CheckComparisonOperands, Passes, Visited, ComparedType;
    VerdictIsPasses(r.ty.value, e, l);
    VerdictIsPasses(l.ty.value, f, r);
    if CheckAssignmentConstraints(r.ty.value, l).AssignStops? {
      ComparisonLabel(op, l, r);
      StopsAlone(e, l, f, r);
    } else {
      SecondLabel(op, l, r);
    }
  }

  /** When checking one operand stops, the other could not have passed either. */
  lemma {:induction false} StopsAlone(e: Expr, v: Expr, f: Expr, w: Expr)
    requires v.ty.Some? && w.ty.Some? && Visited(e, v) && Visited(f, w)
    requires CheckAssignmentConstraints(w.ty.value, v).AssignStops?
    ensures !Passes(f, w.ty.value, v.ty.value)
  {
  }

  lemma {:induction false} LogicalVerdict(op: TokenType, l: Expr, r: Expr, errs: seq<ErrorMessage>, t: Type)
    requires IsLogicalOp(op) && l.ty.Some? && r.ty.Some?
    ensures Labels(VisitBinary(op, l, r, None, errs), t)
            <==> t.Is(Bool) && IsAnyBool(l.ty.value) && IsAnyBool(r.ty.value)
  {
    hide CheckArithmeticOperands;
  }

  lemma {:induction false} UnaryVerdict(op: TokenType, i: Expr, errs: seq<ErrorMessage>, t: Type)
    requires i.ty.Some?
    ensures Labels(VisitUnary(op, i, None, errs), t) <==> IsCheckedUnaryOp(op) && UnaryType(op, i.ty.value) == Some(t)
  {
    hide UnaryType, IsCheckedUnaryOp;
  }

  lemma {:induction false} BinaryLabels(env: Env, op: TokenType, left: Expr, right: Expr, t: Type)
    requires IsLogicalOp(op) || IsArithmeticOp(op)
    ensures var l, r := Visit(env, left), Visit(env, right);
            Labels(Visit(env, Fresh(Binary(op, left, right))), t)
            <==> BothLabelled(l, r) && Labels(VisitBinary(op, l.e, r.e, None, l.errs + r.errs), t)
  {
    hide CheckLogicalOperands, CheckArithmeticOperands, ResolveName, NaturalType, IsLogicalOp, IsArithmeticOp;
  }

  lemma {:induction false} CompareLabels(env: Env, op: TokenType, left: Expr, right: Expr, t: Type)
    ensures var l, r := Visit(env, left), Visit(env, right);
            Labels(Visit(env, Fresh(Compare(op, left, right))), t)
            <==> BothLabelled(l, r) && Labels(VisitCompare(op, l.e, r.e, None, l.errs + r.errs), t)
  {
    hide CheckComparisonOperands, ResolveName, NaturalType, IsCompareOp;
  }

  /** Both operands were labelled. */
  predicate BothLabelled(l: Result, r: Result) {
    l.Checked? && r.Checked? && l.e.ty.Some? && r.e.ty.Some?
  }

  lemma {:induction false} BinaryVerdict(op: TokenType, e: Expr, l: Expr, f: Expr, r: Expr, errs: seq<ErrorMessage>, t: Type)
    requires (IsLogicalOp(op) || IsArithmeticOp(op)) && l.ty.Some? && r.ty.Some? && Visited(e, l) && Visited(f, r)
    ensures Labels(VisitBinary(op, l, r, None, errs), t) <==> BinaryRule(op, e, l.ty.value, f, r.ty.value, t)
  {
    hide VisitBinary, Visited, Meet, IsAnyBool, IsArithmeticOp, Type.IsArithmetic;
    if IsLogicalOp(op) {
      LogicalVerdict(op, l, r, errs, t);
    } else {
      ArithmeticVerdict(op, e, l, f, r, errs, t);
    }
  }

  lemma {:induction false} BinaryExact(env: Env, op: TokenType, left: Expr, right: Expr, t: Type)
    requires (IsLogicalOp(op) || IsArithmeticOp(op)) && Exact(env, left) && Exact(env, right)
    ensures HasType(env, Fresh(Binary(op, left, right)), t) <==> Labels(Visit(env, Fresh(Binary(op, left, right))), t)
  {
    var e, l, r := Fresh(Binary(op, left, right)), Visit(env, left), Visit(env, right);
    var verdict := BothLabelled(l, r) && BinaryRule(op, left, l.e.ty.value, right, r.e.ty.value, t);
    assert HasType(env, e, t) <==> verdict by {
      hide Visit, BinaryRule;
      if BothLabelled(l, r) { assert HasType(env, left, l.e.ty.value) && HasType(env, right, r.e.ty.value); }
    }
    assert Labels(Visit(env, e), t) <==> verdict by {
      BinaryLabels(env, op, left, right, t);
      if BothLabelled(l, r) {
        VisitVisits(env, left);
        VisitVisits(env, right);
        BinaryVerdict(op, left, l.e, right, r.e, l.errs + r.errs, t);
      }
      hide HasType, Visit, VisitBinary, Visited, BinaryRule;
    }
  }

  lemma {:induction false} CompareExact(env: Env, op: TokenType, left: Expr, right: Expr, t: Type)
    requires IsCompareOp(op) && Exact(env, left) && Exact(env, right)
    ensures HasType(env, Fresh(Compare(op, left, right)), t) <==> Labels(Visit(env, Fresh(Compare(op, left, right))), t)
  {
    var e, l, r := Fresh(Compare(op, left, right)), Visit(env, left), Visit(env, right);
    var verdict := BothLabelled(l, r) && CompareRule(op, left, l.e.ty.value, right, r.e.ty.value, t);
    assert HasType(env, e, t) <==> verdict by {
      hide Visit, CompareRule;
      if BothLabelled(l, r) { assert HasType(env, left, l.e.ty.value) && HasType(env, right, r.e.ty.value); }
    }
    assert Labels(Visit(env, e), t) <==> verdict by {
      CompareLabels(env, op, left, right, t);
      if BothLabelled(l, r) {
        VisitVisits(env, left);
        VisitVisits(env, right);
        CompareVerdict(op, left, l.e, right, r.e, l.errs + r.errs, t);
      }
      hide HasType, Visit, VisitCompare, Visited, CompareRule;
    }
  }

  lemma {:induction false} UnaryExact(env: Env, op: TokenType, input: Expr, t: Type)
    requires Exact(env, input)
    ensures HasType(env, Fresh(Unary(op, input)), t) <==> Labels(Visit(env, Fresh(Unary(op, input))), t)
  {
    var e, i := Fresh(Unary(op, input)), Visit(env, input);
    var verdict := i.Checked? && i.e.ty.Some? && IsCheckedUnaryOp(op) && UnaryType(op, i.e.ty.value) == Some(t);
    assert HasType(env, e, t) <==> verdict by {
      hide Visit, UnaryType, IsCheckedUnaryOp;
      if i.Checked? && i.e.ty.Some? { assert HasType(env, input, i.e.ty.value); }
    }
    assert Labels(Visit(env, e), t) <==> verdict by {
      if i.Checked? && i.e.ty.Some? { UnaryVerdict(op, i.e, i.errs, t); }
      hide HasType, UnaryType, IsCheckedUnaryOp, ResolveName, NaturalType;
    }
  }

  lemma {:induction false} IndexVerdict(obj: Expr, source: Expr, index: Expr, errs: seq<ErrorMessage>, t: Type)
    requires obj.ty.Some? && index.ty.Some? && Visited(source, index)
    ensures Labels(VisitIndex(obj, index, None, errs), t)
            <==> index.ty.value.IsInteger() && IndexRule(obj.ty.value, source, t)
  {
    hide Type.IsInteger, NaturalType;
  }

  lemma {:induction false} IndexExact(env: Env, obj: Expr, index: Expr, t: Type)
    requires Exact(env, obj) && Exact(env, index)
    ensures HasType(env, Fresh(Index(obj, index)), t) <==> Labels(Visit(env, Fresh(Index(obj, index))), t)
  {
    var e, o, i := Fresh(Index(obj, index)), Visit(env, obj), Visit(env, index);
    var verdict := BothLabelled(o, i) && i.e.ty.value.IsInteger() && IndexRule(o.e.ty.value, index, t);
    assert HasType(env, e, t) <==> verdict by {
      hide Visit, IndexRule, Type.IsInteger;
      if BothLabelled(o, i) { assert HasType(env, obj, o.e.ty.value) && HasType(env, index, i.e.ty.value); }
    }
    assert Labels(Visit(env, e), t) <==> verdict by {
      if BothLabelled(o, i) {
        VisitVisits(env, index);
        IndexVerdict(o.e, index, i.e, o.errs + i.errs, t);
      }
      hide HasType, IndexRule, Type.IsInteger, ResolveName, NaturalType;
    }
  }

  lemma {:induction false} MemberExact(env: Env, obj: Expr, member: Expr, t: Type)
    requires Exact(env, obj)
    ensures HasType(env, Fresh(Member(obj, member)), t) <==> Labels(Visit(env, Fresh(Member(obj, member))), t)
  {
    var e, o := Fresh(Member(obj, member)), Visit(env, obj);
    var verdict := o.Checked? && o.e.ty.Some? && MemberRule(o.e.ty.value, member, t);
    assert HasType(env, e, t) <==> verdict by {
      hide Visit, MemberRule;
      if o.Checked? && o.e.ty.Some? { assert HasType(env, obj, o.e.ty.value); }
    }
    assert Labels(Visit(env, e), t) <==> verdict by {
      hide HasType, LookupField, ResolveName, NaturalType;
    }
  }

  lemma {:induction false} FitsIff(env: Env, arg: Expr, param: Type)
    requires Exact(env, arg)
    ensures Fits(env, arg, param)
            <==> var v := Visit(env, arg);
                 v.Checked? && v.e.ty.Some? && CheckAssignmentConstraints(param, v.e).Assignable?
  {
    hide Visit, Passes, HasType, CheckAssignmentConstraints;
    var v := Visit(env, arg);
    if v.Checked? && v.e.ty.Some? {
      VisitVisits(env, arg);
      VerdictIsPasses(param, arg, v.e);
      assert HasType(env, arg, v.e.ty.value);
    }
  }

  lemma {:induction false} AllFitIff(env: Env, fn: Expr, params: seq<Field>, args: seq<Expr>)
    requires |params| == |args| && forall i :: 0 <= i < |args| ==> Exact(env, args[i])
    ensures (forall i :: 0 <= i < |args| ==> Fits(env, args[i], params[i].ty))
            <==> var a := VisitArgs(env, args);
                 a.ArgsVisited? && a.typed && CheckArgs(fn, params, a.args).ArgsVisited? && CheckArgs(fn, params, a.args).typed
    decreases args
  {
    hide Exact, HasType, Passes;
    if args != [] {
      assert Exact(env, args[0]);
      hide Fits, Visit, CheckAssignmentConstraints, Erase;
      FitsIff(env, args[0], params[0].ty);
      AllFitIff(env, fn, params[1..], args[1..]);
      assert forall i :: 0 < i < |args| ==> args[1..][i - 1] == args[i] && params[1..][i - 1] == params[i];
      assert (forall i :: 0 <= i < |args| ==> Fits(env, args[i], params[i].ty))
             <==> Fits(env, args[0], params[0].ty)
                  && forall i :: 0 <= i < |args| - 1 ==> Fits(env, args[1..][i], params[1..][i].ty);
    }
  }

  lemma {:induction false} CallLabels(env: Env, fn: Expr, args: seq<Expr>, t: Type)
    ensures var f, a := Visit(env, fn), VisitArgs(env, args);
            Labels(Visit(env, Fresh(Call(fn, args))), t)
            <==> && f.Checked? && f.e.ty.Some? && f.e.ty.value.Function? && |args| == |f.e.ty.value.params|
                 && f.e.ty.value.ret == t && a.ArgsVisited? && a.typed
                 && CheckArgs(f.e, f.e.ty.value.params, a.args).ArgsVisited?
                 && CheckArgs(f.e, f.e.ty.value.params, a.args).typed
  {
    hide CheckArgs, VisitArgs, ResolveName, NaturalType;
  }

  lemma {:induction false} CallExact(env: Env, fn: Expr, args: seq<Expr>, t: Type)
    requires Exact(env, fn) && forall i :: 0 <= i < |args| ==> Exact(env, args[i])
    ensures HasType(env, Fresh(Call(fn, args)), t) <==> Labels(Visit(env, Fresh(Call(fn, args))), t)
  {
    var e, f := Fresh(Call(fn, args)), Visit(env, fn);
    var callable := f.Checked? && f.e.ty.Some? && f.e.ty.value.Function? && |args| == |f.e.ty.value.params|;
    var verdict := callable && f.e.ty.value.ret == t && forall i :: 0 <= i < |args| ==> Fits(env, args[i], f.e.ty.value.params[i].ty);
    assert HasType(env, e, t) <==> verdict by {
      hide Visit, Fits;
      if callable { assert HasType(env, fn, f.e.ty.value); }
    }
    assert Labels(Visit(env, e), t) <==> verdict by {
      CallLabels(env, fn, args, t);
      if callable { AllFitIff(env, f.e, f.e.ty.value.params, args); }
      hide HasType, Fits, CheckArgs, VisitArgs, Visit;
    }
  }

  /** The checker labels a tree with t exactly when the rules give it type t; so the order in which it
      tries coercions never matters, and a tree has at most one type. */
  lemma {:induction false} Acceptance(env: Env, e: Expr)
    requires Source(e)
    ensures Exact(env, e)
    decreases e
  {
    match e.node {
      case Lit(_) =>
      case Ident(_) =>
      case Binary(_, left, right) => Acceptance(env, left); Acceptance(env, right);
      case Compare(_, left, right) => Acceptance(env, left); Acceptance(env, right);
      case Unary(_, input) => Acceptance(env, input);
      case Call(fn, args) =>
        Acceptance(env, fn);
        forall i | 0 <= i < |args| ensures Exact(env, args[i]) { Acceptance(env, args[i]); }
      case Index(obj, index) => Acceptance(env, obj); Acceptance(env, index);
      case Member(obj, _) => Acceptance(env, obj);
    }
    forall t ensures HasType(env, e, t) <==> Labels(Visit(env, e), t) {
      NodeExact(env, e, t);
    }
  }

  /** The operators by precedence. */
  lemma OperatorsByPrecedence(op: TokenType)
    ensures IsLogicalOp(op) <==> 3 <= Precedence(op) <= 4
    ensures IsArithmeticOp(op) <==> 5 <= Precedence(op) <= 7 || Precedence(op) >= 10
  {
  }

  // ---------- Unary operators ----------

  /** Following a pointer gives what it points to. */
  lemma DereferenceTyped(env: Env, e: Expr, t: Type)
    requires Source(e) && HasType(env, e, Pointer(t))
    ensures Labels(Visit(env, Fresh(Unary(STAR, e))), t)
  {
    hide Visit;
    Acceptance(env, Fresh(Unary(STAR, e)));
    assert UnaryRule(STAR, Pointer(t), t);
    assert HasType(env, Fresh(Unary(STAR, e)), t);
  }

  /** The address of a value is a pointer to its type, and following it gives that type back. */
  lemma AddressTyped(env: Env, e: Expr, t: Type)
    requires Source(e) && HasType(env, e, t) && !t.Function?
    ensures var address := Fresh(Unary(AMPERSAND, e));
            && Labels(Visit(env, address), Pointer(t))
            && Labels(Visit(env, Fresh(Unary(STAR, address))), t)
  {
    hide Visit;
    var address := Fresh(Unary(AMPERSAND, e));
    Acceptance(env, address);
    assert UnaryRule(AMPERSAND, t, Pointer(t));
    assert HasType(env, address, Pointer(t));
    DereferenceTyped(env, address, t);
  }

  /** The other operators keep the type of their operand, on the types they take and on no others. */
  lemma OperandTypeKept(env: Env, op: TokenType, e: Expr, t: Type, r: Type)
    requires Source(e) && HasType(env, e, t) && (op.BANG? || op.BIT_NOT? || op.MINUS?)
    ensures Labels(Visit(env, Fresh(Unary(op, e))), r)
            <==> r == t && if op.BANG? then t == Builtin(Bool) else t.IsArithmetic()
  {
    hide Visit, Type.IsArithmetic;
    var u := Fresh(Unary(op, e));
    Acceptance(env, u);
    Acceptance(env, e);
    assert HasType(env, u, r) <==> UnaryRule(op, t, r) by {
      forall a | HasType(env, e, a) ensures a == t {
        assert Labels(Visit(env, e), a) && Labels(Visit(env, e), t);
      }
    }
  }

  /** The children of a node satisfy Exact. */
  ghost predicate ChildrenExact(env: Env, e: Expr) {
    match e.node
    case Binary(_, left, right) => Exact(env, left) && Exact(env, right)
    case Compare(_, left, right) => Exact(env, left) && Exact(env, right)
    case Unary(_, input) => Exact(env, input)
    case Call(fn, args) => Exact(env, fn) && forall i :: 0 <= i < |args| ==> Exact(env, args[i])
    case Index(obj, index) => Exact(env, obj) && Exact(env, index)
    case Member(obj, _) => Exact(env, obj)
    case _ => true
  }

  lemma {:induction false} NodeExact(env: Env, e: Expr, t: Type)
    requires Source(e) && ChildrenExact(env, e)
    ensures HasType(env, e, t) <==> Labels(Visit(env, e), t)
  {
    assert e == Fresh(e.node);
    match e.node
    case Lit(_) =>
    case Ident(_) =>
    case Binary(op, left, right) =>
      BinaryExact(env, op, left, right, t);
    case Compare(op, left, right) => CompareExact(env, op, left, right, t);
    case Unary(op, input) => UnaryExact(env, op, input, t);
    case Call(fn, args) => CallExact(env, fn, args, t);
    case Index(obj, index) => IndexExact(env, obj, index, t);
    case Member(obj, member) => MemberExact(env, obj, member, t);
  }
}
