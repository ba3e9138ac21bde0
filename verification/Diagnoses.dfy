/** Which errors the expression checker reports, in which order, and when it stops: a node is silent while
    a part of it has no type, and otherwise reports exactly when it has no type itself. */
module Diagnoses {
  import opened Options
  import opened Types
  import opened Tokens
  import opened Ast
  import opened Scopes
  import opened Sema
  import opened SemaTheorems

  /** The type the rules give. */
  ghost function TypeOf(env: Env, e: Expr): Option<Type> {
    if exists t :: HasType(env, e, t) then
      var t :| HasType(env, e, t);
      Some(t)
    else None
  }

  datatype Outcome = Reports(errs: seq<ErrorMessage>) | Halts(why: Stop)

  function Then(a: Outcome, b: Outcome): Outcome {
    if a.Halts? then a else if b.Halts? then b else Reports(a.errs + b.errs)
  }

  const SILENT := Reports([])

  /** An integer literal meets a 128-bit integer type, for which the check of literals has no case. */
  predicate TooWide(e: Expr, t: Type) {
    e.node.Lit? && e.node.lit.IntLit? && (t == Builtin(Int128) || t == Builtin(UInt128))
  }

  /** What a visit of the tree reports. */
  ghost function Diagnosis(env: Env, e: Expr): Outcome
    decreases e
  {
    match e.node
    case Lit(_) => SILENT
    case Ident(_) => if TypeOf(env, e).Some? then SILENT else Reports([UndefinedVariable])
    case Binary(op, left, right) =>
      Then(Then(Diagnosis(env, left), Diagnosis(env, right)),
           OfOperands(env, left, right, !IsLogicalOp(op), TypeOf(env, e).Some?,
                      if IsLogicalOp(op) then MismatchedTypesToBinary else IllegalTypesForBinary))
    case Compare(_, left, right) =>
      Then(Then(Diagnosis(env, left), Diagnosis(env, right)),
           OfOperands(env, left, right, true, TypeOf(env, e).Some?, IllegalTypesForBinary))
    case Unary(op, input) => Then(Diagnosis(env, input), OfUnary(env, op, input, TypeOf(env, e).Some?))
    case Call(fn, args) =>
      Then(Diagnosis(env, fn),
           if IsCallable(env, fn, |args|) then
             Then(OfArgs(env, args), OfCall(env, fn.node.Ident?, TypeOf(env, fn).value.params, args))
           else NotCallable(env, fn))
    case Index(obj, index) =>
      Then(Then(Diagnosis(env, obj), Diagnosis(env, index)), OfIndex(env, obj, index, TypeOf(env, e).Some?))
    case Member(obj, member) => Then(Diagnosis(env, obj), OfMember(env, obj, member, TypeOf(env, e).Some?))
    case BuiltinCall(_, _) => Halts(BuiltinCheck)
    case Cast(_, _) => Halts(CastException)
    case Bad => SILENT
  }

  ghost function OfOperands(env: Env, left: Expr, right: Expr, coerces: bool, typed: bool, message: ErrorMessage): Outcome {
    var a, b := TypeOf(env, left), TypeOf(env, right);
    if a.None? || b.None? || typed then SILENT
    else if coerces && (TooWide(left, b.value) || TooWide(right, a.value)) then Halts(Unreachable)
    else Reports([message])
  }

  /** Prefix plus and circumflex are parsed, but the checker has no case for them. */
  ghost function OfUnary(env: Env, op: TokenType, input: Expr, typed: bool): Outcome {
    if TypeOf(env, input).None? || typed then SILENT
    else if op.BANG? || op.BIT_NOT? || op.MINUS? || op.STAR? || op.AMPERSAND? then Reports([InvalidOperation])
    else Halts(Unreachable)
  }

  ghost predicate IsCallable(env: Env, fn: Expr, n: nat) {
    var f := TypeOf(env, fn);
    f.Some? && f.value.Function? && |f.value.params| == n
  }

  /** The report about a wrong number of arguments takes the callee for an identifier. */
  ghost function NotCallable(env: Env, fn: Expr): Outcome {
    var f := TypeOf(env, fn);
    if f.None? then SILENT
    else if !f.value.Function? then Reports([NonFunction])
    else if fn.node.Ident? then Reports([MismatchedCallArgs])
    else Halts(BadCast)
  }

  /** Arguments are visited up to the first one without a type. */
  ghost function OfArgs(env: Env, args: seq<Expr>): Outcome
    decreases args
  {
    if |args| == 0 then SILENT
    else Then(Diagnosis(env, args[0]), if TypeOf(env, args[0]).None? then SILENT else OfArgs(env, args[1..]))
  }

  ghost predicate AllTyped(env: Env, args: seq<Expr>) { forall i :: 0 <= i < |args| ==> TypeOf(env, args[i]).Some? }

  ghost function OfCall(env: Env, named: bool, params: seq<Field>, args: seq<Expr>): Outcome
    requires |params| == |args|
  {
    if AllTyped(env, args) then Misfits(env, named, params, args) else SILENT
  }

  /** One report for each argument that does not fit; it, too, takes the callee for an identifier. */
  ghost function Misfits(env: Env, named: bool, params: seq<Field>, args: seq<Expr>): Outcome
    requires |params| == |args|
  {
    if |args| == 0 then SILENT
    else Then(OfArgument(env, named, params[0].ty, args[0]), Misfits(env, named, params[1..], args[1..]))
  }

  ghost function OfArgument(env: Env, named: bool, param: Type, arg: Expr): Outcome {
    if Fits(env, arg, param) then SILENT
    else if TooWide(arg, param) then Halts(Unreachable)
    else if named then Reports([IncorrectCallArgType])
    else Halts(BadCast)
  }

  ghost function OfIndex(env: Env, obj: Expr, index: Expr, typed: bool): Outcome {
    var a, b := TypeOf(env, obj), TypeOf(env, index);
    if a.None? || b.None? || typed then SILENT
    else if !a.value.Array? && !a.value.Map? then Reports([InvalidIndexOperation])
    else if !b.value.IsInteger() then Reports([NonIntegerArrayIndexValue])
    else Reports([if index.node.Lit? && index.node.lit.IntLit? && index.node.lit.n < 0 then NegativeArrayIndexValue
                  else OutOfBoundsArrayIndexValue])
  }

  ghost function OfMember(env: Env, obj: Expr, member: Expr, typed: bool): Outcome {
    var a := TypeOf(env, obj);
    if a.None? || typed then SILENT
    else if !a.value.Struct? && !(a.value.Pointer? && a.value.base.Struct?) then Reports([MemberObjectNotComposite])
    else Reports([if member.node.Ident? then FieldObjectDoesNotExist else ExpectedIdentifierForMember])
  }

  // ---------- The checker reports these ----------

  function Observed(v: Result): Outcome {
    if v.Stopped? then Halts(v.why) else Reports(v.errs)
  }

  /** The visit reports what the rules say, and labels a tree it gets through with its type. */
  ghost predicate Seen(env: Env, e: Expr) {
    Observed(Visit(env, e)) == Diagnosis(env, e) && Labelled(env, e)
  }

  ghost predicate Labelled(env: Env, e: Expr) {
    var v := Visit(env, e);
    && TypeOf(env, e) == (if v.Checked? then v.e.ty else None)
    && (v.Checked? ==> Visited(e, v.e))
  }

  lemma LabelIsType(env: Env, e: Expr)
    requires Source(e)
    ensures Labelled(env, e)
  {
    hide Visit, HasType, Source, Visited;
    Acceptance(env, e);
    var v := Visit(env, e);
    if v.Checked? {
      VisitVisits(env, e);
      if v.e.ty.Some? { assert Labels(v, v.e.ty.value); }
    }
    assert forall t :: HasType(env, e, t) <==> v.Checked? && v.e.ty == Some(t);
  }

  /** What checking a node adds to the errors of its parts. */
  predicate Adds(v: Result, errs: seq<ErrorMessage>, own: Outcome) {
    Observed(v) == Then(Reports(errs), own)
  }

  lemma StopsIfWide(target: Type, e: Expr, v: Expr)
    requires v.ty.Some? && Visited(e, v)
    ensures CheckAssignmentConstraints(target, v).AssignStops? <==> TooWide(e, target)
  {
  }

  // ---------- Operands ----------

  function OperandsOwn(e: Expr, a: Type, f: Expr, b: Type, coerces: bool, v: Result, message: ErrorMessage): Outcome {
    if v.Checked? && v.e.ty.Some? then SILENT
    else if coerces && (TooWide(e, b) || TooWide(f, a)) then Halts(Unreachable)
    else Reports([message])
  }

  lemma LogicalAdds(op: TokenType, e: Expr, l: Expr, f: Expr, r: Expr, errs: seq<ErrorMessage>)
    requires IsLogicalOp(op) && l.ty.Some? && r.ty.Some?
    ensures var v := VisitBinary(op, l, r, None, errs);
            Adds(v, errs, OperandsOwn(e, l.ty.value, f, r.ty.value, false, v, MismatchedTypesToBinary))
  {
    hide CheckArithmeticOperands, ToBool;
  }

  lemma ArithmeticAdds(op: TokenType, e: Expr, l: Expr, f: Expr, r: Expr, errs: seq<ErrorMessage>)
    requires IsArithmeticOp(op) && l.ty.Some? && r.ty.Some? && Visited(e, l) && Visited(f, r)
    ensures var v := VisitBinary(op, l, r, None, errs);
            Adds(v, errs, OperandsOwn(e, l.ty.value, f, r.ty.value, true, v, IllegalTypesForBinary))
  {
    hide CheckAssignmentConstraints, CheckLogicalOperands, Visited, Erase, TooWide, Type.IsArithmetic;
    StopsIfWide(l.ty.value, f, r);
    StopsIfWide(r.ty.value, e, l);
    WideIsNumber(e, l, r.ty.value);
    WideIsNumber(f, r, l.ty.value);
  }

  lemma WideIsNumber(e: Expr, v: Expr, t: Type)
    requires v.ty.Some? && Visited(e, v)
    ensures TooWide(e, t) ==> v.ty.value.IsArithmetic() && t.IsArithmetic() && v.ty.value != t
  {
  }

  lemma CompareAdds(op: TokenType, e: Expr, l: Expr, f: Expr, r: Expr, errs: seq<ErrorMessage>)
    requires IsCompareOp(op) && l.ty.Some? && r.ty.Some? && Visited(e, l) && Visited(f, r)
    ensures var v := VisitCompare(op, l, r, None, errs);
            Adds(v, errs, OperandsOwn(e, l.ty.value, f, r.ty.value, true, v, IllegalTypesForBinary))
  {
    hide CheckAssignmentConstraints, Visited, Erase, TooWide, ComparedType;
    StopsIfWide(l.ty.value, f, r);
    StopsIfWide(r.ty.value, e, l);
    if CheckAssignmentConstraints(r.ty.value, l).Assignable? { WideComesFirst(e, l, f, r); }
  }

  /** When the left operand passes for the type of the right one, the right one is no literal too wide. */
  lemma WideComesFirst(e: Expr, l: Expr, f: Expr, r: Expr)
    requires l.ty.Some? && r.ty.Some? && Visited(e, l) && Visited(f, r)
    requires CheckAssignmentConstraints(r.ty.value, l).Assignable?
    ensures !TooWide(e, r.ty.value) && !TooWide(f, l.ty.value)
  {
  }

  lemma {:induction false} BinarySeen(env: Env, op: TokenType, left: Expr, right: Expr)
    requires Source(Fresh(Binary(op, left, right))) && Seen(env, left) && Seen(env, right)
    ensures Seen(env, Fresh(Binary(op, left, right)))
  {
    hide HasType, TypeOf, Visited, VisitBinary, Source, IsLogicalOp, IsArithmeticOp;
    var e, l, r := Fresh(Binary(op, left, right)), Visit(env, left), Visit(env, right);
    LabelIsType(env, e);
    SourceOperator(op, left, right);
    if l.Checked? && r.Checked? {
      if l.e.ty.Some? && r.e.ty.Some? {
        if IsLogicalOp(op) {
          LogicalAdds(op, left, l.e, right, r.e, l.errs + r.errs);
        } else {
          ArithmeticAdds(op, left, l.e, right, r.e, l.errs + r.errs);
        }
      } else {
        SilentBinary(op, l.e, r.e, l.errs + r.errs);
      }
    }
  }

  lemma SourceOperator(op: TokenType, left: Expr, right: Expr)
    requires Source(Fresh(Binary(op, left, right)))
    ensures IsLogicalOp(op) || IsArithmeticOp(op)
  {
  }

  lemma SilentBinary(op: TokenType, l: Expr, r: Expr, errs: seq<ErrorMessage>)
    requires l.ty.None? || r.ty.None?
    ensures VisitBinary(op, l, r, None, errs) == Checked(Fresh(Binary(op, l, r)), errs)
    ensures VisitCompare(op, l, r, None, errs) == Checked(Fresh(Compare(op, l, r)), errs)
  {
  }

  lemma {:induction false} CompareSeen(env: Env, op: TokenType, left: Expr, right: Expr)
    requires Source(Fresh(Compare(op, left, right))) && Seen(env, left) && Seen(env, right)
    ensures Seen(env, Fresh(Compare(op, left, right)))
  {
    hide HasType, TypeOf, Visited, VisitCompare, Source, IsCompareOp;
    var e, l, r := Fresh(Compare(op, left, right)), Visit(env, left), Visit(env, right);
    LabelIsType(env, e);
    assert IsCompareOp(op) by { SourceComparison(op, left, right); }
    if l.Checked? && r.Checked? {
      if l.e.ty.Some? && r.e.ty.Some? {
        CompareAdds(op, left, l.e, right, r.e, l.errs + r.errs);
      } else {
        SilentBinary(op, l.e, r.e, l.errs + r.errs);
      }
    }
  }

  lemma SourceComparison(op: TokenType, left: Expr, right: Expr)
    requires Source(Fresh(Compare(op, left, right)))
    ensures IsCompareOp(op)
  {
  }

  // ---------- Unary operators, indexes and members ----------

  lemma {:induction false} UnarySeen(env: Env, op: TokenType, input: Expr)
    requires Source(Fresh(Unary(op, input))) && Seen(env, input)
    ensures Seen(env, Fresh(Unary(op, input)))
  {
    hide HasType, TypeOf, Visited, Source, UnaryType;
    var e := Fresh(Unary(op, input));
    LabelIsType(env, e);
  }

  lemma {:induction false} IndexSeen(env: Env, obj: Expr, index: Expr)
    requires Source(Fresh(Index(obj, index))) && Seen(env, obj) && Seen(env, index)
    ensures Seen(env, Fresh(Index(obj, index)))
  {
    hide HasType, TypeOf, Source, Type.IsInteger, NaturalType;
    var e := Fresh(Index(obj, index));
    LabelIsType(env, e);
  }

  lemma {:induction false} MemberSeen(env: Env, obj: Expr, member: Expr)
    requires Source(Fresh(Member(obj, member))) && Seen(env, obj)
    ensures Seen(env, Fresh(Member(obj, member)))
  {
    hide HasType, TypeOf, Visited, Source, LookupField;
    var e := Fresh(Member(obj, member));
    LabelIsType(env, e);
  }

  // ---------- Calls ----------

  function ObservedArgs(a: ArgsResult): Outcome {
    if a.ArgsStopped? then Halts(a.why) else Reports(a.errs)
  }

  /** The arguments are those of the visits, all with their types. */
  predicate Resolved(env: Env, args: seq<Expr>, vs: seq<Expr>) {
    |vs| == |args|
    && forall i :: 0 <= i < |args| ==> Visit(env, args[i]).Checked? && vs[i] == Visit(env, args[i]).e && vs[i].ty.Some?
  }

  lemma {:induction false} ArgsSeen(env: Env, args: seq<Expr>)
    requires forall i :: 0 <= i < |args| ==> Seen(env, args[i])
    ensures var a := VisitArgs(env, args);
            && ObservedArgs(a) == OfArgs(env, args)
            && (a.ArgsVisited? ==> (a.typed <==> AllTyped(env, args)) && (a.typed ==> Resolved(env, args, a.args)))
    decreases args
  {
    hide Visit, TypeOf, Diagnosis, Visited;
    if |args| > 0 {
      assert Seen(env, args[0]);
      ArgsSeen(env, args[1..]);
      assert AllTyped(env, args) <==> TypeOf(env, args[0]).Some? && AllTyped(env, args[1..]) by { TypedFirst(env, args); }
    }
  }

  lemma TypedFirst(env: Env, args: seq<Expr>)
    requires |args| > 0
    ensures AllTyped(env, args) <==> TypeOf(env, args[0]).Some? && AllTyped(env, args[1..])
  {
    hide TypeOf;
    assert forall i :: 0 < i < |args| ==> args[i] == args[1..][i - 1];
  }

  lemma {:induction false} MisfitsSeen(env: Env, fn: Expr, params: seq<Field>, args: seq<Expr>, vs: seq<Expr>)
    requires |params| == |args| && Resolved(env, args, vs) && forall i :: 0 <= i < |args| ==> Source(args[i])
    ensures ObservedArgs(CheckArgs(fn, params, vs)) == Misfits(env, fn.node.Ident?, params, args)
    decreases args
  {
    hide Visit, Source, Fits, CheckAssignmentConstraints, Visited, TooWide, Erase;
    if |args| > 0 {
      assert Resolved(env, args[1..], vs[1..]) by {
        assert forall i :: 0 <= i < |args| - 1 ==> args[1..][i] == args[i + 1] && vs[1..][i] == vs[i + 1];
      }
      MisfitsSeen(env, fn, params[1..], args[1..], vs[1..]);
      Acceptance(env, args[0]);
      FitsIff(env, args[0], params[0].ty);
      VisitVisits(env, args[0]);
      StopsIfWide(params[0].ty, args[0], vs[0]);
    }
  }

  lemma NameStays(env: Env, fn: Expr)
    requires Source(fn) && Visit(env, fn).Checked?
    ensures Visit(env, fn).e.node.Ident? <==> fn.node.Ident?
  {
    hide ResolveName, NaturalType;
  }

  /** The parts of a call that the checker visits behind its callee. */
  lemma {:induction false} CallSteps(env: Env, fn: Expr, args: seq<Expr>)
    requires Visit(env, fn).Checked?
    ensures var e, f, a := Fresh(Call(fn, args)), Visit(env, fn), VisitArgs(env, args);
            && (f.e.ty.None? ==> Observed(Visit(env, e)) == Reports(f.errs))
            && (f.e.ty.Some? && !f.e.ty.value.Function? ==> Observed(Visit(env, e)) == Reports(f.errs + [NonFunction]))
            && (f.e.ty.Some? && f.e.ty.value.Function? && |args| != |f.e.ty.value.params| ==>
                  Observed(Visit(env, e))
                  == if f.e.node.Ident? then Reports(f.errs + [MismatchedCallArgs]) else Halts(BadCast))
  {
    hide VisitCall, VisitArgs;
  }

  lemma {:induction false} ArgsSteps(env: Env, fn: Expr, args: seq<Expr>)
    requires var f := Visit(env, fn);
             f.Checked? && f.e.ty.Some? && f.e.ty.value.Function? && |args| == |f.e.ty.value.params|
    ensures var e, f, a := Fresh(Call(fn, args)), Visit(env, fn), VisitArgs(env, args);
            Observed(Visit(env, e))
            == Then(Reports(f.errs),
                    Then(ObservedArgs(a), if a.ArgsVisited? && a.typed then ObservedArgs(CheckArgs(f.e, f.e.ty.value.params, a.args))
                                          else SILENT))
  {
    hide CheckArgs, VisitArgs;
    var f, a := Visit(env, fn), VisitArgs(env, args);
    if a.ArgsVisited? && a.typed {
      var c := CheckArgs(f.e, f.e.ty.value.params, a.args);
      if c.ArgsVisited? {
        assert (f.errs + a.errs) + c.errs == f.errs + (a.errs + c.errs);
      }
    } else if a.ArgsVisited? {
      assert f.errs + (a.errs + []) == f.errs + a.errs;
    }
  }

  lemma {:induction false} CallSeen(env: Env, fn: Expr, args: seq<Expr>)
    requires Source(Fresh(Call(fn, args))) && Seen(env, fn) && forall i :: 0 <= i < |args| ==> Seen(env, args[i])
    ensures Seen(env, Fresh(Call(fn, args)))
  {
    hide HasType, TypeOf, Visited, VisitCall, VisitArgs, CheckArgs, OfArgs, Misfits, AllTyped, Resolved;
    var e, f := Fresh(Call(fn, args)), Visit(env, fn);
    LabelIsType(env, e);
    if f.Checked? {
      CallSteps(env, fn, args);
      NameStays(env, fn);
      if IsCallable(env, fn, |args|) {
        hide Source, Visit;
        ArgsSteps(env, fn, args);
        ArgsSeen(env, args);
        var a := VisitArgs(env, args);
        if a.ArgsVisited? && a.typed {
          assert forall i :: 0 <= i < |args| ==> Source(args[i]) by { SourceArgs(fn, args); }
          MisfitsSeen(env, f.e, f.e.ty.value.params, args, a.args);
        }
      } else {
        hide Source, Visit;
        assert f.errs + [] == f.errs;
      }
    } else {
      hide Source;
    }
  }

  lemma SourceArgs(fn: Expr, args: seq<Expr>)
    requires Source(Fresh(Call(fn, args)))
    ensures Source(fn) && forall i :: 0 <= i < |args| ==> Source(args[i])
  {
  }

  // ---------- The theorem ----------

  /** The checker reports exactly what the rules say, in the order of the program, and stops exactly where
      they say. */
  lemma {:induction false} Diagnosed(env: Env, e: Expr)
    requires Source(e)
    ensures Observed(Visit(env, e)) == Diagnosis(env, e)
    ensures Seen(env, e)
    decreases e
  {
    hide Seen, Diagnosis, Observed, Visit;
    match e.node {
      case Lit(_) => LeafSeen(env, e);
      case Ident(_) => LeafSeen(env, e);
      case Binary(op, left, right) =>
        Diagnosed(env, left);
        Diagnosed(env, right);
        BinarySeen(env, op, left, right);
      case Compare(op, left, right) =>
        Diagnosed(env, left);
        Diagnosed(env, right);
        CompareSeen(env, op, left, right);
      case Unary(op, input) =>
        Diagnosed(env, input);
        UnarySeen(env, op, input);
      case Call(fn, args) =>
        Diagnosed(env, fn);
        forall i | 0 <= i < |args| ensures Seen(env, args[i]) { Diagnosed(env, args[i]); }
        CallSeen(env, fn, args);
      case Index(obj, index) =>
        Diagnosed(env, obj);
        Diagnosed(env, index);
        IndexSeen(env, obj, index);
      case Member(obj, member) =>
        Diagnosed(env, obj);
        MemberSeen(env, obj, member);
    }
    SeenReports(env, e);
  }

  lemma SeenReports(env: Env, e: Expr)
    requires Seen(env, e)
    ensures Observed(Visit(env, e)) == Diagnosis(env, e)
  {
  }

  lemma LeafSeen(env: Env, e: Expr)
    requires Source(e) && (e.node.Lit? || e.node.Ident?)
    ensures Seen(env, e)
  {
    hide HasType, TypeOf, NaturalType, ResolveName;
    LabelIsType(env, e);
  }
}
