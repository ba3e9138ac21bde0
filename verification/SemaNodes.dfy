/** The expression checker on a heap of nodes (src/sema/sema_expr.cpp, sema_checking.cpp): it relabels
    nodes in place and puts cast nodes between them, and leaves exactly the tree that Sema.Visit gives. */
module SemaNodes {
  import opened Options
  import opened Types
  import opened Tokens
  import opened Ast
  import opened Scopes
  import opened Sema
  import opened SemaTheorems

  /** What a node is, apart from its children and its label. */
  datatype Tag =
    | LitTag(lit: Literal)
    | IdentTag(name: string)
    | BinaryTag(op: TokenType)
    | CompareTag(op: TokenType)
    | UnaryTag(op: TokenType)
    | CallTag
    | BuiltinCallTag
    | IndexTag
    | MemberTag
    | CastTag(kind: CastKind)
    | BadTag

  predicate Arity(t: Tag, n: nat) {
    match t
    case LitTag(_) => n == 0
    case IdentTag(_) => n == 0
    case BinaryTag(_) => n == 2
    case CompareTag(_) => n == 2
    case UnaryTag(_) => n == 1
    case CallTag => n > 0
    case BuiltinCallTag => n > 0
    case IndexTag => n == 2
    case MemberTag => n == 2
    case CastTag(_) => n == 1
    case BadTag => n == 0
  }

  /** The expression of a node over those of its children; a call has its function first. */
  function Make(t: Tag, kids: seq<Expr>, ty: Label): Expr
    requires Arity(t, |kids|)
  {
    Expr(match t
         case LitTag(lit) => Lit(lit)
         case IdentTag(name) => Ident(name)
         case BinaryTag(op) => Binary(op, kids[0], kids[1])
         case CompareTag(op) => Compare(op, kids[0], kids[1])
         case UnaryTag(op) => Unary(op, kids[0])
         case CallTag => Call(kids[0], kids[1..])
         case BuiltinCallTag => BuiltinCall(kids[0], kids[1..])
         case IndexTag => Index(kids[0], kids[1])
         case MemberTag => Member(kids[0], kids[1])
         case CastTag(kind) => Cast(kind, kids[0])
         case BadTag => Bad,
         ty)
  }

  ghost function Models(kids: seq<Node>): (r: seq<Expr>)
    reads kids
    ensures |r| == |kids| && forall i :: 0 <= i < |kids| ==> r[i] == kids[i].model
  {
    if |kids| == 0 then [] else [kids[0].model] + Models(kids[1..])
  }

  /** All nodes below the given ones. */
  ghost function Nodes(kids: seq<Node>): set<Node>
    reads kids
  {
    set k, o | k in kids && o in k.Repr :: o
  }

  /** Trees that share no node. */
  ghost predicate Forest(kids: seq<Node>)
    reads kids, Nodes(kids)
  {
    && (forall i :: 0 <= i < |kids| ==> kids[i].Valid())
    && (forall i, j :: 0 <= i < j < |kids| ==> kids[i].Repr !! kids[j].Repr)
  }

  /** A forest stays as it is while none of its nodes changes. */
  twostate lemma ForestKept(ks: seq<Node>)
    requires old(Forest(ks)) && forall o :: o in old(Nodes(ks)) ==> unchanged(o)
    ensures Forest(ks) && Nodes(ks) == old(Nodes(ks)) && Models(ks) == old(Models(ks))
  {
    hide Models;
    forall i | 0 <= i < |ks| ensures ks[i].Valid() && unchanged(ks[i]) {
      assert old(ks[i].Valid()) && ks[i] in old(ks[i].Repr);
      forall o | o in old(ks[i].Repr) ensures unchanged(o) {
        assert o in old(Nodes(ks));
      }
    }
  }

  lemma FormsTree(n: Node)
    requires Forest(n.kids) && n !in Nodes(n.kids) && Arity(n.tag, |n.kids|)
    requires n.model == Make(n.tag, Models(n.kids), n.ty) && n.Repr == {n} + Nodes(n.kids)
    ensures n.Valid()
  {
    hide Make, Models, Arity;
  }

  class Node {
    const tag: Tag
    var kids: seq<Node>
    var ty: Label
    ghost var model: Expr
    ghost var Repr: set<Node>

    ghost predicate Valid()
      reads this, Repr
      decreases Repr
      ensures Valid() ==> this in Repr
    {
      && this in Repr && Arity(tag, |kids|)
      && (forall i :: 0 <= i < |kids| ==>
            kids[i] in Repr && kids[i].Repr <= Repr && this !in kids[i].Repr && kids[i].Valid())
      && (forall i, j :: 0 <= i < j < |kids| ==> kids[i].Repr !! kids[j].Repr)
      && model == Make(tag, Models(kids), ty)
    }

    constructor (tag: Tag, kids: seq<Node>, ty: Label)
      requires Arity(tag, |kids|) && Forest(kids)
      ensures Valid() && this.tag == tag && this.kids == kids && this.ty == ty
      ensures model == Make(tag, Models(kids), ty) && Repr == {this} + Nodes(kids)
    {
      hide Make, Models, Arity;
      this.tag := tag;
      this.kids := kids;
      this.ty := ty;
      this.model := Make(tag, Models(kids), ty);
      this.Repr := {this} + Nodes(kids);
    }

    /** Expression::SetType. */
    method SetType(t: Label)
      requires Valid()
      modifies this`ty, this`model
      ensures Valid() && ty == t && model == Expr(old(model).node, t)
    {
      hide Models, Arity;
      ty := t;
      model := Make(tag, Models(kids), t);
    }
  
    /** SetLeft, SetRight and SetArgument; also brings the ghost fields up to date with the children. */
    method SetKids(ks: seq<Node>)
      requires Arity(tag, |ks|) && Forest(ks) && this !in Nodes(ks)
      modifies this`kids, this`model, this`Repr
      ensures Valid() && kids == ks && model == Make(tag, Models(ks), ty) && Repr == {this} + Nodes(ks)
    {
      hide Make, Models, Arity;
      label Before:
      kids := ks;
      model := Make(tag, old(Models(ks)), ty);
      Repr := {this} + old(Nodes(ks));
      ForestKept(ks);
      FormsTree(this);
    }
  }

  lemma Inside(n: Node)
    requires n.Valid()
    ensures Forest(n.kids) && Nodes(n.kids) <= n.Repr && n !in Nodes(n.kids) && Arity(n.tag, |n.kids|)
    ensures n.model == Make(n.tag, Models(n.kids), n.ty)
  {
    hide Make, Models, Arity;
  }

  /** ImplCastExprToType. */
  method WrapCast(e: Node, kind: CastKind, target: Type) returns (c: Node)
    requires e.Valid()
    ensures c.Valid() && fresh(c) && c.Repr == {c} + e.Repr && c.model == Expr(Cast(kind, e.model), Some(target))
  {
    hide Arity;
    assert Arity(CastTag(kind), 1) by { CastHasOne(kind); }
    c := new Node(CastTag(kind), [e], Some(target));
    assert Nodes([e]) == e.Repr;
    assert Models([e])[0] == e.model;
  }

  lemma CastHasOne(kind: CastKind)
    ensures Arity(CastTag(kind), 1)
  {
  }

  lemma LitNode(n: Node)
    requires n.Valid()
    ensures n.tag.LitTag? <==> n.model.node.Lit?
    ensures n.tag.LitTag? ==> n.model.node.lit == n.tag.lit
    ensures n.model.ty == n.ty
  {
  }

  /** Two trees that share no node. */
  ghost predicate Pair(l: Node, r: Node)
    reads l, r, l.Repr, r.Repr
  {
    l.Valid() && r.Valid() && l.Repr !! r.Repr
  }

  lemma PairForest(l: Node, r: Node)
    requires Pair(l, r)
    ensures Forest([l, r]) && Nodes([l, r]) == l.Repr + r.Repr && Models([l, r]) == [l.model, r.model]
  {
    hide Models;
    assert Models([l, r])[0] == l.model && Models([l, r])[1] == r.model;
  }

  lemma ForestPair(ks: seq<Node>)
    requires Forest(ks) && |ks| == 2
    ensures Pair(ks[0], ks[1]) && Models(ks) == [ks[0].model, ks[1].model] && ks == [ks[0], ks[1]]
    ensures ks[0].Repr <= Nodes(ks) && ks[1].Repr <= Nodes(ks)
  {
    hide Models;
  }

  /** The specification of a node with two visited children. */
  function FinishTwo(t: Tag, l: Expr, r: Expr, ty: Label, errs: seq<ErrorMessage>): Result
    requires t.BinaryTag? || t.CompareTag? || t.IndexTag?
  {
    match t
    case BinaryTag(op) => VisitBinary(op, l, r, ty, errs)
    case CompareTag(op) => VisitCompare(op, l, r, ty, errs)
    case IndexTag => VisitIndex(l, r, ty, errs)
  }

  lemma VisitTwo(env: Env, t: Tag, l: Expr, r: Expr, ty: Label)
    requires (t.BinaryTag? || t.CompareTag? || t.IndexTag?) && Visit(env, Make(t, [l, r], ty)).Checked?
    ensures Visit(env, l).Checked? && Visit(env, r).Checked?
    ensures Visit(env, Make(t, [l, r], ty))
            == FinishTwo(t, Visit(env, l).e, Visit(env, r).e, ty, Visit(env, l).errs + Visit(env, r).errs)
    ensures var e := Make(t, [l, r], ty); l < e && r < e
  {
    hide VisitBinary, VisitCompare, VisitIndex;
  }

  /** What a node with two children holds, and how the specification visits it. */
  lemma OpenTwo(env: Env, n: Node)
    requires n.Valid() && (n.tag.BinaryTag? || n.tag.CompareTag? || n.tag.IndexTag?) && Visit(env, n.model).Checked?
    ensures |n.kids| == 2 && Arity(n.tag, 2)
    ensures var l, r := n.kids[0].model, n.kids[1].model;
            && n.model == Make(n.tag, [l, r], n.ty) && l < n.model && r < n.model
            && Visit(env, l).Checked? && Visit(env, r).Checked?
            && Visit(env, n.model)
               == FinishTwo(n.tag, Visit(env, l).e, Visit(env, r).e, n.ty, Visit(env, l).errs + Visit(env, r).errs)
  {
    hide Make, Models, Visit, FinishTwo;
    Inside(n);
    ForestPair(n.kids);
    VisitTwo(env, n.tag, n.kids[0].model, n.kids[1].model, n.ty);
  }

  lemma IdentNode(n: Node)
    requires n.Valid()
    ensures n.tag.IdentTag? <==> n.model.node.Ident?
    ensures n.tag.IdentTag? ==> n.model.node.name == n.tag.name
  {
  }

  lemma VisitLeaf(env: Env, e: Expr)
    requires e.node.Lit? || e.node.Ident?
    ensures e.node.Lit? ==> Visit(env, e) == Checked(Expr(e.node, Some(NaturalType(e.node.lit))), [])
    ensures e.node.Ident? ==> Visit(env, e) == var t := ResolveName(env, e.node.name);
              if t.Some? then Checked(Expr(e.node, t), []) else Checked(e, [UndefinedVariable])
  {
    hide NaturalType, ResolveName;
  }

  lemma OpenUnary(env: Env, n: Node)
    requires n.Valid() && n.tag.UnaryTag? && Visit(env, n.model).Checked?
    ensures |n.kids| == 1 && Arity(n.tag, 1) && n.kids == [n.kids[0]]
    ensures var k := n.kids[0].model;
            && n.model == Make(n.tag, [k], n.ty) && k < n.model && Visit(env, k).Checked?
            && Visit(env, n.model) == VisitUnary(n.tag.op, Visit(env, k).e, n.ty, Visit(env, k).errs)
  {
    hide Models, VisitUnary;
    Inside(n);
    assert Models(n.kids) == [n.kids[0].model];
  }

  lemma UnaryLabels(op: TokenType, input: Expr, ty: Label, errs: seq<ErrorMessage>)
    requires VisitUnary(op, input, ty, errs).Checked?
    ensures VisitUnary(op, input, ty, errs)
            == if input.ty.None? then Checked(Make(UnaryTag(op), [input], ty), errs)
               else if UnaryType(op, input.ty.value).Some? then Checked(Make(UnaryTag(op), [input], UnaryType(op, input.ty.value)), errs)
               else Checked(Make(UnaryTag(op), [input], ty), errs + [InvalidOperation])
  {
    hide UnaryType, IsCheckedUnaryOp;
  }

  lemma OpenMember(env: Env, n: Node)
    requires n.Valid() && n.tag.MemberTag? && Visit(env, n.model).Checked?
    ensures |n.kids| == 2 && Arity(n.tag, 2)
    ensures var o, m := n.kids[0].model, n.kids[1].model;
            && n.model == Make(n.tag, [o, m], n.ty) && o < n.model && Visit(env, o).Checked?
            && Visit(env, n.model) == VisitMember(Visit(env, o).e, m, n.ty, Visit(env, o).errs)
  {
    hide Models, VisitMember;
    Inside(n);
    ForestPair(n.kids);
  }

  /** The first i arguments are visited and have types; said are the errors so far. */
  ghost predicate ArgsSoFar(env: Env, ms: seq<Expr>, now: seq<Expr>, i: nat, said: seq<ErrorMessage>) {
    && i <= |ms| && |now| == |ms| && now[i..] == ms[i..]
    && var r, all := VisitArgs(env, ms[i..]), VisitArgs(env, ms);
       && r.ArgsVisited? && all.ArgsVisited?
       && all.args == now[..i] + r.args && all.errs == said + r.errs && all.typed == r.typed
  }

  lemma StartArgs(env: Env, ms: seq<Expr>)
    requires VisitArgs(env, ms).ArgsVisited?
    ensures ArgsSoFar(env, ms, ms, 0, [])
  {
    hide VisitArgs;
    assert ms[0..] == ms;
  }

  lemma NextArg(env: Env, ms: seq<Expr>, now: seq<Expr>, i: nat, said: seq<ErrorMessage>)
    requires i < |ms| && ArgsSoFar(env, ms, now, i, said)
    ensures now[i] == ms[i] && Visit(env, ms[i]).Checked?
    ensures var v, after := Visit(env, ms[i]), now[i := Visit(env, ms[i]).e];
            if v.e.ty.Some? then ArgsSoFar(env, ms, after, i + 1, said + v.errs)
            else VisitArgs(env, ms) == ArgsVisited(after, said + v.errs, false)
  {
    hide Visit;
    assert now[i] == now[i..][0] == ms[i] && now[i..][1..] == now[i + 1..];
    assert ms[i..][0] == ms[i] && ms[i..][1..] == ms[i + 1..];
    var v := Visit(env, ms[i]);
    var after := now[i := v.e];
    assert after[..i + 1] == now[..i] + [v.e] && after[i + 1..] == ms[i + 1..];
    assert after == now[..i] + ([v.e] + ms[i + 1..]);
  }

  lemma LastArg(env: Env, ms: seq<Expr>, now: seq<Expr>, said: seq<ErrorMessage>)
    requires ArgsSoFar(env, ms, now, |ms|, said)
    ensures VisitArgs(env, ms) == ArgsVisited(now, said, true)
  {
    assert ms[|ms|..] == [] && now[..|ms|] == now;
  }

  ghost predicate AllTyped(ms: seq<Expr>) { forall i :: 0 <= i < |ms| ==> ms[i].ty.Some? }

  /** The first i arguments are checked against their parameters; said are the errors so far. */
  ghost predicate CheckedSoFar(fn: Expr, params: seq<Field>, ms: seq<Expr>, now: seq<Expr>, i: nat,
                               said: seq<ErrorMessage>, bad: bool)
    requires |params| == |ms| && AllTyped(ms)
  {
    && i <= |ms| && |now| == |ms| && now[i..] == ms[i..]
    && var r, all := CheckArgs(fn, params[i..], ms[i..]), CheckArgs(fn, params, ms);
       && r.ArgsVisited? && all.ArgsVisited?
       && all.args == now[..i] + r.args && all.errs == said + r.errs && all.typed == (!bad && r.typed)
  }

  lemma StartChecks(fn: Expr, params: seq<Field>, ms: seq<Expr>)
    requires |params| == |ms| && AllTyped(ms) && CheckArgs(fn, params, ms).ArgsVisited?
    ensures CheckedSoFar(fn, params, ms, ms, 0, [], false)
  {
    hide CheckArgs;
    assert ms[0..] == ms && params[0..] == params;
  }

  lemma UnfoldChecks(fn: Expr, params: seq<Field>, ms: seq<Expr>, i: nat)
    requires |params| == |ms| && AllTyped(ms) && i < |ms| && CheckArgs(fn, params[i..], ms[i..]).ArgsVisited?
    ensures var r, rest := CheckAssignmentConstraints(params[i].ty, ms[i]), CheckArgs(fn, params[i + 1..], ms[i + 1..]);
            && !r.AssignStops? && rest.ArgsVisited?
            && CheckArgs(fn, params[i..], ms[i..])
               == if r.Assignable? then ArgsVisited([r.e] + rest.args, rest.errs, rest.typed)
                  else ArgsVisited([ms[i]] + rest.args, [IncorrectCallArgType] + rest.errs, false)
  {
    hide CheckAssignmentConstraints, Erase;
    assert ms[i..][0] == ms[i] && ms[i..][1..] == ms[i + 1..];
    assert params[i..][0] == params[i] && params[i..][1..] == params[i + 1..];
  }

  lemma NextCheck(fn: Expr, params: seq<Field>, ms: seq<Expr>, now: seq<Expr>, i: nat, said: seq<ErrorMessage>, bad: bool)
    requires |params| == |ms| && AllTyped(ms) && i < |ms| && CheckedSoFar(fn, params, ms, now, i, said, bad)
    ensures now[i] == ms[i] && !CheckAssignmentConstraints(params[i].ty, ms[i]).AssignStops?
    ensures var r := CheckAssignmentConstraints(params[i].ty, ms[i]);
            if r.Assignable? then CheckedSoFar(fn, params, ms, now[i := r.e], i + 1, said, bad)
            else CheckedSoFar(fn, params, ms, now, i + 1, said + [IncorrectCallArgType], true)
  {
    hide CheckAssignmentConstraints, Erase, CheckArgs;
    assert now[i] == now[i..][0] == ms[i] && now[i..][1..] == now[i + 1..] && ms[i..][1..] == ms[i + 1..];
    UnfoldChecks(fn, params, ms, i);
    var r := CheckAssignmentConstraints(params[i].ty, ms[i]);
    var rest := CheckArgs(fn, params[i + 1..], ms[i + 1..]);
    if r.Assignable? {
      var after := now[i := r.e];
      assert after[..i + 1] == now[..i] + [r.e] && after[i + 1..] == ms[i + 1..];
      assert now[..i] + ([r.e] + rest.args) == after[..i + 1] + rest.args;
    } else {
      assert now[..i] + ([ms[i]] + rest.args) == now[..i + 1] + rest.args;
      assert said + ([IncorrectCallArgType] + rest.errs) == said + [IncorrectCallArgType] + rest.errs;
    }
  }

  lemma LastCheck(fn: Expr, params: seq<Field>, ms: seq<Expr>, now: seq<Expr>, said: seq<ErrorMessage>, bad: bool)
    requires |params| == |ms| && AllTyped(ms) && CheckedSoFar(fn, params, ms, now, |ms|, said, bad)
    ensures CheckArgs(fn, params, ms) == ArgsVisited(now, said, !bad)
  {
    assert ms[|ms|..] == [] && now[..|ms|] == now;
  }

  lemma HasNodes(ks: seq<Node>, i: nat)
    requires i < |ks| && Forest(ks)
    ensures ks[i] in Nodes(ks)
  {
    assert ks[i].Valid();
  }

  /** Of the nodes on which the checker does not stop only bad expressions are left. */
  lemma OnlyBad(env: Env, n: Node)
    requires n.Valid() && Visit(env, n.model).Checked?
    requires n.tag.BuiltinCallTag? || n.tag.CastTag? || n.tag.BadTag?
    ensures Visit(env, n.model) == Checked(n.model, [])
  {
  }

  /** The rest of a call visit once the function is visited. */
  function FinishCall(env: Env, f: Expr, args: seq<Expr>, ty: Label, errs: seq<ErrorMessage>): Result {
    if f.ty.None? then Checked(Expr(Call(f, args), ty), errs)
    else if !f.ty.value.Function? then Checked(Expr(Call(f, args), ty), errs + [NonFunction])
    else if |args| != |f.ty.value.params| then
      if f.node.Ident? then Checked(Expr(Call(f, args), ty), errs + [MismatchedCallArgs]) else Stopped(BadCast)
    else
      var a := VisitArgs(env, args);
      if a.ArgsStopped? then Stopped(a.why)
      else if !a.typed then Checked(Expr(Call(f, a.args), ty), errs + a.errs)
      else VisitCall(f, a.args, ty, errs + a.errs)
  }

  lemma CallVisit(env: Env, fn: Expr, args: seq<Expr>, ty: Label)
    requires Visit(env, Expr(Call(fn, args), ty)).Checked?
    ensures Visit(env, fn).Checked?
    ensures Visit(env, Expr(Call(fn, args), ty)) == FinishCall(env, Visit(env, fn).e, args, ty, Visit(env, fn).errs)
  {
    hide VisitCall, VisitArgs;
  }

  /** The end of a call visit when the function takes as many arguments. */
  lemma CallArgs(env: Env, f: Expr, ms: seq<Expr>, ty: Label, errs: seq<ErrorMessage>, params: seq<Field>, ret: Type)
    requires f.ty == Some(Function(params, ret)) && |ms| == |params| && FinishCall(env, f, ms, ty, errs).Checked?
    ensures VisitArgs(env, ms).ArgsVisited?
    ensures var a, r := VisitArgs(env, ms), FinishCall(env, f, ms, ty, errs);
            if !a.typed then r == Checked(Make(CallTag, [f] + a.args, ty), errs + a.errs)
            else
              && AllTyped(a.args) && CheckArgs(f, params, a.args).ArgsVisited?
              && var c := CheckArgs(f, params, a.args);
                 r == Checked(Make(CallTag, [f] + c.args, if c.typed then Some(ret) else ty), errs + a.errs + c.errs)
  {
    hide VisitArgs, CheckArgs;
    var a := VisitArgs(env, ms);
    assert ([f] + a.args)[1..] == a.args;
    if a.typed {
      var c := CheckArgs(f, params, a.args);
      assert ([f] + c.args)[1..] == c.args;
    }
  }

  lemma OpenCall(env: Env, n: Node)
    requires n.Valid() && n.tag.CallTag? && Visit(env, n.model).Checked?
    ensures |n.kids| > 0 && n.kids[0].model < n.model && Visit(env, n.kids[0].model).Checked?
    ensures forall i :: 0 < i < |n.kids| ==> n.kids[i].model < n.model
    ensures var v := Visit(env, n.kids[0].model);
            Visit(env, n.model) == FinishCall(env, v.e, Models(n.kids)[1..], n.ty, v.errs)
  {
    hide Models, Visit, FinishCall;
    Inside(n);
    var ms := Models(n.kids);
    CallVisit(env, ms[0], ms[1..], n.ty);
    forall i | 0 < i < |n.kids| ensures n.kids[i].model < n.model {
      assert ms[1..][i - 1] == n.kids[i].model;
    }
  }

  /** A visited function and its arguments, sharing no node with each other or with the call. */
  ghost predicate CallPlaced(n: Node, fn: Node, args: seq<Node>)
    reads n, fn, fn.Repr, args, Nodes(args)
  {
    fn.Valid() && Forest(args) && fn.Repr !! Nodes(args) && n !in fn.Repr && n !in Nodes(args)
  }

  lemma SplitForest(ks: seq<Node>)
    requires Forest(ks) && |ks| > 0
    ensures ks[0].Valid() && Forest(ks[1..]) && ks[0].Repr !! Nodes(ks[1..])
    ensures Nodes(ks) == ks[0].Repr + Nodes(ks[1..]) && Models(ks)[1..] == Models(ks[1..])
  {
    hide Node.Valid, Models;
    assert forall i :: 0 <= i < |ks| - 1 ==> ks[1..][i] == ks[i + 1];
    SplitNodes(ks);
    SplitModels(ks);
  }

  lemma SplitNodes(ks: seq<Node>)
    requires |ks| > 0
    ensures Nodes(ks) == ks[0].Repr + Nodes(ks[1..])
  {
    forall o | o in Nodes(ks) ensures o in ks[0].Repr + Nodes(ks[1..]) {
      var k :| k in ks && o in k.Repr;
      assert k == ks[0] || k in ks[1..];
    }
  }

  lemma SplitModels(ks: seq<Node>)
    requires |ks| > 0
    ensures Models(ks)[1..] == Models(ks[1..])
  {
  }

  lemma JoinForest(k: Node, ks: seq<Node>)
    requires k.Valid() && Forest(ks) && k.Repr !! Nodes(ks)
    ensures Forest([k] + ks) && Nodes([k] + ks) == k.Repr + Nodes(ks) && Models([k] + ks) == [k.model] + Models(ks)
    ensures Arity(CallTag, |[k] + ks|)
  {
    hide Node.Valid, Models;
    var all := [k] + ks;
    assert all[1..] == ks && all[0] == k;
    forall i, j | 0 <= i < j < |all| ensures all[i].Repr !! all[j].Repr {
      InNodes(ks, j - 1);
    }
    forall o | o in k.Repr + Nodes(ks) ensures o in Nodes(all) {
      if o in k.Repr { assert k in all; } else {
        var x :| x in ks && o in x.Repr;
        assert x in all;
      }
    }
    forall i | 0 <= i < |all| ensures Models(all)[i] == ([k.model] + Models(ks))[i] {}
  }

  lemma InNodes(ks: seq<Node>, i: nat)
    requires i < |ks|
    ensures ks[i].Repr <= Nodes(ks)
  {
  }

  lemma MakeLabel(t: Tag, kids: seq<Expr>, ty: Label, other: Label)
    requires Arity(t, |kids|)
    ensures Expr(Make(t, kids, ty).node, other) == Make(t, kids, other)
  {
  }

  /** The visited children of n: trees that share no node and do not hold n. */
  ghost predicate Placed(n: Node, l: Node, r: Node)
    reads n, l, r, l.Repr, r.Repr
  {
    Pair(l, r) && n !in l.Repr && n !in r.Repr && Arity(n.tag, 2)
  }

  /** The two attempts of the comparison check, one after the other. */
  lemma ComparisonAttempts(op: TokenType, left: Expr, right: Expr)
    requires left.ty.Some? && right.ty.Some? && !CheckComparisonOperands(op, left, right).OperandsStop?
    ensures var o, a := CheckComparisonOperands(op, left, right), CheckAssignmentConstraints(right.ty.value, left);
            && !a.AssignStops?
            && (a.Assignable? ==> o == CompareResult(op, a.e, right))
            && (a.NotAssignable? ==>
                  var b := CheckAssignmentConstraints(left.ty.value, right);
                  && !b.AssignStops?
                  && (b.Assignable? ==> o == CompareResult(op, left, b.e))
                  && (b.NotAssignable? ==> o == Operands(None, left, right, [IllegalTypesForBinary])))
  {
    hide CheckAssignmentConstraints, CompareResult;
  }

  class Checker {
    const scope: Scope
    var errors: seq<ErrorMessage>

    constructor (scope: Scope)
      requires scope.Valid()
      ensures this.scope == scope && errors == []
    {
      this.scope := scope;
      errors := [];
    }

    method Report(m: ErrorMessage)
      modifies this
      ensures errors == old(errors) + [m]
    {
      errors := errors + [m];
    }

    /** Returns the expression to use: the node itself, relabelled if it is a literal, or a new cast. */
    method CheckAssignment(target: Type, e: Node) returns (ok: bool, expr: Node)
      requires e.Valid() && e.ty.Some? && !CheckAssignmentConstraints(target, e.model).AssignStops?
      modifies e`ty, e`model
      ensures e.Valid() && expr.Valid() && e.Repr == old(e.Repr) && e.kids == old(e.kids)
      ensures var r := CheckAssignmentConstraints(target, old(e.model));
              (ok <==> r.Assignable?) && (r.Assignable? ==> expr.model == r.e)
      ensures !ok ==> expr == e && e.model == old(e.model) && e.ty == old(e.ty)
      ensures expr == e || (fresh(expr) && expr.Repr == {expr} + e.Repr)
    {
      hide Make, Arity, Models, Erase;
      LitNode(e);
      if e.ty.value == target {
        return true, e;
      }
      if e.tag.LitTag? {
        if IsRepresentable(e.tag.lit, target) {
          e.SetType(Some(target));
          return true, e;
        }
        return false, e;
      }
      if target.Array? {
        if e.ty.value.Pointer? && e.ty.value.base.Array? {
          var base := e.ty.value.base;
          if target.HasUnknownLength() && base.HasKnownLength() && target.elem == base.elem {
            expr := WrapCast(e, BitCast, target);
            return true, expr;
          }
        }
      }
      if target.Is(Bool) && e.ty.value.Is(BooleanVal) {
        expr := WrapCast(e, SqlBoolToBool, target);
        return true, expr;
      }
      return false, e;
    }
  
    /** ToBool of the specification on a node. */
    method CastToBool(e: Node) returns (r: Node)
      requires e.Valid() && e.ty.Some?
      ensures r.Valid() && r.model == ToBool(e.model) && r.ty.Some? && r.ty == r.model.ty
      ensures r == e || (fresh(r) && r.Repr == {r} + e.Repr)
    {
      hide Erase;
      LitNode(e);
      if e.ty.value.Is(BooleanVal) {
        r := WrapCast(e, SqlBoolToBool, Builtin(Bool));
        LitNode(r);
      } else {
        r := e;
      }
    }

    method CheckLogical(left: Node, right: Node) returns (ty: Label, l: Node, r: Node)
      requires Pair(left, right) && left.ty.Some? && right.ty.Some?
      modifies this
      ensures Pair(l, r) && fresh(l.Repr - left.Repr) && fresh(r.Repr - right.Repr)
      ensures var o := CheckLogicalOperands(left.model, right.model);
              ty == o.ty && l.model == o.left && r.model == o.right && errors == old(errors) + o.errs
    {
      hide Node.Valid, Make, Models, Arity, Erase;
      LitNode(left);
      LitNode(right);
      l := CastToBool(left);
      r := CastToBool(right);
      if l.ty.value.Is(Bool) && r.ty.value.Is(Bool) {
        return Some(Builtin(Bool)), l, r;
      }
      Report(MismatchedTypesToBinary);
      return None, l, r;
    }

    method CheckArithmetic(left: Node, right: Node) returns (ty: Label, l: Node, r: Node)
      requires Pair(left, right) && left.ty.Some? && right.ty.Some?
      requires !CheckArithmeticOperands(left.model, right.model).OperandsStop?
      modifies this, left`ty, left`model, right`ty, right`model
      ensures Pair(l, r) && fresh(l.Repr - old(left.Repr)) && fresh(r.Repr - old(right.Repr))
      ensures var o := CheckArithmeticOperands(old(left.model), old(right.model));
              ty == o.ty && l.model == o.left && r.model == o.right && errors == old(errors) + o.errs
    {
      hide Node.Valid, Make, Models, Arity, Erase, CheckAssignmentConstraints;
      LitNode(left);
      LitNode(right);
      var lt, rt := left.ty.value, right.ty.value;
      if !lt.IsArithmetic() || !rt.IsArithmetic() {
        Report(IllegalTypesForBinary);
        return None, left, right;
      }
      if lt == rt {
        return Some(lt), left, right;
      }
      var ok;
      ok, r := CheckAssignment(lt, right);
      if ok {
        return Some(lt), left, r;
      }
      ok, l := CheckAssignment(rt, left);
      if ok {
        return Some(rt), l, right;
      }
      Report(IllegalTypesForBinary);
      return None, left, right;
    }

    method CheckComparison(op: TokenType, left: Node, right: Node) returns (ty: Label, l: Node, r: Node)
      requires Pair(left, right) && left.ty.Some? && right.ty.Some?
      requires !CheckComparisonOperands(op, left.model, right.model).OperandsStop?
      modifies this, left`ty, left`model, right`ty, right`model
      ensures Pair(l, r) && fresh(l.Repr - old(left.Repr)) && fresh(r.Repr - old(right.Repr))
      ensures var o := CheckComparisonOperands(op, old(left.model), old(right.model));
              ty == o.ty && l.model == o.left && r.model == o.right && errors == old(errors) + o.errs
    {
      hide Node.Valid, Make, Models, Arity, Erase, CheckAssignmentConstraints, CompareResult, CheckComparisonOperands;
      LitNode(left);
      LitNode(right);
      ComparisonAttempts(op, left.model, right.model);
      var ok;
      ok, l := CheckAssignment(right.ty.value, left);
      if ok {
        ty := CompareTypes(op, l, right);
        return ty, l, right;
      }
      ty, r := CompareRight(op, left, right);
      return ty, left, r;
    }

    /** The second attempt, which converts the right operand. */
    method CompareRight(op: TokenType, left: Node, right: Node) returns (ty: Label, r: Node)
      requires Pair(left, right) && left.ty.Some? && right.ty.Some?
      requires CheckAssignmentConstraints(right.ty.value, left.model).NotAssignable?
      requires !CheckComparisonOperands(op, left.model, right.model).OperandsStop?
      modifies this, right`ty, right`model
      ensures Pair(left, r) && fresh(r.Repr - old(right.Repr))
      ensures var o := CheckComparisonOperands(op, old(left.model), old(right.model));
              ty == o.ty && left.model == o.left && r.model == o.right && errors == old(errors) + o.errs
    {
      hide Node.Valid, Make, Models, Arity, Erase, CheckAssignmentConstraints, CompareResult, CheckComparisonOperands;
      LitNode(left);
      LitNode(right);
      ComparisonAttempts(op, left.model, right.model);
      var ok;
      ok, r := CheckAssignment(left.ty.value, right);
      if ok {
        ty := CompareTypes(op, left, r);
        return ty, r;
      }
      Report(IllegalTypesForBinary);
      return None, right;
    }

    /** The end of the comparison check, once both operands have one type. */
    method CompareTypes(op: TokenType, l: Node, r: Node) returns (ty: Label)
      requires Pair(l, r) && l.model.ty.Some? && r.model.ty.Some?
      modifies this
      ensures Pair(l, r)
      ensures var o := CompareResult(op, l.model, r.model); ty == o.ty && errors == old(errors) + o.errs
    {
      hide Node.Valid, Make, Models, Arity;
      LitNode(l);
      if l.ty.value.Pointer? && !IsEqualityOp(op) {
        Report(IllegalTypesForBinary);
        return None;
      }
      if l.ty.value.IsSqlValue() {
        return Some(Builtin(BooleanVal));
      }
      return Some(Builtin(Bool));
    }
  
    // ---------- The visitor ----------

    /** Visits an expression on which the checker does not stop: the node then holds the tree of the
        specification, and the reporter its errors. */
    method VisitNode(n: Node)
      requires scope.Valid() && n.Valid() && Visit(scope.Chain, n.model).Checked?
      modifies this, n.Repr
      ensures scope.Valid() && scope.Chain == old(scope.Chain)
      ensures n.Valid() && fresh(n.Repr - old(n.Repr))
      ensures var r := Visit(old(scope.Chain), old(n.model)); n.model == r.e && errors == old(errors) + r.errs
      decreases n.model, 2
    {
      hide Visit, Node.Valid;
      if n.tag.BinaryTag? {
        VisitBinaryOp(n);
      } else if n.tag.CompareTag? {
        VisitComparisonOp(n);
      } else if n.tag.IndexTag? {
        VisitIndexExpression(n);
      } else if n.tag.LitTag? {
        VisitLiteralExpression(n);
      } else if n.tag.IdentTag? {
        VisitIdentifierExpression(n);
      } else if n.tag.UnaryTag? {
        VisitUnaryOp(n);
      } else if n.tag.MemberTag? {
        VisitMemberExpression(n);
      } else if n.tag.CallTag? {
        VisitCallExpression(n);
      } else {
        OnlyBad(scope.Chain, n);
      }
    }

    /** Resolves the two children of a node. */
    method ResolveBoth(n: Node)
      requires scope.Valid() && n.Valid() && |n.kids| == 2
      requires Visit(scope.Chain, n.kids[0].model).Checked? && Visit(scope.Chain, n.kids[1].model).Checked?
      requires n.kids[0].model < n.model && n.kids[1].model < n.model
      modifies this, n.Repr
      ensures scope.Valid() && scope.Chain == old(scope.Chain)
      ensures n.kids == old(n.kids) && n.ty == old(n.ty) && n.Repr == old(n.Repr)
      ensures var l, r := n.kids[0], n.kids[1];
              && Pair(l, r) && n !in l.Repr && n !in r.Repr && fresh(l.Repr + r.Repr - old(n.Repr))
              && var v, w := Visit(old(scope.Chain), old(n.kids[0].model)), Visit(old(scope.Chain), old(n.kids[1].model));
                 l.model == v.e && r.model == w.e && errors == old(errors) + (v.errs + w.errs)
      decreases n.model, 0
    {
      hide Visit, Node.Valid, Make, Models, Arity;
      Inside(n);
      ForestPair(n.kids);
      var l, r := n.kids[0], n.kids[1];
      VisitNode(l);
      VisitNode(r);
    }

    /** Sets both children and the label. */
    method PutTwo(n: Node, l: Node, r: Node, ty: Label)
      requires Arity(n.tag, 2) && Pair(l, r) && n !in l.Repr && n !in r.Repr
      modifies n
      ensures n.Valid() && n.Repr == {n} + l.Repr + r.Repr && n.model == Make(n.tag, [l.model, r.model], ty)
      ensures Pair(l, r)
    {
      hide Node.Valid, Make, Models, Arity;
      PairForest(l, r);
      n.SetKids([l, r]);
      MakeLabel(n.tag, [l.model, r.model], n.ty, ty);
      n.SetType(ty);
    }

    method CheckBinary(n: Node, left: Node, right: Node, ghost before: seq<ErrorMessage>, ghost errs: seq<ErrorMessage>)
      requires n.tag.BinaryTag? && Placed(n, left, right) && errors == before + errs
      requires FinishTwo(n.tag, left.model, right.model, n.ty, errs).Checked?
      modifies this, n, left, right
      ensures n.Valid() && fresh(n.Repr - old({n} + left.Repr + right.Repr))
      ensures var r := FinishTwo(n.tag, old(left.model), old(right.model), old(n.ty), errs);
              n.model == r.e && errors == before + r.errs
    {
      hide Node.Valid, Models, Arity, CheckLogicalOperands, CheckArithmeticOperands;
      LitNode(left);
      LitNode(right);
      var op := n.tag.op;
      if left.ty.None? || right.ty.None? {
        PutTwo(n, left, right, n.ty);
        return;
      }
      var ty, l, r;
      if op.AND? || op.OR? {
        ty, l, r := CheckLogical(left, right);
      } else if IsArithmeticOp(op) {
        ty, l, r := CheckArithmetic(left, right);
      } else {
        PutTwo(n, left, right, n.ty);
        return;
      }
      PutTwo(n, l, r, ty);
    }

    method VisitBinaryOp(n: Node)
      requires n.tag.BinaryTag? && scope.Valid() && n.Valid() && Visit(scope.Chain, n.model).Checked?
      modifies this, n.Repr
      ensures scope.Valid() && scope.Chain == old(scope.Chain)
      ensures n.Valid() && fresh(n.Repr - old(n.Repr))
      ensures var r := Visit(old(scope.Chain), old(n.model)); n.model == r.e && errors == old(errors) + r.errs
      decreases n.model, 1
    {
      hide Visit, FinishTwo, Node.Valid, Make, Models, Arity;
      OpenTwo(scope.Chain, n);
      ghost var v, w := Visit(scope.Chain, n.kids[0].model), Visit(scope.Chain, n.kids[1].model);
      ResolveBoth(n);
      CheckBinary(n, n.kids[0], n.kids[1], old(errors), v.errs + w.errs);
    }

    method CheckCompare(n: Node, left: Node, right: Node, ghost before: seq<ErrorMessage>, ghost errs: seq<ErrorMessage>)
      requires n.tag.CompareTag? && Placed(n, left, right) && errors == before + errs
      requires FinishTwo(n.tag, left.model, right.model, n.ty, errs).Checked?
      modifies this, n, left, right
      ensures n.Valid() && fresh(n.Repr - old({n} + left.Repr + right.Repr))
      ensures var r := FinishTwo(n.tag, old(left.model), old(right.model), old(n.ty), errs);
              n.model == r.e && errors == before + r.errs
    {
      hide Node.Valid, Models, Arity, CheckComparisonOperands;
      LitNode(left);
      LitNode(right);
      if left.ty.None? || right.ty.None? || !IsCompareOp(n.tag.op) {
        PutTwo(n, left, right, n.ty);
        return;
      }
      var ty, l, r := CheckComparison(n.tag.op, left, right);
      PutTwo(n, l, r, ty);
    }

    method VisitComparisonOp(n: Node)
      requires n.tag.CompareTag? && scope.Valid() && n.Valid() && Visit(scope.Chain, n.model).Checked?
      modifies this, n.Repr
      ensures scope.Valid() && scope.Chain == old(scope.Chain)
      ensures n.Valid() && fresh(n.Repr - old(n.Repr))
      ensures var r := Visit(old(scope.Chain), old(n.model)); n.model == r.e && errors == old(errors) + r.errs
      decreases n.model, 1
    {
      hide Visit, FinishTwo, Node.Valid, Make, Models, Arity;
      OpenTwo(scope.Chain, n);
      ghost var v, w := Visit(scope.Chain, n.kids[0].model), Visit(scope.Chain, n.kids[1].model);
      ResolveBoth(n);
      CheckCompare(n, n.kids[0], n.kids[1], old(errors), v.errs + w.errs);
    }

    method CheckIndex(n: Node, left: Node, right: Node, ghost before: seq<ErrorMessage>, ghost errs: seq<ErrorMessage>)
      requires n.tag.IndexTag? && Placed(n, left, right) && errors == before + errs
      requires FinishTwo(n.tag, left.model, right.model, n.ty, errs).Checked?
      modifies this, n, left, right
      ensures n.Valid() && fresh(n.Repr - old({n} + left.Repr + right.Repr))
      ensures var r := FinishTwo(n.tag, old(left.model), old(right.model), old(n.ty), errs);
              n.model == r.e && errors == before + r.errs
    {
      hide Node.Valid, Models, Arity;
      LitNode(left);
      LitNode(right);
      PutTwo(n, left, right, n.ty);
      LitNode(right);
      if left.ty.None? || right.ty.None? {
        return;
      }
      var t := left.ty.value;
      if !t.Array? && !t.Map? {
        Report(InvalidIndexOperation);
        return;
      }
      if !right.ty.value.IsInteger() {
        Report(NonIntegerArrayIndexValue);
        return;
      }
      if t.Array? {
        if right.tag.LitTag? && right.tag.lit.IntLit? {
          var value := right.tag.lit.n;
          if value < 0 {
            Report(NegativeArrayIndexValue);
            return;
          }
          if t.HasKnownLength() && value >= t.length {
            Report(OutOfBoundsArrayIndexValue);
            return;
          }
        }
        n.SetType(Some(t.elem));
      } else {
        n.SetType(Some(t.val));
      }
    }

    method VisitIndexExpression(n: Node)
      requires n.tag.IndexTag? && scope.Valid() && n.Valid() && Visit(scope.Chain, n.model).Checked?
      modifies this, n.Repr
      ensures scope.Valid() && scope.Chain == old(scope.Chain)
      ensures n.Valid() && fresh(n.Repr - old(n.Repr))
      ensures var r := Visit(old(scope.Chain), old(n.model)); n.model == r.e && errors == old(errors) + r.errs
      decreases n.model, 1
    {
      hide Visit, FinishTwo, Node.Valid, Make, Models, Arity;
      OpenTwo(scope.Chain, n);
      ghost var v, w := Visit(scope.Chain, n.kids[0].model), Visit(scope.Chain, n.kids[1].model);
      ResolveBoth(n);
      CheckIndex(n, n.kids[0], n.kids[1], old(errors), v.errs + w.errs);
    }
  
    method VisitLiteralExpression(n: Node)
      requires n.tag.LitTag? && scope.Valid() && n.Valid() && Visit(scope.Chain, n.model).Checked?
      modifies this, n.Repr
      ensures scope.Valid() && scope.Chain == old(scope.Chain)
      ensures n.Valid() && fresh(n.Repr - old(n.Repr))
      ensures var r := Visit(old(scope.Chain), old(n.model)); n.model == r.e && errors == old(errors) + r.errs
      decreases n.model, 1
    {
      hide Node.Valid, Models, Arity, NaturalType, Visit;
      LitNode(n);
      VisitLeaf(scope.Chain, n.model);
      n.SetType(Some(NaturalType(n.tag.lit)));
    }

    method VisitIdentifierExpression(n: Node)
      requires n.tag.IdentTag? && scope.Valid() && n.Valid() && Visit(scope.Chain, n.model).Checked?
      modifies this, n.Repr
      ensures scope.Valid() && scope.Chain == old(scope.Chain)
      ensures n.Valid() && fresh(n.Repr - old(n.Repr))
      ensures var r := Visit(old(scope.Chain), old(n.model)); n.model == r.e && errors == old(errors) + r.errs
      decreases n.model, 1
    {
      hide Node.Valid, Models, Arity, Visit, Lookup, LookupBuiltinType;
      IdentNode(n);
      VisitLeaf(scope.Chain, n.model);
      var t := scope.LookupName(n.tag.name);
      if t.Some? {
        n.SetType(t);
        return;
      }
      t := LookupBuiltinType(n.tag.name);
      if t.Some? {
        n.SetType(t);
        return;
      }
      Report(UndefinedVariable);
    }

    method VisitUnaryOp(n: Node)
      requires n.tag.UnaryTag? && scope.Valid() && n.Valid() && Visit(scope.Chain, n.model).Checked?
      modifies this, n.Repr
      ensures scope.Valid() && scope.Chain == old(scope.Chain)
      ensures n.Valid() && fresh(n.Repr - old(n.Repr))
      ensures var r := Visit(old(scope.Chain), old(n.model)); n.model == r.e && errors == old(errors) + r.errs
      decreases n.model, 1
    {
      hide Node.Valid, Make, Models, Arity, Visit, VisitUnary, UnaryType, IsCheckedUnaryOp;
      OpenUnary(scope.Chain, n);
      ResolveFirst(n);
      var input := n.kids[0];
      LitNode(input);
      PutOne(n, input);
      UnaryLabels(n.tag.op, input.model, n.ty, Visit(old(scope.Chain), old(n.kids[0].model)).errs);
      if input.ty.None? { return; }
      var t := UnaryType(n.tag.op, input.ty.value);
      if t.Some? {
        MakeLabel(n.tag, [input.model], n.ty, t);
        n.SetType(t);
      } else {
        Report(InvalidOperation);
      }
    }

    /** Only the object is visited; the member is a name to look up. */
    method VisitMemberExpression(n: Node)
      requires n.tag.MemberTag? && scope.Valid() && n.Valid() && Visit(scope.Chain, n.model).Checked?
      modifies this, n.Repr
      ensures scope.Valid() && scope.Chain == old(scope.Chain)
      ensures n.Valid() && fresh(n.Repr - old(n.Repr))
      ensures var r := Visit(old(scope.Chain), old(n.model)); n.model == r.e && errors == old(errors) + r.errs
      decreases n.model, 1
    {
      hide Node.Valid, Make, Models, Arity, Visit, VisitMember;
      OpenMember(scope.Chain, n);
      ResolveFirst(n);
      CheckMember(n, n.kids[0], n.kids[1], old(errors), Visit(old(scope.Chain), old(n.kids[0].model)).errs);
    }

    method CheckMember(n: Node, obj: Node, member: Node, ghost before: seq<ErrorMessage>, ghost errs: seq<ErrorMessage>)
      requires n.tag.MemberTag? && Placed(n, obj, member) && errors == before + errs
      modifies this, n
      ensures n.Valid() && n.Repr == {n} + obj.Repr + member.Repr
      ensures var r := VisitMember(obj.model, member.model, old(n.ty), errs);
              r.Checked? && n.model == r.e && errors == before + r.errs
    {
      hide Node.Valid, Models, Arity, LookupField;
      LitNode(obj);
      IdentNode(member);
      PutTwo(n, obj, member, n.ty);
      if obj.ty.None? { return; }
      var t := obj.ty.value;
      if t.Pointer? {
        t := t.base;
      }
      if !t.Struct? {
        Report(MemberObjectNotComposite);
        return;
      }
      if !member.tag.IdentTag? {
        Report(ExpectedIdentifierForMember);
        return;
      }
      var m := LookupField(t.fields, member.tag.name);
      if m.None? {
        Report(FieldObjectDoesNotExist);
        return;
      }
      n.SetType(m);
    }

    /** Resolves the first child of a node. */
    method ResolveFirst(n: Node)
      requires scope.Valid() && n.Valid() && |n.kids| > 0
      requires Visit(scope.Chain, n.kids[0].model).Checked? && n.kids[0].model < n.model
      modifies this, n.Repr
      ensures scope.Valid() && scope.Chain == old(scope.Chain)
      ensures n.kids == old(n.kids) && n.ty == old(n.ty) && n.Repr == old(n.Repr)
      ensures Forest(n.kids) && n !in Nodes(n.kids) && fresh(Nodes(n.kids) - old(n.Repr))
      ensures var v := Visit(old(scope.Chain), old(n.kids[0].model));
              n.kids[0].model == v.e && errors == old(errors) + v.errs
      ensures Models(n.kids)[1..] == old(Models(n.kids)[1..])
      decreases n.model, 0
    {
      hide Visit, Node.Valid, Make, Models, Arity;
      Inside(n);
      var ks := n.kids;
      ghost var ms := Models(ks);
      VisitNode(ks[0]);
      assert n.kids == ks;
      assert Models(ks)[1..] == ms[1..];
    }

    method PutOne(n: Node, k: Node)
      requires Arity(n.tag, 1) && k.Valid() && n !in k.Repr
      modifies n
      ensures n.Valid() && n.Repr == {n} + k.Repr && n.ty == old(n.ty) && n.model == Make(n.tag, [k.model], n.ty)
      ensures k.Valid()
    {
      hide Node.Valid, Make, Models, Arity;
      assert Nodes([k]) == k.Repr;
      assert Models([k])[0] == k.model;
      assert Models([k]) == [k.model];
      n.SetKids([k]);
    }
  
    // ---------- Calls ----------

    /** Resolves one argument; the others stay as they are. */
    method ResolveArgument(args: seq<Node>, i: nat, ghost call: Expr)
      requires scope.Valid() && Forest(args) && i < |args| && args[i].model < call
      requires Visit(scope.Chain, args[i].model).Checked?
      modifies this, args[i].Repr
      ensures scope.Valid() && scope.Chain == old(scope.Chain)
      ensures Forest(args) && forall o :: o in Nodes(args) ==> o in old(Nodes(args)) || fresh(o)
      ensures var v := Visit(old(scope.Chain), old(args[i].model));
              args[i].ty == v.e.ty && Models(args) == old(Models(args))[i := v.e] && errors == old(errors) + v.errs
      decreases call, 0, 0
    {
      hide Visit, Node.Valid, Make, Models, Arity;
      VisitNode(args[i]);
      LitNode(args[i]);
    }

    /** Resolves the arguments from the left and gives up at the first one without a type. */
    method ResolveArguments(args: seq<Node>, ghost call: Expr) returns (typed: bool)
      requires scope.Valid() && Forest(args) && VisitArgs(scope.Chain, Models(args)).ArgsVisited?
      requires forall i :: 0 <= i < |args| ==> args[i].model < call
      modifies this, Nodes(args)
      ensures scope.Valid() && scope.Chain == old(scope.Chain)
      ensures Forest(args) && forall o :: o in Nodes(args) ==> o in old(Nodes(args)) || fresh(o)
      ensures var r := VisitArgs(old(scope.Chain), old(Models(args)));
              Models(args) == r.args && typed == r.typed && errors == old(errors) + r.errs
      decreases call, 0, 1
    {
      hide Visit, VisitArgs, Node.Valid, Make, Models, Arity, ArgsSoFar, Forest, Nodes;
      ghost var env, ms, before, nodes := scope.Chain, Models(args), errors, Nodes(args);
      ghost var said: seq<ErrorMessage> := [];
      StartArgs(env, ms);
      for i := 0 to |args|
        invariant scope.Valid() && scope.Chain == env
        invariant Forest(args) && errors == before + said
        invariant forall o :: o in Nodes(args) ==> o in nodes || fresh(o)
        invariant ArgsSoFar(env, ms, Models(args), i, said)
      {
        ghost var now := Models(args);
        NextArg(env, ms, now, i, said);
        InNodes(args, i);
        ResolveArgument(args, i, call);
        said := said + Visit(env, ms[i]).errs;
        if args[i].ty.None? {
          return false;
        }
      }
      LastArg(env, ms, Models(args), said);
      return true;
    }
  
    /** Checks one argument against its parameter; a cast takes the place of its argument. */
    method CheckArgument(args: seq<Node>, i: nat, target: Type) returns (ok: bool, now: seq<Node>)
      requires Forest(args) && i < |args| && args[i].model.ty.Some?
      requires !CheckAssignmentConstraints(target, args[i].model).AssignStops?
      modifies args[i]
      ensures |now| == |args| && Forest(now) && forall o :: o in Nodes(now) ==> o in old(Nodes(args)) || fresh(o)
      ensures var r := CheckAssignmentConstraints(target, old(args[i].model));
              && (ok <==> r.Assignable?)
              && Models(now) == if ok then old(Models(args))[i := r.e] else old(Models(args))
    {
      hide Node.Valid, Make, Models, Arity, Erase;
      LitNode(args[i]);
      var arg;
      ok, arg := CheckAssignment(target, args[i]);
      now := args[i := arg];
    }

    /** Checks all arguments, reporting every one that does not fit. */
    method CheckArguments(ghost fn: Expr, params: seq<Field>, args: seq<Node>) returns (hasErrors: bool, now: seq<Node>)
      requires Forest(args) && |params| == |args| && AllTyped(Models(args))
      requires CheckArgs(fn, params, Models(args)).ArgsVisited?
      modifies this, Nodes(args)
      ensures |now| == |args| && Forest(now) && forall o :: o in Nodes(now) ==> o in old(Nodes(args)) || fresh(o)
      ensures var r := CheckArgs(fn, params, old(Models(args)));
              Models(now) == r.args && (hasErrors <==> !r.typed) && errors == old(errors) + r.errs
    {
      hide Node.Valid, Make, Models, Arity, Nodes, CheckArgs, CheckedSoFar, CheckAssignmentConstraints;
      ghost var ms, before, nodes := Models(args), errors, Nodes(args);
      ghost var said: seq<ErrorMessage> := [];
      hasErrors, now := false, args;
      StartChecks(fn, params, ms);
      for i := 0 to |args|
        invariant |now| == |args| && Forest(now) && errors == before + said
        invariant forall o :: o in Nodes(now) ==> o in nodes || fresh(o)
        invariant CheckedSoFar(fn, params, ms, Models(now), i, said, hasErrors)
      {
        NextCheck(fn, params, ms, Models(now), i, said, hasErrors);
        HasNodes(now, i);
        var ok;
        ok, now := CheckArgument(now, i, params[i].ty);
        if !ok {
          hasErrors := true;
          Report(IncorrectCallArgType);
          assert errors == before + (said + [IncorrectCallArgType]);
          said := said + [IncorrectCallArgType];
        }
      }
      LastCheck(fn, params, ms, Models(now), said, hasErrors);
    }
  
    method VisitCallExpression(n: Node)
      requires n.tag.CallTag? && scope.Valid() && n.Valid() && Visit(scope.Chain, n.model).Checked?
      modifies this, n.Repr
      ensures scope.Valid() && scope.Chain == old(scope.Chain)
      ensures n.Valid() && fresh(n.Repr - old(n.Repr))
      ensures var r := Visit(old(scope.Chain), old(n.model)); n.model == r.e && errors == old(errors) + r.errs
      decreases n.model, 1
    {
      hide Visit, VisitArgs, FinishCall, Node.Valid, Make, Models, Arity, Forest, Nodes;
      OpenCall(scope.Chain, n);
      ResolveFirst(n);
      SplitForest(n.kids);
      CheckCall(n, n.kids[0], n.kids[1..], old(n.model), old(errors), Visit(old(scope.Chain), old(n.kids[0].model)).errs);
    }

    /** The call once its function is resolved: count, resolve and check the arguments. */
    method CheckCall(n: Node, fn: Node, args: seq<Node>, ghost call: Expr,
                     ghost before: seq<ErrorMessage>, ghost errs: seq<ErrorMessage>)
      requires n.tag.CallTag? && scope.Valid() && CallPlaced(n, fn, args) && errors == before + errs
      requires FinishCall(scope.Chain, fn.model, Models(args), n.ty, errs).Checked?
      requires forall i :: 0 <= i < |args| ==> args[i].model < call
      modifies this, n, Nodes(args)
      ensures scope.Valid() && scope.Chain == old(scope.Chain)
      ensures n.Valid() && fresh(n.Repr - old({n} + fn.Repr + Nodes(args)))
      ensures var r := FinishCall(old(scope.Chain), old(fn.model), old(Models(args)), old(n.ty), errs);
              n.model == r.e && errors == before + r.errs
      decreases call, 1, 1
    {
      hide Visit, VisitArgs, CheckArgs, Node.Valid, Models, Arity;
      LitNode(fn);
      if fn.ty.None? {
        PutCall(n, fn, args, n.ty);
        return;
      }
      if !fn.ty.value.Function? {
        PutCall(n, fn, args, n.ty);
        Report(NonFunction);
        return;
      }
      var params, ret := fn.ty.value.params, fn.ty.value.ret;
      if |args| != |params| {
        PutCall(n, fn, args, n.ty);
        Report(MismatchedCallArgs);
        return;
      }
      CheckCallArguments(n, fn, args, params, ret, call, before, errs);
    }

    method CheckCallArguments(n: Node, fn: Node, args: seq<Node>, params: seq<Field>, ret: Type, ghost call: Expr,
                              ghost before: seq<ErrorMessage>, ghost errs: seq<ErrorMessage>)
      requires n.tag.CallTag? && scope.Valid() && CallPlaced(n, fn, args) && errors == before + errs
      requires fn.model.ty == Some(Function(params, ret)) && |args| == |params|
      requires FinishCall(scope.Chain, fn.model, Models(args), n.ty, errs).Checked?
      requires forall i :: 0 <= i < |args| ==> args[i].model < call
      modifies this, n, Nodes(args)
      ensures scope.Valid() && scope.Chain == old(scope.Chain)
      ensures n.Valid() && fresh(n.Repr - old({n} + fn.Repr + Nodes(args)))
      ensures var r := FinishCall(old(scope.Chain), old(fn.model), old(Models(args)), old(n.ty), errs);
              n.model == r.e && errors == before + r.errs
      decreases call, 1, 0
    {
      hide Visit, VisitArgs, CheckArgs, Node.Valid, Models, Arity, FinishCall, Forest, Nodes;
      ghost var env, f, ms, ty := scope.Chain, fn.model, Models(args), n.ty;
      CallArgs(env, f, ms, ty, errs, params, ret);
      ghost var nodes := Nodes(args);
      var typed := ResolveArguments(args, call);
      assert CallPlaced(n, fn, args) && fn.model == f && fn.Repr == old(fn.Repr) && n.ty == ty;
      if !typed {
        PutCall(n, fn, args, n.ty);
        return;
      }
      var hasErrors, now := CheckArguments(fn.model, params, args);
      assert CallPlaced(n, fn, now) && fn.model == f && fn.Repr == old(fn.Repr) && n.ty == ty;
      PutCall(n, fn, now, if hasErrors then n.ty else Some(ret));
    }

    method PutCall(n: Node, fn: Node, args: seq<Node>, ty: Label)
      requires n.tag.CallTag? && CallPlaced(n, fn, args)
      modifies n
      ensures n.Valid() && n.Repr == {n} + fn.Repr + Nodes(args)
      ensures n.model == Make(CallTag, [fn.model] + Models(args), ty)
    {
      hide Node.Valid, Make, Models, Arity;
      JoinForest(fn, args);
      n.SetKids([fn] + args);
      MakeLabel(CallTag, [fn.model] + Models(args), n.ty, ty);
      n.SetType(ty);
    }
  }

  /** What the checker does to a parsed expression in the heap: it changes labels and casts only; it
      reports nothing exactly when it finds a type, which is the one the typing rules give; and then the
      tree left behind has no coercion left to make. */
  method CheckExpression(c: Checker, n: Node) returns (t: Label)
    requires c.scope.Valid() && n.Valid() && Source(n.model) && Visit(c.scope.Chain, n.model).Checked?
    modifies c, n.Repr
    ensures n.Valid() && t == n.model.ty && Erase(n.model) == Erase(old(n.model))
    ensures t.Some? <==> c.errors == old(c.errors)
    ensures t.Some? ==> Strict(old(c.scope.Chain), n.model)
    ensures forall ty :: HasType(old(c.scope.Chain), old(n.model), ty) <==> t == Some(ty)
  {
    hide Visit, Node.Valid, Strict, Erase, HasType, Source;
    ghost var env, e := c.scope.Chain, n.model;
    Elaboration(env, e);
    VisitErases(env, e);
    Acceptance(env, e);
    c.VisitNode(n);
    LitNode(n);
    t := n.ty;
  }
}
