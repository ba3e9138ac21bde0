/** Name resolution (src/sema/scope.cpp): chained scopes, declared into from the innermost one. */
module Scopes {
  import opened Options
  import opened Types

  /** The declarations of a scope chain, innermost scope first. */
  type Env = seq<map<string, Type>>

  function Lookup(env: Env, name: string): (r: Option<Type>)
    ensures r.None? <==> forall i :: 0 <= i < |env| ==> name !in env[i]
    ensures r.Some? ==> exists i :: 0 <= i < |env| && name in env[i] && env[i][name] == r.value
                                    && forall j :: 0 <= j < i ==> name !in env[j]
  {
    if env == [] then None
    else if name in env[0] then Some(env[0][name])
    else
      var r := Lookup(env[1..], name);
      assert forall i :: 0 <= i < |env| ==> i == 0 || env[i] == env[1..][i - 1];
      assert r.Some? ==> exists i :: 0 <= i < |env| && name in env[i] && env[i][name] == r.value
                                    && forall j :: 0 <= j < i ==> name !in env[j] by {
        if r.Some? {
          var i :| 0 <= i < |env[1..]| && name in env[1..][i] && env[1..][i][name] == r.value
                   && forall j :: 0 <= j < i ==> name !in env[1..][j];
          assert name in env[i + 1] && env[i + 1][name] == r.value;
        }
      }
      r
  }

  /** Scope::Declare: the innermost scope gains the name only when no scope of the chain has it. */
  function Declare(env: Env, name: string, ty: Type): Env
    requires env != []
  {
    if Lookup(env, name).Some? then env else [env[0][name := ty]] + env[1..]
  }

  datatype ScopeOp = Enter | Exit | Declaration(name: string, ty: Type)

  /** The chain after a run of scope operations; leaving the outermost scope is not possible. */
  function Run(env: Env, ops: seq<ScopeOp>): Env
    requires env != []
    ensures Run(env, ops) != []
    decreases |ops|
  {
    if ops == [] then env
    else
      var next := match ops[0]
        case Enter => [map[]] + env
        case Exit => if |env| > 1 then env[1..] else env
        case Declaration(n, t) => Declare(env, n, t);
      Run(next, ops[1..])
  }

  /** The run never leaves more scopes than it entered beyond the given depth. */
  predicate StaysInside(depth: nat, ops: seq<ScopeOp>)
    decreases |ops|
  {
    if ops == [] then true
    else match ops[0]
      case Enter => StaysInside(depth + 1, ops[1..])
      case Exit => depth > 0 && StaysInside(depth - 1, ops[1..])
      case Declaration(_, _) => StaysInside(depth, ops[1..])
  }

  /** Scopes never shadow: once a name is bound, no run of inner scopes and declarations changes what
      it resolves to. The header promises instead that only the local scope is consulted. */
  lemma {:induction false} NoShadowing(base: Env, top: Env, ops: seq<ScopeOp>, name: string)
    requires base != [] && Lookup(base, name).Some? && StaysInside(|top|, ops)
    requires forall i :: 0 <= i < |top| ==> name !in top[i]
    ensures Lookup(Run(top + base, ops), name) == Lookup(base, name)
    decreases |ops|
  {
    LookupAppend(top, base, name);
    if ops != [] {
      match ops[0] {
        case Enter =>
          assert [map[]] + (top + base) == ([map[]] + top) + base;
          NoShadowing(base, [map[]] + top, ops[1..], name);
        case Exit =>
          assert (top + base)[1..] == top[1..] + base;
          NoShadowing(base, top[1..], ops[1..], name);
        case Declaration(n, t) =>
          if Lookup(top + base, n).Some? {
            NoShadowing(base, top, ops[1..], name);
          } else if top != [] {
            assert Declare(top + base, n, t) == ([top[0][n := t]] + top[1..]) + base;
            NoShadowing(base, [top[0][n := t]] + top[1..], ops[1..], name);
          } else {
            assert top + base == base;
            var b := Declare(base, n, t);
            DeclareKeeps(base, n, t, name);
            assert [] + b == b;
            NoShadowing(b, [], ops[1..], name);
          }
      }
    }
  }

  lemma {:induction false} LookupAppend(top: Env, base: Env, name: string)
    requires forall i :: 0 <= i < |top| ==> name !in top[i]
    ensures Lookup(top + base, name) == Lookup(base, name)
  {
    if top == [] {
      assert top + base == base;
    } else {
      assert (top + base)[1..] == top[1..] + base;
      LookupAppend(top[1..], base, name);
    }
  }

  lemma DeclareKeeps(env: Env, n: string, t: Type, name: string)
    requires env != [] && Lookup(env, name).Some?
    ensures Lookup(Declare(env, n, t), name) == Lookup(env, name)
  {
    if Lookup(env, n).None? {
      assert Declare(env, n, t)[1..] == env[1..];
    }
  }

  /** A declaration takes effect exactly when its name was free in the whole chain. */
  lemma DeclareTakesEffectIff(env: Env, name: string, ty: Type)
    requires env != []
    ensures Lookup(env, name).None? ==> Lookup(Declare(env, name, ty), name) == Some(ty)
    ensures Lookup(env, name).Some? ==> Declare(env, name, ty) == env
    ensures Lookup(Declare(env, name, ty), name) == Some(ty)
            <==> Lookup(env, name).None? || Lookup(env, name) == Some(ty)
  {
  }

  /** A scope as the checker keeps it: its own table and a link to the enclosing scope. */
  class Scope {
    var declarations: map<string, Type>
    var outer: Scope?
    ghost var Chain: Env
    ghost var Repr: set<Scope>

    ghost predicate Valid()
      reads this, Repr
      decreases Repr
      ensures Valid() ==> this in Repr && Chain != []
    {
      && this in Repr
      && (outer == null ==> Chain == [declarations])
      && (outer != null ==>
            && outer in Repr && outer.Repr <= Repr && this !in outer.Repr && outer.Valid()
            && Chain == [declarations] + outer.Chain)
    }

    constructor (outer: Scope?)
      requires outer != null ==> outer.Valid()
      ensures Valid() && this.outer == outer
      ensures Chain == [map[]] + (if outer == null then [] else outer.Chain)
      ensures fresh(Repr - (if outer == null then {} else outer.Repr))
    {
      this.declarations := map[];
      this.outer := outer;
      this.Chain := [map[]] + (if outer == null then [] else outer.Chain);
      this.Repr := {this} + (if outer == null then {} else outer.Repr);
    }

    method LookupName(name: string) returns (r: Option<Type>)
      requires Valid()
      ensures r == Lookup(Chain, name)
    {
      var scope: Scope? := this;
      r := None;
      while scope != null
        invariant scope != null ==> scope.Valid()
        invariant r.None?
        invariant Lookup(Chain, name) == if scope == null then None else Lookup(scope.Chain, name)
        decreases if scope == null then {} else scope.Repr
      {
        r := scope.LookupLocal(name);
        if r.Some? { return; }
        if scope.outer != null {
          assert scope.Chain[1..] == scope.outer.Chain;
        }
        scope := scope.outer;
      }
    }

    method LookupLocal(name: string) returns (r: Option<Type>)
      requires Valid()
      ensures r == if name in declarations then Some(declarations[name]) else None
    {
      r := if name in declarations then Some(declarations[name]) else None;
    }

    method DeclareName(name: string, ty: Type) returns (ok: bool)
      requires Valid()
      modifies this
      ensures Valid() && Repr == old(Repr) && outer == old(outer)
      ensures ok == Lookup(old(Chain), name).None?
      ensures Chain == Declare(old(Chain), name, ty)
    {
      var current := LookupName(name);
      if current.Some? { return false; }
      declarations := declarations[name := ty];
      Chain := [declarations] + Chain[1..];
      return true;
    }
  }
}
