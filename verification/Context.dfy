/** The type context (src/ast/context.cpp): caches that hand out one object per type, so that the type
    checker can compare types by pointer. */
module TypeContext {
  import opened Options
  import opened Types
  import opened Decimal

  /** A field or parameter holding a type object. */
  datatype ObjField = ObjField(name: string, ty: TypeObj)

  datatype Shape =
    | BuiltinShape(kind: BuiltinKind)
    | StringShape
    | PointerShape(base: TypeObj)
    | ArrayShape(length: nat, elem: TypeObj)
    | MapShape(key: TypeObj, val: TypeObj)
    | StructShape(name: string, fields: seq<ObjField>)
    | FunctionShape(params: seq<ObjField>, ret: TypeObj)

  /** A type object never changes; den is the type it stands for. */
  class TypeObj {
    const shape: Shape
    ghost const den: Type

    constructor (shape: Shape)
      ensures this.shape == shape && den == Denotes(shape)
    {
      this.shape := shape;
      this.den := Denotes(shape);
    }
  }

  ghost function Denotes(s: Shape): Type {
    match s
    case BuiltinShape(kind) => Builtin(kind)
    case StringShape => StringType
    case PointerShape(base) => Pointer(base.den)
    case ArrayShape(length, elem) => Array(length, elem.den)
    case MapShape(key, val) => Map(key.den, val.den)
    case StructShape(name, fields) => Struct(name, FieldDens(fields))
    case FunctionShape(params, ret) => Function(FieldDens(params), ret.den)
  }

  ghost function FieldDens(fs: seq<ObjField>): (r: seq<Field>)
    ensures |r| == |fs|
    ensures forall i :: 0 <= i < |fs| ==> r[i] == Field(fs[i].name, fs[i].ty.den)
  {
    if |fs| == 0 then [] else [Field(fs[0].name, fs[0].ty.den)] + FieldDens(fs[1..])
  }

  const PADDING_NAME := "__field$0$"

  /** The caches of a context. */
  datatype Caches = Caches(
    all: set<TypeObj>,
    stringType: TypeObj,
    builtins: map<BuiltinKind, TypeObj>,
    pointers: map<TypeObj, TypeObj>,
    arrays: map<(TypeObj, nat), TypeObj>,
    maps: map<(TypeObj, TypeObj), TypeObj>,
    anonymous: map<seq<ObjField>, TypeObj>,
    functions: map<(seq<ObjField>, TypeObj), TypeObj>,
    named: map<string, TypeObj>)

  ghost predicate Known(all: set<TypeObj>, fs: seq<ObjField>) {
    forall i :: 0 <= i < |fs| ==> fs[i].ty in all
  }

  /** The cache entry for a shape; named structs are filed under their name alone. */
  ghost function Slot(c: Caches, s: Shape): Option<TypeObj> {
    match s
    case BuiltinShape(kind) => if kind in c.builtins then Some(c.builtins[kind]) else None
    case StringShape => Some(c.stringType)
    case PointerShape(base) => if base in c.pointers then Some(c.pointers[base]) else None
    case ArrayShape(length, elem) => if (elem, length) in c.arrays then Some(c.arrays[(elem, length)]) else None
    case MapShape(key, val) => if (key, val) in c.maps then Some(c.maps[(key, val)]) else None
    case StructShape(name, fields) =>
      if |name| == 0 then (if fields in c.anonymous then Some(c.anonymous[fields]) else None)
      else if name in c.named then Some(c.named[name]) else None
    case FunctionShape(params, ret) => if (params, ret) in c.functions then Some(c.functions[(params, ret)]) else None
  }

  /** The types a shape is built from. */
  ghost predicate BuiltFrom(all: set<TypeObj>, s: Shape) {
    match s
    case BuiltinShape(_) => true
    case StringShape => true
    case PointerShape(base) => base in all
    case ArrayShape(_, elem) => elem in all
    case MapShape(key, val) => key in all && val in all
    case StructShape(name, fields) => Known(all, fields) && (|name| == 0 ==> |fields| > 0)
    case FunctionShape(params, ret) => Known(all, params) && ret in all
  }

  /** The components of t are known types, and the cache of its kind holds t. */
  ghost predicate Filed(c: Caches, t: TypeObj) {
    t.den == Denotes(t.shape) && BuiltFrom(c.all, t.shape) && Slot(c, t.shape) == Some(t)
  }

  // Every cache entry is a known type of the shape it is filed under.

  ghost predicate BuiltinsAgree(all: set<TypeObj>, m: map<BuiltinKind, TypeObj>) {
    forall k :: k in m ==> m[k] in all && m[k].shape == BuiltinShape(k)
  }

  ghost predicate PointersAgree(all: set<TypeObj>, m: map<TypeObj, TypeObj>) {
    forall k :: k in m ==> m[k] in all && m[k].shape == PointerShape(k)
  }

  ghost predicate ArraysAgree(all: set<TypeObj>, m: map<(TypeObj, nat), TypeObj>) {
    forall k :: k in m ==> m[k] in all && m[k].shape == ArrayShape(k.1, k.0)
  }

  ghost predicate MapsAgree(all: set<TypeObj>, m: map<(TypeObj, TypeObj), TypeObj>) {
    forall k :: k in m ==> m[k] in all && m[k].shape == MapShape(k.0, k.1)
  }

  ghost predicate AnonymousAgree(all: set<TypeObj>, m: map<seq<ObjField>, TypeObj>) {
    forall k :: k in m ==> m[k] in all && m[k].shape == StructShape("", k)
  }

  ghost predicate FunctionsAgree(all: set<TypeObj>, m: map<(seq<ObjField>, TypeObj), TypeObj>) {
    forall k :: k in m ==> m[k] in all && m[k].shape == FunctionShape(k.0, k.1)
  }

  ghost predicate NamedAgree(all: set<TypeObj>, m: map<string, TypeObj>) {
    forall n :: n in m ==> |n| > 0 && m[n] in all && m[n].shape.StructShape? && m[n].shape.name == n
  }

  ghost predicate TablesAgree(c: Caches) {
    && c.stringType in c.all && c.stringType.shape.StringShape?
    && BuiltinsAgree(c.all, c.builtins)
    && PointersAgree(c.all, c.pointers)
    && ArraysAgree(c.all, c.arrays)
    && MapsAgree(c.all, c.maps)
    && AnonymousAgree(c.all, c.anonymous)
    && FunctionsAgree(c.all, c.functions)
    && NamedAgree(c.all, c.named)
  }

  ghost predicate Cached(c: Caches) {
    (forall t :: t in c.all ==> Filed(c, t)) && TablesAgree(c)
  }

  lemma MoreTypes(c: Caches, made: TypeObj)
    requires TablesAgree(c)
    ensures TablesAgree(c.(all := c.all + {made}))
  {
  }

  lemma StillBuilt(all: set<TypeObj>, made: TypeObj, s: Shape)
    requires BuiltFrom(all, s)
    ensures BuiltFrom(all + {made}, s)
  {
  }

  /** Every entry of one table is still in the other. */
  ghost predicate Grown<K, V>(m: map<K, V>, n: map<K, V>) {
    forall k :: k in m ==> k in n && n[k] == m[k]
  }

  ghost predicate TablesGrown(c: Caches, d: Caches) {
    && c.stringType == d.stringType
    && Grown(c.builtins, d.builtins)
    && Grown(c.pointers, d.pointers)
    && Grown(c.arrays, d.arrays)
    && Grown(c.maps, d.maps)
    && Grown(c.anonymous, d.anonymous)
    && Grown(c.functions, d.functions)
    && Grown(c.named, d.named)
  }

  lemma SlotKept(c: Caches, d: Caches, s: Shape)
    requires TablesGrown(c, d) && Slot(c, s).Some?
    ensures Slot(d, s) == Slot(c, s)
  {
  }

  /** One more type, filed where nothing was filed before. */
  lemma AddType(c: Caches, d: Caches, made: TypeObj)
    requires Cached(c) && TablesAgree(d) && made !in c.all && d.all == c.all + {made}
    requires made.den == Denotes(made.shape) && BuiltFrom(c.all, made.shape)
    requires Slot(c, made.shape).None? && Slot(d, made.shape) == Some(made)
    requires TablesGrown(c, d)
    ensures Cached(d)
  {
    hide Slot, TablesAgree, TablesGrown, BuiltFrom, Denotes;
    forall t | t in d.all ensures Filed(d, t) {
      if t in c.all {
        assert Filed(c, t);
        SlotKept(c, d, t.shape);
        StillBuilt(c.all, made, t.shape);
      } else {
        StillBuilt(c.all, made, made.shape);
      }
    }
  }

  lemma AddBuiltin(c: Caches, kind: BuiltinKind, made: TypeObj)
    requires Cached(c) && kind !in c.builtins && made !in c.all
    requires made.shape == BuiltinShape(kind) && made.den == Denotes(made.shape)
    ensures Cached(c.(builtins := c.builtins[kind := made], all := c.all + {made}))
  {
    hide PointersAgree, ArraysAgree, MapsAgree, AnonymousAgree, FunctionsAgree, NamedAgree, Denotes;
    var d := c.(builtins := c.builtins[kind := made], all := c.all + {made});
    MoreTypes(c, made);
    AddType(c, d, made);
  }

  lemma AddPointer(c: Caches, base: TypeObj, made: TypeObj)
    requires Cached(c) && base in c.all && base !in c.pointers && made !in c.all
    requires made.shape == PointerShape(base) && made.den == Denotes(made.shape)
    ensures Cached(c.(pointers := c.pointers[base := made], all := c.all + {made}))
  {
    hide BuiltinsAgree, ArraysAgree, MapsAgree, AnonymousAgree, FunctionsAgree, NamedAgree, Denotes;
    var d := c.(pointers := c.pointers[base := made], all := c.all + {made});
    MoreTypes(c, made);
    AddType(c, d, made);
  }

  lemma AddArray(c: Caches, length: nat, elem: TypeObj, made: TypeObj)
    requires Cached(c) && elem in c.all && (elem, length) !in c.arrays && made !in c.all
    requires made.shape == ArrayShape(length, elem) && made.den == Denotes(made.shape)
    ensures Cached(c.(arrays := c.arrays[(elem, length) := made], all := c.all + {made}))
  {
    hide BuiltinsAgree, PointersAgree, MapsAgree, AnonymousAgree, FunctionsAgree, NamedAgree, Denotes;
    var d := c.(arrays := c.arrays[(elem, length) := made], all := c.all + {made});
    MoreTypes(c, made);
    AddType(c, d, made);
  }

  lemma AddMap(c: Caches, key: TypeObj, val: TypeObj, made: TypeObj)
    requires Cached(c) && key in c.all && val in c.all && (key, val) !in c.maps && made !in c.all
    requires made.shape == MapShape(key, val) && made.den == Denotes(made.shape)
    ensures Cached(c.(maps := c.maps[(key, val) := made], all := c.all + {made}))
  {
    hide BuiltinsAgree, PointersAgree, ArraysAgree, AnonymousAgree, FunctionsAgree, NamedAgree, Denotes, Known, Filed;
    var d := c.(maps := c.maps[(key, val) := made], all := c.all + {made});
    MoreTypes(c, made);
    AddType(c, d, made);
  }

  lemma AddAnonymous(c: Caches, fields: seq<ObjField>, made: TypeObj)
    requires Cached(c) && |fields| > 0 && Known(c.all, fields) && fields !in c.anonymous && made !in c.all
    requires made.shape == StructShape("", fields) && made.den == Denotes(made.shape)
    ensures Cached(c.(anonymous := c.anonymous[fields := made], all := c.all + {made}))
  {
    hide BuiltinsAgree, PointersAgree, ArraysAgree, MapsAgree, FunctionsAgree, NamedAgree, Denotes;
    var d := c.(anonymous := c.anonymous[fields := made], all := c.all + {made});
    MoreTypes(c, made);
    AddType(c, d, made);
  }

  lemma AddFunction(c: Caches, params: seq<ObjField>, ret: TypeObj, made: TypeObj)
    requires Cached(c) && Known(c.all, params) && ret in c.all && (params, ret) !in c.functions && made !in c.all
    requires made.shape == FunctionShape(params, ret) && made.den == Denotes(made.shape)
    ensures Cached(c.(functions := c.functions[(params, ret) := made], all := c.all + {made}))
  {
    hide BuiltinsAgree, PointersAgree, ArraysAgree, MapsAgree, AnonymousAgree, NamedAgree, Denotes;
    var d := c.(functions := c.functions[(params, ret) := made], all := c.all + {made});
    MoreTypes(c, made);
    AddType(c, d, made);
  }

  lemma AddNamed(c: Caches, name: string, fields: seq<ObjField>, made: TypeObj)
    requires Cached(c) && |name| > 0 && Known(c.all, fields) && name !in c.named && made !in c.all
    requires made.shape == StructShape(name, fields) && made.den == Denotes(made.shape)
    ensures Cached(c.(named := c.named[name := made], all := c.all + {made}))
  {
    hide BuiltinsAgree, PointersAgree, ArraysAgree, MapsAgree, AnonymousAgree, FunctionsAgree, Denotes;
    var d := c.(named := c.named[name := made], all := c.all + {made});
    MoreTypes(c, made);
    AddType(c, d, made);
  }

  // ---------- Canonicity ----------

  /** Types are canonical: two known objects stand for the same type exactly when they are one object. */
  lemma {:induction false} Canonical(c: Caches, a: TypeObj, b: TypeObj)
    requires Cached(c) && a in c.all && b in c.all
    ensures a == b <==> a.den == b.den
    decreases a.den
  {
    if a.den == b.den {
      SameShape(c, a, b);
      assert Filed(c, a) && Filed(c, b);
    }
  }

  lemma {:induction false} SameShape(c: Caches, a: TypeObj, b: TypeObj)
    requires Cached(c) && a in c.all && b in c.all && a.den == b.den
    ensures Slot(c, a.shape) == Slot(c, b.shape)
    decreases a.den, 0
  {
    hide TablesAgree, Slot;
    assert Filed(c, a) && Filed(c, b);
    match a.shape
    case BuiltinShape(_) =>
    case StringShape =>
    case PointerShape(x) => Canonical(c, x, b.shape.base);
    case ArrayShape(_, x) => Canonical(c, x, b.shape.elem);
    case MapShape(x, y) => Canonical(c, x, b.shape.key); Canonical(c, y, b.shape.val);
    case StructShape(name, fields) =>
      FieldsCanonical(c, a.den.fields, fields, b.shape.fields);
    case FunctionShape(params, ret) =>
      FieldsCanonical(c, a.den.params, params, b.shape.params);
      Canonical(c, ret, b.shape.ret);
  }

  lemma {:induction false} FieldsCanonical(c: Caches, dens: seq<Field>, fs: seq<ObjField>, gs: seq<ObjField>)
    requires Cached(c) && Known(c.all, fs) && Known(c.all, gs)
    requires FieldDens(fs) == dens && FieldDens(gs) == dens
    ensures fs == gs
    decreases dens
  {
    hide Cached;
    assert |fs| == |gs|;
    forall i | 0 <= i < |fs| ensures fs[i] == gs[i] {
      assert dens[i] == Field(fs[i].name, fs[i].ty.den) == Field(gs[i].name, gs[i].ty.den);
      Canonical(c, fs[i].ty, gs[i].ty);
    }
  }

  // ---------- Names of structs ----------

  /** The name tried with the counter at k. */
  function Suffixed(name: string, k: nat): (r: string)
    ensures |r| > 0
  {
    name + "_" + Dec(k)
  }

  lemma SuffixedInjective(name: string, j: nat, k: nat)
    requires Suffixed(name, j) == Suffixed(name, k)
    ensures j == k
  {
    var n := |name| + 1;
    assert Suffixed(name, j)[n..] == Dec(j) && Suffixed(name, k)[n..] == Dec(k);
    DecInjective(j, k);
  }

  lemma {:induction false} SubsetSize<T>(a: set<T>, b: set<T>)
    requires a <= b
    ensures |a| <= |b|
  {
    if a != {} {
      var x :| x in a;
      SubsetSize(a - {x}, b - {x});
    }
  }

  /** name if it is free, and otherwise the first free suffixed name from counter value id on. */
  ghost predicate IsFreshName(table: map<string, TypeObj>, name: string, id: nat, chosen: string, next: nat) {
    if name !in table then chosen == name && next == id
    else
      && next > id && chosen == Suffixed(name, next - 1) && chosen !in table
      && forall k :: id <= k < next - 1 ==> Suffixed(name, k) in table
  }

  function AnonymousDen(fields: seq<Field>): Type {
    Struct("", if |fields| == 0 then [Field(PADDING_NAME, Builtin(Int8))] else fields)
  }

  lemma SlotFiled(c: Caches, s: Shape)
    requires Cached(c) && Slot(c, s).Some? && (s.StructShape? ==> |s.name| == 0)
    ensures var t := Slot(c, s).value;
            t in c.all && t.shape == s && t.den == Denotes(s)
  {
    var t := Slot(c, s).value;
    assert t in c.all && t.shape == s by { hide Filed; }
    assert Filed(c, t);
  }

  lemma EmptyCached(c: Caches)
    requires c.all == {c.stringType} && c.stringType.shape == StringShape && c.stringType.den == Denotes(StringShape)
    requires c.builtins == map[] && c.pointers == map[] && c.arrays == map[] && c.maps == map[]
    requires c.anonymous == map[] && c.functions == map[] && c.named == map[]
    ensures Cached(c)
  {
  }

  // ---------- The context ----------

  class Context {
    var builtins: map<BuiltinKind, TypeObj>
    var stringType: TypeObj
    var pointers: map<TypeObj, TypeObj>
    var arrays: map<(TypeObj, nat), TypeObj>
    var maps: map<(TypeObj, TypeObj), TypeObj>
    var anonymous: map<seq<ObjField>, TypeObj>
    var functions: map<(seq<ObjField>, TypeObj), TypeObj>
    var named: map<string, TypeObj>
    var uniqueId: nat
    ghost var all: set<TypeObj>

    ghost function Snapshot(): Caches
      reads this
    {
      Caches(all, stringType, builtins, pointers, arrays, maps, anonymous, functions, named)
    }

    ghost predicate Valid()
      reads this
    {
      Cached(Snapshot()) && Int8 in builtins
    }

    /** A Get call that is not for a named struct: it returns a known object for the type. */
    twostate predicate Got(new t: TypeObj, den: Type)
      reads this
    {
      && Valid() && all == old(all) + {t} && t.den == den
      && builtins == old(builtins) && named == old(named) && uniqueId == old(uniqueId)
    }

    constructor (kinds: seq<BuiltinKind>)
      requires Int8 in kinds
      ensures Valid() && named == map[] && uniqueId == 0
      ensures builtins.Keys == set k | k in kinds
    {
      builtins, pointers, arrays, maps := map[], map[], map[], map[];
      anonymous, functions, named, uniqueId := map[], map[], map[], 0;
      var s := new TypeObj(StringShape);
      stringType := s;
      all := {s};
      new;
      EmptyCached(Snapshot());
      hide Cached;
      for i := 0 to |kinds|
        invariant Cached(Snapshot()) && named == map[] && uniqueId == 0
        invariant builtins.Keys == set k | k in kinds[..i]
      {
        assert kinds[..i + 1] == kinds[..i] + [kinds[i]];
        MakeBuiltin(kinds[i]);
      }
      assert kinds[..|kinds|] == kinds;
    }

    method MakeBuiltin(kind: BuiltinKind)
      requires Cached(Snapshot())
      modifies this
      ensures Cached(Snapshot()) && named == old(named) && uniqueId == old(uniqueId)
      ensures builtins.Keys == old(builtins.Keys) + {kind}
    {
      hide Cached;
      if kind !in builtins {
        var t := new TypeObj(BuiltinShape(kind));
        AddBuiltin(Snapshot(), kind, t);
        builtins := builtins[kind := t];
        all := all + {t};
      }
    }

    method GetBuiltin(kind: BuiltinKind) returns (t: TypeObj)
      requires Valid() && kind in builtins
      ensures t in all && t.den == Builtin(kind)
    {
      t := builtins[kind];
      assert Filed(Snapshot(), t);
    }

    method GetPointer(base: TypeObj) returns (t: TypeObj)
      requires Valid() && base in all
      modifies this
      ensures Got(t, Pointer(base.den))
    {
      hide Cached, TablesAgree;
      if base !in pointers {
        var made := new TypeObj(PointerShape(base));
        AddPointer(Snapshot(), base, made);
        pointers := pointers[base := made];
        all := all + {made};
        return made;
      }
      t := pointers[base];
      SlotFiled(Snapshot(), PointerShape(base));
    }

    method GetArray(length: nat, elem: TypeObj) returns (t: TypeObj)
      requires Valid() && elem in all
      modifies this
      ensures Got(t, Array(length, elem.den))
    {
      hide Cached, TablesAgree;
      if (elem, length) !in arrays {
        var made := new TypeObj(ArrayShape(length, elem));
        AddArray(Snapshot(), length, elem, made);
        arrays := arrays[(elem, length) := made];
        all := all + {made};
        return made;
      }
      t := arrays[(elem, length)];
      SlotFiled(Snapshot(), ArrayShape(length, elem));
    }

    method GetMap(key: TypeObj, val: TypeObj) returns (t: TypeObj)
      requires Valid() && key in all && val in all
      modifies this
      ensures Got(t, Map(key.den, val.den))
    {
      hide Cached, TablesAgree;
      if (key, val) !in maps {
        var made := new TypeObj(MapShape(key, val));
        AddMap(Snapshot(), key, val, made);
        maps := maps[(key, val) := made];
        all := all + {made};
        return made;
      }
      t := maps[(key, val)];
      SlotFiled(Snapshot(), MapShape(key, val));
    }

    method GetFunction(params: seq<ObjField>, ret: TypeObj) returns (t: TypeObj)
      requires Valid() && Known(all, params) && ret in all
      modifies this
      ensures Got(t, Function(FieldDens(params), ret.den))
    {
      hide Cached, TablesAgree;
      if (params, ret) !in functions {
        var made := new TypeObj(FunctionShape(params, ret));
        AddFunction(Snapshot(), params, ret, made);
        functions := functions[(params, ret) := made];
        all := all + {made};
        return made;
      }
      t := functions[(params, ret)];
      SlotFiled(Snapshot(), FunctionShape(params, ret));
    }

    /** Anonymous structs; an empty one gets a byte, so that its size is not zero. */
    method GetStruct(given: seq<ObjField>) returns (t: TypeObj)
      requires Valid() && Known(all, given)
      modifies this
      ensures Got(t, AnonymousDen(FieldDens(given)))
    {
      hide Cached, TablesAgree;
      var fields := given;
      if |fields| == 0 {
        var byte := GetBuiltin(Int8);
        fields := [ObjField(PADDING_NAME, byte)];
        assert FieldDens(fields) == [Field(PADDING_NAME, Builtin(Int8))];
      }
      if fields !in anonymous {
        var made := new TypeObj(StructShape("", fields));
        AddAnonymous(Snapshot(), fields, made);
        anonymous := anonymous[fields := made];
        all := all + {made};
        return made;
      }
      t := anonymous[fields];
      SlotFiled(Snapshot(), StructShape("", fields));
    }

    method PickName(name: string) returns (unique: string)
      requires |name| > 0
      modifies `uniqueId
      ensures |unique| > 0 && unique !in named
      ensures IsFreshName(named, name, old(uniqueId), unique, uniqueId)
      ensures uniqueId <= old(uniqueId) + |named| + 1
    {
      unique := name;
      if name in named {
        ghost var tried: set<string> := {};
        while true
          invariant uniqueId >= old(uniqueId) && |unique| > 0
          invariant forall k :: old(uniqueId) <= k < uniqueId ==> Suffixed(name, k) in named
          invariant tried <= named.Keys && |tried| == uniqueId - old(uniqueId)
          invariant forall x :: x in tried ==> exists k :: old(uniqueId) <= k < uniqueId && x == Suffixed(name, k)
          decreases |named| + 1 - |tried|
        {
          SubsetSize(tried, named.Keys);
          unique := Suffixed(name, uniqueId);
          uniqueId := uniqueId + 1;
          if unique !in named {
            break;
          }
          forall x | x in tried ensures x != unique {
            var k :| old(uniqueId) <= k < uniqueId - 1 && x == Suffixed(name, k);
            if x == unique { SuffixedInjective(name, k, uniqueId - 1); }
          }
          tried := tried + {unique};
          SubsetSize(tried, named.Keys);
        }
      }
    }

    /** A named struct is always a new object. When its name is taken, the counter supplies suffixes
        until one is free; that takes at most one step more than the table has entries. */
    method GetNamedStruct(name: string, fields: seq<ObjField>) returns (t: TypeObj)
      requires Valid() && |name| > 0 && Known(all, fields)
      modifies this
      ensures Valid() && t !in old(all) && all == old(all) + {t} && builtins == old(builtins)
      ensures t.den.Struct? && t.den.fields == FieldDens(fields)
      ensures IsFreshName(old(named), name, old(uniqueId), t.den.name, uniqueId)
      ensures uniqueId <= old(uniqueId) + |old(named)| + 1
      ensures t.den.name !in old(named) && named == old(named)[t.den.name := t]
    {
      hide Cached, TablesAgree;
      var unique := PickName(name);
      t := new TypeObj(StructShape(unique, fields));
      AddNamed(Snapshot(), unique, fields, t);
      named := named[unique := t];
      all := all + {t};
    }
  }

  // ---------- Whole runs ----------

  /** A Get call of a run; the types it is built from are given by the index of an earlier call. */
  datatype Request =
    | ForBuiltin(kind: BuiltinKind)
    | ForPointer(base: nat)
    | ForArray(length: nat, elem: nat)
    | ForMap(key: nat, val: nat)
    | ForStruct(fields: seq<Slotted>)
    | ForNamedStruct(name: string, members: seq<Slotted>)
    | ForFunction(params: seq<Slotted>, ret: nat)

  datatype Slotted = Slotted(name: string, at: nat)

  predicate Earlier(fs: seq<Slotted>, n: nat) { forall i :: 0 <= i < |fs| ==> fs[i].at < n }

  /** The call only uses builtin kinds of the context, names, and the results of the n calls before it. */
  predicate CanAsk(kinds: set<BuiltinKind>, q: Request, n: nat) {
    match q
    case ForBuiltin(kind) => kind in kinds
    case ForPointer(base) => base < n
    case ForArray(_, elem) => elem < n
    case ForMap(key, val) => key < n && val < n
    case ForStruct(fields) => Earlier(fields, n)
    case ForNamedStruct(name, fields) => |name| > 0 && Earlier(fields, n)
    case ForFunction(params, ret) => Earlier(params, n) && ret < n
  }

  function Fields(fs: seq<Slotted>, got: seq<TypeObj>): (r: seq<ObjField>)
    requires Earlier(fs, |got|)
    ensures |r| == |fs| && forall i :: 0 <= i < |fs| ==> r[i] == ObjField(fs[i].name, got[fs[i].at])
  {
    if |fs| == 0 then [] else [ObjField(fs[0].name, got[fs[0].at])] + Fields(fs[1..], got)
  }

  /** The type a call asks for, given the types of the earlier results; a named struct is an atom that
      its name makes unique. */
  ghost predicate Answers(q: Request, got: seq<TypeObj>, t: Type)
    requires CanAsk(Kinds(q), q, |got|)
  {
    match q
    case ForBuiltin(kind) => t == Builtin(kind)
    case ForPointer(base) => t == Pointer(got[base].den)
    case ForArray(length, elem) => t == Array(length, got[elem].den)
    case ForMap(key, val) => t == Map(got[key].den, got[val].den)
    case ForStruct(fields) => t == AnonymousDen(FieldDens(Fields(fields, got)))
    case ForNamedStruct(_, fields) =>
      && t.Struct? && |t.name| > 0 && t.fields == FieldDens(Fields(fields, got))
      && forall i :: 0 <= i < |got| && got[i].den.Struct? ==> got[i].den.name != t.name
    case ForFunction(params, ret) => t == Function(FieldDens(Fields(params, got)), got[ret].den)
  }

  function Kinds(q: Request): set<BuiltinKind> { if q.ForBuiltin? then {q.kind} else {} }

  /** One call of a run. */
  method Ask(c: Context, q: Request, got: seq<TypeObj>) returns (t: TypeObj)
    requires c.Valid() && CanAsk(c.builtins.Keys, q, |got|) && forall i :: 0 <= i < |got| ==> got[i] in c.all
    modifies c
    ensures c.Valid() && c.builtins == old(c.builtins) && c.all == old(c.all) + {t}
    ensures Answers(q, got, t.den)
  {
    match q
    case ForBuiltin(kind) => t := c.GetBuiltin(kind);
    case ForPointer(base) => t := c.GetPointer(got[base]);
    case ForArray(length, elem) => t := c.GetArray(length, got[elem]);
    case ForMap(key, val) => t := c.GetMap(got[key], got[val]);
    case ForStruct(fields) => t := c.GetStruct(Fields(fields, got));
    case ForNamedStruct(name, fields) =>
      ghost var before := c.Snapshot();
      t := c.GetNamedStruct(name, Fields(fields, got));
      forall i | 0 <= i < |got| && got[i].den.Struct? ensures got[i].den.name != t.den.name {
        assert Filed(before, got[i]);
      }
    case ForFunction(params, ret) => t := c.GetFunction(Fields(params, got), got[ret]);
  }

  /** After any run of calls, each result stands for the type that was asked for, and two results are
      the same object exactly when they stand for the same type. */
  method RunRequests(c: Context, qs: seq<Request>) returns (got: seq<TypeObj>)
    requires c.Valid() && forall i :: 0 <= i < |qs| ==> CanAsk(c.builtins.Keys, qs[i], i)
    modifies c
    ensures c.Valid() && |got| == |qs|
    ensures forall i :: 0 <= i < |qs| ==> CanAsk(Kinds(qs[i]), qs[i], i) && Answers(qs[i], got[..i], got[i].den)
    ensures forall i, j :: 0 <= i < |qs| && 0 <= j < |qs| ==> (got[i] == got[j] <==> got[i].den == got[j].den)
  {
    got := [];
    hide Answers;
    for n := 0 to |qs|
      invariant c.Valid() && c.builtins == old(c.builtins) && |got| == n
      invariant forall i :: 0 <= i < n ==> got[i] in c.all
      invariant forall i :: 0 <= i < n ==> CanAsk(Kinds(qs[i]), qs[i], i) && Answers(qs[i], got[..i], got[i].den)
    {
      var t := Ask(c, qs[n], got);
      assert forall i :: 0 <= i < n ==> (got + [t])[..i] == got[..i];
      assert (got + [t])[..n] == got;
      got := got + [t];
    }
    forall i, j | 0 <= i < |qs| && 0 <= j < |qs| ensures got[i] == got[j] <==> got[i].den == got[j].den {
      Canonical(c.Snapshot(), got[i], got[j]);
    }
  }
}
