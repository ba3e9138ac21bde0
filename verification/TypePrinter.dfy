/** Types as text (src/ast/type_printer.cpp): the printed form determines a type up to the names of its
    fields, parameters and structs. */
module TypePrinting {
  import opened Options
  import opened Types
  import opened Decimal
  import opened Lexer
  import opened Strings
  import opened LexTheorems
  import opened Sema

  /** BuiltinType::GetTplName. */
  function TplName(kind: BuiltinKind): string {
    match kind
    case Nil => "nil" case Bool => "bool" case Int8 => "int8" case Int16 => "int16"
    case Int32 => "int32" case Int64 => "int64" case UInt8 => "uint8" case UInt16 => "uint16"
    case UInt32 => "uint32" case UInt64 => "uint64" case Int128 => "int128" case UInt128 => "uint128"
    case Float32 => "float32" case Float64 => "float64"
    case NonPrimitive(name) => name
    case BooleanVal => "BooleanVal" case IntegerVal => "IntegerVal" case RealVal => "RealVal"
    case DecimalVal => "DecimalVal" case StringVal => "StringVal" case DateVal => "DateVal"
    case TimestampVal => "TimestampVal"
  }

  function TypeText(t: Type): string
    decreases t
  {
    match t
    case Builtin(kind) => TplName(kind)
    case StringType => "string"
    case Pointer(base) => "*" + TypeText(base)
    case Array(length, elem) => "[" + LengthText(length) + "]" + TypeText(elem)
    case Map(key, val) => "map[" + TypeText(key) + "]" + TypeText(val)
    case Struct(_, fields) => "struct{" + ListText(fields) + "}"
    case Function(params, ret) => "(" + ListText(params) + ")->" + TypeText(ret)
  }

  function LengthText(length: nat): string { if length == 0 then "*" else Dec(length) }

  function ListText(fs: seq<Field>): string
    decreases fs
  {
    if |fs| == 0 then ""
    else if |fs| == 1 then TypeText(fs[0].ty)
    else TypeText(fs[0].ty) + "," + ListText(fs[1..])
  }

  // ---------- The visitor ----------

  class TypePrinter {
    var out: string

    constructor ()
      ensures out == ""
    {
      out := "";
    }

    method Visit(t: Type)
      modifies this
      ensures out == old(out) + TypeText(t)
      decreases t, 1
    {
      match t
      case Builtin(kind) => out := out + TplName(kind);
      case StringType => out := out + "string";
      case Pointer(base) =>
        out := out + "*";
        Visit(base);
      case Array(length, elem) =>
        out := out + "[";
        if length == 0 {
          out := out + "*";
        } else {
          out := out + Dec(length);
        }
        out := out + "]";
        Visit(elem);
        Concat(old(out), "[", LengthText(length), "]", TypeText(elem));
      case Map(key, val) =>
        out := out + "map[";
        Visit(key);
        out := out + "]";
        Visit(val);
        Concat(old(out), "map[", TypeText(key), "]", TypeText(val));
      case Struct(_, fields) =>
        out := out + "struct{";
        VisitList(fields);
        out := out + "}";
        Concat(old(out), "struct{", ListText(fields), "}", "");
      case Function(params, ret) =>
        out := out + "(";
        VisitList(params);
        out := out + ")->";
        Visit(ret);
        Concat(old(out), "(", ListText(params), ")->", TypeText(ret));
    }

    /** Fields or parameters with commas between them. */
    method VisitList(fs: seq<Field>)
      modifies this
      ensures out == old(out) + ListText(fs)
      decreases fs, 0
    {
      var first := true;
      assert fs[0..] == fs;
      for i := 0 to |fs|
        invariant first == (i == 0)
        invariant out + ListFrom(fs, i) == old(out) + ListText(fs)
      {
        ghost var before := out;
        NextInList(fs, i);
        if !first {
          out := out + ",";
        }
        first := false;
        Visit(fs[i].ty);
        Regroup(before, if i > 0 then "," else "", TypeText(fs[i].ty), ListFrom(fs, i + 1));
      }
    }
  }

  /** What is left to print of a list from element i on. */
  function ListFrom(fs: seq<Field>, i: nat): string
    requires i <= |fs|
  {
    (if 0 < i < |fs| then "," else "") + ListText(fs[i..])
  }

  lemma NextInList(fs: seq<Field>, i: nat)
    requires i < |fs|
    ensures ListFrom(fs, i) == (if i > 0 then "," else "") + (TypeText(fs[i].ty) + ListFrom(fs, i + 1))
  {
    hide TypeText;
    assert fs[i..][0] == fs[i] && fs[i..][1..] == fs[i + 1..];
  }

  // ---------- Unique readability ----------

  /** The type with the names of fields, parameters and structs dropped. */
  function Nameless(t: Type): Type
    decreases t
  {
    match t
    case Builtin(_) => t
    case StringType => t
    case Pointer(base) => Pointer(Nameless(base))
    case Array(length, elem) => Array(length, Nameless(elem))
    case Map(key, val) => Map(Nameless(key), Nameless(val))
    case Struct(_, fields) => Struct("", NamelessAll(fields))
    case Function(params, ret) => Function(NamelessAll(params), Nameless(ret))
  }

  function NamelessAll(fs: seq<Field>): (r: seq<Field>)
    ensures |r| == |fs|
    decreases fs
  {
    if |fs| == 0 then [] else [Field("", Nameless(fs[0].ty))] + NamelessAll(fs[1..])
  }

  predicate PlainWord(w: string) {
    |w| > 0 && AllIdent(w) && w != "string" && w != "map" && w != "struct"
  }

  /** The builtin has a plain name, and the context finds it under that name. */
  predicate Nameable(kind: BuiltinKind) {
    PlainWord(TplName(kind)) && LookupBuiltinType(TplName(kind)) == Some(Builtin(kind))
  }

  predicate WellNamed(t: Type)
    decreases t
  {
    match t
    case Builtin(kind) => Nameable(kind)
    case StringType => true
    case Pointer(base) => WellNamed(base)
    case Array(_, elem) => WellNamed(elem)
    case Map(key, val) => WellNamed(key) && WellNamed(val)
    case Struct(_, fields) => forall i :: 0 <= i < |fields| ==> WellNamed(fields[i].ty)
    case Function(params, ret) => (forall i :: 0 <= i < |params| ==> WellNamed(params[i].ty)) && WellNamed(ret)
  }

  predicate IsWordType(t: Type) { t.Builtin? || t.StringType? || t.Map? || t.Struct? }

  /** The leading word of the text of a type that starts with one. */
  function LeadWord(t: Type): string
    requires IsWordType(t)
  {
    match t
    case Builtin(kind) => TplName(kind)
    case StringType => "string"
    case Map(_, _) => "map"
    case Struct(_, _) => "struct"
  }

  function AfterWord(t: Type): string
    requires IsWordType(t)
  {
    match t
    case Builtin(kind) => ""
    case StringType => ""
    case Map(key, val) => "[" + TypeText(key) + "]" + TypeText(val)
    case Struct(_, fields) => "{" + ListText(fields) + "}"
  }

  predicate Ended(s: string) { |s| == 0 || !IsIdentChar(s[0]) }

  lemma WordSplits(t: Type, x: string)
    requires IsWordType(t) && WellNamed(t) && Ended(x)
    ensures Word(TypeText(t) + x) == LeadWord(t) && |LeadWord(t)| > 0 && AllIdent(LeadWord(t))
    ensures TypeText(t) + x == LeadWord(t) + (AfterWord(t) + x)
  {
    hide LeadWord, AfterWord, TypeText, WellNamed;
    TextSplits(t);
    WordFacts(t, x);
    assert TypeText(t) + x == LeadWord(t) + (AfterWord(t) + x);
    WordOfPrefix(LeadWord(t), AfterWord(t) + x);
  }

  lemma WordFacts(t: Type, x: string)
    requires IsWordType(t) && WellNamed(t) && Ended(x)
    ensures |LeadWord(t)| > 0 && AllIdent(LeadWord(t)) && Ended(AfterWord(t) + x)
  {
    hide TypeText, ListText, TplName;
    assert "" + x == x;
  }

  lemma TextSplits(t: Type)
    requires IsWordType(t)
    ensures TypeText(t) == LeadWord(t) + AfterWord(t)
  {
    hide ListText, TplName;
    match t
    case Builtin(kind) =>
    case StringType =>
    case Map(key, val) => assert "map[" == "map" + "[";
    case Struct(_, fields) => assert "struct{" == "struct" + "{";
  }

  /** The first character tells the four forms of a type apart. */
  lemma FirstChar(t: Type, x: string)
    requires WellNamed(t) && Ended(x)
    ensures var s := TypeText(t) + x;
            && |s| > 0 && s[0] != ')' && s[0] != '}'
            && (IsWordType(t) <==> IsIdentChar(s[0])) && (t.Pointer? <==> s[0] == '*')
            && (t.Array? <==> s[0] == '[') && (t.Function? <==> s[0] == '(')
  {
    hide ListText, LengthText, WellNamed, LeadWord, AfterWord;
    if IsWordType(t) {
      hide TypeText;
      WordSplits(t, x);
    }
  }

  lemma SameTail(c: string, s: string, t: string)
    requires c + s == c + t
    ensures s == t
  {
    assert s == (c + s)[|c|..] && t == (c + t)[|c|..];
  }

  lemma Nest(a: string, b: string, c: string, d: string, x: string)
    ensures a + b + c + x == a + (b + (c + x))
    ensures a + b + c + d + x == a + (b + (c + (d + x)))
  {
  }

  /** Unique readability: a text starts with at most one type, up to names. */
  lemma {:induction false} Readable(a: Type, x: string, b: Type, y: string)
    requires WellNamed(a) && WellNamed(b) && Ended(x) && Ended(y) && TypeText(a) + x == TypeText(b) + y
    ensures Nameless(a) == Nameless(b) && x == y
    decreases a, 1
  {
    hide WellNamed, TypeText, Nameless, IsIdentChar;
    FirstChar(a, x);
    FirstChar(b, y);
    if IsWordType(a) {
      WordsReadable(a, x, b, y);
    } else if a.Pointer? {
      PointersReadable(a, x, b, y);
    } else if a.Array? {
      ArraysReadable(a, x, b, y);
    } else {
      FunctionsReadable(a, x, b, y);
    }
  }

  lemma {:induction false} PointersReadable(a: Type, x: string, b: Type, y: string)
    requires a.Pointer? && b.Pointer?
    requires WellNamed(a) && WellNamed(b) && Ended(x) && Ended(y) && TypeText(a) + x == TypeText(b) + y
    ensures Nameless(a) == Nameless(b) && x == y
    decreases a, 0
  {
    hide ListText, LengthText, Ended;
    var s, t := TypeText(a.base), TypeText(b.base);
    PointerSplits(a, x);
    PointerSplits(b, y);
    SameTail("*", s + x, t + y);
    Readable(a.base, x, b.base, y);
  }

  lemma PointerSplits(a: Type, x: string)
    requires a.Pointer?
    ensures TypeText(a) + x == "*" + (TypeText(a.base) + x)
  {
    hide ListText, LengthText;
  }

  lemma {:induction false} ArraysReadable(a: Type, x: string, b: Type, y: string)
    requires a.Array? && b.Array?
    requires WellNamed(a) && WellNamed(b) && Ended(x) && Ended(y) && TypeText(a) + x == TypeText(b) + y
    ensures Nameless(a) == Nameless(b) && x == y
    decreases a, 0
  {
    hide LengthText, ListText;
    var m, n := LengthText(a.length), LengthText(b.length);
    var s, t := TypeText(a.elem) + x, TypeText(b.elem) + y;
    Nest("[", m, "]", TypeText(a.elem), x);
    Nest("[", n, "]", TypeText(b.elem), y);
    SameTail("[", m + ("]" + s), n + ("]" + t));
    LengthReadable(a.length, s, b.length, t);
    Readable(a.elem, x, b.elem, y);
  }

  lemma LengthStarts(n: nat, rest: string)
    ensures |LengthText(n) + rest| > 0 && ((LengthText(n) + rest)[0] == '*' <==> n == 0)
  {
    hide Dec;
    assert (LengthText(n) + rest)[0] == LengthText(n)[0];
    if n != 0 {
      assert IsDigit(Dec(n)[0]);
    }
  }

  lemma LengthReadable(m: nat, s: string, n: nat, t: string)
    requires LengthText(m) + ("]" + s) == LengthText(n) + ("]" + t)
    ensures m == n && s == t
  {
    hide Dec;
    LengthStarts(m, "]" + s);
    LengthStarts(n, "]" + t);
    if m != 0 && n != 0 {
      DigitsOfPrefix(Dec(m), "]" + s);
      DigitsOfPrefix(Dec(n), "]" + t);
      DecInjective(m, n);
    }
    SameTail(LengthText(m), "]" + s, "]" + t);
    SameTail("]", s, t);
  }

  lemma {:induction false} FunctionsReadable(a: Type, x: string, b: Type, y: string)
    requires a.Function? && b.Function?
    requires WellNamed(a) && WellNamed(b) && Ended(x) && Ended(y) && TypeText(a) + x == TypeText(b) + y
    ensures Nameless(a) == Nameless(b) && x == y
    decreases a, 0
  {
    hide ListText;
    var s, t := TypeText(a.ret) + x, TypeText(b.ret) + y;
    Nest("(", ListText(a.params), ")->", TypeText(a.ret), x);
    Nest("(", ListText(b.params), ")->", TypeText(b.ret), y);
    SameTail("(", ListText(a.params) + (")->" + s), ListText(b.params) + (")->" + t));
    ListsReadable(a.params, ")->" + s, b.params, ")->" + t);
    SameTail(")->", s, t);
    Readable(a.ret, x, b.ret, y);
  }

  predicate Closed(s: string) { |s| > 0 && (s[0] == ')' || s[0] == '}') }

  lemma {:induction false} ListsReadable(fs: seq<Field>, x: string, gs: seq<Field>, y: string)
    requires forall i :: 0 <= i < |fs| ==> WellNamed(fs[i].ty)
    requires forall i :: 0 <= i < |gs| ==> WellNamed(gs[i].ty)
    requires Closed(x) && Closed(y) && ListText(fs) + x == ListText(gs) + y
    ensures NamelessAll(fs) == NamelessAll(gs) && x == y
    decreases fs, 0
  {
    hide TypeText, WellNamed, Nameless;
    if |fs| == 0 || |gs| == 0 {
      ListStarts(fs, x);
      ListStarts(gs, y);
      assert "" + x == x && "" + y == y;
    } else {
      var p, q := ListTail(fs, x), ListTail(gs, y);
      ListSplits(fs, x);
      ListSplits(gs, y);
      Readable(fs[0].ty, p, gs[0].ty, q);
      if |fs| > 1 {
        SameTail(",", ListText(fs[1..]) + x, ListText(gs[1..]) + y);
        ListsReadable(fs[1..], x, gs[1..], y);
      } else {
        assert NamelessAll(fs) == [Field("", Nameless(fs[0].ty))] + NamelessAll(fs[1..]);
      }
    }
  }

  /** What follows the first element of a list. */
  function ListTail(fs: seq<Field>, x: string): string
    requires |fs| > 0
  {
    if |fs| == 1 then x else "," + (ListText(fs[1..]) + x)
  }

  lemma ListSplits(fs: seq<Field>, x: string)
    requires |fs| > 0 && Closed(x)
    ensures ListText(fs) + x == TypeText(fs[0].ty) + ListTail(fs, x) && Ended(ListTail(fs, x))
    ensures |fs| == 1 ==> ListTail(fs, x)[0] != ','
    ensures |fs| > 1 ==> ListTail(fs, x)[0] == ','
  {
    hide TypeText;
    if |fs| > 1 {
      Nest(TypeText(fs[0].ty), ",", ListText(fs[1..]), "", x);
    }
  }

  lemma ListStarts(fs: seq<Field>, x: string)
    requires (forall i :: 0 <= i < |fs| ==> WellNamed(fs[i].ty)) && Closed(x)
    ensures |fs| > 0 ==> |ListText(fs) + x| > 0 && !Closed(ListText(fs) + x)
  {
    hide TypeText, WellNamed, ListText;
    if |fs| > 0 {
      ListSplits(fs, x);
      FirstChar(fs[0].ty, ListTail(fs, x));
    }
  }

  lemma {:induction false} WordsReadable(a: Type, x: string, b: Type, y: string)
    requires IsWordType(a) && IsWordType(b)
    requires WellNamed(a) && WellNamed(b) && Ended(x) && Ended(y) && TypeText(a) + x == TypeText(b) + y
    ensures Nameless(a) == Nameless(b) && x == y
    decreases a, 0
  {
    hide TypeText, ListText, LookupBuiltinType, TplName;
    WordSplits(a, x);
    WordSplits(b, y);
    SameTail(LeadWord(a), AfterWord(a) + x, AfterWord(b) + y);
    if a.Map? {
      MapsReadable(a, x, b, y);
    } else if a.Struct? {
      StructsReadable(a, x, b, y);
    } else {
      assert "" + x == x && "" + y == y;
    }
  }

  lemma {:induction false} StructsReadable(a: Type, x: string, b: Type, y: string)
    requires a.Struct? && b.Struct? && WellNamed(a) && WellNamed(b)
    requires AfterWord(a) + x == AfterWord(b) + y
    ensures Nameless(a) == Nameless(b) && x == y
    decreases a, 0, 0
  {
    hide ListText, TypeText;
    Nest("{", ListText(a.fields), "}", "", x);
    Nest("{", ListText(b.fields), "}", "", y);
    SameTail("{", ListText(a.fields) + ("}" + x), ListText(b.fields) + ("}" + y));
    ListsReadable(a.fields, "}" + x, b.fields, "}" + y);
    SameTail("}", x, y);
  }

  lemma {:induction false} MapsReadable(a: Type, x: string, b: Type, y: string)
    requires a.Map? && b.Map? && WellNamed(a) && WellNamed(b) && Ended(x) && Ended(y)
    requires AfterWord(a) + x == AfterWord(b) + y
    ensures Nameless(a) == Nameless(b) && x == y
    decreases a, 0, 0
  {
    hide TypeText;
    var s, t := TypeText(a.val) + x, TypeText(b.val) + y;
    Nest("[", TypeText(a.key), "]", TypeText(a.val), x);
    Nest("[", TypeText(b.key), "]", TypeText(b.val), y);
    SameTail("[", TypeText(a.key) + ("]" + s), TypeText(b.key) + ("]" + t));
    Readable(a.key, "]" + s, b.key, "]" + t);
    SameTail("]", s, t);
    Readable(a.val, x, b.val, y);
  }

  // ---------- The theorem ----------

  lemma {:induction false} NamelessText(t: Type)
    ensures TypeText(Nameless(t)) == TypeText(t)
    decreases t
  {
    match t
    case Builtin(_) =>
    case StringType =>
    case Pointer(base) => NamelessText(base);
    case Array(_, elem) => NamelessText(elem);
    case Map(key, val) => NamelessText(key); NamelessText(val);
    case Struct(_, fields) => NamelessListText(fields);
    case Function(params, ret) => NamelessListText(params); NamelessText(ret);
  }

  lemma {:induction false} NamelessListText(fs: seq<Field>)
    ensures ListText(NamelessAll(fs)) == ListText(fs)
    decreases fs
  {
    hide TypeText, Nameless;
    if |fs| > 0 {
      NamelessText(fs[0].ty);
      NamelessListText(fs[1..]);
      assert NamelessAll(fs)[1..] == NamelessAll(fs[1..]);
    }
  }

  /** Two types print alike exactly when they are equal up to names. */
  lemma {:induction false} PrintedExactly(a: Type, b: Type)
    requires WellNamed(a) && WellNamed(b)
    ensures TypeText(a) == TypeText(b) <==> Nameless(a) == Nameless(b)
  {
    hide TypeText, Nameless, WellNamed;
    if TypeText(a) == TypeText(b) {
      assert TypeText(a) + "" == TypeText(b) + "";
      Readable(a, "", b, "");
    }
    NamelessText(a);
    NamelessText(b);
  }

  /** The names of the primitive and SQL builtins meet the condition on names. */
  lemma PrimitivesNameable(kind: BuiltinKind)
    requires !kind.NonPrimitive?
    ensures Nameable(kind)
  {
    hide AllIdent;
    NameFound(kind);
    NameIsWord(kind);
  }

  lemma NameFound(kind: BuiltinKind)
    requires !kind.NonPrimitive?
    ensures LookupBuiltinType(TplName(kind)) == Some(Builtin(kind))
    ensures TplName(kind) != "string" && TplName(kind) != "map" && TplName(kind) != "struct"
  {
    hide TplName;
    NotReserved(kind);
    Looked(kind);
  }

  lemma Looked(kind: BuiltinKind)
    requires !kind.NonPrimitive?
    ensures LookupBuiltinType(TplName(kind)) == Some(Builtin(kind))
  {
    hide IsEngineClass;
  }

  lemma NotReserved(kind: BuiltinKind)
    requires !kind.NonPrimitive?
    ensures TplName(kind) != "string" && TplName(kind) != "map" && TplName(kind) != "struct"
  {
    hide LookupBuiltinType;
  }

  lemma NameIsWord(kind: BuiltinKind)
    requires !kind.NonPrimitive?
    ensures |TplName(kind)| > 0 && AllIdent(TplName(kind))
  {
  }

  /** The engine classes meet the condition as well. */
  lemma EngineClassesNameable(name: string)
    requires IsEngineClass(name)
    ensures Nameable(NonPrimitive(name))
  {
    hide EngineWord, AllIdent;
    var i :| 0 <= i < |NON_PRIMITIVE_NAMES| && NON_PRIMITIVE_NAMES[i] == name;
    EngineNames(i);
    EngineWordFound(name);
  }

  /** A word with a capital in front that is not the name of an SQL builtin, all of which end in Val. */
  predicate EngineWord(w: string) {
    |w| > 0 && 'A' <= w[0] <= 'Z' && AllIdent(w) && (w[|w| - 1] != 'l' || w == "MemoryPool")
  }

  lemma EngineWordFound(w: string)
    requires EngineWord(w) && IsEngineClass(w)
    ensures PlainWord(w) && LookupBuiltinType(w) == Some(Builtin(NonPrimitive(w)))
  {
    hide EngineWord, AllIdent, IsEngineClass;
    NotLowerCase(w);
    NotSql(w);
  }

  lemma NotLowerCase(w: string)
    requires EngineWord(w)
    ensures |w| > 0 && AllIdent(w)
    ensures w != "nil" && w != "void" && w != "bool" && w != "int8" && w != "int16" && w != "int32"
    ensures w != "int" && w != "int64" && w != "uint8" && w != "uint16" && w != "uint32" && w != "uint64"
    ensures w != "int128" && w != "uint128" && w != "float32" && w != "float" && w != "float64" && w != "string"
    ensures w != "map" && w != "struct"
  {
    hide AllIdent;
  }

  lemma NotSql(w: string)
    requires EngineWord(w)
    ensures w != "BooleanVal" && w != "IntegerVal" && w != "RealVal" && w != "DecimalVal" && w != "StringVal" && w != "DateVal"
    ensures w != "TimestampVal"
  {
    hide AllIdent;
  }

  lemma EngineNames(i: nat)
    requires i < |NON_PRIMITIVE_NAMES|
    ensures EngineWord(NON_PRIMITIVE_NAMES[i])
  {
    hide EngineWord;
    EngineNames0(); EngineNames1(); EngineNames2(); EngineNames3(); EngineNames4(); EngineNames5();
  }

  lemma EngineNames0()
    ensures EngineWord("AggregationHashTable") && EngineWord("AnalysisStats") && EngineWord("AHTIterator")
    ensures EngineWord("AHTVectorIterator") && EngineWord("AHTOverflowPartitionIterator") && EngineWord("CompactStorage")
  {
  }

  lemma EngineNames1()
    ensures EngineWord("CSVReader") && EngineWord("Date") && EngineWord("ExecutionContext")
    ensures EngineWord("FilterManager") && EngineWord("HashTableEntry") && EngineWord("JoinHashTable")
  {
  }

  lemma EngineNames2()
    ensures EngineWord("MemoryPool") && EngineWord("Sorter") && EngineWord("SorterIterator")
    ensures EngineWord("TableVectorIterator") && EngineWord("ThreadStateContainer") && EngineWord("Timestamp")
  {
  }

  lemma EngineNames3()
    ensures EngineWord("TupleIdList") && EngineWord("VarlenEntry") && EngineWord("VarlenHeap")
    ensures EngineWord("VectorProjection") && EngineWord("VectorProjectionIterator") && EngineWord("CountAggregate")
  {
  }

  lemma EngineNames4()
    ensures EngineWord("CountStarAggregate") && EngineWord("AvgAggregate") && EngineWord("IntegerMaxAggregate")
    ensures EngineWord("IntegerMinAggregate") && EngineWord("IntegerSumAggregate") && EngineWord("RealMaxAggregate")
  {
  }

  lemma EngineNames5()
    ensures EngineWord("RealMinAggregate") && EngineWord("RealSumAggregate") && EngineWord("DateMinAggregate")
    ensures EngineWord("DateMaxAggregate") && EngineWord("StringMinAggregate") && EngineWord("StringMaxAggregate")
  {
  }
}
