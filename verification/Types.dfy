/** Option, used for the source's nullable pointers. */
module Options {
  datatype Option<+T> = None | Some(value: T)
}

/** The TPL types as values (src/include/ast/type.h). Two types are one object in the source exactly
    when they are equal here; module TypeContext proves that. */
module Types {
  import opened Options

  /** The primitive and SQL kinds by name; the 36 engine classes, such as Sorter, share NonPrimitive. */
  datatype BuiltinKind =
    | Nil | Bool | Int8 | Int16 | Int32 | Int64 | UInt8 | UInt16 | UInt32 | UInt64
    | Int128 | UInt128 | Float32 | Float64
    | NonPrimitive(name: string)
    | BooleanVal | IntegerVal | RealVal | DecimalVal | StringVal | DateVal | TimestampVal

  /** Struct fields and function parameters. */
  datatype Field = Field(name: string, ty: Type)

  /** An anonymous struct has the empty name; an array of unknown length has length 0. */
  datatype Type =
    | Builtin(kind: BuiltinKind)
    | StringType
    | Pointer(base: Type)
    | Array(length: nat, elem: Type)
    | Map(key: Type, val: Type)
    | Struct(name: string, fields: seq<Field>)
    | Function(params: seq<Field>, ret: Type)
  {
    predicate Is(k: BuiltinKind) { Builtin? && kind == k }

    predicate IsInteger() {
      Builtin? && (kind.Int8? || kind.Int16? || kind.Int32? || kind.Int64? || kind.UInt8? || kind.UInt16?
                   || kind.UInt32? || kind.UInt64? || kind.Int128? || kind.UInt128?)
    }

    predicate IsFloat() { Builtin? && (kind.Float32? || kind.Float64?) }

    predicate IsSqlValue() {
      Builtin? && (kind.BooleanVal? || kind.IntegerVal? || kind.RealVal? || kind.DecimalVal?
                   || kind.StringVal? || kind.DateVal? || kind.TimestampVal?)
    }

    predicate IsArithmetic() {
      IsInteger() || IsFloat() || Is(IntegerVal) || Is(RealVal) || Is(DecimalVal)
    }

    predicate HasUnknownLength() requires Array? { length == 0 }

    predicate HasKnownLength() requires Array? { length != 0 }
  }

  /** The first field of that name, as StructType::LookupFieldByName finds it. */
  function LookupField(fields: seq<Field>, name: string): (r: Option<Type>)
    ensures r.None? <==> forall i :: 0 <= i < |fields| ==> fields[i].name != name
    ensures r.Some? ==> exists i :: 0 <= i < |fields| && fields[i] == Field(name, r.value)
                                    && forall j :: 0 <= j < i ==> fields[j].name != name
  {
    if fields == [] then None
    else if fields[0].name == name then
      assert fields[0] == Field(name, fields[0].ty);
      Some(fields[0].ty)
    else
      var r := LookupField(fields[1..], name);
      assert forall i :: 0 <= i < |fields| ==> i == 0 || fields[i] == fields[1..][i - 1];
      assert r.Some? ==> exists i :: 0 <= i < |fields| && fields[i] == Field(name, r.value)
                                    && forall j :: 0 <= j < i ==> fields[j].name != name by {
        if r.Some? {
          var i :| 0 <= i < |fields[1..]| && fields[1..][i] == Field(name, r.value)
                   && forall j :: 0 <= j < i ==> fields[1..][j].name != name;
          assert fields[i + 1] == Field(name, r.value);
        }
      }
      r
  }
}
