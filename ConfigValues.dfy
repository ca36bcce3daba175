/**
 * The values a configuration fragment is made of: JSON-like scalars,
 * arrays and plain objects, plus opaque instances (a colour value) whose
 * internal state is never merged field by field.
 */
module ConfigValues {

  datatype Value =
    | Null
    | Bool(b: bool)
    | Num(n: int)
    | Str(s: string)
    | Arr(items: seq<Value>)
    | Obj(fields: map<string, Value>)
    | Opaque(kind: string, state: map<string, Value>)

  /** A configuration object: property names to values. */
  type Config = map<string, Value>

  /** A loaded fragment; its configuration lives under its `data` property. */
  datatype Fragment = Fragment(data: Config)

  /** The kind tag of a colour instance. */
  const ColorKind: string := "Color"

  /** A colour instance: the one opaque kind the merge meets. */
  predicate IsColor(v: Value)
  {
    v.Opaque? && v.kind == ColorKind
  }

  predicate IsScalar(v: Value)
  {
    v.Null? || v.Bool? || v.Num? || v.Str?
  }

  /** True when both values are built with the same constructor. */
  predicate SameKind(x: Value, y: Value)
  {
    match x
    case Null => y.Null?
    case Bool(_) => y.Bool?
    case Num(_) => y.Num?
    case Str(_) => y.Str?
    case Arr(_) => y.Arr?
    case Obj(_) => y.Obj?
    case Opaque(_, _) => y.Opaque?
  }
}
