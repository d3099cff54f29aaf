/**
 * What the generator reads through Go reflection, as plain values: a field's
 * type (reflect.Type) with the text fmt prints for it, and a struct's name and
 * fields in declaration order with their json tags.
 */
module Reflect {
  import opened GoStd

  /** The kinds of field type the models use: predeclared, defined in a package, pointer, slice. */
  datatype GoType =
    | Basic(name: string)
    | Named(pkg: string, name: string)
    | Pointer(elem: GoType)
    | Slice(elem: GoType)

  /** reflect.Type.String(), which is what "%v" prints for a field's type. */
  function TypeString(t: GoType): string
  {
    match t
    case Basic(n) => n
    case Named(p, n) => p + "." + n
    case Pointer(e) => "*" + TypeString(e)
    case Slice(e) => "[]" + TypeString(e)
  }

  predicate IsUpper(c: char) { 'A' <= c <= 'Z' }

  predicate IsDigit(c: char) { '0' <= c <= '9' }

  predicate IsIdentChar(c: char) { IsLower(c) || IsUpper(c) || IsDigit(c) || c == '_' }

  /**
   * Names as Go writes them: a predeclared type is lower-case letters and
   * digits (int, float64); a package name is lower-case letters; a type name
   * is an identifier.
   */
  predicate WellFormed(t: GoType)
  {
    match t
    case Basic(n) => n != [] && forall c :: c in n ==> IsLower(c) || IsDigit(c)
    case Named(p, n) =>
      && p != [] && (forall c :: c in p ==> IsLower(c))
      && n != [] && (forall c :: c in n ==> IsIdentChar(c))
    case Pointer(e) => WellFormed(e)
    case Slice(e) => WellFormed(e)
  }

  /** A reflect.StructField: its name, its type and Tag.Get("json") ("" when the tag has no json key). */
  datatype Field = Field(name: string, typ: GoType, jsonTag: string)

  /** A struct type: reflect.Type.Name() and its fields in declaration order. */
  datatype StructDef = StructDef(name: string, fields: seq<Field>)

  /** The printed type of a well-formed type holds no comma and no line break. */
  lemma {:induction false} TypeStringPlain(t: GoType)
    requires WellFormed(t)
    ensures ',' !in TypeString(t) && '\n' !in TypeString(t)
  {
    match t
    case Basic(n) =>
    case Named(p, n) =>
    case Pointer(e) => TypeStringPlain(e);
    case Slice(e) => TypeStringPlain(e);
  }
}
