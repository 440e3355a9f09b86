/**
 * The shape of a Go struct as the flag binder sees it through reflection:
 * each field's name, its struct tag, whether it is embedded, and its kind.
 * Struct kinds carry their own fields, pointer kinds their pointee (None for
 * a nil pointer), so a descriptor stands in for both the type and the value
 * that the binder walks.
 */
module Descriptor {
  import opened Wrappers

  datatype Kind =
    | String
    | Bool
    | Int
    | Int32
    | Int64(isDuration: bool)     // time.Duration is an int64 kind
    | Float32
    | Float64
    | Slice(elem: Kind)
    | Struct(fields: seq<Field>)
    | Pointer(pointee: Option<Kind>)
    | Other(name: string)        // every other reflect.Kind: int8, uint, map, ...

  /**
   * A struct field.  `tags` is the struct tag as reflect.StructTag.Lookup
   * answers it: the keys present, each with its (unquoted) value.
   */
  datatype Field = Field(name: string, tags: map<string, string>, anonymous: bool, kind: Kind)

  /** isAnonymousCaredField: an embedded field of struct or pointer kind. */
  predicate IsAnonymousCaredField(f: Field)
  {
    f.anonymous && (f.kind.Struct? || f.kind.Pointer?)
  }

  /** Number of kind nodes in a descriptor; the walk over it terminates by this measure. */
  function KindSize(k: Kind): (n: nat)
    ensures n >= 1
  {
    match k
    case Slice(e) => 1 + KindSize(e)
    case Struct(fs) => 1 + FieldsSize(fs)
    case Pointer(p) => if p.Some? then 1 + KindSize(p.value) else 1
    case _ => 1
  }

  function FieldsSize(fs: seq<Field>): nat
  {
    if fs == [] then 0 else KindSize(fs[0].kind) + FieldsSize(fs[1..])
  }

  /** Every field of a struct is strictly smaller than the struct's whole list of fields plus its own node. */
  lemma {:induction false} FieldSmaller(fs: seq<Field>, i: nat)
    requires i < |fs|
    ensures KindSize(fs[i].kind) <= FieldsSize(fs)
  {
    if i > 0 {
      FieldSmaller(fs[1..], i - 1);
    }
  }
}
