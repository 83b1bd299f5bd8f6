/**
 * Field descriptors and the per-class schema (`_fields`).  The field
 * classes themselves live in a file that is not part of this model, so a
 * field is reduced to its kind and its default, and `is_valid` to a total
 * predicate on (kind, value) that every operation receives as a parameter.
 */
module Fields {
  import opened Wrappers
  import opened Values
  import opened Dicts

  /** `PrimaryKeyField` is the one kind the document core tests for; every other field class is opaque. */
  datatype Kind = PrimaryKeyKind | DeclaredKind(descriptor: string)

  datatype Field = Field(kind: Kind, default: Value)

  /** `field.is_valid(value)`, by the field's kind. */
  type Validity = (Kind, Value) -> bool

  /** The name under which every schema holds its primary key. */
  const PkName: string := "pk"

  /** The wire name of the primary key when the class's `Meta` does not set one. */
  const DefaultPrimaryKeyField: string := "id"

  /** A fresh `PrimaryKeyField()`; an unsaved record reads its key as None. */
  function PkField(): Field
  {
    Field(PrimaryKeyKind, VNone)
  }

  /** The `_fields` map of a document class: field name to descriptor, in a fixed order. */
  type Schema = Dict<Field>

  /** What the class builder guarantees of every schema it produces. */
  predicate WellFormed(schema: Schema)
  {
    UniqueKeys(schema) && Lookup(schema, PkName) == Some(PkField())
  }
}
