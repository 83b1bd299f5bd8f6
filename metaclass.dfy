/**
 * The `BaseDocument` metaclass: when a document class is defined, its
 * field declarations move out of the class attributes into the class's
 * schema, a primary key is always installed, and the query manager
 * `objects` is attached.
 */
module SchemaBuilder {
  import opened Wrappers
  import opened Values
  import opened Dicts
  import opened Fields

  /** A class attribute: a field declaration, the query manager, or anything else. */
  datatype Attr = FieldAttr(field: Field) | ManagerAttr | OtherAttr(value: Value)

  /** A defined document class: its name, schema, remaining attributes and `Meta.primary_key_field`. */
  datatype DocumentClass = DocumentClass(
    name: string,
    fields: Schema,
    attrs: map<string, Attr>,
    primaryKeyField: string)

  /** The attributes of a class body that are not field declarations. */
  function PlainAttrs(attrs: map<string, Attr>): map<string, Attr>
  {
    map n | n in attrs && !attrs[n].FieldAttr? :: attrs[n]
  }

  /** What `_fields` holds under `n` once every attribute outside `todo` has been visited. */
  function Harvested(attrs: map<string, Attr>, todo: set<string>, declared: Schema, n: string): Option<Field>
  {
    if n in attrs && n !in todo && attrs[n].FieldAttr? then Some(attrs[n].field) else Lookup(declared, n)
  }

  /**
   * Runs once per class.  `attrs` is the class body without its own
   * `_fields` entry, which is `declared` (empty when the body has none).
   * `meta` is the `primary_key_field` of the `Meta` that attribute lookup
   * finds on the class, its own or one inherited from a base class; it is
   * None when that `Meta` is `Document`'s own, whose value is `"id"`.
   * Python 2 visits the attributes in no particular order, so the order of
   * the resulting schema is left open and everything is stated per name.
   */
  method BuildClass(name: string, attrs: map<string, Attr>, declared: Schema, meta: Option<string>)
    returns (c: DocumentClass)
    requires UniqueKeys(declared)
    ensures c.name == name
    ensures c.primaryKeyField == if meta.Some? then meta.value else DefaultPrimaryKeyField
    ensures WellFormed(c.fields)
    ensures forall n :: n != PkName ==>
      Lookup(c.fields, n) == if n in attrs && attrs[n].FieldAttr? then Some(attrs[n].field) else Lookup(declared, n)
    ensures Keys(c.fields) == Keys(declared) + (set n | n in attrs && attrs[n].FieldAttr?) + {PkName}
    ensures c.attrs == PlainAttrs(attrs)["objects" := ManagerAttr]
    ensures forall n :: n in c.attrs ==> !c.attrs[n].FieldAttr?
  {
    var fields := declared;
    var rest := attrs;
    var todo := attrs.Keys;
    while todo != {}
      invariant todo <= attrs.Keys
      invariant UniqueKeys(fields)
      invariant forall n :: Lookup(fields, n) == Harvested(attrs, todo, declared, n)
      invariant Keys(fields) == Keys(declared) + (set n | n in attrs && n !in todo && attrs[n].FieldAttr?)
      invariant rest == map n | n in attrs && (n in todo || !attrs[n].FieldAttr?) :: attrs[n]
      decreases todo
    {
      var n :| n in todo;
      todo := todo - {n};
      if attrs[n].FieldAttr? {
        forall j ensures Lookup(Put(fields, n, attrs[n].field), j) == if j == n then Some(attrs[n].field) else Lookup(fields, j) {
          PutLookup(fields, n, attrs[n].field, j);
        }
        fields := Put(fields, n, attrs[n].field);
        rest := rest - {n};
      }
    }
    forall j ensures Lookup(Put(fields, PkName, PkField()), j) == if j == PkName then Some(PkField()) else Lookup(fields, j) {
      PutLookup(fields, PkName, PkField(), j);
    }
    fields := Put(fields, PkName, PkField());
    var primaryKeyField := if meta.Some? then meta.value else DefaultPrimaryKeyField;
    c := DocumentClass(name, fields, rest["objects" := ManagerAttr], primaryKeyField);
  }
}
