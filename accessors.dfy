/**
 * The read-only side of a document instance, as functions of its class's
 * schema and its `_data` map: attribute reads, `items()`, `validate()` and
 * the table name.  Attribute writes are given here as the value they
 * produce (`Assign`); the method that performs them is `Document.SetAttr`.
 */
module Accessors {
  import opened Wrappers
  import opened Values
  import opened Dicts
  import opened Fields

  /** The exceptions the document core raises; message texts are not modelled. */
  datatype Error = AttributeError | ValidationError(field: string)

  /** `_data.get(name, field._default)`: the stored value, or the field's default when none is stored. */
  function StoredOr(data: map<string, Value>, name: string, f: Field): Value
  {
    if name in data then data[name] else f.default
  }

  /** `_get_value(name)`, defined for the names of the schema (others raise KeyError in Python). */
  function GetValue(schema: Schema, data: map<string, Value>, name: string): (r: Value)
    requires name in Keys(schema)
    ensures name in data ==> r == data[name]
    ensures name !in data ==> r == Lookup(schema, name).value.default
  {
    StoredOr(data, name, Lookup(schema, name).value)
  }

  /** `__getattr__(key)`: a schema field reads as its stored-or-default value; any other name raises AttributeError. */
  function GetAttr(schema: Schema, data: map<string, Value>, key: string): (r: Result<Value, Error>)
    ensures r.Failure? <==> key !in Keys(schema)
    ensures r.Failure? ==> r.error == AttributeError
    ensures r.Success? ==> r.value == GetValue(schema, data, key)
  {
    match Lookup(schema, key)
    case None => Failure(AttributeError)
    case Some(f) => Success(StoredOr(data, key, f))
  }

  /** `__setattr__(key, value)`, as the `_data` map it leaves behind or the exception it raises. */
  function Assign(schema: Schema, isValid: Validity, data: map<string, Value>, key: string, value: Value)
    : Result<map<string, Value>, Error>
  {
    match Lookup(schema, key)
    case None => Failure(AttributeError)
    case Some(f) => if isValid(f.kind, value) then Success(data[key := value]) else Failure(ValidationError(key))
  }

  /** The value `value` may take in field `key`: the key names a field whose `is_valid` accepts the value. */
  predicate ValueOk(schema: Schema, isValid: Validity, key: string, value: Value)
  {
    match Lookup(schema, key)
    case None => false
    case Some(f) => isValid(f.kind, value)
  }

  /**
   * A write succeeds exactly when the field exists and accepts the value;
   * an unknown name raises AttributeError and a rejected value
   * ValidationError.  After a successful write the field reads back as the
   * written value and every other name reads as before.
   */
  lemma AssignThenGet(schema: Schema, isValid: Validity, data: map<string, Value>, key: string, value: Value)
    ensures Assign(schema, isValid, data, key, value).Success? <==> ValueOk(schema, isValid, key, value)
    ensures key !in Keys(schema) ==> Assign(schema, isValid, data, key, value) == Failure(AttributeError)
    ensures key in Keys(schema) && !ValueOk(schema, isValid, key, value) ==>
      Assign(schema, isValid, data, key, value) == Failure(ValidationError(key))
    ensures Assign(schema, isValid, data, key, value).Success? ==>
      var data' := Assign(schema, isValid, data, key, value).value;
      && GetAttr(schema, data', key) == Success(value)
      && data'.Keys == data.Keys + {key}
      && forall k :: k != key ==> GetAttr(schema, data', k) == GetAttr(schema, data, k) && (k in data' <==> k in data)
  {
  }

  /** `__iter__`: the field names in schema order. */
  function FieldNames(schema: Schema): seq<string>
  {
    seq(|schema|, i requires 0 <= i < |schema| => schema[i].0)
  }

  /** `items()`: one (name, value) pair per field, in schema order. */
  function Items(schema: Schema, data: map<string, Value>): seq<(string, Value)>
  {
    seq(|schema|, i requires 0 <= i < |schema| => (schema[i].0, StoredOr(data, schema[i].0, schema[i].1)))
  }

  /**
   * `items()` lists the fields in the order `__iter__` yields them, each
   * with the value an attribute read returns.
   */
  lemma {:induction false} ItemsAreReads(schema: Schema, data: map<string, Value>)
    requires UniqueKeys(schema)
    ensures |Items(schema, data)| == |FieldNames(schema)| == |schema|
    ensures forall i :: 0 <= i < |schema| ==>
      Items(schema, data)[i].0 == FieldNames(schema)[i] && GetAttr(schema, data, schema[i].0) == Success(Items(schema, data)[i].1)
  {
    forall i | 0 <= i < |schema|
      ensures GetAttr(schema, data, schema[i].0) == Success(Items(schema, data)[i].1)
    {
      LookupAt(schema, i);
    }
  }

  /** The check `validate()` makes of one field: a PrimaryKeyField holding None passes, any other value must be valid. */
  predicate FieldOk(isValid: Validity, data: map<string, Value>, entry: (string, Field))
  {
    var value := StoredOr(data, entry.0, entry.1);
    (entry.1.kind.PrimaryKeyKind? && value == VNone) || isValid(entry.1.kind, value)
  }

  /**
   * `validate()`: passes when every field passes `FieldOk`, and otherwise
   * raises ValidationError at the first field, in schema order, that does not.
   */
  function Validate(schema: Schema, isValid: Validity, data: map<string, Value>): (r: Outcome<Error>)
    ensures r.Pass? <==> forall i :: 0 <= i < |schema| ==> FieldOk(isValid, data, schema[i])
    ensures r.Fail? ==>
      exists i :: 0 <= i < |schema| && r.error == ValidationError(schema[i].0) &&
        !FieldOk(isValid, data, schema[i]) && forall j :: 0 <= j < i ==> FieldOk(isValid, data, schema[j])
  {
    if schema == [] then Pass
    else
      var p, last := schema[..|schema| - 1], schema[|schema| - 1];
      match Validate(p, isValid, data)
      case Fail(e) => Fail(e)
      case Pass => if FieldOk(isValid, data, last) then Pass else Fail(ValidationError(last.0))
  }

  /** `str.lower()` on one character, for the ASCII letters. */
  function LowerChar(c: char): char
  {
    if 'A' <= c <= 'Z' then (c as int - 'A' as int + 'a' as int) as char else c
  }

  /** `_table_name()`: the class name in lower case. */
  function TableName(className: string): (r: string)
    ensures |r| == |className|
    ensures forall i :: 0 <= i < |r| ==> !('A' <= r[i] <= 'Z')
    ensures forall i :: 0 <= i < |r| && !('A' <= className[i] <= 'Z') ==> r[i] == className[i]
    ensures forall i :: 0 <= i < |r| && 'A' <= className[i] <= 'Z' ==>
      r[i] as int == className[i] as int - 'A' as int + 'a' as int
  {
    seq(|className|, i requires 0 <= i < |className| => LowerChar(className[i]))
  }
}
