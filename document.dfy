/**
 * A live document instance: the class it belongs to, its private `_data`
 * map, and the calls it has issued to the store.  The store itself is not
 * part of this model; each call becomes an entry of the ghost log `calls`.
 */
module Documents {
  import opened Wrappers
  import opened Values
  import opened Dicts
  import opened Fields
  import opened SchemaBuilder
  import opened Accessors
  import opened WireFormat

  /** A call the document core makes into the store. */
  datatype StoreCall =
    | TableCreate(table: string)
    | TableDrop(table: string)
    | Insert(table: string, doc: WireDoc)
    | DeleteByKey(table: string, key: Value)

  /** Every key of `_data` is a field, and every value written through the setter is one its field accepts. */
  ghost predicate DataInvariant(schema: Schema, isValid: Validity, data: map<string, Value>)
  {
    && data.Keys <= Keys(schema)
    && forall k :: k in data && k != PkName ==> ValueOk(schema, isValid, k, data[k])
  }

  /**
   * With the invariant in place, `validate()` can only fail on a field
   * whose default is read, or on a primary key that bypassed the setter.
   */
  lemma {:induction false} InvariantValidates(schema: Schema, isValid: Validity, data: map<string, Value>)
    requires UniqueKeys(schema) && DataInvariant(schema, isValid, data)
    requires forall i :: 0 <= i < |schema| && (schema[i].0 !in data || schema[i].0 == PkName) ==>
      FieldOk(isValid, data, schema[i])
    ensures Validate(schema, isValid, data) == Pass
  {
    forall i | 0 <= i < |schema| ensures FieldOk(isValid, data, schema[i]) {
      LookupAt(schema, i);
    }
  }

  /** What `__init__` leaves in `_data`: a raw document when one is given, the keyword arguments otherwise. */
  function InitialData(cls: DocumentClass, isValid: Validity, rawDoc: Option<WireDoc>, kwargs: WireDoc)
    : Result<map<string, Value>, Error>
  {
    if rawDoc.Some? then LoadDoc(cls.fields, isValid, cls.primaryKeyField, map[], rawDoc.value)
    else LoadKwargs(cls.fields, isValid, map[], kwargs)
  }

  class Document {
    const cls: DocumentClass
    const isValid: Validity
    var data: map<string, Value>
    ghost var calls: seq<StoreCall>

    ghost predicate Valid()
      reads this
    {
      WellFormed(cls.fields) && DataInvariant(cls.fields, isValid, data)
    }

    /** An instance with an empty `_data`, before `__init__` fills it. */
    constructor Empty(cls: DocumentClass, isValid: Validity)
      requires WellFormed(cls.fields)
      ensures Valid() && this.cls == cls && this.isValid == isValid
      ensures data == map[] && calls == []
    {
      this.cls := cls;
      this.isValid := isValid;
      data := map[];
      calls := [];
    }

    /**
     * `Document(_doc=rawDoc, **kwargs)`.  With a raw document, the primary
     * key's wire key is stored into `pk` directly, names outside the schema
     * are skipped and every field name is set through the validating
     * setter; without one, every keyword is set through the setter.  The
     * first exception ends construction.
     */
    static method New(cls: DocumentClass, isValid: Validity, rawDoc: Option<WireDoc>, kwargs: WireDoc)
      returns (r: Result<Document, Error>)
      requires WellFormed(cls.fields)
      ensures InitialData(cls, isValid, rawDoc, kwargs).Failure? <==> r.Failure?
      ensures r.Failure? ==> r.error == InitialData(cls, isValid, rawDoc, kwargs).error
      ensures r.Success? ==>
        && fresh(r.value) && r.value.Valid()
        && r.value.cls == cls && r.value.isValid == isValid && r.value.calls == []
        && r.value.data == InitialData(cls, isValid, rawDoc, kwargs).value
    {
      var d := new Document.Empty(cls, isValid);
      if rawDoc.Some? {
        var doc := rawDoc.value;
        var i := 0;
        while i < |doc|
          invariant 0 <= i <= |doc|
          invariant d.Valid() && d.cls == cls && d.isValid == isValid && d.calls == []
          invariant LoadDoc(cls.fields, isValid, cls.primaryKeyField, map[], doc[..i]) == Success(d.data)
        {
          var (name, value) := doc[i];
          assert doc[..i + 1][..i] == doc[..i];
          if name == cls.primaryKeyField {
            d.data := d.data[PkName := value];
          }
          if name in Keys(cls.fields) {
            var outcome := d.SetAttr(name, value);
            if outcome.Fail? {
              LoadDocStops(cls.fields, isValid, cls.primaryKeyField, map[], doc, i + 1);
              return Failure(outcome.error);
            }
          }
          i := i + 1;
        }
        assert doc[..i] == doc;
      } else {
        var i := 0;
        while i < |kwargs|
          invariant 0 <= i <= |kwargs|
          invariant d.Valid() && d.cls == cls && d.isValid == isValid && d.calls == []
          invariant LoadKwargs(cls.fields, isValid, map[], kwargs[..i]) == Success(d.data)
        {
          var (name, value) := kwargs[i];
          assert kwargs[..i + 1][..i] == kwargs[..i];
          var outcome := d.SetAttr(name, value);
          if outcome.Fail? {
            return Failure(outcome.error);
          }
          i := i + 1;
        }
        assert kwargs[..i] == kwargs;
      }
      r := Success(d);
    }

    /**
     * `__setattr__(key, value)`: an unknown name raises AttributeError, a
     * value the field rejects raises ValidationError, and in both cases
     * `_data` is left as it was; otherwise `key` now holds `value` and no
     * other key changed.
     */
    method SetAttr(key: string, value: Value) returns (outcome: Outcome<Error>)
      requires Valid()
      modifies this`data
      ensures Valid()
      ensures Assign(cls.fields, isValid, old(data), key, value).Success? ==>
        outcome == Pass && data == Assign(cls.fields, isValid, old(data), key, value).value
      ensures Assign(cls.fields, isValid, old(data), key, value).Failure? ==>
        outcome == Fail(Assign(cls.fields, isValid, old(data), key, value).error) && data == old(data)
    {
      var field := Lookup(cls.fields, key);
      if field.None? {
        return Fail(AttributeError);
      }
      if isValid(field.value.kind, value) {
        data := data[key := value];
        outcome := Pass;
      } else {
        outcome := Fail(ValidationError(key));
      }
    }

    /** `_doc`: the wire document, built one field at a time in schema order. */
    method BuildDoc() returns (doc: WireDoc)
      requires Valid()
      ensures doc == ToDoc(cls.fields, data, cls.primaryKeyField)
    {
      var schema := cls.fields;
      doc := [];
      var i := 0;
      while i < |schema|
        invariant 0 <= i <= |schema|
        invariant doc == ToDoc(schema[..i], data, cls.primaryKeyField)
      {
        assert schema[..i + 1][..i] == schema[..i];
        var (name, field) := schema[i];
        var key := if name == PkName then cls.primaryKeyField else name;
        var value := if name in data then data[name] else field.default;
        if !(key == cls.primaryKeyField && value == VNone) {
          doc := Put(doc, key, value);
        }
        i := i + 1;
      }
      assert schema[..i] == schema;
    }

    /**
     * `save()`: validates first, and only a record that passes is inserted,
     * as its `_doc`.  A failed validation issues no store call.  `_data`
     * never changes.
     */
    method Save() returns (outcome: Outcome<Error>)
      requires Valid()
      modifies this`calls
      ensures Valid()
      ensures outcome == Validate(cls.fields, isValid, data)
      ensures calls == old(calls) + if outcome.Pass?
        then [Insert(TableName(cls.name), ToDoc(cls.fields, data, cls.primaryKeyField))]
        else []
    {
      outcome := Validate(cls.fields, isValid, data);
      if outcome.Fail? {
        return;
      }
      var doc := BuildDoc();
      calls := calls + [Insert(TableName(cls.name), doc)];
    }

    /**
     * `delete()`: issues a delete by key exactly when the primary key's
     * value is truthy; an unset (None) key makes it a no-op.
     */
    method Delete() returns (issued: bool)
      requires Valid()
      modifies this`calls
      ensures issued <==> Truthy(GetValue(cls.fields, data, PkName))
      ensures calls == old(calls) + if issued
        then [DeleteByKey(TableName(cls.name), GetValue(cls.fields, data, PkName))]
        else []
    {
      var key := if PkName in data then data[PkName] else PkField().default;
      issued := Truthy(key);
      if issued {
        calls := calls + [DeleteByKey(TableName(cls.name), key)];
      }
    }

    /** `table_create()`: one call creating the class's table. */
    method CreateTable()
      modifies this`calls
      ensures calls == old(calls) + [TableCreate(TableName(cls.name))]
    {
      calls := calls + [TableCreate(TableName(cls.name))];
    }

    /** `table_drop()`: one call dropping the class's table. */
    method DropTable()
      modifies this`calls
      ensures calls == old(calls) + [TableDrop(TableName(cls.name))]
    {
      calls := calls + [TableDrop(TableName(cls.name))];
    }
  }
}
