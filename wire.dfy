/**
 * The two translations between a document instance and the flat wire
 * document the store exchanges: `_doc` (instance to wire) and the
 * constructor (wire or keyword arguments to instance), as functions of
 * the schema, and the round trip between them.
 */
module WireFormat {
  import opened Wrappers
  import opened Values
  import opened Dicts
  import opened Fields
  import opened Accessors

  /** A wire document, or a set of keyword arguments: string keys to values. */
  type WireDoc = Dict<Value>

  /** `dict.get(k)` on the `_data` map. */
  function MapGet(data: map<string, Value>, k: string): Option<Value>
  {
    if k in data then Some(data[k]) else None
  }

  /** The wire key of field `name`: the primary key travels under `Meta.primary_key_field`. */
  function WireKey(name: string, primaryKeyField: string): string
  {
    if name == PkName then primaryKeyField else name
  }

  /**
   * `_doc`: every field under its wire key with its stored-or-default
   * value, in schema order, leaving out the primary-key wire key while its
   * value is None.  Every key of the result is the wire key of a field.
   */
  function ToDoc(schema: Schema, data: map<string, Value>, primaryKeyField: string): (r: WireDoc)
    ensures UniqueKeys(r)
    ensures forall k :: k in Keys(r) ==>
      (k == primaryKeyField && PkName in Keys(schema)) || (k in Keys(schema) && k != PkName)
  {
    if schema == [] then []
    else
      var doc := ToDoc(schema[..|schema| - 1], data, primaryKeyField);
      var (name, f) := schema[|schema| - 1];
      var key := WireKey(name, primaryKeyField);
      var value := StoredOr(data, name, f);
      if key == primaryKeyField && value == VNone then doc else Put(doc, key, value)
  }

  /** No declared field shares its name with the primary key's wire key. */
  predicate NoKeyClash(schema: Schema, primaryKeyField: string)
  {
    primaryKeyField == PkName || primaryKeyField !in Keys(schema)
  }

  /** Every field other than the primary key appears in `_doc` under its own name, with its stored-or-default value. */
  lemma {:induction false} ToDocField(schema: Schema, data: map<string, Value>, primaryKeyField: string, n: string, f: Field)
    requires NoKeyClash(schema, primaryKeyField)
    requires n != PkName && Lookup(schema, n) == Some(f)
    ensures Lookup(ToDoc(schema, data, primaryKeyField), n) == Some(StoredOr(data, n, f))
  {
    var p, last := schema[..|schema| - 1], schema[|schema| - 1];
    var doc := ToDoc(p, data, primaryKeyField);
    var key, value := WireKey(last.0, primaryKeyField), StoredOr(data, last.0, last.1);
    if last.0 != n {
      ToDocField(p, data, primaryKeyField, n, f);
    }
    if !(key == primaryKeyField && value == VNone) {
      PutLookup(doc, key, value, n);
    }
  }

  /**
   * The primary key travels under `Meta.primary_key_field`, and that key is
   * left out of `_doc` exactly when the primary key's value is None.
   */
  lemma {:induction false} ToDocPrimaryKey(schema: Schema, data: map<string, Value>, primaryKeyField: string, f: Field)
    requires UniqueKeys(schema) && NoKeyClash(schema, primaryKeyField)
    requires Lookup(schema, PkName) == Some(f)
    ensures Lookup(ToDoc(schema, data, primaryKeyField), primaryKeyField) ==
      if StoredOr(data, PkName, f) == VNone then None else Some(StoredOr(data, PkName, f))
  {
    var p, last := schema[..|schema| - 1], schema[|schema| - 1];
    var doc := ToDoc(p, data, primaryKeyField);
    var key, value := WireKey(last.0, primaryKeyField), StoredOr(data, last.0, last.1);
    if last.0 == PkName {
      if value == VNone {
        assert primaryKeyField !in Keys(doc);
      } else {
        PutLookup(doc, key, value, primaryKeyField);
      }
    } else {
      ToDocPrimaryKey(p, data, primaryKeyField, f);
      PutLookup(doc, key, value, primaryKeyField);
    }
  }

  /**
   * When a declared field is named like the primary key's wire key, the
   * two collide in `_doc`: the primary key, serialised after it,
   * overwrites the field's value.
   */
  lemma ToDocClash()
    ensures
      var schema := [("id", Field(DeclaredKind("string"), VNone)), (PkName, PkField())];
      ToDoc(schema, map["id" := VStr("a"), PkName := VStr("b")], DefaultPrimaryKeyField) == [("id", VStr("b"))]
  {
  }

  /**
   * One pair `(name, value)` of a raw document, as the constructor handles
   * it: the primary key's wire key is stored into `pk` without validation,
   * and then every name of the schema goes through the validating setter.
   */
  function LoadEntry(schema: Schema, isValid: Validity, primaryKeyField: string,
                     data: map<string, Value>, name: string, value: Value): Result<map<string, Value>, Error>
  {
    var data' := if name == primaryKeyField then data[PkName := value] else data;
    if name !in Keys(schema) then Success(data') else Assign(schema, isValid, data', name, value)
  }

  /** `Document(_doc)`: the pairs of the raw document handled one after the other, stopping at the first exception. */
  function LoadDoc(schema: Schema, isValid: Validity, primaryKeyField: string,
                   data: map<string, Value>, doc: WireDoc): (r: Result<map<string, Value>, Error>)
    ensures r.Failure? ==> r.error.ValidationError?
  {
    if doc == [] then Success(data)
    else
      match LoadDoc(schema, isValid, primaryKeyField, data, doc[..|doc| - 1])
      case Failure(e) => Failure(e)
      case Success(data') => LoadEntry(schema, isValid, primaryKeyField, data', doc[|doc| - 1].0, doc[|doc| - 1].1)
  }

  /** The first exception ends construction: the pairs after it are never looked at. */
  lemma {:induction false} LoadDocStops(schema: Schema, isValid: Validity, primaryKeyField: string,
                                        data: map<string, Value>, doc: WireDoc, i: nat)
    requires i <= |doc| && LoadDoc(schema, isValid, primaryKeyField, data, doc[..i]).Failure?
    ensures LoadDoc(schema, isValid, primaryKeyField, data, doc) == LoadDoc(schema, isValid, primaryKeyField, data, doc[..i])
  {
    if i < |doc| {
      var p := doc[..|doc| - 1];
      assert p[..i] == doc[..i];
      LoadDocStops(schema, isValid, primaryKeyField, data, p, i);
    } else {
      assert doc[..i] == doc;
    }
  }

  /** A raw-document pair the constructor accepts: its name is not a field, or the field accepts its value. */
  predicate EntryOk(schema: Schema, isValid: Validity, entry: (string, Value))
  {
    entry.0 !in Keys(schema) || ValueOk(schema, isValid, entry.0, entry.1)
  }

  /**
   * Building from a raw document succeeds exactly when every pair whose
   * name is a field carries a value that field accepts; names outside the
   * schema, and the primary key's wire key when it is not a field name, are
   * never validated.
   */
  lemma {:induction false} LoadDocSucceeds(schema: Schema, isValid: Validity, primaryKeyField: string,
                                           data: map<string, Value>, doc: WireDoc)
    ensures LoadDoc(schema, isValid, primaryKeyField, data, doc).Success? <==>
      forall i :: 0 <= i < |doc| ==> EntryOk(schema, isValid, doc[i])
  {
    if doc != [] {
      var p := doc[..|doc| - 1];
      LoadDocSucceeds(schema, isValid, primaryKeyField, data, p);
      assert forall i :: 0 <= i < |p| ==> p[i] == doc[i];
    }
  }

  /**
   * After a successful build, a field other than `pk` holds the value of
   * its pair in the raw document, if there is one; names outside the
   * schema leave nothing behind.
   */
  lemma {:induction false} LoadDocField(schema: Schema, isValid: Validity, primaryKeyField: string,
                                        data: map<string, Value>, doc: WireDoc, n: string)
    requires LoadDoc(schema, isValid, primaryKeyField, data, doc).Success?
    requires n != PkName
    ensures MapGet(LoadDoc(schema, isValid, primaryKeyField, data, doc).value, n) ==
      if n in Keys(schema) && n in Keys(doc) then Lookup(doc, n) else MapGet(data, n)
  {
    if doc != [] {
      LoadDocField(schema, isValid, primaryKeyField, data, doc[..|doc| - 1], n);
    }
  }

  /**
   * After a successful build, `pk` holds the value the raw document
   * carries under `Meta.primary_key_field`, when no other pair also writes `pk`.
   */
  lemma {:induction false} LoadDocPrimaryKey(schema: Schema, isValid: Validity, primaryKeyField: string,
                                             data: map<string, Value>, doc: WireDoc)
    requires LoadDoc(schema, isValid, primaryKeyField, data, doc).Success?
    requires primaryKeyField == PkName || PkName !in Keys(doc)
    ensures MapGet(LoadDoc(schema, isValid, primaryKeyField, data, doc).value, PkName) ==
      if primaryKeyField in Keys(doc) then Lookup(doc, primaryKeyField) else MapGet(data, PkName)
  {
    if doc != [] {
      LoadDocPrimaryKey(schema, isValid, primaryKeyField, data, doc[..|doc| - 1]);
    }
  }

  /** The pairs of a raw document the constructor looks at: field names and the primary key's wire key. */
  function Relevant(schema: Schema, primaryKeyField: string, doc: WireDoc): WireDoc
  {
    if doc == [] then []
    else
      var rest := Relevant(schema, primaryKeyField, doc[..|doc| - 1]);
      var name := doc[|doc| - 1].0;
      if name in Keys(schema) || name == primaryKeyField then rest + [doc[|doc| - 1]] else rest
  }

  /** Pairs whose names the schema does not know are silently ignored. */
  lemma {:induction false} LoadDocIgnoresUnknown(schema: Schema, isValid: Validity, primaryKeyField: string,
                                                 data: map<string, Value>, doc: WireDoc)
    ensures LoadDoc(schema, isValid, primaryKeyField, data, doc) ==
      LoadDoc(schema, isValid, primaryKeyField, data, Relevant(schema, primaryKeyField, doc))
  {
    if doc != [] {
      var p := doc[..|doc| - 1];
      LoadDocIgnoresUnknown(schema, isValid, primaryKeyField, data, p);
      var rest := Relevant(schema, primaryKeyField, p);
      assert (rest + [doc[|doc| - 1]])[..|rest|] == rest;
    }
  }

  /** The exception `__setattr__` raises for a rejected keyword argument. */
  function AssignError(schema: Schema, key: string): Error
  {
    if key in Keys(schema) then ValidationError(key) else AttributeError
  }

  /**
   * `Document(**kwargs)`: every keyword goes through the validating setter.
   * It succeeds exactly when every keyword names a field that accepts its
   * value; otherwise the first rejected keyword decides the exception, an
   * AttributeError for an unknown name.
   */
  function LoadKwargs(schema: Schema, isValid: Validity, data: map<string, Value>, kwargs: WireDoc)
    : (r: Result<map<string, Value>, Error>)
    ensures r.Success? <==> forall i :: 0 <= i < |kwargs| ==> ValueOk(schema, isValid, kwargs[i].0, kwargs[i].1)
    ensures r.Failure? ==>
      exists i :: 0 <= i < |kwargs| && !ValueOk(schema, isValid, kwargs[i].0, kwargs[i].1) &&
        r.error == AssignError(schema, kwargs[i].0) &&
        forall j :: 0 <= j < i ==> ValueOk(schema, isValid, kwargs[j].0, kwargs[j].1)
  {
    if kwargs == [] then Success(data)
    else
      var p, last := kwargs[..|kwargs| - 1], kwargs[|kwargs| - 1];
      match LoadKwargs(schema, isValid, data, p)
      case Failure(e) => Failure(e)
      case Success(data') => Assign(schema, isValid, data', last.0, last.1)
  }

  /** After a successful keyword build, every keyword's field holds its value and nothing else changed. */
  lemma {:induction false} LoadKwargsField(schema: Schema, isValid: Validity, data: map<string, Value>,
                                           kwargs: WireDoc, n: string)
    requires LoadKwargs(schema, isValid, data, kwargs).Success?
    ensures MapGet(LoadKwargs(schema, isValid, data, kwargs).value, n) ==
      if n in Keys(kwargs) then Lookup(kwargs, n) else MapGet(data, n)
  {
    if kwargs != [] {
      LoadKwargsField(schema, isValid, data, kwargs[..|kwargs| - 1], n);
    }
  }

  /** The values `_doc` writes are ones the constructor accepts back (a primary key that stays off the wire, or travels under a non-field name, needs no check). */
  predicate WireValuesValid(schema: Schema, isValid: Validity, primaryKeyField: string, data: map<string, Value>)
  {
    forall i :: 0 <= i < |schema| ==>
      (schema[i].0 == PkName && (primaryKeyField != PkName || StoredOr(data, schema[i].0, schema[i].1) == VNone))
      || isValid(schema[i].1.kind, StoredOr(data, schema[i].0, schema[i].1))
  }

  /**
   * Serialising with `_doc` and constructing a fresh instance from the
   * result succeeds and yields the same `items()`.
   */
  lemma RoundTrip(schema: Schema, isValid: Validity, primaryKeyField: string, data: map<string, Value>)
    requires WellFormed(schema) && NoKeyClash(schema, primaryKeyField)
    requires WireValuesValid(schema, isValid, primaryKeyField, data)
    ensures LoadDoc(schema, isValid, primaryKeyField, map[], ToDoc(schema, data, primaryKeyField)).Success?
    ensures Items(schema, LoadDoc(schema, isValid, primaryKeyField, map[], ToDoc(schema, data, primaryKeyField)).value)
         == Items(schema, data)
  {
    var doc := ToDoc(schema, data, primaryKeyField);
    forall i | 0 <= i < |doc| ensures EntryOk(schema, isValid, doc[i]) {
      var (k, v) := doc[i];
      LookupAt(doc, i);
      if k in Keys(schema) {
        var j := LookupPosition(schema, k);
        LookupAt(schema, j);
        if k == PkName {
          ToDocPrimaryKey(schema, data, primaryKeyField, PkField());
        } else {
          ToDocField(schema, data, primaryKeyField, k, schema[j].1);
        }
      }
    }
    LoadDocSucceeds(schema, isValid, primaryKeyField, map[], doc);
    var loaded := LoadDoc(schema, isValid, primaryKeyField, map[], doc).value;
    forall i | 0 <= i < |schema|
      ensures StoredOr(loaded, schema[i].0, schema[i].1) == StoredOr(data, schema[i].0, schema[i].1)
    {
      var (n, f) := schema[i];
      LookupAt(schema, i);
      if n == PkName {
        ToDocPrimaryKey(schema, data, primaryKeyField, f);
        LoadDocPrimaryKey(schema, isValid, primaryKeyField, map[], doc);
      } else {
        ToDocField(schema, data, primaryKeyField, n, f);
        LoadDocField(schema, isValid, primaryKeyField, map[], doc, n);
      }
    }
  }
}
