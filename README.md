# rethinkengine document core, in Dafny

This project models the document-mapping core of rethinkengine
(`rethinkengine/document.py`), a small object-document mapper over
RethinkDB. It covers the following parts:

- The `BaseDocument` metaclass. When a document class is defined, it moves every
  field declaration from the class attributes into the class's `_fields` schema,
  always installs a `pk` primary-key field, and attaches the `objects` manager
  (`SchemaBuilder.BuildClass`).
- The instance's validated attribute access against the schema and the private
  `_data` map: `__setattr__`, `__getattr__` and `_get_value`.
- The whole-record views: `__iter__`, `items()`, `validate()`, and the wire
  document `_doc`. In `_doc`, `pk` travels under `Meta.primary_key_field`
  (default `"id"`) and is left out while it is None.
- The two constructors: from a raw wire document, and from keyword arguments.
- The guards around the store: `save()` validates before it inserts, and
  `delete()` only issues a call for a truthy primary key. Store calls are entries
  of a ghost log (`Document.calls`).

Layout, one module per file:

- `dicts.dfy` (`Dicts`): Python dictionaries as insertion-ordered `(key, value)` sequences. `Put` is `d[k] = v`.
- `values.dfy`, `fields.dfy` (`Values`, `Fields`): values, field descriptors and schemas.
- `metaclass.dfy` (`SchemaBuilder`): the metaclass.
- `accessors.dfy` (`Accessors`): reads, writes as values, `items()`, `validate()` and `_table_name()`.
- `wire.dfy` (`WireFormat`): `_doc`, both constructors as functions, and the round trip.
- `document.dfy` (`Documents`): the `Document` class. Its methods change `_data` and the call log, and each is proved against the functions above.

A field is reduced to its kind and its default, because the field classes are
not part of this model. `is_valid` is a parameter `isValid: (Kind, Value) -> bool`
that every operation receives. `PrimaryKeyField` is the kind `PrimaryKeyKind`,
and its default is taken to be None: an unsaved record reads its `pk` as None.

Python 2 dictionaries have no fixed order. A schema and a wire document are
ordered sequences with unique keys, and the properties are stated per name. The
metaclass visits the class attributes in an unspecified order (`:|`), so its
contract says nothing about the order of the schema it builds.

Places where the code does something other than what a reader might expect.
The model follows the code in each case:

- The metaclass starts from the class body's own `_fields` entry only
  (`attrs.get('_fields', {})`). A subclass therefore does not inherit its base
  class's fields.
- The constructor stores the value under `Meta.primary_key_field` into
  `_data['pk']` without validation. `_data` therefore holds valid values for
  every key except `pk` (`Documents.DataInvariant`).
- `_doc` omits a key when the key equals `primary_key_field` and its value is
  None. This also applies to a declared field of that name. If such a field
  exists, it collides with `pk` on the wire. The one of the two that
  `_fields` yields later wins, unless its value is None: then it is left out
  and the earlier value stays. The outcome therefore depends on the
  iteration order of `_fields`. `WireFormat.ToDocClash` shows the order field
  first, then `pk`, with a non-None primary key, so `pk` wins. The round trip therefore assumes no such field exists
  (`WireFormat.NoKeyClash`).
- `delete()` tests the primary key for truthiness. A key of `0`, `""`, `False`
  or `[]` issues no call, just as None does.

## Model

| member | source | states |
|---|---|---|
| `SchemaBuilder.BuildClass` | rethinkengine/document.py:13-24 | every attribute that is a field ends up in `_fields` under its name, and an entry of the body's own `_fields` stays unless a field overrides it; `_fields` always holds a fresh primary-key field under `pk`, even with no declared fields, and has unique names; the class attributes afterwards are exactly the non-field ones, with `objects` set to the manager; the class's primary-key wire name is the `primary_key_field` of the `Meta` its attribute lookup resolves to (its own or a base class's), and `"id"` when that is `Document.Meta` |
| `Accessors.GetAttr` | rethinkengine/document.py:58-62 | reading a name fails with AttributeError exactly when it is not a field; a field reads as its stored-or-default value |
| `Accessors.GetValue` | rethinkengine/document.py:106-107 | a field reads as its value in `_data` when stored, otherwise as its field's default |
| `Accessors.AssignThenGet` | rethinkengine/document.py:45-56 | a write succeeds exactly when the name is a field whose `is_valid` accepts the value; an unknown name raises AttributeError and a rejected value raises ValidationError; after a write the field reads back the value, the other names read as before, and only that key is added to `_data` |
| `Documents.Document.SetAttr` | rethinkengine/document.py:45-56 | the setter method: on AttributeError or ValidationError `_data` is unchanged; on success `_data[key] := value` and nothing else changes; the class invariant (keys are fields, values set through it are valid) is kept |
| `Accessors.ItemsAreReads` | rethinkengine/document.py:67-76 | `items()` has exactly one pair per field, in the order `__iter__` yields the names, and each value is what reading that attribute returns |
| `Accessors.Validate` | rethinkengine/document.py:84-91 | `validate()` passes if and only if every field's stored-or-default value is accepted by `is_valid`, except that a PrimaryKeyField holding None always passes; otherwise it raises ValidationError naming the first failing field in schema order |
| `Documents.InvariantValidates` | rethinkengine/document.py:84-91 | for data kept by the setter's invariant, `validate()` passes whenever the defaults read and the primary key pass, so only those can make it fail |
| `Accessors.TableName` | rethinkengine/document.py:120-122 | the table name has the class name's length; each upper-case ASCII letter becomes its lower-case counterpart, every other character is kept, and no upper-case ASCII letter is left |
| `WireFormat.ToDoc` | rethinkengine/document.py:110-118 | `_doc` has unique keys, and every key is the wire name of a field: `primary_key_field` for `pk`, the field's own name otherwise |
| `WireFormat.ToDocField` | rethinkengine/document.py:110-118 | when no declared field is named like the primary key's wire key, every field other than `pk` appears in `_doc` under its own name with its stored-or-default value |
| `WireFormat.ToDocPrimaryKey` | rethinkengine/document.py:113-116 | when no declared field is named like the primary key's wire key, `pk` appears in `_doc` under `Meta.primary_key_field`, and that key is omitted exactly when its value is None |
| `WireFormat.ToDocClash` | rethinkengine/document.py:112-117 | with a declared field `id` and the default wire key `"id"`, when `_fields` yields `id` before `pk` and the primary key's value is not None, the primary key overwrites the field's value in `_doc` (the later of the two wins unless its value is None; then it is left out and the earlier value stays) |
| `WireFormat.LoadDoc` | rethinkengine/document.py:33-40 | building from a raw document can only fail with ValidationError, never with AttributeError |
| `WireFormat.LoadDocStops` | rethinkengine/document.py:33-40 | the first exception ends construction, and later pairs are not looked at |
| `WireFormat.LoadDocSucceeds` | rethinkengine/document.py:33-40 | building from a raw document succeeds exactly when every pair whose name is a field carries a value that field accepts; unknown names, and the primary key's wire key when it is not a field name, are never validated |
| `WireFormat.LoadDocField` | rethinkengine/document.py:38-40 | after a successful build, every field other than `pk` holds its raw-document value when it has one, and names outside the schema leave nothing in `_data` |
| `WireFormat.LoadDocPrimaryKey` | rethinkengine/document.py:35-37 | after a successful build from a raw document that has no `pk` pair (unless the wire key is `pk` itself), `_data['pk']` holds the value stored under `Meta.primary_key_field`, or is untouched when there is none |
| `WireFormat.LoadDocIgnoresUnknown` | rethinkengine/document.py:38-39 | dropping every pair whose name is neither a field nor the primary key's wire key does not change the result |
| `WireFormat.LoadKwargs` | rethinkengine/document.py:41-43 | the keyword constructor succeeds exactly when every keyword names a field that accepts its value; otherwise the first rejected keyword decides the exception, AttributeError for an unknown name and ValidationError for a rejected value |
| `WireFormat.LoadKwargsField` | rethinkengine/document.py:41-43 | after a successful keyword build, each keyword's field holds its value and every other key is unchanged |
| `WireFormat.RoundTrip` | rethinkengine/document.py:30-43 | for a well-formed schema with no key clash, where the values `_doc` writes are valid, building a new instance from `_doc` succeeds and gives the same `items()` |
| `Documents.Document.New` | rethinkengine/document.py:30-43 | `__init__`: with a raw document the result is `LoadDoc` (keyword arguments are then ignored), otherwise it is `LoadKwargs`; it fails with the same exception, and on success yields a fresh instance holding that `_data` with the invariant in place and no store call issued |
| `Documents.Document.Empty` | rethinkengine/document.py:31-32 | a new instance starts with an empty `_data` |
| `Documents.Document.BuildDoc` | rethinkengine/document.py:110-118 | the loop that builds `_doc` one field at a time produces `ToDoc` of the current data |
| `Documents.Document.Save` | rethinkengine/document.py:93-99 | `save()` validates first: on failure it raises and issues no store call; on success it issues exactly one insert of `_doc` into the class's table; `_data` is unchanged either way |
| `Documents.Document.Delete` | rethinkengine/document.py:101-104 | `delete()` issues one delete-by-key call exactly when the primary key's stored-or-default value is truthy, and nothing otherwise (for None, a no-op) |
| `Documents.Document.CreateTable` | rethinkengine/document.py:78-79 | `table_create()` issues one create call for the class's table |
| `Documents.Document.DropTable` | rethinkengine/document.py:81-82 | `table_drop()` issues one drop call for the class's table |

## Left out

- RethinkDB itself: the connection (`get_conn`), the query language and what the store returns. `save()`, `delete()`, `table_create()` and `table_drop()` only append an entry to the ghost log `Document.calls`. `Save` returns the validation outcome, and `Delete` returns whether it issued a call.
- The field classes (`fields.py` is not part of this model): `is_valid` is a parameter, and `PrimaryKeyField()`'s default is taken to be None.
- The query-set module (`QuerySet`, `QuerySetManager`, `DoesNotExist`, `MultipleDocumentsReturned`) is not part of this model. The metaclass only records that `objects` becomes a manager attribute.
- `__str__` and `__repr__`, and the text of every exception message. A ValidationError records the field's name, and an AttributeError records nothing.
- `__setattr__` also writes the value into the instance's `__dict__` (line 56), and attribute reads (including those of `validate()`, line 85) find that copy first. Reads are modelled from `_data` alone. The two differ in one case the model does not capture: a raw document that holds a `pk` pair before the pair under `Meta.primary_key_field`. There the setter puts the `pk` pair's value into `__dict__`, and line 37 then puts the wire key's value into `_data['pk']` only. In the source, attribute reads and `validate()` see the setter's value, while `_data`, `items()`, `_doc` and `delete()` see the raw value. In the model all of them see the raw value.
- Line 36 replaces the class's `pk` field with an equal, fresh `PrimaryKeyField()`. The schema is kept immutable instead.
- Python attribute lookup: a field is assumed not to share its name with an attribute the class or its bases already define (a method, `objects`, `Meta`), which ordinary lookup would find before `__getattr__`. Field objects are assumed to be truthy (line 60). `Meta.primary_key_field` is resolved, own or inherited, when the class is built. A `Meta` without that attribute, and a `_fields` class attribute that is not a dictionary, are not modelled.
- `Meta.order_by`, which only the query set reads.
- Floating-point numbers and nested dictionaries as values.
- Accessors.TableName: lowers the ASCII letters A-Z only, where `str.lower()` would also map other cased characters.
