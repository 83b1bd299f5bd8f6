/**
 * The values a document field can hold, and that travel in a wire
 * document: Python's None, booleans, integers, strings and lists.
 */
module Values {

  datatype Value =
    | VNone
    | VBool(b: bool)
    | VInt(i: int)
    | VStr(s: string)
    | VList(items: seq<Value>)

  /** Python's truth value of `v`, as an `if v:` test reads it. */
  predicate Truthy(v: Value)
  {
    match v
    case VNone => false
    case VBool(b) => b
    case VInt(i) => i != 0
    case VStr(s) => s != ""
    case VList(items) => items != []
  }
}
