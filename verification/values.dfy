/**
 Dynamically typed values, as they come out of a page's front matter and as
 they are handed back by `Page.get`.
 */
module Values {

  /** A Python value of one of the shapes front matter can produce, plus `Path`. */
  datatype Value =
    | VNone
    | VBool(b: bool)
    | VInt(i: int)
    | VStr(s: string)
    | VPath(parts: seq<string>)
    | VList(items: seq<Value>)
    | VMap(entries: map<string, Value>)

  /** Python truthiness, as used by `x or y`: empty containers, zero, `False`,
      `None` and `""` are false; a `Path` defines no `__bool__`/`__len__` and is
      always true. */
  predicate Truthy(v: Value) {
    match v
    case VNone => false
    case VBool(b) => b
    case VInt(i) => i != 0
    case VStr(s) => s != ""
    case VPath(_) => true
    case VList(items) => |items| > 0
    case VMap(entries) => |entries| > 0
  }

  /** Python's `a or b`: `a` when it is truthy, otherwise `b`. */
  function Or(a: Value, b: Value): Value {
    if Truthy(a) then a else b
  }
}
