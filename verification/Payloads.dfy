/** Upstream JSON as Python reads it. */
module Payloads {
  /** `shown` is what `str()` gives of a value that is not text; numbers and booleans are scalars. */
  datatype Value =
    | Null
    | Text(text: string)
    | Scalar(truthy: bool, shown: string)
    | List(items: seq<Value>, shown: string)
    | Object(fields: map<string, Value>, shown: string)

  type Record = map<string, Value>

  predicate Truthy(v: Value) {
    match v
    case Null => false
    case Text(text) => text != ""
    case Scalar(truthy, _) => truthy
    case List(items, _) => items != []
    case Object(fields, _) => |fields| > 0
  }

  /** `str(v)` */
  function Str(v: Value): string {
    match v
    case Null => "None"
    case Text(text) => text
    case Scalar(_, shown) => shown
    case List(_, shown) => shown
    case Object(_, shown) => shown
  }

  /** `row.get(field)` */
  function Get(row: Record, field: string): Value {
    if field in row then row[field] else Null
  }

  /** `a or b` */
  function Or(a: Value, b: Value): Value {
    if Truthy(a) then a else b
  }

  /** The object under a field, or the empty one. */
  function Nested(row: Record, field: string): Record {
    if Get(row, field).Object? then Get(row, field).fields else map[]
  }
}
