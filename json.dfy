/** The values `JSON.parse` produces, and the two coercions the import path
    applies to them: `String(v)` and `Boolean(v)`. Numbers are whole numbers
    here. */
module Json {
  import Text

  datatype Value =
    | Null
    | Bool(b: bool)
    | Number(n: int)
    | Str(s: string)
    | Array(items: seq<Value>)
    | Object(fields: map<string, Value>)

  /** `String(v)`. An array is its elements joined by commas, with `null`
      elements written as the empty string; every object is
      "[object Object]". */
  function ToText(v: Value): string
  {
    match v
    case Null => "null"
    case Bool(b) => if b then "true" else "false"
    case Number(n) => Text.IntToString(n)
    case Str(s) => s
    case Array(items) =>
      JoinWithCommas(seq(|items|, i requires 0 <= i < |items| =>
        if items[i].Null? then "" else ToText(items[i])))
    case Object(_) => "[object Object]"
  }

  function JoinWithCommas(parts: seq<string>): string
  {
    if parts == [] then ""
    else if |parts| == 1 then parts[0]
    else parts[0] + "," + JoinWithCommas(parts[1..])
  }

  /** `Boolean(v)`: JavaScript truthiness of a parsed value. */
  predicate Truthy(v: Value)
  {
    match v
    case Null => false
    case Bool(b) => b
    case Number(n) => n != 0
    case Str(s) => s != ""
    case Array(_) => true
    case Object(_) => true
  }
}
