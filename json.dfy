/**
 * Parsed JSON values, as `JSON.parse` produces them for a package manifest.
 * Objects are maps, so the key order that JavaScript keeps is not modelled.
 * A number is kept as the literal text it was written with.
 */
module Json {

  datatype Json =
    | Null
    | Bool(b: bool)
    | Num(literal: string)
    | Str(s: string)
    | Arr(items: seq<Json>)
    | Obj(fields: map<string, Json>)

  /** JavaScript's `??` test on `o[k]`: the property is undefined or null. */
  predicate IsNullish(o: map<string, Json>, k: string)
  {
    k !in o || o[k] == Null
  }

  /** The strings of `parts` separated by `sep`, as `Array.prototype.join`. */
  function Join(parts: seq<string>, sep: string): (r: string)
    ensures parts == [] ==> r == ""
    ensures |parts| == 1 ==> r == parts[0]
  {
    if parts == [] then ""
    else if |parts| == 1 then parts[0]
    else parts[0] + sep + Join(parts[1..], sep)
  }

  /**
   * `String(v)` for a parsed JSON value, as JavaScript's `+` applies it
   * when one side is a string: arrays are joined with "," (null items
   * give ""), every object reads "[object Object]".
   */
  function ToJsString(j: Json): (r: string)
    ensures j.Str? ==> r == j.s
    ensures j == Null ==> r == "null"
  {
    match j
    case Null => "null"
    case Bool(b) => if b then "true" else "false"
    case Num(literal) => literal
    case Str(s) => s
    case Arr(items) =>
      Join(seq(|items|, i requires 0 <= i < |items| =>
             if items[i] == Null then "" else ToJsString(items[i])), ",")
    case Obj(_) => "[object Object]"
  }
}
