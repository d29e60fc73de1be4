/** JSON values as the application stores and reads them, and JavaScript's `String(v)`. */
module Json {
  import opened Outcomes
  import opened Strings

  /** A parsed JSON value. Numbers are integers in this model. */
  datatype JsonValue =
    | JNull
    | JBool(b: bool)
    | JNum(n: int)
    | JStr(s: string)
    | JArr(items: seq<JsonValue>)
    | JObj(fields: map<string, JsonValue>)

  /**
   * `String(v)` returns instead of throwing. A parsed object's own
   * `toString` member is never a function, so converting that object throws
   * a `TypeError` (its `valueOf` gives back the object itself); an array
   * converts every element that is not `null`.
   */
  predicate Stringifies(v: JsonValue)
    decreases v
  {
    match v
    case JObj(fields) => "toString" !in fields
    case JArr(xs) => forall i | 0 <= i < |xs| :: xs[i].JNull? || Stringifies(xs[i])
    case _ => true
  }

  /** `String(v)`, also what a template literal `${v}` produces, for a value that `Stringifies`. */
  function Render(v: JsonValue): string
    decreases v, 1
  {
    match v
    case JNull => "null"
    case JBool(b) => if b then "true" else "false"
    case JNum(n) => IntText(n)
    case JStr(s) => s
    case JArr(xs) => JoinItems(xs)
    case JObj(_) => "[object Object]"
  }

  /** `xs.join(",")`: `null` elements contribute the empty string. */
  function JoinItems(xs: seq<JsonValue>): string
    decreases xs, 0
  {
    if |xs| == 0 then ""
    else
      var head := if xs[0].JNull? then "" else Render(xs[0]);
      if |xs| == 1 then head else head + "," + JoinItems(xs[1..])
  }

  /** `v.key` on a non-null value: only objects carry the keys this application reads. */
  function Member(v: JsonValue, key: string): (r: Option<JsonValue>)
    ensures r.Some? <==> v.JObj? && key in v.fields
  {
    if v.JObj? && key in v.fields then Some(v.fields[key]) else None
  }
}
