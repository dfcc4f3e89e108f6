/**
  JavaScript values as the client sees them after JSON parsing.

  The client is written against `any`-typed payloads: server responses, action
  fields and error objects are read by optional chaining (`x?.y`) and defaulted
  with `||`.  This module gives those two operations their JavaScript meaning.
  Numbers are restricted to integers.
 */
module Json {

  import Text

  datatype Json =
    | Undefined
    | Null
    | Bool(b: bool)
    | Num(n: int)
    | Str(s: string)
    | Arr(items: seq<Json>)
    | Obj(fields: map<string, Json>)

  /** JavaScript truthiness: undefined, null, false, 0 and "" are falsy. */
  predicate Truthy(j: Json) {
    match j
    case Undefined => false
    case Null => false
    case Bool(b) => b
    case Num(n) => n != 0
    case Str(s) => s != ""
    case Arr(_) => true
    case Obj(_) => true
  }

  /** `a || b` */
  function Or(a: Json, b: Json): (r: Json)
    ensures Truthy(a) ==> r == a
    ensures !Truthy(a) ==> r == b
  {
    if Truthy(a) then a else b
  }

  /** `j?.key`: the field when `j` is an object that has it, otherwise undefined. */
  function Get(j: Json, key: string): (r: Json)
    ensures j.Obj? && key in j.fields ==> r == j.fields[key]
    ensures !(j.Obj? && key in j.fields) ==> r == Undefined
  {
    if j.Obj? && key in j.fields then j.fields[key] else Undefined
  }

  /**
    The own fields contributed by `{...j}` for an object.  Spreading null,
    undefined, a boolean or a number contributes nothing; a string or an
    array would contribute its indices ("0", "1", ...) as keys, which this
    model drops because no field the client reads is an index.
   */
  function Fields(j: Json): map<string, Json> {
    if j.Obj? then j.fields else map[]
  }

  /** A field read that defaults a missing key to undefined. */
  function Lookup(m: map<string, Json>, key: string): Json {
    if key in m then m[key] else Undefined
  }

  /** `x || []` for a field that the client then treats as a list. */
  function ListOr(j: Json): (r: seq<Json>)
    ensures j.Arr? ==> r == j.items
    ensures !j.Arr? ==> r == []
  {
    if j.Arr? then j.items else []
  }

  /** An empty object literal `{}`. */
  const EmptyObject: Json := Obj(map[])

  /**
    `String(j)`, as a template literal or string concatenation renders a value:
    arrays are joined with commas (undefined and null elements render empty)
    and every object renders as `[object Object]`.
   */
  function ToStr(j: Json): (r: string)
    ensures j.Str? ==> r == j.s
    ensures j.Num? ==> r == Text.IntToString(j.n)
    ensures j == Undefined ==> r == "undefined"
    decreases j, 1
  {
    match j
    case Undefined => "undefined"
    case Null => "null"
    case Bool(b) => if b then "true" else "false"
    case Num(n) => Text.IntToString(n)
    case Str(s) => s
    case Arr(items) => JoinItems(j, 0)
    case Obj(_) => "[object Object]"
  }

  /** The comma-joined rendering of `arr.items[from..]`. */
  function JoinItems(arr: Json, from: nat): string
    requires arr.Arr? && from <= |arr.items|
    decreases arr, 0, |arr.items| - from
  {
    if from == |arr.items| then ""
    else
      var item := arr.items[from];
      var shown := if item == Undefined || item == Null then "" else ToStr(item);
      if from + 1 == |arr.items| then shown else shown + "," + JoinItems(arr, from + 1)
  }
}
