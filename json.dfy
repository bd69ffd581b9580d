/** The Python values `json.loads` produces, and Python truthiness on them.
    Numbers are kept as integers. The wrapper's own results are values of the
    same type: `None` is `JNull` and a raw response body is `JStr`. */
module Json {
  import opened Wrappers
  import opened OrderedDict

  datatype Json =
    | JNull
    | JBool(b: bool)
    | JNum(n: int)
    | JStr(s: string)
    | JArr(items: seq<Json>)
    | JObj(fields: Dict<Json>)

  /** Python's `bool(x)`: what `if not response` tests. */
  predicate Truthy(j: Json) {
    match j
    case JNull => false
    case JBool(b) => b
    case JNum(n) => n != 0
    case JStr(s) => s != ""
    case JArr(items) => items != []
    case JObj(fields) => fields != []
  }

  /** The caller's positional arguments as Python sees them: `None` or a value
      given by its `str()` form. */
  type Arg = Option<string>

  /** `str(x)` / `f"{x}"`. */
  function Str(a: Arg): string {
    match a
    case None => "None"
    case Some(s) => s
  }

  /** The entries `dict(x)` (and `d.update(x)`) takes from `x`: an object's
      own entries; an empty string or list gives none; anything else raises. */
  function Copy(item: Json): Option<Dict<Json>> {
    match item
    case JObj(fields) => Some(fields)
    case JStr(s) => if s == "" then Some([]) else None
    case JArr(items) => if items == [] then Some([]) else None
    case _ => None
  }

  /** `if x:` on an argument. */
  predicate ArgTruthy(a: Arg) {
    a.Some? && a.value != ""
  }

}
