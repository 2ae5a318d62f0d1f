/** JSON values as the tools see them once decoded, and the loosely typed
    scalar arguments the protocol hands to a tool. Numbers are integers only. */
module Json {
  import opened Text

  datatype Json =
    | JNull
    | JBool(b: bool)
    | JInt(i: int)
    | JStr(s: string)
    | JList(items: seq<Json>)
    | JObject(fields: map<string, Json>)

  /** The outcome of decoding text as JSON (`json.loads`, `response.json()`):
      the value, or the decoder's complaint. The decoder itself is not modelled. */
  datatype Parse = Parsed(value: Json) | Unparsable(reason: string)

  /** An argument declared `int | None` or `bool | None`: the declaration is not
      enforced, so the caller may pass any JSON scalar. */
  datatype Loose = LInt(i: int) | LBool(b: bool) | LText(s: string)

  function LooseJson(v: Loose): Json {
    match v
    case LInt(n) => JInt(n)
    case LBool(b) => JBool(b)
    case LText(s) => JStr(s)
  }

  /** `isinstance(v, int) and v > 0`; a bool is an int in Python, and True > 0. */
  predicate IsPositiveInt(v: Loose) {
    match v
    case LInt(n) => n > 0
    case LBool(b) => b
    case LText(_) => false
  }

  /** `bool(v)` */
  predicate Truthy(v: Loose) {
    match v
    case LInt(n) => n != 0
    case LBool(b) => b
    case LText(s) => s != ""
  }

  /** `type(v).__name__` of a decoded JSON value. */
  function TypeName(j: Json): string {
    match j
    case JNull => "NoneType"
    case JBool(_) => "bool"
    case JInt(_) => "int"
    case JStr(_) => "str"
    case JList(_) => "list"
    case JObject(_) => "dict"
  }

  /** `str(v)` inside an f-string. Python's repr of a list or dict is not
      modelled: those two render as a fixed placeholder. */
  function PyStr(j: Json): string {
    match j
    case JNull => "None"
    case JBool(b) => if b then "True" else "False"
    case JInt(n) => IntText(n)
    case JStr(s) => s
    case JList(_) => "[...]"
    case JObject(_) => "{...}"
  }

  /** `d.get(key, default)` on a dict. */
  function Get(fields: map<string, Json>, key: string, default: Json): Json {
    if key in fields then fields[key] else default
  }
}
