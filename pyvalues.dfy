/** The Python values the scripts handle: JSON values as json.load returns
    them, items as dictionaries, the exceptions the code can raise, and the
    three Python operations the code applies to any value (dict.get,
    truthiness, str()). */
module PyValues {
  import opened Decimal

  /** A JSON value. Floats, lists and objects are never looked into by the
      scripts: what matters of them is their truthiness, whether they can be
      a dict key (a float can, a list or an object cannot) and their str()
      rendering. */
  datatype Json =
    | JNull
    | JBool(b: bool)
    | JInt(i: int)
    | JStr(s: string)
    | JOpaque(truthy: bool, hashable: bool, repr: string)

  /** One record of a feed: a JSON object. */
  type Item = map<string, Json>

  /** The exceptions the modelled code can raise. */
  datatype Error =
    | KeyError(key: string)   // item["unid"] on an item without that key
    | AttributeError          // .replace on a value that is not a str
    | TypeError               // strptime of a non-str, sorting or joining mixed values
    | ValueError              // strptime of a malformed date, range() with step 0

  datatype Result<T> = Ok(value: T) | Err(error: Error)

  datatype Option<T> = None | Some(value: T)

  /** item.get(key): None when the key is absent. */
  function Get(item: Item, key: string): Json
  {
    if key in item then item[key] else JNull
  }

  /** item.get(key, default): a present null stays null. */
  function GetOr(item: Item, key: string, default: Json): Json
  {
    if key in item then item[key] else default
  }

  /** Python truthiness of a JSON value. */
  predicate Truthy(v: Json) {
    match v
    case JNull => false
    case JBool(b) => b
    case JInt(i) => i != 0
    case JStr(s) => s != ""
    case JOpaque(t, _, _) => t
  }

  /** Whether v can be a dict key: `key in d` and `d[key] = x` raise
      TypeError for a list or a dict. */
  predicate Hashable(v: Json) {
    !v.JOpaque? || v.hashable
  }

  /** str(v), which is also what an f-string inserts. */
  function Str(v: Json): string
  {
    match v
    case JNull => "None"
    case JBool(b) => if b then "True" else "False"
    case JInt(i) => IntToString(i)
    case JStr(s) => s
    case JOpaque(_, _, r) => r
  }
}
