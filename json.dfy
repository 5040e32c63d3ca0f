/**
 * JSON values as the page configuration holds them, JavaScript truthiness,
 * and the two object-merging helpers of underscore.js that the page uses
 * (`_.extend` and `_.defaults`).
 */
module Json {
  import opened Wrappers

  /**
   * A JSON value. `JNull` also stands for `undefined`, the result of reading a
   * key that is not there. Objects keep their keys in iteration order.
   * Numbers are integers only.
   */
  datatype Json =
    | JNull
    | JBool(b: bool)
    | JNum(n: int)
    | JString(s: string)
    | JArray(items: seq<Json>)
    | JObject(entries: seq<(string, Json)>)

  /** A top-level configuration object: `page.config`, or one parsed `fb.page.json`. */
  type Config = map<string, Json>

  /** JavaScript truthiness: `null`, `undefined`, `false`, `0` and `""` are falsy. */
  predicate Truthy(j: Json) {
    match j
    case JNull => false
    case JBool(b) => b
    case JNum(n) => n != 0
    case JString(s) => s != ""
    case JArray(_) => true
    case JObject(_) => true
  }

  /** `config[key]`: the stored value, or `undefined` when the key is absent. */
  function Lookup(config: Config, key: string): Json {
    if key in config then config[key] else JNull
  }

  /**
   * `_.extend(target, source)`: every key of `source` is copied onto `target`,
   * overwriting what was there; the other keys of `target` stay.
   */
  function Extend(target: Config, source: Config): (r: Config)
    ensures r.Keys == target.Keys + source.Keys
    ensures forall k :: k in source ==> r[k] == source[k]
    ensures forall k :: k in target && k !in source ==> r[k] == target[k]
  {
    target + source
  }

  /**
   * `_.defaults(obj, src)`: keys of `src` are copied onto `obj` only where
   * `obj` lacks them. `src` may be `undefined` (None), in which case nothing
   * is copied.
   */
  function Defaults(obj: Config, src: Option<Config>): (r: Config)
    ensures src.None? ==> r == obj
    ensures src.Some? ==> r.Keys == obj.Keys + src.value.Keys
    ensures forall k :: k in obj ==> k in r && r[k] == obj[k]
    ensures src.Some? ==> forall k :: k in src.value && k !in obj ==> r[k] == src.value[k]
  {
    match src
    case None => obj
    case Some(s) => s + obj
  }
}
