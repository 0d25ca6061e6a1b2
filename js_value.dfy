/**
 * The JavaScript values that reach the proxy and the client: whatever JSON.parse
 * produces, plus `undefined` for a property that is not there, and the two ways
 * the code reads them (truthiness tests and property access).
 */
module JsValue {

  /** A value as JSON.parse produces it. Numbers are kept as integers. */
  datatype Json =
    | JNull
    | JBool(b: bool)
    | JNum(n: int)
    | JStr(s: string)
    | JArr(items: seq<Json>)
    | JObj(fields: map<string, Json>)

  /** A value read from a property: `undefined` when the property is absent. */
  datatype JsVal = Undefined | Val(j: Json)

  /** Evaluating an access either yields a value or throws a TypeError. */
  datatype Eval<T> = Value(v: T) | TypeError

  /** The result of `JSON.parse` (or `response.json()`) on a body: a SyntaxError or a value. */
  datatype Parse = Malformed | Parsed(json: Json)

  datatype Option<T> = None | Some(value: T)

  /** `null` and `undefined`: the two values whose properties cannot be read. */
  predicate Nullish(v: JsVal) {
    v == Undefined || v == Val(JNull)
  }

  /** JavaScript's `!!v`: false for undefined, null, false, 0 and "", true for every array and object. */
  predicate Truthy(v: JsVal) {
    match v
    case Undefined => false
    case Val(j) =>
      match j
      case JNull => false
      case JBool(b) => b
      case JNum(n) => n != 0
      case JStr(s) => s != ""
      case JArr(_) => true
      case JObj(_) => true
  }

  /** The Fetch API's `ok` on a response (`response.ok` in worker.js, `res.ok` in script.js): a status in the 200 range. */
  predicate IsOk(status: nat) {
    200 <= status <= 299
  }

  /** Whether `v` is a string, as `typeof v === 'string'` asks. */
  predicate IsString(v: JsVal) {
    v.Val? && v.j.JStr?
  }

  /**
   * `base.name` for a name that is neither an array index nor a property every
   * object inherits (the code reads only names such as `role`, `content`, `parts`).
   * Reading from null or undefined throws.
   */
  function Prop(base: JsVal, name: string): (r: Eval<JsVal>)
    ensures r.TypeError? <==> Nullish(base)
    ensures r.Value? && r.v.Val? ==> base.Val? && base.j.JObj? && name in base.j.fields && r.v.j == base.j.fields[name]
    ensures base.Val? && base.j.JObj? && name in base.j.fields ==> r == Value(Val(base.j.fields[name]))
  {
    match base
    case Undefined => TypeError
    case Val(j) =>
      match j
      case JNull => TypeError
      case JObj(m) => Value(if name in m then Val(m[name]) else Undefined)
      case _ => Value(Undefined)
  }

  /**
   * `base[0]`: the first element of an array, the first character of a string,
   * the property "0" of an object, undefined for a number or a boolean.
   */
  function Index0(base: JsVal): (r: Eval<JsVal>)
    ensures r.TypeError? <==> Nullish(base)
    ensures base.Val? && base.j.JArr? ==> r == Value(if base.j.items == [] then Undefined else Val(base.j.items[0]))
  {
    match base
    case Undefined => TypeError
    case Val(j) =>
      match j
      case JNull => TypeError
      case JArr(items) => Value(if items == [] then Undefined else Val(items[0]))
      case JStr(s) => Value(if s == [] then Undefined else Val(JStr([s[0]])))
      case JObj(m) => Value(if "0" in m then Val(m["0"]) else Undefined)
      case _ => Value(Undefined)
  }

  /** An object literal with one string-valued property, `{name: text}`. */
  function StrObj(name: string, text: string): Json {
    JObj(map[name := JStr(text)])
  }
}
