/** The loosely typed JavaScript values that the soft-delete plugin inspects:
    the operands of `typeof`, of truthiness tests (`if (x)`, `!x`, `a || b`)
    and of property reads and writes on plain objects. */
module JsValues {

  datatype Option<T> = None | Some(value: T)

  /** A JavaScript value. Objects and functions carry their own (string-keyed)
      properties; a function also carries an identity, since two callbacks are
      never the same value. */
  datatype JsValue =
    | Undefined
    | Null
    | Bool(b: bool)
    | Num(n: real)
    | Str(s: string)
    | StrObject(s: string)       // `new String(...)`
    | Obj(props: map<string, JsValue>)
    | Arr(elems: seq<JsValue>)
    | Func(id: nat, fprops: map<string, JsValue>)
    | Date(time: int)            // `new Date()`, a point in time in milliseconds

  /** The string the `typeof` operator yields. */
  function TypeOf(v: JsValue): (t: string)
    ensures t in {"undefined", "object", "boolean", "number", "string", "function"}
    ensures t == "function" <==> v.Func?
  {
    match v
    case Undefined => "undefined"
    case Null => "object"
    case Bool(_) => "boolean"
    case Num(_) => "number"
    case Str(_) => "string"
    case StrObject(_) => "object"
    case Obj(_) => "object"
    case Arr(_) => "object"
    case Func(_, _) => "function"
    case Date(_) => "object"
  }

  /** `typeof v === 'function'` */
  predicate IsFunction(v: JsValue) {
    v.Func?
  }

  /** `typeof v === 'object'`, which holds of `null` too. */
  predicate IsObjectType(v: JsValue) {
    v.Null? || v.StrObject? || v.Obj? || v.Arr? || v.Date?
  }

  /** `typeof v === 'string'`, which a `String` object does not satisfy. */
  predicate IsString(v: JsValue) {
    v.Str?
  }

  /** `typeof v === 'boolean'` */
  predicate IsBoolean(v: JsValue) {
    v.Bool?
  }

  /** Each `typeof` test above is the comparison of `typeof v` with its
      string, and the tests are mutually exclusive. */
  lemma TypeOfTests(v: JsValue)
    ensures IsFunction(v) <==> TypeOf(v) == "function"
    ensures IsObjectType(v) <==> TypeOf(v) == "object"
    ensures IsString(v) <==> TypeOf(v) == "string"
    ensures IsBoolean(v) <==> TypeOf(v) == "boolean"
    ensures IsFunction(v) ==> !IsObjectType(v) && !IsString(v) && !IsBoolean(v)
    ensures IsObjectType(v) ==> !IsString(v) && !IsBoolean(v)
  {
  }

  /** JavaScript truthiness: `undefined`, `null`, `false`, `0` and `""` are
      falsy; every object (a `String` object holding "" included) is truthy. */
  predicate Truthy(v: JsValue) {
    !(v.Undefined? || v.Null? || (v.Bool? && !v.b) || (v.Num? && v.n == 0.0) || (v.Str? && |v.s| == 0))
  }

  /** `a || b`: one of the two operands, truthy when either is; so
      `x || {}` is always truthy. */
  function Or(a: JsValue, b: JsValue): (r: JsValue)
    ensures r == a || r == b
    ensures Truthy(r) <==> Truthy(a) || Truthy(b)
    ensures Truthy(a) ==> r == a
  {
    if Truthy(a) then a else b
  }

  /** The empty object literal `{}`. */
  const EmptyObject: JsValue := Obj(map[])

  /** The property read `v[key]` for an own property of a plain object or a
      function; any other value yields `undefined` for the keys this model
      reads. Reading a property of `null` or `undefined` throws, so callers
      must rule those out. */
  function Prop(v: JsValue, key: string): (r: JsValue)
    requires !v.Null? && !v.Undefined?
    ensures !(v.Obj? || v.Func?) ==> r == Undefined
    ensures v.Obj? && key in v.props ==> r == v.props[key]
  {
    match v
    case Obj(p) => if key in p then p[key] else Undefined
    case Func(_, p) => if key in p then p[key] else Undefined
    case _ => Undefined
  }

  /** The sloppy-mode assignment `v[key] = x`, returning the value `v` becomes.
      Objects and functions take the property; an assignment to a primitive is
      silently dropped. */
  function SetProp(v: JsValue, key: string, x: JsValue): (r: JsValue)
    ensures Truthy(r) == Truthy(v) && IsFunction(r) == IsFunction(v) && IsObjectType(r) == IsObjectType(v)
    ensures (v.Obj? || v.Func?) ==> Prop(r, key) == x
    ensures (v.Bool? || v.Num? || v.Str?) ==> r == v
  {
    match v
    case Obj(p) => Obj(p[key := x])
    case Func(id, p) => Func(id, p[key := x])
    case _ => v
  }

  /** Assigning one property leaves every other property as it was. */
  lemma SetPropKeepsOthers(v: JsValue, key: string, x: JsValue, other: string)
    requires !v.Null? && !v.Undefined?
    requires other != key
    ensures Prop(SetProp(v, key, x), other) == Prop(v, other)
  {
  }
}
