/**
 * JavaScript values, closed over the shapes that the plugins and
 * renderVueElement inspect, with the few operators they use on them:
 * `typeof`, truthiness, the `in` operator, property reads and Vue's `h`.
 */
module JsValues {

  datatype Value =
    | Undefined
    | Null
    | Bool(b: bool)
    | Num(n: real)                     // finite numbers; NaN and the infinities are not modelled
    | BigInt(i: int)
    | Str(s: string)
    | Arr(items: seq<Value>)
    | Obj(fields: map<string, Value>)  // a plain object: own enumerable properties
    | Component(name: string)          // a component definition object (defineComponent)
    | Thunk(result: Value)             // an arrow `() => result`, such as a default slot

  /** Property bags: contexts, component props, plugin configuration. */
  type Props = map<string, Value>

  /** The `typeof` operator. */
  function TypeOf(v: Value): string
  {
    match v
    case Undefined => "undefined"
    case Null => "object"
    case Bool(_) => "boolean"
    case Num(_) => "number"
    case BigInt(_) => "bigint"
    case Str(_) => "string"
    case Arr(_) => "object"
    case Obj(_) => "object"
    case Component(_) => "object"
    case Thunk(_) => "function"
  }

  /** JavaScript truthiness: what `!v`, `v || w` and `if (v)` test. */
  predicate Truthy(v: Value)
  {
    match v
    case Undefined => false
    case Null => false
    case Bool(b) => b
    case Num(n) => n != 0.0
    case BigInt(i) => i != 0
    case Str(s) => s != ""
    case _ => true
  }

  /**
   * The `in` operator, `key in v`, for the keys this package asks about
   * ("type", "nodeType", "content"): only plain objects carry them.
   */
  predicate HasKey(v: Value, key: string)
  {
    v.Obj? && key in v.fields
  }

  /** A property read `v.key`: `undefined` when the property is absent. */
  function Get(v: Value, key: string): (r: Value)
    ensures !HasKey(v, key) ==> r == Undefined
    ensures HasKey(v, key) ==> r == v.fields[key]
  {
    if v.Obj? && key in v.fields then v.fields[key] else Undefined
  }

  /**
   * Vue's `h(type, props, children)`, kept abstract: a fresh node object
   * whose only properties are the three arguments.
   */
  function H(nodeType: Value, props: Value, children: Value): (r: Value)
    ensures r.Obj? && r.fields.Keys == {"type", "props", "children"}
    ensures r.fields["type"] == nodeType && r.fields["props"] == props
    ensures r.fields["children"] == children
  {
    Obj(map["type" := nodeType, "props" := props, "children" := children])
  }

  /** Vue's two-argument `h(type, props)`: a node without children. */
  function H2(nodeType: Value, props: Value): Value
  {
    H(nodeType, props, Null)
  }

  /** Object spread `{...base, ...overrides}`: later keys win. */
  function Spread(base: Props, overrides: Props): (r: Props)
    ensures r.Keys == base.Keys + overrides.Keys
    ensures forall k :: k in overrides ==> r[k] == overrides[k]
    ensures forall k :: k in base && k !in overrides ==> r[k] == base[k]
  {
    base + overrides
  }
}
