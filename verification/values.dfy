/** JavaScript values as the middlewares see them. */
module Values {

  datatype Option<+T> = None | Some(value: T)

  /** No element occurs twice: the shape of a key list and of a `Set`. */
  predicate Distinct<T(==)>(s: seq<T>) {
    forall i, j :: 0 <= i < j < |s| ==> s[i] != s[j]
  }

  /** A JavaScript value. Objects and functions carry a reference: two objects
      with the same properties but different references are not `Object.is`. */
  datatype Value =
    | Undefined
    | Null
    | Bool(b: bool)
    | Num(n: int)
    | Str(s: string)
    | Fn(fnRef: nat)
    | Obj(ref: nat, props: map<string, Value>)

  /** `Object.is(a, b)` on this value domain: same primitive, or same reference
      (an object the middleware builds always gets a fresh reference). */
  predicate SameValue(a: Value, b: Value) {
    a == b
  }

  /** JavaScript truthiness, as used by `if (v)` and `v || w`. */
  predicate Truthy(v: Value) {
    match v
    case Undefined => false
    case Null => false
    case Bool(b) => b
    case Num(n) => n != 0
    case Str(s) => s != ""
    case Fn(_) => true
    case Obj(_, _) => true
  }

  /** `v ?? w` picks `w` exactly when `v` is nullish. */
  predicate Nullish(v: Value) {
    v.Undefined? || v.Null?
  }

  /** `typeof v === 'object'` (true of null as well). */
  predicate IsObjectType(v: Value) {
    v.Obj? || v.Null?
  }

  /** The own enumerable properties that object spread `{...v}` copies. */
  function Props(v: Value): map<string, Value> {
    if v.Obj? then v.props else map[]
  }

  /** Property read `v[k]` on a value that is not nullish. */
  function Get(v: Value, k: string): Value {
    if v.Obj? && k in v.props then v.props[k] else Undefined
  }

  /** `{...v}`: a new object (reference `ref`) with the own properties of `v`. */
  function Spread(v: Value, ref: nat): Value {
    Obj(ref, Props(v))
  }
}
