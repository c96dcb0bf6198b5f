/** JavaScript values as request bodies, JWT payloads and ORM rows carry them,
    with the language's truthiness, `||`, property reads and JSON serialisation. */
module Js {

  datatype Option<+T> = None | Some(value: T)

  /** A JSON-like JavaScript value. Numbers are modelled as integers. */
  datatype Value =
    | Undefined
    | Null
    | Bool(b: bool)
    | Num(n: int)
    | Str(s: string)
    | Obj(fields: map<string, Value>)

  /** An ORM row or a plain object: attribute name to value. */
  type Record = map<string, Value>

  /** `!!v` */
  predicate Truthy(v: Value) {
    match v
    case Undefined => false
    case Null => false
    case Bool(b) => b
    case Num(n) => n != 0
    case Str(s) => s != ""
    case Obj(_) => true
  }

  /** `a || b`: the first operand when it is truthy, otherwise the second. */
  function Or(a: Value, b: Value): Value {
    if Truthy(a) then a else b
  }

  /** `r.k`: a missing attribute reads as undefined. */
  function Get(r: Record, k: string): Value {
    if k in r then r[k] else Undefined
  }

  /** `v.k` for a value that is an object; any other value here has no such property. */
  function Prop(v: Value, k: string): Value {
    if v.Obj? then Get(v.fields, k) else Undefined
  }

  /** What `JSON.stringify` keeps of an object: the attributes whose value is not undefined. */
  function Stringified(r: Record): (j: Record)
    ensures forall k :: k in j <==> k in r && r[k] != Undefined
    ensures forall k :: k in j ==> j[k] == r[k]
  {
    map k | k in r && r[k] != Undefined :: r[k]
  }

  /** `{ ...r, h1: undefined, h2: undefined, … }` once serialised: the shape every model's `toJSON` sends. */
  function Without(r: Record, hidden: set<string>): (j: Record)
    ensures forall k :: k in j <==> k in r && k !in hidden && r[k] != Undefined
    ensures forall k :: k in j ==> j[k] == r[k]
  {
    Stringified(r + map k | k in hidden :: Undefined)
  }

  /** A string of decimal digits, at least one. */
  predicate AllDigits(s: string) {
    |s| > 0 && forall i :: 0 <= i < |s| ==> '0' <= s[i] <= '9'
  }

  /** The value of a string of decimal digits. */
  function DigitsValue(s: string): nat
    requires forall i :: 0 <= i < |s| ==> '0' <= s[i] <= '9'
  {
    if s == [] then 0 else DigitsValue(s[..|s| - 1]) * 10 + (s[|s| - 1] - '0') as nat
  }

  /** `Number(v)` for the values the model has, `None` standing for NaN. A string converts when it
      is empty or an optionally negative decimal integer. */
  function ToNumber(v: Value): Option<int> {
    match v
    case Undefined => None
    case Null => Some(0)
    case Bool(b) => Some(if b then 1 else 0)
    case Num(n) => Some(n)
    case Str(s) =>
      if s == "" then Some(0)
      else if AllDigits(s) then Some(DigitsValue(s))
      else if s[0] == '-' && AllDigits(s[1..]) then Some(0 - DigitsValue(s[1..]) as int)
      else None
    case Obj(_) => None
  }

  /** `v == t` (loose equality) against a string: a number or boolean is compared as a number, an
      object through its string form `[object Object]`, null and undefined equal no string. */
  predicate LooseEqualsString(v: Value, t: string) {
    match v
    case Undefined => false
    case Null => false
    case Bool(b) => ToNumber(Str(t)) == Some(if b then 1 else 0)
    case Num(n) => ToNumber(Str(t)) == Some(n)
    case Str(s) => s == t
    case Obj(_) => t == "[object Object]"
  }

  /** `v > n`: the value converted to a number; NaN compares false. */
  predicate GreaterThan(v: Value, n: int) {
    var x := ToNumber(v); x.Some? && x.value > n
  }

  /** `a === b`: equal primitives; two objects read from a request body are never the same object. */
  predicate StrictEquals(a: Value, b: Value) {
    a == b && !a.Obj?
  }
}
