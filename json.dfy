/** JSON-like values as the backend stores and exchanges them, and the few
    pieces of JavaScript semantics the configuration logic relies on:
    the type tag of a value, truthiness and conversion to a string. */
module Json {

  /** A value after a trip through the extension's storage or message channel. */
  datatype Value =
    | Null
    | Bool(b: bool)
    | Num(n: int)
    | Str(s: string)
    | Arr(elems: seq<Value>)
    | Obj(fields: map<string, Value>)

  /** The class name `Object.prototype.toString` reports, which is what the
      host's `objectType` utility compares. */
  datatype Tag = NullTag | BooleanTag | NumberTag | StringTag | ArrayTag | ObjectTag

  function TypeTag(v: Value): (t: Tag)
    ensures t == ObjectTag <==> v.Obj?
    ensures t == StringTag <==> v.Str?
  {
    match v
    case Null => NullTag
    case Bool(_) => BooleanTag
    case Num(_) => NumberTag
    case Str(_) => StringTag
    case Arr(_) => ArrayTag
    case Obj(_) => ObjectTag
  }

  /** JavaScript truthiness of a defined value (`undefined` is modelled as a missing value). */
  predicate Truthy(v: Value) {
    match v
    case Null => false
    case Bool(b) => b
    case Num(n) => n != 0
    case Str(s) => s != ""
    case Arr(_) => true
    case Obj(_) => true
  }

  /** Truthiness of a possibly undefined value. */
  predicate Present(v: Option<Value>) {
    v.Some? && Truthy(v.value)
  }

  datatype Option<+T> = None | Some(value: T)

  function DigitChar(d: nat): (c: char)
    requires d < 10
    ensures '0' <= c <= '9'
  {
    "0123456789"[d]
  }

  /** Decimal rendering of a natural number, most significant digit first. */
  function NatToDecimal(n: nat): (s: string)
    ensures |s| > 0
    ensures forall i :: 0 <= i < |s| ==> '0' <= s[i] <= '9'
  {
    if n < 10 then [DigitChar(n)] else NatToDecimal(n / 10) + [DigitChar(n % 10)]
  }

  function IntToDecimal(n: int): (s: string)
    ensures |s| > 0
    ensures forall i :: 0 < i < |s| ==> '0' <= s[i] <= '9'
    ensures s[0] == '-' || '0' <= s[0] <= '9'
  {
    if n < 0 then "-" + NatToDecimal(-n) else NatToDecimal(n)
  }

  /** `Array.prototype.join` with the default separator. */
  function JoinWithCommas(parts: seq<string>): string {
    if parts == [] then ""
    else if |parts| == 1 then parts[0]
    else parts[0] + "," + JoinWithCommas(parts[1..])
  }

  /** JavaScript `ToString`, as applied by `String(v)`, by a property lookup
      `o[v]` and by `RegExp.prototype.test(v)`. Array elements that are
      `null` contribute the empty string, as `join` does. */
  function ToJsString(v: Value): string
    decreases v
  {
    match v
    case Null => "null"
    case Bool(b) => if b then "true" else "false"
    case Num(n) => IntToDecimal(n)
    case Str(s) => s
    case Arr(elems) =>
      JoinWithCommas(seq(|elems|, i requires 0 <= i < |elems| =>
        if elems[i].Null? then "" else ToJsString(elems[i])))
    case Obj(_) => "[object Object]"
  }

  /** `ToString` of a possibly undefined value. */
  function OptToJsString(v: Option<Value>): string {
    if v.None? then "undefined" else ToJsString(v.value)
  }

  /** The names every plain JavaScript object inherits from `Object.prototype`.
      The `in` operator and a property lookup on a plain object find them
      even when the object has no own property of that name. */
  const ObjectPrototypeNames: set<string> := {
    "constructor", "__defineGetter__", "__defineSetter__", "hasOwnProperty",
    "__lookupGetter__", "__lookupSetter__", "isPrototypeOf",
    "propertyIsEnumerable", "toString", "valueOf", "__proto__", "toLocaleString"
  }

  /** The JavaScript `name in o` test on a plain object with own properties `fields`. */
  predicate InPlainObject(name: string, fields: map<string, Value>) {
    name in fields || name in ObjectPrototypeNames
  }

  /** Reads property `name` of a value the way `v.name` does, for the cases that
      yield a stored JSON value; anything else reads as `undefined`. */
  function Property(v: Option<Value>, name: string): Option<Value> {
    if v.Some? && v.value.Obj? && name in v.value.fields then Some(v.value.fields[name]) else None
  }
}
