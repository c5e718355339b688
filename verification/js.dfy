/** JavaScript values as the handlers see them once JSON has been parsed, and
    the coercions the source leans on: truthiness (`if (x)`, `!x`), `a || b`,
    property access that yields `undefined` when the property is missing, the
    string a template literal produces, and `parseFloat`. */
module Js {
  import opened Wrappers
  import Strings

  datatype Value =
    | Undef
    | Null
    | Bool(b: bool)
    | Num(n: int)
    | Str(s: string)
    | Arr(items: seq<Value>)
    | Obj(fields: map<string, Value>)

  predicate Truthy(v: Value) {
    match v
    case Undef => false
    case Null => false
    case Bool(b) => b
    case Num(n) => n != 0
    case Str(s) => s != ""
    case Arr(_) => true
    case Obj(_) => true
  }

  /** `a || b` */
  function Or(a: Value, b: Value): Value {
    if Truthy(a) then a else b
  }

  /** `v.name` (only objects carry named properties here). */
  function Get(v: Value, name: string): Value {
    if v.Obj? && name in v.fields then v.fields[name] else Undef
  }

  /** `${v}` inside a template literal; array elements that are `null` or
      `undefined` render as empty text, as `Array.prototype.join` does. */
  function ToJsString(v: Value): string
    decreases v
  {
    match v
    case Undef => "undefined"
    case Null => "null"
    case Bool(b) => if b then "true" else "false"
    case Num(n) => Strings.IntToString(n)
    case Str(s) => s
    case Arr(items) =>
      if |items| == 0 then ""
      else Strings.Join(seq(|items|, i requires 0 <= i < |items| =>
        if items[i].Undef? || items[i].Null? then "" else ToJsString(items[i])), ',')
    case Obj(_) => "[object Object]"
  }

  /** `parseFloat(v)`; `None` stands for `NaN`. */
  function ParseFloat(v: Value): Option<int> {
    Strings.ParseIntPrefix(ToJsString(v))
  }

  /** A number survives the trip through its own rendering. */
  lemma ParseFloatOfNumber(n: int)
    ensures ParseFloat(Num(n)) == Some(n)
  {
    Strings.IntToStringRoundTrip(n);
  }
}
