/** The JavaScript values the core handles: the result of `JSON.parse`,
    with the runtime rules the core relies on (truthiness, property access,
    conversion to text, object spread). JSON numbers are modelled as
    integers. */
module Js {
  import opened Optional
  import Decimal
  import Strings

  datatype Json =
    | JNull
    | JBool(b: bool)
    | JNum(n: int)
    | JStr(s: string)
    | JArr(items: seq<Json>)
    | JObj(fields: map<string, Json>)

  /** JavaScript truthiness of a value that may be `undefined` (None). */
  predicate Truthy(v: Option<Json>) {
    match v
    case None => false
    case Some(JNull) => false
    case Some(JBool(b)) => b
    case Some(JNum(n)) => n != 0
    case Some(JStr(s)) => s != ""
    case Some(JArr(_)) => true
    case Some(JObj(_)) => true
  }

  /** The outcome of reading a property: a TypeError, or a value that may be
      `undefined`. */
  datatype Access = Throws | Got(value: Option<Json>)

  /** `v.key`. Reading a property of `undefined` or `null` throws a
      TypeError. The keys the core reads (`images`, `prompt`, `url`, `text`,
      `exercises`, `questions`, `difficulty`, `question`) are neither own
      properties of strings, numbers, booleans or arrays nor inherited from a
      prototype, so only an object can have them. */
  function Member(v: Option<Json>, key: string): (r: Access)
    ensures r.Throws? <==> (v.None? || v == Some(JNull))
    ensures r.Got? && r.value.Some? ==> v.Some? && v.value.JObj? && key in v.value.fields
  {
    match v
    case None => Throws
    case Some(JNull) => Throws
    case Some(JObj(m)) => Got(if key in m then Some(m[key]) else None)
    case Some(_) => Got(None)
  }

  /** `Array.prototype.join(',')`. */
  function JoinComma(parts: seq<string>): string {
    if |parts| == 0 then "" else Strings.Join(parts, ',')
  }

  /** Whether converting `j` to text throws a TypeError. A parsed object is
      converted through `toString`: an own `toString` property shadows the
      inherited method and, being a JSON value, cannot be called, while the
      inherited `valueOf` gives back the object itself, so no primitive is
      reached. An array converts each of its elements in the same way. */
  predicate Unprintable(j: Json)
    decreases j
  {
    match j
    case JObj(fields) => "toString" in fields
    case JArr(items) => exists i :: 0 <= i < |items| && Unprintable(items[i])
    case _ => false
  }

  /** `String(j)` for a value whose conversion does not throw: how it reads
      when concatenated to a string. An array joins its elements' texts with
      commas, `null` elements giving the empty text; any other object reads
      `[object Object]`. */
  function JsonText(j: Json): string
    decreases j
  {
    match j
    case JNull => "null"
    case JBool(b) => if b then "true" else "false"
    case JNum(n) => Decimal.IntToDecimal(n)
    case JStr(s) => s
    case JArr(items) =>
      JoinComma(seq(|items|, i requires 0 <= i < |items| =>
        if items[i].JNull? then "" else JsonText(items[i])))
    case JObj(_) => "[object Object]"
  }

  /** `String(v)` for a value that may be `undefined`. */
  function ToText(v: Option<Json>): (r: string)
    ensures v.None? ==> r == "undefined"
    ensures v.Some? && v.value.JStr? ==> r == v.value.s
  {
    match v
    case None => "undefined"
    case Some(j) => JsonText(j)
  }

  /** The own enumerable properties `{...v}` copies: the fields of an
      object, the elements of an array or the characters of a string under
      their index names, and nothing for `null`, booleans and numbers. */
  function Spread(v: Json): (r: map<string, Json>)
    ensures v.JObj? ==> r == v.fields
    ensures v.JArr? ==> forall i :: 0 <= i < |v.items| ==>
      Decimal.NatToDecimal(i) in r && r[Decimal.NatToDecimal(i)] == v.items[i]
    ensures v.JNull? || v.JBool? || v.JNum? ==> r == map[]
  {
    Decimal.AllDecimalInjective();
    match v
    case JObj(m) => m
    case JArr(items) => map i | 0 <= i < |items| :: Decimal.NatToDecimal(i) := items[i]
    case JStr(s) => map i | 0 <= i < |s| :: Decimal.NatToDecimal(i) := JStr([s[i]])
    case _ => map[]
  }
}
