/**
 * The tree that Jackson decodes a JSON document into when the service asks
 * for a java.util.Map: objects become maps, arrays become lists, and
 * strings, booleans and integral numbers become their boxed values.
 */
module Json {
  import opened Wrappers

  datatype Json =
    | JNull
    | JBool(b: bool)
    | JNumber(n: int)
    | JString(s: string)
    | JArray(items: seq<Json>)
    | JObject(fields: seq<Field>)

  /** One entry of a decoded object, in document order. */
  datatype Field = Field(key: string, value: Json)

  /** Map.get: the value under key, or null (JNull) when there is none. */
  function Get(fields: seq<Field>, key: string): (v: Json)
    ensures (forall i :: 0 <= i < |fields| ==> fields[i].key != key) ==> v == JNull
    ensures v != JNull ==> exists i :: 0 <= i < |fields| && fields[i] == Field(key, v)
    ensures forall i :: (0 <= i < |fields| && fields[i].key == key &&
                         (forall j :: 0 <= j < i ==> fields[j].key != key)) ==> v == fields[i].value
  {
    if fields == [] then JNull
    else if fields[0].key == key then
      assert fields[0] == Field(key, fields[0].value);
      fields[0].value
    else
      var v := Get(fields[1..], key);
      assert forall i :: 0 <= i < |fields| - 1 ==> fields[1..][i] == fields[i + 1];
      v
  }

  /** The number a string of decimal digits denotes. */
  function DecimalValue(digits: string): nat
  {
    if digits == [] then 0
    else
      var last := digits[|digits| - 1] as int - '0' as int;
      DecimalValue(digits[..|digits| - 1]) * 10 + (if 0 <= last then last else 0)
  }

  /** Decimal digits of a natural number, as Integer.toString writes them. */
  function NatToString(n: nat): (r: string)
    ensures |r| > 0 && forall i :: 0 <= i < |r| ==> '0' <= r[i] <= '9'
    ensures DecimalValue(r) == n
    ensures |r| > 1 ==> r[0] != '0'
  {
    var d := [(('0' as int) + n % 10) as char];
    if n < 10 then d
    else
      var r := NatToString(n / 10) + d;
      assert r[..|r| - 1] == NatToString(n / 10);
      r
  }

  /** Integer.toString: a minus sign before the digits of a negative
      number. */
  function IntToString(n: int): (r: string)
    ensures |r| > 0
    ensures n >= 0 ==> DecimalValue(r) == n && r[0] != '-'
    ensures n < 0 ==> |r| > 1 && r[0] == '-' && DecimalValue(r[1..]) == -n
    ensures forall i :: (if n < 0 then 1 else 0) <= i < |r| ==> '0' <= r[i] <= '9'
    ensures var start := if n < 0 then 1 else 0; |r| > start + 1 ==> r[start] != '0'
  {
    if n < 0 then
      var r := "-" + NatToString(-n);
      assert r[1..] == NatToString(-n);
      r
    else NatToString(n)
  }

  /** Elements separated by ", ", as Java collections print them. */
  function JoinComma(parts: seq<string>): string
  {
    if parts == [] then ""
    else if |parts| == 1 then parts[0]
    else parts[0] + ", " + JoinComma(parts[1..])
  }

  /** String.valueOf of a decoded value: a string is itself, a list prints
      as [a, b], a map as {k=v, ...}, null as "null". */
  function ToJavaString(j: Json): (r: string)
    ensures j.JNull? ==> r == "null"
    ensures j.JBool? ==> (r == "true" <==> j.b) && (r == "false" <==> !j.b)
    ensures j.JString? ==> r == j.s
    ensures j.JNumber? ==> r == IntToString(j.n)
    ensures j.JArray? ==> |r| >= 2 && r[0] == '[' && r[|r| - 1] == ']'
    ensures j.JObject? ==> |r| >= 2 && r[0] == '{' && r[|r| - 1] == '}'
  {
    match j
    case JNull => "null"
    case JBool(b) => if b then "true" else "false"
    case JNumber(n) => IntToString(n)
    case JString(s) => s
    case JArray(items) =>
      "[" + JoinComma(seq(|items|, i requires 0 <= i < |items| => ToJavaString(items[i]))) + "]"
    case JObject(fields) =>
      "{" + JoinComma(seq(|fields|, i requires 0 <= i < |fields| =>
                            fields[i].key + "=" + ToJavaString(fields[i].value))) + "}"
  }

  /** One step into a decoded tree: an object's entry, or a list's first
      element. */
  datatype Step = Key(name: string) | First

  /** The value reached by following path, or None when a step meets a
      value of the wrong kind (null included) or an empty list. */
  function At(j: Json, path: seq<Step>): Option<Json>
    decreases |path|
  {
    if path == [] then Some(j)
    else match path[0]
      case Key(k) => if j.JObject? then At(Get(j.fields, k), path[1..]) else None
      case First => if j.JArray? && |j.items| > 0 then At(j.items[0], path[1..]) else None
  }
}
