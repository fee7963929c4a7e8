/**
 * The ArduinoJson document as a value: the parsed tree, member lookup
 * (`doc[key]`) and the conversions the firmware uses (`as<T>()` and the
 * `value | default` operator).  Text parsing and printing are not modelled
 * beyond the number and scalar texts the conversions read and print:
 * a deserialised document is passed in as a `Json`, a failed deserialisation
 * as `None`.
 */
module Json {
  import opened Wrappers
  import opened Bits
  import Text

  datatype Json =
    | JNull
    | JBool(b: bool)
    | JInt(i: int)
    | JString(s: string)
    | JArray(items: seq<Json>)
    | JObject(fields: map<string, Json>)

  /** `doc[key]`: the member's value, null when the key is absent or `doc` is not an object. */
  function Field(doc: Json, key: string): (r: Json)
    ensures doc.JObject? && key in doc.fields ==> r == doc.fields[key]
    ensures !(doc.JObject? && key in doc.fields) ==> r == JNull
  {
    if doc.JObject? && key in doc.fields then doc.fields[key] else JNull
  }

  /** `containsKey(key)`. */
  predicate ContainsKey(doc: Json, key: string)
  {
    doc.JObject? && key in doc.fields
  }

  /** The JSON text serializeJson prints for an integer. */
  function IntText(i: int): (r: string)
    ensures |r| > 0
  {
    if i < 0 then "-" + Text.NatToString(-i) else Text.NatToString(i)
  }

  /** One or more decimal digits and nothing else. */
  predicate IsDigits(s: string)
  {
    |s| > 0 && forall k :: 0 <= k < |s| ==> Text.IsDigit(s[k])
  }

  /**
   * The integer ArduinoJson's number parser reads from a string: an
   * optional sign and decimal digits, with nothing before or after them.
   * Any other text holds no integer (fractions and exponents, which it
   * reads as floating point, are not modelled).
   */
  function IntegerText(s: string): (r: Option<int>)
    ensures r.Some? ==>
      (IsDigits(s) && r.value >= 0) || (|s| > 1 && s[0] in {'-', '+'} && IsDigits(s[1..]))
  {
    if |s| > 0 && (s[0] == '-' || s[0] == '+') then
      if IsDigits(s[1..]) then
        var n: int := Text.DecimalValue(s[1..]);
        Some(if s[0] == '-' then -n else n)
      else None
    else if IsDigits(s) then Some(Text.DecimalValue(s))
    else None
  }

  /** The number a scalar converts to: an integer, a boolean as 0 or 1, or the integer a string holds. */
  function NumberOf(v: Json): (r: Option<int>)
    ensures v.JInt? ==> r == Some(v.i)
    ensures v.JBool? ==> r == Some(if v.b then 1 else 0)
    ensures v.JString? ==> r == IntegerText(v.s)
    ensures v.JNull? || v.JArray? || v.JObject? ==> r.None?
  {
    match v
    case JInt(i) => Some(i)
    case JBool(b) => Some(if b then 1 else 0)
    case JString(s) => IntegerText(s)
    case _ => None
  }

  predicate IsInt32(i: int)
  {
    -0x8000_0000 <= i < 0x8000_0000
  }

  /**
   * `as<String>()`: a string as it is, and null, a boolean or an integer as
   * the JSON text serializeJson prints for it ("null", "true", "-5").
   */
  function AsString(v: Json): string
  {
    match v
    case JString(s) => s
    case JNull => "null"
    case JBool(b) => if b then "true" else "false"
    case JInt(i) => IntText(i)
    case _ => ""
  }

  /** `as<int>()` (and an enum target): the number when it fits in an int, otherwise 0. */
  function AsInt(v: Json): int32
  {
    var n := NumberOf(v);
    if n.Some? && IsInt32(n.value) then n.value else 0
  }

  /** `as<unsigned long>()` / `as<uint32_t>()`: the number when it fits in 32 unsigned bits, otherwise 0. */
  function AsUInt32(v: Json): uint32
  {
    var n := NumberOf(v);
    if n.Some? && 0 <= n.value < TWO32 then n.value else 0
  }

  /** `as<float>()`: the number, or 0 when there is none. */
  function AsNumber(v: Json): int
  {
    var n := NumberOf(v);
    if n.Some? then n.value else 0
  }

  /** `as<bool>()`: a boolean as it is, an integer when non-zero, false for null and true for anything else. */
  function AsBool(v: Json): bool
  {
    match v
    case JBool(b) => b
    case JInt(i) => i != 0
    case JNull => false
    case _ => true
  }

  /** `as<int>()` reads back the integer `as<String>()` prints. */
  lemma IntTextRoundTrip(i: int)
    ensures IntegerText(IntText(i)) == Some(i)
  {
    var t := Text.NatToString(if i < 0 then -i else i);
    if i < 0 {
      assert IntText(i)[1..] == t;
    } else {
      assert Text.IsDigit(t[0]);
    }
  }

  /** A value printed by `as<String>()` converts back to the same int. */
  lemma PrintedIntReadsBack(v: Json)
    requires v.JInt? || v.JBool?
    ensures AsInt(JString(AsString(v))) == (if v.JInt? then AsInt(v) else 0)
  {
    if v.JInt? {
      IntTextRoundTrip(v.i);
    }
  }

  /** `v | "default"`: the string when `v` holds one, otherwise the default. */
  function StringOr(v: Json, default: string): string
  {
    if v.JString? then v.s else default
  }

  /** `v | 0` for an int target: the integer when `v` holds one that fits, otherwise the default. */
  function IntOr(v: Json, default: int32): int32
  {
    if v.JInt? && IsInt32(v.i) then v.i else default
  }

  /** `v | millis()` for a uint32_t target: an integer that fits, otherwise the default. */
  function UInt32Or(v: Json, default: uint32): uint32
  {
    if v.JInt? && 0 <= v.i < TWO32 then v.i else default
  }

  /** `v | false`. */
  function BoolOr(v: Json, default: bool): bool
  {
    if v.JBool? then v.b else default
  }

  /** `as<JsonArray>()` iterated: the elements of an array, none for anything else. */
  function Elements(v: Json): seq<Json>
  {
    if v.JArray? then v.items else []
  }

  /** `as<JsonObject>()` iterated: the members of an object, none for anything else. */
  function Members(v: Json): map<string, Json>
  {
    if v.JObject? then v.fields else map[]
  }

  /** A member of the right-hand object of a union is read from it. */
  lemma MergeRight(o: map<string, Json>, c: map<string, Json>, k: string)
    requires k in c
    ensures Field(JObject(o + c), k) == c[k]
  {
  }

  /** A key the right-hand object lacks is read from the left-hand one. */
  lemma MergeLeft(o: map<string, Json>, c: map<string, Json>, k: string)
    requires k !in c
    ensures Field(JObject(o + c), k) == Field(JObject(o), k)
    ensures ContainsKey(JObject(o + c), k) <==> k in o
  {
  }
}
