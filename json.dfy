/**
  Loosely shaped JSON values, as the backend reads them from files, and the
  JavaScript coercions the code applies to them: truthiness, `Number()` and
  property access.
 */
module JsonValue {
  import opened Wrappers
  import opened Strings
  import AssocList

  /** `JNull` stands for both `null` and `undefined`; object fields keep their order. */
  datatype Json =
    | JNull
    | JBool(b: bool)
    | JNum(n: real)
    | JStr(s: string)
    | JArr(items: seq<Json>)
    | JObj(fields: seq<(string, Json)>)

  /** JavaScript truthiness: `null`, `false`, `0` and `""` are falsy. */
  predicate Truthy(v: Json) {
    match v
    case JNull => false
    case JBool(b) => b
    case JNum(n) => n != 0.0
    case JStr(s) => s != ""
    case _ => true
  }

  /** `v.key` (or Python's `v.get(key)`): an absent field and a non-object both read as undefined. */
  function Field(v: Json, key: string): (r: Json)
    ensures !v.JObj? ==> r == JNull
    ensures v.JObj? && !AssocList.HasKey(v.fields, key) ==> r == JNull
    ensures v.JObj? && AssocList.HasKey(v.fields, key) ==> (key, r) in v.fields
  {
    if v.JObj? then AssocList.GetOr(v.fields, key, JNull) else JNull
  }

  /** `a || b` on JSON values. */
  function Or(a: Json, b: Json): (r: Json)
    ensures Truthy(a) ==> r == a
    ensures !Truthy(a) ==> r == b
  {
    if Truthy(a) then a else b
  }

  /** A JavaScript number: finite, or NaN/Infinity (which every caller treats alike). */
  datatype Num = Finite(v: real) | NaN

  /** `Number(v)` for a JSON value. */
  function ToNumber(v: Json): Num {
    match v
    case JNull => Finite(0.0)
    case JBool(b) => Finite(if b then 1.0 else 0.0)
    case JNum(n) => Finite(n)
    case JStr(s) => StringToNumber(s)
    case JObj(_) => NaN
    case JArr(items) =>
      // Number([]) is Number("") and Number([x]) is Number(String(x)); two or more items join with ','.
      if |items| == 0 then Finite(0.0)
      else if |items| > 1 then NaN
      else match items[0]
        case JNull => Finite(0.0)
        case JBool(_) => NaN
        case JNum(n) => Finite(n)
        case JStr(s) => StringToNumber(s)
        case JObj(_) => NaN
        case JArr(_) => ToNumber(items[0])
  }

  /** `Number(s)`: whitespace is trimmed, the empty string is 0, a decimal literal is its value. */
  function StringToNumber(s: string): (r: Num)
    ensures Trim(s) == "" ==> r == Finite(0.0)
  {
    var t := Trim(s);
    if t == "" then Finite(0.0)
    else match ParseDecimal(t)
      case Some(x) => Finite(x)
      case None => NaN
  }

  /** An optional sign, then digits with an optional fraction (`12`, `-3.5`, `.5`, `7.`). */
  function ParseDecimal(t: string): (r: Option<real>)
    ensures r.Some? ==> exists i :: 0 <= i < |t| && IsDigit(t[i])
  {
    if t == [] then None
    else if t[0] == '-' then
      match ParseUnsigned(t[1..])
      case Some(x) => Some(-x)
      case None => None
    else if t[0] == '+' then ParseUnsigned(t[1..])
    else ParseUnsigned(t)
  }

  function ParseUnsigned(t: string): (r: Option<real>)
    ensures r.Some? ==> r.value >= 0.0 && exists i :: 0 <= i < |t| && IsDigit(t[i])
  {
    var k := DigitRun(t);
    if k == |t| then
      if k == 0 then None else Some(DigitsValue(t) as real)
    else if t[k] != '.' then None
    else
      var rest := t[k + 1..];
      var f := DigitRun(rest);
      if f != |rest| || (k == 0 && f == 0) then None
      else
        assert k > 0 ==> IsDigit(t[0]);
        assert f > 0 ==> IsDigit(t[k + 1]);
        Some(DigitsValue(t[..k]) as real + DigitsValue(rest) as real / Pow10(f) as real)
  }

  lemma {:induction false} DigitRunAll(s: string)
    requires forall i :: 0 <= i < |s| ==> IsDigit(s[i])
    ensures DigitRun(s) == |s|
  {
    if s != [] {
      DigitRunAll(s[1..]);
    }
  }

  /** `Number(String(n))` is `n` for a natural number: the decimal form the parsers write is read back unchanged. */
  lemma {:induction false} StringToNumberOfNat(n: nat)
    ensures StringToNumber(NatToString(n)) == Finite(n as real)
  {
    var s := NatToString(n);
    assert IsDigit(s[0]) && IsDigit(s[|s| - 1]);
    TrimOfNonSpaceEdges(s);
    assert Trim(s) == s;
    DigitRunAll(s);
    NatToStringRoundTrip(n);
    assert ParseUnsigned(s) == Some(n as real);
    assert ParseDecimal(s) == ParseUnsigned(s);
  }

  /** `pickNumber(n, def)`: the default for null/undefined and for values `Number()` cannot make finite. */
  function PickNumber(v: Json, default: real): (r: real)
    ensures v == JNull ==> r == default
    ensures v != JNull && ToNumber(v).Finite? ==> r == ToNumber(v).v
    ensures ToNumber(v).NaN? ==> r == default
  {
    if v == JNull then default
    else match ToNumber(v)
      case Finite(x) => x
      case NaN => default
  }

  /** Numbers pass through `pickNumber` unchanged, whatever the default. */
  lemma {:induction false} PickNumberOfNumber(x: real, default: real)
    ensures PickNumber(JNum(x), default) == x
  {
  }

  /** `Array.isArray(v) ? v : []`. */
  function ItemsOr(v: Json): (r: seq<Json>)
    ensures v.JArr? ==> r == v.items
    ensures !v.JArr? ==> r == []
  {
    if v.JArr? then v.items else []
  }

  /**
    `Object.entries(v)`: an object's fields; an array's items and a string's
    characters under their decimal indices; nothing for other values.
   */
  function Entries(v: Json): (r: seq<(string, Json)>)
    ensures v.JObj? ==> r == v.fields
    ensures v.JArr? ==> |r| == |v.items| && forall i :: 0 <= i < |r| ==> r[i] == (NatToString(i), v.items[i])
    ensures v.JStr? ==> |r| == |v.s| && forall i :: 0 <= i < |r| ==> r[i] == (NatToString(i), JStr([v.s[i]]))
    ensures !v.JObj? && !v.JArr? && !v.JStr? ==> r == []
  {
    match v
    case JObj(fields) => fields
    case JArr(items) => seq(|items|, i requires 0 <= i < |items| => (NatToString(i), items[i]))
    case JStr(s) => seq(|s|, i requires 0 <= i < |s| => (NatToString(i), JStr([s[i]])))
    case _ => []
  }

  /** A string field value, with "" for anything that is not a string. */
  function StrOf(v: Json): (r: string)
    ensures v.JStr? ==> r == v.s
    ensures !v.JStr? ==> r == ""
  {
    if v.JStr? then v.s else ""
  }

  /** `v && typeof v === "object"`: a non-null object or array. */
  predicate IsObjectLike(v: Json) {
    v.JObj? || v.JArr?
  }
}
