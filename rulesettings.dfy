/**
  The state logic of the rule-settings page (frontend/src/pages/RuleSettings.jsx):
  the weight total, the normalisation of a fetched payload, the updaters the
  sliders, toggles and select apply to the payload, the performance tags and the
  preview of the top of the ranking. The payload is `null` (`JNull`) until a
  fetch succeeds; the page then shows the defaults it shares with the backend.
 */
module RuleSettingsPage {
  import opened Wrappers
  import opened Strings
  import opened JsonValue
  import opened AssocList
  import opened Reals
  import Rules

  // ---------------------------------------------------------------- parseInt(v, 10) || 0

  /** `parseInt(s, 10)` of a text: leading whitespace, an optional sign, then the leading digits; `None` for NaN. */
  function ParseIntText(s: string): Option<int> {
    var t := TrimStart(s);
    if t != [] && (t[0] == '-' || t[0] == '+') then
      var k := DigitRun(t[1..]);
      if k == 0 then None
      else
        var v: int := DigitsValue(t[1..][..k]);
        Some(if t[0] == '-' then -v else v)
    else
      var k := DigitRun(t);
      if k == 0 then None else Some(DigitsValue(t[..k]))
  }

  /** The range input reports its value as a decimal text, which `parseInt` reads back. */
  lemma {:induction false} ParseIntOfDecimal(n: nat)
    ensures ParseIntText(NatToString(n)) == Some(n)
  {
    var s := NatToString(n);
    assert TrimStart(s) == s;
    assert DigitRun(s) == |s|;
    assert s[..|s|] == s;
    NatToStringRoundTrip(n);
  }

  /**
    `parseInt(v, 10)` of a JSON value, which reads `String(v)`. A number in
    fixed notation prints as its decimal text, so the digits before the point
    are its truncation toward zero. An array prints as its elements joined by
    ",", and the comma ends the digits, so only the first element counts (an
    empty array prints as ""). `true`, `null` and objects print as non-numbers.
   */
  function ParseIntJs(v: Json): Option<int> {
    match v
    case JNum(x) => Some(Trunc(x))
    case JStr(s) => ParseIntText(s)
    case JArr(items) => if items == [] then None else ParseIntJs(items[0])
    case _ => None
  }

  /** `parseInt(v, 10) || 0`. */
  function IntOrZero(v: Json): int {
    match ParseIntJs(v)
    case None => 0
    case Some(n) => n
  }

  // ---------------------------------------------------------------- the weight total

  /** `effectiveRules = payload ?? DEFAULT_RULES`. */
  function Effective(payload: Json): Json {
    Rules.Nullish(payload, Rules.DefaultRules)
  }

  /** `p.rules || []`, for the payloads the page holds (whose rules are an array). */
  function RuleList(p: Json): seq<Json> {
    var rules := Field(p, "rules");
    if rules.JArr? then rules.items else []
  }

  /** One rule's share of the total: `parseInt(r.value, 10) || 0`. */
  function Weight(rule: Json): int {
    IntOrZero(Field(rule, "value"))
  }

  /** `rules.reduce((sum, r) => sum + (parseInt(r.value, 10) || 0), 0)`. */
  function TotalWeight(rules: seq<Json>): int {
    if rules == [] then 0 else TotalWeight(rules[..|rules| - 1]) + Weight(rules[|rules| - 1])
  }

  /** The class of the total indicator: green only at exactly 100. */
  function TotalClass(total: int): string {
    if total == 100 then "green" else "red"
  }

  lemma {:induction false} TotalWeightAppend(a: seq<Json>, b: seq<Json>)
    ensures TotalWeight(a + b) == TotalWeight(a) + TotalWeight(b)
    decreases |b|
  {
    if b != [] {
      var n := |b| - 1;
      assert (a + b)[..|a + b| - 1] == a + b[..n];
      TotalWeightAppend(a, b[..n]);
    } else {
      assert a + b == a;
    }
  }

  /** Moving one slider changes the total by the difference of that one rule's weight. */
  lemma {:induction false} TotalWeightUpdate(rules: seq<Json>, i: int, rule: Json)
    requires 0 <= i < |rules|
    ensures TotalWeight(rules[i := rule]) == TotalWeight(rules) - Weight(rules[i]) + Weight(rule)
  {
    var pre, post := rules[..i], rules[i + 1..];
    assert rules == pre + [rules[i]] + post;
    assert rules[i := rule] == pre + [rule] + post;
    TotalWeightAppend(pre + [rules[i]], post);
    TotalWeightAppend(pre, [rules[i]]);
    TotalWeightAppend(pre + [rule], post);
    TotalWeightAppend(pre, [rule]);
    assert [rules[i]][..0] == [] && [rule][..0] == [];
  }

  /** The integer weights of the ten default rules. */
  const DefaultWeightValues: seq<int> := [12, 10, 7, 12, 10, 9, 5, 5, 7, 11]

  /** A rule literal weighs its value truncated to an integer. */
  lemma {:induction false} RuleWeightOf(name: string, value: real, desc: string)
    ensures Weight(Rules.Rule(name, value, desc)) == Trunc(value)
  {
    Rules.RuleFields(name, value, desc);
  }

  /** The weights of the ten default rules. */
  lemma {:induction false} DefaultRuleWeights()
    ensures |Rules.DefaultRuleList| == 10
    ensures forall i :: 0 <= i < 10 ==> Weight(Rules.DefaultRuleList[i]) == DefaultWeightValues[i]
  {
    var d, t := Rules.DefaultRuleList, Rules.DefaultRuleTable;
    assert forall i :: 0 <= i < 10 ==> Trunc(t[i].1) == DefaultWeightValues[i];
    forall i | 0 <= i < 10 ensures Weight(d[i]) == DefaultWeightValues[i] {
      RuleWeightOf(t[i].0, t[i].1, t[i].2);
    }
  }

  /** The default rules, which the page shows before any fetch, total 88, so the indicator is red. */
  lemma {:induction false} DefaultTotalWeight()
    ensures TotalWeight(RuleList(Effective(JNull))) == 88
    ensures TotalClass(TotalWeight(RuleList(Effective(JNull)))) == "red"
  {
    var d := Rules.DefaultRuleList;
    assert RuleList(Effective(JNull)) == d by {
      Rules.SettingsFields(JArr(d), JBool(true), JBool(true), Rules.DefaultTriangulation, Rules.DefaultPeerValidation);
    }
    DefaultRuleWeights();
    DefaultPrefixTotals(d);
  }

  /** The running totals of a list with the default weights. */
  lemma {:induction false} DefaultPrefixTotals(d: seq<Json>)
    requires |d| == 10
    requires forall i :: 0 <= i < 10 ==> Weight(d[i]) == DefaultWeightValues[i]
    ensures TotalWeight(d) == 88
  {
    TotalWeightOfValues(d, DefaultWeightValues);
    DefaultWeightSum();
  }

  /** The ten default weights, summed one prefix at a time. */
  lemma {:induction false} DefaultWeightSum()
    ensures IntSum(DefaultWeightValues) == 88
  {
    var w := [12, 10, 7, 12, 10, 9, 5, 5, 7, 11];
    assert w[..1][..0] == w[..0];
    assert IntSum(w[..1]) == 12;
    assert w[..2][..1] == w[..1];
    assert IntSum(w[..2]) == 22;
    assert w[..3][..2] == w[..2];
    assert IntSum(w[..3]) == 29;
    assert w[..4][..3] == w[..3];
    assert IntSum(w[..4]) == 41;
    assert w[..5][..4] == w[..4];
    assert IntSum(w[..5]) == 51;
    assert w[..6][..5] == w[..5];
    assert IntSum(w[..6]) == 60;
    assert w[..7][..6] == w[..6];
    assert IntSum(w[..7]) == 65;
    assert w[..8][..7] == w[..7];
    assert IntSum(w[..8]) == 70;
    assert w[..9][..8] == w[..8];
    assert IntSum(w[..9]) == 77;
    assert w[..10][..9] == w[..9];
    assert IntSum(w[..10]) == 88;
    assert w[..10] == w;
  }

  function IntSum(xs: seq<int>): int {
    if xs == [] then 0 else IntSum(xs[..|xs| - 1]) + xs[|xs| - 1]
  }

  /** A list's total is the sum of its rules' weights. */
  lemma {:induction false} TotalWeightOfValues(d: seq<Json>, w: seq<int>)
    requires |d| == |w|
    requires forall i :: 0 <= i < |d| ==> Weight(d[i]) == w[i]
    ensures TotalWeight(d) == IntSum(w)
  {
    if d != [] {
      var n := |d| - 1;
      TotalWeightOfValues(d[..n], w[..n]);
    }
  }

  // ---------------------------------------------------------------- the fetched payload

  const PayloadKeys: seq<string> := ["rules", "autoRecalc", "crossVerify", "triangulation", "peerValidation", "teamId"]

  /** The page's payload object. */
  function Payload(rules: Json, autoRecalc: Json, crossVerify: Json, triangulation: Json, peerValidation: Json, teamId: Json): Json {
    JObj([("rules", rules), ("autoRecalc", autoRecalc), ("crossVerify", crossVerify),
      ("triangulation", triangulation), ("peerValidation", peerValidation), ("teamId", teamId)])
  }

  /** Reading each field of a payload object. */
  lemma {:induction false} PayloadFields(rules: Json, autoRecalc: Json, crossVerify: Json, triangulation: Json, peerValidation: Json, teamId: Json)
    ensures var p := Payload(rules, autoRecalc, crossVerify, triangulation, peerValidation, teamId);
      && Field(p, "rules") == rules && Field(p, "autoRecalc") == autoRecalc && Field(p, "crossVerify") == crossVerify
      && Field(p, "triangulation") == triangulation && Field(p, "peerValidation") == peerValidation
      && Field(p, "teamId") == teamId
  {
    var p := Payload(rules, autoRecalc, crossVerify, triangulation, peerValidation, teamId);
    assert Distinct(p.fields) by {
      assert |PayloadKeys[0]| == 5 && |PayloadKeys[1]| == 10 && |PayloadKeys[2]| == 11;
      assert |PayloadKeys[3]| == 13 && |PayloadKeys[4]| == 14 && |PayloadKeys[5]| == 6;
      assert forall i :: 0 <= i < 6 ==> p.fields[i].0 == PayloadKeys[i];
    }
    GetDistinct(p.fields, 0);
    GetDistinct(p.fields, 1);
    GetDistinct(p.fields, 2);
    GetDistinct(p.fields, 3);
    GetDistinct(p.fields, 4);
    GetDistinct(p.fields, 5);
  }

  /** The defensive normalisation of the body `GET /api/rules` returned. */
  function Normalise(data: Json): Json {
    var rules, autoRecalc, crossVerify := Field(data, "rules"), Field(data, "autoRecalc"), Field(data, "crossVerify");
    Payload(
      if rules.JArr? then rules else JArr(Rules.DefaultRuleList),
      if autoRecalc.JBool? then autoRecalc else JBool(true),
      if crossVerify.JBool? then crossVerify else JBool(true),
      Or(Field(data, "triangulation"), Rules.DefaultTriangulation),
      Or(Field(data, "peerValidation"), Rules.DefaultPeerValidation),
      Or(Field(data, "teamId"), JNull))
  }

  /**
    Whatever was fetched, the normalised payload has an array of rules, boolean
    flags and truthy triangulation and peer-validation settings; every field
    that already had that shape is kept, and every other falls back to the default.
   */
  lemma {:induction false} NormaliseSpec(data: Json)
    ensures var p := Normalise(data);
      && Field(p, "rules").JArr? && Field(p, "autoRecalc").JBool? && Field(p, "crossVerify").JBool?
      && Truthy(Field(p, "triangulation")) && Truthy(Field(p, "peerValidation"))
      && (Field(data, "rules").JArr? <==> Field(p, "rules") == Field(data, "rules"))
      && (!Field(data, "rules").JArr? ==> Field(p, "rules") == JArr(Rules.DefaultRuleList))
      && (Field(data, "autoRecalc").JBool? <==> Field(p, "autoRecalc") == Field(data, "autoRecalc"))
      && (!Field(data, "autoRecalc").JBool? ==> Field(p, "autoRecalc") == JBool(true))
      && (Field(data, "crossVerify").JBool? <==> Field(p, "crossVerify") == Field(data, "crossVerify"))
      && (!Field(data, "crossVerify").JBool? ==> Field(p, "crossVerify") == JBool(true))
      && (Truthy(Field(data, "triangulation")) <==> Field(p, "triangulation") == Field(data, "triangulation"))
      && (Truthy(Field(data, "peerValidation")) <==> Field(p, "peerValidation") == Field(data, "peerValidation"))
  {
    var rules, autoRecalc, crossVerify := Field(data, "rules"), Field(data, "autoRecalc"), Field(data, "crossVerify");
    PayloadFields(
      if rules.JArr? then rules else JArr(Rules.DefaultRuleList),
      if autoRecalc.JBool? then autoRecalc else JBool(true),
      if crossVerify.JBool? then crossVerify else JBool(true),
      Or(Field(data, "triangulation"), Rules.DefaultTriangulation),
      Or(Field(data, "peerValidation"), Rules.DefaultPeerValidation),
      Or(Field(data, "teamId"), JNull));
    assert Truthy(Rules.DefaultTriangulation) && Truthy(Rules.DefaultPeerValidation);
  }

  /** Normalising a normalised payload changes nothing. */
  lemma {:induction false} NormaliseIdempotent(data: Json)
    ensures Normalise(Normalise(data)) == Normalise(data)
  {
    var rules, autoRecalc, crossVerify := Field(data, "rules"), Field(data, "autoRecalc"), Field(data, "crossVerify");
    var r := if rules.JArr? then rules else JArr(Rules.DefaultRuleList);
    var a := if autoRecalc.JBool? then autoRecalc else JBool(true);
    var c := if crossVerify.JBool? then crossVerify else JBool(true);
    var t := Or(Field(data, "triangulation"), Rules.DefaultTriangulation);
    var v := Or(Field(data, "peerValidation"), Rules.DefaultPeerValidation);
    var id := Or(Field(data, "teamId"), JNull);
    assert Normalise(data) == Payload(r, a, c, t, v, id);
    assert Truthy(t) && Truthy(v) by {
      assert Truthy(Rules.DefaultTriangulation) && Truthy(Rules.DefaultPeerValidation);
    }
    NormaliseKeepsPayload(r, a, c, t, v, id);
  }

  /** A payload whose every field already has its normalised shape is its own normalisation. */
  lemma {:induction false} NormaliseKeepsPayload(r: Json, a: Json, c: Json, t: Json, v: Json, id: Json)
    requires r.JArr? && a.JBool? && c.JBool? && Truthy(t) && Truthy(v) && (Truthy(id) || id == JNull)
    ensures Normalise(Payload(r, a, c, t, v, id)) == Payload(r, a, c, t, v, id)
  {
    PayloadFields(r, a, c, t, v, id);
  }

  /** A team without saved rules loads as the default settings, under its own id. */
  lemma {:induction false} LoadsDefaults(teamId: Json)
    requires Truthy(teamId)
    ensures Rules.ServeRules(teamId, Rules.DefaultRules).Sent?
    ensures Normalise(Rules.ServeRules(teamId, Rules.DefaultRules).value) ==
      Payload(JArr(Rules.DefaultRuleList), JBool(true), JBool(true), Rules.DefaultTriangulation, Rules.DefaultPeerValidation, teamId)
  {
    Rules.ServeDefaults(teamId, 0);
    Rules.ServeDefaults(teamId, 1);
    Rules.ServeDefaults(teamId, 2);
    Rules.ServeDefaults(teamId, 3);
    Rules.ServeDefaults(teamId, 4);
    Rules.SettingsFields(JArr(Rules.DefaultRuleList), JBool(true), JBool(true), Rules.DefaultTriangulation, Rules.DefaultPeerValidation);
  }

  // ---------------------------------------------------------------- the updaters

  /** `{ ...v, key: x }`. */
  function SpreadPut(v: Json, key: string, x: Json): Json {
    JObj(Put(Entries(v), key, x))
  }

  /** Spreading an object (or nothing) and setting one key changes that key only. */
  lemma {:induction false} SpreadPutFields(v: Json, key: string, x: Json)
    requires v.JObj? || v == JNull
    ensures Field(SpreadPut(v, key, x), key) == x
    ensures forall k :: k != key ==> Field(SpreadPut(v, key, x), k) == Field(v, k)
  {
    forall k ensures Field(SpreadPut(v, key, x), k) == if k == key then x else Field(v, k) {
      GetOrPut(Entries(v), key, x, k, JNull);
    }
  }

  /** `setRulesField`: the updater runs on the payload, or on a copy of the defaults while there is none. */
  function Base(prev: Json): Json {
    Rules.Nullish(prev, Rules.DefaultRules)
  }

  /** The slider of rule `i` reports `raw`: the rules are copied and rule `i` gets `value: parseInt(raw, 10) || 0`. */
  function SetRuleValue(cur: Json, i: int, raw: string): Json
    requires 0 <= i < |RuleList(cur)|
  {
    var rules := RuleList(cur);
    SpreadPut(cur, "rules", JArr(rules[i := SpreadPut(rules[i], "value", JNum(IntOrZero(JStr(raw)) as real))]))
  }

  /**
    A slider move replaces only `rules[i].value` (a non-number reads as 0):
    every other rule, every other field of rule `i` and every other setting is
    unchanged, and the total moves by the difference of that one weight.
   */
  lemma {:induction false} SliderSpec(cur: Json, i: int, raw: string)
    requires cur.JObj? && 0 <= i < |RuleList(cur)|
    ensures var next := SetRuleValue(cur, i, raw);
      var val := IntOrZero(JStr(raw));
      && |RuleList(next)| == |RuleList(cur)|
      && (forall j :: 0 <= j < |RuleList(cur)| && j != i ==> RuleList(next)[j] == RuleList(cur)[j])
      && (forall k :: k != "rules" ==> Field(next, k) == Field(cur, k))
      && (RuleList(cur)[i].JObj? ==>
            && Field(RuleList(next)[i], "value") == JNum(val as real)
            && forall k :: k != "value" ==> Field(RuleList(next)[i], k) == Field(RuleList(cur)[i], k))
      && TotalWeight(RuleList(next)) == TotalWeight(RuleList(cur)) - Weight(RuleList(cur)[i]) + val
  {
    var val := IntOrZero(JStr(raw));
    assert IntOrZero(JNum(val as real)) == val;
    RuleValueSet(cur, i, JNum(val as real));
  }

  /** Setting `rules[i].value` to `x` in a copy of the payload: the shape of `SliderSpec`, for any value. */
  lemma {:induction false} RuleValueSet(cur: Json, i: int, x: Json)
    requires cur.JObj? && 0 <= i < |RuleList(cur)|
    ensures var rules := RuleList(cur);
      var next := SpreadPut(cur, "rules", JArr(rules[i := SpreadPut(rules[i], "value", x)]));
      && |RuleList(next)| == |rules|
      && (forall j :: 0 <= j < |rules| && j != i ==> RuleList(next)[j] == rules[j])
      && (forall k :: k != "rules" ==> Field(next, k) == Field(cur, k))
      && (rules[i].JObj? ==>
            && Field(RuleList(next)[i], "value") == x
            && forall k :: k != "value" ==> Field(RuleList(next)[i], k) == Field(rules[i], k))
      && TotalWeight(RuleList(next)) == TotalWeight(rules) - Weight(rules[i]) + IntOrZero(x)
  {
    var rules := RuleList(cur);
    var rule := SpreadPut(rules[i], "value", x);
    var next := SpreadPut(cur, "rules", JArr(rules[i := rule]));
    SpreadPutFields(cur, "rules", JArr(rules[i := rule]));
    assert RuleList(next) == rules[i := rule];
    assert Weight(rule) == IntOrZero(x) by {
      GetOrPut(Entries(rules[i]), "value", x, "value", JNull);
    }
    if rules[i].JObj? {
      SpreadPutFields(rules[i], "value", x);
    }
    TotalWeightUpdate(rules, i, rule);
  }


  /** A checkbox: `{ ...cur, key: !cur.key }`. */
  function Toggle(cur: Json, key: string): Json {
    SpreadPut(cur, key, JBool(!Truthy(Field(cur, key))))
  }

  /** A toggle flips exactly one flag, and toggling twice restores a boolean flag. */
  lemma {:induction false} ToggleSpec(cur: Json, key: string)
    requires cur.JObj?
    ensures Field(Toggle(cur, key), key) == JBool(!Truthy(Field(cur, key)))
    ensures forall k :: k != key ==> Field(Toggle(cur, key), k) == Field(cur, k)
    ensures Field(cur, key).JBool? ==> Field(Toggle(Toggle(cur, key), key), key) == Field(cur, key)
  {
    var once := Toggle(cur, key);
    SpreadPutFields(cur, key, JBool(!Truthy(Field(cur, key))));
    SpreadPutFields(once, key, JBool(!Truthy(Field(once, key))));
  }

  /** A triangulation slider: `{ ...cur, triangulation: { ...(cur.triangulation || {}), key: v } }`. */
  function SetTriangulation(cur: Json, key: string, raw: string): Json {
    SpreadPut(cur, "triangulation", SpreadPut(Or(Field(cur, "triangulation"), JObj([])), key, JNum(IntOrZero(JStr(raw)) as real)))
  }

  /** A triangulation slider sets one threshold and keeps the others and every other setting. */
  lemma {:induction false} TriangulationSpec(cur: Json, key: string, raw: string)
    requires cur.JObj? && (Field(cur, "triangulation").JObj? || !Truthy(Field(cur, "triangulation")))
    ensures var next := SetTriangulation(cur, key, raw);
      && Field(Field(next, "triangulation"), key) == JNum(IntOrZero(JStr(raw)) as real)
      && (forall k :: k != key ==> Field(Field(next, "triangulation"), k) == Field(Field(cur, "triangulation"), k))
      && (forall k :: k != "triangulation" ==> Field(next, k) == Field(cur, k))
  {
    var tri := Or(Field(cur, "triangulation"), JObj([]));
    var v := JNum(IntOrZero(JStr(raw)) as real);
    var inner := SpreadPut(tri, key, v);
    assert SetTriangulation(cur, key, raw) == SpreadPut(cur, "triangulation", inner);
    SpreadPutFields(cur, "triangulation", inner);
    SpreadPutFields(tri, key, v);
    assert forall k :: Field(tri, k) == Field(Field(cur, "triangulation"), k);
  }

  /** The peer-validation select: `{ ...cur, peerValidation: value }`. */
  function SetPeerValidation(cur: Json, value: string): (next: Json)
    ensures cur.JObj? ==> Field(next, "peerValidation") == JStr(value)
    ensures cur.JObj? ==> forall k :: k != "peerValidation" ==> Field(next, k) == Field(cur, k)
  {
    var next := SpreadPut(cur, "peerValidation", JStr(value));
    assert cur.JObj? ==>
        Field(next, "peerValidation") == JStr(value) && forall k :: k != "peerValidation" ==> Field(next, k) == Field(cur, k) by {
      if cur.JObj? {
        SpreadPutFields(cur, "peerValidation", JStr(value));
      }
    }
    next
  }

  // ---------------------------------------------------------------- performance tags and the preview

  function PerformanceTag(score: real): string {
    if score >= 80.0 then "High Performer" else if score >= 60.0 then "Medium Performer" else "Low Performer"
  }

  function PerformanceClass(score: real): string {
    if score >= 80.0 then "high" else if score >= 60.0 then "medium" else "low"
  }

  /** The tag and its style class use the same thresholds, so they always agree. */
  lemma {:induction false} TagMatchesClass(score: real)
    ensures PerformanceClass(score) == "high" <==> score >= 80.0
    ensures PerformanceClass(score) == "medium" <==> 60.0 <= score < 80.0
    ensures PerformanceClass(score) == "low" <==> score < 60.0
    ensures PerformanceTag(score) == "High Performer" <==> PerformanceClass(score) == "high"
    ensures PerformanceTag(score) == "Medium Performer" <==> PerformanceClass(score) == "medium"
    ensures PerformanceTag(score) == "Low Performer" <==> PerformanceClass(score) == "low"
  {
  }

  /** One preview row: the name, the tag and class of the score, and the score rounded (`None` for NaN). */
  datatype PreviewRow = PreviewRow(name: Json, tag: string, tagClass: string, score: Option<int>)

  /** A relational comparison with NaN is false, so a NaN score is a low performer. */
  function PreviewOf(s: Json): PreviewRow {
    match ToNumber(Field(s, "score"))
    case Finite(x) => PreviewRow(Field(s, "name"), PerformanceTag(x), PerformanceClass(x), Some(JsRound(x)))
    case NaN => PreviewRow(Field(s, "name"), PerformanceTag(0.0), PerformanceClass(0.0), None)
  }

  /**
    The preview after a scores fetch (`None` when the fetch fails): the first
    five ranking entries, the previous preview when the body has no ranking
    array, and none after a failure.
   */
  function Preview(fetched: Option<Json>, previous: seq<PreviewRow>): (rows: seq<PreviewRow>)
    ensures fetched.None? ==> rows == []
    ensures fetched.Some? && Field(fetched.value, "ranking").JArr? ==>
      var ranking := Field(fetched.value, "ranking").items;
      && |rows| == (if |ranking| < 5 then |ranking| else 5)
      && forall i :: 0 <= i < |rows| ==> rows[i] == PreviewOf(ranking[i])
    ensures fetched.Some? && !Field(fetched.value, "ranking").JArr? ==> rows == previous
  {
    if fetched.None? then []
    else
      var ranking := Field(fetched.value, "ranking");
      if ranking.JArr? then
        var top := if |ranking.items| < 5 then ranking.items else ranking.items[..5];
        seq(|top|, i requires 0 <= i < |top| => PreviewOf(top[i]))
      else previous
  }
}
