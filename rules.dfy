/**
  The team rule settings of backend/routes/rules.js: the active-team pointer,
  the default rule set, the weight table derived from a list of rules, the
  GET handler that serves a team's rules and the field-wise merge the POST
  handler saves. The stores these handlers read and write are in module Teams.
 */
module Rules {
  import opened Wrappers
  import opened Strings
  import opened JsonValue
  import opened AssocList
  import opened Reals
  import Scoring
  import Aggregator

  // ---------------------------------------------------------------- the active-team pointer

  /**
    `readActiveId()` over the parsed contents of activeTeam.json (`None` when the
    file is missing or is not JSON, as an unquoted id is): a JSON string is the
    id itself, anything else is read through `?.id ?? null`.
   */
  function ReadActiveId(file: Option<Json>): (id: Json)
    ensures file.None? ==> id == JNull
    ensures file.Some? && file.value.JStr? ==> id == file.value
    ensures file.Some? && !file.value.JStr? ==> id == Field(file.value, "id")
  {
    match file
    case None => JNull
    case Some(v) => if v.JStr? then v else Field(v, "id")
  }

  /** `writeActiveId(id)`: the pointer is always written as `{id}`. */
  function ActiveFile(id: Json): Json {
    JObj([("id", id)])
  }

  /** Whatever id is written, reading the pointer back gives it; the legacy string form reads the same. */
  lemma {:induction false} ActivePointerRoundTrip(id: Json, s: string)
    ensures ReadActiveId(Some(ActiveFile(id))) == id
    ensures ReadActiveId(Some(JStr(s))) == ReadActiveId(Some(ActiveFile(JStr(s))))
  {
  }

  // ---------------------------------------------------------------- DEFAULT_RULES

  function Rule(name: string, value: real, desc: string): Json {
    JObj([("name", JStr(name)), ("value", JNum(value)), ("desc", JStr(desc))])
  }

  /** The ten default rules as (name, value, desc). */
  const DefaultRuleTable: seq<(string, real, string)> := [
    ("Total Lines of Code", 12.0, "Percentage of code written in code base"),
    ("Total Edited Code", 10.0, "Percentage of total edited code (additions and deletions)"),
    ("Total Commits", 7.0, "Percentage of commits made"),
    ("Total Functions Written", 12.0, "Percentage of functions written in codebase"),
    ("Total Hotspot Contributed", 10.0, "Percentage of hotspots written in codebase (hotspots = above average function complexity)"),
    ("Code Complexity", 9.0, "Average code complexity"),
    ("Average Sentence Length", 5.0, "Average sentence length"),
    ("Sentence Complexity", 5.0, "Sentence complexity"),
    ("Word Count", 7.0, "Word Count"),
    ("Readability", 11.0, "Readability")
  ]

  const DefaultRuleList: seq<Json> := RulesOf(DefaultRuleTable)

  function RulesOf(table: seq<(string, real, string)>): (rules: seq<Json>)
    ensures |rules| == |table|
    ensures forall i :: 0 <= i < |table| ==> rules[i] == Rule(table[i].0, table[i].1, table[i].2)
  {
    seq(|table|, i requires 0 <= i < |table| => Rule(table[i].0, table[i].1, table[i].2))
  }

  const DefaultTriangulation: Json := JObj([("codeWorklog", JNum(80.0)), ("meetingDoc", JNum(70.0)), ("activityDist", JNum(60.0))])

  const DefaultPeerValidation: Json := JStr("Statistical analysis")

  /** The five keys of a saved rule settings object, in the order they are written. */
  const SettingsKeys: seq<string> := ["rules", "autoRecalc", "crossVerify", "triangulation", "peerValidation"]

  function Settings(rules: Json, autoRecalc: Json, crossVerify: Json, triangulation: Json, peerValidation: Json): (s: Json)
  {
    JObj([("rules", rules), ("autoRecalc", autoRecalc), ("crossVerify", crossVerify),
      ("triangulation", triangulation), ("peerValidation", peerValidation)])
  }

  const DefaultRules: Json := Settings(JArr(DefaultRuleList), JBool(true), JBool(true), DefaultTriangulation, DefaultPeerValidation)

  /** `Number(r.value || 0)` as a real, NaN counting as 0 (as `|| 0` would read it). */
  function RuleNumber(r: Json): real {
    match ToNumber(Or(Field(r, "value"), JNum(0.0)))
    case Finite(x) => x
    case NaN => 0.0
  }

  /** `Number(rule.value || 0)` of a rule with a numeric value is that value. */
  lemma {:induction false} RuleNumberOf(name: string, value: real, desc: string)
    ensures RuleNumber(Rule(name, value, desc)) == value
    ensures RuleKey(Rule(name, value, desc)) == Some(ToLower(Trim(name)))
  {
    RuleFields(name, value, desc);
  }

  /** Reading the fields of a rule object. */
  lemma {:induction false} RuleFields(name: string, value: real, desc: string)
    ensures Field(Rule(name, value, desc), "name") == JStr(name)
    ensures Field(Rule(name, value, desc), "value") == JNum(value)
  {
    var r := Rule(name, value, desc);
    assert Field(r, "value") == JNum(value) by {
      GetFirst(r.fields, 1);
    }
    assert Field(r, "name") == JStr(name) by {
      GetFirst(r.fields, 0);
    }
  }

  /** The ten default weights add up to 88, not 100. */
  lemma {:induction false} DefaultRulesTotal()
    ensures |DefaultRuleList| == 10
    ensures Sum(seq(10, i requires 0 <= i < 10 => RuleNumber(DefaultRuleList[i]))) == 88.0
  {
    var xs := seq(10, i requires 0 <= i < 10 => RuleNumber(DefaultRuleList[i]));
    var vals := [12.0, 10.0, 7.0, 12.0, 10.0, 9.0, 5.0, 5.0, 7.0, 11.0];
    assert forall i :: 0 <= i < 10 ==> DefaultRuleTable[i].1 == vals[i];
    forall i | 0 <= i < 10 ensures xs[i] == vals[i] {
      RuleNumberOf(DefaultRuleTable[i].0, DefaultRuleTable[i].1, DefaultRuleTable[i].2);
    }
    assert xs == vals;
    SumOfDefaultRules();
  }

  /** The ten default values, summed one prefix at a time. */
  lemma {:induction false} SumOfDefaultRules()
    ensures Sum([12.0, 10.0, 7.0, 12.0, 10.0, 9.0, 5.0, 5.0, 7.0, 11.0]) == 88.0
  {
    var v := [12.0, 10.0, 7.0, 12.0, 10.0, 9.0, 5.0, 5.0, 7.0, 11.0];
    assert v[..1][..0] == v[..0];
    assert Sum(v[..1]) == 12.0;
    assert v[..2][..1] == v[..1];
    assert Sum(v[..2]) == 22.0;
    assert v[..3][..2] == v[..2];
    assert Sum(v[..3]) == 29.0;
    assert v[..4][..3] == v[..3];
    assert Sum(v[..4]) == 41.0;
    assert v[..5][..4] == v[..4];
    assert Sum(v[..5]) == 51.0;
    assert v[..6][..5] == v[..5];
    assert Sum(v[..6]) == 60.0;
    assert v[..7][..6] == v[..6];
    assert Sum(v[..7]) == 65.0;
    assert v[..8][..7] == v[..7];
    assert Sum(v[..8]) == 70.0;
    assert v[..9][..8] == v[..8];
    assert Sum(v[..9]) == 77.0;
    assert v[..10][..9] == v[..9];
    assert Sum(v[..10]) == 88.0;
    assert v[..10] == v;
  }

  // ---------------------------------------------------------------- weightsFromActiveTeam

  /** `r.name.trim().toLowerCase()`; `None` where that throws (no string name). */
  function RuleKey(r: Json): Option<string> {
    var name := Field(r, "name");
    if name.JStr? then Some(ToLower(Trim(name.s))) else None
  }

  /** `Number(r.value || 0)` as the response serialises it: NaN becomes `null`. */
  function RuleValue(r: Json): Json {
    match ToNumber(Or(Field(r, "value"), JNum(0.0)))
    case Finite(x) => JNum(x)
    case NaN => JNull
  }

  /** Every rule has a string name, so the `forEach` does not throw. */
  predicate NamedRules(rules: seq<Json>) {
    forall i :: 0 <= i < |rules| ==> RuleKey(rules[i]).Some?
  }

  /** The entry a rule writes into the weight table; `None` where computing its key throws. */
  function RuleEntry(r: Json): Option<(string, Json)> {
    match RuleKey(r)
    case None => None
    case Some(key) => Some((key, RuleValue(r)))
  }

  /**
    The weight table the `forEach` of `weightsFromActiveTeam` fills: each rule
    writes its value under its normalised name; `None` where a rule without a
    string name makes it throw.
   */
  function WeightTable(rules: seq<Json>): Option<seq<(string, Json)>> {
    WriteEach(rules, RuleEntry)
  }

  /** `weightsFromActiveTeam(ruleArr)`: `Ok(None)` for a non-array, `Err` where it throws. */
  function Weights(ruleArr: Json): Result<Option<seq<(string, Json)>>> {
    if !ruleArr.JArr? then Ok(None)
    else match WeightTable(ruleArr.items)
      case None => Err("TypeError: r.name.trim is not a function")
      case Some(w) => Ok(Some(w))
  }

  /** The `forEach` loop of `weightsFromActiveTeam`. */
  method WeightsFromActiveTeam(ruleArr: Json) returns (r: Result<Option<seq<(string, Json)>>>)
    ensures r == Weights(ruleArr)
  {
    if !ruleArr.JArr? {
      return Ok(None);
    }
    var rules := ruleArr.items;
    var weights: seq<(string, Json)> := [];
    var i := 0;
    while i < |rules|
      invariant 0 <= i <= |rules|
      invariant WriteEach(rules[..i], RuleEntry) == Some(weights)
    {
      assert rules[..i + 1][..i] == rules[..i];
      var key := RuleKey(rules[i]);
      if key.None? {
        assert !AllEntries(rules, RuleEntry) by {
          assert RuleEntry(rules[i]).None?;
        }
        WriteEachSpec(rules, RuleEntry, "");
        return Err("TypeError: r.name.trim is not a function");
      }
      weights := Put(weights, key.value, RuleValue(rules[i]));
      i := i + 1;
    }
    assert rules[..i] == rules;
    return Ok(Some(weights));
  }

  /**
    The weight table exists exactly when every rule has a string name; it then
    holds each normalised name once, and exactly the names of the rules.
   */
  lemma {:induction false} WeightsSpec(rules: seq<Json>, key: string)
    ensures WeightTable(rules).Some? <==> NamedRules(rules)
    ensures NamedRules(rules) ==>
      && Distinct(WeightTable(rules).value)
      && (HasKey(WeightTable(rules).value, key) <==> exists i :: 0 <= i < |rules| && RuleKey(rules[i]) == Some(key))
  {
    WriteEachSpec(rules, RuleEntry, key);
    assert AllEntries(rules, RuleEntry) <==> NamedRules(rules) by {
      assert forall i :: 0 <= i < |rules| ==> (RuleEntry(rules[i]).Some? <==> RuleKey(rules[i]).Some?);
    }
    if NamedRules(rules) {
      assert forall i :: 0 <= i < |rules| ==> (RuleEntry(rules[i]).value.0 == key <==> RuleKey(rules[i]) == Some(key));
    }
  }

  /** Every default rule has a string name. */
  lemma {:induction false} DefaultRulesNamed()
    ensures NamedRules(DefaultRuleList)
  {
    forall i | 0 <= i < |DefaultRuleList| ensures RuleKey(DefaultRuleList[i]).Some? {
      RuleNumberOf(DefaultRuleTable[i].0, DefaultRuleTable[i].1, DefaultRuleTable[i].2);
    }
  }

  /** The last rule carrying a normalised name decides that name's weight. */
  lemma {:induction false} LaterRuleWins(rules: seq<Json>, j: int)
    requires NamedRules(rules) && 0 <= j < |rules|
    requires forall l :: j < l < |rules| ==> RuleKey(rules[l]) != RuleKey(rules[j])
    ensures WeightTable(rules).Some?
    ensures Get(WeightTable(rules).value, RuleKey(rules[j]).value) == Some(RuleValue(rules[j]))
  {
    assert AllEntries(rules, RuleEntry) by {
      assert forall i :: 0 <= i < |rules| ==> RuleEntry(rules[i]).Some?;
    }
    assert forall l :: j < l < |rules| ==> RuleEntry(rules[l]).value.0 != RuleEntry(rules[j]).value.0;
    WriteEachLast(rules, RuleEntry, j);
  }

  // ---------------------------------------------------------------- GET /api/rules

  /** `weightsFromActiveTeam(...) || {}` as the object the handlers send. */
  function WeightsJson(w: Option<seq<(string, Json)>>): Json {
    JObj(w.GetOr([]))
  }

  /** `res.json({ teamId, ...payload, weights })`, or the error the weight table throws. */
  function ServeRules(teamId: Json, payload: Json): (r: Reply<Json>)
    ensures r.Sent? <==> Weights(Field(payload, "rules")).Ok?
  {
    match Weights(Field(payload, "rules"))
    case Err(msg) => Refused(500, msg)
    case Ok(w) => Sent(200, JObj(Put(PutAll([("teamId", teamId)], Entries(payload)), "weights", WeightsJson(w))))
  }

  /** GET /api/rules: the query's team, else the active one; a team without rules is served the defaults. */
  function GetRules(teams: seq<Json>, activeId: Json, query: Json): (r: Reply<Json>)
    ensures !Truthy(Or(query, activeId)) ==> r == Refused(400, "No active team and no teamId supplied.")
    ensures Truthy(Or(query, activeId)) && Scoring.FindTeam(teams, Or(query, activeId)) == -1 ==> r == Refused(404, "Team not found")
    ensures Truthy(Or(query, activeId)) && Scoring.FindTeam(teams, Or(query, activeId)) >= 0 ==>
      var team := teams[Scoring.FindTeam(teams, Or(query, activeId))];
      r == ServeRules(Or(query, activeId), Or(Field(team, "rules"), DefaultRules))
  {
    var teamId := Or(query, activeId);
    if !Truthy(teamId) then Refused(400, "No active team and no teamId supplied.")
    else
      var i := Scoring.FindTeam(teams, teamId);
      if i == -1 then Refused(404, "Team not found")
      else ServeRules(teamId, Or(Field(teams[i], "rules"), DefaultRules))
  }

  /**
    A team with no saved rules is served the default settings: every one of the
    five settings, the team id, and the default weight table.
   */
  lemma {:induction false} ServeDefaults(teamId: Json, k: int)
    requires 0 <= k < |SettingsKeys|
    ensures ServeRules(teamId, DefaultRules).Sent?
    ensures var body := ServeRules(teamId, DefaultRules).value;
      && Field(body, SettingsKeys[k]) == Field(DefaultRules, SettingsKeys[k])
      && Field(body, "teamId") == teamId
  {
    var r, a, c := JArr(DefaultRuleList), JBool(true), JBool(true);
    assert Keys(DefaultRules.fields) == SettingsKeys by {
      SettingsKeysOf(r, a, c, DefaultTriangulation, DefaultPeerValidation);
    }
    assert Weights(Field(DefaultRules, "rules")).Ok? by {
      SettingsFields(r, a, c, DefaultTriangulation, DefaultPeerValidation);
      DefaultRulesNamed();
      WeightsSpec(DefaultRuleList, "");
    }
    SpreadSettings(teamId, DefaultRules, k);
  }

  /** The spread response of a settings object carries each of its five settings and the team id. */
  lemma {:induction false} SpreadSettings(teamId: Json, payload: Json, k: int)
    requires payload.JObj? && Keys(payload.fields) == SettingsKeys && 0 <= k < |SettingsKeys|
    requires Weights(Field(payload, "rules")).Ok?
    ensures var body := ServeRules(teamId, payload).value;
      && Field(body, SettingsKeys[k]) == Field(payload, SettingsKeys[k])
      && Field(body, "teamId") == teamId
  {
    var w := Weights(Field(payload, "rules")).value;
    var spread := PutAll([("teamId", teamId)], payload.fields);
    var key := SettingsKeys[k];
    assert ServeRules(teamId, payload).value == JObj(Put(spread, "weights", WeightsJson(w)));
    SettingsDistinct(payload);
    assert "teamId" !in SettingsKeys && "weights" !in SettingsKeys;
    assert HasKey(payload.fields, key) && !HasKey(payload.fields, "teamId") by {
      assert payload.fields[k].0 == key;
    }
    GetPutAll([("teamId", teamId)], payload.fields, key);
    GetPutAll([("teamId", teamId)], payload.fields, "teamId");
    LastValueAt(payload.fields, k);
    GetDistinct(payload.fields, k);
    GetOrPut(spread, "weights", WeightsJson(w), key, JNull);
    GetOrPut(spread, "weights", WeightsJson(w), "teamId", JNull);
  }

  // ---------------------------------------------------------------- POST /api/rules

  /** `a ?? b`: only `null`/`undefined` fall through. */
  function Nullish(a: Json, b: Json): (r: Json)
    ensures a != JNull ==> r == a
    ensures a == JNull ==> r == b
  {
    if a == JNull then b else a
  }

  /** The destructuring default `teamId = active`: it applies only where the body has no `teamId`. */
  function PostTeamId(body: Json, activeId: Json): Json {
    if body.JObj? && HasKey(body.fields, "teamId") then Field(body, "teamId") else activeId
  }

  /** `Array.isArray(v) ? v : fallback`. */
  function ArrayOr(v: Json, fallback: Json): Json {
    if v.JArr? then v else fallback
  }

  /** `typeof v === "boolean" ? v : fallback`. */
  function BoolOr(v: Json, fallback: Json): Json {
    if v.JBool? then v else fallback
  }

  /** The rule settings POST saves: each field from the body if valid, else the current one, else the default. */
  function MergedRules(current: Json, body: Json): (m: Json)
    ensures m.JObj? && |m.fields| == |SettingsKeys|
  {
    var cur := Or(current, JObj([]));
    Settings(
      ArrayOr(Field(body, "rules"), Or(Field(cur, "rules"), JArr(DefaultRuleList))),
      BoolOr(Field(body, "autoRecalc"), Nullish(Field(cur, "autoRecalc"), JBool(true))),
      BoolOr(Field(body, "crossVerify"), Nullish(Field(cur, "crossVerify"), JBool(true))),
      Or(Or(Field(body, "triangulation"), Field(cur, "triangulation")), DefaultTriangulation),
      Or(Or(Field(body, "peerValidation"), Field(cur, "peerValidation")), DefaultPeerValidation))
  }

  /** Reading each setting of a settings object. */
  lemma {:induction false} SettingsFields(rules: Json, autoRecalc: Json, crossVerify: Json, triangulation: Json, peerValidation: Json)
    ensures var s := Settings(rules, autoRecalc, crossVerify, triangulation, peerValidation);
      && Field(s, "rules") == rules && Field(s, "autoRecalc") == autoRecalc && Field(s, "crossVerify") == crossVerify
      && Field(s, "triangulation") == triangulation && Field(s, "peerValidation") == peerValidation
  {
    var s := Settings(rules, autoRecalc, crossVerify, triangulation, peerValidation);
    SettingsDistinct(s);
    GetDistinct(s.fields, 0);
    GetDistinct(s.fields, 1);
    GetDistinct(s.fields, 2);
    GetDistinct(s.fields, 3);
    GetDistinct(s.fields, 4);
  }

  /** The five settings keys are distinct. */
  lemma {:induction false} SettingsDistinct(s: Json)
    requires s.JObj? && Keys(s.fields) == SettingsKeys
    ensures Distinct(s.fields)
  {
    assert |SettingsKeys[0]| == 5 && |SettingsKeys[1]| == 10 && |SettingsKeys[2]| == 11;
    assert |SettingsKeys[3]| == 13 && |SettingsKeys[4]| == 14;
    assert forall i :: 0 <= i < 5 ==> s.fields[i].0 == SettingsKeys[i];
  }

  /**
    The merge honours each body field exactly when it is valid: an array of
    rules, boolean flags, truthy triangulation and peer-validation values.
   */
  lemma {:induction false} MergeTakesValidBody(current: Json, body: Json)
    ensures var m := MergedRules(current, body);
      && (Field(body, "rules").JArr? ==> Field(m, "rules") == Field(body, "rules"))
      && (Field(body, "autoRecalc").JBool? ==> Field(m, "autoRecalc") == Field(body, "autoRecalc"))
      && (Field(body, "crossVerify").JBool? ==> Field(m, "crossVerify") == Field(body, "crossVerify"))
      && (Truthy(Field(body, "triangulation")) ==> Field(m, "triangulation") == Field(body, "triangulation"))
      && (Truthy(Field(body, "peerValidation")) ==> Field(m, "peerValidation") == Field(body, "peerValidation"))
  {
    var cur := Or(current, JObj([]));
    var r := ArrayOr(Field(body, "rules"), Or(Field(cur, "rules"), JArr(DefaultRuleList)));
    var a := BoolOr(Field(body, "autoRecalc"), Nullish(Field(cur, "autoRecalc"), JBool(true)));
    var c := BoolOr(Field(body, "crossVerify"), Nullish(Field(cur, "crossVerify"), JBool(true)));
    var t := Or(Or(Field(body, "triangulation"), Field(cur, "triangulation")), DefaultTriangulation);
    var p := Or(Or(Field(body, "peerValidation"), Field(cur, "peerValidation")), DefaultPeerValidation);
    assert MergedRules(current, body) == Settings(r, a, c, t, p);
    SettingsFields(r, a, c, t, p);
    assert Field(body, "rules").JArr? ==> r == Field(body, "rules");
    assert Field(body, "autoRecalc").JBool? ==> a == Field(body, "autoRecalc");
    assert Field(body, "crossVerify").JBool? ==> c == Field(body, "crossVerify");
    assert Truthy(Field(body, "triangulation")) ==> t == Field(body, "triangulation");
    assert Truthy(Field(body, "peerValidation")) ==> p == Field(body, "peerValidation");
  }

  /** With nothing valid in the body and no current settings, the merge stores exactly the defaults. */
  lemma {:induction false} MergeOfNothingIsDefault(current: Json)
    requires !Truthy(current)
    ensures MergedRules(current, JObj([])) == DefaultRules
  {
  }

  /** Saving an empty body over saved settings keeps them: the merge is idempotent. */
  lemma {:induction false} MergeIdempotent(current: Json, body: Json)
    ensures MergedRules(MergedRules(current, body), JObj([])) == MergedRules(current, body)
  {
    var cur := Or(current, JObj([]));
    var r := ArrayOr(Field(body, "rules"), Or(Field(cur, "rules"), JArr(DefaultRuleList)));
    var a := BoolOr(Field(body, "autoRecalc"), Nullish(Field(cur, "autoRecalc"), JBool(true)));
    var c := BoolOr(Field(body, "crossVerify"), Nullish(Field(cur, "crossVerify"), JBool(true)));
    var t := Or(Or(Field(body, "triangulation"), Field(cur, "triangulation")), DefaultTriangulation);
    var p := Or(Or(Field(body, "peerValidation"), Field(cur, "peerValidation")), DefaultPeerValidation);
    assert MergedRules(current, body) == Settings(r, a, c, t, p);
    MergeKeepsSettings(r, a, c, t, p);
  }

  /** Settings whose every field is already valid survive a merge with an empty body. */
  lemma {:induction false} MergeKeepsSettings(r: Json, a: Json, c: Json, t: Json, p: Json)
    requires Truthy(r) && a != JNull && c != JNull && Truthy(t) && Truthy(p)
    ensures MergedRules(Settings(r, a, c, t, p), JObj([])) == Settings(r, a, c, t, p)
  {
    SettingsFields(r, a, c, t, p);
  }

  lemma {:induction false} SettingsKeysOf(r: Json, a: Json, c: Json, t: Json, p: Json)
    ensures Keys(Settings(r, a, c, t, p).fields) == SettingsKeys
  {
  }

  /**
    The saved settings have none of the five dimension keys the aggregator
    weighs, so once a team's rules are saved every student of it scores 0.
   */
  lemma {:induction false} SavedRulesScoreZero(rows: seq<Aggregator.Row>, current: Json, body: Json)
    ensures forall e :: e in Scoring.ScoreStudents(rows, MergedRules(current, body)).ranking ==> e.score == 0.0
  {
    var m := MergedRules(current, body);
    assert Keys(m.fields) == SettingsKeys by {
      var f := m.fields;
      SettingsKeysOf(f[0].1, f[1].1, f[2].1, f[3].1, f[4].1);
      assert m == Settings(f[0].1, f[1].1, f[2].1, f[3].1, f[4].1);
    }
    forall k | 0 <= k < |Scoring.Dims| ensures Field(m, Scoring.Dims[k]) == JNull {
      assert Scoring.Dims[k] !in SettingsKeys;
      assert !HasKey(m.fields, Scoring.Dims[k]) by {
        assert forall i :: 0 <= i < 5 ==> m.fields[i].0 == SettingsKeys[i];
      }
    }
    Scoring.WeightlessRulesScoreZero(rows, m);
  }

  /** `teams[idx].rules = saved`: the team keeps its position and every other field. */
  function WithRules(team: Json, rules: Json): (t: Json)
    ensures team.JObj? ==> Field(t, "rules") == rules
    ensures forall k :: k != "rules" ==> Field(t, k) == Field(team, k)
  {
    if team.JObj? then
      var t := JObj(Put(team.fields, "rules", rules));
      assert forall k :: Field(t, k) == if k == "rules" then rules else Field(team, k) by {
        forall k ensures Field(t, k) == if k == "rules" then rules else Field(team, k) {
          GetOrPut(team.fields, "rules", rules, k, JNull);
        }
      }
      t
    else team
  }

  /** The POST response `{ ok: true, teamId, rules: saved, weights }`, or the error the weight table throws. */
  function SaveReply(teamId: Json, saved: Json): (r: Reply<Json>)
    ensures r.Sent? <==> Weights(Field(saved, "rules")).Ok?
    ensures r.Refused? ==> r.status == 500
  {
    match Weights(Field(saved, "rules"))
    case Err(msg) => Refused(500, msg)
    case Ok(w) => Sent(200, JObj([("ok", JBool(true)), ("teamId", teamId), ("rules", saved), ("weights", WeightsJson(w))]))
  }
}
