/**
  `scoreStudents` and `aggregateTeamScores`: the five raw dimensions of every
  student, normalised across the team, weighted by the team's rules (or the
  defaults), rescaled so that the top total is 100, and ranked.
 */
module Scoring {
  import opened Wrappers
  import opened Reals
  import opened JsonValue
  import opened Aggregator

  // ---------------------------------------------------------------- dimensions and weights

  /** The keys of the `raw` object, in the order `Object.keys(raw[0])` lists them. */
  const Dims: seq<string> := ["codeCommits", "worklogHours", "documentation", "meetings", "codeQuality"]

  const DefaultWeights: Json := JObj([
    ("codeCommits", JNum(30.0)), ("worklogHours", JNum(25.0)), ("documentation", JNum(20.0)),
    ("meetings", JNum(15.0)), ("codeQuality", JNum(10.0))])

  /** `raw` for one student, in `Dims` order (its fields are already finite numbers). */
  function RawOf(r: Row): (v: seq<real>)
    ensures |v| == |Dims|
  {
    [ r.code.commitPct + r.code.editPct,
      r.attendance.hours,
      r.docs.words + 200.0 * r.docs.docCount,
      r.attendance.meetings,
      r.code.avgComplexity + r.code.pctHotspots + r.code.pctFunctions + r.code.pctLOC ]
  }

  /** `raw.map(r => r[d])` for the dimension at position `d`. */
  function Column(rows: seq<Row>, d: nat): (c: seq<real>)
    requires d < |Dims|
    ensures |c| == |rows|
  {
    seq(|rows|, i requires 0 <= i < |rows| => RawOf(rows[i])[d])
  }

  /** `normVectors`, one normalised column per dimension. */
  function NormVectors(rows: seq<Row>): (nv: seq<seq<real>>)
    ensures |nv| == |Dims|
    ensures forall d :: 0 <= d < |Dims| ==> nv[d] == Normalize(Column(rows, d))
  {
    seq(|Dims|, d requires 0 <= d < |Dims| => Normalize(Column(rows, d)))
  }

  /** `w = rules || defaultWeights`. */
  function EffectiveWeights(rules: Json): (w: Json)
    ensures Truthy(rules) ==> w == rules
    ensures !Truthy(rules) ==> w == DefaultWeights
  {
    Or(rules, DefaultWeights)
  }

  /** `(w[d] || 0)` as a factor; a value `Number()` cannot read is taken as 0. */
  function WeightOf(w: Json, d: string): real {
    match ToNumber(Or(Field(w, d), JNum(0.0)))
    case Finite(x) => x
    case NaN => 0.0
  }

  function Weights(w: Json): (ws: seq<real>)
    ensures |ws| == |Dims|
    ensures forall k :: 0 <= k < |Dims| ==> ws[k] == WeightOf(w, Dims[k])
  {
    seq(|Dims|, k requires 0 <= k < |Dims| => WeightOf(w, Dims[k]))
  }

  function Weighted(x: real, w: real): real {
    x * w
  }

  /** `dims.reduce((sum, d) => sum + v[d] * w[d], 0)`. */
  function WeightedSum(vals: seq<real>, ws: seq<real>): real
    requires |vals| == |ws|
  {
    if vals == [] then 0.0
    else
      var n := |vals| - 1;
      WeightedSum(vals[..n], ws[..n]) + Weighted(vals[n], ws[n])
  }

  /** The normalised dimensions of student `i`. */
  function NormsAt(nv: seq<seq<real>>, i: nat): (v: seq<real>)
    requires forall d :: 0 <= d < |nv| ==> i < |nv[d]|
    ensures |v| == |nv|
  {
    seq(|nv|, d requires 0 <= d < |nv| => nv[d][i])
  }

  /** `totals`: each student's weighted sum of normalised dimensions. */
  function Totals(rows: seq<Row>, ws: seq<real>): (t: seq<real>)
    requires |ws| == |Dims|
    ensures |t| == |rows|
  {
    var nv := NormVectors(rows);
    seq(|rows|, i requires 0 <= i < |rows| => WeightedSum(NormsAt(nv, i), ws))
  }

  /** `Math.max(...totals, 1)`. */
  function MaxTotal(totals: seq<real>): (m: real)
    ensures m >= 1.0
    ensures forall i :: 0 <= i < |totals| ==> totals[i] <= m
  {
    var all := totals + [1.0];
    assert all[|totals|] == 1.0;
    assert forall i :: 0 <= i < |totals| ==> all[i] == totals[i];
    Max(all)
  }

  function Percent(t: real, maxTotal: real): real
    requires maxTotal > 0.0
  {
    100.0 * (t / maxTotal)
  }

  /** `percent`: every total as a percentage of the top total, or of 1 when the top total is below 1. */
  function Scores(rows: seq<Row>, ws: seq<real>): (s: seq<real>)
    requires |ws| == |Dims|
    ensures |s| == |rows|
  {
    var t := Totals(rows, ws);
    var m := MaxTotal(t);
    seq(|rows|, i requires 0 <= i < |rows| => Percent(t[i], m))
  }

  // ---------------------------------------------------------------- ranking

  /** The order `.sort((a, b) => b.score - a.score)` puts students in: higher score first, ties by roster position. */
  predicate Before(scores: seq<real>, a: nat, b: nat)
    requires a < |scores| && b < |scores|
  {
    scores[a] > scores[b] || (scores[a] == scores[b] && a < b)
  }

  predicate Indices(scores: seq<real>, xs: seq<nat>) {
    forall i :: 0 <= i < |xs| ==> xs[i] < |scores|
  }

  predicate SortedBy(scores: seq<real>, xs: seq<nat>)
    requires Indices(scores, xs)
  {
    forall i, j :: 0 <= i < j < |xs| ==> Before(scores, xs[i], xs[j])
  }

  /** Inserts `x` after every entry that is not below it. */
  function Insert(scores: seq<real>, xs: seq<nat>, x: nat): (r: seq<nat>)
    requires x < |scores| && Indices(scores, xs)
    ensures |r| == |xs| + 1 && Indices(scores, r)
    ensures multiset(r) == multiset(xs) + multiset{x}
  {
    if xs == [] then [x]
    else if scores[x] > scores[xs[0]] then [x] + xs
    else
      assert xs == [xs[0]] + xs[1..];
      [xs[0]] + Insert(scores, xs[1..], x)
  }

  /** The positions `0..k-1`, stably sorted by descending score. */
  function SortOrder(scores: seq<real>, k: nat): (r: seq<nat>)
    requires k <= |scores|
    ensures |r| == k && Indices(scores, r)
    ensures multiset(r) == multiset(Range(k))
  {
    if k == 0 then []
    else
      assert Range(k) == Range(k - 1) + [k - 1];
      Insert(scores, SortOrder(scores, k - 1), k - 1)
  }

  function Range(k: nat): (r: seq<nat>)
    ensures |r| == k && forall i :: 0 <= i < k ==> r[i] == i
  {
    seq(k, i requires 0 <= i < k => i)
  }

  lemma {:induction false} InsertSorted(scores: seq<real>, xs: seq<nat>, x: nat)
    requires x < |scores| && Indices(scores, xs) && SortedBy(scores, xs)
    requires forall i :: 0 <= i < |xs| ==> xs[i] < x
    ensures SortedBy(scores, Insert(scores, xs, x))
  {
    if xs != [] && scores[x] <= scores[xs[0]] {
      var rest := xs[1..];
      assert forall i :: 0 <= i < |rest| ==> rest[i] == xs[i + 1];
      InsertSorted(scores, rest, x);
      var r := Insert(scores, xs, x);
      var tail := Insert(scores, rest, x);
      assert r == [xs[0]] + tail;
      forall j | 0 < j < |r| ensures Before(scores, r[0], r[j]) {
        assert r[j] == tail[j - 1];
        assert r[j] in multiset(rest) + multiset{x};
        if r[j] != x {
          assert r[j] in rest;
        }
      }
    }
  }

  /** The sort order is a permutation of the roster positions, sorted by `Before`. */
  lemma {:induction false} SortOrderSorted(scores: seq<real>, k: nat)
    requires k <= |scores|
    ensures SortedBy(scores, SortOrder(scores, k))
  {
    if k > 0 {
      SortOrderSorted(scores, k - 1);
      SortOrderStep(scores, k, SortOrder(scores, k - 1));
    }
  }

  /** Inserting position `k - 1` into the sorted order of the earlier positions keeps it sorted. */
  lemma {:induction false} SortOrderStep(scores: seq<real>, k: nat, xs: seq<nat>)
    requires 0 < k <= |scores| && Indices(scores, xs) && multiset(xs) == multiset(Range(k - 1)) && SortedBy(scores, xs)
    ensures SortedBy(scores, Insert(scores, xs, k - 1))
  {
    assert forall i :: 0 <= i < |xs| ==> xs[i] < k - 1 by {
      forall i | 0 <= i < |xs| ensures xs[i] < k - 1 {
        BelowRange(xs, k - 1, i);
      }
    }
    InsertSorted(scores, xs, k - 1);
  }

  /** An entry of a permutation of `0..k-1` is below `k`. */
  lemma {:induction false} BelowRange(xs: seq<nat>, k: nat, i: nat)
    requires multiset(xs) == multiset(Range(k)) && i < |xs|
    ensures xs[i] < k
  {
    assert xs[i] in multiset(xs);
    assert xs[i] in Range(k);
  }

  datatype RankEntry = RankEntry(
    rank: nat, name: string, email: Option<string>, github: Option<string>,
    breakdown: seq<(string, real)>, score: real, raw: seq<real>)

  /** The object `scoreStudents` returns. */
  datatype Scored = Scored(ranking: seq<RankEntry>, weights: Json, dims: seq<string>, studentsCount: nat)

  /** `dims`: `Object.keys(raw[0] || {})`, so none for an empty team. */
  function DimsOf(rows: seq<Row>): (d: seq<string>)
    ensures |d| == 0 || d == Dims
  {
    if rows == [] then [] else Dims
  }

  /** `scoreStudents(students, rules)`. */
  function ScoreStudents(rows: seq<Row>, rules: Json): (r: Scored)
    ensures |r.ranking| == |rows| && r.studentsCount == |rows|
  {
    var w := EffectiveWeights(rules);
    Scored(RankingFor(rows, Weights(w)), w, DimsOf(rows), |rows|)
  }

  /** `ranked`: the students sorted by their scores under weights `ws`. */
  function RankingFor(rows: seq<Row>, ws: seq<real>): (ranking: seq<RankEntry>)
    requires |ws| == |Dims|
    ensures |ranking| == |rows|
  {
    var scores := Scores(rows, ws);
    Ranking(rows, NormVectors(rows), scores, SortOrder(scores, |rows|))
  }

  /** The `ranked` entries, in the given order, with `rank: idx + 1`. */
  function Ranking(rows: seq<Row>, nv: seq<seq<real>>, scores: seq<real>, order: seq<nat>): (ranking: seq<RankEntry>)
    requires |nv| == |Dims| && forall d :: 0 <= d < |Dims| ==> |nv[d]| == |rows|
    requires |scores| == |rows| && Indices(scores, order)
    ensures |ranking| == |order|
    ensures forall k :: 0 <= k < |order| ==>
      ranking[k].rank == k + 1 && ranking[k].name == rows[order[k]].name &&
      ranking[k].email == rows[order[k]].email && ranking[k].github == rows[order[k]].github &&
      ranking[k].score == scores[order[k]]
  {
    var dims := DimsOf(rows);
    seq(|order|, k requires 0 <= k < |order| =>
      var i := order[k];
      RankEntry(k + 1, rows[i].name, rows[i].email, rows[i].github,
        seq(|dims|, d requires 0 <= d < |dims| => (Dims[d], nv[d][i])), scores[i], RawOf(rows[i])))
  }

  // ---------------------------------------------------------------- properties

  lemma {:induction false} WeightedSumNonNegative(vals: seq<real>, ws: seq<real>)
    requires |vals| == |ws|
    requires forall i :: 0 <= i < |vals| ==> vals[i] >= 0.0 && ws[i] >= 0.0
    ensures WeightedSum(vals, ws) >= 0.0
  {
    if vals != [] {
      var n := |vals| - 1;
      WeightedSumNonNegative(vals[..n], ws[..n]);
      assert Weighted(vals[n], ws[n]) >= 0.0;
    }
  }

  lemma {:induction false} WeightedSumZero(vals: seq<real>, ws: seq<real>)
    requires |vals| == |ws|
    requires forall i :: 0 <= i < |ws| ==> ws[i] == 0.0
    ensures WeightedSum(vals, ws) == 0.0
  {
    if vals != [] {
      var n := |vals| - 1;
      WeightedSumZero(vals[..n], ws[..n]);
      assert Weighted(vals[n], ws[n]) == 0.0;
    }
  }

  lemma {:induction false} PercentBounds(t: real, m: real)
    requires m >= 1.0 && 0.0 <= t <= m
    ensures 0.0 <= Percent(t, m) <= 100.0
    ensures Percent(t, m) == 100.0 <==> t == m
  {
    assert t / m <= 1.0;
    assert Percent(t, m) * m == 100.0 * t;
  }

  /** With non-negative weights each student's total is non-negative (normalised values lie in [0, 1]). */
  lemma {:induction false} TotalsNonNegative(rows: seq<Row>, ws: seq<real>)
    requires |ws| == |Dims| && forall k :: 0 <= k < |Dims| ==> ws[k] >= 0.0
    ensures forall i :: 0 <= i < |rows| ==> Totals(rows, ws)[i] >= 0.0
  {
    var nv := NormVectors(rows);
    forall d | 0 <= d < |Dims| ensures forall i :: 0 <= i < |rows| ==> 0.0 <= nv[d][i] <= 1.0 {
      NormalizeUnit(Column(rows, d));
    }
    forall i | 0 <= i < |rows| ensures Totals(rows, ws)[i] >= 0.0 {
      WeightedSumNonNegative(NormsAt(nv, i), ws);
    }
  }

  /** With non-negative weights every score lies in [0, 100]. */
  lemma {:induction false} ScoresBounded(rows: seq<Row>, ws: seq<real>)
    requires |ws| == |Dims| && forall k :: 0 <= k < |Dims| ==> ws[k] >= 0.0
    ensures forall i :: 0 <= i < |rows| ==> 0.0 <= Scores(rows, ws)[i] <= 100.0
  {
    TotalsNonNegative(rows, ws);
    var t := Totals(rows, ws);
    forall i | 0 <= i < |rows| ensures 0.0 <= Scores(rows, ws)[i] <= 100.0 {
      PercentBounds(t[i], MaxTotal(t));
    }
  }

  /** Against `Math.max(...totals, 1)`, some total reaches 100 percent if and only if the largest total is at least 1. */
  lemma {:induction false} TopPercent(t: seq<real>)
    requires |t| > 0
    ensures (exists i :: 0 <= i < |t| && Percent(t[i], MaxTotal(t)) == 100.0) <==> Max(t) >= 1.0
  {
    var m := MaxTotal(t);
    var all := t + [1.0];
    assert m == Max(all);
    var j :| 0 <= j < |all| && all[j] == m;
    if Max(t) >= 1.0 {
      assert m == Max(t) by {
        if j < |t| { assert all[j] == t[j]; } else { assert all[j] == 1.0; }
      }
      var k :| 0 <= k < |t| && t[k] == Max(t);
      PercentExact(t[k], m);
    } else {
      if j < |t| {
        assert false;
      }
      forall i | 0 <= i < |t| ensures Percent(t[i], m) != 100.0 {
        PercentExact(t[i], m);
      }
    }
  }

  lemma {:induction false} PercentExact(t: real, m: real)
    requires m > 0.0
    ensures Percent(t, m) == 100.0 <==> t == m
  {
    assert Percent(t, m) * m == 100.0 * t;
  }

  /** For a non-empty team some student scores exactly 100 if and only if the top total is at least 1. */
  lemma {:induction false} TopScore(rows: seq<Row>, ws: seq<real>)
    requires |rows| > 0 && |ws| == |Dims|
    ensures (exists i :: 0 <= i < |rows| && Scores(rows, ws)[i] == 100.0) <==> Max(Totals(rows, ws)) >= 1.0
  {
    var t := Totals(rows, ws);
    var s := Scores(rows, ws);
    assert forall i :: 0 <= i < |rows| ==> s[i] == Percent(t[i], MaxTotal(t));
    TopPercent(t);
  }

  /**
    A weights object with none of the five dimension keys (or only falsy values
    under them) makes every total 0, so every student scores 0.
   */
  lemma {:induction false} WeightlessRulesScoreZero(rows: seq<Row>, rules: Json)
    requires Truthy(rules)
    requires forall k :: 0 <= k < |Dims| ==> !Truthy(Field(rules, Dims[k]))
    ensures forall e :: e in ScoreStudents(rows, rules).ranking ==> e.score == 0.0
  {
    var ws := Weights(EffectiveWeights(rules));
    assert forall k :: 0 <= k < |Dims| ==> ws[k] == 0.0;
    var nv := NormVectors(rows);
    forall i | 0 <= i < |rows| ensures Totals(rows, ws)[i] == 0.0 {
      WeightedSumZero(NormsAt(nv, i), ws);
    }
  }

  /** The default weights, used exactly when `rules` is falsy. */
  lemma {:induction false} DefaultWeightsUsed(rows: seq<Row>, rules: Json)
    ensures Truthy(rules) ==> ScoreStudents(rows, rules).weights == rules
    ensures !Truthy(rules) ==> ScoreStudents(rows, rules).weights == DefaultWeights
  {
  }

  /** The default weights are 30/25/20/15/10 and total 100. */
  lemma {:induction false} DefaultWeightsTotal()
    ensures Weights(DefaultWeights) == [30.0, 25.0, 20.0, 15.0, 10.0]
    ensures Sum(Weights(DefaultWeights)) == 100.0
  {
    DefaultWeightValues();
    SumOfDefaults();
  }

  /** The five dimension names are distinct. */
  lemma {:induction false} DimsDistinct()
    ensures forall i, j :: 0 <= i < j < |Dims| ==> Dims[i] != Dims[j]
  {
    assert |Dims[0]| == 11 && |Dims[1]| == 12 && |Dims[2]| == 13 && |Dims[3]| == 8 && |Dims[4]| == 11;
    assert Dims[0][4] == 'C' && Dims[4][4] == 'Q';
  }

  lemma {:induction false} DefaultWeightValues()
    ensures Weights(DefaultWeights) == [30.0, 25.0, 20.0, 15.0, 10.0]
  {
    var f := DefaultWeights.fields;
    var vals := [30.0, 25.0, 20.0, 15.0, 10.0];
    assert forall k :: 0 <= k < |Dims| ==> f[k] == (Dims[k], JNum(vals[k]));
    DimsDistinct();
    var ws := Weights(DefaultWeights);
    forall k | 0 <= k < |Dims| ensures ws[k] == vals[k] {
      AssocList.GetFirst(f, k);
      assert Field(DefaultWeights, Dims[k]) == JNum(vals[k]);
    }
  }

  lemma {:induction false} SumOfDefaults()
    ensures Sum([30.0, 25.0, 20.0, 15.0, 10.0]) == 100.0
  {
    var a1, a2, a3, a4, a5 := [30.0], [30.0, 25.0], [30.0, 25.0, 20.0], [30.0, 25.0, 20.0, 15.0], [30.0, 25.0, 20.0, 15.0, 10.0];
    assert a1[..0] == [] && a2[..1] == a1 && a3[..2] == a2 && a4[..3] == a3 && a5[..4] == a4;
  }

  /** Sorted by `Before`, scores never increase and equal scores keep roster order. */
  lemma {:induction false} OrderDescending(scores: seq<real>, n: nat)
    requires n <= |scores|
    ensures var order := SortOrder(scores, n);
      (forall k, l :: 0 <= k < l < n ==> scores[order[k]] >= scores[order[l]]) &&
      (forall k, l :: 0 <= k < l < n && scores[order[k]] == scores[order[l]] ==> order[k] < order[l])
  {
    SortOrderSorted(scores, n);
    var order := SortOrder(scores, n);
    forall k, l | 0 <= k < l < n
      ensures scores[order[k]] >= scores[order[l]]
      ensures scores[order[k]] == scores[order[l]] ==> order[k] < order[l]
    {
      assert Before(scores, order[k], order[l]);
    }
  }

  /**
    Down the ranking of a stable sort order, scores never increase and students
    with equal scores keep roster order.
   */
  lemma {:induction false} RankingDescending(rows: seq<Row>, nv: seq<seq<real>>, scores: seq<real>, order: seq<nat>)
    requires |nv| == |Dims| && forall d :: 0 <= d < |Dims| ==> |nv[d]| == |rows|
    requires |scores| == |rows| && order == SortOrder(scores, |rows|)
    ensures var ranking := Ranking(rows, nv, scores, order);
      (forall k, l :: 0 <= k < l < |rows| ==> ranking[k].score >= ranking[l].score) &&
      (forall k, l :: 0 <= k < l < |rows| && ranking[k].score == ranking[l].score ==> order[k] < order[l])
  {
    OrderDescending(scores, |rows|);
  }

  /**
    The ranking has one entry per student: entry `k` has rank `k + 1` and is the
    student at position `order[k]` of the stable sort order, a permutation of
    the roster positions.
   */
  lemma {:induction false} RankingEntries(rows: seq<Row>, nv: seq<seq<real>>, scores: seq<real>, order: seq<nat>)
    requires |nv| == |Dims| && forall d :: 0 <= d < |Dims| ==> |nv[d]| == |rows|
    requires |scores| == |rows| && order == SortOrder(scores, |rows|)
    ensures multiset(order) == multiset(Range(|rows|))
    ensures var ranking := Ranking(rows, nv, scores, order);
      |ranking| == |rows| &&
      forall k :: 0 <= k < |rows| ==>
        ranking[k].rank == k + 1 && ranking[k].name == rows[order[k]].name &&
        ranking[k].email == rows[order[k]].email && ranking[k].score == scores[order[k]]
  {
  }

  /** `scoreStudents` ranks under the weights of `rules || defaultWeights`. */
  lemma {:induction false} ScoreStudentsRanking(rows: seq<Row>, rules: Json)
    ensures ScoreStudents(rows, rules).ranking == RankingFor(rows, Weights(EffectiveWeights(rules)))
    ensures ScoreStudents(rows, rules).dims == (if rows == [] then [] else Dims)
  {
  }

  // ---------------------------------------------------------------- aggregateTeamScores

  /** `loadTeamRulesIfAny`: `team.rules || null`. */
  function TeamRules(team: Json): (rules: Json)
    ensures Truthy(rules) <==> Truthy(Field(team, "rules"))
  {
    Or(Field(team, "rules"), JNull)
  }

  /** A roster entry read from `team.students`; aliases are read from an array of strings. */
  function StudentOf(s: Json): Student {
    var al := Field(s, "aliases");
    var items := if al.JArr? then al.items else [];
    Student(StrOf(Field(s, "name")), StrOf(Field(s, "email")), StrOf(Field(s, "github")),
      seq(|items|, i requires 0 <= i < |items| => StrOf(items[i])))
  }

  /** `teams.find(t => t.id === teamId)`: the position of the first team with that id, or -1. */
  function FindTeam(teams: seq<Json>, teamId: Json): (i: int)
    ensures -1 <= i < |teams|
    ensures i == -1 <==> forall j :: 0 <= j < |teams| ==> Field(teams[j], "id") != teamId
    ensures i >= 0 ==> Field(teams[i], "id") == teamId && forall j :: 0 <= j < i ==> Field(teams[j], "id") != teamId
  {
    if teams == [] then -1
    else if Field(teams[0], "id") == teamId then 0
    else
      var i := FindTeam(teams[1..], teamId);
      assert forall j :: 1 <= j < |teams| ==> teams[j] == teams[1..][j - 1];
      if i == -1 then -1 else i + 1
  }

  datatype TeamScores = TeamScores(id: Json, name: Json, code: Json, repo: Json, scored: Scored)

  /**
    `aggregateTeamScores({teamId, rootDir})` over the loaded teams.json,
    finalStats.json, fileRegistry.json and parsed files.
   */
  function AggregateTeamScores(teams: seq<Json>, teamId: Json, finalStats: Json, registry: seq<Json>, files: map<string, Json>)
    : (r: Result<TeamScores>)
    ensures r.Err? <==> (FindTeam(teams, teamId) == -1 || !Field(teams[FindTeam(teams, teamId)], "students").JArr?)
    ensures FindTeam(teams, teamId) == -1 ==> r == Err("Team not found")
    ensures r.Ok? ==> r.value.id == teamId
  {
    var i := FindTeam(teams, teamId);
    if i == -1 then Err("Team not found")
    else
      var team := teams[i];
      var st := Field(team, "students");
      if !st.JArr? then Err("team.students is not an array")
      else
        var students := seq(|st.items|, k requires 0 <= k < |st.items| => StudentOf(st.items[k]));
        var rows := AggregateSpec(students, finalStats, registry, files);
        Ok(TeamScores(Field(team, "id"), Field(team, "name"), Field(team, "code"), Field(team, "repo"),
          ScoreStudents(rows, TeamRules(team))))
  }

  /** A found team is scored with one ranking entry per roster student, under its own rules when it has any. */
  lemma {:induction false} AggregateTeamScoresFound(teams: seq<Json>, teamId: Json, finalStats: Json, registry: seq<Json>, files: map<string, Json>)
    requires FindTeam(teams, teamId) != -1
    requires Field(teams[FindTeam(teams, teamId)], "students").JArr?
    ensures var team := teams[FindTeam(teams, teamId)];
      var r := AggregateTeamScores(teams, teamId, finalStats, registry, files);
      r.Ok? && |r.value.scored.ranking| == |Field(team, "students").items| &&
      r.value.scored.studentsCount == |Field(team, "students").items| &&
      r.value.scored.weights == (if Truthy(Field(team, "rules")) then Field(team, "rules") else DefaultWeights)
  {
  }
}
