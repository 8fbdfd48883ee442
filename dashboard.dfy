/**
  The dashboard page's derived values over the ranking that `GET /api/scores`
  returns: the search filter, the three KPI tiles, the contributor badge and
  the colour of a score.
 */
module DashboardPage {
  import opened Wrappers
  import opened Strings
  import opened JsonValue
  import opened Reals
  import RuleSettingsPage
  import opened Lists

  // ---------------------------------------------------------------- the search filter

  /** `(v || "")` of a field the ranking fills with a string or leaves empty. */
  function TextOf(v: Json): string {
    if v.JStr? then v.s else ""
  }

  /** The lowercased name or email contains the query. */
  predicate Matches(s: Json, q: string) {
    Contains(ToLower(TextOf(Field(s, "name"))), q) || Contains(ToLower(TextOf(Field(s, "email"))), q)
  }

  /** The students shown for a search text. */
  function FilterStudents(list: seq<Json>, query: string): seq<Json> {
    var q := ToLower(Trim(query));
    if q == "" then list else Select(list, s => Matches(s, q))
  }

  /**
    A blank search (after trimming) shows the whole ranking; any other shows
    in ranking order the students whose name or email contains the trimmed,
    lowercased query.
   */
  lemma {:induction false} FilterSpec(list: seq<Json>, query: string, s: Json)
    ensures ToLower(Trim(query)) == "" ==> FilterStudents(list, query) == list
    ensures ToLower(Trim(query)) != "" ==>
      (s in FilterStudents(list, query) <==> s in list && Matches(s, ToLower(Trim(query))))
    ensures |FilterStudents(list, query)| <= |list|
  {
    var q := ToLower(Trim(query));
    SelectExactly(list, s => Matches(s, q), s);
    SelectShorter(list, s => Matches(s, q));
  }

  /** Filtering a ranking split in two is filtering each part, in order. */
  lemma {:induction false} FilterAppend(a: seq<Json>, b: seq<Json>, query: string)
    ensures FilterStudents(a + b, query) == FilterStudents(a, query) + FilterStudents(b, query)
  {
    var q := ToLower(Trim(query));
    SelectAppend(a, b, s => Matches(s, q));
  }

  // ---------------------------------------------------------------- the KPI tiles

  /** `r.score || 0` for the numeric scores the ranking carries. */
  function ScoreValue(r: Json): real {
    var score := Field(r, "score");
    if score.JNum? then score.n else 0.0
  }

  /** The terms of the average. */
  function ScoreValues(list: seq<Json>): (xs: seq<real>)
    ensures |xs| == |list| && forall i :: 0 <= i < |list| ==> xs[i] == ScoreValue(list[i])
  {
    seq(|list|, i requires 0 <= i < |list| => ScoreValue(list[i]))
  }

  /** `r.score >= 80`: the comparison converts the score with `Number()`, and NaN compares false. */
  predicate IsHigh(r: Json) {
    match ToNumber(Field(r, "score"))
    case Finite(x) => x >= 80.0
    case NaN => false
  }

  /** `Math.round(r.raw?.codeCommits || 0)`; `None` for NaN. */
  function CommitCount(r: Json): Option<int> {
    match ToNumber(Or(Field(Field(r, "raw"), "codeCommits"), JNum(0.0)))
    case Finite(x) => Some(JsRound(x))
    case NaN => None
  }

  /** A sum of numbers where one NaN (`None`) makes the whole sum NaN. */
  function SumOrNaN<T>(list: seq<T>, term: T -> Option<int>): Option<int> {
    if list == [] then Some(0)
    else
      var prev, c := SumOrNaN(list[..|list| - 1], term), term(list[|list| - 1]);
      if prev.None? || c.None? then None else Some(prev.value + c.value)
  }

  /** The three tiles. */
  datatype Kpis = Kpis(avg: real, high: string, commits: Option<int>)

  /** `kpis`: zeros for an empty ranking, else the mean rounded to one decimal, `k/n` and the commits sum. */
  function KpisOf(list: seq<Json>): Kpis {
    if |list| == 0 then Kpis(0.0, "0/0", Some(0))
    else
      var mean := Sum(ScoreValues(list)) / |list| as real;
      Kpis(RoundToTenth(mean),
        NatToString(CountWhere(list, IsHigh)) + "/" + NatToString(|list|),
        SumOrNaN(list, CommitCount))
  }

  /** The sum is a number exactly when every term is. */
  lemma {:induction false} SumOrNaNSpec<T>(list: seq<T>, term: T -> Option<int>)
    ensures SumOrNaN(list, term).Some? <==> forall i :: 0 <= i < |list| ==> term(list[i]).Some?
  {
    if list != [] {
      var n := |list| - 1;
      SumOrNaNSpec(list[..n], term);
      assert forall i :: 0 <= i < n ==> list[..n][i] == list[i];
    }
  }

  /** The sum of a concatenation is the sum of the sums (NaN if either is). */
  lemma {:induction false} SumOrNaNAppend<T>(a: seq<T>, b: seq<T>, term: T -> Option<int>)
    ensures SumOrNaN(a + b, term) ==
      (if SumOrNaN(a, term).Some? && SumOrNaN(b, term).Some? then Some(SumOrNaN(a, term).value + SumOrNaN(b, term).value) else None)
    decreases |b|
  {
    if b == [] {
      assert a + b == a;
    } else {
      var n := |b| - 1;
      assert (a + b)[..|a + b| - 1] == a + b[..n];
      assert (a + b)[|a + b| - 1] == b[n];
      SumOrNaNAppend(a, b[..n], term);
    }
  }

  /** An empty ranking shows 0, "0/0" and 0. */
  lemma {:induction false} EmptyKpis()
    ensures KpisOf([]) == Kpis(0.0, "0/0", Some(0))
  {
  }

  /**
    For a non-empty ranking the average is within 0.05 of the mean score, and
    scores in [0,100] give an average in [0,100].
   */
  lemma {:induction false} KpisAverage(list: seq<Json>)
    requires |list| > 0
    ensures var mean := Sum(ScoreValues(list)) / |list| as real;
      mean - 0.05 < KpisOf(list).avg <= mean + 0.05
    ensures (forall i :: 0 <= i < |list| ==> 0.0 <= ScoreValue(list[i]) <= 100.0) ==>
      0.0 <= KpisOf(list).avg <= 100.0
  {
    var xs := ScoreValues(list);
    var mean := Sum(xs) / |list| as real;
    assert KpisOf(list).avg == RoundToTenth(mean);
    RoundToTenthSpec(mean);
    if forall i :: 0 <= i < |list| ==> 0.0 <= ScoreValue(list[i]) <= 100.0 {
      assert forall i :: 0 <= i < |xs| ==> 0.0 <= xs[i] <= 100.0;
      MeanOfPercentages(xs);
    }
  }

  /**
    The high tile of a non-empty ranking reads `k/n`, where `k <= n` counts
    the scores of at least 80; the commits tile is a number exactly when each
    student's commits are.
   */
  lemma {:induction false} KpisCounts(list: seq<Json>)
    requires |list| > 0
    ensures KpisOf(list).high == NatToString(CountWhere(list, IsHigh)) + "/" + NatToString(|list|)
    ensures CountWhere(list, IsHigh) <= |list|
    ensures KpisOf(list).commits.Some? <==> forall i :: 0 <= i < |list| ==> CommitCount(list[i]).Some?
  {
    CountWhereBounds(list, IsHigh);
    SumOrNaNSpec(list, CommitCount);
  }

  /** The mean of values in [0, 100] is in [0, 100]. */
  lemma {:induction false} MeanOfPercentages(xs: seq<real>)
    requires |xs| > 0 && forall i :: 0 <= i < |xs| ==> 0.0 <= xs[i] <= 100.0
    ensures 0.0 <= Sum(xs) / |xs| as real <= 100.0
  {
    SumBetween(xs, 0.0, 100.0);
    DivideBetween(Sum(xs), |xs| as real, 0.0, 100.0);
  }

  /** `Math.round(x * 10) / 10`. */
  function RoundToTenth(x: real): real {
    JsRound(x * 10.0) as real / 10.0
  }

  /** Rounding to one decimal moves a value by at most 0.05 and keeps it within [0, 100]. */
  lemma {:induction false} RoundToTenthSpec(x: real)
    ensures x - 0.05 < RoundToTenth(x) <= x + 0.05
    ensures 0.0 <= x <= 100.0 ==> 0.0 <= RoundToTenth(x) <= 100.0
  {
    var r := JsRound(x * 10.0);
    assert x * 10.0 - 0.5 < r as real <= x * 10.0 + 0.5;
    if 0.0 <= x <= 100.0 {
      assert 0.0 <= x * 10.0 <= 1000.0;
    }
  }

  // ---------------------------------------------------------------- badge and colour

  /** `badgeFromScore(s.score)`: a missing or NaN score compares false, so it is "low". */
  function BadgeFromScore(score: Json): string {
    match ToNumber(score)
    case Finite(x) => if x >= 80.0 then "high" else if x >= 60.0 then "medium" else "low"
    case NaN => "low"
  }

  /** The badge on the dashboard and the class of the preview row on the rules page agree for every ranking entry. */
  lemma {:induction false} BadgeMatchesPreview(s: Json)
    ensures BadgeFromScore(Field(s, "score")) == RuleSettingsPage.PreviewOf(s).tagClass
  {
  }

  /** `scoreColor(s.score)`: six bands at 90, 80, 70, 60 and 50. */
  function ScoreColor(score: Json): string {
    var x := match ToNumber(score) case Finite(x) => x case NaN => 0.0;
    if x >= 90.0 then "#16a34a"
    else if x >= 80.0 then "#22c55e"
    else if x >= 70.0 then "#2563eb"
    else if x >= 60.0 then "#ca8a04"
    else if x >= 50.0 then "#ea580c"
    else "#dc2626"
  }

  /** The colour bands, best first. */
  const ColorBands: seq<string> := ["#16a34a", "#22c55e", "#2563eb", "#ca8a04", "#ea580c", "#dc2626"]

  /** The band index a score's colour has in `ColorBands` (0 is best). */
  function ColorBand(score: Json): (b: nat)
    ensures b < |ColorBands| && ColorBands[b] == ScoreColor(score)
  {
    var x := match ToNumber(score) case Finite(x) => x case NaN => 0.0;
    if x >= 90.0 then 0 else if x >= 80.0 then 1 else if x >= 70.0 then 2
    else if x >= 60.0 then 3 else if x >= 50.0 then 4 else 5
  }

  /** A higher score never gets a worse colour band. */
  lemma {:induction false} ColorBandMonotone(x: real, y: real)
    requires x <= y
    ensures ColorBand(JNum(y)) <= ColorBand(JNum(x))
  {
  }

  /** The two green colours mark exactly the high contributors. */
  lemma {:induction false} GreenIsHigh(score: Json)
    ensures ScoreColor(score) in {"#16a34a", "#22c55e"} <==> BadgeFromScore(score) == "high"
  {
  }
}
