/**
  `combine_json` of backend/main.py: the per-author dictionaries of
  finalStats.json, built from output.json (complexity metrics and LOC shares)
  and commits.json (one entry per commit), with commit and edit percentages.
  The JSON files are inputs; the model returns what is written, or the error
  Python raises: AttributeError on a value that is not a dict where `.get` or
  `.items()` is called, TypeError on an unhashable author, and the errors of
  `update()` and `int()` on values they cannot read.
 */
module FinalStats {
  import opened Wrappers
  import opened Strings
  import opened JsonValue
  import opened AssocList
  import opened Reals

  /** A Python dict of JSON values, in insertion order. */
  type Dict = seq<(string, Json)>

  /** Python truthiness of a JSON value: empty strings, lists and dicts are falsy. */
  predicate PyTruthy(v: Json) {
    match v
    case JNull => false
    case JBool(b) => b
    case JNum(n) => n != 0.0
    case JStr(s) => s != ""
    case JArr(items) => items != []
    case JObj(fields) => fields != []
  }

  /** The fields of a dict; other values have none here. */
  function Fields(v: Json): Dict {
    if v.JObj? then v.fields else []
  }

  // ---------------------------------------------------------------- int()

  /** The digits of a literal, its underscores dropped. */
  function DigitsOnly(d: string): (r: string)
    ensures forall i :: 0 <= i < |r| ==> IsDigit(r[i])
    ensures (forall i :: 0 <= i < |d| ==> IsDigit(d[i])) ==> r == d
  {
    if d == [] then []
    else
      assert d == [d[0]] + d[1..];
      (if IsDigit(d[0]) then [d[0]] else []) + DigitsOnly(d[1..])
  }

  /** A decimal literal as `int()` reads it: digits, with single underscores allowed between two digits. */
  predicate DecimalDigits(d: string) {
    |d| > 0 && IsDigit(d[0]) && IsDigit(d[|d| - 1]) &&
    forall i :: 0 <= i < |d| ==> IsDigit(d[i]) || (d[i] == '_' && i + 1 < |d| && IsDigit(d[i + 1]))
  }

  /** The text after an optional sign. */
  function Unsigned(t: string): (r: string)
    ensures |r| <= |t|
  {
    if t != [] && (t[0] == '-' || t[0] == '+') then t[1..] else t
  }

  /**
    `int(s)` of a string: surrounding whitespace, an optional sign, then a
    decimal literal; `None` where Python raises ValueError.
   */
  function ParseInt(s: string): (r: Option<int>)
    ensures r.Some? <==> DecimalDigits(Unsigned(Trim(s)))
  {
    var t := Trim(s);
    var d := Unsigned(t);
    if !DecimalDigits(d) then None
    else
      var v: int := DigitsValue(DigitsOnly(d));
      Some(if t[0] == '-' then -v else v)
  }

  /** `str(n)` of a Python int. */
  function IntText(n: int): string {
    if n < 0 then "-" + NatToString(-n) else NatToString(n)
  }

  /** `int(str(n)) == n`, also with whitespace around the text. */
  lemma {:induction false} ParseIntOfText(n: int, pad: string)
    requires forall i :: 0 <= i < |pad| ==> IsSpace(pad[i])
    ensures ParseInt(pad + IntText(n) + pad) == Some(n)
  {
    var m: nat := if n < 0 then -n else n;
    var digits := NatToString(m);
    NatToStringRoundTrip(m);
    var sign := if n < 0 then "-" else "";
    var t := sign + digits;
    assert IntText(n) == t;
    SignedEdges(sign, digits);
    TrimPadded(pad, t);
    ParseIntSigned(pad + t + pad, n < 0, digits);
  }

  lemma {:induction false} SignedEdges(sign: string, digits: string)
    requires sign == "-" || sign == ""
    requires |digits| > 0 && forall i :: 0 <= i < |digits| ==> IsDigit(digits[i])
    ensures var t := sign + digits; t != [] && !IsSpace(t[0]) && !IsSpace(t[|t| - 1])
  {
    var t := sign + digits;
    assert t[|t| - 1] == digits[|digits| - 1];
    assert t[0] == '-' || t[0] == digits[0];
  }

  /** `int()` of a sign and a run of digits. */
  lemma {:induction false} ParseIntSigned(s: string, neg: bool, digits: string)
    requires |digits| > 0 && forall i :: 0 <= i < |digits| ==> IsDigit(digits[i])
    requires Trim(s) == (if neg then "-" else "") + digits
    ensures ParseInt(s) == Some(if neg then 0 - DigitsValue(digits) else DigitsValue(digits))
  {
    var t := Trim(s);
    assert Unsigned(t) == digits;
    PlainDigits(digits);
    assert t[0] == '-' <==> neg;
  }

  /** A run of digits is a literal, and nothing is dropped from it. */
  lemma {:induction false} PlainDigits(d: string)
    requires |d| > 0 && forall i :: 0 <= i < |d| ==> IsDigit(d[i])
    ensures DecimalDigits(d) && DigitsOnly(d) == d
  {
  }

  /** Whitespace around a text with non-space ends is what `strip` removes. */
  lemma {:induction false} TrimPadded(pad: string, t: string)
    requires forall i :: 0 <= i < |pad| ==> IsSpace(pad[i])
    requires t != [] && !IsSpace(t[0]) && !IsSpace(t[|t| - 1])
    ensures Trim(pad + t + pad) == t
  {
    var s := pad + t + pad;
    assert s == pad + (t + pad);
    assert TrimStart(s) == t + pad by { TrimStartPad(pad, t + pad); }
    assert TrimEnd(t + pad) == t by { TrimEndPad(t, pad); }
  }

  lemma {:induction false} TrimStartPad(pad: string, u: string)
    requires forall i :: 0 <= i < |pad| ==> IsSpace(pad[i])
    requires u != [] && !IsSpace(u[0])
    ensures TrimStart(pad + u) == u
  {
    if pad != [] {
      assert (pad + u)[1..] == pad[1..] + u;
      TrimStartPad(pad[1..], u);
    }
  }

  lemma {:induction false} TrimEndPad(u: string, pad: string)
    requires forall i :: 0 <= i < |pad| ==> IsSpace(pad[i])
    requires u != [] && !IsSpace(u[|u| - 1])
    ensures TrimEnd(u + pad) == u
  {
    if pad != [] {
      var n := |pad| - 1;
      assert (u + pad)[..|u + pad| - 1] == u + pad[..n];
      TrimEndPad(u, pad[..n]);
    }
  }

  /** Python 3.6 and later read `1_000` as 1000. */
  lemma {:induction false} ParseIntUnderscore()
    ensures ParseInt("1_000") == Some(1000)
  {
    var d := "1_000";
    assert Trim(d) == d by { TrimOfNonSpaceEdges(d); }
    assert Unsigned(d) == d;
    UnderscoreLiteral();
    assert DigitsValue("1000") == 1000 by {
      assert "1000"[..3] == "100" && "100"[..2] == "10" && "10"[..1] == "1";
    }
  }

  lemma {:induction false} UnderscoreLiteral()
    ensures DecimalDigits("1_000") && DigitsOnly("1_000") == "1000"
  {
    var d := "1_000";
    assert d[0] == '1' && d[1] == '_' && d[2] == '0' && d[3] == '0' && d[4] == '0';
    assert d[1..] == "_000" && "_000"[1..] == "000";
    PlainDigits("000");
  }

  /** Python `int(v)`: `None` where it raises. */
  function PyInt(v: Json): (r: Option<int>)
    ensures v.JNum? ==> r == Some(Trunc(v.n))
    ensures v.JNull? || v.JArr? || v.JObj? ==> r.None?
  {
    match v
    case JNull => None
    case JBool(b) => Some(if b then 1 else 0)
    case JNum(n) => Some(Trunc(n))
    case JStr(s) => ParseInt(s)
    case _ => None
  }

  lemma {:induction false} PyIntOfInt(n: int)
    ensures PyInt(JNum(n as real)) == Some(n)
  {
  }

  // ---------------------------------------------------------------- the author dictionaries

  /** `merged`: a `defaultdict(dict)` from author to their fields. */
  type Merged = seq<(string, Dict)>

  /** `merged[author].update(fields)`. */
  function Update(m: Merged, author: string, fields: Dict): Merged {
    Put(m, author, PutAll(GetOr(m, author, []), fields))
  }

  /** `for author, fields in pairs: merged[author].update(fields)`. */
  function UpdateAll(m: Merged, pairs: seq<(string, Dict)>): Merged {
    if pairs == [] then m
    else
      var n := |pairs| - 1;
      Update(UpdateAll(m, pairs[..n]), pairs[n].0, pairs[n].1)
  }

  /** `merged[author]["percentage_of_LOC"] = loc` for every pair of the `%LOC` map. */
  function SetLocAll(m: Merged, locs: Dict): Merged {
    if locs == [] then m
    else
      var n := |locs| - 1;
      Update(SetLocAll(m, locs[..n]), locs[n].0, [("percentage_of_LOC", locs[n].1)])
  }

  /** `d.setdefault("percentage_of_LOC", 0.0)`. */
  function DefaultLoc(d: Dict): (r: Dict)
    ensures HasKey(r, "percentage_of_LOC")
  {
    if HasKey(d, "percentage_of_LOC") then d
    else
      PutHasKey(d, "percentage_of_LOC", JNum(0.0), "percentage_of_LOC");
      Put(d, "percentage_of_LOC", JNum(0.0))
  }

  /** The `setdefault` loop over every author. */
  function DefaultLocAll(m: Merged): (r: Merged)
    ensures Keys(r) == Keys(m)
    ensures forall i :: 0 <= i < |r| ==> HasKey(r[i].1, "percentage_of_LOC")
  {
    seq(|m|, i requires 0 <= i < |m| => (m[i].0, DefaultLoc(m[i].1)))
  }

  /** `(outputData or {})`. */
  function OutputOrEmpty(outputData: Json): Json {
    if PyTruthy(outputData) then outputData else JObj([])
  }

  /** `(outputData or {}).get(key, {})` as a dict, or `None` where `.get` or `.items()` raises. */
  function OutputDict(outputData: Json, key: string): Option<Dict> {
    var od := OutputOrEmpty(outputData);
    if !od.JObj? then None
    else
      var v := GetOr(od.fields, key, JObj([]));
      if v.JObj? then Some(v.fields) else None
  }

  /**
    What `dict.update` accepts as an author's metrics here: a dict, or an
    empty string or list, which add nothing.
   */
  predicate Updatable(v: Json) {
    v.JObj? || v == JStr("") || v == JArr([])
  }

  predicate MetricsUpdatable(authors: Dict) {
    forall i :: 0 <= i < |authors| ==> Updatable(authors[i].1)
  }

  /**
    The output.json passes run without raising: the data is a dict or falsy,
    its `authors` and `%LOC` are dicts, and each author's metrics can be
    merged with `update`.
   */
  predicate OutputReadable(outputData: Json) {
    OutputDict(outputData, "authors").Some? && OutputDict(outputData, "%LOC").Some? &&
    MetricsUpdatable(OutputDict(outputData, "authors").value)
  }

  function MetricPairs(authors: Dict): (r: seq<(string, Dict)>)
    ensures |r| == |authors|
  {
    seq(|authors|, i requires 0 <= i < |authors| => (authors[i].0, Fields(authors[i].1)))
  }

  const AuthorsRaise := "AttributeError: output.json or its authors is not a dict"
  const UpdateRaises := "update() of an author's metrics that are not a dict"
  const LocRaises := "AttributeError: output.json's %LOC is not a dict"

  /** `merged` after the output.json passes: authors' metrics, their LOC shares, and the 0.0 default. */
  function FromOutput(outputData: Json): (r: Result<Merged>)
    ensures r.Ok? <==> OutputReadable(outputData)
  {
    var authors := OutputDict(outputData, "authors");
    if authors.None? then Err(AuthorsRaise)
    else if !MetricsUpdatable(authors.value) then Err(UpdateRaises)
    else
      var locs := OutputDict(outputData, "%LOC");
      if locs.None? then Err(LocRaises)
      else Ok(DefaultLocAll(SetLocAll(UpdateAll([], MetricPairs(authors.value)), locs.value)))
  }

  // ---------------------------------------------------------------- commit statistics

  /** One author's entry of `commitJSONstat`. */
  datatype CommitStat = CommitStat(commits: nat, additions: int, deletions: int)

  /** `commit.get("author") or "Unknown"`. */
  function CommitAuthor(commit: Json): string
    requires commit.JObj?
  {
    var a := GetOr(commit.fields, "author", JNull);
    if PyTruthy(a) then StrOf(a) else "Unknown"
  }

  /** `commitJSONstat[author]` needs a hashable key: a non-empty list or dict as the author raises TypeError. */
  predicate AuthorHashable(commit: Json)
    requires commit.JObj?
  {
    var a := GetOr(commit.fields, "author", JNull);
    !PyTruthy(a) || !(a.JArr? || a.JObj?)
  }

  /** `commit.get("stats") or {}`. */
  function CommitStats(commit: Json): Json
    requires commit.JObj?
  {
    var s := GetOr(commit.fields, "stats", JNull);
    if PyTruthy(s) then s else JObj([])
  }

  /** `int(stats.get(key, 0))`: `None` where `.get` (stats not a dict) or `int()` raises. */
  function StatInt(commit: Json, key: string): Option<int>
    requires commit.JObj?
  {
    var s := CommitStats(commit);
    if s.JObj? then PyInt(GetOr(s.fields, key, JNum(0.0))) else None
  }

  function Additions(commit: Json): Option<int>
    requires commit.JObj?
  {
    StatInt(commit, "additions")
  }

  function Deletions(commit: Json): Option<int>
    requires commit.JObj?
  {
    StatInt(commit, "deletions")
  }

  /** One iteration of the commits loop runs without raising. */
  predicate CommitReadable(commit: Json) {
    commit.JObj? && AuthorHashable(commit) && Additions(commit).Some? && Deletions(commit).Some?
  }

  /** Every iteration of the commits loop runs without raising. */
  predicate CommitsReadable(commits: seq<Json>) {
    forall i :: 0 <= i < |commits| ==> CommitReadable(commits[i])
  }

  lemma {:induction false} ReadablePrefix(commits: seq<Json>, n: int)
    requires CommitsReadable(commits) && 0 <= n <= |commits|
    ensures CommitsReadable(commits[..n])
  {
    assert forall i :: 0 <= i < n ==> commits[..n][i] == commits[i];
  }

  lemma {:induction false} ReadableSnoc(commits: seq<Json>, n: int)
    requires 0 <= n < |commits| && CommitsReadable(commits[..n]) && CommitReadable(commits[n])
    ensures CommitsReadable(commits[..n + 1])
  {
    assert forall i :: 0 <= i < n ==> commits[..n + 1][i] == commits[..n][i];
  }

  const NoCommits := CommitStat(0, 0, 0)

  /** One commit of `author` with the given line counts. */
  function AddStat(st: seq<(string, CommitStat)>, author: string, additions: int, deletions: int): seq<(string, CommitStat)> {
    var prev := GetOr(st, author, NoCommits);
    Put(st, author, CommitStat(prev.commits + 1, prev.additions + additions, prev.deletions + deletions))
  }

  function AddCommit(st: seq<(string, CommitStat)>, commit: Json): seq<(string, CommitStat)>
    requires CommitReadable(commit)
  {
    AddStat(st, CommitAuthor(commit), Additions(commit).value, Deletions(commit).value)
  }

  lemma {:induction false} AddStatGet(st: seq<(string, CommitStat)>, author: string, additions: int, deletions: int, a: string)
    ensures GetOr(AddStat(st, author, additions, deletions), a, NoCommits).commits ==
      GetOr(st, a, NoCommits).commits + if a == author then 1 else 0
    ensures HasKey(AddStat(st, author, additions, deletions), a) <==> HasKey(st, a) || a == author
    ensures Distinct(st) ==> Distinct(AddStat(st, author, additions, deletions))
  {
    var prev := GetOr(st, author, NoCommits);
    var v := CommitStat(prev.commits + 1, prev.additions + additions, prev.deletions + deletions);
    var r := Put(st, author, v);
    assert AddStat(st, author, additions, deletions) == r;
    assert GetOr(r, a, NoCommits) == if a == author then v else GetOr(st, a, NoCommits) by {
      GetOrPut(st, author, v, a, NoCommits);
    }
    assert HasKey(r, a) <==> HasKey(st, a) || a == author by {
      PutHasKey(st, author, v, a);
    }
    assert Distinct(st) ==> Distinct(r) by {
      if Distinct(st) {
        PutDistinct(st, author, v);
      }
    }
  }

  /** `commitJSONstat` after the loop over commits.json. */
  function CommitStatsOf(commits: seq<Json>): seq<(string, CommitStat)>
    requires CommitsReadable(commits)
  {
    if commits == [] then []
    else
      var n := |commits| - 1;
      ReadablePrefix(commits, n);
      AddCommit(CommitStatsOf(commits[..n]), commits[n])
  }

  function StatFields(s: CommitStat): Dict {
    [("commits", JNum(s.commits as real)), ("additions", JNum(s.additions as real)), ("deletions", JNum(s.deletions as real))]
  }

  function StatPairs(st: seq<(string, CommitStat)>): (r: seq<(string, Dict)>)
    ensures |r| == |st|
  {
    seq(|st|, i requires 0 <= i < |st| => (st[i].0, StatFields(st[i].1)))
  }

  /** `sum(v["commits"] ...)`, before `or 1`. */
  function TotalCommits(st: seq<(string, CommitStat)>): nat {
    if st == [] then 0 else TotalCommits(st[..|st| - 1]) + st[|st| - 1].1.commits
  }

  /** `sum(v["additions"] + v["deletions"] ...)`, before `or 1`. */
  function TotalEdits(st: seq<(string, CommitStat)>): int {
    if st == [] then 0
    else
      var s := st[|st| - 1].1;
      TotalEdits(st[..|st| - 1]) + s.additions + s.deletions
  }

  /** `n or 1`. */
  function OrOne(n: int): (r: int)
    ensures r != 0 && (n != 0 ==> r == n)
  {
    if n == 0 then 1 else n
  }

  // ---------------------------------------------------------------- percentages

  /** `int(data.get("commits", 0))`. */
  function CommitsOf(d: Dict): Option<int> {
    PyInt(GetOr(d, "commits", JNum(0.0)))
  }

  /** `int(data.get("additions", 0)) + int(data.get("deletions", 0))`. */
  function EditsOf(d: Dict): Option<int> {
    var a := PyInt(GetOr(d, "additions", JNum(0.0)));
    var b := PyInt(GetOr(d, "deletions", JNum(0.0)));
    if a.Some? && b.Some? then Some(a.value + b.value) else None
  }

  predicate DictReadable(d: Dict) {
    CommitsOf(d).Some? && EditsOf(d).Some?
  }

  predicate MergedReadable(m: Merged) {
    forall i :: 0 <= i < |m| ==> DictReadable(m[i].1)
  }

  /** `commits / totalCommits * 100`, before `round`. */
  function Share(part: int, total: int): real
    requires total != 0
  {
    part as real / total as real * 100.0
  }

  function WithPercentages(d: Dict, totalCommits: int, totalEdits: int): Dict
    requires DictReadable(d) && totalCommits != 0 && totalEdits != 0
  {
    Put(Put(d, "commit_percentage", JNum(Share(CommitsOf(d).value, totalCommits))),
      "edit_percentage", JNum(Share(EditsOf(d).value, totalEdits)))
  }

  function PercentagesAll(m: Merged, totalCommits: int, totalEdits: int): (r: Merged)
    requires MergedReadable(m) && totalCommits != 0 && totalEdits != 0
    ensures Keys(r) == Keys(m)
  {
    seq(|m|, i requires 0 <= i < |m| => (m[i].0, WithPercentages(m[i].1, totalCommits, totalEdits)))
  }

  /** `merged` once the commit statistics are in. */
  function WithCommits(outputData: Json, commits: seq<Json>): Merged
    requires OutputReadable(outputData) && CommitsReadable(commits)
  {
    UpdateAll(FromOutput(outputData).value, StatPairs(CommitStatsOf(commits)))
  }

  const CommitRaises := "a commit that is not a dict, an unhashable author, or stats that int() cannot read"
  const PercentRaises := "int() of an author's commits, additions or deletions"

  /** What `combine_json` writes to finalStats.json (before `round`), or the error it raises. */
  function CombineJsonOf(outputData: Json, commits: seq<Json>): (r: Result<Merged>)
    ensures r.Ok? <==> OutputReadable(outputData) && CommitsReadable(commits) && MergedReadable(WithCommits(outputData, commits))
  {
    if !OutputReadable(outputData) then Err(FromOutput(outputData).msg)
    else if !CommitsReadable(commits) then Err(CommitRaises)
    else
      var merged := WithCommits(outputData, commits);
      var st := CommitStatsOf(commits);
      if !MergedReadable(merged) then Err(PercentRaises)
      else Ok(PercentagesAll(merged, OrOne(TotalCommits(st)), OrOne(TotalEdits(st))))
  }

  // ---------------------------------------------------------------- the imperative combine_json

  method UpdateEach(m: Merged, pairs: seq<(string, Dict)>) returns (r: Merged)
    ensures r == UpdateAll(m, pairs)
  {
    r := m;
    for i := 0 to |pairs|
      invariant r == UpdateAll(m, pairs[..i])
    {
      assert pairs[..i + 1][..i] == pairs[..i];
      r := Update(r, pairs[i].0, pairs[i].1);
    }
    assert pairs[..|pairs|] == pairs;
  }

  /** The `authors` loop: `merged[author].update(metrics)`, raising on metrics `update` does not accept. */
  method UpdateAuthors(authors: Dict) returns (r: Result<Merged>)
    ensures MetricsUpdatable(authors) ==> r == Ok(UpdateAll([], MetricPairs(authors)))
    ensures !MetricsUpdatable(authors) ==> r == Err(UpdateRaises)
  {
    var merged: Merged := [];
    ghost var pairs := MetricPairs(authors);
    for i := 0 to |authors|
      invariant forall j :: 0 <= j < i ==> Updatable(authors[j].1)
      invariant merged == UpdateAll([], pairs[..i])
    {
      var (author, metrics) := authors[i];
      if !Updatable(metrics) {
        return Err(UpdateRaises);
      }
      assert pairs[..i + 1][..i] == pairs[..i];
      merged := Update(merged, author, Fields(metrics));
    }
    assert pairs[..|authors|] == pairs;
    r := Ok(merged);
  }

  /** The `%LOC` loop and the `setdefault` loop. */
  method SetLocs(m: Merged, locs: Dict) returns (merged: Merged)
    ensures merged == DefaultLocAll(SetLocAll(m, locs))
  {
    merged := m;
    for i := 0 to |locs|
      invariant merged == SetLocAll(m, locs[..i])
    {
      assert locs[..i + 1][..i] == locs[..i];
      merged := Update(merged, locs[i].0, [("percentage_of_LOC", locs[i].1)]);
    }
    assert locs[..|locs|] == locs;
    ghost var afterLoc := merged;
    for i := 0 to |merged|
      invariant |merged| == |afterLoc|
      invariant forall j :: 0 <= j < i ==> merged[j] == (afterLoc[j].0, DefaultLoc(afterLoc[j].1))
      invariant forall j :: i <= j < |merged| ==> merged[j] == afterLoc[j]
    {
      if !HasKey(merged[i].1, "percentage_of_LOC") {
        merged := merged[i := (merged[i].0, Put(merged[i].1, "percentage_of_LOC", JNum(0.0)))];
      }
    }
    assert merged == DefaultLocAll(afterLoc);
  }

  /** The output.json passes: `update` with each author's metrics, the `%LOC` values, then `setdefault`. */
  method MergeOutput(outputData: Json) returns (merged: Result<Merged>)
    ensures merged == FromOutput(outputData)
  {
    var od := if PyTruthy(outputData) then outputData else JObj([]);
    if !od.JObj? {
      return Err(AuthorsRaise);
    }
    var authors := GetOr(od.fields, "authors", JObj([]));
    if !authors.JObj? {
      return Err(AuthorsRaise);
    }
    var m := UpdateAuthors(authors.fields);
    if m.Err? {
      return m;
    }
    var locs := GetOr(od.fields, "%LOC", JObj([]));
    if !locs.JObj? {
      return Err(LocRaises);
    }
    var r := SetLocs(m.value, locs.fields);
    merged := Ok(r);
  }

  /** The loop over commits.json filling `commitJSONstat`; `None` where an iteration raises. */
  method CountCommits(commits: seq<Json>) returns (st: Option<seq<(string, CommitStat)>>)
    ensures st.None? <==> !CommitsReadable(commits)
    ensures st.Some? ==> CommitsReadable(commits) && st.value == CommitStatsOf(commits)
  {
    var acc: seq<(string, CommitStat)> := [];
    for i := 0 to |commits|
      invariant CommitsReadable(commits[..i])
      invariant acc == CommitStatsOf(commits[..i])
    {
      assert commits[..i + 1][..i] == commits[..i];
      var c := commits[i];
      if !c.JObj? || !AuthorHashable(c) || Additions(c).None? || Deletions(c).None? {
        assert !CommitReadable(commits[i]);
        return None;
      }
      ReadableSnoc(commits, i);
      acc := AddCommit(acc, c);
    }
    assert commits[..|commits|] == commits;
    st := Some(acc);
  }

  /** Whether every author's `int()` conversions succeed. */
  method ReadableMerged(m: Merged) returns (ok: bool)
    ensures ok <==> MergedReadable(m)
  {
    for i := 0 to |m|
      invariant forall j :: 0 <= j < i ==> DictReadable(m[j].1)
    {
      if CommitsOf(m[i].1).None? || EditsOf(m[i].1).None? {
        return false;
      }
    }
    return true;
  }

  /** The last loop: `commit_percentage` and `edit_percentage` for every author; `None` when `int()` raises. */
  method AddPercentages(m: Merged, totalCommits: int, totalEdits: int) returns (r: Option<Merged>)
    requires totalCommits != 0 && totalEdits != 0
    ensures r.None? <==> !MergedReadable(m)
    ensures r.Some? ==> MergedReadable(m) && r.value == PercentagesAll(m, totalCommits, totalEdits)
  {
    var ok := ReadableMerged(m);
    if !ok {
      return None;
    }
    var merged := m;
    for i := 0 to |merged|
      invariant |merged| == |m|
      invariant forall j :: 0 <= j < i ==> merged[j] == (m[j].0, WithPercentages(m[j].1, totalCommits, totalEdits))
      invariant forall j :: i <= j < |merged| ==> merged[j] == m[j]
    {
      merged := merged[i := (merged[i].0, WithPercentages(merged[i].1, totalCommits, totalEdits))];
    }
    assert merged == PercentagesAll(m, totalCommits, totalEdits);
    r := Some(merged);
  }

  method CombineJson(outputData: Json, commits: seq<Json>) returns (r: Result<Merged>)
    ensures r == CombineJsonOf(outputData, commits)
  {
    var fromOutput := MergeOutput(outputData);
    if fromOutput.Err? {
      return fromOutput;
    }
    var st := CountCommits(commits);
    if st.None? {
      return Err(CommitRaises);
    }
    var merged := UpdateEach(fromOutput.value, StatPairs(st.value));
    var totalCommits := OrOne(TotalCommits(st.value));
    var totalEdits := OrOne(TotalEdits(st.value));
    var out := AddPercentages(merged, totalCommits, totalEdits);
    if out.None? {
      return Err(PercentRaises);
    }
    r := Ok(out.value);
  }

  // ---------------------------------------------------------------- properties

  /** The number of commits (dicts) whose author, after the "Unknown" fallback, is `a`. */
  function CountBy(commits: seq<Json>, a: string): nat {
    if commits == [] then 0
    else
      var n := |commits| - 1;
      CountBy(commits[..n], a) + if commits[n].JObj? && CommitAuthor(commits[n]) == a then 1 else 0
  }

  /**
    `commitJSONstat` counts commits per author: an author's `commits` is the
    number of commits naming them, and exactly the authors named have an entry,
    each once.
   */
  lemma {:induction false} CommitStatsCount(commits: seq<Json>, a: string)
    requires CommitsReadable(commits)
    ensures GetOr(CommitStatsOf(commits), a, NoCommits).commits == CountBy(commits, a)
    ensures HasKey(CommitStatsOf(commits), a) <==> CountBy(commits, a) > 0
    ensures Distinct(CommitStatsOf(commits))
  {
    if commits != [] {
      var n := |commits| - 1;
      ReadablePrefix(commits, n);
      CommitStatsCount(commits[..n], a);
      var c := commits[n];
      AddStatGet(CommitStatsOf(commits[..n]), CommitAuthor(c), Additions(c).value, Deletions(c).value, a);
    }
  }

  lemma {:induction false} UpdateGet(m: Merged, author: string, fields: Dict, a: string)
    ensures GetOr(Update(m, author, fields), a, []) == if a == author then PutAll(GetOr(m, author, []), fields) else GetOr(m, a, [])
    ensures HasKey(Update(m, author, fields), a) <==> HasKey(m, a) || a == author
  {
    GetOrPut(m, author, PutAll(GetOr(m, author, []), fields), a, []);
    PutHasKey(m, author, PutAll(GetOr(m, author, []), fields), a);
  }

  /** Updating with pairs that do not mention `a` leaves `a` as it was. */
  lemma {:induction false} UpdateAllOther(m: Merged, pairs: seq<(string, Dict)>, a: string)
    requires forall i :: 0 <= i < |pairs| ==> pairs[i].0 != a
    ensures GetOr(UpdateAll(m, pairs), a, []) == GetOr(m, a, [])
    ensures HasKey(UpdateAll(m, pairs), a) <==> HasKey(m, a)
  {
    if pairs != [] {
      var n := |pairs| - 1;
      assert forall i :: 0 <= i < n ==> pairs[..n][i] == pairs[i];
      UpdateAllOther(m, pairs[..n], a);
      assert pairs[n].0 != a;
      UpdateGet(UpdateAll(m, pairs[..n]), pairs[n].0, pairs[n].1, a);
    }
  }

  /** Updating with pairs that mention `a` once, at `k`, applies exactly that update to `a`. */
  lemma {:induction false} UpdateAllOnce(m: Merged, pairs: seq<(string, Dict)>, k: int)
    requires 0 <= k < |pairs| && forall i :: 0 <= i < |pairs| && i != k ==> pairs[i].0 != pairs[k].0
    ensures GetOr(UpdateAll(m, pairs), pairs[k].0, []) == PutAll(GetOr(m, pairs[k].0, []), pairs[k].1)
    ensures HasKey(UpdateAll(m, pairs), pairs[k].0)
  {
    var n := |pairs| - 1;
    var a := pairs[k].0;
    if k == n {
      UpdateAllOther(m, pairs[..n], a);
      UpdateGet(UpdateAll(m, pairs[..n]), a, pairs[n].1, a);
    } else {
      assert pairs[..n][k] == pairs[k];
      UpdateAllOnce(m, pairs[..n], k);
      UpdateGet(UpdateAll(m, pairs[..n]), pairs[n].0, pairs[n].1, a);
    }
  }

  lemma {:induction false} StatFieldsCommits(d: Dict, s: CommitStat)
    ensures Get(PutAll(d, StatFields(s)), "commits") == Some(JNum(s.commits as real))
    ensures Get(PutAll(d, StatFields(s)), "percentage_of_LOC") == Get(d, "percentage_of_LOC")
  {
    var f := StatFields(s);
    GetPutAll(d, f, "commits");
    assert f[..2] == [f[0], f[1]] && f[..2][..1] == [f[0]];
    assert LastValue(f, "commits") == LastValue(f[..2], "commits") == LastValue(f[..1], "commits");
    assert LastValue(f, "commits") == Some(JNum(s.commits as real));
    GetPutAll(d, f, "percentage_of_LOC");
  }

  lemma {:induction false} PercentagesKeep(d: Dict, totalCommits: int, totalEdits: int, k: string)
    requires DictReadable(d) && totalCommits != 0 && totalEdits != 0
    requires k != "commit_percentage" && k != "edit_percentage"
    ensures Get(WithPercentages(d, totalCommits, totalEdits), k) == Get(d, k)
  {
    var d1 := Put(d, "commit_percentage", JNum(Share(CommitsOf(d).value, totalCommits)));
    PutSpec(d, "commit_percentage", JNum(Share(CommitsOf(d).value, totalCommits)));
    PutSpec(d1, "edit_percentage", JNum(Share(EditsOf(d).value, totalEdits)));
  }

  lemma {:induction false} PercentagesAllGet(m: Merged, totalCommits: int, totalEdits: int, a: string, k: string)
    requires MergedReadable(m) && totalCommits != 0 && totalEdits != 0 && HasKey(m, a)
    requires k != "commit_percentage" && k != "edit_percentage"
    ensures HasKey(PercentagesAll(m, totalCommits, totalEdits), a)
    ensures Get(GetOr(PercentagesAll(m, totalCommits, totalEdits), a, []), k) == Get(GetOr(m, a, []), k)
  {
    var r := PercentagesAll(m, totalCommits, totalEdits);
    var i := IndexOfKey(m, a);
    assert Keys(r)[i] == Keys(m)[i];
    assert forall t :: 0 <= t < |r| ==> r[t].0 == m[t].0;
    assert IndexOfKey(r, a) == i;
    PercentagesKeep(m[i].1, totalCommits, totalEdits, k);
  }

  /**
    In a written result, every author named by some commit has `commits` equal to
    the number of commits naming them, with a missing or empty author counted as
    "Unknown".
   */
  lemma {:induction false} CommitsCounted(outputData: Json, commits: seq<Json>, a: string)
    requires CombineJsonOf(outputData, commits).Ok?
    requires CountBy(commits, a) > 0
    ensures HasKey(CombineJsonOf(outputData, commits).value, a)
    ensures Get(GetOr(CombineJsonOf(outputData, commits).value, a, []), "commits") == Some(JNum(CountBy(commits, a) as real))
  {
    var st := CommitStatsOf(commits);
    CommitStatsCount(commits, a);
    var k := IndexOfKey(st, a);
    var pairs := StatPairs(st);
    var m0 := FromOutput(outputData).value;
    assert pairs[k].0 == a;
    forall i | 0 <= i < |pairs| && i != k ensures pairs[i].0 != pairs[k].0 {
      assert st[i].0 != st[k].0;
    }
    UpdateAllOnce(m0, pairs, k);
    GetDistinct(st, k);
    assert st[k].1 == GetOr(st, a, NoCommits);
    StatFieldsCommits(GetOr(m0, a, []), st[k].1);
    PercentagesAllGet(WithCommits(outputData, commits), OrOne(TotalCommits(st)), OrOne(TotalEdits(st)), a, "commits");
  }

  /** Lines added plus lines deleted over all commits. */
  function EditsSum(commits: seq<Json>): int
    requires CommitsReadable(commits)
  {
    if commits == [] then 0
    else
      var n := |commits| - 1;
      ReadablePrefix(commits, n);
      EditsSum(commits[..n]) + Additions(commits[n]).value + Deletions(commits[n]).value
  }

  lemma {:induction false} TotalsSet(st: seq<(string, CommitStat)>, i: int, v: (string, CommitStat))
    requires 0 <= i < |st|
    ensures TotalCommits(st[i := v]) == TotalCommits(st) - st[i].1.commits + v.1.commits
    ensures TotalEdits(st[i := v]) == TotalEdits(st) - st[i].1.additions - st[i].1.deletions + v.1.additions + v.1.deletions
  {
    var n := |st| - 1;
    if i < n {
      assert st[i := v][..n] == st[..n][i := v];
      TotalsSet(st[..n], i, v);
    } else {
      assert st[i := v][..n] == st[..n];
    }
  }

  lemma {:induction false} AddStatTotals(st: seq<(string, CommitStat)>, author: string, additions: int, deletions: int)
    ensures TotalCommits(AddStat(st, author, additions, deletions)) == TotalCommits(st) + 1
    ensures TotalEdits(AddStat(st, author, additions, deletions)) == TotalEdits(st) + additions + deletions
  {
    var prev := GetOr(st, author, NoCommits);
    var v := CommitStat(prev.commits + 1, prev.additions + additions, prev.deletions + deletions);
    var i := IndexOfKey(st, author);
    if i == -1 {
      assert (st + [(author, v)])[..|st|] == st;
    } else {
      TotalsSet(st, i, (author, v));
    }
  }

  /** `sum(v["commits"])` counts every commit, and the edit total sums every commit's additions and deletions. */
  lemma {:induction false} CommitStatsTotals(commits: seq<Json>)
    requires CommitsReadable(commits)
    ensures TotalCommits(CommitStatsOf(commits)) == |commits|
    ensures TotalEdits(CommitStatsOf(commits)) == EditsSum(commits)
  {
    if commits != [] {
      var n := |commits| - 1;
      ReadablePrefix(commits, n);
      CommitStatsTotals(commits[..n]);
      var c := commits[n];
      AddStatTotals(CommitStatsOf(commits[..n]), CommitAuthor(c), Additions(c).value, Deletions(c).value);
    }
  }

  lemma {:induction false} PercentagesGet(m: Merged, totalCommits: int, totalEdits: int, a: string)
    requires MergedReadable(m) && totalCommits != 0 && totalEdits != 0 && HasKey(m, a)
    ensures DictReadable(GetOr(m, a, []))
    ensures Get(GetOr(PercentagesAll(m, totalCommits, totalEdits), a, []), "commit_percentage") ==
      Some(JNum(Share(CommitsOf(GetOr(m, a, [])).value, totalCommits)))
    ensures Get(GetOr(PercentagesAll(m, totalCommits, totalEdits), a, []), "edit_percentage") ==
      Some(JNum(Share(EditsOf(GetOr(m, a, [])).value, totalEdits)))
  {
    var r := PercentagesAll(m, totalCommits, totalEdits);
    var i := IndexOfKey(m, a);
    assert Keys(r)[i] == Keys(m)[i];
    assert forall t :: 0 <= t < |r| ==> r[t].0 == m[t].0;
    assert IndexOfKey(r, a) == i;
    var d := m[i].1;
    var d1 := Put(d, "commit_percentage", JNum(Share(CommitsOf(d).value, totalCommits)));
    PutSpec(d, "commit_percentage", JNum(Share(CommitsOf(d).value, totalCommits)));
    PutSpec(d1, "edit_percentage", JNum(Share(EditsOf(d).value, totalEdits)));
  }

  /**
    Every author written to finalStats.json gets `commit_percentage` = their
    `commits` over all commits, times 100, and `edit_percentage` = their
    additions plus deletions over those of all commits, times 100; an empty
    total counts as 1.
   */
  lemma {:induction false} ResultPercentages(outputData: Json, commits: seq<Json>, a: string)
    requires CombineJsonOf(outputData, commits).Ok? && HasKey(CombineJsonOf(outputData, commits).value, a)
    ensures DictReadable(GetOr(WithCommits(outputData, commits), a, []))
    ensures Get(GetOr(CombineJsonOf(outputData, commits).value, a, []), "commit_percentage") ==
      Some(JNum(Share(CommitsOf(GetOr(WithCommits(outputData, commits), a, [])).value, OrOne(|commits|))))
    ensures Get(GetOr(CombineJsonOf(outputData, commits).value, a, []), "edit_percentage") ==
      Some(JNum(Share(EditsOf(GetOr(WithCommits(outputData, commits), a, [])).value, OrOne(EditsSum(commits)))))
  {
    var m := WithCommits(outputData, commits);
    var st := CommitStatsOf(commits);
    CommitStatsTotals(commits);
    var r := CombineJsonOf(outputData, commits).value;
    assert Keys(r) == Keys(m);
    assert HasKey(m, a) by {
      var i :| 0 <= i < |r| && r[i].0 == a;
      assert Keys(r)[i] == Keys(m)[i];
    }
    PercentagesGet(m, OrOne(TotalCommits(st)), OrOne(TotalEdits(st)), a);
  }

  /** An author named by commits has `commit_percentage` = their share of all commits, times 100. */
  lemma {:induction false} CommitShare(outputData: Json, commits: seq<Json>, a: string)
    requires CombineJsonOf(outputData, commits).Ok? && CountBy(commits, a) > 0
    ensures |commits| > 0
    ensures Get(GetOr(CombineJsonOf(outputData, commits).value, a, []), "commit_percentage") ==
      Some(JNum(Share(CountBy(commits, a), |commits|)))
  {
    CountByBound(commits, a);
    CommitsCounted(outputData, commits, a);
    var m := WithCommits(outputData, commits);
    var d := GetOr(m, a, []);
    var r := CombineJsonOf(outputData, commits).value;
    ResultPercentages(outputData, commits, a);
    var st := CommitStatsOf(commits);
    assert HasKey(m, a) by {
      var i :| 0 <= i < |r| && r[i].0 == a;
      assert Keys(r)[i] == Keys(m)[i];
    }
    PercentagesAllGet(m, OrOne(TotalCommits(st)), OrOne(TotalEdits(st)), a, "commits");
    assert Get(d, "commits") == Some(JNum(CountBy(commits, a) as real));
    PyIntOfInt(CountBy(commits, a));
    assert CommitsOf(d) == Some(CountBy(commits, a));
  }

  lemma {:induction false} CountByBound(commits: seq<Json>, a: string)
    ensures CountBy(commits, a) <= |commits|
  {
    if commits != [] {
      CountByBound(commits[..|commits| - 1], a);
    }
  }

  lemma {:induction false} UpdateAllHasKey(m: Merged, pairs: seq<(string, Dict)>, a: string)
    ensures HasKey(UpdateAll(m, pairs), a) <==> HasKey(m, a) || HasKey(pairs, a)
  {
    if pairs != [] {
      var n := |pairs| - 1;
      UpdateAllHasKey(m, pairs[..n], a);
      UpdateGet(UpdateAll(m, pairs[..n]), pairs[n].0, pairs[n].1, a);
      assert HasKey(pairs, a) <==> HasKey(pairs[..n], a) || pairs[n].0 == a by {
        if HasKey(pairs, a) {
          var i :| 0 <= i < |pairs| && pairs[i].0 == a;
          if i < n {
            assert pairs[..n][i] == pairs[i];
          }
        }
      }
    }
  }

  lemma {:induction false} SetLocAllHasKey(m: Merged, locs: Dict, a: string)
    ensures HasKey(SetLocAll(m, locs), a) <==> HasKey(m, a) || HasKey(locs, a)
  {
    if locs != [] {
      var n := |locs| - 1;
      SetLocAllHasKey(m, locs[..n], a);
      UpdateGet(SetLocAll(m, locs[..n]), locs[n].0, [("percentage_of_LOC", locs[n].1)], a);
      assert HasKey(locs, a) <==> HasKey(locs[..n], a) || locs[n].0 == a by {
        if HasKey(locs, a) {
          var i :| 0 <= i < |locs| && locs[i].0 == a;
          if i < n {
            assert locs[..n][i] == locs[i];
          }
        }
      }
    }
  }

  /**
    After the output.json passes, `merged` holds exactly the authors of
    `authors` and of `%LOC`, and each of them has `percentage_of_LOC`.
   */
  lemma {:induction false} FromOutputKeys(outputData: Json, a: string)
    requires OutputReadable(outputData)
    ensures HasKey(FromOutput(outputData).value, a) <==>
      HasKey(OutputDict(outputData, "authors").value, a) || HasKey(OutputDict(outputData, "%LOC").value, a)
    ensures HasKey(FromOutput(outputData).value, a) ==> HasKey(GetOr(FromOutput(outputData).value, a, []), "percentage_of_LOC")
  {
    var authors := OutputDict(outputData, "authors").value;
    var locs := OutputDict(outputData, "%LOC").value;
    var pairs := MetricPairs(authors);
    var m1 := UpdateAll([], pairs);
    var m2 := SetLocAll(m1, locs);
    var r := FromOutput(outputData).value;
    assert r == DefaultLocAll(m2);
    UpdateAllHasKey([], pairs, a);
    SetLocAllHasKey(m1, locs, a);
    assert HasKey(pairs, a) <==> HasKey(authors, a) by {
      assert forall i :: 0 <= i < |pairs| ==> pairs[i].0 == authors[i].0;
    }
    assert HasKey(r, a) <==> HasKey(m2, a) by {
      assert forall i :: 0 <= i < |r| ==> r[i].0 == m2[i].0;
    }
  }

  /**
    In a written result, an author has `percentage_of_LOC` exactly when
    output.json names them under `authors` or `%LOC`: the 0.0 default is
    applied before the commit statistics add the authors found only in
    commits.json.
   */
  lemma {:induction false} LocPresence(outputData: Json, commits: seq<Json>, a: string)
    requires CombineJsonOf(outputData, commits).Ok?
    ensures HasKey(GetOr(CombineJsonOf(outputData, commits).value, a, []), "percentage_of_LOC") <==>
      HasKey(OutputDict(outputData, "authors").value, a) || HasKey(OutputDict(outputData, "%LOC").value, a)
  {
    var m0 := FromOutput(outputData).value;
    var st := CommitStatsOf(commits);
    var m := WithCommits(outputData, commits);
    FromOutputKeys(outputData, a);
    WithCommitsLoc(outputData, commits, a);
    if HasKey(m, a) {
      PercentagesAllGet(m, OrOne(TotalCommits(st)), OrOne(TotalEdits(st)), a, "percentage_of_LOC");
    }
  }

  /** The commit statistics neither add nor remove an author's `percentage_of_LOC`. */
  lemma {:induction false} WithCommitsLoc(outputData: Json, commits: seq<Json>, a: string)
    requires OutputReadable(outputData) && CommitsReadable(commits)
    ensures Get(GetOr(WithCommits(outputData, commits), a, []), "percentage_of_LOC") ==
      Get(GetOr(FromOutput(outputData).value, a, []), "percentage_of_LOC")
  {
    var m0 := FromOutput(outputData).value;
    var st := CommitStatsOf(commits);
    var pairs := StatPairs(st);
    CommitStatsCount(commits, a);
    if CountBy(commits, a) > 0 {
      var k := IndexOfKey(st, a);
      forall i | 0 <= i < |pairs| && i != k ensures pairs[i].0 != pairs[k].0 {
        assert st[i].0 != st[k].0;
      }
      UpdateAllOnce(m0, pairs, k);
      StatFieldsCommits(GetOr(m0, a, []), st[k].1);
    } else {
      forall i | 0 <= i < |pairs| ensures pairs[i].0 != a {
        assert st[i].0 == pairs[i].0;
      }
      UpdateAllOther(m0, pairs, a);
    }
  }

  /** `setdefault` fills in 0.0 only where `percentage_of_LOC` is missing, and changes nothing else. */
  lemma {:induction false} DefaultLocGet(d: Dict, k: string)
    ensures Get(DefaultLoc(d), k) == if k == "percentage_of_LOC" && !HasKey(d, k) then Some(JNum(0.0)) else Get(d, k)
  {
    if !HasKey(d, "percentage_of_LOC") {
      PutSpec(d, "percentage_of_LOC", JNum(0.0));
    }
  }
}
