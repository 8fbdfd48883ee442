/**
  The Express server: type detection for uploaded files, the legacy
  `/api/scores` ranking of commit authors, and the upload registry with its
  lifecycle uploaded -> confirmed -> parsed | parse_failed.
 */
module Server {
  import opened Wrappers
  import opened Strings
  import opened Reals
  import opened JsonValue
  import opened AssocList
  import Aggregator
  import Scoring
  import CombineDocs

  // ---------------------------------------------------------------- detectTypeFromName

  /** `detectTypeFromName(filename, userGuess)`, with "" for an absent guess. */
  function DetectTypeFromName(filename: string, userGuess: string): (t: string)
    ensures userGuess != "" && userGuess != "unknown" ==> t == userGuess
    ensures userGuess == "" || userGuess == "unknown" ==>
      t in {"attendance", "worklog", "sprint_report", "peer_review", "unknown"}
  {
    if userGuess != "" && userGuess != "unknown" then userGuess
    else
      var lower := ToLower(filename);
      if Contains(lower, "attendance") then "attendance"
      else if Contains(lower, "worklog") || Contains(lower, "weekly") then "worklog"
      else if Contains(lower, "sprint") && Contains(lower, "report") then "sprint_report"
      else if Contains(lower, "peer") then "peer_review"
      else "unknown"
  }

  /**
    Without a guess the first rule that fires decides, in the order attendance;
    worklog or weekly; sprint and report; peer; and "project_plan" is never
    the answer.
   */
  lemma {:induction false} DetectTypeRules(filename: string, userGuess: string)
    requires userGuess == "" || userGuess == "unknown"
    ensures var t, l := DetectTypeFromName(filename, userGuess), ToLower(filename);
      (t == "attendance" <==> Contains(l, "attendance")) &&
      (t == "worklog" <==> !Contains(l, "attendance") && (Contains(l, "worklog") || Contains(l, "weekly"))) &&
      (t == "sprint_report" <==>
        (!Contains(l, "attendance") && !Contains(l, "worklog") && !Contains(l, "weekly") &&
         Contains(l, "sprint") && Contains(l, "report"))) &&
      t != "project_plan"
  {
  }

  /** Detection ignores the case of the file name. */
  lemma {:induction false} DetectTypeIgnoresCase(filename: string, userGuess: string)
    ensures DetectTypeFromName(ToLower(filename), userGuess) == DetectTypeFromName(filename, userGuess)
  {
    ToLowerIdempotent(filename);
  }

  // ---------------------------------------------------------------- /api/scores: per-author tallies

  /** `raw[author]`: commits counted, additions and deletions summed. */
  datatype Tally = Tally(commits: nat, additions: real, deletions: real)

  const NoTally := Tally(0, 0.0, 0.0)

  /** `c.author || "Unknown"`, as an object key. */
  function AuthorOf(c: Json): string {
    var a := Field(c, "author");
    if Truthy(a) then CombineDocs.KeyString(a) else "Unknown"
  }

  /** `c.stats?.[key] || 0`, as `+=` adds it to a number. */
  function StatOf(c: Json, key: string): real {
    CombineDocs.Numeric(Field(Field(c, "stats"), key))
  }

  /** One commit of `author` with the given line counts. */
  function Count(raw: seq<(string, Tally)>, author: string, additions: real, deletions: real): seq<(string, Tally)> {
    var prev := GetOr(raw, author, NoTally);
    Put(raw, author, Tally(prev.commits + 1, prev.additions + additions, prev.deletions + deletions))
  }

  function CountCommit(raw: seq<(string, Tally)>, c: Json): seq<(string, Tally)> {
    Count(raw, AuthorOf(c), StatOf(c, "additions"), StatOf(c, "deletions"))
  }

  /** `raw` after `commits.forEach`. */
  function RawOf(commits: seq<Json>): seq<(string, Tally)> {
    if commits == [] then []
    else CountCommit(RawOf(commits[..|commits| - 1]), commits[|commits| - 1])
  }

  /** The `commits.forEach` loop that fills `raw`. */
  method TallyCommits(commits: seq<Json>) returns (raw: seq<(string, Tally)>)
    ensures raw == RawOf(commits)
  {
    raw := [];
    var i := 0;
    while i < |commits|
      invariant 0 <= i <= |commits|
      invariant raw == RawOf(commits[..i])
    {
      assert commits[..i + 1][..i] == commits[..i];
      raw := CountCommit(raw, commits[i]);
      i := i + 1;
    }
    assert commits[..i] == commits;
  }

  /** The number of commits credited to `a`. */
  function CommitsBy(commits: seq<Json>, a: string): nat {
    if commits == [] then 0
    else
      var n := |commits| - 1;
      CommitsBy(commits[..n], a) + if AuthorOf(commits[n]) == a then 1 else 0
  }

  /** The sum of `stats[key]` over the commits credited to `a`. */
  function StatBy(commits: seq<Json>, a: string, key: string): real {
    if commits == [] then 0.0
    else
      var n := |commits| - 1;
      StatBy(commits[..n], a, key) + if AuthorOf(commits[n]) == a then StatOf(commits[n], key) else 0.0
  }

  lemma {:induction false} CountGet(raw: seq<(string, Tally)>, author: string, additions: real, deletions: real, a: string)
    ensures var prev := GetOr(raw, a, NoTally);
      GetOr(Count(raw, author, additions, deletions), a, NoTally) ==
        if a == author then Tally(prev.commits + 1, prev.additions + additions, prev.deletions + deletions) else prev
    ensures HasKey(Count(raw, author, additions, deletions), a) <==> HasKey(raw, a) || a == author
    ensures Distinct(raw) ==> Distinct(Count(raw, author, additions, deletions))
  {
    var prev := GetOr(raw, author, NoTally);
    var v := Tally(prev.commits + 1, prev.additions + additions, prev.deletions + deletions);
    assert Count(raw, author, additions, deletions) == Put(raw, author, v);
    assert GetOr(Put(raw, author, v), a, NoTally) == if a == author then v else GetOr(raw, a, NoTally) by {
      GetOrPut(raw, author, v, a, NoTally);
    }
    assert HasKey(Put(raw, author, v), a) <==> HasKey(raw, a) || a == author by {
      PutHasKey(raw, author, v, a);
    }
    assert Distinct(raw) ==> Distinct(Put(raw, author, v)) by {
      if Distinct(raw) {
        PutDistinct(raw, author, v);
      }
    }
  }

  /**
    Every author's tally counts exactly the commits credited to them and sums
    their additions and deletions (missing stats adding 0); an author is listed
    iff some commit names them, and each at most once.
   */
  lemma {:induction false} RawOfSpec(commits: seq<Json>, a: string)
    ensures GetOr(RawOf(commits), a, NoTally) ==
      Tally(CommitsBy(commits, a), StatBy(commits, a, "additions"), StatBy(commits, a, "deletions"))
    ensures HasKey(RawOf(commits), a) <==> CommitsBy(commits, a) > 0
    ensures Distinct(RawOf(commits))
  {
    if commits != [] {
      var n := |commits| - 1;
      var rest, c := commits[..n], commits[n];
      var author, additions, deletions := AuthorOf(c), StatOf(c, "additions"), StatOf(c, "deletions");
      assert RawOf(commits) == Count(RawOf(rest), author, additions, deletions);
      assert CommitsBy(commits, a) == CommitsBy(rest, a) + if author == a then 1 else 0;
      assert StatBy(commits, a, "additions") == StatBy(rest, a, "additions") + if author == a then additions else 0.0;
      assert StatBy(commits, a, "deletions") == StatBy(rest, a, "deletions") + if author == a then deletions else 0.0;
      RawOfSpec(rest, a);
      CountGet(RawOf(rest), author, additions, deletions, a);
    }
  }

  // ---------------------------------------------------------------- /api/scores: scoring and ranking

  function Commits(raw: seq<(string, Tally)>): (xs: seq<real>)
    ensures |xs| == |raw|
  {
    seq(|raw|, i requires 0 <= i < |raw| => raw[i].1.commits as real)
  }

  function Additions(raw: seq<(string, Tally)>): (xs: seq<real>)
    ensures |xs| == |raw|
  {
    seq(|raw|, i requires 0 <= i < |raw| => raw[i].1.additions)
  }

  function Deletions(raw: seq<(string, Tally)>): (xs: seq<real>)
    ensures |xs| == |raw|
  {
    seq(|raw|, i requires 0 <= i < |raw| => raw[i].1.deletions)
  }

  /** The weights `{commits: 0.3, additions: 0.4, deletions: 0.3}` applied to normalised values. */
  function Blend(c: real, a: real, d: real): real {
    0.3 * c + 0.4 * a + 0.3 * d
  }

  /** The weights sum to 1, so values in [0, 1] blend into [0, 1]. */
  lemma {:induction false} BlendBetween(c: real, a: real, d: real)
    requires 0.0 <= c <= 1.0 && 0.0 <= a <= 1.0 && 0.0 <= d <= 1.0
    ensures 0.0 <= Blend(c, a, d) <= 1.0
    ensures Blend(1.0, 1.0, 1.0) == 1.0
  {
  }

  /** Each author's `score`, in the order of `Object.keys(raw)`. */
  function AuthorScores(raw: seq<(string, Tally)>): (s: seq<real>)
    ensures |s| == |raw|
  {
    var cn, an, dn := Aggregator.MinMax(Commits(raw)), Aggregator.MinMax(Additions(raw)), Aggregator.MinMax(Deletions(raw));
    seq(|raw|, i requires 0 <= i < |raw| => Blend(cn[i], an[i], dn[i]))
  }

  /** `scored.reduce((s, r) => s + r.score, 0) || 1`. */
  function TotalScore(scores: seq<real>): real {
    if Sum(scores) == 0.0 then 1.0 else Sum(scores)
  }

  /** One row of `ranking`; `percent` is kept exact rather than printed to one decimal. */
  datatype Ranked = Ranked(rank: nat, author: string, commits: nat, additions: real, deletions: real, score: real, percent: real)

  /** The stable descending order `scored.sort((a, b) => b.score - a.score)` produces. */
  function RankOrder(raw: seq<(string, Tally)>): (order: seq<nat>)
    ensures |order| == |raw| && Scoring.Indices(AuthorScores(raw), order)
  {
    Scoring.SortOrder(AuthorScores(raw), |raw|)
  }

  function RankingOf(raw: seq<(string, Tally)>): (ranking: seq<Ranked>)
    ensures |ranking| == |raw|
  {
    var s, order := AuthorScores(raw), RankOrder(raw);
    var total := TotalScore(s);
    seq(|order|, k requires 0 <= k < |order| =>
      var i := order[k];
      Ranked(k + 1, raw[i].0, raw[i].1.commits, raw[i].1.additions, raw[i].1.deletions, s[i], s[i] / total * 100.0))
  }

  datatype ScoresBody = ScoresBody(ranking: seq<Ranked>, raw: seq<(string, Tally)>)

  /** `GET /api/scores` over the contents of data/commits.json (`None` when the file is absent). */
  function GetScores(commitsFile: Option<Json>): (r: Reply<ScoresBody>)
    ensures commitsFile.None? ==> r.Refused? && r.status == 404
    ensures commitsFile.Some? && (!commitsFile.value.JArr? || commitsFile.value.items == []) ==>
      r == Sent(200, ScoresBody([], []))
    ensures commitsFile.Some? && commitsFile.value.JArr? ==>
      r.Sent? && r.value.raw == RawOf(commitsFile.value.items) && r.value.ranking == RankingOf(r.value.raw)
  {
    match commitsFile
    case None => Refused(404, "No commit data found. Run /api/github/fetch or fetchData.js.")
    case Some(commits) =>
      if !commits.JArr? || commits.items == [] then Sent(200, ScoresBody([], []))
      else
        var raw := RawOf(commits.items);
        Sent(200, ScoresBody(RankingOf(raw), raw))
  }

  /**
    `normalizeMinMax`: a constant list maps to all 1s; otherwise every value lies
    in [0, 1], the minima map to 0 and the maxima to 1.
   */
  lemma {:induction false} NormalizeMinMax(xs: seq<real>)
    requires xs != []
    ensures Min(xs) == Max(xs) ==> forall i :: 0 <= i < |xs| ==> Aggregator.MinMax(xs)[i] == 1.0
    ensures forall i :: 0 <= i < |xs| ==> 0.0 <= Aggregator.MinMax(xs)[i] <= 1.0
    ensures Min(xs) != Max(xs) ==> forall i :: 0 <= i < |xs| ==>
      (Aggregator.MinMax(xs)[i] == 0.0 <==> xs[i] == Min(xs)) && (Aggregator.MinMax(xs)[i] == 1.0 <==> xs[i] == Max(xs))
  {
    var lo, hi := Min(xs), Max(xs);
    if lo != hi {
      forall i | 0 <= i < |xs|
        ensures 0.0 <= Aggregator.MinMax(xs)[i] <= 1.0
        ensures Aggregator.MinMax(xs)[i] == 0.0 <==> xs[i] == lo
        ensures Aggregator.MinMax(xs)[i] == 1.0 <==> xs[i] == hi
      {
        Aggregator.RatioFacts(xs[i], lo, hi);
      }
    }
  }

  /** Every author's score lies in [0, 1]. */
  lemma {:induction false} ScoresUnit(raw: seq<(string, Tally)>)
    ensures forall i :: 0 <= i < |raw| ==> 0.0 <= AuthorScores(raw)[i] <= 1.0
  {
    if raw != [] {
      NormalizeMinMax(Commits(raw));
      NormalizeMinMax(Additions(raw));
      NormalizeMinMax(Deletions(raw));
      var cn, an, dn := Aggregator.MinMax(Commits(raw)), Aggregator.MinMax(Additions(raw)), Aggregator.MinMax(Deletions(raw));
      forall i | 0 <= i < |raw| ensures 0.0 <= AuthorScores(raw)[i] <= 1.0 {
        BlendBetween(cn[i], an[i], dn[i]);
      }
    }
  }

  lemma {:induction false} PercentBetween(s: seq<real>, i: int)
    requires forall j :: 0 <= j < |s| ==> s[j] >= 0.0
    requires 0 <= i < |s|
    ensures 0.0 <= s[i] / TotalScore(s) * 100.0 <= 100.0
  {
    SumAtLeast(s, i);
    var t := TotalScore(s);
    assert t > 0.0 && s[i] <= t;
    assert s[i] / t <= 1.0 by {
      DivideBetween(s[i], t, 0.0, 1.0);
    }
  }

  /**
    The ranking lists every author once, as the stable descending sort of the
    scores puts them: ranks run 1..n, the tallies are the author's, scores lie
    in [0, 1] and do not increase down the list, and each percentage of the
    total lies in [0, 100].
   */
  lemma {:induction false} RankingSpec(raw: seq<(string, Tally)>)
    ensures var r, order, s := RankingOf(raw), RankOrder(raw), AuthorScores(raw);
      multiset(order) == multiset(Scoring.Range(|raw|)) && Scoring.SortedBy(s, order) &&
      forall k :: 0 <= k < |r| ==>
        r[k].rank == k + 1 && r[k].author == raw[order[k]].0 && r[k].commits == raw[order[k]].1.commits &&
        r[k].additions == raw[order[k]].1.additions && r[k].deletions == raw[order[k]].1.deletions &&
        r[k].score == s[order[k]] && 0.0 <= r[k].score <= 1.0 && 0.0 <= r[k].percent <= 100.0
  {
    var r, order, s := RankingOf(raw), RankOrder(raw), AuthorScores(raw);
    Scoring.SortOrderSorted(s, |raw|);
    ScoresUnit(raw);
    forall k | 0 <= k < |r| ensures 0.0 <= r[k].percent <= 100.0 {
      PercentBetween(s, order[k]);
    }
  }

  /** Down the ranking the scores never increase. */
  lemma {:induction false} RankingDescending(raw: seq<(string, Tally)>)
    ensures forall k, l :: 0 <= k < l < |RankingOf(raw)| ==> RankingOf(raw)[k].score >= RankingOf(raw)[l].score
  {
    var r, order, s := RankingOf(raw), RankOrder(raw), AuthorScores(raw);
    Scoring.SortOrderSorted(s, |raw|);
    forall k, l | 0 <= k < l < |r| ensures r[k].score >= r[l].score {
      assert Scoring.Before(s, order[k], order[l]);
    }
  }

  // ---------------------------------------------------------------- the upload registry

  datatype Status = Uploaded | Confirmed | Parsed | ParseFailed

  function StatusName(s: Status): string {
    match s
    case Uploaded => "uploaded"
    case Confirmed => "confirmed"
    case Parsed => "parsed"
    case ParseFailed => "parse_failed"
  }

  /** `entry.parseInfo` when it is not null. */
  datatype ParseInfo = ParseInfo(jsonPath: Option<string>, message: string)

  /** What multer hands the handler as `req.file`. */
  datatype UploadedFile = UploadedFile(originalName: string, mimetype: string, size: nat)

  /** One record of fileRegistry.json; `userType` is `null` or whatever type the confirm request named. */
  datatype Entry = Entry(
    id: string, originalName: string, storedName: string, storedPath: string, mimetype: string, size: nat,
    uploadDate: string, detectedType: string, userType: Json, status: Status, parseInfo: Option<ParseInfo>)

  /** A single path segment. */
  predicate NoSlash(s: string) {
    forall i :: 0 <= i < |s| ==> s[i] != '/'
  }

  lemma {:induction false} NoSlashConcat(a: string, b: string)
    requires NoSlash(a) && NoSlash(b)
    ensures NoSlash(a + b)
  {
    assert forall i :: |a| <= i < |a + b| ==> (a + b)[i] == b[i - |a|];
  }

  /** `path.basename(name, ext)`: the part after the last '/', without the suffix `ext`. */
  function Basename(name: string, ext: string): (b: string)
    ensures NoSlash(b)
  {
    var base := name[LastIndexOf(name, '/') + 1..];
    assert NoSlash(base) by { AfterLastSlash(name); }
    if ext != "" && EndsWith(base, ext) && base != ext then
      assert NoSlash(base[..|base| - |ext|]) by { NoSlashPrefix(base, |base| - |ext|); }
      base[..|base| - |ext|]
    else base
  }

  lemma {:induction false} AfterLastSlash(name: string)
    ensures NoSlash(name[LastIndexOf(name, '/') + 1..])
  {
    var k := LastIndexOf(name, '/') + 1;
    assert forall i :: 0 <= i < |name| - k ==> name[k..][i] == name[k + i];
  }

  lemma {:induction false} NoSlashPrefix(s: string, n: nat)
    requires NoSlash(s) && n <= |s|
    ensures NoSlash(s[..n])
  {
    assert forall i :: 0 <= i < n ==> s[..n][i] == s[i];
  }

  /** multer's file name `${base}__${ts}${ext}`, with the upload time `ts` in milliseconds. */
  function StoredName(originalName: string, ts: nat): (r: string)
    ensures Contains(r, "__")
    ensures NoSlash(r)
  {
    var ext := CombineDocs.Extname(originalName);
    var b := Basename(originalName, ext);
    var r := b + "__" + NatToString(ts) + ext;
    assert OccursAt(r, "__", |b|) by {
      assert r[|b|..|b| + 2] == "__";
    }
    assert NoSlash(r) by {
      NoSlashConcat(b, "__");
      NoSlashConcat(b + "__", NatToString(ts));
      NoSlashConcat(b + "__" + NatToString(ts), ext);
    }
    r
  }

  /** The entry `POST /api/uploads` appends, uploaded at `ts` (milliseconds) and `date` (ISO text). */
  function NewEntry(file: UploadedFile, userType: string, ts: nat, date: string): (e: Entry)
    ensures e.status == Uploaded && e.userType == JNull && e.parseInfo.None?
    ensures e.id == e.storedName && e.storedPath == "uploads/" + e.storedName && Contains(e.storedName, "__")
    ensures e.originalName == file.originalName && e.uploadDate == date
    ensures e.detectedType == DetectTypeFromName(file.originalName, userType)
  {
    var stored := StoredName(file.originalName, ts);
    Entry(stored, file.originalName, stored, "uploads/" + stored, file.mimetype, file.size, date,
      DetectTypeFromName(file.originalName, userType), JNull, Uploaded, None)
  }

  /** `type && type !== "unknown" ? type : (entry.detectedType || "unknown")`. */
  function FinalType(kind: Json, detectedType: string): (t: Json)
    ensures Truthy(t)
    ensures Truthy(kind) && kind != JStr("unknown") ==> t == kind
    ensures !(Truthy(kind) && kind != JStr("unknown")) ==> t == JStr(if detectedType == "" then "unknown" else detectedType)
  {
    if Truthy(kind) && kind != JStr("unknown") then kind
    else if detectedType != "" then JStr(detectedType) else JStr("unknown")
  }

  datatype Parser = AttendanceParser | WorklogParser | SprintReportParser

  /** The parser the confirmed type and the lower-cased extension select, if any. */
  function ParserFor(t: Json, ext: string): (p: Option<Parser>)
    ensures p == Some(AttendanceParser) <==> t == JStr("attendance") && (ext == ".xlsx" || ext == ".xls")
    ensures p == Some(WorklogParser) <==> t == JStr("worklog") && (ext == ".docx" || ext == ".pdf")
    ensures p == Some(SprintReportParser) <==> t == JStr("sprint_report") && ext == ".docx"
  {
    if t == JStr("attendance") && (ext == ".xlsx" || ext == ".xls") then Some(AttendanceParser)
    else if t == JStr("worklog") && (ext == ".docx" || ext == ".pdf") then Some(WorklogParser)
    else if t == JStr("sprint_report") && ext == ".docx" then Some(SprintReportParser)
    else None
  }

  /** `path.extname(absPath).toLowerCase()`. */
  function ExtOf(storedPath: string): string {
    ToLower(CombineDocs.Extname(storedPath))
  }

  /** The directory part of a relative path, with its trailing '/' ("" for a bare name). */
  function DirPrefix(p: string): string {
    p[..LastIndexOf(p, '/') + 1]
  }

  /**
    The jsonPath recorded for a successful parse: the upload with its extension
    replaced by ".json" (the first occurrence, as `String.replace` does), or the
    fixed sprint_report_summary.json beside it.
   */
  function OutputPath(p: Parser, storedPath: string, ext: string): string {
    if p == SprintReportParser then DirPrefix(storedPath) + SprintSummary
    else ReplaceFirst(storedPath, ext, ".json")
  }

  /** The file the sprint report parser always writes, beside its input. */
  const SprintSummary := "sprint_report_summary.json"

  function FailurePrefix(p: Parser): string {
    match p
    case AttendanceParser => "Attendance parse failed: "
    case WorklogParser => "Worklog parse failed: "
    case SprintReportParser => "Sprint report parse failed: "
  }

  function SuccessMessage(p: Parser): string {
    match p
    case AttendanceParser => "Attendance parsed"
    case WorklogParser => "Worklog parsed"
    case SprintReportParser => "Sprint report parsed successfully"
  }

  const NoParserRun := "No parser run for this type."

  /**
    An entry's invariant: a fresh upload has no type and no parse info; a
    confirmed one has a type and either no parser for it, or a parse outcome
    whose success is recorded with a non-empty jsonPath.
   */
  predicate WellFormed(e: Entry) {
    (e.status == Uploaded ==> e.userType == JNull && e.parseInfo.None?) &&
    (e.status != Uploaded ==> Truthy(e.userType) && e.parseInfo.Some?) &&
    (e.status == Confirmed ==> e.parseInfo == Some(ParseInfo(None, NoParserRun))) &&
    (e.status == Parsed || e.status == ParseFailed ==> ParserFor(e.userType, ExtOf(e.storedPath)).Some?) &&
    (e.status == Parsed ==> e.parseInfo.value.jsonPath.Some? && e.parseInfo.value.jsonPath.value != "") &&
    (e.status == ParseFailed ==> e.parseInfo.value.jsonPath.None?)
  }

  lemma {:induction false} ReplaceFirstNonEmpty(s: string, pat: string, rep: string)
    requires s != [] && rep != []
    ensures ReplaceFirst(s, pat, rep) != []
  {
  }

  /**
    The entry after `POST /api/uploads/confirm` and the parser run it starts,
    whose failure text (`stderr || err.message`) is `failure` when it fails.
    Only the type, the status and the parse info change.
   */
  function ConfirmEntry(e: Entry, kind: Json, failure: Option<string>): (r: Entry)
    ensures r == e.(userType := r.userType, status := r.status, parseInfo := r.parseInfo)
    ensures r.userType == FinalType(kind, e.detectedType)
    ensures r.status == Confirmed <==> ParserFor(r.userType, ExtOf(e.storedPath)).None?
    ensures r.status == Parsed <==> ParserFor(r.userType, ExtOf(e.storedPath)).Some? && failure.None?
    ensures r.status == ParseFailed <==> ParserFor(r.userType, ExtOf(e.storedPath)).Some? && failure.Some?
    ensures r.status == Parsed ==> var p := ParserFor(r.userType, ExtOf(e.storedPath)).value;
      r.parseInfo == Some(ParseInfo(Some(OutputPath(p, e.storedPath, ExtOf(e.storedPath))), SuccessMessage(p)))
    ensures r.status == ParseFailed ==> var p := ParserFor(r.userType, ExtOf(e.storedPath)).value;
      r.parseInfo == Some(ParseInfo(None, FailurePrefix(p) + failure.value))
    ensures WellFormed(r)
  {
    var t := FinalType(kind, e.detectedType);
    var ext := ExtOf(e.storedPath);
    var c := e.(userType := t, status := Confirmed);
    match ParserFor(t, ext)
    case None => c.(parseInfo := Some(ParseInfo(None, NoParserRun)))
    case Some(p) =>
      if failure.Some? then c.(status := ParseFailed, parseInfo := Some(ParseInfo(None, FailurePrefix(p) + failure.value)))
      else
        assert p != SprintReportParser ==> e.storedPath != [] by {
          assert CombineDocs.Extname(e.storedPath) != [];
        }
        ReplaceFirstNonEmpty(e.storedPath, ext, ".json");
        c.(status := Parsed, parseInfo := Some(ParseInfo(Some(OutputPath(p, e.storedPath, ext)), SuccessMessage(p))))
  }

  /** The directory part of `dir + name`, for a directory ending in '/' and a single segment `name`. */
  lemma {:induction false} DirPrefixOf(dir: string, name: string)
    requires dir != [] && dir[|dir| - 1] == '/' && NoSlash(name)
    ensures DirPrefix(dir + name) == dir
  {
    var p := dir + name;
    var k := LastIndexOf(p, '/');
    assert p[|dir| - 1] == '/';
    assert forall j :: |dir| <= j < |p| ==> p[j] == name[j - |dir|];
    assert k == |dir| - 1;
    assert p[..k + 1] == dir;
  }

  /** A sprint report uploaded here is always recorded as uploads/sprint_report_summary.json, whatever its name. */
  lemma {:induction false} SprintReportPath(originalName: string, ts: nat, ext: string)
    ensures OutputPath(SprintReportParser, "uploads/" + StoredName(originalName, ts), ext) == "uploads/" + SprintSummary
  {
    DirPrefixOf("uploads/", StoredName(originalName, ts));
  }

  /** How fileRegistry.json stores an entry, as the documentation combiner reads it. */
  function EntryJson(e: Entry): Json {
    JObj([("id", JStr(e.id)), ("originalName", JStr(e.originalName)), ("storedName", JStr(e.storedName)),
      ("storedPath", JStr(e.storedPath)), ("mimetype", JStr(e.mimetype)), ("size", JNum(e.size as real)),
      ("uploadDate", JStr(e.uploadDate)), ("detectedType", JStr(e.detectedType)), ("userType", e.userType),
      ("status", JStr(StatusName(e.status))), ("parseInfo", ParseInfoJson(e.parseInfo))])
  }

  function ParseInfoJson(pi: Option<ParseInfo>): Json {
    match pi
    case None => JNull
    case Some(ParseInfo(None, m)) => JObj([("message", JStr(m))])
    case Some(ParseInfo(Some(p), m)) => JObj([("jsonPath", JStr(p)), ("message", JStr(m))])
  }

  /**
    The documentation combiner reads exactly the parsed worklogs and sprint
    reports of this registry: a project plan is never parsed here, so it never
    reaches the combiner from an upload.
   */
  lemma {:induction false} CombinerReadsParsedReports(e: Entry)
    requires WellFormed(e)
    ensures CombineDocs.Candidate(EntryJson(e)) <==>
      e.status == Parsed && (e.userType == JStr("worklog") || e.userType == JStr("sprint_report"))
  {
    EntryFields(e);
  }

  const EntryKeys: seq<string> := ["id", "originalName", "storedName", "storedPath", "mimetype", "size",
    "uploadDate", "detectedType", "userType", "status", "parseInfo"]

  lemma {:induction false} EntryKeysOf(e: Entry)
    ensures Keys(EntryJson(e).fields) == EntryKeys
  {
  }

  /** The fields of an entry's JSON form that the combiner reads. */
  lemma {:induction false} EntryFields(e: Entry)
    ensures Field(EntryJson(e), "userType") == e.userType
    ensures Field(EntryJson(e), "detectedType") == JStr(e.detectedType)
    ensures Field(EntryJson(e), "status") == JStr(StatusName(e.status))
    ensures CombineDocs.JsonPathOf(EntryJson(e)) ==
      if e.parseInfo.Some? && e.parseInfo.value.jsonPath.Some? then JStr(e.parseInfo.value.jsonPath.value) else JNull
  {
    DetectedTypeField(e);
    UserTypeField(e);
    StatusField(e);
    JsonPathField(e);
  }

  lemma {:induction false} DetectedTypeField(e: Entry)
    ensures Field(EntryJson(e), "detectedType") == JStr(e.detectedType)
  {
    assert forall j :: 0 <= j < 7 ==> EntryKeys[j] != "detectedType";
    FieldAt(e, "detectedType", 7);
  }

  lemma {:induction false} JsonPathField(e: Entry)
    ensures CombineDocs.JsonPathOf(EntryJson(e)) ==
      if e.parseInfo.Some? && e.parseInfo.value.jsonPath.Some? then JStr(e.parseInfo.value.jsonPath.value) else JNull
  {
    ParseInfoField(e);
    var pi := ParseInfoJson(e.parseInfo);
    if pi.JObj? && |pi.fields| == 2 {
      assert Field(pi, "jsonPath") == pi.fields[0].1 by {
        GetFirst(pi.fields, 0);
      }
    }
  }

  lemma {:induction false} UserTypeField(e: Entry)
    ensures Field(EntryJson(e), "userType") == e.userType
  {
    assert forall j :: 0 <= j < 8 ==> EntryKeys[j] != "userType";
    FieldAt(e, "userType", 8);
  }

  lemma {:induction false} StatusField(e: Entry)
    ensures Field(EntryJson(e), "status") == JStr(StatusName(e.status))
  {
    assert forall j :: 0 <= j < 9 ==> EntryKeys[j] != "status";
    FieldAt(e, "status", 9);
  }

  lemma {:induction false} ParseInfoField(e: Entry)
    ensures Field(EntryJson(e), "parseInfo") == ParseInfoJson(e.parseInfo)
  {
    assert forall j :: 0 <= j < 10 ==> EntryKeys[j] != "parseInfo";
    FieldAt(e, "parseInfo", 10);
  }

  lemma {:induction false} FieldAt(e: Entry, key: string, i: nat)
    requires i < |EntryKeys| && EntryKeys[i] == key && forall j :: 0 <= j < i ==> EntryKeys[j] != key
    ensures Field(EntryJson(e), key) == EntryJson(e).fields[i].1
  {
    EntryKeysOf(e);
    GetFirst(EntryJson(e).fields, i);
  }

  // ---------------------------------------------------------------- the registry as a store

  /** fileRegistry.json, reloaded and rewritten by each handler. */
  class UploadRegistry {
    var entries: seq<Entry>

    predicate Valid()
      reads this
    {
      forall i :: 0 <= i < |entries| ==> WellFormed(entries[i])
    }

    /** The registry file as the server creates it: an empty list. */
    constructor ()
      ensures entries == [] && Valid()
    {
      entries := [];
    }

    /** `POST /api/uploads`: without a file nothing changes; otherwise one new entry is appended. */
    method Upload(file: Option<UploadedFile>, userType: string, ts: nat, date: string) returns (r: Reply<Entry>)
      requires Valid()
      modifies this
      ensures Valid()
      ensures file.None? ==> r == Refused(400, "No file uploaded") && entries == old(entries)
      ensures file.Some? ==> r == Sent(200, NewEntry(file.value, userType, ts, date)) && entries == old(entries) + [r.value]
    {
      if file.None? {
        return Refused(400, "No file uploaded");
      }
      var entry := NewEntry(file.value, userType, ts, date);
      assert WellFormed(entry);
      ghost var before := entries;
      entries := entries + [entry];
      forall i | 0 <= i < |entries|
        ensures WellFormed(entries[i])
      {
        if i < |before| {
          assert entries[i] == before[i];
        }
      }
      r := Sent(200, entry);
    }

    /**
      `POST /api/uploads/confirm`: a missing id is refused with 400 and an
      unknown one with 404; otherwise the first entry with that id is confirmed
      and parsed, and no other entry changes.
     */
    method Confirm(id: Json, kind: Json, failure: Option<string>) returns (r: Reply<Entry>)
      requires Valid()
      modifies this
      ensures Valid()
      ensures !Truthy(id) ==> r == Refused(400, "Missing id") && entries == old(entries)
      ensures Truthy(id) && FindUpload(old(entries), id) == -1 ==>
        r == Refused(404, "Upload not found") && entries == old(entries)
      ensures Truthy(id) && FindUpload(old(entries), id) >= 0 ==>
        var i := FindUpload(old(entries), id);
        entries == old(entries)[i := ConfirmEntry(old(entries)[i], kind, failure)] && r == Sent(200, entries[i])
    {
      if !Truthy(id) {
        return Refused(400, "Missing id");
      }
      var i := FindUpload(entries, id);
      if i == -1 {
        return Refused(404, "Upload not found");
      }
      var entry := ConfirmUpload(entries[i], kind, failure);
      ghost var before := entries;
      entries := entries[i := entry];
      forall j | 0 <= j < |entries|
        ensures WellFormed(entries[j])
      {
        if j != i {
          assert entries[j] == before[j];
        }
      }
      r := Sent(200, entry);
    }
  }

  /** The confirm handler's update of one entry: final type, status, then the parser's outcome. */
  method ConfirmUpload(e: Entry, kind: Json, failure: Option<string>) returns (entry: Entry)
    ensures entry == ConfirmEntry(e, kind, failure)
  {
    var finalType := FinalType(kind, e.detectedType);
    entry := e.(userType := finalType, status := Confirmed);
    var ext := ExtOf(entry.storedPath);
    var parser := ParserFor(finalType, ext);
    if parser.None? {
      entry := entry.(parseInfo := Some(ParseInfo(None, NoParserRun)));
    } else if failure.Some? {
      entry := entry.(status := ParseFailed, parseInfo := Some(ParseInfo(None, FailurePrefix(parser.value) + failure.value)));
    } else {
      var jsonPath := OutputPath(parser.value, entry.storedPath, ext);
      entry := entry.(status := Parsed, parseInfo := Some(ParseInfo(Some(jsonPath), SuccessMessage(parser.value))));
    }
  }

  /** `registry.find(r => r.id === id)`: the position of the first entry with that id, or -1. */
  function FindUpload(entries: seq<Entry>, id: Json): (i: int)
    ensures -1 <= i < |entries|
    ensures i == -1 <==> forall j :: 0 <= j < |entries| ==> JStr(entries[j].id) != id
    ensures i >= 0 ==> JStr(entries[i].id) == id && forall j :: 0 <= j < i ==> JStr(entries[j].id) != id
  {
    if entries == [] then -1
    else if JStr(entries[0].id) == id then 0
    else
      var i := FindUpload(entries[1..], id);
      assert forall j :: 1 <= j < |entries| ==> entries[j] == entries[1..][j - 1];
      if i == -1 then -1 else i + 1
  }

  /** An entry's status never returns to "uploaded", and confirming again re-runs the same choice of parser. */
  lemma {:induction false} ConfirmNeverUploaded(e: Entry, kind: Json, failure: Option<string>)
    ensures ConfirmEntry(e, kind, failure).status != Uploaded
    ensures var r := ConfirmEntry(e, kind, failure);
      ConfirmEntry(r, kind, failure) == r
  {
  }
}
