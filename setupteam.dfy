/**
  The team set-up page (frontend/src/pages/SetupTeam.jsx): the student list it
  reads from pasted CSV text, the `{url, owner, repo}` object it makes of the
  repository URL, and the checks it makes before posting a new team. The URL
  parser is an oracle from a text to its pathname (`None` when `new URL`
  throws).
 */
module SetupTeamPage {
  import opened Wrappers
  import opened Strings
  import opened JsonValue
  import opened AssocList
  import opened RepoUrl
  import FetchData
  import Teams
  import opened Lists

  // ---------------------------------------------------------------- parseCsv

  datatype Student = Student(name: string, email: string)

  /**
    `text.split(/\r?\n/).map(r => r.trim()).filter(Boolean)`, given the pieces
    of the text split at '\n': a '\r' left before a split point is whitespace,
    so trimming removes it just as the regex separator would have.
   */
  function Rows(pieces: seq<string>): (rows: seq<string>)
    ensures |rows| <= |pieces|
    ensures forall k :: 0 <= k < |rows| ==> rows[k] != "" && Trim(rows[k]) == rows[k]
  {
    if pieces == [] then []
    else
      var t := Trim(pieces[0]);
      assert Trim(t) == t by { TrimIdempotent(pieces[0]); }
      (if t != "" then [t] else []) + Rows(pieces[1..])
  }

  /** The rows of a pasted text. */
  function CsvRows(text: string): seq<string> {
    Rows(SplitAny(text, {'\n'}))
  }

  /** `const [name, email] = r.split(",").map(x => (x || "").trim())`, kept when both are non-empty. */
  function RowStudent(row: string): Option<Student> {
    var parts := SplitAny(row, {','});
    var name := Trim(parts[0]);
    var email := if |parts| > 1 then Trim(parts[1]) else "";
    if name != "" && email != "" then Some(Student(name, email)) else None
  }

  /** The students the rows name, in row order. */
  function StudentsOf(rows: seq<string>): seq<Student> {
    Collect(rows, RowStudent)
  }

  /** `parseCsv(text)`: the rows of the text, then the loop over them. */
  method ParseCsv(text: string) returns (out: seq<Student>)
    ensures out == StudentsOf(CsvRows(text))
  {
    var rows := CsvRows(text);
    out := ReadRows(rows);
  }

  /** The loop of `parseCsv`: `out.push({ name, email })` for each row that names both. */
  method ReadRows(rows: seq<string>) returns (out: seq<Student>)
    ensures out == StudentsOf(rows)
  {
    out := [];
    for i := 0 to |rows|
      invariant out == StudentsOf(rows[..i])
    {
      var read := RowStudent(rows[i]);
      StudentsOfSnoc(rows, i);
      if read.Some? {
        out := out + [read.value];
      }
    }
    assert rows[..|rows|] == rows;
  }

  lemma {:induction false} StudentsOfSnoc(rows: seq<string>, i: nat)
    requires i < |rows|
    ensures RowStudent(rows[i]).None? ==> StudentsOf(rows[..i + 1]) == StudentsOf(rows[..i])
    ensures RowStudent(rows[i]).Some? ==> StudentsOf(rows[..i + 1]) == StudentsOf(rows[..i]) + [RowStudent(rows[i]).value]
  {
    assert rows[..i + 1] == rows[..i] + [rows[i]];
    CollectSnoc(rows[..i], rows[i], RowStudent);
  }

  /** Every student read has a non-empty, trimmed name and email without commas. */
  lemma {:induction false} RowStudentSpec(row: string)
    ensures RowStudent(row).Some? ==>
      var s := RowStudent(row).value;
      && s.name != "" && s.email != "" && Trim(s.name) == s.name && Trim(s.email) == s.email
      && ',' !in s.name && ',' !in s.email
  {
    var parts := SplitAny(row, {','});
    if RowStudent(row).Some? {
      TrimIdempotent(parts[0]);
      TrimIdempotent(parts[1]);
      assert ',' !in parts[0] by {
        assert forall j :: 0 <= j < |parts[0]| ==> parts[0][j] != ',';
      }
      assert ',' !in parts[1] by {
        assert forall j :: 0 <= j < |parts[1]| ==> parts[1][j] != ',';
      }
      TrimKeepsAbsent(parts[0], ',');
      TrimKeepsAbsent(parts[1], ',');
    }
  }

  /**
    The students of a text split in two at a line break are the students of
    each part, in order, and there are never more students than rows.
   */
  lemma {:induction false} StudentsOfRows(a: seq<string>, b: seq<string>)
    ensures StudentsOf(a + b) == StudentsOf(a) + StudentsOf(b)
    ensures |StudentsOf(a)| <= |a|
  {
    CollectAppend(a, b, RowStudent);
    CollectShorter(a, RowStudent);
  }

  /** A name or email that the CSV form carries unchanged: non-empty, trimmed, without commas or line breaks. */
  predicate CsvField(x: string) {
    x != "" && Trim(x) == x && ',' !in x && '\n' !in x
  }

  predicate WellFormed(s: Student) {
    CsvField(s.name) && CsvField(s.email)
  }

  /** The CSV row of a student. */
  function CsvLine(s: Student): string {
    s.name + "," + s.email
  }

  /** A row `name,email` (and any further fields) reads back as that student. */
  lemma {:induction false} RowRoundTrip(s: Student, extra: string)
    requires WellFormed(s)
    ensures RowStudent(CsvLine(s)) == Some(s)
    ensures RowStudent(CsvLine(s) + "," + extra) == Some(s)
  {
    var seps := {','};
    assert forall j :: 0 <= j < |s.name| ==> s.name[j] !in seps;
    assert forall j :: 0 <= j < |s.email| ==> s.email[j] !in seps;
    SplitAnyNone(s.name, seps);
    SplitAnyNone(s.email, seps);
    assert CsvLine(s) == s.name + [','] + s.email;
    SplitAnyConcat(s.name, ',', s.email, seps);
    var longer := CsvLine(s) + "," + extra;
    assert longer == s.name + [','] + (s.email + [','] + extra);
    SplitAnyConcat(s.name, ',', s.email + [','] + extra, seps);
    SplitAnyConcat(s.email, ',', extra, seps);
  }

  /** The student rows, in order. */
  function CsvLines(students: seq<Student>): (lines: seq<string>)
    ensures |lines| == |students| && forall i :: 0 <= i < |students| ==> lines[i] == CsvLine(students[i])
  {
    seq(|students|, i requires 0 <= i < |students| => CsvLine(students[i]))
  }

  /** The text of the student rows, one per line. */
  function CsvText(students: seq<Student>): string {
    Join(CsvLines(students), "\n")
  }

  /** Joining lines without line breaks and splitting at '\n' gives back the lines. */
  lemma {:induction false} SplitJoinLines(lines: seq<string>)
    requires |lines| > 0 && forall k :: 0 <= k < |lines| ==> '\n' !in lines[k]
    ensures SplitAny(Join(lines, "\n"), {'\n'}) == lines
  {
    var seps := {'\n'};
    assert forall j :: 0 <= j < |lines[0]| ==> lines[0][j] !in seps;
    SplitAnyNone(lines[0], seps);
    if |lines| > 1 {
      SplitJoinLines(lines[1..]);
      assert Join(lines, "\n") == lines[0] + ['\n'] + Join(lines[1..], "\n");
      SplitAnyConcat(lines[0], '\n', Join(lines[1..], "\n"), seps);
      assert lines == [lines[0]] + lines[1..];
    }
  }

  /** A line of a well-formed student is its own trimmed, non-blank row and has no line break. */
  lemma {:induction false} CsvLineShape(s: Student)
    requires WellFormed(s)
    ensures Trim(CsvLine(s)) == CsvLine(s) && CsvLine(s) != "" && '\n' !in CsvLine(s)
  {
    var l := CsvLine(s);
    assert l[0] == s.name[0] && l[|l| - 1] == s.email[|s.email| - 1];
    TrimOfNonSpaceEdges(l);
  }

  /** Rows already trimmed and non-blank are kept as they are. */
  lemma {:induction false} RowsOfTrimmed(lines: seq<string>)
    requires forall k :: 0 <= k < |lines| ==> lines[k] != "" && Trim(lines[k]) == lines[k]
    ensures Rows(lines) == lines
  {
    if lines != [] {
      RowsOfTrimmed(lines[1..]);
      assert lines == [lines[0]] + lines[1..];
    }
  }

  /** The students of rows that are each a student's line are those students. */
  lemma {:induction false} StudentsOfLines(students: seq<Student>)
    requires forall i :: 0 <= i < |students| ==> WellFormed(students[i])
    ensures StudentsOf(CsvLines(students)) == students
  {
    var lines := CsvLines(students);
    forall i | 0 <= i < |lines| ensures RowStudent(lines[i]) == Some(students[i]) {
      RowRoundTrip(students[i], "");
    }
    CollectAllRead(lines, RowStudent, students);
  }

  /** Pasting the rows of well-formed students reads back exactly those students, in order. */
  lemma {:induction false} CsvRoundTrip(students: seq<Student>)
    requires forall i :: 0 <= i < |students| ==> WellFormed(students[i])
    ensures StudentsOf(CsvRows(CsvText(students))) == students
  {
    var lines := CsvLines(students);
    if students == [] {
      assert lines == [];
      assert CsvText(students) == "";
      assert Trim("") == "";
      return;
    }
    forall k | 0 <= k < |lines| ensures lines[k] != "" && Trim(lines[k]) == lines[k] && '\n' !in lines[k] {
      CsvLineShape(students[k]);
    }
    SplitJoinLines(lines);
    RowsOfTrimmed(lines);
    StudentsOfLines(students);
  }

  // ---------------------------------------------------------------- normalizeRepo

  /** `normalizeRepo(url)`: `{url, owner, repo}` from the URL's path, or just `{url}` when it does not parse. */
  function NormalizeRepo(url: string, pathname: string -> Option<string>): Json {
    match pathname(url)
    case None => JObj([("url", JStr(url))])
    case Some(path) =>
      var parts := PathSegments(path);
      FetchData.RepoInfo(url, SegmentOr(parts, 0), StripGitSuffix(SegmentOr(parts, 1)))
  }

  /**
    For a URL with a scheme, the page stores the same owner and name that the
    commit fetcher later reads back from that URL; a URL that does not parse
    keeps only the url.
   */
  lemma {:induction false} NormalizeMatchesFetcher(url: string, pathname: string -> Option<string>)
    requires Contains(url, "://")
    ensures Field(NormalizeRepo(url, pathname), "url") == JStr(url)
    ensures pathname(url).Some? ==>
      var parsed := FetchData.ParseOwnerRepo(JStr(url), pathname);
      Field(NormalizeRepo(url, pathname), "owner") == JStr(parsed.0) &&
      Field(NormalizeRepo(url, pathname), "repo") == JStr(parsed.1)
    ensures pathname(url).None? ==> NormalizeRepo(url, pathname).fields == [("url", JStr(url))]
  {
    ContainsShorter(url, "://");
    var r := NormalizeRepo(url, pathname);
    GetFirst(r.fields, 0);
    if pathname(url).Some? {
      GetFirst(r.fields, 1);
      GetFirst(r.fields, 2);
    }
  }

  // ---------------------------------------------------------------- onCreate

  function StudentJson(s: Student): Json {
    JObj([("name", JStr(s.name)), ("email", JStr(s.email))])
  }

  /** The students as the body carries them. */
  function StudentsJson(students: seq<Student>): seq<Json> {
    seq(|students|, i requires 0 <= i < |students| => StudentJson(students[i]))
  }

  /** The body `onCreate` posts. */
  function CreateBody(name: string, code: string, repo: Json, students: seq<Student>): Json {
    JObj([("name", JStr(name)), ("code", JStr(code)), ("repo", repo), ("students", JArr(StudentsJson(students)))])
  }

  lemma {:induction false} CreateBodyFields(name: string, code: string, repo: Json, students: seq<Student>)
    ensures var body := CreateBody(name, code, repo, students);
      && Field(body, "name") == JStr(name) && Field(body, "code") == JStr(code)
      && Field(body, "repo") == repo && Field(body, "students") == JArr(StudentsJson(students))
  {
    var body := CreateBody(name, code, repo, students);
    assert Field(body, "name") == JStr(name) by { GetFirst(body.fields, 0); }
    assert Field(body, "code") == JStr(code) by { GetFirst(body.fields, 1); }
    assert Field(body, "repo") == repo by { GetFirst(body.fields, 2); }
    assert Field(body, "students") == JArr(StudentsJson(students)) by { GetFirst(body.fields, 3); }
  }

  /** `onCreate`'s checks, in order, before anything is posted; `Ok` holds the body. */
  function OnCreate(name: string, code: string, repoUrl: string, students: seq<Student>,
                    pathname: string -> Option<string>): Result<Json> {
    if Trim(name) == "" || Trim(code) == "" || Trim(repoUrl) == "" then
      Err("Team Name, Project Code, and Repository URL are required.")
    else if |students| == 0 then Err("Must include at least one student.")
    else Ok(CreateBody(Trim(name), Trim(code), NormalizeRepo(Trim(repoUrl), pathname), students))
  }

  /**
    What the page posts is always accepted by `POST /api/teams`: it has a
    name and a code, and the team created from it keeps the trimmed name and
    code, the normalised repository and the students as read.
   */
  lemma {:induction false} PostedBodyIsAccepted(name: string, code: string, repoUrl: string, students: seq<Student>,
                             pathname: string -> Option<string>, id: Json, createdAt: string)
    ensures OnCreate(name, code, repoUrl, students, pathname).Err? <==>
      Trim(name) == "" || Trim(code) == "" || Trim(repoUrl) == "" || |students| == 0
    ensures OnCreate(name, code, repoUrl, students, pathname).Ok? ==>
      var body := OnCreate(name, code, repoUrl, students, pathname).value;
      var t := Teams.NewTeam(body, id, createdAt);
      && Truthy(Field(body, "name")) && Truthy(Field(body, "code"))
      && Field(t, "name") == JStr(Trim(name)) && Field(t, "code") == JStr(Trim(code))
      && Field(t, "repo") == NormalizeRepo(Trim(repoUrl), pathname)
      && Field(t, "students") == JArr(StudentsJson(students))
  {
    if OnCreate(name, code, repoUrl, students, pathname).Ok? {
      var repo := NormalizeRepo(Trim(repoUrl), pathname);
      var body := CreateBody(Trim(name), Trim(code), repo, students);
      CreateBodyFields(Trim(name), Trim(code), repo, students);
      assert Truthy(repo);
      Teams.NewTeamFields(body, id, createdAt);
    }
  }
}
