/**
  backend/parser.py: the worklog reader the upload route runs. It shares the
  week segmentation of the parsers package version, but reads the hours from
  two table passes, fills a missing total from a "TOTAL WEEKLY TIME SPENT"
  line, drops bulleted task and learned items, sorts the literature block
  into literature and things learned, and strips bullets off issues.
 */
module WorklogDocx {
  import opened Wrappers
  import opened Strings
  import opened AssocList
  import opened Lists
  import opened WeekLog

  // ---------------------------------------------------------------- the phrases searched for

  const TotalTimeTriggers: seq<string> := ["TOTAL WEEKLY TIME SPENT"]
  const TasksTriggers: seq<string> := ["Key tasks done", "things attended"]
  const TasksStops: seq<string> := ["Key things learned", "Any literature", "Issues", "Plan for next week"]
  const LearnedTriggers: seq<string> := ["Key things learned about Computing Technology projects"]
  const LearnedStops: seq<string> := ["Any literature", "Issues", "Plan for next week"]
  const LiteratureTriggers: seq<string> := ["Any literature read and key things learned"]
  const LiteratureStops: seq<string> := ["Issues", "Plan for next week"]
  const IssuesTriggers: seq<string> := ["Issues/problems/Challenges", "Issues and problems:", "Issues/problems:"]
  const IssuesStops: seq<string> := ["Plan for next week", "Summary", "Week"]

  predicate TasksStop(p: string) { AnyCI(p, TasksStops) }
  predicate LearnedStop(p: string) { AnyCI(p, LearnedStops) }
  predicate LiteratureStop(p: string) { AnyCI(p, LiteratureStops) }
  predicate IssuesStop(p: string) { AnyCI(p, IssuesStops) }

  /** What a paragraph inside a week does. */
  datatype Part = TotalTime | Tasks | Learned | Literature | Issues | Other

  /** The five tests in the order the loop makes them; the first that matches wins. */
  function PartOf(p: string): (r: Part)
    ensures r == TotalTime <==> AnyCI(p, TotalTimeTriggers)
    ensures r == Tasks <==> !AnyCI(p, TotalTimeTriggers) && AnyCI(p, TasksTriggers)
    ensures r == Learned <==>
      !AnyCI(p, TotalTimeTriggers) && !AnyCI(p, TasksTriggers) && AnyCI(p, LearnedTriggers)
    ensures r == Literature <==>
      !AnyCI(p, TotalTimeTriggers) && !AnyCI(p, TasksTriggers) && !AnyCI(p, LearnedTriggers)
      && AnyCI(p, LiteratureTriggers)
    ensures r == Issues <==>
      !AnyCI(p, TotalTimeTriggers) && !AnyCI(p, TasksTriggers) && !AnyCI(p, LearnedTriggers)
      && !AnyCI(p, LiteratureTriggers) && AnyCI(p, IssuesTriggers)
  {
    if AnyCI(p, TotalTimeTriggers) then TotalTime
    else if AnyCI(p, TasksTriggers) then Tasks
    else if AnyCI(p, LearnedTriggers) then Learned
    else if AnyCI(p, LiteratureTriggers) then Literature
    else if AnyCI(p, IssuesTriggers) then Issues
    else Other
  }

  // ---------------------------------------------------------------- the items of a block

  /** The prefixes `str.startswith` is given: a tab after "o", a bullet, or a bare "o". */
  const BulletPrefixes: seq<string> := ["o\t", "\U{2022}", "o"]

  predicate Bulleted(t: string) {
    exists k :: 0 <= k < |BulletPrefixes| && StartsWith(t, BulletPrefixes[k])
  }

  /**
    The bare "o" makes the "o\t" prefix redundant: an item is dropped exactly
    when it starts with a bullet or with a lowercase 'o', whatever follows.
   */
  lemma {:induction false} BulletedIff(t: string)
    ensures Bulleted(t) <==> t != "" && (t[0] == 'o' || t[0] == '\U{2022}')
  {
    if t != "" && (t[0] == 'o' || t[0] == '\U{2022}') {
      var k := if t[0] == 'o' then 2 else 1;
      assert StartsWith(t, BulletPrefixes[k]);
    }
  }

  /** A task or learned item: the stripped text, unless empty or bulleted. */
  function KeptItem(p: string): Option<string> {
    var t := Trim(p);
    if t != "" && !Bulleted(t) then Some(t) else None
  }

  const LiteratureMarks: seq<string> :=
    ["http", "www", ".com", ".org", ".au", "arxiv", "sciencedirect", "youtube.com", ".pdf"]
  const ResearchWords: seq<string> := ["paper", "research", "journal", "proceedings", "conference"]

  /** What looks like literature: a link or domain, a research word, or more than 100 characters. */
  predicate IsLiterature(t: string) {
    AnyCI(t, LiteratureMarks) || AnyCI(t, ResearchWords) || |t| > 100
  }

  /** A kept item of the literature block that looks like literature. */
  function LiteratureItem(p: string): Option<string> {
    match KeptItem(p)
    case Some(t) => if IsLiterature(t) then Some(t) else None
    case None => None
  }

  /** A kept item of the literature block that does not, and goes to the things learned. */
  function LearnedItem(p: string): Option<string> {
    match KeptItem(p)
    case Some(t) => if IsLiterature(t) then None else Some(t)
    case None => None
  }

  /** Every kept item of the literature block goes to exactly one of the two lists. */
  lemma {:induction false} LiteratureSplit(p: string)
    ensures KeptItem(p).Some? <==> LiteratureItem(p).Some? || LearnedItem(p).Some?
    ensures !(LiteratureItem(p).Some? && LearnedItem(p).Some?)
    ensures LiteratureItem(p).Some? ==> LiteratureItem(p) == KeptItem(p)
    ensures LearnedItem(p).Some? ==> LearnedItem(p) == KeptItem(p)
  {
  }

  /** The characters of the class `[•\-\t\so]`. */
  predicate BulletChar(c: char) {
    c == '\U{2022}' || c == '-' || c == '\t' || IsSpace(c) || c == 'o'
  }

  /** `re.sub(r'^[•\-\t\so]+\s*', '', t)`: the leading run of bullet characters removed. */
  function StripBullets(t: string): (r: string)
    ensures |r| <= |t| && r == t[|t| - |r|..]
    ensures forall k :: 0 <= k < |t| - |r| ==> BulletChar(t[k])
    ensures r == "" || !BulletChar(r[0])
  {
    if t != "" && BulletChar(t[0]) then
      var r := StripBullets(t[1..]);
      assert forall k :: 1 <= k < |t| - |r| ==> t[k] == t[1..][k - 1];
      r
    else t
  }

  /** An issue: the stripped text without its leading bullets, unless nothing is left. */
  function IssueItem(p: string): Option<string> {
    var t := Trim(p);
    if t == "" then None
    else
      var c := StripBullets(t);
      if c != "" then Some(c) else None
  }

  /** The bare-"o" rule drops a task that merely starts with the word "ongoing". */
  lemma {:induction false} OngoingTaskDropped()
    ensures KeptItem("ongoing") == None
  {
    assert Trim("ongoing") == "ongoing" by {
      TrimOfNonSpaceEdges("ongoing");
    }
    assert StartsWith("ongoing", BulletPrefixes[2]);
  }

  /** The bullet class takes the leading 'o' of an issue: "ongoing" is kept as "ngoing". */
  lemma {:induction false} OngoingIssueClipped()
    ensures IssueItem("ongoing") == Some("ngoing")
  {
    assert Trim("ongoing") == "ongoing" by {
      TrimOfNonSpaceEdges("ongoing");
    }
    StripOngoing();
    IssueItemOf("ongoing", "ngoing");
  }

  lemma {:induction false} StripOngoing()
    ensures StripBullets("ongoing") == "ngoing"
  {
    var t := "ongoing";
    var u := "ngoing";
    assert t[1..] == u;
    StripBulletsStop(u);
    StripBulletsStep(t);
  }

  lemma {:induction false} StripBulletsStep(t: string)
    requires t != "" && BulletChar(t[0])
    ensures StripBullets(t) == StripBullets(t[1..])
  {
  }

  lemma {:induction false} StripBulletsStop(t: string)
    requires t != "" && !BulletChar(t[0])
    ensures StripBullets(t) == t
  {
  }

  /** A stripped paragraph whose bullets leave something is the issue that is left. */
  lemma {:induction false} IssueItemOf(p: string, c: string)
    requires Trim(p) == p != "" && StripBullets(p) == c != ""
    ensures IssueItem(p) == Some(c)
  {
  }

  // ---------------------------------------------------------------- one paragraph inside a week

  /** The end of the look-ahead window for the total: the paragraph and the next two. */
  function WindowEnd(ps: seq<string>, i: nat): (e: nat)
    requires i <= |ps|
    ensures i <= e <= |ps| && e <= i + 3
    ensures e == i + 3 || e == |ps|
  {
    if i + 3 < |ps| then i + 3 else |ps|
  }

  /**
    A paragraph inside a week. A total line fills a missing total from the
    first number in the window; a block trigger adds the items of the
    paragraphs after it, up to the block's terminator, and goes on at the
    terminator; any other paragraph is passed over.
   */
  function HandleDocx(ps: seq<string>, i: nat, w: WeekRecord): (r: (nat, WeekRecord))
    ensures i < |ps| ==> i < r.0 <= |ps|
    ensures r.1.week == w.week
    ensures w.totalHours.Some? ==> r.1.totalHours == w.totalHours
  {
    if i >= |ps| then (i, w)
    else match PartOf(ps[i])
      case TotalTime =>
        if w.totalHours.None? then (i + 1, w.(totalHours := First(ps[i..WindowEnd(ps, i)], FirstNumber)))
        else (i + 1, w)
      case Tasks =>
        var j := BlockEnd(ps, i + 1, TasksStop);
        (j, w.(tasksDone := w.tasksDone + Collect(ps[i + 1..j], KeptItem)))
      case Learned =>
        var j := BlockEnd(ps, i + 1, LearnedStop);
        (j, w.(keyLearned := w.keyLearned + Collect(ps[i + 1..j], KeptItem)))
      case Literature =>
        var j := BlockEnd(ps, i + 1, LiteratureStop);
        (j, w.(literature := w.literature + Collect(ps[i + 1..j], LiteratureItem),
               keyLearned := w.keyLearned + Collect(ps[i + 1..j], LearnedItem)))
      case Issues =>
        var j := BlockEnd(ps, i + 1, IssuesStop);
        (j, w.(issues := w.issues + Collect(ps[i + 1..j], IssueItem)))
      case Other => (i + 1, w)
  }

  /** Every iteration moves `i` forward, so the scan ends. */
  lemma {:induction false} HandlerAdvances()
    ensures Advances(HandleDocx)
  {
    forall ps: seq<string>, i: nat, w: WeekRecord | i < |ps|
      ensures i < HandleDocx(ps, i, w).0 <= |ps| && HandleDocx(ps, i, w).1.week == w.week
    {
    }
  }

  /** The records of a paragraph list, given the table hours. */
  function ParseParagraphs(ps: seq<string>, hours: Hours): seq<WeekRecord> {
    HandlerAdvances();
    ScanAll(ps, hours, WeekHeader, HandleDocx)
  }

  // ---------------------------------------------------------------- what the records hold

  /** Each record is opened by a header paragraph naming its week, in header order. */
  lemma {:induction false} RecordsFollowHeaders(ps: seq<string>, hours: Hours)
    ensures exists hs :: OpenedAt(ps, WeekHeader, ParseParagraphs(ps, hours), hs)
  {
    HandlerAdvances();
    ScanOrder(ps, hours, WeekHeader, HandleDocx);
    var hs :| OpenedAt(ps, WeekHeader, ScanAll(ps, hours, WeekHeader, HandleDocx), hs);
    assert OpenedAt(ps, WeekHeader, ParseParagraphs(ps, hours), hs);
  }

  /** A list without any header paragraph gives no records. */
  lemma {:induction false} NoHeaderNoWeeks(ps: seq<string>, hours: Hours)
    requires forall m :: 0 <= m < |ps| ==> WeekHeader(ps[m]).None?
    ensures ParseParagraphs(ps, hours) == []
  {
    HandlerAdvances();
    NoHeaderNoRecords(ps, hours, WeekHeader, HandleDocx);
  }

  /**
    A record's total: the table hours of its week when the tables give them;
    otherwise nothing, or the first number of some paragraph of the document
    (one at most two paragraphs after a total line).
   */
  predicate TotalFrom(ps: seq<string>, hours: Hours, w: WeekRecord) {
    && (Get(hours, w.week).Some? ==> w.totalHours == Get(hours, w.week))
    && (w.totalHours.Some? && Get(hours, w.week).None? ==>
        exists k :: 0 <= k < |ps| && FirstNumber(ps[k]) == w.totalHours)
  }

  /** One paragraph inside a week keeps `TotalFrom`. */
  lemma {:induction false} HandleKeepsTotal(ps: seq<string>, hours: Hours, m: nat, w: WeekRecord)
    requires TotalFrom(ps, hours, w)
    ensures TotalFrom(ps, hours, HandleDocx(ps, m, w).1)
  {
    if m < |ps| && PartOf(ps[m]) == TotalTime && w.totalHours.None? {
      var e := WindowEnd(ps, m);
      var h := First(ps[m..e], FirstNumber);
      assert HandleDocx(ps, m, w).1 == w.(totalHours := h);
      if h.Some? {
        var i :| 0 <= i < |ps[m..e]| && FirstNumber(ps[m..e][i]) == h && forall l :: 0 <= l < i ==> FirstNumber(ps[m..e][l]).None?;
        assert ps[m..e][i] == ps[m + i];
      }
    }
  }

  /** What `TotalFrom` says holds of every record of the list. */
  lemma {:induction false} RecordTotals(ps: seq<string>, hours: Hours)
    ensures forall k :: 0 <= k < |ParseParagraphs(ps, hours)| ==> TotalFrom(ps, hours, ParseParagraphs(ps, hours)[k])
  {
    HandlerAdvances();
    forall m: nat, w: WeekRecord | m < |ps| && TotalFrom(ps, hours, w) ensures TotalFrom(ps, hours, HandleDocx(ps, m, w).1) {
      HandleKeepsTotal(ps, hours, m, w);
    }
    var p := (w: WeekRecord) => TotalFrom(ps, hours, w);
    ScanKeeps(ps, hours, WeekHeader, HandleDocx, 0, None, [], p);
  }

  /** A task or learned item as the filter lets it through. */
  predicate CleanItem(x: string) {
    x != "" && !Bulleted(x)
  }

  predicate CleanLiterature(x: string) {
    CleanItem(x) && IsLiterature(x)
  }

  predicate CleanIssue(x: string) {
    x != "" && !BulletChar(x[0])
  }

  /**
    The items of a record: no task or learned item is empty or bulleted,
    every literature item looks like literature, and no issue is empty or
    starts with a bullet character.
   */
  predicate ItemsClean(w: WeekRecord) {
    && (forall x :: x in w.tasksDone ==> CleanItem(x))
    && (forall x :: x in w.keyLearned ==> CleanItem(x))
    && (forall x :: x in w.literature ==> CleanLiterature(x))
    && (forall x :: x in w.issues ==> CleanIssue(x))
  }

  /** The item functions only let clean items through. */
  lemma {:induction false} ItemFilters(xs: seq<string>)
    ensures forall x :: x in Collect(xs, KeptItem) ==> CleanItem(x)
    ensures forall x :: x in Collect(xs, LearnedItem) ==> CleanItem(x)
    ensures forall x :: x in Collect(xs, LiteratureItem) ==> CleanLiterature(x)
    ensures forall x :: x in Collect(xs, IssueItem) ==> CleanIssue(x)
  {
    CollectIn(xs, KeptItem, CleanItem);
    CollectIn(xs, LearnedItem, CleanItem);
    CollectIn(xs, LiteratureItem, CleanLiterature);
    CollectIn(xs, IssueItem, CleanIssue);
  }

  /** One paragraph inside a week keeps the items clean. */
  lemma {:induction false} HandleKeepsClean(ps: seq<string>, m: nat, w: WeekRecord)
    requires ItemsClean(w)
    ensures ItemsClean(HandleDocx(ps, m, w).1)
  {
    if m < |ps| && PartOf(ps[m]) != TotalTime && PartOf(ps[m]) != Other {
      var stop := match PartOf(ps[m])
        case Tasks => TasksStop case Learned => LearnedStop case Literature => LiteratureStop case _ => IssuesStop;
      ItemFilters(ps[m + 1..BlockEnd(ps, m + 1, stop)]);
    }
  }

  /** What `ItemsClean` says holds of every record of the list. */
  lemma {:induction false} RecordItemsClean(ps: seq<string>, hours: Hours)
    ensures forall k :: 0 <= k < |ParseParagraphs(ps, hours)| ==> ItemsClean(ParseParagraphs(ps, hours)[k])
  {
    HandlerAdvances();
    forall m: nat, w: WeekRecord | m < |ps| && ItemsClean(w) ensures ItemsClean(HandleDocx(ps, m, w).1) {
      HandleKeepsClean(ps, m, w);
    }
    ScanKeeps(ps, hours, WeekHeader, HandleDocx, 0, None, [], ItemsClean);
  }

  /** A paragraph with a week header ends an issues block. */
  lemma {:induction false} HeaderStopsIssues(x: string)
    requires WeekHeader(x).Some?
    ensures IssuesStop(x)
  {
    HeaderMentionsWeek(x);
    assert IssuesStops[2] == "Week";
  }

  /** An issues block never runs past a week header. */
  lemma {:induction false} IssuesEndAtHeader(ps: seq<string>, i: nat, w: WeekRecord)
    requires i < |ps| && PartOf(ps[i]) == Issues
    ensures forall k :: i < k < HandleDocx(ps, i, w).0 ==> WeekHeader(ps[k]).None?
  {
    forall k | i < k < HandleDocx(ps, i, w).0 ensures WeekHeader(ps[k]).None? {
      if WeekHeader(ps[k]).Some? {
        HeaderStopsIssues(ps[k]);
      }
    }
  }

  // ---------------------------------------------------------------- the table hours

  /** `re.search(r"^\s*(\d+\.?\d*)\s*$", t)` on a stripped cell: the whole text is one number. */
  function WholeNumber(t: string): (r: Option<real>)
    ensures r.Some? ==> t != "" && IsDigit(t[0]) && r.value >= 0.0
  {
    if t != "" && IsDigit(t[0]) && LeadingDecimal(t).1 == |t| then Some(LeadingDecimal(t).0) else None
  }

  /** A printed whole number reads back as itself. */
  lemma {:induction false} WholeNumberOfNat(n: nat)
    ensures WholeNumber(NatToString(n)) == Some(n as real)
  {
    var s := NatToString(n);
    DigitRunOfDigits(s);
    assert s[..DigitRun(s)] == s;
    NatToStringRoundTrip(n);
  }

  /** A cell of a week row: its whole text a number of hours in (0, 40]. */
  function CellHours(cell: string): Option<real> {
    match WholeNumber(Trim(cell))
    case Some(h) => if 0.0 < h <= 40.0 then Some(h) else None
    case None => None
  }

  /** `' '.join(cell.text.strip() for cell in row.cells)`. */
  function RowText(cells: seq<string>): string {
    Join(TrimAll(cells), " ")
  }

  /** The first pass's entry for a row: the week its text names and its first hours cell. */
  function WeekRowHours(cells: seq<string>): Option<(nat, real)> {
    match WeekHeader(RowText(cells))
    case None => None
    case Some(n) =>
      match First(cells, CellHours)
      case None => None
      case Some(h) => Some((n, h))
  }

  function FirstPassEntries(tables: seq<Table>): seq<(nat, real)> {
    Collect(Flatten(tables), WeekRowHours)
  }

  /** The marker of the cumulative summary table (a case-sensitive substring test). */
  predicate TotalMarker(cell: string) {
    Contains(Trim(cell), "Total hours spent this week")
  }

  /**
    The second pass's entry for a later row, below a marker in column `j`: the
    first number of its cell `j` and the first integer of its first cell.
   */
  function CumulativeEntry(j: nat, row: seq<string>): Option<(nat, real)> {
    if j < |row| then
      match FirstNumber(Trim(row[j]))
      case None => None
      case Some(h) =>
        match FirstInteger(Trim(row[0]))
        case None => None
        case Some(n) => Some((n, h))
    else None
  }

  function CumulativeAt(j: nat): seq<string> -> Option<(nat, real)> {
    row => CumulativeEntry(j, row)
  }

  function SecondPassEntries(tables: seq<Table>): seq<(nat, real)> {
    BelowTables(tables, |tables|, TotalMarker, CumulativeAt)
  }

  /** `extract_hours_from_tables`: the first pass, then the second writing over it. */
  function TableHours(tables: seq<Table>): Hours {
    PutAll(PutAll([], FirstPassEntries(tables)), SecondPassEntries(tables))
  }

  /** A first-pass entry for a row: the week its joined text names, and hours in (0, 40] of one of its cells. */
  predicate FirstPassEntry(e: (nat, real)) {
    0.0 < e.1 <= 40.0
  }

  /** A row of the tables naming week `e.0` in its joined text and holding hours `e.1` in a cell. */
  predicate RowGives(rows: seq<seq<string>>, row: seq<string>, e: (nat, real)) {
    row in rows && WeekHeader(RowText(row)) == Some(e.0) && exists c :: 0 <= c < |row| && CellHours(row[c]) == Some(e.1)
  }

  /** The entry of one week row. */
  lemma {:induction false} WeekRowEntry(row: seq<string>, e: (nat, real))
    requires WeekRowHours(row) == Some(e)
    ensures FirstPassEntry(e) && RowGives([row], row, e)
  {
    var h := First(row, CellHours);
    assert h == Some(e.1);
    var c :| 0 <= c < |row| && CellHours(row[c]) == h && forall l :: 0 <= l < c ==> CellHours(row[l]).None?;
    CellHoursRange(row[c]);
  }

  /** Hours a week-row cell gives lie in (0, 40]. */
  lemma {:induction false} CellHoursRange(cell: string)
    requires CellHours(cell).Some?
    ensures 0.0 < CellHours(cell).value <= 40.0
  {
  }

  /** Every first-pass entry holds hours in (0, 40]. */
  lemma {:induction false} FirstPassBounded(tables: seq<Table>)
    ensures forall e :: e in FirstPassEntries(tables) ==> FirstPassEntry(e)
  {
    var rows := Flatten(tables);
    forall i | 0 <= i < |rows| && WeekRowHours(rows[i]).Some? ensures FirstPassEntry(WeekRowHours(rows[i]).value) {
      WeekRowEntry(rows[i], WeekRowHours(rows[i]).value);
    }
    CollectIn(rows, WeekRowHours, FirstPassEntry);
  }

  /** Every first-pass entry is read from a row of the tables that names its week. */
  lemma {:induction false} FirstPassRows(tables: seq<Table>, e: (nat, real))
    requires e in FirstPassEntries(tables)
    ensures exists row :: RowGives(Flatten(tables), row, e)
  {
    var rows := Flatten(tables);
    var k :| 0 <= k < |Collect(rows, WeekRowHours)| && Collect(rows, WeekRowHours)[k] == e;
    CollectFrom(rows, WeekRowHours, k);
    var i :| 0 <= i < |rows| && WeekRowHours(rows[i]) == Some(e);
    WeekRowEntry(rows[i], e);
    assert RowGives(rows, rows[i], e);
  }

  /** What a second-pass entry is read from. */
  lemma {:induction false} CumulativeEntrySpec(j: nat, row: seq<string>, e: (nat, real))
    requires CumulativeAt(j)(row) == Some(e)
    ensures j < |row| && FirstNumber(Trim(row[j])) == Some(e.1) && FirstInteger(Trim(row[0])) == Some(e.0)
  {
    assert CumulativeEntry(j, row) == Some(e);
  }

  /**
    Every second-pass entry is read from a row below a "Total hours spent this
    week" cell of the same table: its hours are the first number of that row's
    cell in the marker's column, its week the first integer of the row's first
    cell. Nothing bounds the hours.
   */
  lemma {:induction false} SecondPassFrom(tables: seq<Table>, e: (nat, real))
    requires e in SecondPassEntries(tables)
    ensures exists u: nat, i: nat, j: nat, r: nat ::
      && u < |tables| && i < r < |tables[u]| && j < |tables[u][i]| && j < |tables[u][r]|
      && TotalMarker(tables[u][i][j])
      && FirstNumber(Trim(tables[u][r][j])) == Some(e.1)
      && FirstInteger(Trim(tables[u][r][0])) == Some(e.0)
  {
    BelowTablesFrom(tables, |tables|, TotalMarker, CumulativeAt, e);
    var u: nat, i: nat, j: nat, r: nat :| u < |tables| && i < r < |tables[u]| && j < |tables[u][i]|
      && TotalMarker(tables[u][i][j]) && CumulativeAt(j)(tables[u][r]) == Some(e);
    CumulativeEntrySpec(j, tables[u][r], e);
  }

  /**
    A week's table hours: the last second-pass entry for it when there is one,
    otherwise the last first-pass entry, so the cumulative table has the last
    word; hours the second pass does not give lie in (0, 40].
   */
  lemma {:induction false} HoursPrecedence(tables: seq<Table>, n: nat)
    ensures Get(TableHours(tables), n) ==
      if HasKey(SecondPassEntries(tables), n) then LastValue(SecondPassEntries(tables), n)
      else LastValue(FirstPassEntries(tables), n)
    ensures !HasKey(SecondPassEntries(tables), n) && Get(TableHours(tables), n).Some? ==>
      0.0 < Get(TableHours(tables), n).value <= 40.0
  {
    var first, second := FirstPassEntries(tables), SecondPassEntries(tables);
    GetPutAll(PutAll([], first), second, n);
    GetPutAll([], first, n);
    var empty: Hours := [];
    assert Get(empty, n) == None;
    if !HasKey(second, n) && Get(TableHours(tables), n).Some? {
      LastValueIn(first, n);
      FirstPassBounded(tables);
      assert FirstPassEntry((n, LastValue(first, n).value));
    }
  }

  /** The first pass: the nested loops over tables and rows, and the loop over a week row's cells. */
  method FirstPass(tables: seq<Table>) returns (m: Hours)
    ensures m == PutAll([], FirstPassEntries(tables))
  {
    m := [];
    for t := 0 to |tables|
      invariant m == PutAll([], Collect(Flatten(tables[..t]), WeekRowHours))
    {
      var rows := tables[t];
      ghost var before := Flatten(tables[..t]);
      assert before + rows[..0] == before;
      for r := 0 to |rows|
        invariant m == PutAll([], Collect(before + rows[..r], WeekRowHours))
      {
        var row := rows[r];
        WriteStep(m, before, rows, r, WeekRowHours);
        var week := WeekHeader(RowText(row));
        if week.Some? {
          var h := FindFirst(row, CellHours);
          if h.Some? {
            m := Put(m, week.value, h.value);
          }
        }
      }
      FlattenPrefix(tables, t);
    }
    assert tables[..|tables|] == tables;
  }

  /** Both passes, in the order the function makes them. */
  method ExtractHoursFromTables(tables: seq<Table>) returns (hours: Hours)
    ensures hours == TableHours(tables)
  {
    hours := FirstPass(tables);
    hours := WriteBelowMarkers(hours, tables, TotalMarker, CumulativeAt);
  }

  // ---------------------------------------------------------------- the whole document

  /** `parse_worklog_docx` on a document given as its paragraph texts and its tables. */
  function ParseWorklog(raw: seq<string>, tables: seq<Table>): seq<WeekRecord> {
    ParseParagraphs(Paragraphs(raw), TableHours(tables))
  }

  method ParseWorklogDocx(raw: seq<string>, tables: seq<Table>) returns (weeks: seq<WeekRecord>)
    ensures weeks == ParseWorklog(raw, tables)
  {
    var hours := ExtractHoursFromTables(tables);
    var ps := Paragraphs(raw);
    weeks := ScanParagraphs(ps, hours);
  }

  /** The tests on a paragraph inside a week, and the loop of the block it opens. */
  method HandleStep(ps: seq<string>, i: nat, w: WeekRecord) returns (cur: Option<WeekRecord>, next: nat)
    requires i < |ps|
    ensures cur == Some(HandleDocx(ps, i, w).1) && next == HandleDocx(ps, i, w).0
  {
    var part := PartOf(ps[i]);
    if part == TotalTime {
      var v := w;
      if w.totalHours.None? {
        var h := FindFirst(ps[i..WindowEnd(ps, i)], FirstNumber);
        v := w.(totalHours := h);
      }
      return Some(v), i + 1;
    }
    if part == Tasks {
      var j, items := CollectBlock(ps, i + 1, TasksStop, KeptItem, w.tasksDone);
      return Some(w.(tasksDone := items)), j;
    }
    if part == Learned {
      var j, items := CollectBlock(ps, i + 1, LearnedStop, KeptItem, w.keyLearned);
      return Some(w.(keyLearned := items)), j;
    }
    if part == Literature {
      var j, lit, learned := CollectBlock2(ps, i + 1, LiteratureStop, LiteratureItem, LearnedItem, w.literature, w.keyLearned);
      return Some(w.(literature := lit, keyLearned := learned)), j;
    }
    if part == Issues {
      var j, items := CollectBlock(ps, i + 1, IssuesStop, IssueItem, w.issues);
      return Some(w.(issues := items)), j;
    }
    return Some(w), i + 1;
  }

  /** The paragraph loop. */
  method ScanParagraphs(ps: seq<string>, hours: Hours) returns (weeks: seq<WeekRecord>)
    ensures weeks == ParseParagraphs(ps, hours)
  {
    HandlerAdvances();
    ghost var whole := Scan(ps, hours, WeekHeader, HandleDocx, 0, None, []);
    weeks := [];
    var cur: Option<WeekRecord> := None;
    var i := 0;
    while i < |ps|
      invariant i <= |ps|
      invariant whole == Scan(ps, hours, WeekHeader, HandleDocx, i, cur, weeks)
      decreases |ps| - i
    {
      cur, weeks, i := ScanStep(ps, hours, i, cur, weeks);
    }
    ScanEnd(ps, hours, WeekHeader, HandleDocx, cur, weeks);
    if cur.Some? {
      weeks := weeks + [cur.value];
    }
  }

  /** One pass of the paragraph loop: a header, a paragraph inside a week, or one before the first header. */
  method ScanStep(ps: seq<string>, hours: Hours, i: nat, cur: Option<WeekRecord>, weeks: seq<WeekRecord>)
      returns (cur': Option<WeekRecord>, weeks': seq<WeekRecord>, i': nat)
    requires i < |ps| && Advances(HandleDocx)
    ensures i < i' <= |ps|
    ensures Scan(ps, hours, WeekHeader, HandleDocx, i, cur, weeks) ==
      Scan(ps, hours, WeekHeader, HandleDocx, i', cur', weeks')
  {
    var header := WeekHeader(ps[i]);
    if header.Some? {
      ScanHeaderStep(ps, hours, WeekHeader, HandleDocx, i, cur, weeks, header.value);
      if cur.Some? {
        weeks' := weeks + [cur.value];
      } else {
        weeks' := weeks;
        assert weeks + Saved(cur) == weeks;
      }
      return Some(Open(header.value, hours)), weeks', i + 1;
    }
    if cur.Some? {
      ScanHandleStep(ps, hours, WeekHeader, HandleDocx, i, cur.value, weeks);
      cur', i' := HandleStep(ps, i, cur.value);
      return cur', weeks, i';
    }
    ScanSkipStep(ps, hours, WeekHeader, HandleDocx, i, weeks);
    return None, weeks, i + 1;
  }
}
