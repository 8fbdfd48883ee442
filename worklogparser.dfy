/**
  backend/parsers/worklog_parser.py: a worklog document read as a list of
  weekly records. The hours come from the document's tables: a row whose first
  cell names a week gives that week the first number of its last cell. The
  paragraphs are scanned for "Week N" headers; inside a week a paragraph that
  names one of the four blocks (tasks, things learned, literature, issues)
  opens it, and the block takes every following paragraph as it is, up to its
  own terminator.
 */
module WorklogParser {
  import opened Wrappers
  import opened Strings
  import opened AssocList
  import opened Lists
  import opened WeekLog

  // ---------------------------------------------------------------- the phrases searched for

  const TasksTriggers: seq<string> := ["Key tasks done", "things attended"]
  const TasksStops: seq<string> := ["Key things learned", "Any literature", "Issues", "Plan for next week"]
  const LearnedTriggers: seq<string> := ["Key things learned"]
  const LearnedStops: seq<string> := ["Any literature", "Issues", "Plan for next week"]
  const LiteratureTriggers: seq<string> := ["Any literature"]
  const LiteratureStops: seq<string> := ["Issues", "Plan for next week"]
  const IssuesTriggers: seq<string> := ["Issues", "Challenges"]
  const IssuesStops: seq<string> := ["Plan for next week", "Week"]

  predicate TasksStop(p: string) { AnyCI(p, TasksStops) }
  predicate LearnedStop(p: string) { AnyCI(p, LearnedStops) }
  predicate LiteratureStop(p: string) { AnyCI(p, LiteratureStops) }
  predicate IssuesStop(p: string) { AnyCI(p, IssuesStops) }

  /** The block a paragraph inside a week opens, if any. */
  datatype Section = Tasks | Learned | Literature | Issues | NoSection

  /**
    The four tests in the order the loop makes them: a paragraph matching
    several triggers opens the first of these blocks.
   */
  function SectionOf(p: string): (r: Section)
    ensures r == Tasks <==> AnyCI(p, TasksTriggers)
    ensures r == Learned <==> !AnyCI(p, TasksTriggers) && AnyCI(p, LearnedTriggers)
    ensures r == Literature <==> !AnyCI(p, TasksTriggers) && !AnyCI(p, LearnedTriggers) && AnyCI(p, LiteratureTriggers)
    ensures r == Issues <==>
      !AnyCI(p, TasksTriggers) && !AnyCI(p, LearnedTriggers) && !AnyCI(p, LiteratureTriggers) && AnyCI(p, IssuesTriggers)
    ensures r == NoSection <==>
      !AnyCI(p, TasksTriggers) && !AnyCI(p, LearnedTriggers) && !AnyCI(p, LiteratureTriggers) && !AnyCI(p, IssuesTriggers)
  {
    if AnyCI(p, TasksTriggers) then Tasks
    else if AnyCI(p, LearnedTriggers) then Learned
    else if AnyCI(p, LiteratureTriggers) then Literature
    else if AnyCI(p, IssuesTriggers) then Issues
    else NoSection
  }

  // ---------------------------------------------------------------- one paragraph inside a week

  /**
    A paragraph inside a week: a block trigger appends the paragraphs after
    it, up to the block's terminator, to the block's list and goes on at the
    terminator; any other paragraph is passed over.
   */
  function HandleParagraph(ps: seq<string>, i: nat, w: WeekRecord): (r: (nat, WeekRecord))
    ensures i < |ps| ==> i < r.0 <= |ps|
    ensures r.1.week == w.week && r.1.totalHours == w.totalHours
  {
    if i >= |ps| then (i, w)
    else match SectionOf(ps[i])
      case Tasks =>
        var j := BlockEnd(ps, i + 1, TasksStop);
        (j, w.(tasksDone := w.tasksDone + Collect(ps[i + 1..j], Verbatim)))
      case Learned =>
        var j := BlockEnd(ps, i + 1, LearnedStop);
        (j, w.(keyLearned := w.keyLearned + Collect(ps[i + 1..j], Verbatim)))
      case Literature =>
        var j := BlockEnd(ps, i + 1, LiteratureStop);
        (j, w.(literature := w.literature + Collect(ps[i + 1..j], Verbatim)))
      case Issues =>
        var j := BlockEnd(ps, i + 1, IssuesStop);
        (j, w.(issues := w.issues + Collect(ps[i + 1..j], Verbatim)))
      case NoSection => (i + 1, w)
  }

  /** Every iteration moves `i` forward, so the scan ends. */
  lemma {:induction false} HandlerAdvances()
    ensures Advances(HandleParagraph)
  {
    forall ps: seq<string>, i: nat, w: WeekRecord | i < |ps|
      ensures i < HandleParagraph(ps, i, w).0 <= |ps| && HandleParagraph(ps, i, w).1.week == w.week
    {
    }
  }

  /** The records of a paragraph list, given the table hours. */
  function ParseParagraphs(ps: seq<string>, hours: Hours): seq<WeekRecord> {
    HandlerAdvances();
    ScanAll(ps, hours, WeekHeader, HandleParagraph)
  }

  // ---------------------------------------------------------------- what the records hold

  /**
    Each record is opened by a header paragraph naming its week, and the
    records come in the order of their headers.
   */
  lemma {:induction false} RecordsFollowHeaders(ps: seq<string>, hours: Hours)
    ensures exists hs :: OpenedAt(ps, WeekHeader, ParseParagraphs(ps, hours), hs)
  {
    HandlerAdvances();
    ScanOrder(ps, hours, WeekHeader, HandleParagraph);
    var hs :| OpenedAt(ps, WeekHeader, ScanAll(ps, hours, WeekHeader, HandleParagraph), hs);
    assert OpenedAt(ps, WeekHeader, ParseParagraphs(ps, hours), hs);
  }

  /** A list without any header paragraph gives no records. */
  lemma {:induction false} NoHeaderNoWeeks(ps: seq<string>, hours: Hours)
    requires forall m :: 0 <= m < |ps| ==> WeekHeader(ps[m]).None?
    ensures ParseParagraphs(ps, hours) == []
  {
    HandlerAdvances();
    NoHeaderNoRecords(ps, hours, WeekHeader, HandleParagraph);
  }

  /** Every record carries the table hours of its own week (`hours_data.get(week_num)`). */
  lemma {:induction false} RecordHours(ps: seq<string>, hours: Hours)
    ensures forall k :: 0 <= k < |ParseParagraphs(ps, hours)| ==>
      ParseParagraphs(ps, hours)[k].totalHours == Get(hours, ParseParagraphs(ps, hours)[k].week)
  {
    HandlerAdvances();
    var p := (w: WeekRecord) => w.totalHours == Get(hours, w.week);
    ScanKeeps(ps, hours, WeekHeader, HandleParagraph, 0, None, [], p);
  }

  /**
    The items of a record are paragraphs of the document, and none of them is
    the terminator of its block; an issue is never a week header, since the
    issues block ends at any paragraph mentioning "Week".
   */
  predicate ItemsFrom(ps: seq<string>, w: WeekRecord) {
    && (forall x :: x in w.tasksDone ==> x in ps && !TasksStop(x))
    && (forall x :: x in w.keyLearned ==> x in ps && !LearnedStop(x))
    && (forall x :: x in w.literature ==> x in ps && !LiteratureStop(x))
    && (forall x :: x in w.issues ==> x in ps && !IssuesStop(x) && WeekHeader(x).None?)
  }

  /** A paragraph with a week header ends an issues block. */
  lemma {:induction false} HeaderStopsIssues(x: string)
    requires WeekHeader(x).Some?
    ensures IssuesStop(x)
  {
    HeaderMentionsWeek(x);
    assert IssuesStops[1] == "Week";
  }

  /** The paragraphs of a block up to its terminator, taken verbatim. */
  lemma {:induction false} BlockParagraphs(ps: seq<string>, i: nat, j: nat, stop: string -> bool)
    requires i <= j <= |ps| && forall k :: i <= k < j ==> !stop(ps[k])
    ensures Collect(ps[i..j], Verbatim) == ps[i..j]
    ensures forall x :: x in ps[i..j] ==> x in ps && !stop(x)
  {
    VerbatimItems(ps[i..j]);
    forall x | x in ps[i..j] ensures x in ps && !stop(x) {
      var k :| 0 <= k < j - i && ps[i..j][k] == x;
      assert ps[i + k] == x;
    }
  }

  /** One paragraph inside a week keeps the items of the record as `ItemsFrom` describes them. */
  lemma {:induction false} HandleKeepsItems(ps: seq<string>, m: nat, w: WeekRecord)
    requires ItemsFrom(ps, w)
    ensures ItemsFrom(ps, HandleParagraph(ps, m, w).1)
  {
    if m < |ps| {
      match SectionOf(ps[m])
      case Tasks => BlockParagraphs(ps, m + 1, BlockEnd(ps, m + 1, TasksStop), TasksStop);
      case Learned => BlockParagraphs(ps, m + 1, BlockEnd(ps, m + 1, LearnedStop), LearnedStop);
      case Literature => BlockParagraphs(ps, m + 1, BlockEnd(ps, m + 1, LiteratureStop), LiteratureStop);
      case Issues =>
        BlockParagraphs(ps, m + 1, BlockEnd(ps, m + 1, IssuesStop), IssuesStop);
        forall x | WeekHeader(x).Some? ensures IssuesStop(x) {
          HeaderStopsIssues(x);
        }
      case NoSection =>
    }
  }

  /** What `ItemsFrom` says holds of every record of the list. */
  lemma {:induction false} RecordItems(ps: seq<string>, hours: Hours)
    ensures forall k :: 0 <= k < |ParseParagraphs(ps, hours)| ==> ItemsFrom(ps, ParseParagraphs(ps, hours)[k])
  {
    HandlerAdvances();
    forall m: nat, w: WeekRecord | m < |ps| && ItemsFrom(ps, w) ensures ItemsFrom(ps, HandleParagraph(ps, m, w).1) {
      HandleKeepsItems(ps, m, w);
    }
    var p := (w: WeekRecord) => ItemsFrom(ps, w);
    ScanKeeps(ps, hours, WeekHeader, HandleParagraph, 0, None, [], p);
  }

  /** Inside a document none of whose paragraphs opens a block, every paragraph inside a week is passed over. */
  lemma {:induction false} PlainParagraphs(ps: seq<string>)
    requires forall m :: 0 <= m < |ps| && WeekHeader(ps[m]).None? ==> SectionOf(ps[m]) == NoSection
    ensures forall m: nat, w: WeekRecord :: m < |ps| && WeekHeader(ps[m]).None? ==> HandleParagraph(ps, m, w) == (m + 1, w)
  {
  }

  /**
    A document none of whose paragraphs opens a block gives one empty record
    per header, in order.
   */
  lemma {:induction false} OnePerHeader(ps: seq<string>, hours: Hours)
    requires forall m :: 0 <= m < |ps| && WeekHeader(ps[m]).None? ==> SectionOf(ps[m]) == NoSection
    ensures ParseParagraphs(ps, hours) == OpenAll(Collect(ps, WeekHeader), hours)
  {
    HandlerAdvances();
    PlainParagraphs(ps);
    ScanAllPlain(ps, hours, WeekHeader, HandleParagraph);
  }

  // ---------------------------------------------------------------- a header inside a block

  /** The letters of a label "Week N" after lowercasing. */
  lemma {:induction false} LabelLetters(n: nat, c: char)
    requires !IsDigit(c) && c != 'w' && c != 'e' && c != 'k' && c != ' '
    ensures c !in ToLower("Week " + NatToString(n))
  {
    var s := "Week " + NatToString(n);
    forall j | 0 <= j < |s| ensures ToLower(s)[j] != c {
      if j >= 5 {
        assert s[j] == NatToString(n)[j - 5];
      }
    }
  }

  /** A label "Week N" does not end a tasks block. */
  lemma {:induction false} LabelNotTasksStop(n: nat)
    ensures !TasksStop("Week " + NatToString(n))
  {
    var s := "Week " + NatToString(n);
    LabelLetters(n, 'y');
    LabelLetters(n, 'a');
    LabelLetters(n, 'i');
    LabelLetters(n, 'p');
    forall k | 0 <= k < |TasksStops| ensures !ContainsCI(s, TasksStops[k]) {
      var q := if k == 0 then 2 else 0;
      MissingChar(ToLower(s), ToLower(TasksStops[k]), q);
    }
  }

  /** A label "Week N" does not end a learned block. */
  lemma {:induction false} LabelNotLearnedStop(n: nat)
    ensures !LearnedStop("Week " + NatToString(n))
  {
    var s := "Week " + NatToString(n);
    LabelLetters(n, 'a');
    LabelLetters(n, 'i');
    LabelLetters(n, 'p');
    forall k | 0 <= k < |LearnedStops| ensures !ContainsCI(s, LearnedStops[k]) {
      MissingChar(ToLower(s), ToLower(LearnedStops[k]), 0);
    }
  }

  /** A label "Week N" does not end a literature block. */
  lemma {:induction false} LabelNotLiteratureStop(n: nat)
    ensures !LiteratureStop("Week " + NatToString(n))
  {
    var s := "Week " + NatToString(n);
    LabelLetters(n, 'i');
    LabelLetters(n, 'p');
    forall k | 0 <= k < |LiteratureStops| ensures !ContainsCI(s, LiteratureStops[k]) {
      MissingChar(ToLower(s), ToLower(LiteratureStops[k]), 0);
    }
  }

  /**
    A label "Week N" ends an issues block but none of the other three: the
    tasks, learned and literature blocks run on across the next week's header.
   */
  lemma {:induction false} LabelEndsOnlyIssues(n: nat)
    ensures IssuesStop("Week " + NatToString(n))
    ensures !TasksStop("Week " + NatToString(n))
    ensures !LearnedStop("Week " + NatToString(n))
    ensures !LiteratureStop("Week " + NatToString(n))
  {
    WeekLabel(n);
    HeaderStopsIssues("Week " + NatToString(n));
    LabelNotTasksStop(n);
    LabelNotLearnedStop(n);
    LabelNotLiteratureStop(n);
  }

  /**
    A week header straight after a tasks trigger does not open a new week: it
    is recorded as a task of the current one.
   */
  lemma {:induction false} HeaderAfterTasksIsATask(ps: seq<string>, i: nat, w: WeekRecord, n: nat)
    requires i + 1 < |ps| && SectionOf(ps[i]) == Tasks && ps[i + 1] == "Week " + NatToString(n)
    ensures HandleParagraph(ps, i, w).0 > i + 1
    ensures ps[i + 1] in HandleParagraph(ps, i, w).1.tasksDone
  {
    LabelEndsOnlyIssues(n);
    var j := BlockEnd(ps, i + 1, TasksStop);
    BlockParagraphs(ps, i + 1, j, TasksStop);
    assert ps[i + 1..j][0] == ps[i + 1];
  }

  // ---------------------------------------------------------------- the table hours

  /**
    One row's entry in `hours_data`: the week its first cell names and the
    first number of its last cell, or nothing when either is missing (the
    failed `findall(...)[0]` is caught and ignored).
   */
  function RowHours(row: seq<string>): Option<(nat, real)> {
    if row == [] then None
    else match WeekHeader(row[0])
      case None => None
      case Some(n) =>
        match FirstNumber(row[|row| - 1])
        case None => None
        case Some(h) => Some((n, h))
  }

  /** The entries of every row of every table, in document order. */
  function HoursEntries(tables: seq<Table>): seq<(nat, real)> {
    Collect(Flatten(tables), RowHours)
  }

  /** `extract_hours_from_tables`: the entries written in order, a later row overwriting an earlier one. */
  function HoursFromTables(tables: seq<Table>): Hours {
    PutAll([], HoursEntries(tables))
  }

  /** The loops over tables and rows, writing each row's entry. */
  method ExtractHoursFromTables(tables: seq<Table>) returns (hours: Hours)
    ensures hours == HoursFromTables(tables)
  {
    hours := WriteRows(tables, RowHours);
  }

  /**
    A week's table hours are those of the last row that names the week and has
    a number in its last cell; the value is the first number of that cell.
   */
  lemma {:induction false} TableHours(tables: seq<Table>, n: nat)
    ensures Get(HoursFromTables(tables), n) == LastValue(HoursEntries(tables), n)
    ensures Get(HoursFromTables(tables), n).Some? ==>
      exists row :: row in Flatten(tables) && row != [] && WeekHeader(row[0]) == Some(n)
        && FirstNumber(row[|row| - 1]) == Get(HoursFromTables(tables), n)
  {
    var entries := HoursEntries(tables);
    GetPutAll([], entries, n);
    if Get(HoursFromTables(tables), n).Some? {
      LastValueIn(entries, n);
      var k :| 0 <= k < |entries| && entries[k] == (n, LastValue(entries, n).value);
      CollectFrom(Flatten(tables), RowHours, k);
      var i :| 0 <= i < |Flatten(tables)| && RowHours(Flatten(tables)[i]) == Some(entries[k]);
      assert Flatten(tables)[i] in Flatten(tables);
    }
  }

  // ---------------------------------------------------------------- the whole document

  /**
    `parse_worklog_docx` on a document given as its paragraph texts and its
    tables.
   */
  function ParseWorklog(raw: seq<string>, tables: seq<Table>): seq<WeekRecord> {
    ParseParagraphs(Paragraphs(raw), HoursFromTables(tables))
  }

  /**
    The function itself: the table hours first, then the paragraph loop. A
    record dict is never empty, so `if week_data` tests whether one is open.
   */
  method ParseWorklogDocx(raw: seq<string>, tables: seq<Table>) returns (weeks: seq<WeekRecord>)
    ensures weeks == ParseWorklog(raw, tables)
  {
    var hours := ExtractHoursFromTables(tables);
    var ps := Paragraphs(raw);
    weeks := ScanParagraphs(ps, hours);
  }

  /** The tests on a paragraph inside a week, and the loop of the block it opens. */
  method HandleStep(ps: seq<string>, i: nat, w: WeekRecord) returns (cur: Option<WeekRecord>, next: nat)
    requires i < |ps|
    ensures cur == Some(HandleParagraph(ps, i, w).1) && next == HandleParagraph(ps, i, w).0
  {
    var section := SectionOf(ps[i]);
    if section == Tasks {
      var j, items := CollectBlock(ps, i + 1, TasksStop, Verbatim, w.tasksDone);
      return Some(w.(tasksDone := items)), j;
    }
    if section == Learned {
      var j, items := CollectBlock(ps, i + 1, LearnedStop, Verbatim, w.keyLearned);
      return Some(w.(keyLearned := items)), j;
    }
    if section == Literature {
      var j, items := CollectBlock(ps, i + 1, LiteratureStop, Verbatim, w.literature);
      return Some(w.(literature := items)), j;
    }
    if section == Issues {
      var j, items := CollectBlock(ps, i + 1, IssuesStop, Verbatim, w.issues);
      return Some(w.(issues := items)), j;
    }
    return Some(w), i + 1;
  }

  /** The paragraph loop. */
  method ScanParagraphs(ps: seq<string>, hours: Hours) returns (weeks: seq<WeekRecord>)
    ensures weeks == ParseParagraphs(ps, hours)
  {
    HandlerAdvances();
    ghost var whole := Scan(ps, hours, WeekHeader, HandleParagraph, 0, None, []);
    weeks := [];
    var cur: Option<WeekRecord> := None;
    var i := 0;
    while i < |ps|
      invariant i <= |ps|
      invariant whole == Scan(ps, hours, WeekHeader, HandleParagraph, i, cur, weeks)
      decreases |ps| - i
    {
      cur, weeks, i := ScanStep(ps, hours, i, cur, weeks);
    }
    ScanEnd(ps, hours, WeekHeader, HandleParagraph, cur, weeks);
    if cur.Some? {
      weeks := weeks + [cur.value];
    }
  }

  /** One pass of the paragraph loop: a header, a paragraph inside a week, or one before the first header. */
  method ScanStep(ps: seq<string>, hours: Hours, i: nat, cur: Option<WeekRecord>, weeks: seq<WeekRecord>)
      returns (cur': Option<WeekRecord>, weeks': seq<WeekRecord>, i': nat)
    requires i < |ps| && Advances(HandleParagraph)
    ensures i < i' <= |ps|
    ensures Scan(ps, hours, WeekHeader, HandleParagraph, i, cur, weeks) ==
      Scan(ps, hours, WeekHeader, HandleParagraph, i', cur', weeks')
  {
    var header := WeekHeader(ps[i]);
    if header.Some? {
      ScanHeaderStep(ps, hours, WeekHeader, HandleParagraph, i, cur, weeks, header.value);
      if cur.Some? {
        weeks' := weeks + [cur.value];
      } else {
        weeks' := weeks;
        assert weeks + Saved(cur) == weeks;
      }
      return Some(Open(header.value, hours)), weeks', i + 1;
    }
    if cur.Some? {
      ScanHandleStep(ps, hours, WeekHeader, HandleParagraph, i, cur.value, weeks);
      cur', i' := HandleStep(ps, i, cur.value);
      return cur', weeks, i';
    }
    ScanSkipStep(ps, hours, WeekHeader, HandleParagraph, i, weeks);
    return None, weeks, i + 1;
  }

}
