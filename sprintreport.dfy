/**
  backend/parsers/parse_sprint_report_docx.py: reads a sprint report into its
  attendance table, each member's contribution text and the six numbered
  sections, and names the summary file it writes beside the report.
 */
module SprintReport {
  import opened Wrappers
  import opened Strings
  import opened AssocList
  import opened Lists
  import opened WeekLog
  import opened Finditer

  // ---------------------------------------------------------------- the paragraphs

  /** `extract_text_from_docx`: a loop keeping each paragraph's stripped text when it is not empty. */
  method ExtractTextFromDocx(raw: seq<string>) returns (lines: seq<string>)
    ensures lines == Paragraphs(raw)
  {
    lines := [];
    for k := 0 to |raw|
      invariant lines == Paragraphs(raw[..k])
    {
      var text := Stripped(raw[k]);
      assert Paragraphs(raw[..k + 1]) == lines + match text case Some(t) => [t] case None => [] by {
        assert raw[..k + 1] == raw[..k] + [raw[k]];
        CollectSnoc(raw[..k], raw[k], Stripped);
      }
      if text.Some? {
        lines := lines + [text.value];
      }
    }
    assert raw[..|raw|] == raw;
  }

  // ---------------------------------------------------------------- section headings

  /**
    A pattern `extract_section` searches for: a numbered heading `N\.\s*Title`
    matched ignoring case, or `\Z`, the very end of the text. Every title the
    report uses starts with a letter, so the greedy space run before it never
    has to give a character back.
   */
  datatype Pattern = Heading(number: char, title: string) | EndOfText

  /** The length of the match of `pat` that starts at position `k` of `s`, if one does. */
  function MatchLen(s: string, k: nat, pat: Pattern): (r: Option<nat>)
    requires k <= |s|
    ensures r.Some? ==> k + r.value <= |s|
    ensures pat.EndOfText? ==> (r.Some? <==> k == |s|)
  {
    match pat
    case EndOfText => if k == |s| then Some(0) else None
    case Heading(d, title) =>
      if k + 2 <= |s| && Lower(s[k]) == Lower(d) && s[k + 1] == '.' then
        var a := SkipSpaces(s, k + 2);
        if a + |title| <= |s| && ToLower(s[a..a + |title|]) == ToLower(title) then Some(a + |title| - k) else None
      else None
  }

  /** The pattern tried at each position of `s`, reporting the position where it matches. */
  function StartsIn(s: string, pat: Pattern): nat -> Option<nat> {
    (k: nat) => if k <= |s| && MatchLen(s, k, pat).Some? then Some(k) else None
  }

  /** `re.search(pat, s, re.IGNORECASE)`: the position of the leftmost match. */
  function Search(s: string, pat: Pattern): (r: Option<nat>)
    ensures r.Some? ==> r.value <= |s| && MatchLen(s, r.value, pat).Some?
  {
    var at := StartsIn(s, pat);
    LeftmostSpec(|s|, 0, at);
    var r := Leftmost(|s|, 0, at);
    assert r.Some? ==> r.value <= |s| && MatchLen(s, r.value, pat).Some? by {
      if r.Some? {
        var k :| 0 <= k <= |s| && at(k) == r && forall m :: 0 <= m < k ==> at(m).None?;
      }
    }
    r
  }

  /** The search finds a match exactly when there is one, and no match starts before the one it reports. */
  lemma {:induction false} SearchSpec(s: string, pat: Pattern)
    ensures Search(s, pat).None? <==> forall k: nat :: k <= |s| ==> MatchLen(s, k, pat).None?
    ensures Search(s, pat).Some? ==> forall m: nat :: m < Search(s, pat).value ==> MatchLen(s, m, pat).None?
  {
    var at := StartsIn(s, pat);
    LeftmostSpec(|s|, 0, at);
    assert forall k: nat :: k <= |s| ==> (at(k).None? <==> MatchLen(s, k, pat).None?);
    var r := Leftmost(|s|, 0, at);
    if r.Some? {
      var k :| 0 <= k <= |s| && at(k) == r && forall m :: 0 <= m < k ==> at(m).None?;
      assert r.value == k;
    }
  }

  /** The search for each end pattern in the text that follows the start heading. */
  function SearchIn(rest: string): Pattern -> Option<nat> {
    ep => Search(rest, ep)
  }

  /** Where the section ends inside `rest`: at the first end pattern, in list order, that matches, or at its end. */
  function SectionStop(rest: string, ends: seq<Pattern>): (stop: nat)
    ensures stop <= |rest|
  {
    match First(ends, SearchIn(rest))
    case None => |rest|
    case Some(m) =>
      assert m <= |rest| by {
        var q :| 0 <= q < |ends| && SearchIn(rest)(ends[q]) == Some(m);
      }
      m
  }

  /** The text after the start heading's match, when the heading occurs. */
  function AfterHeading(text: string, start: Pattern): Option<string> {
    match Search(text, start)
    case None => None
    case Some(k) => Some(text[k + MatchLen(text, k, start).value..])
  }

  /** What `extract_section(lines, start, ends)` returns. */
  function Section(lines: seq<string>, start: Pattern, ends: seq<Pattern>): (r: string)
    ensures AfterHeading(Join(lines, "\n"), start).None? ==> r == ""
  {
    match AfterHeading(Join(lines, "\n"), start)
    case None => ""
    case Some(rest) => Trim(rest[..SectionStop(rest, ends)])
  }

  /** `extract_section`: finds the start heading, then cuts the text after it. */
  method ExtractSection(lines: seq<string>, start: Pattern, ends: seq<Pattern>) returns (section: string)
    ensures section == Section(lines, start, ends)
  {
    var text := Join(lines, "\n");
    var startMatch := Search(text, start);
    if startMatch.None? {
      return "";
    }
    var startIdx := startMatch.value + MatchLen(text, startMatch.value, start).value;
    SectionOfRest(lines, start, ends, text, startIdx);
    section := CutSection(text[startIdx..], ends);
  }

  /** The loop over the end patterns that stops at the first one found, cutting `rest` there. */
  method CutSection(rest: string, ends: seq<Pattern>) returns (section: string)
    ensures section == Trim(rest[..SectionStop(rest, ends)])
  {
    StopOfFound(rest, ends);
    var endIdx := |rest|;
    var found := FindFirst(ends, SearchIn(rest));
    if found.Some? {
      endIdx := found.value;
    }
    section := Trim(rest[..endIdx]);
  }

  /** Once the start heading is found at the start of `text[startIdx..]`'s match, the section is cut from there. */
  lemma {:induction false} SectionOfRest(lines: seq<string>, start: Pattern, ends: seq<Pattern>, text: string, startIdx: nat)
    requires text == Join(lines, "\n") && Search(text, start).Some?
    requires startIdx == Search(text, start).value + MatchLen(text, Search(text, start).value, start).value
    ensures startIdx <= |text|
    ensures Section(lines, start, ends) == Trim(text[startIdx..][..SectionStop(text[startIdx..], ends)])
  {
    assert AfterHeading(text, start) == Some(text[startIdx..]);
  }

  /** The section stops at the first end pattern found, or at the end of `rest`. */
  lemma {:induction false} StopOfFound(rest: string, ends: seq<Pattern>)
    ensures var f := First(ends, SearchIn(rest));
      && (f.Some? ==> SectionStop(rest, ends) == f.value)
      && (f.None? ==> SectionStop(rest, ends) == |rest|)
  {
  }

  /** The search finds no end pattern in `rest`. */
  predicate NoEnd(rest: string, ends: seq<Pattern>) {
    forall q: nat :: q < |ends| ==> Search(rest, ends[q]).None?
  }

  /** The search finds `ends[q]` at `stop`, and none of the end patterns listed before it. */
  predicate FirstEndAt(rest: string, ends: seq<Pattern>, q: nat, stop: nat) {
    q < |ends| && Search(rest, ends[q]) == Some(stop) && NoEnd(rest, ends[..q])
  }

  /**
    The section stops where the search finds the first end pattern, in list
    order, that it finds at all; when it finds none the section runs to the
    end. `SearchSpec` says what finding means.
   */
  lemma {:induction false} SectionStopSpec(rest: string, ends: seq<Pattern>)
    ensures || (SectionStop(rest, ends) == |rest| && NoEnd(rest, ends))
            || exists q: nat :: FirstEndAt(rest, ends, q, SectionStop(rest, ends))
  {
    match First(ends, SearchIn(rest))
    case None => StopAtEnd(rest, ends);
    case Some(m) => StopAtFirstEnd(rest, ends, m);
  }

  lemma {:induction false} StopAtEnd(rest: string, ends: seq<Pattern>)
    requires First(ends, SearchIn(rest)).None?
    ensures SectionStop(rest, ends) == |rest| && NoEnd(rest, ends)
  {
    assert forall q: nat :: q < |ends| ==> SearchIn(rest)(ends[q]).None?;
  }

  lemma {:induction false} StopAtFirstEnd(rest: string, ends: seq<Pattern>, m: nat)
    requires First(ends, SearchIn(rest)) == Some(m)
    ensures exists q: nat :: FirstEndAt(rest, ends, q, SectionStop(rest, ends))
  {
    var q :| 0 <= q < |ends| && SearchIn(rest)(ends[q]) == Some(m) && forall l :: 0 <= l < q ==> SearchIn(rest)(ends[l]).None?;
    assert NoEnd(rest, ends[..q]) by {
      forall l: nat | l < q
        ensures Search(rest, ends[..q][l]).None?
      {
        assert ends[..q][l] == ends[l];
        assert SearchIn(rest)(ends[l]).None?;
      }
    }
    assert SectionStop(rest, ends) == m;
    assert FirstEndAt(rest, ends, q, m);
  }

  /**
    The section is the trimmed text that runs from the end of the start
    heading to the first match of the first end pattern, in list order, that
    matches there; when none matches it runs to the end of the text.
   */
  lemma {:induction false} SectionBounds(lines: seq<string>, start: Pattern, ends: seq<Pattern>, rest: string)
    requires AfterHeading(Join(lines, "\n"), start) == Some(rest)
    ensures exists stop: nat ::
      && stop <= |rest| && Section(lines, start, ends) == Trim(rest[..stop])
      && ((stop == |rest| && NoEnd(rest, ends)) || exists q: nat :: FirstEndAt(rest, ends, q, stop))
  {
    SectionStopSpec(rest, ends);
    assert Section(lines, start, ends) == Trim(rest[..SectionStop(rest, ends)]);
  }

  /** With `\Z` as the only end pattern, the section runs to the end of the text. */
  lemma {:induction false} SectionToEnd(lines: seq<string>, start: Pattern, rest: string)
    requires AfterHeading(Join(lines, "\n"), start) == Some(rest)
    ensures Section(lines, start, [EndOfText]) == Trim(rest)
  {
    SearchSpec(rest, EndOfText);
    assert Search(rest, EndOfText) == Some(|rest|) by {
      assert MatchLen(rest, |rest|, EndOfText).Some?;
      var r := Search(rest, EndOfText);
      assert r.Some? && MatchLen(rest, r.value, EndOfText).Some?;
    }
    assert SearchIn(rest)([EndOfText][0]) == Some(|rest|);
    assert rest[..|rest|] == rest;
  }

  // ---------------------------------------------------------------- member contributions

  /** The five names the contribution pattern alternates over, in its order. */
  const Members: seq<string> := ["Connor Lack", "Jason Vo", "Jen Mao", "Kavindu Bhanuka Weragoda", "Md Hridoy Mia"]

  /** No alternative of the pattern is empty, so every match moves the scan forward. */
  predicate NonEmptyNames(names: seq<string>) {
    forall q :: 0 <= q < |names| ==> names[q] != ""
  }

  lemma {:induction false} MembersNonEmpty()
    ensures NonEmptyNames(Members)
  {
  }

  /** The alternative `n` tried at position `k` of `text`, case-sensitively. */
  function NameIf(text: string, k: nat): string -> Option<string> {
    n => if OccursAt(text, n, k) then Some(n) else None
  }

  /** The first name of the alternation that occurs at position `k`, if any. */
  function NameAt(text: string, names: seq<string>, k: nat): (r: Option<string>)
    ensures r.None? <==> forall q :: 0 <= q < |names| ==> !OccursAt(text, names[q], k)
    ensures r.Some? ==> r.value in names && OccursAt(text, r.value, k)
  {
    First(names, NameIf(text, k))
  }

  /** The name alternation tried at each position of `text`. */
  function NameMatcher(text: string, names: seq<string>): Matcher {
    (k: nat) => NameAt(text, names, k)
  }

  lemma {:induction false} NamesFit(text: string, names: seq<string>)
    requires NonEmptyNames(names)
    ensures Fits(|text|, NameMatcher(text, names))
  {
    forall k: nat | NameMatcher(text, names)(k).Some?
      ensures NameMatcher(text, names)(k).value != "" && k + |NameMatcher(text, names)(k).value| <= |text|
    {
      var q :| 0 <= q < |names| && names[q] == NameAt(text, names, k).value;
    }
  }

  /** `list(re.finditer(pattern, text))` for the pattern naming the five members. */
  function Occurrences(text: string): seq<Occurrence> {
    MembersNonEmpty();
    NamesFit(text, Members);
    Matches(|text|, NameMatcher(text, Members), 0)
  }

  /** Each occurrence is a member's name at its position; they come in text order and do not overlap. */
  lemma {:induction false} OccurrencesFound(text: string, i: nat)
    requires i < |Occurrences(text)|
    ensures var ms := Occurrences(text);
      && ms[i].1 in Members && OccursAt(text, ms[i].1, ms[i].0)
      && ms[i].0 + |ms[i].1| <= NextStart(|text|, ms, i) <= |text|
  {
    MembersNonEmpty();
    NamesFit(text, Members);
    MatchesChained(|text|, NameMatcher(text, Members), 0);
    assert Linked(|text|, NameMatcher(text, Members), Occurrences(text), i, 0);
  }

  /** No member's name occurs in the text between one occurrence and the next: it is all that name's content. */
  lemma {:induction false} NoNameInContent(text: string, i: nat, p: nat)
    requires i < |Occurrences(text)|
    requires var ms := Occurrences(text); ms[i].0 + |ms[i].1| <= p < NextStart(|text|, ms, i)
    ensures forall q :: 0 <= q < |Members| ==> !OccursAt(text, Members[q], p)
  {
    MembersNonEmpty();
    NamesFit(text, Members);
    MatchesGap(|text|, NameMatcher(text, Members), 0, i, p);
    assert NameAt(text, Members, p).None?;
  }

  /** The text before the first occurrence holds no member's name, and belongs to nobody. */
  lemma {:induction false} NoNameBeforeFirst(text: string, p: nat)
    requires p < |text| && (Occurrences(text) == [] || p < Occurrences(text)[0].0)
    ensures forall q :: 0 <= q < |Members| ==> !OccursAt(text, Members[q], p)
  {
    MembersNonEmpty();
    NamesFit(text, Members);
    MatchesLead(|text|, NameMatcher(text, Members), 0, p);
    assert NameAt(text, Members, p).None?;
  }

  /**
    `re.match(r"^\s*(\d+\.\s*Sprint|Sprint\s+plan)", c, re.IGNORECASE)`: after
    any leading spaces, a numbered "Sprint" heading or the words "Sprint plan".
   */
  predicate SprintHeadingStart(c: string) {
    var b := SkipSpaces(c, 0);
    || (var d := DigitRun(c[b..]);
        && d > 0 && b + d < |c| && c[b + d] == '.'
        && var a := SkipSpaces(c, b + d + 1); a + 6 <= |c| && ToLower(c[a..a + 6]) == "sprint")
    || (&& b + 6 < |c| && ToLower(c[b..b + 6]) == "sprint" && IsSpace(c[b + 6])
        && var a := SkipSpaces(c, b + 6); a + 4 <= |c| && ToLower(c[a..a + 4]) == "plan")
  }

  /** The value stored for a name: its content, or "" when that is empty or reads as a sprint heading. */
  function Kept(content: string): string {
    if content == "" || SprintHeadingStart(content) then "" else content
  }

  lemma {:induction false} OccurrencesSpan(text: string)
    ensures Spans(|text|, Occurrences(text))
  {
    forall i | 0 <= i < |Occurrences(text)|
      ensures Occurrences(text)[i].0 + |Occurrences(text)[i].1| <= NextStart(|text|, Occurrences(text), i) <= |text|
    {
      OccurrencesFound(text, i);
    }
  }

  /** The value kept for a stripped text is "" or the text itself, and then it does not read as a heading. */
  lemma {:induction false} KeptClean(c: string)
    ensures var v := Kept(Trim(c)); v == "" || (Trim(v) == v && !SprintHeadingStart(v))
  {
    TrimIdempotent(c);
  }

  /** The stripped text between the `i`th occurrence and the next one. */
  function ContentOf(text: string, ms: seq<Occurrence>, i: nat): string
    requires i < |ms| && Spans(|text|, ms)
  {
    Trim(text[ms[i].0 + |ms[i].1|..NextStart(|text|, ms, i)])
  }

  /** The writes `contributions[name] = ...`, one per occurrence, in text order. */
  function Writes(text: string, ms: seq<Occurrence>): (r: seq<(string, string)>)
    requires Spans(|text|, ms)
    ensures |r| == |ms|
  {
    seq(|ms|, i requires 0 <= i < |ms| => (ms[i].1, Kept(ContentOf(text, ms, i))))
  }

  /** What `parse_contributions` returns: its dictionary as an association list in insertion order. */
  function Contributions(text: string): seq<(string, string)> {
    OccurrencesSpan(text);
    PutAll([], Writes(text, Occurrences(text)))
  }

  /** The loop of `parse_contributions` over the matches, writing each name's content. */
  method WriteContributions(text: string, matches: seq<Occurrence>) returns (contributions: seq<(string, string)>)
    requires Spans(|text|, matches)
    ensures contributions == PutAll([], Writes(text, matches))
  {
    ghost var writes := Writes(text, matches);
    contributions := [];
    for i := 0 to |matches|
      invariant contributions == PutAll([], writes[..i])
    {
      var name := matches[i].1;
      var start := matches[i].0 + |name|;
      var end := if i + 1 < |matches| then matches[i + 1].0 else |text|;
      var content := Trim(text[start..end]);
      assert writes[i] == (name, Kept(content));
      TakeSnoc(writes, i);
      PutAllSnoc([], writes[..i], name, Kept(content));
      if content == "" || SprintHeadingStart(content) {
        contributions := Put(contributions, name, "");
      } else {
        contributions := Put(contributions, name, content);
      }
    }
    assert writes[..|matches|] == writes;
  }

  /** `parse_contributions`. */
  method ParseContributions(text: string) returns (contributions: seq<(string, string)>)
    ensures contributions == Contributions(text)
  {
    var matches := Occurrences(text);
    OccurrencesSpan(text);
    contributions := WriteContributions(text, matches);
  }

  /** A name has an entry exactly when it occurs, and then it is one of the five members. */
  lemma {:induction false} ContributionKeys(text: string, n: string)
    ensures HasKey(Contributions(text), n) <==> exists i :: 0 <= i < |Occurrences(text)| && Occurrences(text)[i].1 == n
    ensures HasKey(Contributions(text), n) ==> n in Members
  {
    var ms := Occurrences(text);
    OccurrencesSpan(text);
    var writes := Writes(text, ms);
    assert Contributions(text) == PutAll([], writes);
    assert HasKey(Contributions(text), n) <==> HasKey(writes, n) by {
      GetPutAll([], writes, n);
    }
    assert HasKey(writes, n) <==> exists i :: 0 <= i < |ms| && ms[i].1 == n by {
      assert forall i :: 0 <= i < |ms| ==> writes[i].0 == ms[i].1;
    }
    if HasKey(writes, n) {
      var i :| 0 <= i < |ms| && ms[i].1 == n;
      OccurrencesFound(text, i);
    }
  }

  /** Every value the writes store is "" or a stripped text that does not read as a heading. */
  lemma {:induction false} WrittenValues(text: string, ms: seq<Occurrence>, n: string)
    requires Spans(|text|, ms) && Get(PutAll([], Writes(text, ms)), n).Some?
    ensures var v := Get(PutAll([], Writes(text, ms)), n).value;
      v == "" || (Trim(v) == v && !SprintHeadingStart(v))
  {
    var i := WrittenFrom(text, ms, n);
    KeptClean(text[ms[i].0 + |ms[i].1|..NextStart(|text|, ms, i)]);
  }

  /** The value stored for a name is the kept content of one of its occurrences. */
  lemma {:induction false} WrittenFrom(text: string, ms: seq<Occurrence>, n: string) returns (i: nat)
    requires Spans(|text|, ms) && Get(PutAll([], Writes(text, ms)), n).Some?
    ensures i < |ms| && Get(PutAll([], Writes(text, ms)), n).value == Kept(ContentOf(text, ms, i))
  {
    i := GetPutAllFrom(Writes(text, ms), n);
  }


  /** Every stored value is "" or a stripped, non-empty text that does not start like a sprint heading. */
  lemma {:induction false} ContributionValues(text: string, n: string)
    requires Get(Contributions(text), n).Some?
    ensures var v := Get(Contributions(text), n).value;
      v == "" || (Trim(v) == v && !SprintHeadingStart(v))
  {
    OccurrencesSpan(text);
    WrittenValues(text, Occurrences(text), n);
  }

  /** A name that occurs again later is overwritten: its entry holds the content after its last occurrence. */
  lemma {:induction false} LastOccurrenceWins(text: string, i: nat)
    requires i < |Occurrences(text)|
    requires forall j :: i < j < |Occurrences(text)| ==> Occurrences(text)[j].1 != Occurrences(text)[i].1
    ensures Spans(|text|, Occurrences(text))
    ensures Get(Contributions(text), Occurrences(text)[i].1) == Some(Kept(ContentOf(text, Occurrences(text), i)))
  {
    var ms := Occurrences(text);
    OccurrencesSpan(text);
    var writes := Writes(text, ms);
    GetPutAll([], writes, ms[i].1);
    LastValueAt(writes, i);
  }

  // ---------------------------------------------------------------- the attendance table

  /** One attendance row: the student and the four marks the summary keeps. */
  datatype Attendance = Attendance(student: string, contribution: string, initiatives: string, communication: string, respect: string)

  /** The error Python raises on `table.rows[0]` for a table without rows. */
  const NoFirstRow := "list index out of range"

  /** A header row with a cell mentioning "Contribution" and one mentioning "Respect", case-sensitively. */
  predicate AttendanceHeader(headers: seq<string>) {
    (exists h :: h in headers && Contains(h, "Contribution")) && (exists h :: h in headers && Contains(h, "Respect"))
  }

  /** A body row with at least nine cells and a student name in the first: its cells 0 to 3 and 8, stripped. */
  function AttendanceOf(row: seq<string>): (r: Option<Attendance>)
    ensures r.Some? <==> |row| >= 9 && Trim(row[0]) != ""
  {
    var cells := TrimAll(row);
    if |cells| >= 9 && cells[0] != "" then
      Some(Attendance(cells[0], cells[1], cells[2], cells[3], cells[8]))
    else None
  }

  /** The values a table gives: its body rows read by `entry`, when `header` accepts its stripped first row. */
  function TableRows<E>(rows: Table, header: seq<string> -> bool, entry: seq<string> -> Option<E>): seq<E> {
    if |rows| == 0 then []
    else if header(TrimAll(rows[0])) then Collect(rows[1..], entry)
    else []
  }

  function TableReader<E>(header: seq<string> -> bool, entry: seq<string> -> Option<E>): Table -> seq<E> {
    rows => TableRows(rows, header, entry)
  }

  /** What the first `t` tables give, or the error the first table without rows raises. */
  function ReadTables<E>(tables: seq<Table>, t: nat, read: Table -> seq<E>): Result<seq<E>>
    requires t <= |tables|
  {
    if t == 0 then Ok([])
    else
      match ReadTables(tables, t - 1, read)
      case Err(e) => Err(e)
      case Ok(prev) => if |tables[t - 1]| == 0 then Err(NoFirstRow) else Ok(prev + read(tables[t - 1]))
  }

  /** Once a table has failed, so does every longer prefix. */
  lemma {:induction false} ReadTablesErrSticks<E>(tables: seq<Table>, t: nat, u: nat, read: Table -> seq<E>)
    requires t <= u <= |tables| && ReadTables(tables, t, read).Err?
    ensures ReadTables(tables, u, read) == ReadTables(tables, t, read)
    decreases u - t
  {
    if t < u {
      ReadTablesErrSticks(tables, t, u - 1, read);
    }
  }

  /** Reading fails exactly when one of the tables has no rows at all. */
  lemma {:induction false} ReadTablesFails<E>(tables: seq<Table>, t: nat, read: Table -> seq<E>)
    requires t <= |tables|
    ensures ReadTables(tables, t, read).Err? <==> exists u :: 0 <= u < t && |tables[u]| == 0
    decreases t
  {
    if t > 0 {
      ReadTablesFails(tables, t - 1, read);
    }
  }

  /** Every value read comes from one of the tables. */
  lemma {:induction false} ReadTablesFrom<E>(tables: seq<Table>, t: nat, read: Table -> seq<E>, data: seq<E>, k: nat)
    requires t <= |tables| && ReadTables(tables, t, read) == Ok(data) && k < |data|
    ensures exists u: nat :: u < t && data[k] in read(tables[u])
    decreases t
  {
    var prev := ReadTables(tables, t - 1, read).value;
    if k < |prev| {
      ReadTablesFrom(tables, t - 1, read, prev, k);
    } else {
      assert data[k] == read(tables[t - 1])[k - |prev|];
    }
  }

  /** Every value a table gives is read. */
  lemma {:induction false} ReadTablesComplete<E>(tables: seq<Table>, t: nat, read: Table -> seq<E>, data: seq<E>, u: nat, x: E)
    requires t <= |tables| && ReadTables(tables, t, read) == Ok(data)
    requires u < t && x in read(tables[u])
    ensures x in data
    decreases t
  {
    if u < t - 1 {
      ReadTablesComplete(tables, t - 1, read, ReadTables(tables, t - 1, read).value, u, x);
    }
  }

  /** A body row of a table whose stripped first row `header` accepts, and that `entry` reads. */
  ghost predicate ReadRow<E>(tables: seq<Table>, header: seq<string> -> bool, entry: seq<string> -> Option<E>, t: nat, i: nat) {
    && t < |tables| && 1 <= i < |tables[t]|
    && header(TrimAll(tables[t][0])) && entry(tables[t][i]).Some?
  }

  /** Every value read comes from such a row. */
  lemma {:induction false} ReadRowsFrom<E>(tables: seq<Table>, header: seq<string> -> bool, entry: seq<string> -> Option<E>, data: seq<E>, k: nat)
    requires ReadTables(tables, |tables|, TableReader(header, entry)) == Ok(data) && k < |data|
    ensures exists u: nat, i: nat :: ReadRow(tables, header, entry, u, i) && entry(tables[u][i]) == Some(data[k])
  {
    ReadTablesFrom(tables, |tables|, TableReader(header, entry), data, k);
    var u: nat :| u < |tables| && data[k] in TableRows(tables[u], header, entry);
    CollectFromSuffix(tables[u], 1, entry, data[k]);
    var i :| 1 <= i < |tables[u]| && entry(tables[u][i]) == Some(data[k]);
    assert ReadRow(tables, header, entry, u, i);
  }

  /** Every such row is read. */
  lemma {:induction false} ReadRowsComplete<E>(tables: seq<Table>, header: seq<string> -> bool, entry: seq<string> -> Option<E>, data: seq<E>, u: nat, i: nat)
    requires ReadTables(tables, |tables|, TableReader(header, entry)) == Ok(data) && ReadRow(tables, header, entry, u, i)
    ensures entry(tables[u][i]).value in data
  {
    CollectContainsFrom(tables[u], 1, i, entry);
    ReadTablesComplete(tables, |tables|, TableReader(header, entry), data, u, entry(tables[u][i]).value);
  }

  /** The loop over `table.rows[1:]`, keeping what `entry` reads from each row. */
  method ReadBodyRows<E>(rows: Table, entry: seq<string> -> Option<E>, data0: seq<E>) returns (data: seq<E>)
    requires rows != []
    ensures data == data0 + Collect(rows[1..], entry)
  {
    var body := rows[1..];
    data := data0;
    for k := 0 to |body|
      invariant data == data0 + Collect(body[..k], entry)
    {
      var row := entry(body[k]);
      CollectSnoc(body[..k], body[k], entry);
      TakeSnoc(body, k);
      if row.Some? {
        data := data + [row.value];
      }
    }
    assert body[..|body|] == body;
  }

  /** The loop over the document's tables, reading the rows of those whose header `header` accepts. */
  method ReadAllTables<E>(tables: seq<Table>, header: seq<string> -> bool, entry: seq<string> -> Option<E>) returns (r: Result<seq<E>>)
    ensures r == ReadTables(tables, |tables|, TableReader(header, entry))
  {
    var data: seq<E> := [];
    for t := 0 to |tables|
      invariant ReadTables(tables, t, TableReader(header, entry)) == Ok(data)
    {
      var rows := tables[t];
      if |rows| == 0 {
        ReadTablesErrSticks(tables, t + 1, |tables|, TableReader(header, entry));
        return Err(NoFirstRow);
      }
      var headers := TrimAll(rows[0]);
      assert ReadTables(tables, t + 1, TableReader(header, entry)) == Ok(data + TableRows(rows, header, entry));
      if header(headers) {
        data := ReadBodyRows(rows, entry, data);
      } else {
        assert data + TableRows(rows, header, entry) == data;
      }
    }
    r := Ok(data);
  }

  /** What `parse_attendance_table` returns, or raises. */
  function AttendanceTable(tables: seq<Table>): Result<seq<Attendance>> {
    ReadTables(tables, |tables|, TableReader(AttendanceHeader, AttendanceOf))
  }

  /** `parse_attendance_table`. */
  method ParseAttendanceTable(tables: seq<Table>) returns (r: Result<seq<Attendance>>)
    ensures r == AttendanceTable(tables)
  {
    r := ReadAllTables(tables, AttendanceHeader, AttendanceOf);
  }

  /** The parse raises exactly when some table has no rows at all. */
  lemma {:induction false} AttendanceFails(tables: seq<Table>)
    ensures AttendanceTable(tables).Err? <==> exists u :: 0 <= u < |tables| && |tables[u]| == 0
  {
    ReadTablesFails(tables, |tables|, TableReader(AttendanceHeader, AttendanceOf));
  }

  /**
    Every recorded row comes from a body row of a table whose header mentions
    "Contribution" and "Respect", with at least nine cells and a student, and
    holds that row's stripped cells 0 to 3 and 8.
   */
  lemma {:induction false} AttendanceFrom(tables: seq<Table>, data: seq<Attendance>, k: nat)
    requires AttendanceTable(tables) == Ok(data) && k < |data|
    ensures exists u: nat, i: nat ::
      && ReadRow(tables, AttendanceHeader, AttendanceOf, u, i)
      && var cells := TrimAll(tables[u][i]);
         data[k] == Attendance(cells[0], cells[1], cells[2], cells[3], cells[8])
  {
    ReadRowsFrom(tables, AttendanceHeader, AttendanceOf, data, k);
  }

  /** Every such row is recorded. */
  lemma {:induction false} AttendanceComplete(tables: seq<Table>, data: seq<Attendance>, u: nat, i: nat)
    requires AttendanceTable(tables) == Ok(data) && ReadRow(tables, AttendanceHeader, AttendanceOf, u, i)
    ensures AttendanceOf(tables[u][i]).value in data
  {
    ReadRowsComplete(tables, AttendanceHeader, AttendanceOf, data, u, i);
  }

  // ---------------------------------------------------------------- the summary

  const PlanHeading := Heading('1', "Sprint plan")
  const ProgressHeading := Heading('2', "Sprint progress")
  const DemonstrationHeading := Heading('3', "Sprint Demonstration")
  const ReviewHeading := Heading('4', "Sprint review")
  const RetrospectHeading := Heading('5', "Retrospect")
  const LessonsHeading := Heading('6', "Lessons learned")

  /** The summary dictionary: its eight keys are the eight fields. */
  datatype Summary = Summary(
    attendanceTable: seq<Attendance>,
    contributions: seq<(string, string)>,
    sprintPlan: string,
    sprintProgress: string,
    sprintDemonstration: string,
    sprintReview: string,
    retrospect: string,
    lessonsLearned: string)

  /** The summary of a report with paragraph texts `raw` and tables `tables`. */
  function SummaryOf(raw: seq<string>, tables: seq<Table>): Result<Summary> {
    var lines := Paragraphs(raw);
    var text := Join(lines, "\n");
    match AttendanceTable(tables)
    case Err(e) => Err(e)
    case Ok(attendance) =>
      Ok(Summary(
        attendance,
        Contributions(text),
        Section(lines, PlanHeading, [ProgressHeading]),
        Section(lines, ProgressHeading, [DemonstrationHeading]),
        Section(lines, DemonstrationHeading, [ReviewHeading]),
        Section(lines, ReviewHeading, [RetrospectHeading]),
        Section(lines, RetrospectHeading, [LessonsHeading]),
        Section(lines, LessonsHeading, [EndOfText])))
  }

  /** The file name the summary is written to. */
  const SummaryName := "sprint_report_summary.json"

  /**
    `Path(p).with_name(name)` on a path given as its components: the last one
    replaced, or the error pathlib raises for a path without a name.
   */
  function WithName(path: seq<string>, name: string): Result<seq<string>> {
    if path == [] then Err("has an empty name") else Ok(path[..|path| - 1] + [name])
  }

  /** The summary goes beside the report, under the fixed name, whatever the report is called. */
  lemma {:induction false} SummaryPath(path: seq<string>)
    ensures WithName(path, SummaryName).Ok? <==> path != []
    ensures WithName(path, SummaryName).Ok? ==>
      var out := WithName(path, SummaryName).value;
      |out| == |path| && out[|out| - 1] == SummaryName && out[..|out| - 1] == path[..|path| - 1]
  {
  }

  /** Two reports in the same folder are summarised into the same file. */
  lemma {:induction false} SummaryPathShared(p: seq<string>, q: seq<string>)
    requires p != [] && q != [] && p[..|p| - 1] == q[..|q| - 1]
    ensures WithName(p, SummaryName) == WithName(q, SummaryName)
  {
  }

  /** What `parse_sprint_report_docx` returns, and the path it writes the summary to. */
  function SprintReportOf(path: seq<string>, raw: seq<string>, tables: seq<Table>): Result<(Summary, seq<string>)> {
    match SummaryOf(raw, tables)
    case Err(e) => Err(e)
    case Ok(summary) =>
      match WithName(path, SummaryName)
      case Err(e) => Err(e)
      case Ok(out) => Ok((summary, out))
  }

  /**
    `parse_sprint_report_docx`: the paragraphs, the attendance table, the
    contributions and the six sections, then the output path.
   */
  method ParseSprintReportDocx(path: seq<string>, raw: seq<string>, tables: seq<Table>) returns (r: Result<(Summary, seq<string>)>)
    ensures r == SprintReportOf(path, raw, tables)
  {
    var lines := ExtractTextFromDocx(raw);
    var text := Join(lines, "\n");
    var attendance := ParseAttendanceTable(tables);
    if attendance.Err? {
      return Err(attendance.msg);
    }
    var contributions := ParseContributions(text);
    var plan := ExtractSection(lines, PlanHeading, [ProgressHeading]);
    var progress := ExtractSection(lines, ProgressHeading, [DemonstrationHeading]);
    var demo := ExtractSection(lines, DemonstrationHeading, [ReviewHeading]);
    var review := ExtractSection(lines, ReviewHeading, [RetrospectHeading]);
    var retrospect := ExtractSection(lines, RetrospectHeading, [LessonsHeading]);
    var lessons := ExtractSection(lines, LessonsHeading, [EndOfText]);
    var result := Summary(attendance.value, contributions, plan, progress, demo, review, retrospect, lessons);
    if path == [] {
      return Err("has an empty name");
    }
    var outPath := path[..|path| - 1] + [SummaryName];
    r := Ok((result, outPath));
  }

  /**
    A report whose attendance tables all have rows always yields all eight
    fields; a section whose heading is missing is empty, and the lessons run
    to the end of the text.
   */
  lemma {:induction false} SummaryShape(raw: seq<string>, tables: seq<Table>)
    ensures SummaryOf(raw, tables).Ok? <==> forall u :: 0 <= u < |tables| ==> |tables[u]| > 0
    ensures SummaryOf(raw, tables).Ok? ==>
      var lines := Paragraphs(raw);
      var s := SummaryOf(raw, tables).value;
      && (AfterHeading(Join(lines, "\n"), PlanHeading).None? ==> s.sprintPlan == "")
      && (AfterHeading(Join(lines, "\n"), ProgressHeading).None? ==> s.sprintProgress == "")
      && (AfterHeading(Join(lines, "\n"), DemonstrationHeading).None? ==> s.sprintDemonstration == "")
      && (AfterHeading(Join(lines, "\n"), ReviewHeading).None? ==> s.sprintReview == "")
      && (AfterHeading(Join(lines, "\n"), RetrospectHeading).None? ==> s.retrospect == "")
      && s.lessonsLearned == (match AfterHeading(Join(lines, "\n"), LessonsHeading) case None => "" case Some(rest) => Trim(rest))
  {
    AttendanceFails(tables);
    var lines := Paragraphs(raw);
    match AfterHeading(Join(lines, "\n"), LessonsHeading)
    case None =>
    case Some(rest) => SectionToEnd(lines, LessonsHeading, rest);
  }
}
