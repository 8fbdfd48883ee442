/**
  The second half of the project-plan parser: each row of the contribution
  table names a student and describes their work; the description is cut
  into keywords, the keywords are matched against the section titles and
  the table categories, and the text so gathered is measured. The students
  can then be filtered to a roster.
 */
module PlanStudents {
  import opened Wrappers
  import opened Strings
  import opened AssocList
  import opened Lists
  import opened DocxMetrics
  import opened WeekLog
  import opened ProjectPlan

  // ---------------------------------------------------------------------------
  // normalize_text
  // ---------------------------------------------------------------------------

  /** The characters `[a-z0-9]` that `normalize_text` keeps. */
  predicate IsPlain(c: char) {
    IsLowerAscii(c) || IsDigit(c)
  }

  /** Only plain characters and plain spaces, and never two spaces together. */
  predicate PlainSpaced(r: string) {
    && (forall i :: 0 <= i < |r| ==> IsPlain(r[i]) || r[i] == ' ')
    && (forall i :: 0 <= i < |r| - 1 ==> !(r[i] == ' ' && r[i + 1] == ' '))
  }

  /** What `normalize_text` returns: plain-spaced, with no space at either end. */
  predicate Clean(r: string) {
    PlainSpaced(r) && (r == [] || (r[0] != ' ' && r[|r| - 1] != ' '))
  }

  /**
    `re.sub(r"[^a-z0-9]+", " ", s)`: every run of other characters becomes
    one space; `inRun` says the character before `s` was one of them.
   */
  function Squash(s: string, inRun: bool): (r: string)
    ensures PlainSpaced(r)
    ensures inRun ==> r == [] || r[0] != ' '
    ensures forall c :: c in r && c != ' ' ==> c in s
    ensures PlainSpaced(s) && (!inRun || s == [] || s[0] != ' ') ==> r == s
  {
    if s == [] then []
    else if IsPlain(s[0]) then [s[0]] + Squash(s[1..], false)
    else if inRun then Squash(s[1..], true)
    else [' '] + Squash(s[1..], true)
  }

  /** `normalize_text`: lower-cased, runs of characters outside `[a-z0-9]` made single spaces, stripped. */
  function NormalizeText(s: string): string {
    Trim(Squash(ToLower(s), false))
  }

  /** An infix of a plain-spaced string is plain-spaced. */
  lemma {:induction false} PlainInfix(c: string, off: nat, t: string)
    requires PlainSpaced(c) && off + |t| <= |c| && c[off..off + |t|] == t
    ensures PlainSpaced(t)
  {
    assert forall i :: 0 <= i < |t| ==> t[i] == c[off + i];
  }

  /** Every normalised text is clean. */
  lemma {:induction false} NormalizeTextClean(s: string)
    ensures Clean(NormalizeText(s))
  {
    var c := Squash(ToLower(s), false);
    TrimIsInfix(c);
    PlainInfix(c, |c| - |TrimStart(c)|, Trim(c));
  }

  /** A clean text normalises to itself. */
  lemma {:induction false} NormalizeTextFixed(s: string)
    requires Clean(s)
    ensures NormalizeText(s) == s
  {
    assert ToLower(s) == s;
    TrimOfNonSpaceEdges(s);
  }

  /** Normalising twice is normalising once. */
  lemma {:induction false} NormalizeTextIdempotent(s: string)
    ensures NormalizeText(NormalizeText(s)) == NormalizeText(s)
  {
    NormalizeTextClean(s);
    NormalizeTextFixed(NormalizeText(s));
  }

  /**
    `re.sub(r"^\d+[\.\-]?\s*", "", title)`: a leading number, the dot or
    hyphen right after it and the whitespace that follows are removed.
   */
  function CleanTitle(title: string): (r: string)
    ensures |r| <= |title| && r == title[|title| - |r|..]
    ensures DigitRun(title) == 0 ==> r == title
    ensures DigitRun(title) > 0 ==> r == [] || !IsSpace(r[0])
    ensures forall i :: 0 <= i < |title| - |r| ==> IsDigit(title[i]) || title[i] == '.' || title[i] == '-' || IsSpace(title[i])
  {
    var n := DigitRun(title);
    if n == 0 then title
    else
      var m := if n < |title| && (title[n] == '.' || title[n] == '-') then n + 1 else n;
      TrimStart(title[m..])
  }

  /** A cleaned normalised title is still clean. */
  lemma {:induction false} CleanTitleClean(title: string)
    requires Clean(title)
    ensures Clean(CleanTitle(title))
  {
    var r := CleanTitle(title);
    PlainInfix(title, |title| - |r|, r);
    if r != [] {
      assert r[|r| - 1] == title[|title| - 1];
      assert r[0] != ' ';
    }
  }

  // ---------------------------------------------------------------------------
  // Keywords of a contribution description
  // ---------------------------------------------------------------------------

  /** The separators of `re.split(r"[\n,;/]+", desc)`. */
  const Separators: set<char> := {'\n', ',', ';', '/'}

  /** A piece of the description gives a keyword unless it is blank. */
  function KeywordOf(piece: string): Option<string> {
    if Trim(piece) != "" then Some(NormalizeText(piece)) else None
  }

  /** `desc_keywords`: the normalised non-blank pieces of the description, in order. */
  function Keywords(desc: string): seq<string> {
    Collect(SplitAny(desc, Separators), KeywordOf)
  }

  /** Every keyword is clean, so none holds a separator. */
  lemma {:induction false} KeywordsClean(desc: string)
    ensures forall kw :: kw in Keywords(desc) ==> Clean(kw)
  {
    var pieces := SplitAny(desc, Separators);
    forall i | 0 <= i < |pieces| && KeywordOf(pieces[i]).Some?
      ensures Clean(KeywordOf(pieces[i]).value)
    {
      NormalizeTextClean(pieces[i]);
    }
    CollectIn(pieces, KeywordOf, Clean);
  }

  // ---------------------------------------------------------------------------
  // Matching keywords to section titles
  // ---------------------------------------------------------------------------

  /** `fuzzy_match(a, b)`: `SequenceMatcher(None, a, b).ratio() > 0.6`, as an oracle. */
  type Similar = (string, string) -> bool

  /** `normalized_sections`: each section key under its normalised form; a later key with the same form replaces the earlier. */
  function NormalizedTitles(sections: seq<(string, string)>): seq<(string, string)> {
    PutAll([], seq(|sections|, i requires 0 <= i < |sections| => (NormalizeText(sections[i].0), sections[i].0)))
  }

  /** The test of the inner loop: a non-empty keyword inside the cleaned title, the title inside it, or the two similar. */
  predicate Hits(kw: string, cleaned: string, similar: Similar) {
    kw != "" && (Contains(cleaned, kw) || Contains(kw, cleaned) || similar(ToLower(kw), ToLower(cleaned)))
  }

  /** The original title of a normalised-title pair, when the keyword hits it. */
  function HitOf(kw: string, similar: Similar): ((string, string)) -> Option<string> {
    (p: (string, string)) => if Hits(kw, CleanTitle(p.0), similar) then Some(p.1) else None
  }

  /** The title a keyword matches: the first it hits, if any. */
  function TitleFor(titles: seq<(string, string)>, similar: Similar): string -> Option<string> {
    kw => First(titles, HitOf(kw, similar))
  }

  /** `matched_sections`: for each keyword in turn, the first title it hits, if any. */
  function MatchedSections(keywords: seq<string>, titles: seq<(string, string)>, similar: Similar): seq<string> {
    Collect(keywords, TitleFor(titles, similar))
  }

  /** The keyword loop with its inner loop over the titles, which stops at the first hit. */
  method MatchSections(keywords: seq<string>, titles: seq<(string, string)>, similar: Similar) returns (matched: seq<string>)
    ensures matched == MatchedSections(keywords, titles, similar)
  {
    matched := [];
    for k := 0 to |keywords|
      invariant matched == Collect(keywords[..k], TitleFor(titles, similar))
    {
      var kw := keywords[k];
      TakeSnoc(keywords, k);
      CollectSnoc(keywords[..k], kw, TitleFor(titles, similar));
      ghost var before := matched;
      var j := 0;
      while j < |titles|
        invariant j <= |titles| && matched == before
        invariant First(titles[j..], HitOf(kw, similar)) == First(titles, HitOf(kw, similar))
        decreases |titles| - j
      {
        var (normTitle, origTitle) := titles[j];
        var cleanedTitle := CleanTitle(normTitle);
        if kw != "" && (Contains(cleanedTitle, kw) || Contains(kw, cleanedTitle) || similar(ToLower(kw), ToLower(cleanedTitle))) {
          assert HitOf(kw, similar)(titles[j..][0]) == Some(origTitle);
          matched := matched + [origTitle];
          break;
        }
        assert titles[j..][1..] == titles[j + 1..];
        j := j + 1;
      }
    }
    assert keywords[..|keywords|] == keywords;
  }

  /** A pair written by `PutAll` from the empty list is one of the pairs written. */
  lemma {:induction false} PutAllFrom<K(!new), V>(pairs: seq<(K, V)>, k: K, v: V)
    requires (k, v) in PutAll([], pairs)
    ensures (k, v) in pairs
  {
    var m := PutAll([], pairs);
    PutAllDistinct([], pairs);
    var i :| 0 <= i < |m| && m[i] == (k, v);
    GetDistinct(m, i);
    GetPutAll([], pairs, k);
    LastValueIn(pairs, k);
  }

  /** Every normalised title is the normal form of the section key it stands for. */
  lemma {:induction false} NormalizedTitlesSound(sections: seq<(string, string)>, n: string, o: string)
    requires (n, o) in NormalizedTitles(sections)
    ensures n == NormalizeText(o) && HasKey(sections, o)
  {
    var ws := seq(|sections|, i requires 0 <= i < |sections| => (NormalizeText(sections[i].0), sections[i].0));
    PutAllFrom(ws, n, o);
    var i :| 0 <= i < |ws| && ws[i] == (n, o);
    assert sections[i].0 == o;
  }

  /** Every section has its normal form among the normalised titles. */
  lemma {:induction false} NormalizedTitlesCover(sections: seq<(string, string)>, i: nat)
    requires i < |sections|
    ensures HasKey(NormalizedTitles(sections), NormalizeText(sections[i].0))
  {
    var ws := seq(|sections|, i requires 0 <= i < |sections| => (NormalizeText(sections[i].0), sections[i].0));
    GetPutAll([], ws, NormalizeText(sections[i].0));
    assert ws[i].0 == NormalizeText(sections[i].0);
  }

  /** The title a keyword matches is the original title of one of the pairs. */
  lemma {:induction false} TitleForIn(titles: seq<(string, string)>, similar: Similar, kw: string)
    requires TitleFor(titles, similar)(kw).Some?
    ensures exists i :: 0 <= i < |titles| && titles[i].1 == TitleFor(titles, similar)(kw).value
  {
    var f := HitOf(kw, similar);
    var i :| 0 <= i < |titles| && f(titles[i]) == First(titles, f) && forall l :: 0 <= l < i ==> f(titles[l]).None?;
    assert titles[i].1 == f(titles[i]).value;
  }

  /** Every matched section is a section of the document. */
  lemma {:induction false} MatchedAreSections(keywords: seq<string>, sections: seq<(string, string)>, similar: Similar, s: string)
    requires s in MatchedSections(keywords, NormalizedTitles(sections), similar)
    ensures HasKey(sections, s)
  {
    var titles := NormalizedTitles(sections);
    var f := TitleFor(titles, similar);
    var j :| 0 <= j < |Collect(keywords, f)| && Collect(keywords, f)[j] == s;
    CollectFrom(keywords, f, j);
    var k :| 0 <= k < |keywords| && f(keywords[k]) == Some(s);
    TitleForIn(titles, similar, keywords[k]);
    var i :| 0 <= i < |titles| && titles[i].1 == s;
    assert titles[i] in titles;
    NormalizedTitlesSound(sections, titles[i].0, s);
  }

  /** A keyword matches the first title it hits, which it can only do when it is not empty. */
  lemma {:induction false} TitleForFirstHit(titles: seq<(string, string)>, similar: Similar, kw: string, i: nat)
    requires i < |titles| && Hits(kw, CleanTitle(titles[i].0), similar)
    requires forall l :: 0 <= l < i ==> !Hits(kw, CleanTitle(titles[l].0), similar)
    ensures TitleFor(titles, similar)(kw) == Some(titles[i].1)
    ensures kw != ""
  {
    var f := HitOf(kw, similar);
    assert f(titles[i]) == Some(titles[i].1);
    var i' :| 0 <= i' < |titles| && f(titles[i']) == First(titles, f) && forall l :: 0 <= l < i' ==> f(titles[l]).None?;
    assert !(i < i');
    assert forall l :: 0 <= l < i ==> f(titles[l]).None?;
  }

  // ---------------------------------------------------------------------------
  // The tables a description points to
  // ---------------------------------------------------------------------------

  /** The words in a keyword that make a table category relevant. */
  predicate Mentions(c: Category, kw: string) {
    match c
    case RiskMitigation => Contains(kw, "risk") || Contains(kw, "mitigation")
    case HighLevelRequirements => Contains(kw, "requirement")
    case ProductBacklog => Contains(kw, "backlog")
    case _ => false
  }

  /** Some keyword mentions the category. */
  predicate Mentioned(c: Category, keywords: seq<string>) {
    exists kw :: kw in keywords && Mentions(c, kw)
  }

  /** The order in which `relevant_tables` is built. */
  function Slot(c: Category): nat {
    match c
    case RiskMitigation => 0
    case HighLevelRequirements => 1
    case ProductBacklog => 2
    case _ => 3
  }

  /** `relevant_tables`: the categories some keyword mentions, each once, in the order risks, requirements, backlog. */
  function RelevantTables(keywords: seq<string>): seq<Category> {
    (if Mentioned(RiskMitigation, keywords) then [RiskMitigation] else [])
    + (if Mentioned(HighLevelRequirements, keywords) then [HighLevelRequirements] else [])
    + (if Mentioned(ProductBacklog, keywords) then [ProductBacklog] else [])
  }

  /** A category is relevant exactly when a keyword mentions it, and the relevant ones come in order, each once. */
  lemma {:induction false} RelevantTablesExact(keywords: seq<string>, c: Category)
    ensures c in RelevantTables(keywords) <==> Mentioned(c, keywords)
    ensures var r := RelevantTables(keywords); forall i, j :: 0 <= i < j < |r| ==> Slot(r[i]) < Slot(r[j])
  {
    match c
    case RiskMitigation =>
    case HighLevelRequirements =>
    case ProductBacklog =>
    case _ =>
      assert !Mentioned(c, keywords);
  }

  /** `" ".join(r.values())` of one record. */
  function RowText(r: Record): string {
    Join(Values(r), " ")
  }

  /** The row texts one relevant category adds: all its rows, when it was classified and counts in the metrics. */
  function CategoryTexts(c: Category, tables: seq<(Category, TableEntry)>): (r: seq<string>)
    ensures r != [] ==> Get(tables, c).Some? && Get(tables, c).value.includeInMetrics
    ensures Get(tables, c).Some? && Get(tables, c).value.includeInMetrics ==>
      |r| == |Get(tables, c).value.rows| && forall i :: 0 <= i < |r| ==> r[i] == RowText(Get(tables, c).value.rows[i])
  {
    match Get(tables, c)
    case Some(e) =>
      if e.includeInMetrics then seq(|e.rows|, i requires 0 <= i < |e.rows| => RowText(e.rows[i])) else []
    case None => []
  }

  /** `table_texts`: the row texts of the relevant categories, category after category. */
  function TableTexts(relevant: seq<Category>, tables: seq<(Category, TableEntry)>): seq<string> {
    if relevant == [] then []
    else
      var n := |relevant| - 1;
      TableTexts(relevant[..n], tables) + CategoryTexts(relevant[n], tables)
  }

  /** The loop over the relevant categories and their rows. */
  method GatherTableTexts(relevant: seq<Category>, tables: seq<(Category, TableEntry)>) returns (texts: seq<string>)
    ensures texts == TableTexts(relevant, tables)
  {
    texts := [];
    for t := 0 to |relevant|
      invariant texts == TableTexts(relevant[..t], tables)
    {
      assert relevant[..t + 1][..t] == relevant[..t];
      texts := AddCategoryTexts(texts, relevant[t], tables);
    }
    assert relevant[..|relevant|] == relevant;
  }

  /** One category's turn: the text of each of its rows, when it was classified and counts in the metrics. */
  method AddCategoryTexts(texts: seq<string>, c: Category, tables: seq<(Category, TableEntry)>) returns (out: seq<string>)
    ensures out == texts + CategoryTexts(c, tables)
  {
    out := texts;
    var entry := Get(tables, c);
    if entry.Some? && entry.value.includeInMetrics {
      var rows := entry.value.rows;
      ghost var all := CategoryTexts(c, tables);
      for r := 0 to |rows|
        invariant out == texts + all[..r]
      {
        assert all[..r + 1] == all[..r] + [RowText(rows[r])];
        out := out + [RowText(rows[r])];
      }
      assert all[..|rows|] == all;
    }
  }

  /** A table text is a row text of one of the relevant categories, and each of their rows gives one. */
  lemma {:induction false} TableTextsFrom(relevant: seq<Category>, tables: seq<(Category, TableEntry)>, x: string)
    ensures x in TableTexts(relevant, tables) <==> exists i :: 0 <= i < |relevant| && x in CategoryTexts(relevant[i], tables)
  {
    if relevant != [] {
      var n := |relevant| - 1;
      var pre := relevant[..n];
      var prev, last := TableTexts(pre, tables), CategoryTexts(relevant[n], tables);
      assert TableTexts(relevant, tables) == prev + last;
      TableTextsFrom(pre, tables, x);
      if x in prev {
        var i :| 0 <= i < n && x in CategoryTexts(pre[i], tables);
        assert pre[i] == relevant[i];
      } else if x in last {
        assert x in CategoryTexts(relevant[n], tables);
      } else {
        forall i | 0 <= i < |relevant| ensures x !in CategoryTexts(relevant[i], tables) {
          if i < n {
            assert pre[i] == relevant[i];
            assert x !in CategoryTexts(pre[i], tables);
          } else {
            assert i == n;
          }
        }
      }
    }
  }

  // ---------------------------------------------------------------------------
  // One student's entry
  // ---------------------------------------------------------------------------

  const NameColumn := "Student Name"
  const AltNameColumn := "Student name"
  const DescriptionColumn := "Description of contribution in team and project planning"

  /** `row.get("Student Name") or row.get("Student name")`, when it is a non-empty name. */
  function StudentName(row: Record): (r: Option<string>)
    ensures r.Some? ==> r.value != ""
    ensures r.Some? ==> Get(row, NameColumn) == r || (GetOr(row, NameColumn, "") == "" && Get(row, AltNameColumn) == r)
    ensures r.None? <==> GetOr(row, NameColumn, "") == "" && GetOr(row, AltNameColumn, "") == ""
  {
    var first := GetOr(row, NameColumn, "");
    if first != "" then Some(first)
    else
      var second := GetOr(row, AltNameColumn, "");
      if second != "" then Some(second) else None
  }

  /** What `result["students"][name]` holds. */
  datatype PlanEntry = PlanEntry(sectionsWritten: seq<string>, relevantTables: seq<Category>, rawText: string, metrics: TextMetrics)

  /** `sections[s]` for a matched title that is a section key. */
  function SectionBody(sections: seq<(string, string)>): string -> Option<string> {
    s => Get(sections, s)
  }

  /** `section_text`: the bodies of the matched sections, blank-line separated. */
  function SectionText(matched: seq<string>, sections: seq<(string, string)>): string {
    Join(Collect(matched, SectionBody(sections)), "\n\n")
  }

  /** `combined_text`: the section text and the table texts, blank-line separated, stripped. */
  function CombinedText(matched: seq<string>, relevant: seq<Category>, sections: seq<(string, string)>, tables: seq<(Category, TableEntry)>): string {
    Trim(SectionText(matched, sections) + "\n\n" + Join(TableTexts(relevant, tables), "\n\n"))
  }

  /** The entry a description gives. */
  function EntryFor(desc: string, sections: seq<(string, string)>, tables: seq<(Category, TableEntry)>, similar: Similar, measure: Measure): PlanEntry {
    var keywords := Keywords(desc);
    var matched := MatchedSections(keywords, NormalizedTitles(sections), similar);
    var relevant := RelevantTables(keywords);
    var text := CombinedText(matched, relevant, sections, tables);
    PlanEntry(matched, relevant, text, TextMetricsOf(text, measure))
  }

  /** The write one contribution row makes: its student and entry, unless it names nobody. */
  function StudentWriteOf(sections: seq<(string, string)>, tables: seq<(Category, TableEntry)>, similar: Similar, measure: Measure): Record -> Option<(string, PlanEntry)> {
    row =>
      match StudentName(row)
      case Some(name) => Some((name, EntryFor(GetOr(row, DescriptionColumn, ""), sections, tables, similar, measure)))
      case None => None
  }

  /** `result["tables"].get("TeamContributions", {}).get("rows", [])`. */
  function ContributionRows(tables: seq<(Category, TableEntry)>): seq<Record> {
    match Get(tables, TeamContributions)
    case Some(e) => e.rows
    case None => []
  }

  /** `result["students"]`: a later row of the same student replaces the earlier one. */
  function Students(sections: seq<(string, string)>, tables: seq<(Category, TableEntry)>, similar: Similar, measure: Measure): seq<(string, PlanEntry)> {
    PutAll([], Collect(ContributionRows(tables), StudentWriteOf(sections, tables, similar, measure)))
  }

  /** The loop over the contribution rows of `parse_project_plan_docx`. */
  method BuildStudents(sections: seq<(string, string)>, tables: seq<(Category, TableEntry)>, similar: Similar, measure: Measure)
    returns (students: seq<(string, PlanEntry)>)
    ensures students == Students(sections, tables, similar, measure)
  {
    var normalizedSections := NormalizedTitles(sections);
    var contributions := ContributionRows(tables);
    students := [];
    for i := 0 to |contributions|
      invariant students == PutAll([], Collect(contributions[..i], StudentWriteOf(sections, tables, similar, measure)))
    {
      var row := contributions[i];
      WriteNext(students, contributions, i, StudentWriteOf(sections, tables, similar, measure));
      var name := StudentName(row);
      var desc := GetOr(row, DescriptionColumn, "");
      if name.Some? {
        var descKeywords := Keywords(desc);
        var matchedSections := MatchSections(descKeywords, normalizedSections, similar);
        var relevantTables := RelevantTables(descKeywords);
        var tableTexts := GatherTableTexts(relevantTables, tables);
        var combinedText := Trim(SectionText(matchedSections, sections) + "\n\n" + Join(tableTexts, "\n\n"));
        students := Put(students, name.value, PlanEntry(matchedSections, relevantTables, combinedText, TextMetricsOf(combinedText, measure)));
      }
    }
    assert contributions[..|contributions|] == contributions;
  }

  /** `PutAll` from the empty list has exactly the keys written. */
  lemma {:induction false} PutAllKeys<K(!new), V>(pairs: seq<(K, V)>, k: K)
    ensures HasKey(PutAll([], pairs), k) <==> HasKey(pairs, k)
  {
    GetPutAll([], pairs, k);
  }

  /** `PutAll` of collected writes has a key exactly when some item writes it. */
  lemma {:induction false} CollectKeys<T, K(!new), V>(items: seq<T>, f: T -> Option<(K, V)>, k: K)
    ensures HasKey(PutAll([], Collect(items, f)), k) <==> exists i :: 0 <= i < |items| && f(items[i]).Some? && f(items[i]).value.0 == k
  {
    var ws := Collect(items, f);
    PutAllKeys(ws, k);
    if HasKey(ws, k) {
      var j :| 0 <= j < |ws| && ws[j].0 == k;
      CollectFrom(items, f, j);
    }
    if exists i :: 0 <= i < |items| && f(items[i]).Some? && f(items[i]).value.0 == k {
      var i :| 0 <= i < |items| && f(items[i]).Some? && f(items[i]).value.0 == k;
      CollectContains(items, f, i);
    }
  }

  /** A contribution row writes a student exactly when it names one. */
  lemma {:induction false} WritesNamed(sections: seq<(string, string)>, tables: seq<(Category, TableEntry)>, similar: Similar, measure: Measure, row: Record)
    ensures StudentWriteOf(sections, tables, similar, measure)(row).Some? <==> StudentName(row).Some?
    ensures StudentName(row).Some? ==>
      StudentWriteOf(sections, tables, similar, measure)(row).value ==
      (StudentName(row).value, EntryFor(GetOr(row, DescriptionColumn, ""), sections, tables, similar, measure))
  {
  }

  /** The students are exactly the names the contribution rows give. */
  lemma {:induction false} StudentsNamed(sections: seq<(string, string)>, tables: seq<(Category, TableEntry)>, similar: Similar, measure: Measure, name: string)
    ensures HasKey(Students(sections, tables, similar, measure), name) <==>
      exists i :: 0 <= i < |ContributionRows(tables)| && StudentName(ContributionRows(tables)[i]) == Some(name)
  {
    var rows := ContributionRows(tables);
    var f := StudentWriteOf(sections, tables, similar, measure);
    CollectKeys(rows, f, name);
    forall i | 0 <= i < |rows| ensures (f(rows[i]).Some? && f(rows[i]).value.0 == name) <==> StudentName(rows[i]) == Some(name) {
      WritesNamed(sections, tables, similar, measure, rows[i]);
    }
  }

  /** A student's entry is the one their last row gives. */
  lemma {:induction false} LastRowWins(sections: seq<(string, string)>, tables: seq<(Category, TableEntry)>, similar: Similar, measure: Measure, j: nat, name: string)
    requires j < |ContributionRows(tables)| && StudentName(ContributionRows(tables)[j]) == Some(name)
    requires forall l :: j < l < |ContributionRows(tables)| ==> StudentName(ContributionRows(tables)[l]) != Some(name)
    ensures Get(Students(sections, tables, similar, measure), name) ==
      Some(EntryFor(GetOr(ContributionRows(tables)[j], DescriptionColumn, ""), sections, tables, similar, measure))
  {
    var rows := ContributionRows(tables);
    var f := StudentWriteOf(sections, tables, similar, measure);
    WritesNamed(sections, tables, similar, measure, rows[j]);
    forall l | j < l < |rows| ensures f(rows[l]).None? || f(rows[l]).value.0 != name {
      WritesNamed(sections, tables, similar, measure, rows[l]);
    }
    CollectWriteLast(rows, f, j);
  }

  /** When every matched title is a section key, `if s in sections` drops none of them. */
  lemma {:induction false} BodiesPerSection(matched: seq<string>, sections: seq<(string, string)>)
    requires forall s :: s in matched ==> HasKey(sections, s)
    ensures |Collect(matched, SectionBody(sections))| == |matched|
  {
    var bodies := seq(|matched|, i requires 0 <= i < |matched| => Get(sections, matched[i]).value);
    forall i | 0 <= i < |matched| ensures SectionBody(sections)(matched[i]) == Some(bodies[i]) {
      assert matched[i] in matched;
    }
    CollectAllRead(matched, SectionBody(sections), bodies);
  }

  /** A description with no keyword gives an empty entry with zero metrics. */
  lemma {:induction false} EmptyEntry(desc: string, sections: seq<(string, string)>, tables: seq<(Category, TableEntry)>, similar: Similar, measure: Measure)
    requires Keywords(desc) == []
    ensures EntryFor(desc, sections, tables, similar, measure) == PlanEntry([], [], "", NoMetrics)
  {
    assert MatchedSections([], NormalizedTitles(sections), similar) == [];
    assert RelevantTables([]) == [];
    var text := CombinedText([], [], sections, tables);
    assert text == "" by {
      assert SectionText([], sections) == "";
      assert TableTexts([], tables) == [];
      assert text == Trim("\n\n");
      assert "\n\n"[1..] == "\n" && "\n"[1..] == "";
      assert TrimStart("\n\n") == "";
    }
    assert Trim(text) == "" by {
      assert TrimStart("") == "" && TrimEnd("") == "";
    }
  }

  /**
    An entry names only sections of the document, one body for each of
    them; it points to exactly the tables its keywords mention, and lists
    its text's metrics.
   */
  lemma {:induction false} EntrySound(desc: string, sections: seq<(string, string)>, tables: seq<(Category, TableEntry)>, similar: Similar, measure: Measure)
    ensures var e := EntryFor(desc, sections, tables, similar, measure);
      && (forall s :: s in e.sectionsWritten ==> HasKey(sections, s))
      && |Collect(e.sectionsWritten, SectionBody(sections))| == |e.sectionsWritten|
      && (forall c :: c in e.relevantTables <==> Mentioned(c, Keywords(desc)))
      && e.metrics == TextMetricsOf(e.rawText, measure)
  {
    var matched := MatchedSections(Keywords(desc), NormalizedTitles(sections), similar);
    assert EntryFor(desc, sections, tables, similar, measure).sectionsWritten == matched;
    forall s | s in matched ensures HasKey(sections, s) {
      MatchedAreSections(Keywords(desc), sections, similar, s);
    }
    BodiesPerSection(matched, sections);
    forall c ensures c in EntryFor(desc, sections, tables, similar, measure).relevantTables <==> Mentioned(c, Keywords(desc)) {
      RelevantTablesExact(Keywords(desc), c);
    }
  }

  // ---------------------------------------------------------------------------
  // _filter_students_to_roster
  // ---------------------------------------------------------------------------

  /** `get_close_matches(name, roster, n=1, cutoff=0.85)` found a match, as an oracle. */
  type NearName = (string, seq<string>) -> bool

  /** A student stays when their name is on the roster or close to a name on it. */
  predicate OnRoster(name: string, roster: seq<string>, near: NearName) {
    name in roster || near(name, roster)
  }

  function KeepOnRoster(roster: seq<string>, near: NearName): ((string, PlanEntry)) -> bool {
    (p: (string, PlanEntry)) => OnRoster(p.0, roster, near)
  }

  /** The `keep` dictionary: the students on the roster, written in order. */
  function RosterStudents(students: seq<(string, PlanEntry)>, roster: seq<string>, near: NearName): seq<(string, PlanEntry)> {
    PutAll([], Select(students, KeepOnRoster(roster, near)))
  }

  /** `_filter_students_to_roster` on the students of a report. */
  method FilterStudentsToRoster(students: seq<(string, PlanEntry)>, roster: seq<string>, near: NearName) returns (keep: seq<(string, PlanEntry)>)
    ensures keep == RosterStudents(students, roster, near)
  {
    keep := [];
    for i := 0 to |students|
      invariant keep == PutAll([], Select(students[..i], KeepOnRoster(roster, near)))
    {
      var (name, details) := students[i];
      assert students[..i + 1][..i] == students[..i];
      ghost var before := Select(students[..i], KeepOnRoster(roster, near));
      if name in roster || near(name, roster) {
        assert Select(students[..i + 1], KeepOnRoster(roster, near)) == before + [(name, details)];
        PutAllSnoc([], before, name, details);
        keep := Put(keep, name, details);
      } else {
        assert Select(students[..i + 1], KeepOnRoster(roster, near)) == before;
      }
    }
    assert students[..|students|] == students;
  }

  /** Filtering distinct pairs keeps them distinct. */
  lemma {:induction false} SelectDistinct<K, V>(m: seq<(K, V)>, p: ((K, V)) -> bool)
    requires Distinct(m)
    ensures Distinct(Select(m, p))
  {
    if m != [] {
      var n := |m| - 1;
      var pre := m[..n];
      assert forall i :: 0 <= i < n ==> pre[i] == m[i];
      SelectDistinct(pre, p);
      var s := Select(pre, p);
      if p(m[n]) {
        forall i | 0 <= i < |s| ensures s[i].0 != m[n].0 {
          SelectExactly(pre, p, s[i]);
          var l :| 0 <= l < n && pre[l] == s[i];
        }
      }
    }
  }

  /**
    The filter keeps the order of the students, keeps exactly those on the
    roster or close to it, and leaves their entries as they were.
   */
  lemma {:induction false} RosterKeeps(students: seq<(string, PlanEntry)>, roster: seq<string>, near: NearName, k: string)
    requires Distinct(students)
    ensures RosterStudents(students, roster, near) == Select(students, KeepOnRoster(roster, near))
    ensures Get(RosterStudents(students, roster, near), k) == if OnRoster(k, roster, near) then Get(students, k) else None
  {
    var p := KeepOnRoster(roster, near);
    var s := Select(students, p);
    SelectDistinct(students, p);
    PutAllFresh(s);
    var g := Get(students, k);
    if g.Some? {
      SelectExactly(students, p, (k, g.value));
      if OnRoster(k, roster, near) {
        var i :| 0 <= i < |s| && s[i] == (k, g.value);
        GetDistinct(s, i);
      }
    }
    var h := Get(s, k);
    if h.Some? {
      SelectExactly(students, p, (k, h.value));
      var i :| 0 <= i < |students| && students[i] == (k, h.value);
      GetDistinct(students, i);
    }
  }

  // ---------------------------------------------------------------------------
  // parse_project_plan_docx
  // ---------------------------------------------------------------------------

  /** The dictionary `parse_project_plan_docx` returns. */
  datatype PlanReport = PlanReport(
    sourceFile: string,
    tables: seq<(Category, TableEntry)>,
    students: seq<(string, PlanEntry)>,
    overallMetrics: TextMetrics)

  /** `overall_metrics`: the metrics of all section bodies, blank-line separated. */
  function OverallMetrics(sections: seq<(string, string)>, measure: Measure): TextMetrics {
    TextMetricsOf(Join(Values(sections), "\n\n"), measure)
  }

  /** What `parse_project_plan_docx` returns for a document's paragraphs and tables, or the error a table without rows raises. */
  function PlanReportOf(path: seq<string>, raw: seq<string>, tables: seq<Table>, similar: Similar, measure: Measure): Result<PlanReport> {
    match ClassifiedTables(tables)
    case Err(e) => Err(e)
    case Ok(classified) =>
      var sections := TextSections(raw);
      Ok(PlanReport(FileName(path), classified, Students(sections, classified, similar, measure), OverallMetrics(sections, measure)))
  }

  /** `parse_project_plan_docx`. */
  method ParseProjectPlanDocx(path: seq<string>, raw: seq<string>, tables: seq<Table>, similar: Similar, measure: Measure)
    returns (r: Result<PlanReport>)
    ensures r == PlanReportOf(path, raw, tables, similar, measure)
  {
    var classified := ClassifyTables(tables);
    if classified.Err? {
      return Err(classified.msg);
    }
    var sections := ExtractTextSections(raw);
    var students := BuildStudents(sections, classified.value, similar, measure);
    var fullText := Join(Values(sections), "\n\n");
    r := Ok(PlanReport(FileName(path), classified.value, students, TextMetricsOf(fullText, measure)));
  }

  /** A pair written from collected writes is the write of some item. */
  lemma {:induction false} CollectWritten<T, K(!new), V>(items: seq<T>, f: T -> Option<(K, V)>, k: K, v: V)
    requires (k, v) in PutAll([], Collect(items, f))
    ensures exists i :: 0 <= i < |items| && f(items[i]) == Some((k, v))
  {
    PutAllFrom(Collect(items, f), k, v);
    var j :| 0 <= j < |Collect(items, f)| && Collect(items, f)[j] == (k, v);
    CollectFrom(items, f, j);
  }

  /** Every section a student is credited with is a section of the document. */
  lemma {:induction false} StudentSections(sections: seq<(string, string)>, tables: seq<(Category, TableEntry)>, similar: Similar, measure: Measure,
                        name: string, e: PlanEntry, s: string)
    requires (name, e) in Students(sections, tables, similar, measure) && s in e.sectionsWritten
    ensures HasKey(sections, s)
  {
    var rows := ContributionRows(tables);
    var f := StudentWriteOf(sections, tables, similar, measure);
    CollectWritten(rows, f, name, e);
    var i :| 0 <= i < |rows| && f(rows[i]) == Some((name, e));
    WritesNamed(sections, tables, similar, measure, rows[i]);
    EntrySound(GetOr(rows[i], DescriptionColumn, ""), sections, tables, similar, measure);
  }

  /**
    The report fails exactly when a table has no rows; otherwise it holds
    one student per name in the contribution table, and every section a
    student wrote is a heading of the document.
   */
  lemma {:induction false} PlanReportShape(path: seq<string>, raw: seq<string>, tables: seq<Table>, similar: Similar, measure: Measure, name: string)
    ensures PlanReportOf(path, raw, tables, similar, measure).Err? <==> exists u :: 0 <= u < |tables| && |tables[u]| == 0
    ensures var r := PlanReportOf(path, raw, tables, similar, measure);
      r.Ok? ==>
        && Distinct(r.value.students)
        && (HasKey(r.value.students, name) <==>
              exists i :: 0 <= i < |ContributionRows(r.value.tables)| && StudentName(ContributionRows(r.value.tables)[i]) == Some(name))
        && (forall e, s :: (name, e) in r.value.students && s in e.sectionsWritten ==> IsHeading(s))
  {
    if ClassifiedTables(tables).Ok? {
      var classified := ClassifiedTables(tables).value;
      var sections := TextSections(raw);
      var students := Students(sections, classified, similar, measure);
      assert PlanReportOf(path, raw, tables, similar, measure).value.students == students;
      assert PlanReportOf(path, raw, tables, similar, measure).value.tables == classified;
      PutAllDistinct([], Collect(ContributionRows(classified), StudentWriteOf(sections, classified, similar, measure)));
      StudentsNamed(sections, classified, similar, measure, name);
      forall e: PlanEntry, s: string | (name, e) in students && s in e.sectionsWritten ensures IsHeading(s) {
        StudentSections(sections, classified, similar, measure, name, e, s);
        TextSectionsHeadings(raw, s);
      }
    }
  }
}
