/**
  The sprint-report parser with per-student writing metrics: it reads who wrote
  which sections from the report's contribution table, cuts the report's text
  into numbered sections, matches each claimed section to an extracted one and
  gathers each student's text with its metrics.
 */
module DocxMetrics {
  import opened Wrappers
  import opened Strings
  import opened AssocList
  import opened Lists
  import opened WeekLog
  import opened Finditer

  // ---------------------------------------------------------------------------
  // normalize_section_title
  // ---------------------------------------------------------------------------

  /** No `)` in `t` comes before its first line break: the lazy `\(.*?\)` cannot close here. */
  predicate Unclosed(t: string) {
    forall m :: 0 <= m < |t| && t[m] == ')' ==> exists q :: 0 <= q < m && t[q] == '\n'
  }

  /** Where the group opened just before `t` closes: its first `)`, unless a line break comes first. */
  function CloseParen(t: string): (r: Option<nat>)
    ensures r.Some? ==> r.value < |t| && t[r.value] == ')' && forall m :: 0 <= m < r.value ==> t[m] != ')' && t[m] != '\n'
    ensures r.None? <==> Unclosed(t)
  {
    if t == [] then None
    else if t[0] == ')' then Some(0)
    else if t[0] == '\n' then None
    else
      match CloseParen(t[1..])
      case Some(p) => Some(p + 1)
      case None =>
        assert forall m :: 1 <= m < |t| ==> t[m] == t[1..][m - 1];
        None
  }

  /** `re.sub(r"\(.*?\)", "", s)`: every group from a `(` to the first `)` on the same line is deleted. */
  function DropParens(s: string): (r: string)
    ensures (forall i :: 0 <= i < |s| ==> s[i] != '(') ==> r == s
    decreases |s|
  {
    if s == [] then []
    else if s[0] == '(' && CloseParen(s[1..]).Some? then DropParens(s[CloseParen(s[1..]).value + 2..])
    else [s[0]] + DropParens(s[1..])
  }

  /** No parenthesised group is left: every `(` that remains is unclosed on its line. */
  predicate NoGroups(r: string) {
    forall i :: 0 <= i < |r| && r[i] == '(' ==> Unclosed(r[i + 1..])
  }

  /** Deleting groups from a text in which nothing closes before a line break keeps it so. */
  lemma {:induction false} UnclosedKept(t: string)
    requires Unclosed(t)
    ensures Unclosed(DropParens(t))
    decreases |t|
  {
    if t != [] {
      assert t[0] != ')';
      if t[0] == '(' && CloseParen(t[1..]).Some? {
        assert false;
      } else {
        var rest := DropParens(t[1..]);
        var r := [t[0]] + rest;
        assert r == DropParens(t);
        if t[0] != '\n' {
          assert Unclosed(t[1..]) by {
            forall m | 0 <= m < |t[1..]| && t[1..][m] == ')' ensures exists q :: 0 <= q < m && t[1..][q] == '\n' {
              assert t[m + 1] == ')';
              var q :| 0 <= q < m + 1 && t[q] == '\n';
              assert q > 0 && t[1..][q - 1] == '\n';
            }
          }
          UnclosedKept(t[1..]);
          forall m | 0 <= m < |r| && r[m] == ')' ensures exists q :: 0 <= q < m && r[q] == '\n' {
            assert m > 0 && rest[m - 1] == ')';
            var q :| 0 <= q < m - 1 && rest[q] == '\n';
            assert r[q + 1] == '\n';
          }
        } else {
          forall m | 0 <= m < |r| && r[m] == ')' ensures exists q :: 0 <= q < m && r[q] == '\n' {
            assert m > 0 && r[0] == '\n';
          }
        }
      }
    }
  }

  /** After the deletion no parenthesised group is left. */
  lemma {:induction false} DropParensClean(s: string)
    ensures NoGroups(DropParens(s))
    decreases |s|
  {
    if s != [] {
      if s[0] == '(' && CloseParen(s[1..]).Some? {
        DropParensClean(s[CloseParen(s[1..]).value + 2..]);
      } else {
        var rest := DropParens(s[1..]);
        var r := [s[0]] + rest;
        assert r == DropParens(s);
        DropParensClean(s[1..]);
        forall i | 0 <= i < |r| && r[i] == '(' ensures Unclosed(r[i + 1..]) {
          if i == 0 {
            UnclosedKept(s[1..]);
            assert r[1..] == rest;
          } else {
            assert r[i + 1..] == rest[i..];
            assert rest[i - 1] == '(';
          }
        }
      }
    }
  }

  predicate IsPunct(c: char) {
    c == ':' || c == '-'
  }

  /**
    `re.sub(r"[:\-]+", " ", s)`: every run of colons and hyphens becomes one
    space; `inRun` says the character before `s` was one of them.
   */
  function PunctToSpace(s: string, inRun: bool): (r: string)
    ensures forall i :: 0 <= i < |r| ==> !IsPunct(r[i])
    ensures forall c :: c in r && c != ' ' ==> c in s
    ensures (forall i :: 0 <= i < |s| ==> !IsPunct(s[i])) ==> r == s
  {
    if s == [] then []
    else if IsPunct(s[0]) then
      if inRun then PunctToSpace(s[1..], true) else [' '] + PunctToSpace(s[1..], true)
    else [s[0]] + PunctToSpace(s[1..], false)
  }

  /** No two whitespace characters stand next to each other. */
  predicate SingleSpaced(r: string) {
    forall i :: 0 <= i < |r| - 1 ==> !(IsSpace(r[i]) && IsSpace(r[i + 1]))
  }

  /** The only whitespace is the plain space, and never two together. */
  predicate OneSpace(r: string) {
    (forall i :: 0 <= i < |r| ==> r[i] == ' ' || !IsSpace(r[i])) && SingleSpaced(r)
  }

  /**
    `re.sub(r"\s+", " ", s)`: every run of whitespace becomes one space;
    `inRun` says the character before `s` was whitespace.
   */
  function CollapseSpaces(s: string, inRun: bool): (r: string)
    ensures OneSpace(r)
    ensures inRun ==> r == [] || !IsSpace(r[0])
    ensures forall c :: c in r && c != ' ' ==> c in s
    ensures OneSpace(s) && (!inRun || s == [] || !IsSpace(s[0])) ==> r == s
  {
    if s == [] then []
    else if IsSpace(s[0]) then
      if inRun then CollapseSpaces(s[1..], true) else [' '] + CollapseSpaces(s[1..], true)
    else [s[0]] + CollapseSpaces(s[1..], false)
  }

  /** `normalize_section_title`: groups deleted, punctuation runs and whitespace runs made single spaces, stripped, lower-cased. */
  function NormalizeTitle(title: string): string {
    ToLower(Trim(CollapseSpaces(PunctToSpace(DropParens(title), false), false)))
  }

  /** No colon or hyphen, no whitespace but the plain space, and never two spaces together. */
  predicate Spaced(r: string) {
    (forall i :: 0 <= i < |r| ==> !IsPunct(r[i])) && OneSpace(r)
  }

  /** A normalised title is spaced, has no space at either end, and no upper-case letter. */
  predicate Normal(r: string) {
    && Spaced(r)
    && (forall i :: 0 <= i < |r| ==> !IsUpperAscii(r[i]))
    && (r == [] || (!IsSpace(r[0]) && !IsSpace(r[|r| - 1])))
  }

  lemma {:induction false} SpacedInfix(c: string, off: nat, t: string)
    requires Spaced(c) && off + |t| <= |c| && c[off..off + |t|] == t
    ensures Spaced(t)
  {
    assert forall i :: 0 <= i < |t| ==> t[i] == c[off + i];
  }

  lemma {:induction false} SpacedLower(t: string)
    requires Spaced(t) && (t == [] || (!IsSpace(t[0]) && !IsSpace(t[|t| - 1])))
    ensures Normal(ToLower(t))
  {
  }

  /** Every normalised title is normal. */
  lemma {:induction false} NormalizeTitleNormal(title: string)
    ensures Normal(NormalizeTitle(title))
  {
    var p := PunctToSpace(DropParens(title), false);
    var c := CollapseSpaces(p, false);
    var t := Trim(c);
    CollapseSpaced(p);
    assert Spaced(t) by {
      TrimIsInfix(c);
      SpacedInfix(c, |c| - |TrimStart(c)|, t);
    }
    SpacedLower(t);
  }

  /** Collapsing the whitespace of a text without colons or hyphens gives a spaced text. */
  lemma {:induction false} CollapseSpaced(p: string)
    requires forall i :: 0 <= i < |p| ==> !IsPunct(p[i])
    ensures Spaced(CollapseSpaces(p, false))
  {
    var c := CollapseSpaces(p, false);
    forall i | 0 <= i < |c| ensures !IsPunct(c[i]) {
      if c[i] != ' ' {
        assert c[i] in p;
      }
    }
  }

  /** A title that is already normal and has no `(` normalises to itself. */
  lemma {:induction false} NormalizeTitleFixed(title: string)
    requires Normal(title) && forall i :: 0 <= i < |title| ==> title[i] != '('
    ensures NormalizeTitle(title) == title
  {
    assert DropParens(title) == title;
    assert PunctToSpace(title, false) == title;
    assert CollapseSpaces(title, false) == title;
    assert Trim(title) == title by {
      TrimOfNonSpaceEdges(title);
    }
    assert ToLower(title) == title;
  }

  // ---------------------------------------------------------------------------
  // fuzzy_find_section
  // ---------------------------------------------------------------------------

  /**
    `difflib.get_close_matches(word, keys, n=1, cutoff=0.6)`, reduced to its
    best match, if any. Its similarity measure is not modelled here.
   */
  type CloseMatch = (string, seq<string>) -> Option<string>

  /** The oracle never invents a key: its answer is one of the keys it was offered. */
  ghost predicate PicksKey(close: CloseMatch) {
    forall w, ks :: close(w, ks).Some? ==> close(w, ks).value in ks
  }

  /** `key` if the normalised claim is a substring of it or it is a substring of the claim. */
  function Overlap(norm: string): string -> Option<string> {
    key => if Contains(key, norm) || Contains(norm, key) then Some(key) else None
  }

  /**
    The search of `fuzzy_find_section` for a normalised claim among the keys:
    the claim itself if it is a key, else the first key that contains it or
    that it contains, else the oracle's pick.
   */
  function MatchKey(norm: string, keys: seq<string>, close: CloseMatch): Option<string> {
    if norm in keys then Some(norm)
    else
      match First(keys, Overlap(norm))
      case Some(key) => Some(key)
      case None => close(norm, keys)
  }

  /** `fuzzy_find_section`: the search for the claim's normalised title among the section keys. */
  function FuzzyFind(sec: string, sections: seq<(string, string)>, close: CloseMatch): Option<string> {
    MatchKey(NormalizeTitle(sec), Keys(sections), close)
  }

  /** `fuzzy_find_section` with its loop over the keys. */
  method FuzzyFindSection(sec: string, sections: seq<(string, string)>, close: CloseMatch) returns (r: Option<string>)
    ensures r == FuzzyFind(sec, sections, close)
  {
    var norm := NormalizeTitle(sec);
    var keys := Keys(sections);
    r := SearchKeys(norm, keys, close);
  }

  /** The exact, partial and fuzzy steps of `fuzzy_find_section`, in that order. */
  method SearchKeys(norm: string, keys: seq<string>, close: CloseMatch) returns (r: Option<string>)
    ensures r == MatchKey(norm, keys, close)
  {
    if norm in keys {
      return Some(norm);
    }
    for i := 0 to |keys|
      invariant forall l :: 0 <= l < i ==> Overlap(norm)(keys[l]).None?
    {
      var key := keys[i];
      if Contains(key, norm) || Contains(norm, key) {
        assert Overlap(norm)(keys[i]) == Some(key);
        FirstAt(keys, Overlap(norm), i);
        return Some(key);
      }
    }
    assert First(keys, Overlap(norm)).None?;
    r := close(norm, keys);
  }

  /** With an oracle that only picks keys, a match is always one of the keys. */
  lemma {:induction false} MatchKeyIsKey(norm: string, keys: seq<string>, close: CloseMatch)
    requires PicksKey(close)
    ensures var r := MatchKey(norm, keys, close); r.Some? ==> r.value in keys
  {
  }

  /** With an oracle that only picks keys, a match is always a key of the extracted sections. */
  lemma {:induction false} FuzzyFindKey(sec: string, sections: seq<(string, string)>, close: CloseMatch)
    requires PicksKey(close)
    ensures var r := FuzzyFind(sec, sections, close); r.Some? ==> HasKey(sections, r.value)
  {
    var keys := Keys(sections);
    var r := FuzzyFind(sec, sections, close);
    MatchKeyIsKey(NormalizeTitle(sec), keys, close);
    if r.Some? {
      var i :| 0 <= i < |keys| && keys[i] == r.value;
    }
  }

  /**
    A claim finds a key without asking the oracle exactly when it overlaps
    some key; a claim that is itself a key wins over any earlier overlapping
    key.
   */
  lemma {:induction false} MatchKeyOverlap(norm: string, keys: seq<string>, close: CloseMatch)
    ensures norm in keys ==> MatchKey(norm, keys, close) == Some(norm)
    ensures (exists i :: 0 <= i < |keys| && Overlap(norm)(keys[i]).Some?) ==>
      && MatchKey(norm, keys, close).Some?
      && MatchKey(norm, keys, close).value in keys
      && Overlap(norm)(MatchKey(norm, keys, close).value).Some?
    ensures (forall i :: 0 <= i < |keys| ==> Overlap(norm)(keys[i]).None?) ==>
      MatchKey(norm, keys, close) == close(norm, keys)
  {
    if norm in keys {
      ContainsSelf(norm);
    }
  }

  /**
    A claim whose title normalises to nothing, such as one wholly in
    parentheses, matches the empty key if there is one and otherwise the
    first key.
   */
  lemma {:induction false} MatchKeyBlank(keys: seq<string>, close: CloseMatch)
    requires keys != []
    ensures MatchKey("", keys, close) == Some(if "" in keys then "" else keys[0])
  {
    EmptyContained(keys[0]);
  }

  // ---------------------------------------------------------------------------
  // extract_numbered_sections
  // ---------------------------------------------------------------------------

  predicate IsLetter(c: char) {
    IsUpperAscii(c) || IsLowerAscii(c)
  }

  /** The first line break at or after `j`, or the end of `s`. */
  function LineEnd(s: string, j: nat): (e: nat)
    requires j <= |s|
    ensures j <= e <= |s| && (e == |s| || s[e] == '\n')
    ensures forall m :: j <= m < e ==> s[m] != '\n'
    decreases |s| - j
  {
    if j < |s| && s[j] != '\n' then LineEnd(s, j + 1) else j
  }

  /**
    `(?P<num>\d+)\.\s*(?P<title>[A-Za-z][^\n]+)` tried at position `k`: where
    the title starts and where the match ends, if it matches there.
   */
  function HeadingAt(text: string, k: nat): (r: Option<(nat, nat)>)
    ensures r.Some? ==> k < r.value.0 && r.value.0 + 1 < r.value.1 <= |text|
  {
    if k >= |text| then None
    else
      var d := DigitRun(text[k..]);
      if d == 0 || k + d >= |text| || text[k + d] != '.' then None
      else
        var a := SkipSpaces(text, k + d + 1);
        if a >= |text| || !IsLetter(text[a]) then None
        else
          var e := LineEnd(text, a + 1);
          if e == a + 1 then None else Some((a, e))
  }

  /** The heading pattern as a matcher: the text it matches at each position. */
  function HeadingMatcher(text: string): Matcher {
    (k: nat) => match HeadingAt(text, k) case Some(p) => Some(text[k..p.1]) case None => None
  }

  lemma {:induction false} HeadingsFit(text: string)
    ensures Fits(|text|, HeadingMatcher(text))
  {
  }

  /** `list(heading_regex.finditer(full_text))`. */
  function Headings(text: string): seq<Occurrence> {
    HeadingsFit(text);
    Matches(|text|, HeadingMatcher(text), 0)
  }

  /** The `title` group of the heading at position `k`, or "" when there is none. */
  function TitleOf(text: string, k: nat): string {
    match HeadingAt(text, k) case Some(p) => text[p.0..p.1] case None => ""
  }

  /** The stripped text from the end of the `i`th heading to the start of the next one, or to the end. */
  function BodyOf(text: string, ms: seq<Occurrence>, i: nat): string
    requires i < |ms| && Spans(|text|, ms)
  {
    Trim(text[ms[i].0 + |ms[i].1|..NextStart(|text|, ms, i)])
  }

  /** The writes `sections[norm_key] = body`, one per heading, in text order. */
  function SectionWrites(text: string, ms: seq<Occurrence>): (r: seq<(string, string)>)
    requires Spans(|text|, ms)
    ensures |r| == |ms|
  {
    seq(|ms|, i requires 0 <= i < |ms| => (NormalizeTitle(Trim(TitleOf(text, ms[i].0))), BodyOf(text, ms, i)))
  }

  lemma {:induction false} HeadingsSpan(text: string)
    ensures Spans(|text|, Headings(text))
  {
    HeadingsFit(text);
    MatchesSpan(|text|, HeadingMatcher(text), 0);
  }

  /** The writes the headings of a text make. */
  function HeadingWrites(text: string): (r: seq<(string, string)>)
    ensures |r| == |Headings(text)|
  {
    HeadingsSpan(text);
    SectionWrites(text, Headings(text))
  }

  /** The sections of a text: its dictionary as an association list in insertion order. */
  function SectionsOf(text: string): seq<(string, string)> {
    PutAll([], HeadingWrites(text))
  }

  /** What `extract_numbered_sections` returns for a document's lines. */
  function NumberedSections(lines: seq<string>): seq<(string, string)> {
    SectionsOf(Join(lines, "\n"))
  }

  /** The loop of `extract_numbered_sections` over the headings found. */
  method WriteSections(text: string, matches: seq<Occurrence>) returns (sections: seq<(string, string)>)
    requires Spans(|text|, matches)
    ensures sections == PutAll([], SectionWrites(text, matches))
  {
    ghost var writes := SectionWrites(text, matches);
    sections := [];
    for i := 0 to |matches|
      invariant sections == PutAll([], writes[..i])
    {
      var normKey, body := ReadSection(text, matches, i);
      TakeSnoc(writes, i);
      PutAllSnoc([], writes[..i], normKey, body);
      sections := Put(sections, normKey, body);
    }
    assert writes[..|matches|] == writes;
  }

  /** One iteration's reading: the `i`th heading's normalised title and the stripped body up to the next heading. */
  method ReadSection(text: string, matches: seq<Occurrence>, i: nat) returns (normKey: string, body: string)
    requires Spans(|text|, matches) && i < |matches|
    ensures (normKey, body) == SectionWrites(text, matches)[i]
  {
    var titleRaw := Trim(TitleOf(text, matches[i].0));
    var startIdx := matches[i].0 + |matches[i].1|;
    var endIdx := |text|;
    if i + 1 < |matches| {
      endIdx := matches[i + 1].0;
    }
    assert endIdx == NextStart(|text|, matches, i);
    body := Trim(text[startIdx..endIdx]);
    normKey := NormalizeTitle(titleRaw);
    assert body == BodyOf(text, matches, i);
  }

  /** `extract_numbered_sections`. */
  method ExtractNumberedSections(lines: seq<string>) returns (sections: seq<(string, string)>)
    ensures sections == NumberedSections(lines)
  {
    var fullText := Join(lines, "\n");
    var matches := Headings(fullText);
    HeadingsSpan(fullText);
    sections := WriteSections(fullText, matches);
  }

  /**
    Each heading found is digits, a dot, optional spaces and a letter-led
    title running to the end of its line; headings come in text order and do
    not overlap.
   */
  lemma {:induction false} HeadingsFound(text: string, i: nat)
    requires i < |Headings(text)|
    ensures var ms := Headings(text); var k := ms[i].0;
      && HeadingAt(text, k).Some?
      && var (a, e) := HeadingAt(text, k).value;
      && ms[i].1 == text[k..e]
      && IsDigit(text[k]) && IsLetter(text[a])
      && (e == |text| || text[e] == '\n')
      && TitleOf(text, k) == text[a..e]
      && e <= NextStart(|text|, ms, i) <= |text|
  {
    HeadingsFit(text);
    MatchesChained(|text|, HeadingMatcher(text), 0);
    assert Linked(|text|, HeadingMatcher(text), Headings(text), i, 0);
  }

  /** No heading starts inside a section's body: each body runs up to the next heading. */
  lemma {:induction false} NoHeadingInBody(text: string, i: nat, p: nat)
    requires i < |Headings(text)|
    requires var ms := Headings(text); ms[i].0 + |ms[i].1| <= p < NextStart(|text|, ms, i)
    ensures HeadingAt(text, p).None?
  {
    HeadingsFit(text);
    MatchesGap(|text|, HeadingMatcher(text), 0, i, p);
  }

  /** No heading starts before the first one: the text there belongs to no section. */
  lemma {:induction false} NoHeadingBeforeFirst(text: string, p: nat)
    requires p < |text| && (Headings(text) == [] || p < Headings(text)[0].0)
    ensures HeadingAt(text, p).None?
  {
    HeadingsFit(text);
    MatchesLead(|text|, HeadingMatcher(text), 0, p);
  }

  /** Every key of the sections is a normalised title. */
  lemma {:induction false} SectionKeysNormal(text: string, key: string)
    requires HasKey(SectionsOf(text), key)
    ensures Normal(key)
  {
    HeadingsSpan(text);
    var ms := Headings(text);
    var writes := HeadingWrites(text);
    GetPutAll([], writes, key);
    var i :| 0 <= i < |writes| && writes[i].0 == key;
    NormalizeTitleNormal(Trim(TitleOf(text, ms[i].0)));
  }

  /**
    A heading whose normalised title no later heading repeats keeps its own
    body; an earlier heading with the same title is overwritten.
   */
  lemma {:induction false} LastHeadingWins(text: string, i: nat)
    requires i < |Headings(text)|
    requires var w := HeadingWrites(text); forall l :: i < l < |w| ==> w[l].0 != w[i].0
    ensures var w := HeadingWrites(text);
      && w[i].0 == NormalizeTitle(Trim(TitleOf(text, Headings(text)[i].0)))
      && Get(SectionsOf(text), w[i].0) == Some(w[i].1)
      && (HeadingsSpan(text); w[i].1 == BodyOf(text, Headings(text), i))
  {
    HeadingsSpan(text);
    var writes := HeadingWrites(text);
    GetPutAll([], writes, writes[i].0);
    LastValueAt(writes, i);
  }

  // ---------------------------------------------------------------------------
  // parse_contribution_table
  // ---------------------------------------------------------------------------

  /** `" ".join(c.text.strip().lower() for c in header_row)`. */
  function HeaderBlob(header: seq<string>): string {
    Join(seq(|header|, k requires 0 <= k < |header| => ToLower(Trim(header[k]))), " ")
  }

  /** The header of the who-wrote-what table names a student, a contribution and the report. */
  predicate IsContributionHeader(header: seq<string>) {
    var blob := HeaderBlob(header);
    Contains(blob, "student") && Contains(blob, "contribution") && Contains(blob, "report")
  }

  /** `[s.strip() for s in re.split(r"[\n\r]+", field) if s.strip()]`. */
  function ClaimedSections(field: string): seq<string> {
    Collect(SplitAny(field, {'\n', '\r'}), Stripped)
  }

  /** The write a body row of the contribution table makes, if any: the student and the sections they claim. */
  function Claim(row: seq<string>): (r: Option<(string, seq<string>)>)
    ensures r.Some? <==> |row| >= 3 && Trim(row[0]) != "" && ClaimedSections(Trim(row[2])) != []
  {
    var cells := TrimAll(row);
    if |cells| < 3 then None
    else
      var name := cells[0];
      var field := cells[2];
      if name == "" || field == "" then None
      else
        var sections := ClaimedSections(field);
        if sections != [] then Some((name, sections)) else None
  }

  /** The authorship a table yields if it is the contribution table. */
  function ClaimsOf(table: Table): Option<seq<(string, seq<string>)>> {
    if |table| > 0 && IsContributionHeader(table[0]) then Some(PutAll([], Collect(table[1..], Claim))) else None
  }

  /** What `parse_contribution_table` returns: the authorship of the first contribution table, or nothing. */
  function Authorship(tables: seq<Table>): seq<(string, seq<string>)> {
    match First(tables, ClaimsOf) case Some(a) => a case None => []
  }

  /** The loop of `parse_contribution_table` over the body rows of the contribution table. */
  method ReadClaims(body: seq<seq<string>>) returns (authorship: seq<(string, seq<string>)>)
    ensures authorship == PutAll([], Collect(body, Claim))
  {
    authorship := [];
    for i := 0 to |body|
      invariant authorship == PutAll([], Collect(body[..i], Claim))
    {
      var cells := TrimAll(body[i]);
      TakeSnoc(body, i);
      PutAllCollectSnoc([], body[..i], body[i], Claim);
      if |cells| < 3 {
        continue;
      }
      var studentName := cells[0];
      var contributionField := cells[2];
      if studentName == "" || contributionField == "" {
        continue;
      }
      var sections := ClaimedSections(contributionField);
      if sections != [] {
        authorship := Put(authorship, studentName, sections);
      }
    }
    assert body[..|body|] == body;
  }

  /** `parse_contribution_table`: the first table whose header qualifies is read, and the search stops there. */
  method ParseContributionTable(tables: seq<Table>) returns (authorship: seq<(string, seq<string>)>)
    ensures authorship == Authorship(tables)
  {
    authorship := [];
    var t := 0;
    while t < |tables|
      invariant t <= |tables|
      invariant forall u :: 0 <= u < t ==> ClaimsOf(tables[u]).None?
    {
      var table := tables[t];
      if |table| == 0 {
        t := t + 1;
        continue;
      }
      if IsContributionHeader(table[0]) {
        authorship := ReadClaims(table[1..]);
        FirstAt(tables, ClaimsOf, t);
        return;
      }
      t := t + 1;
    }
  }

  /**
    Only the first contribution table counts: tables before it are not
    contribution tables, and tables after it are never read.
   */
  lemma {:induction false} AuthorshipFirstTable(tables: seq<Table>, t: nat, more: seq<Table>)
    requires t < |tables| && ClaimsOf(tables[t]).Some?
    requires forall u :: 0 <= u < t ==> ClaimsOf(tables[u]).None?
    ensures Authorship(tables) == PutAll([], Collect(tables[t][1..], Claim))
    ensures Authorship(tables[..t + 1] + more) == Authorship(tables)
  {
    var ts := tables[..t + 1] + more;
    assert forall u :: 0 <= u <= t ==> ts[u] == tables[u];
    FirstAt(tables, ClaimsOf, t);
    FirstAt(ts, ClaimsOf, t);
  }

  /** A claim names a non-empty, stripped student and at least one section, each non-empty, stripped and on one line. */
  predicate CleanClaim(name: string, sections: seq<string>) {
    && name != "" && Trim(name) == name
    && sections != []
    && forall q :: 0 <= q < |sections| ==>
      sections[q] != "" && Trim(sections[q]) == sections[q] && '\n' !in sections[q] && '\r' !in sections[q]
  }

  lemma {:induction false} ClaimClean(row: seq<string>)
    requires Claim(row).Some?
    ensures CleanClaim(Claim(row).value.0, Claim(row).value.1)
  {
    var cells := TrimAll(row);
    TrimIdempotent(row[0]);
    var pieces := SplitAny(cells[2], {'\n', '\r'});
    var secs := ClaimedSections(cells[2]);
    forall q | 0 <= q < |secs|
      ensures secs[q] != "" && Trim(secs[q]) == secs[q] && '\n' !in secs[q] && '\r' !in secs[q]
    {
      CollectFrom(pieces, Stripped, q);
      var j :| 0 <= j < |pieces| && Stripped(pieces[j]) == Some(secs[q]);
      TrimIdempotent(pieces[j]);
      TrimKeepsAbsent(pieces[j], '\n');
      TrimKeepsAbsent(pieces[j], '\r');
    }
  }

  /** Every recorded student is named and claims clean sections, and no student is recorded twice. */
  lemma {:induction false} AuthorshipClean(tables: seq<Table>, name: string)
    ensures Distinct(Authorship(tables))
    ensures Get(Authorship(tables), name).Some? ==> CleanClaim(name, Get(Authorship(tables), name).value)
  {
    match First(tables, ClaimsOf)
    case None =>
    case Some(_) =>
      var t :| 0 <= t < |tables| && ClaimsOf(tables[t]) == First(tables, ClaimsOf);
      var claims := Collect(tables[t][1..], Claim);
      PutAllDistinct([], claims);
      if Get(Authorship(tables), name).Some? {
        var secs := Get(Authorship(tables), name).value;
        GetPutAll([], claims, name);
        LastValueIn(claims, name);
        CollectFromSuffix(tables[t], 1, Claim, (name, secs));
        var i :| 1 <= i < |tables[t]| && Claim(tables[t][i]) == Some((name, secs));
        ClaimClean(tables[t][i]);
      }
  }

  // ---------------------------------------------------------------------------
  // build_student_metrics and parse_docx_with_metrics
  // ---------------------------------------------------------------------------

  /** The four metrics `get_text_metrics` reports. */
  datatype TextMetrics = TextMetrics(wordCount: nat, avgSentenceLength: real, sentenceComplexity: real, readabilityScore: real)

  const NoMetrics := TextMetrics(0, 0.0, 0.0, 0.0)

  /**
    The tokenisers, the dependency parser and the readability formula applied
    to a stripped, non-blank text, as an oracle.
   */
  type Measure = string -> TextMetrics

  /** `get_text_metrics`: zeros for a blank text, the oracle's measurement of the stripped text otherwise. */
  function TextMetricsOf(text: string, measure: Measure): (r: TextMetrics)
    ensures Trim(text) == "" ==> r == NoMetrics
    ensures Trim(text) != "" ==> r == measure(Trim(text))
  {
    var cleaned := Trim(text);
    if cleaned == "" then NoMetrics else measure(cleaned)
  }

  /** What a student's entry in `students` holds. */
  datatype StudentEntry = StudentEntry(sectionsWritten: seq<string>, rawText: string, metrics: TextMetrics)

  /** The body a claimed section contributes: the matched section's, unless nothing or only the empty key matched. */
  function MatchedBody(sections: seq<(string, string)>, close: CloseMatch): string -> Option<string> {
    sec =>
      match FuzzyFind(sec, sections, close)
      case Some(key) => if key != "" then Get(sections, key) else None
      case None => None
  }

  /** The `collected_texts` of one student, in the order of their claims. */
  function CollectedTexts(claimed: seq<string>, sections: seq<(string, string)>, close: CloseMatch): seq<string> {
    Collect(claimed, MatchedBody(sections, close))
  }

  /** A student's entry: the claims verbatim, the stripped join of the collected bodies, and its metrics. */
  function EntryOf(claimed: seq<string>, sections: seq<(string, string)>, close: CloseMatch, measure: Measure): StudentEntry {
    var fullText := Trim(Join(CollectedTexts(claimed, sections, close), "\n\n"));
    StudentEntry(claimed, fullText, TextMetricsOf(fullText, measure))
  }

  /** The writes `students[student] = ...`, one per student of the authorship, in its order. */
  function StudentWrites(authorship: seq<(string, seq<string>)>, sections: seq<(string, string)>, close: CloseMatch, measure: Measure): (r: seq<(string, StudentEntry)>)
    ensures |r| == |authorship|
  {
    seq(|authorship|, i requires 0 <= i < |authorship| => (authorship[i].0, EntryOf(authorship[i].1, sections, close, measure)))
  }

  /** What `build_student_metrics` returns. */
  function StudentMetrics(authorship: seq<(string, seq<string>)>, sections: seq<(string, string)>, close: CloseMatch, measure: Measure): seq<(string, StudentEntry)> {
    PutAll([], StudentWrites(authorship, sections, close, measure))
  }

  /** The inner loop of `build_student_metrics` over one student's claimed sections. */
  method CollectTexts(claimed: seq<string>, sections: seq<(string, string)>, close: CloseMatch) returns (texts: seq<string>)
    ensures texts == CollectedTexts(claimed, sections, close)
  {
    texts := [];
    for i := 0 to |claimed|
      invariant texts == Collect(claimed[..i], MatchedBody(sections, close))
    {
      var matchedKey := FuzzyFindSection(claimed[i], sections, close);
      TakeSnoc(claimed, i);
      CollectSnoc(claimed[..i], claimed[i], MatchedBody(sections, close));
      if matchedKey.Some? && matchedKey.value != "" {
        var body := Get(sections, matchedKey.value);
        if body.Some? {
          texts := texts + [body.value];
        }
      }
    }
    assert claimed[..|claimed|] == claimed;
  }

  /** `build_student_metrics`. */
  method BuildStudentMetrics(authorship: seq<(string, seq<string>)>, sections: seq<(string, string)>, close: CloseMatch, measure: Measure)
    returns (students: seq<(string, StudentEntry)>)
    ensures students == StudentMetrics(authorship, sections, close, measure)
  {
    ghost var writes := StudentWrites(authorship, sections, close, measure);
    students := [];
    for i := 0 to |authorship|
      invariant students == PutAll([], writes[..i])
    {
      var (student, claimedSections) := authorship[i];
      var collected := CollectTexts(claimedSections, sections, close);
      var fullText := Trim(Join(collected, "\n\n"));
      var entry := StudentEntry(claimedSections, fullText, TextMetricsOf(fullText, measure));
      assert writes[i] == (student, entry);
      TakeSnoc(writes, i);
      PutAllSnoc([], writes[..i], student, entry);
      students := Put(students, student, entry);
    }
    assert writes[..|authorship|] == writes;
  }

  /**
    With distinct students, the result has one entry per student of the
    authorship, in the same order, and each entry keeps that student's claims
    verbatim.
   */
  lemma {:induction false} StudentsMirrorAuthorship(authorship: seq<(string, seq<string>)>, sections: seq<(string, string)>, close: CloseMatch, measure: Measure)
    requires Distinct(authorship)
    ensures var students := StudentMetrics(authorship, sections, close, measure);
      && Keys(students) == Keys(authorship)
      && forall i :: 0 <= i < |authorship| ==>
        students[i].1 == EntryOf(authorship[i].1, sections, close, measure) && students[i].1.sectionsWritten == authorship[i].1
  {
    var writes := StudentWrites(authorship, sections, close, measure);
    assert Distinct(writes);
    PutAllFresh(writes);
  }

  /** Every collected text is the body of an extracted section under a non-empty key. */
  lemma {:induction false} CollectedFromSections(claimed: seq<string>, sections: seq<(string, string)>, close: CloseMatch, text: string)
    requires text in CollectedTexts(claimed, sections, close)
    ensures exists key :: key != "" && (key, text) in sections
  {
    var f := MatchedBody(sections, close);
    var xs := CollectedTexts(claimed, sections, close);
    var k :| 0 <= k < |xs| && xs[k] == text;
    CollectFrom(claimed, f, k);
    var i :| 0 <= i < |claimed| && f(claimed[i]) == Some(text);
    var key := FuzzyFind(claimed[i], sections, close).value;
    assert key != "" && Get(sections, key) == Some(text);
  }

  /** A claim whose normalised title is a non-empty key contributes exactly that section's body. */
  lemma {:induction false} ExactClaimBody(sec: string, sections: seq<(string, string)>, close: CloseMatch)
    requires NormalizeTitle(sec) != "" && HasKey(sections, NormalizeTitle(sec))
    ensures MatchedBody(sections, close)(sec) == Get(sections, NormalizeTitle(sec))
  {
    var keys := Keys(sections);
    var i :| 0 <= i < |sections| && sections[i].0 == NormalizeTitle(sec);
    assert keys[i] == NormalizeTitle(sec);
    MatchKeyOverlap(NormalizeTitle(sec), keys, close);
  }

  /** A student none of whose claims matches a section has no text and zero metrics. */
  lemma {:induction false} UnmatchedStudent(claimed: seq<string>, sections: seq<(string, string)>, close: CloseMatch, measure: Measure)
    requires forall q :: 0 <= q < |claimed| ==> MatchedBody(sections, close)(claimed[q]).None?
    ensures EntryOf(claimed, sections, close, measure).rawText == ""
    ensures EntryOf(claimed, sections, close, measure).metrics == NoMetrics
  {
    var xs := CollectedTexts(claimed, sections, close);
    CollectShorter(claimed, MatchedBody(sections, close));
    if xs != [] {
      CollectFrom(claimed, MatchedBody(sections, close), 0);
    }
  }

  /** The file name of a path given as its components: the last one, or "" for an empty path. */
  function FileName(path: seq<string>): (r: string)
    ensures path != [] ==> r == path[|path| - 1]
  {
    if path == [] then "" else path[|path| - 1]
  }

  /** The dictionary `parse_docx_with_metrics` returns. */
  datatype MetricsReport = MetricsReport(
    sourceFile: string,
    authorshipMap: seq<(string, seq<string>)>,
    sections: seq<(string, string)>,
    students: seq<(string, StudentEntry)>)

  /** What `parse_docx_with_metrics` returns for a document's paragraphs and tables. */
  function MetricsReportOf(path: seq<string>, raw: seq<string>, tables: seq<Table>, close: CloseMatch, measure: Measure): MetricsReport {
    var lines := Paragraphs(raw);
    var authorship := Authorship(tables);
    var sections := NumberedSections(lines);
    MetricsReport(FileName(path), authorship, sections, StudentMetrics(authorship, sections, close, measure))
  }

  /** `parse_docx_with_metrics`. */
  method ParseDocxWithMetrics(path: seq<string>, raw: seq<string>, tables: seq<Table>, close: CloseMatch, measure: Measure)
    returns (result: MetricsReport)
    ensures result == MetricsReportOf(path, raw, tables, close, measure)
  {
    var lines := Paragraphs(raw);
    var authorshipMap := ParseContributionTable(tables);
    var extractedSections := ExtractNumberedSections(lines);
    var students := BuildStudentMetrics(authorshipMap, extractedSections, close, measure);
    result := MetricsReport(FileName(path), authorshipMap, extractedSections, students);
  }

  /**
    The report lists exactly the students of the authorship map, in its order,
    each with their claims; and every section key is a normalised title.
   */
  lemma {:induction false} MetricsReportShape(path: seq<string>, raw: seq<string>, tables: seq<Table>, close: CloseMatch, measure: Measure, key: string)
    ensures var r := MetricsReportOf(path, raw, tables, close, measure);
      && Keys(r.students) == Keys(r.authorshipMap)
      && (forall i :: 0 <= i < |r.students| ==> r.students[i].1.sectionsWritten == r.authorshipMap[i].1)
      && (HasKey(r.sections, key) ==> Normal(key))
  {
    var r := MetricsReportOf(path, raw, tables, close, measure);
    AuthorshipClean(tables, key);
    StudentsMirrorAuthorship(r.authorshipMap, r.sections, close, measure);
    if HasKey(r.sections, key) {
      SectionKeysNormal(Join(Paragraphs(raw), "\n"), key);
    }
  }
}
