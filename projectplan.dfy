/**
  The project-plan parser: it cuts the plan's paragraphs into sections by
  guessing which paragraphs are headings, merges the solution subheadings,
  classifies the plan's tables by their headers, and gathers for each student
  of the contribution table the sections and tables their description names,
  with the metrics of that text.
 */
module ProjectPlan {
  import opened Wrappers
  import opened Strings
  import opened AssocList
  import opened Lists
  import opened WeekLog
  import opened DocxMetrics

  // ---------------------------------------------------------------------------
  // Heading detection in extract_text_sections
  // ---------------------------------------------------------------------------

  /** `re.match(r"^\d+[\.\-]?\s*[A-Z]", text)`: digits, an optional dot or hyphen, optional spaces, a capital. */
  predicate NumberedStart(text: string) {
    var d := DigitRun(text);
    d > 0 &&
    var p := if d < |text| && (text[d] == '.' || text[d] == '-') then d + 1 else d;
    var a := SkipSpaces(text, p);
    a < |text| && IsUpperAscii(text[a])
  }

  /** `str.isupper()`: some letter, and no lower-case letter. */
  predicate IsUpperText(text: string) {
    (exists i :: 0 <= i < |text| && IsUpperAscii(text[i])) && forall i :: 0 <= i < |text| ==> !IsLowerAscii(text[i])
  }

  /** A capital may only follow a non-letter, and a small letter only a letter. */
  predicate TitleCasedAt(text: string, i: nat)
    requires i < |text|
  {
    && (IsUpperAscii(text[i]) ==> i == 0 || !IsLetter(text[i - 1]))
    && (IsLowerAscii(text[i]) ==> i > 0 && IsLetter(text[i - 1]))
  }

  /** `str.istitle()`: some letter, and every word starts with its only capital. */
  predicate IsTitleText(text: string) {
    (exists i :: 0 <= i < |text| && IsLetter(text[i])) && forall i :: 0 <= i < |text| ==> TitleCasedAt(text, i)
  }

  const HeadingKeywords: seq<string> := [
    "teamwork", "document", "risk", "problem", "scope", "stakeholder",
    "requirement", "approach", "solution", "backlog", "quality", "plan", "profile", "role"]

  /** `any(k in text.lower() for k in keywords)`. */
  predicate HasKeyword(text: string, keywords: seq<string>) {
    exists k :: 0 <= k < |keywords| && Contains(ToLower(text), keywords[k])
  }

  /** `is_heading`: at most eight words, and numbered, all capitals, title case or holding a keyword. */
  predicate IsHeading(text: string) {
    |Words(text)| <= 8 &&
    (NumberedStart(text) || IsUpperText(text) || IsTitleText(text) || HasKeyword(text, HeadingKeywords))
  }

  /** `text.startswith(("-", "•", "●", "▪"))`. */
  predicate IsBullet(text: string) {
    text != [] && (text[0] == '-' || text[0] == '•' || text[0] == '●' || text[0] == '▪')
  }

  // ---------------------------------------------------------------------------
  // The paragraph scan of extract_text_sections
  // ---------------------------------------------------------------------------

  /** The loop state: the sections so far, the current heading, and the lines collected under it. */
  datatype ScanState = ScanState(sections: seq<(string, string)>, current: Option<string>, buffer: seq<string>)

  const Start := ScanState([], None, [])

  /** `"\n".join(buffer).strip()`. */
  function BodyText(buffer: seq<string>): string {
    Trim(Join(buffer, "\n"))
  }

  /** One paragraph of the scan, with `heading` deciding which stripped texts are headings. */
  function Step(heading: string -> bool, st: ScanState, para: string): ScanState {
    var text := Trim(para);
    if text == "" then st
    else if IsBullet(text) && st.current.Some? then st.(buffer := st.buffer + [text])
    else if heading(text) then
      if st.current.Some? && st.buffer != [] then
        ScanState(Put(st.sections, st.current.value, BodyText(st.buffer)), Some(text), [])
      else st.(current := Some(text))
    else st.(buffer := st.buffer + [text])
  }

  /** The state after the scan has seen `paras`. */
  function Run(heading: string -> bool, paras: seq<string>): ScanState {
    if paras == [] then Start
    else
      var n := |paras| - 1;
      Step(heading, Run(heading, paras[..n]), paras[n])
  }

  /** The write after the loop: the last heading's lines, if it has any. */
  function Flush(st: ScanState): seq<(string, string)> {
    if st.current.Some? && st.buffer != [] then Put(st.sections, st.current.value, BodyText(st.buffer)) else st.sections
  }

  /** The sections the scan of `extract_text_sections` finds, before the merge. */
  function ScanSections(heading: string -> bool, paras: seq<string>): seq<(string, string)> {
    Flush(Run(heading, paras))
  }

  /** The scan of `extract_text_sections` over the paragraphs. */
  method ScanParagraphs(heading: string -> bool, paras: seq<string>) returns (sections: seq<(string, string)>)
    ensures sections == ScanSections(heading, paras)
  {
    sections := [];
    var currentHeading: Option<string> := None;
    var buffer: seq<string> := [];
    for i := 0 to |paras|
      invariant ScanState(sections, currentHeading, buffer) == Run(heading, paras[..i])
    {
      TakeSnoc(paras, i);
      assert paras[..i + 1][..i] == paras[..i];
      var text := Trim(paras[i]);
      if text == "" {
        continue;
      }
      if IsBullet(text) && currentHeading.Some? {
        buffer := buffer + [text];
        continue;
      }
      if heading(text) {
        if currentHeading.Some? && buffer != [] {
          sections := Put(sections, currentHeading.value, Trim(Join(buffer, "\n")));
          buffer := [];
        }
        currentHeading := Some(text);
      } else {
        buffer := buffer + [text];
      }
    }
    assert paras[..|paras|] == paras;
    if currentHeading.Some? && buffer != [] {
      sections := Put(sections, currentHeading.value, Trim(Join(buffer, "\n")));
    }
  }

  lemma {:induction false} RunSnoc(heading: string -> bool, paras: seq<string>, p: string)
    ensures Run(heading, paras + [p]) == Step(heading, Run(heading, paras), p)
  {
    assert (paras + [p])[..|paras|] == paras;
  }

  /** A heading with no current heading, or with nothing collected under it, only becomes current. */
  lemma {:induction false} StepHeading(heading: string -> bool, st: ScanState, p: string)
    requires Trim(p) != "" && heading(Trim(p)) && !(IsBullet(Trim(p)) && st.current.Some?)
    requires st.current.None? || st.buffer == []
    ensures Step(heading, st, p) == st.(current := Some(Trim(p)))
  {
  }

  /** A bullet line after a heading always joins that heading's body, whatever it looks like. */
  lemma {:induction false} StepBullet(heading: string -> bool, st: ScanState, p: string)
    requires IsBullet(Trim(p)) && st.current.Some?
    ensures Step(heading, st, p) == st.(buffer := st.buffer + [Trim(p)])
  {
  }

  /** Before any heading, a paragraph that is not one is only collected, if it is not blank. */
  lemma {:induction false} StepPreface(heading: string -> bool, st: ScanState, p: string)
    requires st.current.None? && (Trim(p) == "" || !heading(Trim(p)))
    ensures Step(heading, st, p) == if Trim(p) == "" then st else st.(buffer := st.buffer + [Trim(p)])
  {
  }

  /** A text with a non-space character does not strip to nothing. */
  lemma {:induction false} TrimNonBlank(s: string, i: nat)
    requires i < |s| && !IsSpace(s[i])
    ensures Trim(s) != ""
  {
  }

  /** The lines of a non-empty buffer, each stripped and non-empty, join to a non-empty body. */
  lemma {:induction false} BodyTextNonEmpty(buffer: seq<string>)
    requires buffer != [] && buffer[0] != "" && !IsSpace(buffer[0][0])
    ensures BodyText(buffer) != ""
  {
    var j := Join(buffer, "\n");
    assert j[0] == buffer[0][0];
    TrimNonBlank(j, 0);
  }

  /**
    What the scan keeps true: every section is under a heading with a
    non-empty body, keys are distinct, the current heading is a heading, and
    every collected line is stripped and non-empty.
   */
  ghost predicate Sound(heading: string -> bool, st: ScanState) {
    && Distinct(st.sections)
    && (forall i :: 0 <= i < |st.sections| ==> heading(st.sections[i].0) && st.sections[i].1 != "")
    && (st.current.Some? ==> heading(st.current.value))
    && (forall i :: 0 <= i < |st.buffer| ==> st.buffer[i] != "" && !IsSpace(st.buffer[i][0]))
  }

  lemma {:induction false} PutSound(heading: string -> bool, m: seq<(string, string)>, k: string, v: string)
    requires Distinct(m) && (forall i :: 0 <= i < |m| ==> heading(m[i].0) && m[i].1 != "")
    requires heading(k) && v != ""
    ensures var r := Put(m, k, v); Distinct(r) && forall i :: 0 <= i < |r| ==> heading(r[i].0) && r[i].1 != ""
  {
    PutDistinct(m, k, v);
    PutSpec(m, k, v);
    var r := Put(m, k, v);
    forall i | 0 <= i < |r| ensures heading(r[i].0) && r[i].1 != "" {
      if HasKey(m, k) {
        assert Keys(r)[i] == Keys(m)[i];
        if r[i].0 != k {
          GetDistinct(r, i);
          GetDistinct(m, i);
        }
      }
    }
  }

  lemma {:induction false} StepSound(heading: string -> bool, st: ScanState, para: string)
    requires Sound(heading, st)
    ensures Sound(heading, Step(heading, st, para))
  {
    var text := Trim(para);
    if text != "" && !(IsBullet(text) && st.current.Some?) && heading(text) && st.current.Some? && st.buffer != [] {
      BodyTextNonEmpty(st.buffer);
      PutSound(heading, st.sections, st.current.value, BodyText(st.buffer));
    }
  }

  lemma {:induction false} RunSound(heading: string -> bool, paras: seq<string>)
    ensures Sound(heading, Run(heading, paras))
  {
    if paras != [] {
      var n := |paras| - 1;
      RunSound(heading, paras[..n]);
      StepSound(heading, Run(heading, paras[..n]), paras[n]);
    }
  }

  /**
    A section is emitted only for a heading that collected at least one line:
    every key is a heading, every body is non-empty, and no heading appears
    twice.
   */
  lemma {:induction false} ScanSectionsSound(heading: string -> bool, paras: seq<string>)
    ensures var s := ScanSections(heading, paras);
      Distinct(s) && forall i :: 0 <= i < |s| ==> heading(s[i].0) && s[i].1 != ""
  {
    var st := Run(heading, paras);
    RunSound(heading, paras);
    if st.current.Some? && st.buffer != [] {
      BodyTextNonEmpty(st.buffer);
      PutSound(heading, st.sections, st.current.value, BodyText(st.buffer));
    }
  }

  /**
    Lines before the first heading are kept in the buffer, which the first
    heading does not clear: they end up in the first section emitted.
   */
  lemma {:induction false} PrefaceKept(heading: string -> bool, pre: seq<string>)
    requires forall i :: 0 <= i < |pre| ==> Trim(pre[i]) == "" || !heading(Trim(pre[i]))
    ensures Run(heading, pre) == ScanState([], None, Paragraphs(pre))
  {
    if pre != [] {
      var n := |pre| - 1;
      var front := pre[..n];
      assert pre == front + [pre[n]];
      assert Run(heading, front) == ScanState([], None, Paragraphs(front)) by {
        assert forall i :: 0 <= i < n ==> front[i] == pre[i];
        PrefaceKept(heading, front);
      }
      PrefaceStep(heading, front, pre[n]);
    }
  }

  /** One more paragraph that is not a heading keeps the scan in its preface. */
  lemma {:induction false} PrefaceStep(heading: string -> bool, front: seq<string>, p: string)
    requires Run(heading, front) == ScanState([], None, Paragraphs(front))
    requires Trim(p) == "" || !heading(Trim(p))
    ensures Run(heading, front + [p]) == ScanState([], None, Paragraphs(front + [p]))
  {
    RunSnoc(heading, front, p);
    CollectSnoc(front, p, Stripped);
    StepPreface(heading, ScanState([], None, Paragraphs(front)), p);
  }

  /** The first heading makes itself current and leaves the preface lines in the buffer. */
  lemma {:induction false} FirstHeadingKeepsPreface(heading: string -> bool, pre: seq<string>, h: string)
    requires forall i :: 0 <= i < |pre| ==> Trim(pre[i]) == "" || !heading(Trim(pre[i]))
    requires heading(Trim(h)) && Trim(h) != ""
    ensures Run(heading, pre + [h]) == ScanState([], Some(Trim(h)), Paragraphs(pre))
  {
    PrefaceKept(heading, pre);
    RunSnoc(heading, pre, h);
    StepHeading(heading, ScanState([], None, Paragraphs(pre)), h);
  }

  // ---------------------------------------------------------------------------
  // The merge of solution subheadings in extract_text_sections
  // ---------------------------------------------------------------------------

  const SubHeadings: seq<string> := ["problem at hand", "proposed solution", "research", "trialing", "implementation", "testing"]

  /** Heading `i` is a listed subheading, and the heading before it mentions a solution. */
  predicate Merges(secs: seq<(string, string)>, i: nat)
    requires i < |secs|
  {
    i > 0 && ToLower(secs[i].0) in SubHeadings && Contains(ToLower(secs[i - 1].0), "solution")
  }

  /** The key step `i` of the merge loop writes, unless it is skipped. */
  function MergeKey(secs: seq<(string, string)>, i: nat): string
    requires i < |secs|
  {
    if Merges(secs, i) then secs[i - 1].0 else secs[i].0
  }

  /** The value step `i` of the merge loop writes, unless it is skipped. */
  function MergeValue(secs: seq<(string, string)>, i: nat): string
    requires i < |secs|
  {
    if Merges(secs, i) then secs[i - 1].1 + "\n\n" + secs[i].1 else secs[i].1
  }

  /** The writes of the first `i` steps of the merge loop, and its `skip_next` flag after them. */
  function MergeRun(secs: seq<(string, string)>, i: nat): (seq<(string, string)>, bool)
    requires i <= |secs|
  {
    if i == 0 then ([], false)
    else
      var (writes, skip) := MergeRun(secs, i - 1);
      if skip then (writes, false)
      else (writes + [(MergeKey(secs, i - 1), MergeValue(secs, i - 1))], Merges(secs, i - 1))
  }

  /** Step `i` of the merge loop is not skipped. */
  predicate Processed(secs: seq<(string, string)>, i: nat)
    requires i < |secs|
  {
    !MergeRun(secs, i).1
  }

  /** The dictionary `merged_sections` after the first `i` steps. */
  function MergedUpTo(secs: seq<(string, string)>, i: nat): seq<(string, string)>
    requires i <= |secs|
  {
    PutAll([], MergeRun(secs, i).0)
  }

  /** What the merge loop of `extract_text_sections` returns. */
  function MergeSubheadings(secs: seq<(string, string)>): seq<(string, string)> {
    MergedUpTo(secs, |secs|)
  }

  /** The merge loop; `sections[k]` is the value paired with `k`, the keys being distinct. */
  method MergeSections(sections: seq<(string, string)>) returns (merged: seq<(string, string)>)
    ensures merged == MergeSubheadings(sections)
  {
    merged := [];
    var skipNext := false;
    for i := 0 to |sections|
      invariant merged == MergedUpTo(sections, i) && skipNext == MergeRun(sections, i).1
    {
      var writes := MergeRun(sections, i).0;
      assert MergedUpTo(sections, i) == PutAll([], writes);
      if skipNext {
        skipNext := false;
        continue;
      }
      PutAllSnoc([], writes, MergeKey(sections, i), MergeValue(sections, i));
      var heading := sections[i].0;
      var lowerHeading := ToLower(heading);
      if lowerHeading in SubHeadings {
        if i > 0 && Contains(ToLower(sections[i - 1].0), "solution") {
          var prev := sections[i - 1].0;
          merged := Put(merged, prev, sections[i - 1].1 + "\n\n" + sections[i].1);
          skipNext := true;
          continue;
        }
      }
      merged := Put(merged, heading, sections[i].1);
    }
  }

  /** Step `i` of the loop is what it writes: the key it puts, or nothing when it is skipped. */
  lemma {:induction false} MergedStep(secs: seq<(string, string)>, i: nat)
    requires i < |secs|
    ensures MergedUpTo(secs, i + 1) ==
      if Processed(secs, i) then Put(MergedUpTo(secs, i), MergeKey(secs, i), MergeValue(secs, i)) else MergedUpTo(secs, i)
  {
    if Processed(secs, i) {
      PutAllSnoc([], MergeRun(secs, i).0, MergeKey(secs, i), MergeValue(secs, i));
    }
  }

  /** A key no step from `a` to `m` writes keeps the value it had after step `a`. */
  lemma {:induction false} MergeUntouched(secs: seq<(string, string)>, a: nat, m: nat, k: string)
    requires a <= m <= |secs|
    requires forall j :: a <= j < m ==> !(Processed(secs, j) && MergeKey(secs, j) == k)
    ensures Get(MergedUpTo(secs, m), k) == Get(MergedUpTo(secs, a), k)
  {
    if m > a {
      var i := m - 1;
      assert !(Processed(secs, i) && MergeKey(secs, i) == k);
      MergeUntouched(secs, a, i, k);
      MergedStep(secs, i);
      if Processed(secs, i) {
        var key, before := MergeKey(secs, i), MergedUpTo(secs, i);
        assert key != k;
        PutSpec(before, key, MergeValue(secs, i));
      }
    }
  }

  /** A key is in the merge exactly when some step that is not skipped writes it. */
  lemma {:induction false} MergedKeys(secs: seq<(string, string)>, m: nat, k: string)
    requires m <= |secs|
    ensures HasKey(MergedUpTo(secs, m), k) <==> WrittenBefore(secs, m, k)
  {
    if m > 0 {
      MergedKeys(secs, m - 1, k);
      MergedKeysStep(secs, m, k);
    }
  }

  /** Step `i` adds to the keys of the merge exactly the key it writes, if it is not skipped. */
  /** Some step before `m` that is not skipped writes `k`. */
  predicate WrittenBefore(secs: seq<(string, string)>, m: nat, k: string)
    requires m <= |secs|
  {
    exists j :: 0 <= j < m && Processed(secs, j) && MergeKey(secs, j) == k
  }

  lemma {:induction false} MergedKeysStep(secs: seq<(string, string)>, m: nat, k: string)
    requires 0 < m <= |secs|
    requires HasKey(MergedUpTo(secs, m - 1), k) <==> WrittenBefore(secs, m - 1, k)
    ensures HasKey(MergedUpTo(secs, m), k) <==> WrittenBefore(secs, m, k)
  {
    var i := m - 1;
    MergedStep(secs, i);
    if Processed(secs, i) {
      PutHasKey(MergedUpTo(secs, i), MergeKey(secs, i), MergeValue(secs, i), k);
    }
    if WrittenBefore(secs, m, k) {
      var j :| 0 <= j < m && Processed(secs, j) && MergeKey(secs, j) == k;
      if j < i {
        assert WrittenBefore(secs, i, k);
      }
    }
  }

  /** The merge introduces no heading: every key it has is a section's. */
  lemma {:induction false} MergedKeysFromSections(secs: seq<(string, string)>, k: string)
    requires HasKey(MergeSubheadings(secs), k)
    ensures HasKey(secs, k)
  {
    MergedKeys(secs, |secs|, k);
    var j :| 0 <= j < |secs| && Processed(secs, j) && MergeKey(secs, j) == k;
    if Merges(secs, j) {
      assert secs[j - 1].0 == k;
    } else {
      assert secs[j].0 == k;
    }
  }

  /**
    A subheading right after a solution heading, when its step runs, appends
    its text to that heading's: the heading ends with both texts, joined by a
    blank line.
   */
  lemma {:induction false} SubheadingMerged(secs: seq<(string, string)>, i: nat)
    requires Distinct(secs) && i < |secs| && Processed(secs, i) && Merges(secs, i)
    ensures Get(MergeSubheadings(secs), secs[i - 1].0) == Some(secs[i - 1].1 + "\n\n" + secs[i].1)
  {
    var k := secs[i - 1].0;
    MergedStep(secs, i);
    PutSpec(MergedUpTo(secs, i), k, MergeValue(secs, i));
    forall j | i + 1 <= j < |secs| ensures !(Processed(secs, j) && MergeKey(secs, j) == k) {
      assert secs[j].0 != k;
      if j - 1 != i - 1 {
        assert secs[j - 1].0 != k;
      }
    }
    MergeUntouched(secs, i + 1, |secs|, k);
  }

  /**
    The heading after a merged subheading is skipped: `skip_next` drops it,
    and it is lost unless the heading after it merges back into it.
   */
  lemma {:induction false} NextAfterMergeDropped(secs: seq<(string, string)>, i: nat)
    requires Distinct(secs) && i + 1 < |secs| && Processed(secs, i) && Merges(secs, i)
    requires !(i + 2 < |secs| && Merges(secs, i + 2))
    ensures !Processed(secs, i + 1)
    ensures !HasKey(MergeSubheadings(secs), secs[i + 1].0)
  {
    var k := secs[i + 1].0;
    MergedKeys(secs, |secs|, k);
    forall j | 0 <= j < |secs| && Processed(secs, j) ensures MergeKey(secs, j) != k {
      if j != i + 1 {
        assert secs[j].0 != k;
        if Merges(secs, j) {
          assert j != i + 2;
          assert secs[j - 1].0 != k;
        }
      }
    }
  }

  /** A heading that is neither merged away nor merged into keeps its own text. */
  lemma {:induction false} HeadingKept(secs: seq<(string, string)>, i: nat)
    requires Distinct(secs) && i < |secs| && Processed(secs, i) && !Merges(secs, i)
    requires !(i + 1 < |secs| && Merges(secs, i + 1))
    ensures Get(MergeSubheadings(secs), secs[i].0) == Some(secs[i].1)
  {
    var k := secs[i].0;
    MergedStep(secs, i);
    PutSpec(MergedUpTo(secs, i), k, MergeValue(secs, i));
    forall j | i + 1 <= j < |secs| ensures !(Processed(secs, j) && MergeKey(secs, j) == k) {
      assert secs[j].0 != k;
      if Merges(secs, j) {
        assert j - 1 != i;
        assert secs[j - 1].0 != k;
      }
    }
    MergeUntouched(secs, i + 1, |secs|, k);
  }

  /** What `extract_text_sections` returns for a document's paragraphs. */
  function TextSections(raw: seq<string>): seq<(string, string)> {
    MergeSubheadings(ScanSections(IsHeading, raw))
  }

  /** `extract_text_sections`: the paragraph scan, then the merge. */
  method ExtractTextSections(raw: seq<string>) returns (merged: seq<(string, string)>)
    ensures merged == TextSections(raw)
  {
    var sections := ScanParagraphs(IsHeading, raw);
    merged := MergeSections(sections);
  }

  /** Every section key is a paragraph that reads as a heading, and none repeats. */
  lemma {:induction false} TextSectionsHeadings(raw: seq<string>, k: string)
    ensures Distinct(TextSections(raw))
    ensures HasKey(TextSections(raw), k) ==> IsHeading(k)
  {
    var secs := ScanSections(IsHeading, raw);
    ScanSectionsSound(IsHeading, raw);
    PutAllDistinct([], MergeRun(secs, |secs|).0);
    if HasKey(TextSections(raw), k) {
      MergedKeysFromSections(secs, k);
      var i :| 0 <= i < |secs| && secs[i].0 == k;
    }
  }

  // ---------------------------------------------------------------------------
  // parse_table
  // ---------------------------------------------------------------------------

  /** A table row as `dict(zip(headers, values))`. */
  type Record = seq<(string, string)>

  /** `zip(headers, values)`: pairs up to the shorter of the two. */
  function Zip(headers: seq<string>, values: seq<string>): (r: seq<(string, string)>)
    ensures |r| == if |headers| <= |values| then |headers| else |values|
    ensures forall i :: 0 <= i < |r| ==> r[i] == (headers[i], values[i])
  {
    var n := if |headers| <= |values| then |headers| else |values|;
    seq(n, i requires 0 <= i < n => (headers[i], values[i]))
  }

  /** `any(values)`: some value is non-empty. */
  predicate AnyValue(values: seq<string>) {
    exists v :: v in values && v != ""
  }

  /** The record a body row gives under `headers`, unless all its stripped cells are empty. */
  function RecordOf(headers: seq<string>): seq<string> -> Option<Record> {
    row => var values := TrimAll(row); if AnyValue(values) then Some(PutAll([], Zip(headers, values))) else None
  }

  /** What `parse_table` returns: a record per non-blank body row, under the stripped header cells. */
  function TableRows(table: Table): seq<Record>
    requires |table| > 0
  {
    Collect(table[1..], RecordOf(TrimAll(table[0])))
  }

  /** `parse_table`; the table has a header row, which its caller has already read. */
  method ParseTable(table: Table) returns (rows: seq<Record>)
    requires |table| > 0
    ensures rows == TableRows(table)
  {
    var headers := TrimAll(table[0]);
    var body := table[1..];
    rows := [];
    for i := 0 to |body|
      invariant rows == Collect(body[..i], RecordOf(headers))
    {
      var values := TrimAll(body[i]);
      TakeSnoc(body, i);
      CollectSnoc(body[..i], body[i], RecordOf(headers));
      assert RecordOf(headers)(body[i]) == if AnyValue(values) then Some(PutAll([], Zip(headers, values))) else None;
      if AnyValue(values) {
        rows := rows + [PutAll([], Zip(headers, values))];
      }
    }
    assert body[..|body|] == body;
  }

  /** Body row `i` is not blank and gives record `x`. */
  predicate GivesRecord(table: Table, i: nat, x: Record)
    requires 0 < i < |table|
  {
    AnyValue(TrimAll(table[i])) && x == PutAll([], Zip(TrimAll(table[0]), TrimAll(table[i])))
  }

  /** Every record comes from a non-blank body row. */
  lemma {:induction false} RecordFromRow(table: Table, x: Record)
    requires |table| > 0 && x in TableRows(table)
    ensures exists i :: 0 < i < |table| && GivesRecord(table, i, x)
  {
    var f := RecordOf(TrimAll(table[0]));
    CollectFromSuffix(table, 1, f, x);
    var i :| 1 <= i < |table| && f(table[i]) == Some(x);
    assert GivesRecord(table, i, x);
  }

  /** Every non-blank body row gives a record. */
  lemma {:induction false} RowGivesRecord(table: Table, i: nat, x: Record)
    requires 0 < i < |table| && GivesRecord(table, i, x)
    ensures x in TableRows(table)
  {
    var f := RecordOf(TrimAll(table[0]));
    assert f(table[i]) == Some(x);
    CollectContainsFrom(table, 1, i, f);
  }

  /**
    The records are exactly those of the body rows with a non-empty cell:
    every such row gives one, and a blank row gives none.
   */
  lemma {:induction false} TableRowsFromRows(table: Table, x: Record)
    requires |table| > 0
    ensures x in TableRows(table) <==> exists i :: 0 < i < |table| && GivesRecord(table, i, x)
  {
    if x in TableRows(table) {
      RecordFromRow(table, x);
    }
    if exists i :: 0 < i < |table| && GivesRecord(table, i, x) {
      var i :| 0 < i < |table| && GivesRecord(table, i, x);
      RowGivesRecord(table, i, x);
    }
  }

  /** A record's keys are header cells that have a value beside them; a repeated header keeps its last value. */
  lemma {:induction false} RecordKeys(headers: seq<string>, values: seq<string>, k: string)
    ensures HasKey(PutAll([], Zip(headers, values)), k) <==> exists i :: 0 <= i < |headers| && i < |values| && headers[i] == k
  {
    var z := Zip(headers, values);
    GetPutAll([], z, k);
    if HasKey(z, k) {
      var i :| 0 <= i < |z| && z[i].0 == k;
    }
    if exists i :: 0 <= i < |headers| && i < |values| && headers[i] == k {
      var i :| 0 <= i < |headers| && i < |values| && headers[i] == k;
      assert z[i].0 == k;
    }
  }

  // ---------------------------------------------------------------------------
  // Table classification in parse_project_plan_docx
  // ---------------------------------------------------------------------------

  datatype Category = TeamContributions | TeamProfile | TeamRole | RiskMitigation | ProductBacklog | HighLevelRequirements

  /** The header test of each branch of the classification. */
  predicate Rule(c: Category, header: string) {
    match c
    case TeamContributions => Contains(header, "student") && Contains(header, "contribution")
    case TeamProfile => Contains(header, "technical skills")
    case TeamRole => Contains(header, "team role")
    case RiskMitigation => Contains(header, "impact on project") || Contains(header, "mitigation")
    case ProductBacklog => Contains(header, "user story") && Contains(header, "priority")
    case HighLevelRequirements => Contains(header, "functional requirements") || Contains(header, "story")
  }

  /** The position of a category's branch in the `if`/`elif` chain. */
  function Rank(c: Category): nat {
    match c
    case TeamContributions => 0
    case TeamProfile => 1
    case TeamRole => 2
    case RiskMitigation => 3
    case ProductBacklog => 4
    case HighLevelRequirements => 5
  }

  /** `include_in_metrics` of each category. */
  predicate IncludeInMetrics(c: Category) {
    c != TeamProfile && c != TeamRole
  }

  /** The `if`/`elif` chain of the classification: the first category whose header test holds, if any. */
  function Classify(header: string): Option<Category> {
    if Rule(TeamContributions, header) then Some(TeamContributions)
    else if Rule(TeamProfile, header) then Some(TeamProfile)
    else if Rule(TeamRole, header) then Some(TeamRole)
    else if Rule(RiskMitigation, header) then Some(RiskMitigation)
    else if Rule(ProductBacklog, header) then Some(ProductBacklog)
    else if Rule(HighLevelRequirements, header) then Some(HighLevelRequirements)
    else None
  }

  /** The first test that holds decides: a category is picked only when no earlier test holds. */
  lemma {:induction false} ClassifyFirstRule(header: string, c: Category)
    ensures Classify(header) == Some(c) <==> Rule(c, header) && forall d :: Rank(d) < Rank(c) ==> !Rule(d, header)
    ensures Classify(header).None? <==> forall d :: !Rule(d, header)
  {
    if Classify(header).None? {
      forall d ensures !Rule(d, header) {
        match d
        case TeamContributions =>
        case TeamProfile =>
        case TeamRole =>
        case RiskMitigation =>
        case ProductBacklog =>
        case HighLevelRequirements =>
      }
    }
  }

  /** `result["tables"][category]` as written for one table. */
  datatype TableEntry = TableEntry(includeInMetrics: bool, rows: seq<Record>)

  /** The write a table makes: its category and entry, if its header falls in one. */
  function TableWrite(table: Table): Option<(Category, TableEntry)> {
    if |table| == 0 then None
    else
      match Classify(HeaderBlob(table[0]))
      case Some(c) => Some((c, TableEntry(IncludeInMetrics(c), TableRows(table))))
      case None => None
  }

  /** `len(table.rows) == 0`, where reading the header raises `IndexError`. */
  const NoHeaderRow := "list index out of range"

  /** The `result["tables"]` the classification loop builds, or its error on a table without rows. */
  function ClassifiedTables(tables: seq<Table>): (r: Result<seq<(Category, TableEntry)>>)
    ensures r.Err? <==> exists u :: 0 <= u < |tables| && |tables[u]| == 0
    ensures r.Err? ==> r.msg == NoHeaderRow
  {
    if [] in tables then Err(NoHeaderRow)
    else Ok(PutAll([], Collect(tables, TableWrite)))
  }

  /** Writing the entry of one more item, if it has one, extends the written prefix by that item. */
  lemma {:induction false} WriteNext<T, K(!new), V>(m: seq<(K, V)>, items: seq<T>, t: nat, f: T -> Option<(K, V)>)
    requires t < |items| && m == PutAll([], Collect(items[..t], f))
    ensures PutAll([], Collect(items[..t + 1], f)) == match f(items[t]) case Some(e) => Put(m, e.0, e.1) case None => m
  {
    TakeSnoc(items, t);
    PutAllCollectSnoc([], items[..t], items[t], f);
  }

  /** One pass of the classification loop: the category and entry a table with rows gives, if any. */
  method ClassifyTable(table: Table) returns (w: Option<(Category, TableEntry)>)
    requires |table| > 0
    ensures w == TableWrite(table)
  {
    var header := HeaderBlob(table[0]);
    var category := Classify(header);
    w := None;
    if category.Some? {
      var rows := ParseTable(table);
      w := Some((category.value, TableEntry(IncludeInMetrics(category.value), rows)));
    }
  }

  /** The classification loop of `parse_project_plan_docx`. */
  method ClassifyTables(tables: seq<Table>) returns (r: Result<seq<(Category, TableEntry)>>)
    ensures r == ClassifiedTables(tables)
  {
    var classified: seq<(Category, TableEntry)> := [];
    for t := 0 to |tables|
      invariant [] !in tables[..t]
      invariant classified == PutAll([], Collect(tables[..t], TableWrite))
    {
      var table := tables[t];
      if |table| == 0 {
        return Err(NoHeaderRow);
      }
      WriteNext(classified, tables, t, TableWrite);
      var w := ClassifyTable(table);
      if w.Some? {
        classified := Put(classified, w.value.0, w.value.1);
      }
    }
    assert tables[..|tables|] == tables;
    r := Ok(classified);
  }

  /** Writing the entries of a list of items leaves a key with the entry of the last item that writes it. */
  lemma {:induction false} CollectWriteLast<T, K(!new), V>(items: seq<T>, f: T -> Option<(K, V)>, j: nat)
    requires j < |items| && f(items[j]).Some?
    requires forall l :: j < l < |items| ==> f(items[l]).None? || f(items[l]).value.0 != f(items[j]).value.0
    ensures Get(PutAll([], Collect(items, f)), f(items[j]).value.0) == Some(f(items[j]).value.1)
  {
    var n := |items| - 1;
    var k := f(items[j]).value.0;
    assert items[..n] + [items[n]] == items;
    PutAllCollectSnoc([], items[..n], items[n], f);
    var before := PutAll([], Collect(items[..n], f));
    if j == n {
      PutSpec(before, k, f(items[j]).value.1);
    } else {
      assert (items[..n])[j] == items[j];
      CollectWriteLast(items[..n], f, j);
      if f(items[n]).Some? {
        PutSpec(before, f(items[n]).value.0, f(items[n]).value.1);
      }
    }
  }

  /**
    A later table of the same category replaces an earlier one: a category
    holds the entry of the last table classified into it.
   */
  lemma {:induction false} LaterTableReplaces(tables: seq<Table>, j: nat)
    requires ClassifiedTables(tables).Ok? && j < |tables| && TableWrite(tables[j]).Some?
    requires forall l :: j < l < |tables| ==> TableWrite(tables[l]).None? || TableWrite(tables[l]).value.0 != TableWrite(tables[j]).value.0
    ensures Get(ClassifiedTables(tables).value, TableWrite(tables[j]).value.0) == Some(TableWrite(tables[j]).value.1)
  {
    CollectWriteLast(tables, TableWrite, j);
  }
}
