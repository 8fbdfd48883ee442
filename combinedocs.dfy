/**
  `combineDocumentationMetrics`: the registry entries of parsed documentation
  files are read once each, every student's documents are collected under a
  key derived from the file name, and per-student totals and plain means are
  computed over the documents counted.
 */
module CombineDocs {
  import opened Wrappers
  import opened Strings
  import opened Reals
  import opened JsonValue
  import opened AssocList

  // ---------------------------------------------------------------- the registry filter

  /** `entry.userType || entry.detectedType`. */
  function DocType(entry: Json): Json {
    Or(Field(entry, "userType"), Field(entry, "detectedType"))
  }

  predicate IsDocumentation(t: Json) {
    t == JStr("worklog") || t == JStr("sprint_report") || t == JStr("project_plan")
  }

  /** `entry?.parseInfo?.jsonPath`. */
  function JsonPathOf(entry: Json): Json {
    Field(Field(entry, "parseInfo"), "jsonPath")
  }

  /** `jsonPath.replace(/\\/g, '/')`: the name under which a file counts as processed. */
  function PathKey(p: string): (r: string)
    ensures |r| == |p|
    ensures forall i :: 0 <= i < |r| ==> r[i] != '\\'
  {
    ReplaceChar(p, '\\', '/')
  }

  /** A documentation type, status "parsed" and a jsonPath. */
  predicate Candidate(entry: Json) {
    var jp := JsonPathOf(entry);
    IsDocumentation(DocType(entry)) && Field(entry, "status") == JStr("parsed") && jp.JStr? && jp.s != ""
  }

  /** An entry is read: a candidate whose path was not read before. */
  predicate Eligible(processed: set<string>, entry: Json) {
    Candidate(entry) && PathKey(JsonPathOf(entry).s) !in processed
  }

  // ---------------------------------------------------------------- the document key

  /** `path.extname` of a name: from its last '.' on, "" when the name has none or starts with it. */
  function Extname(p: string): (r: string)
    ensures r == [] || (r[0] == '.' && EndsWith(p, r))
    ensures forall i :: 0 <= i < |r| ==> r[i] != '/'
  {
    var base := p[LastIndexOf(p, '/') + 1..];
    var d := LastIndexOf(base, '.');
    if d <= 0 || base == ".." then ""
    else
      assert base[d..] == p[|p| - (|base| - d)..];
      base[d..]
  }

  /**
    The property key a string, a boolean or a missing value names
    ("undefined" for the last); a number or an object gives "", where
    JavaScript would use its `String` form.
   */
  function KeyString(v: Json): string {
    match v
    case JStr(s) => s
    case JNull => "undefined"
    case JBool(b) => if b then "true" else "false"
    case _ => ""
  }

  /** The stored name splits at "__" into exactly two parts. */
  predicate TimestampedName(stored: Json) {
    stored.JStr? && Contains(stored.s, "__") && |Split(stored.s, "__")| == 2
  }

  /**
    `docKey`: `data.source_file || entry.originalName || entry.storedName`,
    unless the stored name is "base__timestamp.ext", which gives "base.ext".
   */
  function DocKey(data: Json, entry: Json): string {
    var stored := Field(entry, "storedName");
    if TimestampedName(stored) then
      var parts := Split(stored.s, "__");
      parts[0] + Extname(parts[1])
    else KeyString(Or(Or(Field(data, "source_file"), Field(entry, "originalName")), stored))
  }

  // ---------------------------------------------------------------- per-student accumulation

  /** What `docs[docKey]` records of one document. */
  datatype Doc = Doc(sectionsWritten: Json, wordCount: Json, avgSentenceLength: Json, sentenceComplexity: Json, readabilityScore: Json)

  /** `details.metrics || details`. */
  function MetricsOf(details: Json): Json {
    Or(Field(details, "metrics"), details)
  }

  function OrZero(v: Json): Json {
    Or(v, JNum(0.0))
  }

  /** `metrics.word_count || metrics.words || 0`. */
  function WordCountOf(metrics: Json): Json {
    OrZero(Or(Field(metrics, "word_count"), Field(metrics, "words")))
  }

  function DocOf(details: Json, metrics: Json): Doc {
    Doc(Or(Field(details, "sections_written"), JArr([])), WordCountOf(metrics),
      OrZero(Field(metrics, "avg_sentence_length")), OrZero(Field(metrics, "sentence_complexity")),
      OrZero(Field(metrics, "readability_score")))
  }

  /** The number `+` adds for a value: numbers, and booleans as 1 and 0. */
  function Numeric(v: Json): real {
    match v
    case JNum(n) => n
    case JBool(b) => if b then 1.0 else 0.0
    case _ => 0.0
  }

  /** `v.length || 0` for an array or a string. */
  function LengthOf(v: Json): nat {
    match v
    case JArr(items) => |items|
    case JStr(s) => |s|
    case _ => 0
  }

  /** `combined[studentName]` before finalising: `docs`, the three totals and `_accum`. */
  datatype Acc = Acc(docs: seq<(string, Doc)>, totalWords: real, totalDocs: nat, totalSections: nat, accum: seq<Json>)

  const NewAcc := Acc([], 0.0, 0, 0, [])

  /** One student of one file: a document key the student has not had yet is recorded and counted. */
  function AddDoc(combined: seq<(string, Acc)>, name: string, details: Json, docKey: string): seq<(string, Acc)> {
    var acc := GetOr(combined, name, NewAcc);
    if HasKey(acc.docs, docKey) then combined else Put(combined, name, Record(acc, docKey, details))
  }

  /** `docs[docKey]` is written, the totals grow and the metrics are pushed onto `_accum`. */
  function Record(acc: Acc, docKey: string, details: Json): Acc {
    var metrics := MetricsOf(details);
    var d := DocOf(details, metrics);
    Acc(Put(acc.docs, docKey, d), acc.totalWords + Numeric(d.wordCount), acc.totalDocs + 1,
      acc.totalSections + LengthOf(d.sectionsWritten), acc.accum + [metrics])
  }

  function AddDocs(combined: seq<(string, Acc)>, students: seq<(string, Json)>, docKey: string): seq<(string, Acc)> {
    if students == [] then combined
    else
      var n := |students| - 1;
      AddDoc(AddDocs(combined, students[..n], docKey), students[n].0, students[n].1, docKey)
  }

  /** `data.students || data.contributors || {}`. */
  function StudentsOf(data: Json): Json {
    Or(Or(Field(data, "students"), Field(data, "contributors")), JObj([]))
  }

  /** The set of processed paths and the `combined` object. */
  datatype State = State(processed: set<string>, combined: seq<(string, Acc)>)

  /** The file read for an entry, given the parsed files by jsonPath; null when it cannot be read. */
  function ReadData(jsonPath: string, files: map<string, Json>): Json {
    if jsonPath in files then files[jsonPath] else JNull
  }

  /** One `registry.forEach` callback. */
  function Step(st: State, entry: Json, files: map<string, Json>): State {
    if !Eligible(st.processed, entry) then st
    else
      var jp := JsonPathOf(entry).s;
      var seen := st.processed + {PathKey(jp)};
      var data := ReadData(jp, files);
      if !Truthy(data) then State(seen, st.combined)
      else State(seen, AddDocs(st.combined, Entries(StudentsOf(data)), DocKey(data, entry)))
  }

  function Run(registry: seq<Json>, files: map<string, Json>): State {
    if registry == [] then State({}, [])
    else
      var n := |registry| - 1;
      Step(Run(registry[..n], files), registry[n], files)
  }

  // ---------------------------------------------------------------- finalising

  datatype Combined = Combined(totalWordCount: real, totalDocs: nat, totalSections: nat,
    avgSentenceLength: real, sentenceComplexity: real, readabilityScore: real)

  /** A student of the result: exactly `docs` and `combined`; the temporary fields are gone. */
  datatype StudentDocs = StudentDocs(docs: seq<(string, Doc)>, combined: Combined)

  /** `accum.map(m => m[key] || 0)`, as the reductions add them. */
  function AccumValues(accum: seq<Json>, key: string): (r: seq<real>)
    ensures |r| == |accum|
  {
    seq(|accum|, i requires 0 <= i < |accum| => Numeric(OrZero(Field(accum[i], key))))
  }

  /** The finalize callback, without `toFixed`. */
  function Finalize(acc: Acc): StudentDocs {
    StudentDocs(acc.docs, Combined(acc.totalWords, acc.totalDocs, acc.totalSections,
      Mean(AccumValues(acc.accum, "avg_sentence_length")), Mean(AccumValues(acc.accum, "sentence_complexity")),
      Mean(AccumValues(acc.accum, "readability_score"))))
  }

  function FinalizeAll(combined: seq<(string, Acc)>): (r: seq<(string, StudentDocs)>)
    ensures |r| == |combined|
    ensures forall i :: 0 <= i < |r| ==> r[i] == (combined[i].0, Finalize(combined[i].1))
  {
    seq(|combined|, i requires 0 <= i < |combined| => (combined[i].0, Finalize(combined[i].1)))
  }

  /** The `students` of the result, or `None` (null) for an empty registry. */
  function CombineDocumentationMetricsOf(registry: seq<Json>, files: map<string, Json>): (r: Option<seq<(string, StudentDocs)>>)
    ensures r.None? <==> registry == []
  {
    if registry == [] then None else Some(FinalizeAll(Run(registry, files).combined))
  }

  // ---------------------------------------------------------------- the imperative function

  /** The inner `Object.entries(students).forEach`. */
  method AddStudents(combined0: seq<(string, Acc)>, students: seq<(string, Json)>, docKey: string)
    returns (combined: seq<(string, Acc)>)
    ensures combined == AddDocs(combined0, students, docKey)
  {
    combined := combined0;
    for i := 0 to |students|
      invariant combined == AddDocs(combined0, students[..i], docKey)
    {
      assert students[..i + 1][..i] == students[..i];
      var (studentName, details) := students[i];
      combined := AddStudent(combined, studentName, details, docKey);
    }
    assert students[..|students|] == students;
  }

  /** The body of the student loop for one student of one file. */
  method AddStudent(combined0: seq<(string, Acc)>, studentName: string, details: Json, docKey: string)
    returns (combined: seq<(string, Acc)>)
    ensures combined == AddDoc(combined0, studentName, details, docKey)
  {
    combined := combined0;
    var acc := GetOr(combined, studentName, NewAcc);
    if !HasKey(acc.docs, docKey) {
      ghost var before := acc;
      var metrics := MetricsOf(details);
      var d := DocOf(details, metrics);
      acc := Acc(Put(acc.docs, docKey, d), acc.totalWords + Numeric(d.wordCount), acc.totalDocs + 1,
        acc.totalSections + LengthOf(d.sectionsWritten), acc.accum + [metrics]);
      assert acc == Record(before, docKey, details);
      combined := Put(combined, studentName, acc);
    }
  }


  method CombineDocumentationMetrics(registry: seq<Json>, files: map<string, Json>)
    returns (result: Option<seq<(string, StudentDocs)>>)
    ensures result == CombineDocumentationMetricsOf(registry, files)
  {
    if |registry| == 0 {
      return None;
    }
    var combined: seq<(string, Acc)> := [];
    var processedFiles: set<string> := {};
    for i := 0 to |registry|
      invariant State(processedFiles, combined) == Run(registry[..i], files)
    {
      assert registry[..i + 1][..i] == registry[..i];
      var entry := registry[i];
      var jsonPath := JsonPathOf(entry);
      if IsDocumentation(DocType(entry)) && Field(entry, "status") == JStr("parsed") && jsonPath.JStr? && jsonPath.s != "" {
        var normalized := PathKey(jsonPath.s);
        if normalized !in processedFiles {
          processedFiles := processedFiles + {normalized};
          var data := ReadData(jsonPath.s, files);
          if Truthy(data) {
            combined := AddStudents(combined, Entries(StudentsOf(data)), DocKey(data, entry));
          }
        }
      }
    }
    assert registry[..|registry|] == registry;
    var students: seq<(string, StudentDocs)> := [];
    for i := 0 to |combined|
      invariant students == FinalizeAll(combined[..i])
    {
      students := students + [(combined[i].0, Finalize(combined[i].1))];
    }
    assert combined[..|combined|] == combined;
    result := Some(students);
  }

  // ---------------------------------------------------------------- properties

  /** The processed paths are exactly the normalised paths of the candidate entries. */
  lemma {:induction false} ProcessedPaths(registry: seq<Json>, files: map<string, Json>, p: string)
    ensures p in Run(registry, files).processed <==> CandidatePath(registry, p)
  {
    if registry != [] {
      var n := |registry| - 1;
      var pre := registry[..n];
      var st := Run(pre, files);
      var e := registry[n];
      assert Run(registry, files).processed ==
        if Eligible(st.processed, e) then st.processed + {PathKey(JsonPathOf(e).s)} else st.processed
      by {
        StepProcessed(st, e, files);
      }
      ProcessedPaths(pre, files, p);
      assert CandidatePath(registry, p) <==> CandidatePath(pre, p) || (Candidate(e) && PathKey(JsonPathOf(e).s) == p) by {
        CandidatePathSnoc(pre, e, p);
        assert pre + [e] == registry;
      }
    }
  }

  /** Some entry of the registry is a candidate with path `p`. */
  predicate CandidatePath(registry: seq<Json>, p: string) {
    exists i :: 0 <= i < |registry| && Candidate(registry[i]) && PathKey(JsonPathOf(registry[i]).s) == p
  }

  lemma {:induction false} CandidatePathSnoc(registry: seq<Json>, e: Json, p: string)
    ensures CandidatePath(registry + [e], p) <==> CandidatePath(registry, p) || (Candidate(e) && PathKey(JsonPathOf(e).s) == p)
  {
    var r := registry + [e];
    if CandidatePath(r, p) {
      var i :| 0 <= i < |r| && Candidate(r[i]) && PathKey(JsonPathOf(r[i]).s) == p;
      if i < |registry| {
        assert r[i] == registry[i];
      }
    }
    if CandidatePath(registry, p) {
      var i :| 0 <= i < |registry| && Candidate(registry[i]) && PathKey(JsonPathOf(registry[i]).s) == p;
      assert r[i] == registry[i];
    }
    if Candidate(e) && PathKey(JsonPathOf(e).s) == p {
      assert r[|registry|] == e;
    }
  }

  lemma {:induction false} StepProcessed(st: State, entry: Json, files: map<string, Json>)
    ensures Step(st, entry, files).processed ==
      if Eligible(st.processed, entry) then st.processed + {PathKey(JsonPathOf(entry).s)} else st.processed
  {
  }

  /** An entry that is not a parsed documentation file with a jsonPath changes nothing. */
  lemma {:induction false} NonCandidateIgnored(registry: seq<Json>, files: map<string, Json>, entry: Json)
    requires !Candidate(entry)
    ensures Run(registry + [entry], files) == Run(registry, files)
  {
    assert (registry + [entry])[..|registry|] == registry;
  }

  /** A second entry for a path already read, even with other slashes, changes nothing. */
  lemma {:induction false} DuplicatePathIgnored(registry: seq<Json>, files: map<string, Json>, entry: Json, i: int)
    requires 0 <= i < |registry| && Candidate(registry[i]) && Candidate(entry)
    requires PathKey(JsonPathOf(registry[i]).s) == PathKey(JsonPathOf(entry).s)
    ensures Run(registry + [entry], files) == Run(registry, files)
  {
    assert (registry + [entry])[..|registry|] == registry;
    ProcessedPaths(registry, files, PathKey(JsonPathOf(entry).s));
    assert CandidatePath(registry, PathKey(JsonPathOf(entry).s));
  }

  /** The stored name "base__timestamp.ext" decides the key, whatever the file's `source_file` says. */
  lemma {:induction false} DocKeyTimestamped(data: Json, data': Json, entry: Json)
    requires TimestampedName(Field(entry, "storedName"))
    ensures DocKey(data, entry) == DocKey(data', entry)
    ensures var parts := Split(Field(entry, "storedName").s, "__");
      DocKey(data, entry) == parts[0] + Extname(parts[1])
  {
  }

  /** Otherwise the file's own `source_file` name, when it has one, is the key. */
  lemma {:induction false} DocKeyFromSource(data: Json, entry: Json)
    requires !TimestampedName(Field(entry, "storedName"))
    requires Field(data, "source_file").JStr? && Field(data, "source_file").s != ""
    ensures DocKey(data, entry) == Field(data, "source_file").s
  {
  }

  function WordCounts(docs: seq<(string, Doc)>): (r: seq<real>)
    ensures |r| == |docs|
  {
    seq(|docs|, i requires 0 <= i < |docs| => Numeric(docs[i].1.wordCount))
  }

  function SectionTotal(docs: seq<(string, Doc)>): nat {
    if docs == [] then 0 else SectionTotal(docs[..|docs| - 1]) + LengthOf(docs[|docs| - 1].1.sectionsWritten)
  }

  function SentenceLengths(docs: seq<(string, Doc)>): (r: seq<real>)
    ensures |r| == |docs|
  {
    seq(|docs|, i requires 0 <= i < |docs| => Numeric(docs[i].1.avgSentenceLength))
  }

  function Complexities(docs: seq<(string, Doc)>): (r: seq<real>)
    ensures |r| == |docs|
  {
    seq(|docs|, i requires 0 <= i < |docs| => Numeric(docs[i].1.sentenceComplexity))
  }

  function Readabilities(docs: seq<(string, Doc)>): (r: seq<real>)
    ensures |r| == |docs|
  {
    seq(|docs|, i requires 0 <= i < |docs| => Numeric(docs[i].1.readabilityScore))
  }

  /** The metric values of a recorded document, and those a metrics object gives. */
  function MetricsPart(d: Doc): (Json, Json, Json, Json) {
    (d.wordCount, d.avgSentenceLength, d.sentenceComplexity, d.readabilityScore)
  }

  function MetricsPartOf(metrics: Json): (Json, Json, Json, Json) {
    MetricsPart(DocOf(JNull, metrics))
  }

  /**
    A student's accumulator agrees with its documents: one counted document per
    distinct key, the totals are sums over the documents, and `_accum[i]` holds
    the metrics recorded as the i-th document.
   */
  predicate Consistent(acc: Acc) {
    Tallied(acc) && acc.totalDocs >= 1
  }

  predicate Tallied(acc: Acc) {
    |acc.docs| == acc.totalDocs == |acc.accum| && Distinct(acc.docs) &&
    acc.totalWords == Sum(WordCounts(acc.docs)) && acc.totalSections == SectionTotal(acc.docs) &&
    forall i :: 0 <= i < |acc.docs| ==> MetricsPart(acc.docs[i].1) == MetricsPartOf(acc.accum[i])
  }

  lemma {:induction false} NewAccTallied()
    ensures Tallied(NewAcc)
  {
    assert WordCounts([]) == [];
  }

  predicate AllConsistent(combined: seq<(string, Acc)>) {
    Distinct(combined) && forall i :: 0 <= i < |combined| ==> Consistent(combined[i].1)
  }

  lemma {:induction false} WordCountsSnoc(docs: seq<(string, Doc)>, e: (string, Doc))
    ensures WordCounts(docs + [e]) == WordCounts(docs) + [Numeric(e.1.wordCount)]
  {
  }

  /** Recording a new document keeps the accumulator consistent. */
  lemma {:induction false} AccAddConsistent(acc: Acc, docKey: string, details: Json)
    requires Tallied(acc)
    requires !HasKey(acc.docs, docKey)
    ensures Consistent(Record(acc, docKey, details))
  {
    var metrics := MetricsOf(details);
    var d := DocOf(details, metrics);
    var r := Record(acc, docKey, details);
    var docs := r.docs;
    assert docs == acc.docs + [(docKey, d)] by {
      PutSpec(acc.docs, docKey, d);
    }
    assert Distinct(docs) by {
      PutDistinct(acc.docs, docKey, d);
    }
    assert r.totalWords == Sum(WordCounts(docs)) by {
      WordCountsSnoc(acc.docs, (docKey, d));
      assert (WordCounts(acc.docs) + [Numeric(d.wordCount)])[..|acc.docs|] == WordCounts(acc.docs);
    }
    assert r.totalSections == SectionTotal(docs) by {
      assert docs[..|acc.docs|] == acc.docs;
    }
    assert forall i :: 0 <= i < |docs| ==> MetricsPart(docs[i].1) == MetricsPartOf(r.accum[i]) by {
      forall i | 0 <= i < |docs| ensures MetricsPart(docs[i].1) == MetricsPartOf(r.accum[i]) {
        if i < |acc.docs| {
          assert docs[i] == acc.docs[i] && r.accum[i] == acc.accum[i];
        }
      }
    }
  }

  /** Writing a consistent accumulator keeps every student consistent. */
  lemma {:induction false} PutConsistent(combined: seq<(string, Acc)>, name: string, acc: Acc)
    requires AllConsistent(combined) && Consistent(acc)
    ensures AllConsistent(Put(combined, name, acc))
  {
    PutSpec(combined, name, acc);
    PutDistinct(combined, name, acc);
  }

  lemma {:induction false} GetOrConsistent(combined: seq<(string, Acc)>, name: string)
    requires AllConsistent(combined)
    ensures Tallied(GetOr(combined, name, NewAcc))
  {
    NewAccTallied();
    if HasKey(combined, name) {
      var i :| 0 <= i < |combined| && combined[i] == (name, GetOr(combined, name, NewAcc));
    }
  }

  lemma {:induction false} AddDocConsistent(combined: seq<(string, Acc)>, name: string, details: Json, docKey: string)
    requires AllConsistent(combined)
    ensures AllConsistent(AddDoc(combined, name, details, docKey))
  {
    var acc := GetOr(combined, name, NewAcc);
    if !HasKey(acc.docs, docKey) {
      var acc' := Record(acc, docKey, details);
      assert Consistent(acc') by {
        GetOrConsistent(combined, name);
        AccAddConsistent(acc, docKey, details);
      }
      PutConsistent(combined, name, acc');
    }
  }

  lemma {:induction false} AddDocsConsistent(combined: seq<(string, Acc)>, students: seq<(string, Json)>, docKey: string)
    requires AllConsistent(combined)
    ensures AllConsistent(AddDocs(combined, students, docKey))
  {
    if students != [] {
      var n := |students| - 1;
      AddDocsConsistent(combined, students[..n], docKey);
      AddDocConsistent(AddDocs(combined, students[..n], docKey), students[n].0, students[n].1, docKey);
    }
  }

  lemma {:induction false} RunConsistent(registry: seq<Json>, files: map<string, Json>)
    ensures AllConsistent(Run(registry, files).combined)
  {
    if registry != [] {
      var n := |registry| - 1;
      RunConsistent(registry[..n], files);
      var st := Run(registry[..n], files);
      var entry := registry[n];
      if Eligible(st.processed, entry) {
        var data := ReadData(JsonPathOf(entry).s, files);
        if Truthy(data) {
          AddDocsConsistent(st.combined, Entries(StudentsOf(data)), DocKey(data, entry));
        }
      }
    }
  }

  /**
    Every student of the result appears once, has at least one document, each
    document key once; `total_docs` counts the documents, `total_word_count`
    and `total_sections` add up theirs, and the three averages are plain means
    over the documents.
   */
  lemma {:induction false} CombinedStudents(registry: seq<Json>, files: map<string, Json>, i: int)
    requires registry != []
    requires 0 <= i < |CombineDocumentationMetricsOf(registry, files).value|
    ensures Distinct(CombineDocumentationMetricsOf(registry, files).value)
    ensures var s := CombineDocumentationMetricsOf(registry, files).value[i].1;
      s.combined.totalDocs == |s.docs| >= 1 && Distinct(s.docs) &&
      s.combined.totalWordCount == Sum(WordCounts(s.docs)) && s.combined.totalSections == SectionTotal(s.docs) &&
      s.combined.avgSentenceLength == Mean(SentenceLengths(s.docs)) &&
      s.combined.sentenceComplexity == Mean(Complexities(s.docs)) &&
      s.combined.readabilityScore == Mean(Readabilities(s.docs))
  {
    var combined := Run(registry, files).combined;
    RunConsistent(registry, files);
    var out := FinalizeAll(combined);
    assert Distinct(out) by {
      assert forall j :: 0 <= j < |out| ==> out[j].0 == combined[j].0;
    }
    var acc := combined[i].1;
    assert Consistent(acc);
    assert AccumValues(acc.accum, "avg_sentence_length") == SentenceLengths(acc.docs) by {
      forall j | 0 <= j < |acc.docs| ensures AccumValues(acc.accum, "avg_sentence_length")[j] == SentenceLengths(acc.docs)[j] {
        assert MetricsPart(acc.docs[j].1) == MetricsPartOf(acc.accum[j]);
      }
    }
    assert AccumValues(acc.accum, "sentence_complexity") == Complexities(acc.docs) by {
      forall j | 0 <= j < |acc.docs| ensures AccumValues(acc.accum, "sentence_complexity")[j] == Complexities(acc.docs)[j] {
        assert MetricsPart(acc.docs[j].1) == MetricsPartOf(acc.accum[j]);
      }
    }
    assert AccumValues(acc.accum, "readability_score") == Readabilities(acc.docs) by {
      forall j | 0 <= j < |acc.docs| ensures AccumValues(acc.accum, "readability_score")[j] == Readabilities(acc.docs)[j] {
        assert MetricsPart(acc.docs[j].1) == MetricsPartOf(acc.accum[j]);
      }
    }
  }
}
