/**
  `analyze_all_documents`: every parsed `.json` file's students are merged into
  per-student accumulation buckets (word counts summed, sentence length and
  complexity weighted by word count, readabilities listed), then finalised into
  weighted and plain means.
 */
module AnalyzeDocs {
  import opened Wrappers
  import opened Strings
  import opened Reals
  import opened JsonValue
  import opened AssocList

  // ---------------------------------------------------------------- merge_student_metrics

  /** The four metric values of one document, once Python has read them as numbers. */
  datatype Metrics = Metrics(wordCount: real, avgSentenceLength: real, sentenceComplexity: real, readability: real)

  /** The accumulation buckets `tot_word_count`, the two weighted numerators and `readability_list`. */
  datatype Buckets = Buckets(totWordCount: real, weightedSentLen: real, weightedComplexity: real, readabilityList: seq<real>)

  /** A value Python's `+=` and `*` accept as a number: an int, a float or a bool. */
  function PyNumber(v: Json): (r: Option<real>)
    ensures v.JNum? ==> r == Some(v.n)
    ensures !v.JNum? && !v.JBool? ==> r.None?
  {
    match v
    case JNum(n) => Some(n)
    case JBool(b) => Some(if b then 1.0 else 0.0)
    case _ => None
  }

  /** `new_metrics.get(key, 0)` for the four keys; `None` where the arithmetic raises TypeError. */
  function MetricsOf(m: seq<(string, Json)>): (r: Option<Metrics>)
    ensures r.Some? <==> (PyNumber(GetOr(m, "word_count", JNum(0.0))).Some? &&
      PyNumber(GetOr(m, "avg_sentence_length", JNum(0.0))).Some? &&
      PyNumber(GetOr(m, "sentence_complexity", JNum(0.0))).Some? &&
      PyNumber(GetOr(m, "readability_score", JNum(0.0))).Some?)
  {
    var wc := PyNumber(GetOr(m, "word_count", JNum(0.0)));
    var asl := PyNumber(GetOr(m, "avg_sentence_length", JNum(0.0)));
    var comp := PyNumber(GetOr(m, "sentence_complexity", JNum(0.0)));
    var read := PyNumber(GetOr(m, "readability_score", JNum(0.0)));
    if wc.None? || asl.None? || comp.None? || read.None? then None
    else Some(Metrics(wc.value, asl.value, comp.value, read.value))
  }

  /** The empty buckets, created the first time a student is merged. */
  const Empty := Buckets(0.0, 0.0, 0.0, [])

  /** `merge_student_metrics`: `None` is the `{}` a new student starts with. */
  function Merge(existing: Option<Buckets>, m: Metrics): Buckets {
    var b := existing.GetOr(Empty);
    Buckets(b.totWordCount + m.wordCount, b.weightedSentLen + Weigh(m.avgSentenceLength, m.wordCount),
      b.weightedComplexity + Weigh(m.sentenceComplexity, m.wordCount), b.readabilityList + [m.readability])
  }

  /** `asl * wc`, one term of a weighted sum. */
  function Weigh(x: real, w: real): real {
    x * w
  }

  /** The buckets after merging the documents in order. */
  function Accumulate(ms: seq<Metrics>): Option<Buckets> {
    if ms == [] then None else Some(Merge(Accumulate(ms[..|ms| - 1]), ms[|ms| - 1]))
  }

  // ---------------------------------------------------------------- finalize_student_metrics

  datatype Final = Final(totalWordCount: real, avgSentenceLength: real, sentenceComplexity: real, readabilityScore: real)

  /** `finalize_student_metrics`, without `round`: missing buckets read as 0 and `[]`. */
  function Finalize(accum: Option<Buckets>): (f: Final)
    ensures f.totalWordCount <= 0.0 ==> f.avgSentenceLength == 0.0 && f.sentenceComplexity == 0.0
    ensures accum.None? ==> f == Final(0.0, 0.0, 0.0, 0.0)
  {
    match accum
    case None => Final(0.0, 0.0, 0.0, 0.0)
    case Some(b) =>
      var wc := b.totWordCount;
      Final(wc, if wc > 0.0 then b.weightedSentLen / wc else 0.0, if wc > 0.0 then b.weightedComplexity / wc else 0.0,
        Mean(b.readabilityList))
  }

  // ---------------------------------------------------------------- the combining loop

  /** `combined[student]["docs"][doc_source]`. */
  datatype DocRecord = DocRecord(sectionsWritten: Json, wordCount: Json, avgSentenceLength: Json,
    sentenceComplexity: Json, readabilityScore: Json, rawText: Json)

  /** A student being combined: `docs` and `_accum`. */
  datatype Student = Student(docs: seq<(Json, DocRecord)>, accum: Option<Buckets>)

  /** A student of the result: exactly `docs` and `combined`. */
  datatype StudentOut = StudentOut(docs: seq<(Json, DocRecord)>, combined: Final)

  const NewStudent := Student([], None)

  function RecordOf(details: seq<(string, Json)>, metrics: seq<(string, Json)>): DocRecord {
    DocRecord(GetOr(details, "sections_written", JArr([])), GetOr(metrics, "word_count", JNum(0.0)),
      GetOr(metrics, "avg_sentence_length", JNum(0.0)), GetOr(metrics, "sentence_complexity", JNum(0.0)),
      GetOr(metrics, "readability_score", JNum(0.0)), GetOr(details, "raw_text", JStr("")))
  }

  /** Lists and dicts cannot be dict keys. */
  predicate Hashable(v: Json) {
    !v.JArr? && !v.JObj?
  }

  /** One student of one file: its document is stored under `doc_source` and its metrics merged. */
  function AddStudent(combined: seq<(string, Student)>, name: string, details: Json, docSource: Json): Result<seq<(string, Student)>> {
    if !details.JObj? then Err("AttributeError: details has no get")
    else
      var metrics := GetOr(details.fields, "metrics", JObj([]));
      if !metrics.JObj? then Err("AttributeError: metrics has no get")
      else if !Hashable(docSource) then Err("TypeError: unhashable doc_source")
      else match MetricsOf(metrics.fields)
        case None => Err("TypeError: non-numeric metric")
        case Some(m) =>
          var st := GetOr(combined, name, NewStudent);
          Ok(Put(combined, name, Student(Put(st.docs, docSource, RecordOf(details.fields, metrics.fields)), Some(Merge(st.accum, m)))))
  }

  function AddStudents(combined: seq<(string, Student)>, block: seq<(string, Json)>, docSource: Json): Result<seq<(string, Student)>> {
    if block == [] then Ok(combined)
    else
      var n := |block| - 1;
      match AddStudents(combined, block[..n], docSource)
      case Err(e) => Err(e)
      case Ok(c) => AddStudent(c, block[n].0, block[n].1, docSource)
  }

  /**
    One directory entry: its name, and its content when `json.load` succeeds.
    Names not ending in ".json" and unparseable files are skipped.
   */
  function AddFile(combined: seq<(string, Student)>, fname: string, content: Option<Json>): Result<seq<(string, Student)>> {
    if !EndsWith(fname, ".json") || content.None? then Ok(combined)
    else if !content.value.JObj? then Err("AttributeError: parsed has no get")
    else
      var parsed := content.value.fields;
      var block := GetOr(parsed, "students", JObj([]));
      if !block.JObj? then Err("AttributeError: students has no items")
      else AddStudents(combined, block.fields, GetOr(parsed, "source_file", JStr(fname)))
  }

  function AddFiles(files: seq<(string, Option<Json>)>): Result<seq<(string, Student)>> {
    if files == [] then Ok([])
    else
      var n := |files| - 1;
      match AddFiles(files[..n])
      case Err(e) => Err(e)
      case Ok(c) => AddFile(c, files[n].0, files[n].1)
  }

  function FinalizeAll(combined: seq<(string, Student)>): (r: seq<(string, StudentOut)>)
    ensures |r| == |combined|
    ensures forall i :: 0 <= i < |r| ==> r[i] == (combined[i].0, StudentOut(combined[i].1.docs, Finalize(combined[i].1.accum)))
  {
    seq(|combined|, i requires 0 <= i < |combined| => (combined[i].0, StudentOut(combined[i].1.docs, Finalize(combined[i].1.accum))))
  }

  /** The `students` of the result, in the order `os.listdir` gave the files, or the error raised. */
  function AnalyzeAllDocumentsOf(files: seq<(string, Option<Json>)>): Result<seq<(string, StudentOut)>> {
    match AddFiles(files)
    case Err(e) => Err(e)
    case Ok(c) => Ok(FinalizeAll(c))
  }

  // ---------------------------------------------------------------- the imperative loop

  method MergeBlock(combined0: seq<(string, Student)>, block: seq<(string, Json)>, docSource: Json)
    returns (r: Result<seq<(string, Student)>>)
    ensures r == AddStudents(combined0, block, docSource)
  {
    var combined := combined0;
    for i := 0 to |block|
      invariant AddStudents(combined0, block[..i], docSource) == Ok(combined)
    {
      assert block[..i + 1][..i] == block[..i];
      var (studentName, details) := block[i];
      var step := AddStudent(combined, studentName, details, docSource);
      if step.Err? {
        r := step;
        AddStudentsErr(combined0, block, docSource, i + 1);
        return;
      }
      combined := step.value;
    }
    assert block[..|block|] == block;
    r := Ok(combined);
  }

  /** An error part-way through stays the result. */
  lemma {:induction false} AddStudentsErr(combined: seq<(string, Student)>, block: seq<(string, Json)>, docSource: Json, k: nat)
    requires k <= |block| && AddStudents(combined, block[..k], docSource).Err?
    ensures AddStudents(combined, block, docSource) == AddStudents(combined, block[..k], docSource)
    decreases |block| - k
  {
    if k < |block| {
      assert block[..k + 1][..k] == block[..k];
      AddStudentsErr(combined, block, docSource, k + 1);
    } else {
      assert block[..k] == block;
    }
  }

  lemma {:induction false} AddFilesErr(files: seq<(string, Option<Json>)>, k: nat)
    requires k <= |files| && AddFiles(files[..k]).Err?
    ensures AddFiles(files) == AddFiles(files[..k])
    decreases |files| - k
  {
    if k < |files| {
      assert files[..k + 1][..k] == files[..k];
      AddFilesErr(files, k + 1);
    } else {
      assert files[..k] == files;
    }
  }

  /** One file of the loop: the skips, the raising reads, and the students' merge. */
  method MergeFile(combined: seq<(string, Student)>, fname: string, content: Option<Json>) returns (r: Result<seq<(string, Student)>>)
    ensures r == AddFile(combined, fname, content)
  {
    if !EndsWith(fname, ".json") || content.None? {
      return Ok(combined);
    }
    var parsed := content.value;
    if !parsed.JObj? {
      return Err("AttributeError: parsed has no get");
    }
    var docSource := GetOr(parsed.fields, "source_file", JStr(fname));
    var block := GetOr(parsed.fields, "students", JObj([]));
    if !block.JObj? {
      return Err("AttributeError: students has no items");
    }
    r := MergeBlock(combined, block.fields, docSource);
  }

  /** The `for fname in os.listdir(data_dir)` loop. */
  method MergeFiles(files: seq<(string, Option<Json>)>) returns (r: Result<seq<(string, Student)>>)
    ensures r == AddFiles(files)
  {
    var combined: seq<(string, Student)> := [];
    for i := 0 to |files|
      invariant AddFiles(files[..i]) == Ok(combined)
    {
      assert files[..i + 1][..i] == files[..i];
      var step := MergeFile(combined, files[i].0, files[i].1);
      if step.Err? {
        AddFilesErr(files, i + 1);
        return step;
      }
      combined := step.value;
    }
    assert files[..|files|] == files;
    r := Ok(combined);
  }

  method AnalyzeAllDocuments(files: seq<(string, Option<Json>)>) returns (r: Result<seq<(string, StudentOut)>>)
    ensures r == AnalyzeAllDocumentsOf(files)
  {
    var merged := MergeFiles(files);
    if merged.Err? {
      return Err(merged.msg);
    }
    var combined := merged.value;
    var students: seq<(string, StudentOut)> := [];
    for i := 0 to |combined|
      invariant |students| == i
      invariant forall j :: 0 <= j < i ==> students[j] == (combined[j].0, StudentOut(combined[j].1.docs, Finalize(combined[j].1.accum)))
    {
      students := students + [(combined[i].0, StudentOut(combined[i].1.docs, Finalize(combined[i].1.accum)))];
    }
    assert students == FinalizeAll(combined);
    r := Ok(students);
  }

  // ---------------------------------------------------------------- properties

  function WordCounts(ms: seq<Metrics>): (r: seq<real>)
    ensures |r| == |ms|
  {
    seq(|ms|, i requires 0 <= i < |ms| => ms[i].wordCount)
  }

  function SentenceLengths(ms: seq<Metrics>): (r: seq<real>)
    ensures |r| == |ms|
  {
    seq(|ms|, i requires 0 <= i < |ms| => ms[i].avgSentenceLength)
  }

  function Complexities(ms: seq<Metrics>): (r: seq<real>)
    ensures |r| == |ms|
  {
    seq(|ms|, i requires 0 <= i < |ms| => ms[i].sentenceComplexity)
  }

  function Readabilities(ms: seq<Metrics>): (r: seq<real>)
    ensures |r| == |ms|
  {
    seq(|ms|, i requires 0 <= i < |ms| => ms[i].readability)
  }

  /** The element-wise products `xs[i] * ws[i]`. */
  function Weighted(xs: seq<real>, ws: seq<real>): (r: seq<real>)
    requires |xs| == |ws|
    ensures |r| == |xs|
  {
    seq(|xs|, i requires 0 <= i < |xs| => Weigh(xs[i], ws[i]))
  }

  /** Merging a new student initialises its buckets to zero first; later merges add to what is there. */
  lemma {:induction false} MergeInitialisesOnce(m: Metrics, b: Buckets)
    ensures Merge(None, m) == Merge(Some(Empty), m)
    ensures Merge(Some(b), m).readabilityList == b.readabilityList + [m.readability]
    ensures Merge(Some(b), m).totWordCount == b.totWordCount + m.wordCount
  {
  }

  /**
    After merging documents in order: the total is the sum of their word
    counts, the numerators are the word-count-weighted sums, and the
    readabilities are listed in merge order.
   */
  lemma {:induction false} AccumulateSums(ms: seq<Metrics>)
    requires ms != []
    ensures Accumulate(ms) == Some(Buckets(Sum(WordCounts(ms)), Sum(Weighted(SentenceLengths(ms), WordCounts(ms))),
      Sum(Weighted(Complexities(ms), WordCounts(ms))), Readabilities(ms)))
  {
    var n := |ms| - 1;
    var pre := ms[..n];
    assert WordCounts(ms)[..n] == WordCounts(pre);
    assert Weighted(SentenceLengths(ms), WordCounts(ms))[..n] == Weighted(SentenceLengths(pre), WordCounts(pre));
    assert Weighted(Complexities(ms), WordCounts(ms))[..n] == Weighted(Complexities(pre), WordCounts(pre));
    assert Readabilities(ms) == Readabilities(pre) + [ms[n].readability];
    if n > 0 {
      AccumulateSums(pre);
    } else {
      assert WordCounts(pre) == [] && Readabilities(pre) == [];
      assert Weighted(SentenceLengths(pre), WordCounts(pre)) == [];
      assert Weighted(Complexities(pre), WordCounts(pre)) == [];
    }
  }

  lemma {:induction false} MulBetween(x: real, w: real, lo: real, hi: real)
    requires w >= 0.0 && (w > 0.0 ==> lo <= x <= hi)
    ensures Weigh(lo, w) <= Weigh(x, w) <= Weigh(hi, w)
  {
    if w > 0.0 {
      var d, e := x - lo, hi - x;
      assert d * w >= 0.0 && e * w >= 0.0;
      assert x * w - lo * w == d * w;
      assert hi * w - x * w == e * w;
    }
  }

  /** `|ws|` copies of `a`. */
  function Repeat(a: real, n: nat): (r: seq<real>)
    ensures |r| == n
  {
    seq(n, i requires 0 <= i < n => a)
  }

  /** Weighting a constant scales the total weight. */
  lemma {:induction false} SumScaled(a: real, ws: seq<real>)
    ensures Sum(Weighted(Repeat(a, |ws|), ws)) == Weigh(a, Sum(ws))
  {
    if ws != [] {
      var n := |ws| - 1;
      assert Weighted(Repeat(a, |ws|), ws)[..n] == Weighted(Repeat(a, n), ws[..n]);
      SumScaled(a, ws[..n]);
      assert a * Sum(ws) == a * Sum(ws[..n]) + a * ws[n];
    }
  }

  /** With non-negative weights, a weighted sum lies between `lo` and `hi` times the total weight. */
  lemma {:induction false} WeightedSumBetween(xs: seq<real>, ws: seq<real>, lo: real, hi: real)
    requires |xs| == |ws|
    requires forall i :: 0 <= i < |ws| ==> ws[i] >= 0.0 && (ws[i] > 0.0 ==> lo <= xs[i] <= hi)
    ensures Weigh(lo, Sum(ws)) <= Sum(Weighted(xs, ws)) <= Weigh(hi, Sum(ws))
  {
    var low, high := Weighted(Repeat(lo, |ws|), ws), Weighted(Repeat(hi, |ws|), ws);
    forall i | 0 <= i < |ws|
      ensures low[i] <= Weighted(xs, ws)[i] <= high[i]
    {
      MulBetween(xs[i], ws[i], lo, hi);
    }
    SumMonotone(low, Weighted(xs, ws));
    SumMonotone(Weighted(xs, ws), high);
    SumScaled(lo, ws);
    SumScaled(hi, ws);
  }

  /**
    The finalised sentence length and complexity are word-count-weighted means:
    they lie between any bounds of the documents with a positive word count.
   */
  lemma {:induction false} WeightedMeansBetween(ms: seq<Metrics>, lo: real, hi: real, lo': real, hi': real)
    requires ms != []
    requires forall i :: 0 <= i < |ms| ==> ms[i].wordCount >= 0.0
    requires forall i :: 0 <= i < |ms| && ms[i].wordCount > 0.0 ==>
      lo <= ms[i].avgSentenceLength <= hi && lo' <= ms[i].sentenceComplexity <= hi'
    requires Sum(WordCounts(ms)) > 0.0
    ensures lo <= Finalize(Accumulate(ms)).avgSentenceLength <= hi
    ensures lo' <= Finalize(Accumulate(ms)).sentenceComplexity <= hi'
  {
    var ws := WordCounts(ms);
    var total := Sum(ws);
    var sl := Sum(Weighted(SentenceLengths(ms), ws));
    var sc := Sum(Weighted(Complexities(ms), ws));
    assert lo <= sl / total <= hi by {
      WeightedSumBetween(SentenceLengths(ms), ws, lo, hi);
      QuotientBetween(sl, total, lo, hi);
    }
    assert lo' <= sc / total <= hi' by {
      WeightedSumBetween(Complexities(ms), ws, lo', hi');
      QuotientBetween(sc, total, lo', hi');
    }
    assert Accumulate(ms) == Some(Buckets(total, sl, sc, Readabilities(ms))) by {
      AccumulateSums(ms);
    }
  }

  lemma {:induction false} QuotientBetween(s: real, n: real, lo: real, hi: real)
    requires n > 0.0 && Weigh(lo, n) <= s <= Weigh(hi, n)
    ensures lo <= s / n <= hi
  {
    DivideBetween(s, n, lo, hi);
  }

  /** Readability is the plain mean over the merged documents; with no word at all the weighted means are 0. */
  lemma {:induction false} FinalizedMeans(ms: seq<Metrics>)
    requires ms != []
    ensures Finalize(Accumulate(ms)).totalWordCount == Sum(WordCounts(ms))
    ensures Finalize(Accumulate(ms)).readabilityScore == Mean(Readabilities(ms))
    ensures Sum(WordCounts(ms)) <= 0.0 ==>
      Finalize(Accumulate(ms)).avgSentenceLength == 0.0 && Finalize(Accumulate(ms)).sentenceComplexity == 0.0
  {
    AccumulateSums(ms);
  }

  /** A document without words leaves both weighted means as they were but still adds a readability. */
  lemma {:induction false} ZeroWordDoc(b: Buckets, m: Metrics)
    requires m.wordCount == 0.0
    ensures Finalize(Some(Merge(Some(b), m))).avgSentenceLength == Finalize(Some(b)).avgSentenceLength
    ensures Finalize(Some(Merge(Some(b), m))).sentenceComplexity == Finalize(Some(b)).sentenceComplexity
    ensures Merge(Some(b), m).readabilityList == b.readabilityList + [m.readability]
  {
  }

  /**
    A second file with the same `doc_source` for a student replaces that
    document's record but is merged into the buckets again.
   */
  lemma {:induction false} RepeatedSource(combined: seq<(string, Student)>, name: string, d1: Json, d2: Json, src: Json)
    requires AddStudent(combined, name, d1, src).Ok?
    requires AddStudent(AddStudent(combined, name, d1, src).value, name, d2, src).Ok?
    ensures var c1 := AddStudent(combined, name, d1, src).value;
      var c2 := AddStudent(c1, name, d2, src).value;
      var s1 := GetOr(c1, name, NewStudent);
      var s2 := GetOr(c2, name, NewStudent);
      |s2.docs| == |s1.docs| &&
      Get(s2.docs, src) == Some(RecordOf(d2.fields, GetOr(d2.fields, "metrics", JObj([])).fields)) &&
      s2.accum == Some(Merge(s1.accum, MetricsOf(GetOr(d2.fields, "metrics", JObj([])).fields).value)) &&
      s1.accum.Some?
  {
    var c1 := AddStudent(combined, name, d1, src).value;
    var s0 := GetOr(combined, name, NewStudent);
    var s1 := GetOr(c1, name, NewStudent);
    var r1 := RecordOf(d1.fields, GetOr(d1.fields, "metrics", JObj([])).fields);
    var m1 := MetricsOf(GetOr(d1.fields, "metrics", JObj([])).fields).value;
    assert s1 == Student(Put(s0.docs, src, r1), Some(Merge(s0.accum, m1))) by {
      GetOrPut(combined, name, Student(Put(s0.docs, src, r1), Some(Merge(s0.accum, m1))), name, NewStudent);
    }
    assert HasKey(s1.docs, src) by {
      PutHasKey(s0.docs, src, r1, src);
    }
    var c2 := AddStudent(c1, name, d2, src).value;
    var r2 := RecordOf(d2.fields, GetOr(d2.fields, "metrics", JObj([])).fields);
    var m2 := MetricsOf(GetOr(d2.fields, "metrics", JObj([])).fields).value;
    assert GetOr(c2, name, NewStudent) == Student(Put(s1.docs, src, r2), Some(Merge(s1.accum, m2))) by {
      GetOrPut(c1, name, Student(Put(s1.docs, src, r2), Some(Merge(s1.accum, m2))), name, NewStudent);
    }
    PutSpec(s1.docs, src, r2);
  }

  /** Each student appears once in the result. */
  lemma {:induction false} AddFilesDistinct(files: seq<(string, Option<Json>)>)
    requires AddFiles(files).Ok?
    ensures Distinct(AddFiles(files).value)
  {
    if files != [] {
      var n := |files| - 1;
      AddFilesDistinct(files[..n]);
      var c := AddFiles(files[..n]).value;
      var (fname, content) := files[n];
      if EndsWith(fname, ".json") && content.Some? {
        var parsed := content.value.fields;
        var block := GetOr(parsed, "students", JObj([]));
        AddStudentsDistinct(c, block.fields, GetOr(parsed, "source_file", JStr(fname)));
      }
    }
  }

  lemma {:induction false} AddStudentsDistinct(combined: seq<(string, Student)>, block: seq<(string, Json)>, src: Json)
    requires Distinct(combined)
    requires AddStudents(combined, block, src).Ok?
    ensures Distinct(AddStudents(combined, block, src).value)
  {
    if block != [] {
      var n := |block| - 1;
      AddStudentsDistinct(combined, block[..n], src);
      var c := AddStudents(combined, block[..n], src).value;
      var (name, details) := block[n];
      var metrics := GetOr(details.fields, "metrics", JObj([]));
      var st := GetOr(c, name, NewStudent);
      PutDistinct(c, name, Student(Put(st.docs, src, RecordOf(details.fields, metrics.fields)),
        Some(Merge(st.accum, MetricsOf(metrics.fields).value))));
    }
  }

  // ---------------------------------------------------------------- what each student's buckets hold

  /** The metrics one `students` entry merges, when its reads succeed. */
  function MetricsFor(details: Json): seq<Metrics> {
    if !details.JObj? then []
    else
      var metrics := GetOr(details.fields, "metrics", JObj([]));
      if !metrics.JObj? then []
      else match MetricsOf(metrics.fields)
        case None => []
        case Some(m) => [m]
  }

  /** The metrics a `students` block merges for `name`, in block order. */
  function BlockMetrics(block: seq<(string, Json)>, name: string): seq<Metrics> {
    if block == [] then []
    else
      var n := |block| - 1;
      BlockMetrics(block[..n], name) + if block[n].0 == name then MetricsFor(block[n].1) else []
  }

  /** The metrics one directory entry merges for `name`. */
  function FileMetrics(fname: string, content: Option<Json>, name: string): seq<Metrics> {
    if !EndsWith(fname, ".json") || content.None? || !content.value.JObj? then []
    else
      var block := GetOr(content.value.fields, "students", JObj([]));
      if !block.JObj? then [] else BlockMetrics(block.fields, name)
  }

  /** The metrics merged for `name` over all the directory entries, in `os.listdir` order. */
  function FilesMetrics(files: seq<(string, Option<Json>)>, name: string): seq<Metrics> {
    if files == [] then []
    else
      var n := |files| - 1;
      FilesMetrics(files[..n], name) + FileMetrics(files[n].0, files[n].1, name)
  }

  lemma {:induction false} AccumulateSnoc(ms: seq<Metrics>, m: Metrics)
    ensures Accumulate(ms + [m]) == Some(Merge(Accumulate(ms), m))
  {
    assert (ms + [m])[..|ms|] == ms;
  }

  /**
    Merging a block extends each student's buckets by the metrics the block
    credits to them, in order; a student is present afterwards iff they were
    before or the block credits them.
   */
  lemma {:induction false} AddStudentsAccum(combined: seq<(string, Student)>, block: seq<(string, Json)>, src: Json,
                                            name: string, prior: seq<Metrics>)
    requires AddStudents(combined, block, src).Ok?
    requires GetOr(combined, name, NewStudent).accum == Accumulate(prior)
    ensures GetOr(AddStudents(combined, block, src).value, name, NewStudent).accum == Accumulate(prior + BlockMetrics(block, name))
    ensures HasKey(AddStudents(combined, block, src).value, name) <==> HasKey(combined, name) || BlockMetrics(block, name) != []
  {
    if block == [] {
      assert prior + [] == prior;
    } else {
      var n := |block| - 1;
      AddStudentsAccum(combined, block[..n], src, name, prior);
      var c := AddStudents(combined, block[..n], src).value;
      var before := prior + BlockMetrics(block[..n], name);
      var (who, details) := block[n];
      assert AddStudents(combined, block, src) == AddStudent(c, who, details, src);
      AddStudentAccum(c, who, details, src, name, before);
      var tail := if who == name then MetricsFor(details) else [];
      assert BlockMetrics(block, name) == BlockMetrics(block[..n], name) + tail;
      assert prior + BlockMetrics(block, name) == before + tail;
      assert BlockMetrics(block, name) != [] <==> BlockMetrics(block[..n], name) != [] || who == name;
    }
  }

  /** One student of a block extends their own buckets by that entry's metrics and leaves the others alone. */
  lemma {:induction false} AddStudentAccum(c: seq<(string, Student)>, who: string, details: Json, src: Json,
                                           name: string, before: seq<Metrics>)
    requires AddStudent(c, who, details, src).Ok?
    requires GetOr(c, name, NewStudent).accum == Accumulate(before)
    ensures who == name ==> MetricsFor(details) != []
    ensures GetOr(AddStudent(c, who, details, src).value, name, NewStudent).accum ==
      Accumulate(before + if who == name then MetricsFor(details) else [])
    ensures HasKey(AddStudent(c, who, details, src).value, name) <==> HasKey(c, name) || who == name
  {
    var metrics := GetOr(details.fields, "metrics", JObj([]));
    var m := MetricsOf(metrics.fields).value;
    var st := GetOr(c, who, NewStudent);
    var v := Student(Put(st.docs, src, RecordOf(details.fields, metrics.fields)), Some(Merge(st.accum, m)));
    assert AddStudent(c, who, details, src).value == Put(c, who, v);
    GetOrPut(c, who, v, name, NewStudent);
    PutHasKey(c, who, v, name);
    if who == name {
      assert MetricsFor(details) == [m];
      AccumulateSnoc(before, m);
    } else {
      assert before + [] == before;
    }
  }

  /**
    In a successful run, each student's `_accum` is the accumulation of the
    metrics merged for them over all files, in file order, and a student is
    present iff some file credits them.
   */
  lemma {:induction false} AddFilesAccum(files: seq<(string, Option<Json>)>, name: string)
    requires AddFiles(files).Ok?
    ensures GetOr(AddFiles(files).value, name, NewStudent).accum == Accumulate(FilesMetrics(files, name))
    ensures HasKey(AddFiles(files).value, name) <==> FilesMetrics(files, name) != []
  {
    if files != [] {
      var n := |files| - 1;
      var pre := files[..n];
      assert AddFiles(pre).Ok?;
      AddFilesAccum(pre, name);
      var c := AddFiles(pre).value;
      assert AddFiles(files) == AddFile(c, files[n].0, files[n].1);
      assert FilesMetrics(files, name) == FilesMetrics(pre, name) + FileMetrics(files[n].0, files[n].1, name);
      AddFileAccum(c, files[n].0, files[n].1, name, FilesMetrics(pre, name));
    }
  }

  /** One directory entry extends each student's buckets by the metrics it credits to them. */
  lemma {:induction false} AddFileAccum(c: seq<(string, Student)>, fname: string, content: Option<Json>,
                                        name: string, prior: seq<Metrics>)
    requires AddFile(c, fname, content).Ok?
    requires GetOr(c, name, NewStudent).accum == Accumulate(prior)
    requires HasKey(c, name) <==> prior != []
    ensures GetOr(AddFile(c, fname, content).value, name, NewStudent).accum == Accumulate(prior + FileMetrics(fname, content, name))
    ensures HasKey(AddFile(c, fname, content).value, name) <==> prior + FileMetrics(fname, content, name) != []
  {
    if !EndsWith(fname, ".json") || content.None? {
      assert prior + FileMetrics(fname, content, name) == prior;
    } else {
      var parsed := content.value.fields;
      var block := GetOr(parsed, "students", JObj([]));
      var src := GetOr(parsed, "source_file", JStr(fname));
      assert AddFile(c, fname, content) == AddStudents(c, block.fields, src);
      assert FileMetrics(fname, content, name) == BlockMetrics(block.fields, name);
      AddStudentsAccum(c, block.fields, src, name, prior);
    }
  }

  /**
    What `analyze_all_documents` reports for each student: the total word
    count is the sum over the documents merged for them, readability is the
    plain mean, and the finalised means are those of `Accumulate` over those
    documents, so the weighted-mean bounds apply to the output.
   */
  lemma {:induction false} AnalyzedStudent(files: seq<(string, Option<Json>)>, i: int)
    requires AnalyzeAllDocumentsOf(files).Ok? && 0 <= i < |AnalyzeAllDocumentsOf(files).value|
    ensures var r := AnalyzeAllDocumentsOf(files).value;
      var ms := FilesMetrics(files, r[i].0);
      && ms != []
      && r[i].1.combined == Finalize(Accumulate(ms))
      && r[i].1.combined.totalWordCount == Sum(WordCounts(ms))
      && r[i].1.combined.readabilityScore == Mean(Readabilities(ms))
  {
    var c := AddFiles(files).value;
    var name := c[i].0;
    AddFilesDistinct(files);
    GetDistinct(c, i);
    assert HasKey(c, name) by {
      assert (name, c[i].1) in c;
    }
    AddFilesAccum(files, name);
    FinalizedMeans(FilesMetrics(files, name));
  }

  /** A file whose top-level value is not an object makes `parsed.get` raise; skipped names change nothing. */
  lemma {:induction false} FileOutcomes(combined: seq<(string, Student)>, fname: string, content: Option<Json>)
    ensures !EndsWith(fname, ".json") || content.None? ==> AddFile(combined, fname, content) == Ok(combined)
    ensures EndsWith(fname, ".json") && content.Some? && !content.value.JObj? ==> AddFile(combined, fname, content).Err?
  {
  }
}
