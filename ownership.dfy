/**
  Code-ownership metrics of backend/main.py: which paths the repository walk
  skips, how `git blame --line-porcelain` output credits lines to authors,
  per-function ownership by largest line share, hotspots above the mean
  cyclomatic complexity, and the share of all blamed lines per author.

  Lizard, git and the file system are inputs: each function comes with its
  start and end lines, its complexity and the blame output of its line range
  (none when blame failed), and each file with its path and blame output.
 */
module Ownership {
  import opened Wrappers
  import opened Strings
  import opened Reals
  import opened AssocList

  // ---------------------------------------------------------------- should_skip_path

  /** `EXCLUDED_DIRS`. */
  const ExcludedDirs: set<string> :=
    {"node_modules", "venv", "__pycache__", ".git", "dist", "build", ".idea", ".vscode", ".next", "coverage", "out", "target"}

  /** `path.replace("\\", "/").split("/")`. */
  function Segments(path: string): seq<string> {
    SplitAny(ReplaceChar(path, '\\', '/'), {'/'})
  }

  function AnyExcluded(segs: seq<string>): (b: bool)
    ensures b <==> exists k :: 0 <= k < |segs| && segs[k] in ExcludedDirs
  {
    if segs == [] then false
    else if segs[0] in ExcludedDirs then true
    else
      assert forall k :: 1 <= k < |segs| ==> segs[k] == segs[1..][k - 1];
      AnyExcluded(segs[1..])
  }

  /**
    The `should_skip_path` in force: the second definition replaces the first,
    so a path is skipped exactly when one of its segments is an excluded directory.
   */
  function ShouldSkipPath(path: string): (skip: bool)
    ensures skip <==> exists k :: 0 <= k < |Segments(path)| && Segments(path)[k] in ExcludedDirs
  {
    AnyExcluded(Segments(path))
  }

  /** A plain path segment: no separator of either kind. */
  predicate PlainSegment(d: string) {
    forall i :: 0 <= i < |d| ==> d[i] != '/' && d[i] != '\\'
  }

  lemma {:induction false} ExcludedArePlain()
    ensures forall d :: d in ExcludedDirs ==> PlainSegment(d)
  {
  }

  lemma {:induction false} ReplacePlain(d: string)
    requires PlainSegment(d)
    ensures ReplaceChar(d, '\\', '/') == d
  {
  }

  /**
    Every path that runs through an excluded directory is skipped, wherever that
    directory sits; this includes the checkout folder itself, whose absolute path
    the walk passes in.
   */
  lemma {:induction false} SkipThroughExcluded(prefix: string, d: string, rest: string)
    requires d in ExcludedDirs
    ensures ShouldSkipPath(prefix + "/" + d + "/" + rest)
  {
    ExcludedArePlain();
    var path := prefix + "/" + d + "/" + rest;
    assert path == prefix + ['/'] + (d + ['/'] + rest);
    ReplaceCharConcat(prefix, ['/'], '\\', '/');
    ReplaceCharConcat(prefix + ['/'], d + ['/'] + rest, '\\', '/');
    ReplaceCharConcat(d, ['/'] + rest, '\\', '/');
    ReplaceCharConcat(['/'], rest, '\\', '/');
    ReplacePlain(d);
    var p', r' := ReplaceChar(prefix, '\\', '/'), ReplaceChar(rest, '\\', '/');
    assert ReplaceChar(path, '\\', '/') == p' + ['/'] + (d + ['/'] + r');
    SplitAnyConcat(p', '/', d + ['/'] + r', {'/'});
    SplitAnyConcat(d, '/', r', {'/'});
    SplitAnyNone(d, {'/'});
    var segs := Segments(path);
    assert segs == SplitAny(p', {'/'}) + ([d] + SplitAny(r', {'/'}));
    assert segs[|SplitAny(p', {'/'})|] == d;
  }

  /** `"/".join(segs)`. */
  function JoinPath(segs: seq<string>): string {
    Join(segs, "/")
  }

  lemma {:induction false} SegmentsOfJoin(segs: seq<string>)
    requires |segs| > 0 && forall k :: 0 <= k < |segs| ==> PlainSegment(segs[k])
    ensures Segments(JoinPath(segs)) == segs
  {
    if |segs| == 1 {
      ReplacePlain(segs[0]);
      SplitAnyNone(segs[0], {'/'});
    } else {
      var rest := segs[1..];
      SegmentsOfJoin(rest);
      var tail := JoinPath(rest);
      var t' := ReplaceChar(tail, '\\', '/');
      assert JoinPath(segs) == segs[0] + ['/'] + tail;
      ReplaceCharConcat(segs[0] + ['/'], tail, '\\', '/');
      ReplaceCharConcat(segs[0], ['/'], '\\', '/');
      ReplacePlain(segs[0]);
      assert ReplaceChar(JoinPath(segs), '\\', '/') == segs[0] + ['/'] + t';
      SplitAnyConcat(segs[0], '/', t', {'/'});
      SplitAnyNone(segs[0], {'/'});
      assert Segments(tail) == SplitAny(t', {'/'}) == rest;
      assert Segments(JoinPath(segs)) == [segs[0]] + rest;
    }
  }

  /**
    Extension, name, size and line-count rules are never applied: a path none of
    whose segments is an excluded directory is kept, whatever its file name
    (a minified bundle, a `.map`, an `.html` file).
   */
  lemma {:induction false} KeptWithoutExcludedSegment(segs: seq<string>)
    requires |segs| > 0
    requires forall k :: 0 <= k < |segs| ==> PlainSegment(segs[k]) && segs[k] !in ExcludedDirs
    ensures !ShouldSkipPath(JoinPath(segs))
  {
    SegmentsOfJoin(segs);
  }

  // ---------------------------------------------------------------- blame attribution

  /** A `--line-porcelain` header naming the author of the line that follows. */
  predicate IsAuthorHeader(line: string) {
    StartsWith(line, "author ")
  }

  /** A content line of the porcelain output, which starts with a tab. */
  predicate IsContentLine(line: string) {
    StartsWith(line, "\t")
  }

  /** `line[7:].strip()`. */
  function HeaderAuthor(line: string): string
    requires IsAuthorHeader(line)
  {
    Trim(line[7..])
  }

  /** `currentAuthor` ("" when there is none yet: `None` and "" are both falsy) and `linesInFunction`. */
  datatype BlameState = BlameState(current: string, counts: seq<(string, nat)>)

  /** `d[k] += 1` on a `defaultdict(int)`. */
  function Incr(m: seq<(string, nat)>, k: string): seq<(string, nat)> {
    Put(m, k, GetOr(m, k, 0) + 1)
  }

  function BlameStep(st: BlameState, line: string): BlameState {
    if IsAuthorHeader(line) then st.(current := HeaderAuthor(line))
    else if IsContentLine(line) && st.current != "" then st.(counts := Incr(st.counts, st.current))
    else st
  }

  /** The loop over `blameOutput.splitlines()`, from state `st`. */
  function BlameFrom(st: BlameState, lines: seq<string>): BlameState {
    if lines == [] then st
    else
      var n := |lines| - 1;
      BlameStep(BlameFrom(st, lines[..n]), lines[n])
  }

  const NoBlame := BlameState("", [])

  /** The per-author line counts of one blame output. */
  function BlameCounts(lines: seq<string>): seq<(string, nat)> {
    BlameFrom(NoBlame, lines).counts
  }

  /** Counting the lines of one function's blame output. */
  method CountBlameLines(lines: seq<string>) returns (counts: seq<(string, nat)>)
    ensures counts == BlameCounts(lines)
  {
    var current := "";
    counts := [];
    var i := 0;
    while i < |lines|
      invariant 0 <= i <= |lines|
      invariant BlameState(current, counts) == BlameFrom(NoBlame, lines[..i])
    {
      BlameFromSnoc(lines, i);
      var line := lines[i];
      if IsAuthorHeader(line) {
        current := HeaderAuthor(line);
      } else if IsContentLine(line) && current != "" {
        counts := Incr(counts, current);
      }
      i := i + 1;
    }
    assert lines[..i] == lines;
  }

  lemma BlameFromSnoc(lines: seq<string>, i: nat)
    requires i < |lines|
    ensures BlameFrom(NoBlame, lines[..i + 1]) == BlameStep(BlameFrom(NoBlame, lines[..i]), lines[i])
  {
    assert lines[..i + 1][..i] == lines[..i];
  }

  /** The author named by the last header among `lines`, or "" before any header. */
  function LastAuthor(lines: seq<string>): string {
    if lines == [] then ""
    else
      var n := |lines| - 1;
      if IsAuthorHeader(lines[n]) then HeaderAuthor(lines[n]) else LastAuthor(lines[..n])
  }

  /** The number of content lines whose latest preceding header names `a`. */
  function CreditedTo(lines: seq<string>, a: string): nat {
    if lines == [] then 0
    else
      var n := |lines| - 1;
      CreditedTo(lines[..n], a) + if IsContentLine(lines[n]) && LastAuthor(lines[..n]) == a then 1 else 0
  }

  lemma {:induction false} IncrGet(m: seq<(string, nat)>, k: string, k': string)
    ensures GetOr(Incr(m, k), k', 0) == GetOr(m, k', 0) + if k' == k then 1 else 0
  {
    GetOrPut(m, k, GetOr(m, k, 0) + 1, k', 0);
  }

  /**
    Each tab-prefixed line is credited to the author of the most recent header;
    content lines before any header, or under an empty author name, are credited
    to nobody.
   */
  lemma {:induction false} BlameCountsCredit(lines: seq<string>, a: string)
    ensures GetOr(BlameCounts(lines), a, 0) == if a == "" then 0 else CreditedTo(lines, a)
  {
    if lines != [] {
      var n := |lines| - 1;
      var pre, line := lines[..n], lines[n];
      BlameCountsCredit(pre, a);
      CurrentIsLastAuthor(pre);
      var st := BlameFrom(NoBlame, pre);
      assert BlameFrom(NoBlame, lines) == BlameStep(st, line);
      assert CreditedTo(lines, a) == CreditedTo(pre, a) + if IsContentLine(line) && LastAuthor(pre) == a then 1 else 0;
      if IsAuthorHeader(line) {
        HeaderIsNotContent(line);
      } else if IsContentLine(line) && st.current != "" {
        IncrGet(st.counts, st.current, a);
      }
    }
  }

  /** `currentAuthor` is the author of the latest header. */
  lemma {:induction false} CurrentIsLastAuthor(lines: seq<string>)
    ensures BlameFrom(NoBlame, lines).current == LastAuthor(lines)
  {
    if lines != [] {
      CurrentIsLastAuthor(lines[..|lines| - 1]);
    }
  }

  lemma {:induction false} HeaderIsNotContent(line: string)
    requires IsAuthorHeader(line)
    ensures !IsContentLine(line)
  {
    assert line[0] == 'a';
  }

  lemma {:induction false} BlameFromAppend(st: BlameState, p: seq<string>, q: seq<string>)
    ensures BlameFrom(st, p + q) == BlameFrom(BlameFrom(st, p), q)
  {
    if q == [] {
      assert p + q == p;
    } else {
      var n := |q| - 1;
      BlameFromAppend(st, p, q[..n]);
      assert (p + q)[..|p + q| - 1] == p + q[..n];
    }
  }

  lemma {:induction false} NoHeadersChangeNothing(p: seq<string>)
    requires forall i :: 0 <= i < |p| ==> !IsAuthorHeader(p[i])
    ensures BlameFrom(NoBlame, p) == NoBlame
  {
    if p != [] {
      NoHeadersChangeNothing(p[..|p| - 1]);
    }
  }

  /** Output lines before the first header are ignored. */
  lemma {:induction false} LinesBeforeHeaderIgnored(p: seq<string>, q: seq<string>)
    requires forall i :: 0 <= i < |p| ==> !IsAuthorHeader(p[i])
    ensures BlameCounts(p + q) == BlameCounts(q)
  {
    BlameFromAppend(NoBlame, p, q);
    NoHeadersChangeNothing(p);
  }

  /** Every author in the counts has at least one line, and each appears once. */
  predicate CountsOk(counts: seq<(string, nat)>) {
    Distinct(counts) && forall i :: 0 <= i < |counts| ==> counts[i].1 >= 1
  }

  lemma {:induction false} IncrOk(m: seq<(string, nat)>, k: string)
    requires CountsOk(m)
    ensures CountsOk(Incr(m, k))
  {
    var v := GetOr(m, k, 0) + 1;
    PutDistinct(m, k, v);
    var i := IndexOfKey(m, k);
    if i != -1 {
      assert Incr(m, k) == m[i := (k, v)];
    }
  }

  lemma {:induction false} BlameCountsOk(lines: seq<string>)
    ensures CountsOk(BlameCounts(lines))
  {
    if lines != [] {
      var n := |lines| - 1;
      BlameCountsOk(lines[..n]);
      var st := BlameFrom(NoBlame, lines[..n]);
      if !IsAuthorHeader(lines[n]) && IsContentLine(lines[n]) && st.current != "" {
        IncrOk(st.counts, st.current);
      }
    }
  }

  // ---------------------------------------------------------------- one function

  /** `sum(d.values())` of line counts. */
  function TotalLines(counts: seq<(string, nat)>): nat {
    if counts == [] then 0 else TotalLines(counts[..|counts| - 1]) + counts[|counts| - 1].1
  }

  lemma {:induction false} TotalLinesPositive(counts: seq<(string, nat)>)
    requires CountsOk(counts)
    ensures TotalLines(counts) == 0 <==> counts == []
  {
    if counts != [] {
      assert counts[|counts| - 1].1 >= 1;
    }
  }

  /** `max(d.values())`. */
  function MaxLines(counts: seq<(string, nat)>): (m: nat)
    requires counts != []
    ensures exists i :: 0 <= i < |counts| && counts[i].1 == m
    ensures forall i :: 0 <= i < |counts| ==> counts[i].1 <= m
  {
    var n := |counts| - 1;
    if n == 0 then counts[0].1
    else
      var m := MaxLines(counts[..n]);
      assert forall i :: 0 <= i < n ==> counts[i] == counts[..n][i];
      if counts[n].1 > m then counts[n].1 else m
  }

  /** `[a for a, n in d.items() if n == maxLines]`. */
  function Owners(counts: seq<(string, nat)>, maxLines: nat): (owners: seq<string>)
    ensures |owners| <= |counts|
    ensures forall a :: a in owners <==> exists i :: 0 <= i < |counts| && counts[i] == (a, maxLines)
  {
    if counts == [] then []
    else
      var n := |counts| - 1;
      var rest := Owners(counts[..n], maxLines);
      assert forall i :: 0 <= i < n ==> counts[i] == counts[..n][i];
      if counts[n].1 == maxLines then rest + [counts[n].0] else rest
  }

  /** The owners of a function: the authors with the most lines, of whom there is at least one. */
  lemma {:induction false} OwnersNonEmpty(counts: seq<(string, nat)>)
    requires counts != []
    ensures |Owners(counts, MaxLines(counts))| >= 1
  {
    var i :| 0 <= i < |counts| && counts[i].1 == MaxLines(counts);
    assert counts[i].0 in Owners(counts, MaxLines(counts));
  }

  /** `ccn * (nlines / totalLines)`. */
  function Contribution(ccn: int, nlines: nat, total: nat): real
    requires total > 0
  {
    ccn as real * (nlines as real / total as real)
  }

  /** `Authors[author].append(x)` on a `defaultdict(list)`. */
  function Append(m: seq<(string, seq<real>)>, k: string, x: real): seq<(string, seq<real>)> {
    Put(m, k, GetOr(m, k, []) + [x])
  }

  /** The loop `for author, nlines in linesInFunction.items(): Authors[author].append(...)`. */
  function AddContributions(m: seq<(string, seq<real>)>, counts: seq<(string, nat)>, ccn: int, total: nat)
    : seq<(string, seq<real>)>
    requires total > 0
  {
    if counts == [] then m
    else
      var n := |counts| - 1;
      Append(AddContributions(m, counts[..n], ccn, total), counts[n].0, Contribution(ccn, counts[n].1, total))
  }

  method CreditContributions(m: seq<(string, seq<real>)>, counts: seq<(string, nat)>, ccn: int, total: nat)
    returns (r: seq<(string, seq<real>)>)
    requires total > 0
    ensures r == AddContributions(m, counts, ccn, total)
  {
    r := m;
    for i := 0 to |counts|
      invariant r == AddContributions(m, counts[..i], ccn, total)
    {
      assert counts[..i + 1][..i] == counts[..i];
      r := Append(r, counts[i].0, Contribution(ccn, counts[i].1, total));
    }
    assert counts[..|counts|] == counts;
  }

  /** `d[k] += x` on a `defaultdict(float)`. */
  function AddTo(m: seq<(string, real)>, k: string, x: real): seq<(string, real)> {
    Put(m, k, GetOr(m, k, 0.0) + x)
  }

  /** `for a in owners: d[a] += share`. */
  function AddToAll(m: seq<(string, real)>, ks: seq<string>, x: real): seq<(string, real)> {
    if ks == [] then m else AddTo(AddToAll(m, ks[..|ks| - 1], x), ks[|ks| - 1], x)
  }

  method CreditShares(m: seq<(string, real)>, owners: seq<string>, share: real) returns (r: seq<(string, real)>)
    ensures r == AddToAll(m, owners, share)
  {
    r := m;
    for i := 0 to |owners|
      invariant r == AddToAll(m, owners[..i], share)
    {
      assert owners[..i + 1][..i] == owners[..i];
      r := AddTo(r, owners[i], share);
    }
    assert owners[..|owners|] == owners;
  }

  // ---------------------------------------------------------------- analyse_functions

  /** A function as Lizard reports it, with the blame output of its lines (`None` when blame failed). */
  datatype FunctionInfo = FunctionInfo(start: Option<int>, end: Option<int>, ccn: int, blame: Option<seq<string>>)

  /** `Authors`, `authorsFunctions`, `authorHotspots`, `totalFunctions`, `totalHotspots`. */
  datatype Analysis = Analysis(
    contribs: seq<(string, seq<real>)>,
    owned: seq<(string, real)>,
    hot: seq<(string, real)>,
    functions: nat,
    hotspots: nat)

  const NoAnalysis := Analysis([], [], [], 0, 0)

  /** Integer start and end lines with `end >= start`, and a blame output. */
  predicate Blamed(f: FunctionInfo) {
    f.start.Some? && f.end.Some? && f.end.value >= f.start.value && f.blame.Some?
  }

  /** A function takes part when it was blamed and at least one of its lines was credited. */
  predicate Counted(f: FunctionInfo) {
    Blamed(f) && BlameCounts(f.blame.value) != []
  }

  /** The body of the loop over functions. */
  function AnalyseStep(st: Analysis, f: FunctionInfo, threshold: real): Analysis {
    if !Blamed(f) then st else CountedStep(st, BlameCounts(f.blame.value), f.ccn, threshold)
  }

  /** The body of the loop once the function's lines are counted. */
  function CountedStep(st: Analysis, counts: seq<(string, nat)>, ccn: int, threshold: real): Analysis {
      var total := TotalLines(counts);
      if total == 0 then st
      else
        var owners := Owners(counts, MaxLines(counts));
        var share := 1.0 / |owners| as real;
        var contribs := AddContributions(st.contribs, counts, ccn, total);
        var owned := AddToAll(st.owned, owners, share);
        if ccn as real > threshold then
          Analysis(contribs, owned, AddToAll(st.hot, owners, share), st.functions + 1, st.hotspots + 1)
        else
          Analysis(contribs, owned, st.hot, st.functions + 1, st.hotspots)
  }

  function AnalyseAll(funcs: seq<FunctionInfo>, threshold: real): Analysis {
    if funcs == [] then NoAnalysis
    else
      var n := |funcs| - 1;
      AnalyseStep(AnalyseAll(funcs[..n], threshold), funcs[n], threshold)
  }

  function Ccns(funcs: seq<FunctionInfo>): (xs: seq<real>)
    ensures |xs| == |funcs|
  {
    seq(|funcs|, i requires 0 <= i < |funcs| => funcs[i].ccn as real)
  }

  /** `hotspotThreshold`: the mean complexity over every function Lizard found, blamed or not. */
  function Threshold(funcs: seq<FunctionInfo>): real {
    Mean(Ccns(funcs))
  }

  /** The summary of one author (before `round`). */
  datatype AuthorScore = AuthorScore(averageComplexity: real, functionsPct: real, hotspotsPct: real)

  function Pct(part: real, total: nat): real {
    if total == 0 then 0.0 else part / total as real * 100.0
  }

  function ScoreOf(st: Analysis, contribs: seq<real>, a: string): AuthorScore {
    AuthorScore(
      if |contribs| == 0 then 0.0 else Sum(contribs) / |contribs| as real,
      Pct(GetOr(st.owned, a, 0.0), st.functions),
      Pct(GetOr(st.hot, a, 0.0), st.hotspots))
  }

  function Summary(st: Analysis): (scores: seq<(string, AuthorScore)>)
    ensures Keys(scores) == Keys(st.contribs)
  {
    seq(|st.contribs|, i requires 0 <= i < |st.contribs| =>
      (st.contribs[i].0, ScoreOf(st, st.contribs[i].1, st.contribs[i].0)))
  }

  /** What `analyse_functions` returns for the functions of all candidate files, in walk order. */
  function AnalyseFunctionsOf(funcs: seq<FunctionInfo>): seq<(string, AuthorScore)> {
    if funcs == [] then [] else Summary(AnalyseAll(funcs, Threshold(funcs)))
  }

  method AnalyseFunctions(funcs: seq<FunctionInfo>) returns (scores: seq<(string, AuthorScore)>)
    ensures scores == AnalyseFunctionsOf(funcs)
  {
    if |funcs| == 0 {
      return [];
    }
    var threshold := Threshold(funcs);
    var contribs: seq<(string, seq<real>)> := [];
    var owned: seq<(string, real)> := [];
    var hot: seq<(string, real)> := [];
    var totalFunctions: nat := 0;
    var totalHotspots: nat := 0;
    for i := 0 to |funcs|
      invariant Analysis(contribs, owned, hot, totalFunctions, totalHotspots) == AnalyseAll(funcs[..i], threshold)
    {
      AnalyseAllSnoc(funcs, i, threshold);
      contribs, owned, hot, totalFunctions, totalHotspots :=
        AnalyseFunction(contribs, owned, hot, totalFunctions, totalHotspots, funcs[i], threshold);
    }
    assert funcs[..|funcs|] == funcs;
    var st := Analysis(contribs, owned, hot, totalFunctions, totalHotspots);
    scores := [];
    for i := 0 to |contribs|
      invariant scores == Summary(st)[..i]
    {
      scores := scores + [(contribs[i].0, ScoreOf(st, contribs[i].1, contribs[i].0))];
    }
  }

  /** The body of the loop over functions, on the five running totals. */
  method AnalyseFunction(contribs0: seq<(string, seq<real>)>, owned0: seq<(string, real)>, hot0: seq<(string, real)>,
                         functions0: nat, hotspots0: nat, f: FunctionInfo, threshold: real)
    returns (contribs: seq<(string, seq<real>)>, owned: seq<(string, real)>, hot: seq<(string, real)>,
             totalFunctions: nat, totalHotspots: nat)
    ensures Analysis(contribs, owned, hot, totalFunctions, totalHotspots)
         == AnalyseStep(Analysis(contribs0, owned0, hot0, functions0, hotspots0), f, threshold)
  {
    contribs, owned, hot, totalFunctions, totalHotspots := contribs0, owned0, hot0, functions0, hotspots0;
    if f.start.Some? && f.end.Some? && f.end.value >= f.start.value && f.blame.Some? {
      var counts := CountBlameLines(f.blame.value);
      var total := TotalLines(counts);
      if total != 0 {
        totalFunctions := totalFunctions + 1;
        contribs := CreditContributions(contribs, counts, f.ccn, total);
        var owners := Owners(counts, MaxLines(counts));
        var share := 1.0 / |owners| as real;
        owned := CreditShares(owned, owners, share);
        if f.ccn as real > threshold {
          totalHotspots := totalHotspots + 1;
          hot := CreditShares(hot, owners, share);
        }
      }
    }
  }

  lemma AnalyseAllSnoc(funcs: seq<FunctionInfo>, i: nat, threshold: real)
    requires i < |funcs|
    ensures AnalyseAll(funcs[..i + 1], threshold) == AnalyseStep(AnalyseAll(funcs[..i], threshold), funcs[i], threshold)
  {
    assert funcs[..i + 1][..i] == funcs[..i];
  }

  // ---------------------------------------------------------------- properties of the analysis

  /** `sum(d.values())` of a `defaultdict(float)`. */
  function SumValues(m: seq<(string, real)>): real {
    Sum(Values(m))
  }

  lemma {:induction false} SumUpdate(xs: seq<real>, i: int, v: real)
    requires 0 <= i < |xs|
    ensures Sum(xs[i := v]) == Sum(xs) - xs[i] + v
    decreases |xs|
  {
    var n := |xs| - 1;
    if i < n {
      SumUpdate(xs[..n], i, v);
      assert xs[i := v][..n] == xs[..n][i := v];
    } else {
      assert xs[i := v][..n] == xs[..n];
    }
  }

  lemma {:induction false} AddToSum(m: seq<(string, real)>, k: string, x: real)
    ensures SumValues(AddTo(m, k, x)) == SumValues(m) + x
  {
    var i := IndexOfKey(m, k);
    var v := GetOr(m, k, 0.0) + x;
    if i == -1 {
      assert Values(m + [(k, v)]) == Values(m) + [v];
      SumAppend(Values(m), [v]);
      SumSingleton(v);
    } else {
      assert Values(m[i := (k, v)]) == Values(m)[i := v];
      SumUpdate(Values(m), i, v);
    }
  }

  lemma {:induction false} AddToAllSum(m: seq<(string, real)>, ks: seq<string>, x: real)
    ensures SumValues(AddToAll(m, ks, x)) == SumValues(m) + |ks| as real * x
  {
    AddToAllRepeated(m, ks, x);
    RepeatedIsProduct(|ks|, x);
  }

  /** `x` added `n` times. */
  function Repeated(n: nat, x: real): real {
    if n == 0 then 0.0 else Repeated(n - 1, x) + x
  }

  lemma {:induction false} RepeatedIsProduct(n: nat, x: real)
    ensures Repeated(n, x) == n as real * x
  {
    if n > 0 {
      RepeatedIsProduct(n - 1, x);
      assert n as real * x == (n - 1) as real * x + x by {
        assert n as real == (n - 1) as real + 1.0;
      }
    }
  }

  lemma {:induction false} AddToAllRepeated(m: seq<(string, real)>, ks: seq<string>, x: real)
    ensures SumValues(AddToAll(m, ks, x)) == SumValues(m) + Repeated(|ks|, x)
  {
    if ks != [] {
      var n := |ks| - 1;
      var prev := AddToAll(m, ks[..n], x);
      assert AddToAll(m, ks, x) == AddTo(prev, ks[n], x);
      AddToAllRepeated(m, ks[..n], x);
      AddToSum(prev, ks[n], x);
    }
  }

  predicate NonNegative(m: seq<(string, real)>) {
    forall i :: 0 <= i < |m| ==> m[i].1 >= 0.0
  }

  lemma {:induction false} AddToAllNonNegative(m: seq<(string, real)>, ks: seq<string>, x: real)
    requires NonNegative(m) && x >= 0.0
    ensures NonNegative(AddToAll(m, ks, x))
  {
    if ks != [] {
      var n := |ks| - 1;
      AddToAllNonNegative(m, ks[..n], x);
      var prev := AddToAll(m, ks[..n], x);
      var i := IndexOfKey(prev, ks[n]);
      if i != -1 {
        assert AddTo(prev, ks[n], x) == prev[i := (ks[n], prev[i].1 + x)];
      }
    }
  }

  /** The shares of one function's owners add up to one function. */
  lemma {:induction false} OneShareEach(k: nat)
    requires k >= 1
    ensures k as real * (1.0 / k as real) == 1.0
    ensures 1.0 / k as real > 0.0
  {
  }

  predicate Conserved(st: Analysis) {
    SumValues(st.owned) == st.functions as real &&
    SumValues(st.hot) == st.hotspots as real &&
    NonNegative(st.owned) && NonNegative(st.hot) &&
    st.hotspots <= st.functions
  }

  lemma {:induction false} StepConserves(st: Analysis, f: FunctionInfo, threshold: real)
    requires Conserved(st)
    ensures Conserved(AnalyseStep(st, f, threshold))
    ensures AnalyseStep(st, f, threshold).functions == st.functions + if Counted(f) then 1 else 0
  {
    if Blamed(f) {
      var counts := BlameCounts(f.blame.value);
      BlameCountsOk(f.blame.value);
      CountedStepConserves(st, counts, f.ccn, threshold);
    }
  }

  lemma {:induction false} CountedStepConserves(st: Analysis, counts: seq<(string, nat)>, ccn: int, threshold: real)
    requires Conserved(st) && CountsOk(counts)
    ensures Conserved(CountedStep(st, counts, ccn, threshold))
    ensures CountedStep(st, counts, ccn, threshold).functions == st.functions + if counts != [] then 1 else 0
  {
    TotalLinesPositive(counts);
    if counts != [] {
      var owners := Owners(counts, MaxLines(counts));
      OwnersNonEmpty(counts);
      var share := 1.0 / |owners| as real;
      SharesConserve(st.owned, owners, st.functions);
      SharesConserve(st.hot, owners, st.hotspots);
    }
  }

  lemma {:induction false} SharesConserve(m: seq<(string, real)>, owners: seq<string>, k: nat)
    requires |owners| >= 1 && SumValues(m) == k as real && NonNegative(m)
    ensures SumValues(AddToAll(m, owners, 1.0 / |owners| as real)) == (k + 1) as real
    ensures NonNegative(AddToAll(m, owners, 1.0 / |owners| as real))
  {
    var share := 1.0 / |owners| as real;
    var r := AddToAll(m, owners, share);
    assert SumValues(r) == SumValues(m) + 1.0 by {
      OneShareEach(|owners|);
      AddToAllSum(m, owners, share);
    }
    assert NonNegative(r) by {
      OneShareEach(|owners|);
      AddToAllNonNegative(m, owners, share);
    }
  }

  /** The number of functions that take part. */
  function CountedFunctions(funcs: seq<FunctionInfo>): nat {
    if funcs == [] then 0
    else CountedFunctions(funcs[..|funcs| - 1]) + if Counted(funcs[|funcs| - 1]) then 1 else 0
  }

  /**
    Ownership is conserved: every counted function hands out exactly one share
    among its owners, so the owned shares add up to `totalFunctions` and the
    hotspot shares to `totalHotspots`, of which there are no more than functions.
   */
  lemma {:induction false} SharesAddUp(funcs: seq<FunctionInfo>, threshold: real)
    ensures Conserved(AnalyseAll(funcs, threshold))
    ensures AnalyseAll(funcs, threshold).functions == CountedFunctions(funcs)
  {
    if funcs != [] {
      var n := |funcs| - 1;
      SharesAddUp(funcs[..n], threshold);
      StepConserves(AnalyseAll(funcs[..n], threshold), funcs[n], threshold);
    }
  }

  /** A share no larger than the total of non-negative shares. */
  lemma {:induction false} ValueAtMostSum(m: seq<(string, real)>, i: int)
    requires NonNegative(m) && 0 <= i < |m|
    ensures m[i].1 <= SumValues(m)
  {
    var n := |m| - 1;
    var pre := m[..n];
    assert Values(m) == Values(pre) + [m[n].1];
    SumAppend(Values(pre), [m[n].1]);
    SumSingleton(m[n].1);
    SumNonNegative(Values(pre));
    if i < n {
      ValueAtMostSum(pre, i);
    }
  }

  lemma {:induction false} GetOrAtMostSum(m: seq<(string, real)>, a: string)
    requires NonNegative(m)
    ensures 0.0 <= GetOr(m, a, 0.0) <= SumValues(m)
  {
    SumNonNegative(Values(m));
    var i := IndexOfKey(m, a);
    if i != -1 {
      ValueAtMostSum(m, i);
    }
  }

  lemma {:induction false} PctBounds(part: real, total: nat)
    requires 0.0 <= part <= total as real
    ensures 0.0 <= Pct(part, total) <= 100.0
  {
    if total > 0 {
      assert part / total as real <= 1.0;
    }
  }

  /** `percentage_of_functions_written` and `percentage_of_hotspots` lie between 0 and 100. */
  lemma {:induction false} PercentagesBounded(funcs: seq<FunctionInfo>, i: int)
    requires 0 <= i < |AnalyseFunctionsOf(funcs)|
    ensures 0.0 <= AnalyseFunctionsOf(funcs)[i].1.functionsPct <= 100.0
    ensures 0.0 <= AnalyseFunctionsOf(funcs)[i].1.hotspotsPct <= 100.0
  {
    var threshold := Threshold(funcs);
    var st := AnalyseAll(funcs, threshold);
    SharesAddUp(funcs, threshold);
    var a := st.contribs[i].0;
    GetOrAtMostSum(st.owned, a);
    GetOrAtMostSum(st.hot, a);
    PctBounds(GetOr(st.owned, a, 0.0), st.functions);
    PctBounds(GetOr(st.hot, a, 0.0), st.hotspots);
  }

  lemma {:induction false} ConstantMean(xs: seq<real>, c: real)
    requires |xs| > 0 && forall i :: 0 <= i < |xs| ==> xs[i] == c
    ensures Mean(xs) == c
  {
    SumBetween(xs, c, c);
    assert Sum(xs) / |xs| as real * |xs| as real == Sum(xs);
  }

  lemma {:induction false} NoHotspotsAtOrBelow(funcs: seq<FunctionInfo>, threshold: real)
    requires forall i :: 0 <= i < |funcs| ==> funcs[i].ccn as real <= threshold
    ensures AnalyseAll(funcs, threshold).hotspots == 0 && AnalyseAll(funcs, threshold).hot == []
  {
    if funcs != [] {
      NoHotspotsAtOrBelow(funcs[..|funcs| - 1], threshold);
    }
  }

  /**
    Hotspots lie strictly above the mean: when every function has the same
    complexity there are none, and every author's hotspot percentage is 0.
   */
  lemma {:induction false} UniformComplexityNoHotspots(funcs: seq<FunctionInfo>, c: int)
    requires funcs != [] && forall i :: 0 <= i < |funcs| ==> funcs[i].ccn == c
    ensures AnalyseAll(funcs, Threshold(funcs)).hotspots == 0
    ensures forall i :: 0 <= i < |AnalyseFunctionsOf(funcs)| ==> AnalyseFunctionsOf(funcs)[i].1.hotspotsPct == 0.0
  {
    ConstantMean(Ccns(funcs), c as real);
    NoHotspotsAtOrBelow(funcs, Threshold(funcs));
  }

  /** `Sum` of the contributions of one function's authors. */
  function ContributionSum(counts: seq<(string, nat)>, ccn: int, total: nat): real
    requires total > 0
  {
    if counts == [] then 0.0
    else
      var n := |counts| - 1;
      ContributionSum(counts[..n], ccn, total) + Contribution(ccn, counts[n].1, total)
  }

  lemma {:induction false} ScaleStep(c: real, a: real, b: real, t: real)
    requires t > 0.0
    ensures c * (a / t) + c * (b / t) == c * ((a + b) / t)
  {
  }

  lemma {:induction false} ContributionSumIs(counts: seq<(string, nat)>, ccn: int, total: nat)
    requires total > 0
    ensures ContributionSum(counts, ccn, total) == ccn as real * (TotalLines(counts) as real / total as real)
  {
    if counts != [] {
      var n := |counts| - 1;
      ContributionSumIs(counts[..n], ccn, total);
      ScaleStep(ccn as real, TotalLines(counts[..n]) as real, counts[n].1 as real, total as real);
    }
  }

  /**
    The weighted complexities handed to a function's authors, one per author in
    proportion to their lines, add up to the function's complexity.
   */
  lemma {:induction false} ContributionsAddUpToCcn(lines: seq<string>, ccn: int)
    requires BlameCounts(lines) != []
    ensures TotalLines(BlameCounts(lines)) > 0
    ensures ContributionSum(BlameCounts(lines), ccn, TotalLines(BlameCounts(lines))) == ccn as real
  {
    var counts := BlameCounts(lines);
    BlameCountsOk(lines);
    CountsAddUpToCcn(counts, ccn);
  }

  lemma {:induction false} CountsAddUpToCcn(counts: seq<(string, nat)>, ccn: int)
    requires counts != [] && CountsOk(counts)
    ensures TotalLines(counts) > 0
    ensures ContributionSum(counts, ccn, TotalLines(counts)) == ccn as real
  {
    TotalLinesPositive(counts);
    var t := TotalLines(counts);
    ContributionSumIs(counts, ccn, t);
    assert t as real / t as real == 1.0;
  }

  // ---------------------------------------------------------------- calculate_LOC

  /** A file of the walk with its whole-file blame output (`None` when blame failed). */
  datatype BlamedFile = BlamedFile(path: string, blame: Option<seq<string>>)

  /** `line.replace("author ", "").strip()`: every occurrence is removed, not only the prefix. */
  function LocAuthor(line: string): string {
    Trim(ReplaceAll(line, "author ", ""))
  }

  /** One header line per blamed line: each adds one line to its author. */
  function CountHeaders(m: seq<(string, nat)>, lines: seq<string>): seq<(string, nat)> {
    if lines == [] then m
    else
      var n := |lines| - 1;
      var prev := CountHeaders(m, lines[..n]);
      if IsAuthorHeader(lines[n]) then Incr(prev, LocAuthor(lines[n])) else prev
  }

  /** `authorLOC` after the walk. */
  function AuthorLoc(files: seq<BlamedFile>): seq<(string, nat)> {
    if files == [] then []
    else
      var n := |files| - 1;
      var prev := AuthorLoc(files[..n]);
      var f := files[n];
      if ShouldSkipPath(f.path) || f.blame.None? then prev else CountHeaders(prev, f.blame.value)
  }

  /** `{author: loc / totalLOC * 100}` with `totalLOC = sum(...) or 1`. */
  function LocPercentages(loc: seq<(string, nat)>): (pct: seq<(string, real)>)
    ensures Keys(pct) == Keys(loc)
  {
    var total := if TotalLines(loc) == 0 then 1 else TotalLines(loc);
    seq(|loc|, i requires 0 <= i < |loc| => (loc[i].0, Percent(loc[i].1, total)))
  }

  /** `(n / total) * 100`. */
  function Percent(n: nat, total: nat): real
    requires total > 0
  {
    n as real / total as real * 100.0
  }

  lemma {:induction false} PercentAdd(a: nat, b: nat, t: nat)
    requires t > 0
    ensures Percent(a, t) + Percent(b, t) == Percent(a + b, t)
  {
  }

  lemma {:induction false} PercentBounds(n: nat, t: nat)
    requires 0 < t && n <= t
    ensures 0.0 <= Percent(n, t) <= 100.0
    ensures n == t ==> Percent(n, t) == 100.0
  {
    assert n as real / t as real <= 1.0;
  }

  /** What `calculate_LOC` returns (before `round`). */
  function CalculateLocOf(files: seq<BlamedFile>): seq<(string, real)> {
    LocPercentages(AuthorLoc(files))
  }

  method CalculateLoc(files: seq<BlamedFile>) returns (pct: seq<(string, real)>)
    ensures pct == CalculateLocOf(files)
  {
    var authorLoc: seq<(string, nat)> := [];
    for i := 0 to |files|
      invariant authorLoc == AuthorLoc(files[..i])
    {
      var f := files[i];
      if !ShouldSkipPath(f.path) && f.blame.Some? {
        authorLoc := CountBlameHeaders(authorLoc, f.blame.value);
      }
      AuthorLocSnoc(files, i);
    }
    assert files[..|files|] == files;
    pct := LocPercentages(authorLoc);
  }

  /** The inner loop over one file's porcelain lines: one more line for the author of each header. */
  method CountBlameHeaders(start: seq<(string, nat)>, lines: seq<string>) returns (authorLoc: seq<(string, nat)>)
    ensures authorLoc == CountHeaders(start, lines)
  {
    authorLoc := start;
    for j := 0 to |lines|
      invariant authorLoc == CountHeaders(start, lines[..j])
    {
      CountHeadersSnoc(start, lines, j);
      if IsAuthorHeader(lines[j]) {
        authorLoc := Incr(authorLoc, LocAuthor(lines[j]));
      }
    }
    assert lines[..|lines|] == lines;
  }

  lemma {:induction false} CountHeadersSnoc(m: seq<(string, nat)>, lines: seq<string>, j: nat)
    requires j < |lines|
    ensures CountHeaders(m, lines[..j + 1]) ==
      if IsAuthorHeader(lines[j]) then Incr(CountHeaders(m, lines[..j]), LocAuthor(lines[j])) else CountHeaders(m, lines[..j])
  {
    assert lines[..j + 1][..j] == lines[..j];
  }

  lemma {:induction false} AuthorLocSnoc(files: seq<BlamedFile>, i: nat)
    requires i < |files|
    ensures AuthorLoc(files[..i + 1]) ==
      var f := files[i];
      if ShouldSkipPath(f.path) || f.blame.None? then AuthorLoc(files[..i]) else CountHeaders(AuthorLoc(files[..i]), f.blame.value)
  {
    assert files[..i + 1][..i] == files[..i];
  }

  lemma {:induction false} CountHeadersOk(m: seq<(string, nat)>, lines: seq<string>)
    requires CountsOk(m)
    ensures CountsOk(CountHeaders(m, lines))
  {
    if lines != [] {
      var n := |lines| - 1;
      CountHeadersOk(m, lines[..n]);
      if IsAuthorHeader(lines[n]) {
        IncrOk(CountHeaders(m, lines[..n]), LocAuthor(lines[n]));
      }
    }
  }

  lemma {:induction false} AuthorLocOk(files: seq<BlamedFile>)
    ensures CountsOk(AuthorLoc(files))
  {
    if files != [] {
      var n := |files| - 1;
      AuthorLocOk(files[..n]);
      if !ShouldSkipPath(files[n].path) && files[n].blame.Some? {
        CountHeadersOk(AuthorLoc(files[..n]), files[n].blame.value);
      }
    }
  }

  /** Files under an excluded directory add no lines, whatever their blame output. */
  lemma {:induction false} SkippedFileIgnored(files: seq<BlamedFile>, f: BlamedFile)
    requires ShouldSkipPath(f.path)
    ensures CalculateLocOf(files + [f]) == CalculateLocOf(files)
  {
    assert (files + [f])[..|files|] == files;
  }

  function LocFraction(loc: seq<(string, nat)>, total: nat): seq<real>
    requires total > 0
  {
    seq(|loc|, i requires 0 <= i < |loc| => Percent(loc[i].1, total))
  }

  lemma {:induction false} LocFractionSum(loc: seq<(string, nat)>, total: nat)
    requires total > 0
    ensures Sum(LocFraction(loc, total)) == Percent(TotalLines(loc), total)
  {
    if loc != [] {
      var n := |loc| - 1;
      LocFractionSum(loc[..n], total);
      assert LocFraction(loc, total)[..n] == LocFraction(loc[..n], total);
      PercentAdd(TotalLines(loc[..n]), loc[n].1, total);
    }
  }

  /**
    The LOC percentages add up to 100 when any line was blamed; with no blamed
    line there are no authors at all (the `or 1` denominator is never needed for
    an author), and every percentage lies between 0 and 100.
   */
  lemma {:induction false} LocPercentagesAddUp(files: seq<BlamedFile>)
    ensures AuthorLoc(files) == [] <==> TotalLines(AuthorLoc(files)) == 0
    ensures AuthorLoc(files) != [] ==> SumValues(CalculateLocOf(files)) == 100.0
  {
    var loc := AuthorLoc(files);
    AuthorLocOk(files);
    TotalLinesPositive(loc);
    if loc != [] {
      var total := TotalLines(loc);
      assert Values(LocPercentages(loc)) == LocFraction(loc, total);
      LocFractionSum(loc, total);
      PercentBounds(total, total);
    }
  }

  /** Every LOC percentage lies between 0 and 100. */
  lemma {:induction false} LocPercentagesBounded(files: seq<BlamedFile>, i: int)
    requires 0 <= i < |CalculateLocOf(files)|
    ensures 0.0 <= CalculateLocOf(files)[i].1 <= 100.0
  {
    var loc := AuthorLoc(files);
    LineAtMostTotal(loc, i);
    var total := if TotalLines(loc) == 0 then 1 else TotalLines(loc);
    assert CalculateLocOf(files)[i].1 == Percent(loc[i].1, total);
    PercentBounds(loc[i].1, total);
  }

  lemma {:induction false} LineAtMostTotal(loc: seq<(string, nat)>, i: int)
    requires 0 <= i < |loc|
    ensures loc[i].1 <= TotalLines(loc)
  {
    if i < |loc| - 1 {
      LineAtMostTotal(loc[..|loc| - 1], i);
    }
  }

  // ---------------------------------------------------------------- merge_metrics

  /** One author of `merge_metrics`: the complexity summary and `percentage_of_LOC`. */
  datatype MergedMetrics = MergedMetrics(score: AuthorScore, locPct: real)

  const ZeroScore := AuthorScore(0.0, 0.0, 0.0)

  /**
    `merge_metrics`: one entry per author of either input, in no particular order
    (the loop runs over a set); a missing complexity summary is all zeros and a
    missing LOC share is 0.
   */
  method MergeMetrics(results: map<string, AuthorScore>, locPercentage: map<string, real>)
    returns (merged: map<string, MergedMetrics>)
    ensures merged.Keys == results.Keys + locPercentage.Keys
    ensures forall a :: a in merged ==>
      merged[a].score == (if a in results then results[a] else ZeroScore) &&
      merged[a].locPct == (if a in locPercentage then locPercentage[a] else 0.0)
  {
    merged := map[];
    var remaining := results.Keys + locPercentage.Keys;
    while remaining != {}
      invariant remaining <= results.Keys + locPercentage.Keys
      invariant merged.Keys == results.Keys + locPercentage.Keys - remaining
      invariant forall a :: a in merged ==>
        merged[a].score == (if a in results then results[a] else ZeroScore) &&
        merged[a].locPct == (if a in locPercentage then locPercentage[a] else 0.0)
      decreases remaining
    {
      var a :| a in remaining;
      var stats := if a in results then results[a] else ZeroScore;
      var loc := if a in locPercentage then locPercentage[a] else 0.0;
      merged := merged[a := MergedMetrics(stats, loc)];
      remaining := remaining - {a};
    }
  }
}
