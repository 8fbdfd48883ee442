# Contribution scoring, modelled in Dafny

This project models the deterministic core of a capstone-project contribution tracker. The tracker collects a student team's artefacts: the GitHub commit history, weekly worklogs, sprint reports, project plans and attendance sheets. It parses each artefact into JSON, merges the per-student figures and ranks the students by a weighted score. Every step is modelled on in-memory values. Files, git, HTTP, docx/xlsx loading and the NLP tools are inputs or oracles (function parameters).

The modules follow the program's structure:

- **`Aggregator`, `Scoring`** model `backend/services/aggregator.js`:
  - alias map and student matching;
  - tolerant number picking;
  - the attendance, documents and GitHub extractors, and the per-student merge;
  - z-score-then-min-max normalisation;
  - weighted totals rescaled to the top student, the stable ranking, and the "Team not found" error.
- **`Ownership`, `FinalStats`** model `backend/main.py`:
  - the effective path filter;
  - blame attribution in the `git blame --line-porcelain` format (git-blame(1), "THE PORCELAIN FORMAT");
  - largest-share ownership with ties split evenly;
  - hotspots above the mean cyclomatic complexity;
  - LOC shares, `merge_metrics` and `combine_json`.
- **`CombineDocs`, `AnalyzeDocs`** model the two documentation-metric combiners:
  - registry filtering, path and docKey de-duplication, and plain means;
  - word-count-weighted buckets and their finalisation.
- **`Server`** models `backend/server.js`:
  - type detection;
  - the legacy commit ranking behind `/api/scores`;
  - the upload registry, a class whose entries move through uploaded → confirmed → parsed | parse_failed.
- **`Teams`, `Rules`** model `backend/routes/teams.js` and `backend/routes/rules.js`:
  - the team store and the active-team pointer, a class;
  - the default rules and the weight table;
  - the GET fallback and the field-wise merge on save.
- **`RepoUrl`, `FetchData`** model `backend/fetchData.js`:
  - repository URL parsing and repository-info precedence;
  - the paginated listing loop and the detail loop of `fetchAllCommits`.
- **`SetupTeamPage`, `RuleSettingsPage`, `DashboardPage`** model the state logic of the three React pages:
  - CSV roster parsing, repository normalisation and create validation;
  - the weight total, payload normalisation, updaters, performance tags and the preview;
  - the search filter, KPIs, badge and score colour.
- **`Attendance`** models `backend/parsers/attendance.py`: members, absentees, reasons and attendance rates over the sheet's cells.
- **`WeekLog`, `WorklogParser`, `WorklogDocx`** model the two worklog readers:
  - `backend/parsers/worklog_parser.py`;
  - `backend/parser.py`.

  They share one generic paragraph scan, and each reader supplies what a paragraph inside a week does.
- **`Finditer`, `SprintReport`** model `backend/parsers/parse_sprint_report_docx.py`: section extraction, the five-member contribution split, the attendance table and the output path.
- **`DocxMetrics`** models `backend/parsers/parse_docx_with_metrics.py`: title normalisation, fuzzy section lookup, numbered sections, the contribution table and per-student metrics.
- **`ProjectPlan`, `PlanStudents`** model `backend/parsers/parse_project_plan_docx.py`:
  - the heading scan and the subheading merge;
  - table parsing and classification;
  - keyword matching, relevant tables and the roster filter.
- **`Wrappers`, `Strings`, `AssocList`, `Lists`, `JsonValue`, `Reals`** are shared vocabulary:
  - `Option`/`Result`;
  - ASCII string functions;
  - dictionaries as insertion-ordered association lists;
  - selection and collection over sequences;
  - loosely shaped JSON with JavaScript truthiness and `Number()`;
  - sums, maxima and affine maps on reals.

Loops in the source are `while` loops in Dafny. Each such method is proved equal to a specification function, and the properties are lemmas about that function. The upload registry and the team store are classes whose methods change their fields. Their contracts state the whole new state.

## Model

| member | source | states |
|---|---|---|
| Aggregator.Spread | backend/services/aggregator.js:19-21 | the divisor `Math.sqrt(variance) \|\| 1` is always positive, and is 1 when the variance is 0 |
| Aggregator.NormalizeIsMinMax | backend/services/aggregator.js:16-27 | for any positive divisor, z-scoring followed by min-max scaling equals plain min-max scaling of the input, so the standard deviation never affects the result |
| Aggregator.NormalizeConstant | backend/services/aggregator.js:17-25 | an empty list stays empty, and a list of equal values normalizes to all 1s |
| Aggregator.NormalizeRange | backend/services/aggregator.js:16-27 | when the values are not all equal, every output lies in [0, 1]; it is 0 exactly at the minimum and 1 exactly at the maximum; and the order between any two students is kept |
| Aggregator.NormalizeUnit | backend/services/aggregator.js:16-27 | `normalize` keeps the length, and every output lies in [0, 1] |
| Aggregator.RatioMonotone | backend/services/aggregator.js:26 | the scaling `(v - min) / (max - min)` is monotone in both directions |
| Aggregator.RatioFacts | backend/services/aggregator.js:26 | for min <= v <= max the scaled value is in [0, 1]; it is 0 iff v is the minimum and 1 iff v is the maximum |
| Aggregator.Identities | backend/services/aggregator.js:34-40 | the identity fields (name, email, github, then the aliases) with the empty ones dropped |
| Aggregator.VariantKeys | backend/services/aggregator.js:34-41 | one lower-cased, trimmed key per non-empty identity field |
| Aggregator.AddVariantsSpec | backend/services/aggregator.js:43 | after setting a student's keys, a key is present iff it was already or is one of the student's keys, and it maps to that student's index when it is one |
| Aggregator.LastWithVariant | backend/services/aggregator.js:33-44 | the last student having a given variant, or -1 when no student has it |
| Aggregator.AliasMapKeys | backend/services/aggregator.js:30-46 | a key is in the alias map iff some student has it as a variant, and then the map gives the last such student (later students overwrite earlier ones) |
| Aggregator.BuildAliasMap | backend/services/aggregator.js:30-46 | the loop that fills the map student by student builds exactly the alias map |
| Aggregator.AddStudentVariants | backend/services/aggregator.js:34-43 | setting one student's variant keys gives exactly the alias-map update for that student |
| Aggregator.MatchStudentIndex | backend/services/aggregator.js:48-52 | the result is -1 or one of the map's indices |
| Aggregator.MatchStudentIndexSpec | backend/services/aggregator.js:48-52 | -1 iff the key is empty or no student has the normalized key as a variant; otherwise the last student that has it |
| Aggregator.StudentAttendancePairs | backend/services/aggregator.js:69-73 | the writes of the `students` shape; students with no email and no name are skipped, so no written key is empty |
| Aggregator.ExtractStudentsAttendance | backend/services/aggregator.js:68-73 | the `students.forEach` loop gives the writes applied in order, each key taking its last value |
| Aggregator.ExtractEntriesAttendance | backend/services/aggregator.js:74-80 | the `Object.entries` loop writes exactly the entries whose value is a non-null object |
| Aggregator.ExtractAttendanceMetrics | backend/services/aggregator.js:62-82 | the method equals the specification: an empty result for a falsy document; the students array when there is one; otherwise the object entries |
| Aggregator.AttendanceStudentsShape | backend/services/aggregator.js:68-73 | with a students array, each key reads the hours and meetings of the last student with that key; the empty key is never present; the keys are distinct |
| Aggregator.ObjectEntries | backend/services/aggregator.js:105-107 | only entries whose value is a non-null object are kept |
| Aggregator.DocsTotalAbsent | backend/services/aggregator.js:90-96 | a key that is never pushed keeps the zero totals |
| Aggregator.PushAllTotals | backend/services/aggregator.js:90-96 | after all the pushes, a non-empty key that was pushed maps to the sum of its parts, counting only truthy fields; an empty key or one never pushed is absent |
| Aggregator.ExtractDocsMetrics | backend/services/aggregator.js:84-110 | the method equals the specification of the three shapes: the students array, then `contributors`, then the object entries |
| Aggregator.AuthorPairs | backend/services/aggregator.js:118-130 | one normalized metrics record per finalStats entry, in order |
| Aggregator.LoadGitHubMetrics | backend/services/aggregator.js:113-132 | the `forEach` over the finalStats entries equals the specification |
| Aggregator.AuthorMetricsDefaults | backend/services/aggregator.js:56-60 | an absent, null or non-numeric field reads as 0 (`pickNumber` default) |
| Aggregator.StripBotSuffix | backend/services/aggregator.js:174 | stripping the `[bot]` suffix never lengthens the name |
| Aggregator.StripBotSuffixOfBot | backend/services/aggregator.js:174 | a bot author `x [bot]` is matched under `x` with its trailing whitespace removed |
| Aggregator.ParsedArtifactsOf | backend/services/aggregator.js:134-151 | every collected artifact is truthy, and there are at most as many as registry entries |
| Aggregator.AddArtifact | backend/services/aggregator.js:145-148 | an artifact goes into at most one list, and every list holds only truthy data |
| Aggregator.LoadParsedArtifacts | backend/services/aggregator.js:134-151 | the `registry.forEach` loop equals the specification |
| Aggregator.InitialRow | backend/services/aggregator.js:156-167 | a student's row starts with zero code, attendance and docs; its id is the email, or the name when there is no email |
| Aggregator.InitialRows | backend/services/aggregator.js:156-167 | one initial row per roster student, in roster order |
| Aggregator.AliasMapBelow | backend/services/aggregator.js:30-46 | every index in the alias map is a valid student index |
| Aggregator.AuthorIndex | backend/services/aggregator.js:173-174 | an author is matched by name, then with `[bot]` stripped; the result is -1 or an index of the map |
| Aggregator.MergeAuthorSpec | backend/services/aggregator.js:171-185 | an unmatched author changes nothing; a matched author changes only that student's code: the percentages add, and the average complexity is replaced when it was 0 and averaged otherwise |
| Aggregator.MergeGitHubSpec | backend/services/aggregator.js:171-185 | the GitHub step changes only `code` fields, and changes nothing when no author matches |
| Aggregator.MergeAttendanceEntriesSpec | backend/services/aggregator.js:193-199 | each student's attendance grows by exactly the hours and meetings of the entries credited to them; nothing else changes |
| Aggregator.MergeAttendanceEntrySpec | backend/services/aggregator.js:194-198 | one entry adds its hours and meetings to the matched student only, and changes no other field of any student |
| Aggregator.MergeDocsEntriesSpec | backend/services/aggregator.js:205-212 | each student's docs grow by exactly the entries credited to them, with a missing docCount counted as 1; nothing else changes |
| Aggregator.MergeDocsEntrySpec | backend/services/aggregator.js:207-211 | one entry adds its doc count, words and sections to the matched student only, and changes no other field of any student |
| Aggregator.MergeAttendanceAllKeeps | backend/services/aggregator.js:191-200 | the attendance step over all files changes only attendance |
| Aggregator.MergeDocsAllKeeps | backend/services/aggregator.js:203-213 | the documents step over all files changes only docs |
| Aggregator.AggregateSpec | backend/services/aggregator.js:153-216 | one row per roster student |
| Aggregator.ApplyGitHub | backend/services/aggregator.js:171-185 | the in-place update of the rows array equals the GitHub step on the old rows |
| Aggregator.ApplyAuthor | backend/services/aggregator.js:172-184 | the in-place update for one author equals the specification of that author's step: an unmatched author changes nothing |
| Aggregator.ApplyAttendanceEntries | backend/services/aggregator.js:193-199 | the in-place update for one attendance file equals the specification |
| Aggregator.ApplyAttendance | backend/services/aggregator.js:191-200 | the in-place update over all attendance files equals the specification |
| Aggregator.ApplyDocsEntries | backend/services/aggregator.js:205-212 | the in-place update for one documents file equals the specification |
| Aggregator.ApplyDocs | backend/services/aggregator.js:203-213 | the in-place update over the worklog, sprint and project files, in that order, equals the specification |
| Aggregator.AggregateForTeam | backend/services/aggregator.js:153-216 | a fresh array holding exactly the specified rows |
| Aggregator.AggregateKeepsRoster | backend/services/aggregator.js:156-167 | aggregation never changes a student's id, name, email or github |
| Aggregator.ZeroAttendanceAddsNothing | backend/services/aggregator.js:193-199 | entries with zero hours and zero meetings leave every student as they were |
| Aggregator.AttendanceSheetAddsNothing | backend/services/aggregator.js:62-82 | the shape written by the attendance parser (`WeeklyAttendance` and `AttendanceSummary`, no hours or meetings field) credits no one |
| Scoring.RawOf | backend/services/aggregator.js:233-244 | one raw value per dimension, in the order codeCommits, worklogHours, documentation, meetings, codeQuality |
| Scoring.NormVectors | backend/services/aggregator.js:247-249 | one vector per dimension, each the `normalize` of that dimension's column |
| Scoring.EffectiveWeights | backend/services/aggregator.js:230 | `rules` when it is truthy, the default weights otherwise |
| Scoring.Weights | backend/services/aggregator.js:253 | one weight per dimension, read as `w[d] \|\| 0`; a weight `Number()` cannot read counts as 0 |
| Scoring.MaxTotal | backend/services/aggregator.js:255 | `Math.max(...totals, 1)` is at least 1 and at least every total |
| Scoring.Insert | backend/services/aggregator.js:267 | inserting a position keeps a list of roster positions and adds exactly that position |
| Scoring.SortOrder | backend/services/aggregator.js:258-267 | the sort order is a permutation of the roster positions |
| Scoring.InsertSorted | backend/services/aggregator.js:267 | inserting a later position into a sorted order keeps it sorted by descending score, ties in roster order |
| Scoring.SortOrderSorted | backend/services/aggregator.js:267 | the sort order is sorted by descending score, ties in roster order (a stable sort) |
| Scoring.DimsOf | backend/services/aggregator.js:247 | no dimensions for an empty team, otherwise the five dimensions |
| Scoring.ScoreStudents | backend/services/aggregator.js:219-271 | one ranking entry per student, and `studentsCount` is the number of students |
| Scoring.Ranking | backend/services/aggregator.js:258-268 | entry k has rank k + 1 and the name, email, github and score of the k-th student in the order |
| Scoring.WeightedSumNonNegative | backend/services/aggregator.js:252-254 | a weighted sum of non-negative values under non-negative weights is non-negative |
| Scoring.WeightedSumZero | backend/services/aggregator.js:252-254 | all-zero weights give a zero total |
| Scoring.PercentBounds | backend/services/aggregator.js:256 | for 0 <= t <= max, `100 * t / max` lies in [0, 100] and is 100 exactly at the maximum |
| Scoring.TotalsNonNegative | backend/services/aggregator.js:252-254 | with non-negative weights every total is non-negative |
| Scoring.ScoresBounded | backend/services/aggregator.js:252-256 | with non-negative weights every score lies in [0, 100] |
| Scoring.TopPercent | backend/services/aggregator.js:255-256 | some total reaches 100 percent iff the largest total is at least 1 |
| Scoring.PercentExact | backend/services/aggregator.js:256 | a percentage of a positive maximum is 100 exactly at the maximum |
| Scoring.TopScore | backend/services/aggregator.js:252-256 | for a non-empty team some student scores exactly 100 iff the top total is at least 1 |
| Scoring.WeightlessRulesScoreZero | backend/services/aggregator.js:230-253 | truthy rules that give no dimension a truthy weight score every student 0 |
| Scoring.DefaultWeightsUsed | backend/services/aggregator.js:230-270 | the reported weights are the rules when they are truthy, the defaults otherwise |
| Scoring.DefaultWeightsTotal | backend/services/aggregator.js:222-228 | the default weights are 30, 25, 20, 15 and 10, and they total 100 |
| Scoring.DimsDistinct | backend/services/aggregator.js:233-244 | the five dimension names are distinct |
| Scoring.OrderDescending | backend/services/aggregator.js:267 | along the sort order scores never increase, and equal scores keep roster order |
| Scoring.RankingDescending | backend/services/aggregator.js:258-268 | the ranking's scores never increase, and ties keep roster order |
| Scoring.RankingEntries | backend/services/aggregator.js:258-268 | the ranking lists every student exactly once; entry k has rank k + 1 and that student's name, email and score |
| Scoring.ScoreStudentsRanking | backend/services/aggregator.js:219-271 | the ranking is the one under the weights of `rules \|\| defaultWeights`; `dims` is empty exactly for an empty team |
| Scoring.TeamRules | backend/services/aggregator.js:273-277 | the rules are truthy iff the team's `rules` field is truthy |
| Scoring.FindTeam | backend/services/aggregator.js:282 | the first team with the given id, or -1 when there is none |
| Scoring.AggregateTeamScores | backend/services/aggregator.js:279-293 | an error iff no team has the id (`Team not found`) or the team has no students array; on success the reported id is the requested one |
| Scoring.AggregateTeamScoresFound | backend/services/aggregator.js:279-293 | a found team gets one ranking entry per roster student, under its own rules when they are truthy, the default weights otherwise |
| Ownership.AnyExcluded | backend/main.py:11-65 | true iff some path segment is one of the excluded directory names |
| Ownership.ShouldSkipPath | backend/main.py:62-65 | a path is skipped iff one of its `/`-separated segments, after `\` becomes `/`, is an excluded directory |
| Ownership.SkipThroughExcluded | backend/main.py:62-65 | any path that passes through an excluded directory is skipped |
| Ownership.SegmentsOfJoin | backend/main.py:64 | splitting a `/`-joined path of plain segments gives those segments back |
| Ownership.KeptWithoutExcludedSegment | backend/main.py:62-65 | a path whose segments are all plain and none excluded is kept |
| Ownership.CountBlameLines | backend/main.py:138-144 | the loop over the blame output of one function builds exactly the per-author line counts |
| Ownership.BlameCountsCredit | backend/main.py:138-144 | an author's count is the number of content lines (starting with a tab) that follow a header naming them; an empty author gets none |
| Ownership.CurrentIsLastAuthor | backend/main.py:141-142 | `currentAuthor` is the author of the latest `author ` header |
| Ownership.HeaderIsNotContent | backend/main.py:141-143 | an author header is never counted as a content line |
| Ownership.NoHeadersChangeNothing | backend/main.py:140-144 | output with no author header counts nothing |
| Ownership.LinesBeforeHeaderIgnored | backend/main.py:140-144 | lines before the first author header are ignored |
| Ownership.BlameCountsOk | backend/main.py:138-144 | the counts have distinct, non-empty authors and positive counts |
| Ownership.TotalLinesPositive | backend/main.py:146-148 | the total is 0 exactly when no author was counted, which is when the function is skipped |
| Ownership.MaxLines | backend/main.py:157 | the maximum is one of the counts and no count exceeds it |
| Ownership.Owners | backend/main.py:158 | an author is an owner iff their count equals the maximum |
| Ownership.OwnersNonEmpty | backend/main.py:157-159 | every counted function has at least one owner, so `1.0 / len(owners)` is defined |
| Ownership.CreditContributions | backend/main.py:153-154 | the loop appends `ccn * nlines / totalLines` to each author's contributions, as specified |
| Ownership.CreditShares | backend/main.py:160-167 | the loop adds the share to every owner, as specified |
| Ownership.Ccns | backend/main.py:102 | one complexity per function found |
| Ownership.Summary | backend/main.py:170-185 | one score per author that has contributions |
| Ownership.AnalyseFunctions | backend/main.py:68-185 | the method equals the specification of the analysis: the complexity threshold, the blame passes and the summary |
| Ownership.AnalyseFunction | backend/main.py:124-168 | the body of the loop over functions equals one step of the analysis: unblamed or uncredited functions change nothing; otherwise one more function, credited contributions and shares, and a hotspot when the complexity is above the threshold |
| Ownership.OneShareEach | backend/main.py:159 | k equal shares of `1.0 / k` add up to one function, and each share is positive |
| Ownership.StepConserves | backend/main.py:123-167 | one function step keeps the ownership totals consistent: the function shares add to the number of counted functions and the hotspot shares to the number of hotspots |
| Ownership.CountedStepConserves | backend/main.py:146-167 | a counted function adds exactly one to `totalFunctions` and one share in total |
| Ownership.SharesConserve | backend/main.py:157-161 | splitting one function among its owners adds exactly 1 to the sum of shares, and keeps the shares non-negative |
| Ownership.SharesAddUp | backend/main.py:118-167 | over all functions, the function shares add up to `totalFunctions` and the hotspot shares to `totalHotspots` |
| Ownership.GetOrAtMostSum | backend/main.py:174-177 | an author's owned shares lie between 0 and the total shares |
| Ownership.PctBounds | backend/main.py:176-178 | a part of a total as a percentage lies in [0, 100] |
| Ownership.PercentagesBounded | backend/main.py:176-178 | `percentage_of_functions_written` and `percentage_of_hotspots` lie in [0, 100] |
| Ownership.ConstantMean | backend/main.py:108 | the mean of equal complexities is that complexity |
| Ownership.NoHotspotsAtOrBelow | backend/main.py:164-167 | when no function's complexity exceeds the threshold there are no hotspots |
| Ownership.UniformComplexityNoHotspots | backend/main.py:164-178 | when every function has the same complexity nothing is a hotspot and every hotspot percentage is 0 |
| Ownership.ContributionSumIs | backend/main.py:153-154 | the contributions of one function add up to `ccn` times the fraction of lines counted |
| Ownership.ContributionsAddUpToCcn | backend/main.py:146-154 | the weighted contributions of one counted function add up to its complexity |
| Ownership.CountsAddUpToCcn | backend/main.py:153-154 | for non-empty counts, the contributions add up to the complexity |
| Ownership.LocPercentages | backend/main.py:211-212 | one percentage per author, for the same authors |
| Ownership.PercentAdd | backend/main.py:212 | percentages of one total add |
| Ownership.PercentBounds | backend/main.py:212 | a count within the total gives a percentage in [0, 100], and 100 for the whole total |
| Ownership.CalculateLoc | backend/main.py:189-213 | the walk over the blamed files and the percentage step equal the specification |
| Ownership.CountBlameHeaders | backend/main.py:206-209 | the loop over one file's porcelain lines adds one line per `author ` header to that author |
| Ownership.AuthorLocOk | backend/main.py:206-209 | the per-author line counts have distinct authors and positive counts |
| Ownership.SkippedFileIgnored | backend/main.py:198-199 | a file under an excluded directory adds nothing, whatever its blame output |
| Ownership.LocFractionSum | backend/main.py:212 | the per-author percentages add up to the total's share of `totalLOC` |
| Ownership.LocPercentagesAddUp | backend/main.py:211-212 | there are no lines iff no author was counted; otherwise the LOC percentages add up to exactly 100 |
| Ownership.LocPercentagesBounded | backend/main.py:212 | every LOC percentage lies in [0, 100] |
| Ownership.MergeMetrics | backend/main.py:216-228 | the merged authors are exactly the union of both inputs; each gets its scores or the zero defaults, and its LOC percentage or 0.0 |
| FinalStats.DigitsOnly | backend/main.py:264-265 | dropping a literal's underscores leaves only digits, and leaves a run of digits unchanged |
| FinalStats.ParseInt | backend/main.py:264-265 | `int()` of a string succeeds exactly on whitespace, an optional sign and digits with single underscores between digits |
| FinalStats.ParseIntOfText | backend/main.py:264-265 | `int(str(n)) == n` for every integer, also with whitespace around the text |
| FinalStats.ParseIntSigned | backend/main.py:264-265 | `int()` of a sign and digits is the signed value of the digits |
| FinalStats.ParseIntUnderscore | backend/main.py:264-265 | `int("1_000")` is 1000 |
| FinalStats.PyInt | backend/main.py:264-274 | `int()` truncates a number and fails on None, a list or a dict |
| FinalStats.PyIntOfInt | backend/main.py:264-265 | `int()` of an integral number is that integer |
| FinalStats.DefaultLoc | backend/main.py:257 | after `setdefault` the dict has `percentage_of_LOC` |
| FinalStats.DefaultLocGet | backend/main.py:257 | `setdefault` writes 0.0 only where `percentage_of_LOC` is missing and leaves every other lookup as it was |
| FinalStats.DefaultLocAll | backend/main.py:256-257 | `setdefault` over every author keeps the same authors and gives each of them `percentage_of_LOC` |
| FinalStats.FromOutput | backend/main.py:248-257 | the output.json passes succeed exactly when the data is a dict or falsy, its `authors` and `%LOC` are dicts, and every author's metrics can be merged with `update` |
| FinalStats.FromOutputKeys | backend/main.py:248-257 | after the output.json passes, `merged` holds exactly the authors of `authors` and `%LOC`, each with `percentage_of_LOC` |
| FinalStats.AddStatGet | backend/main.py:260-265 | one commit adds 1 to its author's count and leaves the others alone; the author becomes present; keys stay distinct |
| FinalStats.AddStatTotals | backend/main.py:263-265 | one commit adds 1 to the commit total and its additions and deletions to the edit total |
| FinalStats.TotalsSet | backend/main.py:270-271 | replacing one author's counts changes the totals by the difference |
| FinalStats.CommitStatsTotals | backend/main.py:259-271 | the commit total is the number of commits, and the edit total is the sum of every commit's additions and deletions |
| FinalStats.StatPairs | backend/main.py:267-268 | one `update` per counted author |
| FinalStats.PercentagesAll | backend/main.py:272-276 | adding the percentages keeps the same authors |
| FinalStats.CombineJsonOf | backend/main.py:242-276 | an error exactly when the output.json passes raise, some commit cannot be read (not a dict, an unhashable author, stats that are not a dict, an `int()` that raises), or an author's `int()` raises in the last loop |
| FinalStats.UpdateEach | backend/main.py:267-268 | the `update` loop equals the specification |
| FinalStats.UpdateAuthors | backend/main.py:250-251 | the `authors` loop raises exactly when some author's metrics cannot be merged, and otherwise builds the specified `merged` |
| FinalStats.SetLocs | backend/main.py:253-257 | the `%LOC` loop and the `setdefault` loop equal the specification |
| FinalStats.MergeOutput | backend/main.py:248-257 | the output.json passes, with their errors, equal the specification |
| FinalStats.CountCommits | backend/main.py:259-265 | the commits loop fails exactly when some commit cannot be read, and otherwise builds the specified counts |
| FinalStats.ReadableMerged | backend/main.py:272-274 | true exactly when every author's conversions succeed |
| FinalStats.AddPercentages | backend/main.py:272-276 | fails exactly when an author's `int()` raises; otherwise adds both percentages as specified |
| FinalStats.CombineJson | backend/main.py:242-281 | the method equals the specification |
| FinalStats.CommitStatsCount | backend/main.py:259-265 | an author's `commits` is the number of commits attributed to them (empty author as `Unknown`); an author is present iff they have a commit; keys are distinct |
| FinalStats.UpdateAllOther | backend/main.py:250-268 | updates that do not name an author leave that author as they were |
| FinalStats.UpdateAllOnce | backend/main.py:267-268 | an author named once gets exactly that update |
| FinalStats.UpdateAllHasKey | backend/main.py:250-251 | the `update` loop adds exactly the authors it names |
| FinalStats.SetLocAllHasKey | backend/main.py:254-255 | the `%LOC` loop adds exactly the authors of `%LOC` |
| FinalStats.StatFieldsCommits | backend/main.py:268 | the update writes the commit count and leaves `percentage_of_LOC` as it was |
| FinalStats.PercentagesKeep | backend/main.py:275-276 | adding the percentages changes no other field |
| FinalStats.PercentagesGet | backend/main.py:272-276 | each author's `commit_percentage` and `edit_percentage` are their commits and edits over the totals, times 100 |
| FinalStats.PercentagesAllGet | backend/main.py:272-276 | every author stays present, and fields other than the two percentages keep their values |
| FinalStats.CommitsCounted | backend/main.py:242-276 | in a successful combine every author with commits is present, with `commits` equal to their number of commits |
| FinalStats.ResultPercentages | backend/main.py:259-276 | in a successful combine each author's `commit_percentage` is their `commits` over the number of commits, and `edit_percentage` their edits over all commits' additions and deletions, times 100, with an empty total counted as 1 |
| FinalStats.CommitShare | backend/main.py:259-276 | an author with commits has `commit_percentage` equal to their share of all commits, times 100 |
| FinalStats.CountByBound | backend/main.py:260-263 | no author has more commits than there are commits |
| FinalStats.WithCommitsLoc | backend/main.py:267-268 | merging the commit statistics neither adds nor removes `percentage_of_LOC` |
| FinalStats.LocPresence | backend/main.py:242-276 | in a successful combine an author has `percentage_of_LOC` exactly when output.json names them under `authors` or `%LOC`; authors found only in commits.json have none |
| CombineDocs.PathKey | backend/services/combineDocumentationMetrics.js:53 | every backslash becomes a slash; the length is kept |
| CombineDocs.Extname | backend/services/combineDocumentationMetrics.js:92 | `path.extname`: empty, or a suffix of the name that starts with a dot and contains no slash |
| CombineDocs.FinalizeAll | backend/services/combineDocumentationMetrics.js:123-144 | each student is finalized, in order |
| CombineDocs.CombineDocumentationMetricsOf | backend/services/combineDocumentationMetrics.js:14-24 | null exactly for an empty registry |
| CombineDocs.AddStudents | backend/services/combineDocumentationMetrics.js:72-119 | the loop over one file's students equals the specification |
| CombineDocs.CombineDocumentationMetrics | backend/services/combineDocumentationMetrics.js:14-155 | the method equals the specification |
| CombineDocs.ProcessedPaths | backend/services/combineDocumentationMetrics.js:31-58 | a path has been processed iff some parsed documentation entry has it as its normalized `jsonPath` |
| CombineDocs.StepProcessed | backend/services/combineDocumentationMetrics.js:53-58 | an entry adds its normalized path exactly when it is eligible and not yet processed |
| CombineDocs.NonCandidateIgnored | backend/services/combineDocumentationMetrics.js:36-50 | an entry that is not a parsed worklog, sprint report or project plan with a `jsonPath` changes nothing |
| CombineDocs.DuplicatePathIgnored | backend/services/combineDocumentationMetrics.js:53-57 | a second entry for a path already read, even with other slashes, changes nothing |
| CombineDocs.DocKeyTimestamped | backend/services/combineDocumentationMetrics.js:85-95 | a stored name `base__timestamp.ext` decides the key, `base` plus the extension, whatever the file says |
| CombineDocs.DocKeyFromSource | backend/services/combineDocumentationMetrics.js:85 | otherwise the file's non-empty `source_file` is the key |
| CombineDocs.AccAddConsistent | backend/services/combineDocumentationMetrics.js:101-113 | recording a new document keeps the student's totals equal to the sums over their documents |
| CombineDocs.AddDocConsistent | backend/services/combineDocumentationMetrics.js:72-119 | adding one student's document keeps every student consistent |
| CombineDocs.AddDocsConsistent | backend/services/combineDocumentationMetrics.js:72-119 | adding a file's students keeps every student consistent |
| CombineDocs.RunConsistent | backend/services/combineDocumentationMetrics.js:31-120 | after the registry loop every student's totals match their documents |
| CombineDocs.CombinedStudents | backend/services/combineDocumentationMetrics.js:72-144 | student names are distinct; each student has at least one document, with distinct keys; `total_docs` counts them; total words and sections are sums; the three averages are means over the documents |
| AnalyzeDocs.PyNumber | backend/parsers/analyze_all_documents.py:42-44 | a number is accepted as itself; anything other than a number or a bool makes the arithmetic raise |
| AnalyzeDocs.MetricsOf | backend/parsers/analyze_all_documents.py:37-44 | the metrics read succeeds iff each of the four keys, defaulting to 0, holds a number Python can add and multiply |
| AnalyzeDocs.Finalize | backend/parsers/analyze_all_documents.py:49-67 | with no positive word count both weighted means are 0; missing buckets finalize to all zeros |
| AnalyzeDocs.FinalizeAll | backend/parsers/analyze_all_documents.py:140-142 | every student keeps their docs and gets their buckets finalized, in order |
| AnalyzeDocs.MergeBlock | backend/parsers/analyze_all_documents.py:115-137 | the loop over one file's `students` block equals the specification, errors included |
| AnalyzeDocs.AddStudentsErr | backend/parsers/analyze_all_documents.py:115-137 | an error partway through a block is the result of the whole block |
| AnalyzeDocs.AddFilesErr | backend/parsers/analyze_all_documents.py:101-137 | an error in one file is the result of the whole run |
| AnalyzeDocs.MergeFile | backend/parsers/analyze_all_documents.py:102-137 | one file of the loop: skips, raising reads and the students merge, as specified |
| AnalyzeDocs.MergeFiles | backend/parsers/analyze_all_documents.py:101-137 | the `os.listdir` loop equals the specification |
| AnalyzeDocs.AnalyzeAllDocuments | backend/parsers/analyze_all_documents.py:69-151 | the method equals the specification |
| AnalyzeDocs.MergeInitialisesOnce | backend/parsers/analyze_all_documents.py:30-45 | a new student's buckets start at zero; later merges add the word count and append the readability |
| AnalyzeDocs.AccumulateSums | backend/parsers/analyze_all_documents.py:30-45 | after merging documents the buckets are the sum of word counts, the word-weighted sums of sentence length and complexity, and the list of readabilities |
| AnalyzeDocs.SumScaled | backend/parsers/analyze_all_documents.py:43-44 | weighting a constant by the word counts gives that constant times their sum |
| AnalyzeDocs.WeightedSumBetween | backend/parsers/analyze_all_documents.py:43-44 | with non-negative weights a weighted sum lies between `lo` and `hi` times the total weight |
| AnalyzeDocs.WeightedMeansBetween | backend/parsers/analyze_all_documents.py:24-54 | the weighted averages of sentence length and complexity lie within the range of the documents that have words |
| AnalyzeDocs.QuotientBetween | backend/parsers/analyze_all_documents.py:53-54 | a weighted sum within the bounds gives an average within the same bounds |
| AnalyzeDocs.FinalizedMeans | backend/parsers/analyze_all_documents.py:26-60 | the total word count is the sum; readability is the plain mean over the documents; with no words the weighted means are 0 |
| AnalyzeDocs.ZeroWordDoc | backend/parsers/analyze_all_documents.py:42-54 | a document without words leaves both weighted means unchanged but still adds a readability |
| AnalyzeDocs.RepeatedSource | backend/parsers/analyze_all_documents.py:124-137 | a second file with the same `source_file` replaces the per-doc entry, without adding one, yet the metrics are still merged a second time |
| AnalyzeDocs.AddFilesDistinct | backend/parsers/analyze_all_documents.py:115-121 | each student appears once in the result |
| AnalyzeDocs.AddStudentsDistinct | backend/parsers/analyze_all_documents.py:117-121 | merging a block keeps student names distinct |
| AnalyzeDocs.FileOutcomes | backend/parsers/analyze_all_documents.py:102-113 | names that do not end in `.json` or hold no valid JSON change nothing; a JSON value that is not an object makes `parsed.get` raise |
| AnalyzeDocs.AccumulateSnoc | backend/parsers/analyze_all_documents.py:30-45 | accumulating one more document merges it into the buckets of the earlier ones |
| AnalyzeDocs.AddStudentsAccum | backend/parsers/analyze_all_documents.py:115-137 | after a `students` block, a student's `_accum` is the accumulation of their earlier documents followed by the block's entries for them, and the student is present iff they were before or the block names them |
| AnalyzeDocs.AddStudentAccum | backend/parsers/analyze_all_documents.py:115-137 | one entry of a block extends its own student's accumulated documents by its metrics, makes that student present, and leaves every other student alone |
| AnalyzeDocs.AddFileAccum | backend/parsers/analyze_all_documents.py:101-137 | one file extends a student's accumulated documents by that file's entries for them |
| AnalyzeDocs.AddFilesAccum | backend/parsers/analyze_all_documents.py:101-137 | after all files, a student's `_accum` is the accumulation of every document naming them, in file order, and exactly the students some file names are present |
| AnalyzeDocs.AnalyzedStudent | backend/parsers/analyze_all_documents.py:99-151 | every student of the result has at least one document; their `combined` is the finalized accumulation of those documents, the total word count is their sum and readability their plain mean |
| Server.DetectTypeFromName | backend/server.js:45-54 | a user guess other than empty or `unknown` is returned as it is; otherwise the type is one of attendance, worklog, sprint_report, peer_review or unknown |
| Server.DetectTypeRules | backend/server.js:47-53 | without a usable guess the first case-insensitive rule wins, in order: attendance; worklog or weekly; sprint and report; `project_plan` is never produced |
| Server.DetectTypeIgnoresCase | backend/server.js:47 | detection ignores the case of the file name |
| Server.TallyCommits | backend/server.js:70-77 | the `commits.forEach` loop builds exactly the per-author tallies |
| Server.CountGet | backend/server.js:72-76 | one commit adds 1 commit and its additions and deletions to its author only; the author becomes present; keys stay distinct |
| Server.RawOfSpec | backend/server.js:70-77 | an author's tally is their number of commits and the sums of their additions and deletions, missing stats as 0, a missing author as `Unknown`; an author is present iff they have a commit; keys are distinct |
| Server.BlendBetween | backend/server.js:97-109 | the weights 0.3, 0.4 and 0.3 sum to 1, so normalized values in [0, 1] blend into [0, 1] |
| Server.AuthorScores | backend/server.js:100-109 | one score per author, in key order |
| Server.RankOrder | backend/server.js:112 | the sort order lists positions of the authors |
| Server.RankingOf | backend/server.js:115-123 | one ranking entry per author |
| Server.GetScores | backend/server.js:58-126 | 404 when commits.json is absent; an empty ranking and raw for a non-array or empty list; otherwise the tallies and their ranking |
| Server.NormalizeMinMax | backend/server.js:84-89 | a constant list maps to all 1s; every output lies in [0, 1]; otherwise the minimum maps to 0 and the maximum to 1, and only those |
| Server.ScoresUnit | backend/server.js:100-109 | every author's score lies in [0, 1] |
| Server.PercentBetween | backend/server.js:113-122 | against the total-or-1, a non-negative score is between 0 and 100 percent |
| Server.RankingSpec | backend/server.js:100-123 | the order is a permutation sorted by descending score, ties in key order; entry k has rank k + 1 and that author's tallies, a score in [0, 1] and a percent in [0, 100] |
| Server.RankingDescending | backend/server.js:112 | down the ranking scores never increase |
| Server.Basename | backend/server.js:38 | `path.basename` contains no slash |
| Server.StoredName | backend/server.js:35-40 | the stored name `${base}__${ts}${ext}` contains `__` and no slash |
| Server.NewEntry | backend/server.js:155-167 | a new entry is `uploaded` with a null userType and parseInfo; its id is its stored name, stored under `uploads/`; it keeps the original name and the upload date; its detected type comes from the name |
| Server.FinalType | backend/server.js:183 | a truthy type other than `unknown` is used; otherwise the detected type, or `unknown` when there is none |
| Server.ParserFor | backend/server.js:196-232 | attendance for .xlsx or .xls, worklog for .docx or .pdf, sprint_report for .docx; nothing else runs a parser |
| Server.ConfirmEntry | backend/server.js:183-256 | confirm changes only userType, status and parseInfo: `confirmed` when no parser applies, `parsed` with the output path and success message when the parser succeeds, `parse_failed` with the failure message when it fails |
| Server.ConfirmUpload | backend/server.js:183-256 | the handler's updates to one entry equal the specification of confirm |
| Server.SprintReportPath | backend/server.js:242-245 | a sprint report is always recorded as `uploads/sprint_report_summary.json`, whatever its name |
| Server.CombinerReadsParsedReports | backend/server.js:183-256 | the documentation combiner reads a registry entry iff it is parsed and is a worklog or a sprint report |
| Server.EntryFields | backend/server.js:155-167 | the registry JSON of an entry carries its userType, detected type, status name and jsonPath |
| Server.UploadRegistry.constructor | backend/server.js:22 | the registry starts as an empty list |
| Server.UploadRegistry.Upload | backend/server.js:148-172 | without a file: 400 `No file uploaded` and no change; otherwise exactly the new entry is appended and returned |
| Server.UploadRegistry.Confirm | backend/server.js:175-257 | 400 `Missing id` for a falsy id; 404 `Upload not found` when no entry has it; otherwise only the first entry with that id is confirmed and returned |
| Server.FindUpload | backend/server.js:180 | the first entry with the given id, or -1 when there is none |
| Server.ConfirmNeverUploaded | backend/server.js:183-256 | a confirmed entry never returns to `uploaded`, and confirming it again with the same inputs changes nothing |
| Rules.ReadActiveId | backend/routes/rules.js:29-41 | a missing or unreadable pointer reads as null; the legacy string form reads as that string; the object form reads as its `id` |
| Rules.ActivePointerRoundTrip | backend/routes/teams.js:32-51 | reading back a written pointer `{id}` gives the id, and the legacy string form reads the same as the object form |
| Rules.RulesOf | backend/routes/rules.js:45-56 | one rule object per table row, with its name, value and description |
| Rules.RuleNumberOf | backend/routes/rules.js:68-69 | a rule with a numeric value weighs that value, under its trimmed, lower-cased name |
| Rules.RuleFields | backend/routes/rules.js:45-56 | a rule object's `name` and `value` read back as given |
| Rules.DefaultRulesTotal | backend/routes/rules.js:44-56 | there are ten default rules, and their weights add up to 88, not 100 |
| Rules.WeightsFromActiveTeam | backend/routes/rules.js:63-74 | the `forEach` loop equals the specification: null for a non-array, an error when a rule has no string name, otherwise the weight table |
| Rules.WeightsSpec | backend/routes/rules.js:63-74 | the weight table exists iff every rule has a string name; then its keys are distinct and are exactly the rules' normalized names |
| Rules.DefaultRulesNamed | backend/routes/rules.js:45-56 | every default rule has a string name, so the defaults never make the weight table throw |
| Rules.LaterRuleWins | backend/routes/rules.js:67-72 | the last rule with a given normalized name decides that name's weight |
| Rules.ServeRules | backend/routes/rules.js:86-89 | the response is sent iff building the weight table does not throw |
| Rules.GetRules | backend/routes/rules.js:78-90 | 400 when neither the query nor the active pointer names a team; 404 when no team has the id; otherwise the team's rules, or the defaults when it has none |
| Rules.ServeDefaults | backend/routes/rules.js:86-89 | a team without rules is served each default setting and its team id |
| Rules.SpreadSettings | backend/routes/rules.js:89 | the spread response carries each of the five settings and the team id |
| Rules.Nullish | backend/routes/rules.js:114-115 | `a ?? b` falls through only for null or undefined |
| Rules.MergedRules | backend/routes/rules.js:111-118 | the saved rules object always has exactly the five settings |
| Rules.SettingsFields | backend/routes/rules.js:112-118 | each setting reads back as stored |
| Rules.MergeTakesValidBody | backend/routes/rules.js:112-118 | a body field is saved when it is valid: an array of rules, boolean flags, truthy triangulation and peer validation |
| Rules.MergeOfNothingIsDefault | backend/routes/rules.js:111-118 | an empty body over a team without rules saves exactly the defaults |
| Rules.MergeIdempotent | backend/routes/rules.js:111-118 | saving an empty body over saved settings keeps them |
| Rules.MergeKeepsSettings | backend/routes/rules.js:111-118 | settings whose fields are all valid survive a merge with an empty body |
| Rules.SavedRulesScoreZero | backend/routes/rules.js:112-118 | settings saved by this route carry none of the aggregator's five dimension keys, so a team scored with them gives every student 0 |
| Rules.WithRules | backend/routes/rules.js:112 | the team gets the new `rules` and keeps every other field |
| Rules.SaveReply | backend/routes/rules.js:121-124 | the response is sent iff the weight table does not throw, and is a 500 otherwise |
| Teams.FindTeamAppend | backend/routes/teams.js:71-104 | appending a team keeps every earlier match; only an id found nowhere else can find the new team |
| Teams.FindTeamSameIds | backend/routes/rules.js:108-112 | lookups depend only on the teams' ids, so saving rules does not move a team |
| Teams.TeamIdInjective | backend/routes/teams.js:92 | two created ids are equal exactly when they read the same clock value |
| Teams.Team | backend/routes/teams.js:94-102 | a team record has exactly the seven team fields |
| Teams.TeamFields | backend/routes/teams.js:94-102 | each field of a team record reads back as given |
| Teams.NewTeamFields | backend/routes/teams.js:92-102 | the new team has the generated id, the body's name and code, the repo or null, the students array or `[]`, null rules, and the creation time |
| Teams.NewTeamUsesDefaultWeights | backend/routes/teams.js:100 | a new team has no rules, so it is scored with the aggregator's default weights |
| Teams.SavedRulesServed | backend/routes/rules.js:78-124 | after saving rules for a team, it stays at the same position, and GET serves exactly the saved settings |
| Teams.TeamStore.constructor | backend/routes/teams.js:16-19 | fresh data files: no teams and the pointer `{id: null}` |
| Teams.TeamStore.GetActive | backend/routes/teams.js:60-63 | the response's `id` is the active id |
| Teams.TeamStore.SetActive | backend/routes/teams.js:66-76 | 400 for a falsy id and 404 for an unknown one, both without change; otherwise the pointer becomes `{id}`; the teams never change |
| Teams.TeamStore.CreateTeam | backend/routes/teams.js:86-110 | 400 without a name or a code, with no change; otherwise exactly the new team is appended, becomes active, and is returned with 201 |
| Teams.TeamStore.SaveRules | backend/routes/rules.js:94-125 | 400 with no team id and 404 for an unknown team, both without change; otherwise only that team's rules become the merged settings; the pointer never changes |
| RuleSettingsPage.ParseIntOfDecimal | frontend/src/pages/RuleSettings.jsx:209 | `parseInt` reads back the decimal text a range input reports |
| RuleSettingsPage.TotalWeightAppend | frontend/src/pages/RuleSettings.jsx:38-41 | the total weight of two lists of rules is the sum of their totals |
| RuleSettingsPage.TotalWeightUpdate | frontend/src/pages/RuleSettings.jsx:208-215 | replacing one rule changes the total by the difference of that rule's weight |
| RuleSettingsPage.RuleWeightOf | frontend/src/pages/RuleSettings.jsx:39 | a rule weighs `parseInt(r.value) \|\| 0`, its value (in fixed notation) truncated to an integer |
| RuleSettingsPage.DefaultRuleWeights | frontend/src/pages/RuleSettings.jsx:7-19 | the ten default rules weigh 12, 10, 7, 12, 10, 9, 5, 5, 7 and 11 |
| RuleSettingsPage.DefaultTotalWeight | frontend/src/pages/RuleSettings.jsx:36-41 | before any fetch the page shows the defaults, which total 88, so the total indicator is red |
| RuleSettingsPage.TotalWeightOfValues | frontend/src/pages/RuleSettings.jsx:38-41 | a list's total weight is the sum of its rules' weights |
| RuleSettingsPage.NormaliseSpec | frontend/src/pages/RuleSettings.jsx:56-65 | the normalized payload has an array of rules, two booleans and truthy triangulation and peer validation; each field is the fetched one exactly when that is valid, and otherwise the default |
| RuleSettingsPage.NormaliseIdempotent | frontend/src/pages/RuleSettings.jsx:56-65 | normalizing a normalized payload changes nothing |
| RuleSettingsPage.NormaliseKeepsPayload | frontend/src/pages/RuleSettings.jsx:56-65 | a payload whose fields all have valid shapes is its own normalization |
| RuleSettingsPage.LoadsDefaults | frontend/src/pages/RuleSettings.jsx:48-66 | a team without saved rules loads as exactly the default settings, under its own id |
| RuleSettingsPage.SpreadPutFields | frontend/src/pages/RuleSettings.jsx:211-264 | spreading an object and setting one key changes that key only |
| RuleSettingsPage.SliderSpec | frontend/src/pages/RuleSettings.jsx:208-215 | a rule slider keeps the other rules and settings; that rule gets the parsed value and keeps its other fields; the total changes by the difference |
| RuleSettingsPage.ToggleSpec | frontend/src/pages/RuleSettings.jsx:235-247 | a toggle flips exactly one flag, and toggling twice restores a boolean flag |
| RuleSettingsPage.TriangulationSpec | frontend/src/pages/RuleSettings.jsx:261-288 | a triangulation slider sets one threshold, keeping the other thresholds and every other setting |
| RuleSettingsPage.SetPeerValidation | frontend/src/pages/RuleSettings.jsx:294-296 | the select sets `peerValidation` and keeps every other setting |
| RuleSettingsPage.TagMatchesClass | frontend/src/pages/RuleSettings.jsx:391-401 | high at 80 and above, medium from 60 to below 80, low below 60; the tag and its style class always agree |
| RuleSettingsPage.Preview | frontend/src/pages/RuleSettings.jsx:77-103 | a failed fetch empties the preview; a ranking array gives its first five entries (or fewer), each formatted; any other body keeps the previous preview |
| DashboardPage.FilterSpec | frontend/src/pages/Dashboard.jsx:32-40 | a blank query keeps the whole ranking; otherwise a student is kept iff their name or email contains the trimmed, lower-cased query; the result is never longer |
| DashboardPage.FilterAppend | frontend/src/pages/Dashboard.jsx:36-39 | filtering a ranking split in two is filtering each part, in order |
| DashboardPage.ScoreValues | frontend/src/pages/Dashboard.jsx:46 | the terms of the average are each entry's `score \|\| 0` |
| DashboardPage.SumOrNaNSpec | frontend/src/pages/Dashboard.jsx:48 | the commit total is a number exactly when every term is |
| DashboardPage.SumOrNaNAppend | frontend/src/pages/Dashboard.jsx:48 | the total over two parts is the sum of their totals, NaN if either is |
| DashboardPage.EmptyKpis | frontend/src/pages/Dashboard.jsx:45 | an empty ranking shows 0, `0/0` and 0 |
| DashboardPage.KpisAverage | frontend/src/pages/Dashboard.jsx:46 | the average is within 0.05 of the mean score, and in [0, 100] when every score is |
| DashboardPage.KpisCounts | frontend/src/pages/Dashboard.jsx:47-48 | `high` is the number of students scoring at least 80 over the team size; the commit total is a number exactly when every rounded term is |
| DashboardPage.MeanOfPercentages | frontend/src/pages/Dashboard.jsx:46 | the mean of values in [0, 100] is in [0, 100] |
| DashboardPage.RoundToTenthSpec | frontend/src/pages/Dashboard.jsx:46 | rounding to one decimal moves a value by at most 0.05 and keeps it within [0, 100] |
| DashboardPage.BadgeMatchesPreview | frontend/src/pages/Dashboard.jsx:195 | the dashboard badge and the class of the rules page's preview row agree for every ranking entry |
| DashboardPage.ColorBand | frontend/src/pages/Dashboard.jsx:196 | every score gets one of the six colours, by band |
| DashboardPage.ColorBandMonotone | frontend/src/pages/Dashboard.jsx:196 | a higher score never gets a worse colour band |
| DashboardPage.GreenIsHigh | frontend/src/pages/Dashboard.jsx:195-196 | the two greens mark exactly the high contributors |
| RepoUrl.PathSegments | backend/fetchData.js:37 | the non-empty segments of a path, none containing a slash |
| RepoUrl.OwnerRepoPath | backend/fetchData.js:37-38 | a path `/owner/repo...` has `owner` and `repo` as its first two segments |
| RepoUrl.StripGitSuffix | backend/fetchData.js:34-38 | a final `.git`, in any letter case, is removed, and nothing else changes |
| RepoUrl.StripGitOfSuffixed | backend/fetchData.js:34-38 | a name followed by `.git` in any case gives the name back |
| RepoUrl.StripGitOfPlain | backend/fetchData.js:34-38 | a name that does not end in `.git` is kept as it is |
| FetchData.ParseNotAString | backend/fetchData.js:29-41 | a falsy input, or one that is not a string, gives empty owner and repo |
| FetchData.ParseSlashForm | backend/fetchData.js:29-35 | `owner/repo` with no scheme reads as its two sides, with `.git` removed from the name |
| FetchData.ParseUrlForm | backend/fetchData.js:36-41 | a URL whose path is `/owner/repo...` reads as the owner and the repo without `.git`; one that does not parse reads as empty parts |
| FetchData.PatchFromUrlSpec | backend/fetchData.js:65-69 | owner and repo fields that are set are kept; missing ones come from the url; every other field is unchanged |
| FetchData.EnvPartsWin | backend/fetchData.js:45-58 | with REPO_OWNER and REPO_NAME both set they are the answer, whatever REPO_URL says; the url is REPO_URL or the GitHub URL built from them |
| FetchData.ReadRepoInfoErrors | backend/fetchData.js:45-74 | from the environment, an error iff owner or repo stays empty; without environment and without repo.json, an error; a successful read from the file has a truthy owner and repo |
| FetchData.AuthorOf | backend/fetchData.js:119-131 | the commit author's name, else the GitHub login, else `Unknown`; never falsy |
| FetchData.Detailed | backend/fetchData.js:109-134 | one entry per summary, in order |
| FetchData.FetchSummaries | backend/fetchData.js:98-107 | the listing loop equals its specification: pages from 1 until an empty or short page or page 10, a failed request ending in an error |
| FetchData.DetailAll | backend/fetchData.js:109-134 | a null summary makes the loop throw; otherwise the detail loops give exactly the specified entries |
| FetchData.FetchAllCommits | backend/fetchData.js:92-137 | the method equals the specification: the listing loop, then the detail loops |
| FetchData.OnlyTenPages | backend/fetchData.js:106 | pages after the tenth are never requested |
| FetchData.AtMostThousand | backend/fetchData.js:95-106 | when every page holds at most 100 commits, at most 1000 are gathered |
| FetchData.DetailedSpec | backend/fetchData.js:111-134 | each entry has its summary's sha and a truthy author; a failed detail request gives `Unknown` with zero stats; a detailed commit takes its author and stats from the detail; commits past the limit get zero stats and their summary's author |
| SetupTeamPage.Rows | frontend/src/pages/SetupTeam.jsx:188 | the rows kept from the pasted text are each non-blank and trimmed, and there are no more of them than lines |
| SetupTeamPage.ParseCsv | frontend/src/pages/SetupTeam.jsx:187-195 | the row loop returns the student of each row that has both a name and an email, in order |
| SetupTeamPage.ReadRows | frontend/src/pages/SetupTeam.jsx:189-194 | the row loop pushes the student of each row that names both a name and an email |
| SetupTeamPage.RowStudentSpec | frontend/src/pages/SetupTeam.jsx:191-192 | every student read has a non-empty, trimmed name and email, neither holding a comma |
| SetupTeamPage.StudentsOfRows | frontend/src/pages/SetupTeam.jsx:190-193 | reading rows distributes over concatenation and never yields more students than rows |
| SetupTeamPage.RowRoundTrip | frontend/src/pages/SetupTeam.jsx:191-192 | the row `name,email`, with or without further fields, reads back as that student |
| SetupTeamPage.CsvLines | frontend/src/pages/SetupTeam.jsx:109-113 | one `name,email` line per student, in order |
| SetupTeamPage.SplitJoinLines | frontend/src/pages/SetupTeam.jsx:188 | lines without line breaks, joined by `\n` and split again, come back unchanged |
| SetupTeamPage.CsvLineShape | frontend/src/pages/SetupTeam.jsx:188 | the line of a well-formed student is trimmed, non-blank and has no line break |
| SetupTeamPage.RowsOfTrimmed | frontend/src/pages/SetupTeam.jsx:188 | trimmed, non-blank rows pass the trim-and-filter step unchanged |
| SetupTeamPage.StudentsOfLines | frontend/src/pages/SetupTeam.jsx:190-193 | the lines of well-formed students read back as those students |
| SetupTeamPage.CsvRoundTrip | frontend/src/pages/SetupTeam.jsx:187-195 | pasting the lines of well-formed students gives back exactly those students, in order; an empty roster writes "" and reads back as no students |
| SetupTeamPage.NormalizeMatchesFetcher | frontend/src/pages/SetupTeam.jsx:197-208 | the url is always kept; a parsable URL gets the same owner and repo as the backend fetcher's reading; an unparsable one gives only the url |
| SetupTeamPage.CreateBodyFields | frontend/src/pages/SetupTeam.jsx:45-50 | the posted body carries the name, code, normalised repo and students given |
| SetupTeamPage.PostedBodyIsAccepted | frontend/src/pages/SetupTeam.jsx:32-58 | the page refuses iff a trimmed name, code or URL is empty or no student was read; a body it posts passes the backend's checks, and the stored team has the trimmed name and code, the normalised repo and the students |
| Attendance.MembersSpec | backend/parsers/attendance.py:12 | the members are exactly the headers other than Week, Date and Reasons for Absence |
| Attendance.RowDict | backend/parsers/attendance.py:20 | every header paired with a cell is a key, and only headers are keys |
| Attendance.RowDictLast | backend/parsers/attendance.py:20 | a header reads the cell of the last column carrying it |
| Attendance.AbsenteesSpec | backend/parsers/attendance.py:36-42 | a member is listed absent iff their status is `absent`, in header order |
| Attendance.WeekNumber | backend/parsers/attendance.py:28 | a numeric Week cell gives its number; a blank or a date raises |
| Attendance.FirstLine | backend/parsers/attendance.py:47 | the longest prefix without a line break, stopped at the break |
| Attendance.ReasonsSpec | backend/parsers/attendance.py:44-50 | each name is recorded once, with the reason of its last matching fragment |
| Attendance.MatchReasonOfFragment | backend/parsers/attendance.py:47-50 | a fragment `name - reason` reads back as that name and reason |
| Attendance.ReasonsOfTwo | backend/parsers/attendance.py:46 | fragments separated by `;` or `,` are read one by one |
| Attendance.CountsSnoc | backend/parsers/attendance.py:17-40 | one more row counts iff its first cell is truthy, and adds a present row iff the member is present in it |
| Attendance.PresentAtMostKept | backend/parsers/attendance.py:38-40 | a member is present in no more rows than are kept |
| Attendance.Round2Spec | backend/parsers/attendance.py:55 | rounding to hundredths moves a value by at most 0.005 and keeps a rate in [0, 1] |
| Attendance.RateOfRepeated | backend/parsers/attendance.py:36-55 | a member header repeated `k` times multiplies both counts by `k` and leaves the rate unchanged |
| Attendance.Unique | backend/parsers/attendance.py:15-57 | the keys of the dict comprehension: the same elements, each once |
| Attendance.Summary | backend/parsers/attendance.py:54-57 | one entry per distinct member |
| Attendance.WeeksSpec | backend/parsers/attendance.py:17-52 | the weeks succeed iff every kept row's record does; then there is one record per kept row, in order |
| Attendance.SummaryKeys | backend/parsers/attendance.py:15-57 | every member appears once, in header order, even one that no kept row mentions |
| Attendance.RateBounds | backend/parsers/attendance.py:55 | a rate lies in [0, 1] and is 0 with no rows |
| Attendance.SummaryRate | backend/parsers/attendance.py:54-57 | each rate is present rows over kept rows, rounded to hundredths, in [0, 1], and 0.0 when no row is kept |
| Attendance.TallyRow | backend/parsers/attendance.py:36-42 | each member column adds one to its total and, when present, to its attendance; the absentees are those marked absent |
| Attendance.TallyMember | backend/parsers/attendance.py:37-42 | one member column adds one to the total and, when present, one to the attendance; the member is an absentee iff marked absent |
| Attendance.WriteReasons | backend/parsers/attendance.py:46-50 | each matching fragment writes its name's reason over any earlier one |
| Attendance.ReadReasons | backend/parsers/attendance.py:44-50 | the loop gives the specified reasons |
| Attendance.ReadWeek | backend/parsers/attendance.py:20-52 | one kept row gives its specified record or exception, and the counts after it |
| Attendance.Summarise | backend/parsers/attendance.py:54-57 | the comprehension over the final counts is the specified summary |
| Attendance.ParseAttendance | backend/parsers/attendance.py:7-62 | the whole parser returns the specified output or the exception Python raises |
| WeekLog.WriteRows | backend/parser.py:118-138 | the loop over the rows of every table writes, in order, the entry each row yields, a later write to a week replacing an earlier one |
| WeekLog.ParagraphsClean | backend/parsers/worklog_parser.py:12 | every paragraph kept is non-empty and already stripped, and none is added |
| WeekLog.BelowTablesFrom | backend/parser.py:141-158 | an hours entry found below the markers comes from a row after a marker cell of the same table, read in the marker's column |
| WeekLog.WriteColumn | backend/parser.py:146-158 | the loop over the rows after a marker writes, in order, the entry each of them yields in the marker's column |
| WeekLog.WriteBelowRow | backend/parser.py:143-158 | the loop over the cells of a row writes below each marker cell |
| WeekLog.WriteBelowTable | backend/parser.py:142-158 | the loop over the rows of one table writes below each of its marker cells |
| WeekLog.WriteBelowMarkers | backend/parser.py:141-161 | the loop over all tables writes exactly the specified entries below the markers, in document order |
| WeekLog.SkipSpaces | backend/parsers/worklog_parser.py:16 | the first index holding no whitespace at or after the start, every index skipped being whitespace |
| WeekLog.LeftmostSpec | backend/parsers/worklog_parser.py:23 | `search` finds a match iff one starts somewhere, and reports the leftmost |
| WeekLog.DigitRunOfDigits | backend/parsers/worklog_parser.py:16 | `\d+` takes all of a run of digits |
| WeekLog.WeekLabel | backend/parsers/worklog_parser.py:16-27 | a paragraph `Week n` reads as week `n` |
| WeekLog.HeaderMentionsWeek | backend/parsers/worklog_parser.py:16-64 | a paragraph holding a week header contains `Week` ignoring case, so it ends an Issues block |
| WeekLog.MissingChar | backend/parsers/worklog_parser.py:41 | a paragraph lacking one letter of a phrase does not contain the phrase |
| WeekLog.BlockEnd | backend/parsers/worklog_parser.py:43 | the block ends at the first terminator paragraph after its start, or at the end |
| WeekLog.CollectBlock | backend/parsers/worklog_parser.py:42-46 | the inner loop stops where the block ends and appends the item of each paragraph before it, in order |
| WeekLog.CollectBlock2 | backend/parser.py:79-91 | the inner loop that sorts each paragraph into one of two lists stops where the block ends and appends to each list its items, in order |
| WeekLog.VerbatimItems | backend/parsers/worklog_parser.py:44 | a block copied verbatim is the paragraphs themselves |
| WeekLog.ScanHeaderStep | backend/parsers/worklog_parser.py:23-37 | at a header the open record is saved and a fresh one for that week is opened |
| WeekLog.ScanHandleStep | backend/parsers/worklog_parser.py:39-67 | another paragraph inside a week is handed to the reader's handler, which moves on |
| WeekLog.ScanSkipStep | backend/parsers/worklog_parser.py:39-69 | a paragraph before the first header is passed over |
| WeekLog.ScanEnd | backend/parsers/worklog_parser.py:71-72 | at the end the open record, if any, is saved |
| WeekLog.ScanSkipsPreamble | backend/parsers/worklog_parser.py:39-69 | paragraphs before the first header leave no trace |
| WeekLog.NoHeaderNoRecords | backend/parsers/worklog_parser.py:19-74 | a document without a week header gives no record |
| WeekLog.ScanOrder | backend/parsers/worklog_parser.py:19-74 | each record was opened by a header paragraph of its own week, the headers appearing in the order of the records |
| WeekLog.ScanKeeps | backend/parsers/worklog_parser.py:19-74 | a property of every fresh record that the handler preserves holds of every record returned |
| WeekLog.OpenAll | backend/parsers/worklog_parser.py:28-35 | one fresh record per header number, in order |
| WeekLog.ScanAllPlain | backend/parsers/worklog_parser.py:19-74 | when no paragraph inside a week does anything, the result is one fresh record per header paragraph, in order |
| WorklogParser.SectionOf | backend/parsers/worklog_parser.py:41-62 | the block a paragraph opens is the first of tasks, things learned, literature and issues whose phrase it contains ignoring case, or none |
| WorklogParser.HandleParagraph | backend/parsers/worklog_parser.py:39-69 | a paragraph inside a week moves the index forward and keeps the record's week and hours |
| WorklogParser.HandlerAdvances | backend/parsers/worklog_parser.py:39-69 | every iteration of the paragraph loop moves forward, so the loop ends |
| WorklogParser.RecordsFollowHeaders | backend/parsers/worklog_parser.py:18-74 | each record was opened by a header paragraph of its own week, in document order |
| WorklogParser.NoHeaderNoWeeks | backend/parsers/worklog_parser.py:18-74 | a document without a week header gives no record |
| WorklogParser.RecordHours | backend/parsers/worklog_parser.py:30 | every record carries the table hours of its own week, or none |
| WorklogParser.HeaderStopsIssues | backend/parsers/worklog_parser.py:64 | a week header paragraph ends an issues block |
| WorklogParser.BlockParagraphs | backend/parsers/worklog_parser.py:43-45 | a block holds the document's paragraphs up to its terminator, verbatim, none of them a terminator |
| WorklogParser.HandleKeepsItems | backend/parsers/worklog_parser.py:41-67 | a paragraph inside a week keeps every item a paragraph of the document that does not end its block, and no issue a week header |
| WorklogParser.RecordItems | backend/parsers/worklog_parser.py:18-74 | every item of every record is a paragraph of the document that does not end its block, and no issue is a week header |
| WorklogParser.PlainParagraphs | backend/parsers/worklog_parser.py:39-69 | a paragraph that opens no block is passed over |
| WorklogParser.OnePerHeader | backend/parsers/worklog_parser.py:18-74 | a document none of whose paragraphs opens a block gives one empty record per header, in order |
| WorklogParser.LabelEndsOnlyIssues | backend/parsers/worklog_parser.py:43-64 | a label `Week n` ends an issues block but no tasks, learned or literature block |
| WorklogParser.HeaderAfterTasksIsATask | backend/parsers/worklog_parser.py:41-46 | a week header straight after a tasks trigger is recorded as a task of the current week, not a new week |
| WorklogParser.ExtractHoursFromTables | backend/parsers/worklog_parser.py:76-88 | the loops over tables and rows give the specified hours |
| WorklogParser.TableHours | backend/parsers/worklog_parser.py:79-85 | a week's hours are those of its last row entry; any hours come from a row whose first cell names the week, read as the first number of its last cell |
| WorklogParser.ParseWorklogDocx | backend/parsers/worklog_parser.py:6-74 | the parser returns the specified records |
| WorklogParser.HandleStep | backend/parsers/worklog_parser.py:39-69 | the tests on one paragraph inside a week and the loop of its block give the specified record and index |
| WorklogParser.ScanParagraphs | backend/parsers/worklog_parser.py:18-74 | the paragraph loop gives the specified records |
| WorklogDocx.PartOf | backend/parser.py:42-94 | the part a paragraph opens is the first of total time, tasks, things learned, literature and issues whose phrase it contains ignoring case |
| WorklogDocx.BulletedIff | backend/parser.py:62 | an item counts as bulleted iff it starts with `o` or `•` (the `o\t` prefix adds nothing) |
| WorklogDocx.LiteratureSplit | backend/parser.py:81-89 | every kept item of the literature block goes to exactly one of literature and things learned |
| WorklogDocx.StripBullets | backend/parser.py:100 | the result is a suffix of the issue, everything removed is a bullet character, and it starts with none |
| WorklogDocx.OngoingTaskDropped | backend/parser.py:62 | a task that starts with the word `ongoing` is dropped |
| WorklogDocx.OngoingIssueClipped | backend/parser.py:100 | the issue `ongoing` is kept as `ngoing` |
| WorklogDocx.WindowEnd | backend/parser.py:46 | the look-ahead covers the paragraph and the next two, clipped at the end |
| WorklogDocx.HandleDocx | backend/parser.py:40-106 | a paragraph inside a week moves the index forward, keeps the week and never replaces hours already set |
| WorklogDocx.HandlerAdvances | backend/parser.py:40-106 | every iteration of the paragraph loop moves forward, so the loop ends |
| WorklogDocx.RecordsFollowHeaders | backend/parser.py:18-112 | each record was opened by a header paragraph of its own week, in document order |
| WorklogDocx.NoHeaderNoWeeks | backend/parser.py:18-112 | a document without a week header gives no record |
| WorklogDocx.HandleKeepsTotal | backend/parser.py:42-55 | a paragraph inside a week keeps the table hours of the week, and hours added later are the first number of some paragraph |
| WorklogDocx.RecordTotals | backend/parser.py:30-55 | every record has its table hours when there are some; otherwise its hours, if any, are the first number of a paragraph |
| WorklogDocx.ItemFilters | backend/parser.py:62-102 | items let through are non-empty and unbulleted, literature looks like literature, an issue starts with no bullet character |
| WorklogDocx.HandleKeepsClean | backend/parser.py:57-104 | a paragraph inside a week keeps every item clean |
| WorklogDocx.RecordItemsClean | backend/parser.py:18-112 | every item of every record is clean |
| WorklogDocx.HeaderStopsIssues | backend/parser.py:96 | a week header paragraph ends an issues block |
| WorklogDocx.IssuesEndAtHeader | backend/parser.py:94-104 | an issues block never runs past a week header |
| WorklogDocx.WholeNumber | backend/parser.py:130 | a cell that is one number starts with a digit and reads as a non-negative value |
| WorklogDocx.WholeNumberOfNat | backend/parser.py:130-133 | a printed whole number reads back as itself |
| WorklogDocx.WeekRowEntry | backend/parser.py:123-136 | a row naming a week gives that week the hours of its first cell in (0, 40] |
| WorklogDocx.CellHoursRange | backend/parser.py:130-135 | hours taken from a week row lie in (0, 40] |
| WorklogDocx.FirstPassBounded | backend/parser.py:118-138 | every first-pass entry holds hours in (0, 40] |
| WorklogDocx.FirstPassRows | backend/parser.py:118-138 | every first-pass entry is read from a row that names its week |
| WorklogDocx.CumulativeEntrySpec | backend/parser.py:146-158 | a second-pass entry takes its hours from the marker's column and its week from the first integer of the row's first cell |
| WorklogDocx.SecondPassFrom | backend/parser.py:141-160 | every second-pass entry comes from a row below a `Total hours spent this week` cell of the same table, with no bound on its hours |
| WorklogDocx.HoursPrecedence | backend/parser.py:114-161 | a week's hours are its last second-pass entry when it has one, else its last first-pass entry, which lies in (0, 40] |
| WorklogDocx.FirstPass | backend/parser.py:118-138 | the nested loops of the first pass give the specified entries |
| WorklogDocx.ExtractHoursFromTables | backend/parser.py:114-161 | both passes, in order, give the specified hours |
| WorklogDocx.ParseWorklogDocx | backend/parser.py:6-112 | the parser returns the specified records |
| WorklogDocx.HandleStep | backend/parser.py:40-106 | the tests on one paragraph inside a week and the loop of its block give the specified record and index |
| WorklogDocx.ScanParagraphs | backend/parser.py:18-112 | the paragraph loop gives the specified records |
| Finditer.MatchesChained | backend/parsers/parse_sprint_report_docx.py:57 | the occurrences `finditer` yields are real matches, in text order, none overlapping the next |
| Finditer.MatchesLead | backend/parsers/parse_sprint_report_docx.py:57 | nothing matches before the first occurrence, nor anywhere when there is none |
| Finditer.MatchesGap | backend/parsers/parse_sprint_report_docx.py:57 | nothing matches between the end of one occurrence and the start of the next, or the end of the text |
| Finditer.MatchesSpan | backend/parsers/parse_sprint_report_docx.py:57 | every occurrence lies within the text |
| SprintReport.ExtractTextFromDocx | backend/parsers/parse_sprint_report_docx.py:7-15 | the loop keeps the stripped text of each non-blank paragraph, in order |
| SprintReport.MatchLen | backend/parsers/parse_sprint_report_docx.py:20-27 | a match lies within the text; `\Z` matches only at the end |
| SprintReport.Search | backend/parsers/parse_sprint_report_docx.py:20-27 | a reported position is one where the pattern matches |
| SprintReport.SearchSpec | backend/parsers/parse_sprint_report_docx.py:20-27 | the search finds a match iff there is one, and none starts before it |
| SprintReport.SectionStop | backend/parsers/parse_sprint_report_docx.py:25-30 | the section ends within the text after the heading |
| SprintReport.Section | backend/parsers/parse_sprint_report_docx.py:17-22 | a missing heading gives the empty section |
| SprintReport.ExtractSection | backend/parsers/parse_sprint_report_docx.py:17-32 | the loop over the end patterns, stopping at the first found, gives the specified section |
| SprintReport.CutSection | backend/parsers/parse_sprint_report_docx.py:25-32 | the loop over the end patterns cuts the text at the first pattern found, or keeps it all, then strips it |
| SprintReport.SectionStopSpec | backend/parsers/parse_sprint_report_docx.py:25-30 | the section stops at the first match of the first end pattern, in list order, that matches, or at the end when none does |
| SprintReport.SectionBounds | backend/parsers/parse_sprint_report_docx.py:17-32 | the section is the stripped text from the end of the heading to that stop |
| SprintReport.SectionToEnd | backend/parsers/parse_sprint_report_docx.py:87 | with `\Z` as the end pattern the section runs to the end of the text |
| SprintReport.NameAt | backend/parsers/parse_sprint_report_docx.py:56 | the first name of the alternation occurring at a position, none iff no name occurs there |
| SprintReport.NamesFit | backend/parsers/parse_sprint_report_docx.py:56-57 | the names' matches are non-empty and lie within the text |
| SprintReport.OccurrencesFound | backend/parsers/parse_sprint_report_docx.py:57-63 | each match is a member's name at its position, in text order, each ending before the next starts |
| SprintReport.NoNameInContent | backend/parsers/parse_sprint_report_docx.py:62-64 | no member's name occurs inside a name's content |
| SprintReport.NoNameBeforeFirst | backend/parsers/parse_sprint_report_docx.py:57-64 | the text before the first name holds no name and belongs to nobody |
| SprintReport.OccurrencesSpan | backend/parsers/parse_sprint_report_docx.py:57 | the matches fit the text, so every content slice is defined |
| SprintReport.KeptClean | backend/parsers/parse_sprint_report_docx.py:64-70 | the value kept is empty or the stripped content, which does not start like a sprint heading |
| SprintReport.Writes | backend/parsers/parse_sprint_report_docx.py:60-70 | one write per match |
| SprintReport.WriteContributions | backend/parsers/parse_sprint_report_docx.py:60-70 | the loop over the matches performs exactly the specified writes, in order |
| SprintReport.ParseContributions | backend/parsers/parse_sprint_report_docx.py:54-72 | the function gives the specified contributions |
| SprintReport.ContributionKeys | backend/parsers/parse_sprint_report_docx.py:56-70 | a name has an entry iff it occurs in the text, and then it is one of the five members |
| SprintReport.WrittenValues | backend/parsers/parse_sprint_report_docx.py:64-70 | every value written is empty or a stripped text not starting like a sprint heading |
| SprintReport.ContributionValues | backend/parsers/parse_sprint_report_docx.py:64-70 | every stored value is empty or a stripped text not starting like a sprint heading |
| SprintReport.LastOccurrenceWins | backend/parsers/parse_sprint_report_docx.py:60-70 | a name that occurs more than once keeps the content after its last occurrence |
| SprintReport.AttendanceOf | backend/parsers/parse_sprint_report_docx.py:43-51 | a row gives an entry iff it has at least nine cells and a non-blank first cell |
| SprintReport.ReadTablesErrSticks | backend/parsers/parse_sprint_report_docx.py:39-40 | once a table has raised, the whole read raises |
| SprintReport.ReadTablesFails | backend/parsers/parse_sprint_report_docx.py:39-40 | reading raises iff one of the tables has no rows at all |
| SprintReport.ReadTablesFrom | backend/parsers/parse_sprint_report_docx.py:39-51 | every entry read comes from one of the tables |
| SprintReport.ReadTablesComplete | backend/parsers/parse_sprint_report_docx.py:39-51 | every entry a table gives is read |
| SprintReport.ReadRowsFrom | backend/parsers/parse_sprint_report_docx.py:39-51 | every entry read comes from a body row of a table whose header qualifies |
| SprintReport.ReadRowsComplete | backend/parsers/parse_sprint_report_docx.py:39-51 | every such row's entry is read |
| SprintReport.ReadBodyRows | backend/parsers/parse_sprint_report_docx.py:42-51 | the loop over `table.rows[1:]` appends each row's entry, in order |
| SprintReport.ReadAllTables | backend/parsers/parse_sprint_report_docx.py:39-52 | the loop over the tables gives the specified entries or the IndexError |
| SprintReport.ParseAttendanceTable | backend/parsers/parse_sprint_report_docx.py:34-52 | the function gives the specified table |
| SprintReport.AttendanceFails | backend/parsers/parse_sprint_report_docx.py:39-40 | the parse raises iff some table has no rows at all |
| SprintReport.AttendanceFrom | backend/parsers/parse_sprint_report_docx.py:41-51 | each entry holds cells 0 to 3 and 8 of a body row of a table whose header mentions Contribution and Respect |
| SprintReport.AttendanceComplete | backend/parsers/parse_sprint_report_docx.py:41-51 | every such row is recorded |
| SprintReport.SummaryPath | backend/parsers/parse_sprint_report_docx.py:100 | the summary goes beside the report under the fixed name; an empty path fails |
| SprintReport.SummaryPathShared | backend/parsers/parse_sprint_report_docx.py:100 | two reports in the same folder are summarised into the same file |
| SprintReport.ParseSprintReportDocx | backend/parsers/parse_sprint_report_docx.py:74-105 | the parser gives the specified summary and its path, or its exception |
| SprintReport.SummaryShape | backend/parsers/parse_sprint_report_docx.py:74-98 | the summary exists iff every table has a row; a missing heading gives an empty section; the lessons run to the end of the text |
| DocxMetrics.CloseParen | backend/parsers/parse_docx_with_metrics.py:152 | the lazy group closes at the first `)` when no line break comes before it, and cannot close otherwise |
| DocxMetrics.DropParens | backend/parsers/parse_docx_with_metrics.py:152 | a title without `(` is unchanged |
| DocxMetrics.UnclosedKept | backend/parsers/parse_docx_with_metrics.py:152 | deleting groups from a text in which nothing closes before a line break keeps it so |
| DocxMetrics.DropParensClean | backend/parsers/parse_docx_with_metrics.py:152 | after the deletion no `(` is closed on its own line |
| DocxMetrics.PunctToSpace | backend/parsers/parse_docx_with_metrics.py:153 | no colon or hyphen is left, nothing but spaces is added, and a title without them is unchanged |
| DocxMetrics.CollapseSpaces | backend/parsers/parse_docx_with_metrics.py:154 | every whitespace run becomes one space, nothing but spaces is added, and a text already so is unchanged |
| DocxMetrics.SpacedLower | backend/parsers/parse_docx_with_metrics.py:154-155 | lower-casing a spaced, stripped title leaves it normal |
| DocxMetrics.NormalizeTitleNormal | backend/parsers/parse_docx_with_metrics.py:150-155 | every normalised title has no colon or hyphen, single spaces only, no space at either end and no upper-case letter |
| DocxMetrics.NormalizeTitleFixed | backend/parsers/parse_docx_with_metrics.py:150-155 | normalising is idempotent on titles that are already normal and have no `(` |
| DocxMetrics.FuzzyFindSection | backend/parsers/parse_docx_with_metrics.py:158-177 | the function with its loop over the keys gives the specified match |
| DocxMetrics.SearchKeys | backend/parsers/parse_docx_with_metrics.py:164-177 | the exact, partial and fuzzy steps, in that order, give the specified match |
| DocxMetrics.MatchKeyIsKey | backend/parsers/parse_docx_with_metrics.py:161-177 | with a fuzzy matcher that only picks keys, a match is always one of the keys |
| DocxMetrics.FuzzyFindKey | backend/parsers/parse_docx_with_metrics.py:158-177 | with such a matcher, a match is always a key of the extracted sections |
| DocxMetrics.MatchKeyOverlap | backend/parsers/parse_docx_with_metrics.py:164-173 | a claim that is a key matches itself; a claim overlapping some key matches an overlapping key without the fuzzy step; otherwise the fuzzy step decides |
| DocxMetrics.MatchKeyBlank | backend/parsers/parse_docx_with_metrics.py:164-170 | a claim that normalises to nothing matches the empty key if there is one, else the first key |
| DocxMetrics.LineEnd | backend/parsers/parse_docx_with_metrics.py:129 | the heading title runs to the first line break or the end |
| DocxMetrics.HeadingAt | backend/parsers/parse_docx_with_metrics.py:128-131 | a heading match at a position has a number, a dot and a title of at least two characters, within the text |
| DocxMetrics.HeadingsFit | backend/parsers/parse_docx_with_metrics.py:134 | the heading matches are non-empty and lie within the text |
| DocxMetrics.SectionWrites | backend/parsers/parse_docx_with_metrics.py:136-145 | one write per heading |
| DocxMetrics.HeadingsSpan | backend/parsers/parse_docx_with_metrics.py:134 | the heading matches fit the text, so every body slice is defined |
| DocxMetrics.HeadingWrites | backend/parsers/parse_docx_with_metrics.py:134-145 | one write per heading found |
| DocxMetrics.WriteSections | backend/parsers/parse_docx_with_metrics.py:136-145 | the loop over the headings performs exactly the specified writes, in order |
| DocxMetrics.ReadSection | backend/parsers/parse_docx_with_metrics.py:137-144 | one iteration reads the heading's normalised title and the stripped body up to the next heading |
| DocxMetrics.ExtractNumberedSections | backend/parsers/parse_docx_with_metrics.py:118-147 | the function gives the specified sections |
| DocxMetrics.HeadingsFound | backend/parsers/parse_docx_with_metrics.py:129-141 | each match starts with a digit, its title with a letter, ends at a line break or the end, and ends before the next heading starts |
| DocxMetrics.NoHeadingInBody | backend/parsers/parse_docx_with_metrics.py:138-143 | no heading starts inside a section's body |
| DocxMetrics.NoHeadingBeforeFirst | backend/parsers/parse_docx_with_metrics.py:134-143 | the text before the first heading belongs to no section |
| DocxMetrics.SectionKeysNormal | backend/parsers/parse_docx_with_metrics.py:144-145 | every key of the sections is a normalised title |
| DocxMetrics.LastHeadingWins | backend/parsers/parse_docx_with_metrics.py:136-145 | a title not repeated later keeps the body after its heading, under its normalised stripped title |
| DocxMetrics.Claim | backend/parsers/parse_docx_with_metrics.py:95-112 | a body row is recorded iff it has three cells, a student name and at least one non-blank claimed section |
| DocxMetrics.ReadClaims | backend/parsers/parse_docx_with_metrics.py:95-112 | the loop over the body rows performs the specified writes, in order |
| DocxMetrics.ParseContributionTable | backend/parsers/parse_docx_with_metrics.py:68-115 | the function gives the specified authorship |
| DocxMetrics.AuthorshipFirstTable | backend/parsers/parse_docx_with_metrics.py:82-113 | only the first table whose header mentions student, contribution and report is read; later tables are ignored |
| DocxMetrics.ClaimClean | backend/parsers/parse_docx_with_metrics.py:100-112 | a recorded claim has a stripped student name and stripped, single-line sections |
| DocxMetrics.AuthorshipClean | backend/parsers/parse_docx_with_metrics.py:80-115 | every recorded student is named once and claims clean sections |
| DocxMetrics.TextMetricsOf | backend/parsers/parse_docx_with_metrics.py:35-63 | a blank text has zero metrics; any other text is measured stripped |
| DocxMetrics.StudentWrites | backend/parsers/parse_docx_with_metrics.py:182-194 | one write per student of the authorship |
| DocxMetrics.CollectTexts | backend/parsers/parse_docx_with_metrics.py:183-187 | the inner loop collects the specified bodies |
| DocxMetrics.BuildStudentMetrics | backend/parsers/parse_docx_with_metrics.py:180-195 | the function gives the specified students |
| DocxMetrics.StudentsMirrorAuthorship | backend/parsers/parse_docx_with_metrics.py:180-195 | the students are the authorship's, in order, each with the sections they claimed |
| DocxMetrics.CollectedFromSections | backend/parsers/parse_docx_with_metrics.py:185-187 | every collected text is the body of an extracted section under a non-empty key |
| DocxMetrics.ExactClaimBody | backend/parsers/parse_docx_with_metrics.py:164-187 | a claim whose normalised title is a key contributes exactly that section's body |
| DocxMetrics.UnmatchedStudent | backend/parsers/parse_docx_with_metrics.py:183-193 | a student none of whose claims matches has no text and zero metrics |
| DocxMetrics.FileName | backend/parsers/parse_docx_with_metrics.py:208 | the name of a path is its last component |
| DocxMetrics.ParseDocxWithMetrics | backend/parsers/parse_docx_with_metrics.py:198-218 | the entry point gives the specified report |
| DocxMetrics.MetricsReportShape | backend/parsers/parse_docx_with_metrics.py:198-212 | the report's students are its authorship's students, with the sections they claimed, and every section key is normalised |
| ProjectPlan.ScanParagraphs | backend/parsers/parse_project_plan_docx.py:49-85 | the paragraph loop gives the specified sections |
| ProjectPlan.RunSnoc | backend/parsers/parse_project_plan_docx.py:58-82 | scanning one more paragraph is one more step of the loop |
| ProjectPlan.StepHeading | backend/parsers/parse_project_plan_docx.py:76-80 | a heading with no current heading, or nothing collected, only becomes current |
| ProjectPlan.StepBullet | backend/parsers/parse_project_plan_docx.py:63-65 | a bullet line after a heading always joins the body, whatever it looks like |
| ProjectPlan.StepPreface | backend/parsers/parse_project_plan_docx.py:59-82 | before any heading, a non-blank paragraph that is not a heading is only collected |
| ProjectPlan.TrimNonBlank | backend/parsers/parse_project_plan_docx.py:59-60 | a paragraph with a non-space character is not skipped as blank |
| ProjectPlan.BodyTextNonEmpty | backend/parsers/parse_project_plan_docx.py:78-85 | the stripped body of a non-empty buffer is not empty |
| ProjectPlan.PutSound | backend/parsers/parse_project_plan_docx.py:78-85 | writing a heading with a non-empty body keeps the keys distinct, each a heading with a non-empty body |
| ProjectPlan.StepSound | backend/parsers/parse_project_plan_docx.py:58-82 | every step keeps the sections under headings with non-empty bodies, distinct, and the buffer stripped and non-empty |
| ProjectPlan.RunSound | backend/parsers/parse_project_plan_docx.py:58-82 | the loop keeps that invariant over any paragraphs |
| ProjectPlan.ScanSectionsSound | backend/parsers/parse_project_plan_docx.py:49-85 | every section key is a heading, none repeats, and no body is empty |
| ProjectPlan.PrefaceKept | backend/parsers/parse_project_plan_docx.py:58-82 | lines before the first heading stay in the buffer and no section is written |
| ProjectPlan.PrefaceStep | backend/parsers/parse_project_plan_docx.py:58-82 | one more paragraph that is not a heading keeps the scan in its preface |
| ProjectPlan.FirstHeadingKeepsPreface | backend/parsers/parse_project_plan_docx.py:76-80 | the first heading becomes current and keeps the preface lines, which join its section |
| ProjectPlan.MergeSections | backend/parsers/parse_project_plan_docx.py:88-105 | the merge loop gives the specified merged sections |
| ProjectPlan.MergedStep | backend/parsers/parse_project_plan_docx.py:92-103 | each iteration writes its key, or nothing when `skip_next` skips it |
| ProjectPlan.MergeUntouched | backend/parsers/parse_project_plan_docx.py:92-103 | a key no later iteration writes keeps its value |
| ProjectPlan.MergedKeys | backend/parsers/parse_project_plan_docx.py:92-103 | a key is merged iff some iteration that is not skipped writes it |
| ProjectPlan.MergedKeysFromSections | backend/parsers/parse_project_plan_docx.py:88-105 | the merge introduces no heading of its own |
| ProjectPlan.SubheadingMerged | backend/parsers/parse_project_plan_docx.py:97-102 | a listed subheading right after a solution heading is appended to it after a blank line |
| ProjectPlan.NextAfterMergeDropped | backend/parsers/parse_project_plan_docx.py:93-101 | the heading after a merged subheading is skipped and lost, unless the next one merges back into it |
| ProjectPlan.HeadingKept | backend/parsers/parse_project_plan_docx.py:103 | a heading neither merged away nor merged into keeps its own text |
| ProjectPlan.ExtractTextSections | backend/parsers/parse_project_plan_docx.py:45-105 | the scan then the merge give the specified sections |
| ProjectPlan.TextSectionsHeadings | backend/parsers/parse_project_plan_docx.py:45-105 | every merged key is a paragraph that reads as a heading, and none repeats |
| ProjectPlan.Zip | backend/parsers/parse_project_plan_docx.py:113 | the pairs of header and value, up to the shorter of the two |
| ProjectPlan.ParseTable | backend/parsers/parse_project_plan_docx.py:107-114 | the loop over the body rows gives the specified records |
| ProjectPlan.TableRowsFromRows | backend/parsers/parse_project_plan_docx.py:110-113 | the records are exactly those of the body rows with a non-empty cell |
| ProjectPlan.RecordKeys | backend/parsers/parse_project_plan_docx.py:113 | a record's keys are the header cells that have a value beside them |
| ProjectPlan.ClassifyFirstRule | backend/parsers/parse_project_plan_docx.py:129-140 | a table falls under the first category whose test its header passes, and under none when it passes none |
| ProjectPlan.ClassifiedTables | backend/parsers/parse_project_plan_docx.py:127-128 | classifying raises iff some table has no rows |
| ProjectPlan.ClassifyTable | backend/parsers/parse_project_plan_docx.py:128-140 | one iteration gives the specified category and entry |
| ProjectPlan.ClassifyTables | backend/parsers/parse_project_plan_docx.py:127-140 | the classification loop gives the specified tables or the error |
| ProjectPlan.CollectWriteLast | backend/parsers/parse_project_plan_docx.py:127-140 | a key holds the entry of the last item that writes it |
| ProjectPlan.LaterTableReplaces | backend/parsers/parse_project_plan_docx.py:129-140 | a category holds the entry of the last table classified into it |
| PlanStudents.Squash | backend/parsers/parse_project_plan_docx.py:147 | every run of other characters becomes one space, and nothing but spaces is added |
| PlanStudents.NormalizeTextClean | backend/parsers/parse_project_plan_docx.py:146-147 | a normalised text holds only lower-case letters, digits and single inner spaces |
| PlanStudents.NormalizeTextFixed | backend/parsers/parse_project_plan_docx.py:146-147 | a clean text normalises to itself |
| PlanStudents.NormalizeTextIdempotent | backend/parsers/parse_project_plan_docx.py:146-147 | normalising twice is normalising once |
| PlanStudents.CleanTitle | backend/parsers/parse_project_plan_docx.py:166 | the leading number, its dot or hyphen and the spaces after it are removed, only from a title that starts with digits |
| PlanStudents.CleanTitleClean | backend/parsers/parse_project_plan_docx.py:166 | a cleaned normalised title is still clean |
| PlanStudents.KeywordsClean | backend/parsers/parse_project_plan_docx.py:161 | every keyword is normalised, so none holds a separator |
| PlanStudents.MatchSections | backend/parsers/parse_project_plan_docx.py:162-169 | the keyword loop, each inner loop stopping at its first hit, gives the specified matches |
| PlanStudents.NormalizedTitlesSound | backend/parsers/parse_project_plan_docx.py:152 | every normalised title stands for a section key it is the normal form of |
| PlanStudents.NormalizedTitlesCover | backend/parsers/parse_project_plan_docx.py:152 | every section has its normal form among the normalised titles |
| PlanStudents.TitleForIn | backend/parsers/parse_project_plan_docx.py:165-169 | the title a keyword matches is an original section title |
| PlanStudents.MatchedAreSections | backend/parsers/parse_project_plan_docx.py:152-169 | every matched section is a section of the document |
| PlanStudents.TitleForFirstHit | backend/parsers/parse_project_plan_docx.py:165-169 | a keyword matches the first title it hits, which an empty keyword never does |
| PlanStudents.RelevantTablesExact | backend/parsers/parse_project_plan_docx.py:171-177 | a table is relevant iff a keyword mentions it, in the fixed order, each once |
| PlanStudents.CategoryTexts | backend/parsers/parse_project_plan_docx.py:182-184 | a relevant category adds one text per row iff it was classified and counts in the metrics |
| PlanStudents.GatherTableTexts | backend/parsers/parse_project_plan_docx.py:180-184 | the loops over the relevant categories and their rows give the specified texts |
| PlanStudents.TableTextsFrom | backend/parsers/parse_project_plan_docx.py:180-184 | a table text is a row text of a relevant category, and each such row gives one |
| PlanStudents.AddCategoryTexts | backend/parsers/parse_project_plan_docx.py:181-184 | one category's turn appends the text of each of its rows when it was classified and counts in the metrics |
| PlanStudents.StudentName | backend/parsers/parse_project_plan_docx.py:156-158 | the name is the `Student Name` cell, or the `Student name` cell when that is empty; none iff both are empty |
| PlanStudents.BuildStudents | backend/parsers/parse_project_plan_docx.py:155-193 | the loop over the contribution rows gives the specified students |
| PlanStudents.WritesNamed | backend/parsers/parse_project_plan_docx.py:155-193 | a contribution row writes a student iff it names one, with the entry its description gives |
| PlanStudents.StudentsNamed | backend/parsers/parse_project_plan_docx.py:153-193 | the students are exactly the names the contribution rows give |
| PlanStudents.LastRowWins | backend/parsers/parse_project_plan_docx.py:188-193 | a student's entry is the one their last row gives |
| PlanStudents.BodiesPerSection | backend/parsers/parse_project_plan_docx.py:179 | when every match is a section key, `if s in sections` drops none |
| PlanStudents.EmptyEntry | backend/parsers/parse_project_plan_docx.py:161-193 | a description with no keyword gives an empty entry with zero metrics |
| PlanStudents.EntrySound | backend/parsers/parse_project_plan_docx.py:161-193 | every credited section is a section, a table is relevant iff mentioned, and the metrics are those of the combined text |
| PlanStudents.FilterStudentsToRoster | backend/parsers/parse_project_plan_docx.py:207-213 | the loop keeps the specified students |
| PlanStudents.SelectDistinct | backend/parsers/parse_project_plan_docx.py:208-211 | filtering students keeps their names distinct |
| PlanStudents.RosterKeeps | backend/parsers/parse_project_plan_docx.py:207-213 | a student is kept, with their details, iff their name is on the roster or close to a roster name |
| PlanStudents.ParseProjectPlanDocx | backend/parsers/parse_project_plan_docx.py:118-203 | the parser gives the specified report or the error |
| PlanStudents.StudentSections | backend/parsers/parse_project_plan_docx.py:164-189 | every section a student is credited with is a section of the document |
| PlanStudents.PlanReportShape | backend/parsers/parse_project_plan_docx.py:118-203 | the parse raises iff some table has no rows; otherwise the students are distinct, exactly those the contribution rows name, and credited only with headings |

## Left out

- I/O is not modelled: files, directory walks, JSON reading and writing, printing and logging. File contents are input values, and a written file is the value returned.
- Child processes are not modelled: `execFile` of the Python parsers, git cloning and `git blame`, and lizard. Blame output lines and per-function (start, end, complexity) lists are inputs.
- Size checks from `os.path` are not modelled.
- HTTP plumbing is not modelled: Express routing, CORS, multer's disk storage, `res.status`/`res.json`, the static `/uploads` route and `listen`. Each handler is a function or method from request fields and store to response and store.
- `GET /api/uploads` is left out; it only sorts the registry by upload date.
- `GET /api/uploads/:id/json` is left out; it is file reading.
- `POST /api/github/fetch` is left out; it starts a child process.
- `GET /api/teams` is left out; it returns the stored list unchanged.
- The network is an oracle. GitHub listing and detail requests are function parameters whose `Err` stands for a thrown request.
- `new URL(...)` is an oracle from a text to its `pathname`, or to nothing when it throws.
- Environment variables are parameters.
- The clock is a parameter: `Date.now()` ids, upload timestamps and `createdAt`.
- Document loading is not modelled (python-docx, openpyxl). A document is its list of paragraph texts and its tables as rows of cell texts.
- Dates in the attendance sheet are read through a given text form; `strftime` is not modelled.
- NLP tools are oracles: spaCy, NLTK and textstat (`Measure`). Only the blank-text branch of `get_text_metrics` is modelled.
- difflib is an oracle: `SequenceMatcher` ratios (`Similar`), `get_close_matches` (`CloseMatch`, `NearName`).
- The heading regex of `parse_docx_with_metrics.py` is written out, and its `finditer` is the generic scan of module `Finditer`.
- Floating point is not modelled; numbers are exact reals.
- Python `round` and JavaScript `toFixed` are not modelled; results are unrounded. There are two exceptions. Attendance rates use `Attendance.Round2`, which is Python's `round(x, 2)` and sends a tie to the even hundredth. The dashboard's one-decimal average uses `Math.round` and sends a tie up.
- `Math.round` is modelled as `floor(x + 0.5)`.
- `Math.sqrt` in `normalize` is not modelled. The variance stands in for its root (`Aggregator.Spread`), which is safe because `normalize` gives the same result for every positive divisor (`Aggregator.NormalizeIsMinMax`).
- `Number()` of strings with exponents, hexadecimal or `Infinity` is not modelled; those strings read as NaN.
- Unicode-aware `\s`, `\d`, `\w`, `lower()` and `isupper`/`istitle` are not modelled; only ASCII is treated.
- JavaScript's ordering of integer-like object keys is not modelled. Objects and dicts are insertion-ordered association lists.
- `re.split` on a character class followed by `+` is modelled as splitting at every separator and dropping blank pieces, which gives the same non-blank pieces.
- Paths are lists of components.
- The first `should_skip_path` in `backend/main.py` is not modelled. The second definition shadows it, so its extension, size and line-count caps never apply.
- Table rows with no cells are skipped. In the source such a row would make `row.cells[0]` raise, but python-docx does not produce one.
- A table with no rows is modelled as the `IndexError` its `rows[0]` raises.
- DocxMetrics.MatchedBody: a key the fuzzy oracle invents is read as unmatched. Python would raise `KeyError` instead.
- The command-line blocks, `sys.argv` handling and the roster JSON loading of the parsers are not modelled. `_filter_students_to_roster` is modelled on a given roster.
- `backend/setup_nlp_models.py` is not modelled; it downloads models.
- React rendering, alerts and component state setters are not modelled. Only the derived values and updaters of the three pages are.
- Concurrency is not modelled: concurrent handlers rewriting teams.json or the registry (last write wins).
- JSON of a shape the program never writes itself is read with defaults where the JavaScript throws a TypeError or concatenates strings. The members affected are listed in the lines below.
- StudentAttendancePairs: a `null` entry of `students` is skipped; the source throws a TypeError reading `s.email` (backend/services/aggregator.js:69-70).
- StudentAttendancePairs: a student whose `email || name` is a number is skipped; the source keys them by the number's `String` form. `Aggregator.StudentKey` reads only string keys.
- ExtractAttendanceMetrics: equals StudentAttendancePairs for the `students` shape, so it skips a `null` student instead of throwing.
- PushAllTotals: a `null` student or contributor is pushed as zero totals, and a numeric key is read as ""; the source throws reading `s.email` or `part.docCount` (backend/services/aggregator.js:93-102), or keys by `String`.
- ExtractDocsMetrics: equals its specification built on PushAll, so it inherits the same reading of a `null` part.
- AuthorPairs: a `null` value of finalStats.json gives an all-zero record; the source throws reading `s.average_complexity` (backend/services/aggregator.js:120). combine_json writes a dict for every author.
- LoadGitHubMetrics: equals its specification built on AuthorPairs, so it inherits the same reading of a `null` value.
- ParsedArtifactsOf: a `null` registry entry is skipped; the source throws reading `r.userType` (backend/services/aggregator.js:139). The upload routes write an object for every entry.
- LoadParsedArtifacts: equals ParsedArtifactsOf, so it skips a `null` entry instead of throwing.
- CombineDocumentationMetricsOf: a `null` student `details` is recorded with zero metrics, and a string word count is read as 0. The source throws reading `details.metrics` on `null`, and `+=` concatenates a string word count (backend/services/combineDocumentationMetrics.js:97, 111).
- NonCandidateIgnored: an entry whose `jsonPath` is truthy but not a string is not a candidate here; the source throws calling `jsonPath.replace` on it (backend/services/combineDocumentationMetrics.js:53).
- KeyString: a number or an object names the key "" here; JavaScript keys by its `String` form, which this model does not print for numbers.
- RawOfSpec: a `null` commit is counted under `Unknown`, and a string `additions` or `deletions` is read as 0. The source throws reading `c.author` on `null`, and `+=` concatenates a string (backend/server.js:71-76).
- WeightOf: a truthy weight that `Number()` cannot read counts as 0. In the source it makes `(norm || 0) * (w[d] || 0)` NaN, and then every total, the maximum and every score (backend/services/aggregator.js:252-256). The rules route never saves the five dimension weights (`Rules.SavedRulesScoreZero`), so only a hand-edited rules file can hold one.
- Weights: built from WeightOf, so it carries the same reading of an unreadable weight as 0 rather than NaN.
- RuleWeightOf: a number that JavaScript prints in exponent form is read as its truncation. `parseInt` reads the printed text, so `1e21` gives 1 and `1e-7` gives 1. The number printer of JavaScript is not modelled.
- ParseWorklogDocx: a task is kept as its text. The source appends it as the one-field dict `{"Task": text}` (backend/parser.py:63), which carries nothing more.
- ParseInt: Unicode decimal digits other than `0`-`9`, which Python's `int()` also accepts, are not modelled.
- FromOutput: an author's metrics that are a non-empty list of key/value pairs, which `dict.update` accepts, are read as an error.
- CommitAuthor: an author that is a number or `true` is keyed "" here; Python keys it by the value itself, which `json.dump` then writes as its text.
