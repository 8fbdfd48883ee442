/**
  The score aggregation engine: identity resolution, tolerant extraction of the
  parsed artifacts, per-student accumulation, normalisation, weighted scoring and
  ranking for one team.
 */
module Aggregator {
  import opened Wrappers
  import opened Strings
  import opened Reals
  import opened JsonValue
  import AssocList
  import Lists

  // ---------------------------------------------------------------- normalize

  function Variance(xs: seq<real>): real {
    if xs == [] then 0.0
    else
      var mean := Mean(xs);
      Mean(seq(|xs|, i requires 0 <= i < |xs| => (xs[i] - mean) * (xs[i] - mean)))
  }

  /**
    The divisor of the z-step, `Math.sqrt(variance) || 1`. Dafny's reals have no
    square root; any positive divisor gives the same `Normalize` result
    (NormalizeIsMinMax), so the variance itself stands in for its root.
   */
  function Spread(xs: seq<real>): (s: real)
    ensures s > 0.0
    ensures Variance(xs) == 0.0 ==> s == 1.0
  {
    var v := Variance(xs);
    if v > 0.0 then v else 1.0
  }

  /** The min-max image `(x - lo) / (hi - lo)` of one value. */
  function Ratio(x: real, lo: real, hi: real): real
    requires lo != hi
  {
    (x - lo) / (hi - lo)
  }

  function ZScore(x: real, mean: real, std: real): real
    requires std > 0.0
  {
    (x - mean) / std
  }

  /** `values.map(v => (v - mean) / std)`. */
  function ZScores(xs: seq<real>, std: real): (z: seq<real>)
    requires std > 0.0
    ensures |z| == |xs|
  {
    var mean := Mean(xs);
    seq(|xs|, i requires 0 <= i < |xs| => ZScore(xs[i], mean, std))
  }

  /** z-scores, then min-max over the z-scores, with an all-equal list mapped to 1s. */
  function NormalizeWith(xs: seq<real>, std: real): (r: seq<real>)
    requires std > 0.0
    ensures |r| == |xs|
  {
    if xs == [] then xs
    else
      var z := ZScores(xs, std);
      var lo, hi := Min(z), Max(z);
      if hi == lo then seq(|xs|, _ => 1.0)
      else seq(|xs|, i requires 0 <= i < |xs| => Ratio(z[i], lo, hi))
  }

  /** `normalize(values)`. */
  function Normalize(xs: seq<real>): (r: seq<real>)
    ensures |r| == |xs|
  {
    NormalizeWith(xs, Spread(xs))
  }

  /** Plain min-max scaling, with an all-equal list mapped to 1s. */
  function MinMax(xs: seq<real>): (r: seq<real>)
    ensures |r| == |xs|
  {
    if xs == [] then []
    else
      var lo, hi := Min(xs), Max(xs);
      if hi == lo then seq(|xs|, _ => 1.0)
      else seq(|xs|, i requires 0 <= i < |xs| => Ratio(xs[i], lo, hi))
  }

  lemma {:induction false} ZScoreIsLin(x: real, mean: real, std: real)
    requires std > 0.0
    ensures ZScore(x, mean, std) == Lin(1.0 / std, -mean / std, x)
  {
  }

  lemma {:induction false} LinInjective(a: real, b: real, x: real, y: real)
    requires a > 0.0
    ensures Lin(a, b, x) == Lin(a, b, y) <==> x == y
  {
    if Lin(a, b, x) == Lin(a, b, y) && x != y {
      if x < y { LinMonotoneStrict(a, b, x, y); } else { LinMonotoneStrict(a, b, y, x); }
    }
  }

  lemma {:induction false} LinMonotoneStrict(a: real, b: real, x: real, y: real)
    requires a > 0.0 && x < y
    ensures Lin(a, b, x) < Lin(a, b, y)
  {
  }

  /** The ratio `(x - lo) / (hi - lo)` is unchanged by an increasing affine map. */
  lemma {:induction false} RatioUnderLin(a: real, b: real, x: real, lo: real, hi: real)
    requires a > 0.0 && lo != hi
    ensures Lin(a, b, hi) - Lin(a, b, lo) != 0.0
    ensures Ratio(Lin(a, b, x), Lin(a, b, lo), Lin(a, b, hi)) == Ratio(x, lo, hi)
  {
    LinInjective(a, b, lo, hi);
    assert Lin(a, b, x) - Lin(a, b, lo) == a * (x - lo);
    assert Lin(a, b, hi) - Lin(a, b, lo) == a * (hi - lo);
  }

  /** With any positive divisor the z-step is an increasing affine map, so `normalize` is plain min-max. */
  lemma {:induction false} NormalizeIsMinMax(xs: seq<real>, std: real)
    requires std > 0.0
    ensures NormalizeWith(xs, std) == MinMax(xs)
  {
    if xs != [] {
      var mean := Mean(xs);
      var a, b := 1.0 / std, -mean / std;
      var z := ZScores(xs, std);
      forall i | 0 <= i < |xs| ensures z[i] == Lin(a, b, xs[i]) {
        ZScoreIsLin(xs[i], mean, std);
      }
      MaxAffine(xs, z, a, b);
      MinAffine(xs, z, a, b);
      var lo, hi := Min(xs), Max(xs);
      LinInjective(a, b, lo, hi);
      if hi != lo {
        var r, m := NormalizeWith(xs, std), MinMax(xs);
        forall i | 0 <= i < |xs| ensures r[i] == m[i] {
          RatioUnderLin(a, b, xs[i], lo, hi);
        }
      }
    }
  }

  /** `normalize` of an empty list is empty, and an all-equal list maps to all 1s. */
  lemma {:induction false} NormalizeConstant(xs: seq<real>, c: real)
    requires forall i :: 0 <= i < |xs| ==> xs[i] == c
    ensures |Normalize(xs)| == |xs|
    ensures forall i :: 0 <= i < |xs| ==> Normalize(xs)[i] == 1.0
  {
    NormalizeIsMinMax(xs, Spread(xs));
    if xs != [] {
      assert Max(xs) == c && Min(xs) == c;
    }
  }

  lemma {:induction false} RatioFacts(x: real, lo: real, hi: real)
    requires lo < hi && lo <= x <= hi
    ensures 0.0 <= Ratio(x, lo, hi) <= 1.0
    ensures Ratio(x, lo, hi) == 0.0 <==> x == lo
    ensures Ratio(x, lo, hi) == 1.0 <==> x == hi
  {
    var d := hi - lo;
    assert Ratio(x, lo, hi) * d == x - lo;
  }

  lemma {:induction false} RatioMonotone(x: real, y: real, lo: real, hi: real)
    requires lo < hi
    ensures x <= y <==> Ratio(x, lo, hi) <= Ratio(y, lo, hi)
  {
    var d := hi - lo;
    assert Ratio(y, lo, hi) - Ratio(x, lo, hi) == (y - x) / d;
  }

  /**
    For a list that is not constant, every output lies in [0, 1], exactly the
    minimal inputs map to 0 and the maximal ones to 1, and the order of any two
    inputs is the order of their outputs.
   */
  lemma {:induction false} NormalizeRange(xs: seq<real>)
    requires xs != [] && Min(xs) != Max(xs)
    ensures forall i :: 0 <= i < |xs| ==> 0.0 <= Normalize(xs)[i] <= 1.0
    ensures forall i :: 0 <= i < |xs| ==> (Normalize(xs)[i] == 0.0 <==> xs[i] == Min(xs))
    ensures forall i :: 0 <= i < |xs| ==> (Normalize(xs)[i] == 1.0 <==> xs[i] == Max(xs))
    ensures forall i, j :: 0 <= i < |xs| && 0 <= j < |xs| ==> (xs[i] <= xs[j] <==> Normalize(xs)[i] <= Normalize(xs)[j])
  {
    NormalizeIsMinMax(xs, Spread(xs));
    var r := Normalize(xs);
    var lo, hi := Min(xs), Max(xs);
    forall i | 0 <= i < |xs|
      ensures 0.0 <= r[i] <= 1.0
      ensures r[i] == 0.0 <==> xs[i] == lo
      ensures r[i] == 1.0 <==> xs[i] == hi
    {
      RatioFacts(xs[i], lo, hi);
    }
    forall i, j | 0 <= i < |xs| && 0 <= j < |xs|
      ensures xs[i] <= xs[j] <==> r[i] <= r[j]
    {
      RatioMonotone(xs[i], xs[j], lo, hi);
    }
  }

  /** Every output of `normalize` lies in [0, 1]. */
  lemma {:induction false} NormalizeUnit(xs: seq<real>)
    ensures |Normalize(xs)| == |xs|
    ensures forall i :: 0 <= i < |xs| ==> 0.0 <= Normalize(xs)[i] <= 1.0
  {
    if xs != [] {
      if Min(xs) == Max(xs) {
        NormalizeConstant(xs, Min(xs));
      } else {
        NormalizeRange(xs);
      }
    }
  }

  // ---------------------------------------------------------------- identity resolution

  /**
    A roster entry of `team.students`. The identity fields are strings, with ""
    for a missing or empty field; `aliases` is `s.aliases || []`.
   */
  datatype Student = Student(name: string, email: string, github: string, aliases: seq<string>)

  /** `String(x).toLowerCase().trim()`. */
  function NormKey(x: string): string {
    Trim(ToLower(x))
  }

  /** The non-empty identity fields in order: name, email, github, then every alias. */
  function Identities(s: Student): (r: seq<string>)
    ensures forall k :: 0 <= k < |r| ==> r[k] != ""
  {
    NonEmpty([s.name, s.email, s.github] + s.aliases)
  }

  /** `.filter(Boolean)` on strings. */
  function NonEmpty(xs: seq<string>): (r: seq<string>)
    ensures forall k :: 0 <= k < |r| ==> r[k] != ""
  {
    if xs == [] then []
    else if xs[0] == "" then NonEmpty(xs[1..])
    else [xs[0]] + NonEmpty(xs[1..])
  }

  /** The keys under which student `s` is indexed, in the order they are set. */
  function VariantKeys(s: Student): (r: seq<string>)
    ensures |r| == |Identities(s)|
  {
    var ids := Identities(s);
    seq(|ids|, i requires 0 <= i < |ids| => NormKey(ids[i]))
  }

  predicate HasVariant(s: Student, k: string) {
    k in VariantKeys(s)
  }

  /** `for (const k of variants) map.set(k, idx)`. */
  function AddVariants(m: map<string, nat>, keys: seq<string>, idx: nat): map<string, nat> {
    if keys == [] then m
    else AddVariants(m, keys[..|keys| - 1], idx)[keys[|keys| - 1] := idx]
  }

  lemma {:induction false} AddVariantsSpec(m: map<string, nat>, keys: seq<string>, idx: nat, k: string)
    ensures var r := AddVariants(m, keys, idx);
      (k in r <==> k in m || k in keys) &&
      (k in r ==> r[k] == if k in keys then idx else m[k])
  {
    if keys != [] {
      var pre := keys[..|keys| - 1];
      AddVariantsSpec(m, pre, idx, k);
      assert keys == pre + [keys[|keys| - 1]];
    }
  }

  /** The alias map of a roster: each variant maps to the index of the last student that has it. */
  function AliasMapOf(students: seq<Student>): map<string, nat>
  {
    if students == [] then map[]
    else
      var n := |students| - 1;
      AddVariants(AliasMapOf(students[..n]), VariantKeys(students[n]), n)
  }

  /** Whether a student has `k` as a variant, as a value to pass around. */
  function VariantIn(k: string): Student -> bool {
    s => HasVariant(s, k)
  }

  /** The index of the last student that has `k` as a variant, or -1. */
  function LastWithVariant(students: seq<Student>, k: string): (r: int)
    ensures -1 <= r < |students|
    ensures r == -1 ==> forall j :: 0 <= j < |students| ==> !HasVariant(students[j], k)
    ensures r >= 0 ==> HasVariant(students[r], k) && forall j :: r < j < |students| ==> !HasVariant(students[j], k)
  {
    Lists.LastWhere(students, VariantIn(k))
  }

  /**
    Alias map keys are exactly the variants of the roster, and a key shared by
    several students maps to the later one.
   */
  lemma {:induction false} AliasMapKeys(students: seq<Student>, k: string)
    ensures k in AliasMapOf(students) <==> LastWithVariant(students, k) != -1
    ensures k in AliasMapOf(students) ==> AliasMapOf(students)[k] == LastWithVariant(students, k)
  {
    if students != [] {
      var n := |students| - 1;
      var pre := students[..n];
      AliasMapKeys(pre, k);
      AddVariantsSpec(AliasMapOf(pre), VariantKeys(students[n]), n, k);
    }
  }

  /** `buildAliasMap(team)`: fills the map student by student, variant by variant. */
  method BuildAliasMap(students: seq<Student>) returns (m: map<string, nat>)
    ensures m == AliasMapOf(students)
  {
    m := map[];
    var idx := 0;
    while idx < |students|
      invariant 0 <= idx <= |students|
      invariant m == AliasMapOf(students[..idx])
    {
      m := AddStudentVariants(m, students[idx], idx);
      assert students[..idx + 1][..idx] == students[..idx];
      idx := idx + 1;
    }
    assert students[..idx] == students;
  }

  /** The inner `forEach` over one student's identities: `aliasMap[normKey(v)] = idx` for each. */
  method AddStudentVariants(before: map<string, nat>, s: Student, idx: nat) returns (m: map<string, nat>)
    ensures m == AddVariants(before, VariantKeys(s), idx)
  {
    var ids := Identities(s);
    ghost var keys := VariantKeys(s);
    m := before;
    var j := 0;
    while j < |ids|
      invariant 0 <= j <= |ids|
      invariant m == AddVariants(before, keys[..j], idx)
    {
      AddVariantsSnoc(before, s, j, idx);
      m := m[NormKey(ids[j]) := idx];
      j := j + 1;
    }
    assert keys[..j] == keys;
  }

  lemma {:induction false} AddVariantsSnoc(m: map<string, nat>, s: Student, j: nat, idx: nat)
    requires j < |Identities(s)|
    ensures AddVariants(m, VariantKeys(s)[..j + 1], idx) == AddVariants(m, VariantKeys(s)[..j], idx)[NormKey(Identities(s)[j]) := idx]
  {
    var keys := VariantKeys(s);
    assert keys[..j + 1][..j] == keys[..j];
  }

  /** `matchStudentIndex(aliasMap, key)`: -1 for an empty key or an unknown one. */
  function MatchStudentIndex(aliasMap: map<string, nat>, key: string): (r: int)
    ensures r == -1 || r in aliasMap.Values
  {
    if key == "" then -1
    else
      var k := NormKey(key);
      if k in aliasMap then aliasMap[k] else -1
  }

  /**
    Lookup against the roster's alias map: -1 exactly for an empty key or one that
    no student has as a variant; otherwise the last student with that variant.
   */
  lemma {:induction false} MatchStudentIndexSpec(students: seq<Student>, key: string)
    ensures var r := MatchStudentIndex(AliasMapOf(students), key);
      (r == -1 <==> key == "" || forall i :: 0 <= i < |students| ==> !HasVariant(students[i], NormKey(key))) &&
      (r != -1 ==> 0 <= r < |students| && HasVariant(students[r], NormKey(key)) &&
                   forall j :: r < j < |students| ==> !HasVariant(students[j], NormKey(key)))
  {
    AliasMapKeys(students, NormKey(key));
    var r := MatchStudentIndex(AliasMapOf(students), key);
    if key != "" && r == -1 {
      assert LastWithVariant(students, NormKey(key)) == -1;
    }
  }

  // ---------------------------------------------------------------- extractors

  datatype AttendanceMetrics = AttendanceMetrics(hours: real, meetings: real)

  datatype DocsMetrics = DocsMetrics(docCount: real, words: real, sections: real)

  const NoDocs := DocsMetrics(0.0, 0.0, 0.0)

  function AddDocs(a: DocsMetrics, b: DocsMetrics): DocsMetrics {
    DocsMetrics(a.docCount + b.docCount, a.words + b.words, a.sections + b.sections)
  }

  /** `{ hours: pickNumber(v.hours), meetings: pickNumber(v.meetings) }`. */
  function AttendanceOf(v: Json): AttendanceMetrics {
    AttendanceMetrics(PickNumber(Field(v, "hours"), 0.0), PickNumber(Field(v, "meetings"), 0.0))
  }

  /** `s.email || s.name` as an output key; "" when it is falsy or not a string (JavaScript would key a number by its `String` form). */
  function StudentKey(s: Json): string {
    StrOf(Or(Field(s, "email"), Field(s, "name")))
  }

  /** The writes `out[key] = ...` of the `students`-array shape, in order; keyless students are skipped. */
  function StudentAttendancePairs(items: seq<Json>): (r: seq<(string, AttendanceMetrics)>)
    ensures forall i :: 0 <= i < |r| ==> r[i].0 != ""
  {
    if items == [] then []
    else
      var n := |items| - 1;
      var k := StudentKey(items[n]);
      StudentAttendancePairs(items[..n]) + (if k == "" then [] else [(k, AttendanceOf(items[n]))])
  }

  /** The writes of the keyed shape: every entry whose value is a non-null object. */
  function EntryAttendancePairs(entries: seq<(string, Json)>): seq<(string, AttendanceMetrics)> {
    if entries == [] then []
    else
      var n := |entries| - 1;
      var (k, v) := entries[n];
      EntryAttendancePairs(entries[..n]) + (if IsObjectLike(v) then [(k, AttendanceOf(v))] else [])
  }

  /** What `extractAttendanceMetrics(json)` returns. */
  function AttendanceMetricsOf(json: Json): seq<(string, AttendanceMetrics)> {
    if !Truthy(json) then []
    else
      var st := Field(json, "students");
      if st.JArr? then AssocList.PutAll([], StudentAttendancePairs(st.items))
      else AssocList.PutAll([], EntryAttendancePairs(Entries(json)))
  }

  lemma {:induction false} StudentAttendancePairsStep(items: seq<Json>, i: nat)
    requires i < |items|
    ensures var k := StudentKey(items[i]);
      StudentAttendancePairs(items[..i + 1]) ==
      StudentAttendancePairs(items[..i]) + (if k == "" then [] else [(k, AttendanceOf(items[i]))])
  {
    assert items[..i + 1][..i] == items[..i];
  }

  lemma {:induction false} EntryAttendancePairsStep(entries: seq<(string, Json)>, i: nat)
    requires i < |entries|
    ensures EntryAttendancePairs(entries[..i + 1]) ==
      EntryAttendancePairs(entries[..i]) + (if IsObjectLike(entries[i].1) then [(entries[i].0, AttendanceOf(entries[i].1))] else [])
  {
    assert entries[..i + 1][..i] == entries[..i];
  }

  /** The `students`-array loop of `extractAttendanceMetrics`. */
  method ExtractStudentsAttendance(items: seq<Json>) returns (out: seq<(string, AttendanceMetrics)>)
    ensures out == AssocList.PutAll([], StudentAttendancePairs(items))
  {
    out := [];
    var i := 0;
    while i < |items|
      invariant 0 <= i <= |items|
      invariant out == AssocList.PutAll([], StudentAttendancePairs(items[..i]))
    {
      var key := StudentKey(items[i]);
      StudentAttendancePairsStep(items, i);
      if key != "" {
        AssocList.PutAllSnoc([], StudentAttendancePairs(items[..i]), key, AttendanceOf(items[i]));
        out := AssocList.Put(out, key, AttendanceOf(items[i]));
      } else {
        assert StudentAttendancePairs(items[..i]) + [] == StudentAttendancePairs(items[..i]);
      }
      i := i + 1;
    }
    assert items[..i] == items;
  }

  /** The keyed loop of `extractAttendanceMetrics`: `for (const [k, v] of Object.entries(json))`. */
  method ExtractEntriesAttendance(entries: seq<(string, Json)>) returns (out: seq<(string, AttendanceMetrics)>)
    ensures out == AssocList.PutAll([], EntryAttendancePairs(entries))
  {
    out := [];
    var i := 0;
    while i < |entries|
      invariant 0 <= i <= |entries|
      invariant out == AssocList.PutAll([], EntryAttendancePairs(entries[..i]))
    {
      var (k, v) := entries[i];
      EntryAttendancePairsStep(entries, i);
      if IsObjectLike(v) {
        AssocList.PutAllSnoc([], EntryAttendancePairs(entries[..i]), k, AttendanceOf(v));
        out := AssocList.Put(out, k, AttendanceOf(v));
      } else {
        assert EntryAttendancePairs(entries[..i]) + [] == EntryAttendancePairs(entries[..i]);
      }
      i := i + 1;
    }
    assert entries[..i] == entries;
  }

  /** `extractAttendanceMetrics(json)`: the students array when there is one, else the entries. */
  method ExtractAttendanceMetrics(json: Json) returns (out: seq<(string, AttendanceMetrics)>)
    ensures out == AttendanceMetricsOf(json)
  {
    if !Truthy(json) {
      return [];
    }
    var st := Field(json, "students");
    if st.JArr? {
      out := ExtractStudentsAttendance(st.items);
    } else {
      out := ExtractEntriesAttendance(Entries(json));
    }
  }

  /**
    In the `students`-array shape a student's metrics are stored under its key,
    a later student with the same key replacing an earlier one; every key is
    non-empty and none is repeated.
   */
  lemma {:induction false} AttendanceStudentsShape(json: Json, k: string)
    requires Truthy(json) && Field(json, "students").JArr?
    ensures var pairs := StudentAttendancePairs(Field(json, "students").items);
      AssocList.Get(AttendanceMetricsOf(json), k) == AssocList.LastValue(pairs, k) &&
      (k == "" ==> AssocList.Get(AttendanceMetricsOf(json), k) == None)
    ensures AssocList.Distinct(AttendanceMetricsOf(json))
  {
    var pairs := StudentAttendancePairs(Field(json, "students").items);
    AssocList.GetPutAll([], pairs, k);
    AssocList.PutAllDistinct([], pairs);
  }

  /** The increments `push` adds: a field counts only when it is truthy, through `pickNumber`. */
  function DocsIncrement(part: Json): DocsMetrics {
    var c, w, sct := Field(part, "docCount"), Field(part, "words"), Field(part, "sections");
    DocsMetrics(
      if Truthy(c) then PickNumber(c, 0.0) else 0.0,
      if Truthy(w) then PickNumber(w, 0.0) else 0.0,
      if Truthy(sct) then PickNumber(sct, 0.0) else 0.0)
  }

  /** `push(key, part)`: a falsy key is ignored; otherwise the key's totals (zero at first) grow by the part. */
  function Push(out: seq<(string, DocsMetrics)>, key: string, part: Json): seq<(string, DocsMetrics)> {
    if key == "" then out
    else AssocList.Put(out, key, AddDocs(AssocList.GetOr(out, key, NoDocs), DocsIncrement(part)))
  }

  function PushAll(out: seq<(string, DocsMetrics)>, parts: seq<(string, Json)>): seq<(string, DocsMetrics)> {
    if parts == [] then out
    else
      var n := |parts| - 1;
      Push(PushAll(out, parts[..n]), parts[n].0, parts[n].1)
  }

  /** The `(key, part)` calls of `push`, for each of the three shapes `extractDocsMetrics` recognises. */
  function DocsParts(json: Json): seq<(string, Json)> {
    var st := Field(json, "students");
    if st.JArr? then seq(|st.items|, i requires 0 <= i < |st.items| => (StudentKey(st.items[i]), st.items[i]))
    else if Truthy(Field(json, "contributors")) then Entries(Field(json, "contributors"))
    else ObjectEntries(Entries(json))
  }

  /** The entries whose value is a non-null object. */
  function ObjectEntries(entries: seq<(string, Json)>): (r: seq<(string, Json)>)
    ensures forall i :: 0 <= i < |r| ==> IsObjectLike(r[i].1)
  {
    if entries == [] then []
    else
      var n := |entries| - 1;
      ObjectEntries(entries[..n]) + (if IsObjectLike(entries[n].1) then [entries[n]] else [])
  }

  /** What `extractDocsMetrics(json)` returns. */
  function DocsMetricsOf(json: Json): seq<(string, DocsMetrics)> {
    if !Truthy(json) then [] else PushAll([], DocsParts(json))
  }

  /** The sum of the increments pushed under key `k`. */
  function DocsTotalFor(parts: seq<(string, Json)>, k: string): DocsMetrics {
    if parts == [] then NoDocs
    else
      var n := |parts| - 1;
      var before := DocsTotalFor(parts[..n], k);
      if parts[n].0 == k then AddDocs(before, DocsIncrement(parts[n].1)) else before
  }

  lemma {:induction false} DocsTotalAbsent(parts: seq<(string, Json)>, k: string)
    requires !AssocList.HasKey(parts, k)
    ensures DocsTotalFor(parts, k) == NoDocs
  {
    if parts != [] {
      var n := |parts| - 1;
      assert forall i :: 0 <= i < n ==> parts[i] == parts[..n][i];
      DocsTotalAbsent(parts[..n], k);
    }
  }

  /**
    Every non-empty key that is pushed holds the sum of its increments; the empty
    key and keys never pushed are absent.
   */
  lemma {:induction false} PushAllTotals(parts: seq<(string, Json)>, k: string)
    ensures AssocList.Get(PushAll([], parts), k) ==
      if k != "" && AssocList.HasKey(parts, k) then Some(DocsTotalFor(parts, k)) else None
  {
    if parts != [] {
      var n := |parts| - 1;
      var pre := parts[..n];
      var before := PushAll([], pre);
      var (k0, part) := parts[n];
      PushAllTotals(pre, k);
      assert forall i :: 0 <= i < n ==> parts[i] == pre[i];
      if k0 != k {
        assert AssocList.HasKey(parts, k) <==> AssocList.HasKey(pre, k);
        assert DocsTotalFor(parts, k) == DocsTotalFor(pre, k);
      }
      if k0 != "" {
        var total := AddDocs(AssocList.GetOr(before, k0, NoDocs), DocsIncrement(part));
        AssocList.PutSpec(before, k0, total);
        if k0 == k {
          if !AssocList.HasKey(pre, k) {
            DocsTotalAbsent(pre, k);
          }
          assert AssocList.GetOr(before, k0, NoDocs) == DocsTotalFor(pre, k);
        }
      }
    }
  }

  /** `extractDocsMetrics(json)`: `push` for every student, contributor or object entry. */
  method ExtractDocsMetrics(json: Json) returns (out: seq<(string, DocsMetrics)>)
    ensures out == DocsMetricsOf(json)
  {
    out := [];
    if !Truthy(json) {
      return;
    }
    var parts := DocsParts(json);
    var i := 0;
    while i < |parts|
      invariant 0 <= i <= |parts|
      invariant out == PushAll([], parts[..i])
    {
      ghost var upto := parts[..i + 1];
      assert upto[..i] == parts[..i] && upto[i] == parts[i];
      out := Push(out, parts[i].0, parts[i].1);
      i := i + 1;
    }
    assert parts[..i] == parts;
  }

  // ---------------------------------------------------------------- GitHub metrics and parsed artifacts

  datatype AuthorMetrics = AuthorMetrics(
    avgComplexity: real, pctFunctions: real, pctHotspots: real, pctLOC: real,
    commits: real, additions: real, deletions: real, commitPct: real, editPct: real)

  /** One author's entry of finalStats.json, each field through `pickNumber` with default 0. */
  function AuthorMetricsOf(s: Json): AuthorMetrics {
    AuthorMetrics(
      PickNumber(Field(s, "average_complexity"), 0.0),
      PickNumber(Field(s, "percentage_of_functions_written"), 0.0),
      PickNumber(Field(s, "percentage_of_hotspots"), 0.0),
      PickNumber(Field(s, "percentage_of_LOC"), 0.0),
      PickNumber(Field(s, "commits"), 0.0),
      PickNumber(Field(s, "additions"), 0.0),
      PickNumber(Field(s, "deletions"), 0.0),
      PickNumber(Field(s, "commit_percentage"), 0.0),
      PickNumber(Field(s, "edit_percentage"), 0.0))
  }

  /** `loadGitHubMetrics`: `authors[author] = ...` for every entry of finalStats.json, in order. */
  function GitHubMetricsOf(finalStats: Json): seq<(string, AuthorMetrics)> {
    AssocList.PutAll([], AuthorPairs(Entries(finalStats)))
  }

  function AuthorPairs(entries: seq<(string, Json)>): (r: seq<(string, AuthorMetrics)>)
    ensures |r| == |entries|
    ensures forall i :: 0 <= i < |r| ==> r[i] == (entries[i].0, AuthorMetricsOf(entries[i].1))
  {
    seq(|entries|, i requires 0 <= i < |entries| => (entries[i].0, AuthorMetricsOf(entries[i].1)))
  }

  /** `loadGitHubMetrics`: the `forEach` over the entries of finalStats.json. */
  method LoadGitHubMetrics(finalStats: Json) returns (authors: seq<(string, AuthorMetrics)>)
    ensures authors == GitHubMetricsOf(finalStats)
  {
    var entries := Entries(finalStats);
    ghost var pairs := AuthorPairs(entries);
    authors := [];
    var i := 0;
    while i < |entries|
      invariant 0 <= i <= |entries|
      invariant authors == AssocList.PutAll([], pairs[..i])
    {
      var (author, st) := entries[i];
      var m := AuthorMetricsOf(st);
      AuthorPairsSnoc(entries, i);
      authors := AssocList.Put(authors, author, m);
      i := i + 1;
    }
    assert pairs[..i] == pairs;
  }

  /** One more entry read extends the written list by that author's metrics. */
  lemma AuthorPairsSnoc(entries: seq<(string, Json)>, i: nat)
    requires i < |entries|
    ensures AssocList.PutAll([], AuthorPairs(entries)[..i + 1])
         == AssocList.Put(AssocList.PutAll([], AuthorPairs(entries)[..i]), entries[i].0, AuthorMetricsOf(entries[i].1))
  {
    var pairs := AuthorPairs(entries);
    assert pairs[..i + 1] == pairs[..i] + [(entries[i].0, AuthorMetricsOf(entries[i].1))];
    AssocList.PutAllSnoc([], pairs[..i], entries[i].0, AuthorMetricsOf(entries[i].1));
  }

  /** A field that is absent, null or not convertible to a finite number reads as 0. */
  lemma {:induction false} AuthorMetricsDefaults(s: Json, key: string)
    requires Field(s, key) == JNull || ToNumber(Field(s, key)).NaN?
    ensures key == "commits" ==> AuthorMetricsOf(s).commits == 0.0
    ensures key == "average_complexity" ==> AuthorMetricsOf(s).avgComplexity == 0.0
    ensures key == "percentage_of_LOC" ==> AuthorMetricsOf(s).pctLOC == 0.0
  {
  }

  /** `author.replace(/\s*\[bot\]\s*$/i, "")`: the final `[bot]` (any case), its surrounding whitespace removed. */
  function StripBotSuffix(a: string): (r: string)
    ensures |r| <= |a|
  {
    var t := TrimEnd(a);
    if |t| >= 5 && ToLower(t[|t| - 5..]) == "[bot]" then TrimEnd(t[..|t| - 5]) else a
  }

  /** A bot author `x [bot]` is matched as `x` (its trailing whitespace dropped). */
  lemma {:induction false} StripBotSuffixOfBot(x: string)
    ensures StripBotSuffix(x + " [bot]") == TrimEnd(x)
  {
    var a := x + " [bot]";
    var t := TrimEnd(a);
    assert t == a by {
      assert a[|a| - 1] == ']';
      TrimEndKeeps(a);
    }
    assert ToLower(t[|t| - 5..]) == "[bot]" by {
      assert a[|a| - 5..] == "[bot]";
      LowerBot();
    }
    assert TrimEnd(t[..|t| - 5]) == TrimEnd(x) by {
      assert a[..|a| - 5] == x + " ";
      TrimEndSpace(x);
    }
  }

  lemma {:induction false} TrimEndKeeps(a: string)
    requires a != [] && !IsSpace(a[|a| - 1])
    ensures TrimEnd(a) == a
  {
  }

  lemma {:induction false} TrimEndSpace(x: string)
    ensures TrimEnd(x + " ") == TrimEnd(x)
  {
    assert (x + " ")[..|x|] == x;
  }

  lemma {:induction false} LowerBot()
    ensures ToLower("[bot]") == "[bot]"
  {
  }

  /** `r.userType || r.detectedType || "unknown"` and the artifacts read through `parseInfo.jsonPath`. */
  datatype Artifacts = Artifacts(attendance: seq<Json>, worklog: seq<Json>, sprint: seq<Json>, project: seq<Json>)

  /** The content of `r.parseInfo.jsonPath`, given the parsed files by path; JNull when there is none. */
  function ArtifactOf(r: Json, files: map<string, Json>): Json {
    var rel := Field(Field(r, "parseInfo"), "jsonPath");
    if !Truthy(rel) || !rel.JStr? || rel.s !in files then JNull else files[rel.s]
  }

  function EntryType(r: Json): Json {
    Or(Or(Field(r, "userType"), Field(r, "detectedType")), JStr("unknown"))
  }

  /** What `loadParsedArtifacts` returns: each entry with a readable, truthy artifact goes to the list of its type. */
  function ParsedArtifactsOf(registry: seq<Json>, files: map<string, Json>): (a: Artifacts)
    ensures AllTruthy(a)
    ensures |a.attendance| + |a.worklog| + |a.sprint| + |a.project| <= |registry|
  {
    if registry == [] then Artifacts([], [], [], [])
    else
      var n := |registry| - 1;
      var a := ParsedArtifactsOf(registry[..n], files);
      var data := ArtifactOf(registry[n], files);
      var t := EntryType(registry[n]);
      if !Truthy(data) then a else AddArtifact(a, t, data)
  }

  /** Every artifact collected is truthy (`if (!data) return`). */
  predicate AllTruthy(a: Artifacts) {
    (forall j :: j in a.attendance ==> Truthy(j)) && (forall j :: j in a.worklog ==> Truthy(j)) &&
    (forall j :: j in a.sprint ==> Truthy(j)) && (forall j :: j in a.project ==> Truthy(j))
  }

  /** The list the entry's type selects, with `data` pushed; other types are dropped. */
  function AddArtifact(a: Artifacts, t: Json, data: Json): (r: Artifacts)
    requires AllTruthy(a) && Truthy(data)
    ensures AllTruthy(r)
    ensures |r.attendance| + |r.worklog| + |r.sprint| + |r.project| <= |a.attendance| + |a.worklog| + |a.sprint| + |a.project| + 1
  {
    if t == JStr("attendance") then a.(attendance := a.attendance + [data])
    else if t == JStr("worklog") then a.(worklog := a.worklog + [data])
    else if t == JStr("sprint_report") then a.(sprint := a.sprint + [data])
    else if t == JStr("project_plan") then a.(project := a.project + [data])
    else a
  }

  /** `loadParsedArtifacts`: the `registry.forEach` that pushes into the four result lists. */
  method LoadParsedArtifacts(registry: seq<Json>, files: map<string, Json>) returns (results: Artifacts)
    ensures results == ParsedArtifactsOf(registry, files)
  {
    results := Artifacts([], [], [], []);
    var i := 0;
    while i < |registry|
      invariant 0 <= i <= |registry|
      invariant results == ParsedArtifactsOf(registry[..i], files)
    {
      assert registry[..i + 1][..i] == registry[..i];
      var t := EntryType(registry[i]);
      var data := ArtifactOf(registry[i], files);
      if Truthy(data) {
        if t == JStr("attendance") {
          results := results.(attendance := results.attendance + [data]);
        } else if t == JStr("worklog") {
          results := results.(worklog := results.worklog + [data]);
        } else if t == JStr("sprint_report") {
          results := results.(sprint := results.sprint + [data]);
        } else if t == JStr("project_plan") {
          results := results.(project := results.project + [data]);
        }
      }
      i := i + 1;
    }
    assert registry[..i] == registry;
  }

  // ---------------------------------------------------------------- per-student accumulation

  datatype Code = Code(avgComplexity: real, pctFunctions: real, pctHotspots: real, pctLOC: real, commitPct: real, editPct: real)

  /** One entry of the `students` array built by `aggregateForTeam`. */
  datatype Row = Row(
    id: string, name: string, email: Option<string>, github: Option<string>,
    code: Code, attendance: AttendanceMetrics, docs: DocsMetrics, peerScore: real)

  function InitialRow(s: Student): (r: Row)
    ensures r.code == Code(0.0, 0.0, 0.0, 0.0, 0.0, 0.0) && r.attendance == AttendanceMetrics(0.0, 0.0) && r.docs == NoDocs
    ensures r.id == (if s.email != "" then s.email else s.name)
  {
    Row(
      if s.email != "" then s.email else s.name,
      s.name,
      if s.email != "" then Some(s.email) else None,
      if s.github != "" then Some(s.github) else None,
      Code(0.0, 0.0, 0.0, 0.0, 0.0, 0.0), AttendanceMetrics(0.0, 0.0), NoDocs, 0.0)
  }

  function InitialRows(students: seq<Student>): (rows: seq<Row>)
    ensures |rows| == |students|
    ensures forall i :: 0 <= i < |students| ==> rows[i] == InitialRow(students[i])
  {
    seq(|students|, i requires 0 <= i < |students| => InitialRow(students[i]))
  }

  /** Every index the alias map yields is a row. */
  predicate AliasBelow(alias: map<string, nat>, n: nat) {
    forall k :: k in alias ==> alias[k] < n
  }

  lemma {:induction false} AliasMapBelow(students: seq<Student>)
    ensures AliasBelow(AliasMapOf(students), |students|)
  {
    forall k | k in AliasMapOf(students) ensures AliasMapOf(students)[k] < |students| {
      AliasMapKeys(students, k);
    }
  }

  /** `c.avgComplexity = (c.avgComplexity + m.avgComplexity) / (c.avgComplexity ? 2 : 1)` and the five sums. */
  function AddAuthor(c: Code, m: AuthorMetrics): Code {
    Code(
      (c.avgComplexity + m.avgComplexity) / (if c.avgComplexity != 0.0 then 2.0 else 1.0),
      c.pctFunctions + m.pctFunctions,
      c.pctHotspots + m.pctHotspots,
      c.pctLOC + m.pctLOC,
      c.commitPct + m.commitPct,
      c.editPct + m.editPct)
  }

  /** The student an author is credited to: by name, then with a trailing `[bot]` stripped; -1 for none. */
  function AuthorIndex(alias: map<string, nat>, author: string): (idx: int)
    ensures idx == -1 || idx in alias.Values
  {
    var idx := MatchStudentIndex(alias, author);
    if idx == -1 then MatchStudentIndex(alias, StripBotSuffix(author)) else idx
  }

  /** The GitHub step for one author of finalStats.json. */
  function MergeAuthor(rows: seq<Row>, alias: map<string, nat>, author: string, m: AuthorMetrics): (r: seq<Row>)
    requires AliasBelow(alias, |rows|)
    ensures |r| == |rows|
  {
    var idx := AuthorIndex(alias, author);
    if idx == -1 then rows else rows[idx := rows[idx].(code := AddAuthor(rows[idx].code, m))]
  }

  function MergeGitHub(rows: seq<Row>, alias: map<string, nat>, gh: seq<(string, AuthorMetrics)>): (r: seq<Row>)
    requires AliasBelow(alias, |rows|)
    ensures |r| == |rows|
  {
    if gh == [] then rows
    else
      var n := |gh| - 1;
      MergeAuthor(MergeGitHub(rows, alias, gh[..n]), alias, gh[n].0, gh[n].1)
  }

  /** `hours += pickNumber(a.hours)` and `meetings += pickNumber(a.meetings)`. */
  function CreditAttendance(prev: AttendanceMetrics, a: AttendanceMetrics): AttendanceMetrics {
    AttendanceMetrics(prev.hours + PickNumber(JNum(a.hours), 0.0), prev.meetings + PickNumber(JNum(a.meetings), 0.0))
  }

  /** `docCount += pickNumber(d.docCount, 1)`, `words += pickNumber(d.words)`, `sections += pickNumber(d.sections)`. */
  function CreditDocs(prev: DocsMetrics, d: DocsMetrics): DocsMetrics {
    DocsMetrics(
      prev.docCount + PickNumber(JNum(d.docCount), 1.0),
      prev.words + PickNumber(JNum(d.words), 0.0),
      prev.sections + PickNumber(JNum(d.sections), 0.0))
  }

  /** The attendance step for one `(key, a)` of `extractAttendanceMetrics`. */
  function MergeAttendanceEntry(rows: seq<Row>, alias: map<string, nat>, key: string, a: AttendanceMetrics): (r: seq<Row>)
    requires AliasBelow(alias, |rows|)
    ensures |r| == |rows|
  {
    var idx := MatchStudentIndex(alias, key);
    if idx == -1 then rows
    else
      rows[idx := rows[idx].(attendance := CreditAttendance(rows[idx].attendance, a))]
  }

  function MergeAttendanceEntries(rows: seq<Row>, alias: map<string, nat>, byKey: seq<(string, AttendanceMetrics)>): (r: seq<Row>)
    requires AliasBelow(alias, |rows|)
    ensures |r| == |rows|
  {
    if byKey == [] then rows
    else
      var n := |byKey| - 1;
      MergeAttendanceEntry(MergeAttendanceEntries(rows, alias, byKey[..n]), alias, byKey[n].0, byKey[n].1)
  }

  function MergeAttendanceAll(rows: seq<Row>, alias: map<string, nat>, jss: seq<Json>): (r: seq<Row>)
    requires AliasBelow(alias, |rows|)
    ensures |r| == |rows|
  {
    if jss == [] then rows
    else
      var n := |jss| - 1;
      MergeAttendanceEntries(MergeAttendanceAll(rows, alias, jss[..n]), alias, AttendanceMetricsOf(jss[n]))
  }

  /** The documents step for one `(key, d)` of `extractDocsMetrics`; the docCount default is 1. */
  function MergeDocsEntry(rows: seq<Row>, alias: map<string, nat>, key: string, d: DocsMetrics): (r: seq<Row>)
    requires AliasBelow(alias, |rows|)
    ensures |r| == |rows|
  {
    var idx := MatchStudentIndex(alias, key);
    if idx == -1 then rows
    else
      rows[idx := rows[idx].(docs := CreditDocs(rows[idx].docs, d))]
  }

  function MergeDocsEntries(rows: seq<Row>, alias: map<string, nat>, byKey: seq<(string, DocsMetrics)>): (r: seq<Row>)
    requires AliasBelow(alias, |rows|)
    ensures |r| == |rows|
  {
    if byKey == [] then rows
    else
      var n := |byKey| - 1;
      MergeDocsEntry(MergeDocsEntries(rows, alias, byKey[..n]), alias, byKey[n].0, byKey[n].1)
  }

  function MergeDocsAll(rows: seq<Row>, alias: map<string, nat>, jss: seq<Json>): (r: seq<Row>)
    requires AliasBelow(alias, |rows|)
    ensures |r| == |rows|
  {
    if jss == [] then rows
    else
      var n := |jss| - 1;
      MergeDocsEntries(MergeDocsAll(rows, alias, jss[..n]), alias, DocsMetricsOf(jss[n]))
  }

  /** What `aggregateForTeam(team, rootDir)` returns, with finalStats.json, the registry and the parsed files given. */
  function AggregateSpec(students: seq<Student>, finalStats: Json, registry: seq<Json>, files: map<string, Json>): (rows: seq<Row>)
    ensures |rows| == |students|
  {
    var alias := AliasMapOf(students);
    AliasMapBelow(students);
    var rows := MergeGitHub(InitialRows(students), alias, GitHubMetricsOf(finalStats));
    var parsed := ParsedArtifactsOf(registry, files);
    var rows := MergeAttendanceAll(rows, alias, parsed.attendance);
    MergeDocsAll(rows, alias, parsed.worklog + parsed.sprint + parsed.project)
  }

  /** The GitHub `forEach`: `students[idx].code` is updated in place for each matched author. */
  method ApplyGitHub(rows: array<Row>, alias: map<string, nat>, gh: seq<(string, AuthorMetrics)>)
    requires AliasBelow(alias, rows.Length)
    modifies rows
    ensures rows[..] == MergeGitHub(old(rows[..]), alias, gh)
  {
    ghost var start := rows[..];
    var i := 0;
    while i < |gh|
      invariant 0 <= i <= |gh|
      invariant rows[..] == MergeGitHub(start, alias, gh[..i])
    {
      ApplyAuthor(rows, alias, gh[i].0, gh[i].1);
      MergeGitHubSnoc(start, alias, gh, i);
      i := i + 1;
    }
    assert gh[..i] == gh;
  }

  /** The body of the GitHub `forEach` for one `(author, m)`: the author's student (bot suffix as fallback) updated in place. */
  method ApplyAuthor(rows: array<Row>, alias: map<string, nat>, author: string, m: AuthorMetrics)
    requires AliasBelow(alias, rows.Length)
    modifies rows
    ensures rows[..] == MergeAuthor(old(rows[..]), alias, author, m)
  {
    ghost var before := rows[..];
    var idx := AuthorIndex(alias, author);
    if idx != -1 {
      assert idx < rows.Length by { ValueBelow(alias, rows.Length, idx); }
      var c := AddAuthor(rows[idx].code, m);
      rows[idx] := rows[idx].(code := c);
      assert rows[..] == before[idx := before[idx].(code := c)];
    }
  }

  lemma {:induction false} ValueBelow(alias: map<string, nat>, n: nat, idx: int)
    requires AliasBelow(alias, n) && idx in alias.Values
    ensures idx < n
  {
    var k :| k in alias && alias[k] == idx;
  }

  lemma {:induction false} MergeGitHubSnoc(rows: seq<Row>, alias: map<string, nat>, gh: seq<(string, AuthorMetrics)>, i: nat)
    requires AliasBelow(alias, |rows|) && i < |gh|
    ensures MergeGitHub(rows, alias, gh[..i + 1]) == MergeAuthor(MergeGitHub(rows, alias, gh[..i]), alias, gh[i].0, gh[i].1)
  {
    assert gh[..i + 1][..i] == gh[..i];
  }

  /** The inner `forEach` of the attendance step, for one parsed file. */
  method ApplyAttendanceEntries(rows: array<Row>, alias: map<string, nat>, byStudent: seq<(string, AttendanceMetrics)>)
    requires AliasBelow(alias, rows.Length)
    modifies rows
    ensures rows[..] == MergeAttendanceEntries(old(rows[..]), alias, byStudent)
  {
    ghost var start := rows[..];
    var i := 0;
    while i < |byStudent|
      invariant 0 <= i <= |byStudent|
      invariant rows[..] == MergeAttendanceEntries(start, alias, byStudent[..i])
    {
      assert byStudent[..i + 1][..i] == byStudent[..i];
      ghost var before := rows[..];
      assert before == MergeAttendanceEntries(start, alias, byStudent[..i + 1][..i]);
      var key, a := byStudent[i].0, byStudent[i].1;
      var idx := MatchStudentIndex(alias, key);
      if idx != -1 {
        rows[idx] := rows[idx].(attendance := CreditAttendance(rows[idx].attendance, a));
        assert rows[..] == before[idx := before[idx].(attendance := CreditAttendance(before[idx].attendance, a))];
      }
      assert rows[..] == MergeAttendanceEntry(before, alias, key, a);
      i := i + 1;
    }
    assert byStudent[..i] == byStudent;
  }

  lemma {:induction false} MergeAttendanceAllSnoc(rows: seq<Row>, alias: map<string, nat>, jss: seq<Json>, i: nat)
    requires AliasBelow(alias, |rows|) && i < |jss|
    ensures MergeAttendanceAll(rows, alias, jss[..i + 1])
         == MergeAttendanceEntries(MergeAttendanceAll(rows, alias, jss[..i]), alias, AttendanceMetricsOf(jss[i]))
  {
    assert jss[..i + 1][..i] == jss[..i];
  }

  method ApplyAttendance(rows: array<Row>, alias: map<string, nat>, jss: seq<Json>)
    requires AliasBelow(alias, rows.Length)
    modifies rows
    ensures rows[..] == MergeAttendanceAll(old(rows[..]), alias, jss)
  {
    ghost var start := rows[..];
    var i := 0;
    while i < |jss|
      invariant 0 <= i <= |jss|
      invariant rows[..] == MergeAttendanceAll(start, alias, jss[..i])
    {
      var byStudent := ExtractAttendanceMetrics(jss[i]);
      ApplyAttendanceEntries(rows, alias, byStudent);
      MergeAttendanceAllSnoc(start, alias, jss, i);
      i := i + 1;
    }
    assert jss[..i] == jss;
  }

  /** The inner `forEach` of the documents step, for one parsed file. */
  method ApplyDocsEntries(rows: array<Row>, alias: map<string, nat>, byStudent: seq<(string, DocsMetrics)>)
    requires AliasBelow(alias, rows.Length)
    modifies rows
    ensures rows[..] == MergeDocsEntries(old(rows[..]), alias, byStudent)
  {
    ghost var start := rows[..];
    var i := 0;
    while i < |byStudent|
      invariant 0 <= i <= |byStudent|
      invariant rows[..] == MergeDocsEntries(start, alias, byStudent[..i])
    {
      assert byStudent[..i + 1][..i] == byStudent[..i];
      ghost var before := rows[..];
      assert before == MergeDocsEntries(start, alias, byStudent[..i + 1][..i]);
      var key, d := byStudent[i].0, byStudent[i].1;
      var idx := MatchStudentIndex(alias, key);
      if idx != -1 {
        rows[idx] := rows[idx].(docs := CreditDocs(rows[idx].docs, d));
        assert rows[..] == before[idx := before[idx].(docs := CreditDocs(before[idx].docs, d))];
      }
      assert rows[..] == MergeDocsEntry(before, alias, key, d);
      i := i + 1;
    }
    assert byStudent[..i] == byStudent;
  }

  lemma {:induction false} MergeDocsAllSnoc(rows: seq<Row>, alias: map<string, nat>, jss: seq<Json>, i: nat)
    requires AliasBelow(alias, |rows|) && i < |jss|
    ensures MergeDocsAll(rows, alias, jss[..i + 1])
         == MergeDocsEntries(MergeDocsAll(rows, alias, jss[..i]), alias, DocsMetricsOf(jss[i]))
  {
    assert jss[..i + 1][..i] == jss[..i];
  }

  method ApplyDocs(rows: array<Row>, alias: map<string, nat>, jss: seq<Json>)
    requires AliasBelow(alias, rows.Length)
    modifies rows
    ensures rows[..] == MergeDocsAll(old(rows[..]), alias, jss)
  {
    ghost var start := rows[..];
    var i := 0;
    while i < |jss|
      invariant 0 <= i <= |jss|
      invariant rows[..] == MergeDocsAll(start, alias, jss[..i])
    {
      var byStudent := ExtractDocsMetrics(jss[i]);
      ApplyDocsEntries(rows, alias, byStudent);
      MergeDocsAllSnoc(start, alias, jss, i);
      i := i + 1;
    }
    assert jss[..i] == jss;
  }

  /** `aggregateForTeam`: the roster's rows, then the GitHub, attendance and documents steps in place. */
  method AggregateForTeam(students: seq<Student>, finalStats: Json, registry: seq<Json>, files: map<string, Json>)
    returns (rows: array<Row>)
    ensures fresh(rows)
    ensures rows[..] == AggregateSpec(students, finalStats, registry, files)
  {
    var alias := BuildAliasMap(students);
    AliasMapBelow(students);
    rows := new Row[|students|](i requires 0 <= i < |students| => InitialRow(students[i]));
    assert rows[..] == InitialRows(students);
    var gh := LoadGitHubMetrics(finalStats);
    ApplyGitHub(rows, alias, gh);
    var parsed := LoadParsedArtifacts(registry, files);
    ApplyAttendance(rows, alias, parsed.attendance);
    ApplyDocs(rows, alias, parsed.worklog + parsed.sprint + parsed.project);
  }

  // ---------------------------------------------------------------- properties of the accumulation

  /** `a` and `b` agree on everything but `code` (`attendance`, `docs`). */
  predicate SameButCode(a: Row, b: Row) { a == b.(code := a.code) }
  predicate SameButAttendance(a: Row, b: Row) { a == b.(attendance := a.attendance) }
  predicate SameButDocs(a: Row, b: Row) { a == b.(docs := a.docs) }

  /** The same students, in the same order, with the same identity fields. */
  predicate SameIdentities(r: seq<Row>, rows: seq<Row>) {
    |r| == |rows| &&
    forall i :: 0 <= i < |rows| ==>
      r[i].id == rows[i].id && r[i].name == rows[i].name && r[i].email == rows[i].email &&
      r[i].github == rows[i].github && r[i].peerScore == rows[i].peerScore
  }

  /**
    An author that matches no student, even with a trailing `[bot]` stripped,
    changes nothing; a matched author changes only its student's code: the five
    shares add up, and avgComplexity takes the author's value while the current
    one is 0 and the mean of the two otherwise.
   */
  lemma {:induction false} MergeAuthorSpec(rows: seq<Row>, alias: map<string, nat>, author: string, m: AuthorMetrics)
    requires AliasBelow(alias, |rows|)
    ensures var r := MergeAuthor(rows, alias, author, m);
      var idx := AuthorIndex(alias, author);
      (idx == -1 ==> r == rows) &&
      (idx != -1 ==>
        0 <= idx < |rows| &&
        (forall j :: 0 <= j < |rows| && j != idx ==> r[j] == rows[j]) &&
        SameButCode(r[idx], rows[idx]) &&
        r[idx].code.pctFunctions == rows[idx].code.pctFunctions + m.pctFunctions &&
        r[idx].code.pctHotspots == rows[idx].code.pctHotspots + m.pctHotspots &&
        r[idx].code.pctLOC == rows[idx].code.pctLOC + m.pctLOC &&
        r[idx].code.commitPct == rows[idx].code.commitPct + m.commitPct &&
        r[idx].code.editPct == rows[idx].code.editPct + m.editPct &&
        (rows[idx].code.avgComplexity == 0.0 ==> r[idx].code.avgComplexity == m.avgComplexity) &&
        (rows[idx].code.avgComplexity != 0.0 ==>
          r[idx].code.avgComplexity == (rows[idx].code.avgComplexity + m.avgComplexity) / 2.0))
  {
  }

  /** The GitHub step changes only `code`; when no author matches it changes nothing at all. */
  lemma {:induction false} MergeGitHubSpec(rows: seq<Row>, alias: map<string, nat>, gh: seq<(string, AuthorMetrics)>)
    requires AliasBelow(alias, |rows|)
    ensures var r := MergeGitHub(rows, alias, gh);
      forall i :: 0 <= i < |rows| ==> SameButCode(r[i], rows[i])
    ensures (forall i :: 0 <= i < |gh| ==> AuthorIndex(alias, gh[i].0) == -1) ==> MergeGitHub(rows, alias, gh) == rows
  {
    if gh != [] {
      var n := |gh| - 1;
      assert forall i :: 0 <= i < n ==> gh[..n][i] == gh[i];
      MergeGitHubSpec(rows, alias, gh[..n]);
      MergeAuthorSpec(MergeGitHub(rows, alias, gh[..n]), alias, gh[n].0, gh[n].1);
    }
  }

  function AddAttendance(a: AttendanceMetrics, b: AttendanceMetrics): AttendanceMetrics {
    AttendanceMetrics(a.hours + b.hours, a.meetings + b.meetings)
  }

  /** The attendance every entry of `byKey` whose key resolves to row `i` contributes. */
  function AttendanceCredited(alias: map<string, nat>, byKey: seq<(string, AttendanceMetrics)>, i: nat): AttendanceMetrics {
    if byKey == [] then AttendanceMetrics(0.0, 0.0)
    else
      var n := |byKey| - 1;
      var before := AttendanceCredited(alias, byKey[..n], i);
      if MatchStudentIndex(alias, byKey[n].0) == i then AddAttendance(before, byKey[n].1) else before
  }

  /** One attendance entry adds its figures to the row its key resolves to and leaves every other row alone. */
  lemma {:induction false} MergeAttendanceEntrySpec(rows: seq<Row>, alias: map<string, nat>, key: string, a: AttendanceMetrics)
    requires AliasBelow(alias, |rows|)
    ensures var r := MergeAttendanceEntry(rows, alias, key, a);
      forall i :: 0 <= i < |rows| ==>
        SameButAttendance(r[i], rows[i]) &&
        r[i].attendance == (if MatchStudentIndex(alias, key) == i then AddAttendance(rows[i].attendance, a) else rows[i].attendance)
  {
    PickNumberOfNumber(a.hours, 0.0);
    PickNumberOfNumber(a.meetings, 0.0);
  }

  /**
    Each student's attendance grows by exactly the hours and meetings of the
    entries whose key resolves to it; nothing else in any row changes.
   */
  lemma {:induction false} MergeAttendanceEntriesSpec(rows: seq<Row>, alias: map<string, nat>, byKey: seq<(string, AttendanceMetrics)>)
    requires AliasBelow(alias, |rows|)
    ensures var r := MergeAttendanceEntries(rows, alias, byKey);
      forall i :: 0 <= i < |rows| ==>
        SameButAttendance(r[i], rows[i]) &&
        r[i].attendance == AddAttendance(rows[i].attendance, AttendanceCredited(alias, byKey, i))
  {
    if byKey != [] {
      var n := |byKey| - 1;
      MergeAttendanceEntriesSpec(rows, alias, byKey[..n]);
      MergeAttendanceEntrySpec(MergeAttendanceEntries(rows, alias, byKey[..n]), alias, byKey[n].0, byKey[n].1);
    }
  }

  function DocsCredited(alias: map<string, nat>, byKey: seq<(string, DocsMetrics)>, i: nat): DocsMetrics {
    if byKey == [] then NoDocs
    else
      var n := |byKey| - 1;
      var before := DocsCredited(alias, byKey[..n], i);
      if MatchStudentIndex(alias, byKey[n].0) == i then AddDocs(before, byKey[n].1) else before
  }

  /**
    Each student's documents grow by exactly the counts the extractor reported for
    keys resolving to it (a reported docCount, always present, is never replaced by
    the default 1); nothing else changes.
   */
  lemma {:induction false} MergeDocsEntriesSpec(rows: seq<Row>, alias: map<string, nat>, byKey: seq<(string, DocsMetrics)>)
    requires AliasBelow(alias, |rows|)
    ensures var r := MergeDocsEntries(rows, alias, byKey);
      forall i :: 0 <= i < |rows| ==>
        SameButDocs(r[i], rows[i]) &&
        r[i].docs == AddDocs(rows[i].docs, DocsCredited(alias, byKey, i))
  {
    if byKey != [] {
      var n := |byKey| - 1;
      MergeDocsEntriesSpec(rows, alias, byKey[..n]);
      MergeDocsEntrySpec(MergeDocsEntries(rows, alias, byKey[..n]), alias, byKey[n].0, byKey[n].1);
    }
  }

  lemma {:induction false} MergeDocsEntrySpec(rows: seq<Row>, alias: map<string, nat>, key: string, d: DocsMetrics)
    requires AliasBelow(alias, |rows|)
    ensures var r := MergeDocsEntry(rows, alias, key, d);
      forall i :: 0 <= i < |rows| ==>
        SameButDocs(r[i], rows[i]) &&
        r[i].docs == (if MatchStudentIndex(alias, key) == i then AddDocs(rows[i].docs, d) else rows[i].docs)
  {
    PickNumberOfNumber(d.docCount, 1.0);
    PickNumberOfNumber(d.words, 0.0);
    PickNumberOfNumber(d.sections, 0.0);
  }

  lemma {:induction false} MergeAttendanceAllKeeps(rows: seq<Row>, alias: map<string, nat>, jss: seq<Json>)
    requires AliasBelow(alias, |rows|)
    ensures var r := MergeAttendanceAll(rows, alias, jss);
      forall i :: 0 <= i < |rows| ==> SameButAttendance(r[i], rows[i])
  {
    if jss != [] {
      var n := |jss| - 1;
      MergeAttendanceAllKeeps(rows, alias, jss[..n]);
      MergeAttendanceEntriesSpec(MergeAttendanceAll(rows, alias, jss[..n]), alias, AttendanceMetricsOf(jss[n]));
    }
  }

  lemma {:induction false} MergeDocsAllKeeps(rows: seq<Row>, alias: map<string, nat>, jss: seq<Json>)
    requires AliasBelow(alias, |rows|)
    ensures var r := MergeDocsAll(rows, alias, jss);
      forall i :: 0 <= i < |rows| ==> SameButDocs(r[i], rows[i])
  {
    if jss != [] {
      var n := |jss| - 1;
      MergeDocsAllKeeps(rows, alias, jss[..n]);
      MergeDocsEntriesSpec(MergeDocsAll(rows, alias, jss[..n]), alias, DocsMetricsOf(jss[n]));
    }
  }

  /**
    The aggregation returns one row per roster student, in roster order, keeping
    its id (`email || name`), name, email, github and a peer score of 0.
   */
  lemma {:induction false} AggregateKeepsRoster(students: seq<Student>, finalStats: Json, registry: seq<Json>, files: map<string, Json>)
    ensures SameIdentities(AggregateSpec(students, finalStats, registry, files), InitialRows(students))
  {
    var alias := AliasMapOf(students);
    AliasMapBelow(students);
    var rows0 := InitialRows(students);
    var rows1 := MergeGitHub(rows0, alias, GitHubMetricsOf(finalStats));
    MergeGitHubSpec(rows0, alias, GitHubMetricsOf(finalStats));
    var parsed := ParsedArtifactsOf(registry, files);
    var rows2 := MergeAttendanceAll(rows1, alias, parsed.attendance);
    MergeAttendanceAllKeeps(rows1, alias, parsed.attendance);
    MergeDocsAllKeeps(rows2, alias, parsed.worklog + parsed.sprint + parsed.project);
  }

  /** Entries that carry no hours and no meetings leave every student as it was. */
  lemma {:induction false} ZeroAttendanceAddsNothing(rows: seq<Row>, alias: map<string, nat>, byKey: seq<(string, AttendanceMetrics)>)
    requires AliasBelow(alias, |rows|)
    requires forall i :: 0 <= i < |byKey| ==> byKey[i].1 == AttendanceMetrics(0.0, 0.0)
    ensures MergeAttendanceEntries(rows, alias, byKey) == rows
  {
    if byKey != [] {
      var n := |byKey| - 1;
      assert forall i :: 0 <= i < n ==> byKey[..n][i] == byKey[i];
      ZeroAttendanceAddsNothing(rows, alias, byKey[..n]);
      PickNumberOfNumber(0.0, 0.0);
      var idx := MatchStudentIndex(alias, byKey[n].0);
      if idx != -1 {
        var row := rows[idx];
        assert AttendanceMetrics(row.attendance.hours + 0.0, row.attendance.meetings + 0.0) == row.attendance;
        assert rows[idx := row] == rows;
      }
    }
  }

  /**
    The output of the attendance sheet parser, `{WeeklyAttendance: [...],
    AttendanceSummary: {...}}`, has no per-student hours or meetings: unless a
    team member is called "hours" or "meetings", merging it leaves every
    student as it was.
   */
  lemma {:induction false} AttendanceSheetAddsNothing(rows: seq<Row>, alias: map<string, nat>, weekly: seq<Json>, summary: seq<(string, Json)>)
    requires AliasBelow(alias, |rows|)
    requires !AssocList.HasKey(summary, "hours") && !AssocList.HasKey(summary, "meetings")
    ensures MergeAttendanceEntries(rows, alias,
      AttendanceMetricsOf(JObj([("WeeklyAttendance", JArr(weekly)), ("AttendanceSummary", JObj(summary))]))) == rows
  {
    var json := JObj([("WeeklyAttendance", JArr(weekly)), ("AttendanceSummary", JObj(summary))]);
    var zero := AttendanceMetrics(0.0, 0.0);
    var pairs := [("WeeklyAttendance", zero), ("AttendanceSummary", zero)];
    assert EntryAttendancePairs(Entries(json)) == pairs by {
      var entries := Entries(json);
      assert AttendanceOf(JObj(summary)) == zero;
      assert entries[..1] == [entries[0]] && entries[..1][..0] == [];
      assert EntryAttendancePairs(entries[..1]) == [("WeeklyAttendance", zero)];
    }
    assert AssocList.PutAll([], pairs) == pairs by {
      AssocList.PutAllSnoc([], pairs[..1], "AttendanceSummary", zero);
      AssocList.PutAllSnoc([], [], "WeeklyAttendance", zero);
      assert pairs[..1] == [("WeeklyAttendance", zero)];
    }
    assert AttendanceMetricsOf(json) == pairs by {
      assert Field(json, "students") == JNull;
    }
    ZeroAttendanceAddsNothing(rows, alias, pairs);
  }
}
