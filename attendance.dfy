/**
  `parse_attendance_xlsx` of backend/parsers/attendance.py over the cells of
  the active sheet: row 1 holds the headers, every later row one week. Each
  member column counts towards the member's total, "present" towards their
  attendance and "absent" lists them as an absentee; the "Reasons for
  Absence" text is read as "Name - reason" fragments. Reading the workbook and
  writing the JSON file are left to the caller: the method returns the
  document it would write, or the exception that stops it.
 */
module Attendance {
  import opened Wrappers
  import opened Strings
  import opened AssocList
  import opened Lists
  import FinalStats

  // ---------------------------------------------------------------- cells

  /** A cell as openpyxl reads it: empty, text, a whole number, or a date (held as its `%Y-%m-%d` text). */
  datatype Cell = Blank | Text(s: string) | Number(n: int) | Day(iso: string)

  /** Python truthiness of a cell. */
  predicate Truthy(c: Cell) {
    match c
    case Blank => false
    case Text(s) => s != ""
    case Number(n) => n != 0
    case Day(_) => true
  }

  /** `str(n)` of an integer. */
  function IntText(n: int): string {
    if n < 0 then "-" + NatToString(-n) else NatToString(n)
  }

  /** `str(c)`; a date prints as its ISO text. */
  function Str(c: Cell): string {
    match c
    case Blank => "None"
    case Text(s) => s
    case Number(n) => IntText(n)
    case Day(iso) => iso
  }

  /** The sheet as openpyxl hands it over: at least one column, and every row as wide as the header row. */
  predicate SheetShape(headers: seq<Cell>, rows: seq<seq<Cell>>) {
    |headers| >= 1 && forall i :: 0 <= i < |rows| ==> |rows[i]| == |headers|
  }

  // ---------------------------------------------------------------- headers and row dictionaries

  /** A header that names a team member: anything but the three bookkeeping columns. */
  predicate IsMember(h: Cell) {
    h != Text("Week") && h != Text("Date") && h != Text("Reasons for Absence")
  }

  /** `team_members`: the headers in sheet order, without the bookkeeping columns. */
  function Members(headers: seq<Cell>): seq<Cell> {
    Select(headers, IsMember)
  }

  /** The members are exactly the headers other than Week, Date and Reasons for Absence. */
  lemma {:induction false} MembersSpec(headers: seq<Cell>, h: Cell)
    ensures h in Members(headers) <==> h in headers && IsMember(h)
    ensures |Members(headers)| <= |headers|
  {
    SelectExactly(headers, IsMember, h);
    SelectShorter(headers, IsMember);
  }

  /** `dict(zip(headers, row))`: pairs up to the shorter of the two; a later column with the same header wins. */
  function RowDict(headers: seq<Cell>, row: seq<Cell>): (d: map<Cell, Cell>)
    ensures forall i :: 0 <= i < |headers| && i < |row| ==> headers[i] in d
    ensures forall k :: k in d ==> k in headers
    decreases |headers|
  {
    var m := if |headers| < |row| then |headers| else |row|;
    if m == 0 then map[]
    else
      var before := RowDict(headers[..m - 1], row[..m - 1]);
      assert forall i :: 0 <= i < m - 1 ==> headers[..m - 1][i] == headers[i];
      before[headers[m - 1] := row[m - 1]]
  }

  /** A header reads the cell of the last column carrying it. */
  lemma {:induction false} RowDictLast(headers: seq<Cell>, row: seq<Cell>, i: int)
    requires 0 <= i < |headers| && i < |row|
    requires forall j :: i < j < |headers| && j < |row| ==> headers[j] != headers[i]
    ensures RowDict(headers, row)[headers[i]] == row[i]
    decreases |headers|
  {
    var m := if |headers| < |row| then |headers| else |row|;
    if i < m - 1 {
      var hs, rs := headers[..m - 1], row[..m - 1];
      assert hs[i] == headers[i] && rs[i] == row[i];
      RowDictLast(hs, rs, i);
    }
  }

  /** `row_dict[k]` for a key that is present; a missing one reads as an empty cell. */
  function Lookup(d: map<Cell, Cell>, k: Cell): Cell {
    if k in d then d[k] else Blank
  }

  // ---------------------------------------------------------------- one week

  /** `str(v).strip().lower() if v else ""`. */
  function Status(c: Cell): string {
    if Truthy(c) then ToLower(Trim(Str(c))) else ""
  }

  predicate IsPresent(c: Cell) {
    Status(c) == "present"
  }

  predicate IsAbsent(c: Cell) {
    Status(c) == "absent"
  }

  /** The status of each member's cell in a row. */
  function StatusIn(d: map<Cell, Cell>): Cell -> string {
    m => Status(Lookup(d, m))
  }

  /** `week_info["Absentees"]`: the members whose status is "absent", in header order. */
  function Absentees(members: seq<Cell>, status: Cell -> string): seq<Cell> {
    Select(members, m => status(m) == "absent")
  }

  /** A member is listed as absent exactly when their cell says absent, and the list keeps header order. */
  lemma {:induction false} AbsenteesSpec(members: seq<Cell>, d: map<Cell, Cell>, m: Cell)
    ensures m in Absentees(members, StatusIn(d)) <==> m in members && IsAbsent(Lookup(d, m))
    ensures |Absentees(members, StatusIn(d))| <= |members|
  {
    var status := StatusIn(d);
    SelectExactly(members, m => status(m) == "absent", m);
    SelectShorter(members, m => status(m) == "absent");
  }

  /** `date_str`: a date cell in `%Y-%m-%d` form, anything else printed and stripped. */
  function DateText(c: Cell): string {
    match c
    case Day(iso) => iso
    case _ => Trim(Str(c))
  }

  /** `int(v)` of the Week cell; `None` where Python raises. */
  function WeekNumber(c: Cell): (r: Option<int>)
    ensures c.Number? ==> r == Some(c.n)
    ensures c.Blank? || c.Day? ==> r.None?
  {
    match c
    case Number(n) => Some(n)
    case Text(s) => FinalStats.ParseInt(s)
    case _ => None
  }

  /** `str(row_dict.get("Reasons for Absence") or "").strip()`. */
  function ReasonsText(d: map<Cell, Cell>): string {
    var c := Lookup(d, Text("Reasons for Absence"));
    if Truthy(c) then Trim(Str(c)) else ""
  }

  // ---------------------------------------------------------------- reasons for absence

  /** A character of the name group `[\w\s\(\)]`. */
  predicate NameChar(c: char) {
    IsAlnum(c) || c == '_' || IsSpace(c) || c == '(' || c == ')'
  }

  /** The text up to the first line break: what `.+` matches. */
  function FirstLine(s: string): (r: string)
    ensures '\n' !in r
    ensures |r| <= |s| && r == s[..|r|]
    ensures |r| < |s| ==> s[|r|] == '\n'
  {
    if s == [] || s[0] == '\n' then [] else [s[0]] + FirstLine(s[1..])
  }

  /**
    `re.match(r"\s*([\w\s\(\)]+?)\s*-\s*(.+)", entry)` on a stripped entry:
    the name is the text before the first '-' (only name characters, at least
    one), the reason the first line of what follows it, both stripped.
   */
  function MatchReason(entry: string): Option<(string, string)> {
    var p := IndexOf(entry, "-");
    if p < 1 || !(forall k :: 0 <= k < p ==> NameChar(entry[k])) then None
    else
      var body := TrimStart(entry[p + 1..]);
      if body == "" then None else Some((Trim(entry[..p]), Trim(FirstLine(body))))
  }

  /** One fragment of the reasons text. */
  function ReasonEntry(piece: string): Option<(string, string)> {
    MatchReason(Trim(piece))
  }

  /** The fragments that name someone, in text order. */
  function ReasonPairs(text: string): seq<(string, string)> {
    if text == "" then [] else Collect(SplitAny(text, {';', ','}), ReasonEntry)
  }

  /** `week_info["Reasons"]` after the loop over the fragments. */
  function Reasons(text: string): seq<(string, string)> {
    PutAll([], ReasonPairs(text))
  }

  /** Each name is recorded once, with the reason of its last fragment; unmatched fragments leave no trace. */
  lemma {:induction false} ReasonsSpec(text: string, name: string)
    ensures Distinct(Reasons(text))
    ensures Get(Reasons(text), name) == LastValue(ReasonPairs(text), name)
  {
    PutAllDistinct([], ReasonPairs(text));
    GetPutAll([], ReasonPairs(text), name);
  }

  /** A fragment "name - reason" reads back as its name and reason. */
  lemma {:induction false} MatchReasonOfFragment(name: string, reason: string)
    requires name != [] && (forall k :: 0 <= k < |name| ==> NameChar(name[k]))
    requires !IsSpace(name[0]) && !IsSpace(name[|name| - 1])
    requires reason != [] && !IsSpace(reason[0]) && !IsSpace(reason[|reason| - 1]) && '\n' !in reason
    ensures MatchReason(name + " - " + reason) == Some((name, reason))
  {
    var entry := name + " - " + reason;
    var p := |name| + 1;
    FragmentParts(name, reason);
    assert forall k :: 0 <= k < p ==> NameChar(entry[k]) && entry[k] != '-' by {
      forall k | 0 <= k < p
        ensures NameChar(entry[k]) && entry[k] != '-'
      {
        assert entry[k] == entry[..p][k];
      }
    }
    IndexOfChar(entry, '-', p);
    assert TrimStart(entry[p + 1..]) == reason by {
      assert (" " + reason)[1..] == reason;
    }
    FirstLineWhole(reason);
    TrimOfNonSpaceEdges(reason);
    TrimSpaced(name);
  }

  /** The three parts of a fragment "name - reason". */
  lemma {:induction false} FragmentParts(name: string, reason: string)
    ensures var entry := name + " - " + reason;
      && entry[..|name| + 1] == name + " "
      && entry[|name| + 1] == '-'
      && entry[|name| + 2..] == " " + reason
  {
    var entry := name + " - " + reason;
    assert entry == (name + " ") + ("- " + reason);
  }

  lemma {:induction false} FirstLineWhole(s: string)
    requires '\n' !in s
    ensures FirstLine(s) == s
  {
    var r := FirstLine(s);
    assert |r| == |s|;
    assert r == s[..|s|];
  }

  lemma {:induction false} TrimSpaced(name: string)
    requires name != [] && !IsSpace(name[0]) && !IsSpace(name[|name| - 1])
    ensures Trim(name + " ") == name
  {
    var left := name + " ";
    assert TrimStart(left) == left;
    assert left[..|left| - 1] == name;
    assert TrimEnd(left) == TrimEnd(name);
    TrimOfNonSpaceEdges(name);
  }

  /** A reasons cell of fragments separated by ';' or ',' records each named member with their reason. */
  lemma {:induction false} ReasonsOfTwo(a: string, b: string, sep: char)
    requires sep == ';' || sep == ','
    requires ';' !in a && ',' !in a && ';' !in b && ',' !in b
    requires a + [sep] + b != ""
    ensures ReasonPairs(a + [sep] + b) == Collect([a], ReasonEntry) + Collect([b], ReasonEntry)
  {
    var seps := {';', ','};
    SplitAnyConcat(a, sep, b, seps);
    SplitAnyNone(a, seps);
    SplitAnyNone(b, seps);
    CollectAppend([a], [b], ReasonEntry);
    assert [a] + [b] == SplitAny(a + [sep] + b, seps);
  }

  // ---------------------------------------------------------------- the whole sheet

  /** One entry of `WeeklyAttendance`. */
  datatype WeekInfo = WeekInfo(week: int, date: string, absentees: seq<Cell>, reasons: seq<(string, string)>)

  /** What `json.dump` writes: the weekly records and the per-member attendance rate. */
  datatype Output = Output(weekly: seq<WeekInfo>, summary: seq<(Cell, real)>)

  /** `if not row[0]: continue`. */
  predicate Kept(row: seq<Cell>) {
    |row| > 0 && Truthy(row[0])
  }

  /** The record of a kept row, or the exception it raises. */
  function WeekOf(headers: seq<Cell>, row: seq<Cell>): Result<WeekInfo> {
    var d := RowDict(headers, row);
    if Text("Date") !in d then Err("KeyError: 'Date'")
    else if Text("Week") !in d then Err("KeyError: 'Week'")
    else
      match WeekNumber(d[Text("Week")])
      case None => Err("the Week cell is not an integer")
      case Some(w) =>
        Ok(WeekInfo(w, DateText(d[Text("Date")]), Absentees(Members(headers), StatusIn(d)), Reasons(ReasonsText(d))))
  }

  /** `WeekOf` as the reading step of the row loop. */
  function WeekReader(headers: seq<Cell>): seq<Cell> -> Result<WeekInfo> {
    row => WeekOf(headers, row)
  }

  /** The records of the kept rows in sheet order, or the first exception. */
  function Weeks(headers: seq<Cell>, rows: seq<seq<Cell>>): Result<seq<WeekInfo>> {
    Gather(rows, Kept, WeekReader(headers))
  }

  /** The number of kept rows. */
  function KeptCount(rows: seq<seq<Cell>>): nat {
    |Select(rows, Kept)|
  }

  /** The kept rows in which `m`'s cell says present. */
  function PresentRows(headers: seq<Cell>, rows: seq<seq<Cell>>, m: Cell): nat {
    if rows == [] then 0
    else
      var n := |rows| - 1;
      PresentRows(headers, rows[..n], m)
        + if Kept(rows[n]) && IsPresent(Lookup(RowDict(headers, rows[n]), m)) then 1 else 0
  }

  /** Counting one more row. */
  lemma {:induction false} CountsSnoc(headers: seq<Cell>, rows: seq<seq<Cell>>, row: seq<Cell>, m: Cell)
    ensures KeptCount(rows + [row]) == KeptCount(rows) + if Kept(row) then 1 else 0
    ensures PresentRows(headers, rows + [row], m)
         == PresentRows(headers, rows, m) + if Kept(row) && IsPresent(Lookup(RowDict(headers, row), m)) then 1 else 0
  {
    assert (rows + [row])[..|rows|] == rows;
  }

  /** A member is present in no more rows than are kept. */
  lemma {:induction false} PresentAtMostKept(headers: seq<Cell>, rows: seq<seq<Cell>>, m: Cell)
    ensures PresentRows(headers, rows, m) <= KeptCount(rows)
  {
    if rows != [] {
      var n := |rows| - 1;
      PresentAtMostKept(headers, rows[..n], m);
      assert rows == rows[..n] + [rows[n]];
      CountsSnoc(headers, rows[..n], rows[n], m);
    }
  }

  /** Python's `round(x, 2)`: the nearest hundredth, a tie going to the even one. */
  function Round2(x: real): real {
    var y := x * 100.0;
    var f := y.Floor;
    var q := if y - f as real < 0.5 then f
      else if y - f as real > 0.5 then f + 1
      else if f % 2 == 0 then f else f + 1;
    q as real / 100.0
  }

  /** Rounding to hundredths moves a value by at most 0.005 and keeps a rate within [0, 1]. */
  lemma {:induction false} Round2Spec(x: real)
    ensures x - 0.005 <= Round2(x) <= x + 0.005
    ensures 0.0 <= x <= 1.0 ==> 0.0 <= Round2(x) <= 1.0
  {
    var y := x * 100.0;
    var f := y.Floor;
    assert f as real <= y < f as real + 1.0;
    if 0.0 <= x <= 1.0 {
      assert 0.0 <= y <= 100.0;
    }
  }

  /** `round(attended / total, 2) if total else 0.0`. */
  function Rate(attended: nat, total: nat): real {
    if total == 0 then 0.0 else Round2(attended as real / total as real)
  }

  /** `n` counted `k` times over: the count of a member whose header appears in `k` columns. */
  function Times(k: nat, n: nat): nat {
    if n == 0 then 0 else Times(k, n - 1) + k
  }

  /** A common positive factor cancels in a quotient. */
  lemma {:induction false} DivCancel(a: real, t: real, k: real)
    requires t != 0.0 && k != 0.0
    ensures (k * a) / (k * t) == a / t
  {
    var q := a / t;
    assert q * t == a;
    assert (k * t) * q == k * a;
  }

  /** `Times` as a product of reals. */
  lemma {:induction false} TimesReal(k: nat, n: nat)
    ensures Times(k, n) as real == k as real * n as real
    ensures n > 0 ==> Times(k, n) >= k
  {
    if n > 0 {
      TimesReal(k, n - 1);
      assert k as real * (n - 1) as real + k as real == k as real * n as real;
    }
  }

  /** Counting each row `k` times leaves the quotient of the counts unchanged. */
  lemma {:induction false} QuotientOfRepeated(k: nat, attended: nat, total: nat)
    requires k >= 1 && total != 0
    ensures Times(k, total) != 0
    ensures Times(k, attended) as real / Times(k, total) as real == attended as real / total as real
  {
    TimesReal(k, attended);
    TimesReal(k, total);
    DivCancel(attended as real, total as real, k as real);
  }

  /** Counting each row `k` times multiplies both counts by `k`, which leaves the rate unchanged. */
  lemma {:induction false} RateOfRepeated(k: nat, attended: nat, total: nat)
    requires k >= 1
    ensures Rate(Times(k, attended), Times(k, total)) == Rate(attended, total)
  {
    if total != 0 {
      QuotientOfRepeated(k, attended, total);
    }
  }

  /** The distinct elements in order of first occurrence: the keys of a dict comprehension. */
  function Unique<T(==, !new)>(xs: seq<T>): (r: seq<T>)
    ensures forall x :: x in r <==> x in xs
    ensures forall i, j :: 0 <= i < j < |r| ==> r[i] != r[j]
  {
    if xs == [] then []
    else
      var n := |xs| - 1;
      var before := Unique(xs[..n]);
      assert forall x :: x in xs <==> x in xs[..n] || x == xs[n] by {
        assert xs == xs[..n] + [xs[n]];
      }
      if xs[n] in before then before else before + [xs[n]]
  }

  /** `AttendanceSummary`: every member once, in header order, with their rate over the kept rows. */
  function Summary(headers: seq<Cell>, rows: seq<seq<Cell>>): (r: seq<(Cell, real)>)
    ensures |r| == |Unique(Members(headers))|
  {
    var keys := Unique(Members(headers));
    seq(|keys|, j requires 0 <= j < |keys| => (keys[j], Rate(PresentRows(headers, rows, keys[j]), KeptCount(rows))))
  }

  /** The document the parser writes, or the exception that stops it. */
  function AttendanceOf(headers: seq<Cell>, rows: seq<seq<Cell>>): Result<Output> {
    match Weeks(headers, rows)
    case Err(e) => Err(e)
    case Ok(ws) => Ok(Output(ws, Summary(headers, rows)))
  }

  // ---------------------------------------------------------------- properties

  /**
    The records are those of the kept rows, one each and in order; the sheet
    parses exactly when every kept row does.
   */
  lemma {:induction false} WeeksSpec(headers: seq<Cell>, rows: seq<seq<Cell>>)
    ensures Weeks(headers, rows).Ok? <==>
      forall j :: 0 <= j < KeptCount(rows) ==> WeekOf(headers, Select(rows, Kept)[j]).Ok?
    ensures Weeks(headers, rows).Ok? ==>
      |Weeks(headers, rows).value| == KeptCount(rows) &&
      forall j :: 0 <= j < KeptCount(rows) ==> Ok(Weeks(headers, rows).value[j]) == WeekOf(headers, Select(rows, Kept)[j])
  {
    GatherSpec(rows, Kept, WeekReader(headers));
  }

  /** Every member appears in the summary, even one with no kept rows, exactly once and in header order. */
  lemma {:induction false} SummaryKeys(headers: seq<Cell>, rows: seq<seq<Cell>>)
    ensures Keys(Summary(headers, rows)) == Unique(Members(headers))
    ensures Distinct(Summary(headers, rows))
    ensures forall m :: m in Keys(Summary(headers, rows)) <==> m in headers && IsMember(m)
  {
    var keys := Unique(Members(headers));
    assert Keys(Summary(headers, rows)) == keys;
    forall m
      ensures m in keys <==> m in headers && IsMember(m)
    {
      MembersSpec(headers, m);
    }
  }

  /** A rate of at most as many present rows as rows lies in [0, 1], and is 0 without rows. */
  lemma {:induction false} RateBounds(present: nat, kept: nat)
    requires present <= kept
    ensures 0.0 <= Rate(present, kept) <= 1.0
    ensures kept == 0 ==> Rate(present, kept) == 0.0
  {
    if kept > 0 {
      var x := present as real / kept as real;
      assert x * kept as real == present as real;
      assert 0.0 <= x <= 1.0;
      Round2Spec(x);
    }
  }

  /** Each rate is the member's present rows over the kept rows, rounded; it lies in [0, 1] and is 0 when no row is kept. */
  lemma {:induction false} SummaryRate(headers: seq<Cell>, rows: seq<seq<Cell>>, j: int)
    requires 0 <= j < |Summary(headers, rows)|
    ensures 0.0 <= Summary(headers, rows)[j].1 <= 1.0
    ensures KeptCount(rows) == 0 ==> Summary(headers, rows)[j].1 == 0.0
    ensures KeptCount(rows) > 0 ==>
      Summary(headers, rows)[j].1
        == Round2(PresentRows(headers, rows, Summary(headers, rows)[j].0) as real / KeptCount(rows) as real)
  {
    var m := Unique(Members(headers))[j];
    var p, k := PresentRows(headers, rows, m), KeptCount(rows);
    assert Summary(headers, rows)[j] == (m, Rate(p, k));
    PresentAtMostKept(headers, rows, m);
    RateBounds(p, k);
  }

  // ---------------------------------------------------------------- the parser

  /** A member's counts: rows marked present and rows seen. */
  datatype Tally = Tally(attended: nat, total: nat)

  /** A tally after `k` more rows, all present or none. */
  function Bump(t: Tally, k: nat, present: bool): Tally {
    Tally(t.attended + (if present then k else 0), t.total + k)
  }

  /** How many columns carry the header `m`. */
  function Occurrences(members: seq<Cell>, m: Cell): nat {
    multiset(members)[m]
  }

  /** The counts held after `rows`: each member counted once per column it heads. */
  ghost predicate CountsAfter(counts: map<Cell, Tally>, headers: seq<Cell>, members: seq<Cell>, rows: seq<seq<Cell>>) {
    (forall m :: m in counts <==> m in members) &&
    forall m :: m in counts ==>
      counts[m] == Tally(Times(Occurrences(members, m), PresentRows(headers, rows, m)),
                         Times(Occurrences(members, m), KeptCount(rows)))
  }

  /** Counting one more member column. */
  lemma {:induction false} TallyStep(counts: map<Cell, Tally>, prev: map<Cell, Tally>, seen: seq<Cell>, member: Cell,
                  status: Cell -> string, next: map<Cell, Tally>)
    requires member in counts && member in prev
    requires forall m :: m in counts ==> m in prev && prev[m] == Bump(counts[m], multiset(seen)[m], status(m) == "present")
    requires next == prev[member := Bump(prev[member], 1, status(member) == "present")]
    ensures forall m :: m in counts ==> next[m] == Bump(counts[m], multiset(seen + [member])[m], status(m) == "present")
  {
    assert forall m :: multiset(seen + [member])[m] == multiset(seen)[m] + if m == member then 1 else 0;
  }

  lemma {:induction false} AbsenteesSnoc(members: seq<Cell>, x: Cell, status: Cell -> string)
    ensures Absentees(members + [x], status) == Absentees(members, status) + if status(x) == "absent" then [x] else []
  {
    assert (members + [x])[..|members|] == members;
  }

  /** The member loop of one row: each member column adds to that member's total, and a "present" to their attendance. */
  method TallyRow(members: seq<Cell>, status: Cell -> string, counts: map<Cell, Tally>)
    returns (next: map<Cell, Tally>, absentees: seq<Cell>)
    requires forall m :: m in members ==> m in counts
    ensures forall m :: m in next <==> m in counts
    ensures forall m :: m in counts ==> next[m] == Bump(counts[m], Occurrences(members, m), status(m) == "present")
    ensures absentees == Absentees(members, status)
  {
    next := counts;
    absentees := [];
    for j := 0 to |members|
      invariant forall m :: m in next <==> m in counts
      invariant forall m :: m in counts ==> next[m] == Bump(counts[m], multiset(members[..j])[m], status(m) == "present")
      invariant absentees == Absentees(members[..j], status)
    {
      var member := members[j];
      ghost var prev, seen := next, members[..j];
      assert members[..j + 1] == seen + [member];
      var absent;
      next, absent := TallyMember(next, member, status(member));
      if absent {
        absentees := absentees + [member];
      }
      TallyStep(counts, prev, seen, member, status, next);
      AbsenteesSnoc(seen, member, status);
    }
    assert members[..|members|] == members;
  }

  /** One member column: `total += 1`, then `attended += 1` for "present"; "absent" lists the member. */
  method TallyMember(counts: map<Cell, Tally>, member: Cell, st: string) returns (next: map<Cell, Tally>, absent: bool)
    requires member in counts
    ensures next == counts[member := Bump(counts[member], 1, st == "present")]
    ensures absent == (st == "absent")
  {
    var t := counts[member];
    next := counts[member := Tally(t.attended, t.total + 1)];
    absent := false;
    if st == "present" {
      next := next[member := Tally(t.attended + 1, t.total + 1)];
    } else if st == "absent" {
      absent := true;
    }
  }

  /** The loop over the reasons fragments: each one that `entry` matches writes its name's reason. */
  method WriteReasons(pieces: seq<string>, entry: string -> Option<(string, string)>) returns (reasons: seq<(string, string)>)
    ensures reasons == PutAll([], Collect(pieces, entry))
  {
    reasons := [];
    for i := 0 to |pieces|
      invariant reasons == PutAll([], Collect(pieces[..i], entry))
    {
      var found := entry(pieces[i]);
      ghost var before := Collect(pieces[..i], entry);
      assert pieces[..i + 1] == pieces[..i] + [pieces[i]];
      CollectSnoc(pieces[..i], pieces[i], entry);
      if found.Some? {
        var (name, reason) := found.value;
        assert Collect(pieces[..i + 1], entry) == before + [(name, reason)];
        PutAllSnoc([], before, name, reason);
        reasons := Put(reasons, name, reason);
      } else {
        assert Collect(pieces[..i + 1], entry) == before;
      }
    }
    assert pieces[..|pieces|] == pieces;
  }

  /** `week_info["Reasons"]`, read from the stripped reasons text. */
  method ReadReasons(text: string) returns (reasons: seq<(string, string)>)
    ensures reasons == Reasons(text)
  {
    reasons := [];
    if text != "" {
      reasons := WriteReasons(SplitAny(text, {';', ','}), ReasonEntry);
    }
  }

  /** One kept row: its record and the counts after it, or the exception it raises. */
  method ReadWeek(headers: seq<Cell>, members: seq<Cell>, row: seq<Cell>, counts: map<Cell, Tally>)
    returns (r: Result<WeekInfo>, next: map<Cell, Tally>)
    requires members == Members(headers)
    requires forall m :: m in members ==> m in counts
    ensures r == WeekOf(headers, row)
    ensures r.Ok? ==> forall m :: m in next <==> m in counts
    ensures r.Ok? ==> forall m :: m in counts ==>
      next[m] == Bump(counts[m], Occurrences(members, m), IsPresent(Lookup(RowDict(headers, row), m)))
  {
    next := counts;
    var d := RowDict(headers, row);
    if Text("Date") !in d {
      return Err("KeyError: 'Date'"), next;
    }
    var date := DateText(d[Text("Date")]);
    if Text("Week") !in d {
      return Err("KeyError: 'Week'"), next;
    }
    var week := WeekNumber(d[Text("Week")]);
    if week.None? {
      return Err("the Week cell is not an integer"), next;
    }
    var absentees;
    next, absentees := TallyRow(members, StatusIn(d), counts);
    var reasons := ReadReasons(ReasonsText(d));
    r := Ok(WeekInfo(week.value, date, absentees, reasons));
  }

  /** One more kept row, all `k` columns of a member present or none. */
  lemma {:induction false} BumpStep(t: Tally, k: nat, present: nat, kept: nat, now: bool)
    requires t == Tally(Times(k, present), Times(k, kept))
    ensures Bump(t, k, now) == Tally(Times(k, present + if now then 1 else 0), Times(k, kept + 1))
  {
  }

  /** A member's counts after one more kept row. */
  lemma {:induction false} RowStep(headers: seq<Cell>, rows: seq<seq<Cell>>, row: seq<Cell>, m: Cell, k: nat, before: Tally, after: Tally)
    requires Kept(row)
    requires before == Tally(Times(k, PresentRows(headers, rows, m)), Times(k, KeptCount(rows)))
    requires after == Bump(before, k, IsPresent(Lookup(RowDict(headers, row), m)))
    ensures after == Tally(Times(k, PresentRows(headers, rows + [row], m)), Times(k, KeptCount(rows + [row])))
  {
    CountsSnoc(headers, rows, row, m);
    BumpStep(before, k, PresentRows(headers, rows, m), KeptCount(rows), IsPresent(Lookup(RowDict(headers, row), m)));
  }

  /** The `attendance_summary` comprehension over the final counts. */
  method Summarise(headers: seq<Cell>, rows: seq<seq<Cell>>, members: seq<Cell>, counts: map<Cell, Tally>)
    returns (summary: seq<(Cell, real)>)
    requires members == Members(headers)
    requires CountsAfter(counts, headers, members, rows)
    ensures summary == Summary(headers, rows)
  {
    var keys := Unique(members);
    summary := seq(|keys|, j requires 0 <= j < |keys| => (keys[j], Rate(counts[keys[j]].attended, counts[keys[j]].total)));
    forall j | 0 <= j < |keys|
      ensures summary[j] == Summary(headers, rows)[j]
    {
      var m := keys[j];
      assert m in members;
      RateOfRepeated(Occurrences(members, m), PresentRows(headers, rows, m), KeptCount(rows));
    }
  }

  /** `parse_attendance_xlsx` over the sheet's cells: the document it writes, or the exception it raises. */
  method ParseAttendance(headers: seq<Cell>, rows: seq<seq<Cell>>) returns (r: Result<Output>)
    requires SheetShape(headers, rows)
    ensures r == AttendanceOf(headers, rows)
  {
    var members := Members(headers);
    var counts: map<Cell, Tally> := map m | m in members :: Tally(0, 0);
    var data: seq<WeekInfo> := [];
    for i := 0 to |rows|
      invariant Weeks(headers, rows[..i]) == Ok(data)
      invariant CountsAfter(counts, headers, members, rows[..i])
    {
      var row := rows[i];
      assert rows[..i + 1] == rows[..i] + [row];
      assert rows[..i + 1][..i] == rows[..i];
      if Truthy(row[0]) {
        var week, next := ReadWeek(headers, members, row, counts);
        if week.Err? {
          GatherErrExtends(rows, Kept, WeekReader(headers), i + 1);
          return Err(week.msg);
        }
        data := data + [week.value];
        forall m | m in counts
          ensures next[m] == Tally(Times(Occurrences(members, m), PresentRows(headers, rows[..i + 1], m)),
                                   Times(Occurrences(members, m), KeptCount(rows[..i + 1])))
        {
          RowStep(headers, rows[..i], row, m, Occurrences(members, m), counts[m], next[m]);
        }
        counts := next;
      } else {
        forall m | m in counts
          ensures counts[m] == Tally(Times(Occurrences(members, m), PresentRows(headers, rows[..i + 1], m)),
                                     Times(Occurrences(members, m), KeptCount(rows[..i + 1])))
        {
          CountsSnoc(headers, rows[..i], row, m);
        }
      }
    }
    assert rows[..|rows|] == rows;
    var summary := Summarise(headers, rows, members, counts);
    r := Ok(Output(data, summary));
  }
}
