/**
  What the two worklog readers (backend/parser.py and
  backend/parsers/worklog_parser.py) have in common: the record a "Week N"
  paragraph opens, the paragraph list of a document, the header pattern
  `Week\s*#?\s*(\d+)` searched ignoring case, searches for alternations of
  literal phrases, the block of paragraphs up to a terminator, and the
  paragraph scan itself. Both readers run the same scan and differ only in what
  a paragraph inside a week does, which each supplies as its `Handler`.
 */
module WeekLog {
  import opened Wrappers
  import opened Strings
  import opened AssocList
  import opened Lists

  // ---------------------------------------------------------------- records and paragraphs

  /** One week: `{"Week", "TotalHours", "TasksDone", "KeyLearned", "Literature", "Issues"}`. */
  datatype WeekRecord = WeekRecord(week: nat, totalHours: Option<real>, tasksDone: seq<string>,
    keyLearned: seq<string>, literature: seq<string>, issues: seq<string>)

  /** `hours_data`: week number to hours, as the tables give them. */
  type Hours = seq<(nat, real)>

  /** A document table: its rows, each the texts of its cells. */
  type Table = seq<seq<string>>

  /** Writing the entries read from one more item is one more `d[k] = v`, when it has one. */
  lemma {:induction false} PutAllCollectSnoc<T, K(!new), V>(m: seq<(K, V)>, items: seq<T>, x: T, f: T -> Option<(K, V)>)
    ensures PutAll(m, Collect(items + [x], f)) ==
      match f(x) case Some(e) => Put(PutAll(m, Collect(items, f)), e.0, e.1) case None => PutAll(m, Collect(items, f))
  {
    CollectSnoc(items, x, f);
    if f(x).Some? {
      PutAllSnoc(m, Collect(items, f), f(x).value.0, f(x).value.1);
    } else {
      assert Collect(items + [x], f) == Collect(items, f) + [] == Collect(items, f);
    }
  }

  /** Writing one more row's entry, if it has one, extends the written prefix by that row. */
  lemma {:induction false} WriteStep<K(!new), V>(m: seq<(K, V)>, before: seq<seq<string>>, rows: Table, r: nat, entry: seq<string> -> Option<(K, V)>)
    requires r < |rows| && m == PutAll([], Collect(before + rows[..r], entry))
    ensures PutAll([], Collect(before + rows[..r + 1], entry)) ==
      match entry(rows[r]) case Some(e) => Put(m, e.0, e.1) case None => m
  {
    PutAllCollectSnoc([], before + rows[..r], rows[r], entry);
    assert before + rows[..r + 1] == (before + rows[..r]) + [rows[r]];
  }

  /** The rows of the first `t + 1` tables are those of the first `t` followed by table `t`'s. */
  lemma {:induction false} FlattenPrefix(tables: seq<Table>, t: nat)
    requires t < |tables|
    ensures Flatten(tables[..t + 1]) == Flatten(tables[..t]) + tables[t][..|tables[t]|]
  {
    assert tables[t][..|tables[t]|] == tables[t];
    assert tables[..t + 1] == tables[..t] + [tables[t]];
    FlattenSnoc(tables[..t], tables[t]);
  }

  /**
    The loops over every row of every table, writing the entry `entry` reads
    from each row (`d[k] = v`) and passing over the rows it reads none from.
   */
  method WriteRows<K(==, !new), V>(tables: seq<Table>, entry: seq<string> -> Option<(K, V)>) returns (m: seq<(K, V)>)
    ensures m == PutAll([], Collect(Flatten(tables), entry))
  {
    m := [];
    for t := 0 to |tables|
      invariant m == PutAll([], Collect(Flatten(tables[..t]), entry))
    {
      var rows := tables[t];
      ghost var before := Flatten(tables[..t]);
      assert before + rows[..0] == before;
      for r := 0 to |rows|
        invariant m == PutAll([], Collect(before + rows[..r], entry))
      {
        var row := rows[r];
        WriteStep(m, before, rows, r, entry);
        var e := entry(row);
        if e.Some? {
          m := Put(m, e.value.0, e.value.1);
        }
      }
      FlattenPrefix(tables, t);
    }
    assert tables[..|tables|] == tables;
  }

  /** The record a header for week `n` opens: `hours_data.get(n)` and four empty lists. */
  function Open(n: nat, hours: Hours): WeekRecord {
    WeekRecord(n, Get(hours, n), [], [], [], [])
  }

  /** `p.text.strip()` when it is not empty. */
  function Stripped(p: string): Option<string> {
    if Trim(p) != "" then Some(Trim(p)) else None
  }

  /** `[p.text.strip() for p in doc.paragraphs if p.text.strip()]`. */
  function Paragraphs(raw: seq<string>): seq<string> {
    Collect(raw, Stripped)
  }

  /** Every paragraph of the list is non-empty and already stripped, and none is added. */
  lemma {:induction false} ParagraphsClean(raw: seq<string>)
    ensures |Paragraphs(raw)| <= |raw|
    ensures forall k :: 0 <= k < |Paragraphs(raw)| ==> Paragraphs(raw)[k] != "" && Trim(Paragraphs(raw)[k]) == Paragraphs(raw)[k]
  {
    CollectShorter(raw, Stripped);
    forall p | Trim(p) != "" ensures Trim(Trim(p)) == Trim(p) {
      TrimIdempotent(p);
    }
    CollectHolds(raw, Stripped, t => t != "" && Trim(t) == t);
  }


  // ---------------------------------------------------------------- entries below marker cells

  /**
    The entries read below one cell: when `marker` holds of cell `j` of row
    `i`, the entry `below(j)` reads from each later row, in order.
   */
  function BelowCell<E>(rows: Table, i: nat, j: nat, marker: string -> bool, below: nat -> (seq<string> -> Option<E>)): seq<E>
    requires i < |rows| && j < |rows[i]|
  {
    if marker(rows[i][j]) then Collect(rows[i + 1..], below(j)) else []
  }

  /** The entries below the first `c` cells of row `i`. */
  function BelowRow<E>(rows: Table, i: nat, c: nat, marker: string -> bool, below: nat -> (seq<string> -> Option<E>)): seq<E>
    requires i < |rows| && c <= |rows[i]|
  {
    if c == 0 then [] else BelowRow(rows, i, c - 1, marker, below) + BelowCell(rows, i, c - 1, marker, below)
  }

  /** The entries below the marker cells of the first `r` rows of a table. */
  function BelowTable<E>(rows: Table, r: nat, marker: string -> bool, below: nat -> (seq<string> -> Option<E>)): seq<E>
    requires r <= |rows|
  {
    if r == 0 then [] else BelowTable(rows, r - 1, marker, below) + BelowRow(rows, r - 1, |rows[r - 1]|, marker, below)
  }

  /** The entries below the marker cells of the first `t` tables. */
  function BelowTables<E>(tables: seq<Table>, t: nat, marker: string -> bool, below: nat -> (seq<string> -> Option<E>)): seq<E>
    requires t <= |tables|
  {
    if t == 0 then [] else BelowTables(tables, t - 1, marker, below) + BelowTable(tables[t - 1], |tables[t - 1]|, marker, below)
  }

  /** An entry below a marker is one `below` reads from a row of the tables. */
  lemma {:induction false} BelowCellFrom<E>(rows: Table, i: nat, j: nat, marker: string -> bool, below: nat -> (seq<string> -> Option<E>), k: nat)
    requires i < |rows| && j < |rows[i]| && k < |BelowCell(rows, i, j, marker, below)|
    ensures marker(rows[i][j])
    ensures exists r :: i < r < |rows| && below(j)(rows[r]) == Some(BelowCell(rows, i, j, marker, below)[k])
  {
    CollectFrom(rows[i + 1..], below(j), k);
    var r :| 0 <= r < |rows[i + 1..]| && below(j)(rows[i + 1..][r]) == Some(BelowCell(rows, i, j, marker, below)[k]);
    assert rows[i + 1..][r] == rows[i + 1 + r];
  }

  /** Writing one more row's entry, if it has one, extends the written rows by that row. */
  lemma {:induction false} ColumnStep<K(!new), V>(m0: seq<(K, V)>, m: seq<(K, V)>, under: seq<seq<string>>, t: nat, f: seq<string> -> Option<(K, V)>)
    requires t < |under| && m == PutAll(m0, Collect(under[..t], f))
    ensures f(under[t]).None? ==> PutAll(m0, Collect(under[..t + 1], f)) == m
    ensures f(under[t]).Some? ==> PutAll(m0, Collect(under[..t + 1], f)) == Put(m, f(under[t]).value.0, f(under[t]).value.1)
  {
    PutAllCollectSnoc(m0, under[..t], under[t], f);
    assert under[..t + 1] == under[..t] + [under[t]];
  }

  /** Where an entry below the markers of row `i`'s first `c` cells comes from. */
  lemma {:induction false} BelowRowFrom<E>(rows: Table, i: nat, c: nat, marker: string -> bool,
      below: nat -> (seq<string> -> Option<E>), e: E)
    requires i < |rows| && c <= |rows[i]| && e in BelowRow(rows, i, c, marker, below)
    ensures exists j: nat, r: nat :: j < c && i < r < |rows| && marker(rows[i][j]) && below(j)(rows[r]) == Some(e)
  {
    var pre, cell := BelowRow(rows, i, c - 1, marker, below), BelowCell(rows, i, c - 1, marker, below);
    assert BelowRow(rows, i, c, marker, below) == pre + cell;
    if e in pre {
      BelowRowFrom(rows, i, c - 1, marker, below, e);
      var j: nat, r: nat :| j < c - 1 && i < r < |rows| && marker(rows[i][j]) && below(j)(rows[r]) == Some(e);
      assert j < c;
    } else {
      var k :| 0 <= k < |cell| && cell[k] == e;
      BelowCellFrom(rows, i, c - 1, marker, below, k);
      var r :| i < r < |rows| && below(c - 1)(rows[r]) == Some(e);
      assert c - 1 < c && marker(rows[i][c - 1]);
    }
  }

  /** Where an entry below the markers of a table's first `n` rows comes from. */
  lemma {:induction false} BelowTableFrom<E>(rows: Table, n: nat, marker: string -> bool,
      below: nat -> (seq<string> -> Option<E>), e: E)
    requires n <= |rows| && e in BelowTable(rows, n, marker, below)
    ensures exists i: nat, j: nat, r: nat :: i < n && i < r < |rows| && j < |rows[i]| && marker(rows[i][j]) && below(j)(rows[r]) == Some(e)
  {
    if e in BelowTable(rows, n - 1, marker, below) {
      BelowTableFrom(rows, n - 1, marker, below, e);
    } else {
      BelowRowFrom(rows, n - 1, |rows[n - 1]|, marker, below, e);
      var j: nat, r: nat :| j < |rows[n - 1]| && n - 1 < r < |rows| && marker(rows[n - 1][j]) && below(j)(rows[r]) == Some(e);
      assert n - 1 < n;
    }
  }

  /**
    Every entry of a cumulative-table pass is one `below(j)` read from a row
    lying under a cell of column `j` the marker holds of, in the same table.
   */
  lemma {:induction false} BelowTablesFrom<E>(tables: seq<Table>, t: nat, marker: string -> bool,
      below: nat -> (seq<string> -> Option<E>), e: E)
    requires t <= |tables| && e in BelowTables(tables, t, marker, below)
    ensures exists u: nat, i: nat, j: nat, r: nat ::
      && u < t && i < r < |tables[u]| && j < |tables[u][i]|
      && marker(tables[u][i][j]) && below(j)(tables[u][r]) == Some(e)
  {
    if e in BelowTables(tables, t - 1, marker, below) {
      BelowTablesFrom(tables, t - 1, marker, below, e);
    } else {
      BelowTableFrom(tables[t - 1], |tables[t - 1]|, marker, below, e);
      var i: nat, j: nat, r: nat :| i < r < |tables[t - 1]| && j < |tables[t - 1][i]|
        && marker(tables[t - 1][i][j]) && below(j)(tables[t - 1][r]) == Some(e);
      assert t - 1 < t;
    }
  }

  /** The loop over the rows after row `i`, writing the entry `below(j)` reads from each. */
  method WriteColumn<K(==, !new), V>(m0: seq<(K, V)>, rows: Table, i: nat, j: nat,
      below: nat -> (seq<string> -> Option<(K, V)>)) returns (m: seq<(K, V)>)
    requires i < |rows|
    ensures m == PutAll(m0, Collect(rows[i + 1..], below(j)))
  {
    m := m0;
    var read := below(j);
    var under := rows[i + 1..];
    for t := 0 to |under|
      invariant m == PutAll(m0, Collect(under[..t], read))
    {
      ColumnStep(m0, m, under, t, read);
      var e := read(under[t]);
      if e.Some? {
        m := Put(m, e.value.0, e.value.1);
      }
    }
    assert under[..|under|] == under;
  }

  /** The loop over the cells of row `i`, writing below each cell the marker holds of. */
  method WriteBelowRow<K(==, !new), V>(m0: seq<(K, V)>, rows: Table, i: nat, marker: string -> bool,
      below: nat -> (seq<string> -> Option<(K, V)>)) returns (m: seq<(K, V)>)
    requires i < |rows|
    ensures m == PutAll(m0, BelowRow(rows, i, |rows[i]|, marker, below))
  {
    m := m0;
    var cells := rows[i];
    for j := 0 to |cells|
      invariant m == PutAll(m0, BelowRow(rows, i, j, marker, below))
    {
      PutAllAppend(m0, BelowRow(rows, i, j, marker, below), BelowCell(rows, i, j, marker, below));
      if marker(cells[j]) {
        m := WriteColumn(m, rows, i, j, below);
      }
    }
  }

  /** The loop over the rows of one table, writing below each marker cell of each row. */
  method WriteBelowTable<K(==, !new), V>(m0: seq<(K, V)>, rows: Table, marker: string -> bool,
      below: nat -> (seq<string> -> Option<(K, V)>)) returns (m: seq<(K, V)>)
    ensures m == PutAll(m0, BelowTable(rows, |rows|, marker, below))
  {
    m := m0;
    for i := 0 to |rows|
      invariant m == PutAll(m0, BelowTable(rows, i, marker, below))
    {
      PutAllAppend(m0, BelowTable(rows, i, marker, below), BelowRow(rows, i, |rows[i]|, marker, below));
      m := WriteBelowRow(m, rows, i, marker, below);
    }
  }

  /**
    The four loops of a cumulative-table pass: for each table, each row, each
    cell the marker holds of, and each later row, the entry read below the
    cell is written, a later one overwriting an earlier one.
   */
  method WriteBelowMarkers<K(==, !new), V>(m0: seq<(K, V)>, tables: seq<Table>, marker: string -> bool,
      below: nat -> (seq<string> -> Option<(K, V)>)) returns (m: seq<(K, V)>)
    ensures m == PutAll(m0, BelowTables(tables, |tables|, marker, below))
  {
    m := m0;
    for t := 0 to |tables|
      invariant m == PutAll(m0, BelowTables(tables, t, marker, below))
    {
      PutAllAppend(m0, BelowTables(tables, t, marker, below), BelowTable(tables[t], |tables[t]|, marker, below));
      m := WriteBelowTable(m, tables[t], marker, below);
    }
  }

  // ---------------------------------------------------------------- the header pattern

  /** The first index at or after `j` that holds no whitespace, or the end. */
  function SkipSpaces(s: string, j: nat): (k: nat)
    requires j <= |s|
    ensures j <= k <= |s| && (k == |s| || !IsSpace(s[k]))
    ensures forall m :: j <= m < k ==> IsSpace(s[m])
    decreases |s| - j
  {
    if j < |s| && IsSpace(s[j]) then SkipSpaces(s, j + 1) else j
  }

  /**
    `Week\s*#?\s*(\d+)` tried at position `i`, ignoring case: "week", spaces,
    an optional '#', spaces and a run of digits, whose value is captured. The
    greedy space runs never need to give characters back, because neither '#'
    nor a digit is a space.
   */
  function WeekAt(s: string, i: nat): Option<nat>
    requires i <= |s|
  {
    if i + 4 <= |s| && ToLower(s[i..i + 4]) == "week" then
      var a := SkipSpaces(s, i + 4);
      var b := if a < |s| && s[a] == '#' then SkipSpaces(s, a + 1) else a;
      var d := DigitRun(s[b..]);
      assert forall m :: 0 <= m < d ==> s[b..b + d][m] == s[b..][m];
      if d > 0 then Some(DigitsValue(s[b..b + d])) else None
    else None
  }

  /** The leftmost position from `i` up to `n` where `at` gives a value, and that value: a regex `search`. */
  function Leftmost(n: nat, i: nat, at: nat -> Option<nat>): Option<nat>
    requires i <= n
    decreases n - i
  {
    if at(i).Some? || i == n then at(i) else Leftmost(n, i + 1, at)
  }

  /** The search finds a match exactly when one exists, and reports the leftmost. */
  lemma {:induction false} LeftmostSpec(n: nat, i: nat, at: nat -> Option<nat>)
    requires i <= n
    ensures Leftmost(n, i, at).None? <==> forall k :: i <= k <= n ==> at(k).None?
    ensures Leftmost(n, i, at).Some? ==>
      exists k :: i <= k <= n && at(k) == Leftmost(n, i, at) && forall m :: i <= m < k ==> at(m).None?
    decreases n - i
  {
    if at(i).None? && i < n {
      LeftmostSpec(n, i + 1, at);
      if Leftmost(n, i, at).Some? {
        var k :| i + 1 <= k <= n && at(k) == Leftmost(n, i + 1, at) && forall m :: i + 1 <= m < k ==> at(m).None?;
        assert forall m :: i <= m < k ==> at(m).None?;
      }
    }
  }

  /** The pattern tried at each position of `s`. */
  function WeekMatcher(s: string): nat -> Option<nat> {
    (k: nat) => if k <= |s| then WeekAt(s, k) else None
  }

  /** `re.search(r"Week\s*#?\s*(\d+)", text, re.IGNORECASE)` and `int(match.group(1))`. */
  function WeekHeader(s: string): Option<nat> {
    Leftmost(|s|, 0, WeekMatcher(s))
  }

  lemma {:induction false} DigitRunOfDigits(s: string)
    requires forall m :: 0 <= m < |s| ==> IsDigit(s[m])
    ensures DigitRun(s) == |s|
  {
    if s != [] {
      DigitRunOfDigits(s[1..]);
    }
  }

  /** A label "Week n" reads as week `n`. */
  lemma {:induction false} WeekLabel(n: nat)
    ensures WeekHeader("Week " + NatToString(n)) == Some(n)
  {
    var d := NatToString(n);
    var s := "Week " + d;
    assert s[0..4] == "Week" && s[4] == ' ' && s[5] == d[0];
    assert SkipSpaces(s, 4) == 5;
    assert s[5..] == d && s[5..5 + |d|] == d;
    DigitRunOfDigits(d);
    NatToStringRoundTrip(n);
    assert WeekMatcher(s)(0) == Some(n);
  }

  /** A match starts with "week" in some letter case. */
  lemma {:induction false} WeekAtStart(s: string, k: nat)
    requires k <= |s| && WeekAt(s, k).Some?
    ensures k + 4 <= |s| && ToLower(s[k..k + 4]) == "week"
  {
  }

  /** A paragraph with a header contains "Week", ignoring case. */
  lemma {:induction false} HeaderMentionsWeek(s: string)
    requires WeekHeader(s).Some?
    ensures ContainsCI(s, "Week")
  {
    LeftmostSpec(|s|, 0, WeekMatcher(s));
    var k :| 0 <= k <= |s| && WeekMatcher(s)(k) == WeekHeader(s);
    WeekAtStart(s, k);
    WeekWordAt(s, k);
  }

  lemma {:induction false} WeekWordAt(s: string, k: nat)
    requires k + 4 <= |s| && ToLower(s[k..k + 4]) == "week"
    ensures ContainsCI(s, "Week")
  {
    var low := ToLower(s);
    assert low[k..k + 4] == ToLower(s[k..k + 4]);
    var t := ToLower("Week");
    assert t == "week" by {
      assert t[0] == 'w' && t[1] == 'e' && t[2] == 'e' && t[3] == 'k';
    }
    assert OccursAt(low, t, k);
  }

  // ---------------------------------------------------------------- phrases and blocks

  /** `re.search("A|B|…", text, re.IGNORECASE)` for alternatives that are literal phrases. */
  predicate AnyCI(s: string, phrases: seq<string>) {
    exists k :: 0 <= k < |phrases| && ContainsCI(s, phrases[k])
  }

  /** A string lacking a character of `t` does not contain `t`. */
  lemma {:induction false} MissingChar(s: string, t: string, q: nat)
    requires q < |t| && t[q] !in s
    ensures !Contains(s, t)
  {
  }

  /**
    The end of the block that starts at `i`: the first paragraph at or after
    `i` that matches `stop`, or the end of the list.
   */
  function BlockEnd(ps: seq<string>, i: nat, stop: string -> bool): (j: nat)
    requires i <= |ps|
    ensures i <= j <= |ps|
    ensures forall k :: i <= k < j ==> !stop(ps[k])
    ensures j == |ps| || stop(ps[j])
    decreases |ps| - i
  {
    if i < |ps| && !stop(ps[i]) then BlockEnd(ps, i + 1, stop) else i
  }

  /**
    The inner loop of a block: from `start` up to the terminator every
    paragraph is read by `item`, and what it gives is appended to `acc`.
   */
  method CollectBlock<U>(ps: seq<string>, start: nat, stop: string -> bool, item: string -> Option<U>, acc: seq<U>)
    returns (i: nat, out: seq<U>)
    requires start <= |ps|
    ensures i == BlockEnd(ps, start, stop)
    ensures out == acc + Collect(ps[start..i], item)
  {
    i, out := start, acc;
    while i < |ps| && !stop(ps[i])
      invariant start <= i <= |ps|
      invariant BlockEnd(ps, i, stop) == BlockEnd(ps, start, stop)
      invariant out == acc + Collect(ps[start..i], item)
      decreases |ps| - i
    {
      CollectRangeStep(ps, start, i, item);
      BlockEndStep(ps, i, stop);
      var v := item(ps[i]);
      if v.Some? {
        AppendAssoc(acc, Collect(ps[start..i], item), v.value);
        out := out + [v.value];
      }
      i := i + 1;
    }
  }

  /**
    A block loop that sorts each item into one of two lists: `first` and
    `second` read the item each list takes, if any.
   */
  method CollectBlock2<U>(ps: seq<string>, start: nat, stop: string -> bool,
      first: string -> Option<U>, second: string -> Option<U>, acc1: seq<U>, acc2: seq<U>)
    returns (i: nat, out1: seq<U>, out2: seq<U>)
    requires start <= |ps|
    ensures i == BlockEnd(ps, start, stop)
    ensures out1 == acc1 + Collect(ps[start..i], first)
    ensures out2 == acc2 + Collect(ps[start..i], second)
  {
    i, out1, out2 := start, acc1, acc2;
    while i < |ps| && !stop(ps[i])
      invariant start <= i <= |ps|
      invariant BlockEnd(ps, i, stop) == BlockEnd(ps, start, stop)
      invariant out1 == acc1 + Collect(ps[start..i], first)
      invariant out2 == acc2 + Collect(ps[start..i], second)
      decreases |ps| - i
    {
      CollectRangeStep(ps, start, i, first);
      CollectRangeStep(ps, start, i, second);
      BlockEndStep(ps, i, stop);
      var v := first(ps[i]);
      if v.Some? {
        AppendAssoc(acc1, Collect(ps[start..i], first), v.value);
        out1 := out1 + [v.value];
      }
      var u := second(ps[i]);
      if u.Some? {
        AppendAssoc(acc2, Collect(ps[start..i], second), u.value);
        out2 := out2 + [u.value];
      }
      i := i + 1;
    }
  }

  lemma {:induction false} AppendAssoc<U>(acc: seq<U>, c: seq<U>, x: U)
    ensures acc + c + [x] == acc + (c + [x])
  {
  }

  lemma {:induction false} BlockEndStep(ps: seq<string>, i: nat, stop: string -> bool)
    requires i < |ps| && !stop(ps[i])
    ensures BlockEnd(ps, i + 1, stop) == BlockEnd(ps, i, stop)
  {
  }

  /** One more item of a block adds what `f` reads from it. */
  lemma {:induction false} CollectRangeStep<U>(ps: seq<string>, start: nat, i: nat, f: string -> Option<U>)
    requires start <= i < |ps|
    ensures Collect(ps[start..i + 1], f) == Collect(ps[start..i], f) + if f(ps[i]).Some? then [f(ps[i]).value] else []
  {
    assert ps[start..i + 1] == ps[start..i] + [ps[i]];
    CollectSnoc(ps[start..i], ps[i], f);
  }

  /** An item taken as it is. */
  function Verbatim(p: string): Option<string> {
    Some(p)
  }

  lemma {:induction false} VerbatimItems(xs: seq<string>)
    ensures Collect(xs, Verbatim) == xs
  {
    CollectAllRead(xs, Verbatim, xs);
  }

  // ---------------------------------------------------------------- the paragraph scan

  /** How a paragraph names a week: `WeekHeader` for both readers. */
  type HeaderReader = string -> Option<nat>

  /**
    What a paragraph inside a week does, given the paragraph list, its index
    and the open record: the index the scan goes on from, and the record.
   */
  type Handler = (seq<string>, nat, WeekRecord) -> (nat, WeekRecord)

  /** A handler always moves forward, never past the end, and keeps the week number. */
  ghost predicate Advances(handle: Handler) {
    forall ps: seq<string>, i: nat, w: WeekRecord :: i < |ps| ==>
      i < handle(ps, i, w).0 <= |ps| && handle(ps, i, w).1.week == w.week
  }

  /** `weeks.append(week_data)` when a record is open. */
  function Saved(cur: Option<WeekRecord>): seq<WeekRecord> {
    if cur.Some? then [cur.value] else []
  }

  /**
    The paragraph loop from index `i`, with `cur` open and `done` saved: a
    header saves the open record and opens its own; inside a week the handler
    decides; before the first header a paragraph is passed over; at the end
    the open record is saved.
   */
  function Scan(ps: seq<string>, hours: Hours, header: HeaderReader, handle: Handler, i: nat,
      cur: Option<WeekRecord>, done: seq<WeekRecord>): seq<WeekRecord>
    requires i <= |ps| && Advances(handle)
    decreases |ps| - i
  {
    if i == |ps| then done + Saved(cur)
    else match header(ps[i])
      case Some(n) => Scan(ps, hours, header, handle, i + 1, Some(Open(n, hours)), done + Saved(cur))
      case None =>
        if cur.Some? then
          var (j, w) := handle(ps, i, cur.value);
          Scan(ps, hours, header, handle, j, Some(w), done)
        else Scan(ps, hours, header, handle, i + 1, None, done)
  }

  /** One step of the scan at a header paragraph for week `n`. */
  lemma {:induction false} ScanHeaderStep(ps: seq<string>, hours: Hours, header: HeaderReader, handle: Handler, i: nat,
      cur: Option<WeekRecord>, done: seq<WeekRecord>, n: nat)
    requires Advances(handle) && i < |ps| && header(ps[i]) == Some(n)
    ensures Scan(ps, hours, header, handle, i, cur, done) ==
      Scan(ps, hours, header, handle, i + 1, Some(Open(n, hours)), done + Saved(cur))
  {
  }

  /** One step of the scan at another paragraph inside a week. */
  lemma {:induction false} ScanHandleStep(ps: seq<string>, hours: Hours, header: HeaderReader, handle: Handler, i: nat,
      w: WeekRecord, done: seq<WeekRecord>)
    requires Advances(handle) && i < |ps| && header(ps[i]).None?
    ensures Scan(ps, hours, header, handle, i, Some(w), done) ==
      Scan(ps, hours, header, handle, handle(ps, i, w).0, Some(handle(ps, i, w).1), done)
  {
  }

  /** One step of the scan at a paragraph before the first header. */
  lemma {:induction false} ScanSkipStep(ps: seq<string>, hours: Hours, header: HeaderReader, handle: Handler, i: nat, done: seq<WeekRecord>)
    requires Advances(handle) && i < |ps| && header(ps[i]).None?
    ensures Scan(ps, hours, header, handle, i, None, done) == Scan(ps, hours, header, handle, i + 1, None, done)
  {
  }

  /** The scan at the end saves the open record. */
  lemma {:induction false} ScanEnd(ps: seq<string>, hours: Hours, header: HeaderReader, handle: Handler, cur: Option<WeekRecord>, done: seq<WeekRecord>)
    requires Advances(handle)
    ensures Scan(ps, hours, header, handle, |ps|, cur, done) == done + Saved(cur)
  {
  }

  /** The whole scan of a paragraph list. */
  function ScanAll(ps: seq<string>, hours: Hours, header: HeaderReader, handle: Handler): seq<WeekRecord>
    requires Advances(handle)
  {
    Scan(ps, hours, header, handle, 0, None, [])
  }

  /** Paragraphs before the first header leave no trace: the scan may as well start at `k`. */
  lemma {:induction false} ScanSkipsPreamble(ps: seq<string>, hours: Hours, header: HeaderReader, handle: Handler,
      i: nat, k: nat, done: seq<WeekRecord>)
    requires Advances(handle) && i <= k <= |ps|
    requires forall m :: i <= m < k ==> header(ps[m]).None?
    ensures Scan(ps, hours, header, handle, i, None, done) == Scan(ps, hours, header, handle, k, None, done)
    decreases k - i
  {
    if i < k {
      ScanSkipsPreamble(ps, hours, header, handle, i + 1, k, done);
    }
  }

  /** A list without a header paragraph gives no record. */
  lemma {:induction false} NoHeaderNoRecords(ps: seq<string>, hours: Hours, header: HeaderReader, handle: Handler)
    requires Advances(handle)
    requires forall m :: 0 <= m < |ps| ==> header(ps[m]).None?
    ensures ScanAll(ps, hours, header, handle) == []
  {
    ScanSkipsPreamble(ps, hours, header, handle, 0, |ps|, []);
  }

  /** Records `ws` were opened by the header paragraphs at indices `hs`, in document order. */
  ghost predicate OpenedAt(ps: seq<string>, header: HeaderReader, ws: seq<WeekRecord>, hs: seq<nat>) {
    && |hs| == |ws|
    && (forall k :: 0 <= k < |hs| ==> hs[k] < |ps| && header(ps[hs[k]]) == Some(ws[k].week))
    && (forall k, l :: 0 <= k < l < |hs| ==> hs[k] < hs[l])
  }

  /** A record changed in place, keeping its week, is still opened by the same header. */
  lemma {:induction false} OpenedAtUpdate(ps: seq<string>, header: HeaderReader, done: seq<WeekRecord>, v: WeekRecord, w: WeekRecord, hs: seq<nat>)
    requires OpenedAt(ps, header, done + [v], hs) && w.week == v.week
    ensures OpenedAt(ps, header, done + [w], hs)
  {
    assert forall k :: 0 <= k < |done| ==> (done + [w])[k] == (done + [v])[k];
  }

  /** A header at `i`, after every header so far, opens the next record. */
  lemma {:induction false} OpenedAtHeader(ps: seq<string>, header: HeaderReader, done: seq<WeekRecord>, w: WeekRecord, hs: seq<nat>, i: nat)
    requires OpenedAt(ps, header, done, hs) && i < |ps| && header(ps[i]) == Some(w.week)
    requires forall k :: 0 <= k < |hs| ==> hs[k] < i
    ensures OpenedAt(ps, header, done + [w], hs + [i])
  {
    assert forall k :: 0 <= k < |done| ==> (done + [w])[k] == done[k] && (hs + [i])[k] == hs[k];
  }

  lemma {:induction false} ScanOrderFrom(ps: seq<string>, hours: Hours, header: HeaderReader, handle: Handler, i: nat,
      cur: Option<WeekRecord>, done: seq<WeekRecord>, hs: seq<nat>)
    requires Advances(handle) && i <= |ps|
    requires OpenedAt(ps, header, done + Saved(cur), hs)
    requires forall k :: 0 <= k < |hs| ==> hs[k] < i
    ensures exists hs' :: OpenedAt(ps, header, Scan(ps, hours, header, handle, i, cur, done), hs')
    decreases |ps| - i
  {
    if i == |ps| {
      assert OpenedAt(ps, header, Scan(ps, hours, header, handle, i, cur, done), hs);
    } else {
      match header(ps[i])
      case Some(n) =>
        var done' := done + Saved(cur);
        OpenedAtHeader(ps, header, done', Open(n, hours), hs, i);
        assert done' + Saved(Some(Open(n, hours))) == done' + [Open(n, hours)];
        ScanOrderFrom(ps, hours, header, handle, i + 1, Some(Open(n, hours)), done', hs + [i]);
        assert Scan(ps, hours, header, handle, i, cur, done) == Scan(ps, hours, header, handle, i + 1, Some(Open(n, hours)), done');
      case None =>
        if cur.Some? {
          var (j, w) := handle(ps, i, cur.value);
          OpenedAtUpdate(ps, header, done, cur.value, w, hs);
          assert done + Saved(Some(w)) == done + [w];
          ScanOrderFrom(ps, hours, header, handle, j, Some(w), done, hs);
          assert Scan(ps, hours, header, handle, i, cur, done) == Scan(ps, hours, header, handle, j, Some(w), done);
        } else {
          ScanOrderFrom(ps, hours, header, handle, i + 1, None, done, hs);
          assert Scan(ps, hours, header, handle, i, cur, done) == Scan(ps, hours, header, handle, i + 1, None, done);
        }
    }
  }

  /**
    Each record comes from a header paragraph and carries its number, and the
    records follow the document order of their headers.
   */
  lemma {:induction false} ScanOrder(ps: seq<string>, hours: Hours, header: HeaderReader, handle: Handler)
    requires Advances(handle)
    ensures exists hs :: OpenedAt(ps, header, ScanAll(ps, hours, header, handle), hs)
  {
    assert OpenedAt(ps, header, [] + Saved(None), []);
    ScanOrderFrom(ps, hours, header, handle, 0, None, [], []);
    assert ScanAll(ps, hours, header, handle) == Scan(ps, hours, header, handle, 0, None, []);
  }

  /**
    A property of records that every opened record has and the handler keeps
    holds for every record of the scan.
   */
  lemma {:induction false} ScanKeeps(ps: seq<string>, hours: Hours, header: HeaderReader, handle: Handler, i: nat,
      cur: Option<WeekRecord>, done: seq<WeekRecord>, p: WeekRecord -> bool)
    requires Advances(handle) && i <= |ps|
    requires forall n: nat :: p(Open(n, hours))
    requires forall m: nat, w: WeekRecord :: m < |ps| && p(w) ==> p(handle(ps, m, w).1)
    requires forall k :: 0 <= k < |done| ==> p(done[k])
    requires cur.Some? ==> p(cur.value)
    ensures forall k :: 0 <= k < |Scan(ps, hours, header, handle, i, cur, done)| ==> p(Scan(ps, hours, header, handle, i, cur, done)[k])
    decreases |ps| - i
  {
    if i < |ps| {
      match header(ps[i])
      case Some(n) =>
        ScanKeeps(ps, hours, header, handle, i + 1, Some(Open(n, hours)), done + Saved(cur), p);
      case None =>
        if cur.Some? {
          var (j, w) := handle(ps, i, cur.value);
          ScanKeeps(ps, hours, header, handle, j, Some(w), done, p);
        } else {
          ScanKeeps(ps, hours, header, handle, i + 1, None, done, p);
        }
    }
  }

  /** The records a list of header numbers opens, one per number, in order. */
  function OpenAll(ns: seq<nat>, hours: Hours): (ws: seq<WeekRecord>)
    ensures |ws| == |ns| && forall k :: 0 <= k < |ns| ==> ws[k] == Open(ns[k], hours)
  {
    seq(|ns|, k requires 0 <= k < |ns| => Open(ns[k], hours))
  }

  /** The records of a number list with one more number in front. */
  lemma {:induction false} OpenAllCons(n: nat, rest: seq<nat>, hours: Hours)
    ensures OpenAll([n] + rest, hours) == [Open(n, hours)] + OpenAll(rest, hours)
  {
    var a, b := OpenAll([n] + rest, hours), [Open(n, hours)] + OpenAll(rest, hours);
    assert |a| == |b|;
    forall k | 0 <= k < |a| ensures a[k] == b[k] {
      if k > 0 {
        assert ([n] + rest)[k] == rest[k - 1];
      }
    }
  }

  /**
    When no paragraph inside a week does anything, the scan gives one record
    per header paragraph, in document order, each as its header opened it.
   */
  lemma {:induction false} ScanPlain(ps: seq<string>, hours: Hours, header: HeaderReader, handle: Handler, i: nat,
      cur: Option<WeekRecord>, done: seq<WeekRecord>)
    requires Advances(handle) && i <= |ps|
    requires forall m: nat, w: WeekRecord :: i <= m < |ps| && header(ps[m]).None? ==> handle(ps, m, w) == (m + 1, w)
    ensures Scan(ps, hours, header, handle, i, cur, done) == done + Saved(cur) + OpenAll(Collect(ps[i..], header), hours)
    decreases |ps| - i
  {
    if i == |ps| {
      assert Collect(ps[i..], header) == [];
      ScanEnd(ps, hours, header, handle, cur, done);
    } else {
      var h := header(ps[i]);
      if h.Some? {
        ScanPlain(ps, hours, header, handle, i + 1, Some(Open(h.value, hours)), done + Saved(cur));
        ScanPlainAtHeader(ps, hours, header, handle, i, cur, done, h.value);
      } else {
        if cur.Some? {
          assert handle(ps, i, cur.value) == (i + 1, cur.value);
        }
        ScanPlain(ps, hours, header, handle, i + 1, cur, done);
        ScanPlainAtOther(ps, hours, header, handle, i, cur, done);
      }
    }
  }

  lemma {:induction false} ScanPlainAtHeader(ps: seq<string>, hours: Hours, header: HeaderReader, handle: Handler, i: nat,
      cur: Option<WeekRecord>, done: seq<WeekRecord>, n: nat)
    requires Advances(handle) && i < |ps| && header(ps[i]) == Some(n)
    requires Scan(ps, hours, header, handle, i + 1, Some(Open(n, hours)), done + Saved(cur)) ==
      done + Saved(cur) + Saved(Some(Open(n, hours))) + OpenAll(Collect(ps[i + 1..], header), hours)
    ensures Scan(ps, hours, header, handle, i, cur, done) == done + Saved(cur) + OpenAll(Collect(ps[i..], header), hours)
  {
    var rest := Collect(ps[i + 1..], header);
    var o := Open(n, hours);
    CollectStep(ps, i, header);
    assert Collect(ps[i..], header) == [n] + rest;
    ScanHeaderStep(ps, hours, header, handle, i, cur, done, n);
    OpenAllCons(n, rest, hours);
    assert done + Saved(cur) + Saved(Some(o)) + OpenAll(rest, hours) == done + Saved(cur) + ([o] + OpenAll(rest, hours));
  }

  lemma {:induction false} ScanPlainAtOther(ps: seq<string>, hours: Hours, header: HeaderReader, handle: Handler, i: nat,
      cur: Option<WeekRecord>, done: seq<WeekRecord>)
    requires Advances(handle) && i < |ps| && header(ps[i]).None?
    requires cur.Some? ==> handle(ps, i, cur.value) == (i + 1, cur.value)
    requires Scan(ps, hours, header, handle, i + 1, cur, done) ==
      done + Saved(cur) + OpenAll(Collect(ps[i + 1..], header), hours)
    ensures Scan(ps, hours, header, handle, i, cur, done) == done + Saved(cur) + OpenAll(Collect(ps[i..], header), hours)
  {
    CollectStep(ps, i, header);
    assert Collect(ps[i..], header) == Collect(ps[i + 1..], header);
    if cur.Some? {
      ScanHandleStep(ps, hours, header, handle, i, cur.value, done);
    } else {
      ScanSkipStep(ps, hours, header, handle, i, done);
    }
  }

  /** The whole scan when no paragraph inside a week does anything: one fresh record per header. */
  lemma {:induction false} ScanAllPlain(ps: seq<string>, hours: Hours, header: HeaderReader, handle: Handler)
    requires Advances(handle)
    requires forall m: nat, w: WeekRecord :: m < |ps| && header(ps[m]).None? ==> handle(ps, m, w) == (m + 1, w)
    ensures ScanAll(ps, hours, header, handle) == OpenAll(Collect(ps, header), hours)
  {
    ScanPlain(ps, hours, header, handle, 0, None, []);
    assert ps[0..] == ps;
    assert [] + Saved(None) == [];
  }
}
