/** Source line to addresses: the search through the line tables, its snap to the
    next line that has code, and sorting without duplicates. */
module LineTable {
  import opened Types

  /** A line-table row; `file` is the row's resolved path, if it resolves. */
  datatype Row = Row(line: u32, file: Option<string>, address: u64)

  /** A compile unit's rows, or None for a unit without a line table. */
  type Unit = Option<seq<Row>>

  const NoLine: u32 := 0xFFFF_FFFF

  predicate EndsWith(s: string, suffix: string) {
    |suffix| <= |s| && s[|s| - |suffix|..] == suffix
  }

  predicate MatchesSourceFile(filter: string, path: string) {
    filter == "" || EndsWith(path, filter) || (EndsWith(filter, ".cl") && EndsWith(path, ".cl"))
  }

  /** A path passes the filter exactly if there is no filter, or the path is
      something followed by the filter, or both are named as OpenCL sources. */
  lemma MatchesIff(filter: string, path: string)
    ensures MatchesSourceFile(filter, path) <==>
      || filter == ""
      || (exists front: string :: path == front + filter)
      || (exists f: string, p: string :: filter == f + ".cl" && path == p + ".cl")
  {
    EndsWithIff(path, filter);
    EndsWithIff(path, ".cl");
    EndsWithIff(filter, ".cl");
    if EndsWith(filter, ".cl") && EndsWith(path, ".cl") {
      var f: string :| filter == f + ".cl";
      var p: string :| path == p + ".cl";
      assert filter == f + ".cl" && path == p + ".cl";
    }
  }

  lemma EndsWithIff(s: string, suffix: string)
    ensures EndsWith(s, suffix) <==> exists front: string :: s == front + suffix
  {
    if EndsWith(s, suffix) {
      assert s == s[..|s| - |suffix|] + suffix;
    }
    if front: string :| s == front + suffix {
      assert s[|s| - |suffix|..] == suffix;
    }
  }

  /** The row belongs to a file that passes the filter. */
  predicate Matches(row: Row, filter: string) {
    row.file.Some? && MatchesSourceFile(filter, row.file.value)
  }

  /** A row whose file is not known passes no filter, not even an empty one. */
  lemma RowMatchesIff(row: Row, filter: string)
    ensures row.file.None? ==> !Matches(row, filter)
    ensures row.file.Some? && filter == "" ==> Matches(row, filter)
    ensures row.file.Some? && filter != "" ==>
      (Matches(row, filter) <==>
         || (exists front: string :: row.file.value == front + filter)
         || (exists f: string, p: string :: filter == f + ".cl" && row.file.value == p + ".cl"))
  {
    if row.file.Some? {
      MatchesIff(filter, row.file.value);
    }
  }

  // ---- What is asked for ----

  ghost predicate HasRow(units: seq<Unit>, row: Row) {
    exists i | 0 <= i < |units| :: units[i].Some? && row in units[i].value
  }

  /** Some matching row is at the line, at the address. */
  ghost predicate CodeAt(units: seq<Unit>, filter: string, line: u32, address: u64) {
    exists row :: HasRow(units, row) && Matches(row, filter) && row.line == line && row.address == address
  }

  ghost predicate HasCode(units: seq<Unit>, filter: string, line: u32) {
    exists row :: HasRow(units, row) && Matches(row, filter) && row.line == line
  }

  /** The line looked up: the one asked for if it has code; otherwise, unless 0
      was asked for, the least greater line that has. */
  ghost predicate Effective(units: seq<Unit>, filter: string, asked: u32, line: u32) {
    HasCode(units, filter, line) &&
    (line == asked ||
     (0 < asked < line && !HasCode(units, filter, asked) &&
      forall l | asked < l < line :: !HasCode(units, filter, l)))
  }

  ghost predicate Increasing(pcs: seq<u64>) {
    forall i, j | 0 <= i < j < |pcs| :: pcs[i] < pcs[j]
  }

  ghost predicate Exactly(pcs: seq<u64>, units: seq<Unit>, filter: string, line: u32) {
    forall a :: a in pcs <==> CodeAt(units, filter, line, a)
  }

  // ---- The two scans ----

  /** Rows of the first i units and the first j rows of unit i. */
  ghost predicate Scanned(units: seq<Unit>, i: int, j: int, row: Row)
    requires 0 <= i <= |units|
  {
    (exists k | 0 <= k < i :: units[k].Some? && row in units[k].value) ||
    (i < |units| && units[i].Some? && 0 <= j <= |units[i].value| && row in units[i].value[..j])
  }

  lemma ScannedUnit(units: seq<Unit>, i: int, row: Row)
    requires 0 <= i < |units|
    ensures Scanned(units, i + 1, 0, row) <==>
      Scanned(units, i, 0, row) || (units[i].Some? && row in units[i].value)
  {
  }

  method FindPcsForLine(units: seq<Unit>, target: u32, filter: string) returns (pcs: seq<u64>)
    ensures Exactly(pcs, units, filter, target)
  {
    pcs := [];
    for i := 0 to |units|
      invariant forall a :: a in pcs <==>
        exists row :: Scanned(units, i, 0, row) && Matches(row, filter) && row.line == target && row.address == a
    {
      if units[i].Some? {
        var found := FindInUnit(units[i].value, target, filter);
        forall a ensures a in pcs + found <==>
          exists row :: Scanned(units, i + 1, 0, row) && Matches(row, filter) && row.line == target && row.address == a
        {
          forall row { ScannedUnit(units, i, row); }
        }
        pcs := pcs + found;
      } else {
        forall row { ScannedUnit(units, i, row); }
      }
    }
    forall row ensures HasRow(units, row) <==> Scanned(units, |units|, 0, row) {
    }
  }

  method FindInUnit(rows: seq<Row>, target: u32, filter: string) returns (pcs: seq<u64>)
    ensures forall a :: a in pcs <==> exists row :: row in rows && Matches(row, filter) && row.line == target && row.address == a
  {
    pcs := [];
    for j := 0 to |rows|
      invariant forall a :: a in pcs <==>
        exists row :: row in rows[..j] && Matches(row, filter) && row.line == target && row.address == a
    {
      assert rows[..j + 1] == rows[..j] + [rows[j]];
      if rows[j].line == target && Matches(rows[j], filter) {
        assert rows[j] in rows[..j + 1];
        pcs := pcs + [rows[j].address];
      }
    }
    assert rows[..|rows|] == rows;
  }

  ghost predicate InRows(rows: seq<Row>, filter: string, line: u32) {
    exists row :: row in rows && Matches(row, filter) && row.line == line
  }

  lemma OneMoreRow(rows: seq<Row>, j: nat, filter: string, line: u32)
    requires j < |rows|
    ensures InRows(rows[..j + 1], filter, line) <==>
      InRows(rows[..j], filter, line) || (Matches(rows[j], filter) && rows[j].line == line)
  {
    assert rows[..j + 1] == rows[..j] + [rows[j]];
    if Matches(rows[j], filter) && rows[j].line == line {
      assert rows[j] in rows[..j + 1];
    }
  }

  method NextLineInUnit(rows: seq<Row>, min: u32, filter: string, start: u32) returns (best: u32)
    ensures best <= start
    ensures best < start ==> min < best && InRows(rows, filter, best)
    ensures forall l: u32 | min < l < best :: !InRows(rows, filter, l)
  {
    best := start;
    hide Matches;
    for j := 0 to |rows|
      invariant best <= start
      invariant best < start ==> min < best && InRows(rows, filter, best)
      invariant forall l: u32 | min < l < best :: !InRows(rows[..j], filter, l)
    {
      if rows[j].line > min && rows[j].line < best {
        if Matches(rows[j], filter) {
          best := rows[j].line;
          assert rows[j] in rows;
        }
      }
      ghost var seen := rows[..j + 1];
      forall l: u32 | min < l < best ensures !InRows(seen, filter, l) {
        OneMoreRow(rows, j, filter, l);
        assert !InRows(rows[..j], filter, l);
      }
    }
    assert rows[..|rows|] == rows;
  }

  ghost predicate CodeBefore(units: seq<Unit>, i: int, filter: string, line: u32)
    requires 0 <= i <= |units|
  {
    exists k | 0 <= k < i :: units[k].Some? && InRows(units[k].value, filter, line)
  }

  lemma CodeBeforeAll(units: seq<Unit>, filter: string, line: u32)
    ensures CodeBefore(units, |units|, filter, line) <==> HasCode(units, filter, line)
  {
    if CodeBefore(units, |units|, filter, line) {
      var k :| 0 <= k < |units| && units[k].Some? && InRows(units[k].value, filter, line);
      var row :| row in units[k].value && Matches(row, filter) && row.line == line;
      assert HasRow(units, row);
    }
    if HasCode(units, filter, line) {
      var row :| HasRow(units, row) && Matches(row, filter) && row.line == line;
      var k :| 0 <= k < |units| && units[k].Some? && row in units[k].value;
      assert InRows(units[k].value, filter, line);
    }
  }

  method FindNextLine(units: seq<Unit>, min: u32, filter: string) returns (best: u32)
    ensures best < NoLine ==> min < best && HasCode(units, filter, best)
    ensures forall l: u32 | min < l < best :: !HasCode(units, filter, l)
  {
    best := NoLine;
    for i := 0 to |units|
      invariant best < NoLine ==> min < best && CodeBefore(units, i, filter, best)
      invariant forall l: u32 | min < l < best :: !CodeBefore(units, i, filter, l)
    {
      if units[i].Some? {
        best := NextLineInUnit(units[i].value, min, filter, best);
      }
      ghost var next := i + 1;
      forall l: u32 | min < l < best ensures !CodeBefore(units, next, filter, l) {
        assert !CodeBefore(units, i, filter, l);
      }
    }
    forall l: u32 {
      CodeBeforeAll(units, filter, l);
    }
  }

  // ---- Sorting without duplicates ----

  ghost predicate NonDecreasing(s: seq<u64>) {
    forall i, j | 0 <= i < j < |s| :: s[i] <= s[j]
  }

  function Insert(x: u64, s: seq<u64>): (r: seq<u64>)
    requires NonDecreasing(s)
    ensures NonDecreasing(r) && forall a :: a in r <==> a == x || a in s
  {
    if s == [] || x <= s[0] then [x] + s
    else
      var r := Insert(x, s[1..]);
      forall i | 0 <= i < |r| ensures s[0] <= r[i] {
        assert r[i] in r;
        if r[i] != x {
          var j :| 0 <= j < |s[1..]| && s[1..][j] == r[i];
          assert s[j + 1] == r[i];
        }
      }
      assert s == [s[0]] + s[1..];
      [s[0]] + r
  }

  /** What std::ranges::sort is relied on for: order, and the same values. */
  function Sort(s: seq<u64>): (r: seq<u64>)
    ensures NonDecreasing(r) && forall a :: a in r <==> a in s
  {
    if s == [] then []
    else
      assert s == [s[0]] + s[1..];
      Insert(s[0], Sort(s[1..]))
  }

  /** std::ranges::unique with the erase that follows it. */
  method Unique(s: seq<u64>) returns (r: seq<u64>)
    requires NonDecreasing(s)
    ensures Increasing(r) && forall a :: a in r <==> a in s
  {
    r := [];
    for i := 0 to |s|
      invariant Increasing(r) && forall a :: a in r <==> a in s[..i]
      invariant i > 0 ==> r != [] && r[|r| - 1] == s[i - 1]
    {
      assert s[..i + 1] == s[..i] + [s[i]];
      if i == 0 || s[i] != s[i - 1] {
        forall k | 0 <= k < |r| ensures r[k] < s[i] {
          assert r[k] in r;
          var m :| 0 <= m < i && s[m] == r[k];
          assert r[k] <= r[|r| - 1];
        }
        r := r + [s[i]];
      }
    }
    assert s[..|s|] == s;
  }

  // ---- source_to_pcs ----

  /** The line whose addresses are answered. The nearest later line cannot be
      2^32 - 1, the scan's mark for `none`. */
  ghost predicate Answered(units: seq<Unit>, filter: string, asked: u32, line: u32) {
    Effective(units, filter, asked, line) && (line == asked || line < NoLine)
  }

  ghost predicate IsAnswer(units: seq<Unit>, filter: string, asked: u32, pcs: seq<u64>) {
    && Increasing(pcs)
    && (forall line | Answered(units, filter, asked, line) :: Exactly(pcs, units, filter, line))
    && ((forall line :: !Answered(units, filter, asked, line)) ==> pcs == [])
  }

  method SourceToPcs(units: seq<Unit>, filter: string, asked: u32) returns (pcs: seq<u64>)
    ensures IsAnswer(units, filter, asked, pcs)
  {
    hide HasCode, Exactly;
    var found := FindPcsForLine(units, asked, filter);
    ghost var line := asked;
    NothingFound(units, filter, asked, found);
    if found == [] && asked > 0 {
      var best := FindNextLine(units, asked, filter);
      if best != NoLine {
        found := FindPcsForLine(units, best, filter);
        line := best;
        NothingFound(units, filter, best, found);
      }
    }
    pcs := Unique(Sort(found));
    SameValues(found, pcs, units, filter, line);
    LineAnswered(units, filter, asked, line, pcs);
  }

  lemma SameValues(p: seq<u64>, q: seq<u64>, units: seq<Unit>, filter: string, line: u32)
    requires Exactly(p, units, filter, line) && forall a :: a in q <==> a in p
    ensures Exactly(q, units, filter, line)
    ensures p == [] <==> q == []
  {
    if p != [] {
      assert p[0] in q;
    }
    if q != [] {
      assert q[0] in p;
    }
  }

  lemma NothingFound(units: seq<Unit>, filter: string, line: u32, pcs: seq<u64>)
    requires Exactly(pcs, units, filter, line)
    ensures pcs == [] <==> !HasCode(units, filter, line)
  {
    if HasCode(units, filter, line) {
      var row :| HasRow(units, row) && Matches(row, filter) && row.line == line;
      assert CodeAt(units, filter, line, row.address);
    }
    if pcs != [] {
      assert pcs[0] in pcs;
    }
  }

  /** At most one line is answered for. */
  lemma OneLineAnswered(units: seq<Unit>, filter: string, asked: u32, l1: u32, l2: u32)
    requires Answered(units, filter, asked, l1) && Answered(units, filter, asked, l2)
    ensures l1 == l2
  {
    hide HasCode;
  }

  lemma LineAnswered(units: seq<Unit>, filter: string, asked: u32, line: u32, pcs: seq<u64>)
    requires Increasing(pcs) && Exactly(pcs, units, filter, line)
    requires Answered(units, filter, asked, line) ||
      (line == asked && pcs == [] && forall l :: !Answered(units, filter, asked, l))
    ensures IsAnswer(units, filter, asked, pcs)
  {
    forall l | Answered(units, filter, asked, l) ensures Exactly(pcs, units, filter, l) {
      OneLineAnswered(units, filter, asked, l, line);
    }
  }

  // ---- What the answer is worth ----

  /** The addresses are determined by the question alone: strictly increasing,
      exactly those of the answered line. */
  lemma {:induction false} IncreasingIsUnique(p: seq<u64>, q: seq<u64>)
    requires Increasing(p) && Increasing(q) && forall a :: a in p <==> a in q
    ensures p == q
  {
    assert q != [] ==> q[0] in p;
    if p != [] {
      assert p[0] in q && q != [];
      assert q[0] in p;
      assert p[0] == q[0];
      var a, b := p[1..], q[1..];
      forall x ensures x in a <==> x in b {
        assert x in p <==> x in q;
        assert p == [p[0]] + a && q == [q[0]] + b;
      }
      IncreasingIsUnique(a, b);
    }
  }

  lemma AnswerIsUnique(units: seq<Unit>, filter: string, asked: u32, p: seq<u64>, q: seq<u64>)
    requires IsAnswer(units, filter, asked, p) && IsAnswer(units, filter, asked, q)
    ensures p == q
  {
    if line :| Answered(units, filter, asked, line) {
      assert Exactly(p, units, filter, line) && Exactly(q, units, filter, line);
      IncreasingIsUnique(p, q);
    }
  }

  /** The answer is empty if and only if no matching row is at the line asked for
      and, unless 0 was asked for, none at a later line below 2^32 - 1. */
  lemma EmptyIff(units: seq<Unit>, filter: string, asked: u32, pcs: seq<u64>)
    requires IsAnswer(units, filter, asked, pcs)
    ensures pcs == [] <==>
      !HasCode(units, filter, asked) &&
      (asked > 0 ==> forall l | asked < l < NoLine :: !HasCode(units, filter, l))
  {
    hide HasCode, Exactly;
    if line :| Answered(units, filter, asked, line) {
      NothingFound(units, filter, line, pcs);
    } else {
      assert HasCode(units, filter, asked) ==> Answered(units, filter, asked, asked);
      if !HasCode(units, filter, asked) && asked > 0 {
        forall l: u32 | asked < l < NoLine && HasCode(units, filter, l) ensures false {
          var least := LeastCode(units, filter, asked, l);
          NotAnswered(units, filter, asked, least);
        }
      }
    }
  }

  lemma NotAnswered(units: seq<Unit>, filter: string, asked: u32, least: u32)
    requires 0 < asked < least < NoLine && !HasCode(units, filter, asked) && HasCode(units, filter, least)
    requires forall k: u32 | asked < k < least :: !HasCode(units, filter, k)
    ensures Answered(units, filter, asked, least)
  {
  }

  lemma LeastCode(units: seq<Unit>, filter: string, asked: u32, l: u32) returns (least: u32)
    requires asked < l && HasCode(units, filter, l)
    ensures asked < least <= l && HasCode(units, filter, least)
    ensures forall k: u32 | asked < k < least :: !HasCode(units, filter, k)
    decreases l
  {
    hide HasCode;
    if k: u32 :| asked < k < l && HasCode(units, filter, k) {
      least := LeastCode(units, filter, asked, k);
    } else {
      least := l;
    }
  }

  /** Asking again for the line that was answered gives the same addresses. */
  lemma AskingAgain(units: seq<Unit>, filter: string, asked: u32, line: u32, p: seq<u64>, q: seq<u64>)
    requires Answered(units, filter, asked, line)
    requires IsAnswer(units, filter, asked, p) && IsAnswer(units, filter, line, q)
    ensures p == q
  {
    hide HasCode;
    assert Answered(units, filter, line, line);
    assert Exactly(p, units, filter, line) && Exactly(q, units, filter, line);
    IncreasingIsUnique(p, q);
  }
}
