/**
 * `import-tirages.js`: replace the contents of `tirages` with the draws of a
 * CSV file. The table is emptied first; then the file is cut into non-blank
 * lines, the header's columns are located by name, and every data row whose
 * six numbers parse is inserted, inside one transaction.
 */
module ImportTirages {
  import opened Wrappers
  import opened JsText
  import opened Store

  // ================================================================ lines and cells

  /** One trailing carriage return removed. */
  function DropCR(s: string): string {
    if |s| > 0 && s[|s| - 1] == '\r' then s[..|s| - 1] else s
  }

  /**
   * `content.split(/\r?\n/)`: cut at every line feed; a carriage return just
   * before a line feed belongs to the separator, so every piece but the last
   * loses one trailing `\r`.
   */
  function SplitLines(content: string): (lines: seq<string>)
    ensures |lines| >= 1
  {
    var parts := Split(content, '\n');
    seq(|parts|, k requires 0 <= k < |parts| => if k < |parts| - 1 then DropCR(parts[k]) else parts[k])
  }

  predicate Blank(l: string) {
    |Trim(l)| == 0
  }

  /** `.filter((l) => l.trim().length > 0)`. */
  function NonBlank(ls: seq<string>): seq<string>
    decreases |ls|
  {
    if ls == [] then []
    else NonBlank(ls[..|ls| - 1]) + (if Blank(ls[|ls| - 1]) then [] else [ls[|ls| - 1]])
  }

  /** The header's names: `split(",").map((h) => h.trim().toLowerCase())`. */
  function HeaderNames(line: string): seq<string> {
    var parts := Split(line, ',');
    seq(|parts|, k requires 0 <= k < |parts| => ToLower(Trim(parts[k])))
  }

  /** A data row's cells: `split(",").map((c) => c.trim())`. */
  function Cells(line: string): seq<string> {
    var parts := Split(line, ',');
    seq(|parts|, k requires 0 <= k < |parts| => Trim(parts[k]))
  }

  function DataCells(lines: seq<string>): (rows: seq<seq<string>>)
    ensures |rows| == |lines| && forall k :: 0 <= k < |lines| ==> rows[k] == Cells(lines[k])
  {
    seq(|lines|, k requires 0 <= k < |lines| => Cells(lines[k]))
  }

  // ================================================================ header

  /** `header.indexOf(name)`: the first position holding `name`, or -1. */
  function IndexOf(h: seq<string>, name: string): (r: int)
    ensures -1 <= r < |h|
    ensures r == -1 <==> name !in h
    ensures r >= 0 ==> h[r] == name && name !in h[..r]
    decreases |h|
  {
    if h == [] then -1
    else if h[0] == name then 0
    else
      var i := IndexOf(h[1..], name);
      assert h[1..] == h[..|h|][1..];
      if i == -1 then
        assert forall x :: x in h ==> x == h[0] || x in h[1..];
        -1
      else
        assert h[..i + 1] == [h[0]] + h[1..][..i];
        i + 1
  }

  /** Where the columns are: `date` and `num1`..`num6` are required, `bonus` and `premium` may be -1. */
  datatype Layout = Layout(date: int, nums: seq<int>, bonus: int, premium: int)

  const NumNames: seq<string> := ["num1", "num2", "num3", "num4", "num5", "num6"]

  /** `[h1, ..., h6]`. */
  function NumColumns(h: seq<string>): (nums: seq<int>)
    ensures |nums| == 6
  {
    seq(6, k requires 0 <= k < 6 => IndexOf(h, NumNames[k]))
  }

  /** The `idx(...)` lookups and the check that no required column is -1. */
  function Locate(h: seq<string>): Option<Layout> {
    var date := IndexOf(h, "date");
    var nums := NumColumns(h);
    if date == -1 || exists k :: 0 <= k < 6 && nums[k] == -1 then None
    else Some(Layout(date, nums, IndexOf(h, "bonus"), IndexOf(h, "premium")))
  }

  // ================================================================ rows

  /** `cols[i]`, `undefined` past the end of the row (and for -1). */
  function Cell(cols: seq<string>, i: int): Option<string> {
    if 0 <= i < |cols| then Some(cols[i]) else None
  }

  /** `parseInt(cols[i])`: `undefined` is converted to the string "undefined", which is NaN. */
  function ParseCell(c: Option<string>): Token {
    ParseInt(c.GetOr("undefined"))
  }

  /** A row that passed the NaN check: `date` is `None` when the row has no such cell. */
  datatype Record = Record(date: Option<string>, nums: seq<int>, bonus: Option<int>, premium: int)

  /** `premium`: 1 when the column exists and its cell parses to a non-zero integer, else 0. */
  function PremiumFlag(l: Layout, cols: seq<string>): int {
    if l.premium == -1 then 0
    else match ParseCell(Cell(cols, l.premium))
      case None => 0
      case Some(n) => if n != 0 then 1 else 0
  }

  /** The row's number cells, parsed. */
  function NumTokens(l: Layout, cols: seq<string>): (ts: seq<Token>)
    ensures |ts| == |l.nums|
  {
    seq(|l.nums|, k requires 0 <= k < |l.nums| => ParseCell(Cell(cols, l.nums[k])))
  }

  /**
   * One data row: `None` when one of its numbers is NaN (the row is skipped),
   * else what is bound to the INSERT. A NaN bonus is bound as NaN, which
   * SQLite stores as NULL, like the `null` of a file without a bonus column.
   */
  function ParseRow(l: Layout, cols: seq<string>): Option<Record> {
    var ts := NumTokens(l, cols);
    if exists k :: 0 <= k < |ts| && ts[k].None? then None
    else
      var bonus := if l.bonus != -1 then ParseCell(Cell(cols, l.bonus)) else None;
      Some(Record(Cell(cols, l.date), seq(|ts|, k requires 0 <= k < |ts| => ts[k].value), bonus, PremiumFlag(l, cols)))
  }

  function RowRecords(l: Layout, cols: seq<string>): seq<Record> {
    match ParseRow(l, cols) case None => [] case Some(r) => [r]
  }

  /** The records of the data rows that are not skipped, in file order. */
  function Records(l: Layout, rows: seq<seq<string>>): seq<Record>
    decreases |rows|
  {
    if rows == [] then []
    else Records(l, rows[..|rows| - 1]) + RowRecords(l, rows[|rows| - 1])
  }

  /** Every record has a date cell, so `date TEXT NOT NULL` accepts all of them. */
  predicate Dated(rs: seq<Record>) {
    forall k :: 0 <= k < |rs| ==> rs[k].date.Some?
  }

  function Columns6(ns: seq<int>): (cols: seq<Option<int>>)
    ensures |cols| == |ns| && forall j :: 0 <= j < |ns| ==> cols[j] == Some(ns[j])
  {
    seq(|ns|, j requires 0 <= j < |ns| => Some(ns[j]))
  }

  /** The row `insertStmt.run` writes for a record, under a given id. */
  function RowOf(id: int, r: Record): Tirage
    requires r.date.Some?
  {
    Tirage(id, r.date.value, Columns6(r.nums), r.bonus, r.premium)
  }

  /** The records written one after another, with AUTOINCREMENT ids from `start`. */
  function Rows(rs: seq<Record>, start: int): (out: seq<Tirage>)
    requires Dated(rs)
    ensures |out| == |rs| && forall k :: 0 <= k < |rs| ==> out[k] == RowOf(start + k, rs[k])
  {
    seq(|rs|, k requires 0 <= k < |rs| => RowOf(start + k, rs[k]))
  }

  // ================================================================ the whole import

  /** The `tirages` table: its rows in insertion order and the next AUTOINCREMENT id. */
  datatype Table = Table(rows: seq<Tirage>, nextId: int)

  /**
   * How the program ends: the logged count; "CSV vide ou sans lignes de données";
   * the missing-columns error; or the runtime error of an INSERT whose date
   * is missing, which ends the process before COMMIT.
   */
  datatype Outcome = Imported(count: nat) | NoData | MissingColumns | NullDate

  datatype Run = Run(table: Table, outcome: Outcome)

  /**
   * The table after the import and how it ends. `DELETE FROM tirages` commits
   * before anything is read, so every error leaves the table empty; the
   * AUTOINCREMENT counter survives the DELETE, and a rolled-back transaction
   * leaves it where it was.
   */
  function ImportRun(t: Table, content: string): Run {
    var cleared := Table([], t.nextId);
    var lines := NonBlank(SplitLines(content));
    if |lines| < 2 then Run(cleared, NoData)
    else match Locate(HeaderNames(lines[0]))
      case None => Run(cleared, MissingColumns)
      case Some(l) => Load(t.nextId, l, DataCells(lines[1..]))
  }

  /**
   * The transaction over the data rows of an emptied table whose counter is
   * `start`: all kept rows are written, or, when one lacks its date, none.
   */
  function Load(start: int, l: Layout, data: seq<seq<string>>): Run {
    var rs := Records(l, data);
    if Dated(rs) then Run(Table(Rows(rs, start), start + |rs|), Imported(|rs|))
    else Run(Table([], start), NullDate)
  }

  /** AUTOINCREMENT: ids strictly increase in insertion order and stay below the counter. */
  ghost predicate Increasing(t: Table) {
    && (forall i, j :: 0 <= i < j < |t.rows| ==> t.rows[i].id < t.rows[j].id)
    && (forall k :: 0 <= k < |t.rows| ==> t.rows[k].id < t.nextId)
  }

  /**
   * What a table that is only ever emptied and appended to looks like: its
   * ids are the consecutive ones just below the counter.
   */
  ghost predicate Consecutive(t: Table) {
    forall k :: 0 <= k < |t.rows| ==> t.rows[k].id == t.nextId - |t.rows| + k
  }

  // ================================================================ the table object

  class TirageTable {
    var rows: seq<Tirage>
    var nextId: int
    /** What `ROLLBACK` returns to: the contents at `BEGIN TRANSACTION`. */
    var saved: Table

    function State(): Table
      reads this
    {
      Table(rows, nextId)
    }

    /** A freshly created table; SQLite's AUTOINCREMENT hands out 1 first. */
    constructor ()
      ensures State() == Table([], 1) && saved == Table([], 1)
    {
      rows, nextId, saved := [], 1, Table([], 1);
    }

    /** `DELETE FROM tirages`: the counter is kept. */
    method DeleteAll()
      modifies this
      ensures State() == Table([], old(nextId)) && saved == old(saved)
    {
      rows := [];
    }

    /** `BEGIN TRANSACTION`. */
    method Begin()
      modifies this
      ensures State() == old(State()) && saved == old(State())
    {
      saved := State();
    }

    /** Leaving without `COMMIT`: the transaction's inserts are discarded. */
    method Rollback()
      modifies this
      ensures State() == old(saved) && saved == old(saved)
    {
      rows, nextId := saved.rows, saved.nextId;
    }

    /**
     * `insertStmt.run(...)` for a record: a record without a date violates
     * `date TEXT NOT NULL` and is refused (`ok` false, nothing changes).
     */
    method Insert(r: Record) returns (ok: bool)
      modifies this
      ensures ok <==> r.date.Some?
      ensures ok ==> rows == old(rows) + [RowOf(old(nextId), r)] && nextId == old(nextId) + 1
      ensures !ok ==> rows == old(rows) && nextId == old(nextId)
      ensures saved == old(saved)
    {
      if r.date.None? {
        return false;
      }
      rows, nextId := rows + [RowOf(nextId, r)], nextId + 1;
      ok := true;
    }
  }

  /**
   * `main()` once the file is read: the DELETE, the line and header checks,
   * then the transaction over the data rows.
   */
  method Import(table: TirageTable, content: string) returns (outcome: Outcome)
    modifies table
    ensures Run(table.State(), outcome) == ImportRun(old(table.State()), content)
  {
    table.DeleteAll();
    var lines := NonBlank(SplitLines(content));
    if |lines| < 2 {
      return NoData;
    }
    var layout := Locate(HeaderNames(lines[0]));
    if layout.None? {
      return MissingColumns;
    }
    outcome := InsertAll(table, layout.value, lines);
  }

  /**
   * `BEGIN TRANSACTION`, the loop over `lines[1..]` that skips rows with a
   * NaN number and inserts the others while counting them, then `COMMIT`;
   * an INSERT refused for its missing date ends the process uncommitted.
   */
  method InsertAll(table: TirageTable, l: Layout, lines: seq<string>) returns (outcome: Outcome)
    requires table.rows == [] && |lines| >= 1
    modifies table
    ensures Run(table.State(), outcome) == Load(old(table.nextId), l, DataCells(lines[1..]))
  {
    ghost var data := DataCells(lines[1..]);
    ghost var start := table.nextId;
    table.Begin();
    var count := 0;
    for i := 1 to |lines|
      invariant table.saved == Table([], start)
      invariant Progress(table.State(), l, data, i - 1, start) && count == |table.rows|
    {
      ghost var before := table.State();
      var kept, ok := InsertLine(table, l, lines[i]);
      assert data[i - 1] == Cells(lines[i]);
      if !ok {
        table.Rollback();
        NullDateFound(l, data, i - 1);
        return NullDate;
      }
      ProgressStep(l, data, i - 1, start, before);
      if kept {
        count := count + 1;
      }
    }
    ProgressDone(table.State(), l, data, start);
    outcome := Imported(count);
  }

  /**
   * The table after one more parsed row: unchanged for a skipped row, one
   * more row under the next id for a kept one.
   */
  function Append(t: Table, parsed: Option<Record>): Table
    requires parsed.None? || parsed.value.date.Some?
  {
    if parsed.None? then t else Table(t.rows + [RowOf(t.nextId, parsed.value)], t.nextId + 1)
  }

  /**
   * One pass of the loop body: split and trim the line, parse its numbers,
   * skip it when one is NaN (`kept` false), else run the INSERT; `ok` is
   * false only when the INSERT is refused.
   */
  method InsertLine(table: TirageTable, l: Layout, line: string) returns (kept: bool, ok: bool)
    modifies table
    ensures table.saved == old(table.saved)
    ensures var parsed := ParseRow(l, Cells(line));
      && (kept <==> parsed.Some?)
      && (ok <==> parsed.None? || parsed.value.date.Some?)
      && (ok ==> table.State() == Append(old(table.State()), parsed))
      && (!ok ==> table.State() == old(table.State()))
  {
    var cols := Cells(line);
    var parsed := ParseRow(l, cols);
    if parsed.None? {
      return false, true;
    }
    kept := true;
    ok := table.Insert(parsed.value);
  }

  /** The loop has handled the first `n` data rows of an emptied table with counter `start`. */
  ghost predicate Progress(t: Table, l: Layout, data: seq<seq<string>>, n: nat, start: int) {
    && n <= |data|
    && Dated(Records(l, data[..n]))
    && t == Table(Rows(Records(l, data[..n]), start), start + |Records(l, data[..n])|)
  }

  // ================================================================ lemmas

  lemma RecordsSnoc(l: Layout, data: seq<seq<string>>, i: nat)
    requires i < |data|
    ensures Records(l, data[..i + 1]) == Records(l, data[..i]) + RowRecords(l, data[i])
  {
    var p := data[..i + 1];
    assert p[..|p| - 1] == data[..i];
  }

  /** One more data row handled. */
  lemma ProgressStep(l: Layout, data: seq<seq<string>>, n: nat, start: int, t: Table)
    requires Progress(t, l, data, n, start) && n < |data|
    requires ParseRow(l, data[n]).None? || ParseRow(l, data[n]).value.date.Some?
    ensures Progress(Append(t, ParseRow(l, data[n])), l, data, n + 1, start)
  {
    RecordsSnoc(l, data, n);
    if ParseRow(l, data[n]).Some? {
      KeptStep(Records(l, data[..n]), ParseRow(l, data[n]).value, Records(l, data[..n + 1]), start, t);
    }
  }

  lemma KeptStep(rs: seq<Record>, r: Record, rs': seq<Record>, start: int, t: Table)
    requires Dated(rs) && r.date.Some? && rs' == rs + [r]
    requires t == Table(Rows(rs, start), start + |rs|)
    ensures Dated(rs') && Append(t, Some(r)) == Table(Rows(rs', start), start + |rs'|)
  {
    RowsSnoc(rs, r, start);
  }

  /** All data rows handled: the table `Load` describes. */
  lemma ProgressDone(t: Table, l: Layout, data: seq<seq<string>>, start: int)
    requires Progress(t, l, data, |data|, start)
    ensures Load(start, l, data) == Run(t, Imported(|t.rows|))
  {
    assert data[..|data|] == data;
  }

  /** The rows of one more record: its row comes last, under the next id. */
  lemma RowsSnoc(rs: seq<Record>, r: Record, start: int)
    requires Dated(rs) && r.date.Some?
    ensures Dated(rs + [r]) && Rows(rs + [r], start) == Rows(rs, start) + [RowOf(start + |rs|, r)]
  {
    assert forall k :: 0 <= k < |rs| ==> (rs + [r])[k] == rs[k];
  }

  /** A record without a date among the first `i + 1` rows: the whole file is not `Dated`. */
  lemma NullDateFound(l: Layout, data: seq<seq<string>>, i: nat)
    requires i < |data| && ParseRow(l, data[i]).Some? && ParseRow(l, data[i]).value.date.None?
    ensures !Dated(Records(l, data))
  {
    RecordsSnoc(l, data, i);
    RecordsAppend(l, data[..i + 1], data[i + 1..]);
    assert data[..i + 1] + data[i + 1..] == data;
    var k := |Records(l, data[..i])|;
    assert Records(l, data)[k] == ParseRow(l, data[i]).value;
  }

  /** The records of two consecutive blocks of rows are those of each block, in order. */
  lemma {:induction false} RecordsAppend(l: Layout, a: seq<seq<string>>, b: seq<seq<string>>)
    ensures Records(l, a + b) == Records(l, a) + Records(l, b)
    decreases |b|
  {
    if b == [] {
      assert a + b == a;
    } else {
      var b0 := b[..|b| - 1];
      RecordsAppend(l, a, b0);
      assert (a + b)[..|a + b| - 1] == a + b0;
      assert (a + b)[|a + b| - 1] == b[|b| - 1];
    }
  }

  /** Skipped exactly when one of num1..num6 is NaN; what a kept row binds. */
  lemma ParseRowMeaning(l: Layout, cols: seq<string>)
    requires |l.nums| == 6
    ensures ParseRow(l, cols).None? <==> exists k :: 0 <= k < 6 && ParseCell(Cell(cols, l.nums[k])).None?
    ensures ParseRow(l, cols).Some? ==>
      var r := ParseRow(l, cols).value;
      && r.date == Cell(cols, l.date)
      && |r.nums| == 6
      && (forall k :: 0 <= k < 6 ==> ParseCell(Cell(cols, l.nums[k])) == Some(r.nums[k]))
      && (l.bonus == -1 ==> r.bonus == None)
      && (l.bonus != -1 ==> r.bonus == ParseCell(Cell(cols, l.bonus)))
      && (r.premium == 1 <==> l.premium != -1 && ParseCell(Cell(cols, l.premium)).Some? && ParseCell(Cell(cols, l.premium)).value != 0)
      && (r.premium == 0 || r.premium == 1)
  {
    var ts := NumTokens(l, cols);
    assert forall k :: 0 <= k < 6 ==> ts[k] == ParseCell(Cell(cols, l.nums[k]));
  }

  /** The header check: `None` exactly when `date` or one of `num1`..`num6` is not a column name. */
  lemma LocateMeaning(h: seq<string>)
    ensures Locate(h).None? <==> "date" !in h || exists k :: 0 <= k < 6 && NumNames[k] !in h
    ensures Locate(h).Some? ==>
      var l := Locate(h).value;
      && |l.nums| == 6
      && l.date == IndexOf(h, "date") && h[l.date] == "date"
      && (forall k :: 0 <= k < 6 ==> l.nums[k] == IndexOf(h, NumNames[k]) && h[l.nums[k]] == NumNames[k])
      && (l.bonus == -1 <==> "bonus" !in h)
      && (l.premium == -1 <==> "premium" !in h)
  {
    var nums := NumColumns(h);
    assert forall k :: 0 <= k < 6 ==> (nums[k] == -1 <==> NumNames[k] !in h);
    if (exists k :: 0 <= k < 6 && NumNames[k] !in h) {
      var k :| 0 <= k < 6 && NumNames[k] !in h;
      assert nums[k] == -1;
    }
  }

  /**
   * With distinct column names the order of the columns does not matter:
   * permuting the header and every row the same way (`h2[i] == h1[p[i]]`,
   * `p` a permutation of the positions) finds the same columns and reads
   * the same records.
   */
  lemma ColumnOrder(h1: seq<string>, h2: seq<string>, p: seq<nat>, rows1: seq<seq<string>>, rows2: seq<seq<string>>)
    requires |h1| == |h2| == |p|
    requires forall i :: 0 <= i < |p| ==> p[i] < |h1| && h2[i] == h1[p[i]]
    requires forall j: nat :: j < |h1| ==> j in p
    requires forall i, j :: 0 <= i < j < |h1| ==> h1[i] != h1[j]
    requires |rows1| == |rows2|
    requires forall k :: 0 <= k < |rows1| ==> |rows1[k]| == |rows2[k]| == |h1|
    requires forall k, i :: 0 <= k < |rows1| && 0 <= i < |p| ==> rows2[k][i] == rows1[k][p[i]]
    ensures Locate(h1).None? <==> Locate(h2).None?
    ensures Locate(h1).Some? ==> Records(Locate(h1).value, rows1) == Records(Locate(h2).value, rows2)
  {
    PermutedNames(h1, h2, p);
    forall name | name in h1
      ensures 0 <= IndexOf(h2, name) < |p| && p[IndexOf(h2, name)] == IndexOf(h1, name)
    {
      PermutedIndex(h1, h2, p, name);
    }
    LocateMeaning(h1);
    LocateMeaning(h2);
    if Locate(h1).Some? {
      var l1, l2 := Locate(h1).value, Locate(h2).value;
      LayoutsAgree(h1, h2, p, l1, l2);
      PermutedRecords(h1, p, l1, l2, rows1, rows2);
    }
  }

  /** Permuted positions hold the same names. */
  lemma PermutedNames(h1: seq<string>, h2: seq<string>, p: seq<nat>)
    requires |h1| == |h2| == |p|
    requires forall i :: 0 <= i < |p| ==> p[i] < |h1| && h2[i] == h1[p[i]]
    requires forall j: nat :: j < |h1| ==> j in p
    ensures forall name :: name in h1 <==> name in h2
  {
    forall name | name in h1 ensures name in h2 {
      var j: nat :| j < |h1| && h1[j] == name;
      assert j in p;
      var i :| 0 <= i < |p| && p[i] == j;
      assert h2[i] == name;
    }
  }

  /** Where a name sits in the permuted header. */
  lemma PermutedIndex(h1: seq<string>, h2: seq<string>, p: seq<nat>, name: string)
    requires |h1| == |h2| == |p|
    requires forall i :: 0 <= i < |p| ==> p[i] < |h1| && h2[i] == h1[p[i]]
    requires forall j: nat :: j < |h1| ==> j in p
    requires forall i, j :: 0 <= i < j < |h1| ==> h1[i] != h1[j]
    requires name in h1
    ensures 0 <= IndexOf(h2, name) < |p| && p[IndexOf(h2, name)] == IndexOf(h1, name)
  {
    PermutedNames(h1, h2, p);
    var i2 := IndexOf(h2, name);
    var i1 := IndexOf(h1, name);
    assert h1[p[i2]] == name == h1[i1];
  }

  /** The two layouts point at the same cells through `p`. */
  lemma LayoutsAgree(h1: seq<string>, h2: seq<string>, p: seq<nat>, l1: Layout, l2: Layout)
    requires |h1| == |h2| == |p|
    requires forall name :: name in h1 <==> name in h2
    requires forall name :: name in h1 ==> 0 <= IndexOf(h2, name) < |p| && p[IndexOf(h2, name)] == IndexOf(h1, name)
    requires Locate(h1) == Some(l1) && Locate(h2) == Some(l2)
    ensures |l1.nums| == |l2.nums| == 6
    ensures 0 <= l2.date < |p| && p[l2.date] == l1.date
    ensures forall k :: 0 <= k < 6 ==> 0 <= l2.nums[k] < |p| && p[l2.nums[k]] == l1.nums[k]
    ensures l1.bonus == -1 <==> l2.bonus == -1
    ensures l2.bonus != -1 ==> 0 <= l2.bonus < |p| && p[l2.bonus] == l1.bonus
    ensures l1.premium == -1 <==> l2.premium == -1
    ensures l2.premium != -1 ==> 0 <= l2.premium < |p| && p[l2.premium] == l1.premium
  {
    LocateMeaning(h1);
    LocateMeaning(h2);
  }

  /** Each row reads the same record under the two layouts, so the records agree. */
  lemma {:induction false} PermutedRecords(h1: seq<string>, p: seq<nat>, l1: Layout, l2: Layout, rows1: seq<seq<string>>, rows2: seq<seq<string>>)
    requires |p| == |h1| && forall i :: 0 <= i < |p| ==> p[i] < |h1|
    requires |l1.nums| == |l2.nums| == 6
    requires 0 <= l2.date < |p| && p[l2.date] == l1.date
    requires forall k :: 0 <= k < 6 ==> 0 <= l2.nums[k] < |p| && p[l2.nums[k]] == l1.nums[k]
    requires l1.bonus == -1 <==> l2.bonus == -1
    requires l2.bonus != -1 ==> 0 <= l2.bonus < |p| && p[l2.bonus] == l1.bonus
    requires l1.premium == -1 <==> l2.premium == -1
    requires l2.premium != -1 ==> 0 <= l2.premium < |p| && p[l2.premium] == l1.premium
    requires |rows1| == |rows2|
    requires forall k :: 0 <= k < |rows1| ==> |rows1[k]| == |rows2[k]| == |h1|
    requires forall k, i :: 0 <= k < |rows1| && 0 <= i < |p| ==> rows2[k][i] == rows1[k][p[i]]
    ensures Records(l1, rows1) == Records(l2, rows2)
    decreases |rows1|
  {
    if rows1 != [] {
      var n := |rows1| - 1;
      PermutedRecords(h1, p, l1, l2, rows1[..n], rows2[..n]);
      PermutedRow(p, l1, l2, rows1[n], rows2[n]);
    }
  }

  lemma PermutedRow(p: seq<nat>, l1: Layout, l2: Layout, c1: seq<string>, c2: seq<string>)
    requires |c1| == |c2| == |p|
    requires |l1.nums| == |l2.nums| == 6
    requires 0 <= l2.date < |p| && p[l2.date] == l1.date
    requires forall k :: 0 <= k < 6 ==> 0 <= l2.nums[k] < |p| && p[l2.nums[k]] == l1.nums[k]
    requires l1.bonus == -1 <==> l2.bonus == -1
    requires l2.bonus != -1 ==> 0 <= l2.bonus < |p| && p[l2.bonus] == l1.bonus
    requires l1.premium == -1 <==> l2.premium == -1
    requires l2.premium != -1 ==> 0 <= l2.premium < |p| && p[l2.premium] == l1.premium
    requires forall i :: 0 <= i < |p| ==> p[i] < |c1| && c2[i] == c1[p[i]]
    ensures ParseRow(l1, c1) == ParseRow(l2, c2)
  {
    assert NumTokens(l1, c1) == NumTokens(l2, c2);
    assert Cell(c1, l1.date) == Cell(c2, l2.date);
    assert PremiumFlag(l1, c1) == PremiumFlag(l2, c2);
  }

  /** Kept lines are exactly the non-blank ones, each as often as it occurs. */
  lemma NonBlankMeaning(ls: seq<string>)
    ensures forall l :: l in NonBlank(ls) <==> l in ls && !Blank(l)
    ensures forall l :: multiset(NonBlank(ls))[l] == if Blank(l) then 0 else multiset(ls)[l]
    ensures |NonBlank(ls)| <= |ls|
  {
    NonBlankCounts(ls);
    forall l ensures l in NonBlank(ls) <==> l in ls && !Blank(l) {
      assert l in NonBlank(ls) <==> multiset(NonBlank(ls))[l] > 0;
      assert l in ls <==> multiset(ls)[l] > 0;
    }
  }

  lemma {:induction false} NonBlankCounts(ls: seq<string>)
    ensures forall l :: multiset(NonBlank(ls))[l] == if Blank(l) then 0 else multiset(ls)[l]
    ensures |NonBlank(ls)| <= |ls|
    decreases |ls|
  {
    if ls != [] {
      var init, last := ls[..|ls| - 1], ls[|ls| - 1];
      NonBlankCounts(init);
      assert ls == init + [last];
      assert multiset(ls) == multiset(init) + multiset{last};
      var kept := if Blank(last) then [] else [last];
      assert NonBlank(ls) == NonBlank(init) + kept;
      assert multiset(NonBlank(ls)) == multiset(NonBlank(init)) + multiset(kept);
    }
  }

  /** The filter keeps file order: the lines kept from `a + b` are those of `a`, then those of `b`. */
  lemma {:induction false} NonBlankAppend(a: seq<string>, b: seq<string>)
    ensures NonBlank(a + b) == NonBlank(a) + NonBlank(b)
    decreases |b|
  {
    if b == [] {
      assert a + b == a;
    } else {
      var init := b[..|b| - 1];
      NonBlankAppend(a, init);
      assert (a + b)[..|a + b| - 1] == a + init;
      assert (a + b)[|a + b| - 1] == b[|b| - 1];
    }
  }

  /**
   * No line holds a line feed; a line is its piece between line feeds with
   * the `\r` of a `\r\n` removed, and the last piece, followed by no line
   * feed, is kept as it is.
   */
  lemma SplitLinesMeaning(content: string)
    ensures var lines, parts := SplitLines(content), Split(content, '\n');
      && (forall k :: 0 <= k < |lines| ==> '\n' !in lines[k])
      && |lines| == |parts|
      && (forall k :: 0 <= k < |lines| - 1 ==> CarriageReturnDropped(parts[k], lines[k]))
      && lines[|lines| - 1] == parts[|parts| - 1]
  {
    SplitLinesNoFeed(content);
    SplitLinesPieces(content);
  }

  lemma SplitLinesNoFeed(content: string)
    ensures forall k :: 0 <= k < |SplitLines(content)| ==> '\n' !in SplitLines(content)[k]
  {
    var parts := Split(content, '\n');
    SplitJoin(content, '\n');
    var lines := SplitLines(content);
    forall k | 0 <= k < |lines| ensures '\n' !in lines[k] {
      assert '\n' !in parts[k];
      if k < |parts| - 1 { DropCRMeaning(parts[k]); }
    }
  }

  lemma SplitLinesPieces(content: string)
    ensures var lines, parts := SplitLines(content), Split(content, '\n');
      && |lines| == |parts|
      && (forall k :: 0 <= k < |lines| - 1 ==> CarriageReturnDropped(parts[k], lines[k]))
      && lines[|lines| - 1] == parts[|parts| - 1]
  {
    var parts := Split(content, '\n');
    var lines := SplitLines(content);
    forall k | 0 <= k < |lines| - 1 ensures CarriageReturnDropped(parts[k], lines[k]) {
      assert lines[k] == DropCR(parts[k]);
      DropCRMeaning(parts[k]);
    }
  }

  /** `line` is `piece` less the `\r` it ends with, or `piece` itself when it ends with none. */
  predicate CarriageReturnDropped(piece: string, line: string) {
    || piece == line + "\r"
    || (piece == line && (piece == [] || piece[|piece| - 1] != '\r'))
  }

  lemma DropCRMeaning(p: string)
    ensures CarriageReturnDropped(p, DropCR(p))
    ensures '\n' !in p ==> '\n' !in DropCR(p)
  {
    if |p| > 0 && p[|p| - 1] == '\r' {
      assert p == p[..|p| - 1] + "\r";
      assert forall c :: c in p[..|p| - 1] ==> c in p;
    }
  }

  /**
   * What the import leaves behind: on success exactly the kept rows, in file
   * order, numbered from the counter, and the logged count is their number;
   * on every error an empty table and an unchanged counter.
   */
  lemma ImportRunMeaning(t: Table, content: string)
    ensures var run := ImportRun(t, content);
      && (run.outcome.Imported? ==> run.outcome.count == |run.table.rows| && run.table.nextId == t.nextId + |run.table.rows|)
      && (!run.outcome.Imported? ==> run.table == Table([], t.nextId))
      && (run.outcome.Imported? ==>
           exists l, lines ::
             && lines == NonBlank(SplitLines(content)) && |lines| >= 2
             && Locate(HeaderNames(lines[0])) == Some(l)
             && Dated(Records(l, DataCells(lines[1..])))
             && run.table.rows == Rows(Records(l, DataCells(lines[1..])), t.nextId))
  {
    var lines := NonBlank(SplitLines(content));
    if |lines| >= 2 && Locate(HeaderNames(lines[0])).Some? {
      var l := Locate(HeaderNames(lines[0])).value;
      assert lines == NonBlank(SplitLines(content));
    }
  }

  /** The previous contents never matter: only the AUTOINCREMENT counter carries over. */
  lemma ReplacesAll(t: Table, u: Table, content: string)
    requires t.nextId == u.nextId
    ensures ImportRun(t, content) == ImportRun(u, content)
  {
  }

  /** Importing the same file twice gives the same rows again, under new ids. */
  lemma ImportTwice(t: Table, content: string)
    ensures var once := ImportRun(t, content);
      var twice := ImportRun(once.table, content);
      && twice.outcome == once.outcome
      && |twice.table.rows| == |once.table.rows|
      && forall k :: 0 <= k < |once.table.rows| ==>
           twice.table.rows[k] == once.table.rows[k].(id := once.table.rows[k].id + |once.table.rows|)
  {
  }

  /** Consecutive ids below the counter are in AUTOINCREMENT order. */
  lemma ConsecutiveIncreasing(t: Table)
    requires Consecutive(t)
    ensures Increasing(t)
  {
  }

  /** An import keeps the ids consecutive, and so in AUTOINCREMENT order. */
  lemma ImportConsecutive(t: Table, content: string)
    ensures Consecutive(ImportRun(t, content).table)
    ensures Increasing(ImportRun(t, content).table)
  {
    ConsecutiveIncreasing(ImportRun(t, content).table);
  }
}
