/**
 * The read side of the GraphQL backend (`backend/graphql/resolvers.js`):
 * the query and parameters `tirages` sends and what SQLite answers, the
 * number tally of `occurrences`, the date list of `availableDates`, the
 * match count behind `calculerProbabilite`, and the strategy dispatch and
 * sorting of `simulateDraw`, all over the rows of `tirages` in table order.
 */
module Resolvers {
  import opened Wrappers
  import opened JsText
  import opened Store
  import Calendar

  // ================================================================ WHERE

  /** One condition of a WHERE clause over `tirages`. */
  datatype Filter =
    | PremiumIs(flag: int)    // premium = <flag>
    | DateIs(date: string)    // date = ?
    | YearIs(year: int)       // strftime('%Y', date) = String(year)
    | MonthIs(month: int)     // strftime('%m', date) = the two digits of month + 1

  /** Ten characters `DDDD-DD-DD`, `D` a decimal digit. */
  predicate IsoDigits(d: string) {
    && |d| == 10 && d[4] == '-' && d[7] == '-'
    && IsDigit(d[0]) && IsDigit(d[1]) && IsDigit(d[2]) && IsDigit(d[3])
    && IsDigit(d[5]) && IsDigit(d[6]) && IsDigit(d[8]) && IsDigit(d[9])
  }

  /** The two-digit number at `i`. */
  function Field(d: string, i: nat): int
    requires i + 1 < |d| && IsDigit(d[i]) && IsDigit(d[i + 1])
  {
    DigitValue(d[i], false) * 10 + DigitValue(d[i + 1], false)
  }

  function IsoYear(d: string): int requires IsoDigits(d) { Field(d, 0) * 100 + Field(d, 2) }
  function IsoMonth(d: string): int requires IsoDigits(d) { Field(d, 5) }
  function IsoDay(d: string): int requires IsoDigits(d) { Field(d, 8) }

  /**
   * Exactly `YYYY-MM-DD` with a month 01 to 12 and a day 01 to 31, as
   * SQLite's date parser accepts it; every writer of the table produces
   * this form.
   */
  predicate IsoShape(d: string) {
    IsoDigits(d) && 1 <= IsoMonth(d) <= 12 && 1 <= IsoDay(d) <= 31
  }

  /** `strftime('%Y', date)`; NULL (`None`) for text that is not a date. */
  function StrfYear(d: string): Option<string> {
    if IsoShape(d) then Some(d[..4]) else None
  }

  /**
   * `strftime('%m', date)`. A day past the end of its month runs on into
   * the next month (never past December, which has 31 days).
   */
  function StrfMonth(d: string): Option<string> {
    if !IsoShape(d) then None
    else if IsoDay(d) > Calendar.DaysInMonth(IsoYear(d), IsoMonth(d)) then Some(Calendar.Pad2(IsoMonth(d) + 1))
    else Some(d[5..7])
  }

  /** `String(year)`. */
  function YearText(year: int): string {
    IntToString(year)
  }

  /** `String(month + 1).padStart(2, "0")`: the GraphQL month counts from 0. */
  function MonthText(month: int): string {
    Calendar.Pad2(month + 1)
  }

  /** A comparison with NULL is never true. */
  predicate Holds(f: Filter, t: Tirage) {
    match f
    case PremiumIs(v) => t.premium == v
    case DateIs(d) => t.date == d
    case YearIs(y) => StrfYear(t.date) == Some(YearText(y))
    case MonthIs(m) => StrfMonth(t.date) == Some(MonthText(m))
  }

  /**
   * A slot of the WHERE clause: the condition, or `None` when the code
   * appends nothing there.
   */
  type Cond = Option<Filter>

  /** The condition `f` when `c` holds, nothing otherwise. */
  function When(c: bool, f: Filter): Cond {
    if c then Some(f) else None
  }

  predicate Admits(c: Cond, t: Tirage) {
    match c
    case None => true
    case Some(f) => Holds(f, t)
  }

  predicate HoldsAll(fs: seq<Cond>, t: Tirage) {
    forall k :: 0 <= k < |fs| ==> Admits(fs[k], t)
  }

  /** `SELECT ... WHERE <fs>`, in table order. */
  function Where(rows: seq<Tirage>, fs: seq<Cond>): seq<Tirage>
    decreases |rows|
  {
    if rows == [] then []
    else
      var last := rows[|rows| - 1];
      Where(rows[..|rows| - 1], fs) + (if HoldsAll(fs, last) then [last] else [])
  }

  /** `WHERE premium = 0` unless premium rows are asked for. */
  function Visible(rows: seq<Tirage>, premium: bool): seq<Tirage> {
    Where(rows, [When(!premium, PremiumIs(0))])
  }

  // ================================================================ ORDER BY date DESC, LIMIT, OFFSET

  /** Dates never increase along `s` (string order, as SQLite's BINARY collation). */
  predicate NewestFirst(s: seq<Tirage>) {
    forall i, j :: 0 <= i < j < |s| ==> !StrLess(s[i].date, s[j].date)
  }

  function InsertByDate(t: Tirage, s: seq<Tirage>): seq<Tirage>
    decreases |s|
  {
    if s == [] || !StrLess(t.date, s[0].date) then [t] + s
    else [s[0]] + InsertByDate(t, s[1..])
  }

  /** `ORDER BY date DESC`; rows with the same date come in an order SQLite does not promise. */
  function OrderByDateDesc(s: seq<Tirage>): seq<Tirage>
    decreases |s|
  {
    if s == [] then [] else InsertByDate(s[0], OrderByDateDesc(s[1..]))
  }

  /** Where `OFFSET n` starts: a negative offset counts as zero. */
  function Skip(n: int, len: nat): (from: nat)
    ensures from <= len
  {
    if n < 0 then 0 else if n > len then len else n
  }

  /** `LIMIT l OFFSET n`: a negative limit means no limit. */
  function LimitOffset(s: seq<Tirage>, limit: int, offset: int): seq<Tirage> {
    var from := Skip(offset, |s|);
    var upto := if limit < 0 || from + limit > |s| then |s| else from + limit;
    s[from..upto]
  }

  // ================================================================ Query.tirages

  /** The arguments of `tirages`; `None` is an argument left out. */
  datatype TiragesArgs = TiragesArgs(
    limit: Option<int>, offset: Option<int>, premium: Option<bool>,
    date: Option<string>, year: Option<int>, month: Option<int>)

  /** The defaults of the destructuring: `limit = 10, offset = 0, premium = false`. */
  function Limit(a: TiragesArgs): int { a.limit.GetOr(10) }
  function Offset(a: TiragesArgs): int { a.offset.GetOr(0) }
  function Premium(a: TiragesArgs): bool { a.premium.GetOr(false) }

  /**
   * The conditions `tirages` appends, in order: `if (!premium)`,
   * `if (date)` (the empty string is falsy), `if (year)` (0 is falsy), and
   * a month that is neither undefined nor null (0 included), sent as
   * `String(month + 1).padStart(2, "0")`.
   */
  function Filters(a: TiragesArgs): seq<Cond> {
    [] + [When(!Premium(a), PremiumIs(0))]
    + [When(a.date.Some? && a.date.GetOr("") != "", DateIs(a.date.GetOr("")))]
    + [When(a.year.Some? && a.year.GetOr(0) != 0, YearIs(a.year.GetOr(0)))]
    + [When(a.month.Some?, MonthIs(a.month.GetOr(0)))]
  }

  datatype Param = PText(text: string) | PInt(n: int)

  /** The query text is kept as its runs of fixed text and the `?` placeholders between them. */
  datatype Piece = Words(text: string) | Hole

  /** The number of placeholders. */
  function Holes(q: seq<Piece>): nat
    decreases |q|
  {
    if q == [] then 0 else Holes(q[..|q| - 1]) + (if q[|q| - 1].Hole? then 1 else 0)
  }

  const Select := "\n        SELECT *\n        FROM tirages\n        WHERE 1=1\n      "
  const OrderLimit := [Words(" ORDER BY date DESC LIMIT "), Hole, Words(" OFFSET "), Hole]

  /** The text a condition appends; the premium flag is written into the text, not bound. */
  function Pieces(f: Filter): seq<Piece> {
    match f
    case PremiumIs(v) => [Words(" AND premium = " + IntToString(v))]
    case DateIs(_) => [Words(" AND date = "), Hole]
    case YearIs(_) => [Words(" AND strftime('%Y', date) = "), Hole]
    case MonthIs(_) => [Words(" AND strftime('%m', date) = "), Hole]
  }

  function Bind(f: Filter): seq<Param> {
    match f
    case PremiumIs(_) => []
    case DateIs(d) => [PText(d)]
    case YearIs(y) => [PText(YearText(y))]
    case MonthIs(m) => [PText(MonthText(m))]
  }

  function SlotPieces(c: Cond): seq<Piece> {
    match c case None => [] case Some(f) => Pieces(f)
  }

  function SlotBind(c: Cond): seq<Param> {
    match c case None => [] case Some(f) => Bind(f)
  }

  /** The query up to its last condition. */
  function Prefix(fs: seq<Cond>): seq<Piece>
    decreases |fs|
  {
    if fs == [] then [Words(Select)] else Prefix(fs[..|fs| - 1]) + SlotPieces(fs[|fs| - 1])
  }

  function Binds(fs: seq<Cond>): seq<Param>
    decreases |fs|
  {
    if fs == [] then [] else Binds(fs[..|fs| - 1]) + SlotBind(fs[|fs| - 1])
  }

  function Query(fs: seq<Cond>): seq<Piece> {
    Prefix(fs) + OrderLimit
  }

  function TiragesParams(a: TiragesArgs): seq<Param> {
    Binds(Filters(a)) + [PInt(Limit(a)), PInt(Offset(a))]
  }

  /** One `if (...) { query += ...; params.push(...); }` of `tirages`. */
  method AddFilter(query: seq<Piece>, params: seq<Param>, ghost fs: seq<Cond>, c: bool, f: Filter)
    returns (query': seq<Piece>, params': seq<Param>)
    requires query == Prefix(fs) && params == Binds(fs)
    ensures query' == Prefix(fs + [When(c, f)]) && params' == Binds(fs + [When(c, f)])
  {
    assert (fs + [When(c, f)])[..|fs|] == fs;
    if c {
      query' := query + Pieces(f);
      params' := params + Bind(f);
    } else {
      query', params' := query, params;
    }
  }

  /** The query and the parameter list `tirages` hands to `db.all`. */
  method BuildTirages(a: TiragesArgs) returns (query: seq<Piece>, params: seq<Param>)
    ensures query == Query(Filters(a)) && params == TiragesParams(a)
  {
    ghost var fs: seq<Cond> := [];
    query := [Words(Select)];
    params := [];
    query, params := AddFilter(query, params, fs, !Premium(a), PremiumIs(0));
    fs := fs + [When(!Premium(a), PremiumIs(0))];
    query, params := AddFilter(query, params, fs, a.date.Some? && a.date.GetOr("") != "", DateIs(a.date.GetOr("")));
    fs := fs + [When(a.date.Some? && a.date.GetOr("") != "", DateIs(a.date.GetOr("")))];
    query, params := AddFilter(query, params, fs, a.year.Some? && a.year.GetOr(0) != 0, YearIs(a.year.GetOr(0)));
    fs := fs + [When(a.year.Some? && a.year.GetOr(0) != 0, YearIs(a.year.GetOr(0)))];
    query, params := AddFilter(query, params, fs, a.month.Some?, MonthIs(a.month.GetOr(0)));
    fs := fs + [When(a.month.Some?, MonthIs(a.month.GetOr(0)))];
    query := query + OrderLimit;
    params := params + [PInt(Limit(a)), PInt(Offset(a))];
  }

  /** What SQLite answers to the query of `tirages`. */
  function TiragesAnswer(rows: seq<Tirage>, a: TiragesArgs): seq<Tirage> {
    LimitOffset(OrderByDateDesc(Where(rows, Filters(a))), Limit(a), Offset(a))
  }

  // ================================================================ Query.occurrences

  datatype Occurrence = Occurrence(number: int, count: nat)

  /** `if (!n) return;`: NULL and 0 are not counted. */
  function Truthy(v: Option<int>): seq<int> {
    if v.Some? && v.value != 0 then [v.value] else []
  }

  /** The counted values among num1..num<k> of a row. */
  function CountedIn(t: Tirage, k: nat): seq<int>
    requires k <= 6
  {
    if k == 0 then [] else CountedIn(t, k - 1) + Truthy(Num(t, k - 1))
  }

  /** Every counted value: num1..num6 of each row (never num7 or the bonus), falsy ones left out. */
  function Counted(rows: seq<Tirage>): seq<int>
    decreases |rows|
  {
    if rows == [] then [] else Counted(rows[..|rows| - 1]) + CountedIn(rows[|rows| - 1], 6)
  }

  /** The object `counts` after counting `vals` in order: `counts[n] = (counts[n] || 0) + 1`. */
  function Tally(vals: seq<int>): map<int, nat>
    decreases |vals|
  {
    if vals == [] then map[]
    else
      var m := Tally(vals[..|vals| - 1]);
      var n := vals[|vals| - 1];
      m[n := if n in m then m[n] + 1 else 1]
  }

  /** Counting one more column value. */
  method TallyOne(counts: map<int, nat>, keys: seq<int>, ghost vals: seq<int>, v: Option<int>)
    returns (counts': map<int, nat>, keys': seq<int>)
    requires counts == Tally(vals) && keys == Distinct(vals)
    ensures counts' == Tally(vals + Truthy(v)) && keys' == Distinct(vals + Truthy(v))
  {
    counts', keys' := counts, keys;
    if v.Some? && v.value != 0 {
      var n := v.value;
      assert (vals + [n])[..|vals|] == vals;
      TallyMeaning(vals);
      DistinctMeaning(vals);
      if n in counts {
        counts' := counts[n := counts[n] + 1];
      } else {
        counts' := counts[n := 1];
        keys' := keys + [n];
      }
    } else {
      assert vals + [] == vals;
    }
  }

  /** `[r.num1, ..., r.num6].forEach(...)` for one row. */
  method TallyRow(counts: map<int, nat>, keys: seq<int>, ghost vals: seq<int>, t: Tirage)
    returns (counts': map<int, nat>, keys': seq<int>)
    requires counts == Tally(vals) && keys == Distinct(vals)
    ensures counts' == Tally(vals + CountedIn(t, 6)) && keys' == Distinct(vals + CountedIn(t, 6))
  {
    counts', keys' := counts, keys;
    CountedInSnoc(vals, t, 0);
    for k := 0 to 6
      invariant counts' == Tally(vals + CountedIn(t, k)) && keys' == Distinct(vals + CountedIn(t, k))
    {
      counts', keys' := TallyOne(counts', keys', vals + CountedIn(t, k), Num(t, k));
      CountedInSnoc(vals, t, k + 1);
    }
  }

  /**
   * `occurrences`: one entry per counted number, in ascending order, each
   * with how many times it was counted. The keys of `counts` are
   * `String(n)`, and `parseInt` gives `n` back (`ParseIntRoundTrip`), so the
   * tally is keyed by the number itself.
   */
  method Occurrences(rows: seq<Tirage>, premium: bool) returns (out: seq<Occurrence>)
    ensures forall i, j :: 0 <= i < j < |out| ==> out[i].number < out[j].number
    ensures forall k :: 0 <= k < |out| ==>
      out[k].count >= 1 && out[k].count == multiset(Counted(Visible(rows, premium)))[out[k].number]
    ensures forall n :: n in Counted(Visible(rows, premium)) <==>
      exists k :: 0 <= k < |out| && out[k].number == n
    ensures SumCounts(out) == |Counted(Visible(rows, premium))|
  {
    var sel := Visible(rows, premium);
    var counts: map<int, nat> := map[];
    var keys: seq<int> := [];
    for i := 0 to |sel|
      invariant counts == Tally(Counted(sel[..i])) && keys == Distinct(Counted(sel[..i]))
    {
      CountedSnoc(sel, i);
      counts, keys := TallyRow(counts, keys, Counted(sel[..i]), sel[i]);
    }
    assert sel[..|sel|] == sel;
    out := Report(counts, keys, Counted(sel));
    SumOfCounts(out, Counted(sel));
  }

  /** The total of the reported counts. */
  function SumCounts(out: seq<Occurrence>): nat
    decreases |out|
  {
    if out == [] then 0 else SumCounts(out[..|out| - 1]) + out[|out| - 1].count
  }

  /** `Object.keys(counts).map(...).sort((a, b) => a.number - b.number)`. */
  method Report(counts: map<int, nat>, keys: seq<int>, ghost vals: seq<int>) returns (out: seq<Occurrence>)
    requires counts == Tally(vals) && keys == Distinct(vals)
    ensures forall i, j :: 0 <= i < j < |out| ==> out[i].number < out[j].number
    ensures forall k :: 0 <= k < |out| ==> out[k].count >= 1 && out[k].count == multiset(vals)[out[k].number]
    ensures forall n :: n in vals <==> exists k :: 0 <= k < |out| && out[k].number == n
  {
    TallyMeaning(vals);
    DistinctMeaning(vals);
    var sorted := SortAsc(keys);
    SortAscDistinct(keys);
    assert forall x :: x in sorted ==> x in counts;
    out := seq(|sorted|, k requires 0 <= k < |sorted| && sorted[k] in counts => Occurrence(sorted[k], counts[sorted[k]]));
    forall n | n in vals ensures exists k :: 0 <= k < |out| && out[k].number == n {
      assert n in sorted;
      var k :| 0 <= k < |sorted| && sorted[k] == n;
      assert out[k].number == n;
    }
    forall n | exists k :: 0 <= k < |out| && out[k].number == n ensures n in vals {
      var k :| 0 <= k < |out| && out[k].number == n;
      assert sorted[k] in sorted;
    }
  }

  // ================================================================ Query.availableDates

  /** First occurrences, in order. */
  function Distinct<T(==)>(ds: seq<T>): seq<T>
    decreases |ds|
  {
    if ds == [] then []
    else
      var seen := Distinct(ds[..|ds| - 1]);
      var last := ds[|ds| - 1];
      if last in seen then seen else seen + [last]
  }

  function DatesOf(rows: seq<Tirage>): (r: seq<string>)
    ensures |r| == |rows| && forall k :: 0 <= k < |rows| ==> r[k] == rows[k].date
  {
    seq(|rows|, k requires 0 <= k < |rows| => rows[k].date)
  }

  /** `SELECT DISTINCT date FROM tirages [WHERE premium = 0]`, first occurrences in table order. */
  function AvailableDates(rows: seq<Tirage>, premium: bool): seq<string> {
    Distinct(DatesOf(Visible(rows, premium)))
  }

  // ================================================================ Mutation.calculerProbabilite

  /** `numeros.map(Number)`: a null element becomes 0. */
  function AsNumbers(numeros: seq<Option<int>>): (r: seq<int>)
    ensures |r| == |numeros| && forall k :: 0 <= k < |r| ==> r[k] == numeros[k].GetOr(0)
  {
    seq(|numeros|, k requires 0 <= k < |numeros| => numeros[k].GetOr(0))
  }

  /** `[t.num1, ..., t.num6, t.bonus]`; num7 is not read. */
  function Drawn(t: Tirage): seq<Option<int>> {
    [Num(t, 0), Num(t, 1), Num(t, 2), Num(t, 3), Num(t, 4), Num(t, 5), t.bonus]
  }

  /** `numeros.every((n) => tirageNums.includes(n))`; a NULL column matches no number. */
  predicate RowMatches(t: Tirage, ns: seq<int>) {
    forall k :: 0 <= k < |ns| ==> Some(ns[k]) in Drawn(t)
  }

  function MatchCount(rows: seq<Tirage>, ns: seq<int>): nat
    decreases |rows|
  {
    if rows == [] then 0
    else MatchCount(rows[..|rows| - 1], ns) + (if RowMatches(rows[|rows| - 1], ns) then 1 else 0)
  }

  /**
   * The loop of `calculerProbabilite`: `count` rows hold every requested
   * number, out of `total` rows read. The reported probability is
   * `count / total`, or 0 when no row was read.
   */
  method CountMatches(rows: seq<Tirage>, numeros: seq<Option<int>>, premium: bool) returns (count: nat, total: nat)
    ensures total == |Visible(rows, premium)|
    ensures count == MatchCount(Visible(rows, premium), AsNumbers(numeros))
  {
    var sel := Visible(rows, premium);
    var ns := AsNumbers(numeros);
    count := 0;
    for i := 0 to |sel|
      invariant count == MatchCount(sel[..i], ns)
    {
      assert sel[..i + 1][..i] == sel[..i];
      if RowMatches(sel[i], ns) {
        count := count + 1;
      }
    }
    assert sel[..|sel|] == sel;
    total := |sel|;
  }

  // ================================================================ Mutation.simulateDraw

  datatype Mode = Raw | Weighted | ZScore | Markov | Burst | Ai

  /** The `switch (mode)`: anything unknown falls back to the raw strategy. */
  function ModeOf(mode: string): Mode {
    if mode == "raw" then Raw
    else if mode == "weighted" then Weighted
    else if mode == "zscore" then ZScore
    else if mode == "markov" then Markov
    else if mode == "burst" then Burst
    else if mode == "ai" then Ai
    else Raw
  }

  /**
   * `WHERE premium=? ORDER BY date DESC LIMIT 100` bound with
   * `premium ? 1 : 0`: unlike the other resolvers, a premium request reads
   * premium rows only.
   */
  function Recent(rows: seq<Tirage>, premium: bool): seq<Tirage> {
    LimitOffset(OrderByDateDesc(Where(rows, [Some(PremiumIs(if premium then 1 else 0))])), 100, 0)
  }

  /** The selected columns `num1..num6, bonus` of each row. */
  function Projected(rows: seq<Tirage>): (r: seq<seq<Option<int>>>)
    ensures |r| == |rows| && forall k :: 0 <= k < |rows| ==> r[k] == Drawn(rows[k])
  {
    seq(|rows|, k requires 0 <= k < |rows| => Drawn(rows[k]))
  }

  const Strategies: seq<string> := ["equilibre", "agressif", "conservateur"]

  /**
   * `simulateDraw`: the chosen strategy drawn once per strategy type on the
   * recent rows, each draw sorted ascending (`sort((a, b) => a - b)`). The
   * randomised strategies themselves are the parameter `draw`.
   */
  method SimulateDraw(rows: seq<Tirage>, mode: string, premium: bool,
                      draw: (Mode, seq<seq<Option<int>>>, string) -> seq<int>)
    returns (results: map<string, seq<int>>)
    ensures results.Keys == set s | s in Strategies
    ensures forall s :: s in results ==>
      && Ascending(results[s])
      && multiset(results[s]) == multiset(draw(ModeOf(mode), Projected(Recent(rows, premium)), s))
  {
    var tirages := Projected(Recent(rows, premium));
    var strategyFn := ModeOf(mode);
    results := map[];
    for i := 0 to |Strategies|
      invariant results.Keys == set s | s in Strategies[..i]
      invariant forall s :: s in results ==>
        && Ascending(results[s])
        && multiset(results[s]) == multiset(draw(strategyFn, tirages, s))
    {
      var tirage := draw(strategyFn, tirages, Strategies[i]);
      SortAscMeaning(tirage);
      assert Strategies[..i + 1] == Strategies[..i] + [Strategies[i]];
      results := results[Strategies[i] := SortAsc(tirage)];
    }
    assert Strategies[..|Strategies|] == Strategies;
  }

  // ================================================================ sorting numbers

  predicate Ascending(s: seq<int>) {
    forall i, j :: 0 <= i < j < |s| ==> s[i] <= s[j]
  }

  predicate NoDup<T(==)>(s: seq<T>) {
    forall i, j :: 0 <= i < j < |s| ==> s[i] != s[j]
  }

  function InsertAsc(x: int, s: seq<int>): seq<int>
    decreases |s|
  {
    if s == [] || x <= s[0] then [x] + s else [s[0]] + InsertAsc(x, s[1..])
  }

  /** `Array.prototype.sort` with the comparator `(a, b) => a - b`. */
  function SortAsc(s: seq<int>): seq<int>
    decreases |s|
  {
    if s == [] then [] else InsertAsc(s[0], SortAsc(s[1..]))
  }

  // ================================================================ lemmas

  lemma {:induction false} WhereMeaning(rows: seq<Tirage>, fs: seq<Cond>)
    ensures forall t :: multiset(Where(rows, fs))[t] == if HoldsAll(fs, t) then multiset(rows)[t] else 0
    ensures forall t :: t in Where(rows, fs) <==> t in rows && HoldsAll(fs, t)
    decreases |rows|
  {
    if rows != [] {
      var init := rows[..|rows| - 1];
      var last := rows[|rows| - 1];
      WhereMeaning(init, fs);
      assert rows == init + [last];
      assert multiset(rows) == multiset(init) + multiset{last};
    }
  }

  lemma {:induction false} InsertByDateElements(t: Tirage, s: seq<Tirage>)
    ensures multiset(InsertByDate(t, s)) == multiset(s) + multiset{t}
    decreases |s|
  {
    if s != [] && StrLess(t.date, s[0].date) {
      InsertByDateElements(t, s[1..]);
      assert s == [s[0]] + s[1..];
    }
  }

  lemma InsertByDateMeaning(t: Tirage, s: seq<Tirage>)
    requires NewestFirst(s)
    ensures NewestFirst(InsertByDate(t, s))
    ensures multiset(InsertByDate(t, s)) == multiset(s) + multiset{t}
  {
    InsertByDateElements(t, s);
    InsertByDateSorted(t, s);
  }

  lemma {:induction false} InsertByDateSorted(t: Tirage, s: seq<Tirage>)
    requires NewestFirst(s)
    ensures NewestFirst(InsertByDate(t, s))
    decreases |s|
  {
    var r := InsertByDate(t, s);
    if s == [] || !StrLess(t.date, s[0].date) {
      assert r == [t] + s;
      forall i, j | 0 <= i < j < |r| ensures !StrLess(r[i].date, r[j].date) {
        if i == 0 {
          assert r[j] == s[j - 1];
          if j > 1 { NotLessTransitive(t.date, s[0].date, s[j - 1].date); }
        } else {
          assert r[i] == s[i - 1] && r[j] == s[j - 1];
        }
      }
    } else {
      var tail := s[1..];
      assert NewestFirst(tail) by {
        forall i, j | 0 <= i < j < |tail| ensures !StrLess(tail[i].date, tail[j].date) {
          assert tail[i] == s[i + 1] && tail[j] == s[j + 1];
        }
      }
      var rest := InsertByDate(t, tail);
      InsertByDateSorted(t, tail);
      InsertByDateElements(t, tail);
      assert r == [s[0]] + rest;
      forall i, j | 0 <= i < j < |r| ensures !StrLess(r[i].date, r[j].date) {
        if i == 0 {
          assert r[j] == rest[j - 1] && rest[j - 1] in multiset(rest);
          NotBeforeHead(t, s, rest[j - 1]);
        } else {
          assert r[i] == rest[i - 1] && r[j] == rest[j - 1];
        }
      }
    }
  }

  /** An element of `s[1..]` or a `t` dated after `s[0]` is not dated after `s[0]`. */
  lemma NotBeforeHead(t: Tirage, s: seq<Tirage>, x: Tirage)
    requires NewestFirst(s) && s != [] && StrLess(t.date, s[0].date)
    requires x in multiset(s[1..]) + multiset{t}
    ensures !StrLess(s[0].date, x.date)
  {
    if x == t {
      if StrLess(s[0].date, t.date) {
        StrLessTransitive(t.date, s[0].date, t.date);
        StrLessIrreflexive(t.date);
      }
    } else {
      assert x in s[1..];
      var j :| 0 <= j < |s[1..]| && s[1..][j] == x;
      assert s[j + 1] == x;
    }
  }

  /** `a` not before `b`, `b` not before `c`: `a` not before `c`. */
  lemma NotLessTransitive(a: string, b: string, c: string)
    requires !StrLess(a, b) && !StrLess(b, c)
    ensures !StrLess(a, c)
  {
    if StrLess(a, c) {
      if a != b { StrLessTotal(a, b); StrLessTransitive(b, a, c); }
      if b != c { StrLessTotal(b, c); StrLessTransitive(c, b, c); StrLessIrreflexive(c); }
      else { StrLessIrreflexive(c); }
    }
  }

  lemma {:induction false} OrderByDateDescMeaning(s: seq<Tirage>)
    ensures NewestFirst(OrderByDateDesc(s))
    ensures multiset(OrderByDateDesc(s)) == multiset(s)
    decreases |s|
  {
    if s != [] {
      OrderByDateDescMeaning(s[1..]);
      InsertByDateMeaning(s[0], OrderByDateDesc(s[1..]));
      assert s == [s[0]] + s[1..];
    }
  }

  lemma {:induction false} HolesAppend(p: seq<Piece>, q: seq<Piece>)
    ensures Holes(p + q) == Holes(p) + Holes(q)
    decreases |q|
  {
    if q == [] {
      assert p + q == p;
    } else {
      var init := q[..|q| - 1];
      HolesAppend(p, init);
      assert (p + q)[..|p + q| - 1] == p + init;
    }
  }

  lemma PiecesPlaceholders(c: Cond)
    ensures Holes(SlotPieces(c)) == |SlotBind(c)|
  {
    match c
    case None =>
    case Some(f) =>
      match f
      case PremiumIs(v) =>
        assert Holes(Pieces(f)) == Holes([]) + 0;
      case DateIs(_) =>
        assert Pieces(f)[..1] == [Pieces(f)[0]];
        assert Holes(Pieces(f)) == Holes([Pieces(f)[0]]) + 1;
      case YearIs(_) =>
        assert Pieces(f)[..1] == [Pieces(f)[0]];
        assert Holes(Pieces(f)) == Holes([Pieces(f)[0]]) + 1;
      case MonthIs(_) =>
        assert Pieces(f)[..1] == [Pieces(f)[0]];
        assert Holes(Pieces(f)) == Holes([Pieces(f)[0]]) + 1;
  }

  lemma OrderLimitPlaceholders()
    ensures Holes(OrderLimit) == 2 && OrderLimit[|OrderLimit| - 1] == Hole
  {
    var q := OrderLimit;
    assert q[..1] == [q[0]] && q[..1][..0] == [];
    assert Holes(q[..1]) == 0;
    assert q[..2][..1] == q[..1];
    assert Holes(q[..2]) == 1;
    assert q[..3][..2] == q[..2];
    assert Holes(q[..3]) == 1;
    assert q[..4][..3] == q[..3] && q[..4] == q;
  }

  lemma {:induction false} PrefixPlaceholders(fs: seq<Cond>)
    ensures Holes(Prefix(fs)) == |Binds(fs)|
    decreases |fs|
  {
    if fs != [] {
      PrefixPlaceholders(fs[..|fs| - 1]);
      PiecesPlaceholders(fs[|fs| - 1]);
      HolesAppend(Prefix(fs[..|fs| - 1]), SlotPieces(fs[|fs| - 1]));
    } else {
      assert Holes([Words(Select)]) == Holes([]) + 0;
    }
  }

  /**
   * Every `?` of the query of `tirages` has its parameter: one per optional
   * condition, then the limit and the offset, which fill the last two.
   */
  lemma PlaceholdersMatch(a: TiragesArgs)
    ensures Holes(Query(Filters(a))) == |TiragesParams(a)|
    ensures var p := TiragesParams(a); p[|p| - 2] == PInt(Limit(a)) && p[|p| - 1] == PInt(Offset(a))
    ensures var q := Query(Filters(a)); q[|q| - 1] == Hole
  {
    OrderLimitPlaceholders();
    PrefixPlaceholders(Filters(a));
    HolesAppend(Prefix(Filters(a)), OrderLimit);
  }

  /**
   * With no argument given, `tirages` appends only the premium condition
   * and binds only the default page: ten rows from the first.
   */
  lemma DefaultQuery()
    ensures var a := TiragesArgs(None, None, None, None, None, None);
      && Query(Filters(a)) == [Words(Select)] + Pieces(PremiumIs(0)) + OrderLimit
      && TiragesParams(a) == [PInt(10), PInt(0)]
  {
    var fs := Filters(TiragesArgs(None, None, None, None, None, None));
    assert fs == [Some(PremiumIs(0)), None, None, None];
    assert fs[..1][..0] == [];
    assert Prefix(fs[..1]) == [Words(Select)] + Pieces(PremiumIs(0));
    assert Binds(fs[..1]) == [];
    assert fs[..2][..1] == fs[..1];
    assert Prefix(fs[..2]) == Prefix(fs[..1]) && Binds(fs[..2]) == [];
    assert fs[..3][..2] == fs[..2];
    assert Prefix(fs[..3]) == Prefix(fs[..1]) && Binds(fs[..3]) == [];
    assert fs[..4][..3] == fs[..3] && fs[..4] == fs;
  }

  /**
   * The rows the conditions of `tirages` let through: no premium row
   * unless premium is asked for, and the given date, year and month when
   * `date`, `year` and `month` count as given.
   */
  lemma FiltersMeaning(a: TiragesArgs, t: Tirage)
    ensures HoldsAll(Filters(a), t) <==>
      && (Premium(a) || t.premium == 0)
      && (a.date.Some? && a.date.value != "" ==> t.date == a.date.value)
      && (a.year.Some? && a.year.value != 0 ==> StrfYear(t.date) == Some(IntToString(a.year.value)))
      && (a.month.Some? ==> StrfMonth(t.date) == Some(Calendar.Pad2(a.month.value + 1)))
  {
    var fs := Filters(a);
    assert fs == [fs[0], fs[1], fs[2], fs[3]];
  }

  /** A month index 0..11 is sent as the two digits of month + 1. */
  lemma MonthParam(month: int)
    requires 0 <= month <= 11
    ensures MonthText(month) == [DigitChar((month + 1) / 10), DigitChar((month + 1) % 10)]
  {
    Calendar.Pad2Digits(month + 1);
  }

  lemma FourDigits(y: int)
    requires 1000 <= y <= 9999
    ensures IntToString(y) == [DigitChar(y / 1000), DigitChar(y / 100 % 10), DigitChar(y / 10 % 10), DigitChar(y % 10)]
  {
    assert NatToString(y) == NatToString(y / 10) + [DigitChar(y % 10)];
    assert NatToString(y / 10) == NatToString(y / 100) + [DigitChar(y / 10 % 10)];
    assert y / 10 / 10 == y / 100 && y / 100 / 10 == y / 1000;
    assert NatToString(y / 100) == NatToString(y / 1000) + [DigitChar(y / 100 % 10)];
    assert NatToString(y / 1000) == [DigitChar(y / 1000)];
  }

  /** The four digits of a year, read back in pairs. */
  lemma YearPairs(y: int)
    requires 1000 <= y <= 9999
    ensures (y / 1000) * 10 + y / 100 % 10 == y / 100
    ensures (y / 10 % 10) * 10 + y % 10 == y % 100
    ensures (y / 100) * 100 + y % 100 == y
  {
    var a, b, c, e := y / 1000, y / 100 % 10, y / 10 % 10, y % 10;
    assert y / 10 == 100 * a + 10 * b + c by {
      assert y / 100 == 10 * a + b;
      assert y / 10 / 10 == y / 100;
    }
    assert y == 1000 * a + 100 * b + 10 * c + e;
    assert y / 100 == 10 * a + b;
    assert y % 100 == 10 * c + e;
  }

  /** The ten characters of `y-mm-dd`. */
  lemma DateChars(y: int, m: int, d: int)
    requires 1000 <= y <= 9999 && 1 <= m <= 12 && 1 <= d <= 31
    ensures Calendar.DateString(y, m, d) == [DigitChar(y / 1000), DigitChar(y / 100 % 10), DigitChar(y / 10 % 10),
      DigitChar(y % 10), '-', DigitChar(m / 10), DigitChar(m % 10), '-', DigitChar(d / 10), DigitChar(d % 10)]
  {
    FourDigits(y);
    Calendar.Pad2Digits(m);
    Calendar.Pad2Digits(d);
  }

  /** Ten characters made of eight digits and two dashes, read field by field. */
  lemma FieldsOf(s: string, y1: nat, y2: nat, y3: nat, y4: nat, m1: nat, m2: nat, d1: nat, d2: nat)
    requires y1 < 10 && y2 < 10 && y3 < 10 && y4 < 10 && m1 < 10 && m2 < 10 && d1 < 10 && d2 < 10
    requires s == [DigitChar(y1), DigitChar(y2), DigitChar(y3), DigitChar(y4), '-',
      DigitChar(m1), DigitChar(m2), '-', DigitChar(d1), DigitChar(d2)]
    ensures IsoDigits(s)
    ensures IsoYear(s) == (10 * y1 + y2) * 100 + 10 * y3 + y4
    ensures IsoMonth(s) == 10 * m1 + m2 && IsoDay(s) == 10 * d1 + d2
  {
  }

  /** A date the scrapers write is read with its own year, month and day. */
  lemma IsoOf(y: int, m: int, d: int)
    requires 1000 <= y <= 9999 && 1 <= m <= 12 && 1 <= d <= 31
    ensures var s := Calendar.DateString(y, m, d);
      && IsoShape(s) && IsoYear(s) == y && IsoMonth(s) == m && IsoDay(s) == d
      && s[..4] == IntToString(y) && s[5..7] == Calendar.Pad2(m)
  {
    var s := Calendar.DateString(y, m, d);
    DateChars(y, m, d);
    FourDigits(y);
    Calendar.Pad2Digits(m);
    YearPairs(y);
    FieldsOf(s, y / 1000, y / 100 % 10, y / 10 % 10, y % 10, m / 10, m % 10, d / 10, d % 10);
    assert s[..4] == IntToString(y);
    assert s[5..7] == Calendar.Pad2(m);
  }

  /** `strftime` reads back the year and the month of a date the scrapers write. */
  lemma ScrapedDateParts(y: int, m: int, d: int)
    requires 1000 <= y <= 9999 && 1 <= m <= 12 && 1 <= d <= Calendar.DaysInMonth(y, m)
    ensures StrfYear(Calendar.DateString(y, m, d)) == Some(IntToString(y))
    ensures StrfMonth(Calendar.DateString(y, m, d)) == Some(Calendar.Pad2(m))
  {
    IsoOf(y, m, d);
  }

  /** A day past the end of its month is read in the next month: `2025-02-30` is in March. */
  lemma DayPastMonthEnd(y: int, m: int, d: int)
    requires 1000 <= y <= 9999 && 1 <= m <= 12 && Calendar.DaysInMonth(y, m) < d <= 31
    ensures m < 12
    ensures StrfYear(Calendar.DateString(y, m, d)) == Some(IntToString(y))
    ensures StrfMonth(Calendar.DateString(y, m, d)) == Some(Calendar.Pad2(m + 1))
  {
    IsoOf(y, m, d);
  }

  /**
   * A draw filed under a date the scrapers produce is found by the year
   * condition of `tirages` for exactly its year, and by the month
   * condition for exactly its month (counted from 0, as the argument is).
   */
  lemma ScrapedDateFilters(t: Tirage, y: int, m: int, d: int)
    requires 1000 <= y <= 9999 && 1 <= m <= 12 && 1 <= d <= Calendar.DaysInMonth(y, m)
    requires t.date == Calendar.DateString(y, m, d)
    ensures forall z :: Holds(YearIs(z), t) <==> z == y
    ensures forall k :: 0 <= k <= 11 ==> (Holds(MonthIs(k), t) <==> k == m - 1)
  {
    ScrapedDateParts(y, m, d);
    forall z ensures Holds(YearIs(z), t) <==> z == y {
      ParseIntRoundTrip(z);
      ParseIntRoundTrip(y);
    }
    forall k | 0 <= k <= 11 ensures Holds(MonthIs(k), t) <==> k == m - 1 {
      MonthParam(k);
      Calendar.Pad2Digits(m);
      if MonthText(k) == Calendar.Pad2(m) {
        assert DigitChar((k + 1) / 10) == DigitChar(m / 10);
        assert DigitChar((k + 1) % 10) == DigitChar(m % 10);
      }
    }
  }

  /**
   * `SELECT ... WHERE <fs> ORDER BY date DESC LIMIT <limit> OFFSET <offset>`:
   * rows of the table that meet the conditions, newest first, a window of
   * some newest-first arrangement of all of them.
   */
  lemma AnswerMeaning(rows: seq<Tirage>, fs: seq<Cond>, limit: int, offset: int)
    ensures var r := LimitOffset(OrderByDateDesc(Where(rows, fs)), limit, offset);
      && NewestFirst(r)
      && (forall t :: t in r ==> t in rows && HoldsAll(fs, t))
      && (exists s :: NewestFirst(s) && multiset(s) == multiset(Where(rows, fs))
           && r == LimitOffset(s, limit, offset))
  {
    var matching := Where(rows, fs);
    var sorted := OrderByDateDesc(matching);
    WhereMeaning(rows, fs);
    OrderByDateDescMeaning(matching);
    LimitOffsetWindow(sorted, limit, offset);
    forall t | t in LimitOffset(sorted, limit, offset) ensures t in rows && HoldsAll(fs, t) {
      assert t in multiset(sorted);
    }
  }

  /** `LIMIT`/`OFFSET` keep a window of consecutive rows, so their order too. */
  lemma LimitOffsetWindow(s: seq<Tirage>, limit: int, offset: int)
    ensures forall t :: t in LimitOffset(s, limit, offset) ==> t in s
    ensures NewestFirst(s) ==> NewestFirst(LimitOffset(s, limit, offset))
  {
    var from := Skip(offset, |s|);
    var r := LimitOffset(s, limit, offset);
    forall t | t in r ensures t in s {
      var i :| 0 <= i < |r| && r[i] == t;
      assert r[i] == s[from + i];
    }
    if NewestFirst(s) {
      forall i, j | 0 <= i < j < |r| ensures !StrLess(r[i].date, r[j].date) {
        assert r[i] == s[from + i] && r[j] == s[from + j];
      }
    }
  }

  /** The first `offset` matching rows are skipped and at most `limit` kept. */
  lemma AnswerLength(rows: seq<Tirage>, fs: seq<Cond>, limit: int, offset: int)
    ensures var r := LimitOffset(OrderByDateDesc(Where(rows, fs)), limit, offset);
      && (limit >= 0 ==> |r| <= limit)
      && var n := |Where(rows, fs)|;
         |r| == (if limit < 0 || Skip(offset, n) + limit > n then n - Skip(offset, n) else limit)
  {
    var matching := Where(rows, fs);
    OrderByDateDescMeaning(matching);
    assert |OrderByDateDesc(matching)| == |multiset(matching)|;
  }

  /**
   * The rows `tirages` returns: rows of the table with no premium row
   * unless premium is asked for, on the given date, year and month, newest
   * first, the first `offset` of them skipped and at most `limit` kept. The
   * page is that window of some newest-first arrangement of all the
   * matching rows; which one, among rows of the same date, SQLite does not
   * promise.
   */
  lemma TiragesAnswerMeaning(rows: seq<Tirage>, a: TiragesArgs)
    ensures var r := TiragesAnswer(rows, a);
      && NewestFirst(r)
      && (forall t :: t in r ==>
            && t in rows
            && (Premium(a) || t.premium == 0)
            && (a.date.Some? && a.date.value != "" ==> t.date == a.date.value)
            && (a.year.Some? && a.year.value != 0 ==> StrfYear(t.date) == Some(IntToString(a.year.value)))
            && (a.month.Some? ==> StrfMonth(t.date) == Some(Calendar.Pad2(a.month.value + 1))))
      && (Limit(a) >= 0 ==> |r| <= Limit(a))
      && (exists s :: NewestFirst(s) && multiset(s) == multiset(Where(rows, Filters(a)))
           && r == LimitOffset(s, Limit(a), Offset(a)))
      && var n := |Where(rows, Filters(a))|;
         |r| == (if Limit(a) < 0 || Skip(Offset(a), n) + Limit(a) > n then n - Skip(Offset(a), n) else Limit(a))
  {
    var matching := Where(rows, Filters(a));
    OrderByDateDescMeaning(matching);
    assert TiragesAnswer(rows, a) == LimitOffset(OrderByDateDesc(matching), Limit(a), Offset(a));
    AnswerMeaning(rows, Filters(a), Limit(a), Offset(a));
    AnswerLength(rows, Filters(a), Limit(a), Offset(a));
    forall t | t in TiragesAnswer(rows, a) {
      FiltersMeaning(a, t);
    }
  }

  /** The tally holds exactly the values counted, each with its number of occurrences. */
  lemma {:induction false} TallyMeaning(vals: seq<int>)
    ensures forall n :: n in Tally(vals) <==> n in vals
    ensures forall n :: n in Tally(vals) ==> Tally(vals)[n] == multiset(vals)[n]
    decreases |vals|
  {
    if vals != [] {
      var init := vals[..|vals| - 1];
      TallyMeaning(init);
      assert vals == init + [vals[|vals| - 1]];
    }
  }

  lemma CountedInSnoc(vals: seq<int>, t: Tirage, k: nat)
    requires k <= 6
    ensures k == 0 ==> vals + CountedIn(t, k) == vals
    ensures k > 0 ==> vals + CountedIn(t, k) == vals + CountedIn(t, k - 1) + Truthy(Num(t, k - 1))
  {
  }

  /** `vals` without the occurrences of `x`. */
  function Without(vals: seq<int>, x: int): seq<int>
    decreases |vals|
  {
    if vals == [] then []
    else Without(vals[..|vals| - 1], x) + (if vals[|vals| - 1] == x then [] else [vals[|vals| - 1]])
  }

  lemma {:induction false} WithoutMeaning(vals: seq<int>, x: int)
    ensures |vals| == |Without(vals, x)| + multiset(vals)[x]
    ensures forall n :: multiset(Without(vals, x))[n] == if n == x then 0 else multiset(vals)[n]
    decreases |vals|
  {
    if vals != [] {
      var init := vals[..|vals| - 1];
      WithoutMeaning(init, x);
      assert vals == init + [vals[|vals| - 1]];
    }
  }

  /** `out` lists distinct numbers, each with its count in `vals`, and every value of `vals`. */
  ghost predicate Reports(out: seq<Occurrence>, vals: seq<int>) {
    && (forall i, j :: 0 <= i < j < |out| ==> out[i].number < out[j].number)
    && (forall k :: 0 <= k < |out| ==> out[k].count == multiset(vals)[out[k].number])
    && (forall n :: n in vals ==> exists k :: 0 <= k < |out| && out[k].number == n)
  }

  /** The counts add up to the number of values. */
  lemma {:induction false} SumOfCounts(out: seq<Occurrence>, vals: seq<int>)
    requires Reports(out, vals)
    ensures SumCounts(out) == |vals|
    decreases |out|
  {
    if out == [] {
      assert forall n :: n !in vals;
      NothingIn(vals);
    } else {
      var x := out[|out| - 1].number;
      WithoutMeaning(vals, x);
      ReportsRest(out, vals);
      SumOfCounts(out[..|out| - 1], Without(vals, x));
    }
  }

  lemma NothingIn(vals: seq<int>)
    requires forall n :: n !in vals
    ensures vals == []
  {
    if vals != [] {
      var x := HeadIn(vals);
      assert false;
    }
  }

  lemma HeadIn(vals: seq<int>) returns (x: int)
    requires vals != []
    ensures x in vals
  {
    x := vals[0];
  }

  /** Dropping the last entry of a report and the occurrences of its number. */
  lemma ReportsRest(out: seq<Occurrence>, vals: seq<int>)
    requires Reports(out, vals) && out != []
    ensures Reports(out[..|out| - 1], Without(vals, out[|out| - 1].number))
  {
    CoveredRest(out, vals);
    CountsRest(out, vals);
  }

  lemma CoveredRest(out: seq<Occurrence>, vals: seq<int>)
    requires Reports(out, vals) && out != []
    ensures var rest, others := out[..|out| - 1], Without(vals, out[|out| - 1].number);
      forall n :: n in others ==> exists k :: 0 <= k < |rest| && rest[k].number == n
  {
    var rest := out[..|out| - 1];
    var x := out[|out| - 1].number;
    var others := Without(vals, x);
    forall n | n in others ensures exists k :: 0 <= k < |rest| && rest[k].number == n {
      WithoutKeeps(vals, x, n);
      var k := ReportedAt(out, vals, n);
      assert k < |rest| && rest[k].number == n;
    }
  }

  /** What is left after removing `x` was there before, and is not `x`. */
  lemma WithoutKeeps(vals: seq<int>, x: int, n: int)
    requires n in Without(vals, x)
    ensures n in vals && n != x
  {
    WithoutMeaning(vals, x);
    assert n in multiset(Without(vals, x));
  }

  /** Where a report lists a value of `vals`. */
  lemma ReportedAt(out: seq<Occurrence>, vals: seq<int>, n: int) returns (k: nat)
    requires Reports(out, vals) && n in vals
    ensures k < |out| && out[k].number == n
  {
    k :| 0 <= k < |out| && out[k].number == n;
  }

  lemma CountsRest(out: seq<Occurrence>, vals: seq<int>)
    requires Reports(out, vals) && out != []
    ensures var rest, others := out[..|out| - 1], Without(vals, out[|out| - 1].number);
      forall k :: 0 <= k < |rest| ==> rest[k].count == multiset(others)[rest[k].number]
  {
    var rest := out[..|out| - 1];
    var x := out[|out| - 1].number;
    WithoutMeaning(vals, x);
    forall k | 0 <= k < |rest| ensures rest[k].count == multiset(Without(vals, x))[rest[k].number] {
      assert rest[k].number < x;
    }
  }

  lemma {:induction false} CountedSnoc(rows: seq<Tirage>, i: nat)
    requires i < |rows|
    ensures Counted(rows[..i + 1]) == Counted(rows[..i]) + CountedIn(rows[i], 6)
  {
    var p := rows[..i + 1];
    assert p[..|p| - 1] == rows[..i];
  }

  /** The counted values are exactly the non-zero, non-NULL num1..num6 of the rows read. */
  lemma {:induction false} CountedMeaning(rows: seq<Tirage>)
    ensures forall v :: v in Counted(rows) <==> v != 0 && exists t, k :: t in rows && 0 <= k < 6 && Num(t, k) == Some(v)
    decreases |rows|
  {
    if rows != [] {
      var init := rows[..|rows| - 1];
      var last := rows[|rows| - 1];
      assert rows == init + [last];
      CountedMeaning(init);
      forall v ensures v in Counted(rows) <==> v != 0 && exists t, k :: t in rows && 0 <= k < 6 && Num(t, k) == Some(v) {
        CountedInMeaning(last, 6, v);
        if v in Counted(init) {
          var t, k :| t in init && 0 <= k < 6 && Num(t, k) == Some(v);
          assert t in rows;
        } else if v in CountedIn(last, 6) {
          var k :| 0 <= k < 6 && Num(last, k) == Some(v);
          assert last in rows;
        }
        if v != 0 && exists t, k :: t in rows && 0 <= k < 6 && Num(t, k) == Some(v) {
          var t, k :| t in rows && 0 <= k < 6 && Num(t, k) == Some(v);
          if t != last {
            assert t in init;
          }
        }
      }
    }
  }

  /** The values counted in the first `n` columns of a row are exactly the non-zero, non-NULL ones. */
  lemma {:induction false} CountedInMeaning(t: Tirage, n: nat, v: int)
    requires n <= 6
    ensures v in CountedIn(t, n) <==> v != 0 && exists k :: 0 <= k < n && Num(t, k) == Some(v)
    decreases n
  {
    if n > 0 {
      CountedInMeaning(t, n - 1, v);
      if v != 0 && Num(t, n - 1) == Some(v) {
        assert v in Truthy(Num(t, n - 1));
      }
    }
  }

  lemma {:induction false} InsertAscElements(x: int, s: seq<int>)
    ensures multiset(InsertAsc(x, s)) == multiset(s) + multiset{x}
    decreases |s|
  {
    if s != [] && x > s[0] {
      InsertAscElements(x, s[1..]);
      assert s == [s[0]] + s[1..];
    }
  }

  lemma {:induction false} InsertAscMeaning(x: int, s: seq<int>)
    requires Ascending(s)
    ensures Ascending(InsertAsc(x, s))
    ensures multiset(InsertAsc(x, s)) == multiset(s) + multiset{x}
    decreases |s|
  {
    InsertAscElements(x, s);
    if s != [] && x > s[0] {
      var rest := InsertAsc(x, s[1..]);
      InsertAscMeaning(x, s[1..]);
      forall j | 0 <= j < |rest| ensures s[0] <= rest[j] {
        assert rest[j] in multiset(s[1..]) + multiset{x};
        if rest[j] != x {
          assert rest[j] in s[1..];
          var i :| 0 <= i < |s[1..]| && s[1..][i] == rest[j];
          assert s[i + 1] == rest[j];
        }
      }
      assert InsertAsc(x, s) == [s[0]] + rest;
    }
  }

  /** The sort returns its input in ascending order. */
  lemma {:induction false} SortAscMeaning(s: seq<int>)
    ensures Ascending(SortAsc(s))
    ensures multiset(SortAsc(s)) == multiset(s)
    decreases |s|
  {
    if s != [] {
      SortAscMeaning(s[1..]);
      InsertAscMeaning(s[0], SortAsc(s[1..]));
      assert s == [s[0]] + s[1..];
    }
  }

  /** Sorting distinct numbers gives them in strictly ascending order. */
  lemma {:induction false} SortAscDistinct(s: seq<int>)
    requires NoDup(s)
    ensures forall i, j :: 0 <= i < j < |SortAsc(s)| ==> SortAsc(s)[i] < SortAsc(s)[j]
    ensures forall x :: x in SortAsc(s) <==> x in s
    decreases |s|
  {
    SortAscMeaning(s);
    assert forall x :: x in SortAsc(s) <==> x in multiset(s);
    if s != [] {
      var tail := SortAsc(s[1..]);
      SortAscDistinct(s[1..]);
      assert s[0] !in s[1..];
      InsertDistinct(s[0], tail);
    }
  }

  lemma {:induction false} InsertDistinct(x: int, s: seq<int>)
    requires forall i, j :: 0 <= i < j < |s| ==> s[i] < s[j]
    requires x !in s
    ensures forall i, j :: 0 <= i < j < |InsertAsc(x, s)| ==> InsertAsc(x, s)[i] < InsertAsc(x, s)[j]
    ensures forall y :: y in InsertAsc(x, s) <==> y == x || y in s
    decreases |s|
  {
    assert s != [] ==> s == [s[0]] + s[1..];
    if s != [] && x > s[0] {
      var rest := InsertAsc(x, s[1..]);
      InsertDistinct(x, s[1..]);
      assert InsertAsc(x, s) == [s[0]] + rest;
      forall j | 0 <= j < |rest| ensures s[0] < rest[j] {
        if rest[j] != x {
          assert rest[j] in s[1..];
          var i :| 0 <= i < |s[1..]| && s[1..][i] == rest[j];
          assert s[i + 1] == rest[j];
        }
      }
    } else if s != [] {
      assert x != s[0];
    }
  }

  /** The first occurrences hold each value once, and every value. */
  lemma {:induction false} DistinctMeaning<T>(ds: seq<T>)
    ensures NoDup(Distinct(ds))
    ensures forall d :: d in Distinct(ds) <==> d in ds
    decreases |ds|
  {
    if ds != [] {
      var init := ds[..|ds| - 1];
      DistinctMeaning(init);
      assert ds == init + [ds[|ds| - 1]];
    }
  }

  /** `availableDates`: each date of a row read exactly once, and no other. */
  lemma AvailableDatesMeaning(rows: seq<Tirage>, premium: bool)
    ensures NoDup(AvailableDates(rows, premium))
    ensures forall d :: d in AvailableDates(rows, premium) <==>
      exists t :: t in rows && t.date == d && (premium || t.premium == 0)
  {
    var sel := Visible(rows, premium);
    DistinctMeaning(DatesOf(sel));
    VisibleMeaning(rows, premium);
    forall d ensures d in AvailableDates(rows, premium) <==> exists t :: t in rows && t.date == d && (premium || t.premium == 0) {
      if d in AvailableDates(rows, premium) {
        var k :| 0 <= k < |sel| && DatesOf(sel)[k] == d;
        assert sel[k] in sel;
      }
      if t :| t in rows && t.date == d && (premium || t.premium == 0) {
        var k :| 0 <= k < |sel| && sel[k] == t;
        assert DatesOf(sel)[k] == d;
      }
    }
  }

  /** The rows read without premium: the non-premium rows, each as often as in the table. */
  lemma VisibleMeaning(rows: seq<Tirage>, premium: bool)
    ensures forall t :: t in Visible(rows, premium) <==> t in rows && (premium || t.premium == 0)
    ensures forall t :: multiset(Visible(rows, premium))[t] == if premium || t.premium == 0 then multiset(rows)[t] else 0
  {
    var fs := [When(!premium, PremiumIs(0))];
    WhereMeaning(rows, fs);
    forall t ensures HoldsAll(fs, t) <==> premium || t.premium == 0 {
      assert HoldsAll(fs, t) <==> Admits(fs[0], t);
    }
  }

  /** No more matches than rows, and asking for no number matches every row. */
  lemma {:induction false} MatchCountBounds(rows: seq<Tirage>, ns: seq<int>)
    ensures MatchCount(rows, ns) <= |rows|
    ensures ns == [] ==> MatchCount(rows, ns) == |rows|
    decreases |rows|
  {
    if rows != [] {
      MatchCountBounds(rows[..|rows| - 1], ns);
    }
  }

  /** Asking for more numbers never matches more rows. */
  lemma {:induction false} MatchCountMonotone(rows: seq<Tirage>, ns: seq<int>, more: seq<int>)
    requires forall n :: n in ns ==> n in more
    ensures MatchCount(rows, more) <= MatchCount(rows, ns)
    decreases |rows|
  {
    if rows != [] {
      MatchCountMonotone(rows[..|rows| - 1], ns, more);
      var t := rows[|rows| - 1];
      if RowMatches(t, more) {
        forall k | 0 <= k < |ns| ensures Some(ns[k]) in Drawn(t) {
          assert ns[k] in ns;
          var j :| 0 <= j < |more| && more[j] == ns[k];
        }
      }
    }
  }

  /** The mode each name selects; every other name selects the raw strategy. */
  lemma ModeOfMeaning(mode: string)
    ensures ModeOf("raw") == Raw && ModeOf("weighted") == Weighted && ModeOf("zscore") == ZScore
    ensures ModeOf("markov") == Markov && ModeOf("burst") == Burst && ModeOf("ai") == Ai
    ensures mode !in {"raw", "weighted", "zscore", "markov", "burst", "ai"} ==> ModeOf(mode) == Raw
  {
  }

  /**
   * The rows a strategy sees: the 100 newest rows whose premium flag is
   * exactly as asked (all of them when there are fewer), newest first.
   */
  lemma RecentMeaning(rows: seq<Tirage>, premium: bool)
    ensures var r, fs := Recent(rows, premium), [Some(PremiumIs(if premium then 1 else 0))];
      && |r| <= 100
      && NewestFirst(r)
      && (forall t :: t in r ==> t in rows && t.premium == (if premium then 1 else 0))
      && (exists s :: NewestFirst(s) && multiset(s) == multiset(Where(rows, fs))
           && r == LimitOffset(s, 100, 0))
      && var n := |Where(rows, fs)|;
         |r| == (if n < 100 then n else 100)
  {
    var fs := [Some(PremiumIs(if premium then 1 else 0))];
    AnswerMeaning(rows, fs, 100, 0);
    AnswerLength(rows, fs, 100, 0);
    forall t | t in Recent(rows, premium) ensures t.premium == (if premium then 1 else 0) {
      assert Admits(fs[0], t);
    }
  }
}
