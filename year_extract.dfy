/**
 * The row extractor that `scrapeYear` runs in the page (`$$eval` over
 * `table tbody tr`) on a yearly archive page. Each row is read in one of two
 * layouts: the 2024 layout, where a div labelled "Tirage principal" is
 * followed by a div holding the numbers as spans, and the 2009-2023 layout,
 * with `.numerosGangnants.principal` and `.numerosGangnants.maximillions`
 * span lists.
 */
module YearExtract {
  import opened Wrappers
  import opened JsText

  /** A `div` inside a row's second cell: its trimmed-before-use innerText and the innerText of each `span` in it. */
  datatype Div = Div(text: string, spans: seq<string>)

  /** One `table tbody tr`, reduced to what the callback queries. */
  datatype Row = Row(
    titre: bool,                    // the row has class `titre`
    hasTh: bool,                    // the row contains a `th`
    dateText: Option<string>,       // innerText of its first `.date`, when there is one
    numbersCell: Option<seq<Div>>,  // every `div` of its second `td`, when it has two `td` or more
    principal: Option<seq<string>>, // spans of its first `.numerosGangnants.principal`
    maximillions: seq<seq<string>>) // spans of each `.numerosGangnants.maximillions`

  /** What the callback returns for a row: `{ date, nums, bonus, maxMillions }`; `bonus` None is null. */
  datatype YearRecord = YearRecord(date: string, nums: seq<Token>, bonus: Option<Token>, maxMillions: seq<seq<Token>>)

  /** `divs[idxPrincipal + 1]` is undefined: the callback throws and `$$eval` rejects for the whole page. */
  datatype ExtractError = NoDivAfterLabel

  const MainLabel := "tirage principal"
  const MaxLabel := "maxmillions"

  /** `parseInt(s.innerText.trim(), 10)`. */
  function ParseSpan(s: string): Token {
    ParseInt10(Trim(s))
  }

  function ParseSpans(spans: seq<string>): (r: seq<Token>)
    ensures |r| == |spans| && forall i :: 0 <= i < |spans| ==> r[i] == ParseSpan(spans[i])
  {
    seq(|spans|, i requires 0 <= i < |spans| => ParseSpan(spans[i]))
  }

  /** `.filter((n) => !isNaN(n))`. */
  function Parseable(toks: seq<Token>): (r: seq<Token>)
    ensures forall i :: 0 <= i < |r| ==> r[i].Some?
    ensures |r| <= |toks|
  {
    if toks == [] then []
    else (if toks[0].Some? then [toks[0]] else []) + Parseable(toks[1..])
  }

  /** `.slice(0, n)`. */
  function Take<T>(s: seq<T>, n: nat): (r: seq<T>)
    ensures |r| == if |s| <= n then |s| else n
  {
    if |s| <= n then s else s[..n]
  }

  /** `x.toLowerCase().includes(needle)` on the trimmed innerText of the div. */
  predicate Labelled(d: Div, needle: string) {
    ContainsIgnoringCase(Trim(d.text), needle)
  }

  /** Whether each div is labelled with `needle`. */
  function LabelFlags(divs: seq<Div>, needle: string): (r: seq<bool>)
    ensures |r| == |divs| && forall i :: 0 <= i < |divs| ==> r[i] == Labelled(divs[i], needle)
  {
    seq(|divs|, i requires 0 <= i < |divs| => Labelled(divs[i], needle))
  }

  /** `findIndex(...)` over the divs: the first labelled one, or -1. */
  function FindLabel(divs: seq<Div>, needle: string): (r: int)
    ensures -1 <= r < |divs|
    ensures r >= 0 ==> Labelled(divs[r], needle)
    ensures forall j :: 0 <= j < |divs| && (r == -1 || j < r) ==> !Labelled(divs[j], needle)
  {
    FirstTrue(LabelFlags(divs, needle))
  }

  /**
   * The Maxmillions loop: each span list is parsed without dropping NaN and
   * kept when it has exactly seven entries.
   */
  function SevenSets(lists: seq<seq<string>>): seq<seq<Token>>
    decreases |lists|
  {
    if lists == [] then []
    else
      var rest := SevenSets(lists[..|lists| - 1]);
      var last := lists[|lists| - 1];
      if |last| == 7 then rest + [ParseSpans(last)] else rest
  }

  function SpanLists(divs: seq<Div>): (r: seq<seq<string>>)
    ensures |r| == |divs| && forall i :: 0 <= i < |divs| ==> r[i] == divs[i].spans
  {
    seq(|divs|, i requires 0 <= i < |divs| => divs[i].spans)
  }

  /** 2024 layout: the spans after the label, parsed, NaN dropped, first seven. */
  function MainNumbers(spans: seq<string>): seq<Token> {
    Take(Parseable(ParseSpans(spans)), 7)
  }

  /** 2024 layout: `[...principalSpans][7]`, parsed on its own, when it exists. */
  function MainBonus(spans: seq<string>): Option<Token> {
    if |spans| > 7 then Some(ParseSpan(spans[7])) else None
  }

  /** 2024 layout: the seven-span divs after the first div labelled "maxmillions", if any. */
  function TrailingSets(divs: seq<Div>): seq<seq<Token>> {
    var maxIndex := FindLabel(divs, MaxLabel);
    if maxIndex == -1 then [] else SevenSets(SpanLists(divs[maxIndex + 1..]))
  }

  /** The 2024 layout, the label "tirage principal" being the div at `labelAt`. */
  function NewLayout(date: string, divs: seq<Div>, labelAt: nat): Result<YearRecord, ExtractError>
    requires labelAt < |divs|
  {
    if labelAt + 1 >= |divs| then Failure(NoDivAfterLabel)
    else
      var spans := divs[labelAt + 1].spans;
      Success(YearRecord(date, MainNumbers(spans), MainBonus(spans), TrailingSets(divs)))
  }

  /** `spans[7] || null`: a missing span, NaN and 0 are all falsy. */
  function LegacyBonus(toks: seq<Token>): Option<Token> {
    if |toks| > 7 && toks[7].Some? && toks[7].value != 0 then Some(toks[7]) else None
  }

  /** The 2009-2023 layout. */
  function Legacy(date: string, row: Row): Option<YearRecord> {
    match row.principal
    case None => None
    case Some(spans) =>
      var toks := ParseSpans(spans);
      Some(YearRecord(date, Take(toks, 7), LegacyBonus(toks), SevenSets(row.maximillions)))
  }

  /** `dateNode ? dateNode.innerText.trim() : null`; the empty string counts as no date. */
  function RowDate(row: Row): string {
    if row.dateText.Some? then Trim(row.dateText.value) else ""
  }

  predicate IsHeader(row: Row) {
    row.titre || row.hasTh
  }

  /** The callback of `rows.map(...)`: `Success(None)` is its `return null`. */
  function RowRecord(row: Row): Result<Option<YearRecord>, ExtractError> {
    if IsHeader(row) || RowDate(row) == "" then Success(None)
    else if row.numbersCell.Some? && FindLabel(row.numbersCell.value, MainLabel) != -1 then
      match NewLayout(RowDate(row), row.numbersCell.value, FindLabel(row.numbersCell.value, MainLabel))
      case Failure(e) => Failure(e)
      case Success(r) => Success(Some(r))
    else Success(Legacy(RowDate(row), row))
  }

  /** `rows.map(...).filter(Boolean)`; a row that throws rejects the whole evaluation. */
  function PageRecords(rows: seq<Row>): Result<seq<YearRecord>, ExtractError>
    decreases |rows|
  {
    if rows == [] then Success([])
    else
      match PageRecords(rows[..|rows| - 1])
      case Failure(e) => Failure(e)
      case Success(rs) =>
        match RowRecord(rows[|rows| - 1])
        case Failure(e) => Failure(e)
        case Success(None) => Success(rs)
        case Success(Some(r)) => Success(rs + [r])
  }

  // ================================================================ the extraction, as it runs

  /** The `forEach` that pushes every seven-span list into `maxMillions`. */
  method CollectSevens(lists: seq<seq<string>>) returns (sets: seq<seq<Token>>)
    ensures sets == SevenSets(lists)
    ensures forall k :: 0 <= k < |sets| ==> |sets[k]| == 7
  {
    sets := [];
    var i := 0;
    while i < |lists|
      invariant 0 <= i <= |lists|
      invariant sets == SevenSets(lists[..i])
    {
      var vals := ParseSpans(lists[i]);
      if |vals| == 7 {
        sets := sets + [vals];
      }
      assert lists[..i + 1][..i] == lists[..i];
      i := i + 1;
    }
    assert lists[..i] == lists;
    SevenSetsHaveSeven(lists);
  }

  /** The row callback. */
  method ExtractRow(row: Row) returns (r: Result<Option<YearRecord>, ExtractError>)
    ensures r == RowRecord(row)
  {
    if IsHeader(row) {
      return Success(None);
    }
    var date := RowDate(row);
    if date == "" {
      return Success(None);
    }
    if row.numbersCell.Some? {
      var divs := row.numbersCell.value;
      var idxPrincipal := FindLabel(divs, MainLabel);
      if idxPrincipal != -1 {
        var one := ExtractNewLayout(date, divs, idxPrincipal);
        if one.Failure? {
          return Failure(one.error);
        }
        return Success(Some(one.value));
      }
    }
    var legacy := ExtractLegacy(date, row);
    return Success(legacy);
  }

  /** The 2024 layout branch of the row callback. */
  method ExtractNewLayout(date: string, divs: seq<Div>, idxPrincipal: nat) returns (r: Result<YearRecord, ExtractError>)
    requires idxPrincipal < |divs|
    ensures r == NewLayout(date, divs, idxPrincipal)
  {
    if idxPrincipal + 1 >= |divs| {
      return Failure(NoDivAfterLabel);
    }
    var principalSpans := divs[idxPrincipal + 1].spans;
    var nums := MainNumbers(principalSpans);
    var bonus := MainBonus(principalSpans);
    var maxMillions: seq<seq<Token>>;
    var maxIndex := FindLabel(divs, MaxLabel);
    if maxIndex == -1 {
      maxMillions := [];
    } else {
      maxMillions := CollectSevens(SpanLists(divs[maxIndex + 1..]));
    }
    assert maxMillions == TrailingSets(divs);
    var record := YearRecord(date, nums, bonus, maxMillions);
    assert NewLayout(date, divs, idxPrincipal) == Success(record);
    return Success(record);
  }

  /** The 2009-2023 layout branch of the row callback. */
  method ExtractLegacy(date: string, row: Row) returns (r: Option<YearRecord>)
    ensures r == Legacy(date, row)
  {
    if row.principal.None? {
      return None;
    }
    var spans := ParseSpans(row.principal.value);
    var maxMillions := CollectSevens(row.maximillions);
    return Some(YearRecord(date, Take(spans, 7), LegacyBonus(spans), maxMillions));
  }

  /** The whole `$$eval`: the records of the page in row order, or the page-level failure. */
  method ExtractPage(rows: seq<Row>) returns (r: Result<seq<YearRecord>, ExtractError>)
    ensures r == PageRecords(rows)
    ensures r.Success? ==> |r.value| <= |rows|
    ensures r.Success? ==> forall k :: 0 <= k < |r.value| ==> r.value[k].date != "" && RecordShape(r.value[k])
  {
    var records: seq<YearRecord> := [];
    var i := 0;
    while i < |rows|
      invariant 0 <= i <= |rows|
      invariant PageRecords(rows[..i]) == Success(records)
    {
      assert rows[..i + 1][..i] == rows[..i];
      assert rows[..i + 1][i] == rows[i];
      var one := ExtractRow(rows[i]);
      if one.Failure? {
        PageFailureSticks(rows, i + 1);
        return Failure(one.error);
      }
      if one.value.Some? {
        records := records + [one.value.value];
      }
      i := i + 1;
    }
    assert rows[..i] == rows;
    PageRecordsShape(rows);
    r := Success(records);
  }

  // ================================================================ lemmas

  /** Every record has at most seven main numbers and only seven-number Maxmillions sets. */
  predicate RecordShape(r: YearRecord) {
    |r.nums| <= 7 && forall k :: 0 <= k < |r.maxMillions| ==> |r.maxMillions[k]| == 7
  }

  lemma {:induction false} SevenSetsHaveSeven(lists: seq<seq<string>>)
    ensures forall k :: 0 <= k < |SevenSets(lists)| ==> |SevenSets(lists)[k]| == 7
    decreases |lists|
  {
    if lists != [] { SevenSetsHaveSeven(lists[..|lists| - 1]); }
  }

  /**
   * A Maxmillions set is the parse of a span list of exactly seven entries,
   * and every such list gives one, in order.
   */
  lemma {:induction false} SevenSetsMeaning(lists: seq<seq<string>>)
    ensures forall x :: x in SevenSets(lists) <==> exists i :: 0 <= i < |lists| && |lists[i]| == 7 && x == ParseSpans(lists[i])
    decreases |lists|
  {
    if lists != [] {
      var init := lists[..|lists| - 1];
      SevenSetsMeaning(init);
      forall x ensures x in SevenSets(lists) <==> exists i :: 0 <= i < |lists| && |lists[i]| == 7 && x == ParseSpans(lists[i]) {
        if x in SevenSets(init) {
          var i :| 0 <= i < |init| && |init[i]| == 7 && x == ParseSpans(init[i]);
          assert lists[i] == init[i];
        }
        if exists i :: 0 <= i < |lists| && |lists[i]| == 7 && x == ParseSpans(lists[i]) {
          var i :| 0 <= i < |lists| && |lists[i]| == 7 && x == ParseSpans(lists[i]);
          if i < |lists| - 1 { assert init[i] == lists[i]; }
        }
      }
    }
  }

  lemma {:induction false} PageRecordsShape(rows: seq<Row>)
    ensures PageRecords(rows).Success? ==> |PageRecords(rows).value| <= |rows|
    ensures PageRecords(rows).Success? ==> forall k :: 0 <= k < |PageRecords(rows).value| ==>
      PageRecords(rows).value[k].date != "" && RecordShape(PageRecords(rows).value[k])
    decreases |rows|
  {
    if rows != [] {
      PageRecordsShape(rows[..|rows| - 1]);
      RowRecordShape(rows[|rows| - 1]);
    }
  }

  /** Header rows and rows without a date give nothing; a record carries its row's date. */
  lemma SkippedRow(row: Row)
    ensures IsHeader(row) || RowDate(row) == "" ==> RowRecord(row) == Success(None)
    ensures RowRecord(row).Success? && RowRecord(row).value.Some? ==> RowRecord(row).value.value.date == RowDate(row)
  {
  }

  lemma RowRecordShape(row: Row)
    ensures RowRecord(row).Success? && RowRecord(row).value.Some? ==>
      RowRecord(row).value.value.date != "" && RecordShape(RowRecord(row).value.value)
  {
    if NewLayoutRow(row) {
      NewLayoutRecord(row);
      TrailingSetsShape(row.numbersCell.value);
    } else if !IsHeader(row) && RowDate(row) != ""
      && !(row.numbersCell.Some? && FindLabel(row.numbersCell.value, MainLabel) != -1)
    {
      assert RowRecord(row) == Success(Legacy(RowDate(row), row));
      SevenSetsHaveSeven(row.maximillions);
    } else if !IsHeader(row) && RowDate(row) != "" {
      assert RowRecord(row) == Failure(NoDivAfterLabel);
    }
  }

  lemma TrailingSetsShape(divs: seq<Div>)
    ensures forall k :: 0 <= k < |TrailingSets(divs)| ==> |TrailingSets(divs)[k]| == 7
  {
    var m := FindLabel(divs, MaxLabel);
    if m != -1 { SevenSetsHaveSeven(SpanLists(divs[m + 1..])); }
  }

  /** Once a row has thrown, the evaluation of every longer prefix of the page fails too. */
  lemma {:induction false} PageFailureSticks(rows: seq<Row>, n: nat)
    requires 0 < n <= |rows| && RowRecord(rows[n - 1]).Failure?
    ensures PageRecords(rows) == Failure(NoDivAfterLabel)
    decreases |rows|
  {
    if n < |rows| {
      var init := rows[..|rows| - 1];
      assert init[n - 1] == rows[n - 1];
      PageFailureSticks(init, n);
    } else {
      var init := rows[..|rows| - 1];
      assert init == rows[..n - 1];
      if PageRecords(init).Failure? {
        OnlyNoDivAfterLabel(PageRecords(init).error);
      } else {
        OnlyNoDivAfterLabel(RowRecord(rows[n - 1]).error);
      }
    }
  }

  lemma OnlyNoDivAfterLabel(e: ExtractError)
    ensures e == NoDivAfterLabel
  {
  }

  /** Rows in the 2024 layout: a "Tirage principal" label followed by a div of numbers. */
  predicate NewLayoutRow(row: Row) {
    && !IsHeader(row) && RowDate(row) != ""
    && row.numbersCell.Some?
    && 0 <= FindLabel(row.numbersCell.value, MainLabel) < |row.numbersCell.value| - 1
  }

  function PrincipalSpans(row: Row): seq<string>
    requires NewLayoutRow(row)
  {
    row.numbersCell.value[FindLabel(row.numbersCell.value, MainLabel) + 1].spans
  }

  /** The filter keeps order: the numbers of `a + b` are those of `a`, then those of `b`. */
  lemma {:induction false} ParseableAppend(a: seq<Token>, b: seq<Token>)
    ensures Parseable(a + b) == Parseable(a) + Parseable(b)
    decreases |a|
  {
    if a == [] {
      assert a + b == b;
    } else {
      assert (a + b)[0] == a[0] && (a + b)[1..] == a[1..] + b;
      ParseableAppend(a[1..], b);
    }
  }

  /** A number passes the filter and a NaN does not. */
  lemma ParseableOne(t: Token)
    ensures Parseable([t]) == if t.Some? then [t] else []
  {
    assert [t][1..] == [];
  }

  /** The filter drops exactly the NaNs: as many numbers are left as are not NaN. */
  lemma {:induction false} ParseableCount(toks: seq<Token>)
    ensures |Parseable(toks)| == |toks| - multiset(toks)[None]
    decreases |toks|
  {
    if toks != [] {
      ParseableCount(toks[1..]);
      assert toks == [toks[0]] + toks[1..];
      assert multiset(toks) == multiset{toks[0]} + multiset(toks[1..]);
    }
  }

  lemma {:induction false} ParseablePrefix(toks: seq<Token>, n: nat)
    requires n <= |toks|
    ensures |Parseable(toks[..n])| <= |Parseable(toks)|
    ensures Parseable(toks[..n]) == Parseable(toks)[..|Parseable(toks[..n])|]
    decreases |toks|
  {
    if n > 0 {
      assert toks[..n][1..] == toks[1..][..n - 1];
      ParseablePrefix(toks[1..], n - 1);
    }
  }

  /** A row in the 2024 layout yields the record that `NewLayout` builds from the div after the label. */
  lemma NewLayoutRecord(row: Row)
    requires NewLayoutRow(row)
    ensures RowRecord(row) == Success(Some(YearRecord(RowDate(row), MainNumbers(PrincipalSpans(row)),
      MainBonus(PrincipalSpans(row)), TrailingSets(row.numbersCell.value))))
  {
    var divs := row.numbersCell.value;
    var at := FindLabel(divs, MainLabel);
    var spans := divs[at + 1].spans;
    var rec := YearRecord(RowDate(row), MainNumbers(spans), MainBonus(spans), TrailingSets(divs));
    assert NewLayout(RowDate(row), divs, at) == Success(rec);
  }

  /**
   * 2024 layout, main numbers: the first seven (or fewer) spans of the div
   * after the label that parse, the others being dropped before counting;
   * there are seven of them exactly when at least seven spans are not NaN.
   */
  lemma NewLayoutNumbers(spans: seq<string>)
    ensures var nums := MainNumbers(spans);
      var parsed := Parseable(ParseSpans(spans));
      && (forall k :: 0 <= k < |nums| ==> nums[k].Some?)
      && nums == parsed[..|nums|]
      && |nums| == (if |parsed| >= 7 then 7 else |parsed|)
      && (|nums| == 7 <==> |spans| - multiset(ParseSpans(spans))[None] >= 7)
  {
    ParseableCount(ParseSpans(spans));
  }

  /**
   * 2024 layout, bonus: the raw span at index 7 of the numbers div, parsed
   * on its own, whether or not earlier spans were NaN; null when that div
   * has fewer than eight spans.
   */
  lemma NewLayoutBonus(row: Row)
    requires NewLayoutRow(row)
    ensures RowRecord(row).Success? && RowRecord(row).value.Some?
    ensures RowRecord(row).value.value.bonus ==
      if |PrincipalSpans(row)| >= 8 then Some(ParseSpan(PrincipalSpans(row)[7])) else None
  {
    NewLayoutRecord(row);
  }

  /** A "Tirage principal" label in the last div of the cell makes the whole page fail. */
  lemma LabelInLastDivFails(row: Row)
    requires !IsHeader(row) && RowDate(row) != "" && row.numbersCell.Some? && row.numbersCell.value != []
    requires FindLabel(row.numbersCell.value, MainLabel) == |row.numbersCell.value| - 1
    ensures RowRecord(row) == Failure(NoDivAfterLabel)
    ensures forall rows: seq<Row> :: row in rows ==> PageRecords(rows).Failure?
  {
    forall rows: seq<Row> | row in rows ensures PageRecords(rows).Failure? {
      var i :| 0 <= i < |rows| && rows[i] == row;
      PageFailureSticks(rows, i + 1);
    }
  }

  /**
   * Legacy layout: no `.principal` element means no record; otherwise the
   * main numbers are the first seven spans as parsed (NaN kept), and the
   * bonus is the eighth unless it is missing, 0 or NaN.
   */
  lemma LegacyLayout(row: Row)
    requires !IsHeader(row) && RowDate(row) != ""
    requires row.numbersCell.None? || FindLabel(row.numbersCell.value, MainLabel) == -1
    ensures row.principal.None? ==> RowRecord(row) == Success(None)
    ensures row.principal.Some? ==>
      var toks := ParseSpans(row.principal.value);
      && RowRecord(row).Success? && RowRecord(row).value.Some?
      && RowRecord(row).value.value.nums == toks[..if |toks| <= 7 then |toks| else 7]
      && (RowRecord(row).value.value.bonus.Some? <==> |toks| >= 8 && toks[7].Some? && toks[7] != Some(0))
      && (RowRecord(row).value.value.bonus.Some? ==> RowRecord(row).value.value.bonus.value == toks[7])
  {
  }

  /**
   * The two layouts agree on eight plain values: when the spans after the
   * label and the `.principal` spans are the same eight integers, the eighth
   * being non-zero, both give the first seven as numbers and the eighth as
   * bonus.
   */
  lemma LayoutsAgree(newRow: Row, oldRow: Row)
    requires NewLayoutRow(newRow)
    requires !IsHeader(oldRow) && RowDate(oldRow) == RowDate(newRow)
    requires oldRow.numbersCell.None? && oldRow.principal == Some(PrincipalSpans(newRow))
    requires |PrincipalSpans(newRow)| == 8
    requires forall k :: 0 <= k < 8 ==> ParseSpans(PrincipalSpans(newRow))[k].Some?
    requires ParseSpan(PrincipalSpans(newRow)[7]) != Some(0)
    ensures RowRecord(newRow).Success? && RowRecord(newRow).value.Some?
    ensures RowRecord(oldRow).Success? && RowRecord(oldRow).value.Some?
    ensures RowRecord(newRow).value.value.nums == RowRecord(oldRow).value.value.nums
    ensures RowRecord(newRow).value.value.bonus == RowRecord(oldRow).value.value.bonus
    ensures RowRecord(oldRow).value.value.bonus.Some?
  {
    var toks := ParseSpans(PrincipalSpans(newRow));
    AllParseable(toks);
    LegacyLayout(oldRow);
    NewLayoutRecord(newRow);
  }

  lemma {:induction false} AllParseable(toks: seq<Token>)
    requires forall k :: 0 <= k < |toks| ==> toks[k].Some?
    ensures Parseable(toks) == toks
    decreases |toks|
  {
    if toks != [] { AllParseable(toks[1..]); }
  }
}
