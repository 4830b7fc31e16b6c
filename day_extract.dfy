/**
 * What `scrapeDate2025` reads from the result page of one draw date: the
 * choice of a selector among five candidates, retried four times, and the
 * in-page extraction, which reads a "structured" zone or a results table
 * depending on the selector found.
 */
module DayExtract {
  import opened Wrappers
  import opened JsText

  // ================================================================ selectors

  const Candidates: seq<string> := [
    ".lqZoneResultatsProduit .numeros",
    ".numeros",
    ".lqZoneStructuresDeLots .numeros",
    "table.tbl-resultats tbody tr",
    "table tbody tr"
  ]

  const Attempts: nat := 4

  /**
   * Whether `waitForSelector` saw candidate `j` during attempt `a`. It
   * depends on how far the page has loaded, so the model takes it as given.
   */
  type Readiness = (nat, nat) -> bool

  /** The first pair (attempt, candidate) in loop order at which a candidate was seen. */
  function FirstReady(ready: Readiness, a: nat, j: nat): Option<nat>
    requires j <= |Candidates|
    decreases Attempts - a, |Candidates| - j
  {
    if a >= Attempts then None
    else if j == |Candidates| then FirstReady(ready, a + 1, 0)
    else if ready(a, j) then Some(j)
    else FirstReady(ready, a, j + 1)
  }

  /** No candidate was seen at attempt `a` from candidate `j` on, nor at any later attempt. */
  ghost predicate NoneReadyFrom(ready: Readiness, a: nat, j: nat) {
    (forall j' :: j <= j' < |Candidates| ==> !ready(a, j'))
    && forall a', j' :: a < a' < Attempts && 0 <= j' < |Candidates| ==> !ready(a', j')
  }

  /**
   * The retry loop: up to four attempts, each trying the candidates in
   * order and stopping at the first one that appears.
   */
  method ChooseSelector(ready: Readiness) returns (found: Option<nat>)
    ensures found == FirstReady(ready, 0, 0)
    ensures found.Some? ==> found.value < |Candidates|
  {
    found := None;
    var attempt := 0;
    while attempt < Attempts && found.None?
      invariant 0 <= attempt <= Attempts
      invariant found.None? ==> FirstReady(ready, attempt, 0) == FirstReady(ready, 0, 0)
      invariant found.Some? ==> found == FirstReady(ready, 0, 0) && found.value < |Candidates|
    {
      var j := 0;
      while j < |Candidates|
        invariant 0 <= j <= |Candidates|
        invariant FirstReady(ready, attempt, j) == FirstReady(ready, 0, 0)
      {
        if ready(attempt, j) {
          found := Some(j);
          break;
        }
        j := j + 1;
      }
      attempt := attempt + 1;
    }
    if found.None? {
      assert attempt == Attempts;
    }
  }

  /**
   * No candidate was seen at any pair (attempt, candidate) that the loop
   * visits from (`a`, `j`) on and before (`a2`, `k`).
   */
  ghost predicate NoneReadyBetween(ready: Readiness, a: nat, j: nat, a2: nat, k: nat) {
    forall x: nat, y: nat :: a <= x && y < |Candidates| && (x > a || y >= j) && (x < a2 || (x == a2 && y < k)) ==> !ready(x, y)
  }

  /**
   * The loop order in full: nothing is found exactly when nothing is seen
   * from (`a`, `j`) on; a found candidate was seen at some attempt, and no
   * pair the loop visits before that one was seen.
   */
  lemma {:induction false} FirstReadyMeaning(ready: Readiness, a: nat, j: nat)
    requires j <= |Candidates|
    ensures FirstReady(ready, a, j).None? <==> a >= Attempts || NoneReadyFrom(ready, a, j)
    ensures FirstReady(ready, a, j).Some? ==>
      var k := FirstReady(ready, a, j).value;
      k < |Candidates| && exists a' :: a <= a' < Attempts && ready(a', k) && NoneReadyBetween(ready, a, j, a', k)
    decreases Attempts - a, |Candidates| - j
  {
    FirstReadyFirst(ready, a, j);
    if a >= Attempts {
    } else if j == |Candidates| {
      FirstReadyMeaning(ready, a + 1, 0);
      if a + 1 < Attempts && NoneReadyFrom(ready, a + 1, 0) {
        forall a', j' | a < a' < Attempts && 0 <= j' < |Candidates| ensures !ready(a', j') {
          if a' > a + 1 {
          } else {
            assert 0 <= j' < |Candidates|;
          }
        }
      }
      if NoneReadyFrom(ready, a, j) && a + 1 < Attempts {
        assert NoneReadyFrom(ready, a + 1, 0);
      }
    } else if ready(a, j) {
    } else {
      FirstReadyMeaning(ready, a, j + 1);
    }
  }

  /** The attempt at which the found candidate was seen, with nothing seen before it. */
  lemma {:induction false} FirstReadyFirst(ready: Readiness, a: nat, j: nat)
    requires j <= |Candidates|
    ensures FirstReady(ready, a, j).Some? ==>
      var k := FirstReady(ready, a, j).value;
      k < |Candidates| && exists a' :: a <= a' < Attempts && ready(a', k) && NoneReadyBetween(ready, a, j, a', k)
    decreases Attempts - a, |Candidates| - j
  {
    if a >= Attempts {
    } else if j == |Candidates| {
      FirstReadyFirst(ready, a + 1, 0);
      if FirstReady(ready, a + 1, 0).Some? {
        var k := FirstReady(ready, a + 1, 0).value;
        var a' :| a + 1 <= a' < Attempts && ready(a', k) && NoneReadyBetween(ready, a + 1, 0, a', k);
        assert NoneReadyBetween(ready, a, j, a', k);
      }
    } else if ready(a, j) {
      assert NoneReadyBetween(ready, a, j, a, j);
    } else {
      FirstReadyFirst(ready, a, j + 1);
      if FirstReady(ready, a, j + 1).Some? {
        var k := FirstReady(ready, a, j + 1).value;
        var a' :| a <= a' < Attempts && ready(a', k) && NoneReadyBetween(ready, a, j + 1, a', k);
        assert NoneReadyBetween(ready, a, j, a', k);
      }
    }
  }

  /** Which part of the in-page code a selector leads to. */
  datatype Branch = Structured | Table | Neither

  function SelectorBranch(sel: string): Branch {
    if Contains(sel, "lqZoneResultatsProduit") || sel == ".numeros" || Contains(sel, "lqZoneStructuresDeLots") then Structured
    else if Contains(sel, "table") then Table
    else Neither
  }

  lemma {:induction false} ShortNoContains(s: string, needle: string)
    requires |s| < |needle|
    ensures !Contains(s, needle)
    decreases |s|
  {
    if s != [] { ShortNoContains(s[1..], needle); }
  }

  /** The first three candidates lead to the structured zone. */
  lemma StructuredCandidates()
    ensures SelectorBranch(Candidates[0]) == Structured
    ensures SelectorBranch(Candidates[1]) == Structured
    ensures SelectorBranch(Candidates[2]) == Structured
  {
    var s0 := Candidates[0];
    assert IsPrefix("lqZoneResultatsProduit", s0[1..]);
    var s2 := Candidates[2];
    assert IsPrefix("lqZoneStructuresDeLots", s2[1..]);
    assert Contains(s2[1..], "lqZoneStructuresDeLots");
  }

  /** The last two candidates lead to the table. */
  lemma TableCandidates()
    ensures SelectorBranch(Candidates[3]) == Table
    ensures SelectorBranch(Candidates[4]) == Table
  {
    ResultsTableCandidate(Candidates[3]);
    AnyTableCandidate(Candidates[4]);
  }

  lemma ResultsTableCandidate(s: string)
    requires s == "table.tbl-resultats tbody tr"
    ensures SelectorBranch(s) == Table
  {
    NoLqPair(s);
    assert s != ".numeros";
    assert IsPrefix("table", s);
  }

  lemma AnyTableCandidate(s: string)
    requires s == "table tbody tr"
    ensures SelectorBranch(s) == Table
  {
    ShortNoContains(s, "lqZoneResultatsProduit");
    ShortNoContains(s, "lqZoneStructuresDeLots");
    assert s != ".numeros";
    assert IsPrefix("table", s);
  }

  /** "table.tbl-resultats tbody tr" holds neither structured-zone class name. */
  lemma NoLqPair(s: string)
    requires s == "table.tbl-resultats tbody tr"
    ensures !Contains(s, "lqZoneResultatsProduit") && !Contains(s, "lqZoneStructuresDeLots")
  {
    forall i | 0 <= i < |s| ensures s[i] != 'q' {
    }
    NoLetterNoContains(s, "lqZoneResultatsProduit");
    NoLetterNoContains(s, "lqZoneStructuresDeLots");
  }

  /** A string none of whose characters is the needle's second one contains the needle nowhere. */
  lemma {:induction false} NoLetterNoContains(s: string, needle: string)
    requires |needle| >= 2
    requires forall i :: 0 <= i < |s| ==> s[i] != needle[1]
    ensures !Contains(s, needle)
    decreases |s|
  {
    if s != [] {
      if |needle| <= |s| {
        assert s[..|needle|][1] == s[1] != needle[1];
      }
      NoLetterNoContains(s[1..], needle);
    }
  }

  // ================================================================ the page

  /** One element as `parseNumsFromNode` sees it: innerText of each `.num, span` inside it, in document order. */
  datatype NumNode = NumNode(text: string, numTexts: seq<string>)

  /** The element `document.querySelector(sel)` of the structured zone. */
  datatype Zone = Zone(
    numTexts: seq<string>,
    complementaire: Option<string>, // innerText of its first `.num.complementaire`
    fallbackComp: Option<string>)   // innerText of its first `.complementaire, .num-sep + .num`

  /** What the table branch reads from a `table tbody tr`. */
  datatype Cell = Cell(
    numTexts: seq<string>,          // its `.num, span` texts
    lastSpan: Option<string>,       // innerText of its first `span:last-of-type`
    secondDiv: Option<NumScope>,    // its first `div:nth-of-type(2)`
    divs: seq<NumNode>)             // every `div` inside it

  datatype NumScope = NumScope(numTexts: seq<string>, lastSpan: Option<string>)

  datatype TableRow = TableRow(titre: bool, hasTh: bool, row: Cell, secondTd: Option<Cell>)

  /** The parts of the page the in-page code queries. */
  datatype DayPage = DayPage(
    zones: map<string, Zone>,     // `document.querySelector(sel)` for the structured selectors
    mmContainers: seq<NumNode>,   // the Maxmillions containers, in document order
    divs: seq<NumNode>,           // every `div` of the document
    rows: seq<TableRow>)          // every `table tbody tr`

  /** `{ nums, bonus, maxMillions }`; `bonus` None is null and Some(None) is NaN. */
  datatype DayData = DayData(nums: seq<int>, bonus: Option<Token>, maxMillions: seq<seq<int>>)

  // ================================================================ parsing

  /** `parseNumsFromNode`: each text stripped of its non-digits and parsed; texts without a digit are dropped. */
  function ParseNums(texts: seq<string>): (r: seq<int>)
    ensures |r| <= |texts|
    decreases |texts|
  {
    if texts == [] then []
    else
      var rest := ParseNums(texts[1..]);
      match ParseDigits(texts[0])
      case Some(n) => [n] + rest
      case None => rest
  }

  /** `.slice(0, 7)`. */
  function First7(s: seq<int>): (r: seq<int>)
    ensures |r| == if |s| <= 7 then |s| else 7
    ensures forall i :: 0 <= i < |r| ==> r[i] == s[i]
  {
    if |s| <= 7 then s else s[..7]
  }

  /** `parseNumsFromNode(c).slice(0, 7)`. */
  function SetOf(n: NumNode): (r: seq<int>)
    ensures |r| == 7 <==> |ParseNums(n.numTexts)| >= 7
    ensures |r| <= 7 && |r| <= |ParseNums(n.numTexts)| && forall i :: 0 <= i < |r| ==> r[i] == ParseNums(n.numTexts)[i]
  {
    First7(ParseNums(n.numTexts))
  }

  /** The Maxmillions candidates that hold seven numbers, each cut to its first seven. */
  function Sevens(nodes: seq<NumNode>): seq<seq<int>>
    decreases |nodes|
  {
    if nodes == [] then []
    else
      var rest := Sevens(nodes[..|nodes| - 1]);
      var vals := SetOf(nodes[|nodes| - 1]);
      if |vals| == 7 then rest + [vals] else rest
  }

  /** `/maxmillions/i.test(d.innerText || "")`. */
  predicate IsMaxLabel(d: NumNode) {
    ContainsIgnoringCase(d.text, "maxmillions")
  }

  function MaxFlags(nodes: seq<NumNode>): (r: seq<bool>)
    ensures |r| == |nodes| && forall i :: 0 <= i < |nodes| ==> r[i] == IsMaxLabel(nodes[i])
  {
    seq(|nodes|, i requires 0 <= i < |nodes| => IsMaxLabel(nodes[i]))
  }

  /** The index of the first "Maxmillions" label among the divs, or -1. */
  function MaxLabelIndex(nodes: seq<NumNode>): (r: int)
    ensures -1 <= r < |nodes|
    ensures r >= 0 ==> IsMaxLabel(nodes[r])
    ensures forall j :: 0 <= j < |nodes| && (r == -1 || j < r) ==> !IsMaxLabel(nodes[j])
  {
    FirstTrue(MaxFlags(nodes))
  }

  /** The divs the structured fallback looks at: at most 29 after the label. */
  function Window(nodes: seq<NumNode>, labelAt: nat): (r: seq<NumNode>)
    requires labelAt < |nodes|
    ensures |r| <= 29
    ensures |r| == if |nodes| - labelAt - 1 < 29 then |nodes| - labelAt - 1 else 29
    ensures forall i :: 0 <= i < |r| ==> r[i] == nodes[labelAt + 1 + i]
  {
    var stop := if |nodes| < labelAt + 30 then |nodes| else labelAt + 30;
    nodes[labelAt + 1..stop]
  }

  /** `comp ? parseInt(comp.innerText.replace(/\D/g, ""), 10) : null`, the primary selector first. */
  function ZoneBonus(z: Zone): Option<Token> {
    if z.complementaire.Some? then Some(ParseDigits(z.complementaire.value))
    else if z.fallbackComp.Some? then Some(ParseDigits(z.fallbackComp.value))
    else None
  }

  function StructuredSets(page: DayPage): seq<seq<int>> {
    if page.mmContainers != [] then Sevens(page.mmContainers)
    else
      var labelAt := MaxLabelIndex(page.divs);
      if labelAt >= 0 then Sevens(Window(page.divs, labelAt)) else []
  }

  /** The structured branch. */
  function StructuredData(sel: string, page: DayPage): Option<DayData> {
    if sel !in page.zones then None
    else
      var z := page.zones[sel];
      Some(DayData(First7(ParseNums(z.numTexts)), ZoneBonus(z), StructuredSets(page)))
  }

  predicate IsDataRow(r: TableRow) {
    !r.titre && !r.hasTh
  }

  function DataFlags(rows: seq<TableRow>): (r: seq<bool>)
    ensures |r| == |rows| && forall i :: 0 <= i < |rows| ==> r[i] == IsDataRow(rows[i])
  {
    seq(|rows|, i requires 0 <= i < |rows| => IsDataRow(rows[i]))
  }

  /** `rows.find(...) || rows[0]`. */
  function PickRow(rows: seq<TableRow>): TableRow
    requires rows != []
  {
    var k := FirstTrue(DataFlags(rows));
    if k >= 0 then rows[k] else rows[0]
  }

  /** `td.querySelector("div:nth-of-type(2)") || td`. */
  function Principal(td: Cell): NumScope {
    if td.secondDiv.Some? then td.secondDiv.value else NumScope(td.numTexts, td.lastSpan)
  }

  function TableSets(td: Cell): seq<seq<int>> {
    SetsAfter(td.divs, MaxLabelIndex(td.divs))
  }

  /** The seven-number sets of the divs after the one at `at`; none when `at` is -1. */
  function SetsAfter(nodes: seq<NumNode>, at: int): seq<seq<int>>
    requires -1 <= at < |nodes|
  {
    if at >= 0 then Sevens(nodes[at + 1..]) else []
  }

  /** What the table branch reads from the cell `td`. */
  function CellData(td: Cell): DayData {
    var p := Principal(td);
    var bonus := if p.lastSpan.Some? then Some(ParseDigits(p.lastSpan.value)) else None;
    DayData(First7(ParseNums(p.numTexts)), bonus, TableSets(td))
  }

  /** `row.querySelectorAll("td")[1] || row`. */
  function RowCell(row: TableRow): Cell {
    if row.secondTd.Some? then row.secondTd.value else row.row
  }

  /** The table branch. */
  function TableData(page: DayPage): Option<DayData> {
    if page.rows == [] then None else Some(CellData(RowCell(PickRow(page.rows))))
  }

  /** The callback of `page.evaluate`. */
  function DayEvaluate(sel: string, page: DayPage): Option<DayData> {
    match SelectorBranch(sel)
    case Structured => StructuredData(sel, page)
    case Table => TableData(page)
    case Neither => None
  }

  // ================================================================ the callback, as it runs

  /** The `forEach` and `for` loops that push seven-number candidates into `maxMillions`. */
  method CollectSevens(nodes: seq<NumNode>) returns (sets: seq<seq<int>>)
    ensures sets == Sevens(nodes)
    ensures forall k :: 0 <= k < |sets| ==> |sets[k]| == 7
  {
    sets := [];
    var i := 0;
    while i < |nodes|
      invariant 0 <= i <= |nodes|
      invariant sets == Sevens(nodes[..i])
    {
      var vals := SetOf(nodes[i]);
      if |vals| == 7 {
        sets := sets + [vals];
      }
      assert nodes[..i + 1][..i] == nodes[..i];
      i := i + 1;
    }
    assert nodes[..i] == nodes;
    SevensHaveSeven(nodes);
  }

  method EvaluateStructured(sel: string, page: DayPage) returns (data: Option<DayData>)
    ensures data == StructuredData(sel, page)
  {
    if sel !in page.zones {
      return None;
    }
    var main := page.zones[sel];
    var nums := First7(ParseNums(main.numTexts));
    var bonus := ZoneBonus(main);
    var maxMillions := [];
    if page.mmContainers != [] {
      maxMillions := CollectSevens(page.mmContainers);
    } else {
      var mmLabelIndex := MaxLabelIndex(page.divs);
      if mmLabelIndex >= 0 {
        maxMillions := CollectSevens(Window(page.divs, mmLabelIndex));
      }
    }
    return Some(DayData(nums, bonus, maxMillions));
  }

  method EvaluateCell(td: Cell) returns (data: DayData)
    ensures data == CellData(td)
  {
    var principalDiv := Principal(td);
    var nums := First7(ParseNums(principalDiv.numTexts));
    var bonus := if principalDiv.lastSpan.Some? then Some(ParseDigits(principalDiv.lastSpan.value)) else None;
    var maxMillions := [];
    var maxIdx := MaxLabelIndex(td.divs);
    if maxIdx >= 0 {
      maxMillions := CollectSevens(td.divs[maxIdx + 1..]);
    }
    return DayData(nums, bonus, maxMillions);
  }

  method EvaluateTable(page: DayPage) returns (data: Option<DayData>)
    ensures data == TableData(page)
  {
    if page.rows == [] {
      return None;
    }
    var row := PickRow(page.rows);
    var one := EvaluateCell(RowCell(row));
    return Some(one);
  }

  /** The in-page callback, given the selector that was found. */
  method Evaluate(sel: string, page: DayPage) returns (data: Option<DayData>)
    ensures data == DayEvaluate(sel, page)
  {
    var branch := SelectorBranch(sel);
    if branch == Structured {
      data := EvaluateStructured(sel, page);
    } else if branch == Table {
      data := EvaluateTable(page);
    } else {
      data := None;
    }
  }

  // ================================================================ lemmas

  lemma {:induction false} SevensHaveSeven(nodes: seq<NumNode>)
    ensures forall k :: 0 <= k < |Sevens(nodes)| ==> |Sevens(nodes)[k]| == 7
    ensures |Sevens(nodes)| <= |nodes|
    decreases |nodes|
  {
    if nodes != [] { SevensHaveSeven(nodes[..|nodes| - 1]); }
  }

  /**
   * The values `parseNumsFromNode` gives are never negative, and no text
   * is dropped exactly when every text holds a digit. Which values, in
   * which order, is `ParseNumsAppend` and `ParseNumsOne`.
   */
  lemma ParseNumsMeaning(texts: seq<string>)
    ensures forall k :: 0 <= k < |ParseNums(texts)| ==> ParseNums(texts)[k] >= 0
    ensures |ParseNums(texts)| == |texts| <==> forall i :: 0 <= i < |texts| ==> ParseDigits(texts[i]).Some?
  {
    ParseNumsNonNegative(texts);
    ParseNumsKeepsAll(texts);
  }

  /** The texts are read one after another: the values of `a + b` are those of `a`, then those of `b`. */
  lemma {:induction false} ParseNumsAppend(a: seq<string>, b: seq<string>)
    ensures ParseNums(a + b) == ParseNums(a) + ParseNums(b)
    decreases |a|
  {
    if a == [] {
      assert a + b == b;
    } else {
      assert (a + b)[0] == a[0] && (a + b)[1..] == a[1..] + b;
      ParseNumsAppend(a[1..], b);
    }
  }

  /** One text gives its value once its non-digits are stripped, or nothing when it holds no digit. */
  lemma ParseNumsOne(t: string)
    ensures ParseNums([t]) == if ParseDigits(t).Some? then [ParseDigits(t).value] else []
  {
    assert [t][1..] == [];
  }

  /** When every text holds a digit, the values are the texts' values, one for one. */
  lemma {:induction false} ParseNumsAllDigits(texts: seq<string>)
    requires forall i :: 0 <= i < |texts| ==> ParseDigits(texts[i]).Some?
    ensures |ParseNums(texts)| == |texts|
    ensures forall i :: 0 <= i < |texts| ==> ParseNums(texts)[i] == ParseDigits(texts[i]).value
    decreases |texts|
  {
    if texts != [] {
      ParseNumsAllDigits(texts[1..]);
      var rest := ParseNums(texts[1..]);
      assert ParseNums(texts) == [ParseDigits(texts[0]).value] + rest;
      forall i | 0 <= i < |texts| ensures ParseNums(texts)[i] == ParseDigits(texts[i]).value {
        if i > 0 { assert texts[1..][i - 1] == texts[i]; }
      }
    }
  }

  /**
   * A candidate whose first seven texts all hold a digit gives as its set
   * exactly the values of those seven texts, whatever follows them.
   */
  lemma SetOfDigits(n: NumNode)
    requires |n.numTexts| >= 7 && forall i :: 0 <= i < 7 ==> ParseDigits(n.numTexts[i]).Some?
    ensures |SetOf(n)| == 7 && forall i :: 0 <= i < 7 ==> SetOf(n)[i] == ParseDigits(n.numTexts[i]).value
  {
    var head, tail := n.numTexts[..7], n.numTexts[7..];
    assert n.numTexts == head + tail;
    ParseNumsAppend(head, tail);
    ParseNumsAllDigits(head);
    assert forall i :: 0 <= i < 7 ==> ParseNums(n.numTexts)[i] == ParseNums(head)[i];
  }

  lemma {:induction false} ParseNumsNonNegative(texts: seq<string>)
    ensures forall k :: 0 <= k < |ParseNums(texts)| ==> ParseNums(texts)[k] >= 0
    decreases |texts|
  {
    if texts != [] {
      ParseNumsNonNegative(texts[1..]);
      ParseDigitsMeaning(texts[0]);
    }
  }

  lemma {:induction false} ParseNumsKeepsAll(texts: seq<string>)
    ensures |ParseNums(texts)| == |texts| <==> forall i :: 0 <= i < |texts| ==> ParseDigits(texts[i]).Some?
    decreases |texts|
  {
    if texts != [] {
      var rest := texts[1..];
      ParseNumsKeepsAll(rest);
      assert |ParseNums(texts)| == |ParseNums(rest)| + (if ParseDigits(texts[0]).Some? then 1 else 0);
      if forall i :: 0 <= i < |texts| ==> ParseDigits(texts[i]).Some? {
        forall i | 0 <= i < |rest| ensures ParseDigits(rest[i]).Some? {
          assert rest[i] == texts[i + 1];
        }
      }
      if |ParseNums(texts)| == |texts| {
        forall i | 0 <= i < |texts| ensures ParseDigits(texts[i]).Some? {
          if i > 0 { assert texts[i] == rest[i - 1]; }
        }
      }
    }
  }

  /**
   * A candidate yields a Maxmillions set exactly when seven of its texts
   * parse, and the set is the first seven of them; a longer candidate is cut,
   * not refused.
   */
  lemma {:induction false} SevensMeaning(nodes: seq<NumNode>)
    ensures forall x :: x in Sevens(nodes) <==> exists i :: 0 <= i < |nodes| && |SetOf(nodes[i])| == 7 && x == SetOf(nodes[i])
    decreases |nodes|
  {
    if nodes != [] {
      var init := nodes[..|nodes| - 1];
      SevensMeaning(init);
      forall x ensures x in Sevens(nodes) <==> exists i :: 0 <= i < |nodes| && |SetOf(nodes[i])| == 7 && x == SetOf(nodes[i]) {
        if x in Sevens(init) {
          var i :| 0 <= i < |init| && |SetOf(init[i])| == 7 && x == SetOf(init[i]);
          assert nodes[i] == init[i];
        }
        if exists i :: 0 <= i < |nodes| && |SetOf(nodes[i])| == 7 && x == SetOf(nodes[i]) {
          var i :| 0 <= i < |nodes| && |SetOf(nodes[i])| == 7 && x == SetOf(nodes[i]);
          if i < |nodes| - 1 { assert init[i] == nodes[i]; }
        }
      }
    }
  }

  /** The sets keep the candidates' order: those of `a` come before those of `b`. */
  lemma {:induction false} SevensAppend(a: seq<NumNode>, b: seq<NumNode>)
    ensures Sevens(a + b) == Sevens(a) + Sevens(b)
    decreases |b|
  {
    if b == [] {
      assert a + b == a;
    } else {
      var init := b[..|b| - 1];
      assert (a + b)[..|a + b| - 1] == a + init;
      assert (a + b)[|a + b| - 1] == b[|b| - 1];
      SevensAppend(a, init);
    }
  }

  /** One candidate gives its first seven values once, or nothing when fewer than seven parse. */
  lemma SevensOne(n: NumNode)
    ensures Sevens([n]) == if |SetOf(n)| == 7 then [SetOf(n)] else []
  {
    assert [n][..0] == [];
  }

  /** At most seven non-negative main numbers, and Maxmillions sets of seven. */
  predicate DataShape(d: DayData) {
    && |d.nums| <= 7
    && (forall k :: 0 <= k < |d.nums| ==> d.nums[k] >= 0)
    && (forall k :: 0 <= k < |d.maxMillions| ==> |d.maxMillions[k]| == 7)
  }

  /** The main numbers are at most the first seven parsed values, none negative. */
  lemma MainShape(texts: seq<string>)
    ensures var m := First7(ParseNums(texts));
      && |m| <= 7 && |m| <= |ParseNums(texts)|
      && (forall k :: 0 <= k < |m| ==> m[k] == ParseNums(texts)[k])
      && (forall k :: 0 <= k < |m| ==> m[k] >= 0)
  {
    ParseNumsNonNegative(texts);
  }

  lemma CellShape(td: Cell)
    ensures DataShape(CellData(td))
  {
    var p := Principal(td);
    MainShape(p.numTexts);
    TableSetsShape(td);
    var d := CellData(td);
    assert d.nums == First7(ParseNums(p.numTexts)) && d.maxMillions == TableSets(td);
  }

  lemma TableSetsShape(td: Cell)
    ensures forall k :: 0 <= k < |TableSets(td)| ==> |TableSets(td)[k]| == 7
  {
    SetsAfterShape(td.divs, MaxLabelIndex(td.divs));
  }

  lemma SetsAfterShape(nodes: seq<NumNode>, at: int)
    requires -1 <= at < |nodes|
    ensures forall k :: 0 <= k < |SetsAfter(nodes, at)| ==> |SetsAfter(nodes, at)[k]| == 7
  {
    if at >= 0 { SevensHaveSeven(nodes[at + 1..]); }
  }

  lemma StructuredShape(sel: string, page: DayPage)
    ensures StructuredData(sel, page).Some? ==> DataShape(StructuredData(sel, page).value)
  {
    if sel in page.zones {
      MainShape(page.zones[sel].numTexts);
      SevensHaveSeven(page.mmContainers);
      var labelAt := MaxLabelIndex(page.divs);
      if labelAt >= 0 { SevensHaveSeven(Window(page.divs, labelAt)); }
    }
  }

  /** Whatever the branch, the extracted numbers are at most seven, non-negative, and each Maxmillions set has seven. */
  lemma DayNumbersShape(sel: string, page: DayPage)
    ensures DayEvaluate(sel, page).Some? ==> DataShape(DayEvaluate(sel, page).value)
  {
    match SelectorBranch(sel)
    case Structured =>
      StructuredShape(sel, page);
      assert DayEvaluate(sel, page) == StructuredData(sel, page);
    case Table =>
      assert DayEvaluate(sel, page) == TableData(page);
      if page.rows != [] {
        var td := RowCell(PickRow(page.rows));
        CellShape(td);
        assert TableData(page) == Some(CellData(td));
      }
    case Neither =>
  }

  /**
   * On the structured zone without containers, the fallback looks at no
   * more than 29 divs after the label, so it finds at most 29 sets.
   */
  lemma FallbackWindowBound(sel: string, page: DayPage)
    requires SelectorBranch(sel) == Structured && page.mmContainers == []
    ensures DayEvaluate(sel, page).Some? ==> |DayEvaluate(sel, page).value.maxMillions| <= 29
  {
    var labelAt := MaxLabelIndex(page.divs);
    if labelAt >= 0 { SevensHaveSeven(Window(page.divs, labelAt)); }
  }

  /** The bonus of the structured zone comes from `.num.complementaire` when there is one, the fallback otherwise. */
  lemma ZoneBonusChoice(z: Zone)
    ensures z.complementaire.Some? ==> ZoneBonus(z) == Some(ParseDigits(z.complementaire.value))
    ensures z.complementaire.None? && z.fallbackComp.Some? ==> ZoneBonus(z) == Some(ParseDigits(z.fallbackComp.value))
    ensures ZoneBonus(z).None? <==> z.complementaire.None? && z.fallbackComp.None?
  {
  }

  /**
   * The table branch reads the first row that is neither a `titre` row nor
   * has a `th`, and the first row when every row is a header.
   */
  lemma PickRowMeaning(rows: seq<TableRow>)
    requires rows != []
    ensures (exists i :: 0 <= i < |rows| && IsDataRow(rows[i])) ==>
      exists k :: 0 <= k < |rows| && PickRow(rows) == rows[k] && IsDataRow(rows[k]) &&
        forall j :: 0 <= j < k ==> !IsDataRow(rows[j])
    ensures (forall i :: 0 <= i < |rows| ==> !IsDataRow(rows[i])) ==> PickRow(rows) == rows[0]
  {
    var k := FirstTrue(DataFlags(rows));
    if exists i :: 0 <= i < |rows| && IsDataRow(rows[i]) {
      var i :| 0 <= i < |rows| && IsDataRow(rows[i]);
      assert DataFlags(rows)[i];
    }
  }
}
