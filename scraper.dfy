/**
 * The writes of `scrape_year.js`: `scrapeYear` stores every record of a
 * yearly archive page, `scrapeDate2025` stores the draw of one date, and
 * `main` runs `scrapeDate2025` over every Tuesday and Friday of 2025 when
 * the current year is 2025. Every write goes through the check-then-insert
 * gate of the store.
 */
module Scraper {
  import opened Wrappers
  import opened JsText
  import opened Store
  import YearExtract
  import DayExtract
  import Calendar

  // ================================================================ scrapeYear

  /** A yearly record as bound to the INSERT: `[n1..n7] = t.nums`, `t.bonus ?? null`, its sets as they are. */
  function YearCandidate(r: YearExtract.YearRecord): Candidate {
    Candidate(r.date, Columns(r.nums), BonusColumn(r.bonus), r.maxMillions)
  }

  /** What one record hands to the gate: `if (!t || !t.date) continue;` drops records without a date. */
  function StepCandidates(r: YearExtract.YearRecord): seq<Candidate> {
    if r.date == "" then [] else [YearCandidate(r)]
  }

  /** The candidates of the persistence loop, in page order. */
  function YearCandidates(recs: seq<YearExtract.YearRecord>): seq<Candidate>
    decreases |recs|
  {
    if recs == [] then []
    else YearCandidates(recs[..|recs| - 1]) + StepCandidates(recs[|recs| - 1])
  }

  datatype YearOutcome =
    | NoTable                             // `waitForSelector("table tbody tr")` timed out
    | Thrown(error: YearExtract.ExtractError) // `$$eval` rejected: nothing of the page is stored
    | Stored(records: seq<YearExtract.YearRecord>)

  /** One iteration of the persistence loop: the existence check, the insert and its sets. */
  method PersistRecord(store: DrawStore, t: YearExtract.YearRecord)
    requires store.Valid() && YearExtract.RecordShape(t)
    modifies store
    ensures store.Valid()
    ensures store.State() == GateAll(old(store.State()), StepCandidates(t))
  {
    if t.date != "" {
      var _ := store.Persist(YearCandidate(t));
      GateAllSingle(old(store.State()), YearCandidate(t));
    }
  }

  /** `for (const t of tirages)`: the gate for each record, in page order. */
  method PersistYear(store: DrawStore, recs: seq<YearExtract.YearRecord>)
    requires store.Valid() && forall k :: 0 <= k < |recs| ==> YearExtract.RecordShape(recs[k])
    modifies store
    ensures store.Valid()
    ensures store.State() == GateAll(old(store.State()), YearCandidates(recs))
  {
    ghost var s0 := store.State();
    var i := 0;
    while i < |recs|
      invariant 0 <= i <= |recs|
      invariant store.Valid()
      invariant store.State() == GateAll(s0, YearCandidates(recs[..i]))
    {
      PersistRecord(store, recs[i]);
      YearCandidatesSnoc(recs, i);
      GateAllAppend(s0, YearCandidates(recs[..i]), StepCandidates(recs[i]));
      i := i + 1;
    }
    assert recs[..i] == recs;
  }

  /**
   * `scrapeYear`: no table, a rejected extraction, or the records of the
   * page gated in order.
   */
  method ScrapeYear(store: DrawStore, tableAppeared: bool, rows: seq<YearExtract.Row>) returns (outcome: YearOutcome)
    requires store.Valid()
    modifies store
    ensures store.Valid()
    ensures !tableAppeared ==> outcome == NoTable && store.State() == old(store.State())
    ensures tableAppeared && YearExtract.PageRecords(rows).Failure? ==>
      outcome == Thrown(YearExtract.PageRecords(rows).error) && store.State() == old(store.State())
    ensures tableAppeared && YearExtract.PageRecords(rows).Success? ==>
      && outcome == Stored(YearExtract.PageRecords(rows).value)
      && store.State() == GateAll(old(store.State()), YearCandidates(YearExtract.PageRecords(rows).value))
  {
    if !tableAppeared {
      return NoTable;
    }
    var tirages := YearExtract.ExtractPage(rows);
    if tirages.Failure? {
      return Thrown(tirages.error);
    }
    PersistYear(store, tirages.value);
    return Stored(tirages.value);
  }

  // ================================================================ scrapeDate2025

  function Somes(nums: seq<int>): (r: seq<Token>)
    ensures |r| == |nums| && forall k :: 0 <= k < |nums| ==> r[k] == Some(nums[k])
  {
    seq(|nums|, k requires 0 <= k < |nums| => Some(nums[k]))
  }

  /** The sets of the insert loop: `if (mm.length !== 7) continue;`. */
  function SevenOnly(sets: seq<seq<int>>): (r: seq<seq<Option<int>>>)
    ensures forall k :: 0 <= k < |r| ==> |r[k]| == 7
    decreases |sets|
  {
    if sets == [] then []
    else
      var last := sets[|sets| - 1];
      SevenOnly(sets[..|sets| - 1]) + (if |last| == 7 then [Somes(last)] else [])
  }

  /**
   * What `scrapeDate2025` hands to the gate, if anything: nothing when no
   * selector appeared, when the extraction returned null, or when it found
   * fewer than seven numbers. The draw is stored under the requested date.
   */
  function DateCandidate(dateStr: string, ready: DayExtract.Readiness, page: DayExtract.DayPage): Option<Candidate> {
    match DayExtract.FirstReady(ready, 0, 0)
    case None => None
    case Some(j) =>
      if j >= |DayExtract.Candidates| then None
      else
        match DayExtract.DayEvaluate(DayExtract.Candidates[j], page)
        case None => None
        case Some(d) =>
          if |d.nums| < 7 then None
          else Some(Candidate(dateStr, Columns(Somes(d.nums)), BonusColumn(d.bonus), SevenOnly(d.maxMillions)))
  }

  datatype DateOutcome = NoSelector | NoNumbers | AlreadyStored | Inserted

  /** `scrapeDate2025(browser, dateStr)` once the page has loaded. */
  method ScrapeDate(store: DrawStore, dateStr: string, ready: DayExtract.Readiness, page: DayExtract.DayPage)
    returns (outcome: DateOutcome)
    requires store.Valid()
    modifies store
    ensures store.Valid()
    ensures DateCandidate(dateStr, ready, page).None? ==> store.State() == old(store.State())
    ensures DateCandidate(dateStr, ready, page).Some? ==>
      store.State() == Gate(old(store.State()), DateCandidate(dateStr, ready, page).value)
    ensures outcome == Inserted <==> DateCandidate(dateStr, ready, page).Some? && dateStr !in old(store.draws)
  {
    var found := DayExtract.ChooseSelector(ready);
    if found.None? {
      return NoSelector;
    }
    var data := DayExtract.Evaluate(DayExtract.Candidates[found.value], page);
    if data.None? || |data.value.nums| < 7 {
      return NoNumbers;
    }
    DayExtract.DayNumbersShape(DayExtract.Candidates[found.value], page);
    var c := Candidate(dateStr, Columns(Somes(data.value.nums)), BonusColumn(data.value.bonus), SevenOnly(data.value.maxMillions));
    var inserted := store.Persist(c);
    outcome := if inserted then Inserted else AlreadyStored;
  }

  // ================================================================ main

  /** What `page.goto` gives for a date: a thrown navigation error, or the loaded page. */
  datatype Visit = GotoFails | Loaded(ready: DayExtract.Readiness, page: DayExtract.DayPage)

  /** How far the loop gets: the index of the first date whose navigation throws, or the end. */
  function Reached(dates: seq<string>, web: string -> Visit): (r: nat)
    ensures r <= |dates|
    ensures forall i :: 0 <= i < r ==> web(dates[i]).Loaded?
    ensures r < |dates| ==> web(dates[r]).GotoFails?
  {
    if dates == [] || web(dates[0]).GotoFails? then 0
    else
      var r := Reached(dates[1..], web);
      assert forall i :: 1 <= i < 1 + r ==> dates[i] == dates[1..][i - 1];
      1 + r
  }

  /** What visiting one date hands to the gate: nothing, or one candidate. */
  function VisitCandidates(d: string, v: Visit): seq<Candidate> {
    match v
    case GotoFails => []
    case Loaded(ready, page) =>
      match DateCandidate(d, ready, page) case None => [] case Some(c) => [c]
  }

  /** The candidates of the dates visited, in order. */
  function DriverCandidates(dates: seq<string>, web: string -> Visit): seq<Candidate>
    decreases |dates|
  {
    if dates == [] then []
    else
      var d := dates[|dates| - 1];
      DriverCandidates(dates[..|dates| - 1], web) + VisitCandidates(d, web(d))
  }

  /** One iteration of the loop of `main`, for a page that loaded. */
  method VisitDate(store: DrawStore, d: string, v: Visit)
    requires store.Valid() && v.Loaded?
    modifies store
    ensures store.Valid()
    ensures store.State() == GateAll(old(store.State()), VisitCandidates(d, v))
  {
    var _ := ScrapeDate(store, d, v.ready, v.page);
    var c := DateCandidate(d, v.ready, v.page);
    if c.Some? {
      GateAllSingle(old(store.State()), c.value);
    }
  }

  /**
   * `main` with the yearly loop commented out: when the current year is
   * 2025, `scrapeDate2025` for every Tuesday and Friday of that year in
   * order; a navigation that throws ends the run there. `completed` is
   * whether the loop reached its end.
   */
  method Run(store: DrawStore, currentYear: int, web: string -> Visit) returns (completed: bool)
    requires store.Valid()
    modifies store
    ensures store.Valid()
    ensures currentYear != 2025 ==> completed && store.State() == old(store.State())
    ensures currentYear == 2025 ==>
      var dates := Calendar.DrawDates(currentYear);
      && (completed <==> Reached(dates, web) == |dates|)
      && store.State() == GateAll(old(store.State()), DriverCandidates(dates[..Reached(dates, web)], web))
  {
    if currentYear != 2025 {
      return true;
    }
    var dates := Calendar.GetTuesdaysAndFridays(currentYear);
    completed := VisitAll(store, dates, web);
  }

  /** `for (const dateStr of dates)`: each date in order, until a navigation throws. */
  method VisitAll(store: DrawStore, dates: seq<string>, web: string -> Visit) returns (completed: bool)
    requires store.Valid()
    modifies store
    ensures store.Valid()
    ensures completed <==> Reached(dates, web) == |dates|
    ensures store.State() == GateAll(old(store.State()), DriverCandidates(dates[..Reached(dates, web)], web))
  {
    ghost var s0 := store.State();
    var i := 0;
    while i < |dates|
      invariant 0 <= i <= Reached(dates, web)
      invariant store.Valid()
      invariant store.State() == GateAll(s0, DriverCandidates(dates[..i], web))
    {
      var visit := web(dates[i]);
      if visit.GotoFails? {
        return false;
      }
      VisitDate(store, dates[i], visit);
      VisitStep(s0, dates, i, web);
      i := i + 1;
    }
    return true;
  }

  // ================================================================ lemmas

  lemma YearCandidatesSnoc(recs: seq<YearExtract.YearRecord>, i: nat)
    requires i < |recs|
    ensures YearCandidates(recs[..i + 1]) == YearCandidates(recs[..i]) + StepCandidates(recs[i])
  {
    var p := recs[..i + 1];
    assert p[..|p| - 1] == recs[..i];
  }

  /** A yearly candidate is one of the dated records, turned into its columns. */
  lemma {:induction false} YearCandidatesFrom(recs: seq<YearExtract.YearRecord>)
    ensures forall k :: 0 <= k < |YearCandidates(recs)| ==>
      exists j :: 0 <= j < |recs| && recs[j].date != "" && YearCandidates(recs)[k] == YearCandidate(recs[j])
  {
    forall k: int | 0 <= k < |YearCandidates(recs)|
      ensures exists j :: 0 <= j < |recs| && recs[j].date != "" && YearCandidates(recs)[k] == YearCandidate(recs[j])
    {
      var j := YearCandidateSource(recs, k);
      assert 0 <= j < |recs| && recs[j].date != "" && YearCandidates(recs)[k] == YearCandidate(recs[j]);
    }
    assert forall k :: 0 <= k < |YearCandidates(recs)| ==>
      exists j :: 0 <= j < |recs| && recs[j].date != "" && YearCandidates(recs)[k] == YearCandidate(recs[j]);
  }

  /** The record the `k`-th yearly candidate comes from. */
  lemma {:induction false} YearCandidateSource(recs: seq<YearExtract.YearRecord>, k: nat) returns (j: nat)
    requires k < |YearCandidates(recs)|
    ensures j < |recs| && recs[j].date != "" && YearCandidates(recs)[k] == YearCandidate(recs[j])
    decreases |recs|
  {
    var init := recs[..|recs| - 1];
    var last := recs[|recs| - 1];
    assert YearCandidates(recs) == YearCandidates(init) + StepCandidates(last);
    if k < |YearCandidates(init)| {
      j := YearCandidateSource(init, k);
      assert recs[j] == init[j];
    } else {
      j := |recs| - 1;
    }
  }

  /** No yearly candidate carries a date that no dated record carries. */
  lemma YearDatesFrom(recs: seq<YearExtract.YearRecord>, d: string)
    requires forall j :: 0 <= j < |recs| ==> recs[j].date != d
    ensures d !in Dates(YearCandidates(recs))
  {
    YearCandidatesFrom(recs);
  }

  /** The record that brings a new date is the last one: it is written as it is. */
  lemma YearLastRecordWrites(s: StoreState, recs: seq<YearExtract.YearRecord>)
    requires recs != [] && recs[|recs| - 1].date != "" && recs[|recs| - 1].date !in s.draws
    requires forall j :: 0 <= j < |recs| - 1 ==> recs[j].date != recs[|recs| - 1].date
    ensures var r := recs[|recs| - 1];
      && r.date in GateAll(s, YearCandidates(recs)).draws
      && GateAll(s, YearCandidates(recs)).draws[r.date].nums == Columns(r.nums)
      && GateAll(s, YearCandidates(recs)).draws[r.date].bonus == BonusColumn(r.bonus)
  {
    var init := recs[..|recs| - 1];
    var r := recs[|recs| - 1];
    assert forall j :: 0 <= j < |init| ==> init[j] == recs[j];
    YearDatesFrom(init, r.date);
    GateAllEffect(s, YearCandidates(init));
    GateAllSnoc(s, YearCandidates(init), YearCandidate(r));
  }

  /**
   * A date not yet stored is written by a year pass with the columns of
   * the first record that carries it; later records with the same date are
   * skipped.
   */
  lemma {:induction false} YearFirstRecordWins(s: StoreState, recs: seq<YearExtract.YearRecord>, k: nat)
    requires k < |recs| && recs[k].date != "" && recs[k].date !in s.draws
    requires forall j :: 0 <= j < k ==> recs[j].date != recs[k].date
    ensures recs[k].date in GateAll(s, YearCandidates(recs)).draws
    ensures GateAll(s, YearCandidates(recs)).draws[recs[k].date].nums == Columns(recs[k].nums)
    ensures GateAll(s, YearCandidates(recs)).draws[recs[k].date].bonus == BonusColumn(recs[k].bonus)
    decreases |recs|
  {
    if k == |recs| - 1 {
      YearLastRecordWrites(s, recs);
    } else {
      var init := recs[..|recs| - 1];
      var last := recs[|recs| - 1];
      assert init[k] == recs[k];
      assert forall j :: 0 <= j < k ==> init[j] == recs[j];
      YearFirstRecordWins(s, init, k);
      var mid := GateAll(s, YearCandidates(init));
      GateAllAppend(s, YearCandidates(init), StepCandidates(last));
      GateAllEffect(mid, StepCandidates(last));
    }
  }

  /** Scraping the same yearly page a second time stores nothing new. */
  lemma YearRerun(s: StoreState, recs: seq<YearExtract.YearRecord>)
    ensures GateAll(GateAll(s, YearCandidates(recs)), YearCandidates(recs)) == GateAll(s, YearCandidates(recs))
  {
    Idempotent(s, YearCandidates(recs));
  }

  /**
   * The date path hands a draw to the gate exactly when a selector appeared,
   * the extraction returned data and that data holds seven numbers; the
   * draw then carries those numbers and the extracted bonus.
   */
  lemma DateCandidateMeaning(dateStr: string, ready: DayExtract.Readiness, page: DayExtract.DayPage)
    ensures var found := DayExtract.FirstReady(ready, 0, 0);
      DateCandidate(dateStr, ready, page).Some? <==>
        && found.Some? && found.value < |DayExtract.Candidates|
        && DayExtract.DayEvaluate(DayExtract.Candidates[found.value], page).Some?
        && |DayExtract.DayEvaluate(DayExtract.Candidates[found.value], page).value.nums| >= 7
    ensures DateCandidate(dateStr, ready, page).Some? ==>
      var c := DateCandidate(dateStr, ready, page).value;
      var d := DayExtract.DayEvaluate(DayExtract.Candidates[DayExtract.FirstReady(ready, 0, 0).value], page).value;
      && (forall k :: 0 <= k < 7 ==> c.nums[k] == Some(d.nums[k]))
      && c.bonus == BonusColumn(d.bonus)
  {
  }

  /** The date path stores seven number columns and seven-number sets. */
  lemma DateCandidateWellFormed(dateStr: string, ready: DayExtract.Readiness, page: DayExtract.DayPage)
    ensures DateCandidate(dateStr, ready, page).Some? ==>
      && WellFormed(DateCandidate(dateStr, ready, page).value)
      && DateCandidate(dateStr, ready, page).value.date == dateStr
      && forall k :: 0 <= k < 7 ==> DateCandidate(dateStr, ready, page).value.nums[k].Some?
  {
    match DayExtract.FirstReady(ready, 0, 0)
    case None =>
    case Some(j) =>
      if j < |DayExtract.Candidates| {
        DayExtract.DayNumbersShape(DayExtract.Candidates[j], page);
      }
  }

  lemma DriverCandidatesSnoc(dates: seq<string>, i: nat, web: string -> Visit)
    requires i < |dates|
    ensures DriverCandidates(dates[..i + 1], web) == DriverCandidates(dates[..i], web) + VisitCandidates(dates[i], web(dates[i]))
  {
    var p := dates[..i + 1];
    assert p[..|p| - 1] == dates[..i];
    assert p[|p| - 1] == dates[i];
  }

  /** One more date visited by the loop of `main`. */
  lemma VisitStep(s0: StoreState, dates: seq<string>, i: nat, web: string -> Visit)
    requires i < |dates|
    ensures GateAll(s0, DriverCandidates(dates[..i + 1], web))
         == GateAll(GateAll(s0, DriverCandidates(dates[..i], web)), VisitCandidates(dates[i], web(dates[i])))
  {
    DriverCandidatesSnoc(dates, i, web);
    GateAllAppend(s0, DriverCandidates(dates[..i], web), VisitCandidates(dates[i], web(dates[i])));
  }

  /** Every candidate of the driver carries one of the dates it visited. */
  lemma {:induction false} DriverCandidatesFrom(dates: seq<string>, web: string -> Visit)
    ensures forall k :: 0 <= k < |DriverCandidates(dates, web)| ==> DriverCandidates(dates, web)[k].date in dates
    decreases |dates|
  {
    if dates != [] {
      var init := dates[..|dates| - 1];
      var d := dates[|dates| - 1];
      DriverCandidatesFrom(init, web);
      var cs := DriverCandidates(dates, web);
      assert cs == DriverCandidates(init, web) + VisitCandidates(d, web(d));
      forall k | 0 <= k < |cs| ensures cs[k].date in dates {
        if k < |DriverCandidates(init, web)| {
          assert cs[k] == DriverCandidates(init, web)[k];
          assert cs[k].date in init;
        } else {
          assert cs[k] in VisitCandidates(d, web(d));
        }
      }
    }
  }

  /** A date the driver writes that was not stored before is one of the dates it visited. */
  lemma DriverNewKeys(s: StoreState, dates: seq<string>, web: string -> Visit, d: string)
    requires var after := GateAll(s, DriverCandidates(dates, web)); d in after.draws && d !in s.draws
    ensures d in dates
  {
    var cs := DriverCandidates(dates, web);
    GateAllEffect(s, cs);
    DriverCandidatesFrom(dates, web);
    assert d in Dates(cs);
    var k :| 0 <= k < |cs| && cs[k].date == d;
  }

  /**
   * The driver writes draws only under dates that are Tuesdays or Fridays
   * of its year, and never changes a draw already stored.
   */
  lemma DriverDates(s: StoreState, web: string -> Visit, year: int)
    ensures var dates := Calendar.DrawDates(year);
      var y := Calendar.EffectiveYear(year);
      var after := GateAll(s, DriverCandidates(dates[..Reached(dates, web)], web));
      && (forall d :: d in after.draws && d !in s.draws ==>
            exists m, day :: Calendar.ValidDate(y, m, day) && Calendar.IsDrawDay(y, m, day)
                          && d == Calendar.DateString(y, m, day))
      && (forall d :: d in s.draws ==> d in after.draws && after.draws[d] == s.draws[d])
  {
    var dates := Calendar.DrawDates(year);
    var visited := dates[..Reached(dates, web)];
    var cs := DriverCandidates(visited, web);
    GateAllEffect(s, cs);
    var after := GateAll(s, cs);
    forall d | d in after.draws && d !in s.draws
      ensures exists m, day :: Calendar.ValidDate(Calendar.EffectiveYear(year), m, day)
                            && Calendar.IsDrawDay(Calendar.EffectiveYear(year), m, day)
                            && d == Calendar.DateString(Calendar.EffectiveYear(year), m, day)
    {
      DriverNewKeys(s, visited, web, d);
      assert d in dates;
      Calendar.DrawDatesMeaning(year, d);
    }
  }

  /** Running the driver again over the same pages stores nothing new. */
  lemma DriverRerun(s: StoreState, web: string -> Visit, year: int)
    ensures var dates := Calendar.DrawDates(year);
      var cs := DriverCandidates(dates[..Reached(dates, web)], web);
      GateAll(GateAll(s, cs), cs) == GateAll(s, cs)
  {
    var dates := Calendar.DrawDates(year);
    Idempotent(s, DriverCandidates(dates[..Reached(dates, web)], web));
  }
}
