/**
 * `getTuesdaysAndFridays(year)`: every Tuesday and Friday of a year, as
 * "YYYY-MM-DD" strings in calendar order. The JavaScript `Date` it relies on
 * is modelled by the proleptic Gregorian calendar: a day count from
 * 1970-01-01 (a Thursday) gives the weekday, and `new Date(year, m + 1, 0)`
 * gives the length of month `m`.
 */
module Calendar {
  import opened JsText

  /** `new Date(year, ...)` reads a year from 0 to 99 as 1900 + year. */
  function EffectiveYear(year: int): (y: int)
    ensures 0 <= year <= 99 ==> y == 1900 + year
    ensures (year < 0 || year > 99) ==> y == year
  {
    if 0 <= year <= 99 then 1900 + year else year
  }

  predicate IsLeap(y: int) {
    y % 4 == 0 && (y % 100 != 0 || y % 400 == 0)
  }

  /** `new Date(y, m, 0).getDate()`: the number of days of month `m` (1 to 12). */
  function DaysInMonth(y: int, m: int): (n: int)
    requires 1 <= m <= 12
    ensures 28 <= n <= 31
    ensures m == 2 ==> (n == 29 <==> IsLeap(y))
  {
    if m == 2 then (if IsLeap(y) then 29 else 28)
    else if m == 4 || m == 6 || m == 9 || m == 11 then 30
    else 31
  }

  predicate ValidDate(y: int, m: int, d: int) {
    1 <= m <= 12 && 1 <= d <= DaysInMonth(y, m)
  }

  /**
   * Days from 1970-01-01 to y-m-d, counting by 400-year eras of 146097 days
   * with the year starting in March (Dafny's `/` on a positive divisor
   * rounds down, as the algorithm needs).
   */
  function DaysFromCivil(y: int, m: int, d: int): int
    requires 1 <= m <= 12
  {
    var y' := if m <= 2 then y - 1 else y;
    var era := y' / 400;
    var yoe := y' - era * 400;
    var mp := if m > 2 then m - 3 else m + 9;
    var doy := (153 * mp + 2) / 5 + d - 1;
    var doe := yoe * 365 + yoe / 4 - yoe / 100 + doy;
    era * 146097 + doe - 719468
  }

  /** `getDay()`: 0 is Sunday, 2 Tuesday, 5 Friday. */
  function Weekday(y: int, m: int, d: int): (w: int)
    requires 1 <= m <= 12
    ensures 0 <= w < 7
  {
    (DaysFromCivil(y, m, d) + 4) % 7
  }

  predicate IsDrawDay(y: int, m: int, d: int)
    requires 1 <= m <= 12
  {
    Weekday(y, m, d) == 2 || Weekday(y, m, d) == 5
  }

  /** `String(n).padStart(2, "0")`. */
  function Pad2(n: int): string {
    PadStart(IntToString(n), 2, '0')
  }

  /** `${y}-${mm}-${dd}`. */
  function DateString(y: int, m: int, d: int): string {
    IntToString(y) + "-" + Pad2(m) + "-" + Pad2(d)
  }

  /** The draw days among days 1 to `n` of month `m`, in order. */
  function DayDates(y: int, m: int, n: nat): seq<string>
    requires 1 <= m <= 12
  {
    if n == 0 then []
    else DayDates(y, m, n - 1) + (if IsDrawDay(y, m, n) then [DateString(y, m, n)] else [])
  }

  /** The draw days of months 1 to `k`, in order. */
  function MonthsDates(y: int, k: nat): seq<string>
    requires k <= 12
  {
    if k == 0 then [] else MonthsDates(y, k - 1) + DayDates(y, k, DaysInMonth(y, k))
  }

  function DrawDates(year: int): seq<string> {
    MonthsDates(EffectiveYear(year), 12)
  }

  /** `getTuesdaysAndFridays(year)`. */
  method GetTuesdaysAndFridays(year: int) returns (dates: seq<string>)
    ensures dates == DrawDates(year)
  {
    var y := EffectiveYear(year);
    dates := [];
    for m := 0 to 12
      invariant dates == MonthsDates(y, m)
    {
      var days := DaysInMonth(y, m + 1);
      for d := 1 to days + 1
        invariant dates == MonthsDates(y, m) + DayDates(y, m + 1, d - 1)
      {
        var weekday := Weekday(y, m + 1, d);
        if weekday == 2 || weekday == 5 {
          dates := dates + [DateString(y, m + 1, d)];
        }
      }
    }
  }

  // ================================================================ lemmas

  /** 1970-01-01 is day 0, a Thursday; 2025-01-07 is a Tuesday and 2025-01-10 a Friday. */
  lemma Anchors()
    ensures DaysFromCivil(1970, 1, 1) == 0 && Weekday(1970, 1, 1) == 4
    ensures Weekday(2025, 1, 7) == 2 && Weekday(2025, 1, 10) == 5
    ensures Weekday(2024, 2, 29) == 4
  {
    CivilInEra(1970, 1, 1, 4, 369);
    CivilInEra(2025, 1, 7, 5, 24);
    CivilInEra(2025, 1, 10, 5, 24);
    CivilInEra(2024, 2, 29, 5, 23);
  }

  /** Within a month, the day count and hence the weekday advance by one each day. */
  lemma NextDayInMonth(y: int, m: int, d: int)
    requires 1 <= m <= 12
    ensures DaysFromCivil(y, m, d + 1) == DaysFromCivil(y, m, d) + 1
    ensures Weekday(y, m, d + 1) == (Weekday(y, m, d) + 1) % 7
  {
  }

  /** The last day of a month and the first of the next are consecutive, December to January included. */
  lemma NextMonth(y: int, m: int)
    requires 1 <= m <= 12
    ensures m < 12 ==> DaysFromCivil(y, m + 1, 1) == DaysFromCivil(y, m, DaysInMonth(y, m)) + 1
    ensures m == 12 ==> DaysFromCivil(y + 1, 1, 1) == DaysFromCivil(y, 12, 31) + 1
  {
    if m == 2 {
      FebruaryToMarch(y);
    }
  }

  /** March 1 follows February 28, or February 29 in a leap year. */
  lemma FebruaryToMarch(y: int)
    ensures DaysFromCivil(y, 3, 1) == DaysFromCivil(y, 2, DaysInMonth(y, 2)) + 1
  {
    var p := y - 1;
    var era := p / 400;
    var yoe := p - era * 400;
    if yoe == 399 {
      EraBoundary(y, era);
    } else {
      InsideEra(y, era, yoe + 1);
    }
  }

  /**
   * The day count of y-m-d once the March-based year is split into its era
   * and its year of era.
   */
  lemma CivilInEra(y: int, m: int, d: int, era: int, yoe: int)
    requires 1 <= m <= 12 && 0 <= yoe < 400
    requires (if m <= 2 then y - 1 else y) == era * 400 + yoe
    ensures DaysFromCivil(y, m, d) ==
      era * 146097 + yoe * 365 + yoe / 4 - yoe / 100
      + (153 * (if m > 2 then m - 3 else m + 9) + 2) / 5 + d - 1 - 719468
  {
    var p := if m <= 2 then y - 1 else y;
    assert p / 400 == era;
  }

  lemma EraBoundary(y: int, era: int)
    requires y == (era + 1) * 400
    ensures DaysFromCivil(y, 3, 1) == DaysFromCivil(y, 2, DaysInMonth(y, 2)) + 1
  {
    ShiftMod4((era + 1) * 100, 0);
    ShiftMod100((era + 1) * 4, 0);
    ShiftMod400(era + 1, 0);
    assert DaysInMonth(y, 2) == 29;
    CivilInEra(y, 3, 1, era + 1, 0);
    CivilInEra(y, 2, 29, era, 399);
  }

  lemma InsideEra(y: int, era: int, yoe: int)
    requires 1 <= yoe < 400 && y == era * 400 + yoe
    ensures DaysFromCivil(y, 3, 1) == DaysFromCivil(y, 2, DaysInMonth(y, 2)) + 1
  {
    LeapInEra(y, era, yoe);
    LeapSteps(yoe);
    var feb := DaysInMonth(y, 2);
    assert feb == 28 + (yoe / 4 - (yoe - 1) / 4) - (yoe / 100 - (yoe - 1) / 100);
    CivilInEra(y, 3, 1, era, yoe);
    CivilInEra(y, 2, feb, era, yoe - 1);
  }

  /** Going from year-of-era `yoe - 1` to `yoe`, the leap days counted grow by one exactly when `yoe` is a leap year. */
  lemma LeapSteps(yoe: int)
    requires 1 <= yoe < 400
    ensures var q := yoe / 4 - (yoe - 1) / 4; var c := yoe / 100 - (yoe - 1) / 100;
      q - c == (if yoe % 4 == 0 && yoe % 100 != 0 then 1 else 0)
  {
    QuarterStep(yoe);
    CenturyStep(yoe);
    if yoe % 100 == 0 {
      ShiftMod4(25 * (yoe / 100), 0);
    }
  }

  /** Inside an era, the leap rule on `y` is the leap rule on its year-of-era. */
  lemma LeapInEra(y: int, era: int, yoe: int)
    requires 1 <= yoe < 400 && y == era * 400 + yoe
    ensures IsLeap(y) <==> yoe % 4 == 0 && yoe % 100 != 0
  {
    ShiftMod4(era * 100, yoe);
    ShiftMod100(era * 4, yoe);
    ShiftMod400(era, yoe);
  }

  lemma ShiftMod4(k: int, r: int)
    ensures (4 * k + r) % 4 == r % 4
  {
  }

  lemma ShiftMod100(k: int, r: int)
    ensures (100 * k + r) % 100 == r % 100
  {
  }

  lemma ShiftMod400(k: int, r: int)
    ensures (400 * k + r) % 400 == r % 400
  {
  }

  /** A leap day enters the count at every multiple of 4. */
  lemma QuarterStep(yoe: int)
    requires 1 <= yoe
    ensures yoe / 4 - (yoe - 1) / 4 == if yoe % 4 == 0 then 1 else 0
  {
  }

  /** A leap day leaves the count at every multiple of 100. */
  lemma CenturyStep(yoe: int)
    requires 1 <= yoe
    ensures yoe / 100 - (yoe - 1) / 100 == if yoe % 100 == 0 then 1 else 0
  {
  }

  // ---------------------------------------------------------------- membership

  lemma {:induction false} DayDatesMembers(y: int, m: int, n: nat)
    requires 1 <= m <= 12
    ensures forall x :: x in DayDates(y, m, n) <==>
      exists d :: 1 <= d <= n && IsDrawDay(y, m, d) && x == DateString(y, m, d)
  {
    if n > 0 {
      DayDatesMembers(y, m, n - 1);
    }
  }

  lemma {:induction false} MonthsDatesMembers(y: int, k: nat)
    requires k <= 12
    ensures forall x :: x in MonthsDates(y, k) <==>
      exists m, d :: 1 <= m <= k && ValidDate(y, m, d) && IsDrawDay(y, m, d) && x == DateString(y, m, d)
  {
    if k > 0 {
      MonthsDatesMembers(y, k - 1);
      DayDatesMembers(y, k, DaysInMonth(y, k));
      forall x ensures x in MonthsDates(y, k) <==>
        exists m, d :: 1 <= m <= k && ValidDate(y, m, d) && IsDrawDay(y, m, d) && x == DateString(y, m, d)
      {
        if exists m, d :: 1 <= m <= k && ValidDate(y, m, d) && IsDrawDay(y, m, d) && x == DateString(y, m, d) {
          var m, d :| 1 <= m <= k && ValidDate(y, m, d) && IsDrawDay(y, m, d) && x == DateString(y, m, d);
          if m == k {
            assert x in DayDates(y, k, DaysInMonth(y, k));
          }
        }
      }
    }
  }

  /**
   * A string is listed exactly when it is the date of a Tuesday or a Friday
   * of the (effective) year.
   */
  lemma DrawDatesMeaning(year: int, x: string)
    ensures var y := EffectiveYear(year);
      x in DrawDates(year) <==>
      exists m, d :: ValidDate(y, m, d) && IsDrawDay(y, m, d) && x == DateString(y, m, d)
  {
    MonthsDatesMembers(EffectiveYear(year), 12);
  }

  // ---------------------------------------------------------------- order

  predicate StrictlyIncreasing(s: seq<string>) {
    forall i, j :: 0 <= i < j < |s| ==> StrLess(s[i], s[j])
  }

  lemma {:induction false} StrLessAt(a: string, b: string, k: nat)
    requires k < |a| && k < |b| && a[..k] == b[..k] && a[k] < b[k]
    ensures StrLess(a, b)
    decreases k
  {
    if k > 0 {
      assert a[0] == a[..k][0] == b[..k][0] == b[0];
      assert a[1..][..k - 1] == a[..k][1..] == b[..k][1..] == b[1..][..k - 1];
      StrLessAt(a[1..], b[1..], k - 1);
    }
  }

  lemma Pad2Digits(n: int)
    requires 1 <= n <= 99
    ensures Pad2(n) == [DigitChar(n / 10), DigitChar(n % 10)]
  {
    if n >= 10 {
      assert NatToString(n) == NatToString(n / 10) + [DigitChar(n % 10)];
      assert NatToString(n / 10) == [DigitChar(n / 10)];
    } else {
      assert NatToString(n) == [DigitChar(n)];
      assert PadStart([DigitChar(n)], 1, '0') == [DigitChar(n)];
      assert DigitChar(0) == '0';
    }
  }

  /** After the common "YYYY-", the month and day text of a date. */
  lemma DateStringSplit(y: int, m: int, d: int)
    requires 1 <= m <= 12 && 1 <= d <= 99
    ensures DateString(y, m, d) == (IntToString(y) + "-") + MonthDayText(m, d)
  {
    Pad2Digits(m);
    Pad2Digits(d);
  }

  /** "MM-DD" texts. */
  function MonthDayText(m: int, d: int): string
    requires 1 <= m <= 12 && 1 <= d <= 99
  {
    [DigitChar(m / 10), DigitChar(m % 10), '-', DigitChar(d / 10), DigitChar(d % 10)]
  }

  /** Dates of one year compare as strings as they compare in time. */
  lemma DateStringOrder(y: int, m1: int, d1: int, m2: int, d2: int)
    requires 1 <= m1 <= 12 && 1 <= d1 <= 99 && 1 <= m2 <= 12 && 1 <= d2 <= 99
    requires m1 < m2 || (m1 == m2 && d1 < d2)
    ensures StrLess(DateString(y, m1, d1), DateString(y, m2, d2))
  {
    DateStringSplit(y, m1, d1);
    DateStringSplit(y, m2, d2);
    MonthDayOrder(m1, d1, m2, d2);
    StrLessCommonPrefix(IntToString(y) + "-", MonthDayText(m1, d1), MonthDayText(m2, d2));
  }

  lemma MonthDayOrder(m1: int, d1: int, m2: int, d2: int)
    requires 1 <= m1 <= 12 && 1 <= d1 <= 99 && 1 <= m2 <= 12 && 1 <= d2 <= 99
    requires m1 < m2 || (m1 == m2 && d1 < d2)
    ensures StrLess(MonthDayText(m1, d1), MonthDayText(m2, d2))
  {
    var a := MonthDayText(m1, d1);
    var b := MonthDayText(m2, d2);
    if m1 / 10 != m2 / 10 {
      StrLessAt(a, b, 0);
    } else if m1 % 10 != m2 % 10 {
      StrLessAt(a, b, 1);
    } else if d1 / 10 != d2 / 10 {
      assert m1 == m2;
      StrLessAt(a, b, 3);
    } else {
      assert m1 == m2;
      StrLessAt(a, b, 4);
    }
  }

  lemma DayDatesIncreasing(y: int, m: int, n: nat)
    requires 1 <= m <= 12 && n <= DaysInMonth(y, m)
    ensures StrictlyIncreasing(DayDates(y, m, n))
    ensures forall i :: 0 <= i < |DayDates(y, m, n)| ==> StrLess(DayDates(y, m, n)[i], DateString(y, m, n + 1))
  {
    DayDatesOrdered(y, m, n);
    DayDatesBefore(y, m, n);
  }

  lemma {:induction false} DayDatesOrdered(y: int, m: int, n: nat)
    requires 1 <= m <= 12 && n <= DaysInMonth(y, m)
    ensures StrictlyIncreasing(DayDates(y, m, n))
  {
    if n > 0 {
      DayDatesOrdered(y, m, n - 1);
      DayDatesBefore(y, m, n - 1);
      var s := DayDates(y, m, n - 1);
      var t := DayDates(y, m, n);
      assert t == s + (if IsDrawDay(y, m, n) then [DateString(y, m, n)] else []);
      forall i, j | 0 <= i < j < |t| ensures StrLess(t[i], t[j]) {
        if j < |s| {
          assert t[i] == s[i] && t[j] == s[j];
        } else {
          assert t[i] == s[i] && t[j] == DateString(y, m, n);
        }
      }
    }
  }

  /** Every draw date among days 1 to `n` comes before day `n + 1`. */
  lemma {:induction false} DayDatesBefore(y: int, m: int, n: nat)
    requires 1 <= m <= 12 && n <= DaysInMonth(y, m)
    ensures forall i :: 0 <= i < |DayDates(y, m, n)| ==> StrLess(DayDates(y, m, n)[i], DateString(y, m, n + 1))
  {
    if n > 0 {
      DayDatesBefore(y, m, n - 1);
      DateStringOrder(y, m, n, m, n + 1);
      var s := DayDates(y, m, n - 1);
      var t := DayDates(y, m, n);
      assert t == s + (if IsDrawDay(y, m, n) then [DateString(y, m, n)] else []);
      forall i | 0 <= i < |t| ensures StrLess(t[i], DateString(y, m, n + 1)) {
        if i < |s| {
          assert t[i] == s[i];
          StrLessTransitive(s[i], DateString(y, m, n), DateString(y, m, n + 1));
        }
      }
    }
  }

  /** Every draw date of month `k` comes after every draw date of the months before it. */
  lemma MonthAfterEarlier(y: int, k: nat, s: seq<string>)
    requires 1 <= k <= 12
    requires forall i :: 0 <= i < |s| ==> StrLess(s[i], DateString(y, k, 1))
    ensures forall i, j :: 0 <= i < |s| && 0 <= j < |DayDates(y, k, DaysInMonth(y, k))| ==>
      StrLess(s[i], DayDates(y, k, DaysInMonth(y, k))[j])
  {
    var t := DayDates(y, k, DaysInMonth(y, k));
    DayDatesMembers(y, k, DaysInMonth(y, k));
    forall i, j | 0 <= i < |s| && 0 <= j < |t| ensures StrLess(s[i], t[j]) {
      assert t[j] in t;
      var d :| 1 <= d <= DaysInMonth(y, k) && IsDrawDay(y, k, d) && t[j] == DateString(y, k, d);
      if d > 1 {
        DateStringOrder(y, k, 1, k, d);
        StrLessTransitive(s[i], DateString(y, k, 1), t[j]);
      }
    }
  }

  /** Every draw date up to month `k` comes before the first day of month `k + 1`. */
  lemma BeforeNextMonth(y: int, k: nat, s: seq<string>)
    requires 1 <= k < 12
    requires forall i :: 0 <= i < |s| ==> StrLess(s[i], DateString(y, k, 1))
    ensures forall i :: 0 <= i < |s + DayDates(y, k, DaysInMonth(y, k))| ==>
      StrLess((s + DayDates(y, k, DaysInMonth(y, k)))[i], DateString(y, k + 1, 1))
  {
    var t := DayDates(y, k, DaysInMonth(y, k));
    DayDatesIncreasing(y, k, DaysInMonth(y, k));
    DateStringOrder(y, k, DaysInMonth(y, k) + 1, k + 1, 1);
    DateStringOrder(y, k, 1, k + 1, 1);
    forall i | 0 <= i < |s + t| ensures StrLess((s + t)[i], DateString(y, k + 1, 1)) {
      if i < |s| {
        assert (s + t)[i] == s[i];
        StrLessTransitive(s[i], DateString(y, k, 1), DateString(y, k + 1, 1));
      } else {
        assert (s + t)[i] == t[i - |s|];
        StrLessTransitive(t[i - |s|], DateString(y, k, DaysInMonth(y, k) + 1), DateString(y, k + 1, 1));
      }
    }
  }

  lemma {:induction false} MonthsDatesIncreasing(y: int, k: nat)
    requires k <= 12
    ensures StrictlyIncreasing(MonthsDates(y, k))
    ensures k < 12 ==> forall i :: 0 <= i < |MonthsDates(y, k)| ==> StrLess(MonthsDates(y, k)[i], DateString(y, k + 1, 1))
  {
    if k > 0 {
      MonthsDatesIncreasing(y, k - 1);
      var s := MonthsDates(y, k - 1);
      DayDatesIncreasing(y, k, DaysInMonth(y, k));
      MonthAfterEarlier(y, k, s);
      ConcatIncreasing(s, DayDates(y, k, DaysInMonth(y, k)));
      if k < 12 {
        BeforeNextMonth(y, k, s);
      }
    }
  }

  lemma ConcatIncreasing(s: seq<string>, t: seq<string>)
    requires StrictlyIncreasing(s) && StrictlyIncreasing(t)
    requires forall i, j :: 0 <= i < |s| && 0 <= j < |t| ==> StrLess(s[i], t[j])
    ensures StrictlyIncreasing(s + t)
  {
    forall i, j | 0 <= i < j < |s + t| ensures StrLess((s + t)[i], (s + t)[j]) {
      if j < |s| {
        assert (s + t)[i] == s[i] && (s + t)[j] == s[j];
      } else if i < |s| {
        assert (s + t)[i] == s[i] && (s + t)[j] == t[j - |s|];
      } else {
        assert (s + t)[i] == t[i - |s|] && (s + t)[j] == t[j - |s|];
      }
    }
  }

  /** The list is in calendar order with no date twice. */
  lemma DrawDatesIncreasing(year: int)
    ensures StrictlyIncreasing(DrawDates(year))
    ensures forall i, j :: 0 <= i < j < |DrawDates(year)| ==> DrawDates(year)[i] != DrawDates(year)[j]
  {
    MonthsDatesIncreasing(EffectiveYear(year), 12);
    forall i, j | 0 <= i < j < |DrawDates(year)| ensures DrawDates(year)[i] != DrawDates(year)[j] {
      StrLessIrreflexive(DrawDates(year)[i]);
    }
  }
}
