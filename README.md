# Lotto Max results: scrapers, import and queries, in Dafny

This project models the data path of a Lotto Max results site. Three
programs fill the SQLite table `tirages` with draws: seven main numbers, a
bonus, a `premium` flag and the Maxmillions sets held in `maxmillions`.
GraphQL resolvers then read that table back.

- **Yearly scraper** (`backend/scrapers/scrape_year.js`):
  - the in-page extraction of the yearly result table, in its 2024 layout
    and its 2009–2023 layout (module `YearExtract`);
  - the extraction of one results page by date, with its selector retry
    loop and its two page shapes (module `DayExtract`);
  - `getTuesdaysAndFridays` (module `Calendar`);
  - the check-then-insert persistence shared by both paths, and the 2025
    driver of `main` (modules `Store` and `Scraper`).
- **Daily scraper** (`backend/scrapers/scrape_today.js`): keeps the
  `.item.resultats` entry of today's date (module `ScrapeToday`).
- **Resolvers** (`backend/graphql/resolvers.js`): `tirages`, `occurrences`,
  `availableDates`, `calculerProbabilite` and `simulateDraw`, with SQL
  `WHERE`, `ORDER BY`, `LIMIT`/`OFFSET` and `DISTINCT` written out as
  functions on the table's rows (module `Resolvers`).
- **CSV import** (`backend/import-tirages.js`): empties `tirages`, then
  loads a CSV file in one transaction (module `ImportTirages`).

Module `JsText` gives the JavaScript string and number primitives these
programs rely on:

- `trim`;
- `parseInt` with and without a radix, including the `0x` prefix;
- `replace(/\D/g, "")`;
- `String(n)`, `padStart` and `split`;
- string comparison.

A JavaScript NaN is `None` in `Token = Option<int>`, and so is SQLite's
NULL.

The mutable parts have the source's shape:

- The scrapers' database is the class `Store.DrawStore`. It holds the draws
  by date, the Maxmillions sets by draw id and the next AUTOINCREMENT id.
  Its methods update these fields, and its invariant `Valid` is kept by
  every method. Every write path of the scrapers is proved equal to a pure
  "gate" function (`Store.Gate`, `Store.GateAll`): at most one draw per
  date, and the first candidate for a date wins.
- The import's table is the class `ImportTirages.TirageTable`. It has
  `DELETE`, `BEGIN`, `ROLLBACK` and `INSERT` methods, and the whole run is
  tied to a pure description, `ImportTirages.ImportRun`.

Whatever depends on the network or the browser is a parameter:

- which selector has appeared, and when (`DayExtract.Readiness`);
- whether navigation throws (`Scraper.Visit`);
- the page contents, reduced to the texts the code queries;
- today's date;
- the draw strategies.

## Model

| member | source | states |
|---|---|---|
| JsText.TrimMeaning | backend/scrapers/scrape_year.js:51 | `trim` leaves no white space at either end; the result is empty exactly when the string is all white space |
| JsText.TrimStartMeaning | backend/scrapers/scrape_year.js:51 | `trimStart` keeps the longest suffix not starting with white space, and removes only white space |
| JsText.TrimEndMeaning | backend/scrapers/scrape_year.js:51 | `trimEnd` keeps the longest prefix not ending with white space, and removes only white space |
| JsText.ParseInt10RoundTrip | backend/scrapers/scrape_year.js:69 | `parseInt(String(n), 10)` gives back `n`, negative numbers included |
| JsText.ParseIntRoundTrip | backend/graphql/resolvers.js:69-70 | `parseInt(String(n))` with no radix also gives `n`, and `trim` leaves the numeral unchanged |
| JsText.ParseIntSkipsSpace | backend/scrapers/scrape_today.js:36 | leading white space never changes what `parseInt` reads |
| JsText.HexPrefix | backend/import-tirages.js:102 | without a radix `parseInt` reads `0x1A` as 26; with radix 10 it reads 0 |
| JsText.OnlyDigits | backend/scrapers/scrape_year.js:212 | `replace(/\D/g, "")` keeps only digits, and is empty exactly when the text has none |
| JsText.ParseDigitsMeaning | backend/scrapers/scrape_year.js:212 | stripping non-digits and then parsing gives NaN exactly when the text has no digit; otherwise the value is never negative |
| JsText.ParenthesisedIsNaN | backend/scrapers/scrape_year.js:73-75 | the bonus text "(12)" is NaN for `parseInt(_, 10)` |
| JsText.ParenthesisedDigits | backend/scrapers/scrape_year.js:73-75 | the bonus text "(12)" reads as 12 once its non-digits are stripped |
| JsText.PadStartMeaning | backend/scrapers/scrape_year.js:339-340 | `padStart` fills on the left up to the width and keeps the string as its suffix |
| JsText.SplitJoin | backend/import-tirages.js:99 | `split` on one character, then `join`, gives the string back; no part holds the separator |
| JsText.StrLessTransitive | backend/graphql/resolvers.js:45 | the text order of `ORDER BY date` is transitive |
| JsText.StrLessTotal | backend/graphql/resolvers.js:45 | two different texts are always ordered one way or the other |
| JsText.StrLessCommonPrefix | backend/graphql/resolvers.js:45 | texts with a common prefix compare as what follows the prefix |
| Calendar.DaysInMonth | backend/scrapers/scrape_year.js:333 | `new Date(y, m, 0).getDate()` is 28 to 31, and February has 29 days exactly in leap years |
| Calendar.Weekday | backend/scrapers/scrape_year.js:336 | `getDay()` is in 0..6 |
| Calendar.Anchors | backend/scrapers/scrape_year.js:336-337 | 1970-01-01 is day 0, a Thursday; 2025-01-07 is a Tuesday and 2025-01-10 a Friday |
| Calendar.NextDayInMonth | backend/scrapers/scrape_year.js:334-336 | within a month, the next day is one day and one weekday later |
| Calendar.NextMonth | backend/scrapers/scrape_year.js:332-336 | the last day of a month and the first day of the next are consecutive, December to January included |
| Calendar.FebruaryToMarch | backend/scrapers/scrape_year.js:333 | March 1 follows February's last day, in every year and across 400-year eras |
| Calendar.GetTuesdaysAndFridays | backend/scrapers/scrape_year.js:330-346 | the nested month and day loops return the draw-date list `DrawDates(year)` |
| Calendar.DrawDatesMeaning | backend/scrapers/scrape_year.js:330-346 | a string is listed exactly when it is `YYYY-MM-DD` for a Tuesday or Friday of the effective year |
| Calendar.DrawDatesIncreasing | backend/scrapers/scrape_year.js:330-346 | the list is strictly increasing in text order, so in calendar order and without duplicates |
| Calendar.DateStringOrder | backend/scrapers/scrape_year.js:339-341 | dates of one year compare as text as they compare in time |
| Calendar.Pad2Digits | backend/scrapers/scrape_year.js:339-340 | a month or day from 1 to 99 is written as exactly two digits |
| Store.DrawStore.constructor | backend/scrapers/scrape_year.js:8-23 | both tables start empty, the next id is 1, and the store invariant holds |
| Store.DrawStore.HasDate | backend/scrapers/scrape_year.js:121-123 | the existence check is true exactly when a draw is stored under the date |
| Store.DrawStore.InsertDraw | backend/scrapers/scrape_year.js:132-142 | a new date is stored with the next id, and that id is returned; a stored date is refused by UNIQUE and nothing changes |
| Store.DrawStore.InsertMaxSet | backend/scrapers/scrape_year.js:145-152 | one set is appended to the sets of an existing draw id; nothing else changes |
| Store.DrawStore.InsertMaxSets | backend/scrapers/scrape_year.js:144-153 | every set is appended, in order, under the new draw's id; draws and ids are unchanged |
| Store.DrawStore.Persist | backend/scrapers/scrape_year.js:121-153 | the check, the insert and the set inserts change the store as `Gate` says; `inserted` is true exactly when the date was new |
| Store.InsertConsistent | backend/scrapers/scrape_year.js:8-23 | storing a draw under a new date, with the next id and seven-number sets, keeps the store consistent |
| Store.GateConsistent | backend/scrapers/scrape_year.js:117-154 | one pass of the gate keeps the store consistent |
| Store.GateAllConsistent | backend/scrapers/scrape_year.js:117-154 | a sequence of passes keeps the store consistent |
| Store.GateAllEffect | backend/scrapers/scrape_year.js:117-154 | afterwards the stored dates are the old ones plus the candidates' dates; old draws and sets are untouched, and ids only grow |
| Store.GateAllKnown | backend/scrapers/scrape_year.js:121-127 | when every candidate's date is already stored, nothing is written |
| Store.Idempotent | backend/scrapers/scrape_year.js:121-127 | gating the same candidates twice leaves the store as gating them once does |
| Store.FirstCandidateWins | backend/scrapers/scrape_year.js:121-142 | a new date is stored with the numbers and bonus of the first candidate that carries it |
| Store.SetsOwnedByNewDraws | backend/scrapers/scrape_year.js:144-153 | every set a pass writes belongs to a draw id that the same pass created |
| YearExtract.Parseable | backend/scrapers/scrape_year.js:70 | the NaN filter keeps only numbers and never lengthens the list |
| YearExtract.ParseableAppend | backend/scrapers/scrape_year.js:70 | the filter keeps the spans' order: filtering a concatenation is the concatenation of the filtered parts |
| YearExtract.ParseableOne | backend/scrapers/scrape_year.js:70 | one span is kept, as it is, exactly when it is a number |
| YearExtract.ParseableCount | backend/scrapers/scrape_year.js:70 | the filter drops exactly the NaN spans: its length is the number of spans less the number of NaNs |
| YearExtract.Take | backend/scrapers/scrape_year.js:71 | `slice(0, n)` keeps `min(n, length)` elements |
| YearExtract.FindLabel | backend/scrapers/scrape_year.js:62 | `findIndex` returns the first labelled div, or -1 when no div is labelled |
| YearExtract.CollectSevens | backend/scrapers/scrape_year.js:85-108 | the `forEach` keeps exactly the parsed span lists of length seven, in order |
| YearExtract.SevenSetsMeaning | backend/scrapers/scrape_year.js:85-108 | a Maxmillions set is the parse of a span list of exactly seven entries, and every such list gives one |
| YearExtract.ExtractNewLayout | backend/scrapers/scrape_year.js:64-92 | the 2024 branch builds the record `NewLayout`, or throws when no div follows the label |
| YearExtract.ExtractLegacy | backend/scrapers/scrape_year.js:95-110 | the 2009–2023 branch builds the record `Legacy`, or null without `.principal` |
| YearExtract.ExtractRow | backend/scrapers/scrape_year.js:47-110 | the row callback returns the row's record, null, or the error that rejects the page |
| YearExtract.ExtractPage | backend/scrapers/scrape_year.js:45-113 | `$$eval` returns the records in row order, each dated and well formed, no more than there are rows; or the page fails |
| YearExtract.SkippedRow | backend/scrapers/scrape_year.js:48-52 | header rows and rows without a date give null; a record carries its row's date |
| YearExtract.RowRecordShape | backend/scrapers/scrape_year.js:47-110 | every record has at most seven main numbers and only seven-number sets |
| YearExtract.TrailingSetsShape | backend/scrapers/scrape_year.js:78-89 | every Maxmillions set kept in the 2024 layout has exactly seven entries |
| YearExtract.PageRecordsShape | backend/scrapers/scrape_year.js:45-113 | the page's records are dated and well formed, no more than there are rows |
| YearExtract.PageFailureSticks | backend/scrapers/scrape_year.js:45-66 | one row that throws makes the whole page fail |
| YearExtract.LabelInLastDivFails | backend/scrapers/scrape_year.js:66 | a "tirage principal" label in the last div throws, and every page holding that row fails |
| YearExtract.NewLayoutRecord | backend/scrapers/scrape_year.js:64-91 | a 2024-layout row yields the numbers, bonus and sets read from the div after the label |
| YearExtract.NewLayoutNumbers | backend/scrapers/scrape_year.js:68-71 | the main numbers are the first seven spans that parse, in order; there are seven exactly when at least seven spans are not NaN |
| YearExtract.NewLayoutBonus | backend/scrapers/scrape_year.js:73-76 | the bonus is span 7 parsed on its own, and null when the div has fewer than eight spans |
| YearExtract.LegacyLayout | backend/scrapers/scrape_year.js:95-110 | without `.principal` there is no record; otherwise the first seven spans as parsed (NaN kept), and the eighth as bonus unless it is missing, 0 or NaN |
| YearExtract.LayoutsAgree | backend/scrapers/scrape_year.js:64-102 | on eight plain integers with a non-zero eighth, both layouts give the same numbers and bonus |
| YearExtract.AllParseable | backend/scrapers/scrape_year.js:70 | the NaN filter keeps a list with no NaN unchanged |
| DayExtract.ChooseSelector | backend/scrapers/scrape_year.js:179-194 | the retry loop returns the first (attempt, candidate) pair, in loop order, at which a selector appeared |
| DayExtract.FirstReadyMeaning | backend/scrapers/scrape_year.js:179-196 | nothing is found exactly when no candidate appears in any remaining attempt; a found candidate appeared at some attempt, and no (attempt, candidate) pair the loop visits before it was ready |
| DayExtract.StructuredCandidates | backend/scrapers/scrape_year.js:216 | the first three selectors lead to the structured-zone branch |
| DayExtract.TableCandidates | backend/scrapers/scrape_year.js:253 | the last two selectors lead to the table branch |
| DayExtract.ParseNums | backend/scrapers/scrape_year.js:210-213 | `parseNumsFromNode` never returns more values than texts |
| DayExtract.ParseNumsMeaning | backend/scrapers/scrape_year.js:210-213 | every value is non-negative, and no text is dropped exactly when every text has a digit |
| DayExtract.ParseNumsAppend | backend/scrapers/scrape_year.js:210-213 | the values keep the texts' order: those of a concatenation are the values of the first part, then of the second |
| DayExtract.ParseNumsOne | backend/scrapers/scrape_year.js:210-213 | one text gives its digits' value once, or nothing when it holds no digit |
| DayExtract.ParseNumsAllDigits | backend/scrapers/scrape_year.js:210-213 | when every text holds a digit, the k-th value is the k-th text's digits' value |
| DayExtract.First7 | backend/scrapers/scrape_year.js:221 | `slice(0, 7)` keeps `min(7, length)` values, the leading ones, unchanged |
| DayExtract.MainShape | backend/scrapers/scrape_year.js:221 | the main numbers are the leading values of the principal node, at most seven, each non-negative |
| DayExtract.SetOf | backend/scrapers/scrape_year.js:234-235 | a candidate's set is the leading values of its texts, at most seven, and has seven exactly when seven of its texts parse |
| DayExtract.SetOfDigits | backend/scrapers/scrape_year.js:234-235 | when the first seven texts each hold a digit, the set is their seven values in order |
| DayExtract.MaxLabelIndex | backend/scrapers/scrape_year.js:240 | the index found is the first div whose text matches `/maxmillions/i`, or -1 |
| DayExtract.Window | backend/scrapers/scrape_year.js:242 | the fallback loop looks at exactly the next `min(29, remaining)` divs after the label, in page order |
| DayExtract.CollectSevens | backend/scrapers/scrape_year.js:229-247 | the loops keep, in order, the first seven values of each candidate that has seven |
| DayExtract.SevensMeaning | backend/scrapers/scrape_year.js:233-236 | a set is the first seven values of a candidate with at least seven; a longer candidate is cut, not refused |
| DayExtract.SevensAppend | backend/scrapers/scrape_year.js:233-236 | the sets come in the candidates' order, one per qualifying candidate |
| DayExtract.SevensOne | backend/scrapers/scrape_year.js:233-236 | one candidate gives its set once when seven of its texts parse, and nothing otherwise |
| DayExtract.EvaluateStructured | backend/scrapers/scrape_year.js:216-250 | the structured branch returns `StructuredData` |
| DayExtract.EvaluateCell | backend/scrapers/scrape_year.js:260-279 | the table branch reads the numbers, bonus and sets of the chosen cell |
| DayExtract.EvaluateTable | backend/scrapers/scrape_year.js:253-280 | the table branch returns null without rows, and otherwise the cell of the chosen row |
| DayExtract.Evaluate | backend/scrapers/scrape_year.js:209-283 | the `page.evaluate` callback dispatches on the selector, and returns null for no branch |
| DayExtract.CellShape | backend/scrapers/scrape_year.js:260-279 | the table branch gives at most seven non-negative numbers and seven-number sets |
| DayExtract.StructuredShape | backend/scrapers/scrape_year.js:216-250 | the structured branch gives at most seven non-negative numbers and seven-number sets |
| DayExtract.DayNumbersShape | backend/scrapers/scrape_year.js:209-283 | whatever the branch, at most seven non-negative numbers and seven-number sets |
| DayExtract.FallbackWindowBound | backend/scrapers/scrape_year.js:238-246 | without set containers, the fallback finds at most 29 sets |
| DayExtract.ZoneBonusChoice | backend/scrapers/scrape_year.js:223-224 | the bonus comes from `.num.complementaire` first, then the other selectors, and is null only when neither exists |
| DayExtract.PickRowMeaning | backend/scrapers/scrape_year.js:259 | the chosen row is the first data row, or the first row when every row is a header |
| Scraper.PersistRecord | backend/scrapers/scrape_year.js:118-153 | one iteration skips an undated record, and otherwise gates the record's columns and sets |
| Scraper.PersistYear | backend/scrapers/scrape_year.js:117-154 | the loop gates every dated record, in page order |
| Scraper.ScrapeYear | backend/scrapers/scrape_year.js:29-157 | no table or a rejected extraction writes nothing; otherwise the page's records are gated in order |
| Scraper.YearCandidatesFrom | backend/scrapers/scrape_year.js:117-130 | every candidate of the yearly loop is a dated record, turned into its columns |
| Scraper.YearCandidateSource | backend/scrapers/scrape_year.js:117-130 | gives the dated record each candidate comes from |
| Scraper.YearDatesFrom | backend/scrapers/scrape_year.js:117-142 | no date is written that no record carries |
| Scraper.YearLastRecordWrites | backend/scrapers/scrape_year.js:117-142 | a last record with a new date unique in the page is stored as it is |
| Scraper.YearFirstRecordWins | backend/scrapers/scrape_year.js:117-142 | a new date is stored with the columns of the first record that carries it |
| Scraper.YearRerun | backend/scrapers/scrape_year.js:121-127 | scraping the same yearly page again stores nothing new |
| Scraper.SevenOnly | backend/scrapers/scrape_year.js:317-318 | only seven-number sets are inserted |
| Scraper.DateCandidateMeaning | backend/scrapers/scrape_year.js:285-303 | a draw reaches the gate exactly when a selector appeared, data came back and it holds seven numbers; the draw then has those numbers and the bonus |
| Scraper.DateCandidateWellFormed | backend/scrapers/scrape_year.js:285-324 | a date-path draw is filed under the requested date, with seven non-NULL numbers and seven-number sets |
| Scraper.ScrapeDate | backend/scrapers/scrape_year.js:161-328 | `scrapeDate2025` writes nothing without a draw, and otherwise gates that draw; `Inserted` exactly when the date was new |
| Scraper.Reached | backend/scrapers/scrape_year.js:365-367 | the loop gets through the dates whose navigation succeeded, up to the first that throws |
| Scraper.VisitDate | backend/scrapers/scrape_year.js:365-366 | one loop iteration gates what `scrapeDate2025` extracts for the date |
| Scraper.VisitAll | backend/scrapers/scrape_year.js:365-367 | the dates are gated in order up to the first navigation that throws; `completed` is true exactly when none threw |
| Scraper.Run | backend/scrapers/scrape_year.js:348-373 | outside 2025 nothing is written; in 2025 the Tuesdays and Fridays are visited in order |
| Scraper.DriverCandidatesFrom | backend/scrapers/scrape_year.js:362-367 | every candidate of the driver carries one of the dates it visited |
| Scraper.DriverNewKeys | backend/scrapers/scrape_year.js:362-367 | a date the driver newly writes is one of the dates it visited |
| Scraper.DriverDates | backend/scrapers/scrape_year.js:362-367 | the driver writes only Tuesdays and Fridays of the year, and never changes a stored draw |
| Scraper.DriverRerun | backend/scrapers/scrape_year.js:292-299 | running the driver again over the same pages stores nothing new |
| ScrapeToday.MmSets | backend/scrapers/scrape_today.js:59-74 | only blocks of exactly seven balls are inserted |
| ScrapeToday.VisitItem | backend/scrapers/scrape_today.js:22-77 | one item's callback gates its draw when the item is today's and shows eight balls, and writes nothing otherwise |
| ScrapeToday.ScrapeToday | backend/scrapers/scrape_today.js:7-83 | `found` is true exactly when some item carries today's date; the items are gated in page order |
| ScrapeToday.ItemCandidateMeaning | backend/scrapers/scrape_today.js:28-39 | an item gives a draw exactly when it is today's and shows eight or more balls: the first seven balls and the eighth as bonus |
| ScrapeToday.TodayCandidatesFrom | backend/scrapers/scrape_today.js:21-39 | every draw handed to the gate comes from an accepted item |
| ScrapeToday.OnlyToday | backend/scrapers/scrape_today.js:21-77 | the run writes at most today's date, and no stored draw changes |
| ScrapeToday.NotFoundWritesNothing | backend/scrapers/scrape_today.js:80-82 | when no item carries today's date, nothing is written |
| ScrapeToday.FirstItemWins | backend/scrapers/scrape_today.js:42-57 | when today is new, it is stored with the balls of the first accepted item |
| ScrapeToday.BallRoundTrip | backend/scrapers/scrape_today.js:36 | a ball printed as `String(n)` reads back as `n` |
| ScrapeToday.TodayRerun | backend/scrapers/scrape_today.js:42-46 | running the scraper again on the same page stores nothing new |
| Resolvers.WhereMeaning | backend/graphql/resolvers.js:21-43 | `WHERE` keeps exactly the rows meeting every condition, each as often as in the table |
| Resolvers.InsertByDateMeaning | backend/graphql/resolvers.js:45 | inserting a row into a newest-first list keeps it newest first and adds exactly that row |
| Resolvers.OrderByDateDescMeaning | backend/graphql/resolvers.js:45 | `ORDER BY date DESC` is newest first and a permutation of its input |
| Resolvers.PiecesPlaceholders | backend/graphql/resolvers.js:28-43 | each condition appends as many `?` as parameters it pushes |
| Resolvers.OrderLimitPlaceholders | backend/graphql/resolvers.js:45 | the tail ` ORDER BY date DESC LIMIT ? OFFSET ?` has two placeholders and ends with one |
| Resolvers.PrefixPlaceholders | backend/graphql/resolvers.js:21-43 | the query up to its conditions has one `?` per pushed parameter |
| Resolvers.PlaceholdersMatch | backend/graphql/resolvers.js:21-47 | every `?` of the query has its parameter, and the limit and offset fill the last two |
| Resolvers.AddFilter | backend/graphql/resolvers.js:30-43 | one `if` appends its condition's text and parameter, or nothing |
| Resolvers.BuildTirages | backend/graphql/resolvers.js:18-47 | `tirages` builds the query of its conditions and the matching parameter list |
| Resolvers.FiltersMeaning | backend/graphql/resolvers.js:28-43 | no premium row unless asked; a non-empty date, a non-zero year and any given month each restrict the rows |
| Resolvers.MonthParam | backend/graphql/resolvers.js:40-42 | a month index 0..11 is sent as the two digits of month + 1 |
| Resolvers.ScrapedDateParts | backend/graphql/resolvers.js:36-41 | `strftime` reads back the year and month of a real date written as the scrapers write it |
| Resolvers.DayPastMonthEnd | backend/graphql/resolvers.js:36-41 | a day past the end of its month is read by `strftime` in the same year and the next month |
| Resolvers.ScrapedDateFilters | backend/graphql/resolvers.js:35-43 | a scraped date passes the year condition for exactly its year, and the month condition for exactly its month (counted from 0) |
| Resolvers.DefaultQuery | backend/graphql/resolvers.js:18-47 | with no argument, only `premium = 0` is appended and only the limit 10 and the offset 0 are bound |
| Resolvers.AnswerMeaning | backend/graphql/resolvers.js:45-48 | the answer is newest first, each row is in the table and meets the conditions, and it is the `LIMIT`/`OFFSET` window of some newest-first arrangement of all matching rows |
| Resolvers.AnswerLength | backend/graphql/resolvers.js:45-46 | `OFFSET` skips the first matching rows and `LIMIT` keeps at most `limit` of them; the exact count is given |
| Resolvers.TiragesAnswerMeaning | backend/graphql/resolvers.js:18-49 | `tirages` returns table rows, newest first, that satisfy the premium, date, year and month arguments; the page is the `LIMIT`/`OFFSET` window of a newest-first arrangement of all matching rows, with its exact length |
| Resolvers.TallyOne | backend/graphql/resolvers.js:63-66 | counting one column value, NULL and 0 left out, adds it to the tally and to the first-seen keys |
| Resolvers.TallyRow | backend/graphql/resolvers.js:62-67 | counting one row adds its num1..num6 values |
| Resolvers.TallyMeaning | backend/graphql/resolvers.js:61-67 | the tally holds exactly the values counted, each with its number of occurrences |
| Resolvers.CountedMeaning | backend/graphql/resolvers.js:55-66 | the counted values are exactly the non-zero, non-NULL num1..num6 of the rows read |
| Resolvers.CountedInMeaning | backend/graphql/resolvers.js:63-64 | the values counted among a row's first columns are exactly its non-zero, non-NULL ones |
| Resolvers.Report | backend/graphql/resolvers.js:69-71 | the report lists each counted number once, in ascending order, with its count |
| Resolvers.SumOfCounts | backend/graphql/resolvers.js:61-71 | the reported counts add up to the number of values counted |
| Resolvers.Occurrences | backend/graphql/resolvers.js:51-72 | `occurrences`: ascending distinct numbers; each is listed exactly when counted, with its count; the counts add up |
| Resolvers.DistinctMeaning | backend/graphql/resolvers.js:76 | `DISTINCT` holds each value once, and every value |
| Resolvers.AvailableDatesMeaning | backend/graphql/resolvers.js:74-82 | each date of a visible row is listed exactly once, and no other date |
| Resolvers.VisibleMeaning | backend/graphql/resolvers.js:57 | without premium, the rows read are the non-premium rows, each as often as in the table |
| Resolvers.CountMatches | backend/graphql/resolvers.js:105-124 | `total` is the number of rows read; `count` is the number of those holding every requested number |
| Resolvers.MatchCountBounds | backend/graphql/resolvers.js:117-121 | no more matches than rows, and no requested number matches every row |
| Resolvers.MatchCountMonotone | backend/graphql/resolvers.js:117-121 | asking for more numbers never matches more rows |
| Resolvers.ModeOfMeaning | backend/graphql/resolvers.js:135-157 | each mode name selects its strategy; any other name selects raw |
| Resolvers.RecentMeaning | backend/graphql/resolvers.js:130-133 | the strategy sees the `min(100, n)` newest of the n rows whose premium flag is exactly as requested, newest first |
| Resolvers.SortAscMeaning | backend/graphql/resolvers.js:168 | the sort returns its input, ascending |
| Resolvers.SortAscDistinct | backend/graphql/resolvers.js:168 | sorting distinct numbers gives them strictly ascending |
| Resolvers.SimulateDraw | backend/graphql/resolvers.js:126-173 | one result per strategy type, each the chosen mode's draw on the recent rows, sorted ascending |
| ImportTirages.SplitLines | backend/import-tirages.js:56 | splitting always gives at least one line |
| ImportTirages.SplitLinesMeaning | backend/import-tirages.js:56 | no line holds a line feed; there is one line per piece between line feeds, each with the `\r` of a `\r\n` dropped, and the last piece is kept as it is |
| ImportTirages.DropCRMeaning | backend/import-tirages.js:56 | dropping the carriage return removes one trailing `\r` and nothing else |
| ImportTirages.NonBlankMeaning | backend/import-tirages.js:56 | the kept lines are exactly the non-blank ones, each as often as it occurs in the file |
| ImportTirages.NonBlankCounts | backend/import-tirages.js:56 | each non-blank line is kept as many times as it occurs, and a blank one never |
| ImportTirages.NonBlankAppend | backend/import-tirages.js:56 | the filter keeps file order: filtering a concatenation is the concatenation of the filtered parts |
| ImportTirages.IndexOf | backend/import-tirages.js:65 | `indexOf` returns the first position holding the name, or -1 exactly when the name is absent |
| ImportTirages.NumColumns | backend/import-tirages.js:68-73 | six number-column positions |
| ImportTirages.LocateMeaning | backend/import-tirages.js:64-80 | the header is refused exactly when `date` or one of `num1`..`num6` is missing; otherwise each column is found at its name |
| ImportTirages.NumTokens | backend/import-tirages.js:102-107 | one parsed value per number column |
| ImportTirages.ParseRowMeaning | backend/import-tirages.js:99-115 | a row is skipped exactly when a number is NaN; a kept row binds its date, its six numbers, its bonus (NULL without a column) and premium 0 or 1 |
| ImportTirages.ColumnOrder | backend/import-tirages.js:64-109 | with distinct column names, permuting the columns changes neither the header check nor the records read |
| ImportTirages.TirageTable.constructor | backend/import-tirages.js:30-43 | a new, empty table whose first id is 1 |
| ImportTirages.TirageTable.DeleteAll | backend/import-tirages.js:49 | `DELETE` empties the table and keeps the AUTOINCREMENT counter |
| ImportTirages.TirageTable.Begin | backend/import-tirages.js:93 | `BEGIN` records the contents to return to |
| ImportTirages.TirageTable.Rollback | backend/import-tirages.js:132-135 | leaving without `COMMIT` restores the contents saved at `BEGIN` |
| ImportTirages.TirageTable.Insert | backend/import-tirages.js:117 | an insert succeeds exactly when the record has a date; it appends the row under the next id |
| ImportTirages.InsertLine | backend/import-tirages.js:99-118 | one iteration skips a NaN row, and otherwise inserts it, failing only on a missing date |
| ImportTirages.InsertAll | backend/import-tirages.js:93-122 | the transaction writes all kept rows or, when an insert fails, none |
| ImportTirages.Import | backend/import-tirages.js:45-135 | the run leaves the table and outcome that `ImportRun` describes |
| ImportTirages.ImportRunMeaning | backend/import-tirages.js:49-128 | on success, exactly the kept rows in file order, numbered from the counter, with their count logged; on every error, an empty table and an unchanged counter |
| ImportTirages.ReplacesAll | backend/import-tirages.js:49 | the previous rows never matter; only the counter carries over |
| ImportTirages.ImportTwice | backend/import-tirages.js:49-122 | importing the same file twice gives the same rows and outcome again, under ids shifted by the row count |
| ImportTirages.ImportConsecutive | backend/import-tirages.js:49-118 | after an import, the ids are consecutive below the counter, so in AUTOINCREMENT order |

## Left out

- Browser, HTTP and HTML parsing are not modelled. Puppeteer, axios and
  cheerio are not modelled: a page is the list of texts the code reads from
  it. `waitForSelector` timing is the `Readiness` parameter. The retry
  sleep, the HTML snapshot and every `console` message are left out.
- `new Date(text).toLocaleDateString("fr-CA")` in `scrape_today.js` is not
  modelled: each item carries its date already formatted. Today's date is a
  parameter, not the clock.
- `scrape_today.js` issues its database calls from callbacks without
  waiting for them. The model runs each item's check and insert to the end
  before the next item, so it leaves out the interleavings in which two
  items with today's date both pass the check.
- The Maxmillions inserts of both scrapers are not awaited, and their
  errors are only logged. The model performs them at once and lets none
  fail.
- `PersistRecord` skips a record without a date but binds the
  destructured numbers without any further check (NaN and missing elements
  are NULL), as the source does. An insert error of the main row would
  reject the program's promise. The model cannot produce one, because the
  existence check has just run.
- The yearly loop of `main` is commented out in the source, so `Run` does
  not call `ScrapeYear`. `ScrapeYear` is modelled on its own.
- `scrape_today.js` opens `./loto.db`, while `scrape_year.js` and the
  import open `./lotto.db`. The model gives each scraper its own
  `DrawStore` and does not relate the import's table to it.
- `ScrapeToday` assumes the `tirages` and `maxmillions` tables already
  exist in `./loto.db`: `scrape_today.js` creates no table. On a fresh
  file every query fails with "no such table", the error is only logged
  and nothing is written. The model's `DrawStore` always has both tables,
  so it does not capture that case.
- `ImportTirages`: the argument and file-existence checks (lines 10-20)
  and the file read are left out; the model starts from the file's
  contents. The table is taken in the import's own schema: `date NOT
  NULL`, with no UNIQUE constraint. When a scraper created the table
  first, `CREATE TABLE IF NOT EXISTS` keeps the scraper's UNIQUE date
  column, and a duplicate date in the file is then a runtime error. The
  model does not capture that case. `finalize`, `close` and the
  `maxmillions` table, which the import does not touch, are left out.
- `calculerProbabilite` returns `count / total` as a floating-point number.
  The model returns the two integers; the division and its rounding are not
  modelled.
- The draw strategies of `simulateDraw` (`backend/drawStrategies/`) are not
  part of this model. Their randomised behaviour is the function parameter
  `draw`.
- `createAdmin`, `loginAdmin` and `admins` (bcrypt, JWT) are not part of
  this model. Neither are the GraphQL schema, the server, the cron job and
  the frontend.
- GraphQL arguments passed as explicit `null` are treated like absent
  ones.
- SQLite `strftime` is modelled only on text that is exactly `YYYY-MM-DD`,
  with a month 01 to 12 and a day 01 to 31 (a day past its month's end
  runs on into the next month); any other text gives NULL. SQLite also
  reads a date followed by a time (`2025-01-07 20:00`), leading or
  trailing spaces, Julian day numbers and `now`; the model does not, so
  such texts reaching the table through the import or the yearly page
  are missed by the year and month conditions.
- `ORDER BY date DESC` fixes no order among rows with the same date, and
  the model picks one. `SELECT DISTINCT` is modelled as first occurrences
  in table order, an order SQLite does not promise.
- The query of `tirages` is kept as fixed text pieces and placeholders, not
  as one string. SQL parsing is not modelled.
- Integers are unbounded. JavaScript numbers above 2^53 and SQLite's 64-bit
  limit are not modelled.
- `Calendar` uses the proleptic Gregorian calendar for every year. The
  range limit of JavaScript `Date` (±10^8 days) and the local time zone
  are not modelled.
