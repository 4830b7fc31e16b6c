/**
 * `scrape_today.js`: read the current year's page of results, and for the
 * `.item.resultats` element published under today's date store its eight
 * balls (seven numbers and the bonus) and its seven-ball Maxmillions blocks,
 * unless a draw for today is already stored.
 */
module ScrapeToday {
  import opened Wrappers
  import opened JsText
  import opened Store

  /**
   * One `.item.resultats` element: its `.date` text already turned into
   * `AAAA-MM-JJ` by `new Date(text).toLocaleDateString("fr-CA")`, the texts
   * of its `.boules .boule` elements, and the ball texts of each
   * `.maxmillions .boules` block.
   */
  datatype Item = Item(formatted: string, balls: seq<string>, mmBlocks: seq<seq<string>>)

  /** `parseInt($(b).text().trim())`: no radix, so a `0x` prefix reads as hexadecimal. */
  function Ball(text: string): Token {
    ParseInt(Trim(text))
  }

  function Balls(texts: seq<string>): (r: seq<Token>)
    ensures |r| == |texts| && forall k :: 0 <= k < |texts| ==> r[k] == Ball(texts[k])
  {
    seq(|texts|, k requires 0 <= k < |texts| => Ball(texts[k]))
  }

  /** The blocks inserted after the draw: `if (mmNums.length === 7)`. */
  function MmSets(blocks: seq<seq<string>>): (r: seq<seq<Token>>)
    ensures forall k :: 0 <= k < |r| ==> |r[k]| == 7
    decreases |blocks|
  {
    if blocks == [] then []
    else
      var last := blocks[|blocks| - 1];
      MmSets(blocks[..|blocks| - 1]) + (if |last| == 7 then [Balls(last)] else [])
  }

  /**
   * What one item hands to the duplicate check: nothing when its date is
   * not today or when it shows fewer than eight balls; otherwise the first
   * seven balls, the eighth as the bonus (further balls are ignored) and
   * its seven-ball blocks.
   */
  function ItemCandidate(today: string, it: Item): Option<Candidate> {
    if it.formatted != today then None
    else
      var nums := Balls(it.balls);
      if |nums| < 8 then None
      else Some(Candidate(it.formatted, nums[..7], nums[7], MmSets(it.mmBlocks)))
  }

  function ItemCandidates(today: string, it: Item): seq<Candidate> {
    match ItemCandidate(today, it) case None => [] case Some(c) => [c]
  }

  /** The candidates of `$(".item.resultats").each(...)`, in page order. */
  function TodayCandidates(today: string, items: seq<Item>): seq<Candidate>
    decreases |items|
  {
    if items == [] then []
    else TodayCandidates(today, items[..|items| - 1]) + ItemCandidates(today, items[|items| - 1])
  }

  /** The body of the `each` callback for one item. */
  method VisitItem(store: DrawStore, today: string, it: Item)
    requires store.Valid()
    modifies store
    ensures store.Valid()
    ensures store.State() == GateAll(old(store.State()), ItemCandidates(today, it))
  {
    if it.formatted != today {
      return;
    }
    var nums: seq<Token> := [];
    for k := 0 to |it.balls|
      invariant nums == Balls(it.balls[..k])
    {
      nums := nums + [Ball(it.balls[k])];
      assert it.balls[..k + 1] == it.balls[..k] + [it.balls[k]];
    }
    assert it.balls[..|it.balls|] == it.balls;
    if |nums| < 8 {
      return;
    }
    var c := Candidate(it.formatted, nums[..7], nums[7], MmSets(it.mmBlocks));
    var _ := store.Persist(c);
    GateAllSingle(old(store.State()), c);
  }

  /** Some item among the first `n` carries today's date. */
  predicate Shown(today: string, items: seq<Item>, n: nat)
    requires n <= |items|
  {
    exists k :: 0 <= k < n && items[k].formatted == today
  }

  /**
   * `scrapeToday()` once the page is fetched: `found` records whether some
   * item carries today's date, whatever it shows; each such item goes
   * through the duplicate check in page order.
   */
  method ScrapeToday(store: DrawStore, today: string, items: seq<Item>) returns (found: bool)
    requires store.Valid()
    modifies store
    ensures store.Valid()
    ensures found <==> Shown(today, items, |items|)
    ensures store.State() == GateAll(old(store.State()), TodayCandidates(today, items))
  {
    ghost var s0 := store.State();
    found := false;
    for i := 0 to |items|
      invariant store.Valid()
      invariant found <==> Shown(today, items, i)
      invariant store.State() == GateAll(s0, TodayCandidates(today, items[..i]))
    {
      if items[i].formatted == today {
        found := true;
      }
      VisitItem(store, today, items[i]);
      TodayCandidatesSnoc(today, items, i);
      GateAllAppend(s0, TodayCandidates(today, items[..i]), ItemCandidates(today, items[i]));
    }
    assert items[..|items|] == items;
  }

  // ================================================================ lemmas

  lemma TodayCandidatesSnoc(today: string, items: seq<Item>, i: nat)
    requires i < |items|
    ensures TodayCandidates(today, items[..i + 1]) == TodayCandidates(today, items[..i]) + ItemCandidates(today, items[i])
  {
    var p := items[..i + 1];
    assert p[..|p| - 1] == items[..i];
  }

  /**
   * Every candidate comes from an item published under today's date with at
   * least eight balls: it is filed under today, and its columns are that
   * item's first seven balls and its eighth.
   */
  lemma {:induction false} TodayCandidatesFrom(today: string, items: seq<Item>)
    ensures forall k :: 0 <= k < |TodayCandidates(today, items)| ==>
      exists j :: 0 <= j < |items| && ItemCandidate(today, items[j]) == Some(TodayCandidates(today, items)[k])
    decreases |items|
  {
    if items != [] {
      var init := items[..|items| - 1];
      var last := items[|items| - 1];
      TodayCandidatesFrom(today, init);
      var cs := TodayCandidates(today, items);
      assert cs == TodayCandidates(today, init) + ItemCandidates(today, last);
      forall k | 0 <= k < |cs|
        ensures exists j :: 0 <= j < |items| && ItemCandidate(today, items[j]) == Some(cs[k])
      {
        if k < |TodayCandidates(today, init)| {
          var j :| 0 <= j < |init| && ItemCandidate(today, init[j]) == Some(TodayCandidates(today, init)[k]);
          assert items[j] == init[j];
          assert 0 <= j < |items| && ItemCandidate(today, items[j]) == Some(cs[k]);
        } else {
          var j := |items| - 1;
          assert ItemCandidates(today, last) == [ItemCandidate(today, last).value];
          assert 0 <= j < |items| && ItemCandidate(today, items[j]) == Some(cs[k]);
        }
      }
      assert forall k :: 0 <= k < |cs| ==>
        exists j :: 0 <= j < |items| && ItemCandidate(today, items[j]) == Some(cs[k]);
    } else {
      assert TodayCandidates(today, items) == [];
    }
  }

  /** What an accepted item is turned into. */
  lemma ItemCandidateMeaning(today: string, it: Item)
    ensures ItemCandidate(today, it).Some? <==> it.formatted == today && |it.balls| >= 8
    ensures ItemCandidate(today, it).Some? ==>
      var c := ItemCandidate(today, it).value;
      && c.date == today
      && WellFormed(c)
      && (forall k :: 0 <= k < 7 ==> c.nums[k] == Ball(it.balls[k]))
      && c.bonus == Ball(it.balls[7])
  {
  }

  /**
   * The run writes at most one draw, under today's date, and no draw
   * already stored changes.
   */
  lemma OnlyToday(s: StoreState, today: string, items: seq<Item>)
    ensures var after := GateAll(s, TodayCandidates(today, items));
      && after.draws.Keys <= s.draws.Keys + {today}
      && forall d :: d in s.draws ==> d in after.draws && after.draws[d] == s.draws[d]
  {
    var cs := TodayCandidates(today, items);
    GateAllEffect(s, cs);
    TodayCandidatesFrom(today, items);
    forall d | d in Dates(cs) ensures d == today {
      var k :| 0 <= k < |cs| && cs[k].date == d;
      var j :| 0 <= j < |items| && ItemCandidate(today, items[j]) == Some(cs[k]);
    }
  }

  /** No item dated today: nothing is written. */
  lemma {:induction false} NotFoundWritesNothing(today: string, items: seq<Item>)
    requires !Shown(today, items, |items|)
    ensures TodayCandidates(today, items) == []
    decreases |items|
  {
    if items != [] {
      var init := items[..|items| - 1];
      assert forall k :: 0 <= k < |init| ==> init[k] == items[k];
      NotFoundWritesNothing(today, init);
    }
  }

  /**
   * When today is not yet stored and some item produced a candidate, the
   * draw written for today holds the balls of the first such item.
   */
  lemma FirstItemWins(s: StoreState, today: string, items: seq<Item>)
    requires today !in s.draws && TodayCandidates(today, items) != []
    ensures var after := GateAll(s, TodayCandidates(today, items));
      && today in after.draws
      && exists j :: 0 <= j < |items| && ItemCandidate(today, items[j]).Some?
           && after.draws[today].nums == ItemCandidate(today, items[j]).value.nums
           && after.draws[today].bonus == ItemCandidate(today, items[j]).value.bonus
  {
    var cs := TodayCandidates(today, items);
    TodayCandidatesFrom(today, items);
    var j :| 0 <= j < |items| && ItemCandidate(today, items[j]) == Some(cs[0]);
    assert cs[0].date == today;
    assert FirstWith(cs, today, 0);
    FirstCandidateWins(s, cs, today, 0);
  }

  /** A ball printed as `String(n)` reads back as `n`. */
  lemma BallRoundTrip(n: int)
    ensures Ball(IntToString(n)) == Some(n)
  {
    ParseIntRoundTrip(n);
  }

  /** Running the scraper again on the same page stores nothing new. */
  lemma TodayRerun(s: StoreState, today: string, items: seq<Item>)
    ensures var cs := TodayCandidates(today, items);
      GateAll(GateAll(s, cs), cs) == GateAll(s, cs)
  {
    Idempotent(s, TodayCandidates(today, items));
  }
}
