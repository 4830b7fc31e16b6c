/**
 * The two SQLite tables the scrapers write, as an in-memory store:
 * `tirages` (one draw per date, UNIQUE on `date`, AUTOINCREMENT `id`) and
 * `maxmillions` (7-number sets owned by a draw through `tirage_id`), and the
 * check-then-insert gate every scraper applies before writing a draw.
 */
module Store {
  import opened Wrappers
  import opened JsText

  /** A row of `tirages`: `nums` holds num1..num7 (NULL is `None`); `premium` as stored. */
  datatype Tirage = Tirage(id: int, date: string, nums: seq<Option<int>>, bonus: Option<int>, premium: int)

  /** Column num<k+1> of a row; a column the row lacks reads as NULL. */
  function Num(t: Tirage, k: nat): Option<int> {
    if k < |t.nums| then t.nums[k] else None
  }

  /**
   * The seven number columns bound from a JavaScript array destructured as
   * `[n1, ..., n7]`: a missing element is `undefined` and a NaN element is
   * bound as a floating NaN; SQLite stores both as NULL.
   */
  function Columns(nums: seq<Token>): (cols: seq<Option<int>>)
    ensures |cols| == 7
    ensures forall k :: 0 <= k < 7 ==> cols[k] == (if k < |nums| then nums[k] else None)
  {
    seq(7, k requires 0 <= k < 7 => if k < |nums| then nums[k] else None)
  }

  /** A bonus bound with `bonus ?? null`: null, undefined and NaN all store NULL. */
  function BonusColumn(b: Option<Token>): Option<int> {
    if b.Some? then b.value else None
  }

  /** A draw ready to be written, with the Maxmillions sets to attach to it. */
  datatype Candidate = Candidate(date: string, nums: seq<Option<int>>, bonus: Option<int>, sets: seq<seq<Option<int>>>)

  predicate WellFormed(c: Candidate) {
    |c.nums| == 7 && forall k :: 0 <= k < |c.sets| ==> |c.sets[k]| == 7
  }

  /** Contents of both tables: draws by date, the sets of each draw id, and the next AUTOINCREMENT id. */
  datatype StoreState = StoreState(draws: map<string, Tirage>, maxSets: map<int, seq<seq<Option<int>>>>, nextId: int)

  function Ids(s: StoreState): set<int> {
    set d | d in s.draws :: s.draws[d].id
  }

  /**
   * The store's invariant: a draw is filed under its own date, ids are
   * distinct and below `nextId`, every set belongs to an existing draw id,
   * and every set has seven numbers.
   */
  ghost predicate Consistent(s: StoreState) {
    && (forall d :: d in s.draws ==> s.draws[d].date == d && s.draws[d].id < s.nextId && |s.draws[d].nums| == 7)
    && (forall d1, d2 :: d1 in s.draws && d2 in s.draws && d1 != d2 ==> s.draws[d1].id != s.draws[d2].id)
    && s.maxSets.Keys == Ids(s)
    && (forall id, k :: id in s.maxSets && 0 <= k < |s.maxSets[id]| ==> |s.maxSets[id][k]| == 7)
  }

  /**
   * `SELECT id FROM tirages WHERE date = ?`, then, when no row came back,
   * one INSERT into `tirages` and one INSERT into `maxmillions` per set,
   * each with the new row's id.
   */
  function Gate(s: StoreState, c: Candidate): StoreState {
    if c.date in s.draws then s
    else StoreState(s.draws[c.date := Tirage(s.nextId, c.date, c.nums, c.bonus, 0)],
                    s.maxSets[s.nextId := c.sets],
                    s.nextId + 1)
  }

  /** The gate applied to candidates one after another, in order. */
  function GateAll(s: StoreState, cs: seq<Candidate>): StoreState
    decreases |cs|
  {
    if cs == [] then s else Gate(GateAll(s, cs[..|cs| - 1]), cs[|cs| - 1])
  }

  function Dates(cs: seq<Candidate>): set<string> {
    set k | 0 <= k < |cs| :: cs[k].date
  }

  // ================================================================ the store object

  class DrawStore {
    var draws: map<string, Tirage>
    var maxSets: map<int, seq<seq<Option<int>>>>
    var nextId: int

    function State(): StoreState
      reads this
    {
      StoreState(draws, maxSets, nextId)
    }

    ghost predicate Valid()
      reads this
    {
      Consistent(State())
    }

    /** Both tables empty; SQLite's AUTOINCREMENT hands out 1 first. */
    constructor ()
      ensures Valid() && State() == StoreState(map[], map[], 1)
    {
      draws, maxSets, nextId := map[], map[], 1;
    }

    /** `db.get("SELECT id FROM tirages WHERE date = ?")` followed by `!!row`. */
    method HasDate(date: string) returns (present: bool)
      ensures present <==> date in draws
    {
      present := date in draws;
    }

    /**
     * `INSERT INTO tirages (date, num1..num7, bonus)`: on success the new
     * row's id (`this.lastID`); `None` when the UNIQUE constraint on `date`
     * rejects the row, which then changes nothing.
     */
    method InsertDraw(date: string, nums: seq<Option<int>>, bonus: Option<int>) returns (id: Option<int>)
      requires Valid() && |nums| == 7
      modifies this
      ensures Valid()
      ensures date in old(draws) ==> id == None && State() == old(State())
      ensures date !in old(draws) ==>
        && id == Some(old(nextId))
        && draws == old(draws)[date := Tirage(old(nextId), date, nums, bonus, 0)]
        && maxSets == old(maxSets)[old(nextId) := []]
        && nextId == old(nextId) + 1
    {
      if date in draws {
        id := None;
      } else {
        InsertConsistent(State(), date, nums, bonus, []);
        id := Some(nextId);
        draws := draws[date := Tirage(nextId, date, nums, bonus, 0)];
        maxSets := maxSets[nextId := []];
        nextId := nextId + 1;
      }
    }

    /** `INSERT INTO maxmillions (tirage_id, num1..num7)` for an existing draw id. */
    method InsertMaxSet(drawId: int, nums: seq<Option<int>>)
      requires Valid() && drawId in maxSets && |nums| == 7
      modifies this
      ensures Valid()
      ensures draws == old(draws) && nextId == old(nextId)
      ensures maxSets == old(maxSets)[drawId := old(maxSets)[drawId] + [nums]]
    {
      maxSets := maxSets[drawId := maxSets[drawId] + [nums]];
      assert Ids(State()) == Ids(old(State()));
    }

    /** The gate for one candidate, as every scraper runs it. */
    method Persist(c: Candidate) returns (inserted: bool)
      requires Valid() && WellFormed(c)
      modifies this
      ensures Valid()
      ensures State() == Gate(old(State()), c)
      ensures inserted <==> c.date !in old(draws)
    {
      var present := HasDate(c.date);
      if present {
        inserted := false;
        return;
      }
      var id := InsertDraw(c.date, c.nums, c.bonus);
      inserted := true;
      InsertMaxSets(id.value, c.sets);
      assert [] + c.sets == c.sets;
    }

    /** One `maxmillions` INSERT per set, in order, all owned by `drawId`. */
    method InsertMaxSets(drawId: int, sets: seq<seq<Option<int>>>)
      requires Valid() && drawId in maxSets && forall k :: 0 <= k < |sets| ==> |sets[k]| == 7
      modifies this
      ensures Valid()
      ensures draws == old(draws) && nextId == old(nextId)
      ensures maxSets == old(maxSets)[drawId := old(maxSets)[drawId] + sets]
    {
      var k := 0;
      assert old(maxSets)[drawId] + sets[..0] == old(maxSets)[drawId];
      assert maxSets == old(maxSets)[drawId := old(maxSets)[drawId]];
      while k < |sets|
        invariant 0 <= k <= |sets|
        invariant Valid() && draws == old(draws) && nextId == old(nextId)
        invariant maxSets == old(maxSets)[drawId := old(maxSets)[drawId] + sets[..k]]
      {
        ghost var before := maxSets;
        InsertMaxSet(drawId, sets[k]);
        assert sets[..k + 1] == sets[..k] + [sets[k]];
        assert before[drawId] + [sets[k]] == old(maxSets)[drawId] + sets[..k + 1];
        k := k + 1;
      }
      assert sets[..k] == sets;
    }
  }

  // ================================================================ lemmas

  /** Adding a draw under a new date, with the next id and seven-number sets, keeps the store consistent. */
  lemma InsertConsistent(s: StoreState, date: string, nums: seq<Option<int>>, bonus: Option<int>, sets: seq<seq<Option<int>>>)
    requires Consistent(s) && date !in s.draws && |nums| == 7
    requires forall k :: 0 <= k < |sets| ==> |sets[k]| == 7
    ensures Consistent(StoreState(s.draws[date := Tirage(s.nextId, date, nums, bonus, 0)], s.maxSets[s.nextId := sets], s.nextId + 1))
  {
    var t := StoreState(s.draws[date := Tirage(s.nextId, date, nums, bonus, 0)], s.maxSets[s.nextId := sets], s.nextId + 1);
    forall x | x in Ids(t) ensures x in Ids(s) + {s.nextId} {
      var d :| d in t.draws && t.draws[d].id == x;
      if d != date { assert d in s.draws && t.draws[d] == s.draws[d]; }
    }
    forall x | x in Ids(s) + {s.nextId} ensures x in Ids(t) {
      if x == s.nextId {
        assert t.draws[date].id == x;
      } else {
        var d :| d in s.draws && s.draws[d].id == x;
        assert d in t.draws && t.draws[d] == s.draws[d];
      }
    }
    assert Ids(t) == Ids(s) + {s.nextId};
  }

  /** One pass of the gate keeps the store consistent. */
  lemma GateConsistent(s: StoreState, c: Candidate)
    requires Consistent(s) && WellFormed(c)
    ensures Consistent(Gate(s, c))
  {
    if c.date !in s.draws {
      InsertConsistent(s, c.date, c.nums, c.bonus, c.sets);
    }
  }

  lemma {:induction false} GateAllConsistent(s: StoreState, cs: seq<Candidate>)
    requires Consistent(s) && forall k :: 0 <= k < |cs| ==> WellFormed(cs[k])
    ensures Consistent(GateAll(s, cs))
    decreases |cs|
  {
    if cs != [] {
      GateAllConsistent(s, cs[..|cs| - 1]);
      GateConsistent(GateAll(s, cs[..|cs| - 1]), cs[|cs| - 1]);
    }
  }

  /**
   * After a pass, the stored dates are the old ones plus every candidate
   * date; rows and sets that were already stored are untouched, and ids only
   * grow.
   */
  lemma {:induction false} GateAllEffect(s: StoreState, cs: seq<Candidate>)
    ensures GateAll(s, cs).draws.Keys == s.draws.Keys + Dates(cs)
    ensures forall d :: d in s.draws ==> GateAll(s, cs).draws[d] == s.draws[d]
    ensures forall id :: id in s.maxSets && id < s.nextId ==> id in GateAll(s, cs).maxSets && GateAll(s, cs).maxSets[id] == s.maxSets[id]
    ensures GateAll(s, cs).nextId >= s.nextId
    decreases |cs|
  {
    if cs != [] {
      var init := cs[..|cs| - 1];
      GateAllEffect(s, init);
      assert Dates(cs) == Dates(init) + {cs[|cs| - 1].date} by {
        forall x | x in Dates(cs) ensures x in Dates(init) + {cs[|cs| - 1].date} {
          var k :| 0 <= k < |cs| && cs[k].date == x;
          if k < |cs| - 1 { assert init[k] == cs[k]; }
        }
        forall x | x in Dates(init) ensures x in Dates(cs) {
          var k :| 0 <= k < |init| && init[k].date == x;
          assert cs[k] == init[k];
        }
      }
    }
  }

  /** Once every candidate's date is stored, a pass over the candidates writes nothing. */
  lemma {:induction false} GateAllKnown(s: StoreState, cs: seq<Candidate>)
    requires forall k :: 0 <= k < |cs| ==> cs[k].date in s.draws
    ensures GateAll(s, cs) == s
    decreases |cs|
  {
    if cs != [] {
      GateAllKnown(s, cs[..|cs| - 1]);
    }
  }

  /** A pass over one candidate is one gate. */
  lemma GateAllSingle(s: StoreState, c: Candidate)
    ensures GateAll(s, [c]) == Gate(s, c)
  {
    assert [c][..0] == [];
  }

  /** One more candidate at the end is one more gate. */
  lemma GateAllSnoc(s: StoreState, cs: seq<Candidate>, c: Candidate)
    ensures GateAll(s, cs + [c]) == Gate(GateAll(s, cs), c)
  {
    assert (cs + [c])[..|cs|] == cs;
  }

  /** Gating `cs` and then `more` is gating `cs + more`, for at most one more candidate. */
  lemma GateAllAppend(s: StoreState, cs: seq<Candidate>, more: seq<Candidate>)
    requires |more| <= 1
    ensures GateAll(s, cs + more) == GateAll(GateAll(s, cs), more)
  {
    if more == [] {
      assert cs + more == cs;
    } else {
      assert more == [more[0]];
      GateAllSnoc(s, cs, more[0]);
      GateAllSingle(GateAll(s, cs), more[0]);
    }
  }

  /** Running the same candidates through the gate twice stores what running them once does. */
  lemma Idempotent(s: StoreState, cs: seq<Candidate>)
    ensures GateAll(GateAll(s, cs), cs) == GateAll(s, cs)
  {
    GateAllEffect(s, cs);
    forall k | 0 <= k < |cs| ensures cs[k].date in GateAll(s, cs).draws {
      assert cs[k].date in Dates(cs);
    }
    GateAllKnown(GateAll(s, cs), cs);
  }

  /** The first candidate (in order) whose date is `d`. */
  predicate FirstWith(cs: seq<Candidate>, d: string, k: nat) {
    k < |cs| && cs[k].date == d && forall j :: 0 <= j < k ==> cs[j].date != d
  }

  /**
   * A date that was not stored before is written with the numbers and bonus
   * of the first candidate carrying it; later candidates with the same date
   * are skipped.
   */
  lemma {:induction false} FirstCandidateWins(s: StoreState, cs: seq<Candidate>, d: string, k: nat)
    requires d !in s.draws && FirstWith(cs, d, k)
    ensures d in GateAll(s, cs).draws
    ensures GateAll(s, cs).draws[d].nums == cs[k].nums
    ensures GateAll(s, cs).draws[d].bonus == cs[k].bonus
    decreases |cs|
  {
    var init := cs[..|cs| - 1];
    if k == |cs| - 1 {
      GateAllEffect(s, init);
      forall j | 0 <= j < |init| ensures init[j].date != d {
        assert init[j] == cs[j];
      }
    } else {
      assert FirstWith(init, d, k);
      FirstCandidateWins(s, init, d, k);
    }
  }

  /** Each set a pass writes is filed under a draw id that the pass created. */
  lemma {:induction false} SetsOwnedByNewDraws(s: StoreState, cs: seq<Candidate>)
    requires Consistent(s) && forall k :: 0 <= k < |cs| ==> WellFormed(cs[k])
    ensures forall id :: id in GateAll(s, cs).maxSets && id !in s.maxSets ==>
      s.nextId <= id < GateAll(s, cs).nextId && id in Ids(GateAll(s, cs))
    decreases |cs|
  {
    GateAllConsistent(s, cs);
    if cs != [] {
      var init := cs[..|cs| - 1];
      SetsOwnedByNewDraws(s, init);
      GateAllEffect(s, init);
    }
  }
}
