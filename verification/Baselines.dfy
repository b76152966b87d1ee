/**
 The deterministic baselines, offline over a dataset and at run time over a feature snapshot.
 */
module Baselines {
  import opened Events
  import opened Forecast

  // --- validation of the pair ------------------------------------------------------------------------

  function SplitOrder(s: Split): int {
    match s
    case Train => 1
    case Validation => 2
    case Test => 3
  }

  function DatesOf(examples: map<Key, Example>): set<int> { set k | k in examples :: k.day }

  /** Every date has one split, splits follow one another in time, and they are the frozen assignment of the dates. */
  ghost predicate SplitsFrozen(examples: map<Key, Example>) {
    && (forall k, k' | k in examples && k' in examples && k.day == k'.day :: examples[k].split == examples[k'].split)
    && (forall k, k' | k in examples && k' in examples && k.day < k'.day ::
          SplitOrder(examples[k].split) <= SplitOrder(examples[k'].split))
    && (forall k | k in examples ::
          k.day in Splits(DatesOf(examples)) && Splits(DatesOf(examples))[k.day] == examples[k].split)
  }

  /** The checks of validateBaselineInput on the rows of the dataset and of a complete snapshot. */
  ghost predicate ValidInput(examples: map<Key, Example>, rows: map<Key, FeatureRow>) {
    && rows.Keys != {}
    && (forall k | k in examples :: k.item != "" && (examples[k].outcome == 0 || examples[k].outcome == 1))
    && SplitsFrozen(examples)
    && rows.Keys == examples.Keys
    && (forall k | k in rows ::
          rows[k].quantity >= 0 && rows[k].split == examples[k].split && rows[k].hash == examples[k].hash)
  }

  // --- the offline baselines -------------------------------------------------------------------------

  /** Days out of stock among the `n` days ending at `k`, if every one of them has a row. */
  function ZeroDays(rows: map<Key, FeatureRow>, k: Key, n: nat): Option<nat> {
    if n == 0 then Some(0)
    else
      var before := ZeroDays(rows, k, n - 1);
      var day := Key(k.item, k.day - (n - 1));
      if before.None? || day !in rows then None
      else Some(before.value + if rows[day].quantity == 0 then 1 else 0)
  }

  function Score(zeroDays: Option<nat>): Option<real> {
    if zeroDays.None? then None else Some(zeroDays.value as real / HORIZON as real)
  }

  /** The item has a row for the day, and it is out of stock. */
  predicate EmptyOn(rows: map<Key, FeatureRow>, k: Key, x: int) {
    Key(k.item, x) in rows && rows[Key(k.item, x)].quantity == 0
  }

  /** The days out of stock among the `n` ending at `k`. */
  function EmptyRows(rows: map<Key, FeatureRow>, k: Key, n: nat): set<int> {
    set x | k.day - n < x <= k.day && EmptyOn(rows, k, x)
  }

  /** Each of the `n` days ending at `k` has a row. */
  ghost predicate AllPresent(rows: map<Key, FeatureRow>, k: Key, n: nat) {
    forall x | k.day - n < x <= k.day :: Key(k.item, x) in rows
  }

  lemma PresentNext(rows: map<Key, FeatureRow>, k: Key, n: nat)
    ensures AllPresent(rows, k, n + 1) <==> AllPresent(rows, k, n) && Key(k.item, k.day - n) in rows
  {
  }

  lemma EmptyNext(rows: map<Key, FeatureRow>, k: Key, n: nat)
    ensures |EmptyRows(rows, k, n + 1)| == |EmptyRows(rows, k, n)| + if EmptyOn(rows, k, k.day - n) then 1 else 0
  {
    hide EmptyOn;
    var x := k.day - n;
    var less, more := EmptyRows(rows, k, n), EmptyRows(rows, k, n + 1);
    assert more == less + if EmptyOn(rows, k, x) then {x} else {};
  }

  /** The count is defined when each of the days has a row, and is then the number of days out of stock. */
  lemma {:induction false} ZeroDaysMeans(rows: map<Key, FeatureRow>, k: Key, n: nat)
    ensures ZeroDays(rows, k, n).Some? <==> AllPresent(rows, k, n)
    ensures ZeroDays(rows, k, n).Some? ==> ZeroDays(rows, k, n).value == |EmptyRows(rows, k, n)|
  {
    if n == 0 {
      assert EmptyRows(rows, k, 0) == {};
    } else {
      hide AllPresent, EmptyRows;
      ZeroDaysMeans(rows, k, n - 1);
      PresentNext(rows, k, n - 1);
      EmptyNext(rows, k, n - 1);
    }
  }

  /** The share of the seven days ending at `k` without stock, if each of them has a row. */
  ghost predicate IsMovingAverage(rows: map<Key, FeatureRow>, k: Key, score: Option<real>) {
    && (score.Some? <==> AllPresent(rows, k, 7))
    && (score.Some? ==> score.value == |EmptyRows(rows, k, 7)| as real / 7.0)
  }

  lemma MovingAverageMeans(rows: map<Key, FeatureRow>, k: Key)
    ensures IsMovingAverage(rows, k, Score(ZeroDays(rows, k, HORIZON)))
  {
    ZeroDaysMeans(rows, k, HORIZON);
    hide EmptyRows, ZeroDays;
  }

  lemma FirstDays(rows: map<Key, FeatureRow>, k: Key)
    ensures ZeroDays(rows, k, 0) == Some(0)
  {
  }

  lemma NextDay(rows: map<Key, FeatureRow>, k: Key, n: nat)
    ensures var before, day := ZeroDays(rows, k, n), Key(k.item, k.day - n);
            ZeroDays(rows, k, n + 1) == if before.None? || day !in rows then None
                                        else Some(before.value + if rows[day].quantity == 0 then 1 else 0)
  {
  }

  method OfflineMovingAverage(rows: map<Key, FeatureRow>, k: Key) returns (score: Option<real>)
    ensures score == Score(ZeroDays(rows, k, HORIZON)) && IsMovingAverage(rows, k, score)
  {
    hide IsMovingAverage, ZeroDays;
    MovingAverageMeans(rows, k);
    FirstDays(rows, k);
    var zeroDays := 0;
    var offset := 0;
    while offset < HORIZON
      invariant 0 <= offset <= HORIZON
      invariant ZeroDays(rows, k, offset) == Some(zeroDays)
    {
      var day := Key(k.item, k.day - offset);
      NextDay(rows, k, offset);
      if day !in rows {
        MissingDay(rows, k, offset + 1, HORIZON);
        return None;
      }
      if rows[day].quantity == 0 {
        zeroDays := zeroDays + 1;
      }
      offset := offset + 1;
    }
    return Some(zeroDays as real / HORIZON as real);
  }

  lemma {:induction false} MissingDay(rows: map<Key, FeatureRow>, k: Key, n: nat, m: nat)
    requires n <= m && ZeroDays(rows, k, n) == None
    ensures ZeroDays(rows, k, m) == None
  {
    if n < m {
      MissingDay(rows, k, n, m - 1);
    }
  }

  /** Seasonal naive: the label of the same item one horizon earlier. */
  function OfflineSeasonal(examples: map<Key, Example>, k: Key): Option<real> {
    var prior := Key(k.item, k.day - HORIZON);
    if prior in examples then Some(examples[prior].outcome as real) else None
  }

  // --- the runtime baselines -------------------------------------------------------------------------

  /** The rows of the item at or before the observation date. */
  function RuntimeRows(rows: map<Key, FeatureRow>, k: Key): map<int, FeatureRow> {
    map r | r in rows && r.item == k.item && r.day <= k.day :: r.day := rows[r]
  }

  method RuntimeMovingAverage(rows: map<Key, FeatureRow>, k: Key) returns (score: Option<real>)
    ensures score == Score(ZeroDays(rows, k, HORIZON)) && IsMovingAverage(rows, k, score)
  {
    hide IsMovingAverage, ZeroDays, RuntimeRows;
    MovingAverageMeans(rows, k);
    FirstDays(rows, k);
    var byDay := RuntimeRows(rows, k);
    RuntimeRowsHold(rows, k);
    var zeroDays := 0;
    var offset := 0;
    while offset < HORIZON
      invariant 0 <= offset <= HORIZON
      invariant ZeroDays(rows, k, offset) == Some(zeroDays)
    {
      var day := k.day - offset;
      NextDay(rows, k, offset);
      if day !in byDay {
        MissingDay(rows, k, offset + 1, HORIZON);
        return None;
      }
      if byDay[day].quantity == 0 {
        zeroDays := zeroDays + 1;
      }
      offset := offset + 1;
    }
    return Some(zeroDays as real / HORIZON as real);
  }

  lemma RuntimeRowsHold(rows: map<Key, FeatureRow>, k: Key)
    ensures forall d :: d in RuntimeRows(rows, k) <==> d <= k.day && Key(k.item, d) in rows
    ensures forall d | d in RuntimeRows(rows, k) :: RuntimeRows(rows, k)[d] == rows[Key(k.item, d)]
  {
    forall d ensures d in RuntimeRows(rows, k) <==> d <= k.day && Key(k.item, d) in rows {
      if d <= k.day && Key(k.item, d) in rows {
        assert Key(k.item, d).day in RuntimeRows(rows, k);
      }
    }
  }

  /** From `offset` days after the lookback date: a day without a row abstains, the first empty day scores one. */
  function SeasonalFrom(rows: map<Key, FeatureRow>, k: Key, offset: int): Option<real>
    requires 1 <= offset <= HORIZON + 1
    decreases HORIZON + 1 - offset
  {
    var day := Key(k.item, k.day - HORIZON + offset);
    if offset > HORIZON then Some(0.0)
    else if day !in rows then None
    else if rows[day].quantity == 0 then Some(1.0)
    else SeasonalFrom(rows, k, offset + 1)
  }

  /** The item has stock, by its row, on each of the days. */
  ghost predicate StockedOn(rows: map<Key, FeatureRow>, k: Key, first: int, last: int) {
    forall x | first <= x <= last :: Key(k.item, x) in rows && rows[Key(k.item, x)].quantity != 0
  }

  /** The first day from `first` without a row or without stock is `x`. */
  ghost predicate FirstOdd(rows: map<Key, FeatureRow>, k: Key, first: int, x: int) {
    && first <= x <= k.day && StockedOn(rows, k, first, x - 1)
    && (Key(k.item, x) in rows ==> rows[Key(k.item, x)].quantity == 0)
  }

  /** Seasonal naive on any rows: the first odd day decides, abstaining if its row is missing. */
  lemma {:induction false} SeasonalDecides(rows: map<Key, FeatureRow>, k: Key, offset: int)
    requires 1 <= offset <= HORIZON + 1
    ensures var first := k.day - 7 + offset;
            var score := SeasonalFrom(rows, k, offset);
            && (score == Some(0.0) <==> StockedOn(rows, k, first, k.day))
            && (score == Some(1.0) <==> exists x :: FirstOdd(rows, k, first, x) && Key(k.item, x) in rows)
            && (score == None <==> exists x :: FirstOdd(rows, k, first, x) && Key(k.item, x) !in rows)
    decreases HORIZON + 1 - offset
  {
    var first := k.day - 7 + offset;
    if offset <= HORIZON {
      var day := Key(k.item, first);
      if day in rows && rows[day].quantity != 0 {
        SeasonalDecides(rows, k, offset + 1);
        forall x | FirstOdd(rows, k, first + 1, x) ensures FirstOdd(rows, k, first, x) {
        }
        forall x | FirstOdd(rows, k, first, x) ensures FirstOdd(rows, k, first + 1, x) {
          assert x != first;
        }
      } else {
        assert FirstOdd(rows, k, first, first);
        forall x | FirstOdd(rows, k, first, x) ensures x == first {
          assert StockedOn(rows, k, first, x - 1);
        }
      }
    }
  }

  /** One week's seasonal naive score at `k`. */
  ghost predicate IsSeasonal(rows: map<Key, FeatureRow>, k: Key, score: Option<real>) {
    && (score == Some(0.0) <==> StockedOn(rows, k, k.day - 6, k.day))
    && (score == Some(1.0) <==> exists x :: FirstOdd(rows, k, k.day - 6, x) && Key(k.item, x) in rows)
    && (score == None <==> exists x :: FirstOdd(rows, k, k.day - 6, x) && Key(k.item, x) !in rows)
  }

  lemma SeasonalDecidesWeek(rows: map<Key, FeatureRow>, k: Key)
    ensures IsSeasonal(rows, k, SeasonalFrom(rows, k, 1))
  {
    SeasonalDecides(rows, k, 1);
    hide StockedOn, FirstOdd, SeasonalFrom;
  }

  method RuntimeSeasonal(rows: map<Key, FeatureRow>, k: Key) returns (score: Option<real>)
    ensures score == SeasonalFrom(rows, k, 1) && IsSeasonal(rows, k, score)
  {
    hide IsSeasonal, RuntimeRows;
    SeasonalDecidesWeek(rows, k);
    var byDay := RuntimeRows(rows, k);
    RuntimeRowsHold(rows, k);
    var offset := 1;
    while offset <= HORIZON
      invariant 1 <= offset <= HORIZON + 1
      invariant SeasonalFrom(rows, k, 1) == SeasonalFrom(rows, k, offset)
    {
      var day := k.day - HORIZON + offset;
      if day !in byDay {
        return None;
      }
      if byDay[day].quantity == 0 {
        return Some(1.0);
      }
      offset := offset + 1;
    }
    return Some(0.0);
  }

  // --- rows of an accepted history -------------------------------------------------------------------

  /** What indexing guarantees of a series. */
  ghost predicate Accepted(s: Series) {
    && AllDense(s)
    && (forall item | item in s :: item != "" && forall d | d in s[item] :: s[item][d] >= 0)
  }

  lemma IndexIsAccepted(norm: string -> string, obs: seq<Observation>, t: string, s: Series)
    requires Accepts(norm, obs, t, s)
    ensures Accepted(s)
  {
    IndexHolds(norm, obs, t, s);
    IndexNonEmpty(norm, obs, t, s);
  }

  lemma RankMonotone(dates: set<int>, a: int, b: int)
    requires a <= b
    ensures Rank(dates, a) <= Rank(dates, b)
  {
    var x := set d | d in dates && d <= a;
    var y := set d | d in dates && d <= b;
    assert y == x + (y - x);
  }

  /** Once a date has a split, so has every earlier labelable date. */
  lemma EarlierHasSplit(dates: set<int>, a: int, b: int)
    requires a <= b && a in dates && b in Splits(dates)
    ensures a in Splits(dates)
  {
    RankMonotone(dates, a, b);
  }

  /** A row's item has a row on every earlier day it was observed. */
  lemma EarlierRow(s: Series, k: Key, d: int)
    requires Accepted(s) && HasRow(s, k) && d <= k.day && d in s[k.item]
    ensures HasRow(s, Key(k.item, d))
  {
    hide Splits, LabelableDates, Dense;
    Between(s[k.item], d, k.day + HORIZON, d + HORIZON);
    assert d in LabelableDates(s) by {
      LabelableHas(s, k.item, d);
    }
    EarlierHasSplit(LabelableDates(s), d, k.day);
  }

  lemma LabelableHas(s: Series, item: string, d: int)
    requires item in s && HasHorizon(s[item], d)
    ensures d in LabelableDates(s)
  {
  }

  /** And none on a day it was not. */
  lemma NoRow(s: Series, k: Key)
    requires k.item !in s || k.day !in s[k.item]
    ensures !HasRow(s, k)
  {
    hide Splits, LabelableDates;
  }

  // --- validation accepts the pair -------------------------------------------------------------------

  lemma RowDates(hash: Days -> string, s: Series)
    requires Accepted(s)
    ensures DatesOf(Examples(hash, s)) == Splits(LabelableDates(s)).Keys
  {
    RowKeys(hash, s);
    hide Splits, Examples, FeatureRows;
    var examples := Examples(hash, s);
    forall d | d in Splits(LabelableDates(s)) ensures d in DatesOf(examples) {
      SplitsAreDates(LabelableDates(s), d);
      var item :| item in s && d in s[item] && HasHorizon(s[item], d);
      assert HasRow(s, Key(item, d));
      assert Key(item, d) in examples.Keys;
    }
    forall d | d in DatesOf(examples) ensures d in Splits(LabelableDates(s)) {
      var k :| k in examples && k.day == d;
      assert k in examples.Keys;
    }
  }

  lemma SplitsAreDates(dates: set<int>, d: int)
    requires d in Splits(dates)
    ensures d in dates
  {
  }

  /** Ranking among the dates that got a split is ranking among all of them. */
  lemma SameRank(dates: set<int>, d: int)
    requires d in Splits(dates)
    ensures Rank(Splits(dates).Keys, d) == Rank(dates, d)
  {
    var some := Splits(dates).Keys;
    forall x | x in dates && x <= d ensures x in some {
      EarlierHasSplit(dates, x, d);
    }
    assert (set x | x in some && x <= d) == (set x | x in dates && x <= d);
  }

  lemma FrozenAgain(dates: set<int>, d: int)
    requires d in Splits(dates)
    ensures d in Splits(Splits(dates).Keys) && Splits(Splits(dates).Keys)[d] == Splits(dates)[d]
  {
    SameRank(dates, d);
    hide Rank;
    assert d in Splits(dates).Keys;
  }

  lemma LaterSplit(dates: set<int>, a: int, b: int)
    requires a in Splits(dates) && b in Splits(dates) && a < b
    ensures SplitOrder(Splits(dates)[a]) <= SplitOrder(Splits(dates)[b])
  {
    RankMonotone(dates, a, b);
  }

  lemma ExamplesFrozen(hash: Days -> string, s: Series)
    requires Accepted(s)
    ensures SplitsFrozen(Examples(hash, s))
  {
    var examples := Examples(hash, s);
    var splits := Splits(LabelableDates(s));
    assert forall k | k in examples :: k.day in splits && examples[k].split == splits[k.day];
    RowDates(hash, s);
    hide Splits, Examples, LabelableDates;
    forall k | k in examples
      ensures k.day in Splits(DatesOf(examples)) && Splits(DatesOf(examples))[k.day] == examples[k].split
    {
      FrozenAgain(LabelableDates(s), k.day);
    }
    forall k, k' | k in examples && k' in examples && k.day < k'.day
      ensures SplitOrder(examples[k].split) <= SplitOrder(examples[k'].split)
    {
      LaterSplit(LabelableDates(s), k.day, k'.day);
    }
  }

  lemma LabelIsBinary(days: Days, d: int)
    requires Dense(days) && HasHorizon(days, d)
    ensures LabelFrom(days, d, 1) == Some(if OutBetween(days, d + 1, d + HORIZON) then 1 else 0)
  {
    hide Dense;
    LabelMeans(days, d, 1);
  }

  /** A dataset and a snapshot built from the same accepted history pass validation as soon as there is a row. */
  lemma InputIsAccepted(hash: Days -> string, s: Series)
    requires Accepted(s) && exists k :: HasRow(s, k)
    ensures ValidInput(Examples(hash, s), FeatureRows(hash, s))
  {
    hide Splits, LabelableDates, SplitsFrozen, Dense, OutBetween;
    RowKeys(hash, s);
    ExamplesFrozen(hash, s);
    var examples, rows := Examples(hash, s), FeatureRows(hash, s);
    var w :| HasRow(s, w);
    assert w in rows.Keys;
    forall k | k in examples ensures k.item != "" && (examples[k].outcome == 0 || examples[k].outcome == 1) {
      ExampleMeans(hash, s, k);
    }
    forall k | k in rows
      ensures rows[k].quantity >= 0 && k in examples && rows[k].split == examples[k].split && rows[k].hash == examples[k].hash
    {
      assert k in examples.Keys;
    }
  }

  // --- agreement -------------------------------------------------------------------------------------

  /** Seven rows in a row exist exactly when the item was observed on the first of those days. */
  lemma {:induction false} WindowScores(hash: Days -> string, s: Series, k: Key, n: nat)
    requires Accepted(s) && HasRow(s, k)
    ensures ZeroDays(FeatureRows(hash, s), k, n).Some? <==> n == 0 || k.day - (n - 1) in s[k.item]
  {
    hide FeatureRows, Accepted, HasRow;
    if n > 0 {
      WindowScores(hash, s, k, n - 1);
      RowIffObserved(hash, s, k, k.day - (n - 1));
      if n > 1 && k.day - (n - 1) in s[k.item] {
        ObservedUpTo(s, k, k.day - (n - 1), k.day - (n - 2));
      }
    }
  }

  /** On the days up to a row of the item, there is a row exactly when there was an observation. */
  lemma RowIffObserved(hash: Days -> string, s: Series, k: Key, d: int)
    requires Accepted(s) && HasRow(s, k) && d <= k.day
    ensures k.item in s
    ensures Key(k.item, d) in FeatureRows(hash, s) <==> d in s[k.item]
    ensures d in s[k.item] ==> FeatureRows(hash, s)[Key(k.item, d)].quantity == s[k.item][d]
  {
    hide Splits, LabelableDates, Dense;
    RowKeys(hash, s);
    if d in s[k.item] {
      EarlierRow(s, k, d);
    } else {
      NoRow(s, Key(k.item, d));
    }
  }

  lemma ObservedUpTo(s: Series, k: Key, first: int, d: int)
    requires Accepted(s) && HasRow(s, k) && first in s[k.item] && first <= d <= k.day
    ensures d in s[k.item]
  {
    hide Splits, LabelableDates, Dense;
    Between(s[k.item], first, k.day, d);
  }

  /** When the seven rows exist the seasonal loop says whether the item ran out on one of those days. */
  lemma {:induction false} SeasonalMeans(hash: Days -> string, s: Series, k: Key, offset: int)
    requires Accepted(s) && HasRow(s, k) && 1 <= offset <= HORIZON + 1
    requires k.day - HORIZON + offset in s[k.item] || offset == HORIZON + 1
    ensures SeasonalFrom(FeatureRows(hash, s), k, offset)
         == Some(if OutBetween(s[k.item], k.day - HORIZON + offset, k.day) then 1.0 else 0.0)
    decreases HORIZON + 1 - offset
  {
    hide FeatureRows, Accepted, HasRow;
    if offset <= HORIZON {
      var d := k.day - HORIZON + offset;
      RowIffObserved(hash, s, k, d);
      if s[k.item][d] != 0 {
        if offset < HORIZON {
          ObservedUpTo(s, k, d, d + 1);
        }
        SeasonalMeans(hash, s, k, offset + 1);
      }
    }
  }

  /** The days of the series without stock. */
  function EmptyDays(days: Days, first: int, last: int): set<int> {
    set x | first <= x <= last && x in days && days[x] == 0
  }

  lemma EmptyIsOut(days: Days, first: int, last: int)
    ensures OutBetween(days, first, last) <==> EmptyDays(days, first, last) != {}
  {
    if OutBetween(days, first, last) {
      var x :| first <= x <= last && x in days && days[x] == 0;
      assert x in EmptyDays(days, first, last);
    }
    if EmptyDays(days, first, last) != {} {
      var x :| x in EmptyDays(days, first, last);
    }
  }

  lemma EmptyRowsAreDays(hash: Days -> string, s: Series, k: Key)
    requires Accepted(s) && HasRow(s, k)
    ensures k.item in s && EmptyRows(FeatureRows(hash, s), k, 7) == EmptyDays(s[k.item], k.day - 6, k.day)
  {
    hide FeatureRows, Accepted, HasRow;
    RowIffObserved(hash, s, k, k.day);
    forall x | x <= k.day
      ensures Key(k.item, x) in FeatureRows(hash, s) <==> x in s[k.item]
      ensures x in s[k.item] ==> FeatureRows(hash, s)[Key(k.item, x)].quantity == s[k.item][x]
    {
      RowIffObserved(hash, s, k, x);
    }
  }

  /**
   Offline and runtime baselines agree on every row of an accepted history. The moving average is one computation;
   it predicts exactly when the item was observed six days before. The seasonal naive score is the same wherever
   the offline form predicts, which is when the item was observed seven days before; the runtime form predicts one
   day earlier, when it was observed six days before.
   */
  lemma BaselinesAgree(hash: Days -> string, s: Series, k: Key)
    requires Accepted(s) && HasRow(s, k)
    ensures Score(ZeroDays(FeatureRows(hash, s), k, HORIZON)).Some? <==> k.day - 6 in s[k.item]
    ensures OfflineSeasonal(Examples(hash, s), k).Some? <==> k.day - 7 in s[k.item]
    ensures SeasonalFrom(FeatureRows(hash, s), k, 1).Some? <==> k.day - 6 in s[k.item]
    ensures OfflineSeasonal(Examples(hash, s), k).Some? ==>
              SeasonalFrom(FeatureRows(hash, s), k, 1) == OfflineSeasonal(Examples(hash, s), k)
    ensures k.day - 6 in s[k.item] ==>
              && Score(ZeroDays(FeatureRows(hash, s), k, HORIZON)) == Some(|EmptyDays(s[k.item], k.day - 6, k.day)| as real / 7.0)
              && SeasonalFrom(FeatureRows(hash, s), k, 1)
                 == Some(if EmptyDays(s[k.item], k.day - 6, k.day) != {} then 1.0 else 0.0)
  {
    hide FeatureRows, Examples, ZeroDays, SeasonalFrom, Accepted, HasRow, OutBetween, EmptyRows, EmptyDays;
    RowIffObserved(hash, s, k, k.day);
    WindowScores(hash, s, k, HORIZON);
    if k.day - 6 in s[k.item] {
      ZeroDaysMeans(FeatureRows(hash, s), k, HORIZON);
      EmptyRowsAreDays(hash, s, k);
      SeasonalMeans(hash, s, k, 1);
      EmptyIsOut(s[k.item], k.day - 6, k.day);
    }
    SeasonalPredicts(hash, s, k);
    OfflinePredicts(hash, s, k);
    if k.day - 7 in s[k.item] {
      ObservedUpTo(s, k, k.day - 7, k.day - 6);
      SeasonalMeans(hash, s, k, 1);
    }
  }

  /** The tenant's item was observed on the day. */
  ghost predicate WasObserved(norm: string -> string, obs: seq<Observation>, t: string, item: string, d: int) {
    exists q :: Observed(norm, obs, t, item, d, q)
  }

  /** The days on which the item was observed without stock. */
  ghost function ObservedEmpty(norm: string -> string, obs: seq<Observation>, t: string, item: string, first: int, last: int):
    set<int>
  {
    set x | first <= x <= last && Observed(norm, obs, t, item, x, 0)
  }

  lemma EmptyIsObserved(norm: string -> string, obs: seq<Observation>, t: string, s: Series, item: string, first: int, last: int)
    requires Accepts(norm, obs, t, s) && item in s
    ensures EmptyDays(s[item], first, last) == ObservedEmpty(norm, obs, t, item, first, last)
  {
    hide Observed, Index;
    IndexHolds(norm, obs, t, s);
  }

  lemma SeriesIsObserved(norm: string -> string, obs: seq<Observation>, t: string, s: Series, item: string, d: int)
    requires Accepts(norm, obs, t, s) && item in s
    ensures d in s[item] <==> WasObserved(norm, obs, t, item, d)
  {
    hide Observed, Index;
    IndexHolds(norm, obs, t, s);
    IndexNonEmpty(norm, obs, t, s);
  }

  /**
   The same from the observations themselves, in any order they come in: whenever indexing accepts them, the dataset and
   the snapshot pass validation, and on each of their rows the two sides agree and predict exactly when the item was
   observed six, respectively seven, days before.
   */
  lemma ObservedBaselinesAgree(norm: string -> string, hash: Days -> string, obs: seq<Observation>, t: string, s: Series,
                               k: Key)
    requires Accepts(norm, obs, t, s) && HasRow(s, k)
    ensures ValidInput(Examples(hash, s), FeatureRows(hash, s))
    ensures Score(ZeroDays(FeatureRows(hash, s), k, HORIZON)).Some? <==> WasObserved(norm, obs, t, k.item, k.day - 6)
    ensures OfflineSeasonal(Examples(hash, s), k).Some? <==> WasObserved(norm, obs, t, k.item, k.day - 7)
    ensures SeasonalFrom(FeatureRows(hash, s), k, 1).Some? <==> WasObserved(norm, obs, t, k.item, k.day - 6)
    ensures OfflineSeasonal(Examples(hash, s), k).Some? ==>
              SeasonalFrom(FeatureRows(hash, s), k, 1) == OfflineSeasonal(Examples(hash, s), k)
    ensures WasObserved(norm, obs, t, k.item, k.day - 6) ==>
              var empty := ObservedEmpty(norm, obs, t, k.item, k.day - 6, k.day);
              && Score(ZeroDays(FeatureRows(hash, s), k, HORIZON)) == Some(|empty| as real / 7.0)
              && SeasonalFrom(FeatureRows(hash, s), k, 1) == Some(if empty != {} then 1.0 else 0.0)
  {
    hide Accepts, Accepted, FeatureRows, Examples, ZeroDays, SeasonalFrom, ValidInput, WasObserved, LabelableDates, Splits,
         ObservedEmpty, EmptyDays;
    IndexIsAccepted(norm, obs, t, s);
    EmptyIsObserved(norm, obs, t, s, k.item, k.day - 6, k.day);
    InputIsAccepted(hash, s);
    BaselinesAgree(hash, s, k);
    SeriesIsObserved(norm, obs, t, s, k.item, k.day - 6);
    SeriesIsObserved(norm, obs, t, s, k.item, k.day - 7);
  }

  lemma SeasonalPredicts(hash: Days -> string, s: Series, k: Key)
    requires Accepted(s) && HasRow(s, k)
    ensures SeasonalFrom(FeatureRows(hash, s), k, 1).Some? <==> k.day - 6 in s[k.item]
  {
    hide FeatureRows, Accepted, HasRow, OutBetween;
    RowIffObserved(hash, s, k, k.day - 6);
    if k.day - 6 in s[k.item] {
      SeasonalMeans(hash, s, k, 1);
    }
  }

  lemma OfflinePredicts(hash: Days -> string, s: Series, k: Key)
    requires Accepted(s) && HasRow(s, k)
    ensures OfflineSeasonal(Examples(hash, s), k).Some? <==> k.day - 7 in s[k.item]
    ensures k.day - 7 in s[k.item] ==>
              OfflineSeasonal(Examples(hash, s), k) == Some(if OutBetween(s[k.item], k.day - 6, k.day) then 1.0 else 0.0)
  {
    hide Splits, LabelableDates, Dense, OutBetween;
    RowKeys(hash, s);
    var prior := Key(k.item, k.day - HORIZON);
    RowIffObserved(hash, s, k, prior.day);
    assert prior in Examples(hash, s) <==> prior in Examples(hash, s).Keys;
    if prior.day in s[k.item] {
      ExampleMeans(hash, s, prior);
    }
  }

  /** The label of a row is whether the item runs out within the horizon. */
  lemma ExampleMeans(hash: Days -> string, s: Series, k: Key)
    requires Accepted(s) && k in Examples(hash, s)
    ensures Examples(hash, s)[k].outcome == if OutBetween(s[k.item], k.day + 1, k.day + HORIZON) then 1 else 0
  {
    hide Splits, LabelableDates, Dense, OutBetween;
    LabelIsBinary(s[k.item], k.day);
  }
}
