/**
 What a dataset and a feature snapshot say about the observations they were built from: when indexing accepts them,
 which rows there are, how dates are split, and what each column holds.
 */
module Datasets {
  import opened Events
  import opened Forecast
  import opened Baselines

  // --- acceptance --------------------------------------------------------------------------------------

  /** The observation is the tenant's. */
  predicate Mine(norm: string -> string, o: Observation, t: string) { norm(o.tenant) == t }

  /** Every observation of the tenant names an item and a date and a quantity, and none repeats an item and date. */
  ghost predicate Usable(norm: string -> string, obs: seq<Observation>, t: string) {
    && (forall i | 0 <= i < |obs| && Mine(norm, obs[i], t) ::
          norm(obs[i].item) != "" && obs[i].quantity >= 0 && obs[i].day.Some?)
    && (forall i, j | 0 <= i < j < |obs| && Mine(norm, obs[i], t) && Mine(norm, obs[j], t) ::
          norm(obs[i].item) != norm(obs[j].item) || obs[i].day != obs[j].day)
  }

  /** Indexing succeeds exactly on usable observations; other tenants' may be anything. */
  lemma {:induction false} IndexSucceedsIff(norm: string -> string, obs: seq<Observation>, t: string)
    ensures Index(norm, obs, t).Some? <==> Usable(norm, obs, t)
  {
    if obs != [] {
      var n := |obs| - 1;
      var init := obs[..n];
      IndexSucceedsIff(norm, init, t);
      assert forall i | 0 <= i < n :: init[i] == obs[i];
      if Index(norm, init, t).Some? {
        LastFits(norm, obs, t, Index(norm, init, t).value);
      }
    }
  }

  lemma LastFits(norm: string -> string, obs: seq<Observation>, t: string, s: Series)
    requires obs != [] && Index(norm, obs[..|obs| - 1], t) == Some(s) && Usable(norm, obs[..|obs| - 1], t)
    ensures Index(norm, obs, t).Some? <==> Usable(norm, obs, t)
  {
    hide Index;
    var n := |obs| - 1;
    var init, o := obs[..n], obs[n];
    assert forall i | 0 <= i < n :: init[i] == obs[i];
    IndexNext(norm, obs, t);
    if Mine(norm, o, t) && o.day.Some? {
      var item, d := norm(o.item), o.day.value;
      RepeatsIff(norm, init, t, s, item, d);
    }
  }

  lemma IndexNext(norm: string -> string, obs: seq<Observation>, t: string)
    requires obs != [] && Index(norm, obs[..|obs| - 1], t).Some?
    ensures var s := Index(norm, obs[..|obs| - 1], t).value;
            var o := obs[|obs| - 1];
            Index(norm, obs, t).Some? <==>
              (Mine(norm, o, t) ==>
                 norm(o.item) != "" && o.quantity >= 0 && o.day.Some? && o.day.value !in DaysOf(s, norm(o.item)))
  {
  }

  lemma RepeatsIff(norm: string -> string, obs: seq<Observation>, t: string, s: Series, item: string, d: int)
    requires Index(norm, obs, t) == Some(s)
    ensures d in DaysOf(s, item) <==>
            exists i | 0 <= i < |obs| :: Mine(norm, obs[i], t) && norm(obs[i].item) == item && obs[i].day == Some(d)
  {
    hide Index;
    IndexHolds(norm, obs, t, s);
    if d in DaysOf(s, item) {
      assert Observed(norm, obs, t, item, d, s[item][d]);
    }
    if i :| 0 <= i < |obs| && Mine(norm, obs[i], t) && norm(obs[i].item) == item && obs[i].day == Some(d) {
      assert Observed(norm, obs, t, item, d, obs[i].quantity);
    }
  }

  // --- splits ------------------------------------------------------------------------------------------

  function Least(a: nat, b: nat): nat { if a < b then a else b }

  function Ranked(dates: set<int>, n: nat): set<int> { set d | d in dates && Rank(dates, d) <= n }

  lemma {:induction false} Latest(dates: set<int>, some: int) returns (last: int)
    requires some in dates
    ensures last in dates && forall d | d in dates :: d <= last
    decreases |dates|
  {
    last := some;
    if later :| later in dates && later > some {
      last := Latest(dates - {some}, later);
      assert forall d | d in dates :: d == some || d in dates - {some};
    }
  }

  /** The first `n` of the dates are `n` dates, or all. */
  lemma {:induction false} RankedCount(dates: set<int>, n: nat)
    ensures |Ranked(dates, n)| == Least(n, |dates|)
    decreases |dates|
  {
    if some :| some in dates {
      var last := Latest(dates, some);
      var rest := dates - {last};
      RankedCount(rest, n);
      RankOfLatest(dates, last);
      forall d | d in rest ensures Rank(dates, d) == Rank(rest, d) {
        assert (set x | x in dates && x <= d) == (set x | x in rest && x <= d);
      }
      assert Ranked(dates, n) == Ranked(rest, n) + if |dates| <= n then {last} else {};
    } else {
      assert dates == {} && Ranked(dates, n) == {};
    }
  }

  lemma RankOfLatest(dates: set<int>, last: int)
    requires last in dates && forall d | d in dates :: d <= last
    ensures Rank(dates, last) == |dates|
  {
    assert (set x | x in dates && x <= last) == dates;
  }

  function InSplit(dates: set<int>, split: Split): set<int> { set d | d in Splits(dates) && Splits(dates)[d] == split }

  /** The 70 earliest dates train, the next 14 validate, the next 21 test, and later ones have no split. */
  lemma SplitsAreBlocks(dates: set<int>)
    ensures InSplit(dates, Train) == Ranked(dates, 70)
    ensures InSplit(dates, Validation) == Ranked(dates, 84) - Ranked(dates, 70)
    ensures InSplit(dates, Test) == Ranked(dates, 105) - Ranked(dates, 84)
    ensures |InSplit(dates, Train)| == Least(70, |dates|)
    ensures |InSplit(dates, Train)| + |InSplit(dates, Validation)| == Least(84, |dates|)
    ensures |InSplit(dates, Train)| + |InSplit(dates, Validation)| + |InSplit(dates, Test)| == Least(105, |dates|)
    ensures forall a, b | a in dates && b in dates && a < b :: b in Splits(dates) ==>
              a in Splits(dates) && SplitOrder(Splits(dates)[a]) <= SplitOrder(Splits(dates)[b])
  {
    hide Rank, Ranked, InSplit, Splits;
    SplitSets(dates);
    RankedCount(dates, 70);
    RankedCount(dates, 84);
    RankedCount(dates, 105);
    RankedGrows(dates, 70, 84);
    RankedGrows(dates, 84, 105);
    forall x, y | x in dates && y in dates && x < y && y in Splits(dates)
      ensures x in Splits(dates) && SplitOrder(Splits(dates)[x]) <= SplitOrder(Splits(dates)[y])
    {
      EarlierHasSplit(dates, x, y);
      LaterSplit(dates, x, y);
    }
  }

  lemma SplitSets(dates: set<int>)
    ensures InSplit(dates, Train) == Ranked(dates, 70)
    ensures InSplit(dates, Validation) == Ranked(dates, 84) - Ranked(dates, 70)
    ensures InSplit(dates, Test) == Ranked(dates, 105) - Ranked(dates, 84)
  {
    hide Rank;
  }

  lemma RankedGrows(dates: set<int>, m: nat, n: nat)
    requires m <= n
    ensures |Ranked(dates, n)| == |Ranked(dates, m)| + |Ranked(dates, n) - Ranked(dates, m)|
  {
    hide Rank;
    assert Ranked(dates, n) == Ranked(dates, m) + (Ranked(dates, n) - Ranked(dates, m));
  }

  // --- rows --------------------------------------------------------------------------------------------

  /** The item was observed on the day and seven days later. */
  ghost predicate Labelable(norm: string -> string, obs: seq<Observation>, t: string, item: string, d: int) {
    WasObserved(norm, obs, t, item, d) && WasObserved(norm, obs, t, item, d + 7)
  }

  lemma LabelableIs(norm: string -> string, obs: seq<Observation>, t: string, s: Series, item: string, d: int)
    requires Accepts(norm, obs, t, s)
    ensures item in s && HasHorizon(s[item], d) <==> Labelable(norm, obs, t, item, d)
  {
    hide Index, Observed;
    IndexHolds(norm, obs, t, s);
  }

  /** A date is labelable when some item is labelable on it. */
  lemma DatesAre(norm: string -> string, obs: seq<Observation>, t: string, s: Series, d: int)
    requires Accepts(norm, obs, t, s)
    ensures d in LabelableDates(s) <==> exists item :: Labelable(norm, obs, t, item, d)
  {
    hide Accepts, Labelable;
    if d in LabelableDates(s) {
      var item :| item in s && d in s[item] && HasHorizon(s[item], d);
      LabelableIs(norm, obs, t, s, item, d);
    }
    if item :| Labelable(norm, obs, t, item, d) {
      LabelableIs(norm, obs, t, s, item, d);
    }
  }

  /**
   The dataset and the snapshot of accepted observations, from the observations themselves. There is a row for an item
   and day exactly when the item was observed then and seven days later and the day is one of the first 105 labelable
   ones; the label is whether the item was seen without stock on one of the seven days after; the feature quantity is the
   quantity observed; the split is by the day's place among the labelable days.
   */
  lemma RowsMean(norm: string -> string, hash: Days -> string, obs: seq<Observation>, t: string, s: Series, k: Key)
    requires Accepts(norm, obs, t, s)
    ensures var dates := LabelableDates(s);
            && (k in FeatureRows(hash, s) <==> Labelable(norm, obs, t, k.item, k.day) && Rank(dates, k.day) <= 105)
            && (k in Examples(hash, s) <==> k in FeatureRows(hash, s))
            && (k in FeatureRows(hash, s) ==>
                  && Observed(norm, obs, t, k.item, k.day, FeatureRows(hash, s)[k].quantity)
                  && Examples(hash, s)[k].outcome
                     == (if ObservedEmpty(norm, obs, t, k.item, k.day + 1, k.day + 7) != {} then 1 else 0)
                  && Examples(hash, s)[k].split == FeatureRows(hash, s)[k].split == BySplit(Rank(dates, k.day)))
  {
    hide Accepts, Labelable, LabelableDates, Rank, Observed, ObservedEmpty, OutBetween, EmptyDays, Accepted, UpTo;
    IndexIsAccepted(norm, obs, t, s);
    AcceptedDense(s);
    RowKeys(hash, s);
    LabelableIs(norm, obs, t, s, k.item, k.day);
    if Labelable(norm, obs, t, k.item, k.day) {
      HorizonIsDate(s, k.item, k.day);
    }
    assert k in FeatureRows(hash, s) <==> HasRow(s, k);
    assert k in Examples(hash, s) <==> k in Examples(hash, s).Keys;
    if k in FeatureRows(hash, s) {
      ObservedAt(norm, obs, t, s, k.item, k.day);
      ExampleMeans(hash, s, k);
      EmptyIsOut(s[k.item], k.day + 1, k.day + 7);
      EmptyIsObserved(norm, obs, t, s, k.item, k.day + 1, k.day + 7);
    }
  }

  /** The split of the n-th date. */
  function BySplit(n: nat): Split { if n <= 70 then Train else if n <= 84 then Validation else Test }

  lemma AcceptedDense(s: Series)
    requires Accepted(s)
    ensures AllDense(s)
  {
  }

  lemma HorizonIsDate(s: Series, item: string, d: int)
    requires item in s && HasHorizon(s[item], d)
    ensures d in LabelableDates(s)
  {
  }

  lemma ObservedAt(norm: string -> string, obs: seq<Observation>, t: string, s: Series, item: string, d: int)
    requires Accepts(norm, obs, t, s) && item in s && d in s[item]
    ensures Observed(norm, obs, t, item, d, s[item][d])
  {
    hide Index, Observed;
    IndexHolds(norm, obs, t, s);
  }

  /** The history hash of a row stands for exactly what was observed of the item up to its day. */
  lemma HashIsHistory(norm: string -> string, hash: Days -> string, a: seq<Observation>, b: seq<Observation>, t: string,
                      x: Series, y: Series, k: Key)
    requires forall u, v :: hash(u) == hash(v) ==> u == v
    requires Accepts(norm, a, t, x) && Accepts(norm, b, t, y) && k in FeatureRows(hash, x) && k in FeatureRows(hash, y)
    ensures FeatureRows(hash, x)[k].hash == FeatureRows(hash, y)[k].hash <==>
            forall d, q :: Observed(norm, a, t, k.item, d, q) && d <= k.day <==> Observed(norm, b, t, k.item, d, q) && d <= k.day
    ensures k in Examples(hash, x) ==> Examples(hash, x)[k].hash == FeatureRows(hash, x)[k].hash
  {
    hide Observed, LabelableDates, Splits, UpTo, Accepts;
    var u, v := UpTo(x[k.item], k.day), UpTo(y[k.item], k.day);
    forall d, q ensures Observed(norm, a, t, k.item, d, q) && d <= k.day <==> Holding(u, d, q) {
      UpToIs(norm, a, t, x, k, d, q);
    }
    forall d, q ensures Observed(norm, b, t, k.item, d, q) && d <= k.day <==> Holding(v, d, q) {
      UpToIs(norm, b, t, y, k, d, q);
    }
    SameHoldings(u, v);
    hide Holding;
  }

  predicate Holding(days: Days, d: int, q: int) { d in days && days[d] == q }

  lemma UpToIs(norm: string -> string, obs: seq<Observation>, t: string, s: Series, k: Key, d: int, q: int)
    requires Accepts(norm, obs, t, s) && k.item in s
    ensures Observed(norm, obs, t, k.item, d, q) && d <= k.day <==> Holding(UpTo(s[k.item], k.day), d, q)
  {
    hide Index, Observed;
    IndexHolds(norm, obs, t, s);
  }

  lemma SameHoldings(u: Days, v: Days)
    ensures u == v <==> forall d, q :: Holding(u, d, q) <==> Holding(v, d, q)
  {
    if forall d, q :: Holding(u, d, q) <==> Holding(v, d, q) {
      forall d ensures (d in u ==> d in v && v[d] == u[d]) && (d in v ==> d in u) {
        if d in u {
          assert Holding(u, d, u[d]);
        }
        if d in v {
          assert Holding(v, d, v[d]);
        }
      }
    }
  }

  // --- validation --------------------------------------------------------------------------------------

  /** The example's split is that of its day's place among the days of all examples, which is one of the first 105. */
  predicate InPlace(examples: map<Key, Example>, k: Key)
    requires k in examples
  {
    var n := Rank(DatesOf(examples), k.day);
    n <= 105 && examples[k].split == BySplit(n)
  }

  lemma FrozenAt(examples: map<Key, Example>, k: Key)
    requires k in examples
    ensures k.day in Splits(DatesOf(examples)) && Splits(DatesOf(examples))[k.day] == examples[k].split <==> InPlace(examples, k)
  {
    hide Rank;
    assert k.day in DatesOf(examples);
  }

  /**
   The three checks on the splits of any examples come to one: each is in its place. One split a date and splits that
   follow one another in time are consequences.
   */
  lemma FrozenIff(examples: map<Key, Example>)
    ensures SplitsFrozen(examples) <==> forall k | k in examples :: InPlace(examples, k)
  {
    hide Splits, DatesOf, Rank;
    forall k | k in examples
      ensures k.day in Splits(DatesOf(examples)) && Splits(DatesOf(examples))[k.day] == examples[k].split <==> InPlace(examples, k)
    {
      FrozenAt(examples, k);
    }
    if forall k | k in examples :: InPlace(examples, k) {
      forall k, k' | k in examples && k' in examples && k.day < k'.day
        ensures SplitOrder(examples[k].split) <= SplitOrder(examples[k'].split)
      {
        RankMonotone(DatesOf(examples), k.day, k'.day);
        assert InPlace(examples, k) && InPlace(examples, k');
      }
    }
  }

  /** What a pair of examples and feature rows, from anywhere, must be to pass validation. */
  lemma ValidInputIff(examples: map<Key, Example>, rows: map<Key, FeatureRow>)
    ensures ValidInput(examples, rows) <==>
            && rows != map[] && rows.Keys == examples.Keys
            && (forall k | k in examples :: k.item != "" && examples[k].outcome in {0, 1} && InPlace(examples, k))
            && (forall k | k in rows && k in examples ::
                  rows[k].quantity >= 0 && rows[k].split == examples[k].split && rows[k].hash == examples[k].hash)
  {
    hide SplitsFrozen, InPlace;
    FrozenIff(examples);
    assert rows != map[] <==> rows.Keys != {};
  }

  lemma SameRow(hash: Days -> string, x: Series, y: Series, k: Key)
    requires (forall u, v :: hash(u) == hash(v) ==> u == v) && HasRow(x, k) && HasRow(y, k)
    requires k in FeatureRows(hash, x) && k in FeatureRows(hash, y)
    ensures FeatureRows(hash, x)[k].hash == FeatureRows(hash, y)[k].hash ==>
              FeatureRows(hash, x)[k].quantity == FeatureRows(hash, y)[k].quantity
  {
    hide Splits, LabelableDates;
    var u, v := UpTo(x[k.item], k.day), UpTo(y[k.item], k.day);
    assert u[k.day] == x[k.item][k.day] && v[k.day] == y[k.item][k.day];
  }

  /** The row check of validation, on rows that are determined by their hash. */
  lemma RowsMatch(examples: map<Key, Example>, mine: map<Key, FeatureRow>, other: map<Key, FeatureRow>)
    requires examples.Keys == mine.Keys == other.Keys
    requires forall k | k in mine :: examples[k].split == mine[k].split && examples[k].hash == mine[k].hash
    requires forall k | k in mine :: mine[k].hash == other[k].hash ==> mine[k].quantity == other[k].quantity
    requires forall k | k in other :: other[k].split == examples[k].split && other[k].hash == examples[k].hash
    ensures mine == other
  {
    forall k | k in mine ensures mine[k] == other[k] {
    }
  }

  lemma ValidMeansSame(hash: Days -> string, x: Series, y: Series)
    requires (forall u, v :: hash(u) == hash(v) ==> u == v) && AllDense(x) && AllDense(y)
    requires ValidInput(Examples(hash, x), FeatureRows(hash, y))
    ensures FeatureRows(hash, y) != map[] && FeatureRows(hash, x) == FeatureRows(hash, y)
  {
    RowKeys(hash, x);
    RowKeys(hash, y);
    var examples, mine, other := Examples(hash, x), FeatureRows(hash, x), FeatureRows(hash, y);
    hide Splits, LabelableDates, HasRow, Examples, FeatureRows, AllDense, SplitsFrozen;
    forall k | k in mine ensures examples[k].split == mine[k].split && examples[k].hash == mine[k].hash {
      assert k in examples.Keys;
      ExampleAndRow(hash, x, k);
    }
    forall k | k in mine ensures k in other && (mine[k].hash == other[k].hash ==> mine[k].quantity == other[k].quantity) {
      assert k in other.Keys;
      SameRow(hash, x, y, k);
    }
    RowsMatch(examples, mine, other);
  }

  /**
   A dataset of one history and a feature snapshot of another pass validation together exactly when there is a row and the
   other history would have given the same rows: same items and days, splits, quantities and history hashes.
   */
  lemma ValidationFindsOtherHistory(hash: Days -> string, x: Series, y: Series)
    requires (forall u, v :: hash(u) == hash(v) ==> u == v) && Accepted(x) && Accepted(y)
    ensures ValidInput(Examples(hash, x), FeatureRows(hash, y)) <==>
            FeatureRows(hash, y) != map[] && FeatureRows(hash, x) == FeatureRows(hash, y)
  {
    AcceptedDense(x);
    AcceptedDense(y);
    hide HasRow, Examples, FeatureRows, Accepted, AllDense, ValidInput;
    if ValidInput(Examples(hash, x), FeatureRows(hash, y)) {
      ValidMeansSame(hash, x, y);
    }
    if FeatureRows(hash, y) != map[] && FeatureRows(hash, x) == FeatureRows(hash, y) {
      RowKeys(hash, x);
      var k :| k in FeatureRows(hash, x);
      assert HasRow(x, k);
      InputIsAccepted(hash, x);
    }
  }

  lemma ExampleAndRow(hash: Days -> string, s: Series, k: Key)
    requires k in Examples(hash, s)
    ensures k in FeatureRows(hash, s)
    ensures Examples(hash, s)[k].split == FeatureRows(hash, s)[k].split
    ensures Examples(hash, s)[k].hash == FeatureRows(hash, s)[k].hash
  {
    hide Splits, LabelableDates, UpTo;
  }
}
