/**
 Forecast rows: daily on-hand observations indexed into dense series, labelled over a seven-day horizon and split
 chronologically. Dates are day numbers; a `None` day is a date that does not parse.
 */
module Forecast {
  import opened Events

  const HORIZON := 7
  const TRAIN_DAYS := 70
  const VALIDATION_DAYS := 14
  const TEST_DAYS := 21

  datatype Observation = Observation(tenant: string, item: string, day: Option<int>, quantity: int)

  type Days = map<int, int>
  type Series = map<string, Days>

  datatype Split = Train | Validation | Test

  datatype Key = Key(item: string, day: int)
  datatype Example = Example(outcome: int, split: Split, hash: string)
  datatype FeatureRow = FeatureRow(split: Split, quantity: int, hash: string)

  // --- indexing ------------------------------------------------------------------------------------

  function DaysOf(s: Series, item: string): Days { if item in s then s[item] else map[] }

  /** indexObservations before the density check; `norm` trims and lower-cases. */
  function Index(norm: string -> string, obs: seq<Observation>, t: string): Option<Series> {
    if obs == [] then Some(map[])
    else
      var before := Index(norm, obs[..|obs| - 1], t);
      var o := obs[|obs| - 1];
      if before.None? || norm(o.tenant) != t then before
      else
        var item := norm(o.item);
        var days := DaysOf(before.value, item);
        if item == "" || o.quantity < 0 || o.day.None? || o.day.value in days then None
        else Some(before.value[item := days[o.day.value := o.quantity]])
  }

  method IndexObservations(norm: string -> string, obs: seq<Observation>, t: string) returns (out: Option<Series>)
    ensures out == Index(norm, obs, t)
  {
    var series: Series := map[];
    var i := 0;
    while i < |obs|
      invariant 0 <= i <= |obs|
      invariant Index(norm, obs[..i], t) == Some(series)
    {
      assert obs[..i + 1][..i] == obs[..i];
      var o := obs[i];
      i := i + 1;
      if norm(o.tenant) != t {
        continue;
      }
      var item := norm(o.item);
      if item == "" || o.quantity < 0 || o.day.None? {
        IndexFails(norm, obs, t, i);
        return None;
      }
      var days := if item in series then series[item] else map[];
      if o.day.value in days {
        IndexFails(norm, obs, t, i);
        return None;
      }
      series := series[item := days[o.day.value := o.quantity]];
    }
    assert obs[..i] == obs;
    return Some(series);
  }

  lemma {:induction false} IndexFails(norm: string -> string, obs: seq<Observation>, t: string, i: nat)
    requires i <= |obs| && Index(norm, obs[..i], t) == None
    ensures Index(norm, obs, t) == None
  {
    if i == |obs| {
      assert obs[..i] == obs;
    } else {
      assert obs[..|obs| - 1][..i] == obs[..i];
      IndexFails(norm, obs[..|obs| - 1], t, i);
    }
  }

  function Elements(dates: seq<int>): set<int> { set d | d in dates }

  /** No calendar gap between the first and the last day. */
  ghost predicate Dense(days: Days) {
    forall a, b, d: int | a in days && b in days && a <= d <= b :: d in days
  }

  lemma Between(days: Days, a: int, b: int, d: int)
    requires Dense(days) && a in days && b in days && a <= d <= b
    ensures d in days
  {
  }

  /** requireDense on the sorted days. */
  method RequireDense(days: Days, dates: seq<int>) returns (ok: bool)
    requires dates != [] && days.Keys == Elements(dates)
    requires forall i, j | 0 <= i < j < |dates| :: dates[i] < dates[j]
    ensures ok <==> Dense(days)
  {
    var start, end := dates[0], dates[|dates| - 1];
    assert start in days.Keys && end in days.Keys;
    assert forall d | d in days :: start <= d <= end by {
      forall d | d in days ensures start <= d <= end {
        assert d in days.Keys;
        var i :| 0 <= i < |dates| && dates[i] == d;
      }
    }
    var i := 0;
    while i < |dates|
      invariant 0 <= i <= |dates|
      invariant forall j | 0 <= j < i :: dates[j] == start + j
    {
      if dates[i] != start + i {
        HoleAt(days, dates, i);
        return false;
      }
      i := i + 1;
    }
    assert end == start + |dates| - 1;
    forall a, b, d: int | a in days && b in days && a <= d <= b ensures d in days {
      assert dates[d - start] == d;
      assert d in days.Keys;
    }
    return true;
  }

  /** Where the sorted days first leave the calendar, a day is missing. */
  lemma HoleAt(days: Days, dates: seq<int>, i: nat)
    requires 0 < i < |dates| && days.Keys == Elements(dates)
    requires forall a, b | 0 <= a < b < |dates| :: dates[a] < dates[b]
    requires (forall j | 0 <= j < i :: dates[j] == dates[0] + j) && dates[i] != dates[0] + i
    ensures !Dense(days)
  {
    var d := dates[0] + i;
    assert dates[i - 1] < dates[i];
    assert dates[0] in days.Keys && dates[i] in days.Keys;
    assert dates[0] <= d <= dates[i];
    forall j | 0 <= j < |dates| ensures dates[j] != d {
      if j > i {
        assert dates[i] < dates[j];
      }
    }
    assert d !in days.Keys;
  }

  ghost predicate AllDense(s: Series) { forall item | item in s :: Dense(s[item]) }

  /** The history is accepted for the tenant, as this series. */
  ghost predicate Accepts(norm: string -> string, obs: seq<Observation>, t: string, s: Series) {
    Index(norm, obs, t) == Some(s) && AllDense(s)
  }

  // --- labels and splits -----------------------------------------------------------------------------

  predicate HasHorizon(days: Days, d: int) { d in days && d + HORIZON in days }

  /** The item is out of stock on one of the days. */
  ghost predicate OutBetween(days: Days, first: int, last: int) {
    exists x | first <= x <= last :: x in days && days[x] == 0
  }

  /** labelAt; `None` when a day of the window is missing before a zero is found. */
  function LabelFrom(days: Days, d: int, i: int): Option<int>
    requires 1 <= i <= HORIZON + 1
    decreases HORIZON + 1 - i
  {
    if i > HORIZON then Some(0)
    else if d + i !in days then None
    else if days[d + i] == 0 then Some(1)
    else LabelFrom(days, d, i + 1)
  }

  method LabelAt(days: Days, d: int) returns (outcome: Option<int>)
    ensures outcome == LabelFrom(days, d, 1)
  {
    var i := 1;
    while i <= HORIZON
      invariant 1 <= i <= HORIZON + 1
      invariant LabelFrom(days, d, 1) == LabelFrom(days, d, i)
    {
      if d + i !in days {
        return None;
      }
      if days[d + i] == 0 {
        return Some(1);
      }
      i := i + 1;
    }
    return Some(0);
  }

  /** In a dense series the label says whether the item runs out within the horizon. */
  lemma {:induction false} LabelMeans(days: Days, d: int, i: int)
    requires Dense(days) && HasHorizon(days, d) && 1 <= i <= HORIZON + 1
    ensures LabelFrom(days, d, i)
         == Some(if OutBetween(days, d + i, d + HORIZON) then 1 else 0)
    decreases HORIZON + 1 - i
  {
    hide Dense;
    if i <= HORIZON {
      Between(days, d, d + HORIZON, d + i);
      LabelMeans(days, d, i + 1);
    }
  }

  function LabelableDates(s: Series): set<int> {
    set item, d | item in s && d in s[item] && HasHorizon(s[item], d) :: d
  }

  function Rank(dates: set<int>, d: int): nat { |set x | x in dates && x <= d| }

  function SplitFor(rank: nat): Option<Split> {
    if rank <= TRAIN_DAYS then Some(Train)
    else if rank <= TRAIN_DAYS + VALIDATION_DAYS then Some(Validation)
    else if rank <= TRAIN_DAYS + VALIDATION_DAYS + TEST_DAYS then Some(Test)
    else None
  }

  /** The split of each date by its place among the dates. */
  function Splits(dates: set<int>): map<int, Split> {
    map d | d in dates && SplitFor(Rank(dates, d)).Some? :: SplitFor(Rank(dates, d)).value
  }

  /** assignSplits on the sorted dates. */
  method AssignSplits(dates: seq<int>) returns (out: map<int, Split>)
    requires forall i, j | 0 <= i < j < |dates| :: dates[i] < dates[j]
    ensures out == Splits(Elements(dates))
  {
    hide Rank;
    out := map[];
    ghost var all := Elements(dates);
    var i := 0;
    while i < |dates|
      invariant 0 <= i <= |dates|
      invariant forall d :: d in out <==> exists j | 0 <= j < i :: dates[j] == d && SplitFor(j + 1).Some?
      invariant forall j | 0 <= j < i && dates[j] in out :: Some(out[dates[j]]) == SplitFor(j + 1)
    {
      if i + 1 <= TRAIN_DAYS {
        out := out[dates[i] := Train];
      } else if i + 1 <= TRAIN_DAYS + VALIDATION_DAYS {
        out := out[dates[i] := Validation];
      } else if i + 1 <= TRAIN_DAYS + VALIDATION_DAYS + TEST_DAYS {
        out := out[dates[i] := Test];
      }
      i := i + 1;
    }
    forall j | 0 <= j < |dates| ensures Rank(all, dates[j]) == j + 1 {
      RankOfSorted(dates, j);
    }
    SplitsOfSorted(dates, out);
  }

  lemma SplitsOfSorted(dates: seq<int>, out: map<int, Split>)
    requires forall i, j | 0 <= i < j < |dates| :: dates[i] < dates[j]
    requires forall d :: d in out <==> exists j | 0 <= j < |dates| :: dates[j] == d && SplitFor(j + 1).Some?
    requires forall j | 0 <= j < |dates| && dates[j] in out :: Some(out[dates[j]]) == SplitFor(j + 1)
    requires forall j | 0 <= j < |dates| :: Rank(Elements(dates), dates[j]) == j + 1
    ensures out == Splits(Elements(dates))
  {
    hide Rank, SplitFor;
    var all := Elements(dates);
    var want := Splits(all);
    forall d ensures d in out <==> d in want {
      if d in out {
        var j :| 0 <= j < |dates| && dates[j] == d && SplitFor(j + 1).Some?;
        assert Rank(all, dates[j]) == j + 1;
      }
      if d in want {
        var j :| 0 <= j < |dates| && dates[j] == d;
        assert Rank(all, dates[j]) == j + 1;
      }
    }
    forall d | d in out ensures out[d] == want[d] {
      var j :| 0 <= j < |dates| && dates[j] == d && SplitFor(j + 1).Some?;
      assert Rank(all, dates[j]) == j + 1;
    }
  }

  lemma RankOfSorted(dates: seq<int>, j: nat)
    requires j < |dates| && forall a, b | 0 <= a < b < |dates| :: dates[a] < dates[b]
    ensures Rank(Elements(dates), dates[j]) == j + 1
  {
    var upto := dates[..j + 1];
    assert (set x | x in Elements(dates) && x <= dates[j]) == Elements(upto) by {
      forall x | x in Elements(dates) && x <= dates[j] ensures x in upto {
        var i :| 0 <= i < |dates| && dates[i] == x;
        assert upto[i] == x;
      }
      forall x | x in upto ensures x in dates && x <= dates[j] {
        var i :| 0 <= i < |upto| && upto[i] == x;
        assert dates[i] == x;
      }
    }
    CountSorted(upto);
  }

  lemma {:induction false} CountSorted(dates: seq<int>)
    requires forall a, b | 0 <= a < b < |dates| :: dates[a] < dates[b]
    ensures |Elements(dates)| == |dates|
  {
    if dates != [] {
      var init, last := dates[..|dates| - 1], dates[|dates| - 1];
      CountSorted(init);
      assert dates == init + [last];
      assert Elements(dates) == Elements(init) + {last};
    }
  }

  // --- rows ----------------------------------------------------------------------------------------

  /** The history hash covers the days up to the cutoff; `hash` digests their sorted lines. */
  function UpTo(days: Days, d: int): Days { map x | x in days && x <= d :: days[x] }

  predicate HasRow(s: Series, k: Key) {
    k.item in s && HasHorizon(s[k.item], k.day) && k.day in Splits(LabelableDates(s))
  }

  function AllKeys(s: Series): set<Key> { set item, d | item in s && d in s[item] :: Key(item, d) }

  /** The labelled rows of BuildDataset. */
  function Examples(hash: Days -> string, s: Series): map<Key, Example> {
    map k | k in AllKeys(s) && HasRow(s, k) && LabelFrom(s[k.item], k.day, 1).Some? ::
      Example(LabelFrom(s[k.item], k.day, 1).value, Splits(LabelableDates(s))[k.day], hash(UpTo(s[k.item], k.day)))
  }

  /** The rows of BuildFeatureSnapshot. */
  function FeatureRows(hash: Days -> string, s: Series): map<Key, FeatureRow> {
    map k | k in AllKeys(s) && HasRow(s, k) ::
      FeatureRow(Splits(LabelableDates(s))[k.day], s[k.item][k.day], hash(UpTo(s[k.item], k.day)))
  }

  lemma RowKeys(hash: Days -> string, s: Series)
    requires AllDense(s)
    ensures forall k :: k in FeatureRows(hash, s) <==> HasRow(s, k)
    ensures Examples(hash, s).Keys == FeatureRows(hash, s).Keys
  {
    hide Splits, LabelableDates, UpTo, Dense;
    forall k | HasRow(s, k) ensures k in AllKeys(s) && LabelFrom(s[k.item], k.day, 1).Some? {
      LabelMeans(s[k.item], k.day, 1);
    }
  }

  // --- no future leakage -----------------------------------------------------------------------------

  /** The observations of the tenant have the same items and days, and the same quantities up to day `d`. */
  ghost predicate AgreeUpTo(a: Series, b: Series, d: int) {
    && a.Keys == b.Keys
    && (forall item | item in a :: a[item].Keys == b[item].Keys)
    && (forall item, x | item in a && x in a[item] && x <= d :: x in b[item] && a[item][x] == b[item][x])
  }

  lemma SameDates(a: Series, b: Series, d: int)
    requires AgreeUpTo(a, b, d)
    ensures LabelableDates(a) == LabelableDates(b)
  {
    forall x ensures x in LabelableDates(a) <==> x in LabelableDates(b) {
      if x in LabelableDates(a) {
        var item :| item in a && x in a[item] && HasHorizon(a[item], x);
        assert x in b[item].Keys && x + HORIZON in b[item].Keys;
      }
      if x in LabelableDates(b) {
        var item :| item in b && x in b[item] && HasHorizon(b[item], x);
        assert x in a[item].Keys && x + HORIZON in a[item].Keys;
      }
    }
  }

  /**
   Two histories with the same keys and equal quantities up to day `d` give the same feature rows - split, quantity
   and history hash - for every date up to `d`, whatever happens later.
   */
  lemma NoFutureLeakage(hash: Days -> string, a: Series, b: Series, d: int, k: Key)
    requires AgreeUpTo(a, b, d) && k.day <= d
    ensures k in FeatureRows(hash, a) <==> k in FeatureRows(hash, b)
    ensures k in FeatureRows(hash, a) ==> FeatureRows(hash, a)[k] == FeatureRows(hash, b)[k]
  {
    hide Splits, LabelableDates;
    SameDates(a, b, d);
    if k.item in a {
      assert a[k.item].Keys == b[k.item].Keys;
      assert UpTo(a[k.item], k.day) == UpTo(b[k.item], k.day);
    }
  }

  /** What indexing keeps of the observations: the tenant's, by item and day. */
  ghost predicate Observed(norm: string -> string, obs: seq<Observation>, t: string, item: string, d: int, q: int) {
    exists i | 0 <= i < |obs| ::
      norm(obs[i].tenant) == t && norm(obs[i].item) == item && obs[i].day == Some(d) && obs[i].quantity == q
  }

  ghost predicate NonEmpty(days: Days) { exists d :: d in days }

  lemma {:induction false} IndexHolds(norm: string -> string, obs: seq<Observation>, t: string, s: Series)
    requires Index(norm, obs, t) == Some(s)
    ensures forall item, d :: item in s && d in s[item] ==> Observed(norm, obs, t, item, d, s[item][d]) && s[item][d] >= 0
    ensures forall item, d, q :: Observed(norm, obs, t, item, d, q) ==> item in s && d in s[item] && s[item][d] == q
  {
    if obs != [] {
      var n := |obs| - 1;
      var before := Index(norm, obs[..n], t).value;
      IndexHolds(norm, obs[..n], t, before);
      forall item, d, q ensures Observed(norm, obs, t, item, d, q) <==>
        Observed(norm, obs[..n], t, item, d, q)
        || (norm(obs[n].tenant) == t && norm(obs[n].item) == item && obs[n].day == Some(d) && obs[n].quantity == q)
      {
        ObservedAppend(norm, obs, t, item, d, q);
      }
      hide Observed;
    }
  }

  lemma {:induction false} IndexNonEmpty(norm: string -> string, obs: seq<Observation>, t: string, s: Series)
    requires Index(norm, obs, t) == Some(s)
    ensures forall item | item in s :: item != "" && NonEmpty(s[item])
  {
    if obs != [] {
      var n := |obs| - 1;
      var before := Index(norm, obs[..n], t).value;
      IndexNonEmpty(norm, obs[..n], t, before);
      forall item | item in s ensures item != "" && NonEmpty(s[item]) {
        if norm(obs[n].tenant) == t && item == norm(obs[n].item) {
          var d := obs[n].day.value;
          assert d in s[item];
        } else {
          assert NonEmpty(before[item]) && s[item] == before[item];
        }
      }
    }
  }

  lemma ObservedAppend(norm: string -> string, obs: seq<Observation>, t: string, item: string, d: int, q: int)
    requires obs != []
    ensures Observed(norm, obs, t, item, d, q) <==>
            || Observed(norm, obs[..|obs| - 1], t, item, d, q)
            || (norm(obs[|obs| - 1].tenant) == t && norm(obs[|obs| - 1].item) == item
                && obs[|obs| - 1].day == Some(d) && obs[|obs| - 1].quantity == q)
  {
    var n := |obs| - 1;
    if Observed(norm, obs[..n], t, item, d, q) {
      var i :| 0 <= i < n && norm(obs[..n][i].tenant) == t && norm(obs[..n][i].item) == item
               && obs[..n][i].day == Some(d) && obs[..n][i].quantity == q;
      assert obs[i] == obs[..n][i];
    }
    if Observed(norm, obs, t, item, d, q) {
      var i :| 0 <= i < |obs| && norm(obs[i].tenant) == t && norm(obs[i].item) == item
               && obs[i].day == Some(d) && obs[i].quantity == q;
      if i < n {
        assert obs[..n][i] == obs[i];
      }
    }
  }

  /** The tenant's observations agree on their keys, and on the quantities up to day `d`. */
  ghost predicate ObservationsAgree(norm: string -> string, a: seq<Observation>, b: seq<Observation>, t: string, d: int) {
    && (forall item, x, q :: Observed(norm, a, t, item, x, q) ==> exists q' :: Observed(norm, b, t, item, x, q'))
    && (forall item, x, q :: Observed(norm, b, t, item, x, q) ==> exists q' :: Observed(norm, a, t, item, x, q'))
    && (forall item, x, q | x <= d :: Observed(norm, a, t, item, x, q) <==> Observed(norm, b, t, item, x, q))
  }

  /** The same for accepted histories, in any order of their observations. */
  lemma HistoriesDoNotLeak(norm: string -> string, hash: Days -> string, a: seq<Observation>, b: seq<Observation>,
                           t: string, d: int, x: Series, y: Series, k: Key)
    requires Accepts(norm, a, t, x) && Accepts(norm, b, t, y) && ObservationsAgree(norm, a, b, t, d) && k.day <= d
    ensures k in FeatureRows(hash, x) <==> k in FeatureRows(hash, y)
    ensures k in FeatureRows(hash, x) ==> FeatureRows(hash, x)[k] == FeatureRows(hash, y)[k]
  {
    hide Index, FeatureRows, AllDense, Observed;
    IndexHolds(norm, a, t, x);
    IndexHolds(norm, b, t, y);
    IndexNonEmpty(norm, a, t, x);
    IndexNonEmpty(norm, b, t, y);
    SeriesAgree(norm, a, b, t, d, x, y);
    NoFutureLeakage(hash, x, y, d, k);
  }

  ghost predicate Holds(norm: string -> string, obs: seq<Observation>, t: string, s: Series) {
    && (forall item, d :: item in s && d in s[item] ==> Observed(norm, obs, t, item, d, s[item][d]))
    && (forall item, d, q :: Observed(norm, obs, t, item, d, q) ==> item in s && d in s[item] && s[item][d] == q)
    && (forall item | item in s :: NonEmpty(s[item]))
  }

  lemma SeriesAgree(norm: string -> string, a: seq<Observation>, b: seq<Observation>, t: string, d: int, x: Series, y: Series)
    requires Holds(norm, a, t, x) && Holds(norm, b, t, y) && ObservationsAgree(norm, a, b, t, d)
    ensures AgreeUpTo(x, y, d)
  {
    hide Observed;
    KeysIncluded(norm, a, b, t, x, y);
    KeysIncluded(norm, b, a, t, y, x);
    forall item | item in x ensures x[item].Keys == y[item].Keys {
    }
    forall item, z | item in x && z in x[item] && z <= d ensures z in y[item] && x[item][z] == y[item][z] {
      assert Observed(norm, a, t, item, z, x[item][z]);
      assert Observed(norm, b, t, item, z, x[item][z]);
    }
  }

  lemma KeysIncluded(norm: string -> string, a: seq<Observation>, b: seq<Observation>, t: string, x: Series, y: Series)
    requires Holds(norm, a, t, x) && Holds(norm, b, t, y)
    requires forall item, z, q :: Observed(norm, a, t, item, z, q) ==> exists q' :: Observed(norm, b, t, item, z, q')
    ensures x.Keys <= y.Keys && forall item | item in x :: x[item].Keys <= y[item].Keys
  {
    hide Observed;
    forall item, z | item in x && z in x[item] ensures item in y && z in y[item] {
      assert Observed(norm, a, t, item, z, x[item][z]);
      var q' :| Observed(norm, b, t, item, z, q');
    }
    forall item | item in x ensures item in y {
      assert NonEmpty(x[item]);
      var z :| z in x[item];
    }
  }
}
