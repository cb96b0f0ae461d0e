/**
  The five hypothesis evaluations. Each buckets the listings by a fixed rule,
  takes the mean of a value column per bucket (the table is sorted by bucket
  key, as the dataframe group-by sorts it), and reports the percentage change
  between consecutive bucket means.

  Bucket labels that the dashboard writes as text are keyed here by their rank
  in the alphabetical order the group-by sorts them in: "after" before
  "before", "no" before "yes".
 */
module Hypotheses {
  import opened Stats
  import opened Tables
  import opened Listings
  import opened Change

  /** The summary table of a hypothesis: the bucket means by key, and the change column. */
  datatype Summary = Summary(table: seq<Group<int>>, change: seq<Pct>)

  const AFTER_1955: int := 0
  const BEFORE_1955: int := 1
  const NO_BASEMENT: int := 0
  const WITH_BASEMENT: int := 1

  /**
    H1, waterfront houses: mean price per waterfront flag; the change is taken
    over the means sorted by value.
   */
  function WaterfrontPremium(ls: seq<Listing>): (r: Summary)
    ensures IsMeanTable(r.table, ls, WaterfrontOf, PriceOf)
    ensures r.change == PctChange(Sort(Values(r.table)))
  {
    var t := MeanTable(ls, WaterfrontOf, PriceOf);
    Summary(t, PctChange(Sort(Values(t))))
  }

  /** Group means of a positive value column are positive. */
  lemma PositiveMeans<T>(t: seq<Group<int>>, s: seq<T>, key: T -> int, val: T -> real)
    requires IsMeanTable(t, s, key, val)
    requires forall i :: 0 <= i < |s| ==> val(s[i]) > 0.0
    ensures forall i :: 0 <= i < |t| ==> t[i].value > 0.0
  {
    forall i | 0 <= i < |t| ensures t[i].value > 0.0 {
      var group := Select(s, key, t[i].key);
      var values := GroupValues(s, key, val, t[i].key);
      var m :| 0 <= m < |values| && values[m] == Min(values);
      assert group[m] in s;
    }
  }

  /**
    With positive prices, the H1 change column never reports a negative
    percentage: it measures how much dearer the dearer bucket is.
   */
  lemma WaterfrontChangeNonNegative(ls: seq<Listing>)
    requires forall i :: 0 <= i < |ls| ==> ls[i].price > 0.0
    ensures forall i :: 0 <= i < |WaterfrontPremium(ls).change| ==>
              WaterfrontPremium(ls).change[i].Pct? ==> WaterfrontPremium(ls).change[i].percent >= 0.0
  {
    var t := WaterfrontPremium(ls).table;
    assert forall i :: 0 <= i < |Values(t)| ==> Values(t)[i] > 0.0 by {
      PositiveMeans(t, ls, WaterfrontOf, PriceOf);
    }
    SortedChangesNonNegative(Values(t));
  }

  /** Sorting a positive column ascending and taking its changes gives no negative percentage. */
  lemma SortedChangesNonNegative(v: seq<real>)
    requires forall i :: 0 <= i < |v| ==> v[i] > 0.0
    ensures forall i :: 0 <= i < |v| ==> PctChange(Sort(v))[i].Pct? ==> PctChange(Sort(v))[i].percent >= 0.0
  {
    SortedPositive(v);
    AscendingChangesNonNegative(Sort(v));
  }

  lemma SortedPositive(v: seq<real>)
    requires forall i :: 0 <= i < |v| ==> v[i] > 0.0
    ensures forall i :: 0 <= i < |Sort(v)| ==> Sort(v)[i] > 0.0
  {
    forall i | 0 <= i < |Sort(v)| ensures Sort(v)[i] > 0.0 {
      assert Sort(v)[i] in v;
    }
  }

  /** H2 bucket: built before 1955 or not. */
  function EraOf(l: Listing): int {
    if l.yrBuilt < 1955 then BEFORE_1955 else AFTER_1955
  }

  /** H2, houses built before 1955: mean price per era, change in key order. */
  function EraDiscount(ls: seq<Listing>): (r: Summary)
    ensures IsMeanTable(r.table, ls, EraOf, PriceOf)
    ensures |r.table| <= 2
    ensures forall i :: 0 <= i < |r.table| ==> r.table[i].key == AFTER_1955 || r.table[i].key == BEFORE_1955
    ensures r.change == PctChange(Values(r.table))
  {
    var t := MeanTable(ls, EraOf, PriceOf);
    TwoBuckets(t, ls, EraOf, PriceOf);
    Summary(t, PctChange(Values(t)))
  }

  /** A mean table over a key taking only the values 0 and 1 has at most two rows. */
  lemma TwoBuckets<T>(t: seq<Group<int>>, s: seq<T>, key: T -> int, val: T -> real)
    requires IsMeanTable(t, s, key, val)
    requires forall x :: key(x) == 0 || key(x) == 1
    ensures |t| <= 2
    ensures forall i :: 0 <= i < |t| ==> t[i].key == 0 || t[i].key == 1
  {
    forall i | 0 <= i < |t| ensures t[i].key == 0 || t[i].key == 1 {
      var k := t[i].key;
      assert k in Keys(s, key);
      var m :| 0 <= m < |s| && key(s[m]) == k;
    }
    AscendingBits(t);
  }

  lemma AscendingBits(t: seq<Group<int>>)
    requires forall i, j :: 0 <= i < j < |t| ==> t[i].key < t[j].key
    requires forall i :: 0 <= i < |t| ==> t[i].key == 0 || t[i].key == 1
    ensures |t| <= 2
  {
    if |t| > 0 {
      KeysSpread(t, |t| - 1);
    }
  }

  /** Strictly ascending integer keys grow by at least one per row. */
  lemma {:induction false} KeysSpread(t: seq<Group<int>>, i: nat)
    requires forall i, j :: 0 <= i < j < |t| ==> t[i].key < t[j].key
    requires i < |t|
    ensures t[i].key >= t[0].key + i
  {
    if i > 0 {
      KeysSpread(t, i - 1);
    }
  }

  /** The H2 buckets are exactly the houses with `yr_built < 1955` and the rest. */
  lemma EraBuckets(ls: seq<Listing>)
    ensures GroupValues(ls, EraOf, PriceOf, BEFORE_1955) == Column(Filter(ls, (l: Listing) => l.yrBuilt < 1955), PriceOf)
    ensures GroupValues(ls, EraOf, PriceOf, AFTER_1955) == Column(Filter(ls, (l: Listing) => l.yrBuilt >= 1955), PriceOf)
  {
    SelectIsFilter(ls, EraOf, BEFORE_1955, (l: Listing) => l.yrBuilt < 1955);
    SelectIsFilter(ls, EraOf, AFTER_1955, (l: Listing) => l.yrBuilt >= 1955);
  }

  /** H3 bucket: with or without a basement. */
  function BasementOf(l: Listing): int {
    if l.sqftBasement == 0.0 then NO_BASEMENT else WITH_BASEMENT
  }

  /** H3, houses without basement: mean lot size per bucket; the change is over the means sorted by value. */
  function BasementLotSize(ls: seq<Listing>): (r: Summary)
    ensures IsMeanTable(r.table, ls, BasementOf, LotOf)
    ensures |r.table| <= 2
    ensures forall i :: 0 <= i < |r.table| ==> r.table[i].key == NO_BASEMENT || r.table[i].key == WITH_BASEMENT
    ensures r.change == PctChange(Sort(Values(r.table)))
  {
    var t := MeanTable(ls, BasementOf, LotOf);
    TwoBuckets(t, ls, BasementOf, LotOf);
    Summary(t, PctChange(Sort(Values(t))))
  }

  /** With positive lot sizes, the H3 change column never reports a negative percentage. */
  lemma BasementChangeNonNegative(ls: seq<Listing>)
    requires forall i :: 0 <= i < |ls| ==> ls[i].sqftLot > 0.0
    ensures forall i :: 0 <= i < |BasementLotSize(ls).change| ==>
              BasementLotSize(ls).change[i].Pct? ==> BasementLotSize(ls).change[i].percent >= 0.0
  {
    var t := BasementLotSize(ls).table;
    assert forall i :: 0 <= i < |Values(t)| ==> Values(t)[i] > 0.0 by {
      PositiveMeans(t, ls, BasementOf, LotOf);
    }
    SortedChangesNonNegative(Values(t));
  }

  /** The H3 buckets are exactly the houses with `sqft_basement == 0` and the rest. */
  lemma BasementBuckets(ls: seq<Listing>)
    ensures GroupValues(ls, BasementOf, LotOf, NO_BASEMENT) == Column(Filter(ls, (l: Listing) => l.sqftBasement == 0.0), LotOf)
    ensures GroupValues(ls, BasementOf, LotOf, WITH_BASEMENT) == Column(Filter(ls, (l: Listing) => l.sqftBasement != 0.0), LotOf)
  {
    SelectIsFilter(ls, BasementOf, NO_BASEMENT, (l: Listing) => l.sqftBasement == 0.0);
    SelectIsFilter(ls, BasementOf, WITH_BASEMENT, (l: Listing) => l.sqftBasement != 0.0);
  }

  function IsMaySale(l: Listing): bool { l.date.month == 5 }

  /** The sales made in May, in their original order. */
  function MaySales(ls: seq<Listing>): seq<Listing> {
    Filter(ls, IsMaySale)
  }

  /** H4, year-over-year growth: mean May price per year, change from year to year. */
  function MayYearOverYear(ls: seq<Listing>): (r: Summary)
    ensures IsMeanTable(r.table, MaySales(ls), YearOf, PriceOf)
    ensures r.change == PctChange(Values(r.table))
  {
    var t := MeanTable(MaySales(ls), YearOf, PriceOf);
    Summary(t, PctChange(Values(t)))
  }

  /** The H4 bucket of year `y` holds the prices of exactly the May sales of that year. */
  lemma MayYearBucket(ls: seq<Listing>, y: int)
    ensures GroupValues(MaySales(ls), YearOf, PriceOf, y) ==
            Column(Filter(ls, (l: Listing) => l.date.month == 5 && l.date.year == y), PriceOf)
  {
    SelectAfterFilter(ls, IsMaySale, YearOf, y, (l: Listing) => l.date.month == 5 && l.date.year == y);
  }

  function HasThreeBathrooms(l: Listing): bool { l.bathrooms == 3.0 }

  function SoldIn2015(l: Listing): bool { l.date.year == 2015 }

  /** The three-bathroom houses sold in 2015: first filtered by bathrooms, then by year. */
  function ThreeBathroomsIn2015(ls: seq<Listing>): seq<Listing> {
    Filter(Filter(ls, HasThreeBathrooms), SoldIn2015)
  }

  /** H5, month-over-month growth of three-bathroom houses in 2015: mean price per month, change from month to month. */
  function ThreeBathroomMonthOverMonth(ls: seq<Listing>): (r: Summary)
    ensures IsMeanTable(r.table, ThreeBathroomsIn2015(ls), MonthOf, PriceOf)
    ensures r.change == PctChange(Values(r.table))
  {
    var t := MeanTable(ThreeBathroomsIn2015(ls), MonthOf, PriceOf);
    Summary(t, PctChange(Values(t)))
  }

  /** The two successive H5 filters select the same rows as one combined filter. */
  lemma ThreeBathroomsIn2015Combined(ls: seq<Listing>)
    ensures ThreeBathroomsIn2015(ls) == Filter(ls, (l: Listing) => l.bathrooms == 3.0 && l.date.year == 2015)
  {
    FilterTwice(ls, HasThreeBathrooms, SoldIn2015, (l: Listing) => l.bathrooms == 3.0 && l.date.year == 2015);
  }
}
