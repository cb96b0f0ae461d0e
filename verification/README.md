# House Rocket dashboard: the report and hypothesis pipeline

This project models the computational core of the House Rocket real-estate
dashboard (`dashboard.py`). Everything the dashboard renders is left aside. What
remains is a pipeline of pure transformations over the table of house sales:

- **Houses-to-buy report.** The median price of every zipcode is joined back
  onto every listing. A listing is labelled to buy exactly when its price is
  strictly below that median and its condition is at least 3.
- **Houses-to-sell report.** The bought houses each get a season from their sale
  date. The median price per (zipcode, season) is taken over the bought houses
  only. The resale is priced at +30% below that median and +10% at or above it.
- **Hypotheses H1–H5.** Each one buckets the listings by a fixed rule and takes
  the mean of a value column per bucket. It then reports the percentage change
  between consecutive bucket means.
- **Price map.** The map keeps the listings priced below the slider threshold.

Listings are immutable records (`Listings.Listing`) whose sale date is already
parsed into year, month and day. Prices, areas and means are exact `real`s, so
the ×1.3 / ×1.1 arithmetic holds as exact equalities. A missing percentage
change is a `Missing` value rather than NaN or infinity.

Modules, leaves first:

| module | file | what it holds |
|---|---|---|
| `Stats` | stats.dfy | insertion sort, count, sum, min/max, mean, median (odd/even convention) |
| `Tables` | tables.dfy | filter, column projection, group selection, median table (map), mean table (sorted by key), inner join |
| `Listings` | listings.dfy | the `Date` and `Listing` records and named column accessors |
| `Seasons` | seasons.dfy | season of a sale date |
| `Pricing` | pricing.dfy | buy decision and resale rule |
| `Change` | change.dfy | percentage change between consecutive values |
| `Reports` | reports.dfy | houses-to-buy and houses-to-sell reports |
| `PriceMap` | pricemap.dfy | the map's row selection |
| `Hypotheses` | hypotheses.dfy | the five hypothesis summaries |

Two modelling choices:

- The season follows dashboard.py:110-127. The month's calendar quarter comes
  first: January–March is winter, April–June spring, July–September summer,
  and any other month autumn. Four day-level corrections then apply: from
  March 20 spring, from June 21 summer, from September 22 autumn, and from
  December 21 winter. `Seasons.SeasonOf` is proved equal to a plain
  interval-of-the-year definition (`Seasons.CalendarSeason`) on every valid
  date.
- The buy label is the boolean `buy` (the code writes `'yes'`/`'no'`). The
  resale branches are `price < median` and its complement; in exact
  arithmetic these two branches cover every case.

## Model

| member | source | states |
|---|---|---|
| Stats.Median | dashboard.py:80 | the group median lies between the smallest and the largest price of the group |
| Stats.MedianSplitsInHalf | dashboard.py:80 | at least half of the prices are at most the median and at least half are at least the median |
| Stats.MedianDependsOnValuesOnly | dashboard.py:80 | the median depends only on the multiset of prices, not on the row order of the table |
| Stats.MedianOfTwo | dashboard.py:80 | the median of two prices is their midpoint (the even-count averaging) |
| Stats.Mean | dashboard.py:153 | a bucket mean lies between the smallest and the largest value of the bucket |
| Stats.SortedUnique | dashboard.py:80 | two ascending arrangements of the same values are identical, so the sorted column a median reads is well defined |
| Tables.Filter | dashboard.py:105 | row selection is an order-preserving subsequence whose rows all satisfy the condition and that contains every row satisfying it; when every row satisfies it, nothing is dropped |
| Tables.FilterKeepsMultiplicity | dashboard.py:105 | row selection keeps each satisfying row exactly as many times as it occurs and drops every other row: repeated rows are neither merged nor duplicated |
| Tables.FilterTwice | dashboard.py:230-232 | two successive row selections equal one selection by the conjunction of both conditions |
| Tables.MedianTable | dashboard.py:80 | the group-by-median table has exactly one entry per distinct key and holds the key of every record |
| Tables.SingleGroupTable | dashboard.py:80 | when all records share one key, the median table has that single key, mapped to the median of all values |
| Tables.MeanTable | dashboard.py:153 | the group-by-mean table has strictly ascending keys, exactly the distinct keys present, and each row's value is the mean of its group, which is never empty |
| Tables.InnerJoin | dashboard.py:83 | the inner merge keeps exactly the records whose key the table holds, in order, each paired with the table's value for its key; it is the identity on records when every key is present |
| Tables.JoinKeepsEveryRecord | dashboard.py:80-83 | merging a median table built from the same records drops no record and gives each record the median of its own group |
| Tables.ColumnAfterFilter | dashboard.py:30 | selecting rows and then projecting columns equals projecting first and then selecting by the same condition on the projected columns |
| Tables.ColumnKeepsSubsequence | dashboard.py:30 | projecting columns of a selected subset keeps it an order-preserving subsequence of the projected table |
| Seasons.SeasonOf | dashboard.py:110-127 | for every valid date the season equals the interval-of-the-year definition; it differs from the month's quarter label exactly from March 20, June 21, September 22 and December 21 to the end of that month |
| Seasons.SeasonBoundaries | dashboard.py:120-127 | March 19 winter / March 20 spring, June 20 spring / June 21 summer, September 21 summer / September 22 autumn, December 20 autumn / December 21 winter |
| Pricing.ShouldBuy | dashboard.py:90 | a house is bought only below its median, never in a condition under 3, and always when both hold: buy iff price < median and condition >= 3 |
| Pricing.BuyMonotoneInPrice | dashboard.py:89-93 | lowering the price never turns a buy into a no-buy |
| Pricing.NoBuyAtOrAboveMedian | dashboard.py:89-93 | a listing priced at or above its median is never bought, whatever its condition |
| Pricing.SellRule | dashboard.py:138-144 | sell value is price plus profit; the profit is 30% of the price below the median and 10% at or above it; with a non-negative price the profit lies between 10% and 30% of it; with a positive price the 30% resale happens exactly when the price is below the median |
| Pricing.SellRuleExamples | dashboard.py:138-144 | price 100 at median 100 resells at 110 with profit 10; price 90 at median 100 resells at 117 with profit 27 |
| Change.Change | dashboard.py:174 | the change is missing exactly when the previous value is zero; otherwise applying the percentage to the previous value gives back the current one, and with a positive previous value its sign is the sign of the difference |
| Change.ChangeRoundTrip | dashboard.py:174 | growing a non-zero value by p percent is reported as a change of exactly p percent |
| Change.PctChange | dashboard.py:215 | the change column has the length of its input, a missing first entry, and entry i is the change from entry i-1 to entry i |
| Change.PctChangeExample | dashboard.py:239 | the column [100, 150] gives [missing, 50] |
| Change.AscendingChangesNonNegative | dashboard.py:154 | over ascending positive values every defined change is non-negative |
| Reports.ReportOne | dashboard.py:79-95 | the houses-to-buy report has one row per listing, in order; each row holds the median price of the listing's zipcode over all listings; the row is labelled to buy exactly when price < median and condition >= 3 |
| Reports.TwoListingExample | dashboard.py:80-93 | two listings in one zipcode priced 100 and 200 in condition 5 get median 150; the first is bought and the second is not |
| Reports.Bought | dashboard.py:105 | the bought houses are the rows labelled to buy, in report order, each kept as many times as it occurs in the report; no row without the label is kept |
| Reports.SellReport | dashboard.py:108-144 | one resale row per bought house, in order; its season is the season of its sale date; its median is taken over the bought houses of the same zipcode and season; its resale follows the sell rule against that median |
| Reports.ReportTwo | dashboard.py:100-146 | the houses-to-sell report, built as the sell report of the bought rows of the houses-to-buy report, resells only listings priced below their zipcode median in condition 3 or better, and resells every such listing |
| Reports.ReportTwoSellsOnlyBought | dashboard.py:105-136 | every house in the houses-to-sell report is a listing priced below its zipcode median and in condition 3 or better |
| Reports.ReportTwoSellsEveryBought | dashboard.py:105-136 | every listing priced below its zipcode median in condition 3 or better appears in the houses-to-sell report |
| Reports.ZipSeasonMedianBelowZipMedian | dashboard.py:130-131 | the zipcode-and-season median a house is resold against, taken over bought houses only, is strictly below its zipcode's median over all listings |
| PriceMap.MapPoints | dashboard.py:30 | the map shows the listings priced strictly below the threshold, projected to id/lat/long/price/zipcode, in their original order; each such point appears as many times as the projected table has it (two sales of one house at one price give two points), and no point at or above the threshold appears |
| Hypotheses.WaterfrontPremium | dashboard.py:153-154 | H1 table: one row per waterfront flag present, in ascending order, holding that flag's mean price; the change is taken over the means sorted ascending |
| Hypotheses.WaterfrontChangeNonNegative | dashboard.py:154 | with positive prices every defined H1 change is non-negative |
| Hypotheses.EraDiscount | dashboard.py:171-174 | H2 table: at most two rows, keyed "after" then "before" 1955, each the mean price of its bucket; the change is in key order |
| Hypotheses.EraBuckets | dashboard.py:171 | the "before" bucket holds exactly the houses with yr_built < 1955, in order, and the "after" bucket the rest |
| Hypotheses.BasementLotSize | dashboard.py:191-195 | H3 table: at most two rows, keyed "no" then "yes" basement, each the mean lot size of its bucket; the change is over the means sorted ascending |
| Hypotheses.BasementChangeNonNegative | dashboard.py:195 | with positive lot sizes every defined H3 change is non-negative |
| Hypotheses.BasementBuckets | dashboard.py:191 | the "no" bucket holds exactly the houses with sqft_basement == 0, and the "yes" bucket the rest |
| Hypotheses.MayYearOverYear | dashboard.py:212-215 | H4 table: one row per year with a May sale, years ascending, each the mean May price of that year; the change runs year to year |
| Hypotheses.MayYearBucket | dashboard.py:212-214 | the bucket of year y holds exactly the prices of the sales made in May of year y |
| Hypotheses.ThreeBathroomMonthOverMonth | dashboard.py:230-239 | H5 table: one row per month with a three-bathroom sale in 2015, months ascending, each the mean price of that month; the change runs month to month |
| Hypotheses.ThreeBathroomsIn2015Combined | dashboard.py:230-232 | filtering by bathrooms == 3 and then by year 2015 keeps exactly the listings with both, in order |

## Left out

- Page rendering, sidebar widgets, the dataset cache and the page configuration
  (dashboard.py:6-10, 18-26, 53-56): user-interface plumbing with no logic.
- The slider's own bounds (integer minimum, maximum and mean price,
  dashboard.py:21-23): the threshold is a parameter of `PriceMap.MapPoints`.
- Reading the CSV file and parsing dates (dashboard.py:11-14): file I/O and
  library parsing. A date is an already-parsed year/month/day record.
- Chart construction, the map drawing and the table display
  (dashboard.py:33-48 and the `px.bar`/`sns.barplot`/`st.write` calls): these
  belong to foreign rendering libraries.
- `describe()` statistics (dashboard.py:62): an opaque library summary.
- The literal conclusion strings of the hypotheses: narrative text, not
  computed.
- Floating point, NaN, infinity and the two-decimal display format: prices and
  means are exact reals, and a change from a zero value is `Missing` where the
  library would give infinity.
- Index alignment when the sorted H1/H3 change column is assigned back to the
  table (dashboard.py:154, 195): the change is modelled over the explicitly
  sorted means, without tracking which table row each entry lands on.
- Row order after the inner merges (dashboard.py:83, 131): the model keeps the
  left table's row order. Older versions of the dataframe library group rows
  by key instead; the set of rows and their values are the same either way.
- Columns the pipeline never reads (bedrooms, living area, floors, ...): they
  are not carried in `Listings.Listing`.
- Column renaming and column subsetting of the reports (dashboard.py:86, 95,
  134-136): report rows carry the whole listing rather than a column subset.
- Reports.ReportOne: on a table with no rows the labelling loop of
  dashboard.py:89-93 never runs, so the `buy` column is never created and the
  column selection at dashboard.py:95 raises a missing-column error. The model
  does not raise: it gives an empty houses-to-buy report, and from it an empty
  houses-to-sell report.
