/**
  The two reports of the dashboard. The houses-to-buy report labels every sale
  against the median price of its zipcode; the houses-to-sell report keeps the
  bought houses, assigns each a season, and prices its resale against the
  median of the bought houses in the same zipcode and season.
 */
module Reports {
  import opened Stats
  import opened Tables
  import opened Listings
  import opened Seasons
  import opened Pricing

  /** A row of the houses-to-buy report. */
  datatype BuyRow = BuyRow(listing: Listing, medianPrice: real, buy: bool)

  /** The median price of every zipcode, over all listings. */
  function ZipMedians(ls: seq<Listing>): (t: map<int, real>)
    ensures t.Keys == Keys(ls, ZipcodeOf)
  {
    MedianTable(ls, ZipcodeOf, PriceOf)
  }

  /** The prices of the listings in zipcode `zip`. */
  function ZipPrices(ls: seq<Listing>, zip: int): seq<real> {
    GroupValues(ls, ZipcodeOf, PriceOf, zip)
  }

  function LabelBuy(j: (Listing, real)): BuyRow {
    BuyRow(j.0, j.1, ShouldBuy(j.0.price, j.1, j.0.condition))
  }

  /** Houses-to-buy report: every listing, with its zipcode median and its buy label. */
  function ReportOne(ls: seq<Listing>): (r: seq<BuyRow>)
    ensures |r| == |ls|
    ensures forall i :: 0 <= i < |ls| ==>
              && r[i].listing == ls[i]
              && |ZipPrices(ls, ls[i].zipcode)| > 0
              && r[i].medianPrice == Median(ZipPrices(ls, ls[i].zipcode))
    ensures forall i :: 0 <= i < |ls| ==>
              (r[i].buy <==> ls[i].price < r[i].medianPrice && ls[i].condition >= 3)
  {
    var joined := InnerJoin(ls, ZipcodeOf, ZipMedians(ls));
    JoinKeepsEveryRecord(ls, ZipcodeOf, PriceOf);
    var r := Column(joined, LabelBuy);
    LabelledRows(ls, joined, r);
    r
  }

  lemma LabelledRows(ls: seq<Listing>, joined: seq<(Listing, real)>, r: seq<BuyRow>)
    requires |joined| == |ls| && forall i :: 0 <= i < |ls| ==> joined[i].0 == ls[i]
    requires forall i :: 0 <= i < |ls| ==>
               |ZipPrices(ls, ls[i].zipcode)| > 0 && joined[i].1 == Median(ZipPrices(ls, ls[i].zipcode))
    requires |r| == |joined| && forall i :: 0 <= i < |r| ==> r[i] == LabelBuy(joined[i])
    ensures forall i :: 0 <= i < |ls| ==>
              && r[i].listing == ls[i]
              && r[i].medianPrice == Median(ZipPrices(ls, ls[i].zipcode))
              && (r[i].buy <==> ls[i].price < r[i].medianPrice && ls[i].condition >= 3)
  {
  }

  /** The sample of a zipcode with two sales at 100 and 200, both in condition 5. */
  lemma TwoListingExample(a: Listing, b: Listing)
    requires a.zipcode == b.zipcode
    requires a.price == 100.0 && b.price == 200.0
    requires a.condition == 5 && b.condition == 5
    ensures ReportOne([a, b])[0].medianPrice == 150.0 && ReportOne([a, b])[0].buy
    ensures ReportOne([a, b])[1].medianPrice == 150.0 && !ReportOne([a, b])[1].buy
  {
    var ls := [a, b];
    var sel := Select(ls, ZipcodeOf, a.zipcode);
    assert sel == Filter(ls, x => ZipcodeOf(x) == a.zipcode);
    assert Filter(ls[1..], x => ZipcodeOf(x) == a.zipcode) == [b];
    assert ZipPrices(ls, a.zipcode) == [100.0, 200.0];
    MedianOfTwo(100.0, 200.0);
  }

  function IsBought(b: BuyRow): bool { b.buy }

  /** The rows of a houses-to-buy report labelled to buy, in report order. */
  function Bought(report: seq<BuyRow>): (r: seq<BuyRow>)
    ensures IsSubsequence(r, report)
    ensures forall i :: 0 <= i < |r| ==> r[i].buy && r[i] in report
    ensures forall i :: 0 <= i < |report| && report[i].buy ==> report[i] in r
    ensures forall b :: multiset(r)[b] == if b.buy then multiset(report)[b] else 0
  {
    FilterKeepsMultiplicity(report, IsBought);
    Filter(report, IsBought)
  }

  /** A bought house with its sale season. */
  datatype SeasonedRow = SeasonedRow(listing: Listing, season: Season)

  function WithSeason(b: BuyRow): SeasonedRow {
    SeasonedRow(b.listing, SeasonOf(b.listing.date.month, b.listing.date.day))
  }

  function ZipSeasonOf(s: SeasonedRow): (int, Season) {
    (s.listing.zipcode, s.season)
  }

  function SeasonedPrice(s: SeasonedRow): real {
    s.listing.price
  }

  /** Bought houses, each with its season. */
  function SeasonedRows(bought: seq<BuyRow>): seq<SeasonedRow> {
    Column(bought, WithSeason)
  }

  /** The prices of the bought houses of zipcode `zip` sold in `season`. */
  function PricesIn(bought: seq<BuyRow>, zip: int, season: Season): seq<real> {
    GroupValues(SeasonedRows(bought), ZipSeasonOf, SeasonedPrice, (zip, season))
  }

  /** A row of the houses-to-sell report. */
  datatype SellRow = SellRow(listing: Listing, season: Season, medianZipSeason: real, sale: Sale)

  function PriceResale(j: (SeasonedRow, real)): SellRow {
    SellRow(j.0.listing, j.0.season, j.1, SellRule(j.0.listing.price, j.1))
  }

  /**
    Houses-to-sell report over the bought houses: one row per bought house, in
    order, with its season, the median over the bought houses of the same
    zipcode and season, and the resale.
   */
  function SellReport(bought: seq<BuyRow>): (r: seq<SellRow>)
    ensures |r| == |bought|
    ensures forall j :: 0 <= j < |r| ==>
              && r[j].listing == bought[j].listing
              && r[j].season == SeasonOf(r[j].listing.date.month, r[j].listing.date.day)
              && |PricesIn(bought, r[j].listing.zipcode, r[j].season)| > 0
              && r[j].medianZipSeason == Median(PricesIn(bought, r[j].listing.zipcode, r[j].season))
              && r[j].sale == SellRule(r[j].listing.price, r[j].medianZipSeason)
  {
    var seasoned := SeasonedRows(bought);
    var joined := InnerJoin(seasoned, ZipSeasonOf, MedianTable(seasoned, ZipSeasonOf, SeasonedPrice));
    JoinKeepsEveryRecord(seasoned, ZipSeasonOf, SeasonedPrice);
    var r := Column(joined, PriceResale);
    PricedRows(bought, seasoned, joined, r);
    r
  }

  lemma PricedRows(bought: seq<BuyRow>, seasoned: seq<SeasonedRow>, joined: seq<(SeasonedRow, real)>, r: seq<SellRow>)
    requires seasoned == SeasonedRows(bought)
    requires |joined| == |seasoned| && forall j :: 0 <= j < |seasoned| ==> joined[j].0 == seasoned[j]
    requires forall j :: 0 <= j < |seasoned| ==>
               |GroupValues(seasoned, ZipSeasonOf, SeasonedPrice, ZipSeasonOf(seasoned[j]))| > 0 &&
               joined[j].1 == Median(GroupValues(seasoned, ZipSeasonOf, SeasonedPrice, ZipSeasonOf(seasoned[j])))
    requires |r| == |joined| && forall j :: 0 <= j < |r| ==> r[j] == PriceResale(joined[j])
    ensures forall j :: 0 <= j < |r| ==>
              && r[j].listing == bought[j].listing
              && r[j].season == SeasonOf(r[j].listing.date.month, r[j].listing.date.day)
              && |PricesIn(bought, r[j].listing.zipcode, r[j].season)| > 0
              && r[j].medianZipSeason == Median(PricesIn(bought, r[j].listing.zipcode, r[j].season))
              && r[j].sale == SellRule(r[j].listing.price, r[j].medianZipSeason)
  {
  }

  /** A listing the houses-to-buy report buys: priced below its zipcode median, in condition 3 or better. */
  ghost predicate IsCheap(ls: seq<Listing>, l: Listing)
    requires |ZipPrices(ls, l.zipcode)| > 0
  {
    l.price < Median(ZipPrices(ls, l.zipcode)) && l.condition >= 3
  }

  /** Every row of `r` resells a cheap listing of `ls`. */
  ghost predicate SellsOnlyCheap(ls: seq<Listing>, r: seq<SellRow>) {
    forall j :: 0 <= j < |r| ==>
      r[j].listing in ls && |ZipPrices(ls, r[j].listing.zipcode)| > 0 && IsCheap(ls, r[j].listing)
  }

  /** Every cheap listing is resold by some row of `r`. */
  ghost predicate SellsEveryCheap(ls: seq<Listing>, r: seq<SellRow>) {
    forall i :: 0 <= i < |ls| && |ZipPrices(ls, ls[i].zipcode)| > 0 && IsCheap(ls, ls[i]) ==>
      exists j :: 0 <= j < |r| && r[j].listing == ls[i]
  }

  /**
    Houses-to-sell report: the resale of every house the houses-to-buy report
    buys, and of no other listing.
   */
  function ReportTwo(ls: seq<Listing>): (r: seq<SellRow>)
    ensures SellsOnlyCheap(ls, r)
    ensures SellsEveryCheap(ls, r)
  {
    SoldOnlyCheap(ls);
    SoldEveryCheap(ls);
    SellReport(Bought(ReportOne(ls)))
  }

  lemma SoldOnlyCheap(ls: seq<Listing>)
    ensures SellsOnlyCheap(ls, SellReport(Bought(ReportOne(ls))))
  {
    var r := SellReport(Bought(ReportOne(ls)));
    forall j | 0 <= j < |r|
      ensures r[j].listing in ls && |ZipPrices(ls, r[j].listing.zipcode)| > 0 && IsCheap(ls, r[j].listing)
    {
      ReportTwoSellsOnlyBought(ls, j);
    }
  }

  lemma SoldEveryCheap(ls: seq<Listing>)
    ensures SellsEveryCheap(ls, SellReport(Bought(ReportOne(ls))))
  {
    var r := SellReport(Bought(ReportOne(ls)));
    forall i | 0 <= i < |ls| && |ZipPrices(ls, ls[i].zipcode)| > 0 && IsCheap(ls, ls[i]) ensures exists j :: 0 <= j < |r| && r[j].listing == ls[i] {
      ReportTwoSellsEveryBought(ls, i);
    }
  }

  /** A row of the houses-to-buy report labelled to buy belongs to a listing below its zipcode median. */
  lemma BoughtRowIsCheap(ls: seq<Listing>, b: BuyRow)
    requires b in ReportOne(ls) && b.buy
    ensures exists i :: 0 <= i < |ls| && b.listing == ls[i] && IsCheap(ls, ls[i])
  {
    var report := ReportOne(ls);
    var i :| 0 <= i < |report| && report[i] == b;
    assert b.listing == ls[i];
  }

  lemma ReportTwoSellsOnlyBought(ls: seq<Listing>, j: int)
    requires 0 <= j < |SellReport(Bought(ReportOne(ls)))|
    ensures exists i :: 0 <= i < |ls| && SellReport(Bought(ReportOne(ls)))[j].listing == ls[i] && IsCheap(ls, ls[i])
  {
    var bought := Bought(ReportOne(ls));
    assert SellReport(Bought(ReportOne(ls)))[j].listing == bought[j].listing;
    BoughtRowIsCheap(ls, bought[j]);
  }

  /** Conversely, every such listing is in the houses-to-sell report. */
  lemma ReportTwoSellsEveryBought(ls: seq<Listing>, i: int)
    requires 0 <= i < |ls|
    requires IsCheap(ls, ls[i])
    ensures exists j :: 0 <= j < |SellReport(Bought(ReportOne(ls)))| && SellReport(Bought(ReportOne(ls)))[j].listing == ls[i]
  {
    var report := ReportOne(ls);
    var bought := Bought(report);
    assert report[i] in bought;
    var j :| 0 <= j < |bought| && bought[j] == report[i];
    assert SellReport(Bought(ReportOne(ls)))[j].listing == ls[i];
  }

  /** The price of a bought house is one of its zipcode-and-season group. */
  lemma GroupPriceFromBought(bought: seq<BuyRow>, zip: int, season: Season, x: real)
    requires x in PricesIn(bought, zip, season)
    ensures exists m :: 0 <= m < |bought| && bought[m].listing.zipcode == zip && bought[m].listing.price == x
  {
    var seasoned := SeasonedRows(bought);
    var group := Select(seasoned, ZipSeasonOf, (zip, season));
    var prices := PricesIn(bought, zip, season);
    var k :| 0 <= k < |prices| && prices[k] == x;
    assert group[k] in seasoned;
    var m :| 0 <= m < |seasoned| && seasoned[m] == group[k];
    assert bought[m].listing == group[k].listing;
  }

  /** The bought houses of one zipcode and season were all priced below that zipcode's median. */
  lemma BoughtPricesBelowZipMedian(ls: seq<Listing>, zip: int, season: Season)
    requires |ZipPrices(ls, zip)| > 0
    ensures forall x :: x in PricesIn(Bought(ReportOne(ls)), zip, season) ==> x < Median(ZipPrices(ls, zip))
  {
    var bought := Bought(ReportOne(ls));
    forall x | x in PricesIn(bought, zip, season) ensures x < Median(ZipPrices(ls, zip)) {
      GroupPriceFromBought(bought, zip, season, x);
      var m :| 0 <= m < |bought| && bought[m].listing.zipcode == zip && bought[m].listing.price == x;
      BoughtRowIsCheap(ls, bought[m]);
    }
  }

  /**
    The median a house is resold against, taken over bought houses only, is
    strictly below the median of its zipcode over all listings.
   */
  lemma ZipSeasonMedianBelowZipMedian(ls: seq<Listing>, j: int)
    requires 0 <= j < |ReportTwo(ls)|
    ensures var row := ReportTwo(ls)[j];
            |ZipPrices(ls, row.listing.zipcode)| > 0 &&
            row.medianZipSeason < Median(ZipPrices(ls, row.listing.zipcode))
  {
    var row := ReportTwo(ls)[j];
    var zip := row.listing.zipcode;
    ReportTwoSellsOnlyBought(ls, j);
    BoughtPricesBelowZipMedian(ls, zip, row.season);
    var prices := PricesIn(Bought(ReportOne(ls)), zip, row.season);
    assert Max(prices) in prices;
  }
}
