/**
  The two pricing decisions of the reports: whether to buy a house given its
  zipcode median, and at what value to resell a bought house given the median
  of its zipcode and season.
 */
module Pricing {

  /** Buy when the price is strictly below the median and the condition is at least 3. */
  function ShouldBuy(price: real, median: real, condition: int): (b: bool)
    ensures b ==> price < median
    ensures condition < 3 ==> !b
    ensures price < median && condition >= 3 ==> b
  {
    price < median && condition >= 3
  }

  /** Lowering the price never turns a buy into a no-buy. */
  lemma BuyMonotoneInPrice(cheaper: real, price: real, median: real, condition: int)
    requires cheaper <= price
    ensures ShouldBuy(price, median, condition) ==> ShouldBuy(cheaper, median, condition)
  {
  }

  /** A house at or above its median is never bought, whatever its condition. */
  lemma NoBuyAtOrAboveMedian(price: real, median: real, condition: int)
    requires price >= median
    ensures !ShouldBuy(price, median, condition)
  {
  }

  datatype Sale = Sale(sellValue: real, profit: real)

  /** The markup applied on resale: 30% below the median, 10% otherwise. */
  function Markup(price: real, median: real): real {
    if price < median then 0.3 else 0.1
  }

  /**
    Resale rule: 30% over the purchase price for a house below the median of
    its zipcode and season, 10% for one at or above it.
   */
  function SellRule(price: real, median: real): (s: Sale)
    ensures s.sellValue == price + s.profit
    ensures s.profit == Markup(price, median) * price
    ensures price >= 0.0 ==> 0.1 * price <= s.profit <= 0.3 * price
    ensures price > 0.0 ==> (s.sellValue == 1.3 * price <==> price < median)
  {
    if price < median then Sale(price * 1.3, price * 0.3)
    else Sale(price * 1.1, price * 0.1)
  }

  /** Worked values: the boundary takes the 10% branch. */
  lemma SellRuleExamples()
    ensures SellRule(100.0, 100.0) == Sale(110.0, 10.0)
    ensures SellRule(90.0, 100.0) == Sale(117.0, 27.0)
  {
  }
}
