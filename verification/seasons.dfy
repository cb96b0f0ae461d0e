/**
  The season of a sale date, as the houses-to-sell report assigns it: first the
  calendar quarter of the month, then four day-level corrections near the
  solstices and equinoxes.
 */
module Seasons {

  datatype Season = Winter | Spring | Summer | Autumn

  /** January to March winter, April to June spring, July to September summer, anything else autumn. */
  function QuarterSeason(month: int): Season {
    if 1 <= month <= 3 then Winter
    else if 4 <= month <= 6 then Spring
    else if 7 <= month <= 9 then Summer
    else Autumn
  }

  /**
    Reference definition: the season as an interval of the year. Spring runs
    from March 20 to June 20, summer from June 21 to September 21, autumn from
    September 22 to December 20, and winter covers the rest.
   */
  function CalendarSeason(month: int, day: int): Season {
    var position := 100 * month + day;
    if 320 <= position < 621 then Spring
    else if 621 <= position < 922 then Summer
    else if 922 <= position < 1221 then Autumn
    else Winter
  }

  /** A month and day a parsed sale date can carry (no leap-year detail is needed here). */
  predicate ValidDay(month: int, day: int) {
    1 <= month <= 12 && 1 <= day <= 31
  }

  /** The season label of a sale on `day` of `month`. */
  function SeasonOf(month: int, day: int): (s: Season)
    ensures ValidDay(month, day) ==> s == CalendarSeason(month, day)
    ensures s != QuarterSeason(month) <==>
              (month == 3 && day >= 20) || (month == 6 && day >= 21) ||
              (month == 9 && day >= 22) || (month == 12 && day >= 21)
  {
    if month == 3 && day > 19 then Spring
    else if month == 6 && day > 20 then Summer
    else if month == 9 && day > 21 then Autumn
    else if month == 12 && day > 20 then Winter
    else QuarterSeason(month)
  }

  /** The four boundaries fall exactly on March 20, June 21, September 22 and December 21. */
  lemma SeasonBoundaries()
    ensures SeasonOf(3, 19) == Winter && SeasonOf(3, 20) == Spring
    ensures SeasonOf(6, 20) == Spring && SeasonOf(6, 21) == Summer
    ensures SeasonOf(9, 21) == Summer && SeasonOf(9, 22) == Autumn
    ensures SeasonOf(12, 20) == Autumn && SeasonOf(12, 21) == Winter
  {
  }
}
