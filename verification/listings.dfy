/**
  The record of one house sale as the dashboard reads it from the sales file,
  with the sale date already parsed into year, month and day. Columns the
  pipeline never reads (bedrooms, living area, floors, ...) are not carried.
 */
module Listings {

  datatype Date = Date(year: int, month: int, day: int)

  datatype Listing = Listing(
    id: int,
    date: Date,
    price: real,
    bathrooms: real,
    sqftLot: real,
    sqftBasement: real,
    waterfront: int,
    condition: int,
    yrBuilt: int,
    zipcode: int,
    lat: real,
    long: real)

  // Named column accessors, used as grouping keys and value columns.

  function PriceOf(l: Listing): real { l.price }

  function LotOf(l: Listing): real { l.sqftLot }

  function ZipcodeOf(l: Listing): int { l.zipcode }

  function WaterfrontOf(l: Listing): int { l.waterfront }

  function YearOf(l: Listing): int { l.date.year }

  function MonthOf(l: Listing): int { l.date.month }
}
