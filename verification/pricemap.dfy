/**
  Row selection of the price map: the listings strictly cheaper than the
  threshold chosen on the price slider, projected onto the columns the map
  draws.
 */
module PriceMap {
  import opened Tables
  import opened Listings

  datatype MapPoint = MapPoint(id: int, lat: real, long: real, price: real, zipcode: int)

  function ToPoint(l: Listing): MapPoint {
    MapPoint(l.id, l.lat, l.long, l.price, l.zipcode)
  }

  /** The map's points: listings priced below `threshold`, in their original order. */
  function MapPoints(ls: seq<Listing>, threshold: int): (r: seq<MapPoint>)
    ensures forall i :: 0 <= i < |r| ==> r[i].price < threshold as real
    ensures forall i :: 0 <= i < |ls| && ls[i].price < threshold as real ==> ToPoint(ls[i]) in r
    ensures forall i :: 0 <= i < |ls| && ls[i].price >= threshold as real ==> ToPoint(ls[i]) !in r
    ensures IsSubsequence(r, Column(ls, ToPoint))
    ensures forall pt :: multiset(r)[pt] == if pt.price < threshold as real then multiset(Column(ls, ToPoint))[pt] else 0
  {
    var below := (l: Listing) => l.price < threshold as real;
    var kept := Filter(ls, below);
    ColumnKeepsSubsequence(kept, ls, ToPoint);
    ColumnKeepsMembers(kept, ToPoint);
    CheapPointsKept(ls, threshold);
    Column(kept, ToPoint)
  }

  lemma ColumnKeepsMembers(kept: seq<Listing>, f: Listing -> MapPoint)
    ensures forall l :: l in kept ==> f(l) in Column(kept, f)
  {
    forall l | l in kept ensures f(l) in Column(kept, f) {
      var k :| 0 <= k < |kept| && kept[k] == l;
      assert Column(kept, f)[k] == f(l);
    }
  }

  /** Projecting the cheap listings keeps each cheap point as often as the full projection has it. */
  lemma CheapPointsKept(ls: seq<Listing>, threshold: int)
    ensures forall pt :: multiset(Column(Filter(ls, (l: Listing) => l.price < threshold as real), ToPoint))[pt] ==
              if pt.price < threshold as real then multiset(Column(ls, ToPoint))[pt] else 0
  {
    var cheap := (pt: MapPoint) => pt.price < threshold as real;
    ColumnAfterFilter(ls, (l: Listing) => l.price < threshold as real, ToPoint, cheap);
    FilterKeepsMultiplicity(Column(ls, ToPoint), cheap);
  }
}
