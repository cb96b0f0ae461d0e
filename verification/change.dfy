/**
  Percentage change between consecutive values of a column, as the hypothesis
  tables report it. The first entry has no predecessor and is missing; so is
  an entry whose predecessor is zero, where the change is undefined.
 */
module Change {

  datatype Pct = Missing | Pct(percent: real)

  /** Percentage change from `prev` to `cur`. */
  function Change(prev: real, cur: real): (c: Pct)
    ensures c.Missing? <==> prev == 0.0
    ensures c.Pct? ==> cur == prev + prev * c.percent / 100.0
    ensures c.Pct? && prev > 0.0 ==> (c.percent > 0.0 <==> cur > prev) && (c.percent == 0.0 <==> cur == prev)
  {
    if prev == 0.0 then Missing
    else
      var p := (cur - prev) / prev * 100.0;
      assert prev * p / 100.0 == cur - prev;
      Pct(p)
  }

  /** Growing a non-zero value by `p` percent is reported as a change of `p` percent. */
  lemma ChangeRoundTrip(prev: real, p: real)
    requires prev != 0.0
    ensures Change(prev, prev + prev * p / 100.0) == Pct(p)
  {
    var cur := prev + prev * p / 100.0;
    assert (cur - prev) / prev == p / 100.0;
  }

  /** The percentage-change column: same length, first entry missing, then change from the previous entry. */
  function PctChange(v: seq<real>): (r: seq<Pct>)
    ensures |r| == |v|
    ensures |v| > 0 ==> r[0] == Missing
    ensures forall i :: 0 < i < |v| ==> r[i] == Change(v[i - 1], v[i])
  {
    seq(|v|, i requires 0 <= i < |v| => if i == 0 then Missing else Change(v[i - 1], v[i]))
  }

  lemma PctChangeExample()
    ensures PctChange([100.0, 150.0]) == [Missing, Pct(50.0)]
  {
    assert Change(100.0, 150.0) == Pct(50.0);
  }

  /**
    Over a column sorted ascending with positive entries, every defined change
    is a non-negative percentage.
   */
  lemma AscendingChangesNonNegative(v: seq<real>)
    requires forall i, j :: 0 <= i < j < |v| ==> v[i] <= v[j]
    requires forall i :: 0 <= i < |v| ==> v[i] > 0.0
    ensures forall i :: 0 <= i < |v| ==> PctChange(v)[i].Pct? ==> PctChange(v)[i].percent >= 0.0
  {
    var r := PctChange(v);
    forall i | 0 < i < |v| ensures r[i].Pct? ==> r[i].percent >= 0.0 {
      assert v[i - 1] <= v[i];
    }
  }
}
