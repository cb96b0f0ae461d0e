/**
  Order statistics over a column of prices: sorting, counting, sum, mean and
  median. The median follows the usual convention of the dataframe library the
  dashboard relies on: the middle element of the sorted column when its length
  is odd, the average of the two middle elements when it is even.
 */
module Stats {

  predicate Sorted(s: seq<real>) {
    forall i, j :: 0 <= i < j < |s| ==> s[i] <= s[j]
  }

  /** Inserts `x` into an already sorted column. */
  function Insert(x: real, s: seq<real>): (r: seq<real>)
    requires Sorted(s)
    ensures |r| == |s| + 1
    ensures Sorted(r)
    ensures multiset(r) == multiset(s) + multiset{x}
    ensures forall i :: 0 <= i < |r| ==> r[i] == x || r[i] in s
  {
    if |s| == 0 then [x]
    else if x <= s[0] then [x] + s
    else
      assert s == [s[0]] + s[1..];
      [s[0]] + Insert(x, s[1..])
  }

  /** Insertion sort: the ascending rearrangement of a column. */
  function Sort(s: seq<real>): (r: seq<real>)
    ensures |r| == |s|
    ensures Sorted(r)
    ensures multiset(r) == multiset(s)
    ensures forall i :: 0 <= i < |r| ==> r[i] in s
  {
    if |s| == 0 then []
    else
      assert s == [s[0]] + s[1..];
      Insert(s[0], Sort(s[1..]))
  }

  /** The head of a sorted column is at most every value in it. */
  lemma SortedHeadIsLeast(a: seq<real>, x: real)
    requires Sorted(a) && x in multiset(a)
    ensures |a| > 0 && a[0] <= x
  {
    assert x in a;
  }

  /** Removing the head of a column removes one occurrence of it from the multiset. */
  lemma DropHead(a: seq<real>)
    requires |a| > 0
    ensures multiset(a[1..]) == multiset(a) - multiset{a[0]}
  {
    assert a == [a[0]] + a[1..];
  }

  /** Two sorted rearrangements of the same non-empty values start with the same value. */
  lemma SameHead(a: seq<real>, b: seq<real>)
    requires Sorted(a) && Sorted(b) && |a| > 0
    requires multiset(a) == multiset(b)
    ensures |b| > 0 && a[0] == b[0]
  {
    assert a[0] in multiset(b);
    SortedHeadIsLeast(b, a[0]);
    assert b[0] in multiset(a);
    SortedHeadIsLeast(a, b[0]);
  }

  lemma SortedTail(a: seq<real>)
    requires Sorted(a) && |a| > 0
    ensures Sorted(a[1..])
  {
  }

  /** Two sorted rearrangements of the same values are the same sequence. */
  lemma {:induction false} SortedUnique(a: seq<real>, b: seq<real>)
    requires Sorted(a) && Sorted(b)
    requires multiset(a) == multiset(b)
    ensures a == b
  {
    if |a| == 0 {
      assert |multiset(b)| == 0;
    } else {
      SameHead(a, b);
      DropHead(a);
      DropHead(b);
      SortedTail(a);
      SortedTail(b);
      SortedUnique(a[1..], b[1..]);
      assert a == [a[0]] + a[1..];
      assert b == [b[0]] + b[1..];
    }
  }

  /** Sorting depends only on the values, not on the order they come in. */
  lemma SortDependsOnValuesOnly(a: seq<real>, b: seq<real>)
    requires multiset(a) == multiset(b)
    ensures Sort(a) == Sort(b)
  {
    SortedUnique(Sort(a), Sort(b));
  }

  /** Number of entries of `s` satisfying `p`. */
  function Count(s: seq<real>, p: real -> bool): (n: nat)
    ensures n <= |s|
  {
    if |s| == 0 then 0 else (if p(s[0]) then 1 else 0) + Count(s[1..], p)
  }

  lemma {:induction false} CountInsert(x: real, s: seq<real>, p: real -> bool)
    requires Sorted(s)
    ensures Count(Insert(x, s), p) == (if p(x) then 1 else 0) + Count(s, p)
  {
    if |s| == 0 {
    } else if x <= s[0] {
      assert ([x] + s)[1..] == s;
    } else {
      var r := Insert(x, s);
      assert r[1..] == Insert(x, s[1..]);
      CountInsert(x, s[1..], p);
    }
  }

  /** Counting is unaffected by sorting. */
  lemma {:induction false} CountSort(s: seq<real>, p: real -> bool)
    ensures Count(Sort(s), p) == Count(s, p)
  {
    if |s| > 0 {
      CountSort(s[1..], p);
      CountInsert(s[0], Sort(s[1..]), p);
    }
  }

  /** When every entry in positions [lo, hi) satisfies `p`, at least hi - lo entries do. */
  lemma {:induction false} CountRange(s: seq<real>, p: real -> bool, lo: nat, hi: nat)
    requires lo <= hi <= |s|
    requires forall i :: lo <= i < hi ==> p(s[i])
    ensures Count(s, p) >= hi - lo
  {
    if lo == hi {
    } else if lo > 0 {
      CountRange(s[1..], p, lo - 1, hi - 1);
    } else {
      CountRange(s[1..], p, 0, hi - 1);
    }
  }

  function Sum(s: seq<real>): real {
    if |s| == 0 then 0.0 else s[0] + Sum(s[1..])
  }

  function Min(s: seq<real>): (m: real)
    requires |s| > 0
    ensures m in s
    ensures forall i :: 0 <= i < |s| ==> m <= s[i]
  {
    if |s| == 1 then s[0]
    else if s[0] <= Min(s[1..]) then s[0]
    else Min(s[1..])
  }

  function Max(s: seq<real>): (m: real)
    requires |s| > 0
    ensures m in s
    ensures forall i :: 0 <= i < |s| ==> s[i] <= m
  {
    if |s| == 1 then s[0]
    else if s[0] >= Max(s[1..]) then s[0]
    else Max(s[1..])
  }

  /** The sum of a column lies between its length times any lower and any upper bound. */
  lemma {:induction false} SumBounds(s: seq<real>, lo: real, hi: real)
    requires forall i :: 0 <= i < |s| ==> lo <= s[i] <= hi
    ensures |s| as real * lo <= Sum(s) <= |s| as real * hi
  {
    if |s| > 0 {
      SumBounds(s[1..], lo, hi);
      assert |s| as real * lo == lo + (|s| - 1) as real * lo;
      assert |s| as real * hi == hi + (|s| - 1) as real * hi;
    }
  }

  lemma DivideBounds(total: real, n: real, lo: real, hi: real)
    requires n > 0.0
    requires n * lo <= total <= n * hi
    ensures lo <= total / n <= hi
  {
    assert n * (total / n) == total;
  }

  /** Arithmetic mean of a non-empty column. */
  function Mean(s: seq<real>): (m: real)
    requires |s| > 0
    ensures Min(s) <= m <= Max(s)
  {
    SumBounds(s, Min(s), Max(s));
    DivideBounds(Sum(s), |s| as real, Min(s), Max(s));
    Sum(s) / |s| as real
  }

  /** Middle value of a sorted column: the middle entry, or the average of the two middle entries. */
  function Middle(t: seq<real>): real
    requires |t| > 0
  {
    if |t| % 2 == 1 then t[|t| / 2]
    else (t[|t| / 2 - 1] + t[|t| / 2]) / 2.0
  }

  /** Median of a non-empty column. */
  function Median(s: seq<real>): (m: real)
    requires |s| > 0
    ensures Min(s) <= m <= Max(s)
  {
    var t := Sort(s);
    assert t[|t| / 2] in s;
    assert t[(|t| - 1) / 2] in s;
    Middle(t)
  }

  lemma MiddleSplitsInHalf(t: seq<real>, m: real)
    requires |t| > 0 && Sorted(t) && m == Middle(t)
    ensures 2 * Count(t, v => v <= m) >= |t|
    ensures 2 * Count(t, v => v >= m) >= |t|
  {
    var n := |t|;
    var h := n / 2;
    if n % 2 == 1 {
      assert forall i :: 0 <= i < h + 1 ==> t[i] <= t[h];
      CountRange(t, v => v <= m, 0, h + 1);
      CountRange(t, v => v >= m, h, n);
    } else {
      assert forall i :: 0 <= i < h ==> t[i] <= t[h - 1];
      CountRange(t, v => v <= m, 0, h);
      CountRange(t, v => v >= m, h, n);
    }
  }

  /**
    The defining property of a median: at least half of the column is at most
    the median and at least half is at least the median.
   */
  lemma MedianSplitsInHalf(s: seq<real>, m: real)
    requires |s| > 0 && m == Median(s)
    ensures 2 * Count(s, v => v <= m) >= |s|
    ensures 2 * Count(s, v => v >= m) >= |s|
  {
    var t := Sort(s);
    MiddleSplitsInHalf(t, m);
    CountSort(s, v => v <= m);
    CountSort(s, v => v >= m);
  }

  /** The median depends only on the multiset of values. */
  lemma MedianDependsOnValuesOnly(a: seq<real>, b: seq<real>)
    requires |a| > 0
    requires multiset(a) == multiset(b)
    ensures |b| > 0
    ensures Median(a) == Median(b)
  {
    assert |a| == |multiset(a)| == |b|;
    SortDependsOnValuesOnly(a, b);
  }

  /** The median of two values is their midpoint. */
  lemma MedianOfTwo(x: real, y: real)
    ensures Median([x, y]) == (x + y) / 2.0
  {
    assert [x, y][1..] == [y];
    assert Sort([y]) == [y] by {
      assert [y][1..] == [];
    }
    var t := Insert(x, [y]);
    assert t == Sort([x, y]);
    assert t == if x <= y then [x, y] else [y, x];
    assert Middle(t) == (t[0] + t[1]) / 2.0;
  }
}
