/**
  Row-level operations on a table held as a sequence of records: filtering,
  projecting a column, grouping by a key with a median or mean per group, and
  the inner join that annotates each record with its group's aggregate.
 */
module Tables {
  import opened Stats

  /** One row of an aggregated table: a group key and its aggregate value. */
  datatype Group<K> = Group(key: K, value: real)

  /** `a` is `b` with some entries removed and the rest kept in order. */
  predicate IsSubsequence<T(==)>(a: seq<T>, b: seq<T>)
    decreases |b|
  {
    |a| == 0 ||
    (|b| > 0 && ((a[0] == b[0] && IsSubsequence(a[1..], b[1..])) || IsSubsequence(a, b[1..])))
  }

  /** Row selection: the records satisfying `p`, in their original order. */
  function Filter<T(==)>(s: seq<T>, p: T -> bool): (r: seq<T>)
    ensures |r| <= |s|
    ensures IsSubsequence(r, s)
    ensures forall i :: 0 <= i < |r| ==> p(r[i]) && r[i] in s
    ensures forall i :: 0 <= i < |s| && p(s[i]) ==> s[i] in r
    ensures (forall i :: 0 <= i < |s| ==> p(s[i])) ==> r == s
  {
    if |s| == 0 then []
    else if p(s[0]) then
      var r := [s[0]] + Filter(s[1..], p);
      assert r[1..] == Filter(s[1..], p);
      r
    else Filter(s[1..], p)
  }

  /**
    Filtering keeps every matching record as often as it occurs and drops every
    other record entirely: repeated rows are neither merged nor duplicated.
   */
  lemma {:induction false} FilterKeepsMultiplicity<T>(s: seq<T>, p: T -> bool)
    ensures forall x :: multiset(Filter(s, p))[x] == if p(x) then multiset(s)[x] else 0
  {
    if |s| > 0 {
      FilterKeepsMultiplicity(s[1..], p);
      assert s == [s[0]] + s[1..];
    }
  }

  /** Filtering with two predicates that agree on every record gives the same rows. */
  lemma {:induction false} FilterCongruent<T>(s: seq<T>, p: T -> bool, q: T -> bool)
    requires forall i :: 0 <= i < |s| ==> (p(s[i]) <==> q(s[i]))
    ensures Filter(s, p) == Filter(s, q)
  {
    if |s| > 0 {
      FilterCongruent(s[1..], p, q);
    }
  }

  /** Filtering twice is filtering once by the conjunction. */
  lemma {:induction false} FilterTwice<T>(s: seq<T>, p: T -> bool, q: T -> bool, both: T -> bool)
    requires forall x :: both(x) <==> p(x) && q(x)
    ensures Filter(Filter(s, p), q) == Filter(s, both)
  {
    if |s| > 0 {
      FilterTwice(s[1..], p, q, both);
      if p(s[0]) {
        assert ([s[0]] + Filter(s[1..], p))[1..] == Filter(s[1..], p);
      }
    }
  }

  /** Column projection: `f` applied to every record, in order. */
  function Column<T, U>(s: seq<T>, f: T -> U): (r: seq<U>)
    ensures |r| == |s|
    ensures forall i :: 0 <= i < |s| ==> r[i] == f(s[i])
  {
    if |s| == 0 then [] else [f(s[0])] + Column(s[1..], f)
  }

  /** Projecting a column keeps a subsequence a subsequence. */
  lemma {:induction false} ColumnKeepsSubsequence<T, U>(a: seq<T>, b: seq<T>, f: T -> U)
    requires IsSubsequence(a, b)
    ensures IsSubsequence(Column(a, f), Column(b, f))
    decreases |b|
  {
    if |a| == 0 {
    } else if a[0] == b[0] && IsSubsequence(a[1..], b[1..]) {
      ColumnKeepsSubsequence(a[1..], b[1..], f);
      assert Column(a, f)[1..] == Column(a[1..], f);
      assert Column(b, f)[1..] == Column(b[1..], f);
    } else {
      ColumnKeepsSubsequence(a, b[1..], f);
      assert Column(b, f)[1..] == Column(b[1..], f);
    }
  }

  /**
    Selecting records and then projecting them is projecting every record and
    then selecting by a condition the projection still shows.
   */
  lemma {:induction false} ColumnAfterFilter<T, U>(s: seq<T>, p: T -> bool, f: T -> U, q: U -> bool)
    requires forall x :: p(x) <==> q(f(x))
    ensures Column(Filter(s, p), f) == Filter(Column(s, f), q)
  {
    if |s| > 0 {
      ColumnAfterFilter(s[1..], p, f, q);
      assert Column(s, f)[1..] == Column(s[1..], f);
      if p(s[0]) {
        assert Filter(s, p)[1..] == Filter(s[1..], p);
        assert Column(Filter(s, p), f)[1..] == Column(Filter(s[1..], p), f);
      }
    }
  }

  /** The distinct values of `key` over the records. */
  function Keys<T, K>(s: seq<T>, key: T -> K): set<K> {
    set i | 0 <= i < |s| :: key(s[i])
  }

  /** The group of records whose key is `k`, in their original order. */
  function Select<T(==), K(==)>(s: seq<T>, key: T -> K, k: K): (r: seq<T>)
    ensures |r| > 0 <==> k in Keys(s, key)
    ensures forall i :: 0 <= i < |r| ==> key(r[i]) == k
  {
    Filter(s, x => key(x) == k)
  }

  /** A group is the selection by any predicate that holds exactly of the records with its key. */
  lemma SelectIsFilter<T, K>(s: seq<T>, key: T -> K, k: K, p: T -> bool)
    requires forall x :: p(x) <==> key(x) == k
    ensures Select(s, key, k) == Filter(s, p)
  {
    FilterCongruent(s, x => key(x) == k, p);
  }

  /** A group of a filtered table is one filter by the conjunction of both conditions. */
  lemma SelectAfterFilter<T, K>(s: seq<T>, p: T -> bool, key: T -> K, k: K, both: T -> bool)
    requires forall x :: both(x) <==> p(x) && key(x) == k
    ensures Select(Filter(s, p), key, k) == Filter(s, both)
  {
    FilterTwice(s, p, x => key(x) == k, both);
  }

  /** The values of `val` over the group whose key is `k`. */
  function GroupValues<T(==), K(==)>(s: seq<T>, key: T -> K, val: T -> real, k: K): seq<real>
  {
    Column(Select(s, key, k), val)
  }

  /**
    Group-by-and-median: one entry per distinct key, holding the median of
    `val` over the records with that key.
   */
  function MedianTable<T(==), K(==)>(s: seq<T>, key: T -> K, val: T -> real): (t: map<K, real>)
    ensures t.Keys == Keys(s, key)
    ensures forall i :: 0 <= i < |s| ==> key(s[i]) in t
  {
    map k | k in Keys(s, key) :: Median(GroupValues(s, key, val, k))
  }

  /** A table whose records all share one key has exactly one entry: the median of all values. */
  lemma SingleGroupTable<T, K>(s: seq<T>, key: T -> K, val: T -> real, k: K)
    requires |s| > 0
    requires forall i :: 0 <= i < |s| ==> key(s[i]) == k
    ensures MedianTable(s, key, val) == map[k := Median(Column(s, val))]
  {
    assert key(s[0]) in Keys(s, key);
    assert Keys(s, key) == {k};
    assert Select(s, key, k) == s;
  }

  /** Strictly ascending integers, hence without repetitions. */
  predicate Ascending(t: seq<int>) {
    forall i, j :: 0 <= i < j < |t| ==> t[i] < t[j]
  }

  /** Inserts `x` into an ascending sequence unless it is already there. */
  function InsertKey(x: int, t: seq<int>): (r: seq<int>)
    requires Ascending(t)
    ensures Ascending(r)
    ensures forall k :: k in r <==> k == x || k in t
  {
    if |t| == 0 then [x]
    else if x < t[0] then [x] + t
    else if x == t[0] then t
    else
      var rest := InsertKey(x, t[1..]);
      assert forall i :: 0 <= i < |rest| ==> rest[i] in rest;
      [t[0]] + rest
  }

  /** The distinct values of `xs` in ascending order. */
  function SortedKeys(xs: seq<int>): (r: seq<int>)
    ensures Ascending(r)
    ensures forall k :: k in r <==> k in xs
  {
    if |xs| == 0 then []
    else
      assert xs == [xs[0]] + xs[1..];
      InsertKey(xs[0], SortedKeys(xs[1..]))
  }

  lemma KeyColumn<T, K>(s: seq<T>, key: T -> K)
    ensures forall k :: k in Column(s, key) <==> k in Keys(s, key)
  {
    var column := Column(s, key);
    forall k ensures k in column <==> k in Keys(s, key) {
      if k in column {
        var i :| 0 <= i < |column| && column[i] == k;
      }
      if k in Keys(s, key) {
        var i :| 0 <= i < |s| && key(s[i]) == k;
        assert column[i] == k;
      }
    }
  }

  /** The mean of a group's values, or 0 for a key no record carries. */
  function GroupMean<T(==)>(s: seq<T>, key: T -> int, val: T -> real, k: int): real {
    var g := GroupValues(s, key, val, k);
    if |g| > 0 then Mean(g) else 0.0
  }

  /** One row per key of `ks`, in that order, holding the group's mean. */
  function MeanRows<T(==)>(s: seq<T>, key: T -> int, val: T -> real, ks: seq<int>): (t: seq<Group<int>>)
    ensures |t| == |ks|
    ensures forall i :: 0 <= i < |t| ==> t[i] == Group(ks[i], GroupMean(s, key, val, ks[i]))
  {
    if |ks| == 0 then []
    else [Group(ks[0], GroupMean(s, key, val, ks[0]))] + MeanRows(s, key, val, ks[1..])
  }

  /** The group of a key that occurs is never empty, so its row holds its true mean. */
  lemma NonEmptyGroup<T>(s: seq<T>, key: T -> int, val: T -> real, k: int)
    requires k in Keys(s, key)
    ensures |GroupValues(s, key, val, k)| > 0
    ensures GroupMean(s, key, val, k) == Mean(GroupValues(s, key, val, k))
  {
  }

  /** Every row built for keys that occur holds the mean of a non-empty group. */
  lemma RowMeans<T>(s: seq<T>, key: T -> int, val: T -> real, t: seq<Group<int>>)
    requires forall i :: 0 <= i < |t| ==> t[i].key in Keys(s, key) && t[i].value == GroupMean(s, key, val, t[i].key)
    ensures forall i :: 0 <= i < |t| ==>
              |GroupValues(s, key, val, t[i].key)| > 0 && t[i].value == Mean(GroupValues(s, key, val, t[i].key))
  {
    forall i | 0 <= i < |t|
      ensures |GroupValues(s, key, val, t[i].key)| > 0 && t[i].value == Mean(GroupValues(s, key, val, t[i].key))
    {
      NonEmptyGroup(s, key, val, t[i].key);
    }
  }

  lemma RowKeys(t: seq<Group<int>>, ks: seq<int>)
    requires |t| == |ks| && Ascending(ks)
    requires forall i :: 0 <= i < |t| ==> t[i].key == ks[i]
    ensures forall i, j :: 0 <= i < j < |t| ==> t[i].key < t[j].key
    ensures forall k :: k in ks <==> exists i :: 0 <= i < |t| && t[i].key == k
  {
    forall k | k in ks ensures exists i :: 0 <= i < |t| && t[i].key == k {
      var i :| 0 <= i < |ks| && ks[i] == k;
      assert t[i].key == k;
    }
  }

  /**
    `t` is the group-by-and-mean of `s`: keys strictly ascending, exactly the
    distinct keys of the records, each with the mean of its group's values.
   */
  ghost predicate IsMeanTable<T>(t: seq<Group<int>>, s: seq<T>, key: T -> int, val: T -> real) {
    && (forall i, j :: 0 <= i < j < |t| ==> t[i].key < t[j].key)
    && (forall k :: k in Keys(s, key) <==> exists i :: 0 <= i < |t| && t[i].key == k)
    && (forall i :: 0 <= i < |t| ==>
          |GroupValues(s, key, val, t[i].key)| > 0 && t[i].value == Mean(GroupValues(s, key, val, t[i].key)))
  }

  /**
    Group-by-and-mean over an integer key, as a table sorted by key: one row
    per distinct key, holding the mean of `val` over the records with that key.
   */
  function MeanTable<T(==)>(s: seq<T>, key: T -> int, val: T -> real): (t: seq<Group<int>>)
    ensures IsMeanTable(t, s, key, val)
  {
    var ks := SortedKeys(Column(s, key));
    assert forall k :: k in ks <==> k in Keys(s, key) by {
      KeyColumn(s, key);
    }
    var t := MeanRows(s, key, val, ks);
    RowKeys(t, ks);
    assert forall i :: 0 <= i < |t| ==> t[i].key in Keys(s, key) by {
      assert forall i :: 0 <= i < |t| ==> t[i].key == ks[i] && ks[i] in ks;
    }
    RowMeans(s, key, val, t);
    t
  }

  /** The value column of a table. */
  function Values<K>(t: seq<Group<K>>): (r: seq<real>)
    ensures |r| == |t|
    ensures forall i :: 0 <= i < |t| ==> r[i] == t[i].value
  {
    Column(t, (g: Group<K>) => g.value)
  }

  /** The records of a join result, without the joined value. */
  function Records<T>(r: seq<(T, real)>): seq<T> {
    Column(r, (p: (T, real)) => p.0)
  }

  /**
    Inner join of the records with an aggregate table on `key`: each record
    whose key the table holds, paired with the table's value; others dropped.
   */
  function InnerJoin<T(==), K(==)>(s: seq<T>, key: T -> K, table: map<K, real>): (r: seq<(T, real)>)
    ensures |r| <= |s|
    ensures forall i :: 0 <= i < |r| ==> key(r[i].0) in table && r[i].1 == table[key(r[i].0)]
    ensures Records(r) == Filter(s, x => key(x) in table)
    ensures (forall i :: 0 <= i < |s| ==> key(s[i]) in table) ==>
              |r| == |s| && forall i :: 0 <= i < |s| ==> r[i].0 == s[i]
  {
    if |s| == 0 then []
    else if key(s[0]) in table then
      var r := [(s[0], table[key(s[0])])] + InnerJoin(s[1..], key, table);
      assert Records(r)[1..] == Records(r[1..]);
      r
    else InnerJoin(s[1..], key, table)
  }

  /** Joining a table grouped from the same records drops no record. */
  lemma JoinKeepsEveryRecord<T, K>(s: seq<T>, key: T -> K, val: T -> real)
    ensures var r := InnerJoin(s, key, MedianTable(s, key, val));
            |r| == |s| &&
            forall i :: 0 <= i < |s| ==> r[i].0 == s[i] && r[i].1 == Median(GroupValues(s, key, val, key(s[i])))
  {
  }
}
