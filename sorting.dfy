/** Collections.sort on a list of Integer, as a pure insertion sort, and the
    lower median that the median sampler reads from the sorted bucket. */
module Sorting {

  predicate IsSorted(s: seq<int>)
  {
    forall i, j :: 0 <= i < j < |s| ==> s[i] <= s[j]
  }

  function Insert(x: int, s: seq<int>): (r: seq<int>)
    ensures |r| == |s| + 1
    decreases |s|
  {
    if |s| == 0 then [x]
    else if x <= s[0] then [x] + s
    else [s[0]] + Insert(x, s[1..])
  }

  /** The sorted copy of a bucket. */
  function Sort(s: seq<int>): (r: seq<int>)
    ensures |r| == |s|
    decreases |s|
  {
    if |s| == 0 then [] else Insert(s[0], Sort(s[1..]))
  }

  lemma {:induction false} InsertPermutes(x: int, s: seq<int>)
    ensures multiset(Insert(x, s)) == multiset(s) + multiset{x}
    decreases |s|
  {
    if |s| > 0 {
      assert s == [s[0]] + s[1..];
      if x > s[0] { InsertPermutes(x, s[1..]); }
    }
  }

  /** The sorted copy holds the same values, each as often. */
  lemma {:induction false} SortPermutes(s: seq<int>)
    ensures multiset(Sort(s)) == multiset(s)
    decreases |s|
  {
    if |s| > 0 {
      assert s == [s[0]] + s[1..];
      SortPermutes(s[1..]);
      InsertPermutes(s[0], Sort(s[1..]));
    }
  }

  lemma {:induction false} InsertSorted(x: int, s: seq<int>)
    requires IsSorted(s)
    ensures IsSorted(Insert(x, s))
    decreases |s|
  {
    if |s| > 0 && x > s[0] {
      InsertSorted(x, s[1..]);
      var r := Insert(x, s[1..]);
      InsertPermutes(x, s[1..]);
      forall y | y in r ensures s[0] <= y {
        assert y in multiset(r);
      }
      assert forall j :: 0 <= j < |r| ==> r[j] in r;
    }
  }

  lemma {:induction false} SortSorted(s: seq<int>)
    ensures IsSorted(Sort(s))
    decreases |s|
  {
    if |s| > 0 {
      SortSorted(s[1..]);
      InsertSorted(s[0], Sort(s[1..]));
    }
  }

  /** How many elements lie strictly below v, and how many at most at v. */
  function CountLess(s: seq<int>, v: int): (c: nat)
    decreases |s|
  {
    if |s| == 0 then 0 else (if s[0] < v then 1 else 0) + CountLess(s[1..], v)
  }

  function CountAtMost(s: seq<int>, v: int): (c: nat)
    decreases |s|
  {
    if |s| == 0 then 0 else (if s[0] <= v then 1 else 0) + CountAtMost(s[1..], v)
  }

  lemma {:induction false} InsertCounts(x: int, s: seq<int>, v: int)
    ensures CountLess(Insert(x, s), v) == CountLess(s, v) + (if x < v then 1 else 0)
    ensures CountAtMost(Insert(x, s), v) == CountAtMost(s, v) + (if x <= v then 1 else 0)
    decreases |s|
  {
    if |s| > 0 && x > s[0] {
      InsertCounts(x, s[1..], v);
      assert Insert(x, s)[1..] == Insert(x, s[1..]);
    } else if |s| > 0 {
      assert Insert(x, s)[1..] == s;
    }
  }

  lemma {:induction false} SortCounts(s: seq<int>, v: int)
    ensures CountLess(Sort(s), v) == CountLess(s, v)
    ensures CountAtMost(Sort(s), v) == CountAtMost(s, v)
    decreases |s|
  {
    if |s| > 0 {
      SortCounts(s[1..], v);
      InsertCounts(s[0], Sort(s[1..]), v);
    }
  }

  lemma {:induction false} NoneBelow(t: seq<int>, v: int)
    requires forall i :: 0 <= i < |t| ==> v <= t[i]
    ensures CountLess(t, v) == 0
    decreases |t|
  {
    if |t| > 0 { NoneBelow(t[1..], v); }
  }

  /** In a sorted sequence at most m elements are below t[m], and at least m + 1 are at most t[m]. */
  lemma {:induction false} SortedRank(t: seq<int>, m: nat)
    requires IsSorted(t) && m < |t|
    ensures CountLess(t, t[m]) <= m
    ensures CountAtMost(t, t[m]) >= m + 1
    decreases m
  {
    if m == 0 {
      NoneBelow(t, t[0]);
    } else {
      assert t[1..][m - 1] == t[m];
      SortedRank(t[1..], m - 1);
    }
  }

  /** values.get((values.size() - 1) / 2) after sorting: the lower of the two middle values. */
  function LowerMedian(bucket: seq<int>): int
    requires |bucket| > 0
  {
    Sort(bucket)[(|bucket| - 1) / 2]
  }

  /** The lower median is the order statistic of rank (n - 1) / 2: it is one of the values,
      fewer than (n - 1) / 2 + 1 values lie below it, and more than (n - 1) / 2 lie at or below it. */
  lemma LowerMedianRank(bucket: seq<int>)
    requires |bucket| > 0
    ensures LowerMedian(bucket) in bucket
    ensures CountLess(bucket, LowerMedian(bucket)) <= (|bucket| - 1) / 2
    ensures CountAtMost(bucket, LowerMedian(bucket)) >= (|bucket| - 1) / 2 + 1
  {
    var t := Sort(bucket);
    var m := (|bucket| - 1) / 2;
    SortSorted(bucket);
    SortedRank(t, m);
    SortCounts(bucket, t[m]);
    SortPermutes(bucket);
    assert t[m] in multiset(t);
  }

  /** An even bucket takes the lower middle value: [4, 1, 3, 2] sorts to [1, 2, 3, 4] and yields 2. */
  lemma LowerMedianExample()
    ensures Sort([4, 1, 3, 2]) == [1, 2, 3, 4]
    ensures LowerMedian([4, 1, 3, 2]) == 2
  {
    assert [4, 1, 3, 2][1..] == [1, 3, 2];
    assert [1, 3, 2][1..] == [3, 2];
    assert [3, 2][1..] == [2];
    assert [2][1..] == [];
    assert Sort([2]) == Insert(2, []) == [2];
    assert Insert(3, [2]) == [2] + Insert(3, []) == [2, 3];
    assert Sort([3, 2]) == [2, 3];
    assert Insert(1, [2, 3]) == [1, 2, 3];
    assert Sort([1, 3, 2]) == [1, 2, 3];
    assert [1, 2, 3][1..] == [2, 3];
    assert [2, 3][1..] == [3];
    assert Insert(4, [3]) == [3] + Insert(4, []) == [3, 4];
    assert Insert(4, [2, 3]) == [2] + Insert(4, [3]) == [2, 3, 4];
    assert Insert(4, [1, 2, 3]) == [1] + Insert(4, [2, 3]) == [1, 2, 3, 4];
  }
}
