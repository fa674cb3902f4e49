/** The chart-independent part of CoveragePlotBase: the four samplers that reduce a raw
    depth array to plot points, the dataset assembly that picks a sampler per series,
    and the reconciliation of axes and colours across the series of one plot. */
module CoveragePlotBase {
  import opened Common
  import opened Coverage
  import opened Sorting

  datatype SamplingType = NONE | RANDOM | MEAN | MEDIAN

  /** One XYSeries.add(x, y) call. */
  datatype Point = Point(x: int, y: int)

  /** An XYSeries: its key (the coverage name) and its add calls in order. */
  datatype Series = Series(key: string, points: seq<Point>)

  // ---------------------------------------------------------------- arithmetic

  function Sum(s: seq<int>): int
    decreases |s|
  {
    if |s| == 0 then 0 else Sum(s[..|s| - 1]) + s[|s| - 1]
  }

  lemma SliceSnoc(s: seq<int>, a: int, i: int)
    requires 0 <= a <= i < |s|
    ensures s[a..i] + [s[i]] == s[a..i + 1]
  {
  }

  lemma SumExtend(s: seq<int>, a: int, i: int)
    requires 0 <= a <= i < |s|
    ensures Sum(s[a..i + 1]) == Sum(s[a..i]) + s[i]
  {
    assert s[a..i + 1][..i - a] == s[a..i];
  }

  /** The number of buckets of b values that cover n values, the last one possibly short. */
  function CeilDiv(n: nat, b: int): nat
    requires b > 0
  {
    (n + b - 1) / b
  }

  lemma DivModUnique(x: int, b: int, q: int, r: int)
    requires b > 0 && 0 <= r < b && x == q * b + r
    ensures x / b == q && x % b == r
  {
    var q0, r0 := x / b, x % b;
    assert x == q0 * b + r0;
    if q0 < q {
      MulLe(q0 + 1, q, b);
      assert false;
    } else if q0 > q {
      MulLe(q + 1, q0, b);
      assert false;
    }
  }

  lemma MulLe(a: int, c: int, b: int)
    requires a <= c && b > 0
    ensures a * b <= c * b
    ensures (a + 1) * b == a * b + b
  {
  }

  /** k full buckets of b values cover n values exactly when k is the rounded-up quotient. */
  lemma CeilDivIs(n: nat, b: int, k: nat)
    requires b > 0 && (k - 1) * b < n <= k * b
    ensures CeilDiv(n, b) == k
  {
    assert (k - 1) * b == k * b - b;
    DivModUnique(n + b - 1, b, k, n + b - 1 - k * b);
  }

  /** A bucket start inside the array belongs to one of the CeilDiv(n, b) buckets. */
  lemma BucketBelowCeil(n: nat, b: int, k: nat)
    requires b > 0 && k * b < n
    ensures k < CeilDiv(n, b)
  {
    var q := CeilDiv(n, b);
    DivModUnique(n + b - 1, b, q, (n + b - 1) % b);
    if q <= k {
      MulLe(q, k, b);
      assert false;
    }
  }

  // ---------------------------------------------------------------- the four samplers

  /** sampleNone: every value at its own position. */
  predicate SampledNone(info: CoverageInfo, pts: seq<Point>)
  {
    |pts| == |info.coverages|
    && forall i :: 0 <= i < |pts| ==> pts[i] == Point(info.positionStart + i, info.coverages[i])
  }

  method SampleNone(info: CoverageInfo) returns (points: seq<Point>)
    ensures SampledNone(info, points)
  {
    var coverage := info.coverages;
    points := [];
    var i, j := 0, info.positionStart;
    while i < |coverage|
      invariant 0 <= i <= |coverage|
      invariant j == info.positionStart + i
      invariant |points| == i
      invariant forall k :: 0 <= k < i ==> points[k] == Point(info.positionStart + k, coverage[k])
    {
      points := points + [Point(j, coverage[i])];
      i, j := i + 1, j + 1;
    }
  }

  /** The Random.nextInt(b) draws, one per bucket: enough of them, each in [0, b). */
  predicate ValidOffsets(offsets: seq<int>, n: nat, b: int)
  {
    b > 0 && |offsets| >= CeilDiv(n, b)
    && forall k :: 0 <= k < |offsets| ==> 0 <= offsets[k] < b
  }

  /** Bucket k of sampleRandom with b = samplingSize - 1 starts at index k * b inside the
      array and takes the value at k * b + offsets[k], plotted at the bucket start; a draw
      past the end of the array takes the last value instead, plotted at positionEnd. */
  predicate RandomPointAt(info: CoverageInfo, offsets: seq<int>, k: nat, p: Point)
  {
    var n, b := |info.coverages|, info.samplingSize - 1;
    b > 0 && k < |offsets| && 0 <= offsets[k] < b && 0 <= k * b < n
    && (k * b + offsets[k] < n ==>
          p == Point(info.positionStart + k * b, info.coverages[k * b + offsets[k]]))
    && (k * b + offsets[k] >= n ==> p == Point(info.positionEnd, info.coverages[n - 1]))
  }

  /** sampleRandom: one point per bucket of samplingSize - 1 values, the last bucket possibly short. */
  predicate SampledRandom(info: CoverageInfo, offsets: seq<int>, pts: seq<Point>)
  {
    var n, b := |info.coverages|, info.samplingSize - 1;
    ValidOffsets(offsets, n, b)
    && |pts| == CeilDiv(n, b)
    && forall k :: 0 <= k < |pts| ==> RandomPointAt(info, offsets, k, pts[k])
  }

  method SampleRandom(info: CoverageInfo, offsets: seq<int>) returns (points: seq<Point>)
    requires info.samplingSize >= 2
    requires ValidOffsets(offsets, |info.coverages|, info.samplingSize - 1)
    ensures SampledRandom(info, offsets, points)
  {
    var sampleSize := info.samplingSize - 1;
    var coverage := info.coverages;
    var n := |coverage|;
    points := [];
    var i, j := 0, info.positionStart;
    while i < n
      invariant i == |points| * sampleSize
      invariant |points| <= CeilDiv(n, sampleSize)
      invariant |points| > 0 ==> (|points| - 1) * sampleSize < n
      invariant i < n ==> j == info.positionStart + i
      invariant forall k :: 0 <= k < |points| ==> RandomPointAt(info, offsets, k, points[k])
    {
      BucketBelowCeil(n, sampleSize, |points|);
      var index := offsets[|points|] + i;
      if index >= n {
        index := n - 1;
        j := info.positionEnd;
      }
      assert RandomPointAt(info, offsets, |points|, Point(j, coverage[index]));
      points := points + [Point(j, coverage[index])];
      MulLe(|points| - 1, |points| - 1, sampleSize);
      i, j := i + sampleSize, j + sampleSize;
    }
    CeilDivIs(n, sampleSize, |points|);
  }

  /** k * b <= idx < min(k * b + b, n): the value of every random point comes from its own
      bucket, and a clamped draw can only happen in the last bucket. */
  lemma RandomPointInBucket(info: CoverageInfo, offsets: seq<int>, pts: seq<Point>, k: nat)
    requires SampledRandom(info, offsets, pts) && k < |pts|
    ensures var n, b := |info.coverages|, info.samplingSize - 1;
            var idx := if k * b + offsets[k] < n then k * b + offsets[k] else n - 1;
            k * b <= idx < n && idx < k * b + b && pts[k].y == info.coverages[idx]
    ensures var n, b := |info.coverages|, info.samplingSize - 1;
            k * b + offsets[k] >= n ==> k == |pts| - 1 && pts[k].x == info.positionEnd
  {
    var n, b := |info.coverages|, info.samplingSize - 1;
    assert RandomPointAt(info, offsets, k, pts[k]);
    MulLe(k, k, b);
    if k + 1 < |pts| {
      assert RandomPointAt(info, offsets, k + 1, pts[k + 1]);
      assert (k + 1) * b == k * b + b;
      assert k * b + offsets[k] < n;
    }
  }

  /** Full bucket k of sampleMean with b = samplingSize - 1 lies inside the array and gives
      its truncated average at positionStart + (k + 1) * b - 1 - b / 2. */
  predicate MeanBucketAt(info: CoverageInfo, k: nat, p: Point)
  {
    var n, b := |info.coverages|, info.samplingSize - 1;
    b > 0 && k * b + b <= n
    && p == Point(info.positionStart + ((k + 1) * b - 1 - b / 2),
                  JavaDiv(Sum(info.coverages[k * b..k * b + b]), b))
  }

  /** The short last bucket of r > 0 values gives their truncated average at positionEnd - r / 2. */
  predicate MeanTailAt(info: CoverageInfo, r: nat, p: Point)
  {
    var n := |info.coverages|;
    0 < r <= n
    && p == Point(info.positionEnd - r / 2, JavaDiv(Sum(info.coverages[n - r..]), r))
  }

  /** sampleMean: one point per full bucket, plus one for a non-empty remainder. */
  predicate SampledMean(info: CoverageInfo, pts: seq<Point>)
  {
    var n, b := |info.coverages|, info.samplingSize - 1;
    b > 0
    && |pts| == n / b + (if n % b > 0 then 1 else 0)
    && (forall k :: 0 <= k < n / b ==> MeanBucketAt(info, k, pts[k]))
    && (n % b > 0 ==> MeanTailAt(info, n % b, pts[n / b]))
  }

  method SampleMean(info: CoverageInfo) returns (points: seq<Point>)
    requires info.samplingSize >= 2
    ensures SampledMean(info, points)
  {
    var sampleSize := info.samplingSize - 1;
    var coverage := info.coverages;
    var n := |coverage|;
    var counter, sum := 0, 0;
    points := [];
    ghost var bucketStart := 0;
    var i := 0;
    while i < n
      invariant 0 <= i <= n
      invariant 0 <= counter < sampleSize
      invariant bucketStart == |points| * sampleSize && i == bucketStart + counter
      invariant sum == Sum(coverage[bucketStart..i])
      invariant forall k :: 0 <= k < |points| ==> MeanBucketAt(info, k, points[k])
    {
      SumExtend(coverage, bucketStart, i);
      sum := sum + coverage[i];
      counter := counter + 1;
      if counter == sampleSize {
        MeanBucketStep(info, |points|, i, sum);
        MeanBucketsSnoc(info, points, Point(info.positionStart + (i - sampleSize / 2), JavaDiv(sum, sampleSize)));
        points := points + [Point(info.positionStart + (i - sampleSize / 2), JavaDiv(sum, sampleSize))];
        sum, counter := 0, 0;
        bucketStart := i + 1;
      }
      i := i + 1;
    }
    assert coverage[bucketStart..i] == coverage[|points| * sampleSize..];
    points := MeanLeftover(info, points, counter, sum);
  }

  /** The end of sampleMean: a non-zero counter gives one more point. */
  method MeanLeftover(info: CoverageInfo, points: seq<Point>, counter: nat, sum: int) returns (all: seq<Point>)
    requires info.samplingSize >= 2
    requires |info.coverages| == |points| * (info.samplingSize - 1) + counter && counter < info.samplingSize - 1
    requires sum == Sum(info.coverages[|points| * (info.samplingSize - 1)..])
    requires forall k :: 0 <= k < |points| ==> MeanBucketAt(info, k, points[k])
    ensures SampledMean(info, all)
  {
    MeanFinish(info, points, counter, sum);
    all := points;
    if counter > 0 {
      all := points + [Point(info.positionEnd - counter / 2, JavaDiv(sum, counter))];
    }
  }

  lemma MeanBucketsSnoc(info: CoverageInfo, points: seq<Point>, p: Point)
    requires forall k :: 0 <= k < |points| ==> MeanBucketAt(info, k, points[k])
    requires MeanBucketAt(info, |points|, p)
    ensures forall k :: 0 <= k < |points| + 1 ==> MeanBucketAt(info, k, (points + [p])[k])
  {
    forall k | 0 <= k < |points| + 1 ensures MeanBucketAt(info, k, (points + [p])[k]) {
      if k < |points| {
        assert (points + [p])[k] == points[k];
      }
    }
  }

  /** After the last value: the full buckets are done, and the counter values left over are the
      last n % b values, which give the tail point when there are any. */
  lemma MeanFinish(info: CoverageInfo, points: seq<Point>, counter: nat, sum: int)
    requires info.samplingSize >= 2
    requires |info.coverages| == |points| * (info.samplingSize - 1) + counter && counter < info.samplingSize - 1
    requires sum == Sum(info.coverages[|points| * (info.samplingSize - 1)..])
    requires forall k :: 0 <= k < |points| ==> MeanBucketAt(info, k, points[k])
    ensures counter == 0 ==> SampledMean(info, points)
    ensures counter > 0 ==> SampledMean(info, points + [Point(info.positionEnd - counter / 2, JavaDiv(sum, counter))])
  {
    var start := |points| * (info.samplingSize - 1);
    DivModUnique(|info.coverages|, info.samplingSize - 1, |points|, counter);
    if counter > 0 {
      assert |info.coverages| - counter == start;
      MeanTail(info, points, counter, sum);
    } else {
      MeanNoTail(info, points);
    }
  }

  lemma MeanNoTail(info: CoverageInfo, points: seq<Point>)
    requires info.samplingSize >= 2
    requires |info.coverages| / (info.samplingSize - 1) == |points|
    requires |info.coverages| % (info.samplingSize - 1) == 0
    requires forall k :: 0 <= k < |points| ==> MeanBucketAt(info, k, points[k])
    ensures SampledMean(info, points)
  {
  }

  lemma MeanTail(info: CoverageInfo, points: seq<Point>, counter: nat, sum: int)
    requires info.samplingSize >= 2 && 0 < counter < info.samplingSize - 1
    requires |info.coverages| / (info.samplingSize - 1) == |points|
    requires |info.coverages| % (info.samplingSize - 1) == counter
    requires counter <= |info.coverages| && sum == Sum(info.coverages[|info.coverages| - counter..])
    requires forall k :: 0 <= k < |points| ==> MeanBucketAt(info, k, points[k])
    ensures SampledMean(info, points + [Point(info.positionEnd - counter / 2, JavaDiv(sum, counter))])
  {
    var tail := Point(info.positionEnd - counter / 2, JavaDiv(sum, counter));
    var all := points + [tail];
    assert MeanTailAt(info, counter, tail);
    forall k | 0 <= k < |points| ensures MeanBucketAt(info, k, all[k]) {
      assert all[k] == points[k];
    }
  }

  /** The point sampleMean emits when bucket k fills up at index i. */
  lemma MeanBucketStep(info: CoverageInfo, k: nat, i: int, sum: int)
    requires info.samplingSize >= 2
    requires i == k * (info.samplingSize - 1) + info.samplingSize - 2 < |info.coverages|
    requires sum == Sum(info.coverages[i + 1 - (info.samplingSize - 1)..i + 1])
    ensures var b := info.samplingSize - 1;
            MeanBucketAt(info, k, Point(info.positionStart + (i - b / 2), JavaDiv(sum, b)))
            && (k + 1) * b == i + 1
  {
    MulLe(k, k, info.samplingSize - 1);
  }

  /** Full bucket k of sampleMedian with s = samplingSize (the full size, not s - 1) lies inside
      the array and gives its lower median at positionStart + (k + 1) * s - 1 - s / 2. */
  predicate MedianBucketAt(info: CoverageInfo, k: nat, p: Point)
  {
    var n, s := |info.coverages|, info.samplingSize;
    s > 0 && k * s + s <= n
    && p == Point(info.positionStart + ((k + 1) * s - 1 - s / 2),
                  LowerMedian(info.coverages[k * s..k * s + s]))
  }

  /** The short last bucket of r > 0 values gives its lower median at positionEnd - r / 2. */
  predicate MedianTailAt(info: CoverageInfo, r: nat, p: Point)
  {
    var n := |info.coverages|;
    0 < r <= n
    && p == Point(info.positionEnd - r / 2, LowerMedian(info.coverages[n - r..]))
  }

  /** sampleMedian: one point per full bucket, plus one for a non-empty remainder. */
  predicate SampledMedian(info: CoverageInfo, pts: seq<Point>)
  {
    var n, s := |info.coverages|, info.samplingSize;
    s > 0
    && |pts| == n / s + (if n % s > 0 then 1 else 0)
    && (forall k :: 0 <= k < n / s ==> MedianBucketAt(info, k, pts[k]))
    && (n % s > 0 ==> MedianTailAt(info, n % s, pts[n / s]))
  }

  method SampleMedian(info: CoverageInfo) returns (points: seq<Point>)
    requires info.samplingSize >= 1
    ensures SampledMedian(info, points)
  {
    var sampleSize := info.samplingSize;
    var coverages := info.coverages;
    var n := |coverages|;
    var values: seq<int> := [];
    points := [];
    ghost var bucketStart := 0;
    var i := 0;
    while i < n
      invariant 0 <= i <= n
      invariant |values| < sampleSize
      invariant bucketStart == |points| * sampleSize && i == bucketStart + |values|
      invariant values == coverages[bucketStart..i]
      invariant forall k :: 0 <= k < |points| ==> MedianBucketAt(info, k, points[k])
    {
      SliceSnoc(coverages, bucketStart, i);
      values := values + [coverages[i]];
      if |values| == sampleSize {
        points := MedianEmit(info, points, i, values);
        values := [];
        bucketStart := i + 1;
      }
      i := i + 1;
    }
    assert coverages[bucketStart..i] == coverages[|points| * sampleSize..];
    points := MedianLeftover(info, points, values);
  }

  /** A full list in sampleMedian: it is sorted and its middle value is emitted as the point of
      the bucket that ends at index i. */
  method MedianEmit(info: CoverageInfo, points: seq<Point>, i: int, values: seq<int>) returns (more: seq<Point>)
    requires info.samplingSize >= 1
    requires i == |points| * info.samplingSize + info.samplingSize - 1 < |info.coverages|
    requires values == info.coverages[i + 1 - info.samplingSize..i + 1]
    requires forall k :: 0 <= k < |points| ==> MedianBucketAt(info, k, points[k])
    ensures |more| == |points| + 1 && |more| * info.samplingSize == i + 1
    ensures forall k :: 0 <= k < |more| ==> MedianBucketAt(info, k, more[k])
  {
    var sampleSize := info.samplingSize;
    var sorted := Sort(values);
    MedianEmitted(info, points, i, values);
    more := points + [Point(info.positionStart + (i - sampleSize / 2), sorted[(|sorted| - 1) / 2])];
  }

  lemma MedianEmitted(info: CoverageInfo, points: seq<Point>, i: int, values: seq<int>)
    requires info.samplingSize >= 1
    requires i == |points| * info.samplingSize + info.samplingSize - 1 < |info.coverages|
    requires values == info.coverages[i + 1 - info.samplingSize..i + 1]
    requires forall k :: 0 <= k < |points| ==> MedianBucketAt(info, k, points[k])
    ensures |values| > 0
    ensures var more := points + [Point(info.positionStart + (i - info.samplingSize / 2), Sort(values)[(|values| - 1) / 2])];
            (|points| + 1) * info.samplingSize == i + 1
            && forall k :: 0 <= k < |more| ==> MedianBucketAt(info, k, more[k])
  {
    MedianBucketStep(info, |points|, i, values);
    MedianBucketsSnoc(info, points, Point(info.positionStart + (i - info.samplingSize / 2), LowerMedian(values)));
  }

  /** The end of sampleMedian: the values left in the list give one more point. */
  method MedianLeftover(info: CoverageInfo, points: seq<Point>, values: seq<int>) returns (all: seq<Point>)
    requires info.samplingSize >= 1
    requires |info.coverages| == |points| * info.samplingSize + |values| && |values| < info.samplingSize
    requires values == info.coverages[|points| * info.samplingSize..]
    requires forall k :: 0 <= k < |points| ==> MedianBucketAt(info, k, points[k])
    ensures SampledMedian(info, all)
  {
    MedianFinish(info, points, values);
    all := points;
    if |values| > 0 {
      var sorted := Sort(values);
      all := points + [Point(info.positionEnd - |sorted| / 2, sorted[(|sorted| - 1) / 2])];
    }
  }

  /** After the last value: the full buckets are done, and the values left over are the last
      n % s values, which give the tail point when there are any. */
  lemma MedianFinish(info: CoverageInfo, points: seq<Point>, values: seq<int>)
    requires info.samplingSize >= 1
    requires |info.coverages| == |points| * info.samplingSize + |values| && |values| < info.samplingSize
    requires values == info.coverages[|points| * info.samplingSize..]
    requires forall k :: 0 <= k < |points| ==> MedianBucketAt(info, k, points[k])
    ensures |values| == 0 ==> SampledMedian(info, points)
    ensures |values| > 0 ==>
              SampledMedian(info, points + [Point(info.positionEnd - |values| / 2, LowerMedian(values))])
  {
    DivModUnique(|info.coverages|, info.samplingSize, |points|, |values|);
    if |values| > 0 {
      var tail := Point(info.positionEnd - |values| / 2, LowerMedian(values));
      assert MedianTailAt(info, |values|, tail);
      MedianTail(info, points, tail);
    }
  }

  lemma MedianTail(info: CoverageInfo, points: seq<Point>, tail: Point)
    requires info.samplingSize >= 1
    requires |info.coverages| / info.samplingSize == |points| && |info.coverages| % info.samplingSize > 0
    requires MedianTailAt(info, |info.coverages| % info.samplingSize, tail)
    requires forall k :: 0 <= k < |points| ==> MedianBucketAt(info, k, points[k])
    ensures SampledMedian(info, points + [tail])
  {
    var all := points + [tail];
    assert all[|points|] == tail;
    forall k | 0 <= k < |points| ensures MedianBucketAt(info, k, all[k]) {
      assert all[k] == points[k];
    }
  }

  lemma MedianBucketsSnoc(info: CoverageInfo, points: seq<Point>, p: Point)
    requires forall k :: 0 <= k < |points| ==> MedianBucketAt(info, k, points[k])
    requires MedianBucketAt(info, |points|, p)
    ensures forall k :: 0 <= k < |points| + 1 ==> MedianBucketAt(info, k, (points + [p])[k])
  {
    forall k | 0 <= k < |points| + 1 ensures MedianBucketAt(info, k, (points + [p])[k]) {
      if k < |points| {
        assert (points + [p])[k] == points[k];
      }
    }
  }

  /** The point sampleMedian emits when bucket k fills up at index i. */
  lemma MedianBucketStep(info: CoverageInfo, k: nat, i: int, values: seq<int>)
    requires info.samplingSize >= 1
    requires i == k * info.samplingSize + info.samplingSize - 1 < |info.coverages|
    requires values == info.coverages[i + 1 - info.samplingSize..i + 1]
    ensures var s := info.samplingSize;
            MedianBucketAt(info, k, Point(info.positionStart + (i - s / 2), LowerMedian(values)))
            && (k + 1) * s == i + 1
  {
    MulLe(k, k, info.samplingSize);
  }

  // ---------------------------------------------------------------- dataset assembly

  /** The indices of the non-null entries, in list order. */
  function Present(infos: seq<Option<CoverageInfo>>): (r: seq<nat>)
    ensures forall k :: 0 <= k < |r| ==> r[k] < |infos| && infos[r[k]].Some?
    ensures forall k, l :: 0 <= k < l < |r| ==> r[k] < r[l]
    ensures forall e :: 0 <= e < |infos| && infos[e].Some? ==> e in r
    decreases |infos|
  {
    if |infos| == 0 then []
    else
      var init := Present(infos[..|infos| - 1]);
      assert forall k :: 0 <= k < |init| ==> infos[..|infos| - 1][init[k]] == infos[init[k]];
      init + (if infos[|infos| - 1].Some? then [|infos| - 1] else [])
  }

  /** Some non-null entry before index m has a sampling size below 3. */
  predicate ForcedNone(infos: seq<Option<CoverageInfo>>, m: nat)
    requires m <= |infos|
  {
    exists j :: 0 <= j < m && infos[j].Some? && infos[j].value.samplingSize < 3
  }

  lemma ForcedNoneStep(infos: seq<Option<CoverageInfo>>, e: nat)
    requires e < |infos|
    ensures ForcedNone(infos, e + 1) == (ForcedNone(infos, e) || (infos[e].Some? && infos[e].value.samplingSize < 3))
  {
    if ForcedNone(infos, e + 1) && !(infos[e].Some? && infos[e].value.samplingSize < 3) {
      var j :| 0 <= j < e + 1 && infos[j].Some? && infos[j].value.samplingSize < 3;
      assert j < e;
    }
  }

  /** The sampler createDataset uses for entry e: once an entry has forced NONE, every later
      entry of the same call is sampled with NONE too. */
  function EffectiveType(infos: seq<Option<CoverageInfo>>, samplingType: SamplingType, e: nat): SamplingType
    requires e < |infos|
  {
    if ForcedNone(infos, e + 1) then NONE else samplingType
  }

  /** The points the sampler for type t produces (RANDOM covers every type the switch
      does not name). */
  predicate SampledBy(t: SamplingType, info: CoverageInfo, offsets: seq<int>, pts: seq<Point>)
  {
    match t
    case NONE => SampledNone(info, pts)
    case MEAN => SampledMean(info, pts)
    case MEDIAN => SampledMedian(info, pts)
    case RANDOM => SampledRandom(info, offsets, pts)
  }

  /** The random draws given for every entry whose sampling size lets it be randomly sampled. */
  predicate ValidDraws(infos: seq<Option<CoverageInfo>>, draws: seq<seq<int>>)
  {
    |draws| == |infos|
    && forall e :: 0 <= e < |infos| && infos[e].Some? && infos[e].value.samplingSize >= 3 ==>
         ValidOffsets(draws[e], |infos[e].value.coverages|, infos[e].value.samplingSize - 1)
  }

  /** Series s is what createDataset makes of entry p: keyed by the entry's name and sampled
      as EffectiveType says. */
  predicate SeriesOf(infos: seq<Option<CoverageInfo>>, samplingType: SamplingType, draws: seq<seq<int>>,
                     p: nat, s: Series)
  {
    p < |infos| && p < |draws| && infos[p].Some?
    && s.key == infos[p].value.name
    && SampledBy(EffectiveType(infos, samplingType, p), infos[p].value, draws[p], s.points)
  }

  /** createDataset: one series per non-null entry, in list order. */
  method CreateDataset(infos: seq<Option<CoverageInfo>>, samplingType: SamplingType, draws: seq<seq<int>>)
    returns (dataset: seq<Series>)
    requires ValidDraws(infos, draws)
    ensures var present := Present(infos);
            |dataset| == |present|
            && forall k :: 0 <= k < |dataset| ==> SeriesOf(infos, samplingType, draws, present[k], dataset[k])
  {
    dataset := [];
    var current := samplingType;
    ghost var present: seq<nat> := [];
    var e := 0;
    while e < |infos|
      invariant 0 <= e <= |infos|
      invariant current == if ForcedNone(infos, e) then NONE else samplingType
      invariant present == Present(infos[..e])
      invariant |dataset| == |present|
      invariant forall k :: 0 <= k < |dataset| ==> SeriesOf(infos, samplingType, draws, present[k], dataset[k])
    {
      PresentStep(infos, e);
      ForcedNoneStep(infos, e);
      var entry := infos[e];
      if entry.None? {
        e := e + 1;
        continue;
      }
      current, dataset := AddSeries(infos, samplingType, draws, e, current, present, dataset);
      present := present + [e];
      e := e + 1;
    }
    assert infos[..|infos|] == infos;
  }

  /** The body of createDataset's loop for a non-null entry e: a sampling size below 3 switches
      the sampler to NONE for good, and the entry's series is added. */
  method AddSeries(infos: seq<Option<CoverageInfo>>, samplingType: SamplingType, draws: seq<seq<int>>, e: nat,
                   current: SamplingType, ghost present: seq<nat>, dataset: seq<Series>)
    returns (next: SamplingType, more: seq<Series>)
    requires ValidDraws(infos, draws) && e < |infos| && infos[e].Some?
    requires current == if ForcedNone(infos, e) then NONE else samplingType
    requires |dataset| == |present|
    requires forall k :: 0 <= k < |dataset| ==> SeriesOf(infos, samplingType, draws, present[k], dataset[k])
    ensures next == if ForcedNone(infos, e + 1) then NONE else samplingType
    ensures |more| == |present| + 1
    ensures forall k :: 0 <= k < |more| ==> SeriesOf(infos, samplingType, draws, (present + [e])[k], more[k])
  {
    ForcedNoneStep(infos, e);
    var coverageInfo := infos[e].value;
    next := current;
    if coverageInfo.samplingSize < 3 {
      next := NONE;
    }
    assert next == EffectiveType(infos, samplingType, e);
    var points := SampleWith(next, coverageInfo, draws[e]);
    assert SeriesOf(infos, samplingType, draws, e, Series(coverageInfo.name, points));
    SeriesSnoc(infos, samplingType, draws, present, dataset, e, Series(coverageInfo.name, points));
    more := dataset + [Series(coverageInfo.name, points)];
  }

  /** The switch of createDataset: the sampler of type t applied to one entry. */
  method SampleWith(t: SamplingType, info: CoverageInfo, offsets: seq<int>) returns (points: seq<Point>)
    requires t != NONE ==> info.samplingSize >= 3
    requires t == RANDOM ==> ValidOffsets(offsets, |info.coverages|, info.samplingSize - 1)
    ensures SampledBy(t, info, offsets, points)
  {
    match t {
      case NONE => points := SampleNone(info);
      case MEAN => points := SampleMean(info);
      case MEDIAN => points := SampleMedian(info);
      case RANDOM => points := SampleRandom(info, offsets);
    }
  }

  lemma SeriesSnoc(infos: seq<Option<CoverageInfo>>, samplingType: SamplingType, draws: seq<seq<int>>,
                   present: seq<nat>, dataset: seq<Series>, e: nat, s: Series)
    requires |dataset| == |present|
    requires forall k :: 0 <= k < |dataset| ==> SeriesOf(infos, samplingType, draws, present[k], dataset[k])
    requires SeriesOf(infos, samplingType, draws, e, s)
    ensures forall k :: 0 <= k < |dataset| + 1 ==>
              SeriesOf(infos, samplingType, draws, (present + [e])[k], (dataset + [s])[k])
  {
    forall k | 0 <= k < |dataset| + 1
      ensures SeriesOf(infos, samplingType, draws, (present + [e])[k], (dataset + [s])[k])
    {
      if k < |dataset| {
        assert (present + [e])[k] == present[k] && (dataset + [s])[k] == dataset[k];
      }
    }
  }

  lemma PresentStep(infos: seq<Option<CoverageInfo>>, e: nat)
    requires e < |infos|
    ensures Present(infos[..e + 1]) == Present(infos[..e]) + (if infos[e].Some? then [e] else [])
  {
    assert infos[..e + 1][..e] == infos[..e];
  }

  // ---------------------------------------------------------------- reconciliation

  /** The largest coverage limit of the list, or 0 when none is positive. */
  function MaxLimit(infos: seq<CoverageInfo>): (max: int)
    ensures max >= 0
    ensures forall i :: 0 <= i < |infos| ==> infos[i].coverageLimit <= max
    ensures max == 0 || exists i :: 0 <= i < |infos| && infos[i].coverageLimit == max
    decreases |infos|
  {
    if |infos| == 0 then 0
    else
      var init := infos[..|infos| - 1];
      var c := infos[|infos| - 1].coverageLimit;
      var m := MaxLimit(init);
      assert forall i :: 0 <= i < |init| ==> init[i] == infos[i];
      if c > m then c else m
  }

  /** The smallest start of the list, or Integer.MAX_VALUE when none is smaller. */
  function MinStart(infos: seq<CoverageInfo>): (min: int)
    ensures min <= IntMax
    ensures forall i :: 0 <= i < |infos| ==> min <= infos[i].positionStart
    ensures min == IntMax || exists i :: 0 <= i < |infos| && infos[i].positionStart == min
    decreases |infos|
  {
    if |infos| == 0 then IntMax
    else
      var init := infos[..|infos| - 1];
      var c := infos[|infos| - 1].positionStart;
      var m := MinStart(init);
      assert forall i :: 0 <= i < |init| ==> init[i] == infos[i];
      if c < m then c else m
  }

  /** The largest end of the list, or 0 when none is positive. */
  function MaxEnd(infos: seq<CoverageInfo>): (max: int)
    ensures max >= 0
    ensures forall i :: 0 <= i < |infos| ==> infos[i].positionEnd <= max
    ensures max == 0 || exists i :: 0 <= i < |infos| && infos[i].positionEnd == max
    decreases |infos|
  {
    if |infos| == 0 then 0
    else
      var init := infos[..|infos| - 1];
      var c := infos[|infos| - 1].positionEnd;
      var m := MaxEnd(init);
      assert forall i :: 0 <= i < |init| ==> init[i] == infos[i];
      if c > m then c else m
  }

  /** getCoverageLimit: the largest coverage limit, or 0 when none is positive. */
  method GetCoverageLimit(infos: seq<CoverageInfo>) returns (max: int)
    ensures max == MaxLimit(infos)
  {
    max := 0;
    for i := 0 to |infos|
      invariant max == MaxLimit(infos[..i])
    {
      assert infos[..i + 1][..i] == infos[..i];
      if infos[i].coverageLimit > max {
        max := infos[i].coverageLimit;
      }
    }
    assert infos[..|infos|] == infos;
  }

  /** setupDomainAxisRange: the smallest start, starting from Integer.MAX_VALUE, and the
      largest end, starting from 0. */
  method SetupDomainAxisRange(infos: seq<CoverageInfo>) returns (lower: int, upper: int)
    ensures lower == MinStart(infos)
    ensures upper == MaxEnd(infos)
  {
    lower, upper := IntMax, 0;
    for i := 0 to |infos|
      invariant lower == MinStart(infos[..i])
      invariant upper == MaxEnd(infos[..i])
    {
      assert infos[..i + 1][..i] == infos[..i];
      if infos[i].positionStart < lower {
        lower := infos[i].positionStart;
      }
      if infos[i].positionEnd > upper {
        upper := infos[i].positionEnd;
      }
    }
    assert infos[..|infos|] == infos;
  }

  /** The plot's drawing supplier: the chart's own, untouched; a fresh one with JFreeChart's
      default paint sequence; or one painting series i with the i-th colour. */
  datatype DrawingSupplier = ChartDefault | DefaultPaintSequence | SeriesPaints(paints: seq<int>)

  predicate AllColored(infos: seq<CoverageInfo>)
  {
    forall i :: 0 <= i < |infos| ==> infos[i].color.Some?
  }

  /** setupSerieColors as written: nothing changes unless every entry has a colour; then the
      colour array is built, one per entry in list order, but the supplier installed is
      given the default paint sequence, not that array. */
  method SetupSerieColors(infos: seq<CoverageInfo>) returns (colors: Option<seq<int>>, supplier: DrawingSupplier)
    ensures colors.Some? <==> AllColored(infos)
    ensures colors.Some? ==>
              (|colors.value| == |infos| && forall i :: 0 <= i < |infos| ==> colors.value[i] == infos[i].color.value)
    ensures supplier == if colors.Some? then DefaultPaintSequence else ChartDefault
  {
    for i := 0 to |infos|
      invariant forall k :: 0 <= k < i ==> infos[k].color.Some?
    {
      if infos[i].color.None? {
        return None, ChartDefault;
      }
    }
    var built := BuildColors(infos);
    colors, supplier := Some(built), DefaultPaintSequence;
  }

  /** The colour array: one colour per entry, in list order. */
  method BuildColors(infos: seq<CoverageInfo>) returns (colors: seq<int>)
    requires AllColored(infos)
    ensures |colors| == |infos|
    ensures forall i :: 0 <= i < |infos| ==> colors[i] == infos[i].color.value
  {
    colors := [];
    for i := 0 to |infos|
      invariant |colors| == i
      invariant forall k :: 0 <= k < i ==> colors[k] == infos[k].color.value
    {
      colors := colors + [infos[i].color.value];
    }
  }

  /** setupSerieColors as evidently intended: the same all-or-nothing check, and the
      installed supplier paints series i with the colour of entry i. */
  method SetupSerieColorsCorrected(infos: seq<CoverageInfo>) returns (supplier: DrawingSupplier)
    ensures !AllColored(infos) ==> supplier == ChartDefault
    ensures AllColored(infos) ==>
              (supplier.SeriesPaints? && |supplier.paints| == |infos|
               && forall i :: 0 <= i < |infos| ==> supplier.paints[i] == infos[i].color.value)
  {
    for i := 0 to |infos|
      invariant forall k :: 0 <= k < i ==> infos[k].color.Some?
    {
      if infos[i].color.None? {
        return ChartDefault;
      }
    }
    var colors := BuildColors(infos);
    supplier := SeriesPaints(colors);
  }

  /** As written, a fully coloured list, e.g. one red alignment depth series, is still drawn
      with the default paint sequence instead of its own colours. */
  method ColorsDiscardedExample(info: CoverageInfo) returns (asWritten: DrawingSupplier, intended: DrawingSupplier)
    requires info.color == Some(Red)
    ensures asWritten == DefaultPaintSequence
    ensures intended == SeriesPaints([Red])
    ensures asWritten != intended
  {
    var colors;
    colors, asWritten := SetupSerieColors([info]);
    intended := SetupSerieColorsCorrected([info]);
  }

  /** The value axis of plotCoverage: [0, limit] is installed only for a positive limit. */
  function RangeAxis(coverageLimit: int): (axis: Option<(int, int)>)
    ensures axis.Some? <==> coverageLimit > 0
    ensures axis.Some? ==> axis.value == (0, coverageLimit)
  {
    if coverageLimit > 0 then Some((0, coverageLimit)) else None
  }

  /** What plotCoverage hands to the renderer. */
  datatype PlotLayout = PlotLayout(
    domain: (int, int),
    rangeAxis: Option<(int, int)>,
    dataset: seq<Series>,
    supplier: DrawingSupplier)

  predicate HasNull(infos: seq<Option<CoverageInfo>>)
  {
    exists i :: 0 <= i < |infos| && infos[i].None?
  }

  /** The entries of a list without nulls. */
  function Unwrap(infos: seq<Option<CoverageInfo>>): (plain: seq<CoverageInfo>)
    requires !HasNull(infos)
    ensures |plain| == |infos|
    ensures forall i :: 0 <= i < |infos| ==> infos[i] == Some(plain[i])
  {
    seq(|infos|, i requires 0 <= i < |infos| => assert infos[i].Some?; infos[i].value)
  }

  /** plotCoverage up to the rendering: the domain range is computed first and dereferences
      every entry, so any null entry raises a NullPointerException; otherwise the layout is the
      one PlotLayoutOf gives for the entries, with series k sampled from entry k. */
  method PlotCoverage(infos: seq<Option<CoverageInfo>>, samplingType: SamplingType, draws: seq<seq<int>>)
    returns (r: Result<PlotLayout>)
    requires ValidDraws(infos, draws)
    ensures r.Failure? <==> HasNull(infos)
    ensures r.Failure? ==> r.error == NullPointer
    ensures r.Success? ==> PlotLayoutOf(Unwrap(infos), r.value)
    ensures r.Success? ==>
              forall k :: 0 <= k < |infos| ==> SeriesOf(infos, samplingType, draws, k, r.value.dataset[k])
  {
    for i := 0 to |infos|
      invariant forall k :: 0 <= k < i ==> infos[k].Some?
    {
      if infos[i].None? {
        return Failure(NullPointer);
      }
    }
    var plain := Unwrap(infos);
    var lower, upper := SetupDomainAxisRange(plain);
    var dataset := CreateDataset(infos, samplingType, draws);
    PresentAll(infos);
    var limit := GetCoverageLimit(plain);
    var supplier := SetupSerieColorsCorrected(plain);
    r := Success(PlotLayout((lower, upper), RangeAxis(limit), dataset, supplier));
  }

  /** The layout plotCoverage builds for a list of entries: the domain runs from the least
      start to the greatest end, the value axis is [0, largest limit] when that is positive,
      there is one series per entry, and every series gets its entry's colour when all have one. */
  predicate PlotLayoutOf(plain: seq<CoverageInfo>, l: PlotLayout)
  {
    l.domain == (MinStart(plain), MaxEnd(plain))
    && l.rangeAxis == RangeAxis(MaxLimit(plain))
    && |l.dataset| == |plain|
    && (!AllColored(plain) ==> l.supplier == ChartDefault)
    && (AllColored(plain) ==>
          l.supplier.SeriesPaints? && |l.supplier.paints| == |plain|
          && forall i :: 0 <= i < |plain| ==> l.supplier.paints[i] == plain[i].color.value)
  }

  /** One red alignment depth entry over 100..200 with limit 50 is drawn over [100, 200], on a
      value axis [0, 50], in red. */
  lemma PlotLayoutExample(e: CoverageInfo, l: PlotLayout)
    requires e.positionStart == 100 && e.positionEnd == 200 && e.coverageLimit == 50 && e.color == Some(Red)
    requires PlotLayoutOf([e], l)
    ensures l.domain == (100, 200) && l.rangeAxis == Some((0, 50)) && l.supplier == SeriesPaints([Red])
  {
    assert [e][..0] == [];
    assert AllColored([e]);
  }

  /** Without null entries every index is present, in order. */
  lemma {:induction false} PresentAll(infos: seq<Option<CoverageInfo>>)
    requires !HasNull(infos)
    ensures |Present(infos)| == |infos|
    ensures forall k :: 0 <= k < |infos| ==> Present(infos)[k] == k
    decreases |infos|
  {
    if |infos| > 0 {
      var init := infos[..|infos| - 1];
      assert !HasNull(init) by {
        forall i | 0 <= i < |init| ensures init[i].Some? { assert init[i] == infos[i]; }
      }
      PresentAll(init);
      assert infos[|infos| - 1].Some?;
    }
  }
}
