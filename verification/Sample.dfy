/**
 * The reference meaning of latency statistics: plain samples, their sums and
 * their NIST percentiles, and how a bucketed histogram stands for a sample.
 */
module Sample {
  import Bag
  import opened Numeral

  /** One histogram bucket: a delay and how many packets had it. */
  datatype Bucket = Bucket(value: real, count: nat)

  function Copies(x: real, n: nat): (ys: seq<real>)
    ensures |ys| == n
  {
    seq(n, _ => x)
  }

  /** The first i buckets, each value written out as many times as it counts. */
  function ExpandTo(bs: seq<Bucket>, i: nat): seq<real>
    requires i <= |bs|
  {
    if i == 0 then [] else ExpandTo(bs, i - 1) + Copies(bs[i - 1].value, bs[i - 1].count)
  }

  function Expand(bs: seq<Bucket>): seq<real>
  {
    ExpandTo(bs, |bs|)
  }

  /** How many samples the first i buckets hold. */
  function CountTo(bs: seq<Bucket>, i: nat): nat
    requires i <= |bs|
  {
    if i == 0 then 0 else CountTo(bs, i - 1) + bs[i - 1].count
  }

  function Total(bs: seq<Bucket>): nat
  {
    CountTo(bs, |bs|)
  }

  function SumOf(f: real -> real, ys: seq<real>): real
  {
    if ys == [] then 0.0 else SumOf(f, ys[..|ys| - 1]) + f(ys[|ys| - 1])
  }

  /** f summed over the samples of the first i buckets, one product a bucket. */
  function WeightedTo(f: real -> real, bs: seq<Bucket>, i: nat): real
    requires i <= |bs|
  {
    if i == 0 then 0.0 else WeightedTo(f, bs, i - 1) + Times(f(bs[i - 1].value), bs[i - 1].count)
  }

  function Identity(x: real): real { x }

  function Square(x: real): real { x * x }

  function SquaredDeviation(mean: real): real -> real
  {
    x => (x - mean) * (x - mean)
  }

  function Mean(ys: seq<real>): real
    requires ys != []
  {
    SumOf(Identity, ys) / |ys| as real
  }

  function Variance(ys: seq<real>): real
    requires ys != []
  {
    SumOf(SquaredDeviation(Mean(ys)), ys) / |ys| as real
  }

  ghost predicate Sorted(ys: seq<real>)
  {
    forall i, j :: 0 <= i <= j < |ys| ==> ys[i] <= ys[j]
  }

  ghost predicate SortedBuckets(bs: seq<Bucket>)
  {
    forall i, j :: 0 <= i <= j < |bs| ==> bs[i].value <= bs[j].value
  }

  ghost predicate Positive(bs: seq<Bucket>)
  {
    forall i :: 0 <= i < |bs| ==> bs[i].count > 0
  }

  /** Rank p/100 * (N+1) of the NIST rule, exactly. */
  function Rank(p: real, n: nat): real
  {
    Times(p / 100.0, n + 1)
  }

  function Interpolate(x: real, y: real, d: real): real
  {
    x + d * (y - x)
  }

  /**
   * The NIST percentile of a sorted sample Y_1..Y_N: with k and d the whole and
   * fractional part of the rank, Y_1 if k = 0, Y_N if k >= N, and
   * Y_k + d(Y_{k+1} - Y_k) otherwise.
   */
  function NistPercentile(ys: seq<real>, p: real): real
    requires ys != [] && 0.0 <= p
  {
    var n := Rank(p, |ys|);
    ValueAtRank(ys, n.Floor, n - n.Floor as real)
  }

  /** The value at rank k + d of a sample counted from 1. */
  function ValueAtRank(ys: seq<real>, k: int, d: real): real
    requires ys != []
  {
    if k <= 0 then ys[0]
    else if k >= |ys| then ys[|ys| - 1]
    else Interpolate(ys[k - 1], ys[k], d)
  }

  // ----- expanding a histogram

  lemma {:induction false} ExpandLength(bs: seq<Bucket>, i: nat)
    requires i <= |bs|
    ensures |ExpandTo(bs, i)| == CountTo(bs, i)
  {
    if i > 0 {
      ExpandLength(bs, i - 1);
    }
  }

  lemma {:induction false} ExpandPrefix(bs: seq<Bucket>, i: nat)
    requires i <= |bs|
    ensures ExpandTo(bs, i) <= Expand(bs)
    ensures |Expand(bs)| == Total(bs) >= CountTo(bs, i)
    decreases |bs| - i
  {
    if i == |bs| {
      ExpandLength(bs, i);
    } else {
      ExpandPrefix(bs, i + 1);
    }
  }

  /** Only the first i buckets matter to the first i. */
  lemma {:induction false} ExpandLocal(bs: seq<Bucket>, cs: seq<Bucket>, i: nat)
    requires i <= |bs| && i <= |cs| && bs[..i] == cs[..i]
    ensures ExpandTo(bs, i) == ExpandTo(cs, i)
  {
    if i > 0 {
      assert bs[..i - 1] == bs[..i][..i - 1] && cs[..i - 1] == cs[..i][..i - 1];
      assert bs[i - 1] == bs[..i][i - 1] && cs[i - 1] == cs[..i][i - 1];
      ExpandLocal(bs, cs, i - 1);
    }
  }

  lemma ExpandAppend(bs: seq<Bucket>, b: Bucket)
    ensures Expand(bs + [b]) == Expand(bs) + Copies(b.value, b.count)
  {
    ExpandLocal(bs + [b], bs, |bs|);
  }

  /** The ranks CountTo(j)+1 .. CountTo(j+1) all hold bucket j's value. */
  lemma ExpandAt(bs: seq<Bucket>, j: nat, i: nat)
    requires j < |bs|
    requires CountTo(bs, j) <= i < CountTo(bs, j + 1)
    ensures i < Total(bs) == |Expand(bs)|
    ensures Expand(bs)[i] == bs[j].value
  {
    ExpandPrefix(bs, j + 1);
    ExpandLength(bs, j);
    ExpandLength(bs, j + 1);
    assert ExpandTo(bs, j + 1)[i] == Copies(bs[j].value, bs[j].count)[i - CountTo(bs, j)];
  }

  lemma {:induction false} ExpandSorted(bs: seq<Bucket>, i: nat)
    requires SortedBuckets(bs) && i <= |bs|
    ensures Sorted(ExpandTo(bs, i))
    ensures forall j :: 0 <= j < |ExpandTo(bs, i)| ==> i > 0 && ExpandTo(bs, i)[j] <= bs[i - 1].value
  {
    if i > 0 {
      ExpandSorted(bs, i - 1);
    }
  }

  lemma {:induction false} SumOfAppend(f: real -> real, a: seq<real>, b: seq<real>)
    ensures SumOf(f, a + b) == SumOf(f, a) + SumOf(f, b)
  {
    if b == [] {
      assert a + b == a;
    } else {
      var b' := b[..|b| - 1];
      assert (a + b)[..|a + b| - 1] == a + b';
      SumOfAppend(f, a, b');
    }
  }

  lemma {:induction false} SumOfCopies(f: real -> real, x: real, n: nat)
    ensures SumOf(f, Copies(x, n)) == Times(f(x), n)
  {
    if n > 0 {
      assert Copies(x, n)[..n - 1] == Copies(x, n - 1);
      SumOfCopies(f, x, n - 1);
    }
  }

  /** A weighted pass over the buckets sums the expanded sample. */
  lemma {:induction false} WeightedSumIsSampleSum(f: real -> real, bs: seq<Bucket>, i: nat)
    requires i <= |bs|
    ensures WeightedTo(f, bs, i) == SumOf(f, ExpandTo(bs, i))
  {
    if i > 0 {
      var b := bs[i - 1];
      calc {
        WeightedTo(f, bs, i);
        WeightedTo(f, bs, i - 1) + Times(f(b.value), b.count);
        { WeightedSumIsSampleSum(f, bs, i - 1); SumOfCopies(f, b.value, b.count); }
        SumOf(f, ExpandTo(bs, i - 1)) + SumOf(f, Copies(b.value, b.count));
        { SumOfAppend(f, ExpandTo(bs, i - 1), Copies(b.value, b.count)); }
        SumOf(f, ExpandTo(bs, i));
      }
    }
  }

  // ----- stable sorting of buckets by value, as `sorted(..., key=...)`

  function Insert(bs: seq<Bucket>, b: Bucket): (r: seq<Bucket>)
    ensures |r| == |bs| + 1
    ensures multiset(r) == multiset(bs) + multiset{b}
  {
    if bs == [] then [b]
    else
      var front, last := bs[..|bs| - 1], bs[|bs| - 1];
      assert bs == front + [last];
      if last.value <= b.value then bs + [b] else Insert(front, b) + [last]
  }

  function Sort(bs: seq<Bucket>): (r: seq<Bucket>)
    ensures |r| == |bs|
    ensures multiset(r) == multiset(bs)
  {
    if bs == [] then []
    else
      assert bs == bs[..|bs| - 1] + [bs[|bs| - 1]];
      Insert(Sort(bs[..|bs| - 1]), bs[|bs| - 1])
  }

  lemma {:induction false} InsertSorted(bs: seq<Bucket>, b: Bucket)
    requires SortedBuckets(bs)
    ensures SortedBuckets(Insert(bs, b))
  {
    if bs != [] && bs[|bs| - 1].value > b.value {
      var front, last := bs[..|bs| - 1], bs[|bs| - 1];
      InsertSorted(front, b);
      InsertBelow(front, b, last.value);
    }
  }

  lemma {:induction false} InsertBelow(bs: seq<Bucket>, b: Bucket, hi: real)
    requires b.value <= hi && forall i :: 0 <= i < |bs| ==> bs[i].value <= hi
    ensures forall i :: 0 <= i < |Insert(bs, b)| ==> Insert(bs, b)[i].value <= hi
  {
    if bs != [] && bs[|bs| - 1].value > b.value {
      InsertBelow(bs[..|bs| - 1], b, hi);
    }
  }

  lemma {:induction false} SortSorted(bs: seq<Bucket>)
    ensures SortedBuckets(Sort(bs))
  {
    if bs != [] {
      SortSorted(bs[..|bs| - 1]);
      InsertSorted(Sort(bs[..|bs| - 1]), bs[|bs| - 1]);
    }
  }

  lemma {:induction false} InsertSamples(bs: seq<Bucket>, b: Bucket)
    ensures multiset(Expand(Insert(bs, b))) == multiset(Expand(bs)) + multiset(Copies(b.value, b.count))
  {
    if bs == [] || bs[|bs| - 1].value <= b.value {
      ExpandAppend(bs, b);
      assert Insert(bs, b) == bs + [b];
    } else {
      var front, last := bs[..|bs| - 1], bs[|bs| - 1];
      InsertSamples(front, b);
      ExpandAppend(Insert(front, b), last);
      ExpandAppend(front, last);
      assert bs == front + [last];
    }
  }

  lemma SortOneMore(front: seq<Bucket>, last: Bucket)
    requires multiset(Expand(Sort(front))) == multiset(Expand(front))
    ensures multiset(Expand(Sort(front + [last]))) == multiset(Expand(front + [last]))
  {
    InsertSamples(Sort(front), last);
    ExpandAppend(front, last);
    assert (front + [last])[..|front|] == front;
  }

  /** Sorting the buckets loses or invents no sample. */
  lemma {:induction false} SortSamples(bs: seq<Bucket>)
    ensures multiset(Expand(Sort(bs))) == multiset(Expand(bs))
  {
    if bs != [] {
      var front, last := bs[..|bs| - 1], bs[|bs| - 1];
      Bag.Front(bs);
      SortSamples(front);
      SortOneMore(front, last);
    }
  }

  /** A sum does not depend on the order of its samples. */
  lemma {:induction false} SumPermutation(f: real -> real, a: seq<real>, b: seq<real>)
    requires multiset(a) == multiset(b)
    ensures SumOf(f, a) == SumOf(f, b)
  {
    if a == [] {
      assert |multiset(b)| == |b|;
    } else {
      var n, y := |a| - 1, a[|a| - 1];
      assert y in multiset(b);
      var i :| 0 <= i < |b| && b[i] == y;
      Bag.Front(a);
      Bag.Remove(b, i);
      SumPermutation(f, a[..n], b[..i] + b[i + 1..]);
      SumRemove(f, b, i);
    }
  }

  lemma SumRemove(f: real -> real, b: seq<real>, i: nat)
    requires i < |b|
    ensures SumOf(f, b) == SumOf(f, b[..i] + b[i + 1..]) + f(b[i])
  {
    var front, back := b[..i], b[i + 1..];
    calc {
      SumOf(f, b);
      { assert b == b[..i + 1] + back; }
      SumOf(f, b[..i + 1] + back);
      { SumOfAppend(f, b[..i + 1], back); }
      SumOf(f, b[..i + 1]) + SumOf(f, back);
      { assert b[..i + 1][..i] == front; }
      SumOf(f, front) + f(b[i]) + SumOf(f, back);
      { SumOfAppend(f, front, back); }
      SumOf(f, front + back) + f(b[i]);
    }
  }

  /** A sorted arrangement of a bag of samples is unique. */
  lemma {:induction false} SortedUnique(a: seq<real>, b: seq<real>)
    requires Sorted(a) && Sorted(b) && multiset(a) == multiset(b)
    ensures a == b
  {
    assert |multiset(a)| == |a| && |multiset(b)| == |b|;
    if a != [] {
      var front, rest := a[..|a| - 1], b[..|a| - 1];
      SameLargest(a, b);
      SameLargest(b, a);
      Bag.Front(a);
      Bag.Front(b);
      assert Sorted(front) && Sorted(rest);
      SortedUnique(front, rest);
    }
  }

  lemma SameLargest(a: seq<real>, b: seq<real>)
    requires a != [] && b != [] && Sorted(b) && multiset(a) == multiset(b)
    ensures a[|a| - 1] <= b[|b| - 1]
  {
    var x := a[|a| - 1];
    assert x in multiset(b);
    var i :| 0 <= i < |b| && b[i] == x;
  }

  // ----- what the statistics promise of any sample

  /** Interpolation never leaves the interval between the two neighbours. */
  lemma Interpolates(x: real, y: real, d: real)
    requires x <= y && 0.0 <= d <= 1.0
    ensures x <= Interpolate(x, y, d) <= y
  {
    ProductNonNegative(d, y - x);
    ProductNonNegative(1.0 - d, y - x);
  }

  lemma ProductNonNegative(a: real, b: real)
    requires 0.0 <= a && 0.0 <= b
    ensures 0.0 <= a * b
  {
  }

  lemma RankMonotone(p: real, q: real, n: nat)
    requires 0.0 <= p <= q
    ensures 0.0 <= Rank(p, n) <= Rank(q, n)
  {
    TimesIsProduct(p / 100.0, n + 1);
    TimesIsProduct(q / 100.0, n + 1);
    ProductNonNegative(p / 100.0, (n + 1) as real);
    ProductNonNegative(q / 100.0 - p / 100.0, (n + 1) as real);
  }

  /** A percentile lies between the smallest and the largest sample. */
  lemma PercentileInRange(ys: seq<real>, p: real)
    requires ys != [] && Sorted(ys) && 0.0 <= p
    ensures ys[0] <= NistPercentile(ys, p) <= ys[|ys| - 1]
  {
    var n := Rank(p, |ys|);
    var k := n.Floor;
    if 0 < k < |ys| {
      Interpolates(ys[k - 1], ys[k], n - k as real);
    }
  }

  /** Percentiles grow with the percentage asked for. */
  lemma PercentileMonotone(ys: seq<real>, p: real, q: real)
    requires ys != [] && Sorted(ys) && 0.0 <= p <= q
    ensures NistPercentile(ys, p) <= NistPercentile(ys, q)
  {
    var n, m := Rank(p, |ys|), Rank(q, |ys|);
    RankMonotone(p, q, |ys|);
    var k, l := n.Floor, m.Floor;
    PercentileInRange(ys, p);
    PercentileInRange(ys, q);
    if 0 < k <= l < |ys| {
      var x, y := ys[k - 1], ys[k];
      Interpolates(x, y, n - k as real);
      Interpolates(ys[l - 1], ys[l], m - l as real);
      if k == l {
        InterpolateMonotone(x, y, n - k as real, m - k as real);
      }
    }
  }

  lemma InterpolateMonotone(x: real, y: real, d: real, e: real)
    requires x <= y && d <= e
    ensures Interpolate(x, y, d) <= Interpolate(x, y, e)
  {
  }

  lemma {:induction false} SumBounds(ys: seq<real>, lo: real, hi: real)
    requires forall i :: 0 <= i < |ys| ==> lo <= ys[i] <= hi
    ensures lo * |ys| as real <= SumOf(Identity, ys) <= hi * |ys| as real
  {
    if ys != [] {
      SumBounds(ys[..|ys| - 1], lo, hi);
    }
  }

  lemma MeanInRange(ys: seq<real>)
    requires ys != [] && Sorted(ys)
    ensures ys[0] <= Mean(ys) <= ys[|ys| - 1]
  {
    SumBounds(ys, ys[0], ys[|ys| - 1]);
    var n := |ys| as real;
    DivideBounds(SumOf(Identity, ys), n, ys[0], ys[|ys| - 1]);
  }

  lemma DivideBounds(s: real, n: real, lo: real, hi: real)
    requires n > 0.0 && lo * n <= s <= hi * n
    ensures lo <= s / n <= hi
  {
  }

  /** Where each sample moves by at most h, so does their sum by at most h for each, */
  lemma {:induction false} SumNear(xs: seq<real>, ys: seq<real>, h: real)
    requires |xs| == |ys| && forall i :: 0 <= i < |xs| ==> ys[i] - h <= xs[i] <= ys[i] + h
    ensures SumOf(Identity, ys) - h * |ys| as real <= SumOf(Identity, xs) <= SumOf(Identity, ys) + h * |ys| as real
  {
    if xs != [] {
      var n := |xs| - 1;
      SumNear(xs[..n], ys[..n], h);
      assert h * |ys| as real == h * n as real + h;
    }
  }

  /** and their mean by at most h. */
  lemma MeanNear(xs: seq<real>, ys: seq<real>, h: real)
    requires |xs| == |ys| > 0 && forall i :: 0 <= i < |xs| ==> ys[i] - h <= xs[i] <= ys[i] + h
    ensures Mean(ys) - h <= Mean(xs) <= Mean(ys) + h
  {
    var n := |ys| as real;
    SumNear(xs, ys, h);
    MeanTimes(ys, n);
    var m := Mean(ys);
    assert (m - h) * n == SumOf(Identity, ys) - h * n;
    assert (m + h) * n == SumOf(Identity, ys) + h * n;
    DivideBounds(SumOf(Identity, xs), n, m - h, m + h);
  }

  function Scale(c: real): real -> real
  {
    x => c * x
  }

  lemma {:induction false} SumOfScaled(c: real, ys: seq<real>)
    ensures SumOf(Scale(c), ys) == c * SumOf(Identity, ys)
  {
    if ys != [] {
      SumOfScaled(c, ys[..|ys| - 1]);
    }
  }

  lemma {:induction false} DeviationParts(ys: seq<real>, m: real, c: real, mm: real)
    requires c == 2.0 * m && mm == m * m
    ensures SumOf(SquaredDeviation(m), ys) == SumOf(Square, ys) - SumOf(Scale(c), ys) + Times(mm, |ys|)
  {
    if ys != [] {
      var y := ys[|ys| - 1];
      DeviationParts(ys[..|ys| - 1], m, c, mm);
      SquareOfDifference(y, m, c, mm);
    }
  }

  lemma SquareOfDifference(y: real, m: real, c: real, mm: real)
    requires c == 2.0 * m && mm == m * m
    ensures SquaredDeviation(m)(y) == Square(y) - Scale(c)(y) + mm
  {
  }

  lemma SquareNonNegative(x: real)
    ensures x * x >= 0.0
  {
  }

  lemma {:induction false} DeviationNonNegative(ys: seq<real>, m: real)
    ensures SumOf(SquaredDeviation(m), ys) >= 0.0
  {
    if ys != [] {
      DeviationNonNegative(ys[..|ys| - 1], m);
      SquareNonNegative(ys[|ys| - 1] - m);
    }
  }

  lemma CrossTerm(m: real, n: real, s: real, c: real, mm: real, spread: real)
    requires m * n == s && c == 2.0 * m && mm == m * m && spread == mm * n
    ensures c * s == spread + spread
  {
    assert m * s == m * m * n;
  }

  lemma ScaledTotal(ys: seq<real>, m: real, c: real, mm: real)
    requires c == 2.0 * m && mm == m * m && m * |ys| as real == SumOf(Identity, ys)
    ensures SumOf(Scale(c), ys) == Times(mm, |ys|) + Times(mm, |ys|)
  {
    SumOfScaled(c, ys);
    TimesIsProduct(mm, |ys|);
    CrossTerm(m, |ys| as real, SumOf(Identity, ys), c, mm, Times(mm, |ys|));
  }

  lemma DeviationAbout(ys: seq<real>, m: real, c: real, mm: real)
    requires c == 2.0 * m && mm == m * m && m * |ys| as real == SumOf(Identity, ys)
    ensures SumOf(SquaredDeviation(m), ys) == SumOf(Square, ys) - Times(mm, |ys|)
  {
    ScaledTotal(ys, m, c, mm);
    DeviationParts(ys, m, c, mm);
  }

  lemma DivideDifference(v: real, q: real, c: real, n: real, spread: real)
    requires n > 0.0 && v >= 0.0 && v == q - spread && spread == c * n
    ensures v / n == q / n - c
    ensures v / n >= 0.0
  {
  }

  lemma VarianceAbout(ys: seq<real>, m: real, n: real)
    requires ys != [] && n == |ys| as real && m * n == SumOf(Identity, ys)
    ensures SumOf(SquaredDeviation(m), ys) / n == SumOf(Square, ys) / n - m * m
    ensures SumOf(SquaredDeviation(m), ys) / n >= 0.0
  {
    var mm := m * m;
    DeviationAbout(ys, m, 2.0 * m, mm);
    DeviationNonNegative(ys, m);
    TimesIsProduct(mm, |ys|);
    DivideDifference(SumOf(SquaredDeviation(m), ys), SumOf(Square, ys), mm, n, Times(mm, |ys|));
  }

  lemma MeanTimes(ys: seq<real>, n: real)
    requires ys != [] && n == |ys| as real
    ensures Mean(ys) * n == SumOf(Identity, ys)
  {
  }

  /** Variance is the mean of the squares less the square of the mean, and not negative. */
  lemma VarianceLaw(ys: seq<real>, mean: real)
    requires ys != [] && mean == Mean(ys)
    ensures Variance(ys) == SumOf(Square, ys) / |ys| as real - mean * mean
    ensures Variance(ys) >= 0.0
  {
    MeanTimes(ys, |ys| as real);
    VarianceAbout(ys, mean, |ys| as real);
  }
}
