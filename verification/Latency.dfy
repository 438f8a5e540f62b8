/**
 * latency_utils.py: streaming statistics over a histogram of delays, and the
 * proof that they are the statistics of the sample the histogram stands for.
 */
module Latency {
  import opened Wrappers
  import opened OrderedDict
  import opened Sample
  import opened Numeral

  const QUANTILES: seq<nat> := [25, 50, 75, 95]

  function QuantileKey(p: nat): string
  {
    if p == 50 then "median" else "percentile-" + Digits(p)
  }

  /** Whole part of the rank of percentile p in a sample of n. */
  function WholeRank(p: nat, n: nat): int
  {
    Rank(p as real, n).Floor
  }

  lemma WholeRankIsDivision(p: nat, n: nat)
    ensures WholeRank(p, n) == p * (n + 1) / 100
  {
    var r, t := Rank(p as real, n), p * (n + 1);
    TimesIsProduct(p as real / 100.0, n + 1);
    assert r == p as real * (n + 1) as real / 100.0;
    assert p as real * (n + 1) as real == t as real;
    assert r * 100.0 == t as real;
    var k := t / 100;
    assert k * 100 <= t < k * 100 + 100;
    assert k as real * 100.0 <= r * 100.0 < k as real * 100.0 + 100.0;
  }

  /** No two of the four percentiles share a rank strictly inside the sample. */
  lemma RanksApart(m: nat, n: nat)
    requires m + 1 < |QUANTILES| && n > 0
    ensures WholeRank(QUANTILES[m], n) <= WholeRank(QUANTILES[m + 1], n)
    ensures 0 < WholeRank(QUANTILES[m], n) < n ==> WholeRank(QUANTILES[m], n) < WholeRank(QUANTILES[m + 1], n)
  {
    WholeRankIsDivision(QUANTILES[m], n);
    WholeRankIsDivision(QUANTILES[m + 1], n);
    assert QUANTILES[m] in {25, 50, 75};
    assert QUANTILES[m + 1] >= QUANTILES[m] + 20;
    if n < 4 {
      assert n == 1 || n == 2 || n == 3;
    } else {
      assert QUANTILES[m + 1] * (n + 1) >= QUANTILES[m] * (n + 1) + 100;
    }
  }

  /** A percentile taken up while bucket i is being read has not been overtaken by the buckets before it. */
  lemma NextRank(m: nat, n: nat, k: int, count: nat)
    requires m + 1 < |QUANTILES| && n > 0
    requires k == WholeRank(QUANTILES[m], n)
    requires k > count || (k == 0 && count == 0) || (0 < k < n && k == count)
    ensures
      var next := WholeRank(QUANTILES[m + 1], n);
      next > count || (next == 0 && count == 0)
  {
    RanksApart(m, n);
  }

  lemma RankInSample(m: nat, n: nat)
    requires m < |QUANTILES| && n > 0
    ensures 0 <= WholeRank(QUANTILES[m], n) <= n
  {
    WholeRankIsDivision(QUANTILES[m], n);
    assert QUANTILES[m] * (n + 1) < 100 * (n + 1);
  }

  /** The first m quantiles of a sample, under the names the statistics use. */
  function Quantiles(ys: seq<real>, m: nat): map<string, real>
    requires ys != [] && m <= |QUANTILES|
  {
    if m == 0 then map[]
    else Quantiles(ys, m - 1)[QuantileKey(QUANTILES[m - 1]) := NistPercentile(ys, QUANTILES[m - 1] as real)]
  }

  /** One percentile being tracked through the pass over the buckets. */
  class Percentile {
    const percentile: nat
    const sampleSize: nat
    const n: real
    const k: int
    const d: real
    const key: string
    var value: Option<real>
    var isCalculated: bool

    constructor (percentile: nat, sampleSize: nat)
      ensures this.percentile == percentile && this.sampleSize == sampleSize
      ensures Wellformed()
      ensures value == None && !isCalculated
    {
      this.value := None;
      this.isCalculated := false;
      this.percentile := percentile;
      this.sampleSize := sampleSize;
      var rank := Times(percentile as real / 100.0, sampleSize + 1);
      this.n := rank;
      this.k := rank.Floor;
      this.d := rank - rank.Floor as real;
      this.key := QuantileKey(percentile);
    }

    ghost predicate Wellformed()
    {
      && n == Rank(percentile as real, sampleSize)
      && k == WholeRank(percentile, sampleSize)
      && d == n - k as real
      && key == QuantileKey(percentile)
    }

    /** Is one more bucket, ending at `count`, enough to know this percentile? */
    ghost predicate Ready(count: int)
      reads this
    {
      value.Some? || k == 0 || (count >= sampleSize && k >= sampleSize) || k as real + d < count as real
    }

    ghost function NextValue(histValue: real): real
      reads this
    {
      if value.Some? then Interpolate(value.value, histValue, d) else histValue
    }

    method FindValue(count: int, histValue: real)
      modifies this
      ensures value == Some(old(NextValue(histValue)))
      ensures isCalculated == (old(isCalculated) || old(Ready(count)))
    {
      if value.Some? {
        value := Some(value.value + d * (histValue - value.value));
        isCalculated := true;
      } else if k == 0 {
        value := Some(histValue);
        isCalculated := true;
      } else if count >= sampleSize && k >= sampleSize {
        value := Some(histValue);
        isCalculated := true;
      } else if k as real + d < count as real {
        value := Some(histValue);
        isCalculated := true;
      } else {
        value := Some(histValue);
      }
    }

    /** Has Y_k in hand at count == k, or is still beyond the buckets counted so far. */
    ghost predicate Waiting(p: nat, ys: seq<real>, count: nat)
      reads this
    {
      || (Untouched(p, |ys|) && (k > count || (k == 0 && count == 0)))
      || (Pending(p, ys) && k == count)
    }

    /** What the next call of FindValue, with bucket i, makes of a waiting percentile it reaches. */
    lemma SettledBy(bs: seq<Bucket>, i: nat, done: nat)
      requires i < |bs| && Positive(bs) && Expand(bs) != []
      requires done < |QUANTILES| && Waiting(QUANTILES[done], Expand(bs), CountTo(bs, i)) && k <= CountTo(bs, i + 1)
      ensures
        var ys, x, curr := Expand(bs), bs[i].value, CountTo(bs, i + 1);
        if Ready(curr) then Quantiles(ys, done + 1) == Quantiles(ys, done)[key := NextValue(x)]
        else k == curr && 0 < k < |ys| && ys[k - 1] == x
    {
      ExpandPrefix(bs, i);
      if value.None? {
        BucketSettles(bs, i, k, d);
      } else {
        NextBucketSettles(bs, i, k, d);
      }
    }

    /** FindValue, called at the bucket where the pass first reaches rank k. */
    method FindValueAt(count: int, histValue: real, ghost bs: seq<Bucket>, ghost i: nat, ghost done: nat)
      requires i < |bs| && Positive(bs) && Expand(bs) != [] && done < |QUANTILES|
      requires Waiting(QUANTILES[done], Expand(bs), CountTo(bs, i)) && k <= count
      requires count == CountTo(bs, i + 1) && histValue == bs[i].value
      modifies this
      ensures isCalculated ==>
                value.Some? && Quantiles(Expand(bs), done + 1) == Quantiles(Expand(bs), done)[key := value.value]
      ensures !isCalculated ==> Waiting(QUANTILES[done], Expand(bs), count) && k == count
    {
      SettledBy(bs, i, done);
      FindValue(count, histValue);
    }

    /** Not looked at yet. */
    ghost predicate Untouched(p: nat, n: nat)
      reads this
    {
      percentile == p && sampleSize == n && Wellformed() && value == None && !isCalculated
    }

    /** Holds Y_k, and needs the next bucket for Y_{k+1}. */
    ghost predicate Pending(p: nat, ys: seq<real>)
      reads this
    {
      && percentile == p && sampleSize == |ys| && Wellformed() && !isCalculated
      && 0 < k < |ys|
      && value == Some(ys[k - 1])
    }
  }

  /** The queue of percentiles in pass two: `done` of them are settled, one is current, the rest untouched. */
  ghost predicate Tracked(all: seq<Percentile>, percentile: Percentile?, percentiles: seq<Percentile>,
                          quantiles: map<string, real>, ys: seq<real>, done: nat)
    requires ys != []
    reads all
  {
    && |all| == |QUANTILES| && Distinct(all)
    && done <= |QUANTILES|
    && quantiles == Quantiles(ys, done)
    && (if done == |QUANTILES| then percentile == null && percentiles == []
        else percentile == all[done] && percentiles == all[done + 1..])
    && forall j :: done < j < |QUANTILES| ==> all[j].Untouched(QUANTILES[j], |ys|)
  }

  // ----- what a bucket settles

  /** Reaching rank k inside bucket i, that bucket is enough unless it ends exactly at k < N. */
  lemma BucketSettles(bs: seq<Bucket>, i: nat, k: int, d: real)
    requires i < |bs| && Positive(bs) && 0.0 <= d < 1.0
    requires CountTo(bs, i) < k || (k == 0 && CountTo(bs, i) == 0)
    requires k <= CountTo(bs, i + 1)
    ensures |Expand(bs)| == Total(bs) > 0
    ensures
      var n, curr := Total(bs), CountTo(bs, i + 1);
      if k == 0 || (curr >= n && k >= n) || k as real + d < curr as real
      then ValueAtRank(Expand(bs), k, d) == bs[i].value
      else k == curr && 0 < k < n && Expand(bs)[k - 1] == bs[i].value
  {
    var prev, curr := CountTo(bs, i), CountTo(bs, i + 1);
    ExpandPrefix(bs, i + 1);
    ExpandAt(bs, i, prev);
    if k > 0 {
      ExpandAt(bs, i, k - 1);
    }
    if k < curr {
      ExpandAt(bs, i, k);
    }
  }

  /** A pending percentile is settled by the next bucket, whatever its size. */
  lemma NextBucketSettles(bs: seq<Bucket>, i: nat, k: int, d: real)
    requires i < |bs| && Positive(bs)
    requires k == CountTo(bs, i) > 0
    ensures 0 < k < |Expand(bs)| == Total(bs)
    ensures ValueAtRank(Expand(bs), k, d) == Interpolate(Expand(bs)[k - 1], bs[i].value, d)
  {
    ExpandAt(bs, i, k);
  }

  // ----- mode

  /** Those of the first i keys that have a given count, in their original order. */
  function KeysWithCount(keys: seq<string>, vals: map<string, nat>, count: nat, i: nat): (r: seq<string>)
    requires i <= |keys| && forall j :: 0 <= j < |keys| ==> keys[j] in vals
    ensures forall k | k in r :: k in keys && k in vals && vals[k] == count
  {
    if i == 0 then []
    else KeysWithCount(keys, vals, count, i - 1) + if vals[keys[i - 1]] == count then [keys[i - 1]] else []
  }

  function MaxCount(keys: seq<string>, vals: map<string, nat>, i: nat): nat
    requires i <= |keys| && forall j :: 0 <= j < |keys| ==> keys[j] in vals
  {
    if i == 0 then 0
    else
      var m, c := MaxCount(keys, vals, i - 1), vals[keys[i - 1]];
      if c > m then c else m
  }

  /** The modes among the first i keys. */
  function ModeKeys(keys: seq<string>, vals: map<string, nat>, i: nat): (r: seq<string>)
    requires i <= |keys| && forall j :: 0 <= j < |keys| ==> keys[j] in vals
    ensures forall k | k in r :: k in keys && k in vals
  {
    KeysWithCount(keys, vals, MaxCount(keys, vals, i), i)
  }

  lemma {:induction false} NoKeysWithCount(keys: seq<string>, vals: map<string, nat>, count: nat, i: nat)
    requires i <= |keys| && forall j :: 0 <= j < |keys| ==> keys[j] in vals
    requires forall j :: 0 <= j < i ==> vals[keys[j]] < count
    ensures KeysWithCount(keys, vals, count, i) == []
  {
    if i > 0 {
      NoKeysWithCount(keys, vals, count, i - 1);
    }
  }

  lemma {:induction false} MaxCountBounds(keys: seq<string>, vals: map<string, nat>, i: nat)
    requires i <= |keys| && forall j :: 0 <= j < |keys| ==> keys[j] in vals
    ensures forall j :: 0 <= j < i ==> vals[keys[j]] <= MaxCount(keys, vals, i)
    ensures i > 0 ==> exists j :: 0 <= j < i && vals[keys[j]] == MaxCount(keys, vals, i)
  {
    if i > 0 {
      MaxCountBounds(keys, vals, i - 1);
      if i > 1 && vals[keys[i - 1]] <= MaxCount(keys, vals, i - 1) {
        var j :| 0 <= j < i - 1 && vals[keys[j]] == MaxCount(keys, vals, i - 1);
        assert vals[keys[j]] == MaxCount(keys, vals, i);
      } else {
        assert vals[keys[i - 1]] == MaxCount(keys, vals, i);
      }
    }
  }

  /**
   * Where the keys of a count come from: strictly increasing positions, and every
   * position that has that count.
   */
  lemma {:induction false} KeysWithCountPositions(keys: seq<string>, vals: map<string, nat>, count: nat, i: nat)
    returns (at: seq<nat>)
    requires i <= |keys| && forall j :: 0 <= j < |keys| ==> keys[j] in vals
    ensures |at| == |KeysWithCount(keys, vals, count, i)|
    ensures forall l :: 0 <= l < |at| ==> at[l] < i && keys[at[l]] == KeysWithCount(keys, vals, count, i)[l]
    ensures forall l, l' :: 0 <= l < l' < |at| ==> at[l] < at[l']
    ensures forall j :: 0 <= j < i && vals[keys[j]] == count ==> j in at
  {
    at := [];
    if i > 0 {
      at := KeysWithCountPositions(keys, vals, count, i - 1);
      if vals[keys[i - 1]] == count {
        at := at + [i - 1];
      }
    }
  }

  /** What one more key does to the list of modes. */
  function NextMode(mode: seq<string>, vals: map<string, nat>, k: string): seq<string>
    requires k in vals && (mode != [] ==> mode[0] in vals)
  {
    if mode == [] || vals[k] > vals[mode[0]] then [k]
    else if vals[k] == vals[mode[0]] then mode + [k]
    else mode
  }

  /** Any mode shows the greatest count so far. */
  lemma ModeHead(keys: seq<string>, vals: map<string, nat>, i: nat)
    requires 0 < i <= |keys| && forall j :: 0 <= j < |keys| ==> keys[j] in vals
    ensures
      var mode := ModeKeys(keys, vals, i);
      mode != [] && mode[0] in vals && vals[mode[0]] == MaxCount(keys, vals, i)
  {
    var m := MaxCount(keys, vals, i);
    MaxCountBounds(keys, vals, i);
    var j :| 0 <= j < i && vals[keys[j]] == m;
    var at := KeysWithCountPositions(keys, vals, m, i);
    assert j in at;
    var mode := KeysWithCount(keys, vals, m, i);
    assert mode[0] in mode;
  }

  /** One more key replaces the modes, joins them or leaves them alone. */
  lemma ModeStep(keys: seq<string>, vals: map<string, nat>, i: nat)
    requires i < |keys| && forall j :: 0 <= j < |keys| ==> keys[j] in vals && vals[keys[j]] > 0
    ensures
      var mode := ModeKeys(keys, vals, i);
      && (mode != [] ==> mode[0] in vals)
      && ModeKeys(keys, vals, i + 1) == NextMode(mode, vals, keys[i])
  {
    if i > 0 {
      ModeHead(keys, vals, i);
    }
    if vals[keys[i]] > MaxCount(keys, vals, i) {
      MaxCountBounds(keys, vals, i);
      NoKeysWithCount(keys, vals, vals[keys[i]], i);
    }
  }

  // ----- the statistics

  datatype Stats = Stats(mode: seq<real>, mean: real, minimum: real, maximum: real,
                         quantiles: map<string, real>, variance: real)

  type Float = string -> Option<real>

  ghost predicate Numeric(float: Float, keys: seq<string>)
  {
    forall k | k in keys :: float(k).Some?
  }

  /** float(k) where that is a number. */
  function Number(float: Float, k: string): real
  {
    match float(k)
    case Some(x) => x
    case None => 0.0
  }

  /** `[float(x) for x in keys]` */
  function Numbers(float: Float, keys: seq<string>): seq<real>
  {
    seq(|keys|, i requires 0 <= i < |keys| => Number(float, keys[i]))
  }

  /** The histogram's items with their keys read as numbers, in dictionary order. */
  function Buckets(float: Float, keys: seq<string>, vals: map<string, nat>): (bs: seq<Bucket>)
    requires forall k | k in keys :: k in vals
    ensures |bs| == |keys|
    ensures forall i :: 0 <= i < |keys| ==> keys[i] in vals && bs[i] == Bucket(Number(float, keys[i]), vals[keys[i]])
  {
    seq(|keys|, i requires 0 <= i < |keys| => assert keys[i] in keys; Bucket(Number(float, keys[i]), vals[keys[i]]))
  }

  ghost predicate IsHistogram(h: Dict<string, nat>)
  {
    h.Valid() && forall k | k in h.keys :: k in h.vals && h.vals[k] > 0
  }

  /** The sample a histogram stands for, in increasing order. */
  function SampleOf(float: Float, h: Dict<string, nat>): seq<real>
    requires IsHistogram(h)
  {
    Expand(Sort(Buckets(float, h.keys, h.vals)))
  }

  /** What the statistics of a sample should be. */
  function StatsOf(ys: seq<real>, mode: seq<real>): Stats
    requires ys != []
  {
    Stats(mode, Mean(ys), ys[0], ys[|ys| - 1], Quantiles(ys, |QUANTILES|), Variance(ys))
  }

  lemma SortKeepsPositive(bs: seq<Bucket>)
    requires Positive(bs)
    ensures Positive(Sort(bs))
  {
    forall i | 0 <= i < |Sort(bs)| ensures Sort(bs)[i].count > 0 {
      assert Sort(bs)[i] in multiset(bs);
    }
  }

  lemma SampleEnds(bs: seq<Bucket>)
    requires bs != [] && Positive(bs)
    ensures |Expand(bs)| == Total(bs) > 0
    ensures Expand(bs)[0] == bs[0].value
    ensures Expand(bs)[Total(bs) - 1] == bs[|bs| - 1].value
  {
    ExpandPrefix(bs, 1);
    ExpandAt(bs, 0, 0);
    ExpandAt(bs, |bs| - 1, Total(bs) - 1);
  }

  /** Running totals over the first i buckets: f summed over the samples, and their number. */
  ghost predicate Totals(f: real -> real, bs: seq<Bucket>, i: nat, sum: real, size: nat)
  {
    i <= |bs| && sum == WeightedTo(f, bs, i) && size == CountTo(bs, i)
  }

  lemma TotalsStep(f: real -> real, bs: seq<Bucket>, i: nat, sum: real, size: nat, y: real, c: nat)
    requires i < |bs| && Totals(f, bs, i, sum, size) && f(bs[i].value) == y && bs[i].count == c
    ensures Totals(f, bs, i + 1, sum + Times(y, c), size + c)
  {
  }

  class Histogram {
    const histDict: Dict<string, nat>

    constructor (histDict: Dict<string, nat>)
      ensures this.histDict == histDict
    {
      this.histDict := histDict;
    }

    /** Pass one: mode, weighted sum and sample size, or None at a key that is no number. */
    method PassOne(float: Float) returns (r: Option<(seq<string>, real, nat)>)
      requires IsHistogram(histDict)
      ensures r.Some? <==> Numeric(float, histDict.keys)
      ensures r.Some? ==>
                && r.value.0 == ModeKeys(histDict.keys, histDict.vals, |histDict.keys|)
                && r.value.1 == WeightedTo(Identity, Buckets(float, histDict.keys, histDict.vals), |histDict.keys|)
                && r.value.2 == Total(Buckets(float, histDict.keys, histDict.vals))
    {
      var keys, vals := histDict.keys, histDict.vals;
      ghost var bs := Buckets(float, keys, vals);
      var mode: seq<string> := [];
      var meanNum := 0.0;
      var sampleSize := 0;
      for i := 0 to |keys|
        invariant forall j :: 0 <= j < i ==> float(keys[j]).Some?
        invariant mode == ModeKeys(keys, vals, i)
        invariant Totals(Identity, bs, i, meanNum, sampleSize)
      {
        var k := keys[i];
        assert k in keys;
        var x := float(k);
        if x.None? {
          return None;
        }
        ModeStep(keys, vals, i);
        mode := NextMode(mode, vals, k);
        TotalsStep(Identity, bs, i, meanNum, sampleSize, x.value, vals[k]);
        meanNum := meanNum + Times(x.value, vals[k]);
        sampleSize := sampleSize + vals[k];
      }
      return Some((mode, meanNum, sampleSize));
    }

    /** One turn of the inner loop: bucket i at the current percentile, then the next one if it is settled. */
    method Turn(current: Percentile, rest: seq<Percentile>, settled: map<string, real>, currCount: nat,
                histValue: real, ghost bs: seq<Bucket>, ghost i: nat, ghost done: nat, ghost all: seq<Percentile>)
      returns (percentile: Percentile?, percentiles: seq<Percentile>, quantiles: map<string, real>, more: bool)
      requires i < |bs| && Positive(bs) && currCount == CountTo(bs, i + 1) && histValue == bs[i].value
      requires Expand(bs) != [] && Tracked(all, current, rest, settled, Expand(bs), done)
      requires current.Waiting(QUANTILES[done], Expand(bs), CountTo(bs, i)) && current.k <= currCount
      modifies current
      ensures Tracked(all, percentile, percentiles, quantiles, Expand(bs), if more then done + 1 else done)
      ensures !more ==>
                && percentile == current
                && percentile.Waiting(QUANTILES[done], Expand(bs), currCount)
                && percentile.k == currCount
      ensures more && percentile != null ==> percentile.Waiting(QUANTILES[done + 1], Expand(bs), CountTo(bs, i))
    {
      percentile, percentiles, quantiles, more := current, rest, settled, false;
      percentile.FindValueAt(currCount, histValue, bs, i, done);
      if percentile.isCalculated {
        more := true;
        quantiles := quantiles[percentile.key := percentile.value.value];
        if |percentiles| > 0 {
          ExpandPrefix(bs, i);
          NextRank(done, |Expand(bs)|, percentile.k, CountTo(bs, i));
          percentile, percentiles := percentiles[0], percentiles[1..];
        } else {
          percentile := null;
        }
      }
    }

    /** The inner loop of pass two: let bucket i settle every percentile it can. */
    method Settle(first: Percentile?, rest: seq<Percentile>, settled: map<string, real>, currCount: nat,
                  histValue: real, ghost bs: seq<Bucket>, ghost i: nat, ghost start: nat, ghost all: seq<Percentile>)
      returns (percentile: Percentile?, percentiles: seq<Percentile>, quantiles: map<string, real>, ghost done: nat)
      requires i < |bs| && Positive(bs) && currCount == CountTo(bs, i + 1) && histValue == bs[i].value
      requires Expand(bs) != [] && Tracked(all, first, rest, settled, Expand(bs), start)
      requires first != null ==> first.Waiting(QUANTILES[start], Expand(bs), CountTo(bs, i))
      modifies all
      ensures Tracked(all, percentile, percentiles, quantiles, Expand(bs), done)
      ensures percentile != null ==>
                && percentile.Waiting(QUANTILES[done], Expand(bs), currCount)
                && percentile.k >= currCount > 0
    {
      percentile, percentiles, quantiles, done := first, rest, settled, start;
      while percentile != null && currCount >= percentile.k
        invariant Tracked(all, percentile, percentiles, quantiles, Expand(bs), done)
        invariant percentile != null ==> percentile.Waiting(QUANTILES[done], Expand(bs), CountTo(bs, i))
        decreases |QUANTILES| - done
      {
        var more;
        percentile, percentiles, quantiles, more :=
          Turn(percentile, percentiles, quantiles, currCount, histValue, bs, i, done, all);
        if !more {
          break;
        }
        done := done + 1;
      }
    }

    /** `[Percentile(q, sample_size) for q in quantiles]` */
    method AllPercentiles(sampleSize: nat) returns (percentiles: seq<Percentile>)
      ensures |percentiles| == |QUANTILES| && Distinct(percentiles)
      ensures forall j :: 0 <= j < |QUANTILES| ==>
                fresh(percentiles[j]) && percentiles[j].Untouched(QUANTILES[j], sampleSize)
    {
      percentiles := [];
      for q := 0 to |QUANTILES|
        invariant |percentiles| == q && Distinct(percentiles)
        invariant forall j :: 0 <= j < q ==>
                    fresh(percentiles[j]) && percentiles[j].Untouched(QUANTILES[j], sampleSize)
      {
        var p := new Percentile(QUANTILES[q], sampleSize);
        percentiles := percentiles + [p];
      }
    }

    /** Pass two: variance and the four percentiles over the sorted buckets. */
    method PassTwo(bs: seq<Bucket>, mean: real, sampleSize: nat)
      returns (quantiles: map<string, real>, stddev: real)
      requires bs != [] && Positive(bs) && sampleSize == Total(bs)
      ensures Expand(bs) != []
      ensures quantiles == Quantiles(Expand(bs), |QUANTILES|)
      ensures stddev == SumOf(SquaredDeviation(mean), Expand(bs))
    {
      ghost var ys := Expand(bs);
      var deviation := SquaredDeviation(mean);
      SampleEnds(bs);
      stddev := 0.0;
      quantiles := map[];
      var percentiles := AllPercentiles(sampleSize);
      ghost var all := percentiles;
      var percentile: Percentile? := percentiles[0];
      percentiles := percentiles[1..];
      RankInSample(0, sampleSize);
      var currCount: nat := 0;
      ghost var done: nat := 0;
      for i := 0 to |bs|
        invariant Totals(deviation, bs, i, stddev, currCount)
        invariant Tracked(all, percentile, percentiles, quantiles, ys, done)
        invariant percentile != null ==> percentile.Waiting(QUANTILES[done], ys, currCount)
        invariant percentile != null && i > 0 ==> percentile.k >= currCount > 0
        invariant forall j :: 0 <= j < |all| ==> fresh(all[j])
      {
        TotalsStep(deviation, bs, i, stddev, currCount, deviation(bs[i].value), bs[i].count);
        stddev := stddev + Times(deviation(bs[i].value), bs[i].count);
        currCount := currCount + bs[i].count;
        percentile, percentiles, quantiles, done :=
          Settle(percentile, percentiles, quantiles, currCount, bs[i].value, bs, i, done, all);
      }
      if percentile != null {
        RankInSample(done, sampleSize);
      }
      WeightedSumIsSampleSum(deviation, bs, |bs|);
    }

    method GetStats(float: Float) returns (stats: Option<Stats>)
      requires IsHistogram(histDict)
      ensures stats.Some? <==> histDict.keys != [] && Numeric(float, histDict.keys)
      ensures stats.Some? ==>
                && SampleOf(float, histDict) != []
                && stats.value == StatsOf(SampleOf(float, histDict),
                                          Numbers(float, ModeKeys(histDict.keys, histDict.vals, |histDict.keys|)))
    {
      var passOne := PassOne(float);
      if passOne.None? {
        return None;
      }
      var (mode, meanNum, sampleSize) := passOne.value;
      ghost var items := Buckets(float, histDict.keys, histDict.vals);
      if sampleSize == 0 {
        if items != [] {
          SampleEnds(items);
        }
        return None;
      }
      var sortedHist := Sort(Buckets(float, histDict.keys, histDict.vals));
      SortKeepsPositive(items);
      SampleEnds(sortedHist);
      SortedSums(items);
      var mean := meanNum / (1.0 * sampleSize as real);
      var quantiles, stddev := PassTwo(sortedHist, mean, sampleSize);
      return Some(Stats(Numbers(float, mode), mean, sortedHist[0].value, sortedHist[|sortedHist| - 1].value,
                        quantiles, stddev / sampleSize as real));
    }
  }

  /** Summing the items in dictionary order is summing the sorted sample. */
  lemma SortedSums(items: seq<Bucket>)
    ensures Total(items) == Total(Sort(items))
    ensures WeightedTo(Identity, items, |items|) == SumOf(Identity, Expand(Sort(items)))
  {
    SortSamples(items);
    WeightedSumIsSampleSum(Identity, items, |items|);
    SumPermutation(Identity, Expand(items), Expand(Sort(items)));
    ExpandPrefix(items, 0);
    ExpandPrefix(Sort(items), 0);
    assert |multiset(Expand(items))| == |multiset(Expand(Sort(items)))|;
  }

  // ----- what the statistics mean

  /** The sample is the histogram written out, in the only increasing order there is. */
  lemma SampleMeaning(float: Float, h: Dict<string, nat>, ys: seq<real>)
    requires IsHistogram(h)
    ensures Sorted(SampleOf(float, h))
    ensures multiset(SampleOf(float, h)) == multiset(Expand(Buckets(float, h.keys, h.vals)))
    ensures Sorted(ys) && multiset(ys) == multiset(Expand(Buckets(float, h.keys, h.vals))) ==> ys == SampleOf(float, h)
  {
    var bs := Buckets(float, h.keys, h.vals);
    SortSorted(bs);
    ExpandSorted(Sort(bs), |bs|);
    SortSamples(bs);
    if Sorted(ys) && multiset(ys) == multiset(Expand(bs)) {
      SortedUnique(ys, SampleOf(float, h));
    }
  }

  /** The four names under which the percentiles are reported. */
  lemma QuantileTable(ys: seq<real>)
    requires ys != []
    ensures Quantiles(ys, |QUANTILES|) ==
              map["percentile-25" := NistPercentile(ys, 25.0), "median" := NistPercentile(ys, 50.0),
                  "percentile-75" := NistPercentile(ys, 75.0), "percentile-95" := NistPercentile(ys, 95.0)]
  {
    assert QuantileKey(25) == "percentile-25" && QuantileKey(50) == "median";
    assert QuantileKey(75) == "percentile-75" && QuantileKey(95) == "percentile-95";
    assert Quantiles(ys, 1) == map["percentile-25" := NistPercentile(ys, 25.0)];
    assert Quantiles(ys, 2) == Quantiles(ys, 1)["median" := NistPercentile(ys, 50.0)];
    assert Quantiles(ys, 3) == Quantiles(ys, 2)["percentile-75" := NistPercentile(ys, 75.0)];
  }

  lemma HalfRank(n: nat)
    ensures Rank(50.0, n) == (n + 1) as real / 2.0
  {
    TimesIsProduct(50.0 / 100.0, n + 1);
  }

  /** The median is the middle sample, or half-way between the middle two. */
  lemma MedianIsMiddle(ys: seq<real>)
    requires ys != []
    ensures var half := |ys| / 2;
            NistPercentile(ys, 50.0) == if |ys| % 2 == 1 then ys[half] else (ys[half - 1] + ys[half]) / 2.0
  {
    HalfRank(|ys|);
    var half := |ys| / 2;
    if |ys| % 2 == 1 {
      assert Rank(50.0, |ys|) == (half + 1) as real;
      assert ((half + 1) as real).Floor == half + 1;
    } else {
      assert Rank(50.0, |ys|) == half as real + 0.5;
      assert (half as real + 0.5).Floor == half;
      Midpoint(ys[half - 1], ys[half]);
    }
  }

  lemma Midpoint(x: real, y: real)
    ensures Interpolate(x, y, 0.5) == (x + y) / 2.0
  {
  }

  /** min <= p25 <= median <= p75 <= p95 <= max, the mean lies between them, and the variance is not negative. */
  lemma StatsOrdered(ys: seq<real>, mode: seq<real>)
    requires ys != [] && Sorted(ys)
    ensures
      var st := StatsOf(ys, mode);
      && "percentile-25" in st.quantiles && "median" in st.quantiles
      && "percentile-75" in st.quantiles && "percentile-95" in st.quantiles
      && st.minimum <= st.quantiles["percentile-25"] <= st.quantiles["median"]
      && st.quantiles["median"] <= st.quantiles["percentile-75"] <= st.quantiles["percentile-95"] <= st.maximum
      && st.minimum <= st.mean <= st.maximum
      && st.minimum in ys && st.maximum in ys && (forall y :: y in ys ==> st.minimum <= y <= st.maximum)
      && 0.0 <= st.variance
  {
    QuantileTable(ys);
    PercentileInRange(ys, 25.0);
    PercentileMonotone(ys, 25.0, 50.0);
    PercentileMonotone(ys, 50.0, 75.0);
    PercentileMonotone(ys, 75.0, 95.0);
    PercentileInRange(ys, 95.0);
    MeanInRange(ys);
    VarianceLaw(ys, Mean(ys));
  }

  /** The modes are exactly the keys of greatest count, in dictionary order. */
  lemma ModesAreGreatest(h: Dict<string, nat>) returns (at: seq<nat>)
    requires IsHistogram(h)
    ensures
      var modes := ModeKeys(h.keys, h.vals, |h.keys|);
      && |at| == |modes|
      && (forall l :: 0 <= l < |at| ==> at[l] < |h.keys| && h.keys[at[l]] == modes[l])
      && (forall l, l' :: 0 <= l < l' < |at| ==> at[l] < at[l'])
    ensures forall j :: 0 <= j < |h.keys| ==>
              h.keys[j] in h.vals
              && (j in at <==> forall i :: 0 <= i < |h.keys| ==>
                                 h.keys[i] in h.vals && h.vals[h.keys[i]] <= h.vals[h.keys[j]])
  {
    var keys, vals, n := h.keys, h.vals, |h.keys|;
    assert forall j :: 0 <= j < n ==> keys[j] in keys;
    var m := MaxCount(keys, vals, n);
    MaxCountBounds(keys, vals, n);
    at := KeysWithCountPositions(keys, vals, m, n);
    forall j | 0 <= j < n
      ensures j in at <==> forall i :: 0 <= i < n ==> keys[i] in vals && vals[keys[i]] <= vals[keys[j]]
    {
      var best :| 0 <= best < n && vals[keys[best]] == m;
      if j in at {
        var l :| 0 <= l < |at| && at[l] == j;
        var modes := KeysWithCount(keys, vals, m, n);
        assert modes[l] in modes;
      }
    }
  }
}
