/**
 * powstream_utils.py: the fold of owamp output lines into counters and
 * histograms, and what the latency statistics say of the packets themselves.
 */
module Powstream {
  import opened Wrappers
  import opened OrderedDict
  import opened Decimal
  import opened Modes
  import Sample
  import Latency

  /** The fields of a line that matched the packet pattern; an absent error field is None. */
  datatype Packet = Packet(seqNumber: nat, srcTs: nat, srcSync: bool, srcErr: Option<real>,
                           dstTs: nat, dstSync: bool, dstErr: Option<real>, ttl: string)

  datatype Results = Results(sent: nat, received: nat, duplicated: int, reordered: nat, lost: int,
                             latency: Dict<string, nat>, ttls: Dict<string, nat>,
                             raw: Option<seq<Packet>>, maxClockError: Option<real>)

  const TIME_SCALE: real := 0.001
  const CLOCK_ERROR_DIGITS: nat := 2
  const DELAY_BUCKET_DIGITS: nat := 2

  // ----- what the output says, packet by packet

  /** The packets among the first i lines. */
  function Matched(lines: seq<Option<Packet>>, i: nat): seq<Packet>
    requires i <= |lines|
  {
    if i == 0 then []
    else if lines[i - 1].Some? then Matched(lines, i - 1) + [lines[i - 1].value]
    else Matched(lines, i - 1)
  }

  predicate Arrived(line: Option<Packet>)
  {
    line.Some? && line.value.dstTs != 0
  }

  /** The packets among the first i lines that were not lost. */
  function Received(lines: seq<Option<Packet>>, i: nat): seq<Packet>
    requires i <= |lines|
  {
    if i == 0 then []
    else if Arrived(lines[i - 1]) then Received(lines, i - 1) + [lines[i - 1].value]
    else Received(lines, i - 1)
  }

  /** A packet's delay in buckets, rounded as the histogram rounds it. */
  function Delay(p: Packet, width: real): real
    requires width != 0.0
  {
    RoundTo((p.dstTs as real - p.srcTs as real) / 4294967296.0 / width, DELAY_BUCKET_DIGITS)
  }

  function DelayKey(p: Packet, width: real): string
    requires width != 0.0
  {
    Fixed(Delay(p, width), DELAY_BUCKET_DIGITS)
  }

  function DelayKeyer(width: real): Packet -> string
    requires width != 0.0
  {
    p => DelayKey(p, width)
  }

  /** Something of every packet, in order. */
  function Each<T>(f: Packet -> T, ps: seq<Packet>): (xs: seq<T>)
    ensures |xs| == |ps|
    ensures forall i :: 0 <= i < |ps| ==> xs[i] == f(ps[i])
  {
    seq(|ps|, i requires 0 <= i < |ps| => f(ps[i]))
  }

  lemma EachAppend<T>(f: Packet -> T, ps: seq<Packet>, p: Packet)
    ensures Each(f, ps + [p]) == Each(f, ps) + [f(p)]
  {
  }

  function DelayKeys(ps: seq<Packet>, width: real): (ks: seq<string>)
    requires width != 0.0
    ensures |ks| == |ps|
  {
    Each(DelayKeyer(width), ps)
  }

  function Delays(ps: seq<Packet>, width: real): (xs: seq<real>)
    requires width != 0.0
    ensures |xs| == |ps|
  {
    Each(p => Delay(p, width), ps)
  }

  function Ttl(p: Packet): string { p.ttl }

  function Ttls(ps: seq<Packet>): (ks: seq<string>)
    ensures |ks| == |ps|
  {
    Each(Ttl, ps)
  }

  /** How often a packet has a smaller sequence number than the one received just before it. */
  function Reorders(ps: seq<Packet>): nat
  {
    if |ps| < 2 then 0
    else Reorders(ps[..|ps| - 1]) + if ps[|ps| - 1].seqNumber < ps[|ps| - 2].seqNumber then 1 else 0
  }

  function ClockError(p: Packet): Option<real>
  {
    if p.srcErr.Some? && p.dstErr.Some? then Some(p.srcErr.value + p.dstErr.value) else None
  }

  function Larger(a: Option<real>, b: Option<real>): Option<real>
  {
    if b.None? then a else if a.None? || b.value > a.value then b else a
  }

  function MaxClockError(ps: seq<Packet>): Option<real>
  {
    if ps == [] then None else Larger(MaxClockError(ps[..|ps| - 1]), ClockError(ps[|ps| - 1]))
  }

  // ----- histograms

  /** One more of a key: `h[k] += 1`, or `h[k] = 1` the first time. */
  function Bump(h: Dict<string, nat>, k: string): (d: Dict<string, nat>)
    requires h.Valid()
    ensures d.Valid()
  {
    if k in h.vals then h.Put(k, h.vals[k] + 1) else h.Put(k, 1)
  }

  function Tally(ks: seq<string>): (h: Dict<string, nat>)
    ensures h.Valid()
  {
    if ks == [] then Empty() else Bump(Tally(ks[..|ks| - 1]), ks[|ks| - 1])
  }

  lemma TallyAppend(ks: seq<string>, k: string)
    ensures Tally(ks + [k]) == Bump(Tally(ks), k)
  {
  }

  /** A tally counts each key as often as it occurs, and holds no other. */
  lemma {:induction false} TallyCounts(ks: seq<string>)
    ensures forall k :: k in ks <==> k in Tally(ks).vals
    ensures forall k :: k in ks ==> Tally(ks).vals[k] == multiset(ks)[k]
  {
    if ks != [] {
      var front, last := ks[..|ks| - 1], ks[|ks| - 1];
      TallyCounts(front);
      assert ks == front + [last];
    }
  }

  /** A tally lists its keys in the order in which they first occurred. */
  lemma {:induction false} TallyOrder(ks: seq<string>) returns (at: seq<nat>)
    ensures Places(ks, Tally(ks).keys, at)
  {
    at := [];
    if ks != [] {
      var front, last := ks[..|ks| - 1], ks[|ks| - 1];
      at := TallyOrder(front);
      TallyCounts(front);
      assert ks == front + [last];
      if last in Tally(front).vals {
        PlacesKept(front, Tally(front).keys, at, last);
      } else {
        PlacesNew(front, Tally(front).keys, at, last);
        at := at + [|front|];
      }
    }
  }

  // ----- the parser

  method ParseRawOwampOutput(lines: seq<Option<Packet>>, rawOutput: bool, bucketWidth: real) returns (r: Results)
    requires bucketWidth != 0.0
    ensures r.sent == |Matched(lines, |lines|)|
    ensures r.received == |Received(lines, |lines|)|
    ensures r.lost == r.sent - r.received
    ensures r.duplicated == 0
    ensures r.reordered == Reorders(Received(lines, |lines|))
    ensures r.latency == Tally(DelayKeys(Received(lines, |lines|), bucketWidth))
    ensures r.ttls == Tally(Ttls(Received(lines, |lines|)))
    ensures r.raw == if rawOutput then Some(Matched(lines, |lines|)) else None
    ensures r.maxClockError == InMilliseconds(MaxClockError(Received(lines, |lines|)))
  {
    var sent, received, duplicated, reordered := 0, 0, 0, 0;
    var packetsSeen: set<nat> := {};  // nothing is ever added to it
    var latency: Dict<string, nat>, ttls: Dict<string, nat> := Empty(), Empty();
    var raw: seq<Packet> := [];
    var maxClockError: Option<real> := None;
    var prevSeqNumber: int := -1;
    for i := 0 to |lines|
      invariant packetsSeen == {} && duplicated == 0
      invariant sent == |Matched(lines, i)| && received <= sent
      invariant raw == if rawOutput then Matched(lines, i) else []
      invariant latency.Valid() && ttls.Valid()
      invariant Folded(Received(lines, i), bucketWidth, received, reordered, latency, ttls,
                       maxClockError, prevSeqNumber)
    {
      if lines[i].Some? {
        var p := lines[i].value;
        if rawOutput {
          raw := raw + [p];
        }
        if p.seqNumber in packetsSeen {
          duplicated := duplicated + 1;
          continue;
        }
        sent := sent + 1;
        if p.dstTs == 0 {
          continue;
        }
        FoldedAppend(Received(lines, i), p, bucketWidth, received, reordered, latency, ttls,
                     maxClockError, prevSeqNumber);
        received := received + 1;
        latency := Bump(latency, DelayKey(p, bucketWidth));
        ttls := Bump(ttls, p.ttl);
        if p.seqNumber < prevSeqNumber {
          reordered := reordered + 1;
        }
        prevSeqNumber := p.seqNumber;
        maxClockError := Larger(maxClockError, ClockError(p));
      }
    }
    r := Results(sent, received, duplicated, reordered, sent - received, latency, ttls,
                 if rawOutput then Some(raw) else None, InMilliseconds(maxClockError));
  }

  predicate NumberedBefore(ps: seq<Packet>, n: nat, seqNumber: nat)
    requires n <= |ps|
  {
    exists i :: 0 <= i < n && ps[i].seqNumber == seqNumber
  }

  /** How many packets have a sequence number that was there before: what packets-duplicated is meant to be. */
  function Repeats(ps: seq<Packet>): nat
  {
    if ps == [] then 0
    else
      var n := |ps| - 1;
      Repeats(ps[..n]) + if NumberedBefore(ps, n, ps[n].seqNumber) then 1 else 0
  }

  predicate Unrepeated(ps: seq<Packet>)
  {
    forall i, j :: 0 <= i < j < |ps| ==> ps[i].seqNumber != ps[j].seqNumber
  }

  lemma {:induction false} RepeatsNone(ps: seq<Packet>)
    ensures Repeats(ps) == 0 <==> Unrepeated(ps)
  {
    if ps != [] {
      var n := |ps| - 1;
      var front := ps[..n];
      RepeatsNone(front);
      assert Unrepeated(ps) <==> Unrepeated(front) && !NumberedBefore(ps, n, ps[n].seqNumber) by {
        assert forall i :: 0 <= i < n ==> front[i] == ps[i];
      }
    }
  }

  /** The count reported, which is always zero, is right exactly for output that repeats no sequence number. */
  lemma DuplicatesRightExactly(lines: seq<Option<Packet>>, r: Results)
    requires r.duplicated == 0  // as ParseRawOwampOutput promises
    ensures r.duplicated == Repeats(Matched(lines, |lines|)) <==> Unrepeated(Matched(lines, |lines|))
  {
    RepeatsNone(Matched(lines, |lines|));
  }

  lemma RepeatsOneMore(ps: seq<Packet>, p: Packet)
    ensures Repeats(ps + [p]) == Repeats(ps) + if NumberedBefore(ps, |ps|, p.seqNumber) then 1 else 0
  {
    assert (ps + [p])[..|ps|] == ps;
    assert NumberedBefore(ps + [p], |ps|, p.seqNumber) <==> NumberedBefore(ps, |ps|, p.seqNumber) by {
      assert forall i :: 0 <= i < |ps| ==> (ps + [p])[i] == ps[i];
    }
  }

  /** The same packet on two lines is a duplicate, and not counted as one. */
  lemma SamePacketTwice(p: Packet)
    ensures Matched([Some(p), Some(p)], 2) == [p, p]
    ensures Repeats([p, p]) == 1 && !Unrepeated([p, p])
  {
    assert Matched([Some(p), Some(p)], 1) == [p];
    RepeatsOneMore([], p);
    assert [] + [p] == [p];
    RepeatsOneMore([p], p);
    assert [p][0].seqNumber == p.seqNumber;
    assert [p] + [p] == [p, p];
  }

  function InMilliseconds(clockError: Option<real>): Option<real>
  {
    match clockError
    case Some(e) => Some(RoundTo(e / TIME_SCALE, CLOCK_ERROR_DIGITS))
    case None => None
  }

  /** The state of the fold after the packets ps have been received. */
  ghost predicate Folded(ps: seq<Packet>, width: real, received: nat, reordered: nat,
                         latency: Dict<string, nat>, ttls: Dict<string, nat>,
                         maxClockError: Option<real>, prevSeqNumber: int)
    requires width != 0.0
  {
    && received == |ps|
    && reordered == Reorders(ps)
    && latency == Tally(DelayKeys(ps, width))
    && ttls == Tally(Ttls(ps))
    && maxClockError == MaxClockError(ps)
    && prevSeqNumber == if ps == [] then -1 else ps[|ps| - 1].seqNumber
  }

  lemma FoldedAppend(ps: seq<Packet>, p: Packet, width: real, received: nat, reordered: nat,
                     latency: Dict<string, nat>, ttls: Dict<string, nat>,
                     maxClockError: Option<real>, prevSeqNumber: int)
    requires width != 0.0 && latency.Valid() && ttls.Valid()
    requires Folded(ps, width, received, reordered, latency, ttls, maxClockError, prevSeqNumber)
    ensures Folded(ps + [p], width, received + 1, reordered + if p.seqNumber < prevSeqNumber then 1 else 0,
                   Bump(latency, DelayKey(p, width)), Bump(ttls, p.ttl),
                   Larger(maxClockError, ClockError(p)), p.seqNumber)
  {
    AppendTallies(ps, p, width);
    AppendOrder(ps, p);
  }

  lemma AppendTallies(ps: seq<Packet>, p: Packet, width: real)
    requires width != 0.0
    ensures Tally(DelayKeys(ps + [p], width)) == Bump(Tally(DelayKeys(ps, width)), DelayKey(p, width))
    ensures Tally(Ttls(ps + [p])) == Bump(Tally(Ttls(ps)), p.ttl)
  {
    EachAppend(DelayKeyer(width), ps, p);
    TallyAppend(DelayKeys(ps, width), DelayKeyer(width)(p));
    EachAppend(Ttl, ps, p);
    TallyAppend(Ttls(ps), p.ttl);
  }

  lemma AppendOrder(ps: seq<Packet>, p: Packet)
    ensures Reorders(ps + [p]) == Reorders(ps) + if ps != [] && p.seqNumber < ps[|ps| - 1].seqNumber then 1 else 0
    ensures MaxClockError(ps + [p]) == Larger(MaxClockError(ps), ClockError(p))
  {
  }

  // ----- what the counters mean

  /** The matched packets are those of all lines that match, in order: here is where they stand. */
  lemma {:induction false} MatchedExactly(lines: seq<Option<Packet>>, n: nat) returns (at: seq<nat>)
    requires n <= |lines|
    ensures |at| == |Matched(lines, n)| && Increasing(at)
    ensures forall i :: i in at <==> 0 <= i < n && lines[i].Some?
    ensures forall l :: 0 <= l < |at| ==> at[l] < n && lines[at[l]] == Some(Matched(lines, n)[l])
  {
    at := [];
    if n > 0 {
      var front := MatchedExactly(lines, n - 1);
      at := front;
      if lines[n - 1].Some? {
        at := front + [n - 1];
        assert forall i :: i in at <==> i in front || i == n - 1;
      }
    }
  }

  /** And the received ones those with a destination timestamp. */
  lemma {:induction false} ReceivedExactly(lines: seq<Option<Packet>>, n: nat) returns (at: seq<nat>)
    requires n <= |lines|
    ensures |at| == |Received(lines, n)| && Increasing(at)
    ensures forall i :: i in at <==> 0 <= i < n && lines[i].Some? && lines[i].value.dstTs != 0
    ensures forall l :: 0 <= l < |at| ==> at[l] < n && lines[at[l]] == Some(Received(lines, n)[l])
  {
    at := [];
    if n > 0 {
      var front := ReceivedExactly(lines, n - 1);
      at := front;
      if lines[n - 1].Some? && lines[n - 1].value.dstTs != 0 {
        at := front + [n - 1];
        assert forall i :: i in at <==> i in front || i == n - 1;
      }
    }
  }

  /** Packet i has a smaller sequence number than the one received just before it. */
  predicate OutOfOrder(ps: seq<Packet>, i: nat)
    requires i < |ps|
  {
    i > 0 && ps[i].seqNumber < ps[i - 1].seqNumber
  }

  lemma ReordersGrow(ps: seq<Packet>, n: nat)
    requires 0 < n <= |ps|
    ensures Reorders(ps[..n]) == Reorders(ps[..n - 1]) + if OutOfOrder(ps, n - 1) then 1 else 0
  {
    assert ps[..n][..n - 1] == ps[..n - 1];
  }

  /** The reorders counted are exactly the packets out of order: here is where they stand. */
  lemma {:induction false} ReordersExactly(ps: seq<Packet>, n: nat) returns (at: seq<nat>)
    requires n <= |ps|
    ensures |at| == Reorders(ps[..n]) && Increasing(at)
    ensures forall l :: 0 <= l < |at| ==> at[l] < n && OutOfOrder(ps, at[l])
    ensures forall i :: 0 <= i < n && OutOfOrder(ps, i) ==> i in at
  {
    at := [];
    if n > 0 {
      at := ReordersExactly(ps, n - 1);
      ReordersGrow(ps, n);
      if OutOfOrder(ps, n - 1) {
        at := at + [n - 1];
      }
    }
  }

  /** The TTL histogram counts how many of the packets have each TTL. */
  lemma TtlHistogram(ps: seq<Packet>, ttl: string)
    ensures var counted := multiset(seq(|ps|, i requires 0 <= i < |ps| => ps[i].ttl))[ttl];
            if ttl in Tally(Ttls(ps)).vals then Tally(Ttls(ps)).vals[ttl] == counted else counted == 0
  {
    TallyCounts(Ttls(ps));
    assert Ttls(ps) == seq(|ps|, i requires 0 <= i < |ps| => ps[i].ttl);
  }

  /** Received packets are the matched ones with a destination timestamp, in the same order. */
  lemma {:induction false} ReceivedIsMatched(lines: seq<Option<Packet>>, i: nat)
    requires i <= |lines|
    ensures Received(lines, i) == NotLost(Matched(lines, i))
    ensures |Received(lines, i)| <= |Matched(lines, i)|
  {
    if i > 0 {
      ReceivedIsMatched(lines, i - 1);
      if lines[i - 1].Some? {
        assert Matched(lines, i)[..|Matched(lines, i)| - 1] == Matched(lines, i - 1);
      }
    }
  }

  function NotLost(ps: seq<Packet>): seq<Packet>
  {
    if ps == [] then []
    else if ps[|ps| - 1].dstTs == 0 then NotLost(ps[..|ps| - 1])
    else NotLost(ps[..|ps| - 1]) + [ps[|ps| - 1]]
  }

  /** The packet reports both clock errors. */
  predicate ReportsErrors(p: Packet)
  {
    p.srcErr.Some? && p.dstErr.Some?
  }

  /** The greatest sum of the two clock errors among the packets that report both. */
  lemma {:induction false} MaxClockErrorIsGreatest(ps: seq<Packet>)
    ensures MaxClockError(ps).None? <==> forall p | p in ps :: !ReportsErrors(p)
    ensures MaxClockError(ps).Some? ==>
              && (exists p :: p in ps && ReportsErrors(p)
                              && p.srcErr.value + p.dstErr.value == MaxClockError(ps).value)
              && forall p | p in ps && ReportsErrors(p) ::
                   p.srcErr.value + p.dstErr.value <= MaxClockError(ps).value
  {
    if ps != [] {
      var front, last := ps[..|ps| - 1], ps[|ps| - 1];
      MaxClockErrorIsGreatest(front);
      assert ps == front + [last];
      assert last in ps;
      if MaxClockError(front).Some? {
        var p :| p in front && ReportsErrors(p) && p.srcErr.value + p.dstErr.value == MaxClockError(front).value;
        assert p in ps;
      }
    }
  }

  /** It is reported in thousandths, to the nearest hundredth of one. */
  lemma ErrorInMilliseconds(e: real)
    ensures InMilliseconds(Some(e)).Some? && InMilliseconds(None).None?
    ensures Abs(InMilliseconds(Some(e)).value - 1000.0 * e) <= 0.005
  {
    RoundToError(e / TIME_SCALE, CLOCK_ERROR_DIGITS);
    assert e / TIME_SCALE == 1000.0 * e;
    assert Pow10(2) == 100;
  }

  // ----- end to end: the statistics of the histogram are the statistics of the packets

  /** float() reads fixed-point notation as this model does. */
  ghost predicate ReadsFixed(float: Latency.Float)
  {
    forall s: string :: ParseFixed(s).Some? ==> float(s) == ParseFixed(s)
  }

  /** The time from source to destination in buckets; timestamps count in units of 2^-32 seconds. */
  function TrueDelay(p: Packet, width: real): real
    requires width != 0.0
  {
    (p.dstTs as real - p.srcTs as real) / 4294967296.0 / width
  }

  function TrueDelays(ps: seq<Packet>, width: real): (xs: seq<real>)
    requires width != 0.0
    ensures |xs| == |ps|
  {
    Each(p => TrueDelay(p, width), ps)
  }

  /** A delay is the true one to the nearest hundredth of a bucket. */
  lemma DelayIsNearest(p: Packet, width: real) returns (hundredths: int)
    requires width != 0.0
    ensures Abs(Delay(p, width) - (p.dstTs as real - p.srcTs as real) / 4294967296.0 / width) <= HalfUnit(2)
    ensures Delay(p, width) == hundredths as real / 100.0
    ensures HalfUnit(2) == 0.005
  {
    RoundToError(TrueDelay(p, width), 2);
    RoundToUnits(TrueDelay(p, width), 2);
    assert Pow10(2) == 100;
    hundredths := RoundHalfEven(Up(TrueDelay(p, width), 2));
  }

  ghost predicate NearMean(mean: real, ps: seq<Packet>, width: real)
    requires width != 0.0 && ps != []
  {
    Abs(mean - Sample.Mean(TrueDelays(ps, width))) <= 0.005
  }

  /** So the mean of the delays is off by no more than that. */
  lemma MeanDelayIsNear(ps: seq<Packet>, width: real, mean: real)
    requires width != 0.0 && ps != [] && mean == Sample.Mean(Delays(ps, width))
    ensures NearMean(mean, ps, width)
  {
    var xs, ys := Delays(ps, width), TrueDelays(ps, width);
    forall i | 0 <= i < |ps| ensures ys[i] - 0.005 <= xs[i] <= ys[i] + 0.005 {
      var n := DelayIsNearest(ps[i], width);
    }
    Sample.MeanNear(xs, ys, 0.005);
  }

  /** A delay key is read back as the packet's rounded delay. */
  lemma DelayKeyReads(float: Latency.Float, p: Packet, width: real)
    requires ReadsFixed(float) && width != 0.0
    ensures float(DelayKey(p, width)) == Some(Delay(p, width))
  {
    var x := (p.dstTs as real - p.srcTs as real) / 4294967296.0 / width;
    ParseFixedValue(Delay(p, width), DELAY_BUCKET_DIGITS);
    RoundToIdempotent(x, DELAY_BUCKET_DIGITS);
    assert ParseFixed(DelayKey(p, width)).Some?;
  }

  lemma BumpLast(bs: seq<Sample.Bucket>, cs: seq<Sample.Bucket>, p: nat)
    requires p < |bs| && cs == bs[p := Sample.Bucket(bs[p].value, bs[p].count + 1)]
    ensures Sample.ExpandTo(cs, p + 1) == Sample.ExpandTo(bs, p + 1) + [bs[p].value]
  {
    Sample.ExpandLocal(bs, cs, p);
    assert Sample.Copies(cs[p].value, cs[p].count) == Sample.Copies(bs[p].value, bs[p].count) + [bs[p].value];
  }

  lemma {:induction false} ExpandBump(bs: seq<Sample.Bucket>, cs: seq<Sample.Bucket>, p: nat, i: nat)
    requires p < i <= |bs|
    requires cs == bs[p := Sample.Bucket(bs[p].value, bs[p].count + 1)]
    ensures multiset(Sample.ExpandTo(cs, i)) == multiset(Sample.ExpandTo(bs, i)) + multiset{bs[p].value}
  {
    if p == i - 1 {
      BumpLast(bs, cs, p);
    } else {
      ExpandBump(bs, cs, p, i - 1);
    }
  }

  /** A tally written out: each key's number as often as it counts. */
  function Written(float: Latency.Float, h: Dict<string, nat>): seq<real>
    requires forall k | k in h.keys :: k in h.vals
  {
    Sample.Expand(Latency.Buckets(float, h.keys, h.vals))
  }

  lemma BumpKnown(float: Latency.Float, h: Dict<string, nat>, k: string)
    requires h.Valid() && k in h.vals
    ensures multiset(Written(float, Bump(h, k))) == multiset(Written(float, h)) + multiset{Latency.Number(float, k)}
  {
    var d := Bump(h, k);
    var bs, cs := Latency.Buckets(float, h.keys, h.vals), Latency.Buckets(float, d.keys, d.vals);
    var p :| 0 <= p < |h.keys| && h.keys[p] == k;
    assert cs == bs[p := Sample.Bucket(bs[p].value, bs[p].count + 1)];
    ExpandBump(bs, cs, p, |bs|);
  }

  lemma BumpNew(float: Latency.Float, h: Dict<string, nat>, k: string)
    requires h.Valid() && k !in h.vals
    ensures multiset(Written(float, Bump(h, k))) == multiset(Written(float, h)) + multiset{Latency.Number(float, k)}
  {
    var d := Bump(h, k);
    var bs, cs := Latency.Buckets(float, h.keys, h.vals), Latency.Buckets(float, d.keys, d.vals);
    var b := Sample.Bucket(Latency.Number(float, k), 1);
    assert cs == bs + [b];
    Sample.ExpandAppend(bs, b);
    assert Sample.Copies(b.value, 1) == [b.value];
  }

  /** Written out, a tally of keys is the bag of the numbers they stand for. */
  lemma {:induction false} TallySamples(float: Latency.Float, ks: seq<string>)
    ensures forall k | k in Tally(ks).keys :: k in Tally(ks).vals
    ensures multiset(Written(float, Tally(ks))) == multiset(Latency.Numbers(float, ks))
  {
    if ks != [] {
      var front, last := ks[..|ks| - 1], ks[|ks| - 1];
      TallySamples(float, front);
      if last in Tally(front).vals {
        BumpKnown(float, Tally(front), last);
      } else {
        BumpNew(float, Tally(front), last);
      }
      NumbersFront(float, ks);
    }
  }

  lemma NumbersFront(float: Latency.Float, ks: seq<string>)
    requires ks != []
    ensures Latency.Numbers(float, ks)
         == Latency.Numbers(float, ks[..|ks| - 1]) + [Latency.Number(float, ks[|ks| - 1])]
  {
  }

  lemma DelayNumbers(float: Latency.Float, ps: seq<Packet>, width: real)
    requires ReadsFixed(float) && width != 0.0
    ensures forall k | k in DelayKeys(ps, width) :: float(k).Some?
    ensures Latency.Numbers(float, DelayKeys(ps, width)) == Delays(ps, width)
  {
    var ks := DelayKeys(ps, width);
    forall i | 0 <= i < |ps| ensures float(ks[i]) == Some(Delay(ps[i], width)) {
      DelayKeyReads(float, ps[i], width);
    }
  }

  lemma DelayHistogram(float: Latency.Float, ps: seq<Packet>, width: real)
    requires ReadsFixed(float) && width != 0.0
    ensures Latency.IsHistogram(Tally(DelayKeys(ps, width)))
    ensures Latency.Numeric(float, Tally(DelayKeys(ps, width)).keys)
    ensures Tally(DelayKeys(ps, width)).keys != [] <==> ps != []
  {
    var ks := DelayKeys(ps, width);
    TallyCounts(ks);
    DelayNumbers(float, ps, width);
    if ps != [] {
      assert ks[0] in ks;
    }
  }

  /**
   * The delay histogram stands for exactly the received packets' delays, so that
   * the statistics computed from it are those of the packets themselves.
   */
  lemma PacketStatistics(float: Latency.Float, ps: seq<Packet>, width: real) returns (ys: seq<real>)
    requires ReadsFixed(float) && width != 0.0
    ensures Latency.IsHistogram(Tally(DelayKeys(ps, width)))
    ensures ys == Latency.SampleOf(float, Tally(DelayKeys(ps, width)))
    ensures Sample.Sorted(ys) && multiset(ys) == multiset(Delays(ps, width))
  {
    DelayHistogram(float, ps, width);
    var ks := DelayKeys(ps, width);
    ys := Latency.SampleOf(float, Tally(ks));
    Latency.SampleMeaning(float, Tally(ks), ys);
    TallySamples(float, ks);
    DelayNumbers(float, ps, width);
  }

  /** The histogram counts these keys. */
  ghost predicate Counts(h: Dict<string, nat>, ks: seq<string>)
  {
    && Latency.IsHistogram(h)
    && (forall k :: k in ks <==> k in h.vals)
    && (forall k :: k in ks ==> h.vals[k] == multiset(ks)[k])
  }

  ghost predicate Greatest(h: Dict<string, nat>, j: nat)
    requires Latency.IsHistogram(h) && j < |h.keys|
  {
    && h.keys[j] in h.vals
    && forall i :: 0 <= i < |h.keys| ==> h.keys[i] in h.vals && h.vals[h.keys[i]] <= h.vals[h.keys[j]]
  }

  /** The modes are the keys at these rows of the histogram: those of greatest count, from top to bottom. */
  ghost predicate GreatestRows(h: Dict<string, nat>, modes: seq<string>, rows: seq<nat>)
    requires Latency.IsHistogram(h)
  {
    && |rows| == |modes| && Increasing(rows)
    && (forall l :: 0 <= l < |rows| ==> rows[l] < |h.keys| && h.keys[rows[l]] == modes[l])
    && (forall j :: 0 <= j < |h.keys| ==> (j in rows <==> Greatest(h, j)))
  }

  lemma RowsOfModes(h: Dict<string, nat>) returns (rows: seq<nat>)
    requires Latency.IsHistogram(h)
    ensures GreatestRows(h, Latency.ModeKeys(h.keys, h.vals, |h.keys|), rows)
  {
    rows := Latency.ModesAreGreatest(h);
  }

  lemma ModeIsFrequent(h: Dict<string, nat>, ks: seq<string>, modes: seq<string>, rows: seq<nat>, k: string)
    requires Counts(h, ks) && GreatestRows(h, modes, rows)
    ensures k in modes <==> MostFrequent(k, ks)
  {
    if k in modes {
      var l :| 0 <= l < |modes| && modes[l] == k;
      assert rows[l] in rows && Greatest(h, rows[l]);
    }
    if MostFrequent(k, ks) {
      var j :| 0 <= j < |h.keys| && h.keys[j] == k;
      assert Greatest(h, j);
      var l :| 0 <= l < |rows| && rows[l] == j;
      assert modes[l] == k;
    }
  }

  lemma ModesOfHistogram(h: Dict<string, nat>, ks: seq<string>, firsts: seq<nat>, modes: seq<string>, rows: seq<nat>)
    returns (at: seq<nat>)
    requires Counts(h, ks) && Places(ks, h.keys, firsts) && GreatestRows(h, modes, rows)
    ensures AreModes(modes, ks) && Places(ks, modes, at)
  {
    at := PlacesOfSome(ks, h.keys, firsts, rows, modes);
    forall k ensures k in modes <==> MostFrequent(k, ks) {
      ModeIsFrequent(h, ks, modes, rows, k);
    }
  }

  /** The keys of greatest count are the most frequent ones among those tallied. */
  lemma KeyModes(ks: seq<string>) returns (at: seq<nat>)
    ensures Latency.IsHistogram(Tally(ks))
    ensures var h := Tally(ks);
            var modes := Latency.ModeKeys(h.keys, h.vals, |h.keys|);
            AreModes(modes, ks) && Places(ks, modes, at)
  {
    TallyCounts(ks);
    var firsts := TallyOrder(ks);
    var h := Tally(ks);
    var rows := RowsOfModes(h);
    at := ModesOfHistogram(h, ks, firsts, Latency.ModeKeys(h.keys, h.vals, |h.keys|), rows);
  }

  /** The modes reported are exactly the most frequent delays of the packets, in the order they were first received. */
  lemma DelayModes(float: Latency.Float, ps: seq<Packet>, width: real)
    requires ReadsFixed(float) && width != 0.0
    ensures var h := Tally(DelayKeys(ps, width));
            && Latency.IsHistogram(h)
            && AreModes(Latency.Numbers(float, Latency.ModeKeys(h.keys, h.vals, |h.keys|)), Delays(ps, width))
  {
    var ks, ds := DelayKeys(ps, width), Delays(ps, width);
    var h := Tally(ks);
    var at := KeyModes(ks);
    forall i | 0 <= i < |ps| ensures float(ks[i]) == Some(ds[i]) {
      DelayKeyReads(float, ps[i], width);
    }
    forall i, j | 0 <= i < |ps| && 0 <= j < |ps| ensures ks[i] == ks[j] <==> ds[i] == ds[j] {
    }
    var modes := Latency.ModeKeys(h.keys, h.vals, |h.keys|);
    var others := Latency.Numbers(float, modes);
    forall l | 0 <= l < |at| ensures at[l] < |ds| && others[l] == ds[at[l]] {
      assert First(ks, at[l], modes[l]);
    }
    ModesAlike(ks, modes, at, ds, others);
  }

  /** The delay histogram of a run of packets. */
  function DelayTally(ps: seq<Packet>, width: real): (h: Dict<string, nat>)
    requires width != 0.0
    ensures h.Valid()
  {
    Tally(DelayKeys(ps, width))
  }

  /** These are the statistics of the packets' delays. */
  ghost predicate Describes(float: Latency.Float, ps: seq<Packet>, width: real, stats: Latency.Stats)
    requires width != 0.0 && Latency.IsHistogram(DelayTally(ps, width))
  {
    var h := DelayTally(ps, width);
    var ys := Latency.SampleOf(float, h);
    && ys != [] && Sample.Sorted(ys) && multiset(ys) == multiset(Delays(ps, width))
    && stats == Latency.StatsOf(ys, Latency.Numbers(float, Latency.ModeKeys(h.keys, h.vals, |h.keys|)))
    && ps != [] && stats.mean == Sample.Mean(Delays(ps, width))
    && AreModes(stats.mode, Delays(ps, width))
  }

  /**
   * Parsing the output and then taking statistics of its delay histogram. The mean is that
   * of the packets' true delays to within half a hundredth of a bucket.
   */
  method OutputStatistics(float: Latency.Float, lines: seq<Option<Packet>>, width: real)
    returns (stats: Option<Latency.Stats>)
    requires ReadsFixed(float) && width != 0.0
    ensures stats.Some? <==> Received(lines, |lines|) != []
    ensures Latency.IsHistogram(DelayTally(Received(lines, |lines|), width))
    ensures stats.Some? ==> Describes(float, Received(lines, |lines|), width, stats.value)
    ensures stats.Some? ==> NearMean(stats.value.mean, Received(lines, |lines|), width)
  {
    stats := TallyStatistics(float, lines, width);
    if stats.Some? {
      MeanDelayIsNear(Received(lines, |lines|), width, stats.value.mean);
    }
  }

  method TallyStatistics(float: Latency.Float, lines: seq<Option<Packet>>, width: real)
    returns (stats: Option<Latency.Stats>)
    requires ReadsFixed(float) && width != 0.0
    ensures stats.Some? <==> Received(lines, |lines|) != []
    ensures Latency.IsHistogram(DelayTally(Received(lines, |lines|), width))
    ensures stats.Some? ==> Describes(float, Received(lines, |lines|), width, stats.value)
  {
    var r := ParseRawOwampOutput(lines, false, width);
    ghost var ps := Received(lines, |lines|);
    DelayHistogram(float, ps, width);
    var histogram := new Latency.Histogram(r.latency);
    stats := histogram.GetStats(float);
    if stats.Some? {
      ghost var ys := PacketStatistics(float, ps, width);
      DelayModes(float, ps, width);
      Sample.SumPermutation(Sample.Identity, ys, Delays(ps, width));
      assert |multiset(ys)| == |multiset(Delays(ps, width))|;
    }
  }
}
