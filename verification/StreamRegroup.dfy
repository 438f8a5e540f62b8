/**
 * esmond_util.py, EsmondThroughputRecord.add_additional_data: turning a throughput
 * test's list of intervals, each with its streams, into one list per stream.
 */
module StreamRegroup {
  import opened OrderedDict
  import opened SortedInts
  import opened Wrappers

  datatype Metric = Throughput | Retransmits | Rtt | Window

  /** One of something for each metric. */
  datatype Four<T> = Four(throughput: T, retransmits: T, rtt: T, window: T)
  {
    function Get(m: Metric): T
    {
      match m
      case Throughput => throughput
      case Retransmits => retransmits
      case Rtt => rtt
      case Window => window
    }
  }

  /** The summary or a stream of an interval; any of its fields may be missing. */
  datatype Record = Record(start: Option<real>, end: Option<real>, id: Option<int>, values: Four<Option<real>>)

  /** An interval; a summary that is missing or empty is None. */
  datatype Interval = Interval(summary: Option<Record>, streams: seq<Record>)

  datatype Sample = Sample(start: real, duration: real, val: real)

  /** A data point added to the record. */
  datatype Point =
    | Subintervals(metric: Metric, samples: seq<Sample>)
    | StreamSubintervals(metric: Metric, lists: seq<seq<Sample>>)

  // ----- what is meant

  /** A record that says when it ran; the id is that of its stream. */
  datatype Reading = Reading(id: int, start: real, duration: real, values: Four<Option<real>>)

  /** Readings, the last one outermost. */
  datatype Log = Nothing | Then(before: Log, last: Reading)

  predicate Timed(r: Record)
  {
    r.start.Some? && r.end.Some?
  }

  /** An interval is skipped whole when it has a summary that lacks its start or end. */
  predicate Kept(i: Interval)
  {
    i.summary.Some? ==> Timed(i.summary.value)
  }

  function ReadingOf(r: Record, id: int): Reading
    requires Timed(r)
  {
    Reading(id, r.start.value, r.end.value - r.start.value, r.values)
  }

  /** A stream counts if it says when it ran and which it is. */
  function Readings(before: Log, streams: seq<Record>, n: nat): Log
    requires n <= |streams|
  {
    if n == 0 then before
    else
      var front, last := Readings(before, streams, n - 1), streams[n - 1];
      if Timed(last) && last.id.Some? then Then(front, ReadingOf(last, last.id.value)) else front
  }

  /** What the streams of an interval add, if it is kept. */
  function WithReadings(log: Log, i: Interval): Log
  {
    if Kept(i) then Readings(log, i.streams, |i.streams|) else log
  }

  /** What the streams of the first n intervals say, of those intervals that are kept. */
  function AllReadings(intervals: seq<Interval>, n: nat): Log
    requires n <= |intervals|
  {
    if n == 0 then Nothing else WithReadings(AllReadings(intervals, n - 1), intervals[n - 1])
  }

  /** What the summary of an interval adds; a summary has no stream id. */
  function WithSummary(log: Log, i: Interval): Log
  {
    if i.summary.Some? && Timed(i.summary.value) then Then(log, ReadingOf(i.summary.value, 0)) else log
  }

  /** What the summaries of the first n intervals say. */
  function Summaries(intervals: seq<Interval>, n: nat): Log
    requires n <= |intervals|
  {
    if n == 0 then Nothing else WithSummary(Summaries(intervals, n - 1), intervals[n - 1])
  }

  function SampleOf(r: Reading, m: Metric): seq<Sample>
  {
    if r.values.Get(m).Some? then [Sample(r.start, r.duration, r.values.Get(m).value)] else []
  }

  /** The samples of a metric, in order. */
  function Samples(log: Log, m: Metric): seq<Sample>
  {
    if log.Nothing? then [] else Samples(log.before, m) + SampleOf(log.last, m)
  }

  /** Those of one stream, in order. */
  function StreamSamples(log: Log, id: int, m: Metric): seq<Sample>
  {
    if log.Nothing? then []
    else if log.last.id == id then StreamSamples(log.before, id, m) + SampleOf(log.last, m)
    else StreamSamples(log.before, id, m)
  }

  /** The stream ids, each where it was first met. */
  function Seen(log: Log): seq<int>
  {
    if log.Nothing? then []
    else if log.last.id in Seen(log.before) then Seen(log.before)
    else Seen(log.before) + [log.last.id]
  }

  lemma {:induction false} NoSamplesYet(log: Log, id: int, m: Metric)
    requires id !in Seen(log)
    ensures StreamSamples(log, id, m) == []
  {
    if log.Then? {
      NoSamplesYet(log.before, id, m);
    }
  }

  // ----- the loops

  type Lists = Dict<int, seq<Sample>>

  /** One metric's dictionary: a list for every stream met, holding that stream's samples. */
  ghost predicate Grouped(log: Log, m: Metric, lists: Lists)
  {
    && lists.Valid() && lists.keys == Seen(log)
    && forall id | id in lists.vals :: lists.vals[id] == StreamSamples(log, id, m)
  }

  ghost predicate AllGrouped(log: Log, lists: Four<Lists>)
  {
    && Grouped(log, Throughput, lists.throughput)
    && Grouped(log, Retransmits, lists.retransmits)
    && Grouped(log, Rtt, lists.rtt)
    && Grouped(log, Window, lists.window)
  }

  /** The same once the list of stream `id` has been made, if it had to be. */
  ghost predicate Opened(log: Log, id: int, m: Metric, lists: Lists)
  {
    && lists.Valid()
    && lists.keys == (if id in Seen(log) then Seen(log) else Seen(log) + [id])
    && id in lists.vals
    && forall i | i in lists.vals :: lists.vals[i] == StreamSamples(log, i, m)
  }

  method OpenList(listsBefore: Lists, id: int, ghost log: Log, ghost m: Metric) returns (lists: Lists)
    requires Grouped(log, m, listsBefore)
    ensures Opened(log, id, m, lists)
  {
    lists := listsBefore;
    if id !in lists.vals {
      NoSamplesYet(log, id, m);
      lists := lists.Put(id, []);
    }
  }

  lemma NothingToAppend(log: Log, r: Reading, m: Metric, lists: Lists)
    requires Opened(log, r.id, m, lists) && r.values.Get(m).None?
    ensures Grouped(Then(log, r), m, lists)
  {
  }

  lemma OneToAppend(log: Log, r: Reading, m: Metric, lists: Lists)
    requires Opened(log, r.id, m, lists) && r.values.Get(m).Some?
    ensures Grouped(Then(log, r), m, lists.Put(r.id, lists.vals[r.id] + SampleOf(r, m)))
  {
    var more := lists.Put(r.id, lists.vals[r.id] + SampleOf(r, m));
    forall id | id in more.vals ensures more.vals[id] == StreamSamples(Then(log, r), id, m) {
      assert more.vals[id] == if id == r.id then lists.vals[id] + SampleOf(r, m) else lists.vals[id];
    }
  }

  /** The code for one metric of one stream: make its list if it has none, and append its sample if it has one. */
  method AddSample(listsBefore: Lists, id: int, start: real, duration: real, value: Option<real>,
                   ghost log: Log, ghost r: Reading, ghost m: Metric)
    returns (lists: Lists)
    requires Grouped(log, m, listsBefore)
    requires r.id == id && r.start == start && r.duration == duration && r.values.Get(m) == value
    ensures Grouped(Then(log, r), m, lists)
  {
    lists := OpenList(listsBefore, id, log, m);
    if value.Some? {
      OneToAppend(log, r, m, lists);
      lists := lists.Put(id, lists.vals[id] + [Sample(start, duration, value.value)]);
    } else {
      NothingToAppend(log, r, m, lists);
    }
  }

  method AddStream(listsBefore: Four<Lists>, stream: Record, ghost log: Log) returns (lists: Four<Lists>)
    requires Timed(stream) && stream.id.Some? && AllGrouped(log, listsBefore)
    ensures AllGrouped(Then(log, ReadingOf(stream, stream.id.value)), lists)
  {
    var id := stream.id.value;
    var start, duration := stream.start.value, stream.end.value - stream.start.value;
    ghost var r := ReadingOf(stream, id);
    var v := stream.values;
    var throughput := AddSample(listsBefore.throughput, id, start, duration, v.throughput, log, r, Throughput);
    var retransmits := AddSample(listsBefore.retransmits, id, start, duration, v.retransmits, log, r, Retransmits);
    var rtt := AddSample(listsBefore.rtt, id, start, duration, v.rtt, log, r, Rtt);
    var window := AddSample(listsBefore.window, id, start, duration, v.window, log, r, Window);
    lists := Four(throughput, retransmits, rtt, window);
  }

  method AddStreams(listsBefore: Four<Lists>, streams: seq<Record>, ghost log: Log) returns (lists: Four<Lists>)
    requires AllGrouped(log, listsBefore)
    ensures AllGrouped(Readings(log, streams, |streams|), lists)
  {
    lists := listsBefore;
    for n := 0 to |streams|
      invariant AllGrouped(Readings(log, streams, n), lists)
    {
      var stream := streams[n];
      if stream.start.None? || stream.end.None? {
        continue;
      }
      if stream.id.None? {
        continue;
      }
      lists := AddStream(lists, stream, Readings(log, streams, n));
    }
  }

  ghost predicate Sampled(log: Log, samples: Four<seq<Sample>>)
  {
    && samples.throughput == Samples(log, Throughput)
    && samples.retransmits == Samples(log, Retransmits)
    && samples.rtt == Samples(log, Rtt)
    && samples.window == Samples(log, Window)
  }

  method AddSummary(samplesBefore: Four<seq<Sample>>, summary: Record, ghost log: Log)
    returns (samples: Four<seq<Sample>>)
    requires Timed(summary) && Sampled(log, samplesBefore)
    ensures Sampled(Then(log, ReadingOf(summary, 0)), samples)
  {
    var start, duration := summary.start.value, summary.end.value - summary.start.value;
    var v := summary.values;
    samples := samplesBefore;
    if v.throughput.Some? {
      samples := samples.(throughput := samples.throughput + [Sample(start, duration, v.throughput.value)]);
    }
    if v.retransmits.Some? {
      samples := samples.(retransmits := samples.retransmits + [Sample(start, duration, v.retransmits.value)]);
    }
    if v.rtt.Some? {
      samples := samples.(rtt := samples.rtt + [Sample(start, duration, v.rtt.value)]);
    }
    if v.window.Some? {
      samples := samples.(window := samples.window + [Sample(start, duration, v.window.value)]);
    }
  }

  /** The streams that count: those of the kept intervals, if the test ran more than one in parallel. */
  function Counted(intervals: seq<Interval>, n: nat, parallel: bool): Log
    requires n <= |intervals|
  {
    if parallel then AllReadings(intervals, n) else Nothing
  }

  predicate Several(parallel: Option<int>)
  {
    parallel.Some? && parallel.value > 1
  }

  /** The loop over the intervals. */
  method Gather(intervals: seq<Interval>, parallel: bool) returns (samples: Four<seq<Sample>>, lists: Four<Lists>)
    ensures Sampled(Summaries(intervals, |intervals|), samples)
    ensures AllGrouped(Counted(intervals, |intervals|, parallel), lists)
  {
    samples, lists := Four([], [], [], []), Four(Empty(), Empty(), Empty(), Empty());
    for n := 0 to |intervals|
      invariant Sampled(Summaries(intervals, n), samples)
      invariant AllGrouped(Counted(intervals, n, parallel), lists)
    {
      samples, lists := AddInterval(samples, lists, intervals[n], parallel,
                                    Summaries(intervals, n), Counted(intervals, n, parallel));
    }
  }

  /** The body of that loop. */
  method AddInterval(samplesBefore: Four<seq<Sample>>, listsBefore: Four<Lists>, interval: Interval, parallel: bool,
                     ghost summaries: Log, ghost log: Log)
    returns (samples: Four<seq<Sample>>, lists: Four<Lists>)
    requires Sampled(summaries, samplesBefore) && AllGrouped(log, listsBefore)
    ensures Sampled(WithSummary(summaries, interval), samples)
    ensures AllGrouped(if parallel then WithReadings(log, interval) else log, lists)
  {
    samples, lists := samplesBefore, listsBefore;
    if interval.summary.Some? {
      var summary := interval.summary.value;
      if summary.start.None? || summary.end.None? {
        return;
      }
      samples := AddSummary(samples, summary, summaries);
    }
    if parallel {
      lists := AddStreams(lists, interval.streams, log);
    }
  }

  // ----- the points added

  /** One list a stream, in order of stream id. */
  function StreamLists(log: Log, m: Metric): (r: seq<seq<Sample>>)
    ensures |r| == |Sorted(Seen(log))|
  {
    var ids := Sorted(Seen(log));
    seq(|ids|, i requires 0 <= i < |ids| => StreamSamples(log, ids[i], m))
  }

  method Format(lists: Lists, ghost log: Log, ghost m: Metric) returns (formatted: seq<seq<Sample>>)
    requires Grouped(log, m, lists)
    ensures formatted == StreamLists(log, m)
  {
    var ids := Sorted(lists.keys);
    ghost var all := StreamLists(log, m);
    formatted := [];
    for n := 0 to |ids|
      invariant formatted == all[..n]
    {
      SortedMembers(lists.keys, ids[n]);
      formatted := formatted + [lists.vals[ids[n]]];
    }
  }

  /** A metric's samples are added when there are any. */
  function WithSamples(points: seq<Point>, summaries: Log, m: Metric): seq<Point>
  {
    if Samples(summaries, m) != [] then points + [Subintervals(m, Samples(summaries, m))] else points
  }

  /** A metric's lists are added when there is any stream, whether or not it has samples. */
  function WithStreams(points: seq<Point>, log: Log, m: Metric): seq<Point>
  {
    if Seen(log) != [] then points + [StreamSubintervals(m, StreamLists(log, m))] else points
  }

  function WithThroughput(points: seq<Point>, summaries: Log, log: Log): seq<Point>
  {
    WithStreams(WithSamples(points, summaries, Throughput), log, Throughput)
  }

  /** What a test that is not over UDP adds besides. */
  function WithTcp(points: seq<Point>, summaries: Log, log: Log): seq<Point>
  {
    var p := WithSamples(WithSamples(WithSamples(points, summaries, Retransmits), summaries, Rtt), summaries, Window);
    WithStreams(WithStreams(WithStreams(p, log, Retransmits), log, Rtt), log, Window)
  }

  /** A test over UDP has throughput only. */
  function WithAll(points: seq<Point>, summaries: Log, log: Log, isUdp: bool): seq<Point>
  {
    var first := WithThroughput(points, summaries, log);
    if isUdp then first else WithTcp(first, summaries, log)
  }

  method AddSamples(pointsBefore: seq<Point>, samples: seq<Sample>, ghost summaries: Log, m: Metric)
    returns (points: seq<Point>)
    requires samples == Samples(summaries, m)
    ensures points == WithSamples(pointsBefore, summaries, m)
  {
    points := pointsBefore;
    if |samples| > 0 {
      points := points + [Subintervals(m, samples)];
    }
  }

  method AddLists(pointsBefore: seq<Point>, lists: Lists, ghost log: Log, m: Metric) returns (points: seq<Point>)
    requires Grouped(log, m, lists)
    ensures points == WithStreams(pointsBefore, log, m)
  {
    points := pointsBefore;
    if |lists.keys| > 0 {
      var formatted := Format(lists, log, m);
      points := points + [StreamSubintervals(m, formatted)];
    }
  }

  /** What the intervals of a result add to its data points. */
  method AddAdditionalData(pointsBefore: seq<Point>, intervals: seq<Interval>, parallel: Option<int>, isUdp: bool)
    returns (points: seq<Point>)
    ensures points == WithAll(pointsBefore, Summaries(intervals, |intervals|),
                              Counted(intervals, |intervals|, Several(parallel)), isUdp)
  {
    ghost var summaries := Summaries(intervals, |intervals|);
    ghost var log := Counted(intervals, |intervals|, Several(parallel));
    var samples, lists := Gather(intervals, Several(parallel));
    points := AddSamples(pointsBefore, samples.throughput, summaries, Throughput);
    points := AddLists(points, lists.throughput, log, Throughput);
    if !isUdp {
      points := AddTcp(points, samples, lists, summaries, log);
    }
  }

  method AddTcp(pointsBefore: seq<Point>, samples: Four<seq<Sample>>, lists: Four<Lists>,
                ghost summaries: Log, ghost log: Log)
    returns (points: seq<Point>)
    requires Sampled(summaries, samples) && AllGrouped(log, lists)
    ensures points == WithTcp(pointsBefore, summaries, log)
  {
    points := AddSamples(pointsBefore, samples.retransmits, summaries, Retransmits);
    points := AddSamples(points, samples.rtt, summaries, Rtt);
    points := AddSamples(points, samples.window, summaries, Window);
    points := AddLists(points, lists.retransmits, log, Retransmits);
    points := AddLists(points, lists.rtt, log, Rtt);
    points := AddLists(points, lists.window, log, Window);
  }

  // ----- nothing lost or doubled

  function Joined(lists: seq<seq<Sample>>, n: nat): seq<Sample>
    requires n <= |lists|
  {
    if n == 0 then [] else Joined(lists, n - 1) + lists[n - 1]
  }

  /** The lists of these ids, one after another. */
  function JoinedFor(of: int -> seq<Sample>, ids: seq<int>, n: nat): seq<Sample>
    requires n <= |ids|
  {
    if n == 0 then [] else JoinedFor(of, ids, n - 1) + of(ids[n - 1])
  }

  function ListsOf(log: Log, m: Metric): int -> seq<Sample>
  {
    id => StreamSamples(log, id, m)
  }

  predicate Among(id: int, ids: seq<int>, n: nat)
    requires n <= |ids|
  {
    exists i :: 0 <= i < n && ids[i] == id
  }

  /** How often a sample is in a list. */
  function Times(x: Sample, s: seq<Sample>): nat
  {
    multiset(s)[x]
  }

  lemma TimesJoined(x: Sample, a: seq<Sample>, b: seq<Sample>)
    ensures Times(x, a + b) == Times(x, a) + Times(x, b)
  {
  }

  /** If one list grows by some samples, so do all of them together. */
  lemma {:induction false} JoinedGrows(before: int -> seq<Sample>, after: int -> seq<Sample>, id: int, more: nat,
                                       ids: seq<int>, n: nat, x: Sample)
    requires n <= |ids| && Ascending(ids)
    requires forall i :: Times(x, after(i)) == Times(x, before(i)) + if i == id then more else 0
    ensures Times(x, JoinedFor(after, ids, n)) ==
              Times(x, JoinedFor(before, ids, n)) + if Among(id, ids, n) then more else 0
  {
    if n > 0 {
      JoinedGrows(before, after, id, more, ids, n - 1, x);
      TimesJoined(x, JoinedFor(before, ids, n - 1), before(ids[n - 1]));
      TimesJoined(x, JoinedFor(after, ids, n - 1), after(ids[n - 1]));
    }
  }

  lemma {:induction false} JoinedNothing(m: Metric, ids: seq<int>, n: nat)
    requires n <= |ids|
    ensures JoinedFor(ListsOf(Nothing, m), ids, n) == []
  {
    if n > 0 {
      JoinedNothing(m, ids, n - 1);
    }
  }

  lemma {:induction false} JoinedIsAll(log: Log, ids: seq<int>, m: Metric, x: Sample)
    requires Ascending(ids) && forall id | id in Seen(log) :: Among(id, ids, |ids|)
    ensures Times(x, JoinedFor(ListsOf(log, m), ids, |ids|)) == Times(x, Samples(log, m))
    decreases log
  {
    if log.Nothing? {
      JoinedNothing(m, ids, |ids|);
    } else {
      var before, r := log.before, log.last;
      JoinedIsAll(before, ids, m, x);
      forall i
        ensures Times(x, ListsOf(log, m)(i)) ==
                  Times(x, ListsOf(before, m)(i)) + if i == r.id then Times(x, SampleOf(r, m)) else 0
      {
        TimesJoined(x, StreamSamples(before, i, m), SampleOf(r, m));
      }
      JoinedGrows(ListsOf(before, m), ListsOf(log, m), r.id, Times(x, SampleOf(r, m)), ids, |ids|, x);
      TimesJoined(x, Samples(before, m), SampleOf(r, m));
    }
  }

  lemma {:induction false} JoinedLists(log: Log, n: nat, m: Metric)
    requires n <= |StreamLists(log, m)|
    ensures Joined(StreamLists(log, m), n) == JoinedFor(ListsOf(log, m), Sorted(Seen(log)), n)
  {
    if n > 0 {
      JoinedLists(log, n - 1, m);
    }
  }

  lemma {:induction false} SeenDistinct(log: Log)
    ensures Distinct(Seen(log))
  {
    if log.Then? {
      SeenDistinct(log.before);
    }
  }

  lemma EachAsOften(log: Log, m: Metric, x: Sample)
    ensures var lists := StreamLists(log, m);
            Times(x, Joined(lists, |lists|)) == Times(x, Samples(log, m))
  {
    var ids := Sorted(Seen(log));
    SeenDistinct(log);
    SortedAscends(Seen(log));
    JoinedLists(log, |StreamLists(log, m)|, m);
    forall id | id in Seen(log) ensures Among(id, ids, |ids|) {
      SortedMembers(Seen(log), id);
    }
    JoinedIsAll(log, ids, m, x);
  }

  /**
   * The lists stand in order of stream id, one for each stream, and together they hold
   * every sample of every counted stream, each as often as it was taken.
   */
  lemma NothingLost(log: Log, m: Metric)
    ensures var ids, lists := Sorted(Seen(log)), StreamLists(log, m);
            && Ascending(ids) && (forall id :: id in ids <==> id in Seen(log))
            && |lists| == |ids| && (forall i :: 0 <= i < |ids| ==> lists[i] == StreamSamples(log, ids[i], m))
            && multiset(Joined(lists, |lists|)) == multiset(Samples(log, m))
  {
    SeenDistinct(log);
    SortedAscends(Seen(log));
    var lists := StreamLists(log, m);
    forall id ensures id in Sorted(Seen(log)) <==> id in Seen(log) {
      SortedMembers(Seen(log), id);
    }
    forall x ensures multiset(Joined(lists, |lists|))[x] == multiset(Samples(log, m))[x] {
      EachAsOften(log, m, x);
      assert Times(x, Joined(lists, |lists|)) == Times(x, Samples(log, m));
    }
  }

  // ----- where every sample comes from

  /** This sample is what the record says of the metric: from its start to its end, its value. */
  predicate Gives(r: Record, m: Metric, x: Sample)
  {
    && r.start == Some(x.start) && r.end == Some(x.start + x.duration)
    && match m
       case Throughput => r.values.throughput == Some(x.val)
       case Retransmits => r.values.retransmits == Some(x.val)
       case Rtt => r.values.rtt == Some(x.val)
       case Window => r.values.window == Some(x.val)
  }

  /** It has a start and an end, or is not there. */
  predicate SummaryTimed(i: Interval)
  {
    i.summary.Some? ==> i.summary.value.start.Some? && i.summary.value.end.Some?
  }

  lemma ReadingGives(r: Record, id: int, m: Metric, x: Sample)
    ensures Timed(r) && x in SampleOf(ReadingOf(r, id), m) <==> Gives(r, m, x)
  {
    if Timed(r) && r.values.Get(m).Some? {
      assert SampleOf(ReadingOf(r, id), m) ==
        [Sample(r.start.value, r.end.value - r.start.value, r.values.Get(m).value)];
    }
  }

  /** Some stream of that id among the first n gives the sample. */
  ghost predicate StreamGives(streams: seq<Record>, n: nat, id: int, m: Metric, x: Sample)
    requires n <= |streams|
  {
    exists j :: 0 <= j < n && streams[j].id == Some(id) && Gives(streams[j], m, x)
  }

  lemma {:induction false} ReadingsExactly(log: Log, streams: seq<Record>, n: nat, id: int, m: Metric, x: Sample)
    requires n <= |streams|
    ensures x in StreamSamples(Readings(log, streams, n), id, m) <==>
              x in StreamSamples(log, id, m) || StreamGives(streams, n, id, m, x)
  {
    if n > 0 {
      ReadingsExactly(log, streams, n - 1, id, m, x);
      ReadingGives(streams[n - 1], id, m, x);
      assert StreamGives(streams, n, id, m, x) <==>
        StreamGives(streams, n - 1, id, m, x) || (streams[n - 1].id == Some(id) && Gives(streams[n - 1], m, x));
    }
  }

  /**
   * A sample is in the list of a stream exactly if some stream of that id gives it, in an
   * interval whose summary, if there is one, has its start and end.
   */
  lemma {:induction false} StreamSamplesExactly(intervals: seq<Interval>, n: nat, id: int, m: Metric, x: Sample)
    requires n <= |intervals|
    ensures x in StreamSamples(AllReadings(intervals, n), id, m) <==>
              exists i :: 0 <= i < n && SummaryTimed(intervals[i])
                          && StreamGives(intervals[i].streams, |intervals[i].streams|, id, m, x)
  {
    if n > 0 {
      StreamSamplesExactly(intervals, n - 1, id, m, x);
      var i := intervals[n - 1];
      ReadingsExactly(AllReadings(intervals, n - 1), i.streams, |i.streams|, id, m, x);
    }
  }

  /** And among the samples of the summaries exactly if some summary gives it. */
  lemma {:induction false} SummarySamplesExactly(intervals: seq<Interval>, n: nat, m: Metric, x: Sample)
    requires n <= |intervals|
    ensures x in Samples(Summaries(intervals, n), m) <==>
              exists i :: 0 <= i < n && intervals[i].summary.Some? && Gives(intervals[i].summary.value, m, x)
  {
    if n > 0 {
      SummarySamplesExactly(intervals, n - 1, m, x);
      var i := intervals[n - 1];
      if i.summary.Some? {
        ReadingGives(i.summary.value, 0, m, x);
      }
    }
  }

  lemma SamplesAdded(points: seq<Point>, summaries: Log, m: Metric, p: Point)
    ensures p in WithSamples(points, summaries, m) <==>
              p in points || (p == Subintervals(m, Samples(summaries, m)) && Samples(summaries, m) != [])
  {
  }

  lemma StreamsAdded(points: seq<Point>, log: Log, m: Metric, p: Point)
    ensures p in WithStreams(points, log, m) <==>
              p in points || (p == StreamSubintervals(m, StreamLists(log, m)) && Seen(log) != [])
  {
  }

  /** A test's samples and lists of this metric, where there are any. */
  ghost predicate PointOf(summaries: Log, log: Log, m: Metric, p: Point)
  {
    || (p == Subintervals(m, Samples(summaries, m)) && Samples(summaries, m) != [])
    || (p == StreamSubintervals(m, StreamLists(log, m)) && Seen(log) != [])
  }

  /** Which points there are: of each metric of the test its samples, if any, and its lists, if any stream. */
  lemma PointsExactly(points: seq<Point>, summaries: Log, log: Log, isUdp: bool, p: Point)
    ensures p in WithAll(points, summaries, log, isUdp) <==>
              || p in points || PointOf(summaries, log, Throughput, p)
              || (!isUdp && (PointOf(summaries, log, Retransmits, p) || PointOf(summaries, log, Rtt, p)
                             || PointOf(summaries, log, Window, p)))
  {
    var p0 := WithSamples(points, summaries, Throughput);
    var p1 := WithStreams(p0, log, Throughput);
    SamplesAdded(points, summaries, Throughput, p);
    StreamsAdded(p0, log, Throughput, p);
    if !isUdp {
      var p2 := WithSamples(p1, summaries, Retransmits);
      var p3 := WithSamples(p2, summaries, Rtt);
      var p4 := WithSamples(p3, summaries, Window);
      var p5 := WithStreams(p4, log, Retransmits);
      SamplesAdded(p1, summaries, Retransmits, p);
      SamplesAdded(p2, summaries, Rtt, p);
      SamplesAdded(p3, summaries, Window, p);
      StreamsAdded(p4, log, Retransmits, p);
      StreamsAdded(p5, log, Rtt, p);
      StreamsAdded(WithStreams(p5, log, Rtt), log, Window, p);
    }
  }

  /** Lists by stream are added exactly for tests of at least two parallel streams, some stream of which counts. */
  lemma OnlyParallelHasStreams(intervals: seq<Interval>, parallel: Option<int>, isUdp: bool)
    ensures var points := WithAll([], Summaries(intervals, |intervals|),
                                  Counted(intervals, |intervals|, Several(parallel)), isUdp);
            (exists m, lists :: StreamSubintervals(m, lists) in points) <==>
              parallel.Some? && parallel.value >= 2 && Seen(AllReadings(intervals, |intervals|)) != []
  {
    var summaries, log := Summaries(intervals, |intervals|), Counted(intervals, |intervals|, Several(parallel));
    var point := StreamSubintervals(Throughput, StreamLists(log, Throughput));
    PointsExactly([], summaries, log, isUdp, point);
    forall m, lists | StreamSubintervals(m, lists) in WithAll([], summaries, log, isUdp) ensures Seen(log) != [] {
      PointsExactly([], summaries, log, isUdp, StreamSubintervals(m, lists));
    }
  }

  // ----- intervals that are skipped

  function KeptOnly(intervals: seq<Interval>, n: nat): (r: seq<Interval>)
    requires n <= |intervals|
  {
    if n == 0 then []
    else if Kept(intervals[n - 1]) then KeptOnly(intervals, n - 1) + [intervals[n - 1]]
    else KeptOnly(intervals, n - 1)
  }

  lemma {:induction false} SamePrefix(xs: seq<Interval>, ys: seq<Interval>, n: nat)
    requires n <= |xs| && n <= |ys| && forall i :: 0 <= i < n ==> xs[i] == ys[i]
    ensures AllReadings(xs, n) == AllReadings(ys, n) && Summaries(xs, n) == Summaries(ys, n)
  {
    if n > 0 {
      SamePrefix(xs, ys, n - 1);
    }
  }

  /** An interval whose summary lacks its start or end contributes nothing, its streams included. */
  lemma {:induction false} SkippedWhole(intervals: seq<Interval>, n: nat)
    requires n <= |intervals|
    ensures var kept := KeptOnly(intervals, n);
            && AllReadings(kept, |kept|) == AllReadings(intervals, n)
            && Summaries(kept, |kept|) == Summaries(intervals, n)
  {
    if n > 0 {
      SkippedWhole(intervals, n - 1);
      var front, kept := KeptOnly(intervals, n - 1), KeptOnly(intervals, n);
      SamePrefix(front, kept, |front|);
    }
  }
}
