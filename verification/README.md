# Formal model of pScheduler's unbounded behaviour

This project models, in Dafny, those parts of pScheduler whose promises range over all
inputs or all runs, and proves the promises: the latency statistics, the concurrent
protocols, the limit engine, tool selection and retry policy, and the text codecs. Numbers
that are floating point in the program are exact reals here, clocks are integers that do
not run backwards, and everything foreign (HTTP, processes, jq scripts, the evaluators of
identifiers and limits, the JSON library) is a parameter.

Check everything with `dafny verify dfyconfig.toml`.

## How it is organised

One module models one source file or one part of it.

- `Latency`, `Sample`, `Powstream`: the one-pass statistics over a histogram equal those of
  the expanded sorted sample, and the histogram parsed from owamp output stands for the
  received packets. Percentiles and the histogram are classes, as in the source. `Modes`
  says what the most frequent elements of a sequence are.
- `GracefulExit`, `CidrList`: threads as steps of a state machine, with the lock holder,
  barriers and clock in the state; invariants and safety over all interleavings.
- `StreamingProgram`, `ExpiringSet`: classes whose methods are proved against functions on
  values; pairing and conservation are then proved over all sequences of calls.
- `DictHeap`, `MergeDicts`, `Overlays`: Python dictionaries as nodes that have an identity and
  are changed in place, deep copies, merging on that heap, and the algebra of what it computes.
- `Json`, `LimitSet`, `HowMany`, `ApplicationSet`, `IdentifierSet`, `ClassifierSet`,
  `LimitProcessor`: the limit pipeline, each stage's loops proved against a meaning that
  mentions no order and no early break.
- `ToolPicker`, `Retry`, `StreamRegroup`: selection, the two readings of a retry policy, and
  regrouping by stream.
- `SiNumber`, `Decimal`, `Rfc7464`, `JsonStream`, `JsonDecomment`: printing and reading back.
- `Wrappers`, `OrderedDict`, `Numeral`, `Bag`, `SortedInts`: shared vocabulary. `OrderedDict`
  is a Python dictionary with its insertion order.

## Where the code differs from its text

The model follows the code.

- `packets_seen` in `parse_raw_owamp_output` is never filled, so no packet is ever counted
  as a duplicate (`Powstream.ParseRawOwampOutput`). The count is right exactly for output
  that repeats no sequence number (`Powstream.DuplicatesRightExactly`), and wrong for the
  same packet on two lines (`Powstream.SamePacketTwice`).
- `ApplicationSet.check` says it stops when an application passes; it does not, and a later
  failing application with stop-on-failure overrules the pass (`ApplicationSet.StopOverrules`).
- `ExpiringSet` says that without a purge interval objects are purged only by calling
  `purge()`; every fetch purges them (`ExpiringSet.NoIntervalPurges`). It also says that a
  cache time of None creates a new item on each call; a fetch at the very same instant
  reuses it (`ExpiringSet.FetchAgain`).
- `merge_dicts` is to overlay conflicting values, but True does not replace 1, nor 1.0
  replace 1, because they compare equal (`Overlays.EqualKindsKeepTheOld`); exactly when a
  leaf of the overlay survives is `Overlays.LaterLeafWins`. Merging is not associative in
  general; `Overlays.MergeAssociative` says exactly when it is.
- A cloned limit loses `invert`, its source's and its own (`LimitSet.CloneIsFold`).
- `LimitProcessor.process` promises no task if it is unchanged; whenever the rewriter ran,
  its result is returned (`LimitProcessor.UnchangedTaskReturned`). The promise is kept
  exactly unless a rewriter ran that changed nothing (`LimitProcessor.TaskMeansChanged`).
  The applications judge the proposal made before rewriting.
- `pick_tool` is to pick among the tools in all lists, but one that a list names twice and
  another not at all is picked too (`ToolPicker.TwiceMakesUpForAbsence`).
  `ToolPicker.CommonMeansEligible` says for exactly which lists that cannot happen, nor its
  converse, and `ToolPicker.CommonWhenNamedOnce` which tools of every list are counted.
- An inverted identifier never matches; it is not a negated one (`IdentifierSet.MatchedExactly`).
- An update of the CIDR list that raises an exception nobody handles sets no retry time
  (`CidrList.RaiseIsRetriedAtOnce`).

## Model

| member | source | states |
|---|---|---|
| Latency.RanksApart | pscheduler-test-latency/latency/latency_utils.py:40-41 | no two of the 25th, 50th, 75th and 95th percentile share a rank strictly inside the sample, so one pending percentile at a time is enough |
| Latency.Percentile.constructor | pscheduler-test-latency/latency/latency_utils.py:35-47 | rank, whole part, fraction and key of a percentile that has not looked at any bucket |
| Latency.Percentile.FindValue | pscheduler-test-latency/latency/latency_utils.py:49-63 | what one bucket does to a percentile's value and to whether it is calculated |
| Latency.Percentile.SettledBy | pscheduler-test-latency/latency/latency_utils.py:49-63 | the bucket that reaches rank k either settles the percentile at its interpolated value in the whole sample, or leaves it pending with Y_k in hand and the count equal to k |
| Latency.Percentile.FindValueAt | pscheduler-test-latency/latency/latency_utils.py:49-63 | a percentile reported as calculated has the interpolated value of the whole sample; one that is not is pending on the next bucket |
| Latency.ModeStep | pscheduler-test-latency/latency/latency_utils.py:85-89 | one more key replaces the list of modes, joins it or leaves it alone, as its count compares with that of the first mode |
| Latency.ModesAreGreatest | pscheduler-test-latency/latency/latency_utils.py:85-89 | the modes are exactly the keys whose count no other exceeds, in dictionary order |
| Latency.Histogram.PassOne | pscheduler-test-latency/latency/latency_utils.py:74-93 | pass one fails exactly when a key is no number, and otherwise yields modes, weighted sum and sample size |
| Latency.Histogram.Settle | pscheduler-test-latency/latency/latency_utils.py:114-130 | the inner loop: every percentile the bucket can settle is settled at its value in the whole sample, and at most one is left pending |
| Latency.Histogram.PassTwo | pscheduler-test-latency/latency/latency_utils.py:105-133 | one pass over the buckets sets all four percentiles to those of the expanded, sorted sample, leaving none pending, and sums the squared deviations of that sample |
| Latency.Histogram.GetStats | pscheduler-test-latency/latency/latency_utils.py:73-135 | statistics exist exactly for a non-empty histogram of numeric keys, and are those of the expanded sorted sample |
| Latency.SampleMeaning | pscheduler-test-latency/latency/latency_utils.py:96-97 | the sorted sample holds each key's number as often as it counts, and is the only increasing list that does |
| Latency.QuantileTable | pscheduler-test-latency/latency/latency_utils.py:44-121 | the four percentiles reported are the NIST interpolated percentiles 25, 50, 75 and 95 under their names |
| Latency.MedianIsMiddle | pscheduler-test-latency/latency/latency_utils.py:49-63 | the median is the middle sample, or half-way between the middle two |
| Latency.StatsOrdered | pscheduler-test-latency/latency/latency_utils.py:100-133 | minimum <= p25 <= median <= p75 <= p95 <= maximum, minimum <= mean <= maximum, minimum and maximum are the sample's, variance not negative |
| Sample.VarianceLaw | pscheduler-test-latency/latency/latency_utils.py:111-133 | variance is the mean of the squares less the square of the mean |
| Sample.PercentileMonotone | pscheduler-test-latency/latency/latency_utils.py:49-63 | a NIST percentile of a sorted sample grows with p |
| Sample.WeightedSumIsSampleSum | pscheduler-test-latency/latency/latency_utils.py:90-113 | summing key times count is summing the expanded sample |
| Powstream.ParseRawOwampOutput | pscheduler-tool-powstream/powstream/powstream_utils.py:155-257 | the fold's counters, histograms, raw packets and clock error in terms of the matched and the received packets; no packet is ever counted as a duplicate |
| Powstream.ReceivedIsMatched | pscheduler-tool-powstream/powstream/powstream_utils.py:211-219 | received packets are the matched ones with a destination timestamp, in order |
| Powstream.ReceivedExactly | pscheduler-tool-powstream/powstream/powstream_utils.py:181-219 | where the received packets stand: on exactly the lines that match and have a destination timestamp, in order |
| Powstream.ReordersExactly | pscheduler-tool-powstream/powstream/powstream_utils.py:238-240 | the reorders counted are exactly the packets with a smaller sequence number than the one received just before |
| Powstream.TtlHistogram | pscheduler-tool-powstream/powstream/powstream_utils.py:231-235 | the TTL histogram counts how many received packets have each TTL |
| Powstream.TallyCounts | pscheduler-tool-powstream/powstream/powstream_utils.py:226-235 | a histogram counts each key as often as it occurs and holds no other |
| Powstream.TallyOrder | pscheduler-tool-powstream/powstream/powstream_utils.py:226-235 | a histogram lists its keys in the order of their first occurrence, each once |
| Powstream.DelayModes | pscheduler-tool-powstream/powstream/powstream_utils.py:221-235 | the modes of the delay histogram are exactly the received delays that no other outnumbers, each once, in the order in which they were first received |
| Modes.ModesAlike | pscheduler-tool-powstream/powstream/powstream_utils.py:221-235 | two sequences that repeat themselves at the same places, as bucket texts and delays do, have their modes at the same places |
| Powstream.DuplicatesRightExactly | pscheduler-tool-powstream/powstream/powstream_utils.py:205-208 | the number of duplicates reported equals the number of matched packets whose sequence number came up before exactly when no sequence number is repeated |
| Powstream.SamePacketTwice | pscheduler-tool-powstream/powstream/powstream_utils.py:173-208 | for one, the same packet on two lines is a duplicate |
| Powstream.MaxClockErrorIsGreatest | pscheduler-tool-powstream/powstream/powstream_utils.py:242-246 | the clock error kept is the greatest sum of both errors among packets that report both |
| Powstream.ErrorInMilliseconds | pscheduler-tool-powstream/powstream/powstream_utils.py:251-253 | it is reported in thousandths of its unit, to the nearest hundredth |
| Powstream.DelayIsNearest | pscheduler-tool-powstream/powstream/powstream_utils.py:223-225 | a delay is the difference of destination and source timestamp over 2^32 and the bucket width, to the nearest hundredth |
| Powstream.MeanDelayIsNear | pscheduler-tool-powstream/powstream/powstream_utils.py:223-225 | so the mean of the delays is within half a hundredth of the mean of the true ones |
| Powstream.DelayKeyReads | pscheduler-tool-powstream/powstream/powstream_utils.py:221-225 | reading a bucket's text as a number gives back the packet's rounded delay |
| Powstream.PacketStatistics | pscheduler-tool-powstream/powstream/powstream_utils.py:221-229 | the delay histogram has positive counts and expands to exactly the received packets' delays |
| Powstream.OutputStatistics | pscheduler-tool-powstream/powstream/powstream_utils.py:173-249 | end to end: statistics of the parsed output, mode included, are those of the received packets' own delays, and the mean is that of their true delays to within half a hundredth of a bucket |
| GracefulExit.StepKeepsInv | python-pscheduler/pscheduler/pscheduler/exit.py:21-86 | every step of every thread keeps the invariant on lock, call list, barriers and calls made |
| GracefulExit.RegistrationAddsLast | python-pscheduler/pscheduler/pscheduler/exit.py:44-64 | until exit, whenever the lock is free, a call can be registered, makes the worker if there is none, and goes last |
| GracefulExit.CallsRunInOrder | python-pscheduler/pscheduler/pscheduler/exit.py:26-64 | over all interleavings calls run only once the handler has arrived, each at most once, in registration order |
| GracefulExit.RegisteredCallsRunBeforeExit | python-pscheduler/pscheduler/pscheduler/exit.py:31-86 | what was registered before the handler looked at the barrier has run, first and in order, whenever the program has exited: every invocation that had returned among it |
| GracefulExit.ExactlyTheLockedListRuns | python-pscheduler/pscheduler/pscheduler/exit.py:31-86 | a handler that leaves through the barriers leaves after exactly the calls registered when the worker took the lock |
| GracefulExit.NextEnabled | python-pscheduler/pscheduler/pscheduler/exit.py:21-86 | after a signal some step other than a new registration is always possible until exit, unless the handler interrupted the lock holder |
| GracefulExit.RunsAreBounded | python-pscheduler/pscheduler/pscheduler/exit.py:21-86 | runs without new registrations are no longer than the work there is |
| GracefulExit.ExitReachable | python-pscheduler/pscheduler/pscheduler/exit.py:69-86 | from every such state some run exits |
| GracefulExit.StuckForever | python-pscheduler/pscheduler/pscheduler/exit.py:69-76 | a signal that interrupts the lock holder never leads to exit |
| GracefulExit.SignalExits | python-pscheduler/pscheduler/pscheduler/exit.py:69-86 | a signal leads to exit exactly if it did not interrupt the lock holder |
| GracefulExit.HolderIsInterrupted | python-pscheduler/pscheduler/pscheduler/exit.py:21-76 | it can: a registration interrupted once it has taken the lock is a reachable state from which nothing leads to exit |
| StreamingProgram.StreamingJSONProgram.Establish | python-pscheduler/pscheduler/pscheduler/program.py:511-528 | a running child is kept, any other replaced by a new one that owes nothing |
| StreamingProgram.StreamingJSONProgram.Roundtrip | python-pscheduler/pscheduler/pscheduler/program.py:531-562 | one round trip does to the retained child, and ends, as the step on values says, in every combination of failures |
| StreamingProgram.StreamingJSONProgram.Call | python-pscheduler/pscheduler/pscheduler/program.py:567-599 | the retry loop computes the outcome, the child retained and the number of round trips of the loop on values |
| StreamingProgram.StreamingJSONProgram.Done | python-pscheduler/pscheduler/pscheduler/program.py:602-605 | afterwards no child is retained |
| StreamingProgram.RoundtripPairs | python-pscheduler/pscheduler/pscheduler/program.py:531-562 | from a child that owes nothing a round trip ends with one that owes nothing, lost exactly to an IOError, and answers its own request with the very value the child wrote for it; which way each failure ends |
| StreamingProgram.CallPairs | python-pscheduler/pscheduler/pscheduler/program.py:567-599 | a call ends as its first attempt that raises no IOError does, returning what the child wrote in that attempt, after at most `retries` round trips, and gives up exactly when all of them fail |
| StreamingProgram.EveryAnswerIsToItsOwnCall | python-pscheduler/pscheduler/pscheduler/program.py:531-605 | over any sequence of calls with any crashes, ends of file and timeouts every answer returned is to the call's own request, and is what the child wrote for that very call |
| StreamingProgram.OwedLinesMisdirect | python-pscheduler/pscheduler/pscheduler/program.py:548-560 | a retained child can be trusted exactly if it owes no line to another call |
| StreamingProgram.DeadChildIsForgotten | python-pscheduler/pscheduler/pscheduler/program.py:514-524 | a child that has died is replaced, and what it owed makes no difference |
| ExpiringSet.Set.constructor | python-pscheduler/pscheduler/pscheduler/expiringset.py:24-55 | an empty set whose first purge is due an interval from now, or never scheduled |
| ExpiringSet.Set.Expire | python-pscheduler/pscheduler/pscheduler/expiringset.py:65-72 | a key that is there is destroyed and removed; a missing one raises unless that is allowed |
| ExpiringSet.Set.Purge | python-pscheduler/pscheduler/pscheduler/expiringset.py:75-105 | nothing when too early and not forced, otherwise every record with an expiry before now is destroyed and the next purge scheduled |
| ExpiringSet.Set.Fetch | python-pscheduler/pscheduler/pscheduler/expiringset.py:109-155 | the object returned and the state left by a fetch: purge, lazy expiry of its own key, creation if needed, new expiry |
| ExpiringSet.RunConserves | python-pscheduler/pscheduler/pscheduler/expiringset.py:65-155 | after any calls at any times the objects made are those live and those destroyed, without overlap, none destroyed twice |
| ExpiringSet.FetchReturnsLive | python-pscheduler/pscheduler/pscheduler/expiringset.py:128-155 | a fetch returns an object of its key that is live and not destroyed, with its expiry renewed |
| ExpiringSet.FetchReuses | python-pscheduler/pscheduler/pscheduler/expiringset.py:128-147 | a fetch returns an existing object exactly when the key's recorded expiry has not passed at the lookup, and otherwise a new one made from the data it was given |
| ExpiringSet.FetchAgain | python-pscheduler/pscheduler/pscheduler/expiringset.py:150-153 | the next fetch of a key returns the same object exactly when it comes no later than the cache time allows; with no cache time that still includes the same instant |
| ExpiringSet.NoIntervalPurges | python-pscheduler/pscheduler/pscheduler/expiringset.py:75-126 | without a purge interval every fetch purges: of the other keys exactly those not stale keep their records, unchanged |
| ExpiringSet.PurgeLeavesCurrent | python-pscheduler/pscheduler/pscheduler/expiringset.py:78-105 | a purge that is made leaves exactly the records that are not stale, unchanged, and schedules the next |
| ExpiringSet.ExpireRemoves | python-pscheduler/pscheduler/pscheduler/expiringset.py:58-72 | after expire() the key has no record, its object is destroyed, and nothing else has changed |
| ExpiringSet.FirstPurge | python-pscheduler/pscheduler/pscheduler/expiringset.py:49-82 | the first purge of a new set is due when its interval has passed since it was made, not before |
| ExpiringSet.CallHidden | python-pscheduler/pscheduler/pscheduler/expiringset.py:75-155 | one call on a set that purges and on one that never does gives the same object; only expire() of a stale key can differ, in whether it raises |
| ExpiringSet.PurgeIsTransparent | python-pscheduler/pscheduler/pscheduler/expiringset.py:75-155 | for any calls on a clock that does not run backwards a set that purges returns on every fetch the object a set that never purges returns, and holds at the end the latter's records less some stale ones |
| ExpiringSet.LazyRunConserves | python-pscheduler/pscheduler/pscheduler/expiringset.py:65-155 | the set that never purges conserves its objects over any calls too |
| ExpiringSet.PurgeDestroysSooner | python-pscheduler/pscheduler/pscheduler/expiringset.py:65-105 | over any run what the set that never purges has destroyed the one that purges has destroyed too; what else that one has destroyed is the other's, live and stale |
| ExpiringSet.FromNew | python-pscheduler/pscheduler/pscheduler/expiringset.py:24-155 | all of this from two new sets, one with any purge interval and one that never purges |
| SiNumber.FormatSi | python-pscheduler/pscheduler/pscheduler/sinumber.py:75-92 | the loop prints with the first eligible multiplier that does not exceed the number, or with 1 |
| SiNumber.NumberAsSi | python-pscheduler/pscheduler/pscheduler/sinumber.py:58-92 | any base but 2 and 10 is refused; otherwise the text is the print with the chosen multiplier |
| SiNumber.ChosenPower | python-pscheduler/pscheduler/pscheduler/sinumber.py:69-92 | the chosen multiplier is the largest power of the base's step not exceeding the number, or 1 if there is none |
| SiNumber.PrintExactly | python-pscheduler/pscheduler/pscheduler/sinumber.py:69-92 | the print is the quotient by that power and its letter, capital, with an i for base 2 |
| SiNumber.ReadsPrint | python-pscheduler/pscheduler/pscheduler/sinumber.py:33-92 | reading a printed number gives the rounded quotient times the chosen multiplier |
| SiNumber.RoundTrip | python-pscheduler/pscheduler/pscheduler/sinumber.py:33-92 | for every real, base and number of places, printing and reading back moves the number by at most 0.5 / 10^places times the multiplier |
| SiNumber.CaseDoesNotMatter | python-pscheduler/pscheduler/pscheduler/sinumber.py:43 | capitals and small letters are read alike |
| SiNumber.SpacesDoNotMatter | python-pscheduler/pscheduler/pscheduler/sinumber.py:30-43 | blanks may stand between a number and its suffix |
| SiNumber.OtherSuffixesRefused | python-pscheduler/pscheduler/pscheduler/sinumber.py:30-46 | a text is read exactly if after a number and blanks there is a suffix of the table, or none, and nothing more but a newline |
| Decimal.FixedValue | python-pscheduler/pscheduler/pscheduler/sinumber.py:73-92 | a fixed-point print followed by anything that cannot extend it scans as the number rounded to that many places |
| Decimal.RoundToError | python-pscheduler/pscheduler/pscheduler/sinumber.py:73 | rounding to a number of places moves a value by at most 0.5 / 10^places |
| Decimal.FixedShape | python-pscheduler/pscheduler/pscheduler/sinumber.py:73-92 | a fixed-point print has a sign if negative, no idle leading zero, and exactly so many places |
| Decimal.ScanExactly | python-pscheduler/pscheduler/pscheduler/sinumber.py:30 | the scanner takes the longest number in fixed-point notation there is, and fails exactly where no digit begins one |
| MergeDicts.Merge | python-pscheduler/pscheduler/pscheduler/limitprocessor/limitset.py:42-59 | the loop with its recursion, in place: a becomes the overlay of b on it and may hold dictionaries of b; no dictionary but a's own is changed, and a stands for what it did exactly if b adds nothing |
| MergeDicts.MergeKey | python-pscheduler/pscheduler/pscheduler/limitprocessor/limitset.py:49-58 | one key of b: merged in place if both sides hold dictionaries, left alone if equal, otherwise b's value stored; only a and what it held there may change |
| DictHeap.DeepCopy | python-pscheduler/pscheduler/pscheduler/limitprocessor/limitset.py:103-105 | copy.deepcopy: an equal value made of new dictionaries only, everything there was unchanged |
| MergeDicts.CloneData | python-pscheduler/pscheduler/pscheduler/limitprocessor/limitset.py:99-106 | a clone's data is the overlay of its own on its source's, made of new dictionaries only; both keep theirs |
| MergeDicts.UncopiedSourceKept | python-pscheduler/pscheduler/pscheduler/limitprocessor/limitset.py:103-105 | merged into without a copy, the source keeps its data exactly if the clone adds nothing to it |
| MergeDicts.UncopiedSourceAltered | python-pscheduler/pscheduler/pscheduler/limitprocessor/limitset.py:103-105 | for one, a limit that always passes would be altered by a clone that never does |
| DictHeap.Framed | python-pscheduler/pscheduler/pscheduler/limitprocessor/limitset.py:42-59 | a value depends on the dictionaries it is made of alone: changes elsewhere leave it as it is |
| Overlays.LaterLeafWins | python-pscheduler/pscheduler/pscheduler/limitprocessor/limitset.py:42-59 | a leaf of b is in the result, save where a holds an equal value (1 for True), whose kind stays |
| Overlays.PlainLeafWins | python-pscheduler/pscheduler/pscheduler/limitprocessor/limitset.py:52-55 | a text, null or any other leaf of b that holds no number or boolean is in the result as it is; of the others what their numbers denote is |
| Overlays.EarlierLeafStays | python-pscheduler/pscheduler/pscheduler/limitprocessor/limitset.py:42-59 | a leaf of a stays exactly when b has nothing on its path, or an equal value at its end |
| Overlays.NoOtherLeaves | python-pscheduler/pscheduler/pscheduler/limitprocessor/limitset.py:42-59 | every leaf of the result is a's or b's at the same path |
| Overlays.NothingAdded | python-pscheduler/pscheduler/pscheduler/limitprocessor/limitset.py:42-59 | merging leaves a as it is exactly when every value of b is in a, up to Python's equality |
| Overlays.MergeIdempotent | python-pscheduler/pscheduler/pscheduler/limitprocessor/limitset.py:42-59 | merging the same thing in again changes nothing |
| Overlays.MergeRespectsEquality | python-pscheduler/pscheduler/pscheduler/limitprocessor/limitset.py:42-59 | merging in operands that are equal to Python gives results that are |
| Overlays.MergeAssociative | python-pscheduler/pscheduler/pscheduler/limitprocessor/limitset.py:42-59 | merging is associative, up to Python's equality, exactly when no dictionaries of a and c meet with something else of b between them that makes a difference |
| Overlays.GroupingCanMatter | python-pscheduler/pscheduler/pscheduler/limitprocessor/limitset.py:42-59 | three dictionaries for which the grouping matters |
| Overlays.EqualKindsKeepTheOld | python-pscheduler/pscheduler/pscheduler/limitprocessor/limitset.py:52-53 | overlaying True on 1 leaves 1 |
| Json.PyEqTransitive | python-pscheduler/pscheduler/pscheduler/limitprocessor/limitset.py:52 | Python's equality of JSON values, by which the merge compares, is transitive |
| Json.PyEqIsNormal | python-pscheduler/pscheduler/pscheduler/limitprocessor/limitset.py:52 | values are equal to Python exactly when they are the same once every number and boolean is told by the number it denotes |
| Json.PlainEquality | python-pscheduler/pscheduler/pscheduler/limitprocessor/limitset.py:52 | where one side holds no number or boolean, equal means the same: no two texts are equal, nor a text and null |
| LimitSet.Make | python-pscheduler/pscheduler/pscheduler/limitprocessor/limitset.py:80-126 | one entry becomes a limit, its clone resolved from those before it, or is refused for the first of its faults; no dictionary there was is changed |
| LimitSet.Load | python-pscheduler/pscheduler/pscheduler/limitprocessor/limitset.py:74-126 | the table is built exactly when no entry is at fault, each limit being what its entry resolves to; otherwise the fault is that of the first faulty entry; every dictionary of the file keeps its data, and every limit's dictionary stands to the end for the data it was made from |
| LimitSet.ChainLinks | python-pscheduler/pscheduler/pscheduler/limitprocessor/limitset.py:90-97 | a chain of clones leads from a plain entry through entries each cloning the one before |
| LimitSet.CloneIsFold | python-pscheduler/pscheduler/pscheduler/limitprocessor/limitset.py:99-108 | a clone has the type of the head of its chain, the fold of merges along it, and no `invert` |
| LimitSet.LastWordWins | python-pscheduler/pscheduler/pscheduler/limitprocessor/limitset.py:99-106 | the last entry of a chain to say anything on a path has its way there |
| LimitSet.PlainLastWord | python-pscheduler/pscheduler/pscheduler/limitprocessor/limitset.py:99-106 | a text, null or anything else without numbers and booleans is in the clone as the last entry that gives it has it |
| LimitSet.FaultlessExactly | python-pscheduler/pscheduler/pscheduler/limitprocessor/limitset.py:80-126 | no entry is at fault exactly when names are distinct, clones name earlier entries, and every limit as cloned has a supported type that accepts its data |
| LimitSet.PassesExactly | python-pscheduler/pscheduler/pscheduler/limitprocessor/limitset.py:160-186 | a limit passes as its evaluator says, turned round exactly if it inverts; passed over are only schedule limits where the schedule does not count |
| LimitSet.Check | python-pscheduler/pscheduler/pscheduler/limitprocessor/limitset.py:133-186 | an undefined limit is an error; a limit passes when bypassed, or as its evaluator says turned round by inversion, with the limit and reasons that go with it |
| HowMany.CountsDecide | python-pscheduler/pscheduler/pscheduler/limitprocessor/applicationset.py:16-38 | counting passes and failures decides exactly none, exactly one, at least one or all |
| HowMany.SatisfiedIgnoresOrder | python-pscheduler/pscheduler/pscheduler/limitprocessor/applicationset.py:16-38 | the order of the names does not matter, repetitions included |
| HowMany.RequirementsCompared | python-pscheduler/pscheduler/pscheduler/limitprocessor/applicationset.py:16-38 | how the four requirements stand to one another, on no names and on a single one |
| ApplicationSet.CheckGroup | python-pscheduler/pscheduler/pscheduler/limitprocessor/applicationset.py:93-143 | a group passes exactly when its limits meet its requirement; its passing limits are listed in order; an undefined limit stops everything |
| ApplicationSet.LimitsKeptExactly | python-pscheduler/pscheduler/pscheduler/limitprocessor/applicationset.py:121-130 | the limits listed are those of the passing limits that name one, each in its place |
| ApplicationSet.CheckApplication | python-pscheduler/pscheduler/pscheduler/limitprocessor/applicationset.py:146-181 | with its early break an application passes exactly when all its groups pass, or not all if inverted, and reports the limits of the groups before the first failing one |
| ApplicationSet.CheckAll | python-pscheduler/pscheduler/pscheduler/limitprocessor/applicationset.py:185-242 | the verdict is that some applicable application passes and no applicable one with stop-on-failure fails; the limits are one list per passing application |
| ApplicationSet.VerdictIgnoresOrder | python-pscheduler/pscheduler/pscheduler/limitprocessor/applicationset.py:185-242 | permuting applications, groups within them and limits within groups leaves the verdict as it is |
| ApplicationSet.ListsOneAnswer | python-pscheduler/pscheduler/pscheduler/limitprocessor/applicationset.py:200-242 | the lists returned are settled by the verdicts of groups and applications alone |
| ApplicationSet.Construct | python-pscheduler/pscheduler/pscheduler/limitprocessor/applicationset.py:51-90 | construction succeeds exactly when every classifier and limit named is known, and otherwise lists exactly the unknown ones |
| ApplicationSet.ConstructedIsDefined | python-pscheduler/pscheduler/pscheduler/limitprocessor/applicationset.py:72-76 | after construction evaluation never meets an undefined limit |
| IdentifierSet.Load | python-pscheduler/pscheduler/pscheduler/limitprocessor/identifierset.py:37-63 | identifiers are accepted exactly when names are distinct, types supported and evaluators made; otherwise the first fault is reported |
| IdentifierSet.AcceptedExactly | python-pscheduler/pscheduler/pscheduler/limitprocessor/identifierset.py:37-63 | no identifier is at fault exactly when names are distinct, types supported and their data accepted |
| IdentifierSet.Identities | python-pscheduler/pscheduler/pscheduler/limitprocessor/identifierset.py:70-98 | the names of the matching identifiers, in order |
| IdentifierSet.MatchedExactly | python-pscheduler/pscheduler/pscheduler/limitprocessor/identifierset.py:81-96 | a name is returned exactly when an identifier of that name matches and is not inverted |
| ClassifierSet.Load | python-pscheduler/pscheduler/pscheduler/limitprocessor/classifierset.py:21-48 | classifiers are accepted exactly when names are distinct and their identifiers known; otherwise the first fault is reported |
| ClassifierSet.AcceptedExactly | python-pscheduler/pscheduler/pscheduler/limitprocessor/classifierset.py:21-48 | no classifier is at fault exactly when names are distinct and all identifiers named are known |
| ClassifierSet.Classifications | python-pscheduler/pscheduler/pscheduler/limitprocessor/classifierset.py:55-75 | the names of the classifiers that hold, in order |
| ClassifierSet.ClassifiedExactly | python-pscheduler/pscheduler/pscheduler/limitprocessor/classifierset.py:66-72 | a name is returned exactly when a classifier of that name has its requirement met by the identities |
| ClassifierSet.ClassifiesExactly | python-pscheduler/pscheduler/pscheduler/limitprocessor/classifierset.py:61-70 | what each requirement asks of a classifier's identifiers; without one any will do |
| LimitProcessor.Construct | python-pscheduler/pscheduler/pscheduler/limitprocessor/limitprocessor.py:26-112 | a processor that is constructed names only identifiers, classifiers and limits that exist; without a source it is inert; the configuration's dictionaries are left as they were |
| LimitProcessor.Process | python-pscheduler/pscheduler/pscheduler/limitprocessor/limitprocessor.py:115-251 | a built processor never hits an undefined limit; a task passes exactly when an identifier matches, a classifier holds, rewriting succeeds, the applications accept the proposal as made and a priority asked for is found; limits, task and priority go with that |
| LimitProcessor.Apply | python-pscheduler/pscheduler/pscheduler/limitprocessor/limitprocessor.py:176-251 | the same for the stages after classification; the limits are none, or one non-empty list for each passing application |
| LimitProcessor.UnscheduledIgnoresSchedule | python-pscheduler/pscheduler/pscheduler/limitprocessor/limitprocessor.py:176-206 | a task without `run_schedule` has the same outcome whatever the evaluators of limits on the schedule say |
| LimitProcessor.ForbiddenIsRefused | python-pscheduler/pscheduler/pscheduler/limitprocessor/limitprocessor.py:176-206 | a task is refused if a limit says no to the hints and the task, in an all-of group of an applicable, uninverted application with stop-on-failure; limits on the schedule count exactly for tasks that have one |
| LimitProcessor.SingleApplication | python-pscheduler/pscheduler/pscheduler/limitprocessor/limitprocessor.py:115-251 | with one uninverted application of one all-of group a recognized task is admitted exactly if that applies, by classifier, and none of its limits says no |
| LimitProcessor.RewriterDecides | python-pscheduler/pscheduler/pscheduler/limitprocessor/limitprocessor.py:184-251 | the rewriter sees hints and task as made; its task is returned, and if changed is the one prioritized; if it fails the task is refused |
| LimitProcessor.NothingRewritten | python-pscheduler/pscheduler/pscheduler/limitprocessor/limitprocessor.py:184-251 | without it no task is returned, the task as made is prioritized, and without prioritizing the priority is 0 |
| LimitProcessor.TaskMeansChanged | python-pscheduler/pscheduler/pscheduler/limitprocessor/limitprocessor.py:135-251 | a task is returned exactly when it was changed, unless the rewriter ran and changed nothing, and never then |
| LimitProcessor.UnchangedTaskReturned | python-pscheduler/pscheduler/pscheduler/limitprocessor/limitprocessor.py:184-251 | for one, a rewriter that leaves every task alone |
| LimitProcessor.AdmissionIgnoresOrder | python-pscheduler/pscheduler/pscheduler/limitprocessor/limitprocessor.py:205-206 | whether a task passes does not depend on the order of applications, groups or limits |
| CidrList.Build | python-pscheduler/pscheduler/pscheduler/limitprocessor/identifier/ipcidrlisturl.py:99-114 | the list is the prefixes of the readable lines, the length their number |
| CidrList.LengthCoversList | python-pscheduler/pscheduler/pscheduler/limitprocessor/identifier/ipcidrlisturl.py:100-198 | the length is at least the list's size, and zero exactly when the list is empty |
| CidrList.PrefixesExactly | python-pscheduler/pscheduler/pscheduler/limitprocessor/identifier/ipcidrlisturl.py:102-114 | a prefix is in the list exactly when what counts of some line is not empty and reads as it |
| CidrList.StrippedExactly | python-pscheduler/pscheduler/pscheduler/limitprocessor/identifier/ipcidrlisturl.py:103 | what counts of a line is all before its first '#', without the blanks at either end |
| CidrList.AdditionsExactly | python-pscheduler/pscheduler/pscheduler/limitprocessor/identifier/ipcidrlisturl.py:108 | the length is the number of lines that can be read |
| CidrList.StepKeepsInv | python-pscheduler/pscheduler/pscheduler/limitprocessor/identifier/ipcidrlisturl.py:64-135 | every step of every thread keeps the invariant on lock, update, times, log and list |
| CidrList.SingleFlight | python-pscheduler/pscheduler/pscheduler/limitprocessor/identifier/ipcidrlisturl.py:123-135 | over all interleavings at most one thread is inside the update, and `updating` is set exactly while one is |
| CidrList.FetchesAreSpaced | python-pscheduler/pscheduler/pscheduler/limitprocessor/identifier/ipcidrlisturl.py:74-135 | fetches never overlap, and none starts within `update` of a success or `retry` of a handled failure |
| CidrList.StartsWhenDue | python-pscheduler/pscheduler/pscheduler/limitprocessor/identifier/ipcidrlisturl.py:125-132 | no fetch starts before the next attempt is due |
| CidrList.DueIsFetched | python-pscheduler/pscheduler/pscheduler/limitprocessor/identifier/ipcidrlisturl.py:125-133 | the converse: when the next attempt is due, the lock free and no update under way, the thread that calls is the one that fetches, at once |
| CidrList.FirstCallFetches | python-pscheduler/pscheduler/pscheduler/limitprocessor/identifier/ipcidrlisturl.py:178-182 | in particular the first call, made at construction |
| CidrList.NotDueIsDeclined | python-pscheduler/pscheduler/pscheduler/limitprocessor/identifier/ipcidrlisturl.py:125-128 | when it is not due, or an update is under way, a call leaves everything as it was |
| CidrList.FailureIsNoted | python-pscheduler/pscheduler/pscheduler/limitprocessor/identifier/ipcidrlisturl.py:74-92 | a handled failure makes the next attempt due `retry` after the fetch returned, however long the lock is waited for, and leaves the list alone |
| CidrList.SuccessIsPublished | python-pscheduler/pscheduler/pscheduler/limitprocessor/identifier/ipcidrlisturl.py:99-119 | a text fetched becomes the list, with its length, and makes the next attempt due `update` after that |
| CidrList.NextAttemptIsLastDue | python-pscheduler/pscheduler/pscheduler/limitprocessor/identifier/ipcidrlisturl.py:79-181 | at all times the next attempt is due exactly when the attempt last noted made it, or at the epoch before any |
| CidrList.TimesInOrder | python-pscheduler/pscheduler/pscheduler/limitprocessor/identifier/ipcidrlisturl.py:79-119 | the times of fetches started, failed and succeeded never run backwards nor ahead of the clock |
| CidrList.PublishedTogether | python-pscheduler/pscheduler/pscheduler/limitprocessor/identifier/ipcidrlisturl.py:116-119 | whenever the lock is free list and length come from the same text, the last one fetched successfully |
| CidrList.FailuresKeepTheList | python-pscheduler/pscheduler/pscheduler/limitprocessor/identifier/ipcidrlisturl.py:76-92 | attempts that fail leave the list as it was |
| CidrList.RaiseIsRetriedAtOnce | python-pscheduler/pscheduler/pscheduler/limitprocessor/identifier/ipcidrlisturl.py:131-135 | an exception that is not handled clears `updating` and leaves the next attempt due at once |
| CidrList.NextEnabled | python-pscheduler/pscheduler/pscheduler/limitprocessor/identifier/ipcidrlisturl.py:123-135 | while any thread is in a call some thread in a call can move |
| ToolPicker.PickTool | pscheduler-server/pscheduler-server/api-server/pschedulerapiserver/tasks.py:37-103 | the pick in terms of counts, scores and the order in which tools were first met |
| ToolPicker.Tally | pscheduler-server/pscheduler-server/api-server/pschedulerapiserver/tasks.py:56-76 | the counting and scoring loops, keys in order of first meeting |
| ToolPicker.SortedHead | pscheduler-server/pscheduler-server/api-server/pschedulerapiserver/tasks.py:91-93 | the head of the stable sort is the first of the least |
| ToolPicker.PickMeansLeast | pscheduler-server/pscheduler-server/api-server/pschedulerapiserver/tasks.py:37-93 | with names distinct in each list: the tool of least total position among those in all lists, ties to the earliest in the first list; none exactly when no tool is in all |
| ToolPicker.NeverBehindEverywhere | pscheduler-server/pscheduler-server/api-server/pschedulerapiserver/tasks.py:48-50 | no tool in all lists is ahead of the pick in every list |
| ToolPicker.PickMeansFirst | pscheduler-server/pscheduler-server/api-server/pschedulerapiserver/tasks.py:95-103 | with a pick list: its first candidate that is in all lists |
| ToolPicker.NothingFromOne | pscheduler-server/pscheduler-server/api-server/pschedulerapiserver/tasks.py:61-62 | a participant that returned nothing leaves nothing to pick |
| ToolPicker.TwiceMakesUpForAbsence | pscheduler-server/pscheduler-server/api-server/pschedulerapiserver/tasks.py:80-83 | a name twice in one list counts as common although another list lacks it, and is picked |
| ToolPicker.CommonWhenNamedOnce | pscheduler-server/pscheduler-server/api-server/pschedulerapiserver/tasks.py:80-83 | a tool in every list counts as common exactly when each list names it once |
| ToolPicker.CommonMeansEligible | pscheduler-server/pscheduler-server/api-server/pschedulerapiserver/tasks.py:48-83 | common means in every list exactly when each tool in all lists is named once in each and no tool missing from some list is named as often as there are lists |
| StreamRegroup.AddInterval | pscheduler-archiver-esmond/esmond/esmond_util.py:693-762 | the body of the loop: one interval, skipped whole or added to the samples and, for parallel streams, to the lists |
| StreamRegroup.Gather | pscheduler-archiver-esmond/esmond/esmond_util.py:685-762 | the loop over the intervals: per metric the summaries' samples, and a dictionary of each stream's samples |
| StreamRegroup.AddSample | pscheduler-archiver-esmond/esmond/esmond_util.py:724-762 | one metric of one stream: its list is made if it is new, and its sample appended if it has one |
| StreamRegroup.Format | pscheduler-archiver-esmond/esmond/esmond_util.py:766-770 | the lists of a dictionary in order of stream id |
| StreamRegroup.AddAdditionalData | pscheduler-archiver-esmond/esmond/esmond_util.py:684-796 | the data points added for the intervals, in order, for UDP and other tests, with and without parallel streams |
| StreamRegroup.NothingLost | pscheduler-archiver-esmond/esmond/esmond_util.py:713-796 | the i-th list holds exactly the samples of the i-th smallest stream id, in interval order, and the lists together hold every counted sample as often as it was taken |
| StreamRegroup.StreamSamplesExactly | pscheduler-archiver-esmond/esmond/esmond_util.py:693-762 | a sample is in a stream's list exactly if some stream of that id gives it, from its start to its end, in an interval that is not skipped |
| StreamRegroup.SummarySamplesExactly | pscheduler-archiver-esmond/esmond/esmond_util.py:700-711 | a sample is among the summaries' exactly if some interval's summary gives it |
| StreamRegroup.PointsExactly | pscheduler-archiver-esmond/esmond/esmond_util.py:771-796 | which points are added: of each metric of the test its samples, if any, and its lists, if any stream |
| StreamRegroup.OnlyParallelHasStreams | pscheduler-archiver-esmond/esmond/esmond_util.py:713-796 | lists by stream are added exactly for tests of more than one parallel stream, some stream of which counts |
| StreamRegroup.SkippedWhole | pscheduler-archiver-esmond/esmond/esmond_util.py:694-698 | an interval with a summary that lacks start or end contributes nothing, its streams included |
| SortedInts.SortedAscends | pscheduler-archiver-esmond/esmond/esmond_util.py:769 | the sorted keys of a dictionary are strictly increasing |
| Retry.Subtracting | python-pscheduler/pscheduler/pscheduler/retry.py:49-62 | the wait of the first segment whose end lies beyond the attempt, or none |
| Retry.Summing | pscheduler-archiver-esmond/esmond/esmond_util.py:177-192 | the same answer by adding up, with the error reported or the notice of giving up |
| Retry.OneAnswer | python-pscheduler/pscheduler/pscheduler/retry.py:49-62 | the two agree for every policy and every number of attempts |
| Retry.FollowsSchedule | python-pscheduler/pscheduler/pscheduler/retry.py:49-62 | 0, 1, 2 and so on give each segment's wait as often as it has attempts, in order, and then nothing |
| JsonDecomment.DeletesAll | python-pscheduler/pscheduler/pscheduler/psjson.py:19-39 | deleting leaves no prefixed name at any depth, and leaves alone what had none |
| JsonDecomment.NullsAll | python-pscheduler/pscheduler/pscheduler/psjson.py:19-39 | nulling leaves every prefixed member null, and leaves alone what was so |
| JsonDecomment.Idempotent | python-pscheduler/pscheduler/pscheduler/psjson.py:13-39 | scrubbing twice is scrubbing once, in both modes |
| JsonDecomment.Commutes | python-pscheduler/pscheduler/pscheduler/psjson.py:13-39 | deleting by one prefix and nulling by another commute |
| JsonDecomment.StaysInPlace | python-pscheduler/pscheduler/pscheduler/psjson.py:19-39 | off the prefixed names everything stays in its place, itself scrubbed; on one, deletion leaves nothing |
| Rfc7464.Emitter.EmitText | python-pscheduler/pscheduler/pscheduler/psjson.py:183-193 | a frame is written: separator, the text without newlines, newline |
| Rfc7464.FlatJoins | python-pscheduler/pscheduler/pscheduler/psjson.py:190 | newlines are taken out character by character, and nothing else is |
| Rfc7464.Parser.Next | python-pscheduler/pscheduler/pscheduler/psjson.py:212-226 | the next item of the stream: the end, a bad line, or the text after a separator |
| Rfc7464.FramesOneMore | python-pscheduler/pscheduler/pscheduler/psjson.py:183-193 | emitting texts in turn writes their frames in turn |
| Rfc7464.RoundTrip | python-pscheduler/pscheduler/pscheduler/psjson.py:183-226 | reading what was written yields the texts without newlines, in order, and then the end |
| Rfc7464.Resynchronizes | python-pscheduler/pscheduler/pscheduler/psjson.py:217-226 | a bad line among frames is reported as such, and no text before or after it is lost |
| JsonStream.ValuesArrive | python-pscheduler/pscheduler/pscheduler/psjson.py:132-226 | every value arrives in its place without its '#' members, as sent exactly if it had none |

## Left out

- Floating point: rounding, infinities and NaN; a bucket's text is read back exactly.
- The standard deviation, which is the square root of the variance proved here.
- Histograms with zero or negative counts; the parser makes none.
- The packet pattern of `parse_raw_owamp_output`: a line is a record of its fields or no match, and an error field is a number or absent.
- Python integers and text in `si_as_number` beyond ASCII: other alphabets' letters, digits and blanks; and `si_range`.
- ExpiringSet.Set.Purge: the order in which one purge calls the destroyer is not modelled; exceptions of creators and destroyers are not either.
- GracefulExit.SignalExits: a second signal, calls that raise or that register further calls, and fairness of the scheduler are not modelled; the claim is about runs that can go no further.
- StreamingProgram.EveryAnswerIsToItsOwnCall: `done` is taken between calls, although the program does not take the lock in it; the child is one that writes at most one line for each request, in order.
- CidrList.PublishedTogether: `evaluate` reads length and list outside the lock, and nothing is claimed of what it sees; the search and the exclusions are library calls.
- CidrList.PrefixesExactly: a text is the list of its lines; blanks are the four of ASCII, and what a prefix is, the radix library decides.
- MergeDicts.Merge: the order of keys is not modelled; a list is a value, as merging never looks into one.
- LimitSet.Load: each entry's data is a dictionary, as every evaluator demands, and a tree of dictionaries, as a parsed file gives it; missing members of an entry are not modelled, and evaluators leave the data they are given alone.
- LimitSet.Check: an evaluator that raises, or fails without giving reasons, is not modelled.
- LimitProcessor.Process: diagnostic text is not modelled; neither are the schema check of the limit file and the reading of the file itself.
- jq scripts, HTTP, DNS, process handling, SQL and the web server: foreign calls, represented by parameters or not at all.
- StreamRegroup.AddAdditionalData: only the data points of `intervals`; those of `summary` are straight copies of fields. Stream ids are integers and the values numbers.
- Retry.FollowsSchedule: segments have a number of attempts that is not negative, as the policy's schema demands; conversion of ISO 8601 durations is not modelled.
- Rfc7464.RoundTrip: for a handle that passes characters through; a handle that translates carriage returns to newlines would split a text holding one. Timeouts are not modelled here.
- JsonStream.ValuesArrive: that the JSON library reads back what it wrote of the value in question is a premise.
- `json_substitute`, `json_check_schema`, `wrappable_range_overlaps`, validators and the tables of JSON schemas: easy, or data for a library.
