/**
 * retry.py and esmond_util.py: two readings of a retry policy, one taking segments
 * away from the number of attempts, the other adding them up.
 */
module Retry {
  import opened Wrappers

  datatype Segment<W> = Segment(attempts: int, wait: W)

  /** The attempts of the first n segments together. */
  function SumTo<W>(policy: seq<Segment<W>>, n: nat): int
    requires n <= |policy|
  {
    if n == 0 then 0 else SumTo(policy, n - 1) + policy[n - 1].attempts
  }

  /** The attempt lies beyond each of the first n segments. */
  ghost predicate Past<W>(policy: seq<Segment<W>>, attempts: int, n: nat)
    requires n <= |policy|
  {
    forall j :: 1 <= j <= n ==> SumTo(policy, j) <= attempts
  }

  /** Segment k is the first whose end lies beyond the attempt. */
  ghost predicate Covers<W>(policy: seq<Segment<W>>, attempts: int, k: nat)
  {
    k < |policy| && attempts < SumTo(policy, k + 1) && Past(policy, attempts, k)
  }

  /** The wait of the segment that covers the attempt, or none where none does. */
  ghost predicate Answers<W>(policy: seq<Segment<W>>, attempts: int, wait: Option<W>)
  {
    match wait
    case Some(w) => exists k: nat :: Covers(policy, attempts, k) && policy[k].wait == w
    case None => Past(policy, attempts, |policy|)
  }

  /** RetryPolicy.retry */
  method Subtracting<W>(policy: seq<Segment<W>>, attempts: int) returns (wait: Option<W>)
    ensures Answers(policy, attempts, wait)
  {
    var left := attempts;
    for k := 0 to |policy|
      invariant left == attempts - SumTo(policy, k)
      invariant Past(policy, attempts, k)
    {
      left := left - policy[k].attempts;
      if left < 0 {
        assert Covers(policy, attempts, k);
        return Some(policy[k].wait);
      }
    }
    return None;
  }

  /** The error passed on, or the notice that the archiver has given up. */
  datatype Message = Reported(error: string) | Abandoned(attempts: int, error: string)

  datatype Failure<W> = Failure(succeeded: bool, error: Message, retry: Option<W>)

  /** _handle_storage_error */
  method Summing<W>(result: string, attempts: int, policy: seq<Segment<W>>) returns (r: Failure<W>)
    ensures Answers(policy, attempts, r.retry)
    ensures !r.succeeded
    ensures r.error == if r.retry.Some? then Reported(result) else Abandoned(attempts + 1, result)
  {
    var retry := false;
    r := Failure(false, Reported(result), None);
    var sum := 0;
    var k := 0;
    while k < |policy|
      invariant k <= |policy| && !retry && sum == SumTo(policy, k)
      invariant r == Failure(false, Reported(result), None)
      invariant Past(policy, attempts, k)
    {
      sum := sum + policy[k].attempts;
      if sum > attempts {
        retry := true;
        assert Covers(policy, attempts, k);
        r := r.(retry := Some(policy[k].wait));
        break;
      }
      k := k + 1;
    }
    if !retry {
      r := r.(error := Abandoned(attempts + 1, result));
    }
  }

  /** So the two agree, for every policy and every number of attempts, negative ones too. */
  lemma OneAnswer<W>(policy: seq<Segment<W>>, attempts: int, v: Option<W>, w: Option<W>)
    requires Answers(policy, attempts, v) && Answers(policy, attempts, w)
    ensures v == w
  {
  }

  // ----- the schedule a policy lays down

  function Repeated<W>(w: W, n: nat): (r: seq<W>)
    ensures |r| == n && forall i :: 0 <= i < n ==> r[i] == w
  {
    if n == 0 then [] else Repeated(w, n - 1) + [w]
  }

  ghost predicate Counting<W>(policy: seq<Segment<W>>)
  {
    forall i :: 0 <= i < |policy| ==> policy[i].attempts >= 0
  }

  /** Each segment's wait, as often as the segment has attempts, for the first n segments. */
  function Schedule<W>(policy: seq<Segment<W>>, n: nat): seq<W>
    requires n <= |policy| && forall i :: 0 <= i < n ==> policy[i].attempts >= 0
  {
    if n == 0 then [] else Schedule(policy, n - 1) + Repeated(policy[n - 1].wait, policy[n - 1].attempts)
  }

  lemma {:induction false} ScheduleLength<W>(policy: seq<Segment<W>>, n: nat)
    requires n <= |policy| && Counting(policy)
    ensures |Schedule(policy, n)| == SumTo(policy, n)
  {
    if n > 0 {
      ScheduleLength(policy, n - 1);
    }
  }

  lemma {:induction false} ScheduleGrows<W>(policy: seq<Segment<W>>, m: nat, n: nat)
    requires m <= n <= |policy| && Counting(policy)
    ensures Schedule(policy, m) <= Schedule(policy, n)
  {
    if m < n {
      ScheduleGrows(policy, m, n - 1);
    }
  }

  /** Called with 0, 1, 2 and so on a policy gives its schedule, and after that nothing, ever. */
  lemma FollowsSchedule<W>(policy: seq<Segment<W>>, attempts: nat, wait: Option<W>)
    requires Counting(policy) && Answers(policy, attempts, wait)
    ensures var schedule := Schedule(policy, |policy|);
            wait == if attempts < |schedule| then Some(schedule[attempts]) else None
  {
    var n := |policy|;
    ScheduleLength(policy, n);
    match wait
    case Some(w) =>
      var k: nat :| Covers(policy, attempts, k) && policy[k].wait == w;
      ScheduleLength(policy, k);
      ScheduleLength(policy, k + 1);
      ScheduleGrows(policy, k + 1, n);
      assert SumTo(policy, k) <= attempts;
      assert Schedule(policy, k + 1)[attempts] == w;
    case None => assert SumTo(policy, n) <= attempts;
  }
}
