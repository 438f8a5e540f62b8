/**
 * ipcidrlisturl.py: a list of CIDRs refreshed from a URL by whichever thread finds it
 * due, as the steps the threads take between acquiring and releasing the data lock.
 */
module CidrList {
  import opened Wrappers

  // ----- what a fetched text says

  /** The prefix a line adds to the list, or None where adding it raises. */
  type Reader = string -> Option<string>

  predicate Blank(c: char)
  {
    c == ' ' || c == '\t' || c == '\n' || c == '\r'
  }

  /** A line up to its comment. */
  function Uncommented(line: string): string
  {
    if line == [] || line[0] == '#' then [] else [line[0]] + Uncommented(line[1..])
  }

  function StripLeft(s: string): string
  {
    if s != [] && Blank(s[0]) then StripLeft(s[1..]) else s
  }

  function StripRight(s: string): string
  {
    if s != [] && Blank(s[|s| - 1]) then StripRight(s[..|s| - 1]) else s
  }

  function Stripped(line: string): string
  {
    StripRight(StripLeft(Uncommented(line)))
  }

  predicate AllBlank(s: string)
  {
    forall i :: 0 <= i < |s| ==> s[i] in [' ', '\t', '\n', '\r']
  }

  /** What is left of the comment: all of the line up to its first '#'. */
  lemma {:induction false} UncommentedExactly(line: string)
    ensures Uncommented(line) <= line && '#' !in Uncommented(line)
    ensures Uncommented(line) == line || line[|Uncommented(line)|] == '#'
  {
    if line != [] && line[0] != '#' {
      UncommentedExactly(line[1..]);
    }
  }

  lemma {:induction false} StripLeftExactly(s: string) returns (blanks: string)
    ensures AllBlank(blanks) && s == blanks + StripLeft(s)
    ensures StripLeft(s) == [] || StripLeft(s)[0] !in [' ', '\t', '\n', '\r']
  {
    blanks := [];
    if s != [] && Blank(s[0]) {
      var rest := StripLeftExactly(s[1..]);
      blanks := [s[0]] + rest;
    }
  }

  lemma {:induction false} StripRightExactly(s: string) returns (blanks: string)
    ensures AllBlank(blanks) && s == StripRight(s) + blanks
    ensures StripRight(s) == [] || StripRight(s)[|StripRight(s)| - 1] !in [' ', '\t', '\n', '\r']
  {
    blanks := [];
    if s != [] && Blank(s[|s| - 1]) {
      var rest := StripRightExactly(s[..|s| - 1]);
      blanks := rest + [s[|s| - 1]];
    }
  }

  /**
   * What counts of a line: between blanks, and without a blank at either end, all that
   * stands before its first '#'.
   */
  lemma StrippedExactly(line: string) returns (before: string, after: string)
    ensures AllBlank(before) && AllBlank(after)
    ensures var kept := Stripped(line);
            var text := before + kept + after;
            && text <= line && '#' !in text && (text == line || line[|text|] == '#')
            && (kept == [] || (kept[0] !in [' ', '\t', '\n', '\r'] && kept[|kept| - 1] !in [' ', '\t', '\n', '\r']))
  {
    UncommentedExactly(line);
    before := StripLeftExactly(Uncommented(line));
    var right := StripLeft(Uncommented(line));
    after := StripRightExactly(right);
    assert right == Stripped(line) + after;
    assert before + Stripped(line) + after == before + right == Uncommented(line);
    if Stripped(line) != [] {
      assert right[0] == Stripped(line)[0];
    }
  }

  function Prefix(read: Reader, line: string): Option<string>
  {
    if Stripped(line) == [] then None else read(Stripped(line))
  }

  /** The prefixes of the first n lines. */
  function Prefixes(read: Reader, lines: seq<string>, n: nat): set<string>
    requires n <= |lines|
  {
    if n == 0 then {}
    else
      var last := Prefix(read, lines[n - 1]);
      Prefixes(read, lines, n - 1) + if last.Some? then {last.value} else {}
  }

  /** The number of the first n lines that add one, counting repetitions. */
  function Additions(read: Reader, lines: seq<string>, n: nat): nat
    requires n <= |lines|
  {
    if n == 0 then 0 else Additions(read, lines, n - 1) + if Prefix(read, lines[n - 1]).Some? then 1 else 0
  }

  /** The loop that builds the new list and its length. */
  method Build(read: Reader, lines: seq<string>) returns (cidrs: set<string>, length: nat)
    ensures cidrs == Prefixes(read, lines, |lines|) && length == Additions(read, lines, |lines|)
  {
    cidrs, length := {}, 0;
    for n := 0 to |lines|
      invariant cidrs == Prefixes(read, lines, n) && length == Additions(read, lines, n)
    {
      var cidr := Stripped(lines[n]);
      if |cidr| == 0 {
        continue;
      }
      var prefix := read(cidr);
      if prefix.Some? {
        cidrs := cidrs + {prefix.value};
        length := length + 1;
      }
    }
  }

  /** A length of zero, which means the fail state applies, says exactly that the list is empty. */
  lemma {:induction false} LengthCoversList(read: Reader, lines: seq<string>, n: nat)
    requires n <= |lines|
    ensures |Prefixes(read, lines, n)| <= Additions(read, lines, n)
    ensures Additions(read, lines, n) == 0 <==> Prefixes(read, lines, n) == {}
  {
    if n > 0 {
      LengthCoversList(read, lines, n - 1);
      var last := Prefix(read, lines[n - 1]);
      if last.Some? {
        assert last.value in Prefixes(read, lines, n);
      }
    }
  }

  /** The length counts exactly the lines that can be read: here is where they stand. */
  lemma {:induction false} AdditionsExactly(read: Reader, lines: seq<string>, n: nat) returns (at: seq<nat>)
    requires n <= |lines|
    ensures |at| == Additions(read, lines, n)
    ensures forall l, m :: 0 <= l < m < |at| ==> at[l] < at[m]
    ensures forall i :: i in at <==> 0 <= i < n && Prefix(read, lines[i]).Some?
  {
    at := [];
    if n > 0 {
      at := AdditionsExactly(read, lines, n - 1);
      if Prefix(read, lines[n - 1]).Some? {
        assert forall l :: 0 <= l < |at| ==> at[l] in at;
        at := at + [n - 1];
      }
    }
  }

  /** The list is what the lines say, whichever of them cannot be read. */
  lemma {:induction false} PrefixesExactly(read: Reader, lines: seq<string>, n: nat, p: string)
    requires n <= |lines|
    ensures p in Prefixes(read, lines, n) <==>
              exists i :: 0 <= i < n && Stripped(lines[i]) != [] && read(Stripped(lines[i])) == Some(p)
  {
    if n > 0 {
      PrefixesExactly(read, lines, n - 1, p);
    }
  }

  // ----- threads

  /** How a fetch ends: badly in a way that is handled, with lines, or by an exception that is not handled. */
  datatype Fetch = Failure | Raised | Text(lines: seq<string>)

  datatype Pc =
    | Outside
    | Checking | Declined | Claimed              // holding the lock
    | Ready | Fetching
    | Returned(got: Fetch) | Planned(got: Fetch, at: int, possible: int)
    | Failing(at: int, possible: int)            // holding the lock
    | Publishing(lines: seq<string>, done: nat)  // holding the lock
    | Noted                                      // holding the lock
    | Clearing
    | Unclaiming | Cleared                       // holding the lock

  datatype Event =
    | Started(at: int)
    | Failed(at: int)
    | Succeeded(at: int, lines: seq<string>)
    | Finished

  datatype Settings = Settings(update: int, retry: int, read: Reader)

  datatype State = State(
    lock: Option<nat>,
    threads: seq<Pc>,
    updating: bool,
    nextAttempt: int,
    cidrs: set<string>,
    length: nat,
    now: int,
    owner: Option<nat>,  // the thread that set `updating`
    log: seq<Event>
  )

  datatype Action = Begin | Tick(elapsed: nat) | Move(thread: nat, got: Fetch)

  predicate Holds(pc: Pc)
  {
    || pc.Checking? || pc.Declined? || pc.Claimed? || pc.Failing? || pc.Publishing? || pc.Noted?
    || pc.Unclaiming? || pc.Cleared?
  }

  predicate NeedsLock(pc: Pc)
  {
    pc.Outside? || pc.Planned? || pc.Clearing?
  }

  /** Between setting `updating` and clearing it. */
  predicate Inside(pc: Pc)
  {
    !(pc.Outside? || pc.Checking? || pc.Declined? || pc.Cleared?)
  }

  predicate Enabled(s: State, a: Action)
  {
    match a
    case Begin => true
    case Tick(_) => true
    case Move(i, _) => i < |s.threads| && (NeedsLock(s.threads[i]) ==> s.lock.None?)
  }

  function Goes(s: State, i: nat, pc: Pc): State
    requires i < |s.threads|
  {
    s.(threads := s.threads[i := pc])
  }

  /** One step of thread i; `got` matters only to a fetch that returns. */
  function Moved(c: Settings, s: State, i: nat, got: Fetch): State
    requires i < |s.threads|
  {
    match s.threads[i]
    case Outside => Goes(s, i, Checking).(lock := Some(i))
    case Checking =>
      if s.updating || s.nextAttempt > s.now then Goes(s, i, Declined)
      else Goes(s, i, Claimed).(updating := true, owner := Some(i))
    case Declined => Goes(s, i, Outside).(lock := None)
    case Claimed => Goes(s, i, Ready).(lock := None)
    case Ready => Goes(s, i, Fetching).(log := s.log + [Started(s.now)])
    case Fetching => Goes(s, i, if got.Raised? then Clearing else Returned(got))
    case Returned(got) => Goes(s, i, Planned(got, s.now, s.now + c.retry))
    case Planned(got, at, possible) =>
      Goes(s, i, if got.Text? then Publishing(got.lines, 0) else Failing(at, possible)).(lock := Some(i))
    case Failing(at, possible) => Goes(s, i, Noted).(nextAttempt := possible, log := s.log + [Failed(at)])
    case Publishing(lines, done) =>
      if done == 0 then Goes(s, i, Publishing(lines, 1)).(cidrs := Prefixes(c.read, lines, |lines|))
      else if done == 1 then Goes(s, i, Publishing(lines, 2)).(length := Additions(c.read, lines, |lines|))
      else Goes(s, i, Noted).(nextAttempt := s.now + c.update, log := s.log + [Succeeded(s.now, lines)])
    case Noted => Goes(s, i, Clearing).(lock := None)
    case Clearing => Goes(s, i, Unclaiming).(lock := Some(i))
    case Unclaiming => Goes(s, i, Cleared).(updating := false, owner := None, log := s.log + [Finished])
    case Cleared => Goes(s, i, Outside).(lock := None)
  }

  function Do(c: Settings, s: State, a: Action): State
    requires Enabled(s, a)
  {
    match a
    case Begin => s.(threads := s.threads + [Outside])
    case Tick(elapsed) => s.(now := s.now + elapsed)
    case Move(i, got) => Moved(c, s, i, got)
  }

  predicate CanRun(c: Settings, s: State, actions: seq<Action>)
    decreases |actions|
  {
    actions == [] || (Enabled(s, actions[0]) && CanRun(c, Do(c, s, actions[0]), actions[1..]))
  }

  function Run(c: Settings, s: State, actions: seq<Action>): State
    requires CanRun(c, s, actions)
    decreases |actions|
  {
    if actions == [] then s else Run(c, Do(c, s, actions[0]), actions[1..])
  }

  /** A new identifier: no list yet, and an attempt due since the epoch. */
  function Start(now: int): State
  {
    State(None, [], false, 0, {}, 0, now, None, [])
  }

  // ----- what the log must look like

  /** When the next attempt may start after an attempt that was noted. */
  function Due(c: Settings, e: Event): Option<int>
  {
    match e
    case Failed(at) => Some(at + c.retry)
    case Succeeded(at, _) => Some(at + c.update)
    case _ => None
  }

  /** When the attempt last noted makes the next one due; the epoch before any. */
  function LastDue(c: Settings, log: seq<Event>): int
  {
    if log == [] then 0
    else
      match log[|log| - 1]
      case Failed(at) => at + c.retry
      case Succeeded(at, _) => at + c.update
      case _ => LastDue(c, log[..|log| - 1])
  }

  /** No fetch starts within `update` of a success before it or `retry` of a handled failure. */
  ghost predicate Spaced(c: Settings, log: seq<Event>)
  {
    forall i, j :: 0 <= i < j < |log| && Due(c, log[i]).Some? && log[j].Started? ==> Due(c, log[i]).value <= log[j].at
  }

  /** A fetch has been started whose update is not finished. */
  predicate InFlight(log: seq<Event>)
  {
    log != [] &&
    var last := log[|log| - 1];
    last.Started? || (!last.Finished? && InFlight(log[..|log| - 1]))
  }

  /** No fetch starts while another's update is not finished. */
  predicate OneAtATime(log: seq<Event>)
  {
    log == [] ||
    (OneAtATime(log[..|log| - 1]) && (log[|log| - 1].Started? ==> !InFlight(log[..|log| - 1])))
  }

  /** The lines last published. */
  function Latest(log: seq<Event>): seq<string>
  {
    if log == [] then []
    else if log[|log| - 1].Succeeded? then log[|log| - 1].lines
    else Latest(log[..|log| - 1])
  }

  // ----- the inductive invariant

  ghost predicate LockOk(s: State)
  {
    && (forall i :: 0 <= i < |s.threads| ==> (Holds(s.threads[i]) <==> s.lock == Some(i)))
    && (s.lock.Some? ==> s.lock.value < |s.threads|)
  }

  ghost predicate FlightOk(s: State)
  {
    && (forall i :: 0 <= i < |s.threads| ==> (Inside(s.threads[i]) <==> s.owner == Some(i)))
    && (s.owner.Some? ==> s.owner.value < |s.threads|)
    && s.updating == s.owner.Some?
  }

  /** Where the owner is; Outside when nobody is updating. */
  function OwnerPc(s: State): Pc
  {
    if s.owner.Some? && s.owner.value < |s.threads| then s.threads[s.owner.value] else Outside
  }

  /** The update under way has not yet said when the next may start. */
  predicate Unnoted(pc: Pc)
  {
    Inside(pc) && !(pc.Noted? || pc.Clearing? || pc.Unclaiming?)
  }

  /** An attempt after a failure is planned `retry` after the fetch returned. */
  predicate PlanOk(c: Settings, pc: Pc)
  {
    pc.Planned? || pc.Failing? ==> pc.possible == pc.at + c.retry
  }

  ghost predicate DueOk(s: State)
  {
    Unnoted(OwnerPc(s)) ==> s.nextAttempt <= s.now
  }

  /** Whatever an attempt made due is still ahead in nextAttempt, or past. */
  ghost predicate TimeOk(c: Settings, s: State)
  {
    forall k :: 0 <= k < |s.log| && Due(c, s.log[k]).Some? ==>
      Due(c, s.log[k]).value <= s.nextAttempt || Due(c, s.log[k]).value <= s.now
  }

  /** The update under way has started its fetch. */
  predicate Launched(pc: Pc)
  {
    Inside(pc) && !(pc.Claimed? || pc.Ready?)
  }

  ghost predicate LogOk(c: Settings, s: State)
  {
    && s.nextAttempt == LastDue(c, s.log)
    && Spaced(c, s.log)
    && OneAtATime(s.log)
    && (InFlight(s.log) <==> Launched(OwnerPc(s)))
  }

  /** How much of a new list has been put in place: nothing, the prefixes, or the length too. */
  function Progress(pc: Pc): nat
  {
    if pc.Publishing? then pc.done else 0
  }

  /** The lines the prefixes, or the length, were made from. */
  function Source(s: State, part: nat): seq<string>
  {
    if Progress(OwnerPc(s)) > part then OwnerPc(s).lines else Latest(s.log)
  }

  ghost predicate ListOk(c: Settings, s: State)
  {
    && s.cidrs == Prefixes(c.read, Source(s, 0), |Source(s, 0)|)
    && s.length == Additions(c.read, Source(s, 1), |Source(s, 1)|)
  }

  ghost predicate Inv(c: Settings, s: State)
  {
    LockOk(s) && FlightOk(s) && PlanOk(c, OwnerPc(s)) && DueOk(s) && TimeOk(c, s) && LogOk(c, s) && ListOk(c, s)
  }

  lemma LockKept(c: Settings, s: State, a: Action)
    requires LockOk(s) && Enabled(s, a)
    ensures LockOk(Do(c, s, a))
  {
  }

  lemma FlightKept(c: Settings, s: State, a: Action)
    requires FlightOk(s) && Enabled(s, a)
    ensures FlightOk(Do(c, s, a))
  {
  }

  lemma LogGrows(c: Settings, log: seq<Event>, e: Event)
    ensures InFlight(log + [e]) <==> e.Started? || (!e.Finished? && InFlight(log))
    ensures OneAtATime(log + [e]) <==> OneAtATime(log) && (e.Started? ==> !InFlight(log))
    ensures Latest(log + [e]) == if e.Succeeded? then e.lines else Latest(log)
    ensures LastDue(c, log + [e]) ==
              match e
              case Failed(at) => at + c.retry
              case Succeeded(at, _) => at + c.update
              case _ => LastDue(c, log)
  {
  }

  /** The event a step logs, if it logs one. */
  function Logs(c: Settings, s: State, a: Action): Option<Event>
    requires Enabled(s, a)
  {
    if !a.Move? then None
    else
      match s.threads[a.thread]
      case Ready => Some(Started(s.now))
      case Failing(at, _) => Some(Failed(at))
      case Publishing(lines, done) => if done > 1 then Some(Succeeded(s.now, lines)) else None
      case Unclaiming => Some(Finished)
      case _ => None
  }

  lemma LogIs(c: Settings, s: State, a: Action)
    requires Enabled(s, a)
    ensures Do(c, s, a).log == if Logs(c, s, a).Some? then s.log + [Logs(c, s, a).value] else s.log
  {
  }

  lemma PlanKept(c: Settings, s: State, a: Action)
    requires FlightOk(s) && PlanOk(c, OwnerPc(s)) && Enabled(s, a)
    ensures PlanOk(c, OwnerPc(Do(c, s, a)))
  {
  }

  lemma DueKept(c: Settings, s: State, a: Action)
    requires FlightOk(s) && DueOk(s) && Enabled(s, a)
    ensures DueOk(Do(c, s, a))
    ensures Do(c, s, a).nextAttempt != s.nextAttempt ==> s.nextAttempt <= s.now
  {
  }

  lemma TimeKept(c: Settings, s: State, a: Action)
    requires FlightOk(s) && PlanOk(c, OwnerPc(s)) && DueOk(s) && TimeOk(c, s) && Enabled(s, a)
    ensures TimeOk(c, Do(c, s, a))
  {
    DueKept(c, s, a);
    LogIs(c, s, a);
  }

  lemma SpacingKept(c: Settings, s: State, a: Action)
    requires FlightOk(s) && DueOk(s) && TimeOk(c, s) && Spaced(c, s.log) && Enabled(s, a)
    ensures Spaced(c, Do(c, s, a).log)
  {
    LogIs(c, s, a);
  }

  lemma LaunchKept(c: Settings, s: State, a: Action)
    requires FlightOk(s) && Enabled(s, a)
    ensures var e := Logs(c, s, a);
            Launched(OwnerPc(Do(c, s, a))) <==>
              || (e.Some? && e.value.Started?)
              || (!(e.Some? && e.value.Finished?) && Launched(OwnerPc(s)))
    ensures var e := Logs(c, s, a);
            e.Some? && e.value.Started? ==> !Launched(OwnerPc(s))
  {
  }

  lemma LogKept(c: Settings, s: State, a: Action)
    requires FlightOk(s) && PlanOk(c, OwnerPc(s)) && DueOk(s) && TimeOk(c, s) && LogOk(c, s) && Enabled(s, a)
    ensures LogOk(c, Do(c, s, a))
  {
    SpacingKept(c, s, a);
    LaunchKept(c, s, a);
    LogIs(c, s, a);
    if Logs(c, s, a).Some? {
      LogGrows(c, s.log, Logs(c, s, a).value);
    }
  }

  lemma ListKept(c: Settings, s: State, a: Action)
    requires FlightOk(s) && ListOk(c, s) && Enabled(s, a)
    ensures ListOk(c, Do(c, s, a))
  {
    LogIs(c, s, a);
    if Logs(c, s, a).Some? {
      LogGrows(c, s.log, Logs(c, s, a).value);
    }
    if a.Move? && s.threads[a.thread].Publishing? {
      PublishingKept(c, s, a);
    } else {
      RestKept(c, s, a);
    }
  }

  lemma PublishingKept(c: Settings, s: State, a: Action)
    requires FlightOk(s) && ListOk(c, s) && Enabled(s, a)
    requires a.Move? && s.threads[a.thread].Publishing?
    requires Latest(Do(c, s, a).log) ==
               if s.threads[a.thread].done > 1 then s.threads[a.thread].lines else Latest(s.log)
    ensures ListOk(c, Do(c, s, a))
  {
    assert s.owner == Some(a.thread);
  }

  lemma RestKept(c: Settings, s: State, a: Action)
    requires FlightOk(s) && ListOk(c, s) && Enabled(s, a)
    requires a.Move? ==> !s.threads[a.thread].Publishing?
    requires Latest(Do(c, s, a).log) == Latest(s.log)
    ensures ListOk(c, Do(c, s, a))
  {
    var t := Do(c, s, a);
    assert t.cidrs == s.cidrs && t.length == s.length;
    OwnerKept(c, s, a);
    assert Source(t, 0) == Source(s, 0) && Source(t, 1) == Source(s, 1);
  }

  lemma OwnerKept(c: Settings, s: State, a: Action)
    requires FlightOk(s) && Enabled(s, a)
    requires a.Move? ==> !s.threads[a.thread].Publishing?
    ensures Progress(OwnerPc(Do(c, s, a))) == Progress(OwnerPc(s))
    ensures Progress(OwnerPc(s)) > 0 ==> OwnerPc(Do(c, s, a)) == OwnerPc(s)
  {
  }

  lemma StepKeepsInv(c: Settings, s: State, a: Action)
    requires Inv(c, s) && Enabled(s, a)
    ensures Inv(c, Do(c, s, a))
  {
    LockKept(c, s, a);
    FlightKept(c, s, a);
    PlanKept(c, s, a);
    DueKept(c, s, a);
    TimeKept(c, s, a);
    LogKept(c, s, a);
    ListKept(c, s, a);
  }

  lemma {:induction false} RunKeepsInv(c: Settings, s: State, actions: seq<Action>)
    requires Inv(c, s) && CanRun(c, s, actions)
    ensures Inv(c, Run(c, s, actions))
    decreases |actions|
  {
    if actions != [] {
      StepKeepsInv(c, s, actions[0]);
      RunKeepsInv(c, Do(c, s, actions[0]), actions[1..]);
    }
  }

  // ----- what every run keeps

  /** At most one thread is inside the update, and `updating` is set exactly while one is. */
  lemma SingleFlight(c: Settings, now: int, actions: seq<Action>)
    requires CanRun(c, Start(now), actions)
    ensures var t := Run(c, Start(now), actions);
            && (forall i, j | 0 <= i < |t.threads| && 0 <= j < |t.threads| ::
                  Inside(t.threads[i]) && Inside(t.threads[j]) ==> i == j)
            && (t.updating <==> exists i :: 0 <= i < |t.threads| && Inside(t.threads[i]))
  {
    RunKeepsInv(c, Start(now), actions);
    var t := Run(c, Start(now), actions);
    if t.updating {
      assert Inside(t.threads[t.owner.value]);
    }
  }

  /** Fetches do not overlap, and none starts too soon after an attempt that was noted. */
  lemma FetchesAreSpaced(c: Settings, now: int, actions: seq<Action>)
    requires CanRun(c, Start(now), actions)
    ensures var log := Run(c, Start(now), actions).log;
            && Spaced(c, log)
            && forall i, j :: 0 <= i < j < |log| && log[i].Started? && log[j].Started? ==> FinishedBetween(log, i, j)
  {
    RunKeepsInv(c, Start(now), actions);
    var log := Run(c, Start(now), actions).log;
    forall i, j | 0 <= i < j < |log| && log[i].Started? && log[j].Started? ensures FinishedBetween(log, i, j) {
      OneBeforeTheOther(log, i, j);
    }
  }

  ghost predicate FinishedBetween(log: seq<Event>, i: nat, j: nat)
    requires i < j < |log|
  {
    exists k :: i < k < j && log[k].Finished?
  }

  lemma {:induction false} OneBeforeTheOther(log: seq<Event>, i: nat, j: nat)
    requires i < j < |log| && log[i].Started? && log[j].Started? && OneAtATime(log)
    ensures FinishedBetween(log, i, j)
    decreases |log|
  {
    var front := log[..|log| - 1];
    if j < |log| - 1 {
      OneBeforeTheOther(front, i, j);
      var k :| i < k < j && front[k].Finished?;
      assert log[k].Finished?;
    } else {
      var k := SomeFinish(front, i);
      assert log[k].Finished?;
    }
  }

  lemma {:induction false} SomeFinish(log: seq<Event>, i: nat) returns (k: nat)
    requires i < |log| && log[i].Started? && !InFlight(log)
    ensures i < k < |log| && log[k].Finished?
    decreases |log|
  {
    if log[|log| - 1].Finished? {
      k := |log| - 1;
    } else {
      k := SomeFinish(log[..|log| - 1], i);
    }
  }

  // ----- what a thread does if nothing comes between

  /** Thread i makes its next n moves, and no other thread any. */
  predicate CanMove(c: Settings, s: State, i: nat, got: Fetch, n: nat)
    decreases n
  {
    n == 0 || (Enabled(s, Move(i, got)) && CanMove(c, Moved(c, s, i, got), i, got, n - 1))
  }

  function After(c: Settings, s: State, i: nat, got: Fetch, n: nat): State
    requires CanMove(c, s, i, got, n)
    decreases n
  {
    if n == 0 then s else After(c, Moved(c, s, i, got), i, got, n - 1)
  }

  /** An update that is due is made: the thread that calls then is the one to fetch. */
  lemma DueIsFetched(c: Settings, s: State, i: nat, got: Fetch)
    requires i < |s.threads| && s.threads[i].Outside? && s.lock.None? && !s.updating && s.nextAttempt <= s.now
    ensures CanMove(c, s, i, got, 4)
    ensures After(c, s, i, got, 4) ==
              s.(threads := s.threads[i := Fetching], updating := true, owner := Some(i),
                 log := s.log + [Started(s.now)])
  {
    var checking := Moved(c, s, i, got);
    var claimed := Moved(c, checking, i, got);
    var ready := Moved(c, claimed, i, got);
    var fetching := Moved(c, ready, i, got);
    assert CanMove(c, ready, i, got, 1) && After(c, ready, i, got, 1) == fetching;
    assert CanMove(c, claimed, i, got, 2) && After(c, claimed, i, got, 2) == fetching;
    assert CanMove(c, checking, i, got, 3) && After(c, checking, i, got, 3) == fetching;
    assert fetching.threads == s.threads[i := Fetching];
  }

  /** In particular the first call of all, whatever the time, as it is after the epoch. */
  lemma FirstCallFetches(c: Settings, now: nat, got: Fetch)
    ensures var s := Do(c, Start(now), Begin);
            CanMove(c, s, 0, got, 4) && After(c, s, 0, got, 4).log == [Started(now)]
  {
    DueIsFetched(c, Do(c, Start(now), Begin), 0, got);
  }

  /** An update that is not due, or under way, leaves the caller to go on with everything as it was. */
  lemma NotDueIsDeclined(c: Settings, s: State, i: nat, got: Fetch)
    requires i < |s.threads| && s.threads[i].Outside? && s.lock.None? && (s.updating || s.nextAttempt > s.now)
    ensures CanMove(c, s, i, got, 3) && After(c, s, i, got, 3) == s
  {
    var checking := Moved(c, s, i, got);
    var declined := Moved(c, checking, i, got);
    var outside := Moved(c, declined, i, got);
    assert CanMove(c, declined, i, got, 1) && After(c, declined, i, got, 1) == outside;
    assert CanMove(c, checking, i, got, 2) && After(c, checking, i, got, 2) == outside;
    assert outside.threads == s.threads;
  }

  /** The end of a call: from having noted the attempt to outside, with `updating` cleared. */
  lemma LeavesAfterNoting(c: Settings, s: State, i: nat, got: Fetch)
    requires i < |s.threads| && s.threads[i].Noted? && s.lock == Some(i)
    ensures CanMove(c, s, i, got, 4)
    ensures After(c, s, i, got, 4) ==
              s.(threads := s.threads[i := Outside], lock := None, updating := false, owner := None,
                 log := s.log + [Finished])
  {
    var clearing := Moved(c, s, i, got);
    var unclaiming := Moved(c, clearing, i, got);
    var cleared := Moved(c, unclaiming, i, got);
    var outside := Moved(c, cleared, i, got);
    assert CanMove(c, cleared, i, got, 1) && After(c, cleared, i, got, 1) == outside;
    assert CanMove(c, unclaiming, i, got, 2) && After(c, unclaiming, i, got, 2) == outside;
    assert CanMove(c, clearing, i, got, 3) && After(c, clearing, i, got, 3) == outside;
    assert outside.threads == s.threads[i := Outside];
  }

  /**
   * A fetch that fails is retried `retry` after it returned, however long the thread then
   * waits for the lock; the list is left alone.
   */
  lemma FailureIsNoted(c: Settings, s: State, i: nat, wait: nat)
    requires i < |s.threads| && s.threads[i].Fetching? && s.lock.None?
    ensures CanMove(c, s, i, Failure, 2)
    ensures var planned := Do(c, After(c, s, i, Failure, 2), Tick(wait));
            && CanMove(c, planned, i, Failure, 2)
            && After(c, planned, i, Failure, 2) ==
                 s.(threads := s.threads[i := Noted], lock := Some(i), now := s.now + wait,
                    nextAttempt := s.now + c.retry, log := s.log + [Failed(s.now)])
  {
    var returned := Moved(c, s, i, Failure);
    var at := Moved(c, returned, i, Failure);
    assert CanMove(c, returned, i, Failure, 1) && After(c, returned, i, Failure, 1) == at;
    var planned := Do(c, at, Tick(wait));
    var failing := Moved(c, planned, i, Failure);
    var noted := Moved(c, failing, i, Failure);
    assert CanMove(c, failing, i, Failure, 1) && After(c, failing, i, Failure, 1) == noted;
    assert noted.threads == s.threads[i := Noted];
  }

  /** A text fetched is taken to where the lock is held. */
  lemma TextIsTaken(c: Settings, s: State, i: nat, lines: seq<string>)
    requires i < |s.threads| && s.threads[i].Fetching? && s.lock.None?
    ensures CanMove(c, s, i, Text(lines), 3)
    ensures After(c, s, i, Text(lines), 3) == s.(threads := s.threads[i := Publishing(lines, 0)], lock := Some(i))
  {
    var got := Text(lines);
    var returned := Moved(c, s, i, got);
    var planned := Moved(c, returned, i, got);
    var locked := Moved(c, planned, i, got);
    assert CanMove(c, planned, i, got, 1) && After(c, planned, i, got, 1) == locked;
    assert CanMove(c, returned, i, got, 2) && After(c, returned, i, got, 2) == locked;
    assert locked.threads == s.threads[i := Publishing(lines, 0)];
  }

  /** There it becomes the list, with its length. */
  lemma ListIsPut(c: Settings, s: State, i: nat, got: Fetch, lines: seq<string>)
    requires i < |s.threads| && s.threads[i] == Publishing(lines, 0)
    ensures CanMove(c, s, i, got, 2)
    ensures After(c, s, i, got, 2) ==
              s.(threads := s.threads[i := Publishing(lines, 2)],
                 cidrs := Prefixes(c.read, lines, |lines|), length := Additions(c.read, lines, |lines|))
  {
    var listed := Moved(c, s, i, got);
    var measured := Moved(c, listed, i, got);
    assert CanMove(c, listed, i, got, 1) && After(c, listed, i, got, 1) == measured;
    assert measured.threads == s.threads[i := Publishing(lines, 2)];
  }

  lemma ListIsNoted(c: Settings, s: State, i: nat, got: Fetch, lines: seq<string>)
    requires i < |s.threads| && s.threads[i] == Publishing(lines, 2)
    ensures Moved(c, s, i, got) ==
              s.(threads := s.threads[i := Noted], nextAttempt := s.now + c.update,
                 log := s.log + [Succeeded(s.now, lines)])
  {
  }

  /** A text that was fetched becomes the list, with its length, and the next attempt is due `update` after that. */
  lemma SuccessIsPublished(c: Settings, s: State, i: nat, lines: seq<string>, wait: nat)
    returns (taken: State, put: State)
    requires i < |s.threads| && s.threads[i].Fetching? && s.lock.None?
    ensures CanMove(c, s, i, Text(lines), 3) && taken == After(c, s, i, Text(lines), 3)
    ensures CanMove(c, taken, i, Text(lines), 2) && put == Do(c, After(c, taken, i, Text(lines), 2), Tick(wait))
    ensures i < |put.threads|
    ensures Moved(c, put, i, Text(lines)) ==
              s.(threads := s.threads[i := Noted], lock := Some(i), now := s.now + wait,
                 cidrs := Prefixes(c.read, lines, |lines|), length := Additions(c.read, lines, |lines|),
                 nextAttempt := s.now + wait + c.update, log := s.log + [Succeeded(s.now + wait, lines)])
  {
    TextIsTaken(c, s, i, lines);
    taken := s.(threads := s.threads[i := Publishing(lines, 0)], lock := Some(i));
    ListIsPut(c, taken, i, Text(lines), lines);
    put := Do(c, After(c, taken, i, Text(lines), 2), Tick(wait));
    ListIsNoted(c, put, i, Text(lines), lines);
    assert put.threads[i := Noted] == s.threads[i := Noted];
  }

  /** The time of the next attempt is exactly what the attempt last noted made it, or the epoch before any. */
  lemma NextAttemptIsLastDue(c: Settings, now: int, actions: seq<Action>)
    requires CanRun(c, Start(now), actions)
    ensures var t := Run(c, Start(now), actions);
            t.nextAttempt == LastDue(c, t.log)
  {
    RunKeepsInv(c, Start(now), actions);
  }

  // ----- the times in the log

  function Stamp(e: Event): Option<int>
  {
    match e
    case Started(at) => Some(at)
    case Failed(at) => Some(at)
    case Succeeded(at, _) => Some(at)
    case Finished => None
  }

  ghost predicate NoLaterThan(log: seq<Event>, time: int)
  {
    forall i :: 0 <= i < |log| && Stamp(log[i]).Some? ==> Stamp(log[i]).value <= time
  }

  ghost predicate InOrder(log: seq<Event>)
  {
    forall i, j :: 0 <= i < j < |log| && Stamp(log[i]).Some? && Stamp(log[j]).Some? ==>
      Stamp(log[i]).value <= Stamp(log[j]).value
  }

  /** A failed fetch has returned since it was started, and by now. */
  ghost predicate ClockOk(s: State)
  {
    && InOrder(s.log) && NoLaterThan(s.log, s.now)
    && var pc := OwnerPc(s);
       pc.Planned? || pc.Failing? ==> NoLaterThan(s.log, pc.at) && pc.at <= s.now
  }

  lemma StampsGrow(log: seq<Event>, e: Event, now: int)
    requires InOrder(log) && NoLaterThan(log, now) && (e.Failed? ==> NoLaterThan(log, e.at) && e.at <= now)
    requires (e.Started? ==> e.at == now) && (e.Succeeded? ==> e.at == now)
    ensures InOrder(log + [e]) && NoLaterThan(log + [e], now)
  {
  }

  lemma StampsKept(c: Settings, s: State, a: Action)
    requires FlightOk(s) && ClockOk(s) && Enabled(s, a)
    ensures InOrder(Do(c, s, a).log) && NoLaterThan(Do(c, s, a).log, Do(c, s, a).now)
  {
    LogIs(c, s, a);
    if Logs(c, s, a).Some? {
      StampsGrow(s.log, Logs(c, s, a).value, s.now);
    }
  }

  lemma ClockKept(c: Settings, s: State, a: Action)
    requires FlightOk(s) && ClockOk(s) && Enabled(s, a)
    ensures ClockOk(Do(c, s, a))
  {
    StampsKept(c, s, a);
    var pc := OwnerPc(Do(c, s, a));
    if pc.Planned? || pc.Failing? {
      assert Do(c, s, a).log == s.log;
    }
  }

  lemma {:induction false} RunKeepsClock(c: Settings, s: State, actions: seq<Action>)
    requires Inv(c, s) && ClockOk(s) && CanRun(c, s, actions)
    ensures ClockOk(Run(c, s, actions))
    decreases |actions|
  {
    if actions != [] {
      ClockKept(c, s, actions[0]);
      StepKeepsInv(c, s, actions[0]);
      RunKeepsClock(c, Do(c, s, actions[0]), actions[1..]);
    }
  }

  /** The log's times never run backwards, nor ahead of the clock. */
  lemma TimesInOrder(c: Settings, now: int, actions: seq<Action>)
    requires CanRun(c, Start(now), actions)
    ensures InOrder(Run(c, Start(now), actions).log)
    ensures NoLaterThan(Run(c, Start(now), actions).log, Run(c, Start(now), actions).now)
  {
    RunKeepsClock(c, Start(now), actions);
  }

  // ----- what every run keeps, continued

  /** A fetch starts only when the next attempt is due. */
  lemma StartsWhenDue(c: Settings, now: int, actions: seq<Action>, i: nat)
    requires CanRun(c, Start(now), actions)
    requires i < |Run(c, Start(now), actions).threads| && Run(c, Start(now), actions).threads[i].Ready?
    ensures Run(c, Start(now), actions).nextAttempt <= Run(c, Start(now), actions).now
  {
    RunKeepsInv(c, Start(now), actions);
    assert OwnerPc(Run(c, Start(now), actions)).Ready?;
  }

  /** Whenever the lock is free, the list and its length are those of the lines last fetched successfully. */
  lemma PublishedTogether(c: Settings, now: int, actions: seq<Action>)
    requires CanRun(c, Start(now), actions) && Run(c, Start(now), actions).lock.None?
    ensures var t := Run(c, Start(now), actions);
            var lines := Latest(t.log);
            && t.cidrs == Prefixes(c.read, lines, |lines|)
            && t.length == Additions(c.read, lines, |lines|)
            && (t.length == 0 <==> t.cidrs == {})
  {
    RunKeepsInv(c, Start(now), actions);
    var t := Run(c, Start(now), actions);
    assert !OwnerPc(t).Publishing?;
    LengthCoversList(c.read, Latest(t.log), |Latest(t.log)|);
  }

  /** The events a run adds to the log. */
  lemma {:induction false} LogOnlyGrows(c: Settings, s: State, actions: seq<Action>)
    requires CanRun(c, s, actions)
    ensures s.log <= Run(c, s, actions).log
    decreases |actions|
  {
    if actions != [] {
      LogIs(c, s, actions[0]);
      LogOnlyGrows(c, Do(c, s, actions[0]), actions[1..]);
    }
  }

  lemma {:induction false} LatestStays(log: seq<Event>, n: nat)
    requires n <= |log| && forall k :: n <= k < |log| ==> !log[k].Succeeded?
    ensures Latest(log) == Latest(log[..n])
    decreases |log|
  {
    if n == |log| {
      assert log[..n] == log;
    } else {
      LatestStays(log[..|log| - 1], n);
      assert log[..|log| - 1][..n] == log[..n];
    }
  }

  /** Attempts that fail, in whatever way and however many, leave the list as it was. */
  lemma FailuresKeepTheList(c: Settings, s: State, actions: seq<Action>)
    requires Inv(c, s) && s.lock.None? && CanRun(c, s, actions) && Run(c, s, actions).lock.None?
    requires forall k :: |s.log| <= k < |Run(c, s, actions).log| ==> !Run(c, s, actions).log[k].Succeeded?
    ensures Run(c, s, actions).cidrs == s.cidrs && Run(c, s, actions).length == s.length
  {
    RunKeepsInv(c, s, actions);
    LogOnlyGrows(c, s, actions);
    var t := Run(c, s, actions);
    LatestStays(t.log, |s.log|);
    assert t.log[..|s.log|] == s.log;
    assert !OwnerPc(s).Publishing? && !OwnerPc(t).Publishing?;
  }

  /**
   * An exception that is not handled notes no next attempt: once the thread has cleared
   * `updating`, the next attempt is still due at once.
   */
  lemma RaiseIsRetriedAtOnce(c: Settings, s: State, i: nat)
    requires Inv(c, s) && i < |s.threads| && s.threads[i].Fetching? && s.lock.None?
    ensures var t := AfterRaise(c, s, i);
            && t == s.(threads := s.threads[i := Outside], updating := false, owner := None, log := s.log + [Finished])
            && t.nextAttempt <= t.now
  {
    assert s.owner == Some(i);
  }

  /** The four steps a thread takes from a fetch that raises to the end of its call, with nothing in between. */
  function AfterRaise(c: Settings, s: State, i: nat): State
    requires i < |s.threads| && s.threads[i].Fetching? && s.lock.None?
  {
    var move := Move(i, Raised);
    var s1 := Do(c, s, move);
    var s2 := Do(c, s1, move);
    var s3 := Do(c, s2, move);
    Do(c, s3, move)
  }

  /** Nothing gets stuck: while any thread is in a call, some thread in a call can move. */
  lemma NextEnabled(c: Settings, s: State, i: nat, got: Fetch) returns (j: nat)
    requires Inv(c, s) && i < |s.threads| && !s.threads[i].Outside?
    ensures j < |s.threads| && !s.threads[j].Outside? && Enabled(s, Move(j, got))
  {
    j := if s.lock.Some? then s.lock.value else i;
  }
}
