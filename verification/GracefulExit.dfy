/**
 * exit.py: registered calls, the exit worker and the signal handler, as the
 * steps several threads take between acquiring the lock and two barriers.
 */
module GracefulExit {
  import opened Wrappers

  /** One invocation of on_graceful_exit; its index is its identity and that of its call. */
  datatype RegistrarPc = Waiting | Locked | Started | Appended | Returned

  datatype WorkerPc = Absent | Created | AtExitBarrier | PastExitBarrier | Calling(next: nat)
                    | Unlocked | AtFinishBarrier | Finished

  datatype HandlerPc = Idle | Signalled | Reading | Decided(seen: bool) | AtExitBarrier | PastExitBarrier
                     | AtFinishBarrier | PastFinishBarrier | Exited(throughBarriers: bool)

  datatype Holder = NoOne | Registrar(r: nat) | Worker | Handler

  datatype State = State(
    lock: Holder,
    registrars: seq<RegistrarPc>,
    worker: WorkerPc,
    handler: HandlerPc,
    barriers: bool,           // exit_barrier and finish_barrier have been made
    exitList: seq<nat>,
    ran: seq<nat>,            // calls made so far, in order
    interrupted: Option<nat>  // the invocation whose thread the signal interrupted
  )

  datatype Action =
    | Begin
    | TakeLock(r: nat) | StartWorker(r: nat) | Append(r: nat) | DropLock(r: nat)
    | WorkerArrives | WorkerPasses | WorkerLocks | WorkerCalls | WorkerUnlocks
    | WorkerArrivesFinish | WorkerPassesFinish
    | Signal(interrupted: Option<nat>)
    | HandlerLocks | HandlerReads | HandlerArrives | HandlerPasses | HandlerArrivesFinish | HandlerPassesFinish
    | HandlerExits

  const START: State := State(NoOne, [], Absent, Idle, false, [], [], None)

  // ----- steps

  predicate WorkerReachedExit(s: State)
  {
    !s.worker.Absent? && !s.worker.Created?
  }

  predicate WorkerReachedFinish(s: State)
  {
    s.worker.AtFinishBarrier? || s.worker.Finished?
  }

  predicate HandlerReachedExit(s: State)
  {
    s.handler.AtExitBarrier? || s.handler.PastExitBarrier? || HandlerReachedFinish(s)
  }

  predicate HandlerReachedFinish(s: State)
  {
    s.handler.AtFinishBarrier? || s.handler.PastFinishBarrier? || s.handler == Exited(true)
  }

  /** Invocation r is at this point, and its thread is not suspended under the handler. */
  predicate Runs(s: State, r: nat, pc: RegistrarPc)
  {
    r < |s.registrars| && s.registrars[r] == pc && s.interrupted != Some(r)
  }

  predicate Enabled(s: State, a: Action)
  {
    && !s.handler.Exited?
    && match a
       case Begin => true
       case TakeLock(r) => Runs(s, r, Waiting) && s.lock.NoOne?
       case StartWorker(r) => Runs(s, r, Locked)
       case Append(r) => Runs(s, r, Started)
       case DropLock(r) => Runs(s, r, Appended)
       case WorkerArrives => s.worker.Created?
       case WorkerPasses => s.worker.AtExitBarrier? && HandlerReachedExit(s)
       case WorkerLocks => s.worker.PastExitBarrier? && s.lock.NoOne?
       case WorkerCalls => s.worker.Calling? && s.worker.next < |s.exitList|
       case WorkerUnlocks => s.worker.Calling? && s.worker.next >= |s.exitList|
       case WorkerArrivesFinish => s.worker.Unlocked?
       case WorkerPassesFinish => s.worker.AtFinishBarrier? && HandlerReachedFinish(s)
       case Signal(i) => s.handler.Idle? && (i.Some? ==> i.value < |s.registrars| && s.registrars[i.value] != Returned)
       case HandlerLocks => s.handler.Signalled? && s.lock.NoOne?
       case HandlerReads => s.handler.Reading?
       case HandlerArrives => s.handler == Decided(true)
       case HandlerPasses => s.handler.AtExitBarrier? && WorkerReachedExit(s)
       case HandlerArrivesFinish => s.handler.PastExitBarrier?
       case HandlerPassesFinish => s.handler.AtFinishBarrier? && WorkerReachedFinish(s)
       case HandlerExits => s.handler == Decided(false) || s.handler.PastFinishBarrier?
  }

  function Do(s: State, a: Action): State
    requires Enabled(s, a)
  {
    match a
    case Begin => s.(registrars := s.registrars + [Waiting])
    case TakeLock(r) => s.(lock := Registrar(r), registrars := s.registrars[r := Locked])
    case StartWorker(r) =>
      var t := s.(registrars := s.registrars[r := Started]);
      if s.worker.Absent? && !s.barriers then t.(barriers := true, worker := Created) else t
    case Append(r) => s.(registrars := s.registrars[r := Appended], exitList := s.exitList + [r])
    case DropLock(r) => s.(lock := NoOne, registrars := s.registrars[r := Returned])
    case WorkerArrives => s.(worker := WorkerPc.AtExitBarrier)
    case WorkerPasses => s.(worker := WorkerPc.PastExitBarrier)
    case WorkerLocks => s.(lock := Worker, worker := Calling(0))
    case WorkerCalls => s.(ran := s.ran + [s.exitList[s.worker.next]], worker := Calling(s.worker.next + 1))
    case WorkerUnlocks => s.(lock := NoOne, worker := Unlocked)
    case WorkerArrivesFinish => s.(worker := WorkerPc.AtFinishBarrier)
    case WorkerPassesFinish => s.(worker := Finished)
    case Signal(i) => s.(handler := Signalled, interrupted := i)
    case HandlerLocks => s.(lock := Handler, handler := Reading)
    case HandlerReads => s.(lock := NoOne, handler := Decided(s.barriers))
    case HandlerArrives => s.(handler := HandlerPc.AtExitBarrier)
    case HandlerPasses => s.(handler := HandlerPc.PastExitBarrier)
    case HandlerArrivesFinish => s.(handler := HandlerPc.AtFinishBarrier)
    case HandlerPassesFinish => s.(handler := PastFinishBarrier)
    case HandlerExits => s.(handler := Exited(s.handler.PastFinishBarrier?))
  }

  /** A run from s taking these actions in turn. */
  predicate CanRun(s: State, actions: seq<Action>)
    decreases |actions|
  {
    actions == [] || (Enabled(s, actions[0]) && CanRun(Do(s, actions[0]), actions[1..]))
  }

  function Run(s: State, actions: seq<Action>): State
    requires CanRun(s, actions)
    decreases |actions|
  {
    if actions == [] then s else Run(Do(s, actions[0]), actions[1..])
  }

  // ----- the inductive invariant

  predicate Holding(pc: RegistrarPc)
  {
    pc.Locked? || pc.Started? || pc.Appended?
  }

  ghost predicate LockOk(s: State)
  {
    && (forall r :: 0 <= r < |s.registrars| ==> (Holding(s.registrars[r]) <==> s.lock == Registrar(r)))
    && (s.lock.Registrar? ==> s.lock.r < |s.registrars|)
    && (s.worker.Calling? <==> s.lock.Worker?)
    && (s.handler.Reading? <==> s.lock.Handler?)
  }

  ghost predicate ListOk(s: State)
  {
    && (forall i, j :: 0 <= i < j < |s.exitList| ==> s.exitList[i] != s.exitList[j])
    && (forall r :: r in s.exitList ==> r < |s.registrars| && (s.registrars[r].Appended? || s.registrars[r].Returned?))
    && (forall r :: 0 <= r < |s.registrars| && (s.registrars[r].Appended? || s.registrars[r].Returned?) ==>
          r in s.exitList)
  }

  ghost predicate BarriersOk(s: State)
  {
    && (s.barriers <==> !s.worker.Absent?)
    && (s.exitList != [] ==> s.barriers)
    && (forall r :: 0 <= r < |s.registrars| && s.registrars[r].Started? ==> s.barriers)
    && (s.handler == Decided(true) ==> s.barriers)
    && (HandlerReachedExit(s) ==> s.barriers)
    && (WorkerReachedExit(s) && !s.worker.AtExitBarrier? ==> HandlerReachedExit(s))
    && (s.handler.PastExitBarrier? || HandlerReachedFinish(s) ==> WorkerReachedExit(s))
    && (s.worker.Finished? ==> HandlerReachedFinish(s))
    && (s.handler.PastFinishBarrier? || s.handler == Exited(true) ==> WorkerReachedFinish(s))
  }

  /** How many calls the worker has made. */
  ghost predicate RanOk(s: State)
  {
    && s.ran <= s.exitList
    && (s.worker.Calling? ==> s.worker.next == |s.ran|)
    && (s.ran != [] ==> s.worker.Calling? || s.worker.Unlocked? || WorkerReachedFinish(s))
  }

  ghost predicate Inv(s: State)
  {
    LockOk(s) && ListOk(s) && BarriersOk(s) && RanOk(s)
  }

  lemma StepKeepsLock(s: State, a: Action)
    requires Inv(s) && Enabled(s, a)
    ensures LockOk(Do(s, a))
  {
  }

  lemma StepKeepsList(s: State, a: Action)
    requires Inv(s) && Enabled(s, a)
    ensures ListOk(Do(s, a))
  {
  }

  lemma StepKeepsBarriers(s: State, a: Action)
    requires Inv(s) && Enabled(s, a)
    ensures BarriersOk(Do(s, a))
  {
  }

  lemma StepKeepsRan(s: State, a: Action)
    requires Inv(s) && Enabled(s, a)
    ensures RanOk(Do(s, a))
  {
  }

  lemma StepKeepsInv(s: State, a: Action)
    requires Inv(s) && Enabled(s, a)
    ensures Inv(Do(s, a))
  {
    StepKeepsLock(s, a);
    StepKeepsList(s, a);
    StepKeepsBarriers(s, a);
    StepKeepsRan(s, a);
  }

  lemma {:induction false} RunKeepsInv(s: State, actions: seq<Action>)
    requires Inv(s) && CanRun(s, actions)
    ensures Inv(Run(s, actions))
    decreases |actions|
  {
    if actions != [] {
      StepKeepsInv(s, actions[0]);
      RunKeepsInv(Do(s, actions[0]), actions[1..]);
    }
  }

  // ----- which calls run

  /** Calls run only once the handler has arrived, each at most once, in registration order. */
  lemma CallsRunInOrder(actions: seq<Action>)
    requires CanRun(START, actions)
    ensures
      var s := Run(START, actions);
      && s.ran <= s.exitList
      && (forall i, j :: 0 <= i < j < |s.ran| ==> s.ran[i] != s.ran[j])
      && (s.ran != [] ==> HandlerReachedExit(s))
  {
    RunKeepsInv(START, actions);
  }

  /** The handler has not yet looked whether there is anything to wait for. */
  predicate Early(h: HandlerPc)
  {
    h.Idle? || h.Signalled? || h.Reading?
  }

  /** The calls in `first` are still on their way to being run. */
  ghost predicate Owed(first: seq<nat>, s: State)
  {
    && first <= s.exitList
    && (s.worker.Unlocked? || WorkerReachedFinish(s) ==> first <= s.ran)
    && (s.handler == Decided(false) || s.handler == Exited(false) ==> first == [])
  }

  lemma StepKeepsOwed(first: seq<nat>, s: State, a: Action)
    requires Inv(s) && Enabled(s, a) && Owed(first, s)
    ensures Owed(first, Do(s, a))
  {
    if a.WorkerUnlocks? {
      assert s.ran == s.exitList;
    }
  }

  lemma {:induction false} RunKeepsOwed(first: seq<nat>, s: State, actions: seq<Action>)
    requires Inv(s) && CanRun(s, actions) && Owed(first, s)
    ensures Inv(Run(s, actions)) && Owed(first, Run(s, actions))
    decreases |actions|
  {
    if actions != [] {
      StepKeepsInv(s, actions[0]);
      StepKeepsOwed(first, s, actions[0]);
      RunKeepsOwed(first, Do(s, actions[0]), actions[1..]);
    }
  }

  /**
   * Whatever is registered before the handler looks at the barrier has run, first
   * and in order, by the time the program exits.
   */
  lemma RegisteredCallsRunBeforeExit(prefix: seq<Action>, suffix: seq<Action>)
    requires CanRun(START, prefix) && CanRun(Run(START, prefix), suffix)
    requires Early(Run(START, prefix).handler)
    ensures
      var before, after := Run(START, prefix), Run(Run(START, prefix), suffix);
      after.handler.Exited? ==>
        && before.exitList <= after.ran
        && forall r :: 0 <= r < |before.registrars| && before.registrars[r].Returned? ==> r in after.ran
  {
    RunKeepsInv(START, prefix);
    var before := Run(START, prefix);
    RunKeepsOwed(before.exitList, before, suffix);
  }

  /** Once the worker has the lock, `first` is all it will ever run. */
  ghost predicate Settled(first: seq<nat>, s: State)
  {
    && (s.worker.Calling? || s.worker.Unlocked? || WorkerReachedFinish(s))
    && (if s.worker.Calling? then s.exitList == first else s.ran == first)
  }

  lemma StepKeepsSettled(first: seq<nat>, s: State, a: Action)
    requires Inv(s) && Enabled(s, a) && Settled(first, s)
    ensures Settled(first, Do(s, a))
  {
    if a.WorkerUnlocks? {
      assert s.ran == s.exitList;
    }
  }

  lemma {:induction false} RunKeepsSettled(first: seq<nat>, s: State, actions: seq<Action>)
    requires Inv(s) && CanRun(s, actions) && Settled(first, s)
    ensures Inv(Run(s, actions)) && Settled(first, Run(s, actions))
    decreases |actions|
  {
    if actions != [] {
      StepKeepsInv(s, actions[0]);
      StepKeepsSettled(first, s, actions[0]);
      RunKeepsSettled(first, Do(s, actions[0]), actions[1..]);
    }
  }

  /** Leaving through the barriers, exactly the calls registered when the worker took the lock have run. */
  lemma ExactlyTheLockedListRuns(prefix: seq<Action>, suffix: seq<Action>)
    requires CanRun(START, prefix) && Enabled(Run(START, prefix), WorkerLocks)
    requires CanRun(Do(Run(START, prefix), WorkerLocks), suffix)
    ensures
      var before := Run(START, prefix);
      var after := Run(Do(before, WorkerLocks), suffix);
      after.handler.PastFinishBarrier? || after.handler == Exited(true) ==> after.ran == before.exitList
  {
    RunKeepsInv(START, prefix);
    var before := Run(START, prefix);
    StepKeepsInv(before, WorkerLocks);
    RunKeepsSettled(before.exitList, Do(before, WorkerLocks), suffix);
  }

  // ----- registration

  /** The five steps of an invocation of on_graceful_exit. */
  function Registering(r: nat): seq<Action>
  {
    [Begin] + ([TakeLock(r)] + ([StartWorker(r)] + ([Append(r)] + ([DropLock(r)] + []))))
  }

  lemma RunOneMore(s: State, a: Action, rest: seq<Action>)
    requires Enabled(s, a) && CanRun(Do(s, a), rest)
    ensures CanRun(s, [a] + rest) && Run(s, [a] + rest) == Run(Do(s, a), rest)
  {
    assert ([a] + rest)[1..] == rest;
  }

  /** The worker, made now if there is none. */
  function Hired(w: WorkerPc): WorkerPc
  {
    if w.Absent? then Created else w
  }

  lemma TakesTheLock(s: State)
    requires !s.handler.Exited? && s.lock.NoOne? && (s.interrupted.Some? ==> s.interrupted.value < |s.registrars|)
    ensures var r, s1 := |s.registrars|, Do(s, Begin);
            Enabled(s1, TakeLock(r))
            && Do(s1, TakeLock(r)) == s.(lock := Registrar(r), registrars := s.registrars + [Locked])
  {
    var r, s1 := |s.registrars|, Do(s, Begin);
    assert s1.registrars[r := Locked] == s.registrars + [Locked];
  }

  lemma Registers(s: State, before: seq<RegistrarPc>, r: nat)
    requires BarriersOk(s) && !s.handler.Exited? && s.interrupted != Some(r)
    requires r == |before| && s.registrars == before + [Locked]
    ensures Enabled(s, StartWorker(r))
    ensures var s1 := Do(s, StartWorker(r));
            Enabled(s1, Append(r))
            && Do(s1, Append(r)) == s.(registrars := before + [Appended], barriers := true, worker := Hired(s.worker),
                                       exitList := s.exitList + [r])
  {
    var s1 := Do(s, StartWorker(r));
    assert s1.registrars == before + [Started];
    assert s1.registrars[r := Appended] == before + [Appended];
  }

  lemma DropsTheLock(s: State, before: seq<RegistrarPc>, r: nat)
    requires !s.handler.Exited? && s.interrupted != Some(r)
    requires r == |before| && s.registrars == before + [Appended]
    ensures Enabled(s, DropLock(r))
    ensures Do(s, DropLock(r)) == s.(lock := NoOne, registrars := before + [Returned])
  {
    assert s.registrars[r := Returned] == before + [Returned];
  }

  /** Until the program exits, whenever the lock is free, a call can be registered, and goes last. */
  lemma RegistrationAddsLast(s: State)
    requires BarriersOk(s) && !s.handler.Exited? && s.lock.NoOne?
    requires s.interrupted.Some? ==> s.interrupted.value < |s.registrars|
    ensures CanRun(s, Registering(|s.registrars|))
    ensures Run(s, Registering(|s.registrars|)) ==
              s.(registrars := s.registrars + [Returned], barriers := true, worker := Hired(s.worker),
                 exitList := s.exitList + [|s.registrars|])
  {
    var r := |s.registrars|;
    TakesTheLock(s);
    var s1 := Do(s, Begin);
    var s2 := Do(s1, TakeLock(r));
    Registers(s2, s.registrars, r);
    var s3 := Do(s2, StartWorker(r));
    var s4 := Do(s3, Append(r));
    DropsTheLock(s4, s.registrars, r);
    RunOneMore(s4, DropLock(r), []);
    RunOneMore(s3, Append(r), [DropLock(r)] + []);
    RunOneMore(s2, StartWorker(r), [Append(r)] + ([DropLock(r)] + []));
    RunOneMore(s1, TakeLock(r), [StartWorker(r)] + ([Append(r)] + ([DropLock(r)] + [])));
    RunOneMore(s, Begin, [TakeLock(r)] + ([StartWorker(r)] + ([Append(r)] + ([DropLock(r)] + []))));
  }

  // ----- progress

  /** The signal interrupted the very thread that holds the lock. */
  predicate Stuck(s: State)
  {
    s.lock.Registrar? && s.interrupted == Some(s.lock.r)
  }

  /** The next thing that can happen without a new registration. */
  function Next(s: State): Action
  {
    match s.lock
    case Registrar(r) =>
      if r >= |s.registrars| then Begin
      else if s.registrars[r].Locked? then StartWorker(r)
      else if s.registrars[r].Started? then Append(r) else DropLock(r)
    case Worker => if s.worker.Calling? && s.worker.next < |s.exitList| then WorkerCalls else WorkerUnlocks
    case Handler => HandlerReads
    case NoOne =>
      if s.handler.Signalled? then HandlerLocks
      else if s.handler == Decided(true) then HandlerArrives
      else if s.handler == Decided(false) || s.handler.PastFinishBarrier? then HandlerExits
      else if s.handler.PastExitBarrier? then HandlerArrivesFinish
      else if s.worker.Created? then WorkerArrives
      else if s.handler.AtExitBarrier? then HandlerPasses
      else if s.worker.AtExitBarrier? then WorkerPasses
      else if s.worker.PastExitBarrier? then WorkerLocks
      else if s.worker.Unlocked? then WorkerArrivesFinish
      else HandlerPassesFinish
  }

  /** After the signal something can always happen until the program exits, unless the lock holder is suspended. */
  lemma NextEnabled(s: State)
    requires Inv(s) && !s.handler.Idle? && !s.handler.Exited? && !Stuck(s)
    ensures Enabled(s, Next(s)) && !Next(s).Begin?
  {
  }

  function RegistrarWork(pc: RegistrarPc): nat
  {
    match pc
    case Waiting => 8
    case Locked => 6
    case Started => 4
    case Appended => 2
    case Returned => 0
  }

  function RegistrarsWork(rs: seq<RegistrarPc>, n: nat): nat
    requires n <= |rs|
  {
    if n == 0 then 0 else RegistrarsWork(rs, n - 1) + RegistrarWork(rs[n - 1])
  }

  function WorkerWork(w: WorkerPc): nat
  {
    match w
    case Absent => 8
    case Created => 7
    case AtExitBarrier => 6
    case PastExitBarrier => 5
    case Calling(_) => 4
    case Unlocked => 3
    case AtFinishBarrier => 2
    case Finished => 1
  }

  function HandlerWork(h: HandlerPc): nat
  {
    match h
    case Idle => 9
    case Signalled => 8
    case Reading => 7
    case Decided(_) => 6
    case AtExitBarrier => 5
    case PastExitBarrier => 4
    case AtFinishBarrier => 3
    case PastFinishBarrier => 2
    case Exited(_) => 0
  }

  function CallsLeft(s: State): nat
  {
    match s.worker
    case Calling(i) => if i <= |s.exitList| then |s.exitList| - i else 0
    case Unlocked => 0
    case AtFinishBarrier => 0
    case Finished => 0
    case _ => |s.exitList|
  }

  /** How much is left to do if nothing more is registered. */
  function Work(s: State): nat
  {
    RegistrarsWork(s.registrars, |s.registrars|) + WorkerWork(s.worker) + HandlerWork(s.handler) + CallsLeft(s)
  }

  lemma {:induction false} RegistrarsWorkUpdate(rs: seq<RegistrarPc>, r: nat, pc: RegistrarPc, n: nat)
    requires r < |rs| && n <= |rs|
    ensures RegistrarsWork(rs[r := pc], n) + (if r < n then RegistrarWork(rs[r]) else 0)
         == RegistrarsWork(rs, n) + if r < n then RegistrarWork(pc) else 0
  {
    if n > 0 {
      RegistrarsWorkUpdate(rs, r, pc, n - 1);
    }
  }

  lemma RegistrarDoesWork(s: State, a: Action)
    requires Inv(s) && Enabled(s, a)
    requires a.TakeLock? || a.StartWorker? || a.Append? || a.DropLock?
    ensures Work(Do(s, a)) < Work(s)
  {
    match a
    case TakeLock(r) => RegistrarsWorkUpdate(s.registrars, r, Locked, |s.registrars|);
    case StartWorker(r) => RegistrarsWorkUpdate(s.registrars, r, Started, |s.registrars|);
    case Append(r) => RegistrarsWorkUpdate(s.registrars, r, Appended, |s.registrars|);
    case DropLock(r) => RegistrarsWorkUpdate(s.registrars, r, Returned, |s.registrars|);
  }

  /** Every step but a new registration uses up some of the work. */
  lemma StepDoesWork(s: State, a: Action)
    requires Inv(s) && Enabled(s, a) && !a.Begin?
    ensures Work(Do(s, a)) < Work(s)
  {
    if a.TakeLock? || a.StartWorker? || a.Append? || a.DropLock? {
      RegistrarDoesWork(s, a);
    } else {
      assert Do(s, a).registrars == s.registrars;
    }
  }

  predicate NoBegin(actions: seq<Action>)
  {
    forall i :: 0 <= i < |actions| ==> !actions[i].Begin?
  }

  /** Runs without new registrations are no longer than the work there is. */
  lemma {:induction false} RunsAreBounded(s: State, actions: seq<Action>)
    requires Inv(s) && CanRun(s, actions) && NoBegin(actions)
    ensures |actions| + Work(Run(s, actions)) <= Work(s)
    decreases |actions|
  {
    if actions != [] {
      assert !actions[0].Begin?;
      StepDoesWork(s, actions[0]);
      StepKeepsInv(s, actions[0]);
      RunsAreBounded(Do(s, actions[0]), actions[1..]);
    }
  }

  lemma StepKeepsFree(s: State, a: Action)
    requires Inv(s) && Enabled(s, a) && !s.handler.Idle?
    ensures Stuck(Do(s, a)) <==> Stuck(s)
    ensures !Do(s, a).handler.Idle?
  {
  }

  /** A run that leads to exit. */
  lemma {:induction false} ExitReachable(s: State) returns (actions: seq<Action>)
    requires Inv(s) && !s.handler.Idle? && !Stuck(s)
    ensures CanRun(s, actions) && NoBegin(actions) && Run(s, actions).handler.Exited?
    decreases Work(s)
  {
    if s.handler.Exited? {
      return [];
    }
    var a := Next(s);
    NextEnabled(s);
    StepDoesWork(s, a);
    StepKeepsInv(s, a);
    StepKeepsFree(s, a);
    var rest := ExitReachable(Do(s, a));
    actions := [a] + rest;
    assert actions[1..] == rest;
  }

  lemma {:induction false} StuckForever(s: State, actions: seq<Action>)
    requires Inv(s) && !s.handler.Idle? && Stuck(s) && !s.handler.Exited? && CanRun(s, actions)
    requires s.handler.Signalled?
    ensures !Run(s, actions).handler.Exited?
    decreases |actions|
  {
    if actions != [] {
      StepKeepsInv(s, actions[0]);
      StepKeepsFree(s, actions[0]);
      StuckForever(Do(s, actions[0]), actions[1..]);
    }
  }

  /**
   * A signal leads to exit exactly if it did not interrupt the thread holding the
   * lock: then every run without new registrations that can go no further has
   * exited; otherwise no run ever exits.
   */
  lemma SignalExits(prefix: seq<Action>, interrupted: Option<nat>, suffix: seq<Action>)
    requires CanRun(START, prefix) && Enabled(Run(START, prefix), Signal(interrupted))
    requires CanRun(Do(Run(START, prefix), Signal(interrupted)), suffix)
    ensures
      var signalled := Do(Run(START, prefix), Signal(interrupted));
      var after := Run(signalled, suffix);
      if Stuck(signalled) then !after.handler.Exited?
      else after.handler.Exited? || exists a :: Enabled(after, a) && !a.Begin?
  {
    RunKeepsInv(START, prefix);
    var before := Run(START, prefix);
    StepKeepsInv(before, Signal(interrupted));
    var signalled := Do(before, Signal(interrupted));
    if Stuck(signalled) {
      StuckForever(signalled, suffix);
    } else {
      RunKeepsFree(signalled, suffix);
      var after := Run(signalled, suffix);
      if !after.handler.Exited? {
        NextEnabled(after);
      }
    }
  }

  /** The second case does arise: a thread registering a callable is interrupted once it has taken the lock. */
  lemma HolderIsInterrupted(suffix: seq<Action>)
    ensures
      var prefix := [Begin, TakeLock(0)];
      && CanRun(START, prefix) && Enabled(Run(START, prefix), Signal(Some(0)))
      && var signalled := Do(Run(START, prefix), Signal(Some(0)));
         Stuck(signalled) && (CanRun(signalled, suffix) ==> !Run(signalled, suffix).handler.Exited?)
  {
    var prefix := [Begin, TakeLock(0)];
    assert prefix[1..] == [TakeLock(0)] && prefix[1..][1..] == [];
    assert Run(START, prefix) == Do(Do(START, Begin), TakeLock(0));
    var signalled := Do(Run(START, prefix), Signal(Some(0)));
    if CanRun(signalled, suffix) {
      SignalExits(prefix, Some(0), suffix);
    }
  }

  lemma {:induction false} RunKeepsFree(s: State, actions: seq<Action>)
    requires Inv(s) && CanRun(s, actions) && !s.handler.Idle?
    ensures Inv(Run(s, actions)) && !Run(s, actions).handler.Idle?
    ensures Stuck(Run(s, actions)) <==> Stuck(s)
    decreases |actions|
  {
    if actions != [] {
      StepKeepsInv(s, actions[0]);
      StepKeepsFree(s, actions[0]);
      RunKeepsFree(Do(s, actions[0]), actions[1..]);
    }
  }
}
