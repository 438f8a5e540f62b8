/**
 * program.py: StreamingJSONProgram, a child process that is sent one JSON text
 * and read one back, restarted when it fails.
 */
module StreamingProgram {
  import opened Json
  import opened Wrappers

  // ----- what the child and the pipes do during one round trip

  datatype Emitted = Written | WriteTimedOut | WriteFailed(reached: bool) | NotSerializable

  /** A line holds a JSON value, or no JSON. */
  datatype Content = Parsed(json: Value) | Malformed

  /**
   * The child writes at most one line per request, in order. `Line(i, c)` answers the
   * i-th request it still owes a line for, skipping the ones before; a line beyond the
   * requests it was sent cannot come, and the pipe then ends instead.
   */
  datatype Incoming = Line(i: nat, content: Content) | ReadTimedOut | EndOfFile

  datatype Attempt = Attempt(running: bool, emitted: Emitted, incoming: Incoming, runningAfter: bool)

  /** A round trip's end: an answer (and the call it is the answer to), or the exception raised. */
  datatype Outcome = Answer(to: nat, content: Content) | IOError | ValueError | TypeError

  /** What a call of the object ends with. */
  datatype CallOutcome = Returned(to: nat, content: Content) | ProgramFailure | Raised(error: Outcome) | AssertionFailed

  /** The retained child: the requests it has been sent and owes a line for. */
  type Retained = Option<seq<nat>>

  // ----- the same steps on values

  function Established(p: Retained, running: bool): seq<nat>
  {
    if p.Some? && running then p.value else []
  }

  /** What one round trip does to the retained child, and how it ends. */
  function RoundtripStep(p: Retained, call: nat, a: Attempt): (Retained, Outcome)
  {
    var owed := Established(p, a.running);
    match a.emitted
    case NotSerializable => (Some(owed), TypeError)
    case WriteTimedOut => (None, IOError)
    case WriteFailed(_) => (None, IOError)
    case Written =>
      var asked := owed + [call];
      match a.incoming
      case ReadTimedOut => (None, IOError)
      case EndOfFile => (None, IOError)
      case Line(i, c) =>
        if i >= |asked| then (None, IOError)
        else if c.Malformed? then (Some(asked[i + 1..]), ValueError)
        else if c.json.Null? && !a.runningAfter then (None, IOError)
        else (Some(asked[i + 1..]), Answer(asked[i], c))
  }

  /** The retry loop with `tries` left; also how many round trips it made. */
  function CallLoop(p: Retained, call: nat, env: seq<Attempt>, tries: nat): (r: (Retained, CallOutcome, nat))
    requires tries <= |env|
    decreases tries
  {
    if tries == 0 then (p, AssertionFailed, 0)
    else
      var (q, out) := RoundtripStep(p, call, env[0]);
      match out
      case Answer(to, c) => (q, Returned(to, c), 1)
      case IOError =>
        if tries == 1 then (q, ProgramFailure, 1)
        else
          var (q', out', n) := CallLoop(q, call, env[1..], tries - 1);
          (q', out', n + 1)
      case _ => (q, Raised(out), 1)
  }

  // ----- the classes

  class Child {
    var owed: seq<nat>

    constructor ()
      ensures owed == []
    {
      owed := [];
    }

    method Write(call: nat)
      modifies this
      ensures owed == old(owed) + [call]
    {
      owed := owed + [call];
    }

    /** The next line of the child's output, or none. */
    method ReadLine(incoming: Incoming) returns (line: Option<(nat, Content)>)
      modifies this
      ensures line.Some? <==> incoming.Line? && incoming.i < |old(owed)|
      ensures line.Some? ==>
                && line.value == (old(owed)[incoming.i], incoming.content)
                && owed == old(owed)[incoming.i + 1..]
      ensures line.None? ==> owed == old(owed)
    {
      if incoming.Line? && incoming.i < |owed| {
        line := Some((owed[incoming.i], incoming.content));
        owed := owed[incoming.i + 1..];
      } else {
        line := None;
      }
    }
  }

  class StreamingJSONProgram {
    const retries: nat
    var program: Child?

    ghost function Retains(): Retained
      reads this, program
    {
      if program == null then None else Some(program.owed)
    }

    constructor (retries: nat)
      ensures this.retries == retries && Retains() == Some([]) && fresh(program)
    {
      this.retries := retries;
      program := null;
      new;
      Establish(false);
    }

    method Establish(running: bool)
      modifies this`program
      ensures running && old(program) != null ==> program == old(program) && Retains() == old(Retains())
      ensures !(running && old(program) != null) ==> fresh(program) && Retains() == Some([])
      ensures program != null
    {
      if program != null {
        if running {
          return;
        }
        program := null;
      }
      program := new Child();
    }

    method Done()
      modifies this`program
      ensures Retains() == None
    {
      if program != null {
        program := null;
      }
    }

    method Roundtrip(call: nat, a: Attempt) returns (out: Outcome)
      modifies this`program, program
      ensures (Retains(), out) == RoundtripStep(old(Retains()), call, a)
      ensures program == null || program == old(program) || fresh(program)
    {
      Establish(a.running);
      match a.emitted {
        case NotSerializable =>
          return TypeError;
        case WriteTimedOut =>
          program := null;
          return IOError;
        case WriteFailed(reached) =>
          if reached {
            program.Write(call);
          }
          program := null;
          return IOError;
        case Written =>
          program.Write(call);
      }
      var line := program.ReadLine(a.incoming);
      if line.None? {
        if a.incoming.ReadTimedOut? {
          program := null;
        } else {
          Done();
        }
        return IOError;
      }
      var (to, content) := line.value;
      if content.Malformed? {
        return ValueError;
      }
      if content.json.Null? && !a.runningAfter {
        program := null;
        return IOError;
      }
      return Answer(to, content);
    }

    /** One call under the lock; `used` counts its round trips. */
    method Call(call: nat, env: seq<Attempt>) returns (out: CallOutcome, used: nat)
      requires retries <= |env|
      modifies this`program, program
      ensures (Retains(), out, used) == CallLoop(old(Retains()), call, env, retries)
      ensures program == null || program == old(program) || fresh(program)
    {
      var tries := retries;
      var failed := false;
      used := 0;
      assert env[0..] == env;
      while tries > 0
        invariant used + tries == retries
        invariant failed <==> tries == 0 < retries
        invariant program == null || program == old(program) || fresh(program)
        invariant tries > 0 || retries == 0 ==>
                    var (q, o, n) := CallLoop(Retains(), call, env[used..], tries);
                    CallLoop(old(Retains()), call, env, retries) == (q, o, n + used)
        invariant failed ==> CallLoop(old(Retains()), call, env, retries) == (Retains(), ProgramFailure, used)
      {
        tries := tries - 1;
        var result := Roundtrip(call, env[used]);
        assert env[used..][0] == env[used] && env[used..][1..] == env[used + 1..];
        used := used + 1;
        match result {
          case Answer(to, content) =>
            return Returned(to, content), used;
          case IOError =>
            failed := tries == 0;
          case _ =>
            return Raised(result), used;
        }
      }
      return if failed then ProgramFailure else AssertionFailed, used;
    }
  }

  // ----- pairing of requests and answers

  /** The child kept between calls owes nothing. */
  predicate Clean(p: Retained)
  {
    p.Some? ==> p.value == []
  }

  /** An attempt that raises IOError when the child it starts with owes nothing. */
  predicate Fails(a: Attempt)
  {
    match a.emitted
    case NotSerializable => false
    case WriteTimedOut => true
    case WriteFailed(_) => true
    case Written =>
      match a.incoming
      case ReadTimedOut => true
      case EndOfFile => true
      case Line(i, content) => i > 0 || (content == Parsed(Null) && !a.runningAfter)
  }

  /** The child read the request and this is the line it wrote for it. */
  predicate Wrote(a: Attempt, content: Content)
  {
    a.emitted.Written? && a.incoming == Line(0, content)
  }

  /**
   * From a clean start a round trip ends clean, and answers nothing but its own request,
   * with what the child wrote for it. Only an IOError costs the child.
   */
  lemma RoundtripPairs(p: Retained, call: nat, a: Attempt)
    requires Clean(p)
    ensures
      var (q, out) := RoundtripStep(p, call, a);
      && q == (if out.IOError? then None else Some([]))
      && (out.IOError? <==> Fails(a))
      && (out.TypeError? <==> a.emitted.NotSerializable?)
      && (out.ValueError? <==> Wrote(a, Malformed))
      && (out.Answer? ==> out.to == call && out.content.Parsed? && Wrote(a, out.content))
  {
    assert (Established(p, a.running) + [call])[1..] == [];
  }

  /** A child that has died is replaced: whatever it owed makes no difference. */
  lemma DeadChildIsForgotten(p: Retained, call: nat, a: Attempt)
    requires !a.running
    ensures RoundtripStep(p, call, a) == RoundtripStep(None, call, a)
  {
  }

  /** The n-th attempt is the first that does not raise IOError. */
  predicate FirstToSucceed(env: seq<Attempt>, n: nat)
    requires n < |env|
  {
    !Fails(env[n]) && forall i :: 0 <= i < n ==> Fails(env[i])
  }

  /**
   * A call tries until the first attempt that does not fail with an IOError and ends
   * as that attempt does; it gives up exactly when all `tries` attempts fail.
   */
  lemma {:induction false} CallPairs(p: Retained, call: nat, env: seq<Attempt>, tries: nat)
    requires Clean(p) && tries <= |env|
    ensures
      var (q, out, used) := CallLoop(p, call, env, tries);
      && used <= tries
      && (out.AssertionFailed? <==> tries == 0)
      && (out.ProgramFailure? <==> tries > 0 && forall i :: 0 <= i < tries ==> Fails(env[i]))
      && (out.ProgramFailure? ==> used == tries && q == None)
      && (out.Returned? || out.Raised? ==> used > 0 && FirstToSucceed(env, used - 1) && q == Some([]))
      && (out.Returned? ==> out.to == call && out.content.Parsed? && Wrote(env[used - 1], out.content))
      && (out.Raised? ==> out.error == if env[used - 1].emitted.NotSerializable? then TypeError else ValueError)
      && (out.Raised? && out.error.ValueError? ==> Wrote(env[used - 1], Malformed))
      && Clean(q)
    decreases tries
  {
    if tries > 0 {
      var (q, o) := RoundtripStep(p, call, env[0]);
      RoundtripPairs(p, call, env[0]);
      if o.IOError? && tries > 1 {
        CallPairs(q, call, env[1..], tries - 1);
        assert forall i :: 0 <= i < |env| - 1 ==> env[1..][i] == env[i + 1];
        forall i | 0 <= i < tries ensures Fails(env[i]) <==> i == 0 || Fails(env[1..][i - 1]) {
        }
      }
    }
  }

  // ----- whole runs

  datatype Operation = DoCall(call: nat, env: seq<Attempt>) | DoDone

  /** Any sequence of calls, and of `done` between them; the lock keeps calls apart. */
  function RunAll(p: Retained, retries: nat, ops: seq<Operation>): (r: (Retained, seq<Option<CallOutcome>>))
    requires forall i :: 0 <= i < |ops| && ops[i].DoCall? ==> retries <= |ops[i].env|
    ensures |r.1| == |ops|
    decreases |ops|
  {
    if ops == [] then (p, [])
    else match ops[0]
         case DoDone =>
           var (q, outs) := RunAll(None, retries, ops[1..]);
           (q, [None] + outs)
         case DoCall(call, env) =>
           var (q, out, _) := CallLoop(p, call, env, retries);
           var (q', outs) := RunAll(q, retries, ops[1..]);
           (q', [Some(out)] + outs)
  }

  /** What a call returned is what the child wrote for it in the first attempt that did not fail. */
  ghost predicate Answered(env: seq<Attempt>, retries: nat, content: Content)
    requires retries <= |env|
  {
    content.Parsed? && exists n :: 0 <= n < retries && FirstToSucceed(env, n) && Wrote(env[n], content)
  }

  /**
   * Whatever crashes, ends of file and timeouts there are, every answer returned is to the
   * call's own request, and is what the child wrote for that very call.
   */
  lemma {:induction false} EveryAnswerIsToItsOwnCall(p: Retained, retries: nat, ops: seq<Operation>)
    requires Clean(p)
    requires forall i :: 0 <= i < |ops| && ops[i].DoCall? ==> retries <= |ops[i].env|
    ensures Clean(RunAll(p, retries, ops).0)
    ensures
      var outs := RunAll(p, retries, ops).1;
      forall i :: 0 <= i < |ops| ==>
        && (outs[i].Some? <==> ops[i].DoCall?)
        && (outs[i].Some? && outs[i].value.Returned? ==>
              outs[i].value.to == ops[i].call && Answered(ops[i].env, retries, outs[i].value.content))
    decreases |ops|
  {
    if ops != [] {
      match ops[0]
      case DoDone =>
        EveryAnswerIsToItsOwnCall(None, retries, ops[1..]);
      case DoCall(call, env) =>
        CallPairs(p, call, env, retries);
        EveryAnswerIsToItsOwnCall(CallLoop(p, call, env, retries).0, retries, ops[1..]);
    }
  }

  /**
   * Why a failed child has to go: a retained child can be trusted to answer this
   * call exactly if it owes no line to another call.
   */
  lemma OwedLinesMisdirect(owed: seq<nat>, call: nat)
    ensures
      (forall a :: RoundtripStep(Some(owed), call, a).1.Answer? ==> RoundtripStep(Some(owed), call, a).1.to == call)
      <==> (forall i :: 0 <= i < |owed| ==> owed[i] == call)
  {
    forall i | 0 <= i < |owed| && owed[i] != call
      ensures exists a :: RoundtripStep(Some(owed), call, a).1.Answer? && RoundtripStep(Some(owed), call, a).1.to != call
    {
      var a := Attempt(true, Written, Line(i, Parsed(Bool(true))), true);
      assert RoundtripStep(Some(owed), call, a).1 == Answer(owed[i], Parsed(Bool(true)));
    }
  }
}
