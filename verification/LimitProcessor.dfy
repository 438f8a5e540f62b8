/**
 * limitprocessor.py: a proposed task taken through identification, classification,
 * rewriting, applications and priority.
 */
module LimitProcessor {
  import opened Wrappers
  import opened Json
  import H = HowMany
  import I = IdentifierSet
  import C = ClassifierSet
  import D = DictHeap
  import L = LimitSet
  import A = ApplicationSet

  /** The rewriter may fail; otherwise it says whether it changed the task, and to what. */
  type Rewriter = (Value, seq<string>) -> Result<(bool, Value), string>

  /** The prioritizer may fail, or produce nothing. */
  type Prioritizer = (Value, seq<string>) -> Result<Option<int>, string>

  /** A limit file. */
  datatype Config = Config(identifiers: seq<I.Identifier>, classifiers: seq<C.Entry>, rewrite: Option<Rewriter>,
                           limits: seq<L.Source>, applications: seq<A.Application>, priority: Option<Prioritizer>)

  /** What the evaluators of the deployment do. */
  datatype World = World(canIdentify: I.Creator, identify: I.Evaluator, canLimit: L.Creator, limit: L.Evaluator)

  datatype Processor =
    | Inert
    | Active(identifiers: seq<I.Identifier>, classifiers: seq<C.Entry>, rewriter: Option<Rewriter>,
             limits: map<string, L.Limit>, applications: seq<A.Application>, prioritizer: Option<Prioritizer>)

  datatype Fault =
    | BadIdentifiers(i: I.Fault)
    | BadClassifiers(c: C.Fault)
    | BadLimits(l: L.Fault)
    | BadApplications(a: A.Unknown)

  // ----- construction

  /** Everything one stage names is known to the stage it names it in. */
  ghost predicate Built(p: Processor)
  {
    p.Active? ==>
      && (forall e, name | e in p.classifiers && name in e.identifiers ::
            I.NamedBefore(p.identifiers, |p.identifiers|, name))
      && (forall name :: A.UsesClassifierTo(p.applications, |p.applications|, name) ==>
                           C.NamedBefore(p.classifiers, |p.classifiers|, name))
      && (forall name :: A.UsesLimitTo(p.applications, |p.applications|, name) ==> name in p.limits)
  }

  /** Every stage accepts its part of the file, and what it names in the stages before; the limits say `entries`. */
  ghost predicate Acceptable(config: Config, entries: seq<L.Entry>, world: World)
  {
    var known := set i | 0 <= i < |config.identifiers| :: config.identifiers[i].name;
    && (forall i :: 0 <= i < |config.identifiers| ==> I.FaultAt(config.identifiers, i, world.canIdentify).None?)
    && (forall i :: 0 <= i < |config.classifiers| ==> C.FaultAt(config.classifiers, i, known).None?)
    && L.Faultless(entries, |entries|, world.canLimit)
    && (forall name :: A.UsesClassifierTo(config.applications, |config.applications|, name) ==>
                         C.NamedBefore(config.classifiers, |config.classifiers|, name))
    && (forall name :: A.UsesLimitTo(config.applications, |config.applications|, name) ==>
                         L.Find(entries, |entries|, name).Some?)
  }

  /** __init__, given the dictionaries the file was loaded into. */
  method Construct(source: Option<Config>, heap: D.Heap, ghost entries: seq<L.Entry>, world: World)
    returns (after: D.Heap, r: Result<Processor, Fault>)
    requires heap.Valid() && (source.Some? ==> L.FileSays(heap.nodes, source.value.limits, entries))
    ensures D.Extends(heap, after)
    ensures r.Ok? <==> source.None? || Acceptable(source.value, entries, world)
    ensures r.Ok? ==> Built(r.value) && (r.value.Inert? <==> source.None?)
    ensures r.Ok? && source.Some? ==>
              && r.value.identifiers == source.value.identifiers && r.value.classifiers == source.value.classifiers
              && r.value.applications == source.value.applications
              && L.Loaded(entries, |entries|, r.value.limits)
  {
    after := heap;
    if source.None? {
      return after, Ok(Inert);
    }
    var config := source.value;
    var identifiers := I.Load(config.identifiers, world.canIdentify);
    if identifiers.Err? {
      return after, Err(BadIdentifiers(identifiers.error));
    }
    ghost var known := set i | 0 <= i < |config.identifiers| :: config.identifiers[i].name;
    assert identifiers.value.1 == known;
    var classifiers := C.Load(config.classifiers, identifiers.value.1);
    if classifiers.Err? {
      return after, Err(BadClassifiers(classifiers.error));
    }
    var limits;
    after, limits := L.Load(heap, config.limits, entries, world.canLimit);
    if limits.Err? {
      return after, Err(BadLimits(limits.error));
    }
    var applications := A.Construct(config.applications, classifiers.value.1, limits.value.limits.Keys);
    if applications.Err? {
      return after, Err(BadApplications(applications.error));
    }
    ClassifiersKnow(config.classifiers, identifiers.value.1);
    return after, Ok(Active(identifiers.value.0, classifiers.value.0, config.rewrite, limits.value.limits,
                     applications.value, config.priority));
  }

  lemma ClassifiersKnow(classifiers: seq<C.Entry>, known: set<string>)
    requires forall i :: 0 <= i < |classifiers| ==> C.FaultAt(classifiers, i, known).None?
    ensures forall e, name | e in classifiers && name in e.identifiers :: name in known
  {
    forall e, name | e in classifiers && name in e.identifiers ensures name in known {
      var i :| 0 <= i < |classifiers| && classifiers[i] == e;
      assert C.FaultAt(classifiers, i, known).None?;
      assert name !in C.Missing(e.identifiers, known);
    }
  }

  // ----- processing

  datatype Request = Request(task: map<string, Value>, hints: Value, rewrite: bool, prioritize: bool)

  datatype Outcome = Outcome(passed: bool, limits: seq<seq<Value>>, task: Option<Value>, priority: Option<int>)

  const REFUSED: Outcome := Outcome(false, [], None, None)

  function Proposal(q: Request): Value
  {
    Dict(map["hints" := q.hints, "task" := Dict(q.task)])
  }

  function ContextOf(p: Processor, w: World, q: Request): L.Context
    requires p.Active?
  {
    L.Context(p.limits, w.limit, Proposal(q), "run_schedule" in q.task)
  }

  function Identified(p: Processor, w: World, q: Request): seq<string>
    requires p.Active?
  {
    I.Matched(p.identifiers, w.identify, q.hints, |p.identifiers|)
  }

  ghost function Classes(p: Processor, w: World, q: Request): seq<string>
    requires p.Active?
  {
    C.Classified(p.classifiers, Identified(p, w, q), |p.classifiers|)
  }

  /** What the rewriter makes of the task; a task that is not to be rewritten is left alone. */
  function Rewriting(p: Processor, q: Request, classes: seq<string>): Result<(bool, Value), string>
    requires p.Active?
  {
    if p.rewriter.Some? && q.rewrite then p.rewriter.value(Proposal(q), classes) else Ok((false, Dict(q.task)))
  }

  /** The task as the prioritizer sees it. */
  function FinalTask(p: Processor, q: Request, classes: seq<string>): Value
    requires p.Active? && Rewriting(p, q, classes).Ok?
  {
    if Rewriting(p, q, classes).value.0 then Rewriting(p, q, classes).value.1 else Dict(q.task)
  }

  predicate Prioritizes(p: Processor, q: Request)
    requires p.Active?
  {
    q.prioritize && p.prioritizer.Some?
  }

  /**
   * What it takes to pass once classified: the applications judge the proposal as made,
   * not as rewritten, and a priority asked for must be found.
   */
  ghost predicate Granted(p: Processor, w: World, q: Request, classes: seq<string>)
    requires p.Active?
  {
    && Rewriting(p, q, classes).Ok?
    && A.Verdict(ContextOf(p, w, q), p.applications, classes)
    && (Prioritizes(p, q) ==>
          var priority := p.prioritizer.value(FinalTask(p, q, classes), classes);
          priority.Ok? && priority.value.Some?)
  }

  /** Some identifier matches and some classifier holds. */
  ghost predicate Recognized(p: Processor, w: World, q: Request)
    requires p.Active?
  {
    && (exists i :: 0 <= i < |p.identifiers| && I.Matches(p.identifiers[i], w.identify, q.hints))
    && (exists i :: 0 <= i < |p.classifiers| && C.Classifies(p.classifiers[i], Identified(p, w, q)))
  }

  ghost predicate Admitted(p: Processor, w: World, q: Request)
  {
    p.Inert? || (Recognized(p, w, q) && Granted(p, w, q, Classes(p, w, q)))
  }

  /** The limits returned: none, or one non-empty list for each passing application, in order. */
  ghost predicate Limits(p: Processor, w: World, q: Request, classes: seq<string>, limits: seq<seq<Value>>)
    requires p.Active?
  {
    exists all: seq<seq<Value>> ::
      && A.Lists(ContextOf(p, w, q), p.applications, classes, |p.applications|, all)
      && limits == if all == [] || [] in all then [] else all
  }

  /** The outcome once classified: the limits, the rewritten task and the priority that go with its verdict. */
  ghost predicate Answers(p: Processor, w: World, q: Request, classes: seq<string>, o: Outcome)
    requires p.Active?
  {
    var rewriting := Rewriting(p, q, classes);
    if rewriting.Err? then o == REFUSED
    else
      var task := if p.rewriter.Some? && q.rewrite then Some(rewriting.value.1) else None;
      if !A.Verdict(ContextOf(p, w, q), p.applications, classes) then o == Outcome(false, [], task, Some(0))
      else if !Granted(p, w, q, classes) then o == REFUSED
      else
        && o.passed && Limits(p, w, q, classes, o.limits) && o.task == task
        && o.priority == if Prioritizes(p, q) then p.prioritizer.value(FinalTask(p, q, classes), classes).value
                         else Some(0)
  }

  lemma {:induction false} SomeMatched(identifiers: seq<I.Identifier>, evaluate: I.Evaluator, hints: Value, n: nat)
    requires n <= |identifiers|
    ensures I.Matched(identifiers, evaluate, hints, n) != [] <==>
              exists i :: 0 <= i < n && I.Matches(identifiers[i], evaluate, hints)
  {
    if n > 0 {
      SomeMatched(identifiers, evaluate, hints, n - 1);
    }
  }

  lemma {:induction false} SomeClassified(classifiers: seq<C.Entry>, identities: seq<string>, n: nat)
    requires n <= |classifiers|
    ensures C.Classified(classifiers, identities, n) != [] <==>
              exists i :: 0 <= i < n && C.Classifies(classifiers[i], identities)
  {
    if n > 0 {
      SomeClassified(classifiers, identities, n - 1);
    }
  }

  /** process; the error is that of a limit nobody defined, which a built processor never meets. */
  method Process(p: Processor, w: World, q: Request) returns (r: Result<Outcome, string>)
    ensures Built(p) ==> r.Ok?
    ensures r.Err? ==> p.Active? && r.error !in p.limits
    ensures r.Ok? ==> r.value.passed == Admitted(p, w, q)
    ensures p.Inert? ==> r == Ok(Outcome(true, [], None, None))
    ensures r.Ok? && p.Active? ==>
              if Recognized(p, w, q) then Answers(p, w, q, Classes(p, w, q), r.value) else r.value == REFUSED
  {
    if p.Inert? {
      return Ok(Outcome(true, [], None, None));
    }
    var identifications := I.Identities(p.identifiers, w.identify, q.hints);
    SomeMatched(p.identifiers, w.identify, q.hints, |p.identifiers|);
    if identifications == [] {
      return Ok(REFUSED);
    }
    var classifications := C.Classifications(p.classifiers, identifications);
    SomeClassified(p.classifiers, identifications, |p.classifiers|);
    if classifications == [] {
      return Ok(REFUSED);
    }
    r := Apply(p, w, q, classifications);
  }

  /** The stages after classification. */
  method Apply(p: Processor, w: World, q: Request, classes: seq<string>) returns (r: Result<Outcome, string>)
    requires p.Active?
    ensures (forall x :: A.UsesLimitTo(p.applications, |p.applications|, x) ==> x in p.limits) ==> r.Ok?
    ensures r.Err? ==> r.error !in p.limits
    ensures r.Ok? ==> Answers(p, w, q, classes, r.value)
  {
    var task := Dict(q.task);
    var newTask: Option<Value> := None;
    if p.rewriter.Some? && q.rewrite {
      var rewritten := p.rewriter.value(Proposal(q), classes);
      if rewritten.Err? {
        return Ok(REFUSED);
      }
      newTask := Some(rewritten.value.1);
      if rewritten.value.0 {
        task := rewritten.value.1;
      }
    }
    ghost var known := forall x :: A.UsesLimitTo(p.applications, |p.applications|, x) ==> x in p.limits;
    if known {
      A.ConstructedIsDefined(ContextOf(p, w, q), p.applications);
    }
    var checked := A.CheckAll(ContextOf(p, w, q), p.applications, classes);
    if checked.Err? {
      return Err(checked.error);
    }
    var (passed, limits) := checked.value;
    var unlimited := limits == [] || [] in limits;
    var priority := 0;
    if q.prioritize && passed && p.prioritizer.Some? {
      var prioritized := p.prioritizer.value(task, classes);
      if prioritized.Err? || prioritized.value.None? {
        return Ok(REFUSED);
      }
      priority := prioritized.value.value;
    }
    return Ok(Outcome(passed, if unlimited || !passed then [] else limits, newTask, Some(priority)));
  }

  /** Whether a request passes does not depend on how the limit file orders its applications. */
  lemma AdmissionIgnoresOrder(p: Processor, w: World, q: Request, middle: seq<A.Application>, ys: seq<A.Application>)
    requires p.Active? && A.SameApplications(p.applications, middle) && multiset(middle) == multiset(ys)
    ensures Admitted(p, w, q) == Admitted(p.(applications := ys), w, q)
  {
    A.VerdictIgnoresOrder(ContextOf(p, w, q), p.applications, middle, ys, Classes(p, w, q));
  }

  // ----- when limits on the schedule are enforced

  /** The evaluators of the limits agree on every type of limit but those that check the schedule. */
  ghost predicate AgreeOffSchedule(v: L.Evaluator, w: L.Evaluator)
  {
    forall kind, data, proposal ::
      kind != "run-daterange" && kind != "run-schedule" ==> v(kind, data, proposal) == w(kind, data, proposal)
  }

  /** A task without `run_schedule` fares the same whatever the limits on the schedule would say. */
  lemma UnscheduledIgnoresSchedule(p: Processor, w: World, limit: L.Evaluator, q: Request)
    requires p.Active? && "run_schedule" !in q.task && AgreeOffSchedule(w.limit, limit)
    ensures Admitted(p, w, q) <==> Admitted(p, w.(limit := limit), q)
    ensures Classes(p, w, q) == Classes(p, w.(limit := limit), q)
    ensures forall o :: Answers(p, w, q, Classes(p, w, q), o) <==>
                        Answers(p, w.(limit := limit), q, Classes(p, w, q), o)
  {
    var v, classes := w.(limit := limit), Classes(p, w, q);
    var c, d := ContextOf(p, w, q), ContextOf(p, v, q);
    assert A.FareAlike(c, d) && A.FareAlike(d, c);
    A.VerdictsFareAlike(c, d, p.applications, classes);
    forall all: seq<seq<Value>>
      ensures A.Lists(c, p.applications, classes, |p.applications|, all) <==>
              A.Lists(d, p.applications, classes, |p.applications|, all)
    {
      if A.Lists(c, p.applications, classes, |p.applications|, all) {
        A.ListsAlike(c, d, p.applications, classes, |p.applications|, all);
      }
      if A.Lists(d, p.applications, classes, |p.applications|, all) {
        A.ListsAlike(d, c, p.applications, classes, |p.applications|, all);
      }
    }
    forall limits: seq<seq<Value>> ensures Limits(p, w, q, classes, limits) <==> Limits(p, v, q, classes, limits) {
    }
  }

  /** The limit says no, and is not one that is passed over for a task without a schedule. */
  predicate Forbids(p: Processor, w: World, q: Request, name: string)
    requires p.Active?
  {
    && name in p.limits
    && var limit := p.limits[name];
       && limit.invert != Some(true)
       && ("run_schedule" in q.task || (limit.kind != "run-daterange" && limit.kind != "run-schedule"))
       && !w.limit(limit.kind, limit.data, Dict(map["hints" := q.hints, "task" := Dict(q.task)])).passed
  }

  /**
   * A limit that says no to the hints and the task, in a group that asks for all of its
   * limits, of an application that applies, is not inverted and stops on failure: the task
   * is refused, whatever else the limit file says.
   */
  lemma ForbiddenIsRefused(p: Processor, w: World, q: Request, a: A.Application, g: A.Group, name: string)
    requires p.Active? && a in p.applications && a.stopOnFailure && !a.invert
    requires a.classifier.None? || a.classifier.value in Classes(p, w, q)
    requires g in a.apply && g.require.AllOf? && name in g.limits && Forbids(p, w, q, name)
    ensures !Admitted(p, w, q)
  {
    var c := ContextOf(p, w, q);
    assert !L.Passes(c, name);
    var i :| 0 <= i < |g.limits| && g.limits[i] == name;
    assert !A.Passing(c)(g.limits[i]);
    assert !A.GroupPasses(c, g);
    assert !A.ApplicationPasses(c, a);
  }

  /**
   * With a single application, not inverted, whose one group asks for all its limits: admitted
   * exactly if it applies, having no classifier or one that holds, and no limit says no.
   */
  lemma SingleApplication(p: Processor, w: World, q: Request, a: A.Application, names: seq<string>)
    requires p.Active? && p.applications == [a] && a.apply == [A.Group(H.AllOf, names)] && !a.invert
    requires forall name | name in names :: name in p.limits && p.limits[name].invert != Some(true)
    requires Recognized(p, w, q)
    requires p.rewriter.None? && p.prioritizer.None?
    ensures Admitted(p, w, q) <==>
              && (a.classifier.None? || a.classifier.value in Classes(p, w, q))
              && forall name | name in names :: !Forbids(p, w, q, name)
  {
    var c := ContextOf(p, w, q);
    forall name | name in names ensures L.Passes(c, name) <==> !Forbids(p, w, q, name) {
    }
    assert a.apply[0] in a.apply && a in p.applications;
    assert A.ApplicationPasses(c, a) <==> A.GroupPasses(c, a.apply[0]);
    assert A.GroupPasses(c, a.apply[0]) <==> forall name | name in names :: A.Passing(c)(name) by {
      assert forall i :: 0 <= i < |names| ==> names[i] in names;
      forall name | name in names && A.GroupPasses(c, a.apply[0]) ensures A.Passing(c)(name) {
        var i :| 0 <= i < |names| && names[i] == name;
        assert A.Passing(c)(names[i]);
      }
    }
  }

  /**
   * A task is returned exactly when it was changed, as promised, except that a rewriter
   * that ran and changed nothing has its result returned too.
   */
  lemma TaskMeansChanged(p: Processor, w: World, q: Request, classes: seq<string>, o: Outcome)
    requires p.Active? && Answers(p, w, q, classes, o) && o != REFUSED
    ensures Rewriting(p, q, classes).Ok?
    ensures (o.task.Some? <==> Rewriting(p, q, classes).value.0) <==>
              !(p.rewriter.Some? && q.rewrite && !Rewriting(p, q, classes).value.0)
  {
  }

  /**
   * A rewriter that runs sees the hints and the task as made; its task is returned, changed
   * or not, and if changed is what the prioritizer sees. If it fails the task is refused.
   */
  lemma RewriterDecides(p: Processor, w: World, q: Request, classes: seq<string>, o: Outcome, rewriter: Rewriter)
    requires p.Active? && Answers(p, w, q, classes, o) && p.rewriter == Some(rewriter) && q.rewrite
    ensures
      match rewriter(Dict(map["hints" := q.hints, "task" := Dict(q.task)]), classes)
      case Err(_) => o == REFUSED
      case Ok((changed, task)) =>
        && (o != REFUSED ==> o.task == Some(task))
        && (o.passed && q.prioritize && p.prioritizer.Some? ==>
              var priority := p.prioritizer.value(if changed then task else Dict(q.task), classes);
              priority.Ok? && o.priority == priority.value && o.priority.Some?)
  {
  }

  /** Without one no task is returned, and the prioritizer sees the task as made. */
  lemma NothingRewritten(p: Processor, w: World, q: Request, classes: seq<string>, o: Outcome)
    requires p.Active? && Answers(p, w, q, classes, o) && (p.rewriter.None? || !q.rewrite)
    ensures o.task.None?
    ensures o.passed ==>
              if q.prioritize && p.prioritizer.Some? then
                var priority := p.prioritizer.value(Dict(q.task), classes);
                priority.Ok? && o.priority == priority.value && o.priority.Some?
              else o.priority == Some(0)
  {
  }

  /** A processor that knows everybody, has no limits and leaves every task as it is. */
  function Lenient(task: map<string, Value>): Processor
  {
    Active([I.Identifier("everybody", "always", Null, None)], [C.Entry("all", ["everybody"], None)],
           Some((proposal, classes) => Ok((false, Dict(task)))),
           map[], [A.Application(None, [], false, false)], None)
  }

  function Agreeable(): World
  {
    World((kind, data) => true, (kind, data, hints) => true, (kind, data) => true,
          (kind, data, proposal) => L.Evaluated(true, None, None))
  }

  /** It returns the task though nothing has changed. */
  lemma UnchangedTaskReturned(task: map<string, Value>, hints: Value, o: Outcome)
    requires var q := Request(task, hints, true, false);
             Answers(Lenient(task), Agreeable(), q, Classes(Lenient(task), Agreeable(), q), o)
    ensures var p, q := Lenient(task), Request(task, hints, true, false);
            && Recognized(p, Agreeable(), q)
            && o.passed && o.task == Some(Dict(task))
            && !Rewriting(p, q, Classes(p, Agreeable(), q)).value.0
  {
    var p, w, q := Lenient(task), Agreeable(), Request(task, hints, true, false);
    assert I.Matches(p.identifiers[0], w.identify, q.hints);
    var identities := I.Matched(p.identifiers, w.identify, q.hints, 1);
    assert I.Matched(p.identifiers, w.identify, q.hints, 0) == [];
    assert identities == ["everybody"];
    assert p.classifiers[0].identifiers[0] in identities;
    assert C.Classifies(p.classifiers[0], identities);
    var a := p.applications[0];
    assert A.Applies(a, Classes(p, w, q)) && A.ApplicationPasses(ContextOf(p, w, q), a);
  }
}
