/**
 * applicationset.py: applications of groups of limits, evaluated with early
 * breaks, against a verdict that mentions no order.
 */
module ApplicationSet {
  import Bag
  import opened HowMany
  import opened Wrappers
  import opened Json
  import opened LimitSet

  datatype Group = Group(require: Requirement, limits: seq<string>)

  datatype Application = Application(classifier: Option<string>, apply: seq<Group>, stopOnFailure: bool, invert: bool)

  // ----- what is meant

  function Passing(c: Context): string -> bool
  {
    name => Passes(c, name)
  }

  ghost predicate GroupPasses(c: Context, g: Group)
  {
    Satisfied(g.require, Passing(c), g.limits)
  }

  ghost predicate AllGroupsPass(c: Context, a: Application)
  {
    forall g | g in a.apply :: GroupPasses(c, g)
  }

  ghost predicate ApplicationPasses(c: Context, a: Application)
  {
    AllGroupsPass(c, a) != a.invert
  }

  predicate Applies(a: Application, classifiers: seq<string>)
  {
    a.classifier.Some? ==> a.classifier.value in classifiers
  }

  /** Some application passes, and none that stops on failure fails. */
  ghost predicate Verdict(c: Context, applications: seq<Application>, classifiers: seq<string>)
  {
    && (exists a :: a in applications && Applies(a, classifiers) && ApplicationPasses(c, a))
    && (forall a :: a in applications && Applies(a, classifiers) && a.stopOnFailure ==> ApplicationPasses(c, a))
  }

  // ----- the limits reported

  /** What the passing limits of a list report, in order. */
  function LimitsKept(c: Context, names: seq<string>, n: nat): seq<Value>
    requires n <= |names|
  {
    if n == 0 then []
    else if Passes(c, names[n - 1]) && Kept(c, names[n - 1]).Some? then
      LimitsKept(c, names, n - 1) + [Kept(c, names[n - 1]).value]
    else LimitsKept(c, names, n - 1)
  }

  /** How many groups come before the first that fails. */
  ghost predicate Leading(c: Context, groups: seq<Group>, n: nat)
  {
    && n <= |groups|
    && (forall i :: 0 <= i < n ==> GroupPasses(c, groups[i]))
    && (n < |groups| ==> !GroupPasses(c, groups[n]))
  }

  /** The limits of the first n groups, group after group. */
  function GroupsKept(c: Context, groups: seq<Group>, n: nat): seq<Value>
    requires n <= |groups|
  {
    if n == 0 then [] else GroupsKept(c, groups, n - 1) + LimitsKept(c, groups[n - 1].limits, |groups[n - 1].limits|)
  }

  /** The limits an application reports: those of its groups before the first failing one. */
  ghost predicate Reports(c: Context, a: Application, limits: seq<Value>)
  {
    exists n :: Leading(c, a.apply, n) && limits == GroupsKept(c, a.apply, n)
  }

  // ----- the evaluation

  ghost predicate Defined(c: Context, groups: seq<Group>)
  {
    forall g, name | g in groups && name in g.limits :: name in c.limits
  }

  /** __check_group; an undefined limit stops everything with its name. */
  method CheckGroup(c: Context, g: Group) returns (r: Result<(bool, seq<Value>), string>)
    ensures r.Ok? <==> forall name | name in g.limits :: name in c.limits
    ensures r.Ok? ==> r.value == (GroupPasses(c, g), LimitsKept(c, g.limits, |g.limits|))
    ensures r.Err? ==> r.error in g.limits && r.error !in c.limits
  {
    var limitsPassed := [];
    var fails, passes := 0, 0;
    for i := 0 to |g.limits|
      invariant forall j :: 0 <= j < i ==> g.limits[j] in c.limits
      invariant passes == Count(Passing(c), g.limits, i) && fails == i - passes
      invariant limitsPassed == LimitsKept(c, g.limits, i)
    {
      var evaluated := Check(c, g.limits[i]);
      if evaluated.Err? {
        return Err(evaluated.error);
      }
      if evaluated.value.passed {
        passes := passes + 1;
        if evaluated.value.limit.Some? {
          limitsPassed := limitsPassed + [evaluated.value.limit.value];
        }
      } else {
        fails := fails + 1;
      }
    }
    CountsDecide(g.require, Passing(c), g.limits);
    return Ok((Meets(g.require, passes, fails), limitsPassed));
  }

  datatype Outcome = Outcome(passed: bool, stop: bool, limits: seq<Value>)

  /** __check_application: the groups in order, up to the first that fails. */
  method CheckApplication(c: Context, a: Application) returns (r: Result<Outcome, string>)
    ensures Defined(c, a.apply) ==> r.Ok?
    ensures r.Ok? ==> r.value.passed == ApplicationPasses(c, a) && r.value.stop == a.stopOnFailure
    ensures r.Ok? ==> Reports(c, a, r.value.limits)
    ensures r.Err? ==> r.error !in c.limits
  {
    var limitsPassed := [];
    var groupsFailed := |a.apply|;
    var n := 0;
    while n < |a.apply|
      invariant n <= |a.apply| && groupsFailed == |a.apply| - n
      invariant forall i :: 0 <= i < n ==> GroupPasses(c, a.apply[i])
      invariant limitsPassed == GroupsKept(c, a.apply, n)
    {
      assert a.apply[n] in a.apply;
      var group := CheckGroup(c, a.apply[n]);
      if group.Err? {
        return Err(group.error);
      }
      if !group.value.0 {
        break;
      }
      groupsFailed := groupsFailed - 1;
      limitsPassed := limitsPassed + group.value.1;
      n := n + 1;
    }
    assert Leading(c, a.apply, n);
    LeadingDecides(c, a, n);
    var pass := groupsFailed == 0;
    if a.invert {
      pass := !pass;
    }
    return Ok(Outcome(pass, a.stopOnFailure, limitsPassed));
  }

  lemma LeadingDecides(c: Context, a: Application, n: nat)
    requires Leading(c, a.apply, n)
    ensures n == |a.apply| <==> AllGroupsPass(c, a)
  {
  }

  /** The result lists, application by application, what each passing one reports. */
  ghost predicate Lists(c: Context, applications: seq<Application>, classifiers: seq<string>, n: nat,
                        limits: seq<seq<Value>>)
    requires n <= |applications|
  {
    if n == 0 then limits == []
    else if Applies(applications[n - 1], classifiers) && ApplicationPasses(c, applications[n - 1]) then
      && limits != []
      && Reports(c, applications[n - 1], limits[|limits| - 1])
      && Lists(c, applications, classifiers, n - 1, limits[..|limits| - 1])
    else Lists(c, applications, classifiers, n - 1, limits)
  }

  ghost predicate AllDefined(c: Context, applications: seq<Application>)
  {
    forall a | a in applications :: Defined(c, a.apply)
  }

  ghost predicate Decided(c: Context, applications: seq<Application>, classifiers: seq<string>, n: nat, passCount: nat)
    requires n <= |applications|
  {
    && (passCount > 0 <==> exists i :: 0 <= i < n && Counts(c, applications, classifiers, i))
    && forall i :: 0 <= i < n && Applies(applications[i], classifiers) && applications[i].stopOnFailure ==>
         ApplicationPasses(c, applications[i])
  }

  ghost predicate Counts(c: Context, applications: seq<Application>, classifiers: seq<string>, i: nat)
    requires i < |applications|
  {
    Applies(applications[i], classifiers) && ApplicationPasses(c, applications[i])
  }

  /** check: every application is looked at, unless a failing one forces a stop. */
  method CheckAll(c: Context, applications: seq<Application>, classifiers: seq<string>)
    returns (r: Result<(bool, seq<seq<Value>>), string>)
    ensures AllDefined(c, applications) ==> r.Ok?
    ensures r.Ok? ==> r.value.0 == Verdict(c, applications, classifiers)
    ensures r.Ok? ==> if r.value.0 then Lists(c, applications, classifiers, |applications|, r.value.1)
                      else r.value.1 == []
    ensures r.Err? ==> r.error !in c.limits
  {
    var passCount := 0;
    var limitsPassed := [];
    for n := 0 to |applications|
      invariant Decided(c, applications, classifiers, n, passCount)
      invariant Lists(c, applications, classifiers, n, limitsPassed)
    {
      var a := applications[n];
      if a.classifier.Some? && a.classifier.value !in classifiers {
        continue;
      }
      assert a in applications;
      var checked := CheckApplication(c, a);
      if checked.Err? {
        return Err(checked.error);
      }
      if !checked.value.passed && checked.value.stop {
        return Ok((false, []));
      }
      if checked.value.passed {
        assert Counts(c, applications, classifiers, n);
        assert (limitsPassed + [checked.value.limits])[..|limitsPassed|] == limitsPassed;
        limitsPassed := limitsPassed + [checked.value.limits];
        passCount := passCount + 1;
      }
    }
    AllDecided(c, applications, classifiers, passCount);
    if passCount > 0 {
      return Ok((true, limitsPassed));
    } else {
      return Ok((false, []));
    }
  }

  lemma AllDecided(c: Context, applications: seq<Application>, classifiers: seq<string>, passCount: nat)
    requires Decided(c, applications, classifiers, |applications|, passCount)
    ensures passCount > 0 <==> Verdict(c, applications, classifiers)
  {
    if passCount > 0 {
      var i :| 0 <= i < |applications| && Counts(c, applications, classifiers, i);
      assert applications[i] in applications;
    }
    if Verdict(c, applications, classifiers) {
      var a :| a in applications && Applies(a, classifiers) && ApplicationPasses(c, a);
      var i :| 0 <= i < |applications| && applications[i] == a;
      assert Counts(c, applications, classifiers, i);
    }
  }

  // ----- the verdict does not depend on order

  ghost predicate SameGroup(g: Group, h: Group)
  {
    g.require == h.require && multiset(g.limits) == multiset(h.limits)
  }

  /** The groups of b are those of a in some order, each with its limits in some order. */
  ghost predicate SameApplication(a: Application, b: Application)
  {
    && a.classifier == b.classifier && a.stopOnFailure == b.stopOnFailure && a.invert == b.invert
    && exists groups: seq<Group> :: multiset(groups) == multiset(b.apply) && SameGroups(a.apply, groups)
  }

  ghost predicate SameGroups(gs: seq<Group>, hs: seq<Group>)
  {
    |gs| == |hs| && forall i :: 0 <= i < |gs| ==> SameGroup(gs[i], hs[i])
  }

  ghost predicate SameApplications(xs: seq<Application>, ys: seq<Application>)
  {
    |xs| == |ys| && forall i :: 0 <= i < |xs| ==> SameApplication(xs[i], ys[i])
  }

  lemma GroupIgnoresOrder(c: Context, g: Group, h: Group)
    requires SameGroup(g, h)
    ensures GroupPasses(c, g) == GroupPasses(c, h)
  {
    SatisfiedIgnoresOrder(g.require, Passing(c), g.limits, h.limits);
  }

  lemma ApplicationIgnoresOrder(c: Context, a: Application, b: Application)
    requires SameApplication(a, b)
    ensures ApplicationPasses(c, a) == ApplicationPasses(c, b)
  {
    var groups :| multiset(groups) == multiset(b.apply) && SameGroups(a.apply, groups);
    PointwiseGroups(c, a.apply, groups);
    forall g ensures g in groups <==> g in b.apply {
      Bag.Member(groups, b.apply, g);
    }
  }

  lemma PointwiseGroups(c: Context, gs: seq<Group>, hs: seq<Group>)
    requires SameGroups(gs, hs)
    ensures (forall g | g in gs :: GroupPasses(c, g)) <==> (forall h | h in hs :: GroupPasses(c, h))
  {
    forall i | 0 <= i < |gs| ensures GroupPasses(c, gs[i]) == GroupPasses(c, hs[i]) {
      GroupIgnoresOrder(c, gs[i], hs[i]);
    }
    AllByIndex(c, gs);
    AllByIndex(c, hs);
  }

  lemma AllByIndex(c: Context, gs: seq<Group>)
    ensures (forall g | g in gs :: GroupPasses(c, g)) <==> (forall i :: 0 <= i < |gs| ==> GroupPasses(c, gs[i]))
  {
  }

  lemma PointwiseVerdict(c: Context, xs: seq<Application>, ys: seq<Application>, classifiers: seq<string>)
    requires SameApplications(xs, ys)
    ensures Verdict(c, xs, classifiers) ==> Verdict(c, ys, classifiers)
    ensures Verdict(c, ys, classifiers) ==> Verdict(c, xs, classifiers)
  {
    forall i | 0 <= i < |xs|
      ensures Applies(xs[i], classifiers) == Applies(ys[i], classifiers)
      ensures ApplicationPasses(c, xs[i]) == ApplicationPasses(c, ys[i])
    {
      ApplicationIgnoresOrder(c, xs[i], ys[i]);
    }
    if Verdict(c, xs, classifiers) {
      VerdictCarries(c, xs, ys, classifiers);
    }
    if Verdict(c, ys, classifiers) {
      VerdictCarries(c, ys, xs, classifiers);
    }
  }

  lemma VerdictCarries(c: Context, xs: seq<Application>, ys: seq<Application>, classifiers: seq<string>)
    requires |xs| == |ys| && Verdict(c, xs, classifiers)
    requires forall i :: 0 <= i < |xs| ==>
               && Applies(xs[i], classifiers) == Applies(ys[i], classifiers)
               && ApplicationPasses(c, xs[i]) == ApplicationPasses(c, ys[i])
               && xs[i].stopOnFailure == ys[i].stopOnFailure
    ensures Verdict(c, ys, classifiers)
  {
  }

  /** Neither the order of applications, nor of groups within one, nor of limits within a group matters. */
  lemma VerdictIgnoresOrder(c: Context, xs: seq<Application>, middle: seq<Application>, ys: seq<Application>,
                            classifiers: seq<string>)
    requires SameApplications(xs, middle) && multiset(middle) == multiset(ys)
    ensures Verdict(c, xs, classifiers) == Verdict(c, ys, classifiers)
  {
    PointwiseVerdict(c, xs, middle, classifiers);
    forall a ensures a in middle <==> a in ys {
      Bag.Member(middle, ys, a);
    }
  }

  /** A failing application with stop-on-failure overrules every other, wherever it stands. */
  lemma StopOverrules(c: Context, xs: seq<Application>, classifiers: seq<string>, a: Application)
    requires a in xs && Applies(a, classifiers) && a.stopOnFailure && !ApplicationPasses(c, a)
    ensures !Verdict(c, xs, classifiers)
  {
  }

  // ----- what a group reports

  /** The limit passes and its evaluator named the limit it applied. */
  predicate Contributes(c: Context, name: string)
  {
    Passes(c, name) && Kept(c, name).Some?
  }

  /** What is reported is what those limits of a list report, in order: here is where they stand. */
  lemma {:induction false} LimitsKeptExactly(c: Context, names: seq<string>, n: nat) returns (at: seq<nat>)
    requires n <= |names|
    ensures |at| == |LimitsKept(c, names, n)|
    ensures forall l, m :: 0 <= l < m < |at| ==> at[l] < at[m]
    ensures forall l :: 0 <= l < |at| ==>
              at[l] < n && Contributes(c, names[at[l]]) && Kept(c, names[at[l]]).value == LimitsKept(c, names, n)[l]
    ensures forall i :: 0 <= i < n && Contributes(c, names[i]) ==> i in at
  {
    at := [];
    if n > 0 {
      at := LimitsKeptExactly(c, names, n - 1);
      if Contributes(c, names[n - 1]) {
        at := at + [n - 1];
      }
    }
  }

  /** Inverting an application turns its verdict round. */
  lemma InvertTurnsRound(c: Context, a: Application)
    ensures ApplicationPasses(c, a.(invert := !a.invert)) <==> !ApplicationPasses(c, a)
    ensures !a.invert ==> (ApplicationPasses(c, a) <==> forall g | g in a.apply :: GroupPasses(c, g))
  {
  }

  // ----- contexts in which all limits fare alike

  /** Every limit passes in both or in neither, and reports the same when it passes. */
  ghost predicate FareAlike(c: Context, d: Context)
  {
    && c.limits == d.limits
    && (forall name :: Passes(c, name) <==> Passes(d, name))
    && (forall name | name in c.limits :: Kept(c, name) == Kept(d, name))
  }

  lemma GroupsFareAlike(c: Context, d: Context, g: Group)
    requires FareAlike(c, d)
    ensures GroupPasses(c, g) <==> GroupPasses(d, g)
  {
    SatisfiedBySame(g.require, Passing(c), Passing(d), g.limits);
  }

  lemma ApplicationsFareAlike(c: Context, d: Context, a: Application)
    requires FareAlike(c, d)
    ensures ApplicationPasses(c, a) <==> ApplicationPasses(d, a)
  {
    forall g | g in a.apply ensures GroupPasses(c, g) <==> GroupPasses(d, g) {
      GroupsFareAlike(c, d, g);
    }
  }

  lemma VerdictsFareAlike(c: Context, d: Context, applications: seq<Application>, classifiers: seq<string>)
    requires FareAlike(c, d)
    ensures Verdict(c, applications, classifiers) <==> Verdict(d, applications, classifiers)
  {
    forall a ensures ApplicationPasses(c, a) <==> ApplicationPasses(d, a) {
      ApplicationsFareAlike(c, d, a);
    }
  }

  lemma {:induction false} LimitsKeptAlike(c: Context, d: Context, names: seq<string>, n: nat)
    requires FareAlike(c, d) && n <= |names|
    ensures LimitsKept(c, names, n) == LimitsKept(d, names, n)
  {
    if n > 0 {
      LimitsKeptAlike(c, d, names, n - 1);
    }
  }

  lemma {:induction false} GroupsKeptAlike(c: Context, d: Context, groups: seq<Group>, n: nat)
    requires FareAlike(c, d) && n <= |groups|
    ensures GroupsKept(c, groups, n) == GroupsKept(d, groups, n)
  {
    if n > 0 {
      GroupsKeptAlike(c, d, groups, n - 1);
      LimitsKeptAlike(c, d, groups[n - 1].limits, |groups[n - 1].limits|);
    }
  }

  lemma ReportsAlike(c: Context, d: Context, a: Application, limits: seq<Value>)
    requires FareAlike(c, d) && Reports(c, a, limits)
    ensures Reports(d, a, limits)
  {
    var n :| Leading(c, a.apply, n) && limits == GroupsKept(c, a.apply, n);
    forall g ensures GroupPasses(c, g) <==> GroupPasses(d, g) {
      GroupsFareAlike(c, d, g);
    }
    assert Leading(d, a.apply, n);
    GroupsKeptAlike(c, d, a.apply, n);
  }

  lemma {:induction false} ListsAlike(c: Context, d: Context, applications: seq<Application>, classifiers: seq<string>,
                                      n: nat, limits: seq<seq<Value>>)
    requires FareAlike(c, d) && n <= |applications| && Lists(c, applications, classifiers, n, limits)
    ensures Lists(d, applications, classifiers, n, limits)
  {
    if n > 0 {
      var a := applications[n - 1];
      ApplicationsFareAlike(c, d, a);
      if Applies(a, classifiers) && ApplicationPasses(c, a) {
        ListsAlike(c, d, applications, classifiers, n - 1, limits[..|limits| - 1]);
        ReportsAlike(c, d, a, limits[|limits| - 1]);
      } else {
        ListsAlike(c, d, applications, classifiers, n - 1, limits);
      }
    }
  }

  // ----- what is reported

  lemma ReportsOneList(c: Context, a: Application, xs: seq<Value>, ys: seq<Value>)
    requires Reports(c, a, xs) && Reports(c, a, ys)
    ensures xs == ys
  {
    var m :| Leading(c, a.apply, m) && xs == GroupsKept(c, a.apply, m);
    var n :| Leading(c, a.apply, n) && ys == GroupsKept(c, a.apply, n);
    assert m == n;
  }

  /** So the lists returned are settled by the verdicts alone. */
  lemma {:induction false} ListsOneAnswer(c: Context, applications: seq<Application>, classifiers: seq<string>, n: nat,
                                          xs: seq<seq<Value>>, ys: seq<seq<Value>>)
    requires n <= |applications|
    requires Lists(c, applications, classifiers, n, xs) && Lists(c, applications, classifiers, n, ys)
    ensures xs == ys
  {
    if n > 0 {
      if Applies(applications[n - 1], classifiers) && ApplicationPasses(c, applications[n - 1]) {
        var i, j := |xs| - 1, |ys| - 1;
        ListsOneAnswer(c, applications, classifiers, n - 1, xs[..i], ys[..j]);
        ReportsOneList(c, applications[n - 1], xs[i], ys[j]);
        assert xs == xs[..i] + [xs[i]] && ys == ys[..j] + [ys[j]];
      } else {
        ListsOneAnswer(c, applications, classifiers, n - 1, xs, ys);
      }
    }
  }

  /** An application that passes without inversion reports the limits of all its groups. */
  lemma PlainPassReportsAll(c: Context, a: Application, limits: seq<Value>)
    requires !a.invert && ApplicationPasses(c, a) && Reports(c, a, limits)
    ensures limits == GroupsKept(c, a.apply, |a.apply|)
  {
  }

  // ----- the constructor's check

  /** The names that kept an application set from being made. */
  datatype Unknown = Unknown(classifiers: seq<string>, limits: seq<string>)

  ghost predicate UsesLimit(groups: seq<Group>, name: string)
  {
    exists i :: 0 <= i < |groups| && name in groups[i].limits
  }

  ghost predicate UsesClassifierTo(fodder: seq<Application>, n: nat, name: string)
    requires n <= |fodder|
  {
    exists i :: 0 <= i < n && fodder[i].classifier == Some(name)
  }

  ghost predicate UsesLimitTo(fodder: seq<Application>, n: nat, name: string)
    requires n <= |fodder|
  {
    exists i :: 0 <= i < n && UsesLimit(fodder[i].apply, name)
  }

  method AddUnknown(names: seq<string>, known: set<string>, found: seq<string>) returns (more: seq<string>)
    ensures forall x :: x in more <==> x in found || (x in names && x !in known)
  {
    more := found;
    for i := 0 to |names|
      invariant forall x :: x in more <==> x in found || (x in names[..i] && x !in known)
    {
      assert names[..i + 1] == names[..i] + [names[i]];
      if names[i] !in known && names[i] !in more {
        more := more + [names[i]];
      }
    }
    assert names[..|names|] == names;
  }

  method AddUnknownLimits(groups: seq<Group>, known: set<string>, found: seq<string>) returns (more: seq<string>)
    ensures forall x :: x in more <==> x in found || (UsesLimit(groups, x) && x !in known)
  {
    more := found;
    for i := 0 to |groups|
      invariant forall x :: x in more <==> x in found || (UsesLimit(groups[..i], x) && x !in known)
    {
      ghost var before := more;
      more := AddUnknown(groups[i].limits, known, more);
      forall x ensures UsesLimit(groups[..i + 1], x) <==> UsesLimit(groups[..i], x) || x in groups[i].limits {
        UsesOneMore(groups, i, x);
      }
    }
    assert groups[..|groups|] == groups;
  }

  lemma UsesOneMore(groups: seq<Group>, n: nat, name: string)
    requires n < |groups|
    ensures UsesLimit(groups[..n + 1], name) <==> UsesLimit(groups[..n], name) || name in groups[n].limits
  {
  }

  /** __init__: refused, with all the unknown names, unless every classifier and limit named is known. */
  method Construct(fodder: seq<Application>, classifiers: set<string>, limits: set<string>)
    returns (r: Result<seq<Application>, Unknown>)
    ensures r.Ok? <==> && (forall x :: UsesClassifierTo(fodder, |fodder|, x) ==> x in classifiers)
                       && (forall x :: UsesLimitTo(fodder, |fodder|, x) ==> x in limits)
    ensures r.Ok? ==> r.value == fodder
    ensures r.Err? ==> forall x :: x in r.error.classifiers <==>
                                     UsesClassifierTo(fodder, |fodder|, x) && x !in classifiers
    ensures r.Err? ==> forall x :: x in r.error.limits <==> UsesLimitTo(fodder, |fodder|, x) && x !in limits
  {
    var unknownClassifiers, unknownLimits := [], [];
    for n := 0 to |fodder|
      invariant forall x :: x in unknownClassifiers <==> UsesClassifierTo(fodder, n, x) && x !in classifiers
      invariant forall x :: x in unknownLimits <==> UsesLimitTo(fodder, n, x) && x !in limits
    {
      var a := fodder[n];
      if a.classifier.Some? && a.classifier.value !in classifiers && a.classifier.value !in unknownClassifiers {
        unknownClassifiers := unknownClassifiers + [a.classifier.value];
      }
      forall x
        ensures UsesClassifierTo(fodder, n + 1, x) <==> UsesClassifierTo(fodder, n, x) || a.classifier == Some(x)
      {
      }
      forall x ensures UsesLimitTo(fodder, n + 1, x) <==> UsesLimitTo(fodder, n, x) || UsesLimit(a.apply, x) {
      }
      unknownLimits := AddUnknownLimits(a.apply, limits, unknownLimits);
    }
    if |unknownClassifiers| > 0 || |unknownLimits| > 0 {
      assert |unknownClassifiers| > 0 ==> unknownClassifiers[0] in unknownClassifiers;
      assert |unknownLimits| > 0 ==> unknownLimits[0] in unknownLimits;
      return Err(Unknown(unknownClassifiers, unknownLimits));
    }
    return Ok(fodder);
  }

  /** So evaluation never meets an undefined limit. */
  lemma ConstructedIsDefined(c: Context, fodder: seq<Application>)
    requires forall x :: UsesLimitTo(fodder, |fodder|, x) ==> x in c.limits
    ensures AllDefined(c, fodder)
  {
  }
}
