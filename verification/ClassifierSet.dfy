/** classifierset.py: classifiers over identifiers, and those that hold of some identities. */
module ClassifierSet {
  import opened HowMany
  import opened Wrappers

  /** One classifier as read; without a `require` any identifier will do. */
  datatype Entry = Entry(name: string, identifiers: seq<string>, require: Option<Requirement>)

  datatype Fault = Duplicate(name: string) | UnknownIdentifiers(names: seq<string>)

  function Required(e: Entry): Requirement
  {
    if e.require.Some? then e.require.value else AnyOf
  }

  ghost predicate NamedBefore(fodder: seq<Entry>, n: nat, name: string)
    requires n <= |fodder|
  {
    exists i :: 0 <= i < n && fodder[i].name == name
  }

  /** The names of a list that are not among the known, in order. */
  function Missing(names: seq<string>, known: set<string>): (r: seq<string>)
    ensures forall x :: x in r <==> x in names && x !in known
  {
    if names == [] then []
    else
      var front, last := names[..|names| - 1], names[|names| - 1];
      assert names == front + [last];
      if last in known then Missing(front, known) else Missing(front, known) + [last]
  }

  ghost function FaultAt(fodder: seq<Entry>, i: nat, known: set<string>): Option<Fault>
    requires i < |fodder|
  {
    if NamedBefore(fodder, i, fodder[i].name) then Some(Duplicate(fodder[i].name))
    else
      var missing := Missing(fodder[i].identifiers, known);
      if missing != [] then Some(UnknownIdentifiers(missing)) else None
  }

  /** __init__: the classifiers in their order and the set of their names, or the first fault. */
  method Load(fodder: seq<Entry>, known: set<string>) returns (r: Result<(seq<Entry>, set<string>), Fault>)
    ensures r.Ok? <==> forall i :: 0 <= i < |fodder| ==> FaultAt(fodder, i, known).None?
    ensures r.Ok? ==> r.value.0 == fodder && forall name :: name in r.value.1 <==> NamedBefore(fodder, |fodder|, name)
    ensures r.Err? ==> exists i :: 0 <= i < |fodder| && FaultAt(fodder, i, known) == Some(r.error)
                                && forall j :: 0 <= j < i ==> FaultAt(fodder, j, known).None?
  {
    var classifiers: seq<Entry> := [];
    var names: set<string> := {};
    for n := 0 to |fodder|
      invariant classifiers == fodder[..n]
      invariant forall name :: name in names <==> NamedBefore(fodder, n, name)
      invariant forall j :: 0 <= j < n ==> FaultAt(fodder, j, known).None?
    {
      var it := fodder[n];
      if it.name in names {
        assert FaultAt(fodder, n, known) == Some(Duplicate(it.name));
        return Err(Duplicate(it.name));
      }
      var missing := Missing(it.identifiers, known);
      if missing != [] {
        assert FaultAt(fodder, n, known) == Some(UnknownIdentifiers(missing));
        return Err(UnknownIdentifiers(missing));
      }
      names := names + {it.name};
      classifiers := classifiers + [it];
      assert fodder[..n + 1] == fodder[..n] + [it];
      forall name ensures NamedBefore(fodder, n + 1, name) <==> NamedBefore(fodder, n, name) || name == it.name {
      }
    }
    assert fodder[..|fodder|] == fodder;
    return Ok((classifiers, names));
  }

  /** Accepted are exactly lists of distinct names whose identifiers are all known. */
  lemma AcceptedExactly(fodder: seq<Entry>, known: set<string>)
    ensures (forall i :: 0 <= i < |fodder| ==> FaultAt(fodder, i, known).None?) <==>
              && (forall i, j :: 0 <= i < j < |fodder| ==> fodder[i].name != fodder[j].name)
              && (forall i, x :: 0 <= i < |fodder| && x in fodder[i].identifiers ==> x in known)
  {
    forall i | 0 <= i < |fodder|
      ensures FaultAt(fodder, i, known).None? <==>
                !NamedBefore(fodder, i, fodder[i].name) && forall x :: x in fodder[i].identifiers ==> x in known
    {
      var missing := Missing(fodder[i].identifiers, known);
      if missing != [] {
        assert missing[0] in missing;
      }
    }
    if forall i :: 0 <= i < |fodder| ==> FaultAt(fodder, i, known).None? {
      forall i, j | 0 <= i < j < |fodder| ensures fodder[i].name != fodder[j].name {
        assert FaultAt(fodder, j, known).None?;
      }
      forall i, x | 0 <= i < |fodder| && x in fodder[i].identifiers ensures x in known {
        assert FaultAt(fodder, i, known).None?;
      }
    }
  }

  function Among(identities: seq<string>): string -> bool
  {
    name => name in identities
  }

  /** A classifier holds when its identifiers are matched as its requirement asks. */
  ghost predicate Classifies(e: Entry, identities: seq<string>)
  {
    Satisfied(Required(e), Among(identities), e.identifiers)
  }

  /** In terms of how many of its identifiers match; without a requirement one is enough. */
  lemma ClassifiesExactly(e: Entry, identities: seq<string>)
    ensures Classifies(e, identities) <==>
              match e.require
              case Some(NoneOf) => forall x | x in e.identifiers :: x !in identities
              case Some(OneOf) =>
                exists i :: 0 <= i < |e.identifiers| && e.identifiers[i] in identities
                            && forall j :: 0 <= j < |e.identifiers| && j != i ==> e.identifiers[j] !in identities
              case Some(AllOf) => forall x | x in e.identifiers :: x in identities
              case _ => exists x | x in e.identifiers :: x in identities
  {
    var names, p := e.identifiers, Among(identities);
    if i :| 0 <= i < |names| && p(names[i]) && OnlyAt(p, names, i) {
      assert names[i] in identities && forall j :: 0 <= j < |names| && j != i ==> names[j] !in identities;
    }
    forall i | 0 <= i < |names| && names[i] in identities
                && forall j :: 0 <= j < |names| && j != i ==> names[j] !in identities
      ensures p(names[i]) && OnlyAt(p, names, i)
    {
    }
  }

  ghost function Classified(classifiers: seq<Entry>, identities: seq<string>, n: nat): seq<string>
    requires n <= |classifiers|
  {
    if n == 0 then []
    else
      var front := Classified(classifiers, identities, n - 1);
      if Classifies(classifiers[n - 1], identities) then front + [classifiers[n - 1].name] else front
  }

  /** The number of a classifier's identifiers that are among the identities. */
  method CountMet(names: seq<string>, identities: seq<string>) returns (met: nat)
    ensures met == Count(Among(identities), names, |names|)
  {
    met := 0;
    for i := 0 to |names|
      invariant met == Count(Among(identities), names, i)
    {
      if names[i] in identities {
        met := met + 1;
      }
    }
  }

  method Classifications(classifiers: seq<Entry>, identities: seq<string>) returns (classified: seq<string>)
    ensures classified == Classified(classifiers, identities, |classifiers|)
  {
    classified := [];
    for n := 0 to |classifiers|
      invariant classified == Classified(classifiers, identities, n)
    {
      var e := classifiers[n];
      var met := CountMet(e.identifiers, identities);
      CountsDecide(Required(e), Among(identities), e.identifiers);
      if Meets(Required(e), met, |e.identifiers| - met) {
        classified := classified + [e.name];
      }
    }
  }

  /** Where the names come from: increasing positions, and exactly those of the classifiers that hold. */
  lemma {:induction false} ClassifiedExactly(classifiers: seq<Entry>, identities: seq<string>, n: nat)
    returns (at: seq<nat>)
    requires n <= |classifiers|
    ensures |at| == |Classified(classifiers, identities, n)|
    ensures forall l :: 0 <= l < |at| ==>
              at[l] < n && classifiers[at[l]].name == Classified(classifiers, identities, n)[l]
    ensures forall l, m :: 0 <= l < m < |at| ==> at[l] < at[m]
    ensures forall l :: 0 <= l < |at| ==> Classifies(classifiers[at[l]], identities)
    ensures forall i :: 0 <= i < n && Classifies(classifiers[i], identities) ==> i in at
  {
    at := [];
    if n > 0 {
      at := ClassifiedExactly(classifiers, identities, n - 1);
      if Classifies(classifiers[n - 1], identities) {
        at := at + [n - 1];
      }
    }
  }
}
