/** identifierset.py: the identifiers of a limit file, and those that match a set of hints. */
module IdentifierSet {
  import opened Wrappers
  import opened Json

  datatype Identifier = Identifier(name: string, kind: string, data: Value, invert: Option<bool>)

  datatype Fault =
    | Duplicate(name: string)
    | UnsupportedType(name: string, kind: string)
    | Refused(name: string)

  const CREATORS: set<string> :=
    {"always", "hint", "jq", "ip-cidr-list", "ip-cidr-list-url", "ip-cymru-bogon", "ip-reverse-dns",
     "localif", "local-subnet"}

  /** Whether an evaluator of this type can be made from this data, or raises. */
  type Creator = (string, Value) -> bool

  /** What the evaluator of an identifier says of some hints. */
  type Evaluator = (string, Value, Value) -> bool

  ghost predicate NamedBefore(fodder: seq<Identifier>, n: nat, name: string)
    requires n <= |fodder|
  {
    exists i :: 0 <= i < n && fodder[i].name == name
  }

  ghost function FaultAt(fodder: seq<Identifier>, i: nat, creates: Creator): Option<Fault>
    requires i < |fodder|
  {
    var it := fodder[i];
    if NamedBefore(fodder, i, it.name) then Some(Duplicate(it.name))
    else if it.kind !in CREATORS then Some(UnsupportedType(it.name, it.kind))
    else if !creates(it.kind, it.data) then Some(Refused(it.name))
    else None
  }

  /** __init__: the identifiers in their order and the set of their names, or the first fault. */
  method Load(fodder: seq<Identifier>, creates: Creator) returns (r: Result<(seq<Identifier>, set<string>), Fault>)
    ensures r.Ok? <==> forall i :: 0 <= i < |fodder| ==> FaultAt(fodder, i, creates).None?
    ensures r.Ok? ==> r.value.0 == fodder && forall name :: name in r.value.1 <==> NamedBefore(fodder, |fodder|, name)
    ensures r.Err? ==> exists i :: 0 <= i < |fodder| && FaultAt(fodder, i, creates) == Some(r.error)
                                && forall j :: 0 <= j < i ==> FaultAt(fodder, j, creates).None?
  {
    var identifiers: seq<Identifier> := [];
    var seen: set<string> := {};
    for n := 0 to |fodder|
      invariant identifiers == fodder[..n]
      invariant forall name :: name in seen <==> NamedBefore(fodder, n, name)
      invariant forall j :: 0 <= j < n ==> FaultAt(fodder, j, creates).None?
    {
      var it := fodder[n];
      if it.name in seen {
        assert FaultAt(fodder, n, creates) == Some(Duplicate(it.name));
        return Err(Duplicate(it.name));
      }
      if it.kind !in CREATORS {
        assert FaultAt(fodder, n, creates) == Some(UnsupportedType(it.name, it.kind));
        return Err(UnsupportedType(it.name, it.kind));
      }
      if !creates(it.kind, it.data) {
        assert FaultAt(fodder, n, creates) == Some(Refused(it.name));
        return Err(Refused(it.name));
      }
      seen := seen + {it.name};
      identifiers := identifiers + [it];
      assert fodder[..n + 1] == fodder[..n] + [it];
      forall name ensures NamedBefore(fodder, n + 1, name) <==> NamedBefore(fodder, n, name) || name == it.name {
      }
    }
    assert fodder[..|fodder|] == fodder;
    return Ok((identifiers, seen));
  }

  /** Accepted are exactly lists of distinct names, supported types and data an evaluator can be made from. */
  lemma AcceptedExactly(fodder: seq<Identifier>, creates: Creator)
    ensures (forall i :: 0 <= i < |fodder| ==> FaultAt(fodder, i, creates).None?) <==>
              && (forall i, j :: 0 <= i < j < |fodder| ==> fodder[i].name != fodder[j].name)
              && (forall i :: 0 <= i < |fodder| ==>
                    fodder[i].kind in CREATORS && creates(fodder[i].kind, fodder[i].data))
  {
    if forall i :: 0 <= i < |fodder| ==> FaultAt(fodder, i, creates).None? {
      forall i, j | 0 <= i < j < |fodder| ensures fodder[i].name != fodder[j].name {
        assert FaultAt(fodder, j, creates).None?;
      }
      forall i | 0 <= i < |fodder| ensures fodder[i].kind in CREATORS && creates(fodder[i].kind, fodder[i].data) {
        assert FaultAt(fodder, i, creates).None?;
      }
    }
  }

  /** A fault says what is the matter with the identifier it is found at. */
  lemma FaultsExactly(fodder: seq<Identifier>, i: nat, creates: Creator, name: string, kind: string)
    requires i < |fodder|
    ensures FaultAt(fodder, i, creates) == Some(Duplicate(name)) <==>
              name == fodder[i].name && exists j :: 0 <= j < i && fodder[j].name == name
    ensures FaultAt(fodder, i, creates) == Some(UnsupportedType(name, kind)) <==>
              && name == fodder[i].name && kind == fodder[i].kind && kind !in CREATORS
              && forall j :: 0 <= j < i ==> fodder[j].name != name
    ensures FaultAt(fodder, i, creates) == Some(Refused(name)) <==>
              && name == fodder[i].name && fodder[i].kind in CREATORS && !creates(fodder[i].kind, fodder[i].data)
              && forall j :: 0 <= j < i ==> fodder[j].name != name
  {
  }

  /** An inverted identifier never matches: the code asks for a match and no inversion. */
  predicate Matches(it: Identifier, evaluate: Evaluator, hints: Value)
  {
    evaluate(it.kind, it.data, hints) && it.invert != Some(true)
  }

  /** The names of the first n identifiers that match, in order. */
  function Matched(identifiers: seq<Identifier>, evaluate: Evaluator, hints: Value, n: nat): seq<string>
    requires n <= |identifiers|
  {
    if n == 0 then []
    else
      var front := Matched(identifiers, evaluate, hints, n - 1);
      if Matches(identifiers[n - 1], evaluate, hints) then front + [identifiers[n - 1].name] else front
  }

  method Identities(identifiers: seq<Identifier>, evaluate: Evaluator, hints: Value) returns (result: seq<string>)
    ensures result == Matched(identifiers, evaluate, hints, |identifiers|)
  {
    result := [];
    for n := 0 to |identifiers|
      invariant result == Matched(identifiers, evaluate, hints, n)
    {
      var it := identifiers[n];
      var invert := if it.invert.Some? then it.invert.value else false;
      if evaluate(it.kind, it.data, hints) && !invert {
        result := result + [it.name];
      }
    }
  }

  /** Where the names come from: increasing positions, and exactly those of the identifiers that match. */
  lemma {:induction false} MatchedExactly(identifiers: seq<Identifier>, evaluate: Evaluator, hints: Value, n: nat)
    returns (at: seq<nat>)
    requires n <= |identifiers|
    ensures |at| == |Matched(identifiers, evaluate, hints, n)|
    ensures forall l :: 0 <= l < |at| ==>
              at[l] < n && identifiers[at[l]].name == Matched(identifiers, evaluate, hints, n)[l]
    ensures forall l, m :: 0 <= l < m < |at| ==> at[l] < at[m]
    ensures forall l :: 0 <= l < |at| ==>
              var it := identifiers[at[l]];
              evaluate(it.kind, it.data, hints) && it.invert != Some(true)
    ensures forall i :: 0 <= i < n ==>
              var it := identifiers[i];
              evaluate(it.kind, it.data, hints) && it.invert != Some(true) ==> i in at
  {
    at := [];
    if n > 0 {
      at := MatchedExactly(identifiers, evaluate, hints, n - 1);
      if Matches(identifiers[n - 1], evaluate, hints) {
        at := at + [n - 1];
      }
    }
  }
}
