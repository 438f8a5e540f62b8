/** limitset.py: the table of limits, built with clones resolved, and the check of one limit. */
module LimitSet {
  import opened DictHeap
  import opened Json
  import opened MergeDicts
  import opened Overlays
  import opened Wrappers

  datatype Kind = OfType(name: string) | CloneOf(name: string)

  /** One limit as read from a limit file; its data is a dictionary, this one. */
  datatype Source = Source(name: string, kind: Kind, data: nat, invert: Option<bool>)

  /** What it says: the same, with the data as a value. */
  datatype Entry = Entry(name: string, kind: Kind, data: map<string, Value>, invert: Option<bool>)

  /** One limit as kept; the evaluator is determined by its type and data. */
  datatype Limit = Limit(kind: string, data: map<string, Value>, invert: Option<bool>)

  datatype Fault =
    | Duplicate(name: string)
    | UndefinedClone(name: string, source: string)
    | UnsupportedType(name: string, kind: string)
    | Refused(name: string)

  const CREATORS: set<string> :=
    {"jq", "pass-fail", "run-daterange", "run-schedule", "test", "test-type", "url-fetch"}

  const SCHEDULE_CHECKERS: set<string> := {"run-daterange", "run-schedule"}

  /** Whether an evaluator of this type can be made from this data, or raises. */
  type Creator = (string, map<string, Value>) -> bool

  // ----- what a limit file means

  /** The first entry before n of that name. */
  function Find(fodder: seq<Entry>, n: nat, name: string): (r: Option<nat>)
    requires n <= |fodder|
    ensures r.Some? ==> r.value < n && fodder[r.value].name == name
    ensures r.None? ==> forall i :: 0 <= i < n ==> fodder[i].name != name
  {
    if n == 0 then None
    else
      var earlier := Find(fodder, n - 1, name);
      if earlier.Some? then earlier
      else if fodder[n - 1].name == name then Some(n - 1)
      else None
  }

  /** The entries an entry is made from: the head of its chain of clones first, itself last. */
  function Chain(fodder: seq<Entry>, i: nat): (r: Option<seq<nat>>)
    requires i < |fodder|
    ensures r.Some? ==> |r.value| > 0 && Within(fodder, r.value)
    decreases i
  {
    match fodder[i].kind
    case OfType(_) => Some([i])
    case CloneOf(source) =>
      var j := Find(fodder, i, source);
      if j.None? then None
      else
        var rest := Chain(fodder, j.value);
        if rest.None? then None else Some(rest.value + [i])
  }

  predicate Within(fodder: seq<Entry>, chain: seq<nat>)
  {
    forall m :: 0 <= m < |chain| ==> chain[m] < |fodder|
  }

  /** The data of several entries, each overlaid on those before. */
  function Fold(fodder: seq<Entry>, chain: seq<nat>): Value
    requires Within(fodder, chain)
    decreases |chain|
  {
    if chain == [] then Dict(map[])
    else Overlay(Fold(fodder, chain[..|chain| - 1]), Dict(fodder[chain[|chain| - 1]].data))
  }

  /** The limit an entry stands for, found by resolving the entry it clones. */
  function Resolved(fodder: seq<Entry>, i: nat): Option<Limit>
    requires i < |fodder|
    decreases i
  {
    match fodder[i].kind
    case OfType(kind) => Some(Limit(kind, fodder[i].data, fodder[i].invert))
    case CloneOf(name) =>
      var j := Find(fodder, i, name);
      if j.None? then None
      else
        var source := Resolved(fodder, j.value);
        if source.None? then None
        else Some(Limit(source.value.kind, Overlay(Dict(source.value.data), Dict(fodder[i].data)).members, None))
  }

  /** Why an entry is refused, if it is. */
  function FaultAt(fodder: seq<Entry>, i: nat, creates: Creator): Option<Fault>
    requires i < |fodder|
  {
    var name := fodder[i].name;
    var limit := Resolved(fodder, i);
    if Find(fodder, i, name).Some? then Some(Duplicate(name))
    else if limit.None? then Some(UndefinedClone(name, fodder[i].kind.name))
    else if limit.value.kind !in CREATORS then Some(UnsupportedType(name, limit.value.kind))
    else if !creates(limit.value.kind, limit.value.data) then Some(Refused(name))
    else None
  }

  /** The first n entries are in order. */
  ghost predicate Faultless(fodder: seq<Entry>, n: nat, creates: Creator)
    requires n <= |fodder|
  {
    forall i {:trigger FaultAt(fodder, i, creates)} :: 0 <= i < n ==> FaultAt(fodder, i, creates).None?
  }

  /**
   * In order are exactly lists of distinct names in which every clone names an earlier
   * entry and every limit, as cloned, is of a supported type with data that type accepts.
   */
  lemma FaultlessExactly(fodder: seq<Entry>, n: nat, creates: Creator)
    requires n <= |fodder|
    ensures Faultless(fodder, n, creates) <==>
              && (forall i, j :: 0 <= i < j < n ==> fodder[i].name != fodder[j].name)
              && (forall i :: 0 <= i < n ==> Sound(fodder, i, creates))
  {
    if Faultless(fodder, n, creates) {
      forall i, j | 0 <= i < j < n ensures fodder[i].name != fodder[j].name {
        assert FaultAt(fodder, j, creates).None?;
      }
      forall i | 0 <= i < n ensures Sound(fodder, i, creates) {
        assert FaultAt(fodder, i, creates).None?;
      }
    }
    if && (forall i, j :: 0 <= i < j < n ==> fodder[i].name != fodder[j].name)
       && (forall i :: 0 <= i < n ==> Sound(fodder, i, creates)) {
      AllResolve(fodder, n, creates);
      forall i | 0 <= i < n ensures FaultAt(fodder, i, creates).None? {
        assert Sound(fodder, i, creates);
      }
    }
  }

  /** What an entry refers to is there, and what comes of it can be made. */
  ghost predicate Sound(fodder: seq<Entry>, i: nat, creates: Creator)
    requires i < |fodder|
  {
    && (fodder[i].kind.CloneOf? ==> exists j :: 0 <= j < i && fodder[j].name == fodder[i].kind.name)
    && (Resolved(fodder, i).Some? ==>
          var limit := Resolved(fodder, i).value;
          limit.kind in CREATORS && creates(limit.kind, limit.data))
  }

  lemma {:induction false} AllResolve(fodder: seq<Entry>, n: nat, creates: Creator)
    requires n <= |fodder| && forall i :: 0 <= i < n ==> Sound(fodder, i, creates)
    ensures forall i :: 0 <= i < n ==> Resolved(fodder, i).Some?
  {
    if n > 0 {
      AllResolve(fodder, n - 1, creates);
      assert Sound(fodder, n - 1, creates);
    }
  }

  /** A fault says what is the matter with the entry it is found at. */
  lemma FaultsExactly(fodder: seq<Entry>, i: nat, creates: Creator, name: string, other: string)
    requires i < |fodder|
    ensures FaultAt(fodder, i, creates) == Some(Duplicate(name)) <==>
              name == fodder[i].name && exists j :: 0 <= j < i && fodder[j].name == name
    ensures FaultAt(fodder, i, creates) == Some(UndefinedClone(name, other)) <==>
              && name == fodder[i].name && fodder[i].kind == CloneOf(other) && Resolved(fodder, i).None?
              && forall j :: 0 <= j < i ==> fodder[j].name != name
    ensures FaultAt(fodder, i, creates) == Some(UnsupportedType(name, other)) <==>
              && name == fodder[i].name && Resolved(fodder, i).Some? && Resolved(fodder, i).value.kind == other
              && other !in CREATORS && forall j :: 0 <= j < i ==> fodder[j].name != name
    ensures FaultAt(fodder, i, creates) == Some(Refused(name)) <==>
              && name == fodder[i].name && Resolved(fodder, i).Some?
              && Resolved(fodder, i).value.kind in CREATORS
              && !creates(Resolved(fodder, i).value.kind, Resolved(fodder, i).value.data)
              && forall j :: 0 <= j < i ==> fodder[j].name != name
  {
  }

  // ----- the constructor

  /** Every one of the first n entries is in the table, as the limit it stands for. */
  ghost predicate Holds(fodder: seq<Entry>, n: nat, limits: map<string, Limit>)
    requires n <= |fodder|
  {
    forall i {:trigger Resolved(fodder, i)} :: 0 <= i < n ==>
      fodder[i].name in limits && Resolved(fodder, i) == Some(limits[fodder[i].name])
  }

  /** The table has their names and no others. */
  ghost predicate Names(fodder: seq<Entry>, n: nat, limits: map<string, Limit>)
    requires n <= |fodder|
  {
    forall name {:trigger Find(fodder, n, name)} :: name in limits <==> Find(fodder, n, name).Some?
  }

  ghost predicate Loaded(fodder: seq<Entry>, n: nat, limits: map<string, Limit>)
    requires n <= |fodder|
  {
    Holds(fodder, n, limits) && Names(fodder, n, limits)
  }

  lemma Resolves(fodder: seq<Entry>, n: nat, limits: map<string, Limit>)
    requires n < |fodder| && Loaded(fodder, n, limits) && fodder[n].kind.CloneOf?
    ensures var source := fodder[n].kind.name;
            Resolved(fodder, n) ==
              if source in limits then
                Some(Limit(limits[source].kind, Overlay(Dict(limits[source].data), Dict(fodder[n].data)).members, None))
              else None
  {
  }

  lemma NamesOneMore(fodder: seq<Entry>, n: nat, limits: map<string, Limit>, limit: Limit)
    requires n < |fodder| && Names(fodder, n, limits)
    ensures Names(fodder, n + 1, limits[fodder[n].name := limit])
  {
    var more := limits[fodder[n].name := limit];
    forall other ensures other in more <==> Find(fodder, n + 1, other).Some? {
      assert Find(fodder, n + 1, other).Some? <==> Find(fodder, n, other).Some? || other == fodder[n].name;
    }
  }

  lemma HoldsOneMore(fodder: seq<Entry>, n: nat, limits: map<string, Limit>, limit: Limit)
    requires n < |fodder| && Holds(fodder, n, limits)
    requires fodder[n].name !in limits && Resolved(fodder, n) == Some(limit)
    ensures Holds(fodder, n + 1, limits[fodder[n].name := limit])
  {
    var more := limits[fodder[n].name := limit];
    forall i | 0 <= i < n + 1 ensures fodder[i].name in more && Resolved(fodder, i) == Some(more[fodder[i].name]) {
      if i < n {
        var earlier := Resolved(fodder, i);
        assert earlier.Some? && fodder[i].name in limits && earlier.value == limits[fodder[i].name];
      }
    }
  }

  // ----- the dictionaries behind it

  ghost predicate Says(m: Nodes, f: Source, e: Entry)
  {
    && f.name == e.name && f.kind == e.kind && f.invert == e.invert
    && Is(m, Node(f.data), Dict(e.data)) && Tree(m, Node(f.data), Dict(e.data))
  }

  ghost predicate FileSays(m: Nodes, fodder: seq<Source>, entries: seq<Entry>)
  {
    |fodder| == |entries| && forall i :: 0 <= i < |fodder| ==> Says(m, fodder[i], entries[i])
  }

  /** The limits, as their evaluators were made, and the dictionaries that are their data. */
  datatype Table = Table(limits: map<string, Limit>, objects: map<string, nat>)

  /** Every limit's dictionary still stands for the data its evaluator was made from. */
  ghost predicate Backed(m: Nodes, t: Table)
  {
    && t.objects.Keys == t.limits.Keys
    && forall name | name in t.limits :: Stands(m, t.objects[name], t.limits[name].data)
  }

  ghost predicate Stands(m: Nodes, dict: nat, data: map<string, Value>)
  {
    Is(m, Node(dict), Dict(data)) && Tree(m, Node(dict), Dict(data))
  }

  lemma ExtendsKeepsFile(h: Heap, g: Heap, fodder: seq<Source>, entries: seq<Entry>)
    requires Extends(h, g) && FileSays(h.nodes, fodder, entries)
    ensures FileSays(g.nodes, fodder, entries)
  {
    forall i | 0 <= i < |fodder| ensures Says(g.nodes, fodder[i], entries[i]) {
      ExtendsKeeps(h, g, Node(fodder[i].data), Dict(entries[i].data));
    }
  }

  lemma ExtendsKeepsTable(h: Heap, g: Heap, t: Table)
    requires Extends(h, g) && Backed(h.nodes, t)
    ensures Backed(g.nodes, t)
  {
    forall name | name in t.limits ensures Stands(g.nodes, t.objects[name], t.limits[name].data) {
      ExtendsKeeps(h, g, Node(t.objects[name]), Dict(t.limits[name].data));
    }
  }

  /**
   * LimitSet.__init__: the table, or the fault of the first entry that has one. Merging
   * clones changes no dictionary there was: not the file's, not those of earlier limits.
   */
  method Load(h: Heap, fodder: seq<Source>, ghost entries: seq<Entry>, creates: Creator)
    returns (g: Heap, r: Result<Table, Fault>)
    requires h.Valid() && FileSays(h.nodes, fodder, entries)
    ensures Extends(h, g) && FileSays(g.nodes, fodder, entries)
    ensures r.Ok? <==> Faultless(entries, |entries|, creates)
    ensures r.Ok? ==> Loaded(entries, |entries|, r.value.limits) && Backed(g.nodes, r.value)
    ensures r.Err? ==> exists i :: 0 <= i < |entries| && Faultless(entries, i, creates)
                                && FaultAt(entries, i, creates) == Some(r.error)
  {
    g := h;
    var t := Table(map[], map[]);
    for n := 0 to |fodder|
      invariant Loading(h, g, fodder, entries, n, t)
      invariant Faultless(entries, n, creates)
    {
      var f, made := Make(g, fodder, entries, n, t, creates);
      LoadingKept(h, g, f, fodder, entries, n, t);
      g := f;
      if made.Err? {
        return g, Err(made.error);
      }
      var (limit, dict) := made.value;
      LoadingStep(h, g, fodder, entries, n, t, creates, limit, dict);
      t := With(t, fodder[n].name, limit, dict);
    }
    return g, Ok(t);
  }

  function With(t: Table, name: string, limit: Limit, dict: nat): Table
  {
    Table(t.limits[name := limit], t.objects[name := dict])
  }

  ghost predicate Loading(h: Heap, g: Heap, fodder: seq<Source>, entries: seq<Entry>, n: nat, t: Table)
  {
    && Extends(h, g) && FileSays(g.nodes, fodder, entries)
    && n <= |entries| && Loaded(entries, n, t.limits) && Backed(g.nodes, t)
  }

  lemma LoadingKept(h: Heap, g: Heap, f: Heap, fodder: seq<Source>, entries: seq<Entry>, n: nat, t: Table)
    requires Loading(h, g, fodder, entries, n, t) && Extends(g, f)
    ensures Loading(h, f, fodder, entries, n, t)
  {
    ExtendsKeepsFile(g, f, fodder, entries);
    ExtendsKeepsTable(g, f, t);
  }

  lemma LoadingStep(h: Heap, g: Heap, fodder: seq<Source>, entries: seq<Entry>, n: nat, t: Table,
                    creates: Creator, limit: Limit, dict: nat)
    requires n < |fodder| && Loading(h, g, fodder, entries, n, t) && Faultless(entries, n, creates)
    requires Made(g, entries, n, creates, Ok((limit, dict)))
    ensures Faultless(entries, n + 1, creates)
    ensures Loading(h, g, fodder, entries, n + 1, With(t, fodder[n].name, limit, dict))
  {
    assert Says(g.nodes, fodder[n], entries[n]);
    NamesOneMore(entries, n, t.limits, limit);
    HoldsOneMore(entries, n, t.limits, limit);
  }

  /** What an entry gives: its fault, or the limit it resolves to and that limit's dictionary. */
  ghost predicate Made(g: Heap, entries: seq<Entry>, n: nat, creates: Creator, r: Result<(Limit, nat), Fault>)
    requires n < |entries|
  {
    match FaultAt(entries, n, creates)
    case Some(fault) => r == Err(fault)
    case None => r.Ok? && Some(r.value.0) == Resolved(entries, n) && Stands(g.nodes, r.value.1, r.value.0.data)
  }

  /** The body of that loop: one entry, given the limits so far. */
  method Make(h: Heap, fodder: seq<Source>, ghost entries: seq<Entry>, n: nat, t: Table, creates: Creator)
    returns (g: Heap, r: Result<(Limit, nat), Fault>)
    requires h.Valid() && FileSays(h.nodes, fodder, entries) && Backed(h.nodes, t)
    requires n < |fodder| && Loaded(entries, n, t.limits)
    ensures Extends(h, g)
    ensures Made(g, entries, n, creates, r)
  {
    var entry := fodder[n];
    assert Says(h.nodes, entry, entries[n]);
    var name := entry.name;
    g := h;
    if name in t.limits {
      return g, Err(Duplicate(name));
    }
    var kind, dict, invert := "", entry.data, entry.invert;
    match entry.kind {
      case CloneOf(source) =>
        Resolves(entries, n, t.limits);
        if source !in t.limits {
          return g, Err(UndefinedClone(name, source));
        }
        assert Stands(h.nodes, t.objects[source], t.limits[source].data);
        kind, invert := t.limits[source].kind, None;
        g, dict := CloneData(h, t.objects[source], entry.data, t.limits[source].data, entries[n].data);
      case OfType(named) =>
        kind := named;
    }
    var data := Read(g.nodes, Node(dict), Dict(Resolved(entries, n).value.data));
    var limit := Limit(kind, data.members, invert);
    if limit.kind !in CREATORS {
      return g, Err(UnsupportedType(name, limit.kind));
    }
    if !creates(limit.kind, limit.data) {
      return g, Err(Refused(name));
    }
    return g, Ok((limit, dict));
  }

  // ----- clones

  /** A chain of clones leads from a plain entry by way of entries each cloning the one before. */
  lemma {:induction false} ChainLinks(fodder: seq<Entry>, i: nat)
    requires i < |fodder| && Chain(fodder, i).Some?
    ensures var chain := Chain(fodder, i).value;
            && chain[|chain| - 1] == i
            && fodder[chain[0]].kind.OfType?
            && forall m :: 0 < m < |chain| ==> fodder[chain[m]].kind == CloneOf(fodder[chain[m - 1]].name)
    decreases i
  {
    if fodder[i].kind.CloneOf? {
      ChainLinks(fodder, Find(fodder, i, fodder[i].kind.name).value);
    }
  }

  /**
   * A cloned limit has the type of the head of its chain and the fold of merges along it;
   * an `invert` of the limits it comes from, or of its own, is not carried over.
   */
  lemma {:induction false} CloneIsFold(fodder: seq<Entry>, i: nat)
    requires i < |fodder|
    ensures Resolved(fodder, i).Some? <==> Chain(fodder, i).Some?
    ensures Chain(fodder, i).Some? ==>
              var chain := Chain(fodder, i).value;
              var limit := Resolved(fodder, i).value;
              && fodder[chain[0]].kind == OfType(limit.kind)
              && Dict(limit.data) == Fold(fodder, chain)
              && limit.invert == if |chain| == 1 then fodder[i].invert else None
    decreases i
  {
    match fodder[i].kind
    case OfType(kind) =>
      OntoEmpty(fodder[i].data);
      assert Fold(fodder, []) == Dict(map[]);
      assert [i][..0] == [];
    case CloneOf(source) =>
      var j := Find(fodder, i, source);
      if j.Some? {
        CloneIsFold(fodder, j.value);
        if Chain(fodder, j.value).Some? {
          var rest := Chain(fodder, j.value).value;
          assert (rest + [i])[..|rest|] == rest;
          assert (rest + [i])[0] == rest[0];
        }
      }
  }

  lemma OntoEmpty(data: map<string, Value>)
    ensures Overlay(Dict(map[]), Dict(data)) == Dict(data)
  {
  }

  /** The last entry of a chain to say anything on a path has its way there. */
  lemma {:induction false} LastWordWins(fodder: seq<Entry>, chain: seq<nat>, k: nat, path: seq<string>)
    requires Within(fodder, chain)
    requires k < |chain|
    requires At(Dict(fodder[chain[k]].data), path).Some? && !At(Dict(fodder[chain[k]].data), path).value.Dict?
    requires forall m :: k < m < |chain| ==> Meets(Dict(fodder[chain[m]].data), path).None?
    ensures At(Fold(fodder, chain), path).Some?
    ensures PyEq(At(Fold(fodder, chain), path).value, At(Dict(fodder[chain[k]].data), path).value)
    decreases |chain|
  {
    var n := |chain| - 1;
    var before, last := Fold(fodder, chain[..n]), Dict(fodder[chain[n]].data);
    if k == n {
      LaterLeafWins(before, last, path);
      PyEqReflexive(At(last, path).value);
    } else {
      LastWordWins(fodder, chain[..n], k, path);
      EarlierLeafStays(before, last, path);
    }
  }

  /** A text or null, or anything else that holds no number or boolean, is there as the last word gave it. */
  lemma PlainLastWord(fodder: seq<Entry>, chain: seq<nat>, k: nat, path: seq<string>)
    requires Within(fodder, chain)
    requires k < |chain|
    requires At(Dict(fodder[chain[k]].data), path).Some? && !At(Dict(fodder[chain[k]].data), path).value.Dict?
    requires forall m :: k < m < |chain| ==> Meets(Dict(fodder[chain[m]].data), path).None?
    ensures At(Fold(fodder, chain), path).Some?
    ensures var theirs := At(Dict(fodder[chain[k]].data), path).value;
            && Normal(At(Fold(fodder, chain), path).value) == Normal(theirs)
            && (Numberless(theirs) ==> At(Fold(fodder, chain), path).value == theirs)
  {
    LastWordWins(fodder, chain, k, path);
    var theirs := At(Dict(fodder[chain[k]].data), path).value;
    PyEqIsNormal(At(Fold(fodder, chain), path).value, theirs);
    if Numberless(theirs) {
      PlainEquality(theirs, At(Fold(fodder, chain), path).value);
    }
  }

  // ----- the check

  /** What an evaluator says of a proposal: its verdict, the limit it applied, its reasons. */
  datatype Evaluated = Evaluated(passed: bool, limit: Option<Value>, reasons: Option<seq<string>>)

  datatype Checked = Checked(passed: bool, limit: Option<Value>, reasons: Option<seq<string>>, inverted: Option<bool>)

  type Evaluator = (string, map<string, Value>, Value) -> Evaluated

  /** What a check needs to know: the limits, their evaluators, the proposal and whether time matters. */
  datatype Context = Context(limits: map<string, Limit>, evaluate: Evaluator, proposal: Value, checkSchedule: bool)

  predicate Inverts(limit: Limit)
  {
    limit.invert == Some(true)
  }

  predicate Bypassed(c: Context, limit: Limit)
  {
    !c.checkSchedule && limit.kind in SCHEDULE_CHECKERS
  }

  /** LimitSet.check; an undefined limit is an error naming it. */
  method Check(c: Context, name: string) returns (r: Result<Checked, string>)
    ensures r.Ok? <==> name in c.limits
    ensures r.Err? ==> r.error == name
    ensures r.Ok? ==> r.value.passed == Passes(c, name) && (r.value.passed ==> r.value.limit == Kept(c, name))
    ensures r.Ok? && !r.value.passed ==>
              r.value.reasons == if Inverts(c.limits[name]) then Some(["Passed but inverted"])
                                 else c.evaluate(c.limits[name].kind, c.limits[name].data, c.proposal).reasons
  {
    if name !in c.limits {
      return Err(name);
    }
    var limit := c.limits[name];
    var invert := if limit.invert.Some? then limit.invert.value else false;
    if !c.checkSchedule && limit.kind in SCHEDULE_CHECKERS {
      return Ok(Checked(true, None, None, None));
    }
    var evaluated := c.evaluate(limit.kind, limit.data, c.proposal);
    var passed := evaluated.passed;
    var result := Checked(passed, evaluated.limit, evaluated.reasons, Some(invert));
    if invert {
      passed := !passed;
      result := result.(passed := passed);
      if !passed {
        result := result.(reasons := Some(["Passed but inverted"]));
      }
    }
    return Ok(result);
  }

  /** A limit passes if it is bypassed, or its evaluator's verdict, turned round if it inverts, says so. */
  predicate Passes(c: Context, name: string)
  {
    && name in c.limits
    && var limit := c.limits[name];
       Bypassed(c, limit) || c.evaluate(limit.kind, limit.data, c.proposal).passed != Inverts(limit)
  }

  /** In terms of what the evaluator says: only limits on the schedule are ever passed over. */
  lemma PassesExactly(c: Context, name: string)
    requires name in c.limits
    ensures
      var limit := c.limits[name];
      var evaluated := c.evaluate(limit.kind, limit.data, c.proposal);
      if !c.checkSchedule && (limit.kind == "run-daterange" || limit.kind == "run-schedule")
      then Passes(c, name) && Kept(c, name).None?
      else (Passes(c, name) <==> if limit.invert == Some(true) then !evaluated.passed else evaluated.passed)
           && Kept(c, name) == evaluated.limit
  {
  }

  /** What a passing limit adds to the limits reported: nothing when it was bypassed. */
  function Kept(c: Context, name: string): Option<Value>
    requires name in c.limits
  {
    var limit := c.limits[name];
    if Bypassed(c, limit) then None else c.evaluate(limit.kind, limit.data, c.proposal).limit
  }
}
