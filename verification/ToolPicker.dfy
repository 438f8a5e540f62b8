/** tasks.py, pick_tool: the tool all participants have, by least total position. */
module ToolPicker {
  import opened OrderedDict
  import opened Wrappers

  /** What a participant returned: a list of tool names, or nothing. */
  type Offer = Option<seq<string>>

  // ----- what is counted

  /** How often a tool is named among the first n entries of a list. */
  function CountIn(list: seq<string>, n: nat, tool: string): nat
    requires n <= |list|
  {
    if n == 0 then 0 else CountIn(list, n - 1, tool) + if list[n - 1] == tool then 1 else 0
  }

  function ScoreIn(list: seq<string>, n: nat, tool: string): nat
    requires n <= |list|
  {
    if n == 0 then 0 else ScoreIn(list, n - 1, tool) + if list[n - 1] == tool then n - 1 else 0
  }

  /** The names met so far, each where it was first. */
  function SeenIn(before: seq<string>, list: seq<string>, n: nat): seq<string>
    requires n <= |list|
  {
    if n == 0 then before
    else
      var front := SeenIn(before, list, n - 1);
      if list[n - 1] in front then front else front + [list[n - 1]]
  }

  function Listed(offer: Offer): seq<string>
  {
    if offer.Some? then offer.value else []
  }

  /** The same over the whole of the first m lists. */
  function CountTo(lists: seq<Offer>, m: nat, tool: string): nat
    requires m <= |lists|
  {
    if m == 0 then 0 else CountTo(lists, m - 1, tool) + CountIn(Listed(lists[m - 1]), |Listed(lists[m - 1])|, tool)
  }

  function ScoreTo(lists: seq<Offer>, m: nat, tool: string): nat
    requires m <= |lists|
  {
    if m == 0 then 0 else ScoreTo(lists, m - 1, tool) + ScoreIn(Listed(lists[m - 1]), |Listed(lists[m - 1])|, tool)
  }

  function SeenTo(lists: seq<Offer>, m: nat): seq<string>
    requires m <= |lists|
  {
    if m == 0 then [] else SeenIn(SeenTo(lists, m - 1), Listed(lists[m - 1]), |Listed(lists[m - 1])|)
  }

  lemma {:induction false} SeenInExactly(before: seq<string>, list: seq<string>, n: nat, tool: string)
    requires n <= |list|
    ensures tool in SeenIn(before, list, n) <==> tool in before || CountIn(list, n, tool) > 0
    ensures CountIn(list, n, tool) == 0 ==> ScoreIn(list, n, tool) == 0
  {
    if n > 0 {
      SeenInExactly(before, list, n - 1, tool);
    }
  }

  lemma {:induction false} SeenExactly(lists: seq<Offer>, m: nat, tool: string)
    requires m <= |lists|
    ensures tool in SeenTo(lists, m) <==> CountTo(lists, m, tool) > 0
    ensures CountTo(lists, m, tool) == 0 ==> ScoreTo(lists, m, tool) == 0
  {
    if m > 0 {
      SeenExactly(lists, m - 1, tool);
      SeenInExactly(SeenTo(lists, m - 1), Listed(lists[m - 1]), |Listed(lists[m - 1])|, tool);
    }
  }

  // ----- the counting and scoring loops

  /** The first dictionary after the first m lists and n entries of another. */
  ghost predicate Counted(lists: seq<Offer>, m: nat, list: seq<string>, n: nat, count: Dict<string, nat>)
    requires m <= |lists| && n <= |list|
  {
    && count.Valid() && count.keys == SeenIn(SeenTo(lists, m), list, n)
    && (forall tool | tool in count.vals :: count.vals[tool] == CountTo(lists, m, tool) + CountIn(list, n, tool))
  }

  /** And the second. */
  ghost predicate Rated(lists: seq<Offer>, m: nat, list: seq<string>, n: nat, score: Dict<string, nat>)
    requires m <= |lists| && n <= |list|
  {
    && score.Valid() && score.keys == SeenIn(SeenTo(lists, m), list, n)
    && (forall tool | tool in score.vals :: score.vals[tool] == ScoreTo(lists, m, tool) + ScoreIn(list, n, tool))
  }

  ghost predicate Tallied(lists: seq<Offer>, m: nat, list: seq<string>, n: nat,
                          count: Dict<string, nat>, score: Dict<string, nat>)
    requires m <= |lists| && n <= |list|
  {
    Counted(lists, m, list, n, count) && Rated(lists, m, list, n, score)
  }

  method Tally(lists: seq<Offer>) returns (count: Dict<string, nat>, score: Dict<string, nat>)
    ensures Tallied(lists, |lists|, [], 0, count, score)
  {
    count, score := Empty(), Empty();
    for m := 0 to |lists|
      invariant Tallied(lists, m, [], 0, count, score)
    {
      if lists[m].Some? {
        count, score := TallyList(lists, m, count, score);
      }
    }
  }

  method TallyList(lists: seq<Offer>, m: nat, countBefore: Dict<string, nat>, scoreBefore: Dict<string, nat>)
    returns (count: Dict<string, nat>, score: Dict<string, nat>)
    requires m < |lists| && lists[m].Some? && Tallied(lists, m, [], 0, countBefore, scoreBefore)
    ensures Tallied(lists, m + 1, [], 0, count, score)
  {
    var list := lists[m].value;
    count, score := countBefore, scoreBefore;
    for position := 0 to |list|
      invariant Tallied(lists, m, list, position, count, score)
    {
      count := CountEntry(lists, m, list, position, count);
      score := ScoreEntry(lists, m, list, position, score);
    }
  }

  method CountEntry(ghost lists: seq<Offer>, ghost m: nat, list: seq<string>, position: nat,
                    countBefore: Dict<string, nat>)
    returns (count: Dict<string, nat>)
    requires m <= |lists| && position < |list| && Counted(lists, m, list, position, countBefore)
    ensures Counted(lists, m, list, position + 1, count)
  {
    var tool := list[position];
    SeenInExactly(SeenTo(lists, m), list, position, tool);
    SeenExactly(lists, m, tool);
    count := countBefore.Put(tool, 1 + if tool in countBefore.vals then countBefore.vals[tool] else 0);
  }

  method ScoreEntry(ghost lists: seq<Offer>, ghost m: nat, list: seq<string>, position: nat,
                    scoreBefore: Dict<string, nat>)
    returns (score: Dict<string, nat>)
    requires m <= |lists| && position < |list| && Rated(lists, m, list, position, scoreBefore)
    ensures Rated(lists, m, list, position + 1, score)
  {
    var tool := list[position];
    SeenInExactly(SeenTo(lists, m), list, position, tool);
    SeenExactly(lists, m, tool);
    score := scoreBefore.Put(tool, position + if tool in scoreBefore.vals then scoreBefore.vals[tool] else 0);
  }

  // ----- what all lists have in common

  datatype Scored = Scored(name: string, score: nat)

  /** Of the first n names, those counted as often as there are participants. */
  function Common(names: seq<string>, n: nat, lists: seq<Offer>): seq<Scored>
    requires n <= |names|
  {
    if n == 0 then []
    else
      var front := Common(names, n - 1, lists);
      if CountTo(lists, |lists|, names[n - 1]) == |lists| then front + [Scored(names[n - 1], Score(lists, names[n - 1]))]
      else front
  }

  function Score(lists: seq<Offer>, tool: string): nat
  {
    ScoreTo(lists, |lists|, tool)
  }

  ghost predicate IsCommon(lists: seq<Offer>, tool: string)
  {
    lists != [] && CountTo(lists, |lists|, tool) == |lists|
  }

  predicate Lists(common: seq<Scored>, tool: string)
  {
    exists c | c in common :: c.name == tool
  }

  /** The tool t was met no later than the tool u. */
  ghost predicate NoLater(names: seq<string>, n: nat, t: string, u: string)
    requires n <= |names|
  {
    exists i, j :: 0 <= i <= j < n && names[i] == t && names[j] == u
  }

  lemma {:induction false} CommonExactly(names: seq<string>, n: nat, lists: seq<Offer>, t: string)
    requires n <= |names|
    ensures Scored(t, Score(lists, t)) in Common(names, n, lists) <==>
              CountTo(lists, |lists|, t) == |lists| && exists i :: 0 <= i < n && names[i] == t
  {
    if n > 0 {
      CommonExactly(names, n - 1, lists, t);
    }
  }

  lemma {:induction false} CommonInOrder(names: seq<string>, n: nat, lists: seq<Offer>, a: nat, b: nat)
    requires n <= |names| && a <= b < |Common(names, n, lists)|
    ensures var items := Common(names, n, lists);
            && NoLater(names, n, items[a].name, items[b].name)
            && items[a].score == Score(lists, items[a].name) && CountTo(lists, |lists|, items[a].name) == |lists|
  {
    var front := Common(names, n - 1, lists);
    if b < |front| {
      CommonInOrder(names, n - 1, lists, a, b);
    } else if a < |front| {
      CommonInOrder(names, n - 1, lists, a, a);
    }
  }

  lemma CommonIsCommon(lists: seq<Offer>, common: seq<Scored>, t: string)
    requires common == Common(SeenTo(lists, |lists|), |SeenTo(lists, |lists|)|, lists)
    ensures IsCommon(lists, t) <==> Lists(common, t)
  {
    var names := SeenTo(lists, |lists|);
    CommonExactly(names, |names|, lists, t);
    SeenExactly(lists, |lists|, t);
    if Lists(common, t) {
      var c :| c in common && c.name == t;
      var k :| 0 <= k < |common| && common[k] == c;
      CommonInOrder(names, |names|, lists, k, k);
    }
  }

  // ----- the choice

  /** Python's sorted(), by score: a later item goes before an earlier one only if it scores less. */
  function Sorted(items: seq<Scored>): (r: seq<Scored>)
    ensures |r| == |items|
  {
    if items == [] then [] else Insert(Sorted(items[..|items| - 1]), items[|items| - 1])
  }

  function Insert(items: seq<Scored>, x: Scored): (r: seq<Scored>)
    ensures |r| == |items| + 1
  {
    if items == [] || x.score < items[0].score then [x] + items else [items[0]] + Insert(items[1..], x)
  }

  ghost predicate FirstLeast(items: seq<Scored>, k: nat)
  {
    && k < |items|
    && (forall j :: 0 <= j < |items| ==> items[k].score <= items[j].score)
    && (forall j :: 0 <= j < k ==> items[k].score < items[j].score)
  }

  lemma {:induction false} SortedHead(items: seq<Scored>) returns (k: nat)
    requires items != []
    ensures FirstLeast(items, k) && Sorted(items)[0] == items[k]
    decreases |items|
  {
    var n := |items| - 1;
    if n == 0 {
      assert items[..n] == [];
      k := 0;
    } else {
      k := SortedHead(items[..n]);
      if items[n].score < items[k].score {
        k := n;
      }
    }
  }

  /** The least score, and first met among those that share it. */
  ghost predicate Preferred(lists: seq<Offer>, t: string, u: string)
  {
    var names := SeenTo(lists, |lists|);
    || Score(lists, t) < Score(lists, u)
    || (Score(lists, t) == Score(lists, u) && NoLater(names, |names|, t, u))
  }

  /** What the code picks, in its own terms. */
  ghost predicate Picked(lists: seq<Offer>, pickFrom: Option<seq<string>>, r: Option<string>)
  {
    match pickFrom
    case None =>
      if r.None? then forall t :: !IsCommon(lists, t)
      else IsCommon(lists, r.value) && forall u :: IsCommon(lists, u) ==> Preferred(lists, r.value, u)
    case Some(candidates) =>
      if r.None? then forall t | t in candidates :: !IsCommon(lists, t)
      else exists k :: 0 <= k < |candidates| && candidates[k] == r.value && IsCommon(lists, r.value)
                       && forall j :: 0 <= j < k ==> !IsCommon(lists, candidates[j])
  }

  method PickTool(lists: seq<Offer>, pickFrom: Option<seq<string>>) returns (r: Option<string>)
    ensures Picked(lists, pickFrom, r)
  {
    var count, score := Tally(lists);
    var common := Collect(lists, count, score);
    forall t ensures IsCommon(lists, t) <==> Lists(common, t) {
      CommonIsCommon(lists, common, t);
    }
    if |common| == 0 {
      return None;
    }
    if pickFrom.None? {
      var ordered := Sorted(common);
      HeadIsPicked(lists, common);
      return Some(ordered[0].name);
    } else {
      r := FirstListed(pickFrom.value, common);
    }
  }

  /** The loop that picks out the tools all lists have in common. */
  method Collect(lists: seq<Offer>, count: Dict<string, nat>, score: Dict<string, nat>) returns (common: seq<Scored>)
    requires Tallied(lists, |lists|, [], 0, count, score)
    ensures common == Common(SeenTo(lists, |lists|), |SeenTo(lists, |lists|)|, lists)
  {
    var participants := |lists|;
    common := [];
    for n := 0 to |count.keys|
      invariant common == Common(count.keys, n, lists)
    {
      var tool := count.keys[n];
      if count.vals[tool] == participants {
        common := common + [Scored(tool, score.vals[tool])];
      }
    }
  }

  /** The loop over the pick list. */
  method FirstListed(candidates: seq<string>, common: seq<Scored>) returns (r: Option<string>)
    ensures r.None? ==> forall t | t in candidates :: !Lists(common, t)
    ensures r.Some? ==> exists k :: 0 <= k < |candidates| && candidates[k] == r.value && Lists(common, r.value)
                                    && forall j :: 0 <= j < k ==> !Lists(common, candidates[j])
  {
    for k := 0 to |candidates|
      invariant forall j :: 0 <= j < k ==> !Lists(common, candidates[j])
    {
      if Lists(common, candidates[k]) {
        return Some(candidates[k]);
      }
    }
    return None;
  }

  lemma HeadIsPicked(lists: seq<Offer>, common: seq<Scored>)
    requires common == Common(SeenTo(lists, |lists|), |SeenTo(lists, |lists|)|, lists)
    requires common != []
    ensures Picked(lists, None, Some(Sorted(common)[0].name))
  {
    var names := SeenTo(lists, |lists|);
    var k := SortedHead(common);
    var t := common[k].name;
    assert common[k] in common;
    CommonIsCommon(lists, common, t);
    CommonInOrder(names, |names|, lists, k, k);
    forall u | IsCommon(lists, u) ensures Preferred(lists, t, u) {
      CommonIsCommon(lists, common, u);
      var c :| c in common && c.name == u;
      var j :| 0 <= j < |common| && common[j] == c;
      CommonInOrder(names, |names|, lists, j, j);
      if j >= k {
        CommonInOrder(names, |names|, lists, k, j);
      }
    }
  }

  // ----- what that means

  /** A tool every participant lists. */
  ghost predicate Eligible(lists: seq<Offer>, tool: string)
  {
    lists != [] && ListedBy(lists, |lists|, tool)
  }

  ghost predicate ListedBy(lists: seq<Offer>, m: nat, tool: string)
    requires m <= |lists|
  {
    forall i :: 0 <= i < m ==> tool in Listed(lists[i])
  }

  ghost predicate NamedOnce(lists: seq<Offer>)
  {
    forall i :: 0 <= i < |lists| ==> Distinct(Listed(lists[i]))
  }

  /** Where a list has a tool. */
  ghost function Position(list: seq<string>, tool: string): (r: nat)
    requires tool in list
    ensures r < |list| && list[r] == tool
  {
    var i :| 0 <= i < |list| && list[i] == tool;
    i
  }

  /** The sum of a tool's positions in the first m lists. */
  ghost function Total(lists: seq<Offer>, m: nat, tool: string): nat
    requires m <= |lists| && ListedBy(lists, m, tool)
  {
    if m == 0 then 0 else Total(lists, m - 1, tool) + Position(Listed(lists[m - 1]), tool)
  }

  lemma {:induction false} InOnce(list: seq<string>, n: nat, tool: string, at: nat)
    requires n <= |list| && at < |list| && list[at] == tool && Distinct(list)
    ensures CountIn(list, n, tool) == if at < n then 1 else 0
    ensures ScoreIn(list, n, tool) == if at < n then at else 0
  {
    if n > 0 {
      InOnce(list, n - 1, tool, at);
    }
  }

  lemma {:induction false} NotIn(list: seq<string>, n: nat, tool: string)
    requires n <= |list| && tool !in list
    ensures CountIn(list, n, tool) == 0
  {
    if n > 0 {
      NotIn(list, n - 1, tool);
    }
  }

  lemma {:induction false} CountedOnce(lists: seq<Offer>, m: nat, tool: string)
    requires m <= |lists| && NamedOnce(lists)
    ensures CountTo(lists, m, tool) <= m
    ensures CountTo(lists, m, tool) == m <==> ListedBy(lists, m, tool)
  {
    if m > 0 {
      CountedOnce(lists, m - 1, tool);
      var list := Listed(lists[m - 1]);
      if tool in list {
        InOnce(list, |list|, tool, Position(list, tool));
      } else {
        NotIn(list, |list|, tool);
      }
    }
  }

  lemma {:induction false} ScoreIsTotal(lists: seq<Offer>, m: nat, tool: string)
    requires m <= |lists| && NamedOnce(lists) && ListedBy(lists, m, tool)
    ensures ScoreTo(lists, m, tool) == Total(lists, m, tool)
  {
    if m > 0 {
      ScoreIsTotal(lists, m - 1, tool);
      var list := Listed(lists[m - 1]);
      InOnce(list, |list|, tool, Position(list, tool));
    }
  }

  lemma {:induction false} SeenInGrows(before: seq<string>, list: seq<string>, n: nat)
    requires n <= |list|
    ensures before <= SeenIn(before, list, n)
    ensures Distinct(before) ==> Distinct(SeenIn(before, list, n))
    ensures before == [] && Distinct(list) ==> SeenIn(before, list, n) == list[..n]
  {
    if n > 0 {
      SeenInGrows(before, list, n - 1);
    }
  }

  lemma {:induction false} SeenStartsWithFirst(lists: seq<Offer>, m: nat)
    requires 0 < m <= |lists| && Distinct(Listed(lists[0]))
    ensures Listed(lists[0]) <= SeenTo(lists, m)
    ensures Distinct(SeenTo(lists, m))
  {
    SeenInGrows(SeenTo(lists, m - 1), Listed(lists[m - 1]), |Listed(lists[m - 1])|);
    if m > 1 {
      SeenStartsWithFirst(lists, m - 1);
    }
  }

  lemma TieGoesToFirst(lists: seq<Offer>, t: string, u: string)
    requires NamedOnce(lists) && Eligible(lists, t) && Eligible(lists, u)
    requires NoLater(SeenTo(lists, |lists|), |SeenTo(lists, |lists|)|, t, u)
    ensures Position(Listed(lists[0]), t) <= Position(Listed(lists[0]), u)
  {
    var names, first := SeenTo(lists, |lists|), Listed(lists[0]);
    SeenStartsWithFirst(lists, |lists|);
    var i, j :| 0 <= i <= j < |names| && names[i] == t && names[j] == u;
    assert names[Position(first, t)] == t && names[Position(first, u)] == u;
  }

  lemma EligibleIsCommon(lists: seq<Offer>, tool: string)
    requires NamedOnce(lists)
    ensures IsCommon(lists, tool) <==> Eligible(lists, tool)
    ensures Eligible(lists, tool) ==> Score(lists, tool) == Total(lists, |lists|, tool)
  {
    CountedOnce(lists, |lists|, tool);
    if Eligible(lists, tool) {
      ScoreIsTotal(lists, |lists|, tool);
    }
  }

  /** Least total position, a tie going to the one earliest in the first list. */
  ghost predicate Beats(lists: seq<Offer>, t: string, u: string)
    requires Eligible(lists, t) && Eligible(lists, u)
  {
    var mine, theirs := Total(lists, |lists|, t), Total(lists, |lists|, u);
    || mine < theirs
    || (mine == theirs && Position(Listed(lists[0]), t) <= Position(Listed(lists[0]), u))
  }

  /** Without a pick list: of the tools every participant lists, the one that beats the rest. */
  lemma PickMeansLeast(lists: seq<Offer>, r: Option<string>)
    requires NamedOnce(lists) && Picked(lists, None, r)
    ensures r.None? <==> forall t :: !Eligible(lists, t)
    ensures r.Some? ==> Eligible(lists, r.value) && forall u :: Eligible(lists, u) ==> Beats(lists, r.value, u)
  {
    forall t ensures IsCommon(lists, t) <==> Eligible(lists, t) {
      EligibleIsCommon(lists, t);
    }
    if r.Some? {
      forall u | Eligible(lists, u) ensures Beats(lists, r.value, u) {
        EligibleIsCommon(lists, r.value);
        EligibleIsCommon(lists, u);
        assert Preferred(lists, r.value, u);
        if Score(lists, r.value) == Score(lists, u) {
          TieGoesToFirst(lists, r.value, u);
        }
      }
    }
  }

  /** And no eligible tool is ahead of it in every list. */
  lemma NeverBehindEverywhere(lists: seq<Offer>, r: string, u: string)
    requires NamedOnce(lists) && Picked(lists, None, Some(r)) && Eligible(lists, u)
    ensures Eligible(lists, r)
    ensures exists i :: 0 <= i < |lists| && Position(Listed(lists[i]), r) <= Position(Listed(lists[i]), u)
  {
    PickMeansLeast(lists, Some(r));
    assert Beats(lists, r, u);
    if forall i :: 0 <= i < |lists| ==> Position(Listed(lists[i]), u) < Position(Listed(lists[i]), r) {
      BehindEverywhere(lists, |lists|, r, u);
    }
  }

  lemma {:induction false} BehindEverywhere(lists: seq<Offer>, m: nat, r: string, u: string)
    requires m <= |lists| && ListedBy(lists, m, r) && ListedBy(lists, m, u)
    requires forall i :: 0 <= i < m ==> Position(Listed(lists[i]), u) < Position(Listed(lists[i]), r)
    ensures Total(lists, m, u) + m <= Total(lists, m, r)
  {
    if m > 0 {
      BehindEverywhere(lists, m - 1, r, u);
    }
  }

  /** With a pick list: the first candidate that every participant lists. */
  lemma PickMeansFirst(lists: seq<Offer>, candidates: seq<string>, r: Option<string>)
    requires NamedOnce(lists) && Picked(lists, Some(candidates), r)
    ensures r.None? <==> forall t | t in candidates :: !Eligible(lists, t)
    ensures r.Some? ==> exists k :: 0 <= k < |candidates| && candidates[k] == r.value && Eligible(lists, r.value)
                                    && forall j :: 0 <= j < k ==> !Eligible(lists, candidates[j])
  {
    forall t ensures IsCommon(lists, t) <==> Eligible(lists, t) {
      EligibleIsCommon(lists, t);
    }
  }

  /** A participant that returned nothing leaves nothing to pick. */
  lemma NothingFromOne(lists: seq<Offer>, i: nat, pickFrom: Option<seq<string>>, r: Option<string>)
    requires i < |lists| && lists[i].None? && NamedOnce(lists) && Picked(lists, pickFrom, r)
    ensures r.None?
  {
    forall t ensures !IsCommon(lists, t) {
      EligibleIsCommon(lists, t);
      assert t !in Listed(lists[i]);
    }
  }

  // ----- names given twice

  /** A name twice in one list makes up for its absence from another: it is the one that is picked. */
  lemma TwiceMakesUpForAbsence(r: Option<string>)
    requires Picked([Some(["a", "a"]), Some(["b"])], None, r)
    ensures r == Some("a") && !Eligible([Some(["a", "a"]), Some(["b"])], "a")
  {
    var lists := [Some(["a", "a"]), Some(["b"])];
    forall t ensures IsCommon(lists, t) <==> t == "a" {
      assert CountIn(["a", "a"], 1, t) == if t == "a" then 1 else 0;
      assert CountIn(["a", "a"], 2, t) == if t == "a" then 2 else 0;
      assert CountIn(["b"], 1, t) == if t == "b" then 1 else 0;
      assert CountTo(lists, 0, t) == 0;
      assert CountTo(lists, 1, t) == if t == "a" then 2 else 0;
      assert CountTo(lists, 2, t) == CountTo(lists, 1, t) + CountIn(["b"], 1, t);
    }
    assert IsCommon(lists, "a");
    assert Listed(lists[1])[0] == "b" && "a" !in Listed(lists[1]);
  }

  ghost predicate NamesOnce(lists: seq<Offer>, i: nat, tool: string)
    requires i < |lists|
  {
    CountIn(Listed(lists[i]), |Listed(lists[i])|, tool) == 1
  }

  /** A tool that is in every list counts as common exactly when each names it once. */
  lemma {:induction false} CommonWhenNamedOnce(lists: seq<Offer>, m: nat, tool: string)
    requires m <= |lists| && ListedBy(lists, m, tool)
    ensures CountTo(lists, m, tool) >= m
    ensures CountTo(lists, m, tool) == m <==>
              forall i :: 0 <= i < m ==> NamesOnce(lists, i, tool)
  {
    if m > 0 {
      CommonWhenNamedOnce(lists, m - 1, tool);
      var list := Listed(lists[m - 1]);
      InSomewhere(list, |list|, tool, Position(list, tool));
      assert NamesOnce(lists, m - 1, tool) <==> CountIn(list, |list|, tool) == 1;
    }
  }

  lemma {:induction false} InSomewhere(list: seq<string>, n: nat, tool: string, at: nat)
    requires at < n <= |list| && list[at] == tool
    ensures CountIn(list, n, tool) >= 1
  {
    if at < n - 1 {
      InSomewhere(list, n - 1, tool, at);
    }
  }

  /** Each tool that is in every list is named once in each. */
  ghost predicate NoneTwice(lists: seq<Offer>)
  {
    forall t, i | Eligible(lists, t) && 0 <= i < |lists| :: NamesOnce(lists, i, t)
  }

  /** No tool that is missing from some list is named as often as there are lists. */
  ghost predicate NoMakingUp(lists: seq<Offer>)
  {
    forall t :: !Eligible(lists, t) ==> CountTo(lists, |lists|, t) != |lists|
  }

  /** Common means in every list exactly for lists that meet both, or when there are no lists at all. */
  lemma CommonMeansEligible(lists: seq<Offer>)
    ensures (forall t :: IsCommon(lists, t) <==> Eligible(lists, t)) <==>
              lists == [] || (NoneTwice(lists) && NoMakingUp(lists))
  {
    if lists != [] {
      forall t | Eligible(lists, t)
        ensures IsCommon(lists, t) <==> forall i | 0 <= i < |lists| :: NamesOnce(lists, i, t)
      {
        CommonWhenNamedOnce(lists, |lists|, t);
      }
    }
  }
}
