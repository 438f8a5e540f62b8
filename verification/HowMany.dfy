/**
 * The requirement a list of names is held to (none, one, any or all of them), as
 * applicationset.py asks it of limits and classifierset.py of identifiers.
 */
module HowMany {
  import Bag

  datatype Requirement = NoneOf | OneOf | AnyOf | AllOf

  /** The tables of condition tests, on the numbers that passed and failed. */
  predicate Meets(require: Requirement, passes: nat, fails: nat)
  {
    match require
    case NoneOf => passes == 0
    case OneOf => passes == 1
    case AnyOf => passes > 0
    case AllOf => fails == 0
  }

  /** What is meant by them. */
  ghost predicate Satisfied(require: Requirement, p: string -> bool, names: seq<string>)
  {
    match require
    case NoneOf => forall i :: 0 <= i < |names| ==> !p(names[i])
    case OneOf => exists i :: 0 <= i < |names| && p(names[i]) && OnlyAt(p, names, i)
    case AnyOf => exists i :: 0 <= i < |names| && p(names[i])
    case AllOf => forall i :: 0 <= i < |names| ==> p(names[i])
  }

  ghost predicate OnlyAt(p: string -> bool, names: seq<string>, i: nat)
  {
    forall j :: 0 <= j < |names| && j != i ==> !p(names[j])
  }

  function Count(p: string -> bool, names: seq<string>, n: nat): (r: nat)
    requires n <= |names|
    ensures r <= n
  {
    if n == 0 then 0 else Count(p, names, n - 1) + if p(names[n - 1]) then 1 else 0
  }

  lemma {:induction false} CountIsZero(p: string -> bool, names: seq<string>, n: nat)
    requires n <= |names|
    ensures Count(p, names, n) == 0 <==> forall i :: 0 <= i < n ==> !p(names[i])
  {
    if n > 0 {
      CountIsZero(p, names, n - 1);
    }
  }

  lemma {:induction false} CountIsAll(p: string -> bool, names: seq<string>, n: nat)
    requires n <= |names|
    ensures Count(p, names, n) == n <==> forall i :: 0 <= i < n ==> p(names[i])
  {
    if n > 0 {
      CountIsAll(p, names, n - 1);
    }
  }

  lemma {:induction false} CountIsOne(p: string -> bool, names: seq<string>, n: nat)
    requires n <= |names|
    ensures Count(p, names, n) == 1 <==> exists i :: 0 <= i < n && p(names[i]) && OnlyAt(p, names[..n], i)
  {
    if n > 0 {
      CountIsOne(p, names, n - 1);
      CountIsZero(p, names, n - 1);
      var shorter, longer := names[..n - 1], names[..n];
      if p(names[n - 1]) {
        assert Count(p, names, n - 1) == 0 <==> OnlyAt(p, longer, n - 1);
        forall i | 0 <= i < n && p(names[i]) && OnlyAt(p, longer, i) ensures i == n - 1 {
          assert p(longer[n - 1]);
        }
      } else {
        forall i | 0 <= i < n - 1 ensures OnlyAt(p, longer, i) <==> OnlyAt(p, shorter, i) {
          assert forall j :: 0 <= j < n - 1 ==> longer[j] == shorter[j];
        }
      }
    }
  }

  /** Only what becomes of the names themselves matters. */
  lemma SatisfiedBySame(require: Requirement, p: string -> bool, q: string -> bool, names: seq<string>)
    requires forall name | name in names :: p(name) <==> q(name)
    ensures Satisfied(require, p, names) <==> Satisfied(require, q, names)
  {
    assert forall i :: 0 <= i < |names| ==> names[i] in names;
    forall i | 0 <= i < |names| ensures OnlyAt(p, names, i) <==> OnlyAt(q, names, i) {
    }
  }

  /** How the requirements stand to one another. */
  lemma RequirementsCompared(p: string -> bool, names: seq<string>)
    ensures Satisfied(NoneOf, p, names) <==> !Satisfied(AnyOf, p, names)
    ensures Satisfied(OneOf, p, names) ==> Satisfied(AnyOf, p, names)
    ensures Satisfied(AllOf, p, names) && names != [] ==> Satisfied(AnyOf, p, names)
    ensures names == [] ==> Satisfied(AllOf, p, names) && Satisfied(NoneOf, p, names)
    ensures |names| == 1 ==> (Satisfied(OneOf, p, names) <==> p(names[0]))
    ensures |names| == 1 ==> (Satisfied(AllOf, p, names) <==> p(names[0]))
  {
    if Satisfied(AllOf, p, names) && names != [] {
      assert p(names[0]);
    }
    if |names| == 1 && p(names[0]) {
      assert OnlyAt(p, names, 0);
    }
  }

  /** Counting decides exactly what is meant. */
  lemma CountsDecide(require: Requirement, p: string -> bool, names: seq<string>)
    ensures var passes := Count(p, names, |names|);
            Meets(require, passes, |names| - passes) <==> Satisfied(require, p, names)
  {
    match require
    case NoneOf => CountIsZero(p, names, |names|);
    case OneOf =>
      CountIsOne(p, names, |names|);
      assert names[..|names|] == names;
    case AnyOf => CountIsZero(p, names, |names|);
    case AllOf => CountIsAll(p, names, |names|);
  }

  lemma {:induction false} CountOfPrefix(p: string -> bool, xs: seq<string>, ys: seq<string>, n: nat)
    requires n <= |xs| && n <= |ys| && xs[..n] == ys[..n]
    ensures Count(p, xs, n) == Count(p, ys, n)
  {
    if n > 0 {
      assert xs[..n - 1] == xs[..n][..n - 1] && ys[..n - 1] == ys[..n][..n - 1];
      assert xs[..n][n - 1] == ys[..n][n - 1];
      CountOfPrefix(p, xs, ys, n - 1);
    }
  }

  lemma {:induction false} CountWithout(p: string -> bool, xs: seq<string>, j: nat, n: nat)
    requires j < n <= |xs|
    ensures Count(p, xs, n) == Count(p, xs[..j] + xs[j + 1..], n - 1) + if p(xs[j]) then 1 else 0
  {
    var rest := xs[..j] + xs[j + 1..];
    if n - 1 == j {
      assert rest[..j] == xs[..j];
      CountOfPrefix(p, xs, rest, j);
    } else {
      CountWithout(p, xs, j, n - 1);
      assert rest[n - 2] == xs[n - 1];
    }
  }

  lemma CountOfFront(p: string -> bool, xs: seq<string>)
    requires xs != []
    ensures var n := |xs| - 1;
            Count(p, xs, |xs|) == Count(p, xs[..n], n) + if p(xs[n]) then 1 else 0
  {
    var n := |xs| - 1;
    assert xs[..n][..n] == xs[..n];
    CountOfPrefix(p, xs, xs[..n], n);
  }

  lemma {:induction false} CountIgnoresOrder(p: string -> bool, xs: seq<string>, ys: seq<string>)
    requires multiset(xs) == multiset(ys)
    ensures |xs| == |ys| && Count(p, xs, |xs|) == Count(p, ys, |ys|)
    decreases |xs|
  {
    if xs == [] {
      assert |multiset(ys)| == |ys|;
    } else {
      var n := |xs| - 1;
      assert xs[n] in multiset(ys);
      var j :| 0 <= j < |ys| && ys[j] == xs[n];
      Bag.Front(xs);
      Bag.Remove(ys, j);
      var rest := ys[..j] + ys[j + 1..];
      assert multiset(xs[..n]) == multiset(rest);
      CountIgnoresOrder(p, xs[..n], rest);
      CountOfFront(p, xs);
      CountWithout(p, ys, j, |ys|);
    }
  }

  /** The order of the names does not matter. */
  lemma SatisfiedIgnoresOrder(require: Requirement, p: string -> bool, xs: seq<string>, ys: seq<string>)
    requires multiset(xs) == multiset(ys)
    ensures Satisfied(require, p, xs) == Satisfied(require, p, ys)
  {
    CountsDecide(require, p, xs);
    CountsDecide(require, p, ys);
    CountIgnoresOrder(p, xs, ys);
  }
}
