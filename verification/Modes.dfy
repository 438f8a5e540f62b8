/** The most frequent elements of a sequence, and where each first stands. */
module Modes {

  /** Position i is where x first occurs. */
  predicate First<T(==)>(xs: seq<T>, i: nat, x: T)
  {
    i < |xs| && xs[i] == x && forall j :: 0 <= j < i ==> xs[j] != x
  }

  predicate Increasing(at: seq<nat>)
  {
    forall i, j :: 0 <= i < j < |at| ==> at[i] < at[j]
  }

  /** The names stand in the order of their first occurrence among the xs, which is there. */
  predicate Places<T(==)>(xs: seq<T>, names: seq<T>, at: seq<nat>)
  {
    && |at| == |names| && Increasing(at)
    && forall i :: 0 <= i < |at| ==> First(xs, at[i], names[i])
  }

  lemma PlacesKept<T>(xs: seq<T>, names: seq<T>, at: seq<nat>, x: T)
    requires Places(xs, names, at)
    ensures Places(xs + [x], names, at)
  {
  }

  lemma PlacesNew<T>(xs: seq<T>, names: seq<T>, at: seq<nat>, x: T)
    requires Places(xs, names, at) && x !in xs
    ensures Places(xs + [x], names + [x], at + [|xs|])
  {
    PlacesKept(xs, names, at, x);
    assert forall i :: 0 <= i < |at| ==> First(xs + [x], at[i], names[i]);
  }

  /** Some of the names, taken in their order, are in the order of first occurrence too. */
  lemma PlacesOfSome<T>(xs: seq<T>, names: seq<T>, firsts: seq<nat>, rows: seq<nat>, some: seq<T>)
    returns (at: seq<nat>)
    requires Places(xs, names, firsts) && Increasing(rows) && |rows| == |some|
    requires forall l :: 0 <= l < |rows| ==> rows[l] < |names| && some[l] == names[rows[l]]
    ensures Places(xs, some, at)
  {
    at := seq(|rows|, l requires 0 <= l < |rows| => firsts[rows[l]]);
    forall l | 0 <= l < |at| ensures First(xs, at[l], some[l]) {
      assert First(xs, firsts[rows[l]], names[rows[l]]);
    }
  }

  ghost predicate MostFrequent<T>(x: T, xs: seq<T>)
  {
    x in xs && forall y | y in xs :: multiset(xs)[y] <= multiset(xs)[x]
  }

  /** Each of the most frequent elements, in the order in which they first occur. */
  ghost predicate AreModes<T(!new)>(modes: seq<T>, xs: seq<T>)
  {
    && (forall x :: x in modes <==> MostFrequent(x, xs))
    && exists at: seq<nat> :: Places(xs, modes, at)
  }

  // ----- two sequences that repeat themselves at the same places

  predicate Alike<A(==), B(==)>(xs: seq<A>, ys: seq<B>)
  {
    |xs| == |ys| && forall i, j :: 0 <= i < |xs| && 0 <= j < |xs| ==> (xs[i] == xs[j] <==> ys[i] == ys[j])
  }

  lemma {:induction false} CountsAlikeTo<A, B>(xs: seq<A>, ys: seq<B>, n: nat, i: nat)
    requires Alike(xs, ys) && n <= |xs| && i < |xs|
    ensures multiset(xs[..n])[xs[i]] == multiset(ys[..n])[ys[i]]
  {
    if n > 0 {
      CountsAlikeTo(xs, ys, n - 1, i);
      assert xs[..n] == xs[..n - 1] + [xs[n - 1]];
      assert ys[..n] == ys[..n - 1] + [ys[n - 1]];
    }
  }

  lemma CountsAlike<A, B>(xs: seq<A>, ys: seq<B>, i: nat)
    requires Alike(xs, ys) && i < |xs|
    ensures multiset(xs)[xs[i]] == multiset(ys)[ys[i]]
  {
    CountsAlikeTo(xs, ys, |xs|, i);
    assert xs[..|xs|] == xs && ys[..|ys|] == ys;
  }

  lemma FrequentAlike<A, B>(xs: seq<A>, ys: seq<B>, i: nat)
    requires Alike(xs, ys) && i < |xs|
    ensures MostFrequent(xs[i], xs) <==> MostFrequent(ys[i], ys)
  {
    forall j | 0 <= j < |xs|
      ensures multiset(xs)[xs[j]] <= multiset(xs)[xs[i]] <==> multiset(ys)[ys[j]] <= multiset(ys)[ys[i]]
    {
      CountsAlike(xs, ys, i);
      CountsAlike(xs, ys, j);
    }
    assert xs[i] in xs && ys[i] in ys;
    if !MostFrequent(xs[i], xs) {
      var x :| x in xs && multiset(xs)[x] > multiset(xs)[xs[i]];
      var j :| 0 <= j < |xs| && xs[j] == x;
      assert ys[j] in ys;
    }
    if !MostFrequent(ys[i], ys) {
      var y :| y in ys && multiset(ys)[y] > multiset(ys)[ys[i]];
      var j :| 0 <= j < |ys| && ys[j] == y;
      assert xs[j] in xs;
    }
  }

  /** What stands where the modes of one first stand are the modes of the other. */
  lemma ModesAlike<A(!new), B(!new)>(xs: seq<A>, modes: seq<A>, at: seq<nat>, ys: seq<B>, others: seq<B>)
    requires Alike(xs, ys) && AreModes(modes, xs) && Places(xs, modes, at)
    requires |others| == |modes| && forall l :: 0 <= l < |at| ==> at[l] < |ys| && others[l] == ys[at[l]]
    ensures AreModes(others, ys)
  {
    forall l | 0 <= l < |at| ensures First(ys, at[l], others[l]) {
      assert First(xs, at[l], modes[l]);
    }
    assert Places(ys, others, at);
    forall y ensures y in others <==> MostFrequent(y, ys) {
      if y in others {
        var l :| 0 <= l < |others| && others[l] == y;
        assert First(xs, at[l], modes[l]) && modes[l] in modes;
        FrequentAlike(xs, ys, at[l]);
      }
      if MostFrequent(y, ys) {
        var i :| 0 <= i < |ys| && ys[i] == y;
        FrequentAlike(xs, ys, i);
        var l :| 0 <= l < |modes| && modes[l] == xs[i];
        assert First(xs, at[l], modes[l]);
        assert others[l] == y;
      }
    }
  }
}
