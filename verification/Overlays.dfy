/**
 * limitset.py: the value of one dictionary overlaid on another, which is what merging
 * gives a cloned limit, and the laws it obeys.
 */
module Overlays {
  import opened Json
  import opened Wrappers

  /** What ends up under a key that both sides have. */
  function Overlay(a: Value, b: Value): Value
    decreases b
  {
    if a.Dict? && b.Dict? then
      Dict(map k | k in a.members.Keys + b.members.Keys ::
             if k !in b.members then a.members[k]
             else if k !in a.members then b.members[k]
             else Overlay(a.members[k], b.members[k]))
    else if PyEq(a, b) then a
    else b
  }

  // ----- where every leaf comes from

  /** What b holds at the end of a path, or the first non-dictionary it holds on the way. */
  function Meets(b: Value, path: seq<string>): Option<Value>
    decreases |path|
  {
    if path == [] || !b.Dict? then Some(b)
    else if path[0] in b.members then Meets(b.members[path[0]], path[1..])
    else None
  }

  /**
   * A leaf of b is in the result, except that where a already holds an equal value of
   * another kind (1 for True) it is a's that stays.
   */
  lemma {:induction false} LaterLeafWins(a: Value, b: Value, path: seq<string>)
    requires At(b, path).Some? && !At(b, path).value.Dict?
    ensures var theirs := At(b, path).value;
            At(Overlay(a, b), path) ==
              if At(a, path).Some? && PyEq(At(a, path).value, theirs) then At(a, path) else Some(theirs)
    decreases |path|
  {
    if path != [] && a.Dict? && path[0] in a.members {
      LaterLeafWins(a.members[path[0]], b.members[path[0]], path[1..]);
    }
  }

  /**
   * Without Python's equality: a leaf of b that holds no number or boolean, such as a text
   * or null, is in the result as it is; of any other at least what its numbers denote is.
   */
  lemma PlainLeafWins(a: Value, b: Value, path: seq<string>)
    requires At(b, path).Some? && !At(b, path).value.Dict?
    ensures At(Overlay(a, b), path).Some?
    ensures Normal(At(Overlay(a, b), path).value) == Normal(At(b, path).value)
    ensures Numberless(At(b, path).value) ==> At(Overlay(a, b), path) == At(b, path)
  {
    LaterLeafWins(a, b, path);
    if At(a, path).Some? {
      PyEqIsNormal(At(a, path).value, At(b, path).value);
      if Numberless(At(b, path).value) {
        PlainEquality(At(b, path).value, At(a, path).value);
      }
    }
  }

  /** A leaf of a stays exactly when b has nothing on its path, or an equal value at its end. */
  lemma {:induction false} EarlierLeafStays(a: Value, b: Value, path: seq<string>)
    requires At(a, path).Some? && !At(a, path).value.Dict?
    ensures At(Overlay(a, b), path) == At(a, path) <==>
              || Meets(b, path).None?
              || (At(b, path).Some? && PyEq(At(a, path).value, At(b, path).value))
    decreases |path|
  {
    if path == [] {
      PyEqReflexive(a);
    } else if b.Dict? && path[0] in b.members {
      EarlierLeafStays(a.members[path[0]], b.members[path[0]], path[1..]);
    }
  }

  /** Nothing else is in the result. */
  lemma {:induction false} NoOtherLeaves(a: Value, b: Value, path: seq<string>)
    requires At(Overlay(a, b), path).Some? && !At(Overlay(a, b), path).value.Dict?
    ensures At(Overlay(a, b), path) == At(a, path) || At(Overlay(a, b), path) == At(b, path)
    decreases |path|
  {
    if path != [] && a.Dict? && b.Dict? && path[0] in a.members && path[0] in b.members {
      NoOtherLeaves(a.members[path[0]], b.members[path[0]], path[1..]);
    }
  }

  // ----- algebra

  lemma {:induction false} SelfMerge(a: Value)
    ensures Overlay(a, a) == a
    decreases a
  {
    PyEqReflexive(a);
    if a.Dict? {
      forall k | k in a.members ensures Overlay(a.members[k], a.members[k]) == a.members[k] {
        SelfMerge(a.members[k]);
      }
      assert Overlay(a, a).members == a.members;
    }
  }

  /** Merging the same thing in again changes nothing. */
  lemma {:induction false} MergeIdempotent(a: Value, b: Value)
    ensures Overlay(Overlay(a, b), b) == Overlay(a, b)
    decreases b
  {
    SelfMerge(b);
    if a.Dict? && b.Dict? {
      var m := Overlay(a, b);
      forall k | k in b.members ensures Overlay(m.members[k], b.members[k]) == m.members[k] {
        if k in a.members {
          MergeIdempotent(a.members[k], b.members[k]);
        } else {
          SelfMerge(b.members[k]);
        }
      }
      assert Overlay(m, b).members == m.members;
    }
  }

  /** Equal operands, in Python's sense, give equal results. */
  lemma {:induction false} MergeRespectsEquality(a: Value, b: Value, c: Value)
    requires PyEq(b, c)
    ensures PyEq(Overlay(a, b), Overlay(a, c))
    decreases b
  {
    if a.Dict? && b.Dict? {
      forall k | k in Overlay(a, b).members ensures PyEq(Overlay(a, b).members[k], Overlay(a, c).members[k]) {
        if k !in b.members {
          PyEqReflexive(a.members[k]);
        } else if k in a.members {
          MergeRespectsEquality(a.members[k], b.members[k], c.members[k]);
        }
      }
    } else {
      PyEqReflexive(a);
      if PyEq(a, b) {
        PyEqTransitive(a, b, c);
      } else if PyEq(a, c) {
        PyEqSymmetric(b, c);
        PyEqTransitive(a, c, b);
      }
    }
  }

  /** b has nothing to add to a: each of its keys is in a, with an equal value or again nothing to add. */
  predicate Absorbs(a: Value, b: Value)
    decreases b
  {
    if a.Dict? && b.Dict? then forall k | k in b.members :: k in a.members && Absorbs(a.members[k], b.members[k])
    else PyEq(a, b)
  }

  lemma {:induction false} NothingAdded(a: Value, b: Value)
    ensures Overlay(a, b) == a <==> Absorbs(a, b)
    decreases b
  {
    PyEqReflexive(a);
    if a.Dict? && b.Dict? {
      var m := Overlay(a, b).members;
      forall k | k in b.members && k in a.members
        ensures m[k] == a.members[k] <==> Absorbs(a.members[k], b.members[k])
      {
        NothingAdded(a.members[k], b.members[k]);
      }
      assert m == a.members <==> forall k | k in b.members :: k in a.members && m[k] == a.members[k];
    }
  }

  /** c keeps nothing of a: every key of a is in c, and so on where both hold dictionaries. */
  predicate Covers(c: Value, a: Value)
    decreases a
  {
    c.Dict? && a.Dict? ==> forall k | k in a.members :: k in c.members && Covers(c.members[k], a.members[k])
  }

  lemma {:induction false} CoversIsNothingKept(a: Value, c: Value)
    ensures PyEq(Overlay(a, c), c) <==> Covers(c, a)
    decreases a
  {
    PyEqReflexive(c);
    if a.Dict? && c.Dict? {
      var m := Overlay(a, c);
      forall k | k in c.members
        ensures k in a.members ==> (PyEq(m.members[k], c.members[k]) <==> Covers(c.members[k], a.members[k]))
      {
        if k in a.members {
          CoversIsNothingKept(a.members[k], c.members[k]);
        }
      }
      forall k | k in c.members && k !in a.members ensures PyEq(m.members[k], c.members[k]) {
        PyEqReflexive(c.members[k]);
      }
      assert m.members.Keys == a.members.Keys + c.members.Keys;
    }
  }

  /** No dictionary of a and c meet with something else of b between them, unless c covers a there. */
  predicate Associates(a: Value, b: Value, c: Value)
    decreases b
  {
    if a.Dict? && c.Dict? then
      if b.Dict? then
        forall k | k in b.members && k in a.members && k in c.members ::
          Associates(a.members[k], b.members[k], c.members[k])
      else Covers(c, a)
    else true
  }

  lemma FirstPairAssociates(a: Value, b: Value, c: Value)
    requires a.Dict? && b.Dict? && !c.Dict?
    ensures Overlay(Overlay(a, b), c) == c && Overlay(a, Overlay(b, c)) == c
  {
    assert !PyEq(b, c) && !PyEq(a, c);
  }

  lemma LastPairAssociates(a: Value, b: Value, c: Value)
    requires !a.Dict? && b.Dict? && c.Dict?
    ensures Overlay(Overlay(a, b), c) == Overlay(b, c) && Overlay(a, Overlay(b, c)) == Overlay(b, c)
  {
    assert !PyEq(a, b);
  }

  lemma LeavesAssociate(a: Value, b: Value, c: Value)
    requires !(a.Dict? && c.Dict?)
    ensures PyEq(Overlay(Overlay(a, b), c), Overlay(a, Overlay(b, c)))
  {
    if b.Dict? && c.Dict? {
      LastPairAssociates(a, b, c);
      PyEqReflexive(Overlay(b, c));
    } else if a.Dict? && b.Dict? {
      FirstPairAssociates(a, b, c);
      PyEqReflexive(c);
    } else {
      PlainAssociate(a, b, c);
    }
  }

  lemma PlainAssociate(a: Value, b: Value, c: Value)
    requires !(a.Dict? && b.Dict?) && !(b.Dict? && c.Dict?) && !(a.Dict? && c.Dict?)
    ensures PyEq(Overlay(Overlay(a, b), c), Overlay(a, Overlay(b, c)))
  {
    PyEqReflexive(a);
    PyEqReflexive(b);
    PyEqReflexive(c);
    if PyEq(a, c) {
      PyEqSymmetric(a, c);
      if PyEq(b, c) {
        PyEqSymmetric(b, c);
        PyEqTransitive(a, c, b);
      }
      if PyEq(a, b) {
        PyEqSymmetric(a, b);
        PyEqTransitive(b, a, c);
      }
    } else {
      if PyEq(a, b) && PyEq(b, c) {
        PyEqTransitive(a, b, c);
      }
    }
  }

  /** Grouping does not matter, up to Python's equality, exactly when no such meeting drops something. */
  lemma {:induction false} MergeAssociative(a: Value, b: Value, c: Value)
    ensures PyEq(Overlay(Overlay(a, b), c), Overlay(a, Overlay(b, c))) <==> Associates(a, b, c)
    decreases b
  {
    if !(a.Dict? && c.Dict?) {
      LeavesAssociate(a, b, c);
    } else if !b.Dict? {
      AroundALeaf(a, b, c);
    } else {
      forall k | k in a.members || k in b.members || k in c.members
        ensures KeyAssociates(a, b, c, k) <==>
                  (k in b.members && k in a.members && k in c.members ==>
                     Associates(a.members[k], b.members[k], c.members[k]))
      {
        if k in a.members && k in b.members && k in c.members {
          MergeAssociative(a.members[k], b.members[k], c.members[k]);
        } else {
          OneSideMissing(a, b, c, k);
        }
      }
      ByKeys(a, b, c);
    }
  }

  lemma AroundALeaf(a: Value, b: Value, c: Value)
    requires a.Dict? && c.Dict? && !b.Dict?
    ensures PyEq(Overlay(Overlay(a, b), c), Overlay(a, Overlay(b, c))) <==> Covers(c, a)
  {
    assert Overlay(Overlay(a, b), c) == c && Overlay(b, c) == c;
    CoversIsNothingKept(a, c);
    if PyEq(Overlay(a, c), c) {
      PyEqSymmetric(Overlay(a, c), c);
    }
    if PyEq(c, Overlay(a, c)) {
      PyEqSymmetric(c, Overlay(a, c));
    }
  }

  /** The two groupings agree under one key. */
  ghost predicate KeyAssociates(a: Value, b: Value, c: Value, k: string)
    requires a.Dict? && b.Dict? && c.Dict?
    requires k in a.members || k in b.members || k in c.members
  {
    PyEq(Overlay(Overlay(a, b), c).members[k], Overlay(a, Overlay(b, c)).members[k])
  }

  lemma OneSideMissing(a: Value, b: Value, c: Value, k: string)
    requires a.Dict? && b.Dict? && c.Dict?
    requires k in a.members || k in b.members || k in c.members
    requires !(k in a.members && k in b.members && k in c.members)
    ensures KeyAssociates(a, b, c, k)
  {
    PyEqReflexive(Overlay(Overlay(a, b), c).members[k]);
  }

  lemma ByKeys(a: Value, b: Value, c: Value)
    requires a.Dict? && b.Dict? && c.Dict?
    ensures PyEq(Overlay(Overlay(a, b), c), Overlay(a, Overlay(b, c))) <==>
              forall k | k in a.members || k in b.members || k in c.members :: KeyAssociates(a, b, c, k)
  {
    var left, right := Overlay(Overlay(a, b), c), Overlay(a, Overlay(b, c));
    assert left.members.Keys == a.members.Keys + b.members.Keys + c.members.Keys;
    assert right.members.Keys == left.members.Keys;
  }

  /** A number between two dictionaries: one grouping forgets what a said, the other brings it back. */
  lemma GroupingCanMatter()
    ensures var a := Dict(map["x" := Dict(map["p" := Int(1)])]);
            var b := Dict(map["x" := Int(5)]);
            var c := Dict(map["x" := Dict(map["q" := Int(2)])]);
            !PyEq(Overlay(Overlay(a, b), c), Overlay(a, Overlay(b, c)))
  {
    var a := Dict(map["x" := Dict(map["p" := Int(1)])]);
    var b := Dict(map["x" := Int(5)]);
    var c := Dict(map["x" := Dict(map["q" := Int(2)])]);
    MergeAssociative(a, b, c);
    var ax, bx, cx := a.members["x"], b.members["x"], c.members["x"];
    assert "p" in ax.members && "p" !in cx.members;
    assert !Covers(cx, ax);
    assert !Associates(ax, bx, cx);
  }

  /** Overlaying True on 1 changes nothing: the clone's value is lost. */
  lemma EqualKindsKeepTheOld()
    ensures At(Overlay(Dict(map["pass" := Int(1)]), Dict(map["pass" := Bool(true)])), ["pass"]) == Some(Int(1))
  {
  }
}
