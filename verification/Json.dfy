/** JSON values as Python holds them, with Python's own idea of when two are equal. */
module Json {
  import opened Wrappers

  datatype Value =
    | Null
    | Bool(b: bool)
    | Int(i: int)
    | Float(r: real)
    | Text(s: string)
    | List(items: seq<Value>)
    | Dict(members: map<string, Value>)

  predicate Numeric(v: Value)
  {
    v.Bool? || v.Int? || v.Float?
  }

  function Number(v: Value): real
    requires Numeric(v)
  {
    match v
    case Bool(b) => if b then 1.0 else 0.0
    case Int(i) => i as real
    case Float(r) => r
  }

  /** Python's `==`: True, 1 and 1.0 are one and the same, at any depth. */
  predicate PyEq(a: Value, b: Value)
    decreases a
  {
    if Numeric(a) then
      Numeric(b) && Number(a) == Number(b)
    else
      match a
      case Null => b.Null?
      case Text(_) => a == b
      case List(xs) => b.List? && |xs| == |b.items| && forall i :: 0 <= i < |xs| ==> PyEq(xs[i], b.items[i])
      case Dict(m) => b.Dict? && m.Keys == b.members.Keys && forall k | k in m :: PyEq(m[k], b.members[k])
  }

  lemma {:induction false} PyEqReflexive(a: Value)
    ensures PyEq(a, a)
    decreases a
  {
    if a.List? {
      forall i | 0 <= i < |a.items| ensures PyEq(a.items[i], a.items[i]) {
        PyEqReflexive(a.items[i]);
      }
    } else if a.Dict? {
      forall k | k in a.members ensures PyEq(a.members[k], a.members[k]) {
        PyEqReflexive(a.members[k]);
      }
    }
  }

  lemma {:induction false} PyEqSymmetric(a: Value, b: Value)
    requires PyEq(a, b)
    ensures PyEq(b, a)
    decreases a
  {
    if a.List? {
      forall i | 0 <= i < |a.items| ensures PyEq(b.items[i], a.items[i]) {
        PyEqSymmetric(a.items[i], b.items[i]);
      }
    } else if a.Dict? {
      forall k | k in b.members ensures PyEq(b.members[k], a.members[k]) {
        PyEqSymmetric(a.members[k], b.members[k]);
      }
    }
  }

  lemma {:induction false} PyEqTransitive(a: Value, b: Value, c: Value)
    requires PyEq(a, b) && PyEq(b, c)
    ensures PyEq(a, c)
    decreases a
  {
    if a.List? {
      forall i | 0 <= i < |a.items| ensures PyEq(a.items[i], c.items[i]) {
        PyEqTransitive(a.items[i], b.items[i], c.items[i]);
      }
    } else if a.Dict? {
      forall k | k in a.members ensures PyEq(a.members[k], c.members[k]) {
        PyEqTransitive(a.members[k], b.members[k], c.members[k]);
      }
    }
  }

  // ----- what that equality comes to

  /** The value with every number and boolean in it written as the real number it denotes. */
  function Normal(v: Value): Value
    decreases v
  {
    match v
    case Null => Null
    case Bool(b) => Float(if b then 1.0 else 0.0)
    case Int(i) => Float(i as real)
    case Float(r) => Float(r)
    case Text(s) => Text(s)
    case List(items) => List(seq(|items|, i requires 0 <= i < |items| => Normal(items[i])))
    case Dict(members) => Dict(map k | k in members :: Normal(members[k]))
  }

  /** No number or boolean in it at any depth. */
  predicate Numberless(v: Value)
    decreases v
  {
    match v
    case Null => true
    case Text(_) => true
    case List(items) => forall i :: 0 <= i < |items| ==> Numberless(items[i])
    case Dict(members) => forall k | k in members :: Numberless(members[k])
    case _ => false
  }

  /** Values are equal to Python exactly when they are the same once numbers are told by what they denote alone. */
  lemma {:induction false} PyEqIsNormal(a: Value, b: Value)
    ensures PyEq(a, b) <==> Normal(a) == Normal(b)
    decreases a
  {
    if a.List? && b.List? && |a.items| == |b.items| {
      forall i | 0 <= i < |a.items| ensures PyEq(a.items[i], b.items[i]) <==> Normal(a).items[i] == Normal(b).items[i] {
        PyEqIsNormal(a.items[i], b.items[i]);
      }
      assert Normal(a).items == Normal(b).items <==>
        forall i :: 0 <= i < |a.items| ==> Normal(a).items[i] == Normal(b).items[i];
    } else if a.Dict? && b.Dict? {
      var m, n := Normal(a).members, Normal(b).members;
      assert m.Keys == a.members.Keys && n.Keys == b.members.Keys;
      forall k | k in a.members && k in b.members ensures PyEq(a.members[k], b.members[k]) <==> m[k] == n[k] {
        PyEqIsNormal(a.members[k], b.members[k]);
      }
    }
  }

  lemma {:induction false} NumberlessIsNormal(v: Value)
    requires Numberless(v)
    ensures Normal(v) == v
    decreases v
  {
    if v.List? {
      forall i | 0 <= i < |v.items| ensures Normal(v).items[i] == v.items[i] {
        NumberlessIsNormal(v.items[i]);
      }
      assert Normal(v).items == v.items;
    } else if v.Dict? {
      forall k | k in v.members ensures Normal(v).members[k] == v.members[k] {
        NumberlessIsNormal(v.members[k]);
      }
      assert Normal(v).members == v.members;
    }
  }

  lemma {:induction false} NormalIsNumberless(a: Value, b: Value)
    requires Numberless(a) && Normal(b) == a
    ensures b == a
    decreases a
  {
    if a.List? {
      forall i | 0 <= i < |a.items| ensures b.items[i] == a.items[i] {
        assert Normal(b).items[i] == Normal(b.items[i]);
        NormalIsNumberless(a.items[i], b.items[i]);
      }
      assert b.items == a.items;
    } else if a.Dict? {
      assert Normal(b).members.Keys == b.members.Keys;
      forall k | k in a.members ensures b.members[k] == a.members[k] {
        assert Normal(b).members[k] == Normal(b.members[k]);
        NormalIsNumberless(a.members[k], b.members[k]);
      }
      assert b.members == a.members;
    }
  }

  /** Where one side holds no number or boolean, equal means the same: no two texts are equal, nor a text and null. */
  lemma PlainEquality(a: Value, b: Value)
    requires Numberless(a)
    ensures PyEq(a, b) <==> a == b
    ensures PyEq(b, a) <==> a == b
  {
    PyEqIsNormal(a, b);
    PyEqIsNormal(b, a);
    NumberlessIsNormal(a);
    if Normal(b) == a {
      NormalIsNumberless(a, b);
    }
  }

  /** The value found by following dictionary keys. */
  function At(v: Value, path: seq<string>): Option<Value>
    decreases |path|
  {
    if path == [] then Some(v)
    else if v.Dict? && path[0] in v.members then At(v.members[path[0]], path[1..])
    else None
  }
}
