/** psjson.py, json_decomment: scrubbing the members whose names begin with a prefix. */
module JsonDecomment {
  import opened Json
  import opened Wrappers

  /** str.startswith */
  predicate Prefixed(name: string, prefix: string)
  {
    prefix <= name
  }

  lemma PrefixedExactly(prefix: string, rest: string, name: string)
    ensures Prefixed(prefix + rest, prefix)
    ensures Prefixed(name, prefix) ==> name == prefix + name[|prefix|..]
  {
  }

  function Decomment(v: Value, prefix: string, nulling: bool): Value
  {
    match v
    case Dict(m) =>
      Dict(map k | k in m && (nulling || !Prefixed(k, prefix)) ::
             if Prefixed(k, prefix) then Null else Decomment(m[k], prefix, nulling))
    case List(xs) => List(seq(|xs|, i requires 0 <= i < |xs| => Decomment(xs[i], prefix, nulling)))
    case _ => v
  }

  /** No member at any depth has a name with the prefix. */
  predicate Clean(v: Value, prefix: string)
  {
    match v
    case Dict(m) => forall k | k in m :: !Prefixed(k, prefix) && Clean(m[k], prefix)
    case List(xs) => forall i :: 0 <= i < |xs| ==> Clean(xs[i], prefix)
    case _ => true
  }

  /** Every member at any depth whose name has the prefix is null. */
  predicate Nulled(v: Value, prefix: string)
  {
    match v
    case Dict(m) => forall k | k in m :: if Prefixed(k, prefix) then m[k].Null? else Nulled(m[k], prefix)
    case List(xs) => forall i :: 0 <= i < |xs| ==> Nulled(xs[i], prefix)
    case _ => true
  }

  /** Deleting leaves no prefixed name anywhere, and leaves alone what had none. */
  lemma {:induction false} DeletesAll(v: Value, prefix: string)
    ensures Clean(Decomment(v, prefix, false), prefix)
    ensures Clean(v, prefix) ==> Decomment(v, prefix, false) == v
    decreases v
  {
    if v.Dict? {
      var m := Decomment(v, prefix, false).members;
      forall k | k in v.members ensures k in m ==> Clean(m[k], prefix)
                                ensures Clean(v, prefix) ==> k in m && m[k] == v.members[k] {
        DeletesAll(v.members[k], prefix);
      }
      assert Clean(v, prefix) ==> m == v.members;
    } else if v.List? {
      var xs := Decomment(v, prefix, false).items;
      forall i | 0 <= i < |xs| ensures Clean(xs[i], prefix) && (Clean(v, prefix) ==> xs[i] == v.items[i]) {
        DeletesAll(v.items[i], prefix);
      }
      assert Clean(v, prefix) ==> xs == v.items;
    }
  }

  /** Nulling leaves every prefixed member null, and leaves alone what was so already. */
  lemma {:induction false} NullsAll(v: Value, prefix: string)
    ensures Nulled(Decomment(v, prefix, true), prefix)
    ensures Nulled(v, prefix) ==> Decomment(v, prefix, true) == v
    decreases v
  {
    if v.Dict? {
      var m := Decomment(v, prefix, true).members;
      forall k | k in v.members
        ensures if Prefixed(k, prefix) then m[k].Null? else Nulled(m[k], prefix)
        ensures Nulled(v, prefix) ==> m[k] == v.members[k]
      {
        NullsAll(v.members[k], prefix);
      }
      assert Nulled(v, prefix) ==> m == v.members;
    } else if v.List? {
      var xs := Decomment(v, prefix, true).items;
      forall i | 0 <= i < |xs| ensures Nulled(xs[i], prefix) && (Nulled(v, prefix) ==> xs[i] == v.items[i]) {
        NullsAll(v.items[i], prefix);
      }
      assert Nulled(v, prefix) ==> xs == v.items;
    }
  }

  lemma Idempotent(v: Value, prefix: string, nulling: bool)
    ensures Decomment(Decomment(v, prefix, nulling), prefix, nulling) == Decomment(v, prefix, nulling)
  {
    var once := Decomment(v, prefix, nulling);
    if nulling {
      NullsAll(v, prefix);
      NullsAll(once, prefix);
    } else {
      DeletesAll(v, prefix);
      DeletesAll(once, prefix);
    }
  }

  /** Deleting by one prefix and nulling by another can be done in either order, whatever the prefixes. */
  lemma {:induction false} Commutes(v: Value, p: string, q: string)
    ensures Decomment(Decomment(v, p, false), q, true) == Decomment(Decomment(v, q, true), p, false)
    decreases v
  {
    var left, right := Decomment(Decomment(v, p, false), q, true), Decomment(Decomment(v, q, true), p, false);
    if v.Dict? {
      forall k | k in v.members && !Prefixed(k, p) ensures left.members[k] == right.members[k] {
        if Prefixed(k, q) {
          assert Decomment(Null, p, false) == Null;
        } else {
          Commutes(v.members[k], p, q);
        }
      }
      assert left.members == right.members;
    } else if v.List? {
      forall i | 0 <= i < |v.items| ensures left.items[i] == right.items[i] {
        Commutes(v.items[i], p, q);
      }
      assert left.items == right.items;
    }
  }

  // ----- what is left where

  datatype Step = Member(name: string) | Index(i: nat)

  /** The value found by following member names and list indexes. */
  function Follow(v: Value, path: seq<Step>): Option<Value>
    decreases |path|
  {
    if path == [] then Some(v)
    else
      match path[0]
      case Member(name) => if v.Dict? && name in v.members then Follow(v.members[name], path[1..]) else None
      case Index(i) => if v.List? && i < |v.items| then Follow(v.items[i], path[1..]) else None
  }

  predicate Avoids(path: seq<Step>, prefix: string)
  {
    forall j :: 0 <= j < |path| ==> path[j].Member? ==> !Prefixed(path[j].name, prefix)
  }

  /** Off the prefixed names everything stays in its place, itself scrubbed; on one, deletion leaves nothing. */
  lemma {:induction false} StaysInPlace(v: Value, path: seq<Step>, prefix: string, nulling: bool)
    ensures Avoids(path, prefix) ==>
              Follow(Decomment(v, prefix, nulling), path) ==
                match Follow(v, path)
                case Some(w) => Some(Decomment(w, prefix, nulling))
                case None => None
    ensures !Avoids(path, prefix) && !nulling ==> Follow(Decomment(v, prefix, false), path).None?
    decreases |path|
  {
    if path != [] {
      var rest := path[1..];
      assert forall j :: 0 <= j < |rest| ==> rest[j] == path[j + 1];
      assert Avoids(path, prefix) <==> (path[0].Member? ==> !Prefixed(path[0].name, prefix)) && Avoids(rest, prefix);
      match path[0]
      case Member(name) =>
        if v.Dict? && name in v.members {
          StaysInPlace(v.members[name], rest, prefix, nulling);
        }
      case Index(i) =>
        if v.List? && i < |v.items| {
          StaysInPlace(v.items[i], rest, prefix, nulling);
        }
    }
  }
}
