/** Python's sorted() on the keys of a dictionary. */
module SortedInts {
  import opened OrderedDict

  ghost predicate Ascending(ids: seq<int>)
  {
    forall i, j :: 0 <= i < j < |ids| ==> ids[i] < ids[j]
  }

  function Insert(ids: seq<int>, x: int): seq<int>
  {
    if ids == [] || ids[|ids| - 1] < x then ids + [x] else Insert(ids[..|ids| - 1], x) + [ids[|ids| - 1]]
  }

  function Sorted(keys: seq<int>): seq<int>
  {
    if keys == [] then [] else Insert(Sorted(keys[..|keys| - 1]), keys[|keys| - 1])
  }

  lemma {:induction false} InsertMembers(ids: seq<int>, x: int, y: int)
    ensures y in Insert(ids, x) <==> y == x || y in ids
  {
    if ids != [] {
      assert ids == ids[..|ids| - 1] + [ids[|ids| - 1]];
      InsertMembers(ids[..|ids| - 1], x, y);
    }
  }

  lemma {:induction false} InsertAscends(ids: seq<int>, x: int)
    requires Ascending(ids) && x !in ids
    ensures Ascending(Insert(ids, x))
  {
    if ids != [] && ids[|ids| - 1] >= x {
      var front, last := ids[..|ids| - 1], ids[|ids| - 1];
      InsertAscends(front, x);
      forall i | 0 <= i < |Insert(front, x)| ensures Insert(front, x)[i] < last {
        InsertMembers(front, x, Insert(front, x)[i]);
      }
    }
  }

  lemma {:induction false} SortedMembers(keys: seq<int>, y: int)
    ensures y in Sorted(keys) <==> y in keys
  {
    if keys != [] {
      var front, last := keys[..|keys| - 1], keys[|keys| - 1];
      assert keys == front + [last];
      SortedMembers(front, y);
      InsertMembers(Sorted(front), last, y);
    }
  }

  lemma {:induction false} SortedAscends(keys: seq<int>)
    requires Distinct(keys)
    ensures Ascending(Sorted(keys))
  {
    if keys != [] {
      var front, last := keys[..|keys| - 1], keys[|keys| - 1];
      SortedAscends(front);
      SortedMembers(front, last);
      InsertAscends(Sorted(front), last);
    }
  }
}
