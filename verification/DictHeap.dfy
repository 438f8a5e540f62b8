/**
 * Python's dictionaries as objects: nodes with an identity, which may be changed in
 * place and shared, and the JSON values they stand for.
 */
module DictHeap {
  import opened Json

  /** What a dictionary holds under a key: another dictionary, by reference, or a value that is none. */
  datatype Cell = Leaf(v: Value) | Node(r: nat)

  type Nodes = map<nat, map<string, Cell>>

  /** The dictionaries there are; those from `next` on have not been made yet. */
  datatype Heap = Heap(nodes: Nodes, next: nat)
  {
    predicate Valid()
    {
      forall r | r in nodes :: r < next
    }
  }

  // ----- what a cell stands for

  ghost predicate Is(m: Nodes, c: Cell, v: Value)
    decreases v
  {
    if v.Dict? then
      && c.Node? && c.r in m && m[c.r].Keys == v.members.Keys
      && forall k | k in v.members :: Is(m, m[c.r][k], v.members[k])
    else c == Leaf(v)
  }

  /** The dictionaries it is made of. */
  ghost function Foot(m: Nodes, c: Cell, v: Value): set<nat>
    requires Is(m, c, v)
    decreases v
  {
    if v.Dict? then {c.r} + set k, x | k in v.members && x in Foot(m, m[c.r][k], v.members[k]) :: x else {}
  }

  /** No dictionary is in it twice. */
  ghost predicate Tree(m: Nodes, c: Cell, v: Value)
    requires Is(m, c, v)
    decreases v
  {
    v.Dict? ==>
      && (forall k | k in v.members :: Tree(m, m[c.r][k], v.members[k]) && c.r !in Foot(m, m[c.r][k], v.members[k]))
      && (forall k, l | k in v.members && l in v.members && k != l ::
            Foot(m, m[c.r][k], v.members[k]) !! Foot(m, m[c.r][l], v.members[l]))
  }

  lemma {:induction false} IsOneValue(m: Nodes, c: Cell, v: Value, w: Value)
    requires Is(m, c, v) && Is(m, c, w)
    ensures v == w
    decreases v
  {
    if v.Dict? {
      forall k | k in v.members ensures v.members[k] == w.members[k] {
        IsOneValue(m, m[c.r][k], v.members[k], w.members[k]);
      }
      assert v.members == w.members;
    }
  }

  lemma {:induction false} FootExists(m: Nodes, c: Cell, v: Value)
    requires Is(m, c, v)
    ensures Foot(m, c, v) <= m.Keys
    decreases v
  {
    if v.Dict? {
      forall k | k in v.members ensures Foot(m, m[c.r][k], v.members[k]) <= m.Keys {
        FootExists(m, m[c.r][k], v.members[k]);
      }
    }
  }

  /** The two heaps hold the same in these dictionaries. */
  ghost predicate Agree(m: Nodes, n: Nodes, on: set<nat>)
  {
    forall r | r in on :: r in m && r in n && n[r] == m[r]
  }

  /** Changes elsewhere do not matter. */
  lemma {:induction false} Framed(m: Nodes, n: Nodes, c: Cell, v: Value)
    requires Is(m, c, v) && Agree(m, n, Foot(m, c, v))
    ensures Is(n, c, v) && Foot(n, c, v) == Foot(m, c, v)
    ensures Tree(m, c, v) ==> Tree(n, c, v)
    decreases v
  {
    if v.Dict? {
      assert c.r in Foot(m, c, v);
      forall k | k in v.members
        ensures Is(n, m[c.r][k], v.members[k])
        ensures Foot(n, m[c.r][k], v.members[k]) == Foot(m, m[c.r][k], v.members[k])
        ensures Tree(m, m[c.r][k], v.members[k]) ==> Tree(n, m[c.r][k], v.members[k])
      {
        assert Foot(m, m[c.r][k], v.members[k]) <= Foot(m, c, v);
        Framed(m, n, m[c.r][k], v.members[k]);
      }
    }
  }

  /** A cell that stands for a value without sharing, within some room. */
  ghost predicate Kid(m: Nodes, c: Cell, v: Value, room: set<nat>)
  {
    Is(m, c, v) && Tree(m, c, v) && Foot(m, c, v) <= room
  }

  lemma KidKept(m: Nodes, n: Nodes, c: Cell, v: Value, room: set<nat>)
    requires Kid(m, c, v, room) && Agree(m, n, room)
    ensures Kid(n, c, v, room)
  {
    Framed(m, n, c, v);
  }

  lemma KidUntouched(m: Nodes, n: Nodes, c: Cell, v: Value, room: set<nat>, changed: set<nat>)
    requires Kid(m, c, v, room) && Agree(m, n, m.Keys - changed) && room !! changed
    ensures Kid(n, c, v, room)
  {
    FootExists(m, c, v);
    Framed(m, n, c, v);
  }

  // ----- copy.deepcopy

  /** Every dictionary of h is in g, unchanged. */
  ghost predicate Extends(h: Heap, g: Heap)
  {
    g.Valid() && h.next <= g.next && Agree(h.nodes, g.nodes, h.nodes.Keys)
  }

  lemma ExtendsKeeps(h: Heap, g: Heap, c: Cell, v: Value)
    requires Extends(h, g) && Is(h.nodes, c, v) && Tree(h.nodes, c, v)
    ensures Is(g.nodes, c, v) && Tree(g.nodes, c, v)
  {
    FootExists(h.nodes, c, v);
    KidKept(h.nodes, g.nodes, c, v, h.nodes.Keys);
  }

  // ----- the children of a dictionary, each in a room of its own

  ghost predicate Kids(m: Nodes, cells: map<string, Cell>, vs: map<string, Value>, rooms: map<string, set<nat>>)
  {
    && cells.Keys == vs.Keys == rooms.Keys
    && forall k | k in vs :: Kid(m, cells[k], vs[k], rooms[k])
  }

  ghost predicate Apart(rooms: map<string, set<nat>>)
  {
    forall k, l | k in rooms && l in rooms && k != l :: rooms[k] !! rooms[l]
  }

  /** The room is no part of any of the others. */
  ghost predicate Outside(room: set<nat>, rooms: map<string, set<nat>>)
  {
    forall k | k in rooms :: rooms[k] !! room
  }

  lemma KidsKept(m: Nodes, n: Nodes, cells: map<string, Cell>, vs: map<string, Value>, rooms: map<string, set<nat>>)
    requires Kids(m, cells, vs, rooms) && forall k | k in rooms :: Agree(m, n, rooms[k])
    ensures Kids(n, cells, vs, rooms)
  {
    forall k | k in vs ensures Kid(n, cells[k], vs[k], rooms[k]) {
      KidKept(m, n, cells[k], vs[k], rooms[k]);
    }
  }

  lemma Rooted(m: Nodes, r: nat, vs: map<string, Value>, rooms: map<string, set<nat>>, room: set<nat>)
    requires r in m && Kids(m, m[r], vs, rooms) && Apart(rooms) && Outside({r}, rooms)
    requires r in room && forall k | k in rooms :: rooms[k] <= room
    ensures Kid(m, Node(r), Dict(vs), room)
  {
  }

  /** The other way round: a tree gives its children rooms. */
  ghost function RoomsOf(m: Nodes, r: nat, vs: map<string, Value>): (rooms: map<string, set<nat>>)
    requires Is(m, Node(r), Dict(vs))
  {
    map k | k in vs :: Foot(m, m[r][k], vs[k])
  }

  lemma RoomsAreApart(m: Nodes, r: nat, vs: map<string, Value>)
    requires Is(m, Node(r), Dict(vs)) && Tree(m, Node(r), Dict(vs))
    ensures var rooms, foot := RoomsOf(m, r, vs), Foot(m, Node(r), Dict(vs));
            && Kids(m, m[r], vs, rooms) && Apart(rooms) && Outside({r}, rooms)
            && r in foot && (forall k | k in rooms :: rooms[k] <= foot)
  {
    assert Dict(vs).members == vs;
  }

  lemma ChildRooms(m: Nodes, c: Cell, v: Value) returns (rooms: map<string, set<nat>>)
    requires Is(m, c, v) && Tree(m, c, v) && v.Dict?
    ensures c.Node? && c.r in m && Kids(m, m[c.r], v.members, rooms)
    ensures forall k | k in rooms :: rooms[k] <= m.Keys
  {
    rooms := RoomsOf(m, c.r, v.members);
    RoomsAreApart(m, c.r, v.members);
    FootExists(m, c, v);
  }

  /** How far a copy has come: what is copied is new, and each part of it apart from the others. */
  ghost predicate Copying(h: Heap, g: Heap, copy: map<string, Cell>, vs: map<string, Value>,
                          rooms: map<string, set<nat>>)
  {
    && Extends(h, g) && Kids(g.nodes, copy, vs, rooms) && Apart(rooms)
    && forall k | k in rooms :: rooms[k] <= g.nodes.Keys - h.nodes.Keys
  }

  /** The members taken so far, when those in `rest` are still to be taken. */
  function Done(members: map<string, Value>, rest: set<string>): map<string, Value>
  {
    map k | k in members && k !in rest :: members[k]
  }

  lemma DoneStep(members: map<string, Value>, rest: set<string>, key: string)
    requires rest <= members.Keys && key in rest
    ensures Done(members, rest - {key}) == Done(members, rest)[key := members[key]]
  {
  }

  lemma DoneAll(members: map<string, Value>)
    ensures Done(members, {}) == members && Done(members, members.Keys) == map[]
  {
    assert Done(members, {}) == members;
  }

  lemma CopiedOneMore(h: Heap, g: Heap, f: Heap, copy: map<string, Cell>, vs: map<string, Value>,
                      rooms: map<string, set<nat>>, key: string, cell: Cell, v: Value)
    requires Copying(h, g, copy, vs, rooms) && key !in copy
    requires Extends(g, f) && Kid(f.nodes, cell, v, f.nodes.Keys - g.nodes.Keys)
    ensures Copying(h, f, copy[key := cell], vs[key := v], rooms[key := f.nodes.Keys - g.nodes.Keys])
  {
    KidsKept(g.nodes, f.nodes, copy, vs, rooms);
  }

  ghost predicate Copied(h: Heap, g: Heap, copy: map<string, Cell>, members: map<string, Value>)
  {
    exists rooms :: Copying(h, g, copy, members, rooms)
  }

  lemma NewDict(h: Heap, g: Heap, copy: map<string, Cell>, members: map<string, Value>)
    requires h.Valid() && Copied(h, g, copy, members)
    ensures var f := Heap(g.nodes[g.next := copy], g.next + 1);
            Extends(h, f) && Kid(f.nodes, Node(g.next), Dict(members), f.nodes.Keys - h.nodes.Keys)
  {
    var rooms :| Copying(h, g, copy, members, rooms);
    var nodes := g.nodes[g.next := copy];
    KidsKept(g.nodes, nodes, copy, members, rooms);
    Rooted(nodes, g.next, members, rooms, nodes.Keys - h.nodes.Keys);
  }

  /** A copy of everything a cell stands for, all of it new. */
  method DeepCopy(h: Heap, c: Cell, ghost v: Value) returns (g: Heap, d: Cell)
    requires h.Valid() && Is(h.nodes, c, v) && Tree(h.nodes, c, v)
    ensures Extends(h, g) && Kid(g.nodes, d, v, g.nodes.Keys - h.nodes.Keys)
    decreases v, 1
  {
    if c.Leaf? {
      return h, c;
    }
    ghost var sources := ChildRooms(h.nodes, c, v);
    var f, copy := CopyMembers(h, h.nodes[c.r], v.members, sources, v);
    NewDict(h, f, copy, v.members);
    return Heap(f.nodes[f.next := copy], f.next + 1), Node(f.next);
  }

  /** The members of a dictionary, copied one after another. */
  method CopyMembers(h: Heap, cells: map<string, Cell>, ghost members: map<string, Value>,
                     ghost sources: map<string, set<nat>>, ghost v: Value)
    returns (g: Heap, copy: map<string, Cell>)
    requires h.Valid() && Kids(h.nodes, cells, members, sources) && v == Dict(members)
    requires forall k | k in sources :: sources[k] <= h.nodes.Keys
    ensures Copied(h, g, copy, members)
    decreases v, 0
  {
    DoneAll(members);
    g, copy := h, map[];
    ghost var rooms: map<string, set<nat>> := map[];
    var rest := cells.Keys;
    while rest != {}
      invariant rest <= members.Keys
      invariant Copying(h, g, copy, Done(members, rest), rooms)
    {
      var key :| key in rest;
      KidKept(h.nodes, g.nodes, cells[key], members[key], sources[key]);
      var f, cell := DeepCopy(g, cells[key], members[key]);
      CopiedOneMore(h, g, f, copy, Done(members, rest), rooms, key, cell, members[key]);
      DoneStep(members, rest, key);
      copy := copy[key := cell];
      rooms := rooms[key := f.nodes.Keys - g.nodes.Keys];
      g := f;
      rest := rest - {key};
    }
  }

  /** The value a cell stands for, read off the heap. */
  method Read(m: Nodes, c: Cell, ghost v: Value) returns (w: Value)
    requires Is(m, c, v)
    ensures w == v
    decreases v
  {
    if c.Leaf? {
      return c.v;
    }
    DoneAll(v.members);
    var members: map<string, Value> := map[];
    var rest := m[c.r].Keys;
    while rest != {}
      invariant rest <= m[c.r].Keys
      invariant members == Done(v.members, rest)
    {
      var key :| key in rest;
      var member := Read(m, m[c.r][key], v.members[key]);
      DoneStep(v.members, rest, key);
      members := members[key := member];
      rest := rest - {key};
    }
    w := Dict(members);
  }
}
