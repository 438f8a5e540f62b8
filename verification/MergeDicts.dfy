/** limitset.py, merge_dicts: one dictionary merged into another in place. */
module MergeDicts {
  import opened DictHeap
  import opened Json
  import opened Overlays

  /** How far a merge has come: the keys in `rest` are still to be taken from b. */
  ghost predicate Merging(a: map<string, Value>, b: map<string, Value>, rest: set<string>, r: map<string, Value>)
  {
    && rest <= b.Keys
    && r.Keys == a.Keys + (b.Keys - rest)
    && (forall k | k in a && (k in rest || k !in b) :: r[k] == a[k])
    && (forall k | k in b && k !in rest :: r[k] == if k in a then Overlay(a[k], b[k]) else b[k])
  }

  lemma Merged(a: map<string, Value>, b: map<string, Value>, r: map<string, Value>)
    requires Merging(a, b, {}, r)
    ensures Dict(r) == Overlay(Dict(a), Dict(b))
  {
    assert r == Overlay(Dict(a), Dict(b)).members;
  }

  /** What merging a value under a key leaves there. */
  function OverlayUnder(vs: map<string, Value>, key: string, v: Value): Value
  {
    if key in vs then Overlay(vs[key], v) else v
  }

  lemma MergingStep(a: map<string, Value>, b: map<string, Value>, rest: set<string>, r: map<string, Value>, key: string)
    requires Merging(a, b, rest, r) && key in rest
    ensures Merging(a, b, rest - {key}, r[key := OverlayUnder(r, key, b[key])])
  {
  }

  ghost function RoomUnder(rooms: map<string, set<nat>>, key: string): set<nat>
  {
    if key in rooms then rooms[key] else {}
  }

  /** The room each child of a has by now: that of b's child is added when it is taken. */
  ghost function RoomsNow(roomsA: map<string, set<nat>>, roomsB: map<string, set<nat>>, rest: set<string>)
    : (rooms: map<string, set<nat>>)
    requires rest <= roomsB.Keys
  {
    map k | k in roomsA.Keys + (roomsB.Keys - rest) ::
      if k in rest || k !in roomsB then roomsA[k] else RoomUnder(roomsA, k) + roomsB[k]
  }

  lemma RoomsNowStep(roomsA: map<string, set<nat>>, roomsB: map<string, set<nat>>, rest: set<string>, key: string)
    requires rest <= roomsB.Keys && key in rest
    ensures var rooms := RoomsNow(roomsA, roomsB, rest);
            RoomsNow(roomsA, roomsB, rest - {key}) == rooms[key := RoomUnder(rooms, key) + roomsB[key]]
  {
    var rooms := RoomsNow(roomsA, roomsB, rest);
    assert RoomUnder(rooms, key) == RoomUnder(roomsA, key);
  }

  /** The dictionary a and its children have rooms, apart from those of b. */
  ghost predicate Separate(a: nat, roomsA: map<string, set<nat>>, roomsB: map<string, set<nat>>,
                           footA: set<nat>, footB: set<nat>)
  {
    && footA !! footB && a in footA
    && Apart(roomsA) && Apart(roomsB) && Outside({a}, roomsA)
    && (forall k | k in roomsA :: roomsA[k] <= footA)
    && (forall k | k in roomsB :: roomsB[k] <= footB)
  }

  lemma RoomsNowApart(a: nat, roomsA: map<string, set<nat>>, roomsB: map<string, set<nat>>,
                      footA: set<nat>, footB: set<nat>, rest: set<string>)
    requires Separate(a, roomsA, roomsB, footA, footB) && rest <= roomsB.Keys
    ensures var rooms := RoomsNow(roomsA, roomsB, rest);
            && Apart(rooms) && Outside({a}, rooms)
            && (forall k | k in rooms :: rooms[k] <= footA + footB)
  {
    var rooms := RoomsNow(roomsA, roomsB, rest);
    forall k, l | k in rooms && l in rooms && k != l ensures rooms[k] !! rooms[l] {
      RoomNowParts(a, roomsA, roomsB, footA, footB, rest, k);
      RoomNowParts(a, roomsA, roomsB, footA, footB, rest, l);
    }
    forall k | k in rooms ensures rooms[k] !! {a} && rooms[k] <= footA + footB {
      RoomNowParts(a, roomsA, roomsB, footA, footB, rest, k);
    }
  }

  lemma RoomNowParts(a: nat, roomsA: map<string, set<nat>>, roomsB: map<string, set<nat>>,
                     footA: set<nat>, footB: set<nat>, rest: set<string>, k: string)
    requires Separate(a, roomsA, roomsB, footA, footB) && rest <= roomsB.Keys
    requires k in RoomsNow(roomsA, roomsB, rest)
    ensures RoomsNow(roomsA, roomsB, rest)[k] <= RoomUnder(roomsA, k) + RoomUnder(roomsB, k)
    ensures RoomUnder(roomsA, k) <= footA - {a} && RoomUnder(roomsB, k) <= footB
  {
  }

  lemma RestOutside(a: nat, roomsA: map<string, set<nat>>, roomsB: map<string, set<nat>>,
                    footA: set<nat>, footB: set<nat>, rest: set<string>, key: string)
    requires Separate(a, roomsA, roomsB, footA, footB) && rest <= roomsB.Keys && key in rest
    ensures var rooms := RoomsNow(roomsA, roomsB, rest);
            Outside(roomsB[key], rooms) && RoomUnder(rooms, key) <= footA && roomsB[key] !! footA
  {
  }

  /** The heap while a merge goes on: only dictionaries of a have changed, and it holds vs by now. */
  ghost predicate Midway(m: Nodes, n: Nodes, a: nat, vs: map<string, Value>,
                         rooms: map<string, set<nat>>, footA: set<nat>)
  {
    && n.Keys == m.Keys && Agree(m, n, m.Keys - footA)
    && a in n && Kids(n, n[a], vs, rooms)
  }

  /**
   * merge_dicts itself, taking the keys of b in any order. The dictionary a is changed in
   * place, and dictionaries of b may become part of it; no other dictionary changes. Only
   * if b has nothing to add does a still stand for what it did.
   */
  method Merge(m: Nodes, a: nat, b: nat, ghost va: map<string, Value>, ghost vb: map<string, Value>) returns (n: Nodes)
    requires Is(m, Node(a), Dict(va)) && Tree(m, Node(a), Dict(va))
    requires Is(m, Node(b), Dict(vb)) && Tree(m, Node(b), Dict(vb))
    requires Foot(m, Node(a), Dict(va)) !! Foot(m, Node(b), Dict(vb))
    ensures n.Keys == m.Keys && Agree(m, n, m.Keys - Foot(m, Node(a), Dict(va)))
    ensures Kid(n, Node(a), Overlay(Dict(va), Dict(vb)), Foot(m, Node(a), Dict(va)) + Foot(m, Node(b), Dict(vb)))
    ensures Is(n, Node(a), Dict(va)) <==> Absorbs(Dict(va), Dict(vb))
    decreases Dict(vb), 0
  {
    ghost var footA, footB := Foot(m, Node(a), Dict(va)), Foot(m, Node(b), Dict(vb));
    ghost var roomsA, roomsB := RoomsOf(m, a, va), RoomsOf(m, b, vb);
    MergeStarts(m, a, b, va, vb);
    n := m;
    ghost var vs := va;
    var rest := m[b].Keys;
    while rest != {}
      invariant Merging(va, vb, rest, vs)
      invariant Midway(m, n, a, vs, RoomsNow(roomsA, roomsB, rest), footA)
    {
      var key :| key in rest;
      ghost var before, rooms := n, RoomsNow(roomsA, roomsB, rest);
      RoomsNowApart(a, roomsA, roomsB, footA, footB, rest);
      RestOutside(a, roomsA, roomsB, footA, footB, rest, key);
      KidUntouched(m, n, m[b][key], vb[key], roomsB[key], footA);
      n := MergeKey(n, a, key, n[b][key], vs, rooms, vb[key], roomsB[key]);
      MergingStep(va, vb, rest, vs, key);
      RoomsNowStep(roomsA, roomsB, rest, key);
      AgreeStep(m, before, n, footA, a, RoomUnder(rooms, key));
      vs := vs[key := OverlayUnder(vs, key, vb[key])];
      rest := rest - {key};
    }
    Merged(va, vb, vs);
    RoomsNowApart(a, roomsA, roomsB, footA, footB, {});
    Rooted(n, a, vs, RoomsNow(roomsA, roomsB, {}), footA + footB);
    UncopiedSourceKept(n, a, va, vb);
  }

  lemma MergeStarts(m: Nodes, a: nat, b: nat, va: map<string, Value>, vb: map<string, Value>)
    requires Is(m, Node(a), Dict(va)) && Tree(m, Node(a), Dict(va))
    requires Is(m, Node(b), Dict(vb)) && Tree(m, Node(b), Dict(vb))
    requires Foot(m, Node(a), Dict(va)) !! Foot(m, Node(b), Dict(vb))
    ensures b in m
    ensures var footA, footB := Foot(m, Node(a), Dict(va)), Foot(m, Node(b), Dict(vb));
            var roomsA, roomsB := RoomsOf(m, a, va), RoomsOf(m, b, vb);
            && Kids(m, m[b], vb, roomsB) && b in footB
            && Separate(a, roomsA, roomsB, footA, footB)
            && Midway(m, m, a, va, RoomsNow(roomsA, roomsB, vb.Keys), footA)
  {
    var roomsA, roomsB := RoomsOf(m, a, va), RoomsOf(m, b, vb);
    RoomsAreApart(m, a, va);
    RoomsAreApart(m, b, vb);
    FootExists(m, Node(b), Dict(vb));
    assert RoomsNow(roomsA, roomsB, vb.Keys) == roomsA;
  }

  lemma AgreeStep(m: Nodes, before: Nodes, n: Nodes, footA: set<nat>, a: nat, room: set<nat>)
    requires before.Keys == m.Keys && Agree(m, before, m.Keys - footA)
    requires Agree(before, n, before.Keys - ({a} + room)) && a in footA && room <= footA
    ensures Agree(m, n, m.Keys - footA)
  {
  }

  /** One key of b: the body of that loop. Only a and what it held under the key may change. */
  method MergeKey(m: Nodes, a: nat, key: string, cell: Cell, ghost vs: map<string, Value>,
                  ghost rooms: map<string, set<nat>>, ghost v: Value, ghost room: set<nat>)
    returns (n: Nodes)
    requires a in m && Kids(m, m[a], vs, rooms) && Apart(rooms) && Outside({a}, rooms)
    requires Kid(m, cell, v, room) && Outside(room, rooms) && a !in room
    ensures n.Keys == m.Keys && Agree(m, n, m.Keys - ({a} + RoomUnder(rooms, key)))
    ensures Kids(n, n[a], vs[key := OverlayUnder(vs, key, v)], rooms[key := RoomUnder(rooms, key) + room])
    decreases v, 1
  {
    if key in m[a] && m[a][key].Node? && cell.Node? {
      BothDicts(m, a, key, cell, vs, rooms, v, room);
      n := Merge(m, m[a][key].r, cell.r, vs[key].members, v.members);
      AfterDicts(m, n, a, key, cell, vs, rooms, v, room);
    } else if key in m[a] && m[a][key].Leaf? && cell.Leaf? && PyEq(m[a][key].v, cell.v) {
      // same leaf value
      n := m;
      AfterSame(m, a, key, cell, vs, rooms, v, room);
    } else {
      n := m[a := m[a][key := cell]];
      AfterStore(m, n, a, key, cell, vs, rooms, v, room);
    }
  }

  lemma BothDicts(m: Nodes, a: nat, key: string, cell: Cell, vs: map<string, Value>,
                  rooms: map<string, set<nat>>, v: Value, room: set<nat>)
    requires a in m && Kids(m, m[a], vs, rooms) && Kid(m, cell, v, room) && Outside(room, rooms)
    requires key in m[a] && m[a][key].Node? && cell.Node?
    ensures key in vs && v.Dict? && vs[key].Dict? && v == Dict(v.members) && vs[key] == Dict(vs[key].members)
    ensures Kid(m, m[a][key], vs[key], rooms[key])
    ensures Foot(m, m[a][key], vs[key]) !! Foot(m, cell, v)
  {
    assert Kid(m, m[a][key], vs[key], rooms[key]);
    assert rooms[key] !! room;
  }

  /** The child under the key is right, and so are the others as nothing of theirs has changed. */
  lemma MergedUnder(m: Nodes, n: Nodes, a: nat, key: string, cell: Cell, vs: map<string, Value>,
                    rooms: map<string, set<nat>>, v: Value, room: set<nat>)
    requires a in m && Kids(m, m[a], vs, rooms) && Apart(rooms) && Outside({a}, rooms)
    requires n.Keys == m.Keys && Agree(m, n, m.Keys - ({a} + RoomUnder(rooms, key)))
    requires a in n && n[a] == m[a][key := cell] && Kid(n, cell, v, RoomUnder(rooms, key) + room)
    ensures Kids(n, n[a], vs[key := v], rooms[key := RoomUnder(rooms, key) + room])
  {
    forall k | k in vs && k != key ensures Kid(n, n[a][k], vs[k], rooms[k]) {
      KidUntouched(m, n, m[a][k], vs[k], rooms[k], {a} + RoomUnder(rooms, key));
    }
  }

  /** The key after merging the dictionaries under it. */
  lemma AfterDicts(m: Nodes, n: Nodes, a: nat, key: string, cell: Cell, vs: map<string, Value>,
                   rooms: map<string, set<nat>>, v: Value, room: set<nat>)
    requires a in m && Kids(m, m[a], vs, rooms) && Apart(rooms) && Outside({a}, rooms)
    requires Kid(m, cell, v, room) && Outside(room, rooms)
    requires key in m[a] && m[a][key].Node? && cell.Node?
    requires n.Keys == m.Keys && Agree(m, n, m.Keys - Foot(m, m[a][key], vs[key]))
    requires Kid(n, m[a][key], Overlay(vs[key], v), Foot(m, m[a][key], vs[key]) + Foot(m, cell, v))
    ensures n.Keys == m.Keys && Agree(m, n, m.Keys - ({a} + RoomUnder(rooms, key)))
    ensures Kids(n, n[a], vs[key := OverlayUnder(vs, key, v)], rooms[key := RoomUnder(rooms, key) + room])
  {
    assert Kid(m, m[a][key], vs[key], rooms[key]);
    assert a !in rooms[key];
    MergedUnder(m, n, a, key, m[a][key], vs, rooms, Overlay(vs[key], v), room);
  }

  /** The key when both sides hold the same leaf. */
  lemma AfterSame(m: Nodes, a: nat, key: string, cell: Cell, vs: map<string, Value>,
                  rooms: map<string, set<nat>>, v: Value, room: set<nat>)
    requires a in m && Kids(m, m[a], vs, rooms) && Apart(rooms) && Outside({a}, rooms)
    requires Kid(m, cell, v, room)
    requires key in m[a] && m[a][key].Leaf? && cell.Leaf? && PyEq(m[a][key].v, cell.v)
    ensures Kids(m, m[a], vs[key := OverlayUnder(vs, key, v)], rooms[key := RoomUnder(rooms, key) + room])
  {
    assert Kid(m, m[a][key], vs[key], rooms[key]);
    assert m[a] == m[a][key := m[a][key]];
    MergedUnder(m, m, a, key, m[a][key], vs, rooms, vs[key], room);
  }

  /** The key after storing b's cell under it. */
  lemma AfterStore(m: Nodes, n: Nodes, a: nat, key: string, cell: Cell, vs: map<string, Value>,
                   rooms: map<string, set<nat>>, v: Value, room: set<nat>)
    requires a in m && Kids(m, m[a], vs, rooms) && Apart(rooms) && Outside({a}, rooms)
    requires Kid(m, cell, v, room) && Outside(room, rooms) && a !in room
    requires !(key in m[a] && m[a][key].Node? && cell.Node?)
    requires !(key in m[a] && m[a][key].Leaf? && cell.Leaf? && PyEq(m[a][key].v, cell.v))
    requires n == m[a := m[a][key := cell]]
    ensures n.Keys == m.Keys && Agree(m, n, m.Keys - ({a} + RoomUnder(rooms, key)))
    ensures Kids(n, n[a], vs[key := OverlayUnder(vs, key, v)], rooms[key := RoomUnder(rooms, key) + room])
  {
    Overwrites(m, a, key, cell, vs, rooms, v, room);
    KidUntouched(m, n, cell, v, room, {a});
    MergedUnder(m, n, a, key, cell, vs, rooms, v, room);
  }

  lemma Overwrites(m: Nodes, a: nat, key: string, cell: Cell, vs: map<string, Value>,
                   rooms: map<string, set<nat>>, v: Value, room: set<nat>)
    requires a in m && Kids(m, m[a], vs, rooms) && Kid(m, cell, v, room)
    requires !(key in m[a] && m[a][key].Node? && cell.Node?)
    requires !(key in m[a] && m[a][key].Leaf? && cell.Leaf? && PyEq(m[a][key].v, cell.v))
    ensures OverlayUnder(vs, key, v) == v
  {
    if key in vs {
      assert Kid(m, m[a][key], vs[key], rooms[key]);
    }
  }

  // ----- cloning

  /**
   * The data of a clone: a copy of its source's data with a copy of its own merged into it.
   * It is all new, and no dictionary there was before has changed.
   */
  method CloneData(h: Heap, source: nat, own: nat, ghost vs: map<string, Value>, ghost vo: map<string, Value>)
    returns (g: Heap, data: nat)
    requires h.Valid()
    requires Is(h.nodes, Node(source), Dict(vs)) && Tree(h.nodes, Node(source), Dict(vs))
    requires Is(h.nodes, Node(own), Dict(vo)) && Tree(h.nodes, Node(own), Dict(vo))
    ensures Extends(h, g)
    ensures Kid(g.nodes, Node(data), Overlay(Dict(vs), Dict(vo)), g.nodes.Keys - h.nodes.Keys)
  {
    var f, first := DeepCopy(h, Node(source), Dict(vs));
    ExtendsKeeps(h, f, Node(own), Dict(vo));
    var e, second := DeepCopy(f, Node(own), Dict(vo));
    KidKept(f.nodes, e.nodes, first, Dict(vs), f.nodes.Keys - h.nodes.Keys);
    var nodes := Merge(e.nodes, first.r, second.r, vs, vo);
    g := Heap(nodes, e.next);
    data := first.r;
  }

  /** Merging straight into the source would alter it, save where the clone has nothing to add. */
  lemma UncopiedSourceKept(n: Nodes, source: nat, vs: map<string, Value>, vo: map<string, Value>)
    requires Is(n, Node(source), Overlay(Dict(vs), Dict(vo)))  // as Merge leaves it
    ensures Is(n, Node(source), Dict(vs)) <==> Absorbs(Dict(vs), Dict(vo))
  {
    NothingAdded(Dict(vs), Dict(vo));
    if Is(n, Node(source), Dict(vs)) {
      IsOneValue(n, Node(source), Dict(vs), Overlay(Dict(vs), Dict(vo)));
    }
  }

  /** For one, a limit that always passes, once its clone says that it never does. */
  lemma UncopiedSourceAltered(n: Nodes, source: nat)
    requires Is(n, Node(source), Overlay(Dict(map["pass" := Bool(true)]), Dict(map["pass" := Bool(false)])))
    ensures !Is(n, Node(source), Dict(map["pass" := Bool(true)]))
  {
    var vs, vo := map["pass" := Bool(true)], map["pass" := Bool(false)];
    UncopiedSourceKept(n, source, vs, vo);
    assert "pass" in Dict(vo).members && !Absorbs(Dict(vs).members["pass"], Dict(vo).members["pass"]);
  }
}
