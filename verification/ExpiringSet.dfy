/**
 * expiringset.py: a keyed cache whose objects are made on demand, kept until an
 * expiry time and destroyed once; purging early is shown to be unobservable.
 */
module ExpiringSet {
  import opened Wrappers

  /** An object made by the creator; the serial number tells one creation from another. */
  datatype Object = Object(serial: nat, key: string, data: string)

  datatype Record = Record(item: Object, expires: int, cacheTime: Option<int>)

  /** The set, and everything the creator has made and the destroyer has been given. */
  datatype State = State(items: map<string, Record>, nextPurge: Option<int>,
                         created: seq<Object>, destroyed: multiset<Object>)

  // ----- the operations on values

  function ExpireStep(s: State, key: string): State
    requires key in s.items
  {
    s.(items := s.items - {key}, destroyed := s.destroyed + multiset{s.items[key].item})
  }

  /** expire(): nothing changes when the key is missing, whether or not that raises. */
  function ForceStep(s: State, key: string): State
  {
    if key in s.items then ExpireStep(s, key) else s
  }

  /** The keys whose recorded expiry lies before `now`. */
  function Expired(items: map<string, Record>, now: int): set<string>
  {
    set k | k in items && items[k].expires < now
  }

  function ItemsOf(items: map<string, Record>, keys: set<string>): set<Object>
    requires keys <= items.Keys
  {
    set k | k in keys :: items[k].item
  }

  predicate TooEarly(s: State, t: int)
  {
    s.nextPurge.Some? && t < s.nextPurge.value
  }

  /** purge(): the clock is read at t1 for the schedule and at t2 for the expiries. */
  function PurgeStep(s: State, interval: Option<int>, force: bool, t1: int, t2: int): State
  {
    if TooEarly(s, t1) && !force then s
    else
      var gone := Expired(s.items, t2);
      State(s.items - gone,
            if interval.Some? then Some(t2 + interval.value) else s.nextPurge,
            s.created,
            s.destroyed + multiset(ItemsOf(s.items, gone)))
  }

  /** Drop the record of a key if its expiry lies before `now`. */
  function DropStale(s: State, key: string, now: int): State
  {
    if key in s.items && s.items[key].expires < now then ExpireStep(s, key) else s
  }

  function Expiry(t: int, cacheTime: Option<int>): int
  {
    t + if cacheTime.Some? then cacheTime.value else 0
  }

  /** The object recorded for a key, made now if there is none. */
  function Supplied(s: State, key: string, data: string): Object
  {
    if key in s.items then s.items[key].item else Object(|s.created|, key, data)
  }

  /** Record an object for a key, with its new expiry. */
  function SupplyStep(s: State, key: string, data: string, expires: int, cacheTime: Option<int>): State
  {
    var item := Supplied(s, key, data);
    s.(items := s.items[key := Record(item, expires, cacheTime)],
       created := if key in s.items then s.created else s.created + [item])
  }

  /** The part of a fetch after its purge: the clock is read at t3 and at t4. */
  function LookupStep(s: State, key: string, data: string, cacheTime: Option<int>, t3: int, t4: int): State
  {
    SupplyStep(DropStale(s, key, t3), key, data, Expiry(t4, cacheTime), cacheTime)
  }

  function LookupResult(s: State, key: string, data: string, t3: int): Object
  {
    Supplied(DropStale(s, key, t3), key, data)
  }

  function FetchStep(s: State, interval: Option<int>, key: string, data: string, cacheTime: Option<int>,
                     t1: int, t2: int, t3: int, t4: int): State
  {
    LookupStep(PurgeStep(s, interval, false, t1, t2), key, data, cacheTime, t3, t4)
  }

  function FetchResult(s: State, interval: Option<int>, key: string, data: string, t1: int, t2: int, t3: int): Object
  {
    LookupResult(PurgeStep(s, interval, false, t1, t2), key, data, t3)
  }

  function Fresh(interval: Option<int>, now: int): State
  {
    State(map[], if interval.Some? then Some(now + interval.value) else None, [], multiset{})
  }

  // ----- the class

  /** Every record holds an object made for its own key. */
  ghost predicate Keyed(items: map<string, Record>)
  {
    forall k | k in items :: items[k].item.key == k
  }

  /** The state once some of the keys have been expired. */
  ghost function Without(s: State, gone: set<string>): State
    requires gone <= s.items.Keys
  {
    s.(items := s.items - gone, destroyed := s.destroyed + multiset(ItemsOf(s.items, gone)))
  }

  lemma WithoutStep(s: State, gone: set<string>, key: string)
    requires gone <= s.items.Keys && key in s.items && key !in gone
    requires Keyed(s.items)
    ensures ExpireStep(Without(s, gone), key) == Without(s, gone + {key})
  {
    var item := s.items[key].item;
    assert ItemsOf(s.items, gone + {key}) == ItemsOf(s.items, gone) + {item};
    assert item !in ItemsOf(s.items, gone);
    assert s.items - gone - {key} == s.items - (gone + {key});
  }

  class Set {
    const purgeInterval: Option<int>
    var items: map<string, Record>
    var nextPurge: Option<int>
    ghost var created: seq<Object>
    ghost var destroyed: multiset<Object>
    var made: nat

    ghost function View(): State
      reads this
    {
      State(items, nextPurge, created, destroyed)
    }

    ghost predicate Valid()
      reads this
    {
      made == |created| && Keyed(items)
    }

    constructor (purgeInterval: Option<int>, now: int)
      ensures Valid() && this.purgeInterval == purgeInterval
      ensures View() == Fresh(purgeInterval, now)
    {
      this.purgeInterval := purgeInterval;
      items := map[];
      nextPurge := if purgeInterval.Some? then Some(now + purgeInterval.value) else None;
      created, destroyed, made := [], multiset{}, 0;
    }

    method Destroy(item: Object)
      modifies this`destroyed
      ensures destroyed == old(destroyed) + multiset{item}
    {
      destroyed := destroyed + multiset{item};
    }

    /** Returns false where the original raises KeyError. */
    method Expire(key: string, missingOk: bool) returns (ok: bool)
      requires Valid()
      modifies this`items, this`destroyed
      ensures Valid()
      ensures ok == (key in old(items) || missingOk)
      ensures View() == ForceStep(old(View()), key)
    {
      if key in items || !missingOk {
        if key !in items {
          return false;
        }
        Destroy(items[key].item);
        items := items - {key};
      }
      return true;
    }

    method Purge(force: bool, t1: int, t2: int)
      requires Valid()
      modifies this`items, this`destroyed, this`nextPurge
      ensures Valid()
      ensures View() == PurgeStep(old(View()), purgeInterval, force, t1, t2)
    {
      if nextPurge.Some? && t1 < nextPurge.value && !force {
        return;
      }
      var now := t2;
      var toExpire := ExpiredKeys(now);
      ExpireAll(toExpire, Expired(items, now));
      if purgeInterval.Some? {
        nextPurge := Some(now + purgeInterval.value);
      }
    }

    /** The second stage of a purge: the listed keys are expired one after another. */
    method ExpireAll(toExpire: seq<string>, ghost keys: set<string>)
      requires Valid() && keys <= items.Keys
      requires Lists(toExpire, keys)
      modifies this`items, this`destroyed
      ensures Valid() && View() == Without(old(View()), keys)
    {
      ghost var start := View();
      ghost var gone: set<string> := {};
      var i := 0;
      while i < |toExpire|
        invariant i <= |toExpire| && gone <= keys
        invariant Lists(toExpire[i..], keys - gone)
        invariant Valid() && View() == Without(start, gone)
      {
        var key := toExpire[i];
        ListsNext(toExpire, i, keys, gone);
        WithoutStep(start, gone, key);
        gone := gone + {key};
        var ok := Expire(key, false);
        i := i + 1;
      }
      assert gone == keys by {
        assert keys - gone == {};
      }
    }

    /** The first stage of a purge: the keys to expire, each once. */
    method ExpiredKeys(now: int) returns (toExpire: seq<string>)
      ensures Lists(toExpire, Expired(items, now))
    {
      toExpire := [];
      var rest := items.Keys;
      while rest != {}
        invariant rest <= items.Keys
        invariant Lists(toExpire, Expired(items, now) - rest)
      {
        var key :| key in rest;
        if items[key].expires < now {
          toExpire := toExpire + [key];
        }
        rest := rest - {key};
      }
    }

    method Fetch(key: string, data: string, cacheTime: Option<int>, t1: int, t2: int, t3: int, t4: int)
      returns (item: Object)
      requires Valid()
      modifies this
      ensures Valid()
      ensures View() == FetchStep(old(View()), purgeInterval, key, data, cacheTime, t1, t2, t3, t4)
      ensures item == FetchResult(old(View()), purgeInterval, key, data, t1, t2, t3)
    {
      Purge(false, t1, t2);
      if key in items && items[key].expires < t3 {
        var ok := Expire(key, false);
      }
      item := Supply(key, data, Expiry(t4, cacheTime), cacheTime);
    }

    method Supply(key: string, data: string, expires: int, cacheTime: Option<int>) returns (item: Object)
      requires Valid()
      modifies this`items, this`created, this`made
      ensures Valid()
      ensures View() == SupplyStep(old(View()), key, data, expires, cacheTime)
      ensures item == Supplied(old(View()), key, data)
    {
      if key !in items {
        item := Object(made, key, data);
        created, made := created + [item], made + 1;
      } else {
        item := items[key].item;
      }
      items := items[key := Record(item, expires, cacheTime)];
    }
  }

  ghost predicate Lists(list: seq<string>, keys: set<string>)
  {
    && (forall i, j :: 0 <= i < j < |list| ==> list[i] != list[j])
    && (forall k :: k in list <==> k in keys)
  }

  lemma ListsRest(list: seq<string>, keys: set<string>)
    requires Lists(list, keys) && |list| > 0
    ensures list[0] in keys
    ensures Lists(list[1..], keys - {list[0]})
  {
  }

  lemma ListsNext(list: seq<string>, i: nat, keys: set<string>, gone: set<string>)
    requires i < |list| && Lists(list[i..], keys - gone)
    ensures list[i] in keys && list[i] !in gone
    ensures Lists(list[i + 1..], keys - (gone + {list[i]}))
  {
    ListsRest(list[i..], keys - gone);
    assert list[i..][1..] == list[i + 1..];
    assert keys - gone - {list[i]} == keys - (gone + {list[i]});
  }

  // ----- conservation

  predicate Made(s: State, o: Object)
  {
    o.serial < |s.created| && s.created[o.serial] == o
  }

  predicate Live(s: State, o: Object)
  {
    o.key in s.items && s.items[o.key].item == o
  }

  /** Every object created is either live or destroyed, never both, and destroyed at most once. */
  ghost predicate Conserved(s: State)
  {
    && Keyed(s.items)
    && (forall i :: 0 <= i < |s.created| ==> s.created[i].serial == i)
    && (forall k | k in s.items :: Made(s, s.items[k].item))
    && (forall i :: 0 <= i < |s.created| ==> s.destroyed[s.created[i]] == if Live(s, s.created[i]) then 0 else 1)
    && (forall o | o in s.destroyed :: Made(s, o))
  }

  lemma WithoutConserves(s: State, gone: set<string>)
    requires Conserved(s) && gone <= s.items.Keys
    ensures Conserved(Without(s, gone))
  {
    var t := Without(s, gone);
    var items := ItemsOf(s.items, gone);
    forall i | 0 <= i < |s.created|
      ensures t.destroyed[t.created[i]] == if Live(t, t.created[i]) then 0 else 1
    {
      var o := s.created[i];
      assert o in items <==> Live(s, o) && o.key in gone;
    }
    forall o | o in t.destroyed ensures Made(t, o) {
      assert o in s.destroyed || o in items;
    }
  }

  lemma ForceConserves(s: State, key: string)
    requires Conserved(s)
    ensures Conserved(ForceStep(s, key))
  {
    if key in s.items {
      WithoutConserves(s, {key});
      assert ItemsOf(s.items, {key}) == {s.items[key].item};
    }
  }

  lemma PurgeConserves(s: State, interval: Option<int>, force: bool, t1: int, t2: int)
    requires Conserved(s)
    ensures Conserved(PurgeStep(s, interval, force, t1, t2))
  {
    WithoutConserves(s, Expired(s.items, t2));
  }

  lemma ReuseConserves(s: State, key: string, data: string, expires: int, cacheTime: Option<int>)
    requires Conserved(s) && key in s.items
    ensures Conserved(SupplyStep(s, key, data, expires, cacheTime))
  {
    var t := SupplyStep(s, key, data, expires, cacheTime);
    assert forall o :: Live(t, o) <==> Live(s, o);
  }

  lemma CreateConserves(s: State, key: string, data: string, expires: int, cacheTime: Option<int>)
    requires Conserved(s) && key !in s.items
    ensures Conserved(SupplyStep(s, key, data, expires, cacheTime))
  {
    var item := Object(|s.created|, key, data);
    var t := SupplyStep(s, key, data, expires, cacheTime);
    assert !Made(s, item);
    forall i | 0 <= i < |s.created| ensures Live(t, s.created[i]) <==> Live(s, s.created[i]) {
    }
  }

  lemma LookupConserves(s: State, key: string, data: string, cacheTime: Option<int>, t3: int, t4: int)
    requires Conserved(s)
    ensures Conserved(LookupStep(s, key, data, cacheTime, t3, t4))
  {
    var d := DropStale(s, key, t3);
    ForceConserves(s, key);
    if key in d.items {
      ReuseConserves(d, key, data, Expiry(t4, cacheTime), cacheTime);
    } else {
      CreateConserves(d, key, data, Expiry(t4, cacheTime), cacheTime);
    }
  }

  // ----- runs

  /** A call together with the clock values it reads; expire() reads none. */
  datatype Call =
    | Fetch(key: string, data: string, cacheTime: Option<int>, t1: int, t2: int, t3: int, t4: int)
    | Purge(force: bool, t1: int, t2: int)
    | Expire(key: string)

  /** The clock does not run backwards, from `now` on. */
  predicate Timely(c: Call, now: int)
  {
    match c
    case Fetch(_, _, _, t1, t2, t3, t4) => now <= t1 <= t2 <= t3 <= t4
    case Purge(_, t1, t2) => now <= t1 <= t2
    case Expire(_) => true
  }

  function After(c: Call, now: int): int
  {
    match c
    case Fetch(_, _, _, _, _, _, t4) => t4
    case Purge(_, _, t2) => t2
    case Expire(_) => now
  }

  function Do(s: State, interval: Option<int>, c: Call): State
  {
    match c
    case Fetch(key, data, cacheTime, t1, t2, t3, t4) => FetchStep(s, interval, key, data, cacheTime, t1, t2, t3, t4)
    case Purge(force, t1, t2) => PurgeStep(s, interval, force, t1, t2)
    case Expire(key) => ForceStep(s, key)
  }

  /** The object a call hands back, if it is a fetch. */
  function Answer(s: State, interval: Option<int>, c: Call): Option<Object>
  {
    match c
    case Fetch(key, data, _, t1, t2, t3, _) => Some(FetchResult(s, interval, key, data, t1, t2, t3))
    case _ => None
  }

  function Run(s: State, interval: Option<int>, calls: seq<Call>): State
    decreases |calls|
  {
    if calls == [] then s else Run(Do(s, interval, calls[0]), interval, calls[1..])
  }

  predicate AllTimely(calls: seq<Call>, now: int)
    decreases |calls|
  {
    calls == [] || (Timely(calls[0], now) && AllTimely(calls[1..], After(calls[0], now)))
  }

  lemma DoConserves(s: State, interval: Option<int>, c: Call)
    requires Conserved(s)
    ensures Conserved(Do(s, interval, c))
  {
    match c
    case Fetch(key, data, cacheTime, t1, t2, t3, t4) =>
      PurgeConserves(s, interval, false, t1, t2);
      LookupConserves(PurgeStep(s, interval, false, t1, t2), key, data, cacheTime, t3, t4);
    case Purge(force, t1, t2) => PurgeConserves(s, interval, force, t1, t2);
    case Expire(key) => ForceConserves(s, key);
  }

  /** After any calls, at any times, the objects made are those live and those destroyed, without overlap. */
  lemma {:induction false} RunConserves(s: State, interval: Option<int>, calls: seq<Call>)
    requires Conserved(s)
    ensures Conserved(Run(s, interval, calls))
    decreases |calls|
  {
    if calls != [] {
      DoConserves(s, interval, calls[0]);
      RunConserves(Do(s, interval, calls[0]), interval, calls[1..]);
    }
  }

  /** A fetch returns an object made for its key that is live afterwards, its expiry pushed back. */
  lemma FetchReturnsLive(s: State, interval: Option<int>, key: string, data: string, cacheTime: Option<int>,
                         t1: int, t2: int, t3: int, t4: int)
    requires Conserved(s)
    ensures var o := FetchResult(s, interval, key, data, t1, t2, t3);
            var t := FetchStep(s, interval, key, data, cacheTime, t1, t2, t3, t4);
            && o.key == key && Made(t, o) && Live(t, o) && o !in t.destroyed
            && t.items[key].expires == Expiry(t4, cacheTime)
  {
    DoConserves(s, interval, Fetch(key, data, cacheTime, t1, t2, t3, t4));
    PurgeConserves(s, interval, false, t1, t2);
    var o := FetchResult(s, interval, key, data, t1, t2, t3);
    var t := FetchStep(s, interval, key, data, cacheTime, t1, t2, t3, t4);
    assert Live(t, o) && Made(t, o);
    assert t.destroyed[t.created[o.serial]] == 0;
  }

  /** It is an existing one exactly when the key's recorded expiry has not passed at the lookup. */
  lemma FetchReuses(s: State, interval: Option<int>, key: string, data: string, t1: int, t2: int, t3: int)
    requires Conserved(s) && t2 <= t3
    ensures var o := FetchResult(s, interval, key, data, t1, t2, t3);
            && (Made(s, o) <==> key in s.items && t3 <= s.items[key].expires)
            && (Made(s, o) ==> o == s.items[key].item)
            && (!Made(s, o) ==> o == Object(|s.created|, key, data))  // made now, from this very data
  {
  }

  /** Hence how long a fetched object answers for its key: until its cache time is over, the last instant included. */
  lemma FetchAgain(s: State, interval: Option<int>, key: string, cacheTime: Option<int>, first: string, second: string,
                   t1: int, t2: int, t3: int, t4: int, u1: int, u2: int, u3: int)
    requires Conserved(s) && t4 <= u1 <= u2 <= u3
    ensures var t := FetchStep(s, interval, key, first, cacheTime, t1, t2, t3, t4);
            var again := FetchResult(t, interval, key, second, u1, u2, u3);
            again == FetchResult(s, interval, key, first, t1, t2, t3) <==>
              u3 - t4 <= if cacheTime.Some? then cacheTime.value else 0
  {
    var t := FetchStep(s, interval, key, first, cacheTime, t1, t2, t3, t4);
    FetchReturnsLive(s, interval, key, first, cacheTime, t1, t2, t3, t4);
    DoConserves(s, interval, Fetch(key, first, cacheTime, t1, t2, t3, t4));
    FetchReuses(t, interval, key, second, u1, u2, u3);
  }

  /** After expire() the key has no record and what it held is destroyed; nothing else is. */
  lemma ExpireRemoves(s: State, key: string)
    requires Conserved(s)
    ensures var t := ForceStep(s, key);
            && key !in t.items
            && (forall k | k != key :: (k in t.items <==> k in s.items) && (k in t.items ==> t.items[k] == s.items[k]))
            && t.created == s.created && t.nextPurge == s.nextPurge
            && forall o :: o in t.destroyed <==> o in s.destroyed || (Live(s, o) && o.key == key)
  {
    if key in s.items {
      assert s.items[key].item.key == key;
    }
  }

  /** A purge that is made leaves exactly the records with an expiry not before its clock, as they were. */
  lemma PurgeLeavesCurrent(s: State, interval: Option<int>, force: bool, t1: int, t2: int, key: string)
    requires force || s.nextPurge.None? || s.nextPurge.value <= t1
    ensures var t := PurgeStep(s, interval, force, t1, t2);
            && (key in t.items <==> key in s.items && t2 <= s.items[key].expires)
            && (key in t.items ==> t.items[key] == s.items[key])
            && t.nextPurge == if interval.Some? then Some(t2 + interval.value) else s.nextPurge
  {
  }

  /** The first purge of a new set is due when its interval has passed since it was made. */
  lemma FirstPurge(empty: State, interval: int, now: int, calls: seq<Call>, t1: int, t2: int)
    requires empty == Fresh(Some(interval), now)
    requires forall i :: 0 <= i < |calls| ==> calls[i].Expire? || (calls[i].Fetch? && calls[i].t1 < now + interval)
    ensures var s := Run(empty, Some(interval), calls);
            && s.nextPurge == Some(now + interval)
            && (t1 < now + interval ==> PurgeStep(s, Some(interval), false, t1, t2) == s)
            && (t1 >= now + interval ==> PurgeStep(s, Some(interval), false, t1, t2).nextPurge == Some(t2 + interval))
  {
    NothingPurged(empty, interval, now + interval, calls);
    PurgesWhenDue(Run(empty, Some(interval), calls), interval, now + interval, t1, t2);
  }

  lemma PurgesWhenDue(s: State, interval: int, due: int, t1: int, t2: int)
    requires s.nextPurge == Some(due)
    ensures t1 < due ==> PurgeStep(s, Some(interval), false, t1, t2) == s
    ensures t1 >= due ==> PurgeStep(s, Some(interval), false, t1, t2).nextPurge == Some(t2 + interval)
  {
  }

  lemma {:induction false} NothingPurged(s: State, interval: int, due: int, calls: seq<Call>)
    requires s.nextPurge == Some(due)
    requires forall i :: 0 <= i < |calls| ==> calls[i].Expire? || (calls[i].Fetch? && calls[i].t1 < due)
    ensures Run(s, Some(interval), calls).nextPurge == Some(due)
    decreases |calls|
  {
    if calls != [] {
      assert forall i :: 0 <= i < |calls| - 1 ==> calls[1..][i] == calls[i + 1];
      NothingPurged(Do(s, Some(interval), calls[0]), interval, due, calls[1..]);
    }
  }

  /** With an interval, a purge that is made keeps every unforced one from happening until the interval has passed. */
  lemma PurgeWaits(s: State, interval: int, force: bool, t1: int, t2: int, u1: int, u2: int)
    requires force || !TooEarly(s, t1)
    ensures var t := PurgeStep(s, Some(interval), force, t1, t2);
            && (u1 < t2 + interval ==> PurgeStep(t, Some(interval), false, u1, u2) == t)
            && (u1 >= t2 + interval ==>
                  PurgeStep(t, Some(interval), false, u1, u2).items.Keys == t.items.Keys - Expired(t.items, u2))
  {
  }

  /** And a fetch before that leaves the records of all other keys alone, stale or not. */
  lemma FetchHeedsSchedule(s: State, interval: Option<int>, key: string, data: string, cacheTime: Option<int>,
                           t1: int, t2: int, t3: int, t4: int)
    requires TooEarly(s, t1)
    ensures var t := FetchStep(s, interval, key, data, cacheTime, t1, t2, t3, t4);
            && t.items.Keys == s.items.Keys + {key} && t.nextPurge == s.nextPurge
            && forall k | k in s.items && k != key :: t.items[k] == s.items[k]
  {
  }

  /** Without an interval every fetch purges: of the other keys exactly those not stale at t2 keep their records. */
  lemma NoIntervalPurges(now: int, calls: seq<Call>, key: string, data: string, cacheTime: Option<int>,
                         t1: int, t2: int, t3: int, t4: int)
    ensures var s := Run(Fresh(None, now), None, calls);
            var t := FetchStep(s, None, key, data, cacheTime, t1, t2, t3, t4);
            && t.items.Keys == s.items.Keys - Expired(s.items, t2) + {key}
            && forall k | k != key :: KeptIfCurrent(s, t, k, t2)
  {
    NeverScheduled(Fresh(None, now), calls);
    PurgedAsWell(Run(Fresh(None, now), None, calls), key, data, cacheTime, t1, t2, t3, t4);
  }

  /** The key has a record after exactly if it had one before, not stale at this time, and it is the same. */
  predicate KeptIfCurrent(s: State, t: State, k: string, now: int)
  {
    && (k in t.items <==> k in s.items && now <= s.items[k].expires)
    && (k in t.items ==> t.items[k] == s.items[k])
  }

  lemma PurgedAsWell(s: State, key: string, data: string, cacheTime: Option<int>, t1: int, t2: int, t3: int, t4: int)
    requires s.nextPurge.None?
    ensures var t := FetchStep(s, None, key, data, cacheTime, t1, t2, t3, t4);
            && t.items.Keys == s.items.Keys - Expired(s.items, t2) + {key}
            && forall k | k != key :: KeptIfCurrent(s, t, k, t2)
  {
  }

  lemma {:induction false} NeverScheduled(s: State, calls: seq<Call>)
    requires s.nextPurge.None?
    ensures Run(s, None, calls).nextPurge.None?
    decreases |calls|
  {
    if calls != [] {
      NeverScheduled(Do(s, None, calls[0]), calls[1..]);
    }
  }

  // ----- purge transparency

  /** A set that never purges: a record goes only when its key is looked up, or by expire(). */
  function LazyDo(s: State, c: Call): State
  {
    match c
    case Fetch(key, data, cacheTime, _, _, t3, t4) => LookupStep(s, key, data, cacheTime, t3, t4)
    case Purge(_, _, _) => s
    case Expire(key) => ForceStep(s, key)
  }

  function LazyAnswer(s: State, c: Call): Option<Object>
  {
    match c
    case Fetch(key, data, _, _, _, t3, _) => Some(LookupResult(s, key, data, t3))
    case _ => None
  }

  function LazyRun(s: State, calls: seq<Call>): State
    decreases |calls|
  {
    if calls == [] then s else LazyRun(LazyDo(s, calls[0]), calls[1..])
  }

  /** The clock once the calls have been made. */
  function Clock(calls: seq<Call>, now: int): int
    decreases |calls|
  {
    if calls == [] then now else Clock(calls[1..], After(calls[0], now))
  }

  lemma LazyDoConserves(s: State, c: Call)
    requires Conserved(s)
    ensures Conserved(LazyDo(s, c))
  {
    match c
    case Fetch(key, data, cacheTime, _, _, t3, t4) => LookupConserves(s, key, data, cacheTime, t3, t4);
    case Purge(_, _, _) =>
    case Expire(key) => ForceConserves(s, key);
  }

  lemma {:induction false} LazyRunConserves(s: State, calls: seq<Call>)
    requires Conserved(s)
    ensures Conserved(LazyRun(s, calls))
    decreases |calls|
  {
    if calls != [] {
      LazyDoConserves(s, calls[0]);
      LazyRunConserves(LazyDo(s, calls[0]), calls[1..]);
    }
  }

  /** The answers of the fetches of a run, in order. */
  function Answers(s: State, interval: Option<int>, calls: seq<Call>): seq<Option<Object>>
    decreases |calls|
  {
    if calls == [] then []
    else [Answer(s, interval, calls[0])] + Answers(Do(s, interval, calls[0]), interval, calls[1..])
  }

  function LazyAnswers(s: State, calls: seq<Call>): seq<Option<Object>>
    decreases |calls|
  {
    if calls == [] then [] else [LazyAnswer(s, calls[0])] + LazyAnswers(LazyDo(s, calls[0]), calls[1..])
  }

  /** The purged set holds the records of the lazy one, less some that are stale by now. */
  ghost predicate Purged(p: State, l: State, now: int)
  {
    && p.created == l.created
    && (forall k | k in p.items :: k in l.items && p.items[k] == l.items[k])
    && (forall k | k in l.items && k !in p.items :: l.items[k].expires < now)
  }

  lemma PurgeHidden(p: State, l: State, interval: Option<int>, force: bool, now: int, t1: int, t2: int)
    requires Purged(p, l, now) && now <= t2
    ensures Purged(PurgeStep(p, interval, force, t1, t2), l, t2)
  {
  }

  lemma LookupHidden(p: State, l: State, key: string, data: string, cacheTime: Option<int>, now: int, t3: int, t4: int)
    requires Purged(p, l, now) && now <= t3 <= t4
    ensures LookupResult(p, key, data, t3) == LookupResult(l, key, data, t3)
    ensures Purged(LookupStep(p, key, data, cacheTime, t3, t4), LookupStep(l, key, data, cacheTime, t3, t4), t4)
  {
    assert key in DropStale(p, key, t3).items <==> key in DropStale(l, key, t3).items;
  }

  lemma CallHidden(p: State, l: State, interval: Option<int>, c: Call, now: int)
    requires Purged(p, l, now) && Timely(c, now)
    ensures Answer(p, interval, c) == LazyAnswer(l, c)
    ensures Purged(Do(p, interval, c), LazyDo(l, c), After(c, now))
    // expire() may raise on the purged set alone, but only for a key that was stale
    ensures c.Expire? && c.key !in p.items && c.key in l.items ==> l.items[c.key].expires < now
  {
    match c
    case Fetch(key, data, cacheTime, t1, t2, t3, t4) =>
      PurgeHidden(p, l, interval, false, now, t1, t2);
      LookupHidden(PurgeStep(p, interval, false, t1, t2), l, key, data, cacheTime, t2, t3, t4);
    case Purge(force, t1, t2) => PurgeHidden(p, l, interval, force, now, t1, t2);
    case Expire(key) =>
  }

  /**
   * Purging cannot be observed: whatever the interval and whenever purges are made, every
   * fetch returns the very object it would return from a set that never purges.
   */
  lemma {:induction false} PurgeIsTransparent(p: State, l: State, interval: Option<int>, calls: seq<Call>, now: int)
    requires Purged(p, l, now) && AllTimely(calls, now)
    ensures Answers(p, interval, calls) == LazyAnswers(l, calls)
    ensures Purged(Run(p, interval, calls), LazyRun(l, calls), Clock(calls, now))
    decreases |calls|
  {
    if calls != [] {
      CallHidden(p, l, interval, calls[0], now);
      PurgeIsTransparent(Do(p, interval, calls[0]), LazyDo(l, calls[0]), interval, calls[1..], After(calls[0], now));
    }
  }

  /** Of two such states the purged one has destroyed more: the objects of stale records that the lazy one holds. */
  lemma DestroyedSooner(p: State, l: State, now: int)
    requires Purged(p, l, now) && Conserved(p) && Conserved(l)
    ensures l.destroyed <= p.destroyed
    ensures forall o | o in p.destroyed && o !in l.destroyed :: Live(l, o) && l.items[o.key].expires < now
  {
    forall o | o in p.destroyed && o !in l.destroyed ensures Live(l, o) && l.items[o.key].expires < now {
      assert l.created[o.serial] == o && p.created[o.serial] == o;
    }
  }

  /**
   * Purging destroys sooner, never something else: over a run from two such states, what the
   * lazy set has destroyed is destroyed in the other, whose further victims are stale.
   */
  lemma PurgeDestroysSooner(p: State, l: State, interval: Option<int>, calls: seq<Call>, now: int)
    requires Purged(p, l, now) && Conserved(p) && Conserved(l) && AllTimely(calls, now)
    ensures
      var q, m := Run(p, interval, calls), LazyRun(l, calls);
      && m.destroyed <= q.destroyed
      && forall o | o in q.destroyed && o !in m.destroyed :: Live(m, o) && m.items[o.key].expires < Clock(calls, now)
  {
    PurgeIsTransparent(p, l, interval, calls, now);
    RunConserves(p, interval, calls);
    LazyRunConserves(l, calls);
    DestroyedSooner(Run(p, interval, calls), LazyRun(l, calls), Clock(calls, now));
  }

  /** All of this holds of a new set with any interval beside a new set that never purges. */
  lemma FromNew(interval: Option<int>, start: int, calls: seq<Call>, now: int)
    requires AllTimely(calls, now)
    ensures
      var p, l := Fresh(interval, start), Fresh(None, start);
      var q, m := Run(p, interval, calls), LazyRun(l, calls);
      && Conserved(q) && Conserved(m)
      && Answers(p, interval, calls) == LazyAnswers(l, calls)
      && m.destroyed <= q.destroyed
      && forall o | o in q.destroyed && o !in m.destroyed :: Live(m, o) && m.items[o.key].expires < Clock(calls, now)
  {
    var p, l := Fresh(interval, start), Fresh(None, start);
    RunConserves(p, interval, calls);
    LazyRunConserves(l, calls);
    PurgeIsTransparent(p, l, interval, calls, now);
    PurgeDestroysSooner(p, l, interval, calls, now);
  }
}
