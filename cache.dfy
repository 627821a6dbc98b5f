/** The current engine, lib/index.js: a `Map` backing store, a `Map` from
    name to the host timer that will expire it, an `events` flag that routes
    every operation through the event bus, and a `debug` flag. */
module Cache {
  import opened Values
  import Observable

  /** The second argument of a trigger: `{key, value}`, `{key, value,
      expires}`, `{key, ms}`, or nothing (reset). */
  datatype Payload =
    | NoPayload
    | Entry(selector: Selector, value: Value)
    | Stored(key: string, value: Value, expires: Value)
    | Expired(key: string, ms: Value)

  /** One trigger issued by the engine. */
  datatype Event = Event(kind: Observable.EventKind, payload: Payload)

  /** A host timer armed by `expire`: its callback deletes `key` and
      announces `ms`. No delay is handed to the host, so `ms` only reaches
      the event. */
  datatype Timer = Timer(key: string, ms: Value)

  // ---------------------------------------------------------------------
  // Insertion order of the Map's keys

  ghost predicate Distinct(s: seq<string>) {
    forall i, j :: 0 <= i < j < |s| ==> s[i] != s[j]
  }

  /** The key sequence after `map.delete(k)`. */
  function Erase(s: seq<string>, k: string): (r: seq<string>)
    ensures forall x :: x in r <==> x in s && x != k
    ensures Distinct(s) ==> Distinct(r)
    ensures k !in s ==> r == s
  {
    if s == [] then []
    else if s[0] == k then Erase(s[1..], k)
    else
      var rest := Erase(s[1..], k);
      assert Distinct(s) ==> s[0] !in s[1..] && Distinct(s[1..]);
      [s[0]] + rest
  }

  /** `map.delete(k)` of a present key takes out its one position: the
      other keys keep their relative order. */
  lemma {:induction false} EraseKeepsOrder(s: seq<string>, k: string) returns (i: nat)
    requires Distinct(s) && k in s
    ensures i < |s| && s[i] == k && Erase(s, k) == s[..i] + s[i + 1..]
  {
    if s[0] == k {
      assert k !in s[1..] by {
        assert forall j :: 1 <= j < |s| ==> s[j] != s[0];
      }
      i := 0;
    } else {
      assert Distinct(s[1..]) by {
        assert forall a, b :: 0 <= a < b < |s| - 1 ==> s[1..][a] == s[a + 1] && s[1..][b] == s[b + 1];
      }
      var j := EraseKeepsOrder(s[1..], k);
      i := j + 1;
      assert s[1..][..j] == s[1..i];
      assert s[1..][j + 1..] == s[i + 1..];
      assert [s[0]] + s[1..i] == s[..i];
    }
  }

  /** A Map's size is the length of its (duplicate-free) key sequence. */
  lemma {:induction false} DistinctSize(s: seq<string>, keys: set<string>)
    requires Distinct(s)
    requires forall x :: x in s <==> x in keys
    ensures |s| == |keys|
  {
    if s != [] {
      var rest := keys - {s[0]};
      assert forall x :: x in s[1..] <==> x in rest by {
        forall x | x in s[1..]
          ensures x != s[0]
        {
          var j :| 1 <= j < |s| && s[j] == x;
        }
      }
      DistinctSize(s[1..], rest);
    }
  }

  /** The names of a sequence of entries, in order. */
  function Names(init: seq<(string, Value)>): (r: seq<string>)
    ensures |r| == |init|
    ensures forall i :: 0 <= i < |init| ==> r[i] == init[i].0
  {
    seq(|init|, i requires 0 <= i < |init| => init[i].0)
  }

  /** `new Map(entries)` for entries with distinct names. */
  function EntryMap(init: seq<(string, Value)>): (m: map<string, Value>)
    ensures forall k :: k in m <==> k in Names(init)
    ensures forall i :: 0 <= i < |init| ==> init[i].0 in m
  {
    if init == [] then map[]
    else EntryMap(init[..|init| - 1])[init[|init| - 1].0 := init[|init| - 1].1]
  }

  /** With distinct names, every entry's value is what the Map holds. */
  lemma {:induction false} EntryMapValues(init: seq<(string, Value)>)
    requires Distinct(Names(init))
    ensures forall i :: 0 <= i < |init| ==> EntryMap(init)[init[i].0] == init[i].1
  {
    if init != [] {
      var n := |init| - 1;
      var front := init[..n];
      assert Names(front) == Names(init)[..n];
      EntryMapValues(front);
      forall i | 0 <= i < n
        ensures EntryMap(init)[init[i].0] == init[i].1
      {
        assert Names(init)[i] != Names(init)[n];
        assert front[i] == init[i];
      }
    }
  }

  /** The pending timers after `expire(key, ms)` armed handle `h`: the
      previous timer tracked for `key`, if any, is cleared. */
  function Rearm(pending: map<nat, Timer>, timeouts: map<string, nat>, key: string, h: nat, ms: Value): map<nat, Timer> {
    (if key in timeouts then pending - {timeouts[key]} else pending)[h := Timer(key, ms)]
  }

  class MemoryCache {
    /** Keys of `$cache` in insertion order. */
    var order: seq<string>
    /** `$cache`. */
    var store: map<string, Value>
    /** `$timeouts`: the handle tracked for each name. */
    var timeouts: map<string, nat>
    /** Host timers armed and neither fired nor cleared. */
    var pending: map<nat, Timer>
    /** The handle the host gives to the next timer. */
    var nextHandle: nat
    var events: bool
    var debug: bool
    const bus: Observable.Bus<Payload>
    /** Every trigger the engine has issued. */
    ghost var emitted: seq<Event>

    ghost predicate Valid()
      reads this, bus
    {
      bus.Valid() &&
      Distinct(order) && (forall k :: k in order <==> k in store) &&
      (forall h :: h in pending ==> h < nextHandle) &&
      (forall k :: k in timeouts ==> timeouts[k] in pending && pending[timeouts[k]].key == k)
    }

    /** The engine's announcement of one operation: a trigger of the
        operation's kind when `events` is on, nothing otherwise. */
    twostate predicate Announced(kind: Observable.EventKind, p: Payload)
      reads this, bus
    {
      if old(events) then
        emitted == old(emitted) + [Event(kind, p)] && bus.Notified(Observable.Symbol(kind), p)
      else
        emitted == old(emitted) && bus.listeners == old(bus.listeners) &&
        bus.nextSerial == old(bus.nextSerial) && bus.calls == old(bus.calls)
    }

    /** `new MemoryCache($cache, opts)`: `init` is `Object.entries($cache || {})`,
        `opts` the options object's own properties. */
    constructor (init: seq<(string, Value)>, opts: map<string, Value>)
      requires Distinct(Names(init))
      ensures Valid()
      ensures order == Names(init) && store == EntryMap(init)
      ensures forall i :: 0 <= i < |init| ==> store[init[i].0] == init[i].1
      ensures timeouts == map[] && pending == map[] && nextHandle == 0
      ensures events == Truthy(Lookup(opts, "events")) && debug == Truthy(Lookup(opts, "debug"))
      ensures emitted == [] && fresh(bus)
      ensures bus.listeners == Observable.Initial && bus.calls == []
    {
      EntryMapValues(init);
      order := Names(init);
      store := EntryMap(init);
      timeouts := map[];
      pending := map[];
      nextHandle := 0;
      events := Truthy(Lookup(opts, "events"));
      debug := Truthy(Lookup(opts, "debug"));
      bus := new Observable.Bus<Payload>();
      emitted := [];
    }

    /** `events && _trigger(kind, p)`. */
    method Emit(kind: Observable.EventKind, p: Payload)
      requires Valid()
      modifies this`emitted, bus
      ensures Valid()
      ensures Announced(kind, p)
    {
      if events {
        emitted := emitted + [Event(kind, p)];
        bus.Trigger(Observable.Symbol(kind), p);
      }
    }

    /** `_set(name, val)`: a new name goes to the end of the key order. */
    method Put(name: string, val: Value)
      requires Valid()
      modifies this`store, this`order
      ensures Valid()
      ensures store == old(store)[name := val]
      ensures order == if name in old(store) then old(order) else old(order) + [name]
    {
      if name !in store {
        order := order + [name];
      }
      store := store[name := val];
    }

    /** `_expire(name)`: drops the name from the store and the timeout map. */
    method Drop(name: string)
      requires Valid()
      modifies this`store, this`order, this`timeouts
      ensures Valid()
      ensures store == old(store) - {name} && order == Erase(old(order), name)
      ensures timeouts == old(timeouts) - {name}
    {
      store := store - {name};
      order := Erase(order, name);
      timeouts := timeouts - {name};
    }

    /** `get(key)`: the whole cache as a fresh object for `true`, otherwise
        the entry (undefined when absent). */
    method Get(key: Selector) returns (r: Value)
      requires Valid()
      modifies this`emitted, bus
      ensures Valid()
      ensures r == if key.All? then Obj(store) else Lookup(store, key.name)
      ensures Announced(Observable.Get, Entry(key, r))
    {
      if key.All? {
        var m: map<string, Value> := map[];
        var i := 0;
        while i < |order|
          invariant 0 <= i <= |order|
          invariant forall k :: k in m ==> k in store && m[k] == store[k]
          invariant forall j :: 0 <= j < i ==> order[j] in m
        {
          m := m[order[i] := store[order[i]]];
          i := i + 1;
        }
        assert forall k :: k in store ==> k in m by {
          forall k | k in store
            ensures k in m
          {
            var j :| 0 <= j < |order| && order[j] == k;
          }
        }
        assert m == store;
        r := Obj(m);
      } else {
        r := Lookup(store, key.name);
      }
      Emit(Observable.Get, Entry(key, r));
    }

    /** `set(key, val, expires)`: stores `val` and returns it; announces the
        write; a truthy `expires` then arms an expiry. */
    method Set(key: string, val: Value, expires: Value) returns (r: Value)
      requires Valid()
      modifies this, bus
      ensures Valid()
      ensures r == val
      ensures store == old(store)[key := val]
      ensures order == if key in old(store) then old(order) else old(order) + [key]
      ensures events == old(events) && debug == old(debug)
      ensures Truthy(expires) ==>
        timeouts == old(timeouts)[key := old(nextHandle)] && nextHandle == old(nextHandle) + 1 &&
        pending == Rearm(old(pending), old(timeouts), key, old(nextHandle), expires)
      ensures !Truthy(expires) ==>
        timeouts == old(timeouts) && pending == old(pending) && nextHandle == old(nextHandle)
      ensures Announced(Observable.Set, Stored(key, val, expires))
    {
      Put(key, val);
      r := store[key];
      Emit(Observable.Set, Stored(key, r, expires));
      if Truthy(expires) {
        Expire(key, expires);
      }
    }

    /** `expire(key, ms)`: clears the timer tracked for `key`, if any, and
        tracks a newly armed one. */
    method Expire(key: string, ms: Value)
      requires Valid()
      modifies this`timeouts, this`pending, this`nextHandle
      ensures Valid()
      ensures timeouts == old(timeouts)[key := old(nextHandle)] && nextHandle == old(nextHandle) + 1
      ensures pending == Rearm(old(pending), old(timeouts), key, old(nextHandle), ms)
      ensures key in old(timeouts) ==> old(timeouts)[key] !in pending
    {
      if key in timeouts {
        pending := pending - {timeouts[key]};
      }
      var h := nextHandle;
      nextHandle := nextHandle + 1;
      pending := pending[h := Timer(key, ms)];
      timeouts := timeouts[key := h];
    }

    /** The host runs the callback of pending timer `h`: the timer's name
        leaves both maps, then the expiry is announced. */
    method FireTimer(h: nat)
      requires Valid() && h in pending
      modifies this, bus
      ensures Valid()
      ensures pending == old(pending) - {h} && nextHandle == old(nextHandle)
      ensures var t := old(pending)[h];
        store == old(store) - {t.key} && order == Erase(old(order), t.key) &&
        timeouts == old(timeouts) - {t.key} &&
        Announced(Observable.Expire, Expired(t.key, t.ms))
      ensures events == old(events) && debug == old(debug)
    {
      var t := pending[h];
      Drop(t.key);
      pending := pending - {h};
      Emit(Observable.Expire, Expired(t.key, t.ms));
    }

    /** `remove(key)`: announces the value held before deletion, then
        deletes; true exactly when the name was present. */
    method Remove(key: string) returns (r: bool)
      requires Valid()
      modifies this`store, this`order, this`emitted, bus
      ensures Valid()
      ensures r <==> key in old(store)
      ensures store == old(store) - {key} && order == Erase(old(order), key)
      ensures key in old(store) ==>
        exists i :: 0 <= i < |old(order)| && old(order)[i] == key && order == old(order)[..i] + old(order)[i + 1..]
      ensures key !in old(store) ==> order == old(order)
      ensures Announced(Observable.Remove, Entry(Key(key), Lookup(old(store), key)))
    {
      if key in store {
        ghost var i := EraseKeepsOrder(order, key);
      }
      Emit(Observable.Remove, Entry(Key(key), Lookup(store, key)));
      r := key in store;
      store := store - {key};
      order := Erase(order, key);
    }

    /** `merge(key, val)`: `Object.assign` onto the stored value, which an
        object receives in place; fails on a missing entry. */
    method Merge(key: string, val: map<string, Value>) returns (r: Result<Value>)
      requires Valid()
      requires AssignTarget(Lookup(store, key))
      modifies this`store, this`emitted, bus
      ensures Valid()
      ensures r == ObjectAssign(old(Lookup(store, key)), val)
      ensures r.Ok? && old(Lookup(store, key)).Obj? ==> store == old(store)[key := r.value]
      ensures !(r.Ok? && old(Lookup(store, key)).Obj?) ==> store == old(store)
      ensures r.Ok? ==> Announced(Observable.Merge, Entry(Key(key), r.value))
      ensures r.Throw? ==> emitted == old(emitted) && unchanged(bus)
    {
      var target := Lookup(store, key);
      r := ObjectAssign(target, val);
      if r.Throw? {
        return;
      }
      if target.Obj? {
        store := store[key := r.value];
      }
      Emit(Observable.Merge, Entry(Key(key), r.value));
    }

    /** `concat(key, val)`: the stored array followed by `val` (spread when
        an array) is stored and returned; fails unless an array is stored. */
    method Concat(key: string, val: Value) returns (r: Result<Value>)
      requires Valid()
      requires !Lookup(store, key).Str?
      modifies this`store, this`emitted, bus
      ensures Valid()
      ensures r == ConcatValue(old(Lookup(store, key)), val)
      ensures r.Ok? ==> store == old(store)[key := r.value]
      ensures r.Throw? ==> store == old(store) && emitted == old(emitted) && unchanged(bus)
      ensures r.Ok? ==> Announced(Observable.Concat, Entry(Key(key), r.value))
    {
      r := ConcatValue(Lookup(store, key), val);
      if r.Throw? {
        return;
      }
      store := store[key := r.value];
      Emit(Observable.Concat, Entry(Key(key), r.value));
    }

    /** `reset()`: announces, then clears both maps. Timers already armed
        stay with the host. */
    method Reset()
      requires Valid()
      modifies this`store, this`order, this`timeouts, this`emitted, bus
      ensures Valid()
      ensures store == map[] && order == [] && timeouts == map[]
      ensures Announced(Observable.Reset, NoPayload)
    {
      Emit(Observable.Reset, NoPayload);
      store := map[];
      order := [];
      timeouts := map[];
    }

    /** `has(name)`. */
    method Has(name: string) returns (r: bool)
      requires Valid()
      ensures r <==> name in store
    {
      r := name in store;
    }

    /** `size`: the number of stored names. */
    method Size() returns (n: nat)
      requires Valid()
      ensures n == |store| && n == |order|
    {
      DistinctSize(order, store.Keys);
      n := |order|;
    }

    /** `keys`: every stored name once, in insertion order. */
    method Keys() returns (ks: seq<string>)
      requires Valid()
      ensures ks == order
      ensures Distinct(ks) && forall k :: k in ks <==> k in store
    {
      ks := order;
    }

    /** `each(fn)`: the calls `fn(value, name)`, one per entry in insertion
        order. */
    method Each() returns (calls: seq<(Value, string)>)
      requires Valid()
      ensures |calls| == |order|
      ensures forall i :: 0 <= i < |order| ==> calls[i] == (store[order[i]], order[i])
    {
      calls := [];
      var i := 0;
      while i < |order|
        invariant 0 <= i <= |order| && |calls| == i
        invariant forall j :: 0 <= j < i ==> calls[j] == (store[order[j]], order[j])
      {
        calls := calls + [(store[order[i]], order[i])];
        i := i + 1;
      }
    }

    /** The `events` setter. */
    method SetEvents(to: Value)
      modifies this`events
      ensures events == Truthy(to)
    {
      events := Truthy(to);
    }

    /** The `debug` setter. */
    method SetDebug(to: Value)
      modifies this`debug
      ensures debug == Truthy(to)
    {
      debug := Truthy(to);
    }

    /** `onGet`, `onSet`, …: `on` with the kind's symbol. */
    method On(kind: Observable.EventKind, fn: Option<nat>) returns (r: Result<()>)
      requires Valid()
      modifies bus
      ensures Valid()
      ensures r.Throw? <==> fn.Some? && Observable.Symbol(kind) !in old(bus.listeners)
      ensures bus.listeners == if fn.Some? && Observable.Symbol(kind) in old(bus.listeners)
        then old(bus.listeners)[Observable.Symbol(kind) := old(bus.listeners)[Observable.Symbol(kind)] + [Observable.Fn(fn.value)]]
        else old(bus.listeners)
      ensures bus.calls == old(bus.calls)
    {
      r := bus.On(Observable.Symbol(kind), fn);
    }

    /** `oneGet`, `oneSet`, …: `one` with the kind's symbol. */
    method One(kind: Observable.EventKind, fn: nat) returns (r: Result<()>)
      requires Valid()
      modifies bus
      ensures Valid()
      ensures r.Throw? <==> Observable.Symbol(kind) !in old(bus.listeners)
      ensures bus.listeners == if Observable.Symbol(kind) in old(bus.listeners)
        then old(bus.listeners)[Observable.Symbol(kind) :=
          old(bus.listeners)[Observable.Symbol(kind)] + [Observable.Once(old(bus.nextSerial), Observable.Symbol(kind), fn)]]
        else old(bus.listeners)
      ensures bus.calls == old(bus.calls)
    {
      r := bus.One(Observable.Symbol(kind), fn);
    }

    /** `offGet`, `offSet`, …: `off` with the kind's symbol. */
    method Off(kind: Observable.EventKind, fn: Option<Observable.Callback>) returns (r: Result<()>)
      requires Valid()
      modifies bus
      ensures Valid()
      ensures r.Throw? <==> fn.Some? && Observable.Symbol(kind) !in old(bus.listeners)
      ensures bus.listeners ==
        if fn.None? then old(bus.listeners) - {Observable.Symbol(kind)}
        else if Observable.Symbol(kind) in old(bus.listeners)
        then old(bus.listeners)[Observable.Symbol(kind) := Observable.Without(old(bus.listeners)[Observable.Symbol(kind)], fn.value)]
        else old(bus.listeners)
      ensures bus.calls == old(bus.calls)
    {
      r := bus.Off(Observable.Symbol(kind), fn);
    }
  }

  // ---------------------------------------------------------------------
  // Scenarios

  /** A timer armed before `reset` is not cancelled by it, so it still
      deletes a name that was set again afterwards without an expiry. */
  method StaleTimerAfterReset() returns (present: bool)
    ensures !present
  {
    var c := new MemoryCache([], map[]);
    var _ := c.Set("k", Num(1), Num(10));
    c.Reset();
    var _ := c.Set("k", Num(2), Undef);
    c.FireTimer(0);
    present := c.Has("k");
  }

  /** Re-arming an expiry clears the first timer; firing the second one
      removes the name from both maps. */
  method RearmedExpiry() returns (stale: bool, present: bool, tracked: bool)
    ensures !stale && !present && !tracked
  {
    var c := new MemoryCache([], map[]);
    var _ := c.Set("k", Bool(true), Num(10));
    c.Expire("k", Num(100));
    stale := 0 in c.pending;
    c.FireTimer(1);
    present := c.Has("k");
    tracked := "k" in c.timeouts;
  }

  /** Construction keeps the initial entries and their order; `set` adds a
      new name at the end. */
  method OrderScenario() returns (keys: seq<string>, size: nat)
    ensures keys == ["a", "b", "c"] && size == 3
  {
    var c := new MemoryCache([("a", Num(1)), ("b", Num(2))], map[]);
    assert c.order == ["a", "b"];
    assert "c" !in c.store;
    var _ := c.Set("c", Num(3), Undef);
    assert c.order == ["a", "b", "c"];
    keys := c.Keys();
    size := c.Size();
  }

  /** Removing a name from the middle keeps the others in insertion
      order. */
  method RemoveKeepsOrderScenario() returns (keys: seq<string>)
    ensures keys == ["a", "c"]
  {
    var c := new MemoryCache([("a", Num(1)), ("b", Num(2)), ("c", Num(3))], map[]);
    assert c.order == ["a", "b", "c"];
    var _ := c.Remove("b");
    keys := c.Keys();
  }

  /** `remove` reports whether the name was there, and the name is gone. */
  method RemoveScenario() returns (first: bool, second: bool, a: Value)
    ensures first && !second && a == Undef
  {
    var c := new MemoryCache([], map[]);
    var _ := c.Set("a", Num(1), Undef);
    first := c.Remove("a");
    second := c.Remove("a");
    a := c.Get(Key("a"));
  }

  /** `merge` adds the new keys to the stored object and keeps the old
      ones. */
  method MergeScenario() returns (merged: Result<Value>)
    ensures merged == Ok(Obj(map["merge" := Bool(true), "merged" := Bool(true)]))
  {
    var c := new MemoryCache([], map[]);
    var _ := c.Set("m", Obj(map["merge" := Bool(true)]), Undef);
    merged := c.Merge("m", map["merged" := Bool(true)]);
    assert map["merge" := Bool(true)] + map["merged" := Bool(true)] == map["merge" := Bool(true), "merged" := Bool(true)];
  }

  /** `concat` stores and returns the longer array. */
  method ConcatScenario() returns (joined: Result<Value>, stored: Value)
    ensures joined == Ok(Arr([Num(1), Num(2), Num(3)])) && stored == joined.value
  {
    var c := new MemoryCache([], map[]);
    var _ := c.Set("a", Arr([Num(1)]), Undef);
    joined := c.Concat("a", Arr([Num(2), Num(3)]));
    assert [Num(1)] + [Num(2), Num(3)] == [Num(1), Num(2), Num(3)];
    stored := c.Get(Key("a"));
  }

  /** With events on, `remove` announces the value it deletes, and a
      listener of the remove kind receives it. */
  method EventScenario() returns (c: MemoryCache)
    ensures c.emitted == [Event(Observable.Set, Stored("a", Num(1), Undef)),
                          Event(Observable.Remove, Entry(Key("a"), Num(1)))]
    ensures c.bus.calls == [Observable.Call(Observable.Fn(7), 7, Entry(Key("a"), Num(1)))]
  {
    c := new MemoryCache([], map["events" := Bool(true)]);
    var _ := c.On(Observable.Remove, Some(7));
    var listeners := c.bus.listeners;
    assert listeners[Observable.Symbol(Observable.Set)] == [];
    var _ := c.Set("a", Num(1), Undef);
    assert c.bus.listeners == listeners && c.bus.calls == [];
    assert listeners[Observable.Symbol(Observable.Remove)] == [Observable.Fn(7)];
    Observable.DispatchPlain([Observable.Fn(7)], 0, Entry(Key("a"), Num(1)));
    var _ := c.Remove("a");
  }

  /** `reset` twice leaves an empty cache and announces twice. */
  method ResetTwiceScenario() returns (c: MemoryCache, size: nat)
    ensures size == 0
    ensures c.emitted == [Event(Observable.Reset, NoPayload), Event(Observable.Reset, NoPayload)]
  {
    c := new MemoryCache([("a", Num(1))], map["events" := Bool(true)]);
    c.Reset();
    c.Reset();
    size := c.Size();
  }

  /** With events off, operations announce nothing. */
  method QuietScenario() returns (c: MemoryCache)
    ensures c.emitted == [] && c.bus.calls == []
  {
    c := new MemoryCache([], map[]);
    var _ := c.On(Observable.Get, Some(7));
    var _ := c.Set("a", Num(1), Undef);
    var _ := c.Get(All);
    var _ := c.Remove("a");
  }
}
