/** The object-backed engine of lib/es6.js: a plain object as the backing
    store, path operations built on the resolver, and expiry timers kept in
    the same keyspace under `__timeout-<name>`. */
module CacheEs6 {
  import opened Values
  import opened Utils

  /** The name under which `expire` keeps the timer of `name`. */
  function TimerName(name: string): (r: string)
    ensures |r| == |name| + 10 && r != name && r[10..] == name
  {
    "__timeout-" + name
  }

  /** The pending timers after `expire` armed handle `h` for `name`, where
      `wasSet` is what the timer entry held: a timer found there is cleared
      (any other value is not a timer and clearing it does nothing). */
  function Rearm(pending: map<nat, string>, wasSet: Value, h: nat, name: string): map<nat, string> {
    (if wasSet.Handle? then pending - {wasSet.id} else pending)[h := name]
  }

  class MemoryCache {
    /** `$cache`. */
    var store: map<string, Value>
    /** Host timers armed and neither fired nor cleared, with the name each
        one removes. */
    var pending: map<nat, string>
    /** The handle the host gives to the next timer. */
    var nextHandle: nat
    var debug: Value

    ghost predicate Valid()
      reads this
    {
      forall h :: h in pending ==> h < nextHandle
    }

    /** `new MemoryCache($cache)`: the backing object is `$cache || {}`. */
    constructor (init: Value)
      requires !Truthy(init) || init.Obj?
      ensures Valid()
      ensures store == if init.Obj? then init.props else map[]
      ensures pending == map[] && nextHandle == 0 && debug == Bool(false)
    {
      store := if init.Obj? then init.props else map[];
      pending := map[];
      nextHandle := 0;
      debug := Bool(false);
    }

    /** `remove(name)`: `delete`, which reports true. */
    method Remove(name: string) returns (r: bool)
      modifies this`store
      ensures r
      ensures store == old(store) - {name}
    {
      store := store - {name};
      r := true;
    }

    /** `get(name)`: the backing object for `true`, otherwise the top-level
        entry; the name is not resolved as a path. */
    method Get(name: Selector) returns (r: Value)
      ensures name.All? ==> r == Obj(store)
      ensures name.Key? ==> r == Lookup(store, name.name) && r == Index(Obj(store), name.name).value
    {
      r := if name.All? then Obj(store) else Lookup(store, name.name);
    }

    /** `getIn(name)`: `utils.get` on the backing object. */
    method GetIn(name: string) returns (r: Result<Value>)
      ensures r == Utils.Get(Obj(store), name)
    {
      var arr := new SegmentArray(PathArr(name));
      r := FindInObj(Obj(store), arr);
    }

    /** `set(name, val, expiresIn)`: a number `expiresIn` first arms an
        expiry; then `val` is stored and returned. */
    method Set(name: string, val: Value, expiresIn: Value) returns (r: Value)
      requires Valid()
      modifies this`store, this`pending, this`nextHandle
      ensures Valid()
      ensures r == val
      ensures expiresIn.Num? ==>
        store == old(store)[TimerName(name) := Handle(old(nextHandle))][name := val] &&
        pending == Rearm(old(pending), Lookup(old(store), TimerName(name)), old(nextHandle), name) &&
        nextHandle == old(nextHandle) + 1
      ensures !expiresIn.Num? ==>
        store == old(store)[name := val] && pending == old(pending) && nextHandle == old(nextHandle)
      decreases if expiresIn.Num? then 2 else 0
    {
      if expiresIn.Num? {
        Expire(name, expiresIn);
      }
      store := store[name := val];
      r := val;
    }

    /** `expire(name, ms)`: clears the timer held under the timer name, if
        any, and stores the newly armed one there with `set`. */
    method Expire(name: string, ms: Value)
      requires Valid()
      modifies this`store, this`pending, this`nextHandle
      ensures Valid()
      ensures store == old(store)[TimerName(name) := Handle(old(nextHandle))]
      ensures pending == Rearm(old(pending), Lookup(old(store), TimerName(name)), old(nextHandle), name)
      ensures nextHandle == old(nextHandle) + 1
      decreases 1
    {
      var wasSet := Get(Key(TimerName(name)));
      if Truthy(wasSet) && wasSet.Handle? {
        pending := pending - {wasSet.id};
      }
      var h := nextHandle;
      nextHandle := nextHandle + 1;
      pending := pending[h := name];
      var _ := Set(TimerName(name), Handle(h), Undef);
    }

    /** The host runs pending timer `h`: it removes its name, and only that
        name; the timer entry stays. */
    method FireTimer(h: nat)
      requires Valid() && h in pending
      modifies this`store, this`pending
      ensures Valid()
      ensures pending == old(pending) - {h}
      ensures store == old(store) - {old(pending)[h]}
    {
      var name := pending[h];
      pending := pending - {h};
      var _ := Remove(name);
    }

    /** `setIn(name, val)`: several segments assign at the last one of what
        the others resolve to (the found value is part of the backing
        object, so the write shows there); one segment is a top-level
        assignment. */
    method SetIn(name: string, val: Value) returns (r: Result<Value>)
      modifies this`store
      ensures match WriteIn(old(store), name, val)
        case Ok(s) => r == Ok(val) && store == s
        case Throw(e) => r == Throw(e) && store == old(store)
    {
      var segs := PathArr(name);
      if |segs| > 1 {
        var arr := new SegmentArray(segs);
        var lastKey := arr.Pop();
        var key := FindInObj(Obj(store), arr);
        if key.Throw? {
          return Throw(key.error);
        }
        var updated := Assign(key.value, lastKey.value, val);
        if updated.Throw? {
          return Throw(updated.error);
        }
        store := PutIn(store, Prefix(segs), updated.value);
        r := Ok(val);
      } else {
        store := store[name := val];
        r := Ok(val);
      }
    }

    /** `merge(name, obj)`: `Object.assign` onto the entry, which an object
        receives in place. */
    method Merge(name: string, obj: map<string, Value>) returns (r: Result<Value>)
      requires AssignTarget(Lookup(store, name))
      modifies this`store
      ensures r == ObjectAssign(Lookup(old(store), name), obj)
      ensures store == if r.Ok? && Lookup(old(store), name).Obj? then old(store)[name := r.value] else old(store)
    {
      var target := Lookup(store, name);
      r := ObjectAssign(target, obj);
      if r.Ok? && target.Obj? {
        store := store[name := r.value];
      }
    }

    /** `mergeIn(name, obj)`: `Object.assign` onto what the path resolves
        to. */
    method MergeIn(name: string, obj: map<string, Value>) returns (r: Result<Value>)
      requires Utils.Get(Obj(store), name).Ok? ==> AssignTarget(Utils.Get(Obj(store), name).value)
      modifies this`store
      ensures match Utils.Get(Obj(old(store)), name)
        case Throw(e) => r == Throw(e) && store == old(store)
        case Ok(found) =>
          r == ObjectAssign(found, obj) &&
          store == if r.Ok? && found.Obj? then PutIn(old(store), PathArr(name), r.value) else old(store)
    {
      var find := GetIn(name);
      if find.Throw? {
        return Throw(find.error);
      }
      r := ObjectAssign(find.value, obj);
      if r.Ok? && find.value.Obj? {
        store := PutIn(store, PathArr(name), r.value);
      }
    }

    /** `concat(name, arr)`: pushes the elements of `arr` one by one onto the
        entry and returns the entry. */
    method Concat(name: string, arr: seq<Value>) returns (r: Result<Value>)
      modifies this`store
      ensures r == PushAll(Lookup(old(store), name), arr)
      ensures store == if arr != [] && r.Ok? then old(store)[name := r.value] else old(store)
    {
      var i := 0;
      while i < |arr|
        invariant 0 <= i <= |arr|
        invariant PushAll(Lookup(old(store), name), arr[..i]) == Ok(Lookup(store, name))
        invariant store == if i == 0 then old(store) else old(store)[name := Lookup(store, name)]
      {
        var pushed := Push(Lookup(store, name), arr[i]);
        PushAllStep(Lookup(old(store), name), arr[..i], arr[i]);
        assert arr[..i + 1] == arr[..i] + [arr[i]];
        if pushed.Throw? {
          return Throw(pushed.error);
        }
        store := store[name := pushed.value];
        i := i + 1;
      }
      assert arr[..i] == arr;
      r := Ok(Lookup(store, name));
    }

    /** `concatIn(name, arr)`: pushes the elements of `arr` one by one onto
        what the path resolves to and returns it. */
    method ConcatIn(name: string, arr: seq<Value>) returns (r: Result<Value>)
      modifies this`store
      ensures match Utils.Get(Obj(old(store)), name)
        case Throw(e) => r == Throw(e) && store == old(store)
        case Ok(found) =>
          r == PushAll(found, arr) &&
          store == if arr != [] && r.Ok? then PutIn(old(store), PathArr(name), r.value) else old(store)
    {
      var found := GetIn(name);
      if found.Throw? {
        return Throw(found.error);
      }
      var base := store;
      var find := found.value;
      var i := 0;
      while i < |arr|
        invariant 0 <= i <= |arr|
        invariant PushAll(found.value, arr[..i]) == Ok(find)
        invariant base == old(store)
        invariant store == if i == 0 then old(store) else PutIn(old(store), PathArr(name), find)
      {
        var pushed := Push(find, arr[i]);
        PushAllStep(found.value, arr[..i], arr[i]);
        assert arr[..i + 1] == arr[..i] + [arr[i]];
        if pushed.Throw? {
          return Throw(pushed.error);
        }
        find := pushed.value;
        // `find` is the array inside the backing object: the push shows there
        store := PutIn(base, PathArr(name), find);
        i := i + 1;
      }
      assert arr[..i] == arr;
      r := Ok(find);
    }

    /** `reset()`: a new empty backing object, which is returned. Armed
        timers stay with the host. */
    method Reset() returns (r: Value)
      modifies this`store
      ensures store == map[] && r == Obj(store)
    {
      store := map[];
      r := Obj(map[]);
    }

    /** `debug(bool)`: sets the flag and returns the value. */
    method Debug(b: Value) returns (r: Value)
      modifies this`debug
      ensures debug == b && r == b
    {
      debug := b;
      r := b;
    }
  }

  // ---------------------------------------------------------------------
  // Properties of the path operations

  /** `setIn` through a path whose parent accepts the write, then `getIn`
      of the same path, gives the value written; other top-level entries
      are untouched. */
  lemma SetInThenGetIn(store: map<string, Value>, name: string, v: Value, other: string)
    requires WritesVisibly(store, name) && other != PathArr(name)[0]
    ensures WriteIn(store, name, v).Ok?
    ensures Utils.Get(Obj(WriteIn(store, name, v).value), name) == Ok(v)
    ensures Lookup(WriteIn(store, name, v).value, other) == Lookup(store, other)
  {
    WriteInThenGet(store, name, v);
    WriteInFrame(store, name, v, other);
  }

  /** After `mergeIn` on an object, `getIn` of the path gives the merged
      object, which has every key of `obj` with its value. */
  lemma MergeInThenGetIn(store: map<string, Value>, name: string, obj: map<string, Value>)
    requires Utils.Get(Obj(store), name).Ok? && Utils.Get(Obj(store), name).value.Obj?
    ensures var merged := ObjectAssign(Utils.Get(Obj(store), name).value, obj);
      merged.Ok? && Utils.Get(Obj(PutIn(store, PathArr(name), merged.value)), name) == merged &&
      forall k :: k in obj ==> merged.value.props[k] == obj[k]
  {
    var merged := ObjectAssign(Utils.Get(Obj(store), name).value, obj);
    PutInThenGet(store, name, merged.value);
  }

  /** After `concatIn` on an array, `getIn` of the path gives the longer
      array: the old elements, then those of `arr` in order. */
  lemma ConcatInThenGetIn(store: map<string, Value>, name: string, arr: seq<Value>)
    requires Utils.Get(Obj(store), name).Ok? && Utils.Get(Obj(store), name).value.Arr?
    ensures var found := Utils.Get(Obj(store), name).value;
      var pushed := PushAll(found, arr);
      pushed.Ok? && pushed.value == Arr(found.items + arr) &&
      Utils.Get(Obj(PutIn(store, PathArr(name), pushed.value)), name) == pushed
  {
    var found := Utils.Get(Obj(store), name).value;
    PutInThenGet(store, name, PushAll(found, arr).value);
    if arr != [] {
      assert PushAll(found, arr).value.items == found.items + arr;
    }
  }

  // ---------------------------------------------------------------------
  // Scenarios

  /** Expiry keeps the timer under the timer name; firing it removes the
      name and leaves the timer entry. Re-arming clears the first timer. */
  method ExpiryScenario() returns (stale: bool, value: Value, timer: Value)
    ensures !stale && value == Undef && timer == Handle(1)
  {
    var c := new MemoryCache(Undef);
    var _ := c.Set("k", Bool(true), Num(100));
    c.Expire("k", Num(100));
    stale := 0 in c.pending;
    c.FireTimer(1);
    value := c.Get(Key("k"));
    timer := c.Get(Key(TimerName("k")));
  }

  /** `remove` reports true whether or not the name was there, and the name
      is gone. */
  method RemoveScenario() returns (first: bool, second: bool, v: Value)
    ensures first && second && v == Undef
  {
    var c := new MemoryCache(Undef);
    var _ := c.Set("remove", Num(1), Undef);
    first := c.Remove("remove");
    second := c.Remove("remove");
    v := c.Get(Key("remove"));
  }

  /** `test.arr` of the test object resolves to `[1, 2, 3, 4, 5]`. */
  lemma TestArrPath(store: map<string, Value>)
    requires store == map["test" := TestObject()]
    ensures Utils.Get(Obj(store), "test.arr") == Ok(Arr([Num(1), Num(2), Num(3), Num(4), Num(5)]))
  {
    assert "test.arr" == "test" + [Separator] + "arr";
    PathArrCons("test", "arr");
    PathArrPlain("arr");
    assert Index(Obj(store), "test") == Ok(TestObject());
    FindInSingle(TestObject(), "arr");
  }

  /** Pushing `[6, 7, 8, 9, 0]` onto `test.arr` = `[1, 2, 3, 4, 5]`: element
      8 is then 9 and element 9 is 0. */
  method ConcatInScenario() returns (eight: Value, nine: Value)
    ensures eight == Num(9) && nine == Num(0)
  {
    var c := new MemoryCache(Undef);
    var _ := c.Set("test", TestObject(), Undef);
    TestArrPath(c.store);
    var first := [Num(1), Num(2), Num(3), Num(4), Num(5)];
    var tail := [Num(6), Num(7), Num(8), Num(9), Num(0)];
    var r := c.ConcatIn("test.arr", tail);
    var arr := Arr(first + tail);
    assert r == Ok(arr);
    IndexDigit(arr.items, 8);
    IndexDigit(arr.items, 9);
    assert [DigitChar(8)] == "8" && [DigitChar(9)] == "9";
    eight := Index(arr, "8").value;
    nine := Index(arr, "9").value;
  }
}
