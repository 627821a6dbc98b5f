/** The engine of lib/es5.js: the API of lib/es6.js over a plain backing
    object, with its own inline copy of the resolver (the functions of
    lib/utils.js, modelled once in `Utils`), a `get` that resolves dotted
    paths, and `merge`/`mergeIn` written as strict-mode for-in loops. */
module CacheEs5 {
  import opened Values
  import opened Utils
  import CacheEs6

  class MemoryCache {
    /** `$cache`. */
    var store: map<string, Value>
    /** Host timers armed and neither fired nor cleared, with the name each
        one removes. */
    var pending: map<nat, string>
    /** The handle the host gives to the next timer. */
    var nextHandle: nat
    var debug: Value

    ghost predicate Valid()
      reads this
    {
      forall h :: h in pending ==> h < nextHandle
    }

    /** `new MemoryCache($cache)`: the backing object is `$cache || {}`. */
    constructor (init: Value)
      requires !Truthy(init) || init.Obj?
      ensures Valid()
      ensures store == if init.Obj? then init.props else map[]
      ensures pending == map[] && nextHandle == 0 && debug == Bool(false)
    {
      store := if init.Obj? then init.props else map[];
      pending := map[];
      nextHandle := 0;
      debug := Bool(false);
    }

    /** `remove(name)`: `delete`, which reports true. */
    method Remove(name: string) returns (r: bool)
      modifies this`store
      ensures r
      ensures store == old(store) - {name}
    {
      store := store - {name};
      r := true;
    }

    /** `get(name)`: the backing object for `true`, otherwise the name
        resolved as a dotted path, exactly as `getIn` does. */
    method Get(name: Selector) returns (r: Result<Value>)
      ensures name.All? ==> r == Ok(Obj(store))
      ensures name.Key? ==> r == Utils.Get(Obj(store), name.name)
    {
      if name.All? {
        return Ok(Obj(store));
      }
      var arr := new SegmentArray(PathArr(name.name));
      r := FindInObj(Obj(store), arr);
    }

    /** `getIn(name)`: `utils.get` on the backing object. This engine's
        own copy of the path helpers is the same code as lib/utils.js, so
        the method is the same as lib/es6.js's `getIn`. */
    method GetIn(name: string) returns (r: Result<Value>)
      ensures r == Utils.Get(Obj(store), name)
    {
      var arr := new SegmentArray(PathArr(name));
      r := FindInObj(Obj(store), arr);
    }

    /** `set(name, val, expiresIn)`: a number `expiresIn` first arms an
        expiry, which fails when resolving the timer name fails; then `val`
        is stored at the top level and returned. */
    method Set(name: string, val: Value, expiresIn: Value) returns (r: Result<Value>)
      requires Valid()
      modifies this`store, this`pending, this`nextHandle
      ensures Valid()
      ensures !expiresIn.Num? ==>
        r == Ok(val) && store == old(store)[name := val] &&
        pending == old(pending) && nextHandle == old(nextHandle)
      ensures expiresIn.Num? ==>
        match Utils.Get(Obj(old(store)), CacheEs6.TimerName(name))
        case Throw(e) =>
          r == Throw(e) && store == old(store) && pending == old(pending) && nextHandle == old(nextHandle)
        case Ok(wasSet) =>
          r == Ok(val) &&
          store == old(store)[CacheEs6.TimerName(name) := Handle(old(nextHandle))][name := val] &&
          pending == CacheEs6.Rearm(old(pending), wasSet, old(nextHandle), name) &&
          nextHandle == old(nextHandle) + 1
      decreases if expiresIn.Num? then 2 else 0
    {
      if expiresIn.Num? {
        var armed := Expire(name, expiresIn);
        if armed.Throw? {
          return Throw(armed.error);
        }
      }
      store := store[name := val];
      r := Ok(val);
    }

    /** `expire(name, ms)`: looks the timer name up with the path-resolving
        `get`, clears a timer found there, and stores the newly armed one
        under the timer name at the top level. */
    method Expire(name: string, ms: Value) returns (r: Result<()>)
      requires Valid()
      modifies this`store, this`pending, this`nextHandle
      ensures Valid()
      ensures match Utils.Get(Obj(old(store)), CacheEs6.TimerName(name))
        case Throw(e) =>
          r == Throw(e) && store == old(store) && pending == old(pending) && nextHandle == old(nextHandle)
        case Ok(wasSet) =>
          r == Ok(()) &&
          store == old(store)[CacheEs6.TimerName(name) := Handle(old(nextHandle))] &&
          pending == CacheEs6.Rearm(old(pending), wasSet, old(nextHandle), name) &&
          nextHandle == old(nextHandle) + 1
      decreases 1
    {
      var wasSet := Get(Key(CacheEs6.TimerName(name)));
      if wasSet.Throw? {
        return Throw(wasSet.error);
      }
      if Truthy(wasSet.value) && wasSet.value.Handle? {
        pending := pending - {wasSet.value.id};
      }
      var h := nextHandle;
      nextHandle := nextHandle + 1;
      pending := pending[h := name];
      var _ := Set(CacheEs6.TimerName(name), Handle(h), Undef);
      r := Ok(());
    }

    /** The host runs pending timer `h`: it removes its name, and only that
        name; the timer entry stays. */
    method FireTimer(h: nat)
      requires Valid() && h in pending
      modifies this`store, this`pending
      ensures Valid()
      ensures pending == old(pending) - {h}
      ensures store == old(store) - {old(pending)[h]}
    {
      var name := pending[h];
      pending := pending - {h};
      var _ := Remove(name);
    }

    /** `setIn(name, val)`: as in lib/es6.js. */
    method SetIn(name: string, val: Value) returns (r: Result<Value>)
      modifies this`store
      ensures match WriteIn(old(store), name, val)
        case Ok(s) => r == Ok(val) && store == s
        case Throw(e) => r == Throw(e) && store == old(store)
    {
      var segs := PathArr(name);
      if |segs| > 1 {
        var arr := new SegmentArray(segs);
        var lastKey := arr.Pop();
        var key := FindInObj(Obj(store), arr);
        if key.Throw? {
          return Throw(key.error);
        }
        var updated := Assign(key.value, lastKey.value, val);
        if updated.Throw? {
          return Throw(updated.error);
        }
        store := PutIn(store, Prefix(segs), updated.value);
        r := Ok(val);
      } else {
        store := store[name := val];
        r := Ok(val);
      }
    }

    /** `merge(name, obj)`: `$cache[name][key] = obj[key]` for each key of
        `obj`, then the entry; an object entry receives the writes in
        place. */
    method Merge(name: string, obj: map<string, Value>) returns (r: Result<Value>)
      requires !Lookup(store, name).Arr?
      modifies this`store
      ensures r == AssignEach(Lookup(old(store), name), obj, true)
      ensures store ==
        if r.Ok? && Lookup(old(store), name).Obj? && obj != map[] then old(store)[name := r.value] else old(store)
    {
      var base := store;
      var target := Lookup(store, name);
      var cur := target;
      ghost var done: map<string, Value> := map[];
      var todo := obj;
      while todo != map[]
        invariant done.Keys !! todo.Keys && done + todo == obj
        invariant AssignEach(target, done, true) == Ok(cur)
        invariant base == old(store)
        invariant store == if target.Obj? && done != map[] then base[name := cur] else base
        decreases |todo.Keys|
      {
        var key :| key in todo;
        AssignEachStep(target, done, key, todo[key], true);
        // `$cache[name][key] = obj[key]`
        var w := Assign(cur, key, todo[key]);
        if w.Throw? {
          assert done == map[];
          return Throw(w.error);
        }
        cur := w.value;
        if cur.Obj? {
          // the entry is the object written to
          store := base[name := cur];
        }
        VisitKey(done, todo, obj, key);
        done := done[key := todo[key]];
        todo := todo - {key};
      }
      assert done == obj by {
        assert done + todo == done;
      }
      r := Ok(Lookup(store, name));
    }

    /** `mergeIn(name, obj)`: the same loop on what the path resolves to,
        which is then returned. */
    method MergeIn(name: string, obj: map<string, Value>) returns (r: Result<Value>)
      requires Utils.Get(Obj(store), name).Ok? ==> !Utils.Get(Obj(store), name).value.Arr?
      modifies this`store
      ensures match Utils.Get(Obj(old(store)), name)
        case Throw(e) => r == Throw(e) && store == old(store)
        case Ok(found) =>
          r == AssignEach(found, obj, true) &&
          store == if r.Ok? && found.Obj? && obj != map[] then PutIn(old(store), PathArr(name), r.value) else old(store)
    {
      var found := GetIn(name);
      if found.Throw? {
        return Throw(found.error);
      }
      var base := store;
      var find := found.value;
      ghost var done: map<string, Value> := map[];
      var todo := obj;
      while todo != map[]
        invariant base == old(store)
        invariant done.Keys !! todo.Keys && done + todo == obj
        invariant AssignEach(found.value, done, true) == Ok(find)
        invariant store == if found.value.Obj? && done != map[] then PutIn(base, PathArr(name), find) else base
        decreases |todo.Keys|
      {
        var key :| key in todo;
        AssignEachStep(found.value, done, key, todo[key], true);
        var w := Assign(find, key, todo[key]);
        if w.Throw? {
          assert done == map[];
          return Throw(w.error);
        }
        find := w.value;
        if find.Obj? {
          // `find` is the object inside the backing object: the write shows there
          store := PutIn(base, PathArr(name), find);
        }
        VisitKey(done, todo, obj, key);
        done := done[key := todo[key]];
        todo := todo - {key};
      }
      assert done == obj by {
        assert done + todo == done;
      }
      r := Ok(find);
    }

    /** `concat(name, arr)`: as in lib/es6.js. */
    method Concat(name: string, arr: seq<Value>) returns (r: Result<Value>)
      modifies this`store
      ensures r == PushAll(Lookup(old(store), name), arr)
      ensures store == if arr != [] && r.Ok? then old(store)[name := r.value] else old(store)
    {
      var i := 0;
      while i < |arr|
        invariant 0 <= i <= |arr|
        invariant PushAll(Lookup(old(store), name), arr[..i]) == Ok(Lookup(store, name))
        invariant store == if i == 0 then old(store) else old(store)[name := Lookup(store, name)]
      {
        var pushed := Push(Lookup(store, name), arr[i]);
        PushAllStep(Lookup(old(store), name), arr[..i], arr[i]);
        assert arr[..i + 1] == arr[..i] + [arr[i]];
        if pushed.Throw? {
          return Throw(pushed.error);
        }
        store := store[name := pushed.value];
        i := i + 1;
      }
      assert arr[..i] == arr;
      r := Ok(Lookup(store, name));
    }

    /** `concatIn(name, arr)`: as in lib/es6.js. */
    method ConcatIn(name: string, arr: seq<Value>) returns (r: Result<Value>)
      modifies this`store
      ensures match Utils.Get(Obj(old(store)), name)
        case Throw(e) => r == Throw(e) && store == old(store)
        case Ok(found) =>
          r == PushAll(found, arr) &&
          store == if arr != [] && r.Ok? then PutIn(old(store), PathArr(name), r.value) else old(store)
    {
      var found := GetIn(name);
      if found.Throw? {
        return Throw(found.error);
      }
      var base := store;
      var find := found.value;
      var i := 0;
      while i < |arr|
        invariant 0 <= i <= |arr|
        invariant base == old(store)
        invariant PushAll(found.value, arr[..i]) == Ok(find)
        invariant store == if i == 0 then old(store) else PutIn(old(store), PathArr(name), find)
      {
        var pushed := Push(find, arr[i]);
        PushAllStep(found.value, arr[..i], arr[i]);
        assert arr[..i + 1] == arr[..i] + [arr[i]];
        if pushed.Throw? {
          return Throw(pushed.error);
        }
        find := pushed.value;
        store := PutIn(base, PathArr(name), find);
        i := i + 1;
      }
      assert arr[..i] == arr;
      r := Ok(find);
    }

    /** `reset()`: a new empty backing object, which is returned. Armed
        timers stay with the host. */
    method Reset() returns (r: Value)
      modifies this`store
      ensures store == map[] && r == Obj(store)
    {
      store := map[];
      r := Obj(map[]);
    }

    /** `debug(bool)`: sets the flag. */
    method Debug(b: Value)
      modifies this`debug
      ensures debug == b
    {
      debug := b;
    }
  }

  // ---------------------------------------------------------------------
  // Properties

  /** `expire` on a dotted name looks up the timer name as a path: it reads
      `__timeout-<first segment>` and goes on from there, not the entry
      `__timeout-<name>` it stores the timer under, so a timer stored
      earlier under the full name is never found. */
  lemma DottedTimerNameMissesTimer(store: map<string, Value>, p: string, q: string)
    requires Separator !in p && CacheEs6.TimerName(p) !in store
    ensures Utils.Get(Obj(store), CacheEs6.TimerName(p + [Separator] + q)) == Ok(Undef)
  {
    var t := CacheEs6.TimerName(p);
    assert CacheEs6.TimerName(p + [Separator] + q) == t + [Separator] + q;
    assert Separator !in t by {
      assert t == "__timeout-" + p;
    }
    PathArrCons(t, q);
    assert Index(Obj(store), t) == Ok(Undef);
  }

  /** The copy loop of `merge` and `Object.assign` of lib/es6.js agree on
      object entries. */
  lemma MergeAgreesWithEs6(target: Value, obj: map<string, Value>)
    requires target.Obj?
    ensures AssignEach(target, obj, true) == ObjectAssign(target, obj)
    ensures AssignEach(target, obj, true).value.props.Keys == target.props.Keys + obj.Keys
    ensures forall k :: k in obj ==> AssignEach(target, obj, true).value.props[k] == obj[k]
    ensures forall k :: k in target.props && k !in obj ==> AssignEach(target, obj, true).value.props[k] == target.props[k]
  {
    AssignEachIsObjectAssign(target, obj, true);
  }

  // ---------------------------------------------------------------------
  // Scenarios

  /** Expiring the dotted name `a.b` twice leaves both timers armed: the
      first is never cleared. */
  method DottedExpiryScenario() returns (first: bool, second: bool)
    ensures first && second
  {
    var c := new MemoryCache(Undef);
    var name := "a" + [Separator] + "b";
    DottedTimerNameMissesTimer(c.store, "a", "b");
    var _ := c.Set(name, Num(1), Num(10));
    assert c.pending == map[0 := name];
    assert c.store.Keys == {CacheEs6.TimerName(name), name};
    assert CacheEs6.TimerName("a") !in c.store by {
      assert |CacheEs6.TimerName("a")| != |CacheEs6.TimerName(name)|;
      assert |CacheEs6.TimerName("a")| != |name|;
    }
    DottedTimerNameMissesTimer(c.store, "a", "b");
    var _ := c.Expire(name, Num(100));
    first := 0 in c.pending;
    second := 1 in c.pending;
  }

  /** `get` with a dotted name resolves it: `get('test.a.b')` is 'c'. */
  method GetScenario() returns (r: Result<Value>)
    ensures r == Ok(Str("c"))
  {
    var c := new MemoryCache(Undef);
    var _ := c.Set("test", TestObject(), Undef);
    assert "test.a.b" == "test" + [Separator] + "a.b";
    GetDotted(Obj(c.store), "test", "a.b");
    GetPlain(Obj(c.store), "test");
    GetExample();
    r := c.Get(Key("test.a.b"));
  }
}
