/** The original engine, index.js: property reads and writes on the
    backing value it was given (nothing replaces a missing one, so an engine
    built without one fails on every operation but `reset`), in sloppy
    mode. */
module CacheOriginal {
  import opened Values

  /** Backing values the model covers: the object given, or undefined or
      null when none was. */
  predicate Backing(v: Value) {
    v.Undef? || v.Null? || v.Obj?
  }

  class MemoryCache {
    /** `$cache`. */
    var backing: Value

    ghost predicate Valid()
      reads this
    {
      Backing(backing)
    }

    /** `new MemoryCache($cache)`. */
    constructor (init: Value)
      requires Backing(init)
      ensures Valid() && backing == init
    {
      backing := init;
    }

    /** `remove(name)`: `delete $cache[name]`, which reports true; deleting
        from undefined or null fails. */
    method Remove(name: string) returns (r: Result<bool>)
      requires Valid()
      modifies this
      ensures Valid()
      ensures old(backing).Obj? ==> r == Ok(true) && backing == Obj(old(backing).props - {name})
      ensures !old(backing).Obj? ==> r == Throw(ReadOfNullish) && backing == old(backing)
    {
      if !backing.Obj? {
        return Throw(ReadOfNullish);
      }
      backing := Obj(backing.props - {name});
      r := Ok(true);
    }

    /** `get(name)`: `$cache[name]`. */
    method Get(name: string) returns (r: Result<Value>)
      requires Valid()
      ensures r == Index(backing, name)
      ensures backing.Obj? ==> r == Ok(Lookup(backing.props, name))
      ensures !backing.Obj? ==> r == Throw(ReadOfNullish)
    {
      r := Index(backing, name);
    }

    /** `set(name, val)`: `$cache[name] = val`, whose value is `val`. */
    method Set(name: string, val: Value) returns (r: Result<Value>)
      requires Valid()
      modifies this
      ensures Valid()
      ensures old(backing).Obj? ==> r == Ok(val) && backing == Obj(old(backing).props[name := val])
      ensures !old(backing).Obj? ==> r.Throw? && backing == old(backing)
    {
      var w := AssignSloppy(backing, name, val);
      if w.Throw? {
        return Throw(w.error);
      }
      backing := w.value;
      r := Ok(val);
    }

    /** `merge(name, obj)`: `$cache[name][key] = obj[key]` for each key of
        `obj`, reading the entry afresh each time; nothing is returned. A
        write to a primitive entry is dropped. */
    method Merge(name: string, obj: map<string, Value>) returns (r: Result<()>)
      requires Valid()
      requires backing.Obj? ==> !Lookup(backing.props, name).Arr?
      modifies this
      ensures Valid()
      ensures obj == map[] ==> r == Ok(()) && backing == old(backing)
      ensures obj != map[] && !old(backing).Obj? ==> r == Throw(ReadOfNullish) && backing == old(backing)
      ensures obj != map[] && old(backing).Obj? ==>
        var target := Lookup(old(backing).props, name);
        var merged := AssignEach(target, obj, false);
        (merged.Throw? ==> r == Throw(merged.error) && backing == old(backing)) &&
        (merged.Ok? ==>
          r == Ok(()) &&
          backing == if target.Obj? then Obj(old(backing).props[name := merged.value]) else old(backing))
    {
      if obj != map[] && !backing.Obj? {
        // the first `$cache[name]` reads from undefined or null
        return Throw(ReadOfNullish);
      }
      if obj == map[] {
        return Ok(());
      }
      var props := backing.props;
      var target := Lookup(props, name);
      // `$cache[name]` is read afresh on each pass; nothing else writes the
      // backing object meanwhile, so it is the value last written
      var cur := target;
      ghost var done: map<string, Value> := map[];
      var todo := obj;
      while todo != map[]
        invariant old(backing) == Obj(props)
        invariant done.Keys !! todo.Keys && done + todo == obj
        invariant AssignEach(target, done, false) == Ok(cur)
        invariant backing == if target.Obj? && done != map[] then Obj(props[name := cur]) else Obj(props)
        decreases |todo.Keys|
      {
        var key :| key in todo;
        AssignEachStep(target, done, key, todo[key], false);
        var w := AssignSloppy(cur, key, todo[key]);
        if w.Throw? {
          assert done == map[];
          return Throw(w.error);
        }
        cur := w.value;
        if cur.Obj? {
          // the entry is the object written to
          backing := Obj(props[name := cur]);
        }
        VisitKey(done, todo, obj, key);
        done := done[key := todo[key]];
        todo := todo - {key};
      }
      assert done == obj by {
        assert done + todo == done;
      }
      r := Ok(());
    }

    /** `concat(name, arr)`: `$cache[name].concat(arr)`, returned and not
        stored. */
    method Concat(name: string, arr: Value) returns (r: Result<Value>)
      requires Valid()
      requires backing.Obj? ==> !Lookup(backing.props, name).Str?
      ensures !backing.Obj? ==> r == Throw(ReadOfNullish)
      ensures backing.Obj? ==> r == ConcatValue(Lookup(backing.props, name), arr)
    {
      var entry := Index(backing, name);
      if entry.Throw? {
        return Throw(entry.error);
      }
      r := ConcatValue(entry.value, arr);
    }

    /** `reset()`: a new empty backing object, which is returned. */
    method Reset() returns (r: Value)
      modifies this
      ensures Valid()
      ensures backing == Obj(map[]) && r == backing
    {
      backing := Obj(map[]);
      r := backing;
    }
  }

  // ---------------------------------------------------------------------
  // Scenarios

  /** `concat` returns the longer array and leaves the entry as it was. */
  method ConcatScenario() returns (joined: Result<Value>, stored: Result<Value>)
    ensures joined == Ok(Arr([Num(1), Num(2)])) && stored == Ok(Arr([Num(1)]))
  {
    var c := new MemoryCache(Obj(map[]));
    var _ := c.Set("arr", Arr([Num(1)]));
    joined := c.Concat("arr", Num(2));
    assert [Num(1)] + Spread(Num(2)) == [Num(1), Num(2)];
    stored := c.Get("arr");
  }

  /** `merge` adds the keys and keeps the old ones; `remove` reports true
      and the name is gone. */
  method MergeRemoveScenario() returns (merged: Result<Value>, removed: Result<bool>, gone: Result<Value>)
    ensures merged == Ok(Obj(map["merge" := Bool(true), "merged" := Bool(true)]))
    ensures removed == Ok(true) && gone == Ok(Undef)
  {
    var c := new MemoryCache(Obj(map[]));
    var _ := c.Set("m", Obj(map["merge" := Bool(true)]));
    assert Lookup(c.backing.props, "m") == Obj(map["merge" := Bool(true)]);
    var extra := map["merged" := Bool(true)];
    assert "merged" in extra;
    assert AssignEach(Obj(map["merge" := Bool(true)]), extra, false) == Ok(Obj(map["merge" := Bool(true)] + extra));
    assert map["merge" := Bool(true)] + extra == map["merge" := Bool(true), "merged" := Bool(true)];
    var _ := c.Merge("m", extra);
    assert c.backing == Obj(map["m" := Obj(map["merge" := Bool(true), "merged" := Bool(true)])]);
    merged := c.Get("m");
    removed := c.Remove("m");
    gone := c.Get("m");
  }

  /** Without a backing object every operation fails until `reset`. */
  method NoBackingScenario() returns (before: Result<Value>, after: Result<Value>)
    ensures before == Throw(ReadOfNullish) && after == Ok(Num(1))
  {
    var c := new MemoryCache(Undef);
    before := c.Get("a");
    var _ := c.Reset();
    var _ := c.Set("a", Num(1));
    after := c.Get("a");
  }
}
