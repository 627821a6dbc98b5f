/** The event bus of lib/observable.js: a map from event to listener array,
    with `on`, `one`, `off` and `trigger`. Callers' functions are opaque ids;
    calling one is recorded in the bus's call log. */
module Observable {
  import opened Values

  /** The closed set of event kinds (the symbols of the constants table). */
  datatype EventKind = Get | Set | Merge | Concat | Remove | Expire | Reset

  /** What the bus is given as an event: one of the kinds' symbols, or any
      other value (such as the string 'test'), which names no list. */
  datatype EventKey = Symbol(kind: EventKind) | Other(name: string)

  /** A registered listener: a caller's function, or the wrapper `_on` that
      `one` creates around one. Each wrapper is a distinct closure, told apart
      by its serial number; it remembers the event it was registered for. */
  datatype Callback = Fn(id: nat) | Once(serial: nat, event: EventKey, fn: nat) {
    /** The caller's function that runs when this listener is called. */
    function Target(): nat {
      if Fn? then id else fn
    }
  }

  /** One invocation of a caller's function, through the listener `via`. */
  datatype Call<A> = Call(via: Callback, fn: nat, args: A)

  /** A fresh bus: an empty array for every event kind. */
  const Initial: map<EventKey, seq<Callback>> := map[
    Symbol(Get) := [], Symbol(Set) := [], Symbol(Merge) := [], Symbol(Concat) := [],
    Symbol(Remove) := [], Symbol(Expire) := [], Symbol(Reset) := []]

  // ---------------------------------------------------------------------
  // indexOf and splice

  /** `arr.indexOf(x)`: the first position of `x`, or -1. */
  function IndexOf(s: seq<Callback>, x: Callback): (r: int)
    ensures -1 <= r < |s|
    ensures r == -1 <==> x !in s
    ensures r >= 0 ==> s[r] == x && x !in s[..r]
    decreases |s|
  {
    if s == [] then -1
    else if s[0] == x then 0
    else
      var k := IndexOf(s[1..], x);
      assert k >= 0 ==> s[..k + 1] == [s[0]] + s[1..][..k];
      if k == -1 then -1 else k + 1
  }

  /** `arr.splice(idx, 1)` for `idx >= -1`: index -1 counts from the end,
      so it removes the last element (of a non-empty array). */
  function SpliceOne(s: seq<Callback>, idx: int): (r: seq<Callback>)
    requires -1 <= idx < |s|
    ensures |r| == if s == [] then 0 else |s| - 1
    ensures forall k :: 0 <= k < |r| ==> r[k] == s[if idx >= 0 && k >= idx then k + 1 else k]
  {
    if idx >= 0 then s[..idx] + s[idx + 1..]
    else if s == [] then s
    else s[..|s| - 1]
  }

  /** What `off(event, x)` leaves of the event's array. */
  function Without(s: seq<Callback>, x: Callback): seq<Callback> {
    SpliceOne(s, IndexOf(s, x))
  }

  /** Removing a registered callback drops exactly its first occurrence and
      keeps the others in order. */
  lemma WithoutRegistered(s: seq<Callback>, x: Callback)
    requires x in s
    ensures var i := IndexOf(s, x);
      0 <= i < |s| && s[i] == x && x !in s[..i] && Without(s, x) == s[..i] + s[i + 1..]
  {
  }

  /** Removing a callback that is not registered drops the last listener
      (splice at index -1). */
  lemma WithoutUnregistered(s: seq<Callback>, x: Callback)
    requires x !in s
    ensures Without(s, x) == if s == [] then [] else s[..|s| - 1]
  {
  }

  // ---------------------------------------------------------------------
  // Invariants of the listener arrays and the call log

  /** No wrapper occurs twice in one array. */
  ghost predicate NoRepeatedOnce(s: seq<Callback>) {
    forall i, j :: 0 <= i < j < |s| && s[i].Once? ==> s[i] != s[j]
  }

  /** The array of event `e`: its wrappers were made by this bus (serial
      below `n`) for this event, and none occurs twice. */
  ghost predicate Registrations(e: EventKey, s: seq<Callback>, n: nat) {
    (forall i :: 0 <= i < |s| && s[i].Once? ==> s[i].serial < n && s[i].event == e) &&
    NoRepeatedOnce(s)
  }

  /** A wrapper that has been called is no longer registered. */
  ghost predicate Retired(cb: Callback, listeners: map<EventKey, seq<Callback>>, n: nat) {
    cb.Once? ==> cb.serial < n && (cb.event in listeners ==> cb !in listeners[cb.event])
  }

  /** Every wrapper occurs at most once in the call log. */
  ghost predicate CalledAtMostOnce<A>(calls: seq<Call<A>>) {
    forall i, j :: 0 <= i < j < |calls| && calls[i].via.Once? ==> calls[i].via != calls[j].via
  }

  /** The invariant of a bus, over its three fields. */
  ghost predicate Inv<A>(listeners: map<EventKey, seq<Callback>>, n: nat, calls: seq<Call<A>>) {
    listeners.Keys <= Initial.Keys &&
    (forall e :: e in listeners ==> Registrations(e, listeners[e], n)) &&
    (forall i :: 0 <= i < |calls| ==> Retired(calls[i].via, listeners, n)) &&
    CalledAtMostOnce(calls)
  }

  /** Logging a call through a retired listener that has not been called
      before keeps the invariant. */
  lemma RecordCallKeepsInv<A>(listeners: map<EventKey, seq<Callback>>, n: nat, calls: seq<Call<A>>, c: Call<A>)
    requires Inv(listeners, n, calls) && Retired(c.via, listeners, n)
    requires forall j :: 0 <= j < |calls| && calls[j].via.Once? ==> calls[j].via != c.via
    ensures Inv(listeners, n, calls + [c])
  {
    var calls' := calls + [c];
    assert forall i :: 0 <= i < |calls| ==> calls'[i] == calls[i];
  }

  /** Every splice of a non-empty array removes one position. */
  lemma WithoutIsRemoval(s: seq<Callback>, x: Callback) returns (j: nat)
    requires s != []
    ensures j < |s| && Without(s, x) == s[..j] + s[j + 1..]
  {
    var idx := IndexOf(s, x);
    if idx >= 0 {
      j := idx;
    } else {
      j := |s| - 1;
      assert s[j + 1..] == [];
    }
  }

  lemma RemovalKeepsRegistrations(e: EventKey, s: seq<Callback>, j: nat, n: nat)
    requires j < |s| && Registrations(e, s, n)
    ensures Registrations(e, s[..j] + s[j + 1..], n)
    ensures forall y :: y in s[..j] + s[j + 1..] ==> y in s
  {
    var r := s[..j] + s[j + 1..];
    assert forall i :: 0 <= i < |r| ==> r[i] == s[if i < j then i else i + 1];
    forall a, b | 0 <= a < b < |r| && r[a].Once?
      ensures r[a] != r[b]
    {
      var a' := if a < j then a else a + 1;
      var b' := if b < j then b else b + 1;
      assert r[a] == s[a'] && r[b] == s[b'] && a' < b';
    }
  }

  lemma WithoutKeepsRegistrations(e: EventKey, s: seq<Callback>, x: Callback, n: nat)
    requires Registrations(e, s, n)
    ensures Registrations(e, Without(s, x), n)
    ensures forall y :: y in Without(s, x) ==> y in s
    ensures s != [] ==> |Without(s, x)| == |s| - 1
  {
    if s != [] {
      var j := WithoutIsRemoval(s, x);
      RemovalKeepsRegistrations(e, s, j, n);
    }
  }

  lemma WithoutRemovesOnce(s: seq<Callback>, x: Callback)
    requires x.Once? && x in s && NoRepeatedOnce(s)
    ensures x !in Without(s, x)
  {
    var idx := IndexOf(s, x);
    assert Without(s, x) == s[..idx] + s[idx + 1..];
    forall k | idx < k < |s|
      ensures s[k] != x
    {
      assert s[idx] == x;
    }
  }

  // ---------------------------------------------------------------------
  // trigger

  /** `for (const fn of arr) fn.apply(fn, args)` from position `i` of the
      live array `s`: the array the loop leaves and the calls it makes. A
      wrapper first removes itself (`off`), so the listener after it moves
      into its slot and is not reached in this pass. */
  function Dispatch<A>(s: seq<Callback>, i: nat, args: A): (seq<Callback>, seq<Call<A>>)
    decreases |s| - i
  {
    if i >= |s| then (s, [])
    else
      var cb := s[i];
      var s' := if cb.Once? then Without(s, cb) else s;
      var rest := Dispatch(s', i + 1, args);
      (rest.0, [Call(cb, cb.Target(), args)] + rest.1)
  }

  /** One pass of the loop: the listener at `i` is called, after a wrapper
      has removed itself, and the loop goes on at `i + 1`. */
  lemma DispatchStep<A>(s: seq<Callback>, i: nat, args: A)
    requires i < |s|
    ensures var s' := if s[i].Once? then Without(s, s[i]) else s;
      var rest := Dispatch(s', i + 1, args);
      Dispatch(s, i, args) == (rest.0, [Call(s[i], s[i].Target(), args)] + rest.1)
  {
  }

  /** One pass of the trigger loop keeps the bus invariant: the listener at
      position `i` belongs to `event` when it is a wrapper, and once the
      wrapper has unregistered itself, logging its call is allowed. */
  lemma TriggerStepKeepsInv<A>(listeners: map<EventKey, seq<Callback>>, n: nat, calls: seq<Call<A>>,
                               event: EventKey, i: nat, args: A)
    requires Inv(listeners, n, calls) && event in listeners && i < |listeners[event]|
    ensures var cb := listeners[event][i];
      var after := if cb.Once? then listeners[event := Without(listeners[event], cb)] else listeners;
      (cb.Once? ==> cb.event == event) &&
      Inv(after, n, calls + [Call(cb, cb.Target(), args)])
  {
    var s := listeners[event];
    var cb := s[i];
    assert cb in s;
    forall j | 0 <= j < |calls| && calls[j].via.Once?
      ensures calls[j].via != cb
    {
      assert Retired(calls[j].via, listeners, n);
    }
    if cb.Once? {
      assert Registrations(event, s, n);
      WithoutRemovesOnce(s, cb);
      WithoutKeepsRegistrations(event, s, cb, n);
      var after := listeners[event := Without(s, cb)];
      forall k | 0 <= k < |calls|
        ensures Retired(calls[k].via, after, n)
      {
        assert Retired(calls[k].via, listeners, n);
      }
      assert Inv(after, n, calls);
      RecordCallKeepsInv(after, n, calls, Call(cb, cb.Target(), args));
    } else {
      RecordCallKeepsInv(listeners, n, calls, Call(cb, cb.Target(), args));
    }
  }

  /** Updating one key twice keeps only the second value. */
  lemma UpdateTwice(m: map<EventKey, seq<Callback>>, k: EventKey, a: seq<Callback>, b: seq<Callback>)
    ensures m[k := a][k := b] == m[k := b]
  {
  }

  /** Logging one call and then the rest of a pass is logging the pass. */
  lemma LogStep<A>(logged: seq<Call<A>>, c: Call<A>, rest: seq<Call<A>>)
    ensures (logged + [c]) + rest == logged + ([c] + rest)
  {
  }

  /** The calls a trigger makes on an array of plain listeners. */
  function CallsOf<A>(s: seq<Callback>, args: A): (r: seq<Call<A>>)
    ensures |r| == |s|
    ensures forall k :: 0 <= k < |s| ==> r[k] == Call(s[k], s[k].Target(), args)
  {
    seq(|s|, k requires 0 <= k < |s| => Call(s[k], s[k].Target(), args))
  }

  /** On an array without `one` wrappers, a trigger calls every listener
      once, in array order, with the arguments, and leaves the array as it
      was. */
  lemma {:induction false} DispatchPlain<A>(s: seq<Callback>, i: nat, args: A)
    requires i <= |s|
    requires forall k :: 0 <= k < |s| ==> s[k].Fn?
    ensures Dispatch(s, i, args) == (s, CallsOf(s[i..], args))
    decreases |s| - i
  {
    if i < |s| {
      DispatchPlain(s, i + 1, args);
      assert CallsOf(s[i..], args) == [Call(s[i], s[i].Target(), args)] + CallsOf(s[i + 1..], args);
    }
  }

  /** A `one` wrapper at position `i` of the live array runs and removes
      itself; the loop resumes at `i + 1` of the shortened array, where the
      listener that followed the wrapper now sits at `i`, so it is skipped
      in this pass. */
  lemma OnceSkipsSuccessor<A>(s: seq<Callback>, i: nat, args: A)
    requires i < |s| && s[i].Once? && NoRepeatedOnce(s)
    ensures var s' := s[..i] + s[i + 1..];
      var rest := Dispatch(s', i + 1, args);
      Dispatch(s, i, args) == (rest.0, [Call(s[i], s[i].Target(), args)] + rest.1)
    ensures i + 1 < |s| ==> (s[..i] + s[i + 1..])[i] == s[i + 1]
  {
    var j := WithoutIsRemoval(s, s[i]);
    assert IndexOf(s, s[i]) == i;
  }

  /** The two-listener case: a `one` wrapper followed by another listener;
      the wrapper runs and removes itself, and the other listener is not
      called in that pass. */
  lemma OnceSkipsSuccessorExample<A>(w: Callback, other: Callback, args: A)
    requires w.Once? && other != w
    ensures Dispatch([w, other], 0, args) == ([other], [Call(w, w.fn, args)])
  {
    assert IndexOf([w, other], w) == 0;
    assert Without([w, other], w) == [other];
    var rest := Dispatch([other], 1, args);
    assert rest == ([other], []);
    assert Dispatch([w, other], 0, args) == (rest.0, [Call(w, w.Target(), args)] + rest.1);
    assert [Call(w, w.fn, args)] + [] == [Call(w, w.fn, args)];
  }

  // ---------------------------------------------------------------------
  // The bus

  class Bus<A> {
    var listeners: map<EventKey, seq<Callback>>
    var nextSerial: nat
    var calls: seq<Call<A>>

    ghost predicate Valid()
      reads this
    {
      Inv(listeners, nextSerial, calls)
    }

    /** `observable()`. */
    constructor ()
      ensures Valid()
      ensures listeners == Initial && nextSerial == 0 && calls == []
    {
      listeners := Initial;
      nextSerial := 0;
      calls := [];
    }

    /** The effect of `trigger(event, args)`. */
    twostate predicate Notified(event: EventKey, args: A)
      reads this
    {
      nextSerial == old(nextSerial) &&
      if event in old(listeners) then
        var d := Dispatch(old(listeners)[event], 0, args);
        listeners == old(listeners)[event := d.0] && calls == old(calls) + d.1
      else
        listeners == old(listeners) && calls == old(calls)
    }

    /** `on(event, fn)`; `fn` is None when the argument is not a function.
        A function is appended to the event's array; an event with no array
        fails (`map.get(event).push`). */
    method On(event: EventKey, fn: Option<nat>) returns (r: Result<()>)
      requires Valid()
      modifies this
      ensures Valid()
      ensures r.Throw? <==> fn.Some? && event !in old(listeners)
      ensures listeners == if fn.Some? && event in old(listeners)
        then old(listeners)[event := old(listeners)[event] + [Fn(fn.value)]]
        else old(listeners)
      ensures nextSerial == old(nextSerial) && calls == old(calls)
    {
      if fn.Some? {
        if event !in listeners {
          return Throw(ReadOfNullish);
        }
        listeners := listeners[event := listeners[event] + [Fn(fn.value)]];
      }
      r := Ok(());
    }

    /** `one(event, fn)`: registers a new wrapper around `fn` with `on`. */
    method One(event: EventKey, fn: nat) returns (r: Result<()>)
      requires Valid()
      modifies this
      ensures Valid()
      ensures nextSerial == old(nextSerial) + 1 && calls == old(calls)
      ensures r.Throw? <==> event !in old(listeners)
      ensures listeners == if event in old(listeners)
        then old(listeners)[event := old(listeners)[event] + [Once(old(nextSerial), event, fn)]]
        else old(listeners)
    {
      var wrapper := Once(nextSerial, event, fn);
      nextSerial := nextSerial + 1;
      if event !in listeners {
        return Throw(ReadOfNullish);
      }
      listeners := listeners[event := listeners[event] + [wrapper]];
      r := Ok(());
    }

    /** `off(event, fn)`: with a callback, splices the event's array at the
        callback's index (-1 when absent); without one, deletes the event. */
    method Off(event: EventKey, fn: Option<Callback>) returns (r: Result<()>)
      requires Valid()
      modifies this
      ensures Valid()
      ensures r.Throw? <==> fn.Some? && event !in old(listeners)
      ensures listeners ==
        if fn.None? then old(listeners) - {event}
        else if event in old(listeners) then old(listeners)[event := Without(old(listeners)[event], fn.value)]
        else old(listeners)
      ensures nextSerial == old(nextSerial) && calls == old(calls)
    {
      if fn.Some? {
        if event !in listeners {
          return Throw(ReadOfNullish);
        }
        WithoutKeepsRegistrations(event, listeners[event], fn.value, nextSerial);
        listeners := listeners[event := Without(listeners[event], fn.value)];
      } else {
        listeners := listeners - {event};
      }
      r := Ok(());
    }

    /** `fn.apply(fn, args)` for the listener at position `i` of the
        event's array: a wrapper (`_on`) first unregisters itself with
        `off`, then the call is made and logged. */
    method CallAt(event: EventKey, i: nat, args: A)
      requires Valid() && event in listeners && i < |listeners[event]|
      modifies this
      ensures Valid() && nextSerial == old(nextSerial)
      ensures var cb := old(listeners)[event][i];
        listeners == old(listeners)[event := if cb.Once? then Without(old(listeners)[event], cb) else old(listeners)[event]] &&
        calls == old(calls) + [Call(cb, cb.Target(), args)]
    {
      var cb := listeners[event][i];
      TriggerStepKeepsInv(listeners, nextSerial, calls, event, i, args);
      if cb.Once? {
        var _ := Off(cb.event, Some(cb));
      }
      calls := calls + [Call(cb, cb.Target(), args)];
    }

    /** `trigger(event, args)`: calls the listeners of the event in order,
        walking the live array by index; an event with no array calls
        nothing. */
    method Trigger(event: EventKey, args: A)
      requires Valid()
      modifies this
      ensures Valid()
      ensures Notified(event, args)
    {
      if event !in listeners {
        return;
      }
      ghost var initial := listeners;
      ghost var total := Dispatch(listeners[event], 0, args);
      var i := 0;
      while i < |listeners[event]|
        invariant Valid() && event in listeners
        invariant nextSerial == old(nextSerial)
        invariant listeners == initial[event := listeners[event]]
        invariant Dispatch(listeners[event], i, args).0 == total.0
        invariant calls + Dispatch(listeners[event], i, args).1 == old(calls) + total.1
        decreases |listeners[event]| - i
      {
        ghost var before := listeners[event];
        ghost var logged := calls;
        ghost var cb := before[i];
        CallAt(event, i, args);
        UpdateTwice(initial, event, before, listeners[event]);
        DispatchStep(before, i, args);
        ghost var rest := Dispatch(listeners[event], i + 1, args);
        assert Dispatch(before, i, args) == (rest.0, [Call(cb, cb.Target(), args)] + rest.1);
        LogStep(logged, Call(cb, cb.Target(), args), rest.1);
        i := i + 1;
      }
    }
  }

  // ---------------------------------------------------------------------
  // The scenarios of test/index.js

  /** Three triggers of an `on` listener call it three times. */
  method TriggerThrice() returns (count: nat)
    ensures count == 3
  {
    var bus := new Bus<()>();
    var _ := bus.On(Symbol(Get), Some(0));
    assert bus.listeners[Symbol(Get)] == [Fn(0)];
    DispatchPlain([Fn(0)], 0, ());
    bus.Trigger(Symbol(Get), ());
    bus.Trigger(Symbol(Get), ());
    bus.Trigger(Symbol(Get), ());
    count := |bus.calls|;
  }

  /** Three triggers of a `one` listener call it once. */
  method TriggerOnce() returns (count: nat)
    ensures count == 1
  {
    var bus := new Bus<()>();
    var _ := bus.One(Symbol(Get), 0);
    var w := Once(0, Symbol(Get), 0);
    assert bus.listeners[Symbol(Get)] == [w];
    assert IndexOf([w], w) == 0;
    assert Without([w], w) == [];
    var rest := Dispatch([], 1, ());
    assert rest == ([], []);
    assert Dispatch([w], 0, ()) == (rest.0, [Call(w, 0, ())] + rest.1);
    bus.Trigger(Symbol(Get), ());
    assert bus.listeners[Symbol(Get)] == [];
    bus.Trigger(Symbol(Get), ());
    bus.Trigger(Symbol(Get), ());
    count := |bus.calls|;
  }

  /** A listener removed with `off` is not called. */
  method OffThenTrigger() returns (count: nat)
    ensures count == 0
  {
    var bus := new Bus<()>();
    var _ := bus.On(Symbol(Get), Some(0));
    var _ := bus.Off(Symbol(Get), Some(Fn(0)));
    assert Without([Fn(0)], Fn(0)) == [];
    bus.Trigger(Symbol(Get), ());
    count := |bus.calls|;
  }

  /** Subscribing to a string event fails; once an event's array is deleted
      by `off` without a callback, triggering it does nothing and
      subscribing to it fails. */
  method UnknownAndDeletedEvents() returns (onString: Result<()>, onDeleted: Result<()>, count: nat)
    ensures onString.Throw? && onDeleted.Throw? && count == 0
  {
    var bus := new Bus<()>();
    onString := bus.On(Other("test"), Some(0));
    var _ := bus.Off(Symbol(Get), None);
    bus.Trigger(Symbol(Get), ());
    onDeleted := bus.On(Symbol(Get), Some(0));
    count := |bus.calls|;
  }
}
