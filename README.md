# memory-cache in Dafny

A model of the memory-cache JavaScript library: a small in-memory key/value
cache with expiry timers. The model covers four engines and the two helpers
they share.

- **lib/index.js** — the current engine. The cache is a `Map` that keeps
  insertion order. A second map holds the expiry timers. The `events` and
  `debug` switches are set at construction or through setters. With events
  on, `get`, `set`, `remove`, `merge`, `concat` and `reset` notify the
  listeners of their event kind through the observable. `expire` notifies
  when its timer fires, not when the timer is armed. `has`, `each`, `size`
  and `keys` never notify.
- **lib/es6.js** and **lib/es5.js** — two earlier engines over a plain
  backing object. They add path operations (`getIn`, `setIn`, `mergeIn`,
  `concatIn`) on dotted names. Each keeps its expiry timer in the cache
  itself, under the name `__timeout-<name>`. In the es5 engine `get`
  resolves the name as a path.
- **index.js** — the original engine, in sloppy mode. Its operations are
  bare property reads and writes on the object it was given.
- **lib/utils.js** — path helpers: `pathArr`, `findInObj` and `get`.
- **lib/observable.js** — the event bus behind lib/index.js: `on`, `one`,
  `off` and `trigger` over a `Map` from event symbols to arrays of
  callbacks.

## Model files

| file | module | models |
|---|---|---|
| values.dfy | `Values` | JavaScript values and their operations: property read and write, array index keys, `Object.assign`, a for-in copy in strict or sloppy mode, `concat` and `push`, truthiness, and the TypeErrors they throw |
| utils.dfy | `Utils` | lib/utils.js. `Split`/`PathArr` and the lookup `FindIn` are functions. `findInObj`, which consumes its array as it goes, is the method `FindInObj` over the class `SegmentArray`. `PutIn` and `WriteIn` describe how a write through a path shows up in the backing object |
| observable.dfy | `Observable` | lib/observable.js. The bus is the class `Bus` with a ghost log of the calls made. `Dispatch` says what `trigger` calls while `one` wrappers remove themselves from the live array |
| cache.dfy | `Cache` | lib/index.js. The class `MemoryCache` keeps entries in a map plus a key-order sequence. Timers are handles in a pending map. Event emission goes to a `Bus<Payload>`, with a ghost history of emitted events |
| cache_es6.dfy | `CacheEs6` | lib/es6.js |
| cache_es5.dfy | `CacheEs5` | lib/es5.js |
| cache_original.dfy | `CacheOriginal` | index.js |

Model conventions:

- **Values.** A JavaScript value is the datatype `Value`.
  - An object is the map of its own enumerable properties.
  - An array is the sequence of its elements.
  - A timer is an opaque `Handle`.
- **Errors.** An operation that throws returns `Throw(e)` in a `Result`.
- **Timers.** The host's timer queue is the map `pending` from handles to what each timer will do. The method `FireTimer(h)` stands for the host running timer `h`.
- **Names.** A method named after the source's method models that method. Its `ensures` give the whole new state.
- **Properties.** Lemmas tie the operations to each other and to their reference functions: write then read, the frame of a write, round trips of path splitting and index keys, and the invariant of the bus.
- **Scenarios.** Methods at the end of each file replay the repository's own tests on the model.

## Model

| member | source | states |
|---|---|---|
| Values.DecimalIsIndexKey | lib/utils.js:12 | the decimal numeral of any natural number is an array index key, and reading it back gives the number |
| Values.LeadingDigitPositive | lib/utils.js:12 | a digit string that does not start with 0 denotes a positive number |
| Values.IndexKeyRoundTrip | lib/utils.js:12 | every index key is the decimal numeral of its value, so the key-to-index mapping is one-to-one |
| Values.IndexKeysDistinct | lib/utils.js:12 | distinct index keys address distinct elements |
| Values.IndexDigit | test.js:112-113 | reading a one-digit key of an array gives the element at that position |
| Values.WriteElement | lib/es6.js:87 | writing element i: the length grows to i+1 if needed, element i is the new value, the other elements are unchanged, and the gap reads as undefined |
| Values.AssignThenIndex | lib/es6.js:87 | a property write onto an object, or onto an array element, succeeds, and reading the same key gives the value written |
| Values.AssignFrame | lib/es6.js:87 | a successful property write leaves every other key's value as it was |
| Values.AssignSloppy | index.js:29 | a sloppy-mode write throws exactly on undefined or null, is dropped on a primitive, and is a strict write otherwise |
| Values.ObjectAssign | lib/index.js:238 | `Object.assign` throws exactly on undefined or null. On an object, the keys become the union, every source key takes the source value, and every other key keeps its value. A timer target is returned as is |
| Values.AssignEach | lib/es5.js:118-128 | a for-in copy: an empty source changes nothing. It throws (a write to a non-object) exactly when the source is non-empty and the target is undefined or null, or, in strict mode, a primitive. The result is an object exactly when the target is. A non-object target is returned unchanged |
| Values.AssignEachIsObjectAssign | lib/es5.js:118-128 | on objects and timers, the for-in copy and `Object.assign` give the same result |
| Values.AssignEachSingle | lib/es5.js:124 | copying one key is one strict or sloppy property write |
| Values.AssignEachSplit | lib/es5.js:122-125 | copying `a` and then `b` is copying `a + b` |
| Values.AssignEachStep | lib/es5.js:122-125 | one more loop iteration is one more property write on what the earlier iterations built |
| Values.VisitKey | lib/es5.js:122 | a for-in step moves one key from the keys to visit to the keys visited. The two stay disjoint, their union stays the source, and fewer keys remain |
| Values.ConcatValue | lib/index.js:259 | `concat` succeeds exactly on arrays and gives the old elements followed by the argument spread. It fails with a read of undefined/null or a not-a-function error otherwise |
| Values.PushAll | lib/es6.js:146-149 | the push loop: nothing is read when the list is empty. Otherwise it succeeds exactly on arrays, keeps the old elements as a prefix and appends every new element in order |
| Values.PushAllStep | lib/es6.js:146-149 | one more iteration of the push loop is one more `push` on the loop's result so far, and a throw propagates |
| Utils.Split | lib/utils.js:7 | splitting always gives at least one segment |
| Utils.PathArr | lib/utils.js:5-8 | a path array has at least one segment, and the empty path gives `[""]` |
| Utils.JoinSplit | lib/utils.js:7 | joining the segments with the separator gives back the original path |
| Utils.SplitCount | lib/utils.js:7 | the number of segments is one more than the number of separators |
| Utils.SplitSegmentsPlain | lib/utils.js:7 | no segment contains the separator |
| Utils.PathArrPlain | lib/utils.js:5-8 | a name without a dot is a single segment |
| Utils.NoOccurrences | lib/utils.js:7 | a string without the separator has zero occurrences of it |
| Utils.SplitAppend | lib/utils.js:7 | splitting `p.q` is splitting `p` followed by splitting `q` |
| Utils.Consumed | lib/utils.js:10-19 | `findInObj` consumes at least one and at most all segments |
| Utils.FindInSingle | lib/utils.js:10-19 | resolving a single segment is a property read |
| Utils.FullTraversal | lib/utils.js:14-16 | a path that resolves to a defined value consumes every segment |
| Utils.FindInAppend | lib/utils.js:10-19 | resolving `p + q` is resolving `q` from what `p` gives, unless `p` threw or stopped at undefined |
| Utils.GetDotted | lib/utils.js:21-24 | `get` of `p.q` is `get` of `q` on what `p` gives. A throw or an undefined value along `p` decides the result |
| Utils.GetPlain | lib/utils.js:21-24 | `get` of a name without a dot is a property read |
| Utils.SegmentArray.constructor | lib/utils.js:23 | the segment array holds the path segments |
| Utils.SegmentArray.Shift | lib/utils.js:12 | `shift` removes and returns the first segment, and gives nothing on an empty array |
| Utils.SegmentArray.Pop | lib/es6.js:84 | `pop` removes and returns the last segment |
| Utils.FindInObj | lib/utils.js:10-19 | the recursive method gives the reference lookup `FindIn`, and leaves exactly the unconsumed segments in the array |
| Utils.PutAt | lib/es6.js:87 | a write back along a path keeps the root an object, or an array, as it was |
| Utils.PutAtThenFind | lib/es6.js:85-87 | after the write back, resolving the same path gives the new value |
| Utils.PutInFrame | lib/es6.js:85-87 | a write through a path leaves every other top-level entry, and its presence, unchanged |
| Utils.PutInThenGet | lib/es6.js:133-135 | after writing a value back at a path that resolved to a defined value, `get` of the path gives it |
| Utils.WriteInFails | lib/es6.js:82-88 | `setIn` on a dotted path throws exactly when resolving the parent throws or yields undefined, null or a primitive |
| Utils.WriteInThenGet | lib/es6.js:73-96 | when the parent is an object, or an array and the last segment an index, `setIn` succeeds and `getIn` of the path gives the value |
| Utils.WriteInFrame | lib/es6.js:73-96 | `setIn` leaves every top-level entry other than the path's first segment unchanged |
| Utils.PathArrCons | lib/utils.js:7 | the path array of `p.q`, for `p` without a dot, is `p` followed by the path array of `q` |
| Utils.GetExample | test.js:16-20 | `pathArr('a.b')` has two segments and `get(test, 'a.b')` is `'c'` |
| Observable.IndexOf | lib/observable.js:25 | `indexOf` gives -1 exactly when the callback is absent, and otherwise the position of its first occurrence |
| Observable.SpliceOne | lib/observable.js:27 | `splice(idx, 1)` removes the element at idx. With -1 it removes the last element, and an empty array stays empty |
| Observable.WithoutRegistered | lib/observable.js:24-27 | `off` with a registered callback removes its first occurrence |
| Observable.WithoutUnregistered | lib/observable.js:24-27 | `off` with a callback that is not registered removes the last callback of the event |
| Observable.RecordCallKeepsInv | lib/observable.js:40-44 | recording a call of a retired `one` wrapper that was not called before keeps the bus invariant |
| Observable.WithoutIsRemoval | lib/observable.js:24-27 | every `off` on a non-empty array removes exactly one position |
| Observable.RemovalKeepsRegistrations | lib/observable.js:27 | removing one position keeps every callback in the event's array well-formed, and adds no callback |
| Observable.WithoutKeepsRegistrations | lib/observable.js:24-27 | `off` keeps the array well-formed, adds no callback, and shortens a non-empty array by one |
| Observable.WithoutRemovesOnce | lib/observable.js:42 | after a `one` wrapper unsubscribes itself it is no longer registered |
| Observable.DispatchPlain | lib/observable.js:56-59 | when no `one` wrapper is registered, `trigger` calls every callback once in order and leaves the array unchanged |
| Observable.OnceSkipsSuccessor | lib/observable.js:40-44 | in any array without repeated wrappers, a `one` wrapper at position i is called and removes itself. The loop resumes at i+1 of the shortened array, where the listener that followed the wrapper now sits at i, so that listener is skipped in this pass |
| Observable.OnceSkipsSuccessorExample | lib/observable.js:56-59 | the two-listener example: triggering `[wrapper, other]` calls only the wrapper and leaves `[other]` |
| Observable.Bus.constructor | lib/observable.js:5-7 | a new bus has an empty array for each of the seven event symbols and has made no calls |
| Observable.Bus.On | lib/observable.js:9-18 | a function is appended to the event's array; a non-function changes nothing. Pushing onto an event with no array throws |
| Observable.Bus.One | lib/observable.js:37-47 | a new wrapper is appended, with a fresh serial, to the event's array, or the call throws when the event has none |
| Observable.Bus.Off | lib/observable.js:20-35 | with a callback, the splice at its `indexOf` position (throwing when the event has no array); without one, the event's array is deleted |
| Observable.TriggerStepKeepsInv | lib/observable.js:40-44 | a `one` wrapper at any position of its event's array belongs to that event. After it removes itself, logging its call keeps the bus invariant, and so does logging a plain listener's call |
| Observable.Bus.CallAt | lib/observable.js:40-44 | `fn.apply` on the listener at position i: a `one` wrapper first splices itself out of its event's array. The call is then logged, the bus invariant is kept, and nothing else changes |
| Observable.Bus.Trigger | lib/observable.js:49-62 | the calls made and the new arrays are those of `Dispatch`, over the live array (no calls for an event with no array). The bus invariant (each `one` wrapper called at most once) is kept |
| Observable.TriggerThrice | test/index.js:55-66 | three triggers of an `on` listener call it three times |
| Observable.TriggerOnce | test/index.js:93-104 | three triggers of a `one` listener call it once |
| Observable.OffThenTrigger | test/index.js:79-91 | a listener removed with `off` is not called |
| Observable.UnknownAndDeletedEvents | test/index.js:34-41 | subscribing to a string event throws. After `off` without a callback, the event is silent and subscribing to it throws |
| Cache.Erase | lib/index.js:27 | deleting a name from the key order removes exactly that name, keeps the order distinct and changes nothing if absent |
| Cache.EraseKeepsOrder | lib/index.js:27 | deleting a present name from a duplicate-free key order takes out its one position, and the other names keep their relative order |
| Cache.DistinctSize | lib/index.js:76-82 | a distinct key order has as many names as the map has keys |
| Cache.EntryMap | lib/index.js:19 | the initial map has exactly the initial names |
| Cache.EntryMapValues | lib/index.js:19 | with distinct initial names, each name maps to its initial value |
| Cache.MemoryCache.constructor | lib/index.js:12-20 | the initial entries in their order, no timers, `events`/`debug` as the truthiness of the options, and a fresh bus with empty arrays |
| Cache.MemoryCache.Emit | lib/index.js:41-44 | with events on, the listeners of the kind are notified and the event is recorded; with events off, nothing happens |
| Cache.MemoryCache.Put | lib/index.js:26 | `Map.set`: the value is stored; a new name goes to the end of the order and an existing one keeps its place |
| Cache.MemoryCache.Drop | lib/index.js:35-39 | the name leaves the map, the order and the timer map |
| Cache.MemoryCache.Get | lib/index.js:143-175 | `get(true)` gives the whole cache as an object and `get(name)` the entry or undefined. The read is announced |
| Cache.MemoryCache.Set | lib/index.js:178-204 | the value is stored and returned and the set is announced. A truthy `expires` re-arms the name's timer, clearing any previous one. Otherwise no timer changes |
| Cache.MemoryCache.Expire | lib/index.js:207-230 | a new timer for the name replaces (and clears) the old one |
| Cache.MemoryCache.FireTimer | lib/index.js:218-225 | the timer removes its name from the cache and the timer map and announces the expiry |
| Cache.MemoryCache.Remove | lib/index.js:125-140 | reports whether the name was there and removes it from the map. The key order loses exactly that name's position, and the other names keep their insertion order. The old value is announced |
| Cache.MemoryCache.Merge | lib/index.js:233-250 | `Object.assign` onto the entry, which is stored when it is an object. It throws on undefined or null, announcing nothing |
| Cache.MemoryCache.Concat | lib/index.js:253-273 | the concatenated array is stored and returned and announced. A non-array entry throws and nothing changes |
| Cache.MemoryCache.Reset | lib/index.js:276-286 | the cache, order and timer map become empty and a reset is announced; pending timers stay armed |
| Cache.MemoryCache.Has | lib/index.js:110-115 | true exactly when the name is present |
| Cache.MemoryCache.Size | lib/index.js:76-82 | the number of entries, which is also the length of the key order |
| Cache.MemoryCache.Keys | lib/index.js:84-90 | the names in insertion order, without repeats, exactly the names present |
| Cache.MemoryCache.Each | lib/index.js:117-122 | one `(value, name)` call per entry, in insertion order |
| Cache.MemoryCache.SetEvents | lib/index.js:92-98 | `events` becomes the truthiness of the value |
| Cache.MemoryCache.SetDebug | lib/index.js:100-106 | `debug` becomes the truthiness of the value |
| Cache.MemoryCache.On | lib/index.js:52-59 | `on<Kind>` is the bus's `on` for that kind's symbol |
| Cache.MemoryCache.One | lib/index.js:61-66 | `one<Kind>` is the bus's `one` for that kind's symbol |
| Cache.MemoryCache.Off | lib/index.js:68-73 | `off<Kind>` is the bus's `off` for that kind's symbol |
| Cache.StaleTimerAfterReset | lib/index.js:276-286 | a timer armed before `reset` still deletes a name set again afterwards |
| Cache.RearmedExpiry | test/index.js:211-235 | re-arming an expiry clears the first timer, and the second removes the name and its timer entry |
| Cache.OrderScenario | test/index.js:244-276 | initial entries then a `set` give keys in insertion order and the matching size |
| Cache.RemoveKeepsOrderScenario | lib/index.js:84-90 | after removing `b` from `a, b, c`, the keys are `a, c` |
| Cache.RemoveScenario | test/index.js:185-192 | `remove` reports true, then false, and the name reads undefined |
| Cache.MergeScenario | test/index.js:202-209 | merging `{merged: true}` into `{merge: true}` gives both keys |
| Cache.ConcatScenario | test/index.js:194-200 | `concat` stores and returns the longer array |
| Cache.EventScenario | test/index.js:278-320 | with events on, `set` and `remove` are recorded and the remove listener receives the removed value |
| Cache.ResetTwiceScenario | test/index.js:237-242 | `reset` empties the cache and is announced each time |
| Cache.QuietScenario | lib/index.js:165-168 | with events off, listeners are never called |
| CacheEs6.TimerName | lib/es6.js:104 | the timer name is the name prefixed with `__timeout-`, so it differs from the name and determines it |
| CacheEs6.MemoryCache.constructor | lib/es6.js:9-14 | the given object, or an empty one when the argument is falsy; no timers; debug off |
| CacheEs6.MemoryCache.Remove | lib/es6.js:19-26 | always reports true, and the name is gone |
| CacheEs6.MemoryCache.Get | lib/es6.js:29-42 | `get(true)` gives the backing object; otherwise the top-level entry, with no path resolution |
| CacheEs6.MemoryCache.GetIn | lib/es6.js:45-53 | `getIn` is the path lookup `get` of lib/utils.js on the backing object |
| CacheEs6.MemoryCache.Set | lib/es6.js:56-70 | a number `expiresIn` first re-arms the timer stored under the timer name; then the value is stored and returned |
| CacheEs6.MemoryCache.Expire | lib/es6.js:99-116 | the timer found under the timer name (if truthy) is cleared, and the new one is stored there |
| CacheEs6.MemoryCache.FireTimer | lib/es6.js:110-113 | the timer removes its name and nothing else; its timer entry stays |
| CacheEs6.MemoryCache.SetIn | lib/es6.js:73-96 | the backing object after `setIn` is the one `WriteIn` describes, and the value is returned; the TypeError otherwise |
| CacheEs6.MemoryCache.Merge | lib/es6.js:119-126 | `Object.assign` onto the entry, which is written back when it is an object |
| CacheEs6.MemoryCache.MergeIn | lib/es6.js:129-138 | `Object.assign` onto what the path resolves to, written back along the path |
| CacheEs6.MemoryCache.Concat | lib/es6.js:141-154 | the push loop on the entry, written back when it ran |
| CacheEs6.MemoryCache.ConcatIn | lib/es6.js:157-172 | the push loop on what the path resolves to, written back along the path |
| CacheEs6.MemoryCache.Reset | lib/es6.js:175-182 | a new empty backing object, which is returned; armed timers stay pending |
| CacheEs6.MemoryCache.Debug | lib/es6.js:185-188 | the flag is the argument, which is returned |
| CacheEs6.SetInThenGetIn | test.js:78-81 | `setIn` then `getIn` of the same path gives the value, and other entries are unchanged |
| CacheEs6.MergeInThenGetIn | test.js:121-124 | after `mergeIn`, `getIn` of the path gives the merged object, which has every merged key |
| CacheEs6.ConcatInThenGetIn | test.js:105-113 | after `concatIn`, `getIn` of the path gives the old elements followed by the new ones |
| CacheEs6.TestArrPath | test.js:105 | `test.arr` resolves to `[1, 2, 3, 4, 5]` |
| CacheEs6.ExpiryScenario | test.js:127-144 | re-arming clears the first timer; the fired timer removes the name and leaves the timer entry |
| CacheEs6.RemoveScenario | test.js:68-71 | `remove` reports true even when the name is already gone |
| CacheEs6.ConcatInScenario | test.js:107-113 | after pushing `[6,7,8,9,0]`, `test.arr.8` is 9 and `test.arr.9` is 0 |
| CacheEs5.MemoryCache.constructor | lib/es5.js:6-10 | the given object, or an empty one when the argument is falsy; no timers; debug off |
| CacheEs5.MemoryCache.Remove | lib/es5.js:38-42 | always reports true, and the name is gone |
| CacheEs5.MemoryCache.Get | lib/es5.js:45-55 | `get(true)` gives the backing object; any other name is resolved as a path |
| CacheEs5.MemoryCache.GetIn | lib/es5.js:58-63 | `getIn` is the path lookup of the backing object |
| CacheEs5.MemoryCache.Set | lib/es5.js:66-77 | a number `expiresIn` first runs `expire`, whose error propagates; then the value is stored at the top level and returned |
| CacheEs5.MemoryCache.Expire | lib/es5.js:101-115 | the timer name is looked up as a path. A truthy timer found is cleared, and the new one is stored under the timer name |
| CacheEs5.MemoryCache.FireTimer | lib/es5.js:111-114 | the timer removes its name and nothing else |
| CacheEs5.MemoryCache.SetIn | lib/es5.js:80-98 | as in lib/es6.js: the backing object `WriteIn` describes, or the TypeError |
| CacheEs5.MemoryCache.Merge | lib/es5.js:118-128 | the strict for-in copy onto the entry, written back when it is an object; the entry is returned, or the TypeError of the first write |
| CacheEs5.MemoryCache.MergeIn | lib/es5.js:131-142 | the strict for-in copy onto what the path resolves to, written back along the path |
| CacheEs5.MemoryCache.Concat | lib/es5.js:145-155 | the push loop on the entry, written back when it ran |
| CacheEs5.MemoryCache.ConcatIn | lib/es5.js:158-170 | the push loop on what the path resolves to, written back along the path |
| CacheEs5.MemoryCache.Reset | lib/es5.js:173-177 | a new empty backing object, which is returned |
| CacheEs5.MemoryCache.Debug | lib/es5.js:180-183 | the flag becomes the argument |
| CacheEs5.DottedTimerNameMissesTimer | lib/es5.js:103-110 | for a dotted name, the timer lookup resolves `__timeout-<first segment>` as a path, so a timer stored under the full timer name is never found |
| CacheEs5.MergeAgreesWithEs6 | lib/es5.js:118-128 | on an object entry, the es5 copy loop equals lib/es6.js's `Object.assign`: the union of keys, with merged values winning |
| CacheEs5.DottedExpiryScenario | lib/es5.js:101-115 | expiring `a.b` twice leaves both timers pending |
| CacheEs5.GetScenario | test.js:74 | `get('test.a.b')` resolves the path to `'c'` |
| CacheOriginal.MemoryCache.constructor | index.js:6 | the backing value is the argument as given, with no default |
| CacheOriginal.MemoryCache.Remove | index.js:11-16 | on an object, the name is deleted and true is returned; without a backing object it throws |
| CacheOriginal.MemoryCache.Get | index.js:19-24 | the property read, which throws without a backing object |
| CacheOriginal.MemoryCache.Set | index.js:27-32 | the value is stored and returned; without a backing object it throws and nothing changes |
| CacheOriginal.MemoryCache.Merge | index.js:35-43 | the sloppy for-in copy onto the entry: an empty source does nothing. A missing backing object or a nullish entry throws. A primitive entry is left as it was, and an object entry gets every key |
| CacheOriginal.MemoryCache.Concat | index.js:46-51 | the entry concatenated with the argument is returned and nothing is stored; it throws without a backing object or on a non-array entry |
| CacheOriginal.MemoryCache.Reset | index.js:54-59 | a new empty backing object, which is returned |
| CacheOriginal.ConcatScenario | index.js:46-51 | `concat` returns `[1, 2]` while the entry stays `[1]` |
| CacheOriginal.MergeRemoveScenario | index.js:35-43 | merging adds the keys and keeps the old ones; `remove` reports true and the name reads undefined |
| CacheOriginal.NoBackingScenario | index.js:6 | without a backing object `get` throws; after `reset` the cache works |

## Left out

- Timing. `setTimeout` is called without a delay in every engine, so `ms` only reaches the event payload. The model has no clock: `FireTimer` runs any pending timer, in any order, as a host could.
- `clearTimeout` on a value that is not a timer handle is a no-op in the model (only handles are pending).
- Debug logging (`console.info`, `console.log`) is output only and is not modelled; the debug flags are.
- The benchmark script and the tests are not modelled. Their scenarios are restated as the methods named in the table.
- lib/constants.js is not part of this model. Its seven symbols are the datatype `EventKind`, and the `on<Kind>`/`one<Kind>`/`off<Kind>` names that `camelize` and `Object.defineProperty` build are the three methods taking a kind.
- Property attributes set by `Object.defineProperty` (non-writable, non-enumerable, non-configurable) are not modelled.
- Aliasing. Values are immutable datatypes. A cached object that is also held outside the cache (the tests mutate `test` and `data` through both) is not shared in the model; `PutIn` writes a nested change back along its path instead. Cached values are not cloned in the code either, and the model follows the code.
- Coercions outside the model:
  - `Object.assign` or a for-in copy onto an array, or `Object.assign` onto a primitive, is excluded by `requires`;
  - string `concat` is excluded by `requires`;
  - inherited and symbol-keyed properties are absent;
  - named (non-index) properties of arrays are invisible;
  - numbers are integers: fractions, NaN (falsy), the infinities and -0 cannot be expressed, and no arithmetic is modelled;
  - a property write, or `Object.assign`, onto a timer is dropped, while a Node timer is an object that would keep the property;
  - a property read of a string, number, boolean or timer gives undefined, so a path through a string (`'s.0'` for a character, `'s.length'`) reads undefined where JavaScript gives a value.
- Keys are strings. Non-string keys in lib/index.js's `Map` and `get(true)` as a key rather than a flag are reached only through the `Selector` datatype.
- Key order of plain objects is not modelled, because an object is a map. lib/index.js's insertion order is modelled, by `order`.
- Listeners are identified by number and their bodies are not run. A listener that throws, or that calls back into the cache or the bus during `trigger`, is not modelled.
- `one` with a non-function callback is accepted (the wrapper is a function). Calling it would throw, and that call is not modelled.
- Observable.Bus.On: `typeof fn == 'function'` is modelled as an `Option` (Some = a function).
- CacheOriginal.MemoryCache.Merge: the implicit global `key` that the sloppy for-in loop creates is not modelled.
- CacheOriginal.MemoryCache.constructor: a primitive backing value is excluded by `requires`.
- CacheEs6.MemoryCache.constructor: a truthy non-object argument (an array, a non-empty string, a non-zero number, `true`), which `$cache || {}` would keep as the backing, is excluded by `requires`.
- CacheEs5.MemoryCache.constructor: a truthy non-object argument, which `$cache || {}` would keep as the backing, is excluded by `requires`.
- CacheOriginal.MemoryCache.Remove: `delete` of a non-configurable property, which returns false, cannot arise in the model.
- Behaviour of the code worth noting, which the model keeps:
  - `reset` of lib/index.js does not cancel pending timers (`Cache.StaleTimerAfterReset`);
  - nothing is cloned on `set` or `get`;
  - `remove` of lib/es6.js and lib/es5.js always reports true;
  - the `ms` of `expire` is not used as a delay.
