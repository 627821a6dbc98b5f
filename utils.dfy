/** The path resolver of lib/utils.js (also inlined in lib/es5.js):
    `pathArr` splits a dotted path into segments, `findInObj` walks a nested
    value one segment at a time, consuming the segment array with `shift`,
    and `get` composes the two. The module also gives the write-back that an
    in-place mutation of a nested value amounts to, and the effect of
    `setIn`. */
module Utils {
  import opened Values

  const Separator: char := '.'

  // ---------------------------------------------------------------------
  // pathArr

  /** `s.split(d)` for a one-character separator. */
  function Split(s: string, d: char): (r: seq<string>)
    ensures |r| >= 1
    decreases |s|
  {
    if s == [] then [""]
    else
      var rest := Split(s[1..], d);
      if s[0] == d then [""] + rest else [[s[0]] + rest[0]] + rest[1..]
  }

  /** `parts.join(d)`. */
  function Join(parts: seq<string>, d: char): string
    decreases |parts|
  {
    if |parts| == 0 then ""
    else if |parts| == 1 then parts[0]
    else parts[0] + [d] + Join(parts[1..], d)
  }

  /** How many times `d` occurs in `s`. */
  function Occurrences(s: string, d: char): nat
    decreases |s|
  {
    if s == [] then 0 else (if s[0] == d then 1 else 0) + Occurrences(s[1..], d)
  }

  /** `(path || '').split('.')`: a missing path is the empty string. */
  function PathArr(path: string): (r: seq<string>)
    ensures |r| >= 1
    ensures path == "" ==> r == [""]
  {
    Split(path, Separator)
  }

  /** Joining the segments with the separator gives the path back. */
  lemma {:induction false} JoinSplit(s: string, d: char)
    ensures Join(Split(s, d), d) == s
    decreases |s|
  {
    if s != [] {
      var rest := Split(s[1..], d);
      JoinSplit(s[1..], d);
      if s[0] == d {
        assert Split(s, d) == [""] + rest;
        assert ([""] + rest)[1..] == rest;
      } else {
        var parts := [[s[0]] + rest[0]] + rest[1..];
        assert Split(s, d) == parts;
        if |rest| == 1 {
          assert Join(parts, d) == [s[0]] + rest[0];
        } else {
          assert parts[1..] == rest[1..];
          assert Join(parts, d) == [s[0]] + rest[0] + [d] + Join(rest[1..], d);
        }
      }
    }
  }

  /** One segment more than there are separators. */
  lemma {:induction false} SplitCount(s: string, d: char)
    ensures |Split(s, d)| == Occurrences(s, d) + 1
    decreases |s|
  {
    if s != [] {
      SplitCount(s[1..], d);
    }
  }

  /** No segment contains the separator. */
  lemma {:induction false} SplitSegmentsPlain(s: string, d: char)
    ensures forall i :: 0 <= i < |Split(s, d)| ==> d !in Split(s, d)[i]
    decreases |s|
  {
    if s != [] {
      SplitSegmentsPlain(s[1..], d);
      var rest := Split(s[1..], d);
      if s[0] != d {
        assert forall c :: c in [s[0]] + rest[0] ==> c == s[0] || c in rest[0];
      }
    }
  }

  /** A path without a separator is a single segment, itself. */
  lemma PathArrPlain(path: string)
    requires Separator !in path
    ensures PathArr(path) == [path]
  {
    SplitCount(path, Separator);
    NoOccurrences(path, Separator);
    JoinSplit(path, Separator);
  }

  lemma {:induction false} NoOccurrences(s: string, d: char)
    requires d !in s
    ensures Occurrences(s, d) == 0
    decreases |s|
  {
    if s != [] {
      assert d !in s[1..];
      NoOccurrences(s[1..], d);
    }
  }

  /** Splitting `p.q` gives the segments of `p` followed by those of `q`. */
  lemma {:induction false} SplitAppend(p: string, q: string, d: char)
    ensures Split(p + [d] + q, d) == Split(p, d) + Split(q, d)
    decreases |p|
  {
    if p == [] {
      assert p + [d] + q == [d] + q;
      assert ([d] + q)[1..] == q;
    } else {
      var s := p + [d] + q;
      assert s[1..] == p[1..] + [d] + q;
      SplitAppend(p[1..], q, d);
      var sp := Split(p[1..], d);
      if p[0] != d {
        var r := Split(s[1..], d);
        assert r == sp + Split(q, d);
        assert r[0] == sp[0];
        assert r[1..] == sp[1..] + Split(q, d);
      }
    }
  }

  // ---------------------------------------------------------------------
  // findInObj

  /** The key `findInObj` reads at one level: the first segment, or, when the
      array is empty, `arr.shift()`'s undefined used as a property name. */
  function FirstKey(segs: seq<string>): string {
    if segs == [] then "undefined" else segs[0]
  }

  function RestOf(segs: seq<string>): seq<string> {
    if segs == [] then [] else segs[1..]
  }

  /** The value `findInObj(obj, segs)` returns, or the TypeError it throws. */
  function FindIn(obj: Value, segs: seq<string>): Result<Value>
    decreases |segs|
  {
    match Index(obj, FirstKey(segs))
    case Throw(e) => Throw(e)
    case Ok(v) => if v != Undef && RestOf(segs) != [] then FindIn(v, RestOf(segs)) else Ok(v)
  }

  /** How many segments `findInObj(obj, segs)` removes from its array. */
  function Consumed(obj: Value, segs: seq<string>): (n: nat)
    ensures n <= |segs|
    ensures segs != [] ==> n >= 1
    decreases |segs|
  {
    if segs == [] then 0
    else match Index(obj, segs[0])
      case Throw(_) => 1
      case Ok(v) => if v != Undef && segs[1..] != [] then 1 + Consumed(v, segs[1..]) else 1
  }

  /** `get(obj, path)`. */
  function Get(obj: Value, path: string): Result<Value> {
    FindIn(obj, PathArr(path))
  }

  /** A single segment is a plain property read. */
  lemma FindInSingle(obj: Value, s: string)
    ensures FindIn(obj, [s]) == Index(obj, s)
  {
  }

  /** When the walk reaches a defined value, it has used every segment, so
      the array it consumed is empty afterwards. */
  lemma {:induction false} FullTraversal(obj: Value, segs: seq<string>)
    requires segs != [] && FindIn(obj, segs).Ok? && FindIn(obj, segs).value != Undef
    ensures Consumed(obj, segs) == |segs|
    decreases |segs|
  {
    var v := Index(obj, segs[0]).value;
    if segs[1..] != [] {
      FullTraversal(v, segs[1..]);
    }
  }

  /** Walking `p` then `q` is walking `p + q`: the walk over `q` starts from
      what `p` resolves to, unless `p` already stopped (undefined) or threw,
      in which case no segment of `q` is consulted. */
  lemma {:induction false} FindInAppend(obj: Value, p: seq<string>, q: seq<string>)
    requires p != [] && q != []
    ensures FindIn(obj, p + q) ==
      match FindIn(obj, p)
      case Throw(e) => Throw(e)
      case Ok(v) => if v == Undef then Ok(Undef) else FindIn(v, q)
    decreases |p|
  {
    assert (p + q)[0] == p[0];
    assert (p + q)[1..] == p[1..] + q;
    if p[1..] != [] {
      match Index(obj, p[0])
      case Throw(_) =>
      case Ok(v) =>
        if v != Undef {
          FindInAppend(v, p[1..], q);
        }
    }
  }

  /** Resolving `p.q` is resolving `q` inside what `p` resolves to; a missing
      or undefined value along `p` makes the whole path undefined. */
  lemma GetDotted(obj: Value, p: string, q: string)
    ensures Get(obj, p + [Separator] + q) ==
      match Get(obj, p)
      case Throw(e) => Throw(e)
      case Ok(v) => if v == Undef then Ok(Undef) else Get(v, q)
  {
    SplitAppend(p, q, Separator);
    FindInAppend(obj, PathArr(p), PathArr(q));
  }

  /** A path with no separator reads one property. */
  lemma GetPlain(obj: Value, path: string)
    requires Separator !in path
    ensures Get(obj, path) == Index(obj, path)
  {
    PathArrPlain(path);
  }

  // ---------------------------------------------------------------------
  // The array findInObj consumes

  /** A JavaScript array of path segments, which `shift` and `pop` change in
      place. */
  class SegmentArray {
    var items: seq<string>

    constructor (items: seq<string>)
      ensures this.items == items
    {
      this.items := items;
    }

    /** `arr.shift()`. */
    method Shift() returns (first: Option<string>)
      modifies this
      ensures first == if old(items) == [] then None else Some(old(items)[0])
      ensures items == RestOf(old(items))
    {
      if items == [] {
        first := None;
      } else {
        first := Some(items[0]);
        items := items[1..];
      }
    }

    /** `arr.pop()`. */
    method Pop() returns (last: Option<string>)
      modifies this
      ensures last == if old(items) == [] then None else Some(old(items)[|old(items)| - 1])
      ensures items == if old(items) == [] then [] else old(items)[..|old(items)| - 1]
    {
      if items == [] {
        last := None;
      } else {
        last := Some(items[|items| - 1]);
        items := items[..|items| - 1];
      }
    }
  }

  /** `findInObj(obj, arr)`: reads `obj[arr.shift()]` and, while the value is
      defined and segments remain, recurses on it with the same array. */
  method FindInObj(obj: Value, arr: SegmentArray) returns (r: Result<Value>)
    modifies arr
    ensures r == FindIn(obj, old(arr.items))
    ensures arr.items == old(arr.items)[Consumed(obj, old(arr.items))..]
    decreases |arr.items|
  {
    var first := arr.Shift();
    var key := if first.Some? then first.value else "undefined";
    r := Index(obj, key);
    if r.Ok? && r.value != Undef && |arr.items| > 0 {
      r := FindInObj(r.value, arr);
    }
  }

  // ---------------------------------------------------------------------
  // Writing through a path

  /** The value `root` becomes when the value the segments lead to is
      replaced in place by `nv`: every object or array on the way is updated
      at the key that was followed. */
  function PutAt(root: Value, segs: seq<string>, nv: Value): (r: Value)
    ensures segs != [] && (root.Obj? || root.Arr?) ==> r.Obj? == root.Obj? && r.Arr? == root.Arr?
    decreases |segs|
  {
    if segs == [] then nv
    else match root
      case Obj(m) =>
        if segs[0] in m then Obj(m[segs[0] := PutAt(m[segs[0]], segs[1..], nv)]) else root
      case Arr(a) =>
        if IsIndexKey(segs[0]) && DigitsValue(segs[0]) < |a|
        then Arr(a[DigitsValue(segs[0]) := PutAt(a[DigitsValue(segs[0])], segs[1..], nv)])
        else root
      case _ => root
  }

  /** The backing object after the value at the segments is replaced. */
  function PutIn(store: map<string, Value>, segs: seq<string>, nv: Value): map<string, Value> {
    var root := PutAt(Obj(store), segs, nv);
    if root.Obj? then root.props else store
  }

  /** After the value a path resolves to is replaced, the path resolves to
      the replacement. */
  lemma {:induction false} PutAtThenFind(root: Value, segs: seq<string>, nv: Value)
    requires segs != [] && FindIn(root, segs).Ok? && FindIn(root, segs).value != Undef
    ensures FindIn(PutAt(root, segs, nv), segs) == Ok(nv)
    decreases |segs|
  {
    var k, rest := segs[0], segs[1..];
    var child := Index(root, k).value;
    assert child != Undef;
    if rest != [] {
      assert child.Obj? || child.Arr?;
      PutAtThenFind(child, rest, nv);
    }
    var child' := PutAt(child, rest, nv);
    match root
    case Obj(m) =>
      assert PutAt(root, segs, nv) == Obj(m[k := child']);
      assert Index(Obj(m[k := child']), k) == Ok(child');
    case Arr(a) =>
      var i := DigitsValue(k);
      assert PutAt(root, segs, nv) == Arr(a[i := child']);
      assert Index(Arr(a[i := child']), k) == Ok(child');
  }

  /** Only the first segment's entry of the backing object changes. */
  lemma PutInFrame(store: map<string, Value>, segs: seq<string>, nv: Value, k: string)
    requires segs != [] && k != segs[0]
    ensures Lookup(PutIn(store, segs, nv), k) == Lookup(store, k)
    ensures k in PutIn(store, segs, nv) <==> k in store
  {
  }

  /** After the value a path resolves to is replaced in the backing object,
      `get` of that path gives the replacement. */
  lemma PutInThenGet(store: map<string, Value>, path: string, nv: Value)
    requires Get(Obj(store), path).Ok? && Get(Obj(store), path).value != Undef
    ensures Get(Obj(PutIn(store, PathArr(path), nv)), path) == Ok(nv)
  {
    PutAtThenFind(Obj(store), PathArr(path), nv);
  }

  /** The segments up to the last one and the last one. */
  function Prefix(segs: seq<string>): seq<string>
    requires segs != []
  {
    segs[..|segs| - 1]
  }

  function Last(segs: seq<string>): string
    requires segs != []
  {
    segs[|segs| - 1]
  }

  /** `setIn(path, v)` on the backing object: with one segment a top-level
      assignment; otherwise `v` is assigned at the last segment of what the
      other segments resolve to. The new backing object, or the TypeError. */
  function WriteIn(store: map<string, Value>, path: string, v: Value): Result<map<string, Value>> {
    var segs := PathArr(path);
    if |segs| > 1 then
      match FindIn(Obj(store), Prefix(segs))
      case Throw(e) => Throw(e)
      case Ok(parent) =>
        match Assign(parent, Last(segs), v)
        case Throw(e) => Throw(e)
        case Ok(updated) => Ok(PutIn(store, Prefix(segs), updated))
    else Ok(store[path := v])
  }

  /** Where `setIn` writes through a multi-segment path: the object its
      prefix resolves to. */
  predicate WritesVisibly(store: map<string, Value>, path: string) {
    var segs := PathArr(path);
    |segs| > 1 ==>
      var parent := FindIn(Obj(store), Prefix(segs));
      parent.Ok? && (parent.value.Obj? || (parent.value.Arr? && IsIndexKey(Last(segs))))
  }

  /** `setIn` fails exactly when the prefix cannot be resolved to something
      that accepts a property: it throws, or it is undefined, null or a
      primitive. */
  lemma WriteInFails(store: map<string, Value>, path: string, v: Value)
    requires |PathArr(path)| > 1
    ensures WriteIn(store, path, v).Throw? <==>
      var parent := FindIn(Obj(store), Prefix(PathArr(path)));
      parent.Throw? || !(parent.value.Obj? || parent.value.Arr? || parent.value.Handle?)
  {
  }

  /** `setIn(p, v)` followed by `getIn(p)` gives `v`, wherever the write
      lands on an object property or an array element. */
  lemma WriteInThenGet(store: map<string, Value>, path: string, v: Value)
    requires WritesVisibly(store, path)
    ensures WriteIn(store, path, v).Ok?
    ensures Get(Obj(WriteIn(store, path, v).value), path) == Ok(v)
  {
    var segs := PathArr(path);
    if |segs| > 1 {
      var parent := FindIn(Obj(store), Prefix(segs)).value;
      AssignThenIndex(parent, Last(segs), v);
      var updated := Assign(parent, Last(segs), v).value;
      PutAtThenFind(Obj(store), Prefix(segs), updated);
      var root := PutAt(Obj(store), Prefix(segs), updated);
      assert root.Obj?;
      assert segs == Prefix(segs) + [Last(segs)];
      FindInAppend(root, Prefix(segs), [Last(segs)]);
    } else {
      JoinSplit(path, Separator);
      assert segs == [path];
    }
  }

  /** `setIn` through a multi-segment path leaves every other top-level
      entry as it was. */
  lemma WriteInFrame(store: map<string, Value>, path: string, v: Value, k: string)
    requires WriteIn(store, path, v).Ok?
    requires k != PathArr(path)[0]
    ensures Lookup(WriteIn(store, path, v).value, k) == Lookup(store, k)
  {
    var segs := PathArr(path);
    if |segs| == 1 {
      JoinSplit(path, Separator);
    }
  }

  // ---------------------------------------------------------------------
  // The object of test.js

  function TestObject(): Value {
    Obj(map[
      "a" := Obj(map["b" := Str("c")]),
      "deep" := Obj(map["nested" := Obj(map["obj" := Obj(map["is" := Obj(map["set" := Str("yes")])])])]),
      "arr" := Arr([Num(1), Num(2), Num(3), Num(4), Num(5)])
    ])
  }

  /** A first segment without a dot splits off the rest of the path. */
  lemma PathArrCons(p: string, q: string)
    requires Separator !in p
    ensures PathArr(p + [Separator] + q) == [p] + PathArr(q)
  {
    SplitAppend(p, q, Separator);
    PathArrPlain(p);
  }

  /** `pathArr('a.b')` has two segments and `get(test, 'a.b')` is 'c'. */
  lemma GetExample()
    ensures |PathArr("a.b")| == 2
    ensures Get(TestObject(), "a.b") == Ok(Str("c"))
  {
    assert "a.b" == "a" + [Separator] + "b";
    SplitAppend("a", "b", Separator);
    PathArrPlain("a");
    PathArrPlain("b");
  }
}
