/** JavaScript values as the cache engines see them, and the handful of
    language operations the engines use on them: truthiness, property read,
    strict-mode property write, Object.assign, Array.prototype.concat and a
    run of Array.prototype.push calls. */
module Values {

  /** A JavaScript value. Numbers are integers. `Handle` is an opaque host
      timer object (what setTimeout returns). An array is its elements only;
      an object is its own enumerable properties. */
  datatype Value =
    | Undef
    | Null
    | Bool(b: bool)
    | Num(n: int)
    | Str(s: string)
    | Handle(id: nat)
    | Arr(items: seq<Value>)
    | Obj(props: map<string, Value>)

  /** The kinds of TypeError the modelled code can raise. */
  datatype TypeError =
    | ReadOfNullish     // x[k] or x.m with x undefined or null
    | WriteToNonObject  // x[k] = v with x undefined, null or (strict mode) a primitive
    | NotAFunction      // calling a method the value does not have
    | NotAnObject       // Object.assign(undefined or null, ...)

  /** The outcome of an operation that may throw. */
  datatype Result<T> = Ok(value: T) | Throw(error: TypeError)

  datatype Option<T> = None | Some(value: T)

  /** The first argument of `get`: the literal `true` ("the whole cache") or a name. */
  datatype Selector = All | Key(name: string)

  /** `Boolean(v)`. */
  predicate Truthy(v: Value) {
    match v
    case Undef => false
    case Null => false
    case Bool(b) => b
    case Num(n) => n != 0
    case Str(s) => s != ""
    case _ => true
  }

  /** `store[k]` on a backing object or Map: undefined when absent. */
  function Lookup(store: map<string, Value>, k: string): Value {
    if k in store then store[k] else Undef
  }

  // ---------------------------------------------------------------------
  // Array index keys

  predicate IsDigit(c: char) { '0' <= c <= '9' }

  predicate AllDigits(k: string) { forall i :: 0 <= i < |k| ==> IsDigit(k[i]) }

  /** A property name that denotes an array element: a decimal numeral
      without a leading zero. */
  predicate IsIndexKey(k: string) {
    |k| > 0 && AllDigits(k) && (k[0] == '0' ==> |k| == 1)
  }

  /** The number a string of decimal digits denotes. */
  function DigitsValue(k: string): nat
    requires AllDigits(k)
    decreases |k|
  {
    if k == [] then 0
    else DigitsValue(k[..|k| - 1]) * 10 + (k[|k| - 1] as int - '0' as int)
  }

  function DigitChar(d: nat): (c: char)
    requires d < 10
    ensures IsDigit(c) && c as int - '0' as int == d
  {
    ('0' as int + d) as char
  }

  /** The canonical decimal numeral of `n` (what `String(n)` gives). */
  function Decimal(n: nat): string
    decreases n
  {
    if n < 10 then [DigitChar(n)] else Decimal(n / 10) + [DigitChar(n % 10)]
  }

  lemma {:induction false} DecimalIsIndexKey(n: nat)
    ensures IsIndexKey(Decimal(n)) && DigitsValue(Decimal(n)) == n
    ensures n > 0 ==> Decimal(n)[0] != '0'
    decreases n
  {
    if n >= 10 {
      DecimalIsIndexKey(n / 10);
      var d := Decimal(n / 10);
      assert Decimal(n) == d + [DigitChar(n % 10)];
      assert Decimal(n)[..|Decimal(n)| - 1] == d;
    }
  }

  lemma {:induction false} LeadingDigitPositive(k: string)
    requires AllDigits(k) && |k| > 0 && k[0] != '0'
    ensures DigitsValue(k) > 0
    decreases |k|
  {
    if |k| > 1 {
      LeadingDigitPositive(k[..|k| - 1]);
    }
  }

  /** Every index key is the canonical numeral of the index it denotes, so
      distinct index keys address distinct elements. */
  lemma {:induction false} IndexKeyRoundTrip(k: string)
    requires IsIndexKey(k)
    ensures Decimal(DigitsValue(k)) == k
    decreases |k|
  {
    if |k| > 1 {
      var init := k[..|k| - 1];
      assert init[0] == k[0];
      LeadingDigitPositive(init);
      IndexKeyRoundTrip(init);
      var v := DigitsValue(k);
      var d := k[|k| - 1] as int - '0' as int;
      assert v == DigitsValue(init) * 10 + d;
      assert v / 10 == DigitsValue(init) && v % 10 == d;
      assert DigitChar(d) == k[|k| - 1];
      assert k == init + [k[|k| - 1]];
    }
  }

  lemma IndexKeysDistinct(k1: string, k2: string)
    requires IsIndexKey(k1) && IsIndexKey(k2) && k1 != k2
    ensures DigitsValue(k1) != DigitsValue(k2)
  {
    IndexKeyRoundTrip(k1);
    IndexKeyRoundTrip(k2);
  }

  // ---------------------------------------------------------------------
  // Property read and write

  /** `v[k]`: reading a property. Reading from undefined or null throws;
      primitives and timer handles have no own properties in this model. */
  function Index(v: Value, k: string): Result<Value> {
    match v
    case Undef => Throw(ReadOfNullish)
    case Null => Throw(ReadOfNullish)
    case Obj(m) => Ok(Lookup(m, k))
    case Arr(a) =>
      Ok(if IsIndexKey(k) && DigitsValue(k) < |a| then a[DigitsValue(k)] else Undef)
    case _ => Ok(Undef)
  }

  /** Writing element `i` of an array; writing past the end leaves holes,
      which read as undefined. */
  function WriteElement(a: seq<Value>, i: nat, x: Value): (r: seq<Value>)
    ensures |r| == if i < |a| then |a| else i + 1
    ensures r[i] == x
    ensures forall j :: 0 <= j < |a| && j != i ==> r[j] == a[j]
    ensures forall j :: |a| <= j < i ==> r[j] == Undef
  {
    if i < |a| then a[i := x] else a + seq(i - |a|, _ => Undef) + [x]
  }

  /** `v[k] = x` in strict mode: the value `v` becomes. Writing to undefined,
      null or a primitive throws; a named (non-index) property of an array or
      a property of a timer handle is outside the model and leaves the value
      as it was. */
  function Assign(v: Value, k: string, x: Value): Result<Value> {
    match v
    case Obj(m) => Ok(Obj(m[k := x]))
    case Arr(a) => Ok(if IsIndexKey(k) then Arr(WriteElement(a, DigitsValue(k), x)) else v)
    case Handle(_) => Ok(v)
    case _ => Throw(WriteToNonObject)
  }

  /** A one-digit key reads that element of an array. */
  lemma IndexDigit(a: seq<Value>, d: nat)
    requires d < 10 && d < |a|
    ensures Index(Arr(a), [DigitChar(d)]) == Ok(a[d])
  {
    DecimalIsIndexKey(d);
  }

  /** A property write is visible to a later read of the same property
      exactly on objects and on array elements. */
  lemma AssignThenIndex(v: Value, k: string, x: Value)
    requires v.Obj? || (v.Arr? && IsIndexKey(k))
    ensures Assign(v, k, x).Ok? && Index(Assign(v, k, x).value, k) == Ok(x)
  {
  }

  /** A property write leaves every other property as it was. */
  lemma AssignFrame(v: Value, k: string, x: Value, k': string)
    requires Assign(v, k, x).Ok? && k' != k
    ensures Index(Assign(v, k, x).value, k') == Index(v, k')
  {
    if v.Arr? && IsIndexKey(k) && IsIndexKey(k') {
      IndexKeysDistinct(k, k');
    }
  }

  /** `v[k] = x` in sloppy mode: a write to a primitive is dropped. */
  function AssignSloppy(v: Value, k: string, x: Value): (r: Result<Value>)
    ensures r.Throw? <==> v.Undef? || v.Null?
    ensures (v.Bool? || v.Num? || v.Str?) ==> r == Ok(v)
    ensures !(v.Bool? || v.Num? || v.Str?) ==> r == Assign(v, k, x)
  {
    if v.Bool? || v.Num? || v.Str? then Ok(v) else Assign(v, k, x)
  }

  // ---------------------------------------------------------------------
  // Object.assign, for-in copy, concat, push

  /** Targets of Object.assign the model covers. */
  predicate AssignTarget(v: Value) {
    v.Undef? || v.Null? || v.Obj? || v.Handle?
  }

  /** `Object.assign(target, src)` for a plain source object: copies every
      own property of `src` onto `target` and returns `target`. */
  function ObjectAssign(target: Value, src: map<string, Value>): (r: Result<Value>)
    requires AssignTarget(target)
    ensures r.Throw? <==> target.Undef? || target.Null?
    ensures target.Obj? ==> r.Ok? && r.value.Obj?
    ensures target.Obj? ==> r.value.props.Keys == target.props.Keys + src.Keys
    ensures target.Obj? ==> forall k :: k in src ==> r.value.props[k] == src[k]
    ensures target.Obj? ==> forall k :: k in target.props && k !in src ==> r.value.props[k] == target.props[k]
    ensures target.Handle? ==> r == Ok(target)
  {
    match target
    case Obj(m) => Ok(Obj(m + src))
    case Handle(_) => Ok(target)
    case _ => Throw(NotAnObject)
  }

  /** `for (key in src) target[key] = src[key]` (own properties of `src`
      only), in strict or sloppy mode: the value `target` becomes, or the
      TypeError of the first write. Array targets are outside the model. */
  function AssignEach(target: Value, src: map<string, Value>, strict: bool): (r: Result<Value>)
    requires !target.Arr?
    ensures src == map[] ==> r == Ok(target)
    ensures r.Throw? <==>
      src != map[] && (target.Undef? || target.Null? || (strict && (target.Bool? || target.Num? || target.Str?)))
    ensures r.Throw? ==> r.error == WriteToNonObject
    ensures r.Ok? ==> r.value.Obj? == target.Obj?
    ensures r.Ok? && !target.Obj? ==> r.value == target
  {
    if src == map[] then Ok(target)
    else match target
      case Obj(m) => Ok(Obj(m + src))
      case Handle(_) => Ok(target)
      case Undef => Throw(WriteToNonObject)
      case Null => Throw(WriteToNonObject)
      case _ => if strict then Throw(WriteToNonObject) else Ok(target)
  }

  /** On the targets both accept, copying key by key and `Object.assign`
      give the same value. */
  lemma AssignEachIsObjectAssign(target: Value, src: map<string, Value>, strict: bool)
    requires target.Obj? || target.Handle?
    ensures AssignEach(target, src, strict) == ObjectAssign(target, src)
  {
    if src == map[] && target.Obj? {
      assert target.props + src == target.props;
    }
  }

  /** Copying one key is one property write, in the same mode. */
  lemma AssignEachSingle(target: Value, k: string, x: Value, strict: bool)
    requires !target.Arr?
    ensures AssignEach(target, map[k := x], strict) ==
      if strict then Assign(target, k, x) else AssignSloppy(target, k, x)
  {
    assert map[k := x] != map[] by {
      assert k in map[k := x];
    }
    if target.Obj? {
      assert target.props + map[k := x] == target.props[k := x];
    }
  }

  /** Copying the keys of `a` and then those of `b` is copying `a + b`. */
  lemma AssignEachSplit(target: Value, a: map<string, Value>, b: map<string, Value>, strict: bool)
    requires !target.Arr? && AssignEach(target, a, strict).Ok?
    ensures AssignEach(AssignEach(target, a, strict).value, b, strict) == AssignEach(target, a + b, strict)
  {
    if a == map[] {
      assert a + b == b;
    } else if b == map[] {
      assert a + b == a;
    } else if target.Obj? {
      assert target.props + a + b == target.props + (a + b);
    }
  }

  /** One more iteration of the for-in copy: after the keys `done`, writing
      key `k` is copying `done` with `k` added. */
  lemma AssignEachStep(target: Value, done: map<string, Value>, k: string, x: Value, strict: bool)
    requires !target.Arr? && AssignEach(target, done, strict).Ok?
    ensures var cur := AssignEach(target, done, strict).value;
      !cur.Arr? &&
      AssignEach(target, done[k := x], strict) ==
        if strict then Assign(cur, k, x) else AssignSloppy(cur, k, x)
  {
    var cur := AssignEach(target, done, strict).value;
    AssignEachSplit(target, done, map[k := x], strict);
    AssignEachSingle(cur, k, x, strict);
    assert done + map[k := x] == done[k := x];
  }

  /** One iteration of a for-in loop over `obj`: key `k` moves from the
      keys still to visit to the keys visited. */
  lemma VisitKey(done: map<string, Value>, todo: map<string, Value>, obj: map<string, Value>, k: string)
    requires done.Keys !! todo.Keys && done + todo == obj && k in todo
    ensures done[k := todo[k]].Keys !! (todo - {k}).Keys
    ensures done[k := todo[k]] + (todo - {k}) == obj
    ensures |(todo - {k}).Keys| < |todo.Keys|
    ensures todo[k] == obj[k]
  {
    assert (todo - {k}).Keys == todo.Keys - {k};
  }

  /** The elements `concat` adds for one argument: an array is spread, any
      other value is added as a single element. */
  function Spread(x: Value): seq<Value> {
    if x.Arr? then x.items else [x]
  }

  /** `target.concat(arg)`: a new array; only arrays have the method here
      (string concatenation is outside the model). */
  function ConcatValue(target: Value, arg: Value): (r: Result<Value>)
    requires !target.Str?
    ensures r.Ok? <==> target.Arr?
    ensures r.Ok? ==> r.value.Arr? && |r.value.items| == |target.items| + |Spread(arg)|
    ensures r.Ok? ==> r.value.items[..|target.items|] == target.items
    ensures r.Ok? ==> r.value.items[|target.items|..] == Spread(arg)
    ensures r.Throw? ==> r.error == (if target.Undef? || target.Null? then ReadOfNullish else NotAFunction)
  {
    match target
    case Arr(a) => Ok(Arr(a + Spread(arg)))
    case Undef => Throw(ReadOfNullish)
    case Null => Throw(ReadOfNullish)
    case _ => Throw(NotAFunction)
  }

  /** `v.push(x)`: the array `v` becomes; only arrays have the method. */
  function Push(v: Value, x: Value): (r: Result<Value>)
    ensures r.Ok? <==> v.Arr?
    ensures r.Ok? ==> r.value == Arr(v.items + [x])
    ensures r.Throw? ==> r.error == (if v.Undef? || v.Null? then ReadOfNullish else NotAFunction)
  {
    match v
    case Arr(a) => Ok(Arr(a + [x]))
    case Undef => Throw(ReadOfNullish)
    case Null => Throw(ReadOfNullish)
    case _ => Throw(NotAFunction)
  }

  /** `for (i = 0; i < xs.length; i++) target.push(xs[i])`, then `target`:
      nothing is read from `target` when `xs` is empty; otherwise it must be
      an array, which grows by the elements of `xs` in order. */
  function PushAll(target: Value, xs: seq<Value>): (r: Result<Value>)
    ensures xs == [] ==> r == Ok(target)
    ensures xs != [] ==> (r.Ok? <==> target.Arr?)
    ensures xs != [] && r.Ok? ==> r.value.Arr? && |r.value.items| == |target.items| + |xs|
    ensures xs != [] && r.Ok? ==> r.value.items[..|target.items|] == target.items
    ensures xs != [] && r.Ok? ==> forall i :: 0 <= i < |xs| ==> r.value.items[|target.items| + i] == xs[i]
  {
    if xs == [] then Ok(target)
    else match target
      case Arr(a) => Ok(Arr(a + xs))
      case Undef => Throw(ReadOfNullish)
      case Null => Throw(ReadOfNullish)
      case _ => Throw(NotAFunction)
  }

  /** The push loop is one `push` per element: pushing one more element
      after the others is one more step of the loop. */
  lemma PushAllStep(target: Value, xs: seq<Value>, x: Value)
    ensures PushAll(target, xs + [x]) ==
      match PushAll(target, xs)
      case Throw(e) => Throw(e)
      case Ok(v) => Push(v, x)
  {
    if target.Arr? {
      assert target.items + xs + [x] == target.items + (xs + [x]);
    }
  }
}
