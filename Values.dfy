/** JavaScript values as the serializers see them, and the object graph they walk.

    Objects live in a finite heap from identities to containers; a value that is an
    object is a reference into that heap, so sharing and cycles are expressed by ids. */
module Values {

  datatype Option<+T> = None | Some(value: T) {
    function GetOr(default: T): T {
      match this
      case Some(v) => v
      case None => default
    }
  }

  datatype Result<+T, +E> = Ok(value: T) | Err(error: E)

  /** A JS number, abstracted to whether it is finite and to its `String(value)` form.
      Floating-point formatting is not modelled: `text` is given with the number. */
  datatype Number = Number(finite: bool, text: string)

  /** An element of a typed array: a number, or a bigint in a `BigInt64Array` or
      `BigUint64Array`. */
  datatype Element = Float(n: Number) | Big(i: int) {
    /** `${element}`, as `stringifyTypedArray` writes it. */
    function Text(): string {
      match this
      case Float(n) => n.text
      case Big(i) => IntText(i)
    }

    /** The element as `value[key]` reads it. */
    function AsValue(): Value {
      match this
      case Float(n) => Num(n)
      case Big(i) => BigInt(i)
    }
  }

  /** Object identity. */
  type Id = nat

  datatype Value =
    | Null
    | Bool(b: bool)
    | Num(n: Number)
    | BigInt(i: int)
    | Str(s: string)
      /** `undefined`, a function or a symbol: none of them is handled by the serializers' switch. */
    | Undef
      /** An object (plain object, array or typed array). */
    | Ref(id: Id)

  /** A property key as JS hands it to `toJSON` and to a replacer: array positions are
      numbers, object keys strings, and a key-list replacer may hold numbers. */
  datatype Key = Index(i: nat) | Name(s: string) | NumberKey(n: Number)

  /** The receiver of a replacer call: the `{'': value}` wrapper of the top-level call,
      or the object whose property is being serialized. */
  datatype Parent = Wrapper(root: Value) | Holder(id: Id)

  /** A custom conversion method, called with the key of the property it is found under. */
  type ToJsonFn = Key -> Value

  /** An object of the heap. `Obj.keys` is what `Object.keys` returns for it; a typed
      array's own keys are its indices followed by `extra`. */
  datatype Container =
    | Arr(elems: seq<Value>, toJSON: Option<ToJsonFn>)
    | Obj(keys: seq<string>, props: map<string, Value>, toJSON: Option<ToJsonFn>)
    | Typed(items: seq<Element>, extra: seq<string>, props: map<string, Value>, toJSON: Option<ToJsonFn>)

  type Heap = map<Id, Container>

  function Digit(d: nat): (c: char)
    requires d < 10
    ensures '0' <= c <= '9'
  {
    ('0' as int + d) as char
  }

  /** `String(n)` for a non-negative integer: its decimal digits. */
  function NatText(n: nat): (r: string)
    ensures |r| > 0
    ensures forall i :: 0 <= i < |r| ==> '0' <= r[i] <= '9'
  {
    if n < 10 then [Digit(n)] else NatText(n / 10) + [Digit(n % 10)]
  }

  /** `String(i)` for a bigint. */
  function IntText(i: int): string {
    if i < 0 then "-" + NatText(-i) else NatText(i)
  }

  /** The integer-index keys `"0"`, ..., `"n-1"`. */
  function IndexNames(n: nat): (r: seq<string>)
    ensures |r| == n
    ensures forall i :: 0 <= i < n ==> r[i] == NatText(i)
  {
    seq(n, i requires 0 <= i < n => NatText(i))
  }

  /** The position `i < n` whose decimal name is `k`, if any. */
  function IndexOfName(k: string, n: nat): (r: Option<nat>)
    ensures r.Some? ==> r.value < n && NatText(r.value) == k
    ensures r.None? <==> forall i :: 0 <= i < n ==> NatText(i) != k
  {
    if n == 0 then None
    else if NatText(n - 1) == k then Some(n - 1)
    else IndexOfName(k, n - 1)
  }

  /** `Object.keys(value)`. */
  function ObjectKeys(c: Container): seq<string> {
    match c
    case Arr(elems, _) => IndexNames(|elems|)
    case Obj(keys, _, _) => keys
    case Typed(items, extra, _, _) => IndexNames(|items|) + extra
  }

  /** `value[k]` for a string key; a missing property reads as `undefined`
      (the prototype chain is not modelled). */
  function Get(c: Container, k: string): Value {
    match c
    case Arr(elems, _) =>
      (match IndexOfName(k, |elems|)
       case Some(i) => elems[i]
       case None => Undef)
    case Obj(_, props, _) => if k in props then props[k] else Undef
    case Typed(items, _, props, _) =>
      (match IndexOfName(k, |items|)
       case Some(i) => items[i].AsValue()
       case None => if k in props then props[k] else Undef)
  }

  /** `parent[key]`. */
  function Lookup(h: Heap, parent: Parent, key: Key): Value {
    match parent
    case Wrapper(root) => if key == Name("") then root else Undef
    case Holder(id) =>
      if id !in h then Undef
      else
        match key
        case Index(i) =>
          (match h[id]
           case Arr(elems, _) => if i < |elems| then elems[i] else Undef
           case _ => Get(h[id], NatText(i)))
        case Name(s) => Get(h[id], s)
        case NumberKey(n) => Get(h[id], n.text)
  }

  /** `typeof value === 'object' && value !== null && typeof value.toJSON === 'function'`. */
  predicate HasToJson(h: Heap, v: Value) {
    v.Ref? && v.id in h && h[v.id].toJSON.Some?
  }

  /** The value after its conversion method, if it has one, was called once with `key`. */
  function ToJson(h: Heap, key: Key, v: Value): Value {
    if HasToJson(h, v) then h[v.id].toJSON.value(key) else v
  }

  function Members(stack: seq<Id>): set<Id> {
    set x | x in stack
  }

  /** The termination measure of every serializer: objects not on the ancestor stack. */
  function Unvisited(h: Heap, stack: seq<Id>): nat {
    |h.Keys - Members(stack)|
  }

  lemma UnvisitedShrinks(h: Heap, stack: seq<Id>, id: Id)
    requires id in h && id !in stack
    ensures Unvisited(h, stack + [id]) < Unvisited(h, stack)
  {
    var before := h.Keys - Members(stack);
    var after := h.Keys - Members(stack + [id]);
    assert Members(stack + [id]) == Members(stack) + {id};
    assert after == before - {id};
    assert id in before;
    assert |after| == |before| - 1;
  }

  /** `str.repeat(n)` for `' '`. */
  function Spaces(n: nat): (r: string)
    ensures |r| == n && forall i :: 0 <= i < n ==> r[i] == ' '
  {
    seq(n, _ => ' ')
  }
}
