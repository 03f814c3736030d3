/** index.js: `main(options)` validates the options and returns the `stringify` closure,
    which picks one of four recursive serializers. The closure's three captured options
    are a `Config`; each serializer is a method threading the shared ancestor `Stack`
    and proved to produce what `Serialization.Emit` describes for its mode. */
module IndexEngine {
  import opened Values
  import opened JsonString
  import opened KeyOrder
  import opened Ancestors
  import opened Serialization

  /** The options `main` captures: the circular marker (`None` for `null`), whether
      bigints print, and whether keys are sorted. */
  datatype Config = Config(circularValue: Option<string>, bigint: bool, deterministic: bool)

  /** The options object: `None` when it is absent or falsy, its own properties otherwise. */
  type Options = Option<map<string, Value>>

  const CircularTypeError := "The \"circularValue\" argument must be of type string or the value null"
  const BigIntTypeError := "The \"bigint\" argument must be of type boolean"
  const DeterministicTypeError := "The \"deterministic\" argument must be of type boolean"

  predicate HasOwn(options: Options, name: string) {
    options.Some? && name in options.value
  }

  /** `getCircularValueOption`: a string is wrapped in quotes as it is, `null` is kept,
      anything else is a TypeError; the default marker is `"[Circular]"`. */
  function GetCircularValueOption(options: Options): (r: Result<Option<string>, string>)
    ensures r.Err? <==> HasOwn(options, "circularValue") && !options.value["circularValue"].Str?
                        && !options.value["circularValue"].Null?
    ensures r.Err? ==> r.error == CircularTypeError
    ensures !HasOwn(options, "circularValue") ==> r == Ok(Some("\"[Circular]\""))
    ensures r.Ok? && r.value.Some? ==>
      |r.value.value| >= 2 && r.value.value[0] == '"' && r.value.value[|r.value.value| - 1] == '"'
    ensures HasOwn(options, "circularValue") && options.value["circularValue"].Str? ==>
      r == Ok(Some("\"" + options.value["circularValue"].s + "\""))
    ensures HasOwn(options, "circularValue") && options.value["circularValue"].Null? ==> r == Ok(None)
  {
    if HasOwn(options, "circularValue") then
      match options.value["circularValue"]
      case Str(s) => Ok(Some("\"" + s + "\""))
      case Null => Ok(None)
      case _ => Err(CircularTypeError)
    else Ok(Some("\"[Circular]\""))
  }

  /** The shared shape of `getBigIntOption` and `getDeterministicOption`: a boolean own
      property, `true` when absent. */
  function GetBooleanOption(options: Options, name: string, error: string): (r: Result<bool, string>)
    ensures r.Err? <==> HasOwn(options, name) && !options.value[name].Bool?
    ensures r.Err? ==> r.error == error
    ensures r.Ok? ==> r.value == (!HasOwn(options, name) || options.value[name].b)
  {
    if HasOwn(options, name) then
      match options.value[name]
      case Bool(b) => Ok(b)
      case _ => Err(error)
    else Ok(true)
  }

  function GetBigIntOption(options: Options): Result<bool, string> {
    GetBooleanOption(options, "bigint", BigIntTypeError)
  }

  function GetDeterministicOption(options: Options): Result<bool, string> {
    GetBooleanOption(options, "deterministic", DeterministicTypeError)
  }

  /** `main(options)`: the options are read in the order circularValue, bigint,
      deterministic, and the first invalid one throws. */
  function Main(options: Options): (r: Result<Config, string>)
    ensures r.Ok? <==>
      GetCircularValueOption(options).Ok? && GetBigIntOption(options).Ok? && GetDeterministicOption(options).Ok?
    ensures GetCircularValueOption(options).Err? ==> r == Err(CircularTypeError)
    ensures GetCircularValueOption(options).Ok? && GetBigIntOption(options).Err? ==> r == Err(BigIntTypeError)
    ensures GetCircularValueOption(options).Ok? && GetBigIntOption(options).Ok? && GetDeterministicOption(options).Err? ==>
      r == Err(DeterministicTypeError)
    ensures r.Ok? ==>
      r.value.circularValue == GetCircularValueOption(options).value &&
      r.value.bigint == GetBigIntOption(options).value &&
      r.value.deterministic == GetDeterministicOption(options).value
  {
    match GetCircularValueOption(options)
    case Err(e) => Err(e)
    case Ok(circularValue) =>
      match GetBigIntOption(options)
      case Err(e) => Err(e)
      case Ok(bigint) =>
        match GetDeterministicOption(options)
        case Err(e) => Err(e)
        case Ok(deterministic) => Ok(Config(circularValue, bigint, deterministic))
  }

  /** Without options every check passes and every default applies. */
  lemma MainDefaults()
    ensures Main(None) == Ok(Config(Some("\"[Circular]\""), true, true))
  {
  }

  /** What a circular reference is written as: the marker, or `null` written by the
      caller's concatenation. */
  function CircularText(cfg: Config): string {
    cfg.circularValue.GetOr("null")
  }

  function SimpleMode(cfg: Config): Mode {
    Mode(CircularText(cfg), cfg.bigint, cfg.deterministic, IndexEntriesFirst(SepNever), NoReplacer, "")
  }

  function IndentMode(cfg: Config, spacer: string): Mode {
    Mode(CircularText(cfg), cfg.bigint, cfg.deterministic, IndexEntriesFirst(SepAlways), NoReplacer, spacer)
  }

  function FullFnMode(cfg: Config, f: (Parent, Key, Value) -> Value, spacer: string): Mode {
    Mode(CircularText(cfg), cfg.bigint, cfg.deterministic, IndexEntriesFirst(SepAlways), FnReplacer(f), spacer)
  }

  function FullArrMode(cfg: Config, list: seq<Value>, spacer: string): Mode {
    Mode(CircularText(cfg), cfg.bigint, cfg.deterministic, AsPlainObject, ListReplacer(list), spacer)
  }

  /** `stringifyTypedArray`: the index entries of a typed array, joined by `separator`. */
  method StringifyTypedArray(items: seq<Element>, separator: string) returns (res: string)
    ensures res == TypedText(items, separator)
  {
    if |items| == 0 {
      return "";
    }
    var whitespace := if separator == "," then "" else " ";
    ghost var entries := TypedEntries(items, separator);
    res := "\"0\":" + whitespace + items[0].Text();
    assert res == Join(entries[..1], separator) by {
      assert entries[..1] == [TypedEntry(items, separator, 0)];
    }
    var i := 1;
    while i < |items|
      invariant 1 <= i <= |items|
      invariant res == Join(entries[..i], separator)
    {
      JoinPrefixStep(entries, i, separator);
      var entry := "\"" + NatText(i) + "\":" + whitespace + items[i].Text();
      assert entry == entries[i];
      res := res + (separator + entry);
      i := i + 1;
    }
    assert entries[..i] == entries;
  }

  /** Keys sorted by `insertSort` as the serializers call it on a fresh key array. */
  method SortedKeys(keys: seq<string>) returns (sorted: seq<string>)
    ensures sorted == SortSeq(keys)
  {
    var a := new string[|keys|](k requires 0 <= k < |keys| => keys[k]);
    assert a[..] == keys;
    InsertSort(a);
    sorted := a[..];
  }

  /** The cases of `switch (typeof value)` that every serializer writes the same way:
      strings, numbers, booleans, bigints, `null` and `undefined`. */
  method StringifyPrimitive(ghost m: Mode, ghost h: Heap, ghost stack: seq<Id>, ghost ind: string,
                            bigint: bool, value: Value) returns (r: Option<string>)
    requires !value.Ref? && bigint == m.bigint
    ensures r == Emit(m, h, stack, ind, value)
  {
    match value {
      case Str(s) =>
        var escaped := StrEscape(s);
        return Some("\"" + escaped + "\"");
      case Num(n) =>
        return Some(if n.finite then n.text else "null");
      case Bool(b) =>
        return Some(if b then "true" else "false");
      case BigInt(i) =>
        return if bigint then Some(IntText(i)) else None;
      case Undef =>
        return None;
      case Null =>
        return Some("null");
    }
  }

  // ---------------------------------------------------------------------------
  // stringifySimple

  /** `stringifySimple(key, value, stack)`: no replacer, no spacer. */
  method StringifySimple(cfg: Config, h: Heap, key: Key, value: Value, stack: Stack) returns (r: Option<string>)
    modifies stack
    ensures stack.items == old(stack.items)
    ensures r == Emit(SimpleMode(cfg), h, old(stack.items), "", ToJson(h, key, value))
    decreases Unvisited(h, stack.items), if HasToJson(h, value) then 3 else 2
  {
    if !value.Ref? {
      r := StringifyPrimitive(SimpleMode(cfg), h, stack.items, "", cfg.bigint, value);
      return;
    }
    var target := value.id;
    if target !in h {
      return None;
    }
    if h[target].toJSON.Some? {
      var converted := h[target].toJSON.value(key);
      if !converted.Ref? && !converted.Null? {
        // `toJSON` is not called on its result.
        r := StringifySimple(cfg, h, key, converted, stack);
        return;
      }
      if converted.Null? {
        return Some("null");
      }
      target := converted.id;
      if target !in h {
        return None;
      }
    }
    var index := stack.IndexOf(target);
    if index != -1 {
      return Some(CircularText(cfg));
    }
    var text;
    if h[target].Arr? {
      text := SimpleArray(cfg, h, target, stack);
    } else {
      text := SimpleObject(cfg, h, target, stack);
    }
    return Some(text);
  }

  /** The array branch of `stringifySimple`. */
  method SimpleArray(cfg: Config, h: Heap, target: Id, stack: Stack) returns (text: string)
    requires target in h && target !in stack.items && h[target].Arr?
    modifies stack
    ensures stack.items == old(stack.items)
    ensures text == ContainerText(SimpleMode(cfg), h, old(stack.items), "", target)
    decreases Unvisited(h, stack.items), 1
  {
    ArrayCase(SimpleMode(cfg), h, stack.items, "", target);
    if |h[target].elems| == 0 {
      return "[]";
    }
    var res := SimpleElements(cfg, h, target, "", stack);
    assert res == Join(Pieces(SimpleMode(cfg), h, stack.items, "", target, |h[target].elems|), ",");
    return "[" + res + "]";
  }

  /** The loop over the elements of `stringifySimple`: `res` starts as `lead` and ends with
      the elements joined by commas. */
  method SimpleElements(cfg: Config, h: Heap, target: Id, lead: string, stack: Stack) returns (res: string)
    requires target in h && target !in stack.items && h[target].Arr? && |h[target].elems| > 0
    modifies stack
    ensures stack.items == old(stack.items)
    ensures res == lead + Join(Pieces(SimpleMode(cfg), h, old(stack.items), "", target, |h[target].elems|), ",")
    decreases Unvisited(h, stack.items), 0
  {
    ghost var m := SimpleMode(cfg);
    ghost var s0 := stack.items;
    var elems := h[target].elems;
    UnvisitedShrinks(h, s0, target);
    stack.Push(target);
    res := lead;
    var i := 0;
    while i < |elems| - 1
      invariant 0 <= i <= |elems| - 1
      invariant stack.items == s0 + [target]
      invariant res == Written(m, h, s0, "", target, i, lead, ",")
    {
      var piece := SimpleElement(cfg, h, target, i, stack);
      PieceAdded(m, h, s0, "", target, i, lead, ",", res, piece);
      res := res + piece;
      res := res + ",";
      i := i + 1;
    }
    var piece := SimpleElement(cfg, h, target, i, stack);
    PieceAdded(m, h, s0, "", target, i, lead, ",", res, piece);
    res := res + piece;
    stack.Pop();
  }

  /** Element `i` as the array loop of `stringifySimple` writes it: `undefined` becomes
      `null`. */
  method SimpleElement(cfg: Config, h: Heap, target: Id, i: nat, stack: Stack) returns (piece: string)
    requires target in h && h[target].Arr? && i < |h[target].elems|
    modifies stack
    ensures stack.items == old(stack.items)
    ensures piece == Child(SimpleMode(cfg), h, old(stack.items), "" + SimpleMode(cfg).spacer, Holder(target), Index(i)).GetOr("null")
    decreases Unvisited(h, stack.items), 4
  {
    assert "" + SimpleMode(cfg).spacer == "";
    ElementWithoutFunction(SimpleMode(cfg), h, stack.items, "", target, i);
    var tmp := StringifySimple(cfg, h, Index(i), h[target].elems[i], stack);
    piece := if tmp.Some? then tmp.value else "null";
  }

  /** The object and typed-array branch of `stringifySimple`. */
  method SimpleObject(cfg: Config, h: Heap, target: Id, stack: Stack) returns (text: string)
    requires target in h && target !in stack.items && !h[target].Arr?
    modifies stack
    ensures stack.items == old(stack.items)
    ensures text == ContainerText(SimpleMode(cfg), h, old(stack.items), "", target)
    decreases Unvisited(h, stack.items), 1
  {
    ghost var s0 := stack.items;
    var c := h[target];
    SimpleObjectText(cfg, h, s0, target);
    var keys := ObjectKeys(c);
    if |keys| == 0 {
      return "{}";
    }
    var res := "";
    if c.Typed? {
      var typed := StringifyTypedArray(c.items, ",");
      res := res + typed;
      assert keys[|c.items|..] == c.extra;
      keys := keys[|c.items|..];
    }
    assert res == IndexPrefix(c, ",");
    if cfg.deterministic {
      keys := SortedKeys(keys);
    }
    assert keys == Ordered(SimpleMode(cfg), ListedKeys(c));
    res := SimpleEntries(cfg, h, target, keys, res, stack);
    return "{" + res + "}";
  }

  /** Without a spacer an object is its entries between braces; the index entries of a
      typed array are not followed by a separator. */
  lemma SimpleObjectText(cfg: Config, h: Heap, s0: seq<Id>, target: Id)
    requires target in h && target !in s0 && !h[target].Arr?
    ensures |ObjectKeys(h[target])| == 0 ==> ContainerText(SimpleMode(cfg), h, s0, "", target) == "{}"
    ensures |ObjectKeys(h[target])| > 0 ==>
      var m := SimpleMode(cfg);
      var keys := Names(Ordered(m, ListedKeys(h[target])));
      ContainerText(m, h, s0, "", target)
        == "{" + Body(IndexPrefix(h[target], ","), "", Entries(m, h, s0, "", target, keys, |keys|), ",") + "}"
  {
    IndexFirstCase(SimpleMode(cfg), h, s0, "", target);
    assert Separator("", "") == ",";
  }

  /** The loop over the keys of `stringifySimple`, appending to `prefix`. */
  method SimpleEntries(cfg: Config, h: Heap, target: Id, keys: seq<string>, prefix: string, stack: Stack)
    returns (res: string)
    requires target in h && target !in stack.items && !h[target].Arr?
    modifies stack
    ensures stack.items == old(stack.items)
    ensures res == Body(prefix, "", Entries(SimpleMode(cfg), h, old(stack.items), "", target, Names(keys), |keys|), ",")
    decreases Unvisited(h, stack.items), 0
  {
    ghost var m := SimpleMode(cfg);
    ghost var s0 := stack.items;
    ghost var names := Names(keys);
    assert "" + m.spacer == "";
    UnvisitedShrinks(h, s0, target);
    stack.Push(target);
    res := prefix;
    var separator := "";
    var i := 0;
    while i < |keys|
      invariant 0 <= i <= |keys|
      invariant stack.items == s0 + [target]
      invariant res == Body(prefix, "", Entries(m, h, s0, "", target, names, i), ",")
      invariant separator == LastSeparator("", Entries(m, h, s0, "", target, names, i), ",")
    {
      assert names[i] == Name(keys[i]);
      ghost var res0, separator0 := res, separator;
      res, separator := SimpleKey(cfg, h, target, keys[i], res, separator, stack);
      EntryWritten(m, h, s0, "", target, names, i, prefix, "", ",", res0, separator0, res, separator);
      assert res == Body(prefix, "", Entries(m, h, s0, "", target, names, i + 1), ",");
      assert separator == LastSeparator("", Entries(m, h, s0, "", target, names, i + 1), ",");
      i := i + 1;
    }
    stack.Pop();
  }

  /** One pass of the key loop of `stringifySimple`: `"key":value` is appended after the
      separator unless the value serializes to `undefined`. */
  method SimpleKey(cfg: Config, h: Heap, target: Id, key: string, res: string, separator: string, stack: Stack)
    returns (res': string, separator': string)
    requires target in h
    modifies stack
    ensures stack.items == old(stack.items)
    ensures var t := Child(SimpleMode(cfg), h, old(stack.items), "", Holder(target), Name(key));
      if t.Some? then res' == res + (separator + EntryText(Name(key), t.value, "")) && separator' == ","
      else res' == res && separator' == separator
    decreases Unvisited(h, stack.items), 4
  {
    PropertyWithoutFunction(SimpleMode(cfg), h, stack.items, "", target, key);
    var tmp := StringifySimple(cfg, h, Name(key), Get(h[target], key), stack);
    FlatEntry(Name(key), if tmp.Some? then tmp.value else "");
    res', separator' := res, separator;
    if tmp.Some? {
      var escaped := StrEscape(key);
      res' := res + (separator + ("\"" + escaped + "\":" + tmp.value));
      separator' := ",";
    }
  }

  // ---------------------------------------------------------------------------
  // stringifyIndent

  /** `stringifyIndent(key, value, stack, spacer, indentation)`: no replacer, a non-empty
      spacer. */
  method StringifyIndent(cfg: Config, spacer: string, h: Heap, key: Key, value: Value, stack: Stack, indentation: string)
    returns (r: Option<string>)
    requires spacer != ""
    modifies stack
    ensures stack.items == old(stack.items)
    ensures r == Emit(IndentMode(cfg, spacer), h, old(stack.items), indentation, ToJson(h, key, value))
    decreases Unvisited(h, stack.items), if HasToJson(h, value) then 3 else 2
  {
    if !value.Ref? {
      r := StringifyPrimitive(IndentMode(cfg, spacer), h, stack.items, indentation, cfg.bigint, value);
      return;
    }
    var target := value.id;
    if target !in h {
      return None;
    }
    if h[target].toJSON.Some? {
      var converted := h[target].toJSON.value(key);
      if !converted.Ref? && !converted.Null? {
        // `toJSON` is not called on its result.
        r := StringifyIndent(cfg, spacer, h, key, converted, stack, indentation);
        return;
      }
      if converted.Null? {
        return Some("null");
      }
      target := converted.id;
      if target !in h {
        return None;
      }
    }
    var index := stack.IndexOf(target);
    if index != -1 {
      return Some(CircularText(cfg));
    }
    var text;
    if h[target].Arr? {
      text := IndentArray(cfg, spacer, h, target, stack, indentation);
    } else {
      text := IndentObject(cfg, spacer, h, target, stack, indentation);
    }
    return Some(text);
  }

  /** The array branch of `stringifyIndent`: one element per line. */
  method IndentArray(cfg: Config, spacer: string, h: Heap, target: Id, stack: Stack, originalIndentation: string)
    returns (text: string)
    requires spacer != "" && target in h && target !in stack.items && h[target].Arr?
    modifies stack
    ensures stack.items == old(stack.items)
    ensures text == ContainerText(IndentMode(cfg, spacer), h, old(stack.items), originalIndentation, target)
    decreases Unvisited(h, stack.items), 1
  {
    ghost var m := IndentMode(cfg, spacer);
    ghost var s0 := stack.items;
    var elems := h[target].elems;
    ArrayCase(m, h, s0, originalIndentation, target);
    if |elems| == 0 {
      return "[]";
    }
    var indentation := originalIndentation + spacer;
    var res := "\n" + indentation;
    res := IndentElements(cfg, spacer, h, target, indentation, ",\n" + indentation, res, stack, originalIndentation);
    ArrayAssembly(Pieces(m, h, s0, originalIndentation, target, |elems|), spacer, originalIndentation, res);
    return "[" + (res + ("\n" + originalIndentation)) + "]";
  }

  /** The loop over the elements of `stringifyIndent`. */
  method IndentElements(cfg: Config, spacer: string, h: Heap, target: Id, indentation: string,
                        join: string, lead: string, stack: Stack, ghost ind: string)
    returns (res: string)
    requires spacer != "" && target in h && target !in stack.items && h[target].Arr? && |h[target].elems| > 0
    requires indentation == ind + spacer
    modifies stack
    ensures stack.items == old(stack.items)
    ensures res == lead + Join(Pieces(IndentMode(cfg, spacer), h, old(stack.items), ind, target, |h[target].elems|), join)
    decreases Unvisited(h, stack.items), 0
  {
    ghost var m := IndentMode(cfg, spacer);
    ghost var s0 := stack.items;
    var elems := h[target].elems;
    UnvisitedShrinks(h, s0, target);
    stack.Push(target);
    res := lead;
    var i := 0;
    while i < |elems| - 1
      invariant 0 <= i <= |elems| - 1
      invariant stack.items == s0 + [target]
      invariant res == Written(m, h, s0, ind, target, i, lead, join)
    {
      var piece := IndentElement(cfg, spacer, h, target, i, indentation, stack);
      PieceAdded(m, h, s0, ind, target, i, lead, join, res, piece);
      res := res + piece;
      res := res + join;
      i := i + 1;
    }
    var piece := IndentElement(cfg, spacer, h, target, i, indentation, stack);
    PieceAdded(m, h, s0, ind, target, i, lead, join, res, piece);
    res := res + piece;
    stack.Pop();
  }

  /** Element `i` as the array loop of `stringifyIndent` writes it. */
  method IndentElement(cfg: Config, spacer: string, h: Heap, target: Id, i: nat, indentation: string, stack: Stack)
    returns (piece: string)
    requires spacer != "" && target in h && h[target].Arr? && i < |h[target].elems|
    modifies stack
    ensures stack.items == old(stack.items)
    ensures piece == Child(IndentMode(cfg, spacer), h, old(stack.items), indentation, Holder(target), Index(i)).GetOr("null")
    decreases Unvisited(h, stack.items), 4
  {
    ElementWithoutFunction(IndentMode(cfg, spacer), h, stack.items, indentation, target, i);
    var tmp := StringifyIndent(cfg, spacer, h, Index(i), h[target].elems[i], stack, indentation);
    piece := if tmp.Some? then tmp.value else "null";
  }

  /** The object and typed-array branch of `stringifyIndent`. */
  method IndentObject(cfg: Config, spacer: string, h: Heap, target: Id, stack: Stack, originalIndentation: string)
    returns (text: string)
    requires spacer != "" && target in h && target !in stack.items && !h[target].Arr?
    modifies stack
    ensures stack.items == old(stack.items)
    ensures text == ContainerText(IndentMode(cfg, spacer), h, old(stack.items), originalIndentation, target)
    decreases Unvisited(h, stack.items), 1
  {
    ghost var m := IndentMode(cfg, spacer);
    ghost var s0 := stack.items;
    var c := h[target];
    IndexFirstCase(m, h, s0, originalIndentation, target);
    var keys := ObjectKeys(c);
    if |keys| == 0 {
      return "{}";
    }
    var indentation := originalIndentation + spacer;
    var join := ",\n" + indentation;
    var res := "";
    var separator := "";
    if c.Typed? {
      var typed := StringifyTypedArray(c.items, join);
      res := res + typed;
      assert keys[|c.items|..] == c.extra;
      keys := keys[|c.items|..];
      separator := join;
    }
    assert res == IndexPrefix(c, join) && separator == IndexLead(m.typed.sep, c, join);
    if cfg.deterministic {
      keys := SortedKeys(keys);
    }
    assert keys == Ordered(m, ListedKeys(c));
    ghost var prefix, sep0 := res, separator;
    res, separator := IndentEntries(cfg, spacer, h, target, keys, indentation, join, res, separator, stack, originalIndentation);
    ObjectAssembly(prefix, sep0, Entries(m, h, s0, originalIndentation, target, Names(keys), |keys|), spacer, originalIndentation);
    if separator != "" {
      res := "\n" + indentation + res + ("\n" + originalIndentation);
    }
    return "{" + res + "}";
  }

  /** The loop over the keys of `stringifyIndent`. */
  method IndentEntries(cfg: Config, spacer: string, h: Heap, target: Id, keys: seq<string>, indentation: string,
                       join: string, prefix: string, sep0: string, stack: Stack, ghost ind: string)
    returns (res: string, separator: string)
    requires spacer != "" && target in h && target !in stack.items && !h[target].Arr?
    requires indentation == ind + spacer && join == Separator(spacer, ind)
    modifies stack
    ensures stack.items == old(stack.items)
    ensures var entries := Entries(IndentMode(cfg, spacer), h, old(stack.items), ind, target, Names(keys), |keys|);
      res == Body(prefix, sep0, entries, join) && separator == LastSeparator(sep0, entries, join)
    decreases Unvisited(h, stack.items), 0
  {
    ghost var m := IndentMode(cfg, spacer);
    ghost var s0 := stack.items;
    ghost var names := Names(keys);
    UnvisitedShrinks(h, s0, target);
    stack.Push(target);
    res, separator := prefix, sep0;
    var i := 0;
    while i < |keys|
      invariant 0 <= i <= |keys|
      invariant stack.items == s0 + [target]
      invariant res == Body(prefix, sep0, Entries(m, h, s0, ind, target, names, i), join)
      invariant separator == LastSeparator(sep0, Entries(m, h, s0, ind, target, names, i), join)
    {
      res, separator := IndentEntry(cfg, spacer, h, target, keys, i, indentation, join, prefix, sep0, res, separator, stack, ind, s0);
      i := i + 1;
    }
    stack.Pop();
  }

  /** Key `i` of the loop of `stringifyIndent`: afterwards `res` and `separator`
      describe the first `i + 1` keys. */
  method IndentEntry(cfg: Config, spacer: string, h: Heap, target: Id, keys: seq<string>, i: nat, indentation: string,
                     join: string, prefix: string, sep0: string, res: string, separator: string, stack: Stack,
                     ghost ind: string, ghost s0: seq<Id>)
    returns (res': string, separator': string)
    requires spacer != "" && target in h && target !in s0 && i < |keys|
    requires stack.items == s0 + [target] && indentation == ind + spacer && join == Separator(spacer, ind)
    requires var entries := Entries(IndentMode(cfg, spacer), h, s0, ind, target, Names(keys), i);
      res == Body(prefix, sep0, entries, join) && separator == LastSeparator(sep0, entries, join)
    modifies stack
    ensures stack.items == old(stack.items)
    ensures var entries := Entries(IndentMode(cfg, spacer), h, s0, ind, target, Names(keys), i + 1);
      res' == Body(prefix, sep0, entries, join) && separator' == LastSeparator(sep0, entries, join)
    decreases Unvisited(h, stack.items), 5
  {
    assert Names(keys)[i] == Name(keys[i]);
    res', separator' := IndentKey(cfg, spacer, h, target, keys[i], indentation, join, res, separator, stack);
    EntryWritten(IndentMode(cfg, spacer), h, s0, ind, target, Names(keys), i, prefix, sep0, join, res, separator, res', separator');
  }

  /** One pass of the key loop of `stringifyIndent`: `"key": value`. */
  method IndentKey(cfg: Config, spacer: string, h: Heap, target: Id, key: string, indentation: string, join: string,
                   res: string, separator: string, stack: Stack)
    returns (res': string, separator': string)
    requires spacer != "" && target in h
    modifies stack
    ensures stack.items == old(stack.items)
    ensures var t := Child(IndentMode(cfg, spacer), h, old(stack.items), indentation, Holder(target), Name(key));
      if t.Some? then res' == res + (separator + EntryText(Name(key), t.value, spacer)) && separator' == join
      else res' == res && separator' == separator
    decreases Unvisited(h, stack.items), 4
  {
    PropertyWithoutFunction(IndentMode(cfg, spacer), h, stack.items, indentation, target, key);
    var tmp := StringifyIndent(cfg, spacer, h, Name(key), Get(h[target], key), stack, indentation);
    res', separator' := res, separator;
    if tmp.Some? {
      var escaped := StrEscape(key);
      res' := res + (separator + ("\"" + escaped + "\":" + " " + tmp.value));
      separator' := join;
    }
  }

  // ---------------------------------------------------------------------------
  // stringifyFullFn

  /** `stringifyFullFn(key, parent, stack, replacer, spacer, indentation)`: `parent[key]`
      after `toJSON` and the replacer function. */
  method StringifyFullFn(cfg: Config, f: (Parent, Key, Value) -> Value, spacer: string, h: Heap,
                         key: Key, parent: Parent, stack: Stack, indentation: string)
    returns (r: Option<string>)
    modifies stack
    ensures stack.items == old(stack.items)
    ensures r == Child(FullFnMode(cfg, f, spacer), h, old(stack.items), indentation, parent, key)
    decreases Unvisited(h, stack.items), 3
  {
    var value := Lookup(h, parent, key);
    if HasToJson(h, value) {
      value := h[value.id].toJSON.value(key);
    }
    value := f(parent, key, value);
    r := FullFnValue(cfg, f, spacer, h, value, stack, indentation);
  }

  /** The `switch (typeof value)` of `stringifyFullFn`, after the replacer has run. */
  method FullFnValue(cfg: Config, f: (Parent, Key, Value) -> Value, spacer: string, h: Heap,
                     value: Value, stack: Stack, indentation: string)
    returns (r: Option<string>)
    modifies stack
    ensures stack.items == old(stack.items)
    ensures r == Emit(FullFnMode(cfg, f, spacer), h, old(stack.items), indentation, value)
    decreases Unvisited(h, stack.items), 2
  {
    if !value.Ref? {
      r := StringifyPrimitive(FullFnMode(cfg, f, spacer), h, stack.items, indentation, cfg.bigint, value);
      return;
    }
    var target := value.id;
    if target !in h {
      return None;
    }
    var index := stack.IndexOf(target);
    if index != -1 {
      return Some(CircularText(cfg));
    }
    var text;
    if h[target].Arr? {
      text := FullFnArray(cfg, f, spacer, h, target, stack, indentation);
    } else {
      text := FullFnObject(cfg, f, spacer, h, target, stack, indentation);
    }
    return Some(text);
  }

  /** The array branch of `stringifyFullFn`: one element per line when there is a spacer. */
  method FullFnArray(cfg: Config, f: (Parent, Key, Value) -> Value, spacer: string, h: Heap, target: Id,
                     stack: Stack, originalIndentation: string)
    returns (text: string)
    requires target in h && target !in stack.items && h[target].Arr?
    modifies stack
    ensures stack.items == old(stack.items)
    ensures text == ContainerText(FullFnMode(cfg, f, spacer), h, old(stack.items), originalIndentation, target)
    decreases Unvisited(h, stack.items), 1
  {
    ghost var m := FullFnMode(cfg, f, spacer);
    ghost var s0 := stack.items;
    var elems := h[target].elems;
    ArrayCase(m, h, s0, originalIndentation, target);
    if |elems| == 0 {
      return "[]";
    }
    var indentation := originalIndentation;
    var res := "";
    var join := ",";
    if spacer != "" {
      indentation := indentation + spacer;
      res := "\n" + indentation;
      join := ",\n" + indentation;
    }
    res := FullFnElements(cfg, f, spacer, h, target, indentation, join, res, stack, originalIndentation);
    ArrayAssembly(Pieces(m, h, s0, originalIndentation, target, |elems|), spacer, originalIndentation, res);
    if spacer != "" {
      res := res + ("\n" + originalIndentation);
    }
    return "[" + res + "]";
  }

  /** The loop over the elements of `stringifyFullFn`: `res` starts as `lead` and ends with the
      elements joined by `join`. */
  method FullFnElements(cfg: Config, f: (Parent, Key, Value) -> Value, spacer: string, h: Heap, target: Id, indentation: string,
                       join: string, lead: string, stack: Stack, ghost ind: string)
    returns (res: string)
    requires target in h && target !in stack.items && h[target].Arr? && |h[target].elems| > 0
    requires indentation == ind + spacer
    modifies stack
    ensures stack.items == old(stack.items)
    ensures res == lead + Join(Pieces(FullFnMode(cfg, f, spacer), h, old(stack.items), ind, target, |h[target].elems|), join)
    decreases Unvisited(h, stack.items), 0
  {
    ghost var m := FullFnMode(cfg, f, spacer);
    ghost var s0 := stack.items;
    var elems := h[target].elems;
    UnvisitedShrinks(h, s0, target);
    stack.Push(target);
    res := lead;
    var i := 0;
    while i < |elems| - 1
      invariant 0 <= i <= |elems| - 1
      invariant stack.items == s0 + [target]
      invariant res == Written(m, h, s0, ind, target, i, lead, join)
    {
      var piece := FullFnElement(cfg, f, spacer, h, target, i, indentation, stack);
      PieceAdded(m, h, s0, ind, target, i, lead, join, res, piece);
      res := res + piece;
      res := res + join;
      i := i + 1;
    }
    var piece := FullFnElement(cfg, f, spacer, h, target, i, indentation, stack);
    PieceAdded(m, h, s0, ind, target, i, lead, join, res, piece);
    res := res + piece;
    stack.Pop();
  }

  /** Element `i` as the array loop of `stringifyFullFn` writes it. */
  method FullFnElement(cfg: Config, f: (Parent, Key, Value) -> Value, spacer: string, h: Heap, target: Id, i: nat,
                       indentation: string, stack: Stack)
    returns (piece: string)
    requires target in h && h[target].Arr? && i < |h[target].elems|
    modifies stack
    ensures stack.items == old(stack.items)
    ensures piece == Child(FullFnMode(cfg, f, spacer), h, old(stack.items), indentation, Holder(target), Index(i)).GetOr("null")
    decreases Unvisited(h, stack.items), 4
  {
    var tmp := StringifyFullFn(cfg, f, spacer, h, Index(i), Holder(target), stack, indentation);
    piece := if tmp.Some? then tmp.value else "null";
  }

  /** The object and typed-array branch of `stringifyFullFn`. */
  method FullFnObject(cfg: Config, f: (Parent, Key, Value) -> Value, spacer: string, h: Heap, target: Id,
                      stack: Stack, originalIndentation: string)
    returns (text: string)
    requires target in h && target !in stack.items && !h[target].Arr?
    modifies stack
    ensures stack.items == old(stack.items)
    ensures text == ContainerText(FullFnMode(cfg, f, spacer), h, old(stack.items), originalIndentation, target)
    decreases Unvisited(h, stack.items), 1
  {
    ghost var m := FullFnMode(cfg, f, spacer);
    ghost var s0 := stack.items;
    var c := h[target];
    IndexFirstCase(m, h, s0, originalIndentation, target);
    var keys := ObjectKeys(c);
    if |keys| == 0 {
      return "{}";
    }
    var indentation := originalIndentation;
    var join := ",";
    var whitespace := "";
    var res := "";
    var separator := "";
    if spacer != "" {
      indentation := indentation + spacer;
      join := ",\n" + indentation;
      whitespace := " ";
    }
    assert indentation == originalIndentation + spacer && join == Separator(spacer, originalIndentation);
    if c.Typed? {
      var typed := StringifyTypedArray(c.items, join);
      res := res + typed;
      assert keys[|c.items|..] == c.extra;
      keys := keys[|c.items|..];
      separator := join;
    }
    assert res == IndexPrefix(c, join) && separator == IndexLead(m.typed.sep, c, join);
    if cfg.deterministic {
      keys := SortedKeys(keys);
    }
    assert keys == Ordered(m, ListedKeys(c));
    ghost var prefix, sep0 := res, separator;
    res, separator := FullFnEntries(cfg, f, spacer, h, target, keys, indentation, join, whitespace, res, separator, stack, originalIndentation);
    ObjectAssembly(prefix, sep0, Entries(m, h, s0, originalIndentation, target, Names(keys), |keys|), spacer, originalIndentation);
    if spacer != "" && |separator| > 1 {
      res := "\n" + indentation + res + ("\n" + originalIndentation);
    }
    return "{" + res + "}";
  }

  /** The loop over the keys of `stringifyFullFn`. */
  method FullFnEntries(cfg: Config, f: (Parent, Key, Value) -> Value, spacer: string, h: Heap, target: Id,
                       keys: seq<string>, indentation: string, join: string, whitespace: string,
                       prefix: string, sep0: string, stack: Stack, ghost ind: string)
    returns (res: string, separator: string)
    requires target in h && target !in stack.items && !h[target].Arr?
    requires indentation == ind + spacer && whitespace == (if spacer == "" then "" else " ")
    modifies stack
    ensures stack.items == old(stack.items)
    ensures var entries := Entries(FullFnMode(cfg, f, spacer), h, old(stack.items), ind, target, Names(keys), |keys|);
      res == Body(prefix, sep0, entries, join) && separator == LastSeparator(sep0, entries, join)
    decreases Unvisited(h, stack.items), 0
  {
    ghost var m := FullFnMode(cfg, f, spacer);
    ghost var s0 := stack.items;
    ghost var names := Names(keys);
    UnvisitedShrinks(h, s0, target);
    stack.Push(target);
    res, separator := prefix, sep0;
    var i := 0;
    while i < |keys|
      invariant 0 <= i <= |keys|
      invariant stack.items == s0 + [target]
      invariant res == Body(prefix, sep0, Entries(m, h, s0, ind, target, names, i), join)
      invariant separator == LastSeparator(sep0, Entries(m, h, s0, ind, target, names, i), join)
    {
      res, separator := FullFnEntry(cfg, f, spacer, h, target, keys, i, indentation, join, whitespace, prefix, sep0, res, separator, stack, ind, s0);
      i := i + 1;
    }
    stack.Pop();
  }

  /** Key `i` of the loop of `stringifyFullFn`: afterwards `res` and `separator`
      describe the first `i + 1` keys. */
  method FullFnEntry(cfg: Config, f: (Parent, Key, Value) -> Value, spacer: string, h: Heap, target: Id,
                     keys: seq<string>, i: nat, indentation: string, join: string, whitespace: string,
                     prefix: string, sep0: string, res: string, separator: string, stack: Stack,
                     ghost ind: string, ghost s0: seq<Id>)
    returns (res': string, separator': string)
    requires target in h && target !in s0 && i < |keys|
    requires stack.items == s0 + [target] && indentation == ind + spacer && whitespace == (if spacer == "" then "" else " ")
    requires var entries := Entries(FullFnMode(cfg, f, spacer), h, s0, ind, target, Names(keys), i);
      res == Body(prefix, sep0, entries, join) && separator == LastSeparator(sep0, entries, join)
    modifies stack
    ensures stack.items == old(stack.items)
    ensures var entries := Entries(FullFnMode(cfg, f, spacer), h, s0, ind, target, Names(keys), i + 1);
      res' == Body(prefix, sep0, entries, join) && separator' == LastSeparator(sep0, entries, join)
    decreases Unvisited(h, stack.items), 5
  {
    assert Names(keys)[i] == Name(keys[i]);
    res', separator' := FullFnKey(cfg, f, spacer, h, target, keys[i], indentation, join, whitespace, res, separator, stack);
    EntryWritten(FullFnMode(cfg, f, spacer), h, s0, ind, target, Names(keys), i, prefix, sep0, join, res, separator, res', separator');
  }

  /** One pass of the key loop of `stringifyFullFn`. */
  method FullFnKey(cfg: Config, f: (Parent, Key, Value) -> Value, spacer: string, h: Heap, target: Id, key: string,
                   indentation: string, join: string, whitespace: string, res: string, separator: string, stack: Stack)
    returns (res': string, separator': string)
    requires whitespace == (if spacer == "" then "" else " ")
    modifies stack
    ensures stack.items == old(stack.items)
    ensures var t := Child(FullFnMode(cfg, f, spacer), h, old(stack.items), indentation, Holder(target), Name(key));
      if t.Some? then res' == res + (separator + EntryText(Name(key), t.value, spacer)) && separator' == join
      else res' == res && separator' == separator
    decreases Unvisited(h, stack.items), 4
  {
    var tmp := StringifyFullFn(cfg, f, spacer, h, Name(key), Holder(target), stack, indentation);
    res', separator' := res, separator;
    if tmp.Some? {
      var escaped := StrEscape(key);
      res' := res + (separator + ("\"" + escaped + "\":" + whitespace + tmp.value));
      separator' := join;
    }
  }

  // ---------------------------------------------------------------------------
  // stringifyFullArr

  /** `stringifyFullArr(key, value, stack, replacer, spacer, indentation)`: objects keep
      only the keys listed by the replacer array. */
  method StringifyFullArr(cfg: Config, list: seq<Value>, spacer: string, h: Heap,
                          key: Key, value: Value, stack: Stack, indentation: string)
    returns (r: Option<string>)
    modifies stack
    ensures stack.items == old(stack.items)
    ensures r == Emit(FullArrMode(cfg, list, spacer), h, old(stack.items), indentation, ToJson(h, key, value))
    decreases Unvisited(h, stack.items), 2
  {
    var v := value;
    if HasToJson(h, v) {
      v := h[v.id].toJSON.value(key);
    }
    if !v.Ref? {
      r := StringifyPrimitive(FullArrMode(cfg, list, spacer), h, stack.items, indentation, cfg.bigint, v);
      return;
    }
    var target := v.id;
    if target !in h {
      return None;
    }
    var index := stack.IndexOf(target);
    if index != -1 {
      return Some(CircularText(cfg));
    }
    var text;
    if h[target].Arr? {
      text := FullArrArray(cfg, list, spacer, h, target, stack, indentation);
    } else {
      text := FullArrObject(cfg, list, spacer, h, target, stack, indentation);
    }
    return Some(text);
  }

  /** The array branch of `stringifyFullArr`. */
  method FullArrArray(cfg: Config, list: seq<Value>, spacer: string, h: Heap, target: Id,
                      stack: Stack, originalIndentation: string)
    returns (text: string)
    requires target in h && target !in stack.items && h[target].Arr?
    modifies stack
    ensures stack.items == old(stack.items)
    ensures text == ContainerText(FullArrMode(cfg, list, spacer), h, old(stack.items), originalIndentation, target)
    decreases Unvisited(h, stack.items), 1
  {
    ghost var m := FullArrMode(cfg, list, spacer);
    ghost var s0 := stack.items;
    var elems := h[target].elems;
    ArrayCase(m, h, s0, originalIndentation, target);
    if |elems| == 0 {
      return "[]";
    }
    var indentation := originalIndentation;
    var res := "";
    var join := ",";
    if spacer != "" {
      indentation := indentation + spacer;
      res := "\n" + indentation;
      join := ",\n" + indentation;
    }
    res := FullArrElements(cfg, list, spacer, h, target, indentation, join, res, stack, originalIndentation);
    ArrayAssembly(Pieces(m, h, s0, originalIndentation, target, |elems|), spacer, originalIndentation, res);
    if spacer != "" {
      res := res + ("\n" + originalIndentation);
    }
    return "[" + res + "]";
  }

  /** The loop over the elements of `stringifyFullArr`: `res` starts as `lead` and ends with the
      elements joined by `join`. */
  method FullArrElements(cfg: Config, list: seq<Value>, spacer: string, h: Heap, target: Id, indentation: string,
                        join: string, lead: string, stack: Stack, ghost ind: string)
    returns (res: string)
    requires target in h && target !in stack.items && h[target].Arr? && |h[target].elems| > 0
    requires indentation == ind + spacer
    modifies stack
    ensures stack.items == old(stack.items)
    ensures res == lead + Join(Pieces(FullArrMode(cfg, list, spacer), h, old(stack.items), ind, target, |h[target].elems|), join)
    decreases Unvisited(h, stack.items), 0
  {
    ghost var m := FullArrMode(cfg, list, spacer);
    ghost var s0 := stack.items;
    var elems := h[target].elems;
    UnvisitedShrinks(h, s0, target);
    stack.Push(target);
    res := lead;
    var i := 0;
    while i < |elems| - 1
      invariant 0 <= i <= |elems| - 1
      invariant stack.items == s0 + [target]
      invariant res == Written(m, h, s0, ind, target, i, lead, join)
    {
      var piece := FullArrElement(cfg, list, spacer, h, target, i, indentation, stack);
      PieceAdded(m, h, s0, ind, target, i, lead, join, res, piece);
      res := res + piece;
      res := res + join;
      i := i + 1;
    }
    var piece := FullArrElement(cfg, list, spacer, h, target, i, indentation, stack);
    PieceAdded(m, h, s0, ind, target, i, lead, join, res, piece);
    res := res + piece;
    stack.Pop();
  }

  /** Element `i` as the array loop of `stringifyFullArr` writes it. */
  method FullArrElement(cfg: Config, list: seq<Value>, spacer: string, h: Heap, target: Id, i: nat,
                        indentation: string, stack: Stack)
    returns (piece: string)
    requires target in h && h[target].Arr? && i < |h[target].elems|
    modifies stack
    ensures stack.items == old(stack.items)
    ensures piece == Child(FullArrMode(cfg, list, spacer), h, old(stack.items), indentation, Holder(target), Index(i)).GetOr("null")
    decreases Unvisited(h, stack.items), 3
  {
    ElementWithoutFunction(FullArrMode(cfg, list, spacer), h, stack.items, indentation, target, i);
    var tmp := StringifyFullArr(cfg, list, spacer, h, Index(i), h[target].elems[i], stack, indentation);
    piece := if tmp.Some? then tmp.value else "null";
  }

  /** The object and typed-array branch of `stringifyFullArr`: the listed keys, in the
      replacer's order. */
  method FullArrObject(cfg: Config, list: seq<Value>, spacer: string, h: Heap, target: Id,
                       stack: Stack, originalIndentation: string)
    returns (text: string)
    requires target in h && target !in stack.items && !h[target].Arr?
    modifies stack
    ensures stack.items == old(stack.items)
    ensures text == ContainerText(FullArrMode(cfg, list, spacer), h, old(stack.items), originalIndentation, target)
    decreases Unvisited(h, stack.items), 1
  {
    ghost var m := FullArrMode(cfg, list, spacer);
    ghost var s0 := stack.items;
    ListCase(m, h, s0, originalIndentation, target);
    if |list| == 0 {
      return "{}";
    }
    var indentation := originalIndentation;
    var join := ",";
    var whitespace := "";
    if spacer != "" {
      indentation := indentation + spacer;
      join := ",\n" + indentation;
      whitespace := " ";
    }
    assert indentation == originalIndentation + spacer && join == Separator(spacer, originalIndentation);
    var res, separator := FullArrEntries(cfg, list, spacer, h, target, indentation, join, whitespace, stack, originalIndentation);
    ghost var keys := ListKeys(list);
    ObjectAssembly("", "", Entries(m, h, s0, originalIndentation, target, keys, |keys|), spacer, originalIndentation);
    if spacer != "" && |separator| > 1 {
      res := "\n" + indentation + res + ("\n" + originalIndentation);
    }
    return "{" + res + "}";
  }

  /** The loop over the replacer array of `stringifyFullArr`: entries that are neither
      strings nor numbers are skipped. */
  method FullArrEntries(cfg: Config, list: seq<Value>, spacer: string, h: Heap, target: Id,
                        indentation: string, join: string, whitespace: string, stack: Stack, ghost ind: string)
    returns (res: string, separator: string)
    requires target in h && target !in stack.items && !h[target].Arr?
    requires indentation == ind + spacer && whitespace == (if spacer == "" then "" else " ")
    modifies stack
    ensures stack.items == old(stack.items)
    ensures var keys := ListKeys(list);
      var entries := Entries(FullArrMode(cfg, list, spacer), h, old(stack.items), ind, target, keys, |keys|);
      res == Body("", "", entries, join) && separator == LastSeparator("", entries, join)
    decreases Unvisited(h, stack.items), 0
  {
    ghost var m := FullArrMode(cfg, list, spacer);
    ghost var s0 := stack.items;
    ghost var keys := ListKeys(list);
    UnvisitedShrinks(h, s0, target);
    stack.Push(target);
    res, separator := "", "";
    var j := 0;
    while j < |list|
      invariant 0 <= j <= |list|
      invariant stack.items == s0 + [target]
      invariant |ListKeys(list[..j])| <= |keys|
      invariant res == Body("", "", Entries(m, h, s0, ind, target, keys, |ListKeys(list[..j])|), join)
      invariant separator == LastSeparator("", Entries(m, h, s0, ind, target, keys, |ListKeys(list[..j])|), join)
    {
      ListKeyAt(list, j);
      if list[j].Str? || list[j].Num? {
        var key := if list[j].Str? then Name(list[j].s) else NumberKey(list[j].n);
        ghost var k := |ListKeys(list[..j])|;
        ghost var res0, separator0 := res, separator;
        res, separator := FullArrKey(cfg, list, spacer, h, target, key, indentation, join, whitespace, res, separator, stack);
        EntryWritten(m, h, s0, ind, target, keys, k, "", "", join, res0, separator0, res, separator);
        assert res == Body("", "", Entries(m, h, s0, ind, target, keys, k + 1), join);
        assert separator == LastSeparator("", Entries(m, h, s0, ind, target, keys, k + 1), join);
      }
      j := j + 1;
    }
    assert list[..j] == list;
    stack.Pop();
  }

  /** One listed key of `stringifyFullArr`: a number key is written as its `String` form. */
  method FullArrKey(cfg: Config, list: seq<Value>, spacer: string, h: Heap, target: Id, key: Key,
                    indentation: string, join: string, whitespace: string, res: string, separator: string, stack: Stack)
    returns (res': string, separator': string)
    requires !key.Index? && whitespace == (if spacer == "" then "" else " ")
    modifies stack
    ensures stack.items == old(stack.items)
    ensures var t := Child(FullArrMode(cfg, list, spacer), h, old(stack.items), indentation, Holder(target), key);
      if t.Some? then res' == res + (separator + EntryText(key, t.value, spacer)) && separator' == join
      else res' == res && separator' == separator
    decreases Unvisited(h, stack.items), 3
  {
    ChildWithoutFunction(FullArrMode(cfg, list, spacer), h, stack.items, indentation, target, key);
    var tmp := StringifyFullArr(cfg, list, spacer, h, key, Lookup(h, Holder(target), key), stack, indentation);
    res', separator' := res, separator;
    if tmp.Some? {
      var name;
      if key.NumberKey? {
        name := key.n.text;
      } else {
        name := StrEscape(key.s);
      }
      res' := res + (separator + ("\"" + name + "\":" + whitespace + tmp.value));
      separator' := join;
    }
  }

  // ---------------------------------------------------------------------------
  // stringify

  const RepeatRangeError := "RangeError: Invalid count value"

  /** The spacer `stringify` derives from `space`: `' '.repeat(n)` for a number, which
      throws for a negative one, the string itself, or no spacer. */
  function SpacerOf(space: SpaceArg): (r: Result<string, string>)
    ensures r.Err? <==> space.SpaceCount? && space.n < 0
    ensures r.Err? ==> r.error == RepeatRangeError
    ensures space.SpaceCount? && r.Ok? ==> |r.value| == space.n && forall i :: 0 <= i < |r.value| ==> r.value[i] == ' '
    ensures space.SpaceText? ==> r == Ok(space.s)
    ensures space.OtherSpace? ==> r == Ok("")
  {
    match space
    case SpaceCount(n) => if n < 0 then Err(RepeatRangeError) else Ok(Spaces(n))
    case SpaceText(s) => Ok(s)
    case OtherSpace => Ok("")
  }

  /** Which serializer `stringify` calls, as the mode that describes it: a replacer
      function or array first, then a non-empty spacer, then the simple one. */
  function ModeOf(cfg: Config, replacer: ReplacerArg, spacer: string): Mode {
    match replacer
    case FunctionArg(f) => FullFnMode(cfg, f, spacer)
    case ArrayArg(list) => FullArrMode(cfg, list, spacer)
    case OtherReplacer => if spacer != "" then IndentMode(cfg, spacer) else SimpleMode(cfg)
  }

  /** `stringify(value, replacer, space)` of the closure `main` returns: the top-level
      value under the key `''` with an empty stack and no indentation. `None` stands for
      `undefined`, `Err` for the RangeError thrown by a negative space count. */
  method Stringify(cfg: Config, h: Heap, value: Value, replacer: ReplacerArg, space: SpaceArg)
    returns (r: Result<Option<string>, string>)
    ensures r.Err? <==> SpacerOf(space).Err?
    ensures r.Err? ==> r.error == RepeatRangeError
    ensures r.Ok? ==> r.value == Top(ModeOf(cfg, replacer, SpacerOf(space).value), h, value)
  {
    var spacer := "";
    match space {
      case SpaceCount(n) =>
        if n < 0 {
          return Err(RepeatRangeError);
        }
        spacer := Spaces(n);
      case SpaceText(s) =>
        spacer := s;
      case OtherSpace =>
    }
    var stack := new Stack();
    var res;
    match replacer {
      case FunctionArg(f) =>
        res := StringifyFullFn(cfg, f, spacer, h, Name(""), Wrapper(value), stack, "");
      case ArrayArg(list) =>
        res := StringifyFullArr(cfg, list, spacer, h, Name(""), value, stack, "");
      case OtherReplacer =>
        if spacer != "" {
          res := StringifyIndent(cfg, spacer, h, Name(""), value, stack, "");
        } else {
          res := StringifySimple(cfg, h, Name(""), value, stack);
        }
    }
    return Ok(res);
  }
}
