/** stable.js: the module exports `stringify` directly. It always sorts keys with
    `insertSort`, writes `"[Circular]"` for a circular reference, has no bigint case and
    treats a typed array like any other object. Its one piece of state is the
    module-level `indentation`, which the pretty serializers grow while they write a
    container and restore before they return; here it is the field of a `Stringifier`. */
module StableEngine {
  import opened Values
  import opened JsonString
  import opened KeyOrder
  import opened Ancestors
  import opened Serialization

  /** The marker stable.js writes for an object that is its own ancestor. */
  const CircularMarker := "\"[Circular]\""

  /** What every serializer of stable.js writes, for a replacer and a spacer: the
      `"[Circular]"` marker, bigints as `undefined`, keys sorted, typed arrays as plain
      objects. */
  function StableMode(replacer: Replacer, spacer: string): (m: Mode)
    ensures m.circular == CircularMarker && !m.bigint && m.sortKeys
    ensures m.typed == AsPlainObject && m.replacer == replacer && m.spacer == spacer
  {
    Mode(CircularMarker, false, true, AsPlainObject, replacer, spacer)
  }

  /** The replacer `stringify` hands on: a function, an array, or none. */
  function ReplacerOf(replacer: ReplacerArg): (r: Replacer)
    ensures replacer.FunctionArg? <==> r.FnReplacer?
    ensures replacer.ArrayArg? <==> r.ListReplacer?
    ensures replacer.FunctionArg? ==> r.f == replacer.f
    ensures replacer.ArrayArg? ==> r.entries == replacer.list
  {
    match replacer
    case FunctionArg(f) => FnReplacer(f)
    case ArrayArg(list) => ListReplacer(list)
    case OtherReplacer => NoReplacer
  }

  /** The indent `stringify` derives from `spacer`: one space per loop pass for a
      number, so none for a count below one, the string itself, or none. */
  function IndentOf(space: SpaceArg): (indent: string)
    ensures space.SpaceCount? ==>
      |indent| == (if space.n < 0 then 0 else space.n) && forall i :: 0 <= i < |indent| ==> indent[i] == ' '
    ensures space.SpaceText? ==> indent == space.s
    ensures space.OtherSpace? ==> indent == ""
  {
    match space
    case SpaceCount(n) => Spaces(if n < 0 then 0 else n)
    case SpaceText(s) => s
    case OtherSpace => ""
  }

  /** The loop `for (i = 0; i < spacer; i += 1) indent += ' '`. */
  method SpaceIndent(count: int) returns (indent: string)
    ensures indent == Spaces(if count < 0 then 0 else count)
  {
    indent := "";
    var i := 0;
    while i < count
      invariant 0 <= i <= (if count < 0 then 0 else count)
      invariant indent == Spaces(i)
    {
      indent := indent + " ";
      i := i + 1;
    }
  }

  /** `insertSort(Object.keys(value))`: the shifting loop whatever the number of keys. */
  method SortedKeys(keys: seq<string>) returns (sorted: seq<string>)
    ensures sorted == SortSeq(keys)
  {
    var a := new string[|keys|](k requires 0 <= k < |keys| => keys[k]);
    assert a[..] == keys;
    InsertionSort(a);
    sorted := a[..];
  }

  /** The cases of `switch (typeof value)` that do not depend on the serializer:
      strings, numbers, booleans and `null`; a bigint, like `undefined`, matches no case. */
  method StringifyPrimitive(ghost m: Mode, ghost h: Heap, ghost stack: seq<Id>, ghost ind: string, value: Value)
    returns (r: Option<string>)
    requires !value.Ref? && !m.bigint
    ensures r == Emit(m, h, stack, ind, value)
  {
    match value {
      case Str(s) =>
        var escaped := StrEscape(s);
        return Some("\"" + escaped + "\"");
      case Num(n) =>
        return Some(if n.finite then n.text else "null");
      case Bool(b) =>
        return Some(if b then "true" else "false");
      case Null =>
        return Some("null");
      case _ =>
        return None;
    }
  }

  /** The module instance: the serializers and the `indentation` they share. */
  class Stringifier {
    /** `var indentation = ''`: the indentation of the container being written. */
    var indentation: string

    constructor()
      ensures indentation == ""
    {
      indentation := "";
    }

    // ---------------------------------------------------------------------------
    // stringifySimple

    /** `stringifySimple(key, value, stack)`: no replacer, no spacer. */
    method Simple(h: Heap, key: Key, value: Value, stack: Stack) returns (r: Option<string>)
      modifies stack
      ensures stack.items == old(stack.items)
      ensures r == Emit(StableMode(NoReplacer, ""), h, old(stack.items), "", ToJson(h, key, value))
      decreases Unvisited(h, stack.items), if HasToJson(h, value) then 3 else 2
    {
      if !value.Ref? {
        r := StringifyPrimitive(StableMode(NoReplacer, ""), h, stack.items, "", value);
        return;
      }
      var target := value.id;
      if target !in h {
        return None;
      }
      if h[target].toJSON.Some? {
        var converted := h[target].toJSON.value(key);
        if !converted.Ref? && !converted.Null? {
          // `toJSON` is not called on its result.
          r := Simple(h, key, converted, stack);
          return;
        }
        if converted.Null? {
          return Some("null");
        }
        target := converted.id;
        if target !in h {
          return None;
        }
      }
      var index := stack.IndexOf(target);
      if index != -1 {
        return Some(CircularMarker);
      }
      var text;
      if h[target].Arr? {
        text := SimpleArray(h, target, stack);
      } else {
        text := SimpleObject(h, target, stack);
      }
      return Some(text);
    }

    /** The array branch of `stringifySimple`. */
    method SimpleArray(h: Heap, target: Id, stack: Stack) returns (text: string)
      requires target in h && target !in stack.items && h[target].Arr?
      modifies stack
      ensures stack.items == old(stack.items)
      ensures text == ContainerText(StableMode(NoReplacer, ""), h, old(stack.items), "", target)
      decreases Unvisited(h, stack.items), 1
    {
      ghost var s0 := stack.items;
      ArrayCase(StableMode(NoReplacer, ""), h, s0, "", target);
      BracketFirstAssembly(Pieces(StableMode(NoReplacer, ""), h, s0, "", target, |h[target].elems|), "", "");
      if |h[target].elems| == 0 {
        return "[]";
      }
      var res := "[";
      res := SimpleElements(h, target, res, stack);
      res := res + "]";
      return res;
    }

    /** The loop over the elements of `stringifySimple`: `res` starts as `lead` and ends with
        the elements joined. */
    method SimpleElements(h: Heap, target: Id, lead: string, stack: Stack)
      returns (res: string)
      requires target in h && target !in stack.items && h[target].Arr? && |h[target].elems| > 0
      modifies stack
      ensures stack.items == old(stack.items)
      ensures res == lead + Join(Pieces(StableMode(NoReplacer, ""), h, old(stack.items), "", target, |h[target].elems|), ",")
      decreases Unvisited(h, stack.items), 0
    {
      ghost var s0 := stack.items;
      var n := |h[target].elems|;
      UnvisitedShrinks(h, s0, target);
      stack.Push(target);
      res := lead;
      var i := 0;
      while i < n - 1
        invariant 0 <= i <= n - 1
        invariant stack.items == s0 + [target]
        invariant res == Written(StableMode(NoReplacer, ""), h, s0, "", target, i, lead, ",")
      {
        var piece := SimpleElement(h, target, i, stack);
        PieceAdded(StableMode(NoReplacer, ""), h, s0, "", target, i, lead, ",", res, piece);
        res := res + piece;
        res := res + ",";
        i := i + 1;
      }
      var piece := SimpleElement(h, target, i, stack);
      PieceAdded(StableMode(NoReplacer, ""), h, s0, "", target, i, lead, ",", res, piece);
      res := res + piece;
      stack.Pop();
    }

    /** Element `i` as the array loop of `stringifySimple` writes it: `undefined` becomes `null`. */
    method SimpleElement(h: Heap, target: Id, i: nat, stack: Stack) returns (piece: string)
      requires target in h && h[target].Arr? && i < |h[target].elems|
      modifies stack
      ensures stack.items == old(stack.items)
      ensures piece == Child(StableMode(NoReplacer, ""), h, old(stack.items), "" + StableMode(NoReplacer, "").spacer, Holder(target), Index(i)).GetOr("null")
      decreases Unvisited(h, stack.items), 4
    {
      assert "" + StableMode(NoReplacer, "").spacer == "";
      ElementWithoutFunction(StableMode(NoReplacer, ""), h, stack.items, "", target, i);
      var tmp := Simple(h, Index(i), h[target].elems[i], stack);
      piece := if tmp.Some? then tmp.value else "null";
    }

    /** The object branch of `stringifySimple`: its own keys, sorted. */
    method SimpleObject(h: Heap, target: Id, stack: Stack) returns (text: string)
      requires target in h && target !in stack.items && !h[target].Arr?
      modifies stack
      ensures stack.items == old(stack.items)
      ensures text == ContainerText(StableMode(NoReplacer, ""), h, old(stack.items), "", target)
      decreases Unvisited(h, stack.items), 1
    {
      ghost var s0 := stack.items;
      PlainObjectCase(StableMode(NoReplacer, ""), h, s0, "", target);
      var keys := SortedKeys(ObjectKeys(h[target]));
      assert keys == Ordered(StableMode(NoReplacer, ""), ObjectKeys(h[target]));
      BraceFirstAssembly(Entries(StableMode(NoReplacer, ""), h, s0, "", target, Names(keys), |keys|), "", "");
      if |keys| == 0 {
        return "{}";
      }
      var res := "{";
      res := SimpleEntries(h, target, keys, res, stack);
      res := res + "}";
      return res;
    }

    /** The loop over the sorted keys of `stringifySimple`. */
    method SimpleEntries(h: Heap, target: Id, keys: seq<string>, prefix: string, stack: Stack)
      returns (res: string)
      requires target in h && target !in stack.items && !h[target].Arr?
      modifies stack
      ensures stack.items == old(stack.items)
      ensures res == Body(prefix, "", Entries(StableMode(NoReplacer, ""), h, old(stack.items), "", target, Names(keys), |keys|), ",")
      decreases Unvisited(h, stack.items), 0
    {
      ghost var m := StableMode(NoReplacer, "");
      ghost var s0 := stack.items;
      ghost var names := Names(keys);
      assert "" + m.spacer == "";
      UnvisitedShrinks(h, s0, target);
      stack.Push(target);
      res := prefix;
      var separator := "";
      var i := 0;
      while i < |keys|
        invariant 0 <= i <= |keys|
        invariant stack.items == s0 + [target]
        invariant res == Body(prefix, "", Entries(m, h, s0, "", target, names, i), ",")
        invariant separator == LastSeparator("", Entries(m, h, s0, "", target, names, i), ",")
      {
        assert names[i] == Name(keys[i]);
        ghost var res0, separator0 := res, separator;
        res, separator := SimpleKey(h, target, keys[i], res, separator, stack);
        EntryWritten(m, h, s0, "", target, names, i, prefix, "", ",", res0, separator0, res, separator);
        assert res == Body(prefix, "", Entries(m, h, s0, "", target, names, i + 1), ",");
        assert separator == LastSeparator("", Entries(m, h, s0, "", target, names, i + 1), ",");
        i := i + 1;
      }
      stack.Pop();
    }

    /** One pass of the key loop of `stringifySimple`: `"key":value` after the separator,
        unless the value serializes to `undefined`. */
    method SimpleKey(h: Heap, target: Id, key: string, res: string, separator: string, stack: Stack)
      returns (res': string, separator': string)
      requires target in h
      modifies stack
      ensures stack.items == old(stack.items)
      ensures var t := Child(StableMode(NoReplacer, ""), h, old(stack.items), "", Holder(target), Name(key));
        if t.Some? then res' == res + (separator + EntryText(Name(key), t.value, "")) && separator' == ","
        else res' == res && separator' == separator
      decreases Unvisited(h, stack.items), 4
    {
      PropertyWithoutFunction(StableMode(NoReplacer, ""), h, stack.items, "", target, key);
      var tmp := Simple(h, Name(key), Get(h[target], key), stack);
      FlatEntry(Name(key), if tmp.Some? then tmp.value else "");
      res', separator' := res, separator;
      if tmp.Some? {
        var name := StrEscape(key);
        res' := res + (separator + ("\"" + name + "\":" + tmp.value));
        separator' := ",";
      }
    }

    // ---------------------------------------------------------------------------
    // stringifyReplacerFn

    /** `stringifyReplacerFn(key, parent, stack, replacer)`: `parent[key]` after `toJSON` and the
        replacer function. */
    method ReplacerFn(h: Heap, key: Key, parent: Parent, stack: Stack, replacer: (Parent, Key, Value) -> Value) returns (r: Option<string>)
      modifies stack
      ensures stack.items == old(stack.items)
      ensures r == Child(StableMode(FnReplacer(replacer), ""), h, old(stack.items), "", parent, key)
      decreases Unvisited(h, stack.items), 2
    {
      var value := Lookup(h, parent, key);
      if HasToJson(h, value) {
        value := h[value.id].toJSON.value(key);
      }
      value := replacer(parent, key, value);
      if !value.Ref? {
        r := StringifyPrimitive(StableMode(FnReplacer(replacer), ""), h, stack.items, "", value);
        return;
      }
      var target := value.id;
      if target !in h {
        return None;
      }
      var index := stack.IndexOf(target);
      if index != -1 {
        return Some(CircularMarker);
      }
      var text;
      if h[target].Arr? {
        text := ReplacerFnArray(h, target, stack, replacer);
      } else {
        text := ReplacerFnObject(h, target, stack, replacer);
      }
      return Some(text);
    }

    /** The array branch of `stringifyReplacerFn`. */
    method ReplacerFnArray(h: Heap, target: Id, stack: Stack, replacer: (Parent, Key, Value) -> Value) returns (text: string)
      requires target in h && target !in stack.items && h[target].Arr?
      modifies stack
      ensures stack.items == old(stack.items)
      ensures text == ContainerText(StableMode(FnReplacer(replacer), ""), h, old(stack.items), "", target)
      decreases Unvisited(h, stack.items), 1
    {
      ghost var s0 := stack.items;
      ArrayCase(StableMode(FnReplacer(replacer), ""), h, s0, "", target);
      BracketFirstAssembly(Pieces(StableMode(FnReplacer(replacer), ""), h, s0, "", target, |h[target].elems|), "", "");
      if |h[target].elems| == 0 {
        return "[]";
      }
      var res := "[";
      res := ReplacerFnElements(h, target, res, stack, replacer);
      res := res + "]";
      return res;
    }

    /** The loop over the elements of `stringifyReplacerFn`: `res` starts as `lead` and ends with
        the elements joined. */
    method ReplacerFnElements(h: Heap, target: Id, lead: string, stack: Stack, replacer: (Parent, Key, Value) -> Value)
      returns (res: string)
      requires target in h && target !in stack.items && h[target].Arr? && |h[target].elems| > 0
      modifies stack
      ensures stack.items == old(stack.items)
      ensures res == lead + Join(Pieces(StableMode(FnReplacer(replacer), ""), h, old(stack.items), "", target, |h[target].elems|), ",")
      decreases Unvisited(h, stack.items), 0
    {
      ghost var s0 := stack.items;
      var n := |h[target].elems|;
      UnvisitedShrinks(h, s0, target);
      stack.Push(target);
      res := lead;
      var i := 0;
      while i < n - 1
        invariant 0 <= i <= n - 1
        invariant stack.items == s0 + [target]
        invariant res == Written(StableMode(FnReplacer(replacer), ""), h, s0, "", target, i, lead, ",")
      {
        var piece := ReplacerFnElement(h, target, i, stack, replacer);
        PieceAdded(StableMode(FnReplacer(replacer), ""), h, s0, "", target, i, lead, ",", res, piece);
        res := res + piece;
        res := res + ",";
        i := i + 1;
      }
      var piece := ReplacerFnElement(h, target, i, stack, replacer);
      PieceAdded(StableMode(FnReplacer(replacer), ""), h, s0, "", target, i, lead, ",", res, piece);
      res := res + piece;
      stack.Pop();
    }

    /** Element `i` as the array loop of `stringifyReplacerFn` writes it: `undefined` becomes `null`. */
    method ReplacerFnElement(h: Heap, target: Id, i: nat, stack: Stack, replacer: (Parent, Key, Value) -> Value) returns (piece: string)
      requires target in h && h[target].Arr? && i < |h[target].elems|
      modifies stack
      ensures stack.items == old(stack.items)
      ensures piece == Child(StableMode(FnReplacer(replacer), ""), h, old(stack.items), "" + StableMode(FnReplacer(replacer), "").spacer, Holder(target), Index(i)).GetOr("null")
      decreases Unvisited(h, stack.items), 4
    {
      assert "" + StableMode(FnReplacer(replacer), "").spacer == "";
      var tmp := ReplacerFn(h, Index(i), Holder(target), stack, replacer);
      piece := if tmp.Some? then tmp.value else "null";
    }

    /** The object branch of `stringifyReplacerFn`: its own keys, sorted. */
    method ReplacerFnObject(h: Heap, target: Id, stack: Stack, replacer: (Parent, Key, Value) -> Value) returns (text: string)
      requires target in h && target !in stack.items && !h[target].Arr?
      modifies stack
      ensures stack.items == old(stack.items)
      ensures text == ContainerText(StableMode(FnReplacer(replacer), ""), h, old(stack.items), "", target)
      decreases Unvisited(h, stack.items), 1
    {
      ghost var s0 := stack.items;
      PlainObjectCase(StableMode(FnReplacer(replacer), ""), h, s0, "", target);
      var keys := SortedKeys(ObjectKeys(h[target]));
      assert keys == Ordered(StableMode(FnReplacer(replacer), ""), ObjectKeys(h[target]));
      BraceFirstAssembly(Entries(StableMode(FnReplacer(replacer), ""), h, s0, "", target, Names(keys), |keys|), "", "");
      if |keys| == 0 {
        return "{}";
      }
      var res := "{";
      res := ReplacerFnEntries(h, target, keys, res, stack, replacer);
      res := res + "}";
      return res;
    }

    /** The loop over the sorted keys of `stringifyReplacerFn`. */
    method ReplacerFnEntries(h: Heap, target: Id, keys: seq<string>, prefix: string, stack: Stack, replacer: (Parent, Key, Value) -> Value)
      returns (res: string)
      requires target in h && target !in stack.items && !h[target].Arr?
      modifies stack
      ensures stack.items == old(stack.items)
      ensures res == Body(prefix, "", Entries(StableMode(FnReplacer(replacer), ""), h, old(stack.items), "", target, Names(keys), |keys|), ",")
      decreases Unvisited(h, stack.items), 0
    {
      ghost var m := StableMode(FnReplacer(replacer), "");
      ghost var s0 := stack.items;
      ghost var names := Names(keys);
      assert "" + m.spacer == "";
      UnvisitedShrinks(h, s0, target);
      stack.Push(target);
      res := prefix;
      var separator := "";
      var i := 0;
      while i < |keys|
        invariant 0 <= i <= |keys|
        invariant stack.items == s0 + [target]
        invariant res == Body(prefix, "", Entries(m, h, s0, "", target, names, i), ",")
        invariant separator == LastSeparator("", Entries(m, h, s0, "", target, names, i), ",")
      {
        assert names[i] == Name(keys[i]);
        ghost var res0, separator0 := res, separator;
        res, separator := ReplacerFnKey(h, target, keys[i], res, separator, stack, replacer);
        EntryWritten(m, h, s0, "", target, names, i, prefix, "", ",", res0, separator0, res, separator);
        assert res == Body(prefix, "", Entries(m, h, s0, "", target, names, i + 1), ",");
        assert separator == LastSeparator("", Entries(m, h, s0, "", target, names, i + 1), ",");
        i := i + 1;
      }
      stack.Pop();
    }

    /** One pass of the key loop of `stringifyReplacerFn`: `"key":value` after the separator,
        unless the value serializes to `undefined`. */
    method ReplacerFnKey(h: Heap, target: Id, key: string, res: string, separator: string, stack: Stack, replacer: (Parent, Key, Value) -> Value)
      returns (res': string, separator': string)
      modifies stack
      ensures stack.items == old(stack.items)
      ensures var t := Child(StableMode(FnReplacer(replacer), ""), h, old(stack.items), "", Holder(target), Name(key));
        if t.Some? then res' == res + (separator + EntryText(Name(key), t.value, "")) && separator' == ","
        else res' == res && separator' == separator
      decreases Unvisited(h, stack.items), 4
    {
      var tmp := ReplacerFn(h, Name(key), Holder(target), stack, replacer);
      FlatEntry(Name(key), if tmp.Some? then tmp.value else "");
      res', separator' := res, separator;
      if tmp.Some? {
        var name := StrEscape(key);
        res' := res + (separator + ("\"" + name + "\":" + tmp.value));
        separator' := ",";
      }
    }

    // ---------------------------------------------------------------------------
    // stringifyReplacerArr

    /** `stringifyReplacerArr(key, value, stack, replacer)`: objects keep only the keys listed
        by the replacer array. */
    method ReplacerArr(h: Heap, key: Key, value: Value, stack: Stack, replacer: seq<Value>) returns (r: Option<string>)
      modifies stack
      ensures stack.items == old(stack.items)
      ensures r == Emit(StableMode(ListReplacer(replacer), ""), h, old(stack.items), "", ToJson(h, key, value))
      decreases Unvisited(h, stack.items), 2
    {
      var v := value;
      if HasToJson(h, v) {
        v := h[v.id].toJSON.value(key);
      }
      if !v.Ref? {
        r := StringifyPrimitive(StableMode(ListReplacer(replacer), ""), h, stack.items, "", v);
        return;
      }
      var target := v.id;
      if target !in h {
        return None;
      }
      var index := stack.IndexOf(target);
      if index != -1 {
        return Some(CircularMarker);
      }
      var text;
      if h[target].Arr? {
        text := ReplacerArrArray(h, target, stack, replacer);
      } else {
        text := ReplacerArrObject(h, target, stack, replacer);
      }
      return Some(text);
    }

    /** The array branch of `stringifyReplacerArr`. */
    method ReplacerArrArray(h: Heap, target: Id, stack: Stack, replacer: seq<Value>) returns (text: string)
      requires target in h && target !in stack.items && h[target].Arr?
      modifies stack
      ensures stack.items == old(stack.items)
      ensures text == ContainerText(StableMode(ListReplacer(replacer), ""), h, old(stack.items), "", target)
      decreases Unvisited(h, stack.items), 1
    {
      ghost var s0 := stack.items;
      ArrayCase(StableMode(ListReplacer(replacer), ""), h, s0, "", target);
      BracketFirstAssembly(Pieces(StableMode(ListReplacer(replacer), ""), h, s0, "", target, |h[target].elems|), "", "");
      if |h[target].elems| == 0 {
        return "[]";
      }
      var res := "[";
      res := ReplacerArrElements(h, target, res, stack, replacer);
      res := res + "]";
      return res;
    }

    /** The loop over the elements of `stringifyReplacerArr`: `res` starts as `lead` and ends with
        the elements joined. */
    method ReplacerArrElements(h: Heap, target: Id, lead: string, stack: Stack, replacer: seq<Value>)
      returns (res: string)
      requires target in h && target !in stack.items && h[target].Arr? && |h[target].elems| > 0
      modifies stack
      ensures stack.items == old(stack.items)
      ensures res == lead + Join(Pieces(StableMode(ListReplacer(replacer), ""), h, old(stack.items), "", target, |h[target].elems|), ",")
      decreases Unvisited(h, stack.items), 0
    {
      ghost var s0 := stack.items;
      var n := |h[target].elems|;
      UnvisitedShrinks(h, s0, target);
      stack.Push(target);
      res := lead;
      var i := 0;
      while i < n - 1
        invariant 0 <= i <= n - 1
        invariant stack.items == s0 + [target]
        invariant res == Written(StableMode(ListReplacer(replacer), ""), h, s0, "", target, i, lead, ",")
      {
        var piece := ReplacerArrElement(h, target, i, stack, replacer);
        PieceAdded(StableMode(ListReplacer(replacer), ""), h, s0, "", target, i, lead, ",", res, piece);
        res := res + piece;
        res := res + ",";
        i := i + 1;
      }
      var piece := ReplacerArrElement(h, target, i, stack, replacer);
      PieceAdded(StableMode(ListReplacer(replacer), ""), h, s0, "", target, i, lead, ",", res, piece);
      res := res + piece;
      stack.Pop();
    }

    /** Element `i` as the array loop of `stringifyReplacerArr` writes it: `undefined` becomes `null`. */
    method ReplacerArrElement(h: Heap, target: Id, i: nat, stack: Stack, replacer: seq<Value>) returns (piece: string)
      requires target in h && h[target].Arr? && i < |h[target].elems|
      modifies stack
      ensures stack.items == old(stack.items)
      ensures piece == Child(StableMode(ListReplacer(replacer), ""), h, old(stack.items), "" + StableMode(ListReplacer(replacer), "").spacer, Holder(target), Index(i)).GetOr("null")
      decreases Unvisited(h, stack.items), 4
    {
      assert "" + StableMode(ListReplacer(replacer), "").spacer == "";
      ElementWithoutFunction(StableMode(ListReplacer(replacer), ""), h, stack.items, "", target, i);
      var tmp := ReplacerArr(h, Index(i), h[target].elems[i], stack, replacer);
      piece := if tmp.Some? then tmp.value else "null";
    }

    /** The object branch of `stringifyReplacerArr`: the listed keys, in the replacer's order. */
    method ReplacerArrObject(h: Heap, target: Id, stack: Stack, replacer: seq<Value>) returns (text: string)
      requires target in h && target !in stack.items && !h[target].Arr?
      modifies stack
      ensures stack.items == old(stack.items)
      ensures text == ContainerText(StableMode(ListReplacer(replacer), ""), h, old(stack.items), "", target)
      decreases Unvisited(h, stack.items), 1
    {
      ghost var s0 := stack.items;
      ListCase(StableMode(ListReplacer(replacer), ""), h, s0, "", target);
      ghost var keys := ListKeys(replacer);
      BraceFirstAssembly(Entries(StableMode(ListReplacer(replacer), ""), h, s0, "", target, keys, |keys|), "", "");
      if |replacer| == 0 {
        return "{}";
      }
      var res := "{";
      res := ReplacerArrEntries(h, target, res, stack, replacer);
      res := res + "}";
      return res;
    }

    /** The loop over the replacer array of `stringifyReplacerArr`: entries that are neither
        strings nor numbers are skipped. */
    method ReplacerArrEntries(h: Heap, target: Id, prefix: string, stack: Stack, replacer: seq<Value>)
      returns (res: string)
      requires target in h && target !in stack.items && !h[target].Arr?
      modifies stack
      ensures stack.items == old(stack.items)
      ensures res == Body(prefix, "", Entries(StableMode(ListReplacer(replacer), ""), h, old(stack.items), "", target, ListKeys(replacer), |ListKeys(replacer)|), ",")
      decreases Unvisited(h, stack.items), 0
    {
      ghost var m := StableMode(ListReplacer(replacer), "");
      ghost var s0 := stack.items;
      ghost var names := ListKeys(replacer);
      assert "" + m.spacer == "";
      UnvisitedShrinks(h, s0, target);
      stack.Push(target);
      res := prefix;
      var separator := "";
      var j := 0;
      while j < |replacer|
        invariant 0 <= j <= |replacer|
        invariant stack.items == s0 + [target]
        invariant |ListKeys(replacer[..j])| <= |names|
        invariant res == Body(prefix, "", Entries(m, h, s0, "", target, names, |ListKeys(replacer[..j])|), ",")
        invariant separator == LastSeparator("", Entries(m, h, s0, "", target, names, |ListKeys(replacer[..j])|), ",")
      {
        ListKeyAt(replacer, j);
        if replacer[j].Str? || replacer[j].Num? {
          var key := if replacer[j].Str? then Name(replacer[j].s) else NumberKey(replacer[j].n);
          res, separator := ReplacerArrEntry(h, target, key, |ListKeys(replacer[..j])|, prefix, res, separator, stack, replacer, s0);
        }
        j := j + 1;
      }
      assert replacer[..j] == replacer;
      stack.Pop();
    }

    /** The listed key `key`, number `k` of `ListKeys(replacer)`, in the loop of
        `stringifyReplacerArr`: afterwards `res` and `separator` describe the first `k + 1` keys. */
    method ReplacerArrEntry(h: Heap, target: Id, key: Key, ghost k: nat, prefix: string,
                            res: string, separator: string, stack: Stack, replacer: seq<Value>, ghost s0: seq<Id>)
      returns (res': string, separator': string)
      requires target in h && target !in s0
      requires k < |ListKeys(replacer)| && ListKeys(replacer)[k] == key && !key.Index?
      requires stack.items == s0 + [target]
      requires var entries := Entries(StableMode(ListReplacer(replacer), ""), h, s0, "", target, ListKeys(replacer), k);
        res == Body(prefix, "", entries, ",") && separator == LastSeparator("", entries, ",")
      modifies stack
      ensures stack.items == old(stack.items)
      ensures var entries := Entries(StableMode(ListReplacer(replacer), ""), h, s0, "", target, ListKeys(replacer), k + 1);
        res' == Body(prefix, "", entries, ",") && separator' == LastSeparator("", entries, ",")
      decreases Unvisited(h, stack.items), 5
    {
      assert "" + StableMode(ListReplacer(replacer), "").spacer == "";
      res', separator' := ReplacerArrKey(h, target, key, res, separator, stack, replacer);
      EntryWritten(StableMode(ListReplacer(replacer), ""), h, s0, "", target, ListKeys(replacer), k, prefix, "", ",", res, separator, res', separator');
    }

    /** One pass of the key loop of `stringifyReplacerArr`: `"key":value` after the separator,
        unless the value serializes to `undefined`. */
    method ReplacerArrKey(h: Heap, target: Id, key: Key, res: string, separator: string, stack: Stack, replacer: seq<Value>)
      returns (res': string, separator': string)
      requires !key.Index?
      modifies stack
      ensures stack.items == old(stack.items)
      ensures var t := Child(StableMode(ListReplacer(replacer), ""), h, old(stack.items), "", Holder(target), key);
        if t.Some? then res' == res + (separator + EntryText(key, t.value, "")) && separator' == ","
        else res' == res && separator' == separator
      decreases Unvisited(h, stack.items), 4
    {
      ChildWithoutFunction(StableMode(ListReplacer(replacer), ""), h, stack.items, "", target, key);
      var tmp := ReplacerArr(h, key, Lookup(h, Holder(target), key), stack, replacer);
      FlatEntry(key, if tmp.Some? then tmp.value else "");
      res', separator' := res, separator;
      if tmp.Some? {
        var name;
        if key.NumberKey? {
          name := key.n.text;
        } else {
          name := StrEscape(key.s);
        }
        res' := res + (separator + ("\"" + name + "\":" + tmp.value));
        separator' := ",";
      }
    }

    // ---------------------------------------------------------------------------
    // stringifyIndent

    /** `stringifyIndent(key, value, stack, indent)`: no replacer. */
    method Indent(h: Heap, key: Key, value: Value, stack: Stack, indent: string) returns (r: Option<string>)
      requires indent != ""
      modifies this, stack
      ensures indentation == old(indentation) && stack.items == old(stack.items)
      ensures r == Emit(StableMode(NoReplacer, indent), h, old(stack.items), old(indentation), ToJson(h, key, value))
      decreases Unvisited(h, stack.items), if HasToJson(h, value) then 3 else 2
    {
      if !value.Ref? {
        r := StringifyPrimitive(StableMode(NoReplacer, indent), h, stack.items, indentation, value);
        return;
      }
      var target := value.id;
      if target !in h {
        return None;
      }
      if h[target].toJSON.Some? {
        var converted := h[target].toJSON.value(key);
        if !converted.Ref? && !converted.Null? {
          // `toJSON` is not called on its result.
          r := Indent(h, key, converted, stack, indent);
          return;
        }
        if converted.Null? {
          return Some("null");
        }
        target := converted.id;
        if target !in h {
          return None;
        }
      }
      var index := stack.IndexOf(target);
      if index != -1 {
        return Some(CircularMarker);
      }
      var text;
      if h[target].Arr? {
        text := IndentArray(h, target, stack, indent);
      } else {
        text := IndentObject(h, target, stack, indent);
      }
      return Some(text);
    }

    /** The array branch of `stringifyIndent`: one element per line. */
    method IndentArray(h: Heap, target: Id, stack: Stack, indent: string) returns (text: string)
      requires indent != "" && target in h && target !in stack.items && h[target].Arr?
      modifies this, stack
      ensures indentation == old(indentation) && stack.items == old(stack.items)
      ensures text == ContainerText(StableMode(NoReplacer, indent), h, old(stack.items), old(indentation), target)
      decreases Unvisited(h, stack.items), 1
    {
      ghost var s0 := stack.items;
      var originalIndentation := indentation;
      ArrayCase(StableMode(NoReplacer, indent), h, s0, originalIndentation, target);
      BracketFirstAssembly(Pieces(StableMode(NoReplacer, indent), h, s0, originalIndentation, target, |h[target].elems|), indent, originalIndentation);
      if |h[target].elems| == 0 {
        return "[]";
      }
      var res := "[";
      indentation := indentation + indent;
      res := res + ("\n" + indentation);
      var join := ",\n" + indentation;
      res := IndentElements(h, target, join, res, stack, indent, originalIndentation);
      if indentation != "" {
        res := res + ("\n" + originalIndentation);
      }
      res := res + "]";
      indentation := originalIndentation;
      return res;
    }

    /** The loop over the elements of `stringifyIndent`: `res` starts as `lead` and ends with
        the elements joined. */
    method IndentElements(h: Heap, target: Id, join: string, lead: string, stack: Stack, indent: string, ghost ind: string)
      returns (res: string)
      requires indent != "" && target in h && target !in stack.items && h[target].Arr? && |h[target].elems| > 0
      requires indentation == ind + indent
      modifies this, stack
      ensures indentation == old(indentation) && stack.items == old(stack.items)
      ensures res == lead + Join(Pieces(StableMode(NoReplacer, indent), h, old(stack.items), ind, target, |h[target].elems|), join)
      decreases Unvisited(h, stack.items), 0
    {
      ghost var s0 := stack.items;
      var n := |h[target].elems|;
      UnvisitedShrinks(h, s0, target);
      stack.Push(target);
      res := lead;
      var i := 0;
      while i < n - 1
        invariant 0 <= i <= n - 1
        invariant stack.items == s0 + [target]
        invariant indentation == ind + indent
        invariant res == Written(StableMode(NoReplacer, indent), h, s0, ind, target, i, lead, join)
      {
        var piece := IndentElement(h, target, i, stack, indent);
        PieceAdded(StableMode(NoReplacer, indent), h, s0, ind, target, i, lead, join, res, piece);
        res := res + piece;
        res := res + join;
        i := i + 1;
      }
      var piece := IndentElement(h, target, i, stack, indent);
      PieceAdded(StableMode(NoReplacer, indent), h, s0, ind, target, i, lead, join, res, piece);
      res := res + piece;
      stack.Pop();
    }

    /** Element `i` as the array loop of `stringifyIndent` writes it: `undefined` becomes `null`. */
    method IndentElement(h: Heap, target: Id, i: nat, stack: Stack, indent: string) returns (piece: string)
      requires indent != "" && target in h && h[target].Arr? && i < |h[target].elems|
      modifies this, stack
      ensures indentation == old(indentation) && stack.items == old(stack.items)
      ensures piece == Child(StableMode(NoReplacer, indent), h, old(stack.items), old(indentation), Holder(target), Index(i)).GetOr("null")
      decreases Unvisited(h, stack.items), 4
    {
      ElementWithoutFunction(StableMode(NoReplacer, indent), h, stack.items, indentation, target, i);
      var tmp := Indent(h, Index(i), h[target].elems[i], stack, indent);
      piece := if tmp.Some? then tmp.value else "null";
    }

    /** The object branch of `stringifyIndent`: its own keys, sorted. */
    method IndentObject(h: Heap, target: Id, stack: Stack, indent: string) returns (text: string)
      requires indent != "" && target in h && target !in stack.items && !h[target].Arr?
      modifies this, stack
      ensures indentation == old(indentation) && stack.items == old(stack.items)
      ensures text == ContainerText(StableMode(NoReplacer, indent), h, old(stack.items), old(indentation), target)
      decreases Unvisited(h, stack.items), 1
    {
      ghost var s0 := stack.items;
      var originalIndentation := indentation;
      PlainObjectCase(StableMode(NoReplacer, indent), h, s0, originalIndentation, target);
      var keys := SortedKeys(ObjectKeys(h[target]));
      assert keys == Ordered(StableMode(NoReplacer, indent), ObjectKeys(h[target]));
      BraceFirstAssembly(Entries(StableMode(NoReplacer, indent), h, s0, originalIndentation, target, Names(keys), |keys|), indent, originalIndentation);
      if |keys| == 0 {
        return "{}";
      }
      var res := "{";
      indentation := indentation + indent;
      res := res + ("\n" + indentation);
      var join := ",\n" + indentation;
      var separator;
      res, separator := IndentEntries(h, target, keys, join, res, stack, indent, originalIndentation);
      if separator != "" {
        res := res + ("\n" + originalIndentation);
      } else {
        res := "{";
      }
      res := res + "}";
      indentation := originalIndentation;
      return res;
    }

    /** The loop over the sorted keys of `stringifyIndent`. */
    method IndentEntries(h: Heap, target: Id, keys: seq<string>, join: string, prefix: string, stack: Stack, indent: string, ghost ind: string)
      returns (res: string, separator: string)
      requires indent != "" && target in h && target !in stack.items && !h[target].Arr?
      requires indentation == ind + indent && join == Separator(indent, ind)
      modifies this, stack
      ensures indentation == old(indentation) && stack.items == old(stack.items)
      ensures var entries := Entries(StableMode(NoReplacer, indent), h, old(stack.items), ind, target, Names(keys), |keys|);
        res == Body(prefix, "", entries, join) && separator == LastSeparator("", entries, join)
      decreases Unvisited(h, stack.items), 0
    {
      ghost var m := StableMode(NoReplacer, indent);
      ghost var s0 := stack.items;
      ghost var names := Names(keys);
      UnvisitedShrinks(h, s0, target);
      stack.Push(target);
      res, separator := prefix, "";
      var i := 0;
      while i < |keys|
        invariant 0 <= i <= |keys|
        invariant stack.items == s0 + [target]
        invariant indentation == ind + indent
        invariant res == Body(prefix, "", Entries(m, h, s0, ind, target, names, i), join)
        invariant separator == LastSeparator("", Entries(m, h, s0, ind, target, names, i), join)
      {
        res, separator := IndentEntry(h, target, keys, i, join, prefix, res, separator, stack, indent, ind, s0);
        i := i + 1;
      }
      stack.Pop();
    }

    /** Key `i` of the loop of `stringifyIndent`: afterwards `res` and `separator`
        describe the first `i + 1` keys. */
    method IndentEntry(h: Heap, target: Id, keys: seq<string>, i: nat, join: string, prefix: string,
                       res: string, separator: string, stack: Stack, indent: string, ghost ind: string, ghost s0: seq<Id>)
      returns (res': string, separator': string)
      requires indent != "" && target in h && target !in s0 && i < |keys|
      requires stack.items == s0 + [target] && indentation == ind + indent
      requires var entries := Entries(StableMode(NoReplacer, indent), h, s0, ind, target, Names(keys), i);
        res == Body(prefix, "", entries, join) && separator == LastSeparator("", entries, join)
      modifies this, stack
      ensures indentation == old(indentation) && stack.items == old(stack.items)
      ensures var entries := Entries(StableMode(NoReplacer, indent), h, s0, ind, target, Names(keys), i + 1);
        res' == Body(prefix, "", entries, join) && separator' == LastSeparator("", entries, join)
      decreases Unvisited(h, stack.items), 5
    {
      assert Names(keys)[i] == Name(keys[i]);
      res', separator' := IndentKey(h, target, keys[i], join, res, separator, stack, indent);
      EntryWritten(StableMode(NoReplacer, indent), h, s0, ind, target, Names(keys), i, prefix, "", join, res, separator, res', separator');
    }

    /** One pass of the key loop of `stringifyIndent`: `"key": value` after the separator,
        unless the value serializes to `undefined`. */
    method IndentKey(h: Heap, target: Id, key: string, join: string, res: string, separator: string, stack: Stack, indent: string)
      returns (res': string, separator': string)
      requires indent != "" && target in h
      modifies this, stack
      ensures indentation == old(indentation) && stack.items == old(stack.items)
      ensures var t := Child(StableMode(NoReplacer, indent), h, old(stack.items), old(indentation), Holder(target), Name(key));
        if t.Some? then res' == res + (separator + EntryText(Name(key), t.value, indent)) && separator' == join
        else res' == res && separator' == separator
      decreases Unvisited(h, stack.items), 4
    {
      PropertyWithoutFunction(StableMode(NoReplacer, indent), h, stack.items, indentation, target, key);
      var tmp := Indent(h, Name(key), Get(h[target], key), stack, indent);
      res', separator' := res, separator;
      if tmp.Some? {
        var name := StrEscape(key);
        res' := res + (separator + ("\"" + name + "\":" + " " + tmp.value));
        separator' := join;
      }
    }

    // ---------------------------------------------------------------------------
    // stringifyFullFn

    /** `stringifyFullFn(key, parent, stack, replacer, indent)`: `parent[key]` after `toJSON` and the
        replacer function. */
    method FullFn(h: Heap, key: Key, parent: Parent, stack: Stack, replacer: (Parent, Key, Value) -> Value, indent: string) returns (r: Option<string>)
      requires indent != ""
      modifies this, stack
      ensures indentation == old(indentation) && stack.items == old(stack.items)
      ensures r == Child(StableMode(FnReplacer(replacer), indent), h, old(stack.items), old(indentation), parent, key)
      decreases Unvisited(h, stack.items), 2
    {
      var value := Lookup(h, parent, key);
      if HasToJson(h, value) {
        value := h[value.id].toJSON.value(key);
      }
      value := replacer(parent, key, value);
      if !value.Ref? {
        r := StringifyPrimitive(StableMode(FnReplacer(replacer), indent), h, stack.items, indentation, value);
        return;
      }
      var target := value.id;
      if target !in h {
        return None;
      }
      var index := stack.IndexOf(target);
      if index != -1 {
        return Some(CircularMarker);
      }
      var text;
      if h[target].Arr? {
        text := FullFnArray(h, target, stack, replacer, indent);
      } else {
        text := FullFnObject(h, target, stack, replacer, indent);
      }
      return Some(text);
    }

    /** The array branch of `stringifyFullFn`: one element per line. */
    method FullFnArray(h: Heap, target: Id, stack: Stack, replacer: (Parent, Key, Value) -> Value, indent: string) returns (text: string)
      requires indent != "" && target in h && target !in stack.items && h[target].Arr?
      modifies this, stack
      ensures indentation == old(indentation) && stack.items == old(stack.items)
      ensures text == ContainerText(StableMode(FnReplacer(replacer), indent), h, old(stack.items), old(indentation), target)
      decreases Unvisited(h, stack.items), 1
    {
      ghost var s0 := stack.items;
      var originalIndentation := indentation;
      ArrayCase(StableMode(FnReplacer(replacer), indent), h, s0, originalIndentation, target);
      BracketFirstAssembly(Pieces(StableMode(FnReplacer(replacer), indent), h, s0, originalIndentation, target, |h[target].elems|), indent, originalIndentation);
      if |h[target].elems| == 0 {
        return "[]";
      }
      var res := "[";
      indentation := indentation + indent;
      res := res + ("\n" + indentation);
      var join := ",\n" + indentation;
      res := FullFnElements(h, target, join, res, stack, replacer, indent, originalIndentation);
      if indentation != "" {
        res := res + ("\n" + originalIndentation);
      }
      res := res + "]";
      indentation := originalIndentation;
      return res;
    }

    /** The loop over the elements of `stringifyFullFn`: `res` starts as `lead` and ends with
        the elements joined. */
    method FullFnElements(h: Heap, target: Id, join: string, lead: string, stack: Stack, replacer: (Parent, Key, Value) -> Value, indent: string, ghost ind: string)
      returns (res: string)
      requires indent != "" && target in h && target !in stack.items && h[target].Arr? && |h[target].elems| > 0
      requires indentation == ind + indent
      modifies this, stack
      ensures indentation == old(indentation) && stack.items == old(stack.items)
      ensures res == lead + Join(Pieces(StableMode(FnReplacer(replacer), indent), h, old(stack.items), ind, target, |h[target].elems|), join)
      decreases Unvisited(h, stack.items), 0
    {
      ghost var s0 := stack.items;
      var n := |h[target].elems|;
      UnvisitedShrinks(h, s0, target);
      stack.Push(target);
      res := lead;
      var i := 0;
      while i < n - 1
        invariant 0 <= i <= n - 1
        invariant stack.items == s0 + [target]
        invariant indentation == ind + indent
        invariant res == Written(StableMode(FnReplacer(replacer), indent), h, s0, ind, target, i, lead, join)
      {
        var piece := FullFnElement(h, target, i, stack, replacer, indent);
        PieceAdded(StableMode(FnReplacer(replacer), indent), h, s0, ind, target, i, lead, join, res, piece);
        res := res + piece;
        res := res + join;
        i := i + 1;
      }
      var piece := FullFnElement(h, target, i, stack, replacer, indent);
      PieceAdded(StableMode(FnReplacer(replacer), indent), h, s0, ind, target, i, lead, join, res, piece);
      res := res + piece;
      stack.Pop();
    }

    /** Element `i` as the array loop of `stringifyFullFn` writes it: `undefined` becomes `null`. */
    method FullFnElement(h: Heap, target: Id, i: nat, stack: Stack, replacer: (Parent, Key, Value) -> Value, indent: string) returns (piece: string)
      requires indent != "" && target in h && h[target].Arr? && i < |h[target].elems|
      modifies this, stack
      ensures indentation == old(indentation) && stack.items == old(stack.items)
      ensures piece == Child(StableMode(FnReplacer(replacer), indent), h, old(stack.items), old(indentation), Holder(target), Index(i)).GetOr("null")
      decreases Unvisited(h, stack.items), 4
    {
      var tmp := FullFn(h, Index(i), Holder(target), stack, replacer, indent);
      piece := if tmp.Some? then tmp.value else "null";
    }

    /** The object branch of `stringifyFullFn`: its own keys, sorted. */
    method FullFnObject(h: Heap, target: Id, stack: Stack, replacer: (Parent, Key, Value) -> Value, indent: string) returns (text: string)
      requires indent != "" && target in h && target !in stack.items && !h[target].Arr?
      modifies this, stack
      ensures indentation == old(indentation) && stack.items == old(stack.items)
      ensures text == ContainerText(StableMode(FnReplacer(replacer), indent), h, old(stack.items), old(indentation), target)
      decreases Unvisited(h, stack.items), 1
    {
      ghost var s0 := stack.items;
      var originalIndentation := indentation;
      PlainObjectCase(StableMode(FnReplacer(replacer), indent), h, s0, originalIndentation, target);
      var keys := SortedKeys(ObjectKeys(h[target]));
      assert keys == Ordered(StableMode(FnReplacer(replacer), indent), ObjectKeys(h[target]));
      BraceFirstAssembly(Entries(StableMode(FnReplacer(replacer), indent), h, s0, originalIndentation, target, Names(keys), |keys|), indent, originalIndentation);
      if |keys| == 0 {
        return "{}";
      }
      var res := "{";
      indentation := indentation + indent;
      res := res + ("\n" + indentation);
      var join := ",\n" + indentation;
      var separator;
      res, separator := FullFnEntries(h, target, keys, join, res, stack, replacer, indent, originalIndentation);
      if separator != "" {
        res := res + ("\n" + originalIndentation);
      } else {
        res := "{";
      }
      res := res + "}";
      indentation := originalIndentation;
      return res;
    }

    /** The loop over the sorted keys of `stringifyFullFn`. */
    method FullFnEntries(h: Heap, target: Id, keys: seq<string>, join: string, prefix: string, stack: Stack, replacer: (Parent, Key, Value) -> Value, indent: string, ghost ind: string)
      returns (res: string, separator: string)
      requires indent != "" && target in h && target !in stack.items && !h[target].Arr?
      requires indentation == ind + indent && join == Separator(indent, ind)
      modifies this, stack
      ensures indentation == old(indentation) && stack.items == old(stack.items)
      ensures var entries := Entries(StableMode(FnReplacer(replacer), indent), h, old(stack.items), ind, target, Names(keys), |keys|);
        res == Body(prefix, "", entries, join) && separator == LastSeparator("", entries, join)
      decreases Unvisited(h, stack.items), 0
    {
      ghost var m := StableMode(FnReplacer(replacer), indent);
      ghost var s0 := stack.items;
      ghost var names := Names(keys);
      UnvisitedShrinks(h, s0, target);
      stack.Push(target);
      res, separator := prefix, "";
      var i := 0;
      while i < |keys|
        invariant 0 <= i <= |keys|
        invariant stack.items == s0 + [target]
        invariant indentation == ind + indent
        invariant res == Body(prefix, "", Entries(m, h, s0, ind, target, names, i), join)
        invariant separator == LastSeparator("", Entries(m, h, s0, ind, target, names, i), join)
      {
        res, separator := FullFnEntry(h, target, keys, i, join, prefix, res, separator, stack, replacer, indent, ind, s0);
        i := i + 1;
      }
      stack.Pop();
    }

    /** Key `i` of the loop of `stringifyFullFn`: afterwards `res` and `separator`
        describe the first `i + 1` keys. */
    method FullFnEntry(h: Heap, target: Id, keys: seq<string>, i: nat, join: string, prefix: string,
                       res: string, separator: string, stack: Stack, replacer: (Parent, Key, Value) -> Value,
                       indent: string, ghost ind: string, ghost s0: seq<Id>)
      returns (res': string, separator': string)
      requires indent != "" && target in h && target !in s0 && i < |keys|
      requires stack.items == s0 + [target] && indentation == ind + indent
      requires var entries := Entries(StableMode(FnReplacer(replacer), indent), h, s0, ind, target, Names(keys), i);
        res == Body(prefix, "", entries, join) && separator == LastSeparator("", entries, join)
      modifies this, stack
      ensures indentation == old(indentation) && stack.items == old(stack.items)
      ensures var entries := Entries(StableMode(FnReplacer(replacer), indent), h, s0, ind, target, Names(keys), i + 1);
        res' == Body(prefix, "", entries, join) && separator' == LastSeparator("", entries, join)
      decreases Unvisited(h, stack.items), 5
    {
      assert Names(keys)[i] == Name(keys[i]);
      res', separator' := FullFnKey(h, target, keys[i], join, res, separator, stack, replacer, indent);
      EntryWritten(StableMode(FnReplacer(replacer), indent), h, s0, ind, target, Names(keys), i, prefix, "", join, res, separator, res', separator');
    }

    /** One pass of the key loop of `stringifyFullFn`: `"key": value` after the separator,
        unless the value serializes to `undefined`. */
    method FullFnKey(h: Heap, target: Id, key: string, join: string, res: string, separator: string, stack: Stack, replacer: (Parent, Key, Value) -> Value, indent: string)
      returns (res': string, separator': string)
      requires indent != ""
      modifies this, stack
      ensures indentation == old(indentation) && stack.items == old(stack.items)
      ensures var t := Child(StableMode(FnReplacer(replacer), indent), h, old(stack.items), old(indentation), Holder(target), Name(key));
        if t.Some? then res' == res + (separator + EntryText(Name(key), t.value, indent)) && separator' == join
        else res' == res && separator' == separator
      decreases Unvisited(h, stack.items), 4
    {
      var tmp := FullFn(h, Name(key), Holder(target), stack, replacer, indent);
      res', separator' := res, separator;
      if tmp.Some? {
        var name := StrEscape(key);
        res' := res + (separator + ("\"" + name + "\":" + " " + tmp.value));
        separator' := join;
      }
    }

    // ---------------------------------------------------------------------------
    // stringifyFullArr

    /** `stringifyFullArr(key, value, stack, replacer, indent)`: objects keep only the keys listed
        by the replacer array. */
    method FullArr(h: Heap, key: Key, value: Value, stack: Stack, replacer: seq<Value>, indent: string) returns (r: Option<string>)
      requires indent != ""
      modifies this, stack
      ensures indentation == old(indentation) && stack.items == old(stack.items)
      ensures r == Emit(StableMode(ListReplacer(replacer), indent), h, old(stack.items), old(indentation), ToJson(h, key, value))
      decreases Unvisited(h, stack.items), 2
    {
      var v := value;
      if HasToJson(h, v) {
        v := h[v.id].toJSON.value(key);
      }
      if !v.Ref? {
        r := StringifyPrimitive(StableMode(ListReplacer(replacer), indent), h, stack.items, indentation, v);
        return;
      }
      var target := v.id;
      if target !in h {
        return None;
      }
      var index := stack.IndexOf(target);
      if index != -1 {
        return Some(CircularMarker);
      }
      var text;
      if h[target].Arr? {
        text := FullArrArray(h, target, stack, replacer, indent);
      } else {
        text := FullArrObject(h, target, stack, replacer, indent);
      }
      return Some(text);
    }

    /** The array branch of `stringifyFullArr`: one element per line. */
    method FullArrArray(h: Heap, target: Id, stack: Stack, replacer: seq<Value>, indent: string) returns (text: string)
      requires indent != "" && target in h && target !in stack.items && h[target].Arr?
      modifies this, stack
      ensures indentation == old(indentation) && stack.items == old(stack.items)
      ensures text == ContainerText(StableMode(ListReplacer(replacer), indent), h, old(stack.items), old(indentation), target)
      decreases Unvisited(h, stack.items), 1
    {
      ghost var s0 := stack.items;
      var originalIndentation := indentation;
      ArrayCase(StableMode(ListReplacer(replacer), indent), h, s0, originalIndentation, target);
      BracketFirstAssembly(Pieces(StableMode(ListReplacer(replacer), indent), h, s0, originalIndentation, target, |h[target].elems|), indent, originalIndentation);
      if |h[target].elems| == 0 {
        return "[]";
      }
      var res := "[";
      indentation := indentation + indent;
      res := res + ("\n" + indentation);
      var join := ",\n" + indentation;
      res := FullArrElements(h, target, join, res, stack, replacer, indent, originalIndentation);
      if indentation != "" {
        res := res + ("\n" + originalIndentation);
      }
      res := res + "]";
      indentation := originalIndentation;
      return res;
    }

    /** The loop over the elements of `stringifyFullArr`: `res` starts as `lead` and ends with
        the elements joined. */
    method FullArrElements(h: Heap, target: Id, join: string, lead: string, stack: Stack, replacer: seq<Value>, indent: string, ghost ind: string)
      returns (res: string)
      requires indent != "" && target in h && target !in stack.items && h[target].Arr? && |h[target].elems| > 0
      requires indentation == ind + indent
      modifies this, stack
      ensures indentation == old(indentation) && stack.items == old(stack.items)
      ensures res == lead + Join(Pieces(StableMode(ListReplacer(replacer), indent), h, old(stack.items), ind, target, |h[target].elems|), join)
      decreases Unvisited(h, stack.items), 0
    {
      ghost var s0 := stack.items;
      var n := |h[target].elems|;
      UnvisitedShrinks(h, s0, target);
      stack.Push(target);
      res := lead;
      var i := 0;
      while i < n - 1
        invariant 0 <= i <= n - 1
        invariant stack.items == s0 + [target]
        invariant indentation == ind + indent
        invariant res == Written(StableMode(ListReplacer(replacer), indent), h, s0, ind, target, i, lead, join)
      {
        var piece := FullArrElement(h, target, i, stack, replacer, indent);
        PieceAdded(StableMode(ListReplacer(replacer), indent), h, s0, ind, target, i, lead, join, res, piece);
        res := res + piece;
        res := res + join;
        i := i + 1;
      }
      var piece := FullArrElement(h, target, i, stack, replacer, indent);
      PieceAdded(StableMode(ListReplacer(replacer), indent), h, s0, ind, target, i, lead, join, res, piece);
      res := res + piece;
      stack.Pop();
    }

    /** Element `i` as the array loop of `stringifyFullArr` writes it: `undefined` becomes `null`. */
    method FullArrElement(h: Heap, target: Id, i: nat, stack: Stack, replacer: seq<Value>, indent: string) returns (piece: string)
      requires indent != "" && target in h && h[target].Arr? && i < |h[target].elems|
      modifies this, stack
      ensures indentation == old(indentation) && stack.items == old(stack.items)
      ensures piece == Child(StableMode(ListReplacer(replacer), indent), h, old(stack.items), old(indentation), Holder(target), Index(i)).GetOr("null")
      decreases Unvisited(h, stack.items), 4
    {
      ElementWithoutFunction(StableMode(ListReplacer(replacer), indent), h, stack.items, indentation, target, i);
      var tmp := FullArr(h, Index(i), h[target].elems[i], stack, replacer, indent);
      piece := if tmp.Some? then tmp.value else "null";
    }

    /** The object branch of `stringifyFullArr`: the listed keys, in the replacer's order. */
    method FullArrObject(h: Heap, target: Id, stack: Stack, replacer: seq<Value>, indent: string) returns (text: string)
      requires indent != "" && target in h && target !in stack.items && !h[target].Arr?
      modifies this, stack
      ensures indentation == old(indentation) && stack.items == old(stack.items)
      ensures text == ContainerText(StableMode(ListReplacer(replacer), indent), h, old(stack.items), old(indentation), target)
      decreases Unvisited(h, stack.items), 1
    {
      ghost var s0 := stack.items;
      var originalIndentation := indentation;
      ListCase(StableMode(ListReplacer(replacer), indent), h, s0, originalIndentation, target);
      ghost var keys := ListKeys(replacer);
      BraceFirstAssembly(Entries(StableMode(ListReplacer(replacer), indent), h, s0, originalIndentation, target, keys, |keys|), indent, originalIndentation);
      if |replacer| == 0 {
        return "{}";
      }
      var res := "{";
      indentation := indentation + indent;
      res := res + ("\n" + indentation);
      var join := ",\n" + indentation;
      var separator;
      res, separator := FullArrEntries(h, target, join, res, stack, replacer, indent, originalIndentation);
      if separator != "" {
        res := res + ("\n" + originalIndentation);
      } else {
        res := "{";
      }
      res := res + "}";
      indentation := originalIndentation;
      return res;
    }

    /** The loop over the replacer array of `stringifyFullArr`: entries that are neither
        strings nor numbers are skipped. */
    method FullArrEntries(h: Heap, target: Id, join: string, prefix: string, stack: Stack, replacer: seq<Value>, indent: string, ghost ind: string)
      returns (res: string, separator: string)
      requires indent != "" && target in h && target !in stack.items && !h[target].Arr?
      requires indentation == ind + indent && join == Separator(indent, ind)
      modifies this, stack
      ensures indentation == old(indentation) && stack.items == old(stack.items)
      ensures var entries := Entries(StableMode(ListReplacer(replacer), indent), h, old(stack.items), ind, target, ListKeys(replacer), |ListKeys(replacer)|);
        res == Body(prefix, "", entries, join) && separator == LastSeparator("", entries, join)
      decreases Unvisited(h, stack.items), 0
    {
      ghost var m := StableMode(ListReplacer(replacer), indent);
      ghost var s0 := stack.items;
      ghost var names := ListKeys(replacer);
      UnvisitedShrinks(h, s0, target);
      stack.Push(target);
      res, separator := prefix, "";
      var j := 0;
      while j < |replacer|
        invariant 0 <= j <= |replacer|
        invariant stack.items == s0 + [target]
        invariant indentation == ind + indent
        invariant |ListKeys(replacer[..j])| <= |names|
        invariant res == Body(prefix, "", Entries(m, h, s0, ind, target, names, |ListKeys(replacer[..j])|), join)
        invariant separator == LastSeparator("", Entries(m, h, s0, ind, target, names, |ListKeys(replacer[..j])|), join)
      {
        ListKeyAt(replacer, j);
        if replacer[j].Str? || replacer[j].Num? {
          var key := if replacer[j].Str? then Name(replacer[j].s) else NumberKey(replacer[j].n);
          res, separator := FullArrEntry(h, target, key, |ListKeys(replacer[..j])|, join, prefix, res, separator, stack, replacer, indent, ind, s0);
        }
        j := j + 1;
      }
      assert replacer[..j] == replacer;
      stack.Pop();
    }

    /** The listed key `key`, number `k` of `ListKeys(replacer)`, in the loop of
        `stringifyFullArr`: afterwards `res` and `separator` describe the first `k + 1` keys. */
    method FullArrEntry(h: Heap, target: Id, key: Key, ghost k: nat, join: string, prefix: string,
                        res: string, separator: string, stack: Stack, replacer: seq<Value>,
                        indent: string, ghost ind: string, ghost s0: seq<Id>)
      returns (res': string, separator': string)
      requires indent != "" && target in h && target !in s0
      requires k < |ListKeys(replacer)| && ListKeys(replacer)[k] == key && !key.Index?
      requires stack.items == s0 + [target] && indentation == ind + indent
      requires var entries := Entries(StableMode(ListReplacer(replacer), indent), h, s0, ind, target, ListKeys(replacer), k);
        res == Body(prefix, "", entries, join) && separator == LastSeparator("", entries, join)
      modifies this, stack
      ensures indentation == old(indentation) && stack.items == old(stack.items)
      ensures var entries := Entries(StableMode(ListReplacer(replacer), indent), h, s0, ind, target, ListKeys(replacer), k + 1);
        res' == Body(prefix, "", entries, join) && separator' == LastSeparator("", entries, join)
      decreases Unvisited(h, stack.items), 5
    {
      res', separator' := FullArrKey(h, target, key, join, res, separator, stack, replacer, indent);
      EntryWritten(StableMode(ListReplacer(replacer), indent), h, s0, ind, target, ListKeys(replacer), k, prefix, "", join, res, separator, res', separator');
    }

    /** One pass of the key loop of `stringifyFullArr`: `"key": value` after the separator,
        unless the value serializes to `undefined`. */
    method FullArrKey(h: Heap, target: Id, key: Key, join: string, res: string, separator: string, stack: Stack, replacer: seq<Value>, indent: string)
      returns (res': string, separator': string)
      requires indent != "" && !key.Index?
      modifies this, stack
      ensures indentation == old(indentation) && stack.items == old(stack.items)
      ensures var t := Child(StableMode(ListReplacer(replacer), indent), h, old(stack.items), old(indentation), Holder(target), key);
        if t.Some? then res' == res + (separator + EntryText(key, t.value, indent)) && separator' == join
        else res' == res && separator' == separator
      decreases Unvisited(h, stack.items), 4
    {
      ChildWithoutFunction(StableMode(ListReplacer(replacer), indent), h, stack.items, indentation, target, key);
      var tmp := FullArr(h, key, Lookup(h, Holder(target), key), stack, replacer, indent);
      res', separator' := res, separator;
      if tmp.Some? {
        var name;
        if key.NumberKey? {
          name := key.n.text;
        } else {
          name := StrEscape(key.s);
        }
        res' := res + (separator + ("\"" + name + "\":" + " " + tmp.value));
        separator' := join;
      }
    }

    // -------------------------------------------------------------------------
    // stringify

    /** `stringify(value, replacer, spacer)`: `indentation` is reset, then a non-empty
        indent selects a pretty serializer and an empty one a flat serializer, each by
        the kind of replacer. The result is the top-level value under the key `''`. */
    method Stringify(h: Heap, value: Value, replacer: ReplacerArg, space: SpaceArg) returns (r: Option<string>)
      modifies this
      ensures indentation == ""
      ensures r == Top(StableMode(ReplacerOf(replacer), IndentOf(space)), h, value)
    {
      var indent := "";
      indentation := "";
      match space {
        case SpaceCount(n) =>
          indent := SpaceIndent(n);
        case SpaceText(s) =>
          indent := s;
        case OtherSpace =>
      }
      if indent != "" {
        r := StringifyIndented(h, value, replacer, indent);
      } else {
        r := StringifyCompact(h, value, replacer);
      }
    }

    /** The serializers `stringify` picks when there is an indentation. */
    method StringifyIndented(h: Heap, value: Value, replacer: ReplacerArg, indent: string) returns (r: Option<string>)
      requires indent != "" && indentation == ""
      modifies this
      ensures indentation == ""
      ensures r == Top(StableMode(ReplacerOf(replacer), indent), h, value)
    {
      var stack := new Stack();
      match replacer {
        case FunctionArg(f) =>
          r := FullFn(h, Name(""), Wrapper(value), stack, f, indent);
        case ArrayArg(list) =>
          r := FullArr(h, Name(""), value, stack, list, indent);
        case OtherReplacer =>
          r := Indent(h, Name(""), value, stack, indent);
      }
    }

    /** The serializers `stringify` picks when there is no indentation. */
    method StringifyCompact(h: Heap, value: Value, replacer: ReplacerArg) returns (r: Option<string>)
      requires indentation == ""
      modifies this
      ensures indentation == ""
      ensures r == Top(StableMode(ReplacerOf(replacer), ""), h, value)
    {
      var stack := new Stack();
      match replacer {
        case FunctionArg(f) =>
          r := ReplacerFn(h, Name(""), Wrapper(value), stack, f);
        case ArrayArg(list) =>
          r := ReplacerArr(h, Name(""), value, stack, list);
        case OtherReplacer =>
          r := Simple(h, Name(""), value, stack);
      }
    }
  }
}
