/** What every serializer of both engines writes, as one family of functions over a
    `Mode`: the marker written for a circular reference, whether bigints print, whether
    keys are sorted, how typed arrays are laid out, the replacer and the spacer.

    `Emit` is the `switch (typeof value)` of a serializer once `toJSON` and the replacer
    have been applied; `Child` is the serialization of `parent[key]`. `None` stands for
    the `undefined` a serializer returns. */
module Serialization {
  import opened Values
  import opened JsonString
  import opened KeyOrder

  /** The replacer argument as the serializers use it. */
  datatype Replacer =
    | NoReplacer
      /** `replacer.call(parent, key, value)`. */
    | FnReplacer(f: (Parent, Key, Value) -> Value)
      /** An array of keys; only its string and number entries select properties. */
    | ListReplacer(entries: seq<Value>)

  /** What stands between the index entries of a typed array and its first other entry:
      never a separator, always the join string (even after no index entry at all), or
      the join string exactly when there was an index entry. */
  datatype TypedSep = SepNever | SepAlways | SepIfAny

  /** Typed arrays either go through `Object.keys` like any object, or have their index
      entries written first by `stringifyTypedArray`. */
  datatype TypedPolicy = AsPlainObject | IndexEntriesFirst(sep: TypedSep)

  datatype Mode = Mode(
    circular: string,
    bigint: bool,
    sortKeys: bool,
    typed: TypedPolicy,
    replacer: Replacer,
    spacer: string)

  function Replace(r: Replacer, parent: Parent, key: Key, v: Value): Value {
    if r.FnReplacer? then r.f(parent, key, v) else v
  }

  /** The value a serializer switches on: `toJSON` first, then a function replacer. */
  function Convert(m: Mode, h: Heap, parent: Parent, key: Key, v: Value): Value {
    Replace(m.replacer, parent, key, ToJson(h, key, v))
  }

  /** The `replacer` argument of `stringify`: a function, an array, or anything else
      (ignored). */
  datatype ReplacerArg = FunctionArg(f: (Parent, Key, Value) -> Value) | ArrayArg(list: seq<Value>) | OtherReplacer

  /** The `space` argument of `stringify`: a number (an integer here), a string, or
      anything else. */
  datatype SpaceArg = SpaceCount(n: int) | SpaceText(s: string) | OtherSpace

  /** `parts.join(sep)`, built from the right as the loops build it. */
  function Join(parts: seq<string>, sep: string): string {
    if |parts| == 0 then ""
    else if |parts| == 1 then parts[0]
    else Join(parts[..|parts| - 1], sep) + sep + parts[|parts| - 1]
  }

  /** The `join` string between entries at indentation `ind + spacer`. */
  function Separator(spacer: string, ind: string): string {
    if spacer == "" then "," else ",\n" + (ind + spacer)
  }

  /** An array's text from the texts of its elements. */
  function ArrayText(pieces: seq<string>, spacer: string, ind: string): string {
    if spacer == "" then "[" + Join(pieces, ",") + "]"
    else "[" + ("\n" + (ind + spacer) + Join(pieces, Separator(spacer, ind)) + ("\n" + ind)) + "]"
  }

  /** How a key is written: a string key escaped, a number key of a key list as
      `String(key)`. */
  function KeyText(k: Key): string {
    match k
    case Name(s) => Escape(s)
    case NumberKey(n) => n.text
    case Index(i) => NatText(i)
  }

  /** `"key":value`, with a space after the colon when there is a spacer. */
  function EntryText(k: Key, t: string, spacer: string): string {
    "\"" + KeyText(k) + "\":" + (if spacer == "" then "" else " ") + t
  }

  /** What the loop over the keys leaves in `res`: the prefix, then the entries joined,
      the first one preceded by the initial `separator`. */
  function Body(prefix: string, sep0: string, entries: seq<string>, join: string): string {
    prefix + (if entries == [] then "" else sep0 + Join(entries, join))
  }

  /** The value of `separator` after the loop. */
  function LastSeparator(sep0: string, entries: seq<string>, join: string): string {
    if entries == [] then sep0 else join
  }

  /** An object's text: with a spacer, the body goes on its own indented lines unless the
      loop ended with an empty `separator`. */
  function ObjectText(prefix: string, sep0: string, entries: seq<string>, spacer: string, ind: string): string {
    var join := Separator(spacer, ind);
    var body := Body(prefix, sep0, entries, join);
    if spacer != "" && LastSeparator(sep0, entries, join) != "" then
      "{" + ("\n" + (ind + spacer) + body + ("\n" + ind)) + "}"
    else "{" + body + "}"
  }

  /** The entry `stringifyTypedArray` writes for index `i`: `"i":` and the element's
      `String` form, a space after the colon unless the separator is a bare comma. */
  function TypedEntry(items: seq<Element>, join: string, i: nat): string
    requires i < |items|
  {
    "\"" + NatText(i) + "\":" + (if join == "," then "" else " ") + items[i].Text()
  }

  function TypedEntries(items: seq<Element>, join: string): (r: seq<string>)
    ensures |r| == |items|
    ensures forall i :: 0 <= i < |items| ==> r[i] == TypedEntry(items, join, i)
  {
    seq(|items|, i requires 0 <= i < |items| => TypedEntry(items, join, i))
  }

  function TypedText(items: seq<Element>, join: string): string {
    Join(TypedEntries(items, join), join)
  }

  function LeadSeparator(sep: TypedSep, items: seq<Element>, join: string): string {
    match sep
    case SepNever => ""
    case SepAlways => join
    case SepIfAny => if |items| > 0 then join else ""
  }

  function Names(keys: seq<string>): (r: seq<Key>)
    ensures |r| == |keys|
  {
    seq(|keys|, i requires 0 <= i < |keys| => Name(keys[i]))
  }

  /** The keys a key-list replacer selects: its strings and numbers, in its order. */
  function ListKeys(entries: seq<Value>): seq<Key> {
    if |entries| == 0 then []
    else
      var rest := ListKeys(entries[..|entries| - 1]);
      match entries[|entries| - 1]
      case Str(s) => rest + [Name(s)]
      case Num(n) => rest + [NumberKey(n)]
      case _ => rest
  }

  function Ordered(m: Mode, keys: seq<string>): seq<string> {
    if m.sortKeys then SortSeq(keys) else keys
  }

  /** The serialization of `parent[key]`. */
  function Child(m: Mode, h: Heap, stack: seq<Id>, ind: string, parent: Parent, key: Key): Option<string>
    decreases Unvisited(h, stack), 3
  {
    Emit(m, h, stack, ind, Convert(m, h, parent, key, Lookup(h, parent, key)))
  }

  /** The `switch (typeof value)` on a converted value. */
  function Emit(m: Mode, h: Heap, stack: seq<Id>, ind: string, v: Value): Option<string>
    decreases Unvisited(h, stack), 2
  {
    match v
    case Null => Some("null")
    case Bool(b) => Some(if b then "true" else "false")
    case Num(n) => Some(if n.finite then n.text else "null")
    case BigInt(i) => if m.bigint then Some(IntText(i)) else None
    case Str(s) => Some(Quote(s))
    case Undef => None
    case Ref(id) =>
      if id !in h then None
      else if id in stack then Some(m.circular)
      else Some(ContainerText(m, h, stack, ind, id))
  }

  /** An object that is not an ancestor: its elements or entries are serialized with it
      pushed on the stack and the indentation grown by the spacer. */
  function ContainerText(m: Mode, h: Heap, stack: seq<Id>, ind: string, id: Id): string
    requires id in h && id !in stack
    decreases Unvisited(h, stack), 1
  {
    var c := h[id];
    if c.Arr? then
      if |c.elems| == 0 then "[]"
      else ArrayText(Pieces(m, h, stack, ind, id, |c.elems|), m.spacer, ind)
    else if m.replacer.ListReplacer? then
      if |m.replacer.entries| == 0 then "{}"
      else
        var keys := ListKeys(m.replacer.entries);
        ObjectText("", "", Entries(m, h, stack, ind, id, keys, |keys|), m.spacer, ind)
    else if |ObjectKeys(c)| == 0 then "{}"
    else if c.Typed? && m.typed.IndexEntriesFirst? then
      var join := Separator(m.spacer, ind);
      var keys := Names(Ordered(m, c.extra));
      ObjectText(TypedText(c.items, join), LeadSeparator(m.typed.sep, c.items, join),
                 Entries(m, h, stack, ind, id, keys, |keys|), m.spacer, ind)
    else
      var keys := Names(Ordered(m, ObjectKeys(c)));
      ObjectText("", "", Entries(m, h, stack, ind, id, keys, |keys|), m.spacer, ind)
  }

  /** The texts of the first `k` elements of array `id`, `undefined` written as `null`. */
  function Pieces(m: Mode, h: Heap, stack: seq<Id>, ind: string, id: Id, k: nat): (r: seq<string>)
    requires id in h && id !in stack
    ensures |r| == k
    decreases Unvisited(h, stack), 0, k
  {
    if k == 0 then []
    else
      UnvisitedShrinks(h, stack, id);
      Pieces(m, h, stack, ind, id, k - 1)
        + [Child(m, h, stack + [id], ind + m.spacer, Holder(id), Index(k - 1)).GetOr("null")]
  }

  /** The entries written for the first `k` of `keys`, leaving out every key whose value
      serializes to `undefined`. */
  function Entries(m: Mode, h: Heap, stack: seq<Id>, ind: string, id: Id, keys: seq<Key>, k: nat): (r: seq<string>)
    requires id in h && id !in stack && k <= |keys|
    ensures |r| <= k
    decreases Unvisited(h, stack), 0, k
  {
    if k == 0 then []
    else
      UnvisitedShrinks(h, stack, id);
      var rest := Entries(m, h, stack, ind, id, keys, k - 1);
      match Child(m, h, stack + [id], ind + m.spacer, Holder(id), keys[k - 1])
      case Some(t) => rest + [EntryText(keys[k - 1], t, m.spacer)]
      case None => rest
  }

  /** A top-level call: `value` under key `''` of the wrapper `{'': value}`, with nothing
      on the stack and no indentation. */
  function Top(m: Mode, h: Heap, value: Value): Option<string> {
    Child(m, h, [], "", Wrapper(value), Name(""))
  }

  // ---------------------------------------------------------------------------
  // Facts the serializer loops use.

  /** Without a function replacer the value under `key` is converted by `toJSON` alone. */
  lemma ChildWithoutFunction(m: Mode, h: Heap, stack: seq<Id>, ind: string, id: Id, key: Key)
    requires !m.replacer.FnReplacer?
    ensures Child(m, h, stack, ind, Holder(id), key)
         == Emit(m, h, stack, ind, ToJson(h, key, Lookup(h, Holder(id), key)))
  {
  }

  /** The array loop's step: element `i` is written as its serialization or `null`. */
  lemma PieceStep(m: Mode, h: Heap, stack: seq<Id>, ind: string, id: Id, i: nat)
    requires id in h && id !in stack && h[id].Arr? && i < |h[id].elems|
    ensures Pieces(m, h, stack, ind, id, i + 1) == Pieces(m, h, stack, ind, id, i)
      + [Child(m, h, stack + [id], ind + m.spacer, Holder(id), Index(i)).GetOr("null")]
    ensures Lookup(h, Holder(id), Index(i)) == h[id].elems[i]
  {
  }

  /** The key loop's step: the entry for key `i` is added exactly when its value does
      not serialize to `undefined`. */
  lemma EntryStep(m: Mode, h: Heap, stack: seq<Id>, ind: string, id: Id, keys: seq<Key>, i: nat)
    requires id in h && id !in stack && i < |keys|
    ensures Entries(m, h, stack, ind, id, keys, i + 1) == Entries(m, h, stack, ind, id, keys, i)
      + (match Child(m, h, stack + [id], ind + m.spacer, Holder(id), keys[i])
         case Some(t) => [EntryText(keys[i], t, m.spacer)]
         case None => [])
  {
  }

  /** The key loop writes the entry for key `i` after the current separator. */
  lemma EntryAdded(m: Mode, h: Heap, stack: seq<Id>, ind: string, id: Id, keys: seq<Key>, i: nat,
                   prefix: string, sep0: string, join: string, t: string)
    requires id in h && id !in stack && i < |keys|
    requires Child(m, h, stack + [id], ind + m.spacer, Holder(id), keys[i]) == Some(t)
    ensures Body(prefix, sep0, Entries(m, h, stack, ind, id, keys, i + 1), join)
         == Body(prefix, sep0, Entries(m, h, stack, ind, id, keys, i), join)
            + (LastSeparator(sep0, Entries(m, h, stack, ind, id, keys, i), join) + EntryText(keys[i], t, m.spacer))
    ensures LastSeparator(sep0, Entries(m, h, stack, ind, id, keys, i + 1), join) == join
  {
    EntryStep(m, h, stack, ind, id, keys, i);
    BodySnoc(prefix, sep0, Entries(m, h, stack, ind, id, keys, i), EntryText(keys[i], t, m.spacer), join);
  }

  /** One pass of the key loop: once the step for key `i` has appended its entry after
      the separator, or skipped it, `res` and `separator` describe the first `i + 1` keys. */
  lemma EntryWritten(m: Mode, h: Heap, stack: seq<Id>, ind: string, id: Id, keys: seq<Key>, i: nat,
                     prefix: string, sep0: string, join: string, res: string, separator: string, res': string, separator': string)
    requires id in h && id !in stack && i < |keys|
    requires res == Body(prefix, sep0, Entries(m, h, stack, ind, id, keys, i), join)
    requires separator == LastSeparator(sep0, Entries(m, h, stack, ind, id, keys, i), join)
    requires var t := Child(m, h, stack + [id], ind + m.spacer, Holder(id), keys[i]);
      if t.Some? then res' == res + (separator + EntryText(keys[i], t.value, m.spacer)) && separator' == join
      else res' == res && separator' == separator
    ensures res' == Body(prefix, sep0, Entries(m, h, stack, ind, id, keys, i + 1), join)
    ensures separator' == LastSeparator(sep0, Entries(m, h, stack, ind, id, keys, i + 1), join)
  {
    match Child(m, h, stack + [id], ind + m.spacer, Holder(id), keys[i])
    case Some(t) => EntryAdded(m, h, stack, ind, id, keys, i, prefix, sep0, join, t);
    case None => EntrySkipped(m, h, stack, ind, id, keys, i);
  }

  /** The key loop skips a key whose value serializes to `undefined`. */
  lemma EntrySkipped(m: Mode, h: Heap, stack: seq<Id>, ind: string, id: Id, keys: seq<Key>, i: nat)
    requires id in h && id !in stack && i < |keys|
    requires Child(m, h, stack + [id], ind + m.spacer, Holder(id), keys[i]).None?
    ensures Entries(m, h, stack, ind, id, keys, i + 1) == Entries(m, h, stack, ind, id, keys, i)
  {
    EntryStep(m, h, stack, ind, id, keys, i);
  }

  /** An array that is not an ancestor. */
  lemma ArrayCase(m: Mode, h: Heap, stack: seq<Id>, ind: string, id: Id)
    requires id in h && id !in stack && h[id].Arr?
    ensures ContainerText(m, h, stack, ind, id) ==
      if |h[id].elems| == 0 then "[]"
      else ArrayText(Pieces(m, h, stack, ind, id, |h[id].elems|), m.spacer, ind)
  {
  }

  /** The keys a serializer loops over once a typed array's index entries are written. */
  function ListedKeys(c: Container): seq<string> {
    if c.Typed? then c.extra else ObjectKeys(c)
  }

  /** What `res` holds before the key loop: the index entries of a typed array. */
  function IndexPrefix(c: Container, join: string): string {
    if c.Typed? then TypedText(c.items, join) else ""
  }

  /** What `separator` holds before the key loop. */
  function IndexLead(sep: TypedSep, c: Container, join: string): string {
    if c.Typed? then LeadSeparator(sep, c.items, join) else ""
  }

  /** An object or typed array that is not an ancestor, for a serializer writing the
      index entries of typed arrays first. */
  lemma IndexFirstCase(m: Mode, h: Heap, stack: seq<Id>, ind: string, id: Id)
    requires id in h && id !in stack && !h[id].Arr?
    requires !m.replacer.ListReplacer? && m.typed.IndexEntriesFirst?
    ensures |ObjectKeys(h[id])| == 0 ==> ContainerText(m, h, stack, ind, id) == "{}"
    ensures |ObjectKeys(h[id])| > 0 ==>
      var join := Separator(m.spacer, ind);
      var keys := Names(Ordered(m, ListedKeys(h[id])));
      ContainerText(m, h, stack, ind, id) == ObjectText(IndexPrefix(h[id], join),
        IndexLead(m.typed.sep, h[id], join), Entries(m, h, stack, ind, id, keys, |keys|), m.spacer, ind)
  {
  }

  /** An object or typed array that is not an ancestor, for a serializer treating a typed
      array as an object with index keys. */
  lemma PlainObjectCase(m: Mode, h: Heap, stack: seq<Id>, ind: string, id: Id)
    requires id in h && id !in stack && !h[id].Arr?
    requires !m.replacer.ListReplacer? && m.typed.AsPlainObject?
    ensures |ObjectKeys(h[id])| == 0 ==> ContainerText(m, h, stack, ind, id) == "{}"
    ensures |ObjectKeys(h[id])| > 0 ==>
      var keys := Names(Ordered(m, ObjectKeys(h[id])));
      ContainerText(m, h, stack, ind, id) == ObjectText("", "", Entries(m, h, stack, ind, id, keys, |keys|), m.spacer, ind)
  {
  }

  /** An object or typed array that is not an ancestor, under a key-list replacer. */
  lemma ListCase(m: Mode, h: Heap, stack: seq<Id>, ind: string, id: Id)
    requires id in h && id !in stack && !h[id].Arr? && m.replacer.ListReplacer?
    ensures |m.replacer.entries| == 0 ==> ContainerText(m, h, stack, ind, id) == "{}"
    ensures |m.replacer.entries| > 0 ==>
      var keys := ListKeys(m.replacer.entries);
      ContainerText(m, h, stack, ind, id) == ObjectText("", "", Entries(m, h, stack, ind, id, keys, |keys|), m.spacer, ind)
  {
  }

  /** What the array loop has written before element `i`: the first `i` pieces, each
      followed by `join`. */
  function Written(m: Mode, h: Heap, stack: seq<Id>, ind: string, id: Id, i: nat, lead: string, join: string): string
    requires id in h && id !in stack
  {
    lead + (if i == 0 then "" else Join(Pieces(m, h, stack, ind, id, i), join) + join)
  }

  /** The array loop's step: `res += tmp ?? 'null'` and then `res += join`. */
  lemma PieceAdded(m: Mode, h: Heap, stack: seq<Id>, ind: string, id: Id, i: nat,
                   lead: string, join: string, res: string, piece: string)
    requires id in h && id !in stack && h[id].Arr? && i < |h[id].elems|
    requires piece == Child(m, h, stack + [id], ind + m.spacer, Holder(id), Index(i)).GetOr("null")
    requires res == Written(m, h, stack, ind, id, i, lead, join)
    ensures res + piece == lead + Join(Pieces(m, h, stack, ind, id, i + 1), join)
    ensures res + piece + join == Written(m, h, stack, ind, id, i + 1, lead, join)
  {
    PieceStep(m, h, stack, ind, id, i);
    JoinAppend(Pieces(m, h, stack, ind, id, i), piece, lead, join, res);
  }

  /** Appending a part, then the separator, to the joined parts written so far. */
  lemma JoinAppend(before: seq<string>, piece: string, lead: string, join: string, res: string)
    requires res == lead + (if |before| == 0 then "" else Join(before, join) + join)
    ensures res + piece == lead + Join(before + [piece], join)
    ensures res + piece + join == lead + (Join(before + [piece], join) + join)
  {
    var written := if |before| == 0 then "" else Join(before, join) + join;
    JoinStep(before, piece, join);
    assert res + piece == lead + (written + piece);
    assert res + piece + join == lead + (written + piece) + join;
  }

  /** An array's text as the serializers assemble it: the elements joined after the
      opening line break, and the closing line break when there is a spacer. */
  lemma ArrayAssembly(pieces: seq<string>, spacer: string, ind: string, res: string)
    requires res == (if spacer == "" then "" else "\n" + (ind + spacer)) + Join(pieces, Separator(spacer, ind))
    ensures ArrayText(pieces, spacer, ind) == "[" + (if spacer != "" then res + ("\n" + ind) else res) + "]"
  {
  }

  /** An array's text as a serializer writing `[` first assembles it. */
  lemma BracketFirstAssembly(pieces: seq<string>, spacer: string, ind: string)
    ensures spacer == "" ==> ArrayText(pieces, spacer, ind) == "[" + Join(pieces, ",") + "]"
    ensures spacer != "" ==>
      ArrayText(pieces, spacer, ind) == "[" + ("\n" + (ind + spacer)) + Join(pieces, Separator(spacer, ind)) + ("\n" + ind) + "]"
  {
  }

  /** An object's text as a serializer writing `{` first assembles it: without a spacer
      the entries follow the brace; with one they follow a line break, and the result is
      reset to `{` when no entry was written. */
  lemma BraceFirstAssembly(entries: seq<string>, spacer: string, ind: string)
    ensures spacer == "" ==> ObjectText("", "", entries, spacer, ind) == Body("{", "", entries, ",") + "}"
    ensures spacer != "" ==>
      var join := Separator(spacer, ind);
      var res := Body("{" + ("\n" + (ind + spacer)), "", entries, join);
      (LastSeparator("", entries, join) != "" <==> entries != []) &&
      ObjectText("", "", entries, spacer, ind)
        == if entries != [] then res + ("\n" + ind) + "}" else "{" + "}"
  {
  }

  /** Without a spacer an entry is the quoted key, a colon and the value. */
  lemma FlatEntry(k: Key, t: string)
    ensures EntryText(k, t, "") == "\"" + KeyText(k) + "\":" + t
  {
    assert "\":" + "" == "\":";
  }

  /** Element `i` of an array, for a serializer without a function replacer. */
  lemma ElementWithoutFunction(m: Mode, h: Heap, stack: seq<Id>, ind: string, id: Id, i: nat)
    requires !m.replacer.FnReplacer? && id in h && h[id].Arr? && i < |h[id].elems|
    ensures Child(m, h, stack, ind, Holder(id), Index(i))
         == Emit(m, h, stack, ind, ToJson(h, Index(i), h[id].elems[i]))
  {
  }

  /** Property `k` of an object, for a serializer without a function replacer. */
  lemma PropertyWithoutFunction(m: Mode, h: Heap, stack: seq<Id>, ind: string, id: Id, k: string)
    requires !m.replacer.FnReplacer? && id in h
    ensures Child(m, h, stack, ind, Holder(id), Name(k))
         == Emit(m, h, stack, ind, ToJson(h, Name(k), Get(h[id], k)))
  {
  }

  /** An object's text as the serializers assemble it: without a spacer, or when the key
      loop wrote nothing after an empty separator, the body between braces; otherwise the
      body on its own lines. */
  lemma ObjectAssembly(prefix: string, sep0: string, entries: seq<string>, spacer: string, ind: string)
    requires sep0 == "" || sep0 == Separator(spacer, ind)
    ensures var join := Separator(spacer, ind);
      var body := Body(prefix, sep0, entries, join);
      var separator := LastSeparator(sep0, entries, join);
      (separator == "" || separator == join) &&
      (spacer != "" ==> |join| > 1) &&
      ObjectText(prefix, sep0, entries, spacer, ind)
        == if spacer != "" && |separator| > 1 then "{" + ("\n" + (ind + spacer) + body + ("\n" + ind)) + "}"
           else "{" + body + "}"
  {
  }

  lemma JoinSnoc(parts: seq<string>, x: string, sep: string)
    requires |parts| > 0
    ensures Join(parts + [x], sep) == Join(parts, sep) + sep + x
  {
    assert (parts + [x])[..|parts|] == parts;
  }

  /** The loops' step on a prefix of a fixed list of parts. */
  lemma JoinPrefixStep(parts: seq<string>, i: nat, sep: string)
    requires 0 < i < |parts|
    ensures Join(parts[..i + 1], sep) == Join(parts[..i], sep) + (sep + parts[i])
  {
    assert parts[..i + 1] == parts[..i] + [parts[i]];
    JoinSnoc(parts[..i], parts[i], sep);
  }

  /** One more entry written by the key loop: `res += separator + entry`. */
  lemma BodySnoc(prefix: string, sep0: string, entries: seq<string>, x: string, join: string)
    ensures Body(prefix, sep0, entries + [x], join)
         == Body(prefix, sep0, entries, join) + (LastSeparator(sep0, entries, join) + x)
  {
    if entries == [] {
      assert entries + [x] == [x];
    } else {
      JoinSnoc(entries, x, join);
    }
  }

  /** One more element written by the array loop. */
  lemma JoinStep(parts: seq<string>, x: string, sep: string)
    ensures (if |parts| == 0 then "" else Join(parts, sep) + sep) + x == Join(parts + [x], sep)
  {
    if |parts| == 0 {
      assert parts + [x] == [x];
    } else {
      JoinSnoc(parts, x, sep);
    }
  }

  /** The key-list replacer's keys grow one replacer entry at a time. */
  lemma ListKeysStep(entries: seq<Value>, i: nat)
    requires i < |entries|
    ensures ListKeys(entries[..i + 1]) == ListKeys(entries[..i]) +
      (match entries[i]
       case Str(s) => [Name(s)]
       case Num(n) => [NumberKey(n)]
       case _ => [])
  {
    assert entries[..i + 1][..i] == entries[..i];
  }

  /** Replacer entry `j` selects the next key exactly when it is a string or a number. */
  lemma ListKeyAt(entries: seq<Value>, j: nat)
    requires j < |entries|
    ensures |ListKeys(entries[..j])| <= |ListKeys(entries[..j + 1])| <= |ListKeys(entries)|
    ensures (entries[j].Str? || entries[j].Num?) ==>
      |ListKeys(entries[..j + 1])| == |ListKeys(entries[..j])| + 1 &&
      ListKeys(entries)[|ListKeys(entries[..j])|] == (if entries[j].Str? then Name(entries[j].s) else NumberKey(entries[j].n))
    ensures !(entries[j].Str? || entries[j].Num?) ==> |ListKeys(entries[..j + 1])| == |ListKeys(entries[..j])|
  {
    ListKeysStep(entries, j);
    ListKeysPrefix(entries, j + 1);
    var k := |ListKeys(entries[..j])|;
    if entries[j].Str? || entries[j].Num? {
      assert ListKeys(entries[..j + 1])[k] == ListKeys(entries)[k];
    }
  }

  /** The selected keys of a prefix of the replacer are a prefix of its selected keys. */
  lemma {:induction false} ListKeysPrefix(entries: seq<Value>, i: nat)
    requires i <= |entries|
    ensures |ListKeys(entries[..i])| <= |ListKeys(entries)|
    ensures ListKeys(entries[..i]) == ListKeys(entries)[..|ListKeys(entries[..i])|]
    decreases |entries| - i
  {
    if i < |entries| {
      ListKeysPrefix(entries, i + 1);
      ListKeysStep(entries, i);
    } else {
      assert entries[..i] == entries;
    }
  }
}
