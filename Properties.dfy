/** What the serializers of both engines promise about their output, proved once about
    `Serialization.Emit` and its family, which every serializer method is proved to
    compute: positions kept, undefined entries left out, ancestors marked and nothing
    else, keys in order, an identity replacer changing nothing. */
module Properties {
  import opened Values
  import opened JsonString
  import opened KeyOrder
  import opened Serialization
  import IndexEngine
  import StableEngine

  // ---------------------------------------------------------------------------
  // Arrays keep their positions.

  /** Piece `i` of an array is the serialization of element `i`, or `null` when that
      serializes to `undefined`. */
  lemma {:induction false} PiecesAt(m: Mode, h: Heap, stack: seq<Id>, ind: string, id: Id, k: nat)
    requires id in h && id !in stack
    ensures forall i :: 0 <= i < k ==>
      Pieces(m, h, stack, ind, id, k)[i]
        == Child(m, h, stack + [id], ind + m.spacer, Holder(id), Index(i)).GetOr("null")
    decreases k
  {
    if k > 0 {
      PiecesAt(m, h, stack, ind, id, k - 1);
    }
  }

  /** An array of `n` elements is written as `n` pieces, in order: an element whose
      serialization is `undefined` keeps its place as `null`, every other one is written
      as it serializes. */
  lemma ArrayKeepsPositions(m: Mode, h: Heap, stack: seq<Id>, ind: string, id: Id, i: nat)
    requires id in h && id !in stack && h[id].Arr? && i < |h[id].elems|
    ensures var pieces := Pieces(m, h, stack, ind, id, |h[id].elems|);
      var t := Child(m, h, stack + [id], ind + m.spacer, Holder(id), Index(i));
      |pieces| == |h[id].elems| &&
      (t.None? ==> pieces[i] == "null") &&
      (t.Some? ==> pieces[i] == t.value)
  {
    PiecesAt(m, h, stack, ind, id, |h[id].elems|);
  }

  /** The same object at two positions of an array, neither being an ancestor, is
      written in full at both: repetition is not a cycle. */
  lemma RepeatedReferenceExpanded(m: Mode, h: Heap, stack: seq<Id>, ind: string, id: Id, i: nat, j: nat, x: Id)
    requires id in h && id !in stack && h[id].Arr? && i < |h[id].elems| && j < |h[id].elems|
    requires !m.replacer.FnReplacer?
    requires h[id].elems[i] == Ref(x) && h[id].elems[j] == Ref(x)
    requires x in h && h[x].toJSON.None? && x != id && x !in stack
    ensures var pieces := Pieces(m, h, stack, ind, id, |h[id].elems|);
      pieces[i] == pieces[j] == ContainerText(m, h, stack + [id], ind + m.spacer, x)
  {
    PiecesAt(m, h, stack, ind, id, |h[id].elems|);
    ElementWithoutFunction(m, h, stack + [id], ind + m.spacer, id, i);
    ElementWithoutFunction(m, h, stack + [id], ind + m.spacer, id, j);
  }

  // ---------------------------------------------------------------------------
  // Cycles.

  /** A reference to an ancestor is written as the circular marker and nothing is
      descended into; a reference to any other object is written as that object. */
  lemma CycleMarked(m: Mode, h: Heap, stack: seq<Id>, ind: string, id: Id)
    requires id in h
    ensures id in stack ==> Emit(m, h, stack, ind, Ref(id)) == Some(m.circular)
    ensures id !in stack ==> Emit(m, h, stack, ind, Ref(id)) == Some(ContainerText(m, h, stack, ind, id))
  {
  }

  // ---------------------------------------------------------------------------
  // Object entries.

  /** The serializations of the first `k` keys' values, `None` for `undefined`. */
  function Texts(m: Mode, h: Heap, stack: seq<Id>, ind: string, id: Id, keys: seq<Key>, k: nat): (r: seq<Option<string>>)
    requires k <= |keys|
    ensures |r| == k
  {
    if k == 0 then []
    else Texts(m, h, stack, ind, id, keys, k - 1) + [Child(m, h, stack + [id], ind + m.spacer, Holder(id), keys[k - 1])]
  }

  /** The reference filter: the entry of every key whose text is present, in key order. */
  function Kept(keys: seq<Key>, texts: seq<Option<string>>, spacer: string): seq<string>
    requires |keys| == |texts|
  {
    if |keys| == 0 then []
    else
      Kept(keys[..|keys| - 1], texts[..|texts| - 1], spacer) +
      (match texts[|texts| - 1]
       case Some(t) => [EntryText(keys[|keys| - 1], t, spacer)]
       case None => [])
  }

  /** Text `i` is the serialization of key `i`'s value. */
  lemma {:induction false} TextsAt(m: Mode, h: Heap, stack: seq<Id>, ind: string, id: Id, keys: seq<Key>, k: nat)
    requires k <= |keys|
    ensures forall i :: 0 <= i < k ==>
      Texts(m, h, stack, ind, id, keys, k)[i] == Child(m, h, stack + [id], ind + m.spacer, Holder(id), keys[i])
    decreases k
  {
    if k > 0 {
      TextsAt(m, h, stack, ind, id, keys, k - 1);
    }
  }

  /** The key loop is the reference filter over the keys' serializations. */
  lemma {:induction false} EntriesKept(m: Mode, h: Heap, stack: seq<Id>, ind: string, id: Id, keys: seq<Key>, k: nat)
    requires id in h && id !in stack && k <= |keys|
    ensures Entries(m, h, stack, ind, id, keys, k) == Kept(keys[..k], Texts(m, h, stack, ind, id, keys, k), m.spacer)
    decreases k
  {
    if k > 0 {
      EntriesKept(m, h, stack, ind, id, keys, k - 1);
      EntryStep(m, h, stack, ind, id, keys, k - 1);
      var c := Child(m, h, stack + [id], ind + m.spacer, Holder(id), keys[k - 1]);
      assert keys[..k] == keys[..k - 1] + [keys[k - 1]];
      KeptSnoc(keys[..k - 1], Texts(m, h, stack, ind, id, keys, k - 1), keys[k - 1], c, m.spacer);
    }
  }

  /** The filter over one more key adds that key's entry when its text is present. */
  lemma KeptSnoc(keys: seq<Key>, texts: seq<Option<string>>, key: Key, t: Option<string>, spacer: string)
    requires |keys| == |texts|
    ensures Kept(keys + [key], texts + [t], spacer)
         == Kept(keys, texts, spacer) + (match t case Some(x) => [EntryText(key, x, spacer)] case None => [])
  {
    assert (keys + [key])[..|keys|] == keys;
    assert (texts + [t])[..|texts|] == texts;
  }

  /** The filter keeps nothing exactly when no text is present. */
  lemma {:induction false} KeptEmpty(keys: seq<Key>, texts: seq<Option<string>>, spacer: string)
    requires |keys| == |texts|
    ensures Kept(keys, texts, spacer) == [] <==> forall i :: 0 <= i < |texts| ==> texts[i].None?
    decreases |keys|
  {
    if |keys| > 0 {
      var n := |keys| - 1;
      KeptEmpty(keys[..n], texts[..n], spacer);
      assert forall i :: 0 <= i < n ==> texts[..n][i] == texts[i];
    }
  }

  /** The filter keeps one entry per present text. */
  lemma {:induction false} KeptCount(keys: seq<Key>, texts: seq<Option<string>>, spacer: string)
    requires |keys| == |texts|
    ensures |Kept(keys, texts, spacer)| == |Present(texts)|
    decreases |keys|
  {
    if |keys| > 0 {
      var n := |keys| - 1;
      KeptCount(keys[..n], texts[..n], spacer);
      PresentSnoc(texts);
      if texts[n].Some? {
        assert n !in Present(texts[..n]);
      }
    }
  }

  /** The present positions of a sequence: those of all but its last text, and the
      last one when it is present. */
  lemma PresentSnoc(texts: seq<Option<string>>)
    requires |texts| > 0
    ensures Present(texts) == Present(texts[..|texts| - 1]) + (if texts[|texts| - 1].Some? then {|texts| - 1} else {})
  {
    var n := |texts| - 1;
    assert forall i :: 0 <= i < n ==> texts[..n][i] == texts[i];
  }

  /** The positions of the present texts. */
  function Present(texts: seq<Option<string>>): set<nat> {
    set i: nat | i < |texts| && texts[i].Some?
  }

  /** Every entry the filter keeps is the entry of a key whose text is present. */
  lemma {:induction false} KeptFromKeys(keys: seq<Key>, texts: seq<Option<string>>, spacer: string)
    requires |keys| == |texts|
    ensures forall e :: e in Kept(keys, texts, spacer) ==>
      exists i :: 0 <= i < |keys| && texts[i].Some? && e == EntryText(keys[i], texts[i].value, spacer)
    decreases |keys|
  {
    if |keys| > 0 {
      var n := |keys| - 1;
      KeptFromKeys(keys[..n], texts[..n], spacer);
      forall e | e in Kept(keys, texts, spacer)
        ensures exists i :: 0 <= i < |keys| && texts[i].Some? && e == EntryText(keys[i], texts[i].value, spacer)
      {
        if e in Kept(keys[..n], texts[..n], spacer) {
          var i :| 0 <= i < n && texts[..n][i].Some? && e == EntryText(keys[..n][i], texts[..n][i].value, spacer);
          assert texts[i] == texts[..n][i] && keys[i] == keys[..n][i];
        } else {
          assert texts[n].Some? && e == EntryText(keys[n], texts[n].value, spacer);
        }
      }
    }
  }

  /** No entry is written exactly when every key's value serializes to `undefined`. */
  lemma EntriesEmpty(m: Mode, h: Heap, stack: seq<Id>, ind: string, id: Id, keys: seq<Key>, k: nat)
    requires id in h && id !in stack && k <= |keys|
    ensures Entries(m, h, stack, ind, id, keys, k) == [] <==>
      forall i :: 0 <= i < k ==> Child(m, h, stack + [id], ind + m.spacer, Holder(id), keys[i]).None?
  {
    EntriesKept(m, h, stack, ind, id, keys, k);
    KeptEmpty(keys[..k], Texts(m, h, stack, ind, id, keys, k), m.spacer);
    TextsAt(m, h, stack, ind, id, keys, k);
  }

  /** A plain object (not a typed array) whose every property serializes to `undefined`
      is written as `{}`, with no line breaks whatever the spacer, in every mode without a
      key list. For a typed array this fails under index.js's indenting serializers, see
      `IndentEmptyTypedArrayOmitted`. */
  lemma AllOmittedObject(m: Mode, h: Heap, stack: seq<Id>, ind: string, id: Id)
    requires id in h && id !in stack && h[id].Obj? && !m.replacer.ListReplacer?
    requires forall k :: k in h[id].keys ==>
      Child(m, h, stack + [id], ind + m.spacer, Holder(id), Name(k)).None?
    ensures ContainerText(m, h, stack, ind, id) == "{}"
  {
    var c := h[id];
    if |c.keys| > 0 {
      var keys := Names(Ordered(m, c.keys));
      OrderedOmitted(m, h, stack, ind, id);
      EntriesEmpty(m, h, stack, ind, id, keys, |keys|);
      assert ObjectText("", "", [], m.spacer, ind) == "{}";
    }
  }

  /** Sorting the keys keeps every one of them, so every key of the loop is omitted. */
  lemma OrderedOmitted(m: Mode, h: Heap, stack: seq<Id>, ind: string, id: Id)
    requires id in h && id !in stack && h[id].Obj?
    requires forall k :: k in h[id].keys ==>
      Child(m, h, stack + [id], ind + m.spacer, Holder(id), Name(k)).None?
    ensures var keys := Names(Ordered(m, h[id].keys));
      forall i :: 0 <= i < |keys| ==> Child(m, h, stack + [id], ind + m.spacer, Holder(id), keys[i]).None?
  {
    var ordered := Ordered(m, h[id].keys);
    if m.sortKeys {
      SortSeqSortedPermutation(h[id].keys);
      assert forall k :: k in ordered ==> k in multiset(h[id].keys);
    }
    var keys := Names(ordered);
    forall i | 0 <= i < |keys|
      ensures Child(m, h, stack + [id], ind + m.spacer, Holder(id), keys[i]).None?
    {
      assert keys[i] == Name(ordered[i]) && ordered[i] in ordered;
    }
  }

  /** Under a key list whose selected keys all serialize to `undefined`, an object is
      written as `{}`. */
  lemma AllOmittedUnderList(m: Mode, h: Heap, stack: seq<Id>, ind: string, id: Id)
    requires id in h && id !in stack && !h[id].Arr? && m.replacer.ListReplacer?
    requires var keys := ListKeys(m.replacer.entries);
      forall i :: 0 <= i < |keys| ==> Child(m, h, stack + [id], ind + m.spacer, Holder(id), keys[i]).None?
    ensures ContainerText(m, h, stack, ind, id) == "{}"
  {
    var keys := ListKeys(m.replacer.entries);
    ListCase(m, h, stack, ind, id);
    EntriesEmpty(m, h, stack, ind, id, keys, |keys|);
    assert Body("", "", [], Separator(m.spacer, ind)) == "";
  }

  // ---------------------------------------------------------------------------
  // Key order.

  /** stable.js writes the entries of an object under keys that are `Object.keys` sorted
      by `insertSort`: the same keys, each as often, in ascending order. */
  lemma StableKeysSorted(replacer: Replacer, spacer: string, h: Heap, stack: seq<Id>, ind: string, id: Id)
    requires id in h && id !in stack && !h[id].Arr? && !replacer.ListReplacer?
    requires |ObjectKeys(h[id])| > 0
    ensures var m := StableEngine.StableMode(replacer, spacer);
      var sorted := SortSeq(ObjectKeys(h[id]));
      Sorted(sorted) && multiset(sorted) == multiset(ObjectKeys(h[id])) &&
      ContainerText(m, h, stack, ind, id)
        == ObjectText("", "", Entries(m, h, stack, ind, id, Names(sorted), |sorted|), spacer, ind)
  {
    SortSeqSortedPermutation(ObjectKeys(h[id]));
    PlainObjectCase(StableEngine.StableMode(replacer, spacer), h, stack, ind, id);
  }

  /** index.js writes a typed array's index entries first, in index order, and then its
      other keys, sorted when `deterministic` is on and in `Object.keys` order otherwise. */
  lemma IndexKeyOrder(m: Mode, h: Heap, stack: seq<Id>, ind: string, id: Id)
    requires id in h && id !in stack && h[id].Typed? && |ObjectKeys(h[id])| > 0
    requires !m.replacer.ListReplacer? && m.typed.IndexEntriesFirst?
    ensures var join := Separator(m.spacer, ind);
      var extra := Ordered(m, h[id].extra);
      (m.sortKeys ==> Sorted(extra) && multiset(extra) == multiset(h[id].extra)) &&
      (!m.sortKeys ==> extra == h[id].extra) &&
      ContainerText(m, h, stack, ind, id)
        == ObjectText(TypedText(h[id].items, join), LeadSeparator(m.typed.sep, h[id].items, join),
                      Entries(m, h, stack, ind, id, Names(extra), |extra|), m.spacer, ind)
  {
    SortSeqSortedPermutation(h[id].extra);
    IndexFirstCase(m, h, stack, ind, id);
  }

  // ---------------------------------------------------------------------------
  // A replacer function that returns the value it is given changes nothing.

  ghost predicate IsIdentity(r: Replacer) {
    r.FnReplacer? && forall p, k, v :: r.f(p, k, v) == v
  }

  /** `parent[key]` is written the same with an identity replacer as with none. */
  lemma {:induction false} ChildIdentity(m: Mode, h: Heap, stack: seq<Id>, ind: string, parent: Parent, key: Key)
    requires IsIdentity(m.replacer)
    ensures Child(m, h, stack, ind, parent, key) == Child(m.(replacer := NoReplacer), h, stack, ind, parent, key)
    decreases Unvisited(h, stack), 4
  {
    var v := ToJson(h, key, Lookup(h, parent, key));
    assert Convert(m, h, parent, key, Lookup(h, parent, key)) == v;
    EmitIdentity(m, h, stack, ind, v);
  }

  lemma {:induction false} EmitIdentity(m: Mode, h: Heap, stack: seq<Id>, ind: string, v: Value)
    requires IsIdentity(m.replacer)
    ensures Emit(m, h, stack, ind, v) == Emit(m.(replacer := NoReplacer), h, stack, ind, v)
    decreases Unvisited(h, stack), 3
  {
    if v.Ref? && v.id in h && v.id !in stack {
      ContainerIdentity(m, h, stack, ind, v.id);
    }
  }

  lemma {:induction false} ContainerIdentity(m: Mode, h: Heap, stack: seq<Id>, ind: string, id: Id)
    requires IsIdentity(m.replacer) && id in h && id !in stack
    ensures ContainerText(m, h, stack, ind, id) == ContainerText(m.(replacer := NoReplacer), h, stack, ind, id)
    decreases Unvisited(h, stack), 2
  {
    var c := h[id];
    if c.Arr? {
      PiecesIdentity(m, h, stack, ind, id, |c.elems|);
    } else if c.Typed? && m.typed.IndexEntriesFirst? {
      var keys := Names(Ordered(m, c.extra));
      EntriesIdentity(m, h, stack, ind, id, keys, |keys|);
    } else {
      var keys := Names(Ordered(m, ObjectKeys(c)));
      EntriesIdentity(m, h, stack, ind, id, keys, |keys|);
    }
  }

  lemma {:induction false} PiecesIdentity(m: Mode, h: Heap, stack: seq<Id>, ind: string, id: Id, k: nat)
    requires IsIdentity(m.replacer) && id in h && id !in stack
    ensures Pieces(m, h, stack, ind, id, k) == Pieces(m.(replacer := NoReplacer), h, stack, ind, id, k)
    decreases Unvisited(h, stack), 0, k
  {
    if k > 0 {
      UnvisitedShrinks(h, stack, id);
      PiecesIdentity(m, h, stack, ind, id, k - 1);
      ChildIdentity(m, h, stack + [id], ind + m.spacer, Holder(id), Index(k - 1));
    }
  }

  lemma {:induction false} EntriesIdentity(m: Mode, h: Heap, stack: seq<Id>, ind: string, id: Id, keys: seq<Key>, k: nat)
    requires IsIdentity(m.replacer) && id in h && id !in stack && k <= |keys|
    ensures Entries(m, h, stack, ind, id, keys, k) == Entries(m.(replacer := NoReplacer), h, stack, ind, id, keys, k)
    decreases Unvisited(h, stack), 1
  {
    EntriesKept(m, h, stack, ind, id, keys, k);
    EntriesKept(m.(replacer := NoReplacer), h, stack, ind, id, keys, k);
    TextsIdentity(m, h, stack, ind, id, keys, k);
  }

  lemma {:induction false} TextsIdentity(m: Mode, h: Heap, stack: seq<Id>, ind: string, id: Id, keys: seq<Key>, k: nat)
    requires IsIdentity(m.replacer) && id in h && id !in stack && k <= |keys|
    ensures Texts(m, h, stack, ind, id, keys, k) == Texts(m.(replacer := NoReplacer), h, stack, ind, id, keys, k)
    decreases Unvisited(h, stack), 0, k
  {
    if k > 0 {
      UnvisitedShrinks(h, stack, id);
      TextsIdentity(m, h, stack, ind, id, keys, k - 1);
      ChildIdentity(m, h, stack + [id], ind + m.spacer, Holder(id), keys[k - 1]);
    }
  }

  /** stable.js: `stringify(value, (k, v) => v, space)` is `stringify(value, null, space)`,
      although the first goes through `stringifyFullFn` or `stringifyReplacerFn` and the
      second through `stringifyIndent` or `stringifySimple`. */
  lemma StableIdentityReplacer(h: Heap, value: Value, f: (Parent, Key, Value) -> Value, space: SpaceArg)
    requires forall p, k, v :: f(p, k, v) == v
    ensures Top(StableEngine.StableMode(StableEngine.ReplacerOf(FunctionArg(f)), StableEngine.IndentOf(space)), h, value)
         == Top(StableEngine.StableMode(StableEngine.ReplacerOf(OtherReplacer), StableEngine.IndentOf(space)), h, value)
  {
    var m := StableEngine.StableMode(FnReplacer(f), StableEngine.IndentOf(space));
    ChildIdentity(m, h, [], "", Wrapper(value), Name(""));
    assert m.(replacer := NoReplacer) == StableEngine.StableMode(NoReplacer, StableEngine.IndentOf(space));
  }

  /** index.js: with a non-empty spacer, an identity replacer function gives what
      `stringifyIndent` gives. (Without a spacer it does not: see the typed-array
      separators under Findings.) */
  lemma IndexIdentityReplacer(cfg: IndexEngine.Config, h: Heap, value: Value, f: (Parent, Key, Value) -> Value, spacer: string)
    requires forall p, k, v :: f(p, k, v) == v
    requires spacer != ""
    ensures Top(IndexEngine.ModeOf(cfg, FunctionArg(f), spacer), h, value)
         == Top(IndexEngine.ModeOf(cfg, OtherReplacer, spacer), h, value)
  {
    ChildIdentity(IndexEngine.FullFnMode(cfg, f, spacer), h, [], "", Wrapper(value), Name(""));
  }

  // ---------------------------------------------------------------------------
  // The two engines' `space` handling.

  /** Both engines turn `space` into the same indent, except a negative count: index.js
      lets `' '.repeat` throw, while stable.js's loop writes no space at all. */
  lemma SpaceAgreement(space: SpaceArg)
    ensures IndexEngine.SpacerOf(space).Ok? ==> IndexEngine.SpacerOf(space).value == StableEngine.IndentOf(space)
    ensures IndexEngine.SpacerOf(space).Err? ==> StableEngine.IndentOf(space) == ""
  {
    if space.SpaceCount? && space.n >= 0 {
      var a, b := IndexEngine.SpacerOf(space).value, StableEngine.IndentOf(space);
      assert |a| == |b| && forall i :: 0 <= i < |a| ==> a[i] == b[i];
    }
  }

  // ---------------------------------------------------------------------------
  // Findings: the separator between a typed array's index entries and its other entries.

  /** `parts.join(sep)` of two non-empty runs is each run joined, with one separator
      between them. */
  lemma {:induction false} JoinConcat(a: seq<string>, b: seq<string>, sep: string)
    requires |a| > 0 && |b| > 0
    ensures Join(a + b, sep) == Join(a, sep) + sep + Join(b, sep)
    decreases |b|
  {
    if |b| == 1 {
      JoinSnoc(a, b[0], sep);
      assert a + b == a + [b[0]];
    } else {
      var init := b[..|b| - 1];
      JoinConcat(a, init, sep);
      assert a + b == (a + init) + [b[|b| - 1]];
      JoinSnoc(a + init, b[|b| - 1], sep);
      JoinSnoc(init, b[|b| - 1], sep);
      assert init + [b[|b| - 1]] == b;
    }
  }

  /** The intended layout: a typed array's index entries and its other entries form one
      list, joined by the separator. The separator policy that writes the join string
      exactly when there was an index entry gives it for every typed array. */
  lemma SepIfAnyJoins(items: seq<Element>, entries: seq<string>, join: string)
    ensures Body(TypedText(items, join), LeadSeparator(SepIfAny, items, join), entries, join)
         == Join(TypedEntries(items, join) + entries, join)
  {
    var indexed := TypedEntries(items, join);
    if entries == [] {
      assert indexed + entries == indexed;
    } else if |items| == 0 {
      assert indexed + entries == entries;
    } else {
      JoinConcat(indexed, entries, join);
    }
  }

  /** index.js `stringifySimple` as written (`SepNever`): after at least one index entry
      the first other entry follows without a separator, so the text is one separator
      shorter than the joined list. */
  lemma SepNeverDropsSeparator(items: seq<Element>, entries: seq<string>, join: string)
    requires |items| > 0 && |entries| > 0 && join != ""
    ensures |Body(TypedText(items, join), LeadSeparator(SepNever, items, join), entries, join)| + |join|
         == |Join(TypedEntries(items, join) + entries, join)|
    ensures Body(TypedText(items, join), LeadSeparator(SepNever, items, join), entries, join)
         != Join(TypedEntries(items, join) + entries, join)
  {
    JoinConcat(TypedEntries(items, join), entries, join);
  }

  /** index.js `stringifyFullFn` and `stringifyIndent` as written (`SepAlways`): an empty
      typed array with other entries starts with a separator that follows nothing. */
  lemma SepAlwaysLeadingSeparator(entries: seq<string>, join: string)
    requires |entries| > 0 && join != ""
    ensures var text := Body(TypedText([], join), LeadSeparator(SepAlways, [], join), entries, join);
      text == join + Join(TypedEntries([], join) + entries, join) &&
      text != Join(TypedEntries([], join) + entries, join)
  {
    assert TypedEntries([], join) + entries == entries;
  }

  /** The heap of a typed array `[1]` with one more property `a` holding `2`. */
  function TypedWithExtra(items: seq<Element>): Heap {
    map[0 := Typed(items, ["a"], map["a" := Num(Number(true, "2"))], None)]
  }

  /** index.js `stringify(Object.assign(new Uint8Array([1]), {a: 2}))` writes
      `{"0":1"a":2}`, the comma between the two entries missing. */
  lemma SimpleTypedArrayText(cfg: IndexEngine.Config)
    ensures Top(IndexEngine.SimpleMode(cfg), TypedWithExtra([Float(Number(true, "1"))]), Ref(0))
         == Some("{\"0\":1\"a\":2}")
  {
    var m := IndexEngine.SimpleMode(cfg);
    var h := TypedWithExtra([Float(Number(true, "1"))]);
    EntryOfExtra(m, h[0].items);
    IndexFirstCase(m, h, [], "", 0);
    assert TypedText(h[0].items, ",") == "\"0\":1" by {
      assert NatText(0) == "0";
    }
    var entry := EntryText(Name("a"), "2", "");
    assert entry == "\"a\":2";
    assert ContainerText(m, h, [], "", 0) == ObjectText("\"0\":1", "", [entry], "", "");
    assert Join([entry], ",") == entry;
    assert ObjectText("\"0\":1", "", [entry], "", "") == "{" + ("\"0\":1" + ("" + entry)) + "}";
    assert "{" + ("\"0\":1" + ("" + "\"a\":2")) + "}" == "{\"0\":1\"a\":2}";
    TopObject(m, h, 0);
  }

  /** index.js `stringify(Object.assign(new Uint8Array(0), {a: 2}), null, 2)` and the
      same with a replacer function: the entry of `a` is preceded by a separator. */
  lemma IndentEmptyTypedArrayText(cfg: IndexEngine.Config)
    ensures Top(IndexEngine.IndentMode(cfg, "  "), TypedWithExtra([]), Ref(0))
         == Some("{\n  ,\n  \"a\": 2\n}")
  {
    var m := IndexEngine.IndentMode(cfg, "  ");
    var h := TypedWithExtra([]);
    EntryOfExtra(m, []);
    IndexFirstCase(m, h, [], "", 0);
    assert TypedText([], ",\n  ") == "";
    ExtraEntryText();
    IndentLayout();
    TopObject(m, h, 0);
  }

  /** The heap of an empty typed array with one more property `a` holding `undefined`. */
  function EmptyTypedOmitted(): Heap {
    map[0 := Typed([], ["a"], map["a" := Undef], None)]
  }

  /** index.js `stringify(Object.assign(new Uint8Array(0), {a: undefined}), null, 2)`:
      no entry is written, yet the separator set after the empty index entries puts the
      empty body on a line of its own instead of writing `{}`. */
  lemma IndentEmptyTypedArrayOmitted(cfg: IndexEngine.Config)
    ensures Top(IndexEngine.IndentMode(cfg, "  "), EmptyTypedOmitted(), Ref(0)) == Some("{\n  \n}")
  {
    var m := IndexEngine.IndentMode(cfg, "  ");
    OmittedExtraText(m);
    assert ObjectText("", ",\n  ", [], "  ", "") == "{\n  \n}";
  }

  /** With the corrected separator the same typed array is written `{}`. */
  lemma IntendedEmptyTypedArrayOmitted(cfg: IndexEngine.Config)
    ensures Top(IndexEngine.IndentMode(cfg, "  ").(typed := IndexEntriesFirst(SepIfAny)), EmptyTypedOmitted(), Ref(0))
         == Some("{}")
  {
    var m := IndexEngine.IndentMode(cfg, "  ").(typed := IndexEntriesFirst(SepIfAny));
    OmittedExtraText(m);
    assert ObjectText("", "", [], "  ", "") == "{}";
  }

  /** `EmptyTypedOmitted` under an indenting serializer that writes index entries first:
      no entry, and the separator the policy sets after no index entries. */
  lemma OmittedExtraText(m: Mode)
    requires m.typed.IndexEntriesFirst? && m.replacer == NoReplacer && m.spacer == "  "
    ensures Top(m, EmptyTypedOmitted(), Ref(0))
         == Some(ObjectText("", LeadSeparator(m.typed.sep, [], ",\n  "), [], "  ", ""))
  {
    var h := EmptyTypedOmitted();
    assert SortSeq(["a"]) == Insert(SortSeq([]), "a");
    assert Names(Ordered(m, ["a"])) == [Name("a")];
    EntryStep(m, h, [], "", 0, [Name("a")], 0);
    PropertyWithoutFunction(m, h, [0], m.spacer, 0, "a");
    IndexFirstCase(m, h, [], "", 0);
    assert TypedText([], ",\n  ") == "";
    TopObject(m, h, 0);
  }

  /** The text of `{,"a": 2}` as `stringifyIndent` lays it out. */
  lemma IndentLayout()
    ensures ObjectText("", Separator("  ", ""), ["\"a\": 2"], "  ", "") == "{\n  ,\n  \"a\": 2\n}"
  {
    var join := Separator("  ", "");
    assert join == ",\n  ";
    assert Join(["\"a\": 2"], join) == "\"a\": 2";
    assert "{" + ("\n" + ("" + "  ") + ("" + (",\n  " + "\"a\": 2")) + ("\n" + "")) + "}" == "{\n  ,\n  \"a\": 2\n}";
  }

  /** The entry of `a`, with and without a spacer. */
  lemma ExtraEntryText()
    ensures EntryText(Name("a"), "2", "") == "\"a\":2"
    ensures EntryText(Name("a"), "2", "  ") == "\"a\": 2"
  {
    assert Escape("a") == EscapeUnit('a') + Escape("");
  }

  /** The one other entry of `TypedWithExtra`, whether keys are sorted or not. */
  lemma EntryOfExtra(m: Mode, items: seq<Element>)
    requires !m.replacer.FnReplacer?
    ensures Names(Ordered(m, ["a"])) == [Name("a")]
    ensures Entries(m, TypedWithExtra(items), [], "", 0, [Name("a")], 1) == [EntryText(Name("a"), "2", m.spacer)]
    ensures KeyText(Name("a")) == "a"
  {
    var h := TypedWithExtra(items);
    assert SortSeq(["a"]) == Insert(SortSeq([]), "a");
    EntryStep(m, h, [], "", 0, [Name("a")], 0);
    PropertyWithoutFunction(m, h, [0], m.spacer, 0, "a");
    assert Escape("a") == EscapeUnit('a') + Escape("");
  }

  /** The corrected `stringifySimple`: the separator after the index entries is set
      exactly when one was written. */
  function IntendedSimpleMode(cfg: IndexEngine.Config): (m: Mode)
    ensures m == IndexEngine.SimpleMode(cfg).(typed := IndexEntriesFirst(SepIfAny))
  {
    IndexEngine.SimpleMode(cfg).(typed := IndexEntriesFirst(SepIfAny))
  }

  /** With the corrected separator, a typed array without a spacer is one list: its
      index entries, then its other entries, joined by commas between braces. */
  lemma IntendedTypedLayout(m: Mode, h: Heap, stack: seq<Id>, ind: string, id: Id)
    requires id in h && id !in stack && h[id].Typed? && |ObjectKeys(h[id])| > 0
    requires !m.replacer.ListReplacer? && m.typed == IndexEntriesFirst(SepIfAny) && m.spacer == ""
    ensures var keys := Names(Ordered(m, h[id].extra));
      ContainerText(m, h, stack, ind, id)
        == "{" + Join(TypedEntries(h[id].items, ",") + Entries(m, h, stack, ind, id, keys, |keys|), ",") + "}"
  {
    IndexFirstCase(m, h, stack, ind, id);
    var keys := Names(Ordered(m, h[id].extra));
    SepIfAnyJoins(h[id].items, Entries(m, h, stack, ind, id, keys, |keys|), ",");
  }

  /** The corrected `stringifySimple` writes `{"0":1,"a":2}` for the typed array of
      `SimpleTypedArrayText`. */
  lemma IntendedTypedArrayText(cfg: IndexEngine.Config)
    ensures Top(IntendedSimpleMode(cfg), TypedWithExtra([Float(Number(true, "1"))]), Ref(0))
         == Some("{\"0\":1,\"a\":2}")
  {
    var m := IntendedSimpleMode(cfg);
    var h := TypedWithExtra([Float(Number(true, "1"))]);
    EntryOfExtra(m, h[0].items);
    IndexFirstCase(m, h, [], "", 0);
    assert TypedText(h[0].items, ",") == "\"0\":1" by {
      assert NatText(0) == "0";
    }
    var entry := EntryText(Name("a"), "2", "");
    assert entry == "\"a\":2";
    assert ContainerText(m, h, [], "", 0) == ObjectText("\"0\":1", ",", [entry], "", "");
    assert Join([entry], ",") == entry;
    assert ObjectText("\"0\":1", ",", [entry], "", "") == "{" + ("\"0\":1" + ("," + entry)) + "}";
    assert "{" + ("\"0\":1" + ("," + "\"a\":2")) + "}" == "{\"0\":1,\"a\":2}";
    TopObject(m, h, 0);
  }

  // ---------------------------------------------------------------------------
  // Bigint typed arrays.

  /** The heap of `new BigInt64Array([1n])`. */
  function BigTyped(): Heap {
    map[0 := Typed([Big(1)], [], map[], None)]
  }

  /** stable.js reads the element through `value[key]` and has no bigint case, so
      `stringify(new BigInt64Array([1n]))` leaves the element out and writes `{}`. */
  lemma StableBigIntTypedArray()
    ensures Top(StableEngine.StableMode(NoReplacer, ""), BigTyped(), Ref(0)) == Some("{}")
  {
    var m := StableEngine.StableMode(NoReplacer, "");
    var h := BigTyped();
    assert ObjectKeys(h[0]) == ["0"] by {
      assert NatText(0) == "0";
    }
    assert SortSeq(["0"]) == Insert(SortSeq([]), "0");
    assert Names(Ordered(m, ["0"])) == [Name("0")];
    PlainObjectCase(m, h, [], "", 0);
    EntryStep(m, h, [], "", 0, [Name("0")], 0);
    PropertyWithoutFunction(m, h, [0], "", 0, "0");
    assert IndexOfName("0", 1) == Some(0) by {
      assert NatText(0) == "0";
    }
    assert ObjectText("", "", [], "", "") == "{}";
    TopObject(m, h, 0);
  }

  /** index.js writes the element with `stringifyTypedArray`, whatever the `bigint`
      option: `{"0":1}`. */
  lemma IndexBigIntTypedArray(cfg: IndexEngine.Config)
    ensures Top(IndexEngine.SimpleMode(cfg), BigTyped(), Ref(0)) == Some("{\"0\":1}")
  {
    var m := IndexEngine.SimpleMode(cfg);
    var h := BigTyped();
    assert ObjectKeys(h[0]) == ["0"] by {
      assert NatText(0) == "0";
    }
    assert SortSeq([]) == [];
    IndexFirstCase(m, h, [], "", 0);
    assert TypedText(h[0].items, ",") == "\"0\":1" by {
      assert NatText(0) == "0" && NatText(1) == "1";
    }
    assert ObjectText("\"0\":1", "", [], "", "") == "{\"0\":1}";
    TopObject(m, h, 0);
  }

  // ---------------------------------------------------------------------------
  // A cycle through the root (test.js, 'circular reference to root').

  /** `fixture = { name }; fixture.circle = fixture`. */
  function Fixture(name: string): Heap {
    map[0 := Obj(["name", "circle"], map["name" := Str(name), "circle" := Ref(0)], None)]
  }

  /** A string with no control character, quote or backslash. */
  predicate Plain(s: string) {
    forall i :: 0 <= i < |s| ==> ' ' <= s[i] && s[i] != '"' && s[i] != '\\'
  }

  /** A serializer without a replacer or a spacer that sorts the keys and marks a cycle
      with `"[Circular]"`. */
  predicate FixtureMode(m: Mode) {
    m.circular == "\"[Circular]\"" && m.sortKeys && m.replacer == NoReplacer && m.spacer == ""
  }

  /** index.js, configured with the default circular marker and sorting: the reference
      back to the root is written as `"[Circular]"`, and the keys in sorted order. */
  lemma CircularReferenceToRoot(cfg: IndexEngine.Config, name: string)
    requires cfg.circularValue == Some("\"[Circular]\"") && cfg.deterministic && Plain(name)
    ensures Top(IndexEngine.SimpleMode(cfg), Fixture(name), Ref(0))
         == Some("{" + ("\"" + "circle" + "\":" + "\"[Circular]\"" + "," + ("\"" + "name" + "\":" + ("\"" + name + "\""))) + "}")
  {
    FixtureTop(IndexEngine.SimpleMode(cfg), Fixture(name), name);
  }

  /** The same for stable.js. */
  lemma StableCircularReferenceToRoot(name: string)
    requires Plain(name)
    ensures Top(StableEngine.StableMode(NoReplacer, ""), Fixture(name), Ref(0))
         == Some("{" + ("\"" + "circle" + "\":" + "\"[Circular]\"" + "," + ("\"" + "name" + "\":" + ("\"" + name + "\""))) + "}")
  {
    FixtureTop(StableEngine.StableMode(NoReplacer, ""), Fixture(name), name);
  }

  /** The fixture's text under any serializer of `FixtureMode`. */
  lemma FixtureTop(m: Mode, h: Heap, name: string)
    requires FixtureMode(m) && h == Fixture(name) && Plain(name)
    ensures Top(m, h, Ref(0))
         == Some("{" + ("\"" + "circle" + "\":" + "\"[Circular]\"" + "," + ("\"" + "name" + "\":" + ("\"" + name + "\""))) + "}")
  {
    var first := "\"" + "circle" + "\":" + "\"[Circular]\"";
    var second := "\"" + "name" + "\":" + ("\"" + name + "\"");
    FixtureText(m, h, name);
    FlatPair(first, second);
    TopObject(m, h, 0);
  }

  /** Two entries without a spacer. */
  lemma FlatPair(first: string, second: string)
    ensures ObjectText("", "", [first, second], "", "") == "{" + (first + "," + second) + "}"
  {
    JoinSnoc([first], second, ",");
    assert [first] + [second] == [first, second];
  }

  /** The fixture's text: its entries in sorted key order, joined. */
  lemma FixtureText(m: Mode, h: Heap, name: string)
    requires FixtureMode(m) && h == Fixture(name) && Plain(name)
    ensures ContainerText(m, h, [], "", 0)
         == ObjectText("", "", ["\"" + "circle" + "\":" + "\"[Circular]\"", "\"" + "name" + "\":" + ("\"" + name + "\"")], "", "")
  {
    FixtureKeys();
    if m.typed.AsPlainObject? {
      PlainObjectCase(m, h, [], "", 0);
    } else {
      IndexFirstCase(m, h, [], "", 0);
    }
    FixtureEntries(m, h, [Name("circle"), Name("name")], 2, name);
  }

  /** `insertSort(['name', 'circle'])`. */
  lemma FixtureKeys()
    ensures Names(SortSeq(["name", "circle"])) == [Name("circle"), Name("name")]
  {
    assert Below("circle", "name");
    assert ["name", "circle"][..1] == ["name"];
    assert SortSeq(["name"]) == ["name"];
    assert SortSeq(["name", "circle"]) == ["circle", "name"];
  }

  /** The entries of the fixture in sorted key order: the cycle marked, the name quoted. */
  lemma FixtureEntries(m: Mode, h: Heap, keys: seq<Key>, k: nat, name: string)
    requires FixtureMode(m) && h == Fixture(name) && Plain(name)
    requires keys == [Name("circle"), Name("name")] && k == |keys|
    ensures Entries(m, h, [], "", 0, keys, k)
         == ["\"" + "circle" + "\":" + "\"[Circular]\"", "\"" + "name" + "\":" + ("\"" + name + "\"")]
  {
    var a, b := "\"[Circular]\"", "\"" + name + "\"";
    FixtureTexts(m, h, keys, k, name);
    EntriesPair(m, h, [], "", 0, keys, k, a, b);
    assert m.spacer == "" && keys[0] == Name("circle") && keys[1] == Name("name");
    PlainKeys();
    PlainPair("circle", "name", a, b);
  }

  /** The fixture's keys need no escaping. */
  lemma PlainKeys()
    ensures Plain("circle") && Plain("name")
  {
  }

  /** Two entries of plain keys, without a spacer. */
  lemma PlainPair(k1: string, k2: string, a: string, b: string)
    requires Plain(k1) && Plain(k2)
    ensures [EntryText(Name(k1), a, ""), EntryText(Name(k2), b, "")] == ["\"" + k1 + "\":" + a, "\"" + k2 + "\":" + b]
  {
    PlainEntry(k1, a);
    PlainEntry(k2, b);
  }

  /** Two keys whose values are both written give two entries, in key order. */
  lemma EntriesPair(m: Mode, h: Heap, stack: seq<Id>, ind: string, id: Id, keys: seq<Key>, k: nat, a: string, b: string)
    requires id in h && id !in stack && k == |keys| == 2
    requires Texts(m, h, stack, ind, id, keys, k) == [Some(a), Some(b)]
    ensures Entries(m, h, stack, ind, id, keys, k) == [EntryText(keys[0], a, m.spacer), EntryText(keys[1], b, m.spacer)]
  {
    EntriesKept(m, h, stack, ind, id, keys, k);
    assert keys[..k] == keys == [keys[0], keys[1]];
    KeptPair(keys[0], keys[1], a, b, m.spacer);
  }

  /** The serializations of the fixture's values, in sorted key order. */
  lemma FixtureTexts(m: Mode, h: Heap, keys: seq<Key>, k: nat, name: string)
    requires FixtureMode(m) && h == Fixture(name) && Plain(name)
    requires keys == [Name("circle"), Name("name")] && k == |keys|
    ensures Texts(m, h, [], "", 0, keys, k) == [Some("\"[Circular]\""), Some("\"" + name + "\"")]
  {
    FixtureChildren(m, h, name);
    TextsAt(m, h, [], "", 0, keys, k);
    var texts := Texts(m, h, [], "", 0, keys, k);
    assert [] + [0] == [0] && "" + m.spacer == "";
    assert texts[0] == Some("\"[Circular]\"");
    assert texts[1] == Some("\"" + name + "\"");
  }

  /** Two written entries, without a spacer. */
  lemma KeptPair(k1: Key, k2: Key, a: string, b: string, spacer: string)
    ensures Kept([k1, k2], [Some(a), Some(b)], spacer) == [EntryText(k1, a, spacer), EntryText(k2, b, spacer)]
  {
    assert [k1, k2][..1] == [k1];
    assert [Some(a), Some(b)][..1] == [Some(a)];
    assert Kept([k1], [Some(a)], spacer) == [EntryText(k1, a, spacer)] by {
      assert [k1][..0] == [];
    }
  }

  /** The fixture's two values: the reference back to the root, and the name. */
  lemma FixtureChildren(m: Mode, h: Heap, name: string)
    requires FixtureMode(m) && h == Fixture(name) && Plain(name)
    ensures Child(m, h, [0], "", Holder(0), Name("circle")) == Some("\"[Circular]\"")
    ensures Child(m, h, [0], "", Holder(0), Name("name")) == Some("\"" + name + "\"")
  {
    assert Get(h[0], "circle") == Ref(0);
    assert Get(h[0], "name") == Str(name);
    PropertyWithoutFunction(m, h, [0], "", 0, "circle");
    PropertyWithoutFunction(m, h, [0], "", 0, "name");
    EscapePlain(name);
  }

  /** The entry of a plain key, without a spacer. */
  lemma PlainEntry(k: string, t: string)
    requires Plain(k)
    ensures EntryText(Name(k), t, "") == "\"" + k + "\":" + t
  {
    EscapePlain(k);
    FlatEntry(Name(k), t);
  }

  /** A top-level object without `toJSON`, under no replacer function, is written as
      that object. */
  lemma TopObject(m: Mode, h: Heap, id: Id)
    requires id in h && h[id].toJSON.None? && !m.replacer.FnReplacer?
    ensures Top(m, h, Ref(id)) == Some(ContainerText(m, h, [], "", id))
  {
    assert Convert(m, h, Wrapper(Ref(id)), Name(""), Lookup(h, Wrapper(Ref(id)), Name(""))) == Ref(id);
    assert Child(m, h, [], "", Wrapper(Ref(id)), Name("")) == Emit(m, h, [], "", Ref(id));
    assert Emit(m, h, [], "", Ref(id)) == Some(ContainerText(m, h, [], "", id));
  }

  /** A plain string is written as it is. */
  lemma EscapePlain(s: string)
    requires Plain(s)
    ensures Escape(s) == s
  {
    EscapeIdentity(s);
  }
}
