# safe-stable-stringify, modelled in Dafny

safe-stable-stringify is a drop-in replacement for `JSON.stringify`. It does not throw
on circular structures: it writes a marker in their place. By default it also sorts
object keys, so that equal objects serialize to equal strings. This project models its
two engines and proves what they write.

- **index.js** is the configurable engine. `main(options)` validates three options
  (`circularValue`, `bigint`, `deterministic`) and returns a `stringify(value, replacer, space)`
  closure. The closure dispatches to one of four recursive serializers:
  - `stringifyFullFn` for a function replacer;
  - `stringifyFullArr` for a key-list replacer;
  - `stringifyIndent` for a non-empty spacer;
  - `stringifySimple` otherwise.

  They share `strEscape` and its `meta` table, `insertSort` and `stringifyTypedArray`.
- **stable.js** is the older engine with fixed options: keys are always sorted, the
  circular marker is always `"[Circular]"`, and there is no bigint case. It has six
  serializers. Besides the four of index.js it has `stringifyReplacerFn` and
  `stringifyReplacerArr` for a replacer without indentation. The indentation lives in a
  module-level variable that every pretty serializer grows and restores.

The Dafny project is organised as follows.

| file | module | contents |
|---|---|---|
| `Values.dfy` | `Values` | The JS values a serializer meets: null, booleans, abstract numbers, bigints, strings, `undefined` and references into a heap of containers (arrays, objects, typed arrays, each with an optional `toJSON`). Also the termination measure: heap objects not on the ancestor stack. |
| `JsonString.dfy` | `JsonString` | `strEscape`, `meta` and `escapeFn`. The escape is the pure function `Escape`, proved to follow section 7 of RFC 8259 and to round-trip through a JSON string decoder. `StrEscape` is the loop of the source, proved equal to `Escape`. |
| `KeyOrder.dfy` | `KeyOrder` | JS string order: strings compared by their UTF-16 code units. `insertSort` as an in-place insertion sort on an `array`, plus the native sort it falls back to. Both are proved equal to the reference `SortSeq`, which is proved sorted and a permutation. |
| `Stack.dfy` | `Ancestors` | The ancestor `stack`, a class with push, pop and `indexOf`. |
| `Serialization.dfy` | `Serialization` | The reference serializer, a family of pure functions (`Child`, `Emit`, `ContainerText`, `Pieces`, `Entries`, `Top`). A `Mode` parameter covers every serializer of both files (see below). Also the step lemmas the loops use. |
| `IndexEngine.dfy` | `IndexEngine` | index.js: the option getters, `main`, `stringifyTypedArray`, the four serializers as recursive methods over the shared stack, and the dispatch. |
| `StableEngine.dfy` | `StableEngine` | stable.js: the six serializers as methods of a `Stringifier` class whose field is the module-level `indentation`, and the dispatch. |
| `Properties.dfy` | `Properties` | What the serializers promise, proved about the reference serializer: cycles, positions, omitted entries, key order, the replacer, dispatch, the test fixtures, and the findings below. |

The `Mode` of a serializer is a record with these fields:
- `circular`: the circular marker;
- `bigint`: whether bigints are written;
- `sortKeys`: whether keys are sorted;
- `typed`: how typed arrays are written, either as plain objects or with their index
  entries first and one of three policies for the separator after them;
- `replacer`: the replacer;
- `spacer`: the spacer.

Every serializer method, in both engines, is proved to return exactly what the reference
function returns for its mode. Each also leaves the ancestor stack as it found it, and in
stable.js it leaves `indentation` as it found it. The properties are then proved once,
about the reference.

## Model

| member | source | states |
|---|---|---|
| `JsonString.StrEscape` | index.js:39-67 | The loop with `result` and `last` computes `Escape(str)`: each control character, quote and backslash is replaced by its `meta` entry, and every other character is kept in order. The fast path returns the input only when it holds no special unit (`EscapeUnchanged`); the regex path is specified by `Escape` itself (see Left out). |
| `JsonString.MetaEntry` | index.js:31-33 | `escapeFn` returns, for a special character, the same escape `Escape` writes for it. |
| `JsonString.MetaFollowsRfc8259` | index.js:15-29 | Every entry of `meta` read for a special unit is the escape of section 7 of RFC 8259: the short escapes for 8, 9, 10, 12, 13, 34 and 92, and `\u00xx` with lowercase hex for every other unit below 32. |
| `JsonString.EscapeUnchanged` | index.js:41-43 | The escape returns its input unchanged exactly when the input holds no control character, quote or backslash. |
| `JsonString.EscapeIdentity` | index.js:61-62 | A string with no special unit is returned as it is. |
| `JsonString.EscapeLength` | index.js:50-60 | The escape never shortens a string, and it lengthens every string that holds a special unit. |
| `JsonString.EscapeAppend` | index.js:50-65 | The escape works character by character: escaping a concatenation concatenates the escapes. |
| `JsonString.UnescapeEscape` | index.js:39-67 | Decoding the escaped text as the body of a JSON string gives back the original string, so escaping loses nothing. |
| `KeyOrder.BelowIsUnitOrder` | index.js:78 | Comparing two strings character by character, as `Below` does, is comparing their whole UTF-16 encodings lexicographically, a proper prefix being smaller: the order of JS `<` and `>`. |
| `KeyOrder.SurrogateOrder` | index.js:78 | A character above U+FFFF sorts by its high surrogate: U+1F600 comes before U+FF01 although its code point is larger. |
| `KeyOrder.CharBelowTotal` | index.js:78 | Two different characters are ordered one way or the other by their code units. |
| `KeyOrder.BelowIrreflexive` | index.js:78 | The `>` comparison on strings is a strict order: no string is below itself. |
| `KeyOrder.BelowTransitive` | index.js:78 | Code-unit order is transitive. |
| `KeyOrder.BelowTotal` | index.js:78 | Any two different strings are ordered one way or the other. |
| `KeyOrder.SortSeqSortedPermutation` | index.js:69-85 | The reference sort returns its input sorted by UTF-16 code-unit order, and as a permutation of it. |
| `KeyOrder.SortedUnique` | index.js:72-74 | Two sorted permutations of the same keys are equal, so the native sort and the insertion sort cannot disagree. |
| `KeyOrder.InsertSorted` | index.js:76-82 | One pass of the inner loop inserts a key into a sorted prefix and leaves it sorted. |
| `KeyOrder.InsertPermutes` | index.js:76-82 | One pass of the inner loop neither loses nor duplicates a key. |
| `KeyOrder.ShiftLarger` | index.js:77-81 | The inner `while` loop shifts every larger key of the prefix one place to the right, keeps everything else, and stops behind the first key that is not larger. |
| `KeyOrder.InsertionSort` | index.js:75-83 | The in-place loop leaves the array equal to the reference sort of its old contents. |
| `KeyOrder.NativeSort` | index.js:72-74 | Above 200 keys the array is left equal to the reference sort of its old contents. |
| `KeyOrder.InsertSort` | index.js:69-85 | `insertSort` sorts the array in place into the reference order, whatever its length. |
| `Ancestors.Stack.constructor` | index.js:489 | A top-level call starts with an empty ancestor stack. |
| `Ancestors.Stack.Push` | index.js:178 | `stack.push(value)` appends the object to the ancestors. |
| `Ancestors.Stack.Pop` | index.js:195 | `stack.pop()` removes the last ancestor. |
| `Ancestors.Stack.IndexOf` | index.js:166-168 | `stack.indexOf(value)` is -1 exactly when the object is not an ancestor. Otherwise it is the first position holding the object. |
| `Values.UnvisitedShrinks` | index.js:166-178 | Pushing an object that is not on the stack lowers the number of unvisited objects, so every descent terminates. |
| `Values.IndexOfName` | index.js:374-376 | The integer index named by a key string, when one exists below the length, with both directions stated. |
| `Serialization.TypedEntries` | index.js:101-111 | The index entries of a typed array, one per element and in index order. |
| `Serialization.ArrayCase` | index.js:174-197 | One unfolding of the reference for an array that is not an ancestor: `[]` when empty, otherwise its pieces, one per position, joined inside brackets with the spacer's newlines and indentation. A proof step for the array loops. |
| `Serialization.IndexFirstCase` | index.js:199-230 | One unfolding of the reference for an object or typed array under an index.js serializer without a key list: `{}` without keys, otherwise the typed-array index entries first, then the entries of the remaining keys (sorted when `deterministic`), laid out by the spacer. A proof step for the object loops. |
| `Serialization.PlainObjectCase` | stable.js:112-138 | One unfolding of the reference for a serializer that treats typed arrays as plain objects: `{}` without keys, otherwise the entries of the ordered keys. A proof step for the object loops. |
| `Serialization.ListCase` | index.js:286-310 | Under a key-list replacer, an object gives `{}` when the list is empty. Otherwise it gives the entries of the list's string and number keys, in list order. |
| `Serialization.ListKeyAt` | index.js:297-304 | Only string and number entries of a key list become keys, and they keep their order. |
| `Serialization.PieceStep` | index.js:185-191 | Position `i` of an array adds one piece: the element's text, or `null` when the element is `undefined`. |
| `Serialization.PieceAdded` | index.js:185-191 | After element `i` the loop's `res` is the lead text followed by the first `i + 1` pieces, joined. |
| `Serialization.EntryStep` | index.js:219-225 | Key `i` adds its entry when its value is written, and adds nothing when its value is `undefined`. |
| `Serialization.EntryWritten` | index.js:220-224 | After key `i`, `res` and `separator` are the body and the last separator of the entries written so far. |
| `Serialization.EntryAdded` | index.js:221-223 | A written entry is preceded by the current separator and makes the separator the join string. |
| `Serialization.EntrySkipped` | index.js:221 | An `undefined` value adds no entry. |
| `Serialization.ObjectAssembly` | index.js:226-230 | An object is wrapped on its own indented lines exactly when there is a spacer and the separator was set. |
| `Serialization.BraceFirstAssembly` | stable.js:117-135 | stable.js writes `{` and the indentation first and resets to `{` when no entry was written, which gives the same text. |
| `Serialization.BracketFirstAssembly` | stable.js:91-106 | stable.js writes `[` and the indentation first, which gives the same array text. |
| `Serialization.ArrayAssembly` | index.js:179-196 | The array text of index.js, assembled around `res`. |
| `Serialization.ChildWithoutFunction` | index.js:241-244 | One unfolding of the reference: without a function replacer, the value under a key is converted by `toJSON` alone. |
| `Serialization.ElementWithoutFunction` | index.js:355 | An array element is read by position and converted by `toJSON` alone. |
| `Serialization.PropertyWithoutFunction` | index.js:384 | An object property is read by name and converted by `toJSON` alone. |
| `Serialization.FlatEntry` | index.js:463 | Without a spacer an entry is `"key":value`, with no space. |
| `IndexEngine.GetCircularValueOption` | index.js:113-123 | Throws exactly when `circularValue` is present and neither a string nor null. A string is wrapped in quotes, null is kept, and the default is `"[Circular]"`. |
| `IndexEngine.GetBooleanOption` | index.js:125-143 | Throws exactly when the option is present and not a boolean. Otherwise it returns the option, defaulting to true. |
| `IndexEngine.Main` | index.js:145-148 | Succeeds exactly when all three getters succeed. The first failing getter, in the order circularValue, bigint, deterministic, gives the error. On success the configuration holds the three values. |
| `IndexEngine.MainDefaults` | index.js:113-148 | Without options the marker is `"[Circular]"`, bigints are written and keys are sorted. |
| `IndexEngine.StringifyTypedArray` | index.js:101-111 | The loop writes the index entries of the typed array, joined by the separator: a space after the colon unless the separator is a bare comma, and the empty string for an empty array. |
| `IndexEngine.SortedKeys` | index.js:215-217 | The key array sorted in place equals the reference sort of the keys. |
| `IndexEngine.StringifyPrimitive` | index.js:470-476 | Numbers are written in their `String` form when finite and as `null` otherwise; booleans as `true` or `false`; bigints in decimal when enabled and as `undefined` otherwise. |
| `IndexEngine.StringifySimple` | index.js:406-477 | Returns the reference text for the Simple mode. `toJSON` is called at most once, and the stack is left as on entry. |
| `IndexEngine.SimpleArray` | index.js:430-445 | An array is written with every position kept, and the stack is restored. |
| `IndexEngine.SimpleElements` | index.js:435-442 | The element loop writes the pieces joined by commas. |
| `IndexEngine.SimpleElement` | index.js:437-438 | An element's piece is its text, or `null`. |
| `IndexEngine.SimpleObject` | index.js:447-468 | An object is written as the reference text, with the typed-array index entries first and no separator after them. |
| `IndexEngine.SimpleObjectText` | index.js:447-468 | The Simple object text is the index prefix followed directly by the entries, inside braces. |
| `IndexEngine.SimpleEntries` | index.js:459-466 | The key loop writes the entries of the keys whose values are not `undefined`, comma-joined. |
| `IndexEngine.SimpleKey` | index.js:461-465 | One key adds the separator and its entry, or nothing. |
| `IndexEngine.StringifyIndent` | index.js:322-403 | Returns the reference text for the Indent mode. |
| `IndexEngine.IndentArray` | index.js:345-364 | An array is written over indented lines, ending on the original indentation. |
| `IndexEngine.IndentElements` | index.js:353-360 | The element loop at the grown indentation writes the pieces joined by `join`. |
| `IndexEngine.IndentElement` | index.js:355-356 | An element's piece is its text, or `null`. |
| `IndexEngine.IndentObject` | index.js:366-394 | An object is written over indented lines unless the separator stayed empty, in which case it is `{}`. |
| `IndexEngine.IndentEntries` | index.js:382-389 | The key loop leaves `res` and `separator` as the body and the last separator of the written entries. |
| `IndexEngine.IndentKey` | index.js:384-388 | One key adds the separator and `"key": value`, or nothing. |
| `IndexEngine.StringifyFullFn` | index.js:151-239 | Returns the reference text for the FullFn mode: `toJSON`, then the replacer called on the parent, then the switch. |
| `IndexEngine.FullFnValue` | index.js:159-238 | The switch on the replaced value returns the reference text of that value for the FullFn mode. |
| `IndexEngine.FullFnArray` | index.js:174-197 | An array under a function replacer. |
| `IndexEngine.FullFnElements` | index.js:184-191 | The element loop under a function replacer. |
| `IndexEngine.FullFnElement` | index.js:186-187 | One element under a function replacer, or `null`. |
| `IndexEngine.FullFnObject` | index.js:199-230 | An object under a function replacer, with the separator set after the typed-array index entries. |
| `IndexEngine.FullFnEntries` | index.js:218-225 | The key loop under a function replacer. |
| `IndexEngine.FullFnKey` | index.js:220-224 | One key under a function replacer. |
| `IndexEngine.StringifyFullArr` | index.js:241-319 | Returns the reference text for the FullArr mode. |
| `IndexEngine.FullArrArray` | index.js:261-284 | An array under a key list keeps every position. |
| `IndexEngine.FullArrElements` | index.js:271-278 | The element loop under a key list. |
| `IndexEngine.FullArrElement` | index.js:273-274 | One element under a key list. |
| `IndexEngine.FullArrObject` | index.js:286-310 | An object under a key list writes only the listed keys. |
| `IndexEngine.FullArrEntries` | index.js:296-305 | The loop over the key list skips entries that are neither strings nor numbers. |
| `IndexEngine.FullArrKey` | index.js:298-303 | One listed key adds its entry, or nothing. |
| `IndexEngine.SpacerOf` | index.js:481-486 | A negative count throws a RangeError. Otherwise a count gives that many spaces, a string is used as it is, and anything else gives no spacer. |
| `IndexEngine.Stringify` | index.js:479-500 | Dispatches in order: a function replacer to FullFn, an array to FullArr, a non-empty spacer to Indent, and otherwise Simple. Each starts from the `''` key with an empty stack. |
| `StableEngine.ReplacerOf` | stable.js:555-569 | Only a function or an array counts as a replacer, and it is kept as it is. |
| `StableEngine.IndentOf` | stable.js:543-553 | A count gives that many spaces (none when it is not positive), a string is used as it is, and anything else gives no indent. |
| `StableEngine.SpaceIndent` | stable.js:546-549 | The loop builds exactly the spaces `IndentOf` describes. |
| `StableEngine.SortedKeys` | stable.js:524-536 | stable.js always uses the insertion loop, without a threshold, and gets the reference sort. |
| `StableEngine.StringifyPrimitive` | stable.js:513-521 | Strings, numbers and booleans as in index.js. A bigint matches no case and is `undefined`. |
| `StableEngine.Stringifier.constructor` | stable.js:5 | `indentation` starts empty. |
| `StableEngine.Stringifier.Simple` | stable.js:453-522 | Returns the reference text for stable.js without options. The stack is restored. |
| `StableEngine.Stringifier.SimpleArray` | stable.js:476-493 | An array keeps every position. |
| `StableEngine.Stringifier.SimpleElements` | stable.js:483-489 | The element loop joins the pieces with commas. |
| `StableEngine.Stringifier.SimpleElement` | stable.js:484-485 | One element, or `null`. |
| `StableEngine.Stringifier.SimpleObject` | stable.js:495-512 | An object with its keys sorted. |
| `StableEngine.Stringifier.SimpleEntries` | stable.js:502-509 | The key loop. |
| `StableEngine.Stringifier.SimpleKey` | stable.js:504-508 | One key adds its entry, or nothing. |
| `StableEngine.Stringifier.ReplacerFn` | stable.js:386-450 | Returns the reference text under a function replacer without indentation. |
| `StableEngine.Stringifier.ReplacerFnArray` | stable.js:405-422 | An array under a function replacer. |
| `StableEngine.Stringifier.ReplacerFnElements` | stable.js:412-418 | The element loop. |
| `StableEngine.Stringifier.ReplacerFnElement` | stable.js:413-414 | One element, or `null`. |
| `StableEngine.Stringifier.ReplacerFnObject` | stable.js:424-441 | An object with its keys sorted. |
| `StableEngine.Stringifier.ReplacerFnEntries` | stable.js:431-438 | The key loop. |
| `StableEngine.Stringifier.ReplacerFnKey` | stable.js:433-437 | One key. |
| `StableEngine.Stringifier.ReplacerArr` | stable.js:321-384 | Returns the reference text under a key list without indentation. |
| `StableEngine.Stringifier.ReplacerArrArray` | stable.js:338-355 | An array keeps every position. |
| `StableEngine.Stringifier.ReplacerArrElements` | stable.js:345-351 | The element loop. |
| `StableEngine.Stringifier.ReplacerArrElement` | stable.js:346-347 | One element, or `null`. |
| `StableEngine.Stringifier.ReplacerArrObject` | stable.js:357-375 | An object writes only the listed keys, and `{}` for an empty list. |
| `StableEngine.Stringifier.ReplacerArrEntries` | stable.js:363-372 | The loop over the list skips entries that are neither strings nor numbers. |
| `StableEngine.Stringifier.ReplacerArrKey` | stable.js:364-371 | One listed key. |
| `StableEngine.Stringifier.Indent` | stable.js:232-318 | Returns the reference text with an indent. `indentation` is left as on entry. |
| `StableEngine.Stringifier.IndentArray` | stable.js:257-281 | An array grows `indentation` for its elements and restores it. |
| `StableEngine.Stringifier.IndentElements` | stable.js:267-273 | The element loop at the grown indentation. |
| `StableEngine.Stringifier.IndentElement` | stable.js:268-269 | One element, or `null`. |
| `StableEngine.Stringifier.IndentObject` | stable.js:283-309 | An object over indented lines, reset to `{}` when every entry is omitted. |
| `StableEngine.Stringifier.IndentEntries` | stable.js:293-300 | The key loop. |
| `StableEngine.Stringifier.IndentKey` | stable.js:295-299 | One key adds `"key": value`, or nothing. |
| `StableEngine.Stringifier.FullFn` | stable.js:66-147 | Returns the reference text under a function replacer with an indent. `indentation` is restored. |
| `StableEngine.Stringifier.FullFnArray` | stable.js:86-110 | An array. |
| `StableEngine.Stringifier.FullFnElements` | stable.js:96-102 | The element loop. |
| `StableEngine.Stringifier.FullFnElement` | stable.js:97-98 | One element, or `null`. |
| `StableEngine.Stringifier.FullFnObject` | stable.js:112-138 | An object, reset to `{}` when every entry is omitted. |
| `StableEngine.Stringifier.FullFnEntries` | stable.js:122-129 | The key loop. |
| `StableEngine.Stringifier.FullFnKey` | stable.js:124-128 | One key. |
| `StableEngine.Stringifier.FullArr` | stable.js:149-229 | Returns the reference text under a key list with an indent. `indentation` is restored. |
| `StableEngine.Stringifier.FullArrArray` | stable.js:167-191 | An array keeps every position. |
| `StableEngine.Stringifier.FullArrElements` | stable.js:177-183 | The element loop. |
| `StableEngine.Stringifier.FullArrElement` | stable.js:178-179 | One element, or `null`. |
| `StableEngine.Stringifier.FullArrObject` | stable.js:193-220 | An object writes only the listed keys. |
| `StableEngine.Stringifier.FullArrEntries` | stable.js:202-211 | The loop over the list. |
| `StableEngine.Stringifier.FullArrKey` | stable.js:203-210 | One listed key. |
| `StableEngine.Stringifier.Stringify` | stable.js:538-573 | Resets `indentation`. Dispatches a non-empty indent to FullFn, FullArr or Indent, and otherwise to ReplacerFn, ReplacerArr or Simple. Returns the reference text for the matching mode. |
| `StableEngine.Stringifier.StringifyIndented` | stable.js:553-562 | With a non-empty indent, a function replacer goes to FullFn, a list to FullArr and anything else to Indent. Returns the reference text for the matching mode. |
| `StableEngine.Stringifier.StringifyCompact` | stable.js:563-570 | With no indent, a function replacer goes to ReplacerFn, a list to ReplacerArr and anything else to Simple. Returns the reference text for the matching mode. |
| `Properties.CycleMarked` | index.js:166-168 | One unfolding of the reference on a reference value: an ancestor is written as the circular marker, any other object as its own container text. |
| `Properties.ArrayKeepsPositions` | index.js:185-191 | An array keeps all its positions. An element serializing to `undefined` becomes `null`, and any other element its text. |
| `Properties.RepeatedReferenceExpanded` | test.js:122-129 | The same object at two positions of an array, when it is not an ancestor, is written in full at both. |
| `Properties.EntriesKept` | index.js:219-225 | The key loop equals a filter: the entries of exactly those keys whose values are not `undefined`, in key order. |
| `Properties.KeptEmpty` | index.js:221 | The filter keeps nothing exactly when every value is `undefined`. |
| `Properties.KeptCount` | index.js:221-223 | The filter writes one entry per value that is not `undefined`. |
| `Properties.KeptFromKeys` | index.js:222 | Every entry written is the entry of one of the keys, with that key's value. |
| `Properties.EntriesEmpty` | index.js:219-225 | An object's loop writes no entry exactly when all its values serialize to `undefined`. |
| `Properties.AllOmittedObject` | index.js:390-392 | A plain object (not a typed array) whose values are all `undefined` is written `{}`, with no newline, under any spacer and in every mode without a key list. For typed arrays see the second finding. |
| `Properties.AllOmittedUnderList` | stable.js:212-216 | The same under a key list. |
| `Properties.StableKeysSorted` | stable.js:112 | stable.js writes an object's entries in sorted key order: the key sequence it uses is sorted and a permutation of the object's keys. |
| `Properties.IndexKeyOrder` | index.js:210-217 | For a typed array, the index entries come first in index order. The remaining keys are sorted (and a permutation) when `deterministic`, and kept in their own order otherwise. |
| `Properties.ChildIdentity` | stable.js:393 | A replacer that returns every value unchanged writes the same text as no replacer, at every key. |
| `Properties.StableIdentityReplacer` | stable.js:555-572 | In stable.js, stringify with an identity replacer equals stringify without one, for every spacer. |
| `Properties.IndexIdentityReplacer` | index.js:479-500 | In index.js the same holds for every non-empty spacer. |
| `Properties.SpaceAgreement` | index.js:481-486 | Both engines derive the same spacer from the same `space` argument, except that index.js throws on a negative count where stable.js uses no indent. |
| `Properties.StableBigIntTypedArray` | stable.js:495-521 | stable.js reads the element of `new BigInt64Array([1n])` as a bigint, which matches no case, so it writes `{}`. |
| `Properties.IndexBigIntTypedArray` | index.js:101-111 | index.js writes the same typed array through `stringifyTypedArray` as `{"0":1}`, whatever the `bigint` option. |
| `Properties.CircularReferenceToRoot` | test.js:5-14 | index.js with the default options writes `{name, circle: fixture}` as `{"circle":"[Circular]","name":…}`: keys sorted, cycle marked. |
| `Properties.StableCircularReferenceToRoot` | stable.js:81-85 | stable.js writes the same text for the same fixture. |
| `Properties.SepNeverDropsSeparator` | index.js:452-455 | As written, the Simple serializer's object text is one separator shorter than the index entries and the other entries joined, so the two differ. |
| `Properties.SimpleTypedArrayText` | index.js:451-465 | A one-element typed array with one extra property is written `{"0":1"a":2}`. |
| `Properties.SepAlwaysLeadingSeparator` | index.js:374-378 | As written, an empty typed array with entries leaves a leading separator before the first entry. |
| `Properties.IndentEmptyTypedArrayOmitted` | index.js:370-393 | An empty typed array whose one extra property is `undefined`, indented by two spaces, is written `{`, newline, two spaces, newline, `}` instead of `{}`. |
| `Properties.IntendedEmptyTypedArrayOmitted` | index.js:374-378 | With the separator set only after a non-empty index prefix, the same typed array is written `{}`. |
| `Properties.IndentEmptyTypedArrayText` | index.js:366-394 | An empty typed array with one extra property, indented by two spaces, is written with a stray `,` line. |
| `Properties.SepIfAnyJoins` | index.js:210-214 | With the separator set only after a non-empty index prefix, the object body is exactly the index entries and the other entries, joined. |
| `Properties.IntendedTypedLayout` | index.js:451-465 | Under that policy, a flat typed array's text is all its entries joined by commas, inside braces. |
| `Properties.IntendedTypedArrayText` | index.js:451-465 | Under that policy, the example writes `{"0":1,"a":2}`. |

## Left out

- Number formatting: `String(value)` and `isFinite` are floating point. A number is abstracted to whether it is finite and to its text. Elements of typed arrays (numbers, or bigints in `BigInt64Array` and `BigUint64Array`) are written from that text, as `stringifyTypedArray` does, `NaN` included. A typed array's elements are not required to be all of one kind.
- Strings are sequences of Unicode scalar values (`char`). Key order compares their UTF-16 encodings (`KeyOrder.Units`), as JS does, so keys mixing characters above U+FFFF with U+E000 to U+FFFF sort as in the source. A lone surrogate, which JS allows in a string and which `strEscape` passes through unchanged, cannot be represented. The decoder used for the round trip rejects an escaped lone surrogate, which `Escape` never produces.
- `isTypedArray`, which reflects over a prototype getter, becomes the `Typed` variant of a container.
- `Object.keys` is the key list stored in the container. The prototype chain is not modelled: a property that is not its own reads as `undefined`.
- `toJSON` and the replacer are pure functions supplied with the heap. Their side effects, such as mutating the input during serialization, are not modelled, nor is their `this`. The replacer's receiver is passed as a `Parent` value.
- A reference to an id missing from the heap is written as `undefined`, so the model is total. JS has no such value.
- The regex fast path and the 5000 and 100 thresholds of `strEscape` only select among implementations. All of them are specified by the one function `Escape`, and `StrEscape` models the loop.
- The `arguments.length > 1` test becomes the argument variants `OtherReplacer` and `OtherSpace`. A call with one argument is a call with both.
- A non-integer space count is not modelled: `SpaceCount` holds an integer. `' '.repeat` is modelled for integers, including its RangeError on negative counts.
- Exceptions thrown by `toJSON` or the replacer, and stack overflow on deep input, are not modelled.
- The `maximumDepth` and `maximumBreadth` options, a throw-on-circular mode and surrogate escaping are declared in index.d.ts or appear in snapshots. No code implements them, so they are not part of this model.
- benchmark.js, compare.js, depth.js and index.d.ts are not part of this model. test.js is not modelled as code; two of its tests are stated as lemmas (`Properties.CircularReferenceToRoot`, `Properties.RepeatedReferenceExpanded`).
- `StableEngine.Stringifier.Indent` and the other indented stable.js serializers require a non-empty indent. That is how `stringify` calls them (stable.js:554).

## Findings

| source | as written | input that shows it | evidently intended | confidence | as-written member | corrected member |
|---|---|---|---|---|---|---|
| index.js:452-455 | `stringifySimple` writes a typed array's index entries but never sets `separator`, so the first remaining entry is glued to them. | `Object.assign(new Uint8Array([1]), {a: 2})` gives `{"0":1"a":2}`. | `{"0":1,"a":2}`: a separator after the index entries when there are any. | not executed | `Properties.SimpleTypedArrayText` | `Properties.IntendedTypedArrayText` |
| index.js:374-378 | `stringifyIndent` and `stringifyFullFn` (index.js:210-214) set `separator` after the index entries even when the typed array is empty, so the first entry is preceded by a stray separator, and an object with no entry written is still wrapped on lines of its own (index.js:390-392). | `Object.assign(new Uint8Array(0), {a: 2})` with space 2 gives `{` newline `  ,` newline `  "a": 2` newline `}`; `Object.assign(new Uint8Array(0), {a: undefined})` with space 2 gives `{` newline `  ` newline `}` instead of `{}`. | `{` newline `  "a": 2` newline `}` and `{}`: the separator only after a non-empty index prefix. | not executed | `Properties.IndentEmptyTypedArrayText` | `Properties.SepIfAnyJoins` |

The engines themselves are modelled as written: the Simple mode uses the policy
`SepNever` and the Indent and FullFn modes use `SepAlways`. The general statements of the
two defects are `Properties.SepNeverDropsSeparator` and
`Properties.SepAlwaysLeadingSeparator`. The all-omitted case of the second row is `Properties.IndentEmptyTypedArrayOmitted`, and its corrected half is `Properties.IntendedEmptyTypedArrayOmitted`. The corrected policy `SepIfAny` is proved, in
`Properties.SepIfAnyJoins` and `Properties.IntendedTypedLayout`, to write the index
entries and the other entries as one joined list.

The same difference makes `Properties.IndexIdentityReplacer` need a non-empty spacer.
Without one, index.js sends an identity replacer to `stringifyFullFn`, which sets the
separator, while no replacer goes to `stringifySimple`, which does not. So the two texts
differ on a typed array with extra properties.
