/** The `stack` array both engines thread through their serializers: the objects whose
    serialization is in progress, outermost first. */
module Ancestors {
  import opened Values

  class Stack {
    var items: seq<Id>

    /** `[]`, as passed by every top-level call. */
    constructor()
      ensures items == []
    {
      items := [];
    }

    /** `stack.push(value)`. */
    method Push(id: Id)
      modifies this
      ensures items == old(items) + [id]
    {
      items := items + [id];
    }

    /** `stack.pop()`; popping an empty array leaves it empty. */
    method Pop()
      modifies this
      ensures |old(items)| > 0 ==> items == old(items)[..|old(items)| - 1]
      ensures |old(items)| == 0 ==> items == []
    {
      if |items| > 0 {
        items := items[..|items| - 1];
      }
    }

    /** `stack.indexOf(value)` in index.js, and the `stack[i] === value` scan of stable.js:
        the first position holding `id`, or -1 when `id` is not an ancestor. */
    method IndexOf(id: Id) returns (index: int)
      ensures -1 <= index < |items|
      ensures index == -1 <==> id !in items
      ensures index >= 0 ==> items[index] == id && forall j :: 0 <= j < index ==> items[j] != id
    {
      var i := 0;
      while i < |items|
        invariant 0 <= i <= |items|
        invariant forall j :: 0 <= j < i ==> items[j] != id
      {
        if items[i] == id {
          return i;
        }
        i := i + 1;
      }
      return -1;
    }
  }
}
