/** Key ordering: JavaScript's `<` on strings and the `insertSort` both engines use to
    order object keys (a stable insertion sort shifting larger keys one place right). */
module KeyOrder {

  /** The UTF-16 code units of one character: the character itself below U+10000,
      otherwise its surrogate pair. */
  function CodeUnits(c: char): (r: seq<int>)
    ensures 1 <= |r| <= 2
    ensures c as int < 0x1_0000 <==> |r| == 1
    ensures |r| == 2 ==> 0xD800 <= r[0] < 0xDC00 && 0xDC00 <= r[1] < 0xE000
    ensures |r| == 1 ==> r[0] < 0xD800 || 0xE000 <= r[0]
  {
    var v := c as int;
    if v < 0x1_0000 then [v]
    else [0xD800 + (v - 0x1_0000) / 0x400, 0xDC00 + (v - 0x1_0000) % 0x400]
  }

  /** A JS string's code units: the UTF-16 encoding of its characters, in order. */
  function Units(s: string): seq<int> {
    if |s| == 0 then [] else CodeUnits(s[0]) + Units(s[1..])
  }

  /** Lexicographic order on code-unit sequences, a proper prefix being smaller: how JS
      compares two strings with `<` or `>`. */
  predicate UnitsBelow(a: seq<int>, b: seq<int>)
    decreases |a|
  {
    if |a| == 0 then |b| > 0
    else if |b| == 0 then false
    else a[0] < b[0] || (a[0] == b[0] && UnitsBelow(a[1..], b[1..]))
  }

  /** One character's code units before another's: the first units decide, and a tie
      is possible only between two surrogate pairs, which the second units then decide. */
  predicate CharBelow(c: char, d: char) {
    var u, w := CodeUnits(c), CodeUnits(d);
    u[0] < w[0] || (u[0] == w[0] && |u| == 2 && |w| == 2 && u[1] < w[1])
  }

  /** `a < b` on JS strings, character by character: the first differing characters
      decide by their code units (`BelowIsUnitOrder`). A character above U+FFFF
      compares by its high surrogate, so it sorts below U+E000 to U+FFFF although its
      code point is larger; a proper prefix is smaller. */
  predicate Below(a: string, b: string)
    decreases |a|
  {
    if |a| == 0 then |b| > 0
    else if |b| == 0 then false
    else CharBelow(a[0], b[0]) || (a[0] == b[0] && Below(a[1..], b[1..]))
  }

  /** Different characters have different code units. */
  lemma CodeUnitsInjective(c: char, d: char)
    requires CodeUnits(c) == CodeUnits(d)
    ensures c == d
  {
    var v, w := c as int, d as int;
    if v >= 0x1_0000 {
      var q, r := (v - 0x1_0000) / 0x400, (v - 0x1_0000) % 0x400;
      var q', r' := (w - 0x1_0000) / 0x400, (w - 0x1_0000) % 0x400;
      assert q == q' && r == r';
      assert v == 0x1_0000 + q * 0x400 + r && w == 0x1_0000 + q' * 0x400 + r';
    }
  }

  /** Two different characters are ordered one way or the other. */
  lemma CharBelowTotal(c: char, d: char)
    ensures c == d || CharBelow(c, d) || CharBelow(d, c)
  {
    var u, w := CodeUnits(c), CodeUnits(d);
    if u[0] == w[0] && (|u| == 1 || u[1] == w[1]) {
      assert u == w;
      CodeUnitsInjective(c, d);
    }
  }

  lemma {:induction false} BelowIrreflexive(a: string)
    ensures !Below(a, a)
    decreases |a|
  {
    if |a| > 0 {
      BelowIrreflexive(a[1..]);
    }
  }

  lemma {:induction false} BelowTransitive(a: string, b: string, c: string)
    requires Below(a, b) && Below(b, c)
    ensures Below(a, c)
    decreases |a|
  {
    if |a| > 0 && a[0] == b[0] && b[0] == c[0] {
      BelowTransitive(a[1..], b[1..], c[1..]);
    }
  }

  /** Two different strings are always ordered one way or the other. */
  lemma {:induction false} BelowTotal(a: string, b: string)
    ensures a == b || Below(a, b) || Below(b, a)
    decreases |a|
  {
    if |a| > 0 && |b| > 0 {
      CharBelowTotal(a[0], b[0]);
      if a[0] == b[0] {
        BelowTotal(a[1..], b[1..]);
        if a[1..] == b[1..] {
          assert a == [a[0]] + a[1..] && b == [b[0]] + b[1..];
        }
      }
    }
  }

  /** Comparing character by character is comparing the whole UTF-16 encodings. */
  lemma {:induction false} BelowIsUnitOrder(a: string, b: string)
    ensures Below(a, b) <==> UnitsBelow(Units(a), Units(b))
    decreases |a|
  {
    if |a| > 0 && |b| > 0 {
      var u, w := CodeUnits(a[0]), CodeUnits(b[0]);
      assert Units(a) == u + Units(a[1..]) && Units(b) == w + Units(b[1..]);
      BelowIsUnitOrder(a[1..], b[1..]);
      if a[0] == b[0] {
        CommonUnits(u, Units(a[1..]), Units(b[1..]));
      } else {
        DifferentUnits(a[0], b[0], Units(a[1..]), Units(b[1..]));
      }
    }
  }

  /** A shared prefix does not change the order. */
  lemma {:induction false} CommonUnits(u: seq<int>, x: seq<int>, y: seq<int>)
    ensures UnitsBelow(u + x, u + y) <==> UnitsBelow(x, y)
    decreases |u|
  {
    if |u| > 0 {
      assert (u + x)[0] == u[0] == (u + y)[0];
      assert (u + x)[1..] == u[1..] + x && (u + y)[1..] == u[1..] + y;
      CommonUnits(u[1..], x, y);
    } else {
      assert u + x == x && u + y == y;
    }
  }

  /** When the first characters differ, their code units decide whatever follows. */
  lemma DifferentUnits(c: char, d: char, x: seq<int>, y: seq<int>)
    requires c != d
    ensures UnitsBelow(CodeUnits(c) + x, CodeUnits(d) + y) <==> CharBelow(c, d)
  {
    var u, w := CodeUnits(c), CodeUnits(d);
    if u == w {
      CodeUnitsInjective(c, d);
    } else if u[0] == w[0] {
      assert (u + x)[1..] == u[1..] + x && (w + y)[1..] == w[1..] + y;
    }
  }

  /** `"\u{1F600}" < "\u{FF01}"` in JS: the emoji's high surrogate 0xD83D is below
      0xFF01, though its code point is above it. */
  lemma SurrogateOrder()
    ensures Below("\U{1F600}", "\U{FF01}") && !Below("\U{FF01}", "\U{1F600}")
  {
    assert CodeUnits('\U{1F600}') == [0xD83D, 0xDE00];
    assert CodeUnits('\U{FF01}') == [0xFF01];
  }

  lemma BelowAsymmetric(a: string, b: string)
    requires Below(a, b)
    ensures !Below(b, a)
  {
    if Below(b, a) {
      BelowTransitive(a, b, a);
      BelowIrreflexive(a);
    }
  }

  /** `a <= b` and `b <= c` give `a <= c`. */
  lemma NotBelowTransitive(a: string, b: string, c: string)
    requires !Below(b, a) && !Below(c, b)
    ensures !Below(c, a)
  {
    BelowTotal(a, b);
    BelowTotal(b, c);
    if Below(c, a) {
      if a != b {
        BelowTransitive(c, a, b);
      }
      if b != c {
        BelowTransitive(b, c, a);
      }
      BelowIrreflexive(a);
    }
  }

  /** Ascending: no key is followed by a smaller one. */
  predicate Sorted(s: seq<string>) {
    forall i, j :: 0 <= i < j < |s| ==> !Below(s[j], s[i])
  }

  /** One pass of the inner loop: `x` moves left past every larger key and stops behind
      the first key that is not larger, so equal keys keep their order. */
  function Insert(s: seq<string>, x: string): (r: seq<string>)
    ensures |r| == |s| + 1
  {
    if |s| == 0 || !Below(x, s[|s| - 1]) then s + [x]
    else Insert(s[..|s| - 1], x) + [s[|s| - 1]]
  }

  /** What insertion sort makes of `s`: its elements inserted one by one, left to right. */
  function SortSeq(s: seq<string>): (r: seq<string>)
    ensures |r| == |s|
  {
    if |s| == 0 then [] else Insert(SortSeq(s[..|s| - 1]), s[|s| - 1])
  }

  lemma {:induction false} InsertPermutes(s: seq<string>, x: string)
    ensures multiset(Insert(s, x)) == multiset(s) + multiset{x}
  {
    if |s| > 0 && Below(x, s[|s| - 1]) {
      InsertPermutes(s[..|s| - 1], x);
      assert s == s[..|s| - 1] + [s[|s| - 1]];
    }
  }

  lemma {:induction false} InsertSorted(s: seq<string>, x: string)
    requires Sorted(s)
    ensures Sorted(Insert(s, x))
  {
    if |s| == 0 {
    } else if !Below(x, s[|s| - 1]) {
      var r := s + [x];
      forall i, j | 0 <= i < j < |r| ensures !Below(r[j], r[i]) {
        if j == |s| && i < |s| - 1 {
          NotBelowTransitive(s[i], s[|s| - 1], x);
        }
      }
    } else {
      var init, last := s[..|s| - 1], s[|s| - 1];
      InsertSorted(init, x);
      InsertPermutes(init, x);
      var r := Insert(init, x);
      forall i | 0 <= i < |r| ensures !Below(last, r[i]) {
        assert r[i] in multiset(r);
        if r[i] == x {
          BelowAsymmetric(x, last);
        } else {
          assert r[i] in multiset(init);
          var k :| 0 <= k < |init| && init[k] == r[i];
          assert s[k] == r[i];
        }
      }
      var t := r + [last];
      forall i, j | 0 <= i < j < |t| ensures !Below(t[j], t[i]) {
        if j < |r| {
          assert t[j] == r[j] && t[i] == r[i];
        }
      }
    }
  }

  /** `insertSort` yields an ascending rearrangement of its input. */
  lemma {:induction false} SortSeqSortedPermutation(s: seq<string>)
    ensures Sorted(SortSeq(s))
    ensures multiset(SortSeq(s)) == multiset(s)
  {
    if |s| > 0 {
      SortSeqSortedPermutation(s[..|s| - 1]);
      InsertSorted(SortSeq(s[..|s| - 1]), s[|s| - 1]);
      InsertPermutes(SortSeq(s[..|s| - 1]), s[|s| - 1]);
      assert s == s[..|s| - 1] + [s[|s| - 1]];
    }
  }

  lemma SortedTail(s: seq<string>)
    requires |s| > 0 && Sorted(s)
    ensures Sorted(s[1..])
  {
    forall i, j | 0 <= i < j < |s[1..]| ensures !Below(s[1..][j], s[1..][i]) {
      assert s[1..][j] == s[j + 1] && s[1..][i] == s[i + 1];
    }
  }

  /** Two ascending arrangements of the same keys start with the same key. */
  lemma SortedHeads(a: seq<string>, b: seq<string>)
    requires Sorted(a) && Sorted(b) && multiset(a) == multiset(b) && |a| > 0
    ensures |b| > 0 && a[0] == b[0]
  {
    assert a[0] in multiset(b);
    var i :| 0 <= i < |b| && b[i] == a[0];
    assert b[0] in multiset(a);
    var j :| 0 <= j < |a| && a[j] == b[0];
    if a[0] != b[0] {
      BelowTotal(a[0], b[0]);
      assert false;
    }
  }

  lemma MultisetTail(a: seq<string>)
    requires |a| > 0
    ensures multiset(a[1..]) == multiset(a) - multiset{a[0]}
  {
    assert a == [a[0]] + a[1..];
  }

  /** There is only one ascending arrangement of a collection of keys, so any sort by
      UTF-16 code-unit order, stable or not, agrees with `insertSort`. */
  lemma {:induction false} SortedUnique(a: seq<string>, b: seq<string>)
    requires Sorted(a) && Sorted(b) && multiset(a) == multiset(b)
    ensures a == b
    decreases |a|
  {
    if |a| > 0 {
      SortedHeads(a, b);
      MultisetTail(a);
      MultisetTail(b);
      SortedTail(a);
      SortedTail(b);
      SortedUnique(a[1..], b[1..]);
      assert a == [a[0]] + a[1..] && b == [b[0]] + b[1..];
    } else {
      assert |multiset(b)| == 0;
    }
  }

  /** Where the inner loop stops: behind the last key that is not larger than `x`, with
      only larger keys after it. */
  lemma {:induction false} InsertAt(t: seq<string>, x: string, p: nat)
    requires p <= |t|
    requires forall k :: p <= k < |t| ==> Below(x, t[k])
    requires p == 0 || !Below(x, t[p - 1])
    ensures Insert(t, x) == t[..p] + [x] + t[p..]
    decreases |t|
  {
    if |t| > p {
      var init := t[..|t| - 1];
      assert init[..p] == t[..p];
      if p > 0 {
        assert init[p - 1] == t[p - 1];
      }
      InsertAt(init, x, p);
      assert t[p..] == init[p..] + [t[|t| - 1]];
    } else {
      assert t[..p] == t && t[p..] == [];
    }
  }

  /** The end of one outer pass: with `x = s[i]` written at the stopping point, the
      first `i + 1` slots hold `SortSeq(s[..i + 1])`. */
  lemma PlacedInOrder(a: seq<string>, s: seq<string>, t: seq<string>, i: nat, p: nat)
    requires p <= i < |a| == |s| && |t| == i && t == SortSeq(s[..i])
    requires forall k :: 0 <= k < p ==> a[k] == t[k]
    requires a[p] == s[i]
    requires forall k :: p < k <= i ==> a[k] == t[k - 1]
    requires forall k :: p <= k < i ==> Below(s[i], t[k])
    requires p == 0 || !Below(s[i], t[p - 1])
    ensures a[..i + 1] == SortSeq(s[..i + 1])
  {
    InsertAt(t, s[i], p);
    ShiftedPrefix(a, t, s[i], i, p);
    SortSeqStep(s, i);
  }

  /** After the shift, the first `i + 1` slots hold the sorted prefix with `x` at `p`. */
  lemma ShiftedPrefix(a: seq<string>, t: seq<string>, x: string, i: nat, p: nat)
    requires p <= i < |a| && |t| == i
    requires forall k :: 0 <= k < p ==> a[k] == t[k]
    requires a[p] == x
    requires forall k :: p < k <= i ==> a[k] == t[k - 1]
    ensures a[..i + 1] == t[..p] + [x] + t[p..]
  {
    var u := t[..p] + [x] + t[p..];
    forall k | 0 <= k < i + 1 ensures a[k] == u[k] {
      if k < p {
        assert u[k] == t[k];
      } else if k > p {
        assert u[k] == t[k - 1];
      }
    }
  }

  /** Sorting one more key of `s` inserts it into the sorted prefix. */
  lemma SortSeqStep(s: seq<string>, i: nat)
    requires i < |s|
    ensures SortSeq(s[..i + 1]) == Insert(SortSeq(s[..i]), s[i])
  {
    assert s[..i + 1][..i] == s[..i];
  }

  /** The shifting loop of `insertSort`, in place: after it, the array holds `SortSeq` of
      its old contents. */
  method InsertionSort(a: array<string>)
    modifies a
    ensures a[..] == SortSeq(old(a[..]))
  {
    ghost var S := a[..];
    var i := 1;
    while i < a.Length
      invariant 1 <= i && (i <= a.Length || a.Length == 0)
      invariant a.Length > 0 ==> a[..i] == SortSeq(S[..i])
      invariant forall k :: i <= k < a.Length ==> a[k] == S[k]
    {
      ghost var T := a[..i];
      var current := a[i];
      var position := ShiftLarger(a, i);
      a[position] := current;
      PlacedInOrder(a[..], S, T, i, position);
      i := i + 1;
    }
    if a.Length > 0 {
      assert a[..] == a[..a.Length] && S == S[..a.Length];
    } else {
      assert a[..] == [] == S;
    }
  }

  /** The inner loop of `insertSort` for the key at `i`: every larger key of the sorted
      prefix moves one place right; the result is the slot left free for the key. */
  method ShiftLarger(a: array<string>, i: nat) returns (position: nat)
    requires i < a.Length
    modifies a
    ensures position <= i
    ensures forall k :: 0 <= k < position ==> a[k] == old(a[k])
    ensures forall k :: position < k <= i ==> a[k] == old(a[k - 1])
    ensures forall k :: i < k < a.Length ==> a[k] == old(a[k])
    ensures forall k :: position <= k < i ==> Below(old(a[i]), old(a[k]))
    ensures position == 0 || !Below(old(a[i]), a[position - 1])
  {
    ghost var T := a[..];
    var current := a[i];
    position := i;
    while position != 0 && Below(current, a[position - 1])
      invariant 0 <= position <= i
      invariant forall k {:trigger a[k]} :: 0 <= k < position ==> a[k] == T[k]
      invariant forall k {:trigger a[k]} :: position < k <= i ==> a[k] == T[k - 1]
      invariant forall k {:trigger a[k]} :: i < k < a.Length ==> a[k] == T[k]
      invariant forall k :: position <= k < i ==> Below(current, T[k])
    {
      a[position] := a[position - 1];
      position := position - 1;
    }
  }

  /** `array.sort()` for more than 200 keys: the engine's own sort by UTF-16 code-unit order,
      stated here by its outcome. */
  method NativeSort(a: array<string>)
    modifies a
    ensures a[..] == SortSeq(old(a[..]))
  {
    var sorted := SortSeq(a[..]);
    forall k | 0 <= k < a.Length {
      a[k] := sorted[k];
    }
  }

  /** index.js `insertSort`: the shifting loop up to 200 keys, the native sort above. */
  method InsertSort(a: array<string>)
    modifies a
    ensures a[..] == SortSeq(old(a[..]))
  {
    if a.Length > 200 {
      NativeSort(a);
    } else {
      InsertionSort(a);
    }
  }
}
