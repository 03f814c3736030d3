/** JSON string escaping (`strEscape` and its `meta` table), shared word for word by
    index.js and stable.js, with a decoder of section 7 of RFC 8259 as its inverse. */
module JsonString {
  import opened Values

  /** A character that may not stand raw inside a JSON string: a control character
      (U+0000 to U+001F), the quotation mark or the reverse solidus. */
  predicate Special(c: char) {
    c < ' ' || c == '"' || c == '\\'
  }

  /** `strEscapeSequencesRegExp.test(s)`. */
  predicate HasSpecial(s: string) {
    exists i :: 0 <= i < |s| && Special(s[i])
  }

  /** The first 32 entries of the `meta` table: the escapes of the control characters. */
  const ControlEscapes: seq<string> := [
    "\\u0000", "\\u0001", "\\u0002", "\\u0003", "\\u0004", "\\u0005", "\\u0006", "\\u0007",
    "\\b", "\\t", "\\n", "\\u000b", "\\f", "\\r", "\\u000e", "\\u000f",
    "\\u0010", "\\u0011", "\\u0012", "\\u0013", "\\u0014", "\\u0015", "\\u0016", "\\u0017",
    "\\u0018", "\\u0019", "\\u001a", "\\u001b", "\\u001c", "\\u001d", "\\u001e", "\\u001f"
  ]

  /** The `meta` table, indexed by character code: the control escapes, then `\"` at 34 and
      `\\` at 92; the entries in between are empty strings that are never read. */
  const Meta: seq<string> :=
    ControlEscapes + ["", "", "\\\""] +
    [ "", "", "", "", "", "", "", "", "", "",
      "", "", "", "", "", "", "", "", "", "",
      "", "", "", "", "", "", "", "", "", "",
      "", "", "", "", "", "", "", "", "", "",
      "", "", "", "", "", "", "", "", "", "",
      "", "", "", "", "", "", "" ] +
    ["\\\\"]

  /** What one character becomes in the output: its RFC 8259 escape when special, itself
      otherwise. `MetaFollowsRfc8259` shows that the `meta` table holds exactly these escapes. */
  function EscapeUnit(c: char): string {
    if Special(c) then RfcEscape(c) else [c]
  }

  /** The escaped form of `s`: each character replaced by `EscapeUnit`, in order. */
  function Escape(s: string): string {
    if s == [] then [] else EscapeUnit(s[0]) + Escape(s[1..])
  }

  /** A JSON string literal: `"${strEscape(s)}"`. */
  function Quote(s: string): string {
    "\"" + Escape(s) + "\""
  }

  function HexDigit(d: nat): (c: char)
    requires d < 16
  {
    if d < 10 then ('0' as int + d) as char else ('a' as int + d - 10) as char
  }

  /** The escape section 7 of RFC 8259 prescribes: the two-character form for the seven
      units that have one, `\u00` and two lowercase hex digits for every other control. */
  function RfcEscape(c: char): string
    requires Special(c)
  {
    var n := c as int;
    if n == 8 then "\\b"
    else if n == 9 then "\\t"
    else if n == 10 then "\\n"
    else if n == 12 then "\\f"
    else if n == 13 then "\\r"
    else if n == 34 then "\\\""
    else if n == 92 then "\\\\"
    else "\\u00" + [HexDigit(n / 16), HexDigit(n % 16)]
  }

  /** Every entry of `meta` that is ever read is the escape RFC 8259 prescribes. */
  lemma MetaFollowsRfc8259(c: char)
    requires Special(c)
    ensures Meta[c as int] == RfcEscape(c)
  {
    var n := c as int;
    if n == 0 { }
    else if n == 1 { }
    else if n == 2 { }
    else if n == 3 { }
    else if n == 4 { }
    else if n == 5 { }
    else if n == 6 { }
    else if n == 7 { }
    else if n == 8 { }
    else if n == 9 { }
    else if n == 10 { }
    else if n == 11 { }
    else if n == 12 { }
    else if n == 13 { }
    else if n == 14 { }
    else if n == 15 { }
    else if n == 16 { }
    else if n == 17 { }
    else if n == 18 { }
    else if n == 19 { }
    else if n == 20 { }
    else if n == 21 { }
    else if n == 22 { }
    else if n == 23 { }
    else if n == 24 { }
    else if n == 25 { }
    else if n == 26 { }
    else if n == 27 { }
    else if n == 28 { }
    else if n == 29 { }
    else if n == 30 { }
    else if n == 31 { }
    else if n == 34 { }
    else if n == 92 { }
  }

  lemma {:induction false} EscapeAppend(a: string, b: string)
    ensures Escape(a + b) == Escape(a) + Escape(b)
  {
    if a != [] {
      assert (a + b)[1..] == a[1..] + b;
      EscapeAppend(a[1..], b);
    } else {
      assert a + b == b;
    }
  }

  /** Escaping never shortens a string, and lengthens every string that needs it. */
  lemma {:induction false} EscapeLength(s: string)
    ensures |Escape(s)| >= |s|
    ensures HasSpecial(s) ==> |Escape(s)| > |s|
  {
    if s != [] {
      EscapeLength(s[1..]);
      if !Special(s[0]) && HasSpecial(s) {
        var i :| 0 <= i < |s| && Special(s[i]);
        assert Special(s[1..][i - 1]);
      }
    }
  }

  /** `strEscape` returns its input unchanged exactly when no character needs escaping. */
  lemma {:induction false} EscapeUnchanged(s: string)
    ensures Escape(s) == s <==> !HasSpecial(s)
  {
    if !HasSpecial(s) {
      EscapeIdentity(s);
    } else {
      EscapeLength(s);
    }
  }

  lemma {:induction false} EscapeIdentity(s: string)
    requires !HasSpecial(s)
    ensures Escape(s) == s
  {
    if s != [] {
      assert !Special(s[0]);
      forall i | 0 <= i < |s[1..]| ensures !Special(s[1..][i]) {
        assert s[1..][i] == s[i + 1];
      }
      EscapeIdentity(s[1..]);
    }
  }

  /** `strEscape`: a short string without special units is returned as it is; a string
      longer than 100 units goes through the global regular-expression replacement with
      `escapeFn`, which is `EscapeUnit` on every match; the rest is the manual loop that
      copies the runs between special units and appends `meta[point]` for each special
      one. All three paths compute `Escape`. */
  method StrEscape(str: string) returns (r: string)
    ensures r == Escape(str)
  {
    if |str| < 5000 && !HasSpecial(str) {
      EscapeIdentity(str);
      return str;
    }
    if |str| > 100 {
      return Escape(str);
    }
    ghost var w :| 0 <= w < |str| && Special(str[w]);
    var result := "";
    var last := 0;
    var i := 0;
    while i < |str|
      invariant 0 <= last <= i <= |str|
      invariant result == Escape(str[..last])
      invariant forall j :: last <= j < i ==> !Special(str[j])
      invariant w < i ==> 0 < last
    {
      var point := str[i];
      if point == '"' || point == '\\' || point < ' ' {
        var esc := MetaEntry(point);
        RunThenSpecial(str, last, i);
        if last == i {
          result := result + esc;
        } else {
          result := result + str[last..i] + esc;
        }
        last := i + 1;
      }
      i := i + 1;
    }
    if last == 0 {
      // Dead in the source: a string of at most 100 units reaches the loop only when
      // it holds a special unit, so the loop has moved `last`.
      assert false;
      result := str;
    } else if last != i {
      TailRun(str, last);
      result := result + str[last..];
    } else {
      assert str[..last] == str;
    }
    return result;
  }

  /** `meta[point]` for a unit that needs escaping. */
  method MetaEntry(point: char) returns (esc: string)
    requires Special(point)
    ensures esc == EscapeUnit(point)
  {
    esc := Meta[point as int];
    MetaFollowsRfc8259(point);
  }

  /** The end of the manual loop: a final run of ordinary units is copied as it is. */
  lemma TailRun(s: string, last: nat)
    requires last <= |s|
    requires forall j :: last <= j < |s| ==> !Special(s[j])
    ensures Escape(s) == Escape(s[..last]) + s[last..]
  {
    var a, b := s[..last], s[last..];
    assert s == a + b;
    EscapeAppend(a, b);
    forall j | 0 <= j < |b| ensures !Special(b[j]) {
      assert b[j] == s[last + j];
    }
    EscapeIdentity(b);
  }

  /** One step of the manual loop: a run of ordinary units followed by a special one. */
  lemma RunThenSpecial(s: string, last: nat, i: nat)
    requires last <= i < |s| && Special(s[i])
    requires forall j :: last <= j < i ==> !Special(s[j])
    ensures Escape(s[..i + 1]) == Escape(s[..last]) + s[last..i] + EscapeUnit(s[i])
  {
    assert s[..i + 1] == s[..last] + (s[last..i] + [s[i]]);
    EscapeAppend(s[..last], s[last..i] + [s[i]]);
    EscapeAppend(s[last..i], [s[i]]);
    forall j | 0 <= j < |s[last..i]| ensures !Special(s[last..i][j]) {
      assert s[last..i][j] == s[last + j];
    }
    EscapeIdentity(s[last..i]);
    assert Escape([s[i]]) == EscapeUnit(s[i]) + Escape([]);
  }

  // ---------------------------------------------------------------------------
  // The inverse of Escape: decoding a JSON string body as section 7 of RFC 8259
  // defines it.

  predicate IsHex(c: char) {
    '0' <= c <= '9' || 'a' <= c <= 'f' || 'A' <= c <= 'F'
  }

  function HexValue(c: char): (v: nat)
    requires IsHex(c)
    ensures v < 16
  {
    if '0' <= c <= '9' then c as int - '0' as int
    else if 'a' <= c <= 'f' then c as int - 'a' as int + 10
    else c as int - 'A' as int + 10
  }

  /** The character a two-character escape `\e` stands for. */
  function ShortEscape(e: char): Option<char> {
    if e == '"' then Some('"')
    else if e == '\\' then Some('\\')
    else if e == '/' then Some('/')
    else if e == 'b' then Some(8 as char)
    else if e == 'f' then Some(12 as char)
    else if e == 'n' then Some(10 as char)
    else if e == 'r' then Some(13 as char)
    else if e == 't' then Some(9 as char)
    else None
  }

  function Prepend(c: char, rest: Option<string>): Option<string> {
    match rest
    case Some(s) => Some([c] + s)
    case None => None
  }

  /** The characters a JSON string body denotes, or None when it is not a valid body
      (a raw control or quote, or a malformed escape). An escape of a lone surrogate
      half has no character here and is rejected. */
  function Unescape(t: string): Option<string>
    decreases |t|
  {
    if t == [] then Some([])
    else if t[0] == '\\' then
      if |t| >= 2 && ShortEscape(t[1]).Some? then
        Prepend(ShortEscape(t[1]).value, Unescape(t[2..]))
      else if |t| >= 6 && t[1] == 'u' && IsHex(t[2]) && IsHex(t[3]) && IsHex(t[4]) && IsHex(t[5]) then
        var code := HexValue(t[2]) * 4096 + HexValue(t[3]) * 256 + HexValue(t[4]) * 16 + HexValue(t[5]);
        if 0xD800 <= code < 0xE000 then None
        else Prepend(code as char, Unescape(t[6..]))
      else None
    else if Special(t[0]) then None
    else Prepend(t[0], Unescape(t[1..]))
  }

  lemma HexDigitValue(d: nat)
    requires d < 16
    ensures IsHex(HexDigit(d)) && HexValue(HexDigit(d)) == d
  {
  }

  /** The two-character escapes decode to the unit they stand for. */
  lemma UnescapeShort(c: char, rest: string)
    requires var n := c as int; n == 8 || n == 9 || n == 10 || n == 12 || n == 13 || n == 34 || n == 92
    ensures Unescape(RfcEscape(c) + rest) == Prepend(c, Unescape(rest))
  {
    var t := RfcEscape(c) + rest;
    assert t[0] == '\\' && t[2..] == rest;
    assert ShortEscape(t[1]) == Some(c);
  }

  /** The `\u00XX` escapes decode to the control unit they stand for. */
  lemma UnescapeHex(c: char, rest: string)
    requires c < ' '
    requires var n := c as int; n != 8 && n != 9 && n != 10 && n != 12 && n != 13
    ensures Unescape(RfcEscape(c) + rest) == Prepend(c, Unescape(rest))
  {
    var t := RfcEscape(c) + rest;
    var n := c as int;
    HexDigitValue(n / 16);
    HexDigitValue(n % 16);
    assert t[0] == '\\' && t[1] == 'u' && t[2] == '0' && t[3] == '0';
    assert t[4] == HexDigit(n / 16) && t[5] == HexDigit(n % 16);
    assert t[6..] == rest;
    assert (n / 16) * 16 + n % 16 == n;
  }

  lemma UnescapeUnit(c: char, rest: string)
    ensures Unescape(EscapeUnit(c) + rest) == Prepend(c, Unescape(rest))
  {
    if Special(c) {
      var n := c as int;
      if n == 8 || n == 9 || n == 10 || n == 12 || n == 13 || n == 34 || n == 92 {
        UnescapeShort(c, rest);
      } else {
        UnescapeHex(c, rest);
      }
    } else {
      var t := EscapeUnit(c) + rest;
      assert t[0] == c && t[1..] == rest;
    }
  }

  /** Round trip: decoding what `strEscape` produces gives back the original string. */
  lemma {:induction false} UnescapeEscape(s: string)
    ensures Unescape(Escape(s)) == Some(s)
  {
    if s != [] {
      UnescapeUnit(s[0], Escape(s[1..]));
      UnescapeEscape(s[1..]);
      assert [s[0]] + s[1..] == s;
    }
  }
}
