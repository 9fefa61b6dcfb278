/**
 * Text primitives the chat server (Python) and the chat client (JavaScript)
 * rely on: whitespace stripping, string length, and the order in which
 * `sorted` / `Array.prototype.sort` put two strings.
 *
 * Strings are sequences of Unicode scalar values (`char`). Python measures
 * and compares strings by code point; JavaScript measures and compares them
 * by UTF-16 code unit, so both views are given here.
 */
module Text {

  /** Python's `str.isspace()` for one character (what `str.strip()` removes). */
  predicate IsPyWhitespace(c: char) {
    var n := c as int;
    (9 <= n <= 13) || (0x1C <= n <= 0x20) || n == 0x85 || n == 0xA0 || n == 0x1680
    || (0x2000 <= n <= 0x200A) || n == 0x2028 || n == 0x2029 || n == 0x202F
    || n == 0x205F || n == 0x3000
  }

  /** JavaScript's WhiteSpace and LineTerminator characters (what `String.prototype.trim` removes). */
  predicate IsJsWhitespace(c: char) {
    var n := c as int;
    (9 <= n <= 13) || n == 0x20 || n == 0xA0 || n == 0x1680
    || (0x2000 <= n <= 0x200A) || n == 0x2028 || n == 0x2029 || n == 0x202F
    || n == 0x205F || n == 0x3000 || n == 0xFEFF
  }

  /** Removes the leading characters that satisfy `ws`. */
  function TrimStart(s: string, ws: char -> bool): (r: string)
    ensures |r| <= |s| && r == s[|s| - |r|..]
  {
    if s != [] && ws(s[0]) then TrimStart(s[1..], ws) else s
  }

  /** Only whitespace is cut, and what remains does not start with whitespace. */
  lemma {:induction false} TrimStartShape(s: string, ws: char -> bool)
    ensures forall i :: 0 <= i < |s| - |TrimStart(s, ws)| ==> ws(s[i])
    ensures var r := TrimStart(s, ws); r == [] || !ws(r[0])
  {
    if s != [] && ws(s[0]) {
      TrimStartShape(s[1..], ws);
      assert forall i :: 1 <= i < |s| ==> s[i] == s[1..][i - 1];
    }
  }

  /** Removes the trailing characters that satisfy `ws`. */
  function TrimEnd(s: string, ws: char -> bool): (r: string)
    ensures |r| <= |s| && r == s[..|r|]
  {
    if s != [] && ws(s[|s| - 1]) then TrimEnd(s[..|s| - 1], ws) else s
  }

  /** Only whitespace is cut, and what remains does not end with whitespace. */
  lemma {:induction false} TrimEndShape(s: string, ws: char -> bool)
    ensures forall i :: |TrimEnd(s, ws)| <= i < |s| ==> ws(s[i])
    ensures var r := TrimEnd(s, ws); r == [] || !ws(r[|r| - 1])
  {
    if s != [] && ws(s[|s| - 1]) {
      TrimEndShape(s[..|s| - 1], ws);
      assert forall i :: 0 <= i < |s| - 1 ==> s[i] == s[..|s| - 1][i];
    }
  }

  /** Removes leading and trailing characters that satisfy `ws`. */
  function Strip(s: string, ws: char -> bool): string {
    TrimEnd(TrimStart(s, ws), ws)
  }

  /** The stripped string neither starts nor ends with whitespace. */
  lemma StripEnds(s: string, ws: char -> bool)
    ensures var r := Strip(s, ws); r == [] || (!ws(r[0]) && !ws(r[|r| - 1]))
  {
    var t := TrimStart(s, ws);
    TrimStartShape(s, ws);
    TrimEndShape(t, ws);
    if TrimEnd(t, ws) != [] {
      assert TrimEnd(t, ws)[0] == t[0];
    }
  }

  /** A string that neither starts nor ends with whitespace is its own stripped form. */
  lemma StripUnchanged(s: string, ws: char -> bool)
    requires s == [] || (!ws(s[0]) && !ws(s[|s| - 1]))
    ensures Strip(s, ws) == s
  {
  }

  /** Stripping twice is stripping once. */
  lemma StripIdempotent(s: string, ws: char -> bool)
    ensures Strip(Strip(s, ws), ws) == Strip(s, ws)
  {
    StripEnds(s, ws);
    StripUnchanged(Strip(s, ws), ws);
  }

  /** Python's `str.strip()` with no argument. */
  function PyStrip(s: string): string { Strip(s, IsPyWhitespace) }

  /** JavaScript's `String.prototype.trim()`. */
  function JsTrim(s: string): string { Strip(s, IsJsWhitespace) }

  /** The UTF-16 code units of one character: one below U+10000, a surrogate pair above. */
  function CodeUnits(c: char): (u: seq<int>)
    ensures |u| == (if c as int < 0x10000 then 1 else 2)
    ensures c as int < 0x10000 ==> u[0] == c as int && !(0xD800 <= u[0] < 0xE000)
    ensures c as int >= 0x10000 ==> 0xD800 <= u[0] < 0xDC00 && 0xDC00 <= u[1] < 0xE000
  {
    var n := c as int;
    if n < 0x10000 then [n]
    else [0xD800 + (n - 0x10000) / 0x400, 0xDC00 + (n - 0x10000) % 0x400]
  }

  /** The UTF-16 encoding of a string, the representation JavaScript strings use. */
  function Utf16(s: string): seq<int> {
    if s == [] then [] else CodeUnits(s[0]) + Utf16(s[1..])
  }

  /** JavaScript's `String.prototype.length`: the number of UTF-16 code units. */
  function JsLength(s: string): nat { |Utf16(s)| }

  /** Characters at or above U+10000 count twice in `JsLength` and once in Python's `len`. */
  lemma {:induction false} JsLengthCountsAstralTwice(s: string)
    ensures |s| <= JsLength(s) <= 2 * |s|
    ensures (forall i :: 0 <= i < |s| ==> s[i] as int < 0x10000) ==> JsLength(s) == |s|
  {
    if s != [] {
      JsLengthCountsAstralTwice(s[1..]);
      assert forall i :: 1 <= i < |s| ==> s[i] == s[1..][i - 1];
    }
  }

  /** A character's surrogate pair determines the character. */
  lemma CodeUnitsInjective(c: char, d: char)
    requires CodeUnits(c) == CodeUnits(d)
    ensures c == d
  {
    var n, m := c as int, d as int;
    if n >= 0x10000 {
      assert m >= 0x10000;
      var x, y := n - 0x10000, m - 0x10000;
      assert x / 0x400 == y / 0x400 && x % 0x400 == y % 0x400;
      assert x == 0x400 * (x / 0x400) + x % 0x400;
      assert y == 0x400 * (y / 0x400) + y % 0x400;
    }
  }

  /** UTF-16 is a faithful encoding: two strings with the same code units are equal. */
  lemma {:induction false} Utf16Injective(a: string, b: string)
    requires Utf16(a) == Utf16(b)
    ensures a == b
  {
    if a != [] && b != [] {
      var ua, ub := CodeUnits(a[0]), CodeUnits(b[0]);
      assert Utf16(a) == ua + Utf16(a[1..]);
      assert Utf16(b) == ub + Utf16(b[1..]);
      assert ua[0] == Utf16(a)[0] == Utf16(b)[0] == ub[0];
      assert |ua| == |ub|;
      if |ua| == 2 {
        assert ua[1] == Utf16(a)[1] == Utf16(b)[1] == ub[1];
      }
      assert ua == ub;
      CodeUnitsInjective(a[0], b[0]);
      assert Utf16(a[1..]) == Utf16(a)[|ua|..] == Utf16(b)[|ub|..] == Utf16(b[1..]);
      Utf16Injective(a[1..], b[1..]);
      assert a == [a[0]] + a[1..];
      assert b == [b[0]] + b[1..];
    }
  }

  /** A string's characters as their code points, the units Python compares. */
  function CodePoints(s: string): (p: seq<int>)
    ensures |p| == |s| && forall i :: 0 <= i < |s| ==> p[i] == s[i] as int
  {
    seq(|s|, i requires 0 <= i < |s| => s[i] as int)
  }

  lemma CodePointsInjective(a: string, b: string)
    requires CodePoints(a) == CodePoints(b)
    ensures a == b
  {
    assert |a| == |b|;
    forall i | 0 <= i < |a| ensures a[i] == b[i] {
      assert CodePoints(a)[i] == CodePoints(b)[i];
    }
  }

  /**
   * Strict lexicographic order, the one both languages use on strings over
   * their units: the first differing unit decides, and a proper prefix
   * comes first.
   */
  predicate LexLess(x: seq<int>, y: seq<int>) {
    if x == [] then y != []
    else if y == [] then false
    else if x[0] != y[0] then x[0] < y[0]
    else LexLess(x[1..], y[1..])
  }

  /** Any two different sequences are ordered one way round. */
  lemma {:induction false} LexLessTotal(x: seq<int>, y: seq<int>)
    requires x != y
    ensures LexLess(x, y) || LexLess(y, x)
  {
    if x != [] && y != [] && x[0] == y[0] {
      assert x == [x[0]] + x[1..] && y == [y[0]] + y[1..];
      LexLessTotal(x[1..], y[1..]);
    }
  }

  /** No two sequences are ordered both ways round (so none is less than itself). */
  lemma {:induction false} LexLessAsymmetric(x: seq<int>, y: seq<int>)
    ensures !(LexLess(x, y) && LexLess(y, x))
  {
    if x != [] && y != [] && x[0] == y[0] {
      LexLessAsymmetric(x[1..], y[1..]);
    }
  }
}
