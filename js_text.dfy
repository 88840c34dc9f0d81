/**
 * String primitives with the exact semantics of the JavaScript and Python
 * built-ins the sources use: white-space classes, trimming, splitting on a
 * character or on runs of a character class, substring search, case mapping
 * and decimal rendering. Strings are sequences of Unicode scalar values.
 */
module JsText {

  /** The characters of JavaScript's `\s` class; `String.prototype.trim` strips the same set. */
  predicate IsJsSpace(c: char)
  {
    var n := c as int;
    (9 <= n <= 13) || n == 32 || n == 0xA0 || n == 0x1680 || (0x2000 <= n <= 0x200A)
    || n == 0x2028 || n == 0x2029 || n == 0x202F || n == 0x205F || n == 0x3000 || n == 0xFEFF
  }

  /** The characters Python's `str.strip()` removes (`str.isspace`). */
  predicate IsPySpace(c: char)
  {
    var n := c as int;
    (9 <= n <= 13) || (0x1C <= n <= 0x1F) || n == 32 || n == 0x85 || n == 0xA0 || n == 0x1680
    || (0x2000 <= n <= 0x200A) || n == 0x2028 || n == 0x2029 || n == 0x202F || n == 0x205F || n == 0x3000
  }

  /** The characters of `\w`: ASCII letters, digits and the underscore. */
  predicate IsWordChar(c: char)
  {
    ('a' <= c <= 'z') || ('A' <= c <= 'Z') || ('0' <= c <= '9') || c == '_'
  }

  /** The line terminators of JavaScript regular expressions (`.` never matches them). */
  predicate IsLineTerminator(c: char)
  {
    c == '\n' || c == '\r' || c as int == 0x2028 || c as int == 0x2029
  }

  /** Removes leading characters of the class `ws`. */
  function TrimStart(s: string, ws: char -> bool): (r: string)
    ensures |r| <= |s| && r == s[|s| - |r|..]
    ensures r == [] || !ws(r[0])
    ensures forall i :: 0 <= i < |s| - |r| ==> ws(s[i])
  {
    if |s| > 0 && ws(s[0]) then
      var r := TrimStart(s[1..], ws);
      assert s[1..][|s| - 1 - |r|..] == s[|s| - |r|..];
      assert forall i :: 1 <= i < |s| - |r| ==> s[i] == s[1..][i - 1];
      r
    else s
  }

  /** Removes trailing characters of the class `ws`. */
  function TrimEnd(s: string, ws: char -> bool): (r: string)
    ensures |r| <= |s| && r == s[..|r|]
    ensures r == [] || !ws(r[|r| - 1])
    ensures forall i :: |r| <= i < |s| ==> ws(s[i])
  {
    if |s| > 0 && ws(s[|s| - 1]) then TrimEnd(s[..|s| - 1], ws) else s
  }

  /** JavaScript `s.trim()`. */
  function Trim(s: string): string
  {
    TrimEnd(TrimStart(s, IsJsSpace), IsJsSpace)
  }

  /** Python `s.strip()`. */
  function PyStrip(s: string): string
  {
    TrimEnd(TrimStart(s, IsPySpace), IsPySpace)
  }

  /**
   * `toLowerCase` of one character, for the Basic Latin, Latin-1 and
   * Latin Extended-A blocks (the Czech, Slovak, German, Spanish and French
   * letters). U+0130, whose lower case is two characters, is left unchanged.
   */
  function LowerChar(c: char): char
  {
    var n := c as int;
    if 'A' <= c <= 'Z' || (0xC0 <= n <= 0xDE && n != 0xD7) then (n + 32) as char
    else if (0x100 <= n <= 0x137 && n % 2 == 0 && n != 0x130) || (0x139 <= n <= 0x148 && n % 2 == 1)
         || (0x14A <= n <= 0x177 && n % 2 == 0) || (0x179 <= n <= 0x17E && n % 2 == 1) then (n + 1) as char
    else if n == 0x178 then 0xFF as char
    else c
  }

  /**
   * `toUpperCase` of one character over the same blocks. U+00DF, whose upper
   * case is two characters, is left unchanged.
   */
  function UpperChar(c: char): char
  {
    var n := c as int;
    if 'a' <= c <= 'z' || (0xE0 <= n <= 0xFE && n != 0xF7) then (n - 32) as char
    else if n == 0xB5 then 0x39C as char
    else if n == 0xFF then 0x178 as char
    else if n == 0x131 then 'I'
    else if n == 0x17F then 'S'
    else if (0x101 <= n <= 0x137 && n % 2 == 1) || (0x13A <= n <= 0x148 && n % 2 == 0)
         || (0x14B <= n <= 0x177 && n % 2 == 1) || (0x17A <= n <= 0x17E && n % 2 == 0) then (n - 1) as char
    else c
  }

  /** Case mapping never turns a white-space character into another character. */
  lemma LowerKeepsSpace(c: char)
    ensures IsJsSpace(LowerChar(c)) <==> IsJsSpace(c)
  {
  }

  /** `s.toLowerCase()`, character by character. */
  function Lower(s: string): (r: string)
    ensures |r| == |s|
  {
    seq(|s|, i requires 0 <= i < |s| => LowerChar(s[i]))
  }

  /** `s.toUpperCase()`, character by character. */
  function Upper(s: string): (r: string)
    ensures |r| == |s|
  {
    seq(|s|, i requires 0 <= i < |s| => UpperChar(s[i]))
  }

  /** `s.includes(sub)` / Python `sub in s`: `sub` occurs at some position of `s`. */
  predicate Contains(s: string, sub: string)
  {
    exists i :: 0 <= i <= |s| && OccursAt(s, sub, i)
  }

  /** `sub` occurs in `s` starting at index `i`. */
  predicate OccursAt(s: string, sub: string, i: nat)
  {
    i + |sub| <= |s| && s[i..i + |sub|] == sub
  }

  lemma ContainsEmpty(s: string)
    ensures Contains(s, "")
  {
    assert OccursAt(s, "", 0);
  }

  lemma ContainsSelf(s: string)
    ensures Contains(s, s)
  {
    assert OccursAt(s, s, 0);
  }

  /** The first `n` characters of `s`, or all of it when shorter (Python `s[:n]`, JavaScript `s.substring(0, n)`). */
  function Take(s: string, n: nat): (r: string)
    ensures |r| == if |s| <= n then |s| else n
    ensures r == s[..|r|]
  {
    if |s| <= n then s else s[..n]
  }

  /** Some character of `s` belongs to the class `p` (a one-class regular expression `test`). */
  predicate AnyChar(s: string, p: char -> bool)
  {
    exists i :: 0 <= i < |s| && p(s[i])
  }

  /** `s.split(sep)` with a one-character separator string. */
  function SplitOn(s: string, sep: char): (r: seq<string>)
    ensures |r| >= 1
    ensures forall k :: 0 <= k < |r| ==> sep !in r[k]
  {
    if |s| == 0 then [""]
    else
      var rest := SplitOn(s[1..], sep);
      if s[0] == sep then [""] + rest else [[s[0]] + rest[0]] + rest[1..]
  }

  /** `s.split(/[class]+/)`: the pieces between maximal runs of the class, keeping empty edge pieces. */
  function SplitRuns(s: string, isSep: char -> bool): (r: seq<string>)
    ensures |r| >= 1
    ensures forall k, i :: 0 <= k < |r| && 0 <= i < |r[k]| ==> !isSep(r[k][i])
  {
    if |s| == 0 then [""]
    else
      var rest := SplitRuns(s[1..], isSep);
      if isSep(s[0]) then (if |s| > 1 && isSep(s[1]) then rest else [""] + rest)
      else [[s[0]] + rest[0]] + rest[1..]
  }

  /** `s.replace(/[class]+/g, repl)`: every maximal run of the class becomes one `repl`. */
  function ReplaceRuns(s: string, isX: char -> bool, repl: char): (r: string)
    ensures |r| <= |s|
  {
    if |s| == 0 then ""
    else
      var rest := ReplaceRuns(s[1..], isX, repl);
      if isX(s[0]) then (if |s| > 1 && isX(s[1]) then rest else [repl] + rest)
      else [s[0]] + rest
  }

  /** The elements of `s` that satisfy `p`, in order (`Array.prototype.filter`). */
  function Filter<T>(s: seq<T>, p: T -> bool): (r: seq<T>)
    ensures |r| <= |s|
    ensures forall x :: x in r ==> x in s && p(x)
    ensures forall x :: x in s && p(x) ==> x in r
  {
    if |s| == 0 then [] else (if p(s[0]) then [s[0]] else []) + Filter(s[1..], p)
  }

  /** A filter no element passes keeps nothing. */
  lemma {:induction false} FilterNone<T>(s: seq<T>, p: T -> bool)
    requires forall x :: x in s ==> !p(x)
    ensures Filter(s, p) == []
  {
    if |s| > 0 {
      assert forall x :: x in s[1..] ==> x in s;
      FilterNone(s[1..], p);
    }
  }

  /** A filter every element passes keeps everything. */
  lemma {:induction false} FilterAll<T>(s: seq<T>, p: T -> bool)
    requires forall x :: x in s ==> p(x)
    ensures Filter(s, p) == s
  {
    if |s| > 0 {
      assert forall x :: x in s[1..] ==> x in s;
      FilterAll(s[1..], p);
    }
  }

  /** `parts.join(sep)`. */
  function Join(parts: seq<string>, sep: string): string
  {
    if |parts| == 0 then "" else if |parts| == 1 then parts[0] else parts[0] + sep + Join(parts[1..], sep)
  }

  function DigitChar(d: nat): char
    requires d < 10
  {
    "0123456789"[d]
  }

  /** The value of a decimal digit; other characters count as 0. */
  function DigitOf(c: char): nat
  {
    if '0' <= c <= '9' then c as int - '0' as int else 0
  }

  /** The value of a string of decimal digits, as `parseInt` reads it. */
  function DecimalValue(w: string): nat
  {
    if |w| == 0 then 0 else DecimalValue(w[..|w| - 1]) * 10 + DigitOf(w[|w| - 1])
  }

  /** The decimal rendering of a natural number (`String(n)`, `str(n)`). */
  function NatToString(n: nat): (r: string)
    ensures |r| >= 1
    ensures forall i :: 0 <= i < |r| ==> '0' <= r[i] <= '9'
  {
    if n < 10 then [DigitChar(n)] else NatToString(n / 10) + [DigitChar(n % 10)]
  }

  /** The decimal rendering of an integer, with a leading '-' when negative. */
  function IntToString(i: int): string
  {
    if i < 0 then "-" + NatToString(-i) else NatToString(i)
  }

  /** JavaScript `Math.round` on a real number: the nearest integer, halves rounded up. */
  function Round(x: real): (r: int)
    ensures x - 1.0 / 2.0 < r as real <= x + 1.0 / 2.0
  {
    (x + 1.0 / 2.0).Floor
  }

  /** `Math.ceil(a / b)` for integers with a non-zero divisor. */
  function CeilDiv(a: int, b: int): (r: int)
    requires b != 0
    ensures b > 0 ==> (r - 1) * b < a <= r * b
    ensures b < 0 ==> r * b <= a < (r - 1) * b
  {
    if b > 0 then -((-a) / b) else -(a / (-b))
  }

  // ------------------------------------------- facts about collapsing and trimming

  /** Every character of the class `isX` in `s` is `repl`. */
  predicate OnlyAs(s: string, isX: char -> bool, repl: char)
  {
    forall i :: 0 <= i < |s| && isX(s[i]) ==> s[i] == repl
  }

  /** No two neighbouring characters of `s` both belong to the class `isX`. */
  predicate NoAdjacent(s: string, isX: char -> bool)
  {
    forall i, j :: 0 <= i < |s| && j == i + 1 && j < |s| ==> !(isX(s[i]) && isX(s[j]))
  }

  /** The characters of `s` outside the class `isX`, in order. */
  function Without(s: string, isX: char -> bool): (r: string)
    ensures |r| <= |s|
  {
    if |s| == 0 then "" else (if isX(s[0]) then "" else [s[0]]) + Without(s[1..], isX)
  }

  lemma {:induction false} WithoutAppend(a: string, b: string, isX: char -> bool)
    ensures Without(a + b, isX) == Without(a, isX) + Without(b, isX)
  {
    if |a| == 0 {
      assert a + b == b;
    } else {
      assert (a + b)[0] == a[0];
      assert (a + b)[1..] == a[1..] + b;
      WithoutAppend(a[1..], b, isX);
    }
  }

  /** A string made only of class characters has nothing outside the class. */
  lemma {:induction false} WithoutAll(s: string, isX: char -> bool)
    requires forall i :: 0 <= i < |s| ==> isX(s[i])
    ensures Without(s, isX) == ""
  {
    if |s| > 0 {
      WithoutAll(s[1..], isX);
    }
  }

  /** A non-empty string outside the class keeps its first character under `ReplaceRuns`. */
  lemma ReplaceRunsHead(s: string, isX: char -> bool, repl: char)
    requires |s| > 0 && !isX(s[0])
    ensures |ReplaceRuns(s, isX, repl)| > 0 && ReplaceRuns(s, isX, repl)[0] == s[0]
  {
  }

  /** After `ReplaceRuns` every class character is `repl` and no two of them are neighbours. */
  lemma {:induction false} ReplaceRunsCollapses(s: string, isX: char -> bool, repl: char)
    ensures OnlyAs(ReplaceRuns(s, isX, repl), isX, repl)
    ensures NoAdjacent(ReplaceRuns(s, isX, repl), isX)
  {
    if |s| > 0 {
      var rest := ReplaceRuns(s[1..], isX, repl);
      ReplaceRunsCollapses(s[1..], isX, repl);
      if isX(s[0]) && !(|s| > 1 && isX(s[1])) {
        if |s| > 1 {
          ReplaceRunsHead(s[1..], isX, repl);
        }
        assert rest == [] || !isX(rest[0]);
      }
    }
  }

  /** `ReplaceRuns` changes nothing in a string that is already collapsed. */
  lemma {:induction false} ReplaceRunsFixed(s: string, isX: char -> bool, repl: char)
    requires OnlyAs(s, isX, repl) && NoAdjacent(s, isX)
    ensures ReplaceRuns(s, isX, repl) == s
  {
    if |s| > 0 {
      ReplaceRunsFixed(s[1..], isX, repl);
      if isX(s[0]) && |s| > 1 {
        assert !isX(s[1]);
      }
    }
  }

  /** `ReplaceRuns` with a class character keeps every character outside the class, in order. */
  lemma {:induction false} ReplaceRunsKeepsOthers(s: string, isX: char -> bool, repl: char)
    requires isX(repl)
    ensures Without(ReplaceRuns(s, isX, repl), isX) == Without(s, isX)
  {
    if |s| > 0 {
      ReplaceRunsKeepsOthers(s[1..], isX, repl);
      var rest := ReplaceRuns(s[1..], isX, repl);
      if isX(s[0]) && !(|s| > 1 && isX(s[1])) {
        assert ([repl] + rest)[1..] == rest;
      } else if !isX(s[0]) {
        assert ([s[0]] + rest)[1..] == rest;
      }
    }
  }

  /** `s.trim()` is a contiguous piece of `s`. */
  lemma TrimSlice(s: string) returns (a: nat)
    ensures a + |Trim(s)| <= |s| && Trim(s) == s[a..a + |Trim(s)|]
  {
    var u := TrimStart(s, IsJsSpace);
    a := |s| - |u|;
  }

  /** The result of `trim()` neither starts nor ends with white space. */
  lemma TrimEnds(s: string)
    ensures Trim(s) == [] || (!IsJsSpace(Trim(s)[0]) && !IsJsSpace(Trim(s)[|Trim(s)| - 1]))
  {
    var u := TrimStart(s, IsJsSpace);
    var t := TrimEnd(u, IsJsSpace);
    if t != [] {
      assert t[0] == u[0];
    }
  }

  /** Trimming twice is trimming once. */
  lemma TrimIdempotent(s: string)
    ensures Trim(Trim(s)) == Trim(s)
  {
    var t := Trim(s);
    TrimEnds(s);
    if t != [] {
      assert TrimStart(t, IsJsSpace) == t;
      assert TrimEnd(t, IsJsSpace) == t;
    }
  }

  /** Every character is white space: the text is falsy once trimmed. */
  predicate Blank(s: string)
  {
    forall k :: 0 <= k < |s| ==> IsJsSpace(s[k])
  }

  /** `!s.trim()` holds exactly for the blank texts. */
  lemma BlankIsTrimmedEmpty(s: string)
    ensures Blank(s) <==> Trim(s) == ""
  {
    var u := TrimStart(s, IsJsSpace);
    assert Blank(s) ==> u == [];
  }

  /** Removing a leading run of the class keeps every character outside it. */
  lemma TrimStartKeepsOthers(s: string, ws: char -> bool)
    ensures Without(TrimStart(s, ws), ws) == Without(s, ws)
  {
    var u := TrimStart(s, ws);
    var k := |s| - |u|;
    assert s == s[..k] + u;
    WithoutAppend(s[..k], u, ws);
    WithoutAll(s[..k], ws);
  }

  /** Removing a trailing run of the class keeps every character outside it. */
  lemma TrimEndKeepsOthers(s: string, ws: char -> bool)
    ensures Without(TrimEnd(s, ws), ws) == Without(s, ws)
  {
    var t := TrimEnd(s, ws);
    assert s == t + s[|t|..];
    WithoutAppend(t, s[|t|..], ws);
    WithoutAll(s[|t|..], ws);
  }

  /** Trimming removes only white space. */
  lemma TrimKeepsOthers(s: string)
    ensures Without(Trim(s), IsJsSpace) == Without(s, IsJsSpace)
  {
    TrimStartKeepsOthers(s, IsJsSpace);
    TrimEndKeepsOthers(TrimStart(s, IsJsSpace), IsJsSpace);
  }

  /** Splitting a string that has no separator gives the string itself. */
  lemma {:induction false} SplitOnAbsent(s: string, sep: char)
    requires sep !in s
    ensures SplitOn(s, sep) == [s]
  {
    if |s| > 0 {
      assert sep !in s[1..];
      SplitOnAbsent(s[1..], sep);
      assert [s[0]] + s[1..] == s;
    }
  }

  /** A separator followed by text splits off the piece before it. */
  lemma {:induction false} SplitOnCons(a: string, b: string, sep: char)
    requires sep !in a
    ensures SplitOn(a + [sep] + b, sep) == [a] + SplitOn(b, sep)
  {
    var s := a + [sep] + b;
    if |a| == 0 {
      assert s == [sep] + b;
      assert s[1..] == b;
    } else {
      SplitOnCons(a[1..], b, sep);
      assert s[0] == a[0];
      assert s[1..] == a[1..] + [sep] + b;
      assert [a[0]] + a[1..] == a;
    }
  }

  /** Splitting what was joined on a character none of the pieces holds gives the pieces back. */
  lemma {:induction false} SplitOnJoin(parts: seq<string>, sep: char)
    requires |parts| >= 1 && forall i :: 0 <= i < |parts| ==> sep !in parts[i]
    ensures SplitOn(Join(parts, [sep]), sep) == parts
  {
    if |parts| == 1 {
      SplitOnAbsent(parts[0], sep);
    } else {
      SplitOnJoin(parts[1..], sep);
      SplitOnCons(parts[0], Join(parts[1..], [sep]), sep);
      assert [parts[0]] + parts[1..] == parts;
    }
  }

  /** A character in none of the pieces nor in the separator is not in their join. */
  lemma {:induction false} JoinAvoids(parts: seq<string>, sep: string, c: char)
    requires c !in sep && forall i :: 0 <= i < |parts| ==> c !in parts[i]
    ensures c !in Join(parts, sep)
  {
    if |parts| > 1 {
      JoinAvoids(parts[1..], sep, c);
    }
  }
}
