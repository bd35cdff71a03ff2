/**
 * String helpers shared by the Python pipeline and the TypeScript front end:
 * whitespace classes, stripping, ASCII lower-casing, substring search and joins.
 * Strings are sequences of Unicode scalar values.
 */
module Text {

  /** Characters for which Python's `str.isspace()` holds; `str.strip()` removes runs of them. */
  predicate IsPyWhitespace(c: char) {
    || '\t' <= c <= '\r'
    || '\U{1C}' <= c <= '\U{1F}'
    || c == ' ' || c == '\U{85}' || c == '\U{A0}' || c == '\U{1680}'
    || '\U{2000}' <= c <= '\U{200A}'
    || c == '\U{2028}' || c == '\U{2029}' || c == '\U{202F}' || c == '\U{205F}' || c == '\U{3000}'
  }

  /** White space and line terminators that JavaScript's `String.prototype.trim` removes. */
  predicate IsJsWhitespace(c: char) {
    || '\t' <= c <= '\r'
    || c == ' ' || c == '\U{A0}' || c == '\U{1680}'
    || '\U{2000}' <= c <= '\U{200A}'
    || c == '\U{2028}' || c == '\U{2029}' || c == '\U{202F}' || c == '\U{205F}' || c == '\U{3000}'
    || c == '\U{FEFF}'
  }

  /** Neither end of `s` is a character of the class `ws`. */
  predicate NoEdge(s: string, ws: char -> bool) {
    s == [] || (!ws(s[0]) && !ws(s[|s| - 1]))
  }

  /** Drops the leading run of `ws` characters. */
  function TrimStart(s: string, ws: char -> bool): (r: string)
    ensures |r| <= |s|
    ensures r == [] || !ws(r[0])
  {
    if s != [] && ws(s[0]) then TrimStart(s[1..], ws) else s
  }

  /** TrimStart keeps a suffix. */
  lemma TrimStartSuffix(s: string, ws: char -> bool)
    ensures TrimStart(s, ws) == s[|s| - |TrimStart(s, ws)|..]
  {
    if s != [] && ws(s[0]) {
      TrimStartSuffix(s[1..], ws);
      assert s[1..][|s| - 1 - |TrimStart(s, ws)|..] == s[|s| - |TrimStart(s, ws)|..];
    }
  }

  /** Everything TrimStart drops is of the class `ws`. */
  lemma TrimStartDropped(s: string, ws: char -> bool)
    ensures forall i :: 0 <= i < |s| - |TrimStart(s, ws)| ==> ws(s[i])
  {
    if s != [] && ws(s[0]) {
      TrimStartDropped(s[1..], ws);
    }
  }

  /** Drops the trailing run of `ws` characters. */
  function TrimEnd(s: string, ws: char -> bool): (r: string)
    ensures |r| <= |s|
    ensures r == [] || !ws(r[|r| - 1])
  {
    if s != [] && ws(s[|s| - 1]) then TrimEnd(s[..|s| - 1], ws) else s
  }

  /** TrimEnd keeps a prefix. */
  lemma TrimEndPrefix(s: string, ws: char -> bool)
    ensures TrimEnd(s, ws) == s[..|TrimEnd(s, ws)|]
  {
    if s != [] && ws(s[|s| - 1]) {
      TrimEndPrefix(s[..|s| - 1], ws);
      assert s[..|s| - 1][..|TrimEnd(s, ws)|] == s[..|TrimEnd(s, ws)|];
    }
  }

  /** Everything TrimEnd drops is of the class `ws`. */
  lemma TrimEndDropped(s: string, ws: char -> bool)
    ensures forall i :: |TrimEnd(s, ws)| <= i < |s| ==> ws(s[i])
  {
    if s != [] && ws(s[|s| - 1]) {
      TrimEndDropped(s[..|s| - 1], ws);
    }
  }

  /** Both runs removed: Python's `strip()` with `IsPyWhitespace`, JavaScript's `trim()` with `IsJsWhitespace`. */
  function Strip(s: string, ws: char -> bool): (r: string)
    ensures NoEdge(r, ws)
    ensures |r| <= |s|
  {
    var t := TrimStart(s, ws);
    TrimEndPrefix(t, ws);
    TrimEnd(t, ws)
  }

  function PyStrip(s: string): string { Strip(s, IsPyWhitespace) }

  function JsTrim(s: string): string { Strip(s, IsJsWhitespace) }

  /** Stripping leaves a string without edge characters untouched. */
  lemma StripNoEdge(s: string, ws: char -> bool)
    requires NoEdge(s, ws)
    ensures Strip(s, ws) == s
  {
    assert TrimStart(s, ws) == s;
  }

  /** Stripping is idempotent. */
  lemma StripIdempotent(s: string, ws: char -> bool)
    ensures Strip(Strip(s, ws), ws) == Strip(s, ws)
  {
    StripNoEdge(Strip(s, ws), ws);
  }

  /** A string made only of `ws` characters strips to the empty string. */
  lemma StripAllWhitespace(s: string, ws: char -> bool)
    requires forall i :: 0 <= i < |s| ==> ws(s[i])
    ensures Strip(s, ws) == ""
  {
    if s != [] {
      StripAllWhitespace(s[1..], ws);
    }
  }

  /** Leading `ws` characters in front of a string that does not start with one are all dropped. */
  lemma TrimStartPadded(w: string, x: string, ws: char -> bool)
    requires forall i :: 0 <= i < |w| ==> ws(w[i])
    requires x != [] && !ws(x[0])
    ensures TrimStart(w + x, ws) == x
  {
    if w != [] {
      assert (w + x)[1..] == w[1..] + x;
      TrimStartPadded(w[1..], x, ws);
    }
  }

  /** Trailing `ws` characters behind a string that does not end with one are all dropped. */
  lemma TrimEndPadded(x: string, w: string, ws: char -> bool)
    requires forall i :: 0 <= i < |w| ==> ws(w[i])
    requires x != [] && !ws(x[|x| - 1])
    ensures TrimEnd(x + w, ws) == x
  {
    if w != [] {
      assert (x + w)[..|x + w| - 1] == x + w[..|w| - 1];
      TrimEndPadded(x, w[..|w| - 1], ws);
    }
  }

  /** Surrounding whitespace is ignored: stripping a padded string gives the unpadded one. */
  lemma StripPadded(w1: string, x: string, w2: string, ws: char -> bool)
    requires forall i :: 0 <= i < |w1| ==> ws(w1[i])
    requires forall i :: 0 <= i < |w2| ==> ws(w2[i])
    requires x != [] && NoEdge(x, ws)
    ensures Strip(w1 + x + w2, ws) == x
  {
    assert w1 + x + w2 == w1 + (x + w2);
    TrimStartPadded(w1, x + w2, ws);
    TrimEndPadded(x, w2, ws);
  }

  predicate IsAsciiLetter(c: char) { 'A' <= c <= 'Z' || 'a' <= c <= 'z' }

  predicate IsAsciiDigit(c: char) { '0' <= c <= '9' }

  predicate IsAsciiAlnum(c: char) { IsAsciiLetter(c) || IsAsciiDigit(c) }

  predicate AllAsciiAlnum(s: string) { forall i :: 0 <= i < |s| ==> IsAsciiAlnum(s[i]) }

  /** ASCII lower-casing of one character. */
  function LowerChar(c: char): char {
    if 'A' <= c <= 'Z' then (c as int + 32) as char else c
  }

  /** ASCII lower-casing, character by character. */
  function Lower(s: string): (r: string)
    ensures |r| == |s|
  {
    if s == [] then [] else [LowerChar(s[0])] + Lower(s[1..])
  }

  /** `t` occurs in `s` at position `i`. */
  predicate OccursAt(s: string, t: string, i: int) {
    0 <= i && i + |t| <= |s| && s[i..i + |t|] == t
  }

  /** JavaScript's `s.includes(t)`. */
  predicate Contains(s: string, t: string) {
    exists i :: 0 <= i <= |s| - |t| && OccursAt(s, t, i)
  }

  predicate StartsWith(s: string, p: string) {
    |p| <= |s| && s[..|p|] == p
  }

  predicate EndsWith(s: string, p: string) {
    |p| <= |s| && s[|s| - |p|..] == p
  }

  /** Python's `sep.join(parts)` and JavaScript's `parts.join(sep)`. */
  function Join(parts: seq<string>, sep: string): string {
    if |parts| == 0 then ""
    else if |parts| == 1 then parts[0]
    else parts[0] + sep + Join(parts[1..], sep)
  }

  /** Python's `s.find(c)` from `from` on, as a position, or |s| when absent. */
  function IndexOf(s: string, c: char, from: nat): (r: nat)
    requires from <= |s|
    ensures from <= r <= |s|
    ensures r < |s| ==> s[r] == c
    decreases |s| - from
  {
    if from == |s| then |s|
    else if s[from] == c then from
    else IndexOf(s, c, from + 1)
  }

  /** IndexOf finds the first occurrence. */
  lemma IndexOfFirst(s: string, c: char, from: nat)
    requires from <= |s|
    ensures forall k :: from <= k < IndexOf(s, c, from) ==> s[k] != c
    decreases |s| - from
  {
    if from < |s| && s[from] != c {
      IndexOfFirst(s, c, from + 1);
    }
  }

  /** IndexOf stops at the first occurrence it meets. */
  lemma IndexOfAt(s: string, c: char, from: nat, i: nat)
    requires from <= i <= |s| && (i == |s| || s[i] == c)
    requires forall k :: from <= k < i ==> s[k] != c
    ensures IndexOf(s, c, from) == i
    decreases i - from
  {
    if from < i {
      IndexOfAt(s, c, from + 1, i);
    }
  }

  /** Position of the last `c` in `s`, if any. */
  function LastIndexOf(s: string, c: char): (r: int)
    ensures -1 <= r < |s|
    ensures r >= 0 ==> s[r] == c
  {
    if s == [] then -1
    else if s[|s| - 1] == c then |s| - 1
    else LastIndexOf(s[..|s| - 1], c)
  }

  /** Nothing after LastIndexOf's answer is `c`. */
  lemma LastIndexOfLast(s: string, c: char)
    ensures forall k :: LastIndexOf(s, c) < k < |s| ==> s[k] != c
  {
    if s != [] && s[|s| - 1] != c {
      LastIndexOfLast(s[..|s| - 1], c);
    }
  }

  /** LastIndexOf stops at the last occurrence. */
  lemma LastIndexOfAt(s: string, c: char, j: int)
    requires -1 <= j < |s| && (j == -1 || s[j] == c)
    requires forall k :: j < k < |s| ==> s[k] != c
    ensures LastIndexOf(s, c) == j
  {
    if s != [] && s[|s| - 1] != c {
      LastIndexOfAt(s[..|s| - 1], c, j);
    }
  }

  /** Every character of `s` with `drop` removed. */
  function RemoveChars(s: string, drop: char -> bool): (r: string)
    ensures |r| <= |s|
  {
    if s == [] then []
    else (if drop(s[0]) then [] else [s[0]]) + RemoveChars(s[1..], drop)
  }

  /** Nothing to remove leaves the string as it is. */
  lemma RemoveCharsNone(s: string, drop: char -> bool)
    requires forall i :: 0 <= i < |s| ==> !drop(s[i])
    ensures RemoveChars(s, drop) == s
  {
    if s != [] {
      RemoveCharsNone(s[1..], drop);
    }
  }

  /** Decimal rendering of an integer, as JavaScript's `String(n)` and Python's `str(n)` give it. */
  function IntToString(n: int): (r: string)
    ensures r != []
    decreases if n < 0 then 1 - n else n
  {
    if n < 0 then "-" + NatToString(-n) else NatToString(n)
  }

  function NatToString(n: nat): (r: string)
    ensures r != [] && forall i :: 0 <= i < |r| ==> IsAsciiDigit(r[i])
  {
    if n < 10 then [DigitChar(n)] else NatToString(n / 10) + [DigitChar(n % 10)]
  }

  function DigitChar(d: nat): (c: char)
    requires d < 10
    ensures IsAsciiDigit(c)
  {
    ('0' as int + d) as char
  }

  /** JavaScript's `s.split(c)`: always at least one piece. */
  function SplitOn(s: string, c: char): (r: seq<string>)
    ensures |r| >= 1
    decreases |s|
  {
    var i := IndexOf(s, c, 0);
    if i == |s| then [s] else [s[..i]] + SplitOn(s[i + 1..], c)
  }

  /** The first `c` in `s`: nothing before it is `c`. */
  lemma FirstFacts(s: string, c: char)
    ensures c !in s[..IndexOf(s, c, 0)]
    ensures IndexOf(s, c, 0) < |s| ==> s[IndexOf(s, c, 0)] == c
  {
    IndexOfFirst(s, c, 0);
  }

  /** Where `IndexOf` stops in `a + b` when `a` lacks `c` and `b` is empty or starts with it. */
  lemma Cut(a: string, b: string, c: char)
    requires c !in a && (b == [] || b[0] == c)
    ensures IndexOf(a + b, c, 0) == |a|
    ensures (a + b)[..|a|] == a && (a + b)[|a|..] == b
  {
    forall k | 0 <= k < |a| ensures (a + b)[k] != c {
      assert (a + b)[k] == a[k];
    }
    IndexOfAt(a + b, c, 0, |a|);
  }

  lemma NotInSlice(s: string, c: char, i: int, j: int)
    requires c !in s && 0 <= i <= j <= |s|
    ensures c !in s[i..j]
  {
  }

  /** Splitting a join on a separator the parts lack gives the parts back. */
  lemma {:induction false} SplitJoin(parts: seq<string>, c: char)
    requires |parts| >= 1 && forall i :: 0 <= i < |parts| ==> c !in parts[i]
    ensures SplitOn(Join(parts, [c]), c) == parts
  {
    if |parts| == 1 {
      assert parts[0] + [] == parts[0];
      Cut(parts[0], [], c);
    } else {
      var rest := Join(parts[1..], [c]);
      assert Join(parts, [c]) == parts[0] + ([c] + rest);
      Cut(parts[0], [c] + rest, c);
      assert (parts[0] + ([c] + rest))[|parts[0]| + 1..] == rest;
      SplitJoin(parts[1..], c);
      assert [parts[0]] + parts[1..] == parts;
    }
  }

  lemma {:induction false} JoinLacks(parts: seq<string>, sep: string, c: char)
    requires c !in sep && forall i :: 0 <= i < |parts| ==> c !in parts[i]
    ensures c !in Join(parts, sep)
  {
    if |parts| > 1 {
      JoinLacks(parts[1..], sep, c);
    }
  }

  /** The pieces of `s` lack the separator and whatever `s` lacks. */
  lemma {:induction false} SplitOnPieces(s: string, c: char, d: char)
    ensures forall i :: 0 <= i < |SplitOn(s, c)| ==> c !in SplitOn(s, c)[i]
    ensures d !in s ==> forall i :: 0 <= i < |SplitOn(s, c)| ==> d !in SplitOn(s, c)[i]
    decreases |s|
  {
    var i := IndexOf(s, c, 0);
    FirstFacts(s, c);
    if i < |s| {
      SplitOnPieces(s[i + 1..], c, d);
      if d !in s {
        NotInSlice(s, d, 0, i);
        NotInSlice(s, d, i + 1, |s|);
      }
    }
  }

  lemma LowerIdempotent(s: string)
    ensures Lower(Lower(s)) == Lower(s)
    ensures Lower(s) == "" <==> s == ""
  {
    if s != [] {
      LowerIdempotent(s[1..]);
      assert Lower(s)[1..] == Lower(s[1..]);
    }
  }

  lemma LowerNotIn(s: string, c: char)
    requires c !in s && !IsAsciiLetter(c)
    ensures c !in Lower(s)
  {
    if s != [] {
      LowerNotIn(s[1..], c);
      assert Lower(s) == [LowerChar(s[0])] + Lower(s[1..]);
    }
  }

  /** Joining the pieces of a split with the separator gives the string back. */
  lemma {:induction false} JoinSplit(s: string, c: char)
    ensures Join(SplitOn(s, c), [c]) == s
    decreases |s|
  {
    var i := IndexOf(s, c, 0);
    FirstFacts(s, c);
    if i < |s| {
      var rest := s[i + 1..];
      JoinSplit(rest, c);
      var ps := SplitOn(rest, c);
      assert SplitOn(s, c) == [s[..i]] + ps;
      assert Join(SplitOn(s, c), [c]) == s[..i] + [c] + Join(ps, [c]);
      assert s == s[..i] + [c] + rest;
    }
  }
}
