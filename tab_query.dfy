/**
 * The `t` query parameter that keeps the selected tab across reloads: the
 * tab's URL in the URL-safe base64 alphabet of section 5 of RFC 4648,
 * unpadded, and the choice of the tab to show first.
 *
 * `btoa` and `atob` are written out: `btoa` reads each character as a
 * byte and refuses any character above U+00FF; `atob` is the forgiving
 * decoder of the HTML standard (ASCII whitespace removed, one or two
 * trailing `=` dropped when the length is a multiple of four).
 */
module TabQuery {
  import opened Wrappers
  import opened Text
  import opened UiState
  import opened AnalyzerRules
  import JsonText

  const TabQueryKey := "t"

  predicate IsLatin1(s: string) {
    forall i :: 0 <= i < |s| ==> (s[i] as int) < 256
  }

  predicate IsBase64Char(c: char) {
    ('A' <= c <= 'Z') || ('a' <= c <= 'z') || ('0' <= c <= '9') || c == '+' || c == '/'
  }

  predicate AllBase64(s: string) {
    forall i :: 0 <= i < |s| ==> IsBase64Char(s[i])
  }

  /** The character of a 6-bit value in the standard alphabet. */
  function Alphabet(v: int): char
    requires 0 <= v < 64
  {
    if v < 26 then ('A' as int + v) as char
    else if v < 52 then ('a' as int + v - 26) as char
    else if v < 62 then ('0' as int + v - 52) as char
    else if v == 62 then '+'
    else '/'
  }

  /** The 6-bit value of an alphabet character. */
  function SextetOf(c: char): (r: int)
    requires IsBase64Char(c)
    ensures 0 <= r < 64
  {
    if 'A' <= c <= 'Z' then c as int - 'A' as int
    else if 'a' <= c <= 'z' then c as int - 'a' as int + 26
    else if '0' <= c <= '9' then c as int - '0' as int + 52
    else if c == '+' then 62
    else 63
  }

  lemma SextetOfAlphabet(v: int)
    requires 0 <= v < 64
    ensures IsBase64Char(Alphabet(v)) && SextetOf(Alphabet(v)) == v
  {
  }

  /** A last group of one byte: two characters. */
  function Duo(b0: int): (r: string)
    requires 0 <= b0 < 256
    ensures |r| == 2 && AllBase64(r)
  {
    SextetOfAlphabet(b0 / 4);
    SextetOfAlphabet(b0 % 4 * 16);
    [Alphabet(b0 / 4), Alphabet(b0 % 4 * 16)]
  }

  /** A last group of two bytes: three characters. */
  function Trio(b0: int, b1: int): (r: string)
    requires 0 <= b0 < 256 && 0 <= b1 < 256
    ensures |r| == 3 && AllBase64(r)
  {
    SextetOfAlphabet(b0 / 4);
    SextetOfAlphabet(b0 % 4 * 16 + b1 / 16);
    SextetOfAlphabet(b1 % 16 * 4);
    [Alphabet(b0 / 4), Alphabet(b0 % 4 * 16 + b1 / 16), Alphabet(b1 % 16 * 4)]
  }

  /** A full group of three bytes: four characters. */
  function Quad(b0: int, b1: int, b2: int): (r: string)
    requires 0 <= b0 < 256 && 0 <= b1 < 256 && 0 <= b2 < 256
    ensures |r| == 4 && AllBase64(r)
  {
    SextetOfAlphabet(b0 / 4);
    SextetOfAlphabet(b0 % 4 * 16 + b1 / 16);
    SextetOfAlphabet(b1 % 16 * 4 + b2 / 64);
    SextetOfAlphabet(b2 % 64);
    [Alphabet(b0 / 4), Alphabet(b0 % 4 * 16 + b1 / 16), Alphabet(b1 % 16 * 4 + b2 / 64), Alphabet(b2 % 64)]
  }

  /** The encoding without its padding: three bytes to four characters, a short last group to two or three. */
  function Body(s: string): (r: string)
    requires IsLatin1(s)
    ensures |r| == BodyLength(|s|)
    ensures AllBase64(r)
    decreases |s|
  {
    if |s| == 0 then ""
    else if |s| == 1 then Duo(s[0] as int)
    else if |s| == 2 then Trio(s[0] as int, s[1] as int)
    else Quad(s[0] as int, s[1] as int, s[2] as int) + Body(s[3..])
  }

  /** The number of characters before the padding. */
  function BodyLength(n: nat): nat {
    n / 3 * 4 + (if n % 3 == 1 then 2 else if n % 3 == 2 then 3 else 0)
  }

  /** The `=` padding that completes the last group. */
  function Padding(n: nat): string {
    if n % 3 == 1 then "==" else if n % 3 == 2 then "=" else ""
  }

  /** `btoa(s)`: None where it throws, on a character above U+00FF. */
  function Btoa(s: string): Option<string> {
    if IsLatin1(s) then Some(Body(s) + Padding(|s|)) else None
  }

  /** `s.replace(/from/g, to)` for a single character. */
  function Replace(s: string, from: char, to: char): (r: string)
    ensures |r| == |s|
  {
    seq(|s|, i requires 0 <= i < |s| => if s[i] == from then to else s[i])
  }

  /** `s.replace(/c+$/g, "")`. */
  function TrimTrailing(s: string, c: char): (r: string)
    ensures |r| <= |s|
    decreases |s|
  {
    if s != [] && s[|s| - 1] == c then TrimTrailing(s[..|s| - 1], c) else s
  }

  /** `encodeTab(url)`: None where `btoa` throws. */
  function EncodeTab(url: string): Option<string> {
    match Btoa(url)
    case None => None
    case Some(b) => Some(TrimTrailing(Replace(Replace(b, '+', '-'), '/', '_'), '='))
  }

  /** The ASCII whitespace the forgiving decoder removes. */
  predicate IsAsciiWhitespace(c: char) {
    c == '\t' || c == '\n' || c == '\U{000C}' || c == '\r' || c == ' '
  }

  /** One or two trailing `=` dropped from a length that is a multiple of four. */
  function StripPadding(d: string): string {
    if |d| % 4 == 0 && EndsWith(d, "==") then d[..|d| - 2]
    else if |d| % 4 == 0 && EndsWith(d, "=") then d[..|d| - 1]
    else d
  }

  function Byte0(v0: int, v1: int): char
    requires 0 <= v0 < 64 && 0 <= v1 < 64
  {
    (v0 * 4 + v1 / 16) as char
  }

  function Byte1(v1: int, v2: int): char
    requires 0 <= v1 < 64 && 0 <= v2 < 64
  {
    (v1 % 16 * 16 + v2 / 4) as char
  }

  function Byte2(v2: int, v3: int): char
    requires 0 <= v2 < 64 && 0 <= v3 < 64
  {
    (v2 % 4 * 64 + v3) as char
  }

  /** Four characters to three bytes; a last group of two or three characters to one or two bytes. */
  function DecodeBody(d: string): string
    requires |d| % 4 != 1 && AllBase64(d)
    decreases |d|
  {
    if |d| == 0 then ""
    else
      var v0 := SextetOf(d[0]);
      var v1 := SextetOf(d[1]);
      if |d| == 2 then [Byte0(v0, v1)]
      else
        var v2 := SextetOf(d[2]);
        if |d| == 3 then [Byte0(v0, v1), Byte1(v1, v2)]
        else [Byte0(v0, v1), Byte1(v1, v2), Byte2(v2, SextetOf(d[3]))] + DecodeBody(d[4..])
  }

  /** `atob(data)`: None where it throws. */
  function Atob(data: string): Option<string> {
    var d := StripPadding(RemoveChars(data, IsAsciiWhitespace));
    if |d| % 4 == 1 || !AllBase64(d) then None else Some(DecodeBody(d))
  }

  /** `"===".slice((s.length + 3) % 4)`, with `s.length` counted in UTF-16 code units. */
  function PaddingFor(s: string): string {
    "==="[(JsonText.Utf16Length(s) + 3) % 4..]
  }

  /** `decodeTab(s)`: None where `atob` throws. */
  function DecodeTab(s: string): Option<string> {
    Atob(Replace(Replace(s, '-', '+'), '_', '/') + PaddingFor(s))
  }

  // ---------------------------------------------------------------------------
  // The initial tab
  // ---------------------------------------------------------------------------

  /** A JavaScript string is truthy when it is not empty. */
  predicate Truthy(s: Option<string>) {
    s.Some? && s.value != ""
  }

  /**
   * The tab the first effect selects: none when a tab is active or there
   * are no results; the decoded `t` parameter when it names a result; the
   * first result otherwise.
   */
  function InitialTab(active: Option<string>, tabs: seq<Tab>, t: Option<string>): Option<string> {
    if Truthy(active) || tabs == [] then active
    else
      var decoded := if Truthy(t) then DecodeTab(t.value) else None;
      if Truthy(decoded) && decoded.value in TabUrls(tabs) then decoded
      else Some(tabs[0].0)
  }

  /** The effect that picks the tab to show first; `t` is the query parameter, if present. */
  method SelectInitialTab(s: AppState, t: Option<string>)
    modifies s`activeTab
    ensures s.activeTab == InitialTab(old(s.activeTab), s.multiResults, t)
  {
    if Truthy(s.activeTab) || |s.multiResults| == 0 {
      return;
    }
    var decoded := if Truthy(t) then DecodeTab(t.value) else None;
    if Truthy(decoded) && decoded.value in TabUrls(s.multiResults) {
      s.activeTab := decoded;
      return;
    }
    s.activeTab := Some(s.multiResults[0].0);
  }

  // ---------------------------------------------------------------------------
  // Properties
  // ---------------------------------------------------------------------------

  /** `encodeTab` fails exactly on a character above U+00FF, and otherwise writes only `[A-Za-z0-9_-]`. */
  lemma EncodeTabAlphabet(url: string)
    ensures EncodeTab(url).None? <==> !IsLatin1(url)
    ensures EncodeTab(url).Some? ==> forall i :: 0 <= i < |EncodeTab(url).value| ==>
      var c := EncodeTab(url).value[i];
      && c != '+' && c != '/' && c != '='
      && (('A' <= c <= 'Z') || ('a' <= c <= 'z') || ('0' <= c <= '9') || c == '-' || c == '_')
  {
    if IsLatin1(url) {
      var b := Body(url);
      UrlBodyUnpadded(url);
      var u := Replace(Replace(b, '+', '-'), '/', '_');
      assert EncodeTab(url) == Some(u);
    }
  }

  /** The padding `decodeTab` appends. */
  lemma PaddingForCases(s: string)
    ensures JsonText.Utf16Length(s) % 4 == 0 ==> PaddingFor(s) == ""
    ensures JsonText.Utf16Length(s) % 4 == 2 ==> PaddingFor(s) == "=="
    ensures JsonText.Utf16Length(s) % 4 == 3 ==> PaddingFor(s) == "="
    ensures JsonText.Utf16Length(s) % 4 == 1 ==> PaddingFor(s) == "==="
  {
  }

  /** Any string of URL-safe characters whose length leaves 1 modulo 4 decodes to nothing. */
  lemma DecodeTabBadLength(s: string)
    requires forall i :: 0 <= i < |s| ==> s[i] != '=' && !IsAsciiWhitespace(s[i])
    requires forall i :: 0 <= i < |s| ==> (s[i] as int) <= 0xFFFF
    requires |s| % 4 == 1
    ensures DecodeTab(s).None?
  {
    Utf16Bmp(s);
    assert PaddingFor(s) == "===";
    var r := Replace(Replace(s, '-', '+'), '_', '/');
    assert forall i :: 0 <= i < |r| ==> r[i] != '=' && !IsAsciiWhitespace(r[i]);
    TriplePadRejected(r);
  }

  /** Three `=` after a length that leaves 1 modulo 4: `atob` keeps one `=` and throws. */
  lemma TriplePadRejected(r: string)
    requires forall i :: 0 <= i < |r| ==> !IsAsciiWhitespace(r[i])
    requires |r| % 4 == 1
    ensures Atob(r + "===").None?
  {
    var data := r + "===";
    assert forall i :: 0 <= i < |data| ==> !IsAsciiWhitespace(data[i]);
    RemoveCharsNone(data, IsAsciiWhitespace);
    var d := StripPadding(data);
    assert EndsWith(data, "==");
    assert d == data[..|data| - 2];
    assert !IsBase64Char(d[|d| - 1]);
  }

  lemma {:induction false} Utf16Bmp(s: string)
    requires forall i :: 0 <= i < |s| ==> (s[i] as int) <= 0xFFFF
    ensures JsonText.Utf16Length(s) == |s|
  {
    if s != [] {
      Utf16Bmp(s[1..]);
    }
  }

  /** The URL-safe body: no `=`, and `encodeTab` is exactly it. */
  lemma UrlBodyUnpadded(url: string)
    requires IsLatin1(url)
    ensures var u := Replace(Replace(Body(url), '+', '-'), '/', '_');
      && EncodeTab(url) == Some(u)
      && forall i :: 0 <= i < |u| ==>
        && u[i] != '+' && u[i] != '/' && u[i] != '='
        && (('A' <= u[i] <= 'Z') || ('a' <= u[i] <= 'z') || ('0' <= u[i] <= '9') || u[i] == '-' || u[i] == '_')
  {
    var b := Body(url);
    var p := Padding(|url|);
    var u := Replace(Replace(b, '+', '-'), '/', '_');
    var up := Replace(Replace(b + p, '+', '-'), '/', '_');
    assert up == u + p;
    TrimPadding(u, p);
  }

  lemma {:induction false} TrimPadding(u: string, p: string)
    requires forall i :: 0 <= i < |p| ==> p[i] == '='
    requires forall i :: 0 <= i < |u| ==> u[i] != '='
    ensures TrimTrailing(u + p, '=') == u
    decreases |p|
  {
    if p == [] {
      assert u + p == u;
      if u != [] {
        assert u[|u| - 1] != '=';
      }
    } else {
      assert (u + p)[..|u + p| - 1] == u + p[..|p| - 1];
      TrimPadding(u, p[..|p| - 1]);
    }
  }

  lemma GroupRoundTrip(b0: int, b1: int, b2: int)
    requires 0 <= b0 < 256 && 0 <= b1 < 256 && 0 <= b2 < 256
    ensures b0 / 4 * 4 + (b0 % 4 * 16 + b1 / 16) / 16 == b0
    ensures (b0 % 4 * 16 + b1 / 16) % 16 * 16 + (b1 % 16 * 4 + b2 / 64) / 4 == b1
    ensures (b1 % 16 * 4 + b2 / 64) % 4 * 64 + b2 % 64 == b2
    ensures (b0 % 4 * 16) / 16 == b0 % 4
    ensures (b1 % 16 * 4) / 4 == b1 % 16
  {
  }

  /** The sextets of a full group, read back. */
  lemma QuadSextets(b0: int, b1: int, b2: int)
    requires 0 <= b0 < 256 && 0 <= b1 < 256 && 0 <= b2 < 256
    ensures var q := Quad(b0, b1, b2);
      && SextetOf(q[0]) == b0 / 4
      && SextetOf(q[1]) == b0 % 4 * 16 + b1 / 16
      && SextetOf(q[2]) == b1 % 16 * 4 + b2 / 64
      && SextetOf(q[3]) == b2 % 64
  {
    SextetOfAlphabet(b0 / 4);
    SextetOfAlphabet(b0 % 4 * 16 + b1 / 16);
    SextetOfAlphabet(b1 % 16 * 4 + b2 / 64);
    SextetOfAlphabet(b2 % 64);
  }

  /** The three bytes of a full group, rebuilt from its sextets. */
  lemma QuadBytes(b0: int, b1: int, b2: int)
    requires 0 <= b0 < 256 && 0 <= b1 < 256 && 0 <= b2 < 256
    ensures Byte0(b0 / 4, b0 % 4 * 16 + b1 / 16) == b0 as char
    ensures Byte1(b0 % 4 * 16 + b1 / 16, b1 % 16 * 4 + b2 / 64) == b1 as char
    ensures Byte2(b1 % 16 * 4 + b2 / 64, b2 % 64) == b2 as char
  {
    GroupRoundTrip(b0, b1, b2);
  }

  /** A full group decodes to its three bytes, ahead of whatever follows. */
  lemma DecodeQuad(b0: int, b1: int, b2: int, rest: string)
    requires 0 <= b0 < 256 && 0 <= b1 < 256 && 0 <= b2 < 256
    requires |rest| % 4 != 1 && AllBase64(rest)
    ensures var d := Quad(b0, b1, b2) + rest;
      |d| % 4 != 1 && AllBase64(d) &&
      DecodeBody(d) == [b0 as char, b1 as char, b2 as char] + DecodeBody(rest)
  {
    var q := Quad(b0, b1, b2);
    var d := q + rest;
    QuadSextets(b0, b1, b2);
    QuadBytes(b0, b1, b2);
    assert d[0] == q[0] && d[1] == q[1] && d[2] == q[2] && d[3] == q[3];
    assert d[4..] == rest;
  }

  /** A last group of one byte decodes to that byte. */
  lemma DuoRoundTrip(b0: int)
    requires 0 <= b0 < 256
    ensures DecodeBody(Duo(b0)) == [b0 as char]
  {
    var d := Duo(b0);
    var v0, v1 := b0 / 4, b0 % 4 * 16;
    SextetOfAlphabet(v0);
    SextetOfAlphabet(v1);
    assert SextetOf(d[0]) == v0 && SextetOf(d[1]) == v1;
    GroupRoundTrip(b0, 0, 0);
    assert Byte0(v0, v1) == b0 as char;
  }

  /** A last group of two bytes decodes to those bytes. */
  lemma TrioRoundTrip(b0: int, b1: int)
    requires 0 <= b0 < 256 && 0 <= b1 < 256
    ensures DecodeBody(Trio(b0, b1)) == [b0 as char, b1 as char]
  {
    var d := Trio(b0, b1);
    var v0, v1, v2 := b0 / 4, b0 % 4 * 16 + b1 / 16, b1 % 16 * 4;
    SextetOfAlphabet(v0);
    SextetOfAlphabet(v1);
    SextetOfAlphabet(v2);
    assert SextetOf(d[0]) == v0 && SextetOf(d[1]) == v1 && SextetOf(d[2]) == v2;
    GroupRoundTrip(b0, b1, 0);
    assert Byte0(v0, v1) == b0 as char;
    assert Byte1(v1, v2) == b1 as char;
  }

  /** Decoding the body gives back the bytes. */
  lemma {:induction false} BodyRoundTrip(s: string)
    requires IsLatin1(s)
    ensures DecodeBody(Body(s)) == s
    decreases |s|
  {
    BodyLengthFacts(|s|);
    if |s| == 1 {
      DuoRoundTrip(s[0] as int);
    } else if |s| == 2 {
      TrioRoundTrip(s[0] as int, s[1] as int);
      assert [s[0], s[1]] == s;
    } else if |s| >= 3 {
      QuadStep(s);
      BodyRoundTrip(s[3..]);
      assert s[..3] + s[3..] == s;
    }
  }

  lemma BodyHead(s: string)
    requires IsLatin1(s) && |s| >= 3
    ensures Body(s) == Quad(s[0] as int, s[1] as int, s[2] as int) + Body(s[3..])
  {
  }

  /** One full group of the body, decoded. */
  lemma QuadStep(s: string)
    requires IsLatin1(s) && |s| >= 3
    ensures |Body(s)| % 4 != 1
    ensures DecodeBody(Body(s)) == s[..3] + DecodeBody(Body(s[3..]))
  {
    var b0, b1, b2 := s[0] as int, s[1] as int, s[2] as int;
    BodyHead(s);
    BodyLengthFacts(|s| - 3);
    DecodeQuad(b0, b1, b2, Body(s[3..]));
    assert [s[0], s[1], s[2]] == s[..3];
  }

  /**
   * The body never leaves one character over a multiple of four, the
   * padding completes it to a multiple of four, and the padding
   * `decodeTab` appends to the unpadded body is the padding `btoa` wrote.
   */
  lemma BodyLengthFacts(n: nat)
    ensures BodyLength(n) % 4 != 1
    ensures (BodyLength(n) + |Padding(n)|) % 4 == 0
  {
    BodyLengthMod(n);
  }

  /** Full groups add four characters each, so only the last group decides the length modulo four. */
  lemma BodyLengthMod(n: nat)
    ensures BodyLength(n) % 4 == (if n % 3 == 1 then 2 else if n % 3 == 2 then 3 else 0)
  {
    var q, k := n / 3, n % 3;
    assert BodyLength(n) == 4 * q + (if k == 1 then 2 else if k == 2 then 3 else 0);
  }
  /** `atob`'s padding step removes exactly the padding `btoa` added. */
  lemma StripPaddingOf(b: string, p: string)
    requires AllBase64(b) && (p == "" || p == "=" || p == "==") && (|b| + |p|) % 4 == 0
    ensures StripPadding(b + p) == b
  {
    var data := b + p;
    if p == "" {
      assert data == b;
      if |b| > 0 {
        assert b[|b| - 1] != '=';
      }
    } else if p == "=" {
      assert data[..|data| - 1] == b;
      if |b| > 0 {
        assert data[|data| - 2] == b[|b| - 1];
      }
    } else {
      assert data[..|data| - 2] == b;
    }
  }

  /** `atob` undoes `btoa`. */
  lemma AtobBtoa(url: string)
    requires IsLatin1(url)
    ensures Atob(Body(url) + Padding(|url|)) == Some(url)
  {
    var b := Body(url);
    var p := Padding(|url|);
    NoWhitespace(b, p);
    PaddedBody(b, p, |url|);
    StripPaddingOf(b, p);
    BodyRoundTrip(url);
    AtobOf(b + p, b);
  }

  lemma PaddedBody(b: string, p: string, n: nat)
    requires |b| == BodyLength(n) && p == Padding(n)
    ensures (|b| + |p|) % 4 == 0 && |b| % 4 != 1
  {
    BodyLengthFacts(n);
  }

  lemma NoWhitespace(b: string, p: string)
    requires AllBase64(b) && (p == "" || p == "=" || p == "==")
    ensures RemoveChars(b + p, IsAsciiWhitespace) == b + p
  {
    var data := b + p;
    assert forall i :: 0 <= i < |data| ==> !IsAsciiWhitespace(data[i]);
    RemoveCharsNone(data, IsAsciiWhitespace);
  }

  lemma AtobOf(data: string, d: string)
    requires StripPadding(RemoveChars(data, IsAsciiWhitespace)) == d
    requires |d| % 4 != 1 && AllBase64(d)
    ensures Atob(data) == Some(DecodeBody(d))
  {
  }

  /** Turning the URL-safe characters back gives the standard body. */
  lemma UndoUrlSafe(b: string)
    requires AllBase64(b)
    ensures var u := Replace(Replace(b, '+', '-'), '/', '_');
      Replace(Replace(u, '-', '+'), '_', '/') == b
  {
  }

  /** For a URL made of characters up to U+00FF, decoding the encoded tab gives the URL back. */
  lemma TabRoundTrip(url: string)
    requires IsLatin1(url)
    ensures EncodeTab(url).Some? && DecodeTab(EncodeTab(url).value) == Some(url)
  {
    var b := Body(url);
    var p := Padding(|url|);
    UrlBodyUnpadded(url);
    var u := Replace(Replace(b, '+', '-'), '/', '_');
    assert EncodeTab(url) == Some(u);
    UrlSafePadding(url, u);
    UndoUrlSafe(b);
    assert DecodeTab(u) == Atob(b + p);
    AtobBtoa(url);
  }

  lemma UrlSafePadding(url: string, u: string)
    requires IsLatin1(url) && u == Replace(Replace(Body(url), '+', '-'), '/', '_')
    ensures PaddingFor(u) == Padding(|url|)
  {
    UrlBodyUnpadded(url);
    assert forall i :: 0 <= i < |u| ==> (u[i] as int) <= 0xFFFF;
    Utf16Bmp(u);
    PaddingForBody(u, |url|);
  }

  lemma PaddingForBody(u: string, n: nat)
    requires JsonText.Utf16Length(u) == BodyLength(n)
    ensures PaddingFor(u) == Padding(n)
  {
    PaddingForCases(u);
    BodyLengthMod(n);
  }

  /** When the effect picks a tab, the tab is one of the results. */
  lemma InitialTabIsResult(active: Option<string>, tabs: seq<Tab>, t: Option<string>)
    requires !Truthy(active) && tabs != []
    ensures InitialTab(active, tabs, t).Some? && InitialTab(active, tabs, t).value in TabUrls(tabs)
  {
    assert TabUrls(tabs)[0] == tabs[0].0;
  }

  /**
   * After a reload the query parameter written for the active tab selects
   * that tab again, provided its URL has no character above U+00FF.
   */
  lemma ReloadRestoresTab(tabs: seq<Tab>, url: string)
    requires url != "" && url in TabUrls(tabs) && IsLatin1(url)
    ensures InitialTab(None, tabs, EncodeTab(url)) == Some(url)
  {
    TabRoundTrip(url);
    assert Truthy(EncodeTab(url)) by {
      var b := Body(url);
      assert |b| >= 2;
      UrlBodyUnpadded(url);
    }
  }
}
