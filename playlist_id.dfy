/**
 * Reference resolver of the ingestion pipeline: turns a web URL, a
 * `spotify:playlist:` URI or a bare identifier into the canonical
 * 22-character playlist id, or fails with InvalidReference.
 */
module PlaylistId {
  import opened Wrappers
  import opened Text

  const IdLength := 22

  /** `[A-Za-z0-9]{22}`, matched in full. */
  predicate IsCanonicalId(s: string) {
    |s| == IdLength && AllAsciiAlnum(s)
  }

  datatype ResolveError = InvalidReference(input: string)

  /** The three parts of Python's `urllib.parse.urlparse` result that the resolver reads. */
  datatype ParsedUrl = ParsedUrl(scheme: string, netloc: string, path: string)

  /** C0 controls and space, removed from the front of a URL before it is split. */
  predicate IsC0OrSpace(c: char) { c <= ' ' }

  /** Tab, carriage return and line feed, deleted anywhere in a URL before it is split. */
  predicate IsUnsafeUrlChar(c: char) { c == '\t' || c == '\r' || c == '\n' }

  predicate IsSchemeChar(c: char) { IsAsciiAlnum(c) || c == '+' || c == '-' || c == '.' }

  /** Schemes whose last path segment may carry `;params`, which `urlparse` splits off. */
  const UsesParams: seq<string> := ["", "ftp", "hdl", "prospero", "http", "imap", "https", "shttp",
                                    "rtsp", "rtsps", "rtspu", "sip", "sips", "mms", "sftp", "tel"]

  /** A scheme is the text before the first `:` when it is non-empty, starts with a letter and uses only scheme characters. */
  function SplitScheme(url: string): (r: (string, string))
    ensures r.0 == "" ==> r.1 == url
    ensures |r.1| <= |url|
  {
    var i := IndexOf(url, ':', 0);
    if 0 < i < |url| && IsAsciiLetter(url[0]) && forall k :: 0 <= k < i ==> IsSchemeChar(url[k])
    then (Lower(url[..i]), url[i + 1..])
    else ("", url)
  }

  /** After a leading `//`, the network location runs up to the first `/`, `?` or `#`. */
  function SplitNetloc(url: string): (r: (string, string))
    requires StartsWith(url, "//")
    ensures "//" + r.0 + r.1 == url
  {
    var a := IndexOf(url, '/', 2);
    var b := IndexOf(url, '?', 2);
    var c := IndexOf(url, '#', 2);
    var d := if a <= b && a <= c then a else if b <= c then b else c;
    (url[2..d], url[d..])
  }

  /** An unmatched `[` or `]` in the network location makes `urlsplit` raise ValueError. */
  predicate BracketMismatch(netloc: string) {
    ('[' in netloc && ']' !in netloc) || (']' in netloc && '[' !in netloc)
  }

  /** `_splitparams`: cut the path at the first `;` after its last `/` (or at its first `;` if it has no `/`). */
  function SplitParams(path: string): (r: string)
    ensures |r| <= |path| && r == path[..|r|]
  {
    var slash := LastIndexOf(path, '/');
    if slash >= 0 then path[..IndexOf(path, ';', slash)]
    else path[..IndexOf(path, ';', 0)]
  }

  /** Leading C0 controls and spaces dropped, then every tab, CR and LF deleted. */
  function CleanUrl(s: string): string {
    RemoveChars(TrimStart(s, IsC0OrSpace), IsUnsafeUrlChar)
  }

  /** The path: what follows the network location, up to the first `#` and then the first `?`. */
  function PathPart(rest: string): (r: string)
    ensures '#' !in r && '?' !in r
    ensures |r| <= |rest|
  {
    var noFragment := rest[..IndexOf(rest, '#', 0)];
    IndexOfFirst(rest, '#', 0);
    IndexOfFirst(noFragment, '?', 0);
    noFragment[..IndexOf(noFragment, '?', 0)]
  }

  /** Python's `urlparse`, reduced to scheme, netloc and path; Failure stands for its ValueError. */
  function UrlParse(s: string): (r: Result<ParsedUrl, ()>)
    ensures r.Success? ==> |r.value.path| <= |s|
    ensures r.Success? ==> r.value.scheme == SplitScheme(CleanUrl(s)).0
    ensures r.Success? && r.value.netloc != "" ==> StartsWith(SplitScheme(CleanUrl(s)).1, "//")
  {
    var (scheme, rest) := SplitScheme(CleanUrl(s));
    var (netloc, rest2) := if StartsWith(rest, "//") then SplitNetloc(rest) else ("", rest);
    if BracketMismatch(netloc) then Failure(())
    else
      var path := PathPart(rest2);
      Success(ParsedUrl(scheme, netloc, if scheme in UsesParams && ';' in path then SplitParams(path) else path))
  }

  predicate IsSlash(c: char) { c == '/' }

  /** `path.rstrip("/").split("/")[-1]`: the text after the last `/` once trailing slashes are gone. */
  function LastSegment(path: string): (r: string)
    ensures '/' !in r
    ensures |r| <= |path|
  {
    var p := TrimEnd(path, IsSlash);
    LastIndexOfLast(p, '/');
    p[LastIndexOf(p, '/') + 1..]
  }

  /** Step 1: a canonical last path segment of a URL that has both a scheme and a host. */
  function UrlCandidate(s: string): (r: Option<string>)
    ensures r.Some? ==> IsCanonicalId(r.value)
  {
    match UrlParse(s)
    case Failure(_) => None
    case Success(p) =>
      if p.scheme != "" && p.netloc != "" && IsCanonicalId(LastSegment(p.path)) then Some(LastSegment(p.path))
      else None
  }

  /** `playlist/` or `playlist:` at `i`, followed by 22 letters and digits. */
  predicate MarkerAt(s: string, i: int) {
    0 <= i && i + 9 + IdLength <= |s|
    && s[i..i + 8] == "playlist" && (s[i + 8] == '/' || s[i + 8] == ':')
    && AllAsciiAlnum(s[i + 9..i + 9 + IdLength])
  }

  /** Step 2, `re.search(r"(?:playlist[/:])([A-Za-z0-9]{22})", s)`: the leftmost marker at or after `from`. */
  function SearchMarker(s: string, from: nat): (r: Option<nat>)
    requires from <= |s|
    ensures r.Some? ==> from <= r.value && MarkerAt(s, r.value)
    decreases |s| - from
  {
    if from + 9 + IdLength > |s| then None
    else if MarkerAt(s, from) then Some(from)
    else SearchMarker(s, from + 1)
  }

  /** The search misses no marker: it reports the leftmost one, or none when there is none. */
  lemma SearchMarkerLeftmost(s: string, from: nat)
    requires from <= |s|
    ensures SearchMarker(s, from).Some? ==> forall k :: from <= k < SearchMarker(s, from).value ==> !MarkerAt(s, k)
    ensures SearchMarker(s, from).None? ==> forall k :: from <= k ==> !MarkerAt(s, k)
    decreases |s| - from
  {
    if from + 9 + IdLength <= |s| && !MarkerAt(s, from) {
      SearchMarkerLeftmost(s, from + 1);
    }
  }

  /**
   * `extract_playlist_id`: strip the input, then try the URL path, the marker
   * search and a bare-id full match, in that order; fail if none applies.
   */
  function ExtractPlaylistId(input: string): (r: Result<string, ResolveError>)
    ensures r.Success? ==> IsCanonicalId(r.value)
    ensures r.Failure? ==> r.error == InvalidReference(input)
  {
    var s := PyStrip(input);
    match UrlCandidate(s)
    case Some(id) => Success(id)
    case None =>
      match SearchMarker(s, 0)
      case Some(i) => Success(s[i + 9..i + 9 + IdLength])
      case None => if IsCanonicalId(s) then Success(s) else Failure(InvalidReference(input))
  }

  predicate AllPyWhitespace(w: string) {
    forall i :: 0 <= i < |w| ==> IsPyWhitespace(w[i])
  }

  /** A string of letters, digits and URL punctuation passes the pre-split clean-up of `urlsplit` unchanged. */
  lemma CleanUrlUnchanged(s: string)
    requires s != [] && s[0] > ' '
    requires forall i :: 0 <= i < |s| ==> !IsUnsafeUrlChar(s[i])
    ensures CleanUrl(s) == s
  {
    assert TrimStart(s, IsC0OrSpace) == s;
    RemoveCharsNone(s, IsUnsafeUrlChar);
  }

  /** No marker can start inside a run of letters and digits. */
  lemma NoMarkerInAlnum(s: string)
    requires AllAsciiAlnum(s)
    ensures forall k :: !MarkerAt(s, k)
  {
    forall k | MarkerAt(s, k) ensures false {
    }
  }

  lemma NoSchemeWithoutColon(u: string)
    requires ':' !in u
    ensures SplitScheme(u).0 == ""
  {
    IndexOfAt(u, ':', 0, |u|);
  }

  /** Step 1 needs a scheme. */
  lemma SchemelessNoCandidate(s: string)
    requires SplitScheme(CleanUrl(s)).0 == ""
    ensures UrlCandidate(s).None?
  {
  }

  /** A string without `:` has no scheme, so step 1 never applies to it. */
  lemma NoColonNoCandidate(s: string)
    requires s != [] && s[0] > ' ' && ':' !in s
    requires forall i :: 0 <= i < |s| ==> !IsUnsafeUrlChar(s[i])
    ensures UrlCandidate(s).None?
  {
    CleanUrlUnchanged(s);
    NoSchemeWithoutColon(s);
    SchemelessNoCandidate(s);
  }

  /** Step 1 needs a network location, which only a `//` after the scheme introduces. */
  lemma NoNetlocNoCandidate(s: string)
    requires !StartsWith(SplitScheme(CleanUrl(s)).1, "//")
    ensures UrlCandidate(s).None?
  {
  }

  /** The scheme ends at the first `:`, and is lower-cased. */
  lemma SplitSchemeAt(u: string, i: nat)
    requires 0 < i < |u| && u[i] == ':' && IsAsciiLetter(u[0])
    requires forall k :: 0 <= k < i ==> IsSchemeChar(u[k]) && u[k] != ':'
    ensures SplitScheme(u) == (Lower(u[..i]), u[i + 1..])
  {
    IndexOfAt(u, ':', 0, i);
  }

  lemma LowerOfLowercase(s: string)
    requires forall k :: 0 <= k < |s| ==> !('A' <= s[k] <= 'Z')
    ensures Lower(s) == s
  {
  }

  /** The network location ends at the first `/`, `?` or `#` after the leading `//`. */
  lemma SplitNetlocAt(u: string, d: nat)
    requires StartsWith(u, "//") && 2 <= d < |u| && (u[d] == '/' || u[d] == '?' || u[d] == '#')
    requires forall k :: 2 <= k < d ==> u[k] != '/' && u[k] != '?' && u[k] != '#'
    ensures SplitNetloc(u) == (u[2..d], u[d..])
  {
    IndexOfFirst(u, '/', 2);
    IndexOfFirst(u, '?', 2);
    IndexOfFirst(u, '#', 2);
    var a, b, c := IndexOf(u, '/', 2), IndexOf(u, '?', 2), IndexOf(u, '#', 2);
    assert d <= a && d <= b && d <= c;
  }

  /** Without a `#`, the path runs up to the first `?`. */
  lemma PathPartAt(u: string, q: nat)
    requires '#' !in u && q < |u| && u[q] == '?' && '?' !in u[..q]
    ensures PathPart(u) == u[..q]
  {
    IndexOfAt(u, '#', 0, |u|);
    assert u[..|u|] == u;
    assert forall k :: 0 <= k < q ==> u[k] == u[..q][k];
    IndexOfAt(u, '?', 0, q);
  }

  /** The last segment of a path is what follows its last `/`. */
  lemma LastSegmentAt(path: string, j: nat)
    requires j < |path| - 1 && path[j] == '/' && '/' !in path[j + 1..]
    ensures LastSegment(path) == path[j + 1..]
  {
    assert TrimEnd(path, IsSlash) == path;
    assert forall k :: j < k < |path| ==> path[k] == path[j + 1..][k - j - 1];
    LastIndexOfAt(path, '/', j);
  }

  lemma SearchMarkerAt(s: string, from: nat, i: nat)
    requires from <= i && MarkerAt(s, i) && forall k :: from <= k < i ==> !MarkerAt(s, k)
    ensures SearchMarker(s, from) == Some(i)
    decreases i - from
  {
    if from < i {
      SearchMarkerAt(s, from + 1, i);
    }
  }

  /** Step 2 reports the leftmost marker. */
  lemma SearchFinds(s: string, i: nat)
    requires MarkerAt(s, i) && forall k :: 0 <= k < i ==> !MarkerAt(s, k)
    ensures SearchMarker(s, 0) == Some(i)
  {
    SearchMarkerAt(s, 0, i);
  }

  /** A `:` at `p` rules out a marker that would cover it within its first eight characters. */
  lemma NoMarkerOverColon(s: string, p: nat)
    requires p < |s| && s[p] == ':'
    ensures forall k :: p - 7 <= k <= p ==> !MarkerAt(s, k)
  {
    forall k | p - 7 <= k <= p ensures !MarkerAt(s, k) {
      if 0 <= k && k + 8 <= |s| {
        assert s[k..k + 8][p - k] == ':';
      }
    }
  }

  /** A bare id, with any surrounding whitespace, resolves to itself (core.py line 65). */
  lemma BareIdResolves(id: string, w1: string, w2: string)
    requires IsCanonicalId(id) && AllPyWhitespace(w1) && AllPyWhitespace(w2)
    ensures ExtractPlaylistId(w1 + id + w2) == Success(id)
  {
    StripPadded(w1, id, w2, IsPyWhitespace);
    NoColonNoCandidate(id);
    NoMarkerInAlnum(id);
  }

  lemma PathPartWhole(u: string)
    requires '#' !in u && '?' !in u
    ensures PathPart(u) == u
  {
    IndexOfAt(u, '#', 0, |u|);
    assert u[..|u|] == u;
    IndexOfAt(u, '?', 0, |u|);
  }
}
