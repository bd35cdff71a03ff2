/**
 * What the reference resolver does with the three reference forms: web URLs,
 * `spotify:playlist:` URIs and bare ids, surrounding white space, and inputs
 * that cannot hold an id.
 */
module PlaylistIdForms {
  import opened Wrappers
  import opened Text
  import opened PlaylistId

  predicate IsHostChar(c: char) { IsAsciiAlnum(c) || c == '.' }
  predicate IsPathChar(c: char) { IsAsciiAlnum(c) || c == '/' }
  predicate IsQueryChar(c: char) { IsAsciiAlnum(c) || c == '?' || c == '=' }

  /** Every character of `s` satisfies `p`. */
  predicate All(s: string, p: char -> bool) {
    forall k :: 0 <= k < |s| ==> p(s[k])
  }

  /** A lower-case scheme followed by `:` is split off as the scheme. */
  lemma SplitSchemeOf(scheme: string, r: string)
    requires scheme != [] && IsAsciiLetter(scheme[0]) && All(scheme, IsSchemeChar)
    requires forall k :: 0 <= k < |scheme| ==> !('A' <= scheme[k] <= 'Z')
    ensures SplitScheme(scheme + ":" + r) == (scheme, r)
  {
    var u := scheme + ":" + r;
    var i := |scheme|;
    assert u[..i] == scheme && u[i] == ':' && u[i + 1..] == r;
    forall k | 0 <= k < i ensures IsSchemeChar(u[k]) && u[k] != ':' { assert u[k] == scheme[k]; }
    SplitSchemeAt(u, i);
    LowerOfLowercase(scheme);
  }

  /** A host free of `/`, `?` and `#`, followed by a path, is split off as the network location. */
  lemma SplitNetlocOf(host: string, r: string)
    requires forall k :: 0 <= k < |host| ==> host[k] != '/' && host[k] != '?' && host[k] != '#'
    requires r != [] && r[0] == '/'
    ensures SplitNetloc("//" + host + r) == (host, r)
  {
    var u := "//" + host + r;
    var d := 2 + |host|;
    assert u[2..d] == host && u[d..] == r && u[d] == '/';
    forall k | 2 <= k < d ensures u[k] != '/' && u[k] != '?' && u[k] != '#' { assert u[k] == host[k - 2]; }
    SplitNetlocAt(u, d);
  }

  /** A path without `?` and `#`, followed by nothing or by a query, is the path part. */
  lemma PathPartOf(path: string, query: string)
    requires '#' !in path && '?' !in path && '#' !in query
    requires query == [] || query[0] == '?'
    ensures PathPart(path + query) == path
  {
    var u := path + query;
    if query == [] {
      assert u == path;
      PathPartWhole(path);
    } else {
      assert u[..|path|] == path && u[|path|] == '?';
      PathPartAt(u, |path|);
    }
  }

  lemma HttpsUrlClean(host: string, path: string, query: string)
    requires All(host, IsHostChar) && All(path, IsPathChar) && All(query, IsQueryChar)
    ensures CleanUrl("https://" + host + path + query) == "https://" + host + path + query
  {
    var x := "https://" + host + path + query;
    var n := 8 + |host|;
    forall k | 0 <= k < |x| ensures !IsUnsafeUrlChar(x[k]) {
      if k < 8 { assert x[k] == "https://"[k]; }
      else if k < n { assert x[k] == host[k - 8]; }
      else if k < n + |path| { assert x[k] == path[k - n]; }
      else { assert x[k] == query[k - n - |path|]; }
    }
    assert x[0] == 'h';
    CleanUrlUnchanged(x);
  }

  /** A URL made of a scheme, a host, a path and an optional query splits into those parts. */
  lemma UrlSplits(scheme: string, host: string, path: string, query: string)
    requires scheme != [] && IsAsciiLetter(scheme[0]) && All(scheme, IsSchemeChar)
    requires forall k :: 0 <= k < |scheme| ==> !('A' <= scheme[k] <= 'Z')
    requires host != [] && All(host, IsHostChar)
    requires path != [] && path[0] == '/' && All(path, IsPathChar)
    requires query == [] || (query[0] == '?' && All(query, IsQueryChar))
    requires CleanUrl(scheme + ":" + ("//" + host + (path + query))) == scheme + ":" + ("//" + host + (path + query))
    ensures UrlParse(scheme + ":" + ("//" + host + (path + query))) == Success(ParsedUrl(scheme, host, path))
  {
    var u, r := scheme + ":" + ("//" + host + (path + query)), "//" + host + (path + query);
    assert StartsWith(r, "//") by { assert r[..2] == "//"; }
    assert !BracketMismatch(host) by {
      assert '[' !in host && ']' !in host;
    }
    assert ';' !in path;
    SplitSchemeOf(scheme, r);
    SplitNetlocOf(host, path + query);
    PathPartOf(path, query);
    UrlParseOfParts(u, scheme, r, host, path + query, path);
  }

  /** `urlparse` put together from its steps. */
  lemma UrlParseOfParts(u: string, scheme: string, r: string, host: string, rest: string, path: string)
    requires CleanUrl(u) == u && SplitScheme(u) == (scheme, r)
    requires StartsWith(r, "//") && SplitNetloc(r) == (host, rest) && !BracketMismatch(host)
    requires PathPart(rest) == path && ';' !in path
    ensures UrlParse(u) == Success(ParsedUrl(scheme, host, path))
  {
  }

  /** An `https` URL made of a host, a path and an optional query splits into those parts. */
  lemma HttpsUrlParses(host: string, path: string, query: string)
    requires host != [] && All(host, IsHostChar)
    requires path != [] && path[0] == '/' && All(path, IsPathChar)
    requires query == [] || (query[0] == '?' && All(query, IsQueryChar))
    ensures UrlParse("https://" + host + path + query) == Success(ParsedUrl("https", host, path))
  {
    var scheme := "https";
    assert "https://" + host + path + query == scheme + ":" + ("//" + host + (path + query));
    assert IsAsciiLetter(scheme[0]) && All(scheme, IsSchemeChar);
    HttpsUrlClean(host, path, query);
    UrlSplits(scheme, host, path, query);
  }

  /** Step 1 applies to a URL with a scheme and a host whose path ends in a canonical segment. */
  lemma CandidateFromPath(x: string, scheme: string, host: string, path: string)
    requires UrlParse(x) == Success(ParsedUrl(scheme, host, path))
    requires scheme != "" && host != "" && IsCanonicalId(LastSegment(path))
    ensures UrlCandidate(x) == Some(LastSegment(path))
  {
  }

  /** Whitespace around a reference that already resolves does not change what it resolves to. */
  lemma PaddingIgnored(x: string, w1: string, w2: string)
    requires x != [] && PyStrip(x) == x && AllPyWhitespace(w1) && AllPyWhitespace(w2)
    ensures ExtractPlaylistId(x).Success? ==> ExtractPlaylistId(w1 + x + w2) == ExtractPlaylistId(x)
    ensures ExtractPlaylistId(x).Failure? ==> ExtractPlaylistId(w1 + x + w2).Failure?
  {
    assert NoEdge(x, IsPyWhitespace);
    StripPadded(w1, x, w2, IsPyWhitespace);
    SameStripSameResult(w1 + x + w2, x);
  }

  /** Inputs that strip to the same text resolve alike. */
  lemma SameStripSameResult(a: string, b: string)
    requires PyStrip(a) == PyStrip(b)
    ensures ExtractPlaylistId(a).Success? <==> ExtractPlaylistId(b).Success?
    ensures ExtractPlaylistId(a).Success? ==> ExtractPlaylistId(a) == ExtractPlaylistId(b)
  {
  }

  /** Letters, digits and `/` make a path with a canonical last segment when it ends in `/` and an id. */
  lemma PlaylistPathSegment(prefix: string, id: string)
    requires IsCanonicalId(id) && prefix != [] && prefix[0] == '/' && All(prefix, IsPathChar)
    ensures var path := prefix + "/" + id;
            All(path, IsPathChar) && path[0] == '/' && LastSegment(path) == id
  {
    var path := prefix + "/" + id;
    var n := |prefix|;
    forall k | 0 <= k < |path| ensures IsPathChar(path[k]) {
      if k < n { assert path[k] == prefix[k]; }
      else if k > n { assert path[k] == id[k - n - 1]; }
    }
    assert path[n + 1..] == id;
    LastSegmentAt(path, n);
  }

  /** A string that starts and ends with a visible ASCII character is its own stripped form. */
  lemma VisibleEdgesStrip(x: string)
    requires x != [] && ' ' < x[0] <= '~' && ' ' < x[|x| - 1] <= '~'
    ensures PyStrip(x) == x
  {
    StripNoEdge(x, IsPyWhitespace);
  }

  /** A stripped reference found by step 1 resolves to it. */
  lemma ResolvesByCandidate(x: string, id: string)
    requires PyStrip(x) == x && UrlCandidate(x) == Some(id)
    ensures ExtractPlaylistId(x) == Success(id)
  {
  }

  /** A stripped reference that step 1 rejects resolves to its leftmost marker. */
  lemma ResolvesByMarker(x: string, i: nat)
    requires PyStrip(x) == x && UrlCandidate(x).None? && SearchMarker(x, 0) == Some(i)
    ensures ExtractPlaylistId(x) == Success(x[i + 9..i + 9 + IdLength])
  {
  }

  /** `https://<host>/playlist/<a>/<b>` carries a marker right after the host, followed by `a`. */
  lemma UrlPathMarker(host: string, a: string, b: string)
    requires host != [] && All(host, IsHostChar) && IsCanonicalId(a) && IsCanonicalId(b)
    ensures var x := "https://" + host + "/playlist/" + a + "/" + b;
            var m := 9 + |host|;
            && MarkerAt(x, m) && x[m + 9..m + 31] == a
            && IsAsciiAlnum(x[0]) && IsAsciiAlnum(x[|x| - 1])
  {
    var x := "https://" + host + "/playlist/" + a + "/" + b;
    var m := 9 + |host|;
    assert x[m..m + 8] == "playlist" && x[m + 8] == '/' && x[m + 9..m + 31] == a;
    assert x[0] == 'h' && x[|x| - 1] == b[21];
  }

  /** Step 1 takes the last segment `b` of `https://<host>/playlist/<a>/<b>`. */
  lemma UrlPathCandidate(host: string, a: string, b: string)
    requires host != [] && All(host, IsHostChar) && IsCanonicalId(a) && IsCanonicalId(b)
    ensures UrlCandidate("https://" + host + "/playlist/" + a + "/" + b) == Some(b)
  {
    var x := "https://" + host + "/playlist/" + a + "/" + b;
    var prefix := "/playlist/" + a;
    var path := prefix + "/" + b;
    assert x == "https://" + host + path + "";
    assert All(prefix, IsPathChar) by {
      forall k | 10 <= k < |prefix| ensures IsPathChar(prefix[k]) { assert prefix[k] == a[k - 10]; }
    }
    PlaylistPathSegment(prefix, b);
    HttpsUrlParses(host, path, "");
    CandidateFromPath(x, "https", host, path);
  }

  /**
   * The URL step runs before the marker search: in a URL whose path holds a
   * marker and a second id, the last path segment wins (core.py lines 71-86).
   */
  lemma UrlPathBeforeMarker(host: string, a: string, b: string)
    requires host != [] && All(host, IsHostChar) && IsCanonicalId(a) && IsCanonicalId(b)
    ensures var x := "https://" + host + "/playlist/" + a + "/" + b;
            var m := 9 + |host|;
            && MarkerAt(x, m) && x[m + 9..m + 31] == a
            && ExtractPlaylistId(x) == Success(b)
  {
    var x := "https://" + host + "/playlist/" + a + "/" + b;
    UrlPathMarker(host, a, b);
    VisibleEdgesStrip(x);
    UrlPathCandidate(host, a, b);
    ResolvesByCandidate(x, b);
  }

  lemma WebUrlCandidate(id: string, si: string)
    requires IsCanonicalId(id) && AllAsciiAlnum(si)
    ensures UrlCandidate("https://open.spotify.com/playlist/" + id + "?si=" + si) == Some(id)
  {
    var x := "https://open.spotify.com/playlist/" + id + "?si=" + si;
    var path := "/playlist" + "/" + id;
    WebUrlParses(id, si);
    SpotifyLiterals();
    PlaylistPathSegment("/playlist", id);
    CandidateFromPath(x, "https", "open.spotify.com", path);
  }

  lemma WebUrlParses(id: string, si: string)
    requires IsCanonicalId(id) && AllAsciiAlnum(si)
    ensures UrlParse("https://open.spotify.com/playlist/" + id + "?si=" + si)
      == Success(ParsedUrl("https", "open.spotify.com", "/playlist" + "/" + id))
  {
    var x := "https://open.spotify.com/playlist/" + id + "?si=" + si;
    var path := "/playlist" + "/" + id;
    var query := "?si=" + si;
    assert x == "https://" + "open.spotify.com" + path + query;
    ShareTokenQuery(si);
    SpotifyLiterals();
    PlaylistPathSegment("/playlist", id);
    HttpsUrlParses("open.spotify.com", path, query);
  }

  lemma SpotifyLiterals()
    ensures All("open.spotify.com", IsHostChar) && All("/playlist", IsPathChar)
  {
  }

  lemma ShareTokenQuery(si: string)
    requires AllAsciiAlnum(si)
    ensures All("?si=" + si, IsQueryChar)
  {
    var query := "?si=" + si;
    forall k | 4 <= k < |query| ensures IsQueryChar(query[k]) { assert query[k] == si[k - 4]; }
  }

  /** The web form resolves to the id in its path, whatever share token follows (core.py lines 71-86). */
  lemma WebUrlResolves(id: string, si: string)
    requires IsCanonicalId(id) && AllAsciiAlnum(si)
    ensures ExtractPlaylistId("https://open.spotify.com/playlist/" + id + "?si=" + si) == Success(id)
  {
    var x := "https://open.spotify.com/playlist/" + id + "?si=" + si;
    assert x[0] == 'h';
    if si != [] { assert x[|x| - 1] == si[|si| - 1]; } else { assert x[|x| - 1] == '='; }
    VisibleEdgesStrip(x);
    WebUrlCandidate(id, si);
    ResolvesByCandidate(x, id);
  }

  /** The URI form has no host, so the marker search finds the id right after `spotify:playlist:`. */
  lemma UriSearch(id: string, tail: string)
    requires IsCanonicalId(id) && AllAsciiAlnum(tail)
    ensures var x := "spotify:playlist:" + id + tail;
            && SearchMarker(x, 0) == Some(8) && x[17..39] == id
            && IsAsciiLetter(x[0]) && IsAsciiAlnum(x[|x| - 1])
  {
    var x := "spotify:playlist:" + id + tail;
    assert x[..17] == "spotify:playlist:" && x[17..39] == id;
    assert x[8..16] == "playlist" && x[16] == ':' && x[7] == ':';
    assert x[0] == 's';
    if tail != [] { assert x[|x| - 1] == tail[|tail| - 1]; } else { assert x[|x| - 1] == id[21]; }
    assert MarkerAt(x, 8);
    NoMarkerOverColon(x, 7);
    SearchFinds(x, 8);
  }

  /** A scheme not followed by `//` is split off and leaves no host. */
  lemma SchemeWithoutHost(scheme: string, r: string)
    requires scheme != [] && IsAsciiLetter(scheme[0]) && All(scheme, IsSchemeChar)
    requires forall k :: 0 <= k < |scheme| ==> !('A' <= scheme[k] <= 'Z')
    requires r != [] && r[0] != '/'
    ensures SplitScheme(scheme + ":" + r) == (scheme, r) && !StartsWith(r, "//")
  {
    assert !StartsWith(r, "//") by { if |r| >= 2 { assert r[..2][0] == r[0]; } }
    SplitSchemeOf(scheme, r);
  }

  /** Step 1 does not apply to a clean URL whose scheme is not followed by `//`. */
  lemma NoHostNoCandidate(u: string, r: string)
    requires CleanUrl(u) == u && SplitScheme(u).1 == r && !StartsWith(r, "//")
    ensures UrlCandidate(u).None?
  {
    NoNetlocNoCandidate(u);
  }

  lemma UriClean(id: string, tail: string)
    requires IsCanonicalId(id) && AllAsciiAlnum(tail)
    ensures CleanUrl("spotify" + ":" + ("playlist:" + id + tail)) == "spotify" + ":" + ("playlist:" + id + tail)
  {
    var x := "spotify" + ":" + ("playlist:" + id + tail);
    forall k | 0 <= k < |x| ensures !IsUnsafeUrlChar(x[k]) {
      if k < 17 { assert x[k] == "spotify:playlist:"[k]; }
      else if k < 39 { assert x[k] == id[k - 17]; }
      else { assert x[k] == tail[k - 39]; }
    }
    assert x[0] == 's';
    CleanUrlUnchanged(x);
  }

  lemma UriNoCandidate(id: string, tail: string)
    requires IsCanonicalId(id) && AllAsciiAlnum(tail)
    ensures UrlCandidate("spotify:playlist:" + id + tail).None?
  {
    assert "spotify:playlist:" + id + tail == "spotify" + ":" + ("playlist:" + id + tail);
    assert IsAsciiLetter("spotify"[0]) && All("spotify", IsSchemeChar);
    SchemeWithoutHost("spotify", "playlist:" + id + tail);
    UriClean(id, tail);
    NoHostNoCandidate("spotify" + ":" + ("playlist:" + id + tail), "playlist:" + id + tail);
  }

  /**
   * The URI form resolves to its 22 characters after the marker; a longer
   * run of letters and digits yields its first 22 (core.py lines 83-86).
   */
  lemma UriResolves(id: string, tail: string)
    requires IsCanonicalId(id) && AllAsciiAlnum(tail)
    ensures ExtractPlaylistId("spotify:playlist:" + id + tail) == Success(id)
  {
    UriSearch(id, tail);
    VisibleEdgesStrip("spotify:playlist:" + id + tail);
    UriNoCandidate(id, tail);
    ResolvesByMarker("spotify:playlist:" + id + tail, 8);
  }

  /** The three reference forms of one playlist all resolve to its id, with or without surrounding white space. */
  lemma ReferenceFormsAgree(id: string, si: string, w1: string, w2: string)
    requires IsCanonicalId(id) && AllAsciiAlnum(si) && AllPyWhitespace(w1) && AllPyWhitespace(w2)
    ensures ExtractPlaylistId(w1 + ("https://open.spotify.com/playlist/" + id + "?si=" + si) + w2) == Success(id)
    ensures ExtractPlaylistId(w1 + ("spotify:playlist:" + id) + w2) == Success(id)
    ensures ExtractPlaylistId(w1 + id + w2) == Success(id)
  {
    var web, uri := "https://open.spotify.com/playlist/" + id + "?si=" + si, "spotify:playlist:" + id;
    assert uri + "" == uri;
    assert web[0] == 'h' && uri[0] == 's';
    if si != [] { assert web[|web| - 1] == si[|si| - 1]; } else { assert web[|web| - 1] == '='; }
    assert uri[|uri| - 1] == id[21];
    VisibleEdgesStrip(web);
    VisibleEdgesStrip(uri);
    WebUrlResolves(id, si);
    UriResolves(id, "");
    PaddingIgnored(web, w1, w2);
    PaddingIgnored(uri, w1, w2);
    BareIdResolves(id, w1, w2);
  }

  /** Resolution fails exactly when none of the three steps applies to the stripped input. */
  lemma ExtractFailsExactly(input: string)
    ensures var s := PyStrip(input);
            ExtractPlaylistId(input).Failure? <==>
              UrlCandidate(s).None? && (forall k :: !MarkerAt(s, k)) && !IsCanonicalId(s)
  {
    SearchMarkerLeftmost(PyStrip(input), 0);
  }

  /** A reference shorter than an id once stripped never resolves (core.py lines 89-93). */
  lemma ShortReferenceRejected(input: string)
    requires |PyStrip(input)| < IdLength
    ensures ExtractPlaylistId(input) == Failure(InvalidReference(input))
  {
    var s := PyStrip(input);
    assert UrlCandidate(s).None?;
    assert SearchMarker(s, 0).None?;
  }
}
