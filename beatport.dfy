/**
 * The Beatport affiliate rule: add the `a_aid` query parameter to Beatport
 * links, over a simplified absolute-URL record with its own parser and
 * serialiser.
 */
module BeatportAffiliate {
  import opened Wrappers
  import opened Text

  // ---------------------------------------------------------------------------
  // Absolute URLs
  // ---------------------------------------------------------------------------

  /**
   * `scheme://userinfo hostname port path ?query #fragment`. `userinfo` keeps
   * its closing `@` and `port` its leading `:`; both are "" when absent.
   */
  datatype Url = Url(
    scheme: string,
    userinfo: string,
    hostname: string,
    port: string,
    path: string,
    query: Option<string>,
    fragment: Option<string>)

  predicate IsSchemeChar(c: char) {
    IsAsciiAlnum(c) || c == '+' || c == '-' || c == '.'
  }

  predicate ValidScheme(s: string) {
    s != [] && IsAsciiLetter(s[0]) && forall i :: 0 <= i < |s| ==> IsSchemeChar(s[i])
  }

  /** Schemes whose host is case-insensitive and whose path is never empty. */
  predicate IsSpecial(scheme: string) {
    scheme in {"http", "https", "ws", "wss", "ftp", "file"}
  }

  /** The user information up to and including the last `@`, and the rest. */
  function SplitUserinfo(authority: string): (string, string) {
    var at := LastIndexOf(authority, '@');
    (authority[..at + 1], authority[at + 1..])
  }

  /** The host name up to the first `:`, and the port from there. */
  function SplitPort(hostPort: string): (string, string) {
    var h := IndexOf(hostPort, ':', 0);
    (hostPort[..h], hostPort[h..])
  }

  /** Splits an authority into user information, host name and port. */
  function SplitAuthority(authority: string): (string, string, string) {
    var (userinfo, hostPort) := SplitUserinfo(authority);
    var (host, port) := SplitPort(hostPort);
    (userinfo, host, port)
  }

  /** `s` cut at its first `c`: the part before, and the part after if there is a `c`. */
  function SplitAt(s: string, c: char): (string, Option<string>) {
    var i := IndexOf(s, c, 0);
    (s[..i], if i < |s| then Some(s[i + 1..]) else None)
  }

  /** The text `SplitAt` cuts back into its two parts. */
  function Rejoin(before: string, c: char, after: Option<string>): string {
    if after.Some? then before + [c] + after.value else before
  }

  /** Everything after `scheme://`. */
  function ParseAfterScheme(scheme: string, body: string): Option<Url> {
    var (beforeFragment, fragment) := SplitAt(body, '#');
    var (hierPart, query) := SplitAt(beforeFragment, '?');
    var a := IndexOf(hierPart, '/', 0);
    var rawPath := hierPart[a..];
    var (userinfo, rawHost, port) := SplitAuthority(hierPart[..a]);
    if rawHost == "" then None
    else Some(Url(
      scheme,
      userinfo,
      if IsSpecial(scheme) then Lower(rawHost) else rawHost,
      port,
      if IsSpecial(scheme) && rawPath == "" then "/" else rawPath,
      query,
      fragment))
  }

  /** `new URL(s)` for an absolute URL with an authority; None where the constructor throws or no host is given. */
  function Parse(s: string): Option<Url> {
    var i := IndexOf(s, ':', 0);
    if i == |s| || !ValidScheme(s[..i]) || !StartsWith(s[i + 1..], "//") then None
    else ParseAfterScheme(Lower(s[..i]), s[i + 3..])
  }

  /** `u.toString()`. */
  function Serialize(u: Url): string {
    u.scheme + "://" + u.userinfo + u.hostname + u.port + u.path
    + (if u.query.Some? then "?" + u.query.value else "")
    + (if u.fragment.Some? then "#" + u.fragment.value else "")
  }

  /** None of the characters that end an authority. */
  predicate NoDelims(s: string) {
    '/' !in s && '?' !in s && '#' !in s
  }

  /** A host name: not empty, and none of the characters that end or split an authority. */
  predicate HostOk(h: string) {
    h != "" && NoDelims(h) && '@' !in h && ':' !in h
  }

  /** The records `Parse` produces. */
  predicate WellFormed(u: Url) {
    && ValidScheme(u.scheme) && Lower(u.scheme) == u.scheme
    && NoDelims(u.userinfo)
    && (u.userinfo == "" || u.userinfo[|u.userinfo| - 1] == '@')
    && HostOk(u.hostname)
    && (IsSpecial(u.scheme) ==> Lower(u.hostname) == u.hostname)
    && NoDelims(u.port) && '@' !in u.port
    && (u.port == "" || u.port[0] == ':')
    && '?' !in u.path && '#' !in u.path && (u.path == "" || u.path[0] == '/')
    && (IsSpecial(u.scheme) ==> u.path != "")
    && (u.query.Some? ==> '#' !in u.query.value)
  }

  // ---------------------------------------------------------------------------
  // Search parameters
  // ---------------------------------------------------------------------------

  type Params = seq<(string, string)>

  /** One `name=value` piece; a piece without `=` has the empty value. */
  function ParsePiece(p: string): (string, string) {
    var i := IndexOf(p, '=', 0);
    (p[..i], if i < |p| then p[i + 1..] else "")
  }

  function ParsePieces(pieces: seq<string>): Params {
    if pieces == [] then []
    else (if pieces[0] == "" then [] else [ParsePiece(pieces[0])]) + ParsePieces(pieces[1..])
  }

  /** `u.searchParams`: the `&`-separated pieces of the query, empty pieces skipped. */
  function ParseQuery(q: Option<string>): Params {
    if q.None? then [] else ParsePieces(SplitOn(q.value, '&'))
  }

  function Pieces(ps: Params): seq<string> {
    seq(|ps|, i requires 0 <= i < |ps| => ps[i].0 + "=" + ps[i].1)
  }

  /** The query string the parameter list serialises to. */
  function SerializeQuery(ps: Params): string {
    Join(Pieces(ps), "&")
  }

  /** `searchParams.get(name)`: the first value under `name`. */
  function GetParam(ps: Params, name: string): Option<string> {
    if ps == [] then None
    else if ps[0].0 == name then Some(ps[0].1)
    else GetParam(ps[1..], name)
  }

  /** The parameters not named `name`, in order. */
  function Without(ps: Params, name: string): Params {
    if ps == [] then []
    else (if ps[0].0 == name then [] else [ps[0]]) + Without(ps[1..], name)
  }

  function SetFirst(ps: Params, name: string, value: string): Params {
    if ps == [] then []
    else if ps[0].0 == name then [(name, value)] + Without(ps[1..], name)
    else [ps[0]] + SetFirst(ps[1..], name, value)
  }

  /**
   * `searchParams.set(name, value)`: the first pair under `name` takes the
   * value and the later ones go; with none, the pair is appended.
   */
  function SetParam(ps: Params, name: string, value: string): Params {
    if GetParam(ps, name).Some? then SetFirst(ps, name, value) else ps + [(name, value)]
  }

  /** A pair that serialises to one piece and reads back as itself. */
  predicate PairOk(p: (string, string)) {
    '=' !in p.0 && '&' !in p.0 && '#' !in p.0 && '&' !in p.1 && '#' !in p.1
  }

  predicate ParamsWellFormed(ps: Params) {
    forall i :: 0 <= i < |ps| ==> PairOk(ps[i])
  }

  // ---------------------------------------------------------------------------
  // withBeatportAid
  // ---------------------------------------------------------------------------

  const AffiliateParam := "a_aid"
  const BeatportHost := "beatport.com"

  /** The host name with one leading `www.` removed. */
  function BareHost(hostname: string): string {
    if StartsWith(hostname, "www.") then hostname[4..] else hostname
  }

  /** The URL with `a_aid` set to `a`. */
  function Tagged(u: Url, a: string): Url {
    u.(query := Some(SerializeQuery(SetParam(ParseQuery(u.query), AffiliateParam, a))))
  }

  /**
   * `withBeatportAid(url, aid)`: Beatport links get the trimmed affiliate id
   * as `a_aid` unless they already carry a non-empty one; any other input is
   * returned as it is.
   */
  function WithBeatportAid(url: string, aid: Option<string>): string {
    var a := JsTrim(aid.GetOr(""));
    if url == "" || a == "" then url
    else match Parse(url)
      case None => url
      case Some(u) =>
        if BareHost(u.hostname) != BeatportHost then url
        else
          var existing := GetParam(ParseQuery(u.query), AffiliateParam);
          if existing.Some? && existing.value != "" then Serialize(u)
          else Serialize(Tagged(u, a))
  }

  // ---------------------------------------------------------------------------
  // Search helpers
  // ---------------------------------------------------------------------------

  lemma LowerKeepsClass(s: string)
    ensures forall i :: 0 <= i < |s| ==> (IsSchemeChar(Lower(s)[i]) <==> IsSchemeChar(s[i]))
    ensures forall i :: 0 <= i < |s| ==> (IsAsciiLetter(Lower(s)[i]) <==> IsAsciiLetter(s[i]))
  {
    if s != [] {
      LowerKeepsClass(s[1..]);
      assert forall i :: 1 <= i < |s| ==> Lower(s)[i] == Lower(s[1..])[i - 1];
    }
  }

  lemma LowerScheme(s: string)
    requires ValidScheme(s)
    ensures ValidScheme(Lower(s)) && Lower(Lower(s)) == Lower(s)
  {
    LowerKeepsClass(s);
    LowerIdempotent(s);
  }

  // ---------------------------------------------------------------------------
  // Parse and Serialize
  // ---------------------------------------------------------------------------

  lemma NoDelimsSlice(s: string, i: int, j: int)
    requires NoDelims(s) && 0 <= i <= j <= |s|
    ensures NoDelims(s[i..j])
  {
    NotInSlice(s, '/', i, j);
    NotInSlice(s, '?', i, j);
    NotInSlice(s, '#', i, j);
  }

  /** Nothing after the last `c` is `c`. */
  lemma AfterLastLacks(s: string, c: char)
    ensures c !in s[LastIndexOf(s, c) + 1..]
  {
    var l := LastIndexOf(s, c);
    LastIndexOfLast(s, c);
    var t := s[l + 1..];
    forall i | 0 <= i < |t|
      ensures t[i] != c
    {
      assert t[i] == s[l + 1 + i];
    }
  }

  lemma {:induction false} SplitUserinfoParts(authority: string)
    ensures var (userinfo, hostPort) := SplitUserinfo(authority);
      && userinfo + hostPort == authority
      && (userinfo == "" || userinfo[|userinfo| - 1] == '@')
      && '@' !in hostPort
      && (NoDelims(authority) ==> NoDelims(userinfo) && NoDelims(hostPort))
  {
    var at := LastIndexOf(authority, '@');
    AfterLastLacks(authority, '@');
    var hostPort := authority[at + 1..];
    assert authority[..at + 1] + hostPort == authority;
    if NoDelims(authority) {
      NoDelimsSlice(authority, 0, at + 1);
      NoDelimsSlice(authority, at + 1, |authority|);
    }
  }

  lemma {:induction false} SplitPortParts(hostPort: string)
    ensures var (host, port) := SplitPort(hostPort);
      && host + port == hostPort
      && ':' !in host && (port == "" || port[0] == ':')
      && (NoDelims(hostPort) ==> NoDelims(host) && NoDelims(port))
      && ('@' !in hostPort ==> '@' !in host && '@' !in port)
  {
    var h := IndexOf(hostPort, ':', 0);
    FirstFacts(hostPort, ':');
    assert hostPort[..h] + hostPort[h..] == hostPort;
    if NoDelims(hostPort) {
      NoDelimsSlice(hostPort, 0, h);
      NoDelimsSlice(hostPort, h, |hostPort|);
    }
    if '@' !in hostPort {
      NotInSlice(hostPort, '@', 0, h);
      NotInSlice(hostPort, '@', h, |hostPort|);
    }
  }

  /** The three parts of an authority, and what they cannot contain. */
  lemma SplitAuthorityParts(authority: string)
    requires NoDelims(authority)
    ensures var (userinfo, host, port) := SplitAuthority(authority);
      && NoDelims(userinfo) && (userinfo == "" || userinfo[|userinfo| - 1] == '@')
      && NoDelims(host) && '@' !in host && ':' !in host
      && NoDelims(port) && '@' !in port && (port == "" || port[0] == ':')
  {
    SplitUserinfoParts(authority);
    SplitPortParts(SplitUserinfo(authority).1);
  }

  /** What `SplitAt` gives: the part before lacks `c`, and the parts rejoin to `s`. */
  lemma SplitAtParts(s: string, c: char)
    ensures c !in SplitAt(s, c).0
    ensures Rejoin(SplitAt(s, c).0, c, SplitAt(s, c).1) == s
  {
    FirstFacts(s, c);
    var i := IndexOf(s, c, 0);
    if i < |s| {
      assert s == s[..i] + [c] + s[i + 1..];
    }
  }

  /** `SplitAt` undoes `Rejoin` when the first part lacks `c`. */
  lemma SplitAtRejoin(before: string, c: char, after: Option<string>)
    requires c !in before
    ensures SplitAt(Rejoin(before, c, after), c) == (before, after)
  {
    if after.Some? {
      assert Rejoin(before, c, after) == before + ([c] + after.value);
      Cut(before, [c] + after.value, c);
      assert (before + ([c] + after.value))[|before| + 1..] == after.value;
    } else {
      assert before + [] == before;
      Cut(before, [], c);
    }
  }

  lemma NotInRejoin(before: string, c: char, after: Option<string>, d: char)
    requires d !in Rejoin(before, c, after)
    ensures d !in before && (after.Some? ==> d !in after.value)
  {
  }

  /** Everything `ParseAfterScheme` accepts is well formed. */
  lemma {:induction false} ParseAfterSchemeWellFormed(scheme: string, body: string)
    requires ValidScheme(scheme) && Lower(scheme) == scheme
    requires ParseAfterScheme(scheme, body).Some?
    ensures WellFormed(ParseAfterScheme(scheme, body).value)
  {
    var (beforeFragment, fragment) := SplitAt(body, '#');
    var (hierPart, query) := SplitAt(beforeFragment, '?');
    BodyParts(body);
    var a := IndexOf(hierPart, '/', 0);
    HierParts(hierPart);
    var authority := hierPart[..a];
    SplitAuthorityParts(authority);
    var parts := SplitAuthority(authority);
    if IsSpecial(scheme) {
      LowerHost(parts.1);
    }
  }

  /** The part before `?` holds neither `?` nor `#`, and the query holds no `#`. */
  lemma BodyParts(body: string)
    ensures var (beforeFragment, fragment) := SplitAt(body, '#');
      var (hierPart, query) := SplitAt(beforeFragment, '?');
      '?' !in hierPart && '#' !in hierPart && (query.Some? ==> '#' !in query.value)
  {
    var (beforeFragment, fragment) := SplitAt(body, '#');
    SplitAtParts(body, '#');
    var (hierPart, query) := SplitAt(beforeFragment, '?');
    SplitAtParts(beforeFragment, '?');
    NotInRejoin(hierPart, '?', query, '#');
  }

  /** The authority before the first `/` has no delimiter; the path is empty or starts with `/` and has no `?` or `#`. */
  lemma HierParts(hierPart: string)
    requires '?' !in hierPart && '#' !in hierPart
    ensures var a := IndexOf(hierPart, '/', 0);
      var path := hierPart[a..];
      && NoDelims(hierPart[..a])
      && '?' !in path && '#' !in path && (path == "" || path[0] == '/')
  {
    var a := IndexOf(hierPart, '/', 0);
    FirstFacts(hierPart, '/');
    NotInSlice(hierPart, '?', 0, a);
    NotInSlice(hierPart, '#', 0, a);
    NotInSlice(hierPart, '?', a, |hierPart|);
    NotInSlice(hierPart, '#', a, |hierPart|);
  }

  /** Lower-casing keeps a host name a host name. */
  lemma LowerHost(h: string)
    requires NoDelims(h) && '@' !in h && ':' !in h
    ensures NoDelims(Lower(h)) && '@' !in Lower(h) && ':' !in Lower(h)
    ensures Lower(Lower(h)) == Lower(h) && (Lower(h) == "" <==> h == "")
  {
    LowerNotIn(h, '/');
    LowerNotIn(h, '?');
    LowerNotIn(h, '#');
    LowerNotIn(h, '@');
    LowerNotIn(h, ':');
    LowerIdempotent(h);
  }

  /** Everything `Parse` accepts is well formed. */
  lemma ParseWellFormed(s: string)
    requires Parse(s).Some?
    ensures WellFormed(Parse(s).value)
  {
    var i := IndexOf(s, ':', 0);
    LowerScheme(s[..i]);
    ParseAfterSchemeWellFormed(Lower(s[..i]), s[i + 3..]);
  }

  /** The text after `scheme://`. */
  function Tail(u: Url): string {
    u.userinfo + u.hostname + u.port + u.path
    + (if u.query.Some? then "?" + u.query.value else "")
    + (if u.fragment.Some? then "#" + u.fragment.value else "")
  }

  lemma {:induction false} SplitAuthorityOf(userinfo: string, host: string, port: string)
    requires userinfo == "" || userinfo[|userinfo| - 1] == '@'
    requires '@' !in host && ':' !in host && '@' !in port && (port == "" || port[0] == ':')
    ensures SplitAuthority(userinfo + host + port) == (userinfo, host, port)
  {
    var authority := userinfo + (host + port);
    assert userinfo + host + port == authority;
    forall k | |userinfo| <= k < |authority| ensures authority[k] != '@' {
      assert authority[k] == (host + port)[k - |userinfo|];
    }
    LastIndexOfAt(authority, '@', |userinfo| - 1);
    assert authority[..|userinfo|] == userinfo && authority[|userinfo|..] == host + port;
    Cut(host, port, ':');
  }

  /** `ParseAfterScheme` reads back the tail of a well-formed record. */
  lemma {:induction false} ParseTail(u: Url)
    requires WellFormed(u)
    ensures ParseAfterScheme(u.scheme, Tail(u)) == Some(u)
  {
    var authority := u.userinfo + u.hostname + u.port;
    var hierPart := authority + u.path;
    var beforeFragment := Rejoin(hierPart, '?', u.query);
    assert Tail(u) == Rejoin(beforeFragment, '#', u.fragment);
    SplitAtRejoin(beforeFragment, '#', u.fragment);
    SplitAtRejoin(hierPart, '?', u.query);
    Cut(authority, u.path, '/');
    SplitAuthorityOf(u.userinfo, u.hostname, u.port);
  }

  /** A valid lower-case scheme followed by `://` is read off, and the rest is parsed. */
  lemma {:induction false} ParseScheme(scheme: string, rest: string)
    requires ValidScheme(scheme) && Lower(scheme) == scheme
    ensures Parse(scheme + "://" + rest) == ParseAfterScheme(scheme, rest)
  {
    var s := scheme + "://" + rest;
    assert s == scheme + ("://" + rest);
    assert ':' !in scheme;
    Cut(scheme, "://" + rest, ':');
    assert s[|scheme| + 1..][..2] == "//";
    assert s[|scheme| + 3..] == rest;
  }

  /** Parsing a serialised well-formed record gives it back. */
  lemma ParseSerialize(u: Url)
    requires WellFormed(u)
    ensures Parse(Serialize(u)) == Some(u)
  {
    assert Serialize(u) == u.scheme + "://" + Tail(u);
    ParseScheme(u.scheme, Tail(u));
    ParseTail(u);
  }

  /** Serialising a parsed URL is a normal form: parsing it again gives the same record. */
  lemma ParseNormalForm(s: string)
    requires Parse(s).Some?
    ensures Parse(Serialize(Parse(s).value)) == Parse(s)
  {
    ParseWellFormed(s);
    ParseSerialize(Parse(s).value);
  }

  // ---------------------------------------------------------------------------
  // Search parameters: reading back, and `set`
  // ---------------------------------------------------------------------------

  lemma ParsePieceOf(p: (string, string))
    requires '=' !in p.0
    ensures ParsePiece(p.0 + "=" + p.1) == p
  {
    assert p.0 + "=" + p.1 == p.0 + ("=" + p.1);
    Cut(p.0, "=" + p.1, '=');
    assert (p.0 + ("=" + p.1))[|p.0| + 1..] == p.1;
  }

  lemma {:induction false} ParsePiecesOf(ps: Params)
    requires ParamsWellFormed(ps)
    ensures ParsePieces(Pieces(ps)) == ps
  {
    if ps != [] {
      assert Pieces(ps)[1..] == Pieces(ps[1..]);
      ParsePiecesOf(ps[1..]);
      assert Pieces(ps)[0] != "";
      ParsePieceOf(ps[0]);
    }
  }

  /** Every piece of a well-formed list is free of `&` and `#`. */
  lemma PiecesPlain(ps: Params)
    requires ParamsWellFormed(ps)
    ensures forall i :: 0 <= i < |ps| ==> '&' !in Pieces(ps)[i] && '#' !in Pieces(ps)[i]
  {
  }

  /** A well-formed parameter list survives serialising and parsing. */
  lemma QueryRoundTrip(ps: Params)
    requires ParamsWellFormed(ps)
    ensures ParseQuery(Some(SerializeQuery(ps))) == ps
  {
    if ps == [] {
      assert SplitOn("", '&') == [""];
    } else {
      PiecesPlain(ps);
      SplitJoin(Pieces(ps), '&');
      ParsePiecesOf(ps);
    }
  }

  /** A serialised well-formed list has no `#`, so it can stand as a query. */
  lemma SerializeQueryPlain(ps: Params)
    requires ParamsWellFormed(ps)
    ensures '#' !in SerializeQuery(ps)
  {
    PiecesPlain(ps);
    JoinLacks(Pieces(ps), "&", '#');
  }

  lemma {:induction false} ParsePiecesWellFormed(pieces: seq<string>)
    requires forall i :: 0 <= i < |pieces| ==> '&' !in pieces[i] && '#' !in pieces[i]
    ensures ParamsWellFormed(ParsePieces(pieces))
  {
    if pieces != [] {
      ParsePiecesWellFormed(pieces[1..]);
      var p := pieces[0];
      var i := IndexOf(p, '=', 0);
      FirstFacts(p, '=');
      NotInSlice(p, '&', 0, i);
      NotInSlice(p, '#', 0, i);
      if i < |p| {
        NotInSlice(p, '&', i + 1, |p|);
        NotInSlice(p, '#', i + 1, |p|);
      }
    }
  }

  /** The parameters read from a query without `#` are well formed. */
  lemma ParsedParamsWellFormed(q: Option<string>)
    requires q.Some? ==> '#' !in q.value
    ensures ParamsWellFormed(ParseQuery(q))
  {
    if q.Some? {
      SplitOnPieces(q.value, '&', '#');
      ParsePiecesWellFormed(SplitOn(q.value, '&'));
    }
  }

  lemma {:induction false} WithoutTwice(ps: Params, name: string)
    ensures Without(Without(ps, name), name) == Without(ps, name)
  {
    if ps != [] {
      var rest := Without(ps[1..], name);
      WithoutTwice(ps[1..], name);
      if ps[0].0 != name {
        var w := [ps[0]] + rest;
        assert Without(ps, name) == w;
        assert w[1..] == rest;
      } else {
        assert Without(ps, name) == [] + rest == rest;
      }
    }
  }

  lemma {:induction false} WithoutAppend(ps: Params, p: (string, string), name: string)
    requires p.0 == name
    ensures Without(ps + [p], name) == Without(ps, name)
  {
    if ps == [] {
      assert Without([p], name) == [] + Without([], name);
    } else {
      assert (ps + [p])[1..] == ps[1..] + [p];
      WithoutAppend(ps[1..], p, name);
    }
  }

  lemma {:induction false} GetAppend(ps: Params, p: (string, string))
    requires GetParam(ps, p.0).None?
    ensures GetParam(ps + [p], p.0) == Some(p.1)
  {
    if ps != [] {
      assert (ps + [p])[1..] == ps[1..] + [p];
      GetAppend(ps[1..], p);
    }
  }

  lemma {:induction false} SetFirstFacts(ps: Params, name: string, value: string)
    requires GetParam(ps, name).Some?
    ensures GetParam(SetFirst(ps, name, value), name) == Some(value)
    ensures Without(SetFirst(ps, name, value), name) == Without(ps, name)
  {
    if ps[0].0 == name {
      WithoutTwice(ps[1..], name);
    } else {
      SetFirstFacts(ps[1..], name, value);
    }
  }

  /**
   * `set` leaves exactly one pair under the name, holding the new value,
   * and the pairs under other names as they were, in order.
   */
  lemma SetParamFacts(ps: Params, name: string, value: string)
    ensures GetParam(SetParam(ps, name, value), name) == Some(value)
    ensures Without(SetParam(ps, name, value), name) == Without(ps, name)
  {
    if GetParam(ps, name).Some? {
      SetFirstFacts(ps, name, value);
    } else {
      GetAppend(ps, (name, value));
      WithoutAppend(ps, (name, value), name);
    }
  }

  /** The value under another name is the same before and after removing `name`. */
  lemma {:induction false} GetWithout(ps: Params, name: string, other: string)
    requires other != name
    ensures GetParam(Without(ps, name), other) == GetParam(ps, other)
  {
    if ps != [] {
      var rest := Without(ps[1..], name);
      GetWithout(ps[1..], name, other);
      if ps[0].0 != name {
        var w := [ps[0]] + rest;
        assert Without(ps, name) == w;
        assert w[1..] == rest;
      } else {
        assert Without(ps, name) == [] + rest == rest;
      }
    }
  }

  lemma {:induction false} WithoutWellFormed(ps: Params, name: string)
    requires ParamsWellFormed(ps)
    ensures ParamsWellFormed(Without(ps, name))
  {
    if ps != [] {
      WithoutWellFormed(ps[1..], name);
    }
  }

  lemma {:induction false} SetParamWellFormed(ps: Params, name: string, value: string)
    requires ParamsWellFormed(ps) && PairOk((name, value))
    ensures ParamsWellFormed(SetParam(ps, name, value))
  {
    if GetParam(ps, name).Some? {
      SetFirstWellFormed(ps, name, value);
    }
  }

  lemma {:induction false} SetFirstWellFormed(ps: Params, name: string, value: string)
    requires ParamsWellFormed(ps) && PairOk((name, value))
    ensures ParamsWellFormed(SetFirst(ps, name, value))
  {
    if ps != [] {
      if ps[0].0 == name {
        WithoutWellFormed(ps[1..], name);
      } else {
        SetFirstWellFormed(ps[1..], name, value);
      }
    }
  }

  // ---------------------------------------------------------------------------
  // What withBeatportAid promises
  // ---------------------------------------------------------------------------

  /**
   * The url comes back untouched when it is empty, when the trimmed aid is
   * empty or absent, when it does not parse, and when its host is not
   * Beatport's (with or without `www.`).
   */
  lemma WithBeatportAidUntouched(url: string, aid: Option<string>)
    ensures url == "" || JsTrim(aid.GetOr("")) == "" ==> WithBeatportAid(url, aid) == url
    ensures Parse(url).None? ==> WithBeatportAid(url, aid) == url
    ensures Parse(url).Some? && BareHost(Parse(url).value.hostname) != BeatportHost ==>
      WithBeatportAid(url, aid) == url
  {
  }

  /** An existing non-empty `a_aid` is kept: the result is the url in normal form, with the same value. */
  lemma WithBeatportAidKeepsExisting(url: string, aid: Option<string>)
    requires url != "" && JsTrim(aid.GetOr("")) != ""
    requires Parse(url).Some? && BareHost(Parse(url).value.hostname) == BeatportHost
    requires var prior := GetParam(ParseQuery(Parse(url).value.query), AffiliateParam);
      prior.Some? && prior.value != ""
    ensures Parse(WithBeatportAid(url, aid)) == Parse(url)
    ensures GetParam(ParseQuery(Parse(WithBeatportAid(url, aid)).value.query), AffiliateParam)
      == GetParam(ParseQuery(Parse(url).value.query), AffiliateParam)
  {
    ParseNormalForm(url);
  }

  /** A well-formed URL tagged with a plain aid serialises and parses back to itself. */
  lemma TaggedReadsBack(u: Url, a: string)
    requires WellFormed(u) && '&' !in a && '#' !in a
    ensures Parse(Serialize(Tagged(u, a))) == Some(Tagged(u, a))
    ensures GetParam(ParseQuery(Tagged(u, a).query), AffiliateParam) == Some(a)
    ensures Without(ParseQuery(Tagged(u, a).query), AffiliateParam) == Without(ParseQuery(u.query), AffiliateParam)
  {
    var ps := ParseQuery(u.query);
    ParsedParamsWellFormed(u.query);
    SetParamWellFormed(ps, AffiliateParam, a);
    var ps' := SetParam(ps, AffiliateParam, a);
    SerializeQueryPlain(ps');
    ParseSerialize(Tagged(u, a));
    QueryRoundTrip(ps');
    SetParamFacts(ps, AffiliateParam, a);
  }

  /**
   * Otherwise the result reads back as the same URL with `a_aid` set to the
   * trimmed aid and every other parameter as it was, in order.
   */
  lemma WithBeatportAidSets(url: string, aid: Option<string>)
    requires url != "" && JsTrim(aid.GetOr("")) != ""
    requires '&' !in JsTrim(aid.GetOr("")) && '#' !in JsTrim(aid.GetOr(""))
    requires Parse(url).Some? && BareHost(Parse(url).value.hostname) == BeatportHost
    requires var prior := GetParam(ParseQuery(Parse(url).value.query), AffiliateParam);
      prior.None? || prior.value == ""
    ensures var u := Parse(url).value;
      var r := Parse(WithBeatportAid(url, aid));
      && r.Some?
      && r.value == u.(query := r.value.query)
      && GetParam(ParseQuery(r.value.query), AffiliateParam) == Some(JsTrim(aid.GetOr("")))
      && Without(ParseQuery(r.value.query), AffiliateParam) == Without(ParseQuery(u.query), AffiliateParam)
  {
    var a := JsTrim(aid.GetOr(""));
    var u := Parse(url).value;
    assert WithBeatportAid(url, aid) == Serialize(Tagged(u, a));
    ParseWellFormed(url);
    TaggedReadsBack(u, a);
  }

  /** In particular a parameter under any other name keeps its value. */
  lemma WithBeatportAidKeepsOthers(url: string, aid: Option<string>, name: string)
    requires name != AffiliateParam
    requires url != "" && JsTrim(aid.GetOr("")) != ""
    requires '&' !in JsTrim(aid.GetOr("")) && '#' !in JsTrim(aid.GetOr(""))
    requires Parse(url).Some? && BareHost(Parse(url).value.hostname) == BeatportHost
    requires var prior := GetParam(ParseQuery(Parse(url).value.query), AffiliateParam);
      prior.None? || prior.value == ""
    ensures Parse(WithBeatportAid(url, aid)).Some?
    ensures GetParam(ParseQuery(Parse(WithBeatportAid(url, aid)).value.query), name)
      == GetParam(ParseQuery(Parse(url).value.query), name)
  {
    WithBeatportAidSets(url, aid);
    var r := Parse(WithBeatportAid(url, aid)).value;
    GetWithout(ParseQuery(r.query), AffiliateParam, name);
    GetWithout(ParseQuery(Parse(url).value.query), AffiliateParam, name);
  }
}
