/**
 * The pure rules of the playlist analyzer: track categories, mapping an
 * API response to rows, classifying Apple Music errors, reading the URL
 * box, deciding which references are fetched, merging new results into
 * the tab list, and overlaying a Rekordbox match on a result's rows.
 */
module AnalyzerRules {
  import opened Wrappers
  import opened Text
  import opened Json
  import opened Rows
  import PlaylistUrl

  // ---------------------------------------------------------------------------
  // categorizeTrack, mapTracks
  // ---------------------------------------------------------------------------

  datatype Category = Checkout | Owned

  /** `categorizeTrack`: owned exactly when `owned === true`. */
  function CategorizeTrack(t: PlaylistRow): (r: Category)
    ensures r == Owned <==> IsOwned(t)
    ensures r == Checkout <==> !IsOwned(t)
  {
    if t.owned == Some(true) then Owned else Checkout
  }

  /** The links a track without `links` gets: three empty shop links. */
  const EmptyStores := StoreLinks(Some(""), Some(""), Some(""), None, None)

  function MapTrack(t: ApiTrack, index: int): PlaylistRow {
    PlaylistRow(
      index, t.title, t.artist, t.album, t.isrc,
      Some(t.spotifyUrl.GetOr("")), t.appleUrl,
      t.links.GetOr(EmptyStores),
      t.owned, t.ownedReason,
      t.trackKeyPrimary, t.trackKeyFallback, t.trackKeyPrimaryType)
  }

  /** `mapTracks(json)`: one row per track, numbered from 1. */
  function MapTracks(resp: ApiPlaylistResponse): (r: seq<PlaylistRow>)
    ensures |r| == |resp.tracks|
  {
    seq(|resp.tracks|, i requires 0 <= i < |resp.tracks| => MapTrack(resp.tracks[i], i + 1))
  }

  /**
   * Row `i` is track `i`, numbered `i + 1`, with the same texts, missing
   * links as three empty ones, a missing Spotify url as "", and `owned`,
   * the keys and the key type carried over (absent stays absent).
   */
  lemma MapTracksShape(resp: ApiPlaylistResponse)
    ensures forall i :: 0 <= i < |resp.tracks| ==>
      var r := MapTracks(resp)[i];
      var t := resp.tracks[i];
      && r.index == i + 1
      && r.title == t.title && r.artist == t.artist && r.album == t.album
      && r.isrc == t.isrc && r.appleUrl == t.appleUrl
      && r.spotifyUrl == (if t.spotifyUrl.Some? then t.spotifyUrl else Some(""))
      && r.stores == (if t.links.Some? then t.links.value else StoreLinks(Some(""), Some(""), Some(""), None, None))
      && r.owned == t.owned && r.ownedReason == t.ownedReason
      && r.trackKeyPrimary == t.trackKeyPrimary && r.trackKeyFallback == t.trackKeyFallback
      && r.trackKeyPrimaryType == t.trackKeyPrimaryType
  {
  }

  // ---------------------------------------------------------------------------
  // classifyAppleError
  // ---------------------------------------------------------------------------

  datatype AppleErrorReason = Timeout | DomChange | Region | BotSuspected | Unknown

  /**
   * `classifyAppleError(message)`: the lowercased message is searched for
   * the markers of each reason in turn; an empty or absent message is
   * unknown.
   */
  function ClassifyAppleError(message: Option<string>): AppleErrorReason {
    if message.None? || message.value == "" then Unknown
    else
      var lower := Lower(message.value);
      if Contains(lower, "timeout") || Contains(lower, "timed out") then Timeout
      else if Contains(lower, "selector") || Contains(lower, "element not found") || Contains(lower, "dom") then DomChange
      else if Contains(lower, "region") || Contains(lower, "country") || Contains(lower, "market") then Region
      else if Contains(lower, "bot") || Contains(lower, "captcha") || Contains(lower, "suspicious") then BotSuspected
      else Unknown
  }

  /** The reasons with their markers, in the order they are tried. */
  const AppleErrorRules: seq<(AppleErrorReason, seq<string>)> := [
    (Timeout, ["timeout", "timed out"]),
    (DomChange, ["selector", "element not found", "dom"]),
    (Region, ["region", "country", "market"]),
    (BotSuspected, ["bot", "captcha", "suspicious"])
  ]

  predicate HasMarker(text: string, markers: seq<string>) {
    exists k :: 0 <= k < |markers| && Contains(text, markers[k])
  }

  /** The reason of the first rule with a marker in `text`. */
  function FirstRule(rules: seq<(AppleErrorReason, seq<string>)>, text: string): AppleErrorReason {
    if rules == [] then Unknown
    else if HasMarker(text, rules[0].1) then rules[0].0
    else FirstRule(rules[1..], text)
  }

  lemma HasMarkerOf(text: string, a: string, b: string, c: string)
    ensures HasMarker(text, [a, b]) <==> Contains(text, a) || Contains(text, b)
    ensures HasMarker(text, [a, b, c]) <==> Contains(text, a) || Contains(text, b) || Contains(text, c)
  {
    if Contains(text, a) {
      assert [a, b][0] == a && [a, b, c][0] == a;
    }
    if Contains(text, b) {
      assert [a, b][1] == b && [a, b, c][1] == b;
    }
    if Contains(text, c) {
      assert [a, b, c][2] == c;
    }
  }

  /** The classification is the first matching rule of the table, tried in order. */
  lemma ClassifyByRules(message: Option<string>)
    ensures ClassifyAppleError(message) ==
      if message.None? || message.value == "" then Unknown
      else FirstRule(AppleErrorRules, Lower(message.value))
  {
    if message.Some? && message.value != "" {
      var lower := Lower(message.value);
      HasMarkerOf(lower, "timeout", "timed out", "");
      HasMarkerOf(lower, "selector", "element not found", "dom");
      HasMarkerOf(lower, "region", "country", "market");
      HasMarkerOf(lower, "bot", "captcha", "suspicious");
      var r1 := AppleErrorRules[1..];
      var r2 := r1[1..];
      var r3 := r2[1..];
      assert AppleErrorRules[0] == (Timeout, ["timeout", "timed out"]);
      assert r1[0] == (DomChange, ["selector", "element not found", "dom"]);
      assert r2[0] == (Region, ["region", "country", "market"]);
      assert r3[0] == (BotSuspected, ["bot", "captcha", "suspicious"]);
      assert r3[1..] == [];
      assert FirstRule(r3, lower) == if HasMarker(lower, r3[0].1) then BotSuspected else Unknown;
      assert FirstRule(r2, lower) == if HasMarker(lower, r2[0].1) then Region else FirstRule(r3, lower);
      assert FirstRule(r1, lower) == if HasMarker(lower, r1[0].1) then DomChange else FirstRule(r2, lower);
    }
  }

  /** The classification ignores ASCII case. */
  lemma ClassifyIgnoresCase(s: string)
    ensures ClassifyAppleError(Some(Lower(s))) == ClassifyAppleError(Some(s))
  {
    LowerIdempotent(s);
  }

  // ---------------------------------------------------------------------------
  // The URL box
  // ---------------------------------------------------------------------------

  /** The non-empty strings of `xs`, in order. */
  function NonEmpty(xs: seq<string>): (r: seq<string>)
    ensures |r| <= |xs|
  {
    if xs == [] then [] else (if xs[0] != "" then [xs[0]] else []) + NonEmpty(xs[1..])
  }

  function SanitizeAll(lines: seq<string>): (r: seq<string>)
    ensures |r| == |lines|
  {
    seq(|lines|, i requires 0 <= i < |lines| => PlaylistUrl.SanitizeUrl(lines[i]))
  }

  /** The URLs of the input box: each line sanitised, blank ones dropped. */
  function AnalyzeUrls(input: string): seq<string> {
    NonEmpty(SanitizeAll(SplitOn(input, '\n')))
  }

  lemma {:induction false} NonEmptyMembers(xs: seq<string>)
    ensures forall x :: x in NonEmpty(xs) <==> x in xs && x != ""
  {
    if xs != [] {
      NonEmptyMembers(xs[1..]);
      assert xs == [xs[0]] + xs[1..];
    }
  }

  /**
   * The URLs are exactly the non-empty sanitised lines of the input, which
   * the lines rebuild when joined with newlines; none has edge whitespace.
   */
  lemma AnalyzeUrlsFacts(input: string)
    ensures Join(SplitOn(input, '\n'), "\n") == input
    ensures forall u :: u in AnalyzeUrls(input) <==>
      u != "" && exists j :: 0 <= j < |SplitOn(input, '\n')| && u == PlaylistUrl.SanitizeUrl(SplitOn(input, '\n')[j])
    ensures forall i :: 0 <= i < |AnalyzeUrls(input)| ==> NoEdge(AnalyzeUrls(input)[i], IsJsWhitespace)
  {
    JoinSplit(input, '\n');
    var lines := SplitOn(input, '\n');
    NonEmptyMembers(SanitizeAll(lines));
    forall u | u != "" && exists j :: 0 <= j < |lines| && u == PlaylistUrl.SanitizeUrl(lines[j])
      ensures u in SanitizeAll(lines)
    {
      var j :| 0 <= j < |lines| && u == PlaylistUrl.SanitizeUrl(lines[j]);
      assert SanitizeAll(lines)[j] == u;
    }
    forall i | 0 <= i < |AnalyzeUrls(input)|
      ensures NoEdge(AnalyzeUrls(input)[i], IsJsWhitespace)
    {
      var u := AnalyzeUrls(input)[i];
      assert u in SanitizeAll(lines);
      var j :| 0 <= j < |lines| && SanitizeAll(lines)[j] == u;
      PlaylistUrl.SanitizeUrlNoEdge(lines[j]);
    }
  }

  /** Whitespace-only input leaves no URL, so nothing is requested. */
  lemma AnalyzeUrlsBlank(input: string)
    requires forall i :: 0 <= i < |input| ==> IsJsWhitespace(input[i])
    ensures AnalyzeUrls(input) == []
  {
    var lines := SplitOn(input, '\n');
    SplitOnPieces(input, '\n', '\n');
    forall j | 0 <= j < |lines|
      ensures PlaylistUrl.SanitizeUrl(lines[j]) == ""
    {
      JoinSplit(input, '\n');
      LineOfBlank(input, j);
      PlaylistUrl.SanitizeUrlBlank(lines[j]);
    }
    NonEmptyAllBlank(SanitizeAll(lines));
  }

  lemma {:induction false} NonEmptyAllBlank(xs: seq<string>)
    requires forall i :: 0 <= i < |xs| ==> xs[i] == ""
    ensures NonEmpty(xs) == []
  {
    if xs != [] {
      NonEmptyAllBlank(xs[1..]);
    }
  }

  lemma {:induction false} LineOfBlank(s: string, j: int)
    requires forall i :: 0 <= i < |s| ==> IsJsWhitespace(s[i])
    requires 0 <= j < |SplitOn(s, '\n')|
    ensures forall i :: 0 <= i < |SplitOn(s, '\n')[j]| ==> IsJsWhitespace(SplitOn(s, '\n')[j][i])
    decreases |s|
  {
    var k := IndexOf(s, '\n', 0);
    if k < |s| && j > 0 {
      var rest := s[k + 1..];
      assert forall i :: 0 <= i < |rest| ==> rest[i] == s[k + 1 + i];
      LineOfBlank(rest, j - 1);
    }
  }

  // ---------------------------------------------------------------------------
  // Which references are fetched
  // ---------------------------------------------------------------------------

  /** The characters `.` does not match in a JavaScript regular expression. */
  predicate IsLineTerminator(c: char) {
    c == '\n' || c == '\r' || c == '\U{2028}' || c == '\U{2029}'
  }

  const HostMarker := "open.spotify.com/"
  const PathMarker := "playlist/"
  const UriPrefix := "spotify:playlist:"

  /**
   * `/open\.spotify\.com\/.*playlist\//i`: the host marker, then on the
   * same line the path marker, ignoring case.
   */
  predicate IsSpotifyPlaylistUrl(url: string) {
    var l := Lower(url);
    exists i, j :: 0 <= i <= |l| && i + |HostMarker| <= j <= |l|
      && OccursAt(l, HostMarker, i) && OccursAt(l, PathMarker, j)
      && forall k :: i + |HostMarker| <= k < j ==> !IsLineTerminator(l[k])
  }

  /** `/^spotify:playlist:[A-Za-z0-9]{22}$/i`. */
  predicate IsSpotifyUri(url: string) {
    |url| == |UriPrefix| + 22 && Lower(url[..|UriPrefix|]) == UriPrefix && AllAsciiAlnum(url[|UriPrefix|..])
  }

  /** `/^[A-Za-z0-9]{22}$/`. */
  predicate IsIdOnly(url: string) {
    |url| == 22 && AllAsciiAlnum(url)
  }

  /** Whether the reference is requested at all; Spotify references must match one of the three forms. */
  predicate ShouldFetch(url: string) {
    PlaylistUrl.DetectSourceFromUrl(url) != PlaylistUrl.Spotify
    || IsSpotifyPlaylistUrl(url) || IsSpotifyUri(url) || IsIdOnly(url)
  }

  lemma LowerAlnum(s: string)
    requires AllAsciiAlnum(s)
    ensures AllAsciiAlnum(Lower(s))
  {
    forall i | 0 <= i < |s| ensures IsAsciiAlnum(Lower(s)[i]) {
      LowerAt(s, i);
    }
  }

  lemma {:induction false} LowerAt(s: string, i: int)
    requires 0 <= i < |s|
    ensures Lower(s)[i] == LowerChar(s[i])
  {
    if i > 0 {
      LowerAt(s[1..], i - 1);
    }
  }

  lemma LowerAppend(a: string, b: string)
    ensures Lower(a + b) == Lower(a) + Lower(b)
  {
    var l := Lower(a + b);
    forall i | 0 <= i < |a + b| ensures l[i] == (Lower(a) + Lower(b))[i] {
      LowerAt(a + b, i);
      if i < |a| { LowerAt(a, i); } else { LowerAt(b, i - |a|); }
    }
  }

  /** `Lower` leaves a string without capital letters as it is. */
  lemma LowerNoCapitals(s: string)
    requires forall i :: 0 <= i < |s| ==> !('A' <= s[i] <= 'Z')
    ensures Lower(s) == s
  {
    forall i | 0 <= i < |s| ensures Lower(s)[i] == s[i] {
      LowerAt(s, i);
    }
  }

  /** A bare 22-character id and its `spotify:playlist:` URI are requested. */
  lemma AcceptedIdForms(id: string)
    requires IsIdOnly(id)
    ensures ShouldFetch(id)
    ensures ShouldFetch(UriPrefix + id)
  {
    var uri := UriPrefix + id;
    assert uri[..|UriPrefix|] == UriPrefix && uri[|UriPrefix|..] == id;
    LowerNoCapitals(UriPrefix);
  }

  lemma OccursLowered(a: string, m: string, b: string)
    requires forall i :: 0 <= i < |m| ==> !('A' <= m[i] <= 'Z')
    ensures OccursAt(Lower(a + m + b), m, |a|)
  {
    LowerAppend(a + m, b);
    LowerAppend(a, m);
    LowerNoCapitals(m);
    var l := Lower(a) + m + Lower(b);
    assert l[|a|..|a| + |m|] == m;
  }

  /** An `open.spotify.com` playlist link is requested, whatever follows the marker. */
  lemma AcceptedLink(scheme: string, tail: string)
    ensures ShouldFetch(scheme + HostMarker + PathMarker + tail)
  {
    var url := scheme + HostMarker + PathMarker + tail;
    assert url == scheme + HostMarker + (PathMarker + tail);
    OccursLowered(scheme, HostMarker, PathMarker + tail);
    assert url == (scheme + HostMarker) + PathMarker + tail;
    OccursLowered(scheme + HostMarker, PathMarker, tail);
    var i := |scheme|;
    var j := |scheme| + |HostMarker|;
    assert 0 <= i <= |Lower(url)| && i + |HostMarker| <= j <= |Lower(url)|
      && OccursAt(Lower(url), HostMarker, i) && OccursAt(Lower(url), PathMarker, j);
  }

  /** An id of any other length, alone on its line, is skipped. */
  lemma ShortIdSkipped(id: string)
    requires AllAsciiAlnum(id) && |id| != 22
    ensures !ShouldFetch(id)
  {
    LowerAlnum(id);
    var l := Lower(id);
    forall i | 0 <= i && i + |HostMarker| <= |l|
      ensures !OccursAt(l, HostMarker, i)
    {
      assert l[i..i + |HostMarker|][4] == l[i + 4];
      assert IsAsciiAlnum(l[i + 4]);
      assert HostMarker[4] == '.';
    }
    if IsSpotifyUri(id) {
      var p := id[..|UriPrefix|];
      assert p[7] == id[7];
      LowerAt(p, 7);
    }
  }

  // ---------------------------------------------------------------------------
  // Merging new results into the tab list
  // ---------------------------------------------------------------------------

  type Tab = (string, ResultState)

  function TabUrls(tabs: seq<Tab>): (r: seq<string>)
    ensures |r| == |tabs|
  {
    seq(|tabs|, i requires 0 <= i < |tabs| => tabs[i].0)
  }

  /** The tabs whose url is not in `urls`, in order. */
  function KeepOthers(tabs: seq<Tab>, urls: seq<string>): seq<Tab> {
    if tabs == [] then []
    else (if tabs[0].0 in urls then [] else [tabs[0]]) + KeepOthers(tabs[1..], urls)
  }

  function Stamp(tabs: seq<Tab>, rb: Option<RekordboxMeta>): (r: seq<Tab>)
    ensures |r| == |tabs|
  {
    seq(|tabs|, i requires 0 <= i < |tabs| => (tabs[i].0, tabs[i].1.(rekordboxMeta := rb)))
  }

  /**
   * The new results, each given the Rekordbox file's metadata, then the
   * earlier results for the URLs that were not analysed again.
   */
  function MergeResults(added: seq<Tab>, previous: seq<Tab>, rb: Option<RekordboxMeta>): seq<Tab> {
    Stamp(added, rb) + KeepOthers(previous, TabUrls(added))
  }

  lemma {:induction false} KeepOthersMembers(tabs: seq<Tab>, urls: seq<string>)
    ensures forall t :: t in KeepOthers(tabs, urls) <==> t in tabs && t.0 !in urls
    ensures |KeepOthers(tabs, urls)| <= |tabs|
  {
    if tabs != [] {
      KeepOthersMembers(tabs[1..], urls);
      assert tabs == [tabs[0]] + tabs[1..];
    }
  }

  /**
   * New results come first in input order; an earlier result survives
   * exactly when its URL was not re-analysed, and then after all new ones.
   */
  lemma MergeResultsFacts(added: seq<Tab>, previous: seq<Tab>, rb: Option<RekordboxMeta>)
    ensures var m := MergeResults(added, previous, rb);
      && |added| <= |m| <= |added| + |previous|
      && TabUrls(m[..|added|]) == TabUrls(added)
      && (forall i :: 0 <= i < |added| ==> m[i].1 == added[i].1.(rekordboxMeta := rb))
      && (forall t :: t in m[|added|..] <==> t in previous && t.0 !in TabUrls(added))
  {
    var m := MergeResults(added, previous, rb);
    KeepOthersMembers(previous, TabUrls(added));
    assert m[..|added|] == Stamp(added, rb);
    assert m[|added|..] == KeepOthers(previous, TabUrls(added));
  }

  // ---------------------------------------------------------------------------
  // The Rekordbox overlay
  // ---------------------------------------------------------------------------

  /** `s || undefined` for an optional string: only a non-empty one counts. */
  function Truthy(s: Option<string>): Option<string> {
    if s.Some? && s.value != "" then s else None
  }

  /** `t.track_key_primary || t.track_key_fallback` of a response track, string keys only. */
  function ResponseKey(t: Json): Option<string> {
    var p := Truthy(AsString(Get(t, "track_key_primary")));
    if p.Some? then p else Truthy(AsString(Get(t, "track_key_fallback")))
  }

  /** `json.tracks || []`. */
  function ResponseTracks(resp: Json): seq<Json> {
    var ts := Get(resp, "tracks");
    if ts.JArr? then ts.items else []
  }

  /** `byKey` after its loop: each keyed track under its key, later ones replacing earlier ones. */
  function ByKey(ts: seq<Json>): map<string, Json> {
    if ts == [] then map[]
    else
      var m := ByKey(ts[..|ts| - 1]);
      var t := ts[|ts| - 1];
      match ResponseKey(t)
      case Some(k) => m[k := t]
      case None => m
  }

  /** `(t.trackKeyPrimary || t.trackKeyFallback) || ''` of a row. */
  function RowKey(t: PlaylistRow): string {
    var p := Truthy(t.trackKeyPrimary);
    if p.Some? then p.value else Truthy(t.trackKeyFallback).GetOr("")
  }

  /** One row after the overlay: a matched row takes `owned` and `owned_reason` when they have the right type, null otherwise. */
  function OverlayTrack(t: PlaylistRow, byKey: map<string, Json>): PlaylistRow {
    var k := RowKey(t);
    if k in byKey then
      t.(owned := AsBool(Get(byKey[k], "owned")), ownedReason := AsString(Get(byKey[k], "owned_reason")))
    else t
  }

  function OverlayTracks(ts: seq<PlaylistRow>, byKey: map<string, Json>): (r: seq<PlaylistRow>)
    ensures |r| == |ts|
  {
    seq(|ts|, i requires 0 <= i < |ts| => OverlayTrack(ts[i], byKey))
  }

  /**
   * A key is in `byKey` exactly when some response track carries it, and
   * it maps to the last such track; the empty key never occurs.
   */
  lemma {:induction false} ByKeyLastWins(ts: seq<Json>, k: string)
    ensures k in ByKey(ts) <==> exists i :: 0 <= i < |ts| && ResponseKey(ts[i]) == Some(k)
    ensures k in ByKey(ts) ==> exists i :: (0 <= i < |ts| && ByKey(ts)[k] == ts[i]
      && ResponseKey(ts[i]) == Some(k)
      && forall j :: i < j < |ts| ==> ResponseKey(ts[j]) != Some(k))
    ensures "" !in ByKey(ts)
  {
    if ts != [] {
      var init := ts[..|ts| - 1];
      var n := |ts| - 1;
      ByKeyLastWins(init, k);
      assert forall i :: 0 <= i < n ==> init[i] == ts[i];
      if k in ByKey(ts) && ResponseKey(ts[n]) != Some(k) {
        var i :| 0 <= i < n && ByKey(init)[k] == init[i] && ResponseKey(init[i]) == Some(k)
          && forall j :: i < j < n ==> ResponseKey(init[j]) != Some(k);
        assert ByKey(ts)[k] == ts[i];
      }
    }
  }

  /**
   * The overlay keeps the row count and order, changes only `owned` and
   * `ownedReason`, and changes them only on rows whose key the response
   * carries.
   */
  lemma OverlayFacts(ts: seq<PlaylistRow>, resp: Json)
    ensures var byKey := ByKey(ResponseTracks(resp));
      var r := OverlayTracks(ts, byKey);
      forall i :: 0 <= i < |ts| ==>
        && r[i] == ts[i].(owned := r[i].owned, ownedReason := r[i].ownedReason)
        && (RowKey(ts[i]) !in byKey ==> r[i] == ts[i])
        && (RowKey(ts[i]) in byKey ==>
              exists j :: (0 <= j < |ResponseTracks(resp)| && ResponseKey(ResponseTracks(resp)[j]) == Some(RowKey(ts[i]))
              && r[i].owned == AsBool(Get(ResponseTracks(resp)[j], "owned"))
              && r[i].ownedReason == AsString(Get(ResponseTracks(resp)[j], "owned_reason"))))
  {
    var rts := ResponseTracks(resp);
    forall i | 0 <= i < |ts| && RowKey(ts[i]) in ByKey(rts)
      ensures exists j :: (0 <= j < |rts| && ResponseKey(rts[j]) == Some(RowKey(ts[i]))
        && ByKey(rts)[RowKey(ts[i])] == rts[j])
    {
      ByKeyLastWins(rts, RowKey(ts[i]));
    }
  }
}
