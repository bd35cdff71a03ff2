/**
 * Store search links for one track: the search query built from title,
 * artist and album, its form encoding (Python's `urllib.parse.quote_plus`)
 * and the three store search URLs built from it.
 */
module SearchLinks {
  import opened Wrappers
  import opened Text
  import Utf8

  // ---------------------------------------------------------------------------
  // The search query
  // ---------------------------------------------------------------------------

  /** The stripped title and artist, then the stripped album when one is given and non-empty. */
  function QueryParts(title: string, artist: string, album: Option<string>): seq<string> {
    [PyStrip(title), PyStrip(artist)]
    + (if album.Some? && album.value != "" then [PyStrip(album.value)] else [])
  }

  /** The parts that are not empty, in their order. */
  function NonEmpty(parts: seq<string>): (r: seq<string>)
    ensures |r| <= |parts|
  {
    if parts == [] then []
    else if parts[0] == "" then NonEmpty(parts[1..])
    else [parts[0]] + NonEmpty(parts[1..])
  }

  /** The base query a store is searched with: the non-empty parts joined by single spaces. */
  function BuildSearchQuery(title: string, artist: string, album: Option<string>): string {
    Join(NonEmpty(QueryParts(title, artist, album)), " ")
  }

  predicate AllNonEmpty(parts: seq<string>) {
    forall i :: 0 <= i < |parts| ==> parts[i] != []
  }

  predicate AllNoEdge(parts: seq<string>) {
    forall i :: 0 <= i < |parts| ==> NoEdge(parts[i], IsPyWhitespace)
  }

  lemma {:induction false} NonEmptyKeeps(parts: seq<string>)
    requires AllNoEdge(parts)
    ensures AllNonEmpty(NonEmpty(parts)) && AllNoEdge(NonEmpty(parts))
  {
    if parts != [] {
      NonEmptyKeeps(parts[1..]);
    }
  }

  lemma {:induction false} NonEmptyIsEmpty(parts: seq<string>)
    ensures NonEmpty(parts) == [] <==> forall i :: 0 <= i < |parts| ==> parts[i] == []
  {
    if parts != [] {
      NonEmptyIsEmpty(parts[1..]);
      assert forall i :: 1 <= i < |parts| ==> parts[i] == parts[1..][i - 1];
    }
  }

  /** Joining non-empty parts starts with the first part's first character and ends with the last part's last one. */
  lemma {:induction false} JoinEdges(parts: seq<string>)
    requires |parts| > 0 && AllNonEmpty(parts)
    ensures var j := Join(parts, " ");
      |j| > 0 && j[0] == parts[0][0] && j[|j| - 1] == parts[|parts| - 1][|parts[|parts| - 1]| - 1]
  {
    if |parts| > 1 {
      var tail := parts[1..];
      JoinEdges(tail);
      var rest := Join(tail, " ");
      var j := parts[0] + " " + rest;
      assert Join(parts, " ") == j;
      assert j[0] == parts[0][0];
      assert j[|j| - 1] == rest[|rest| - 1];
      assert tail[|tail| - 1] == parts[|parts| - 1];
    }
  }

  /** The query never starts or ends with white space. */
  lemma QueryNoEdge(title: string, artist: string, album: Option<string>)
    ensures NoEdge(BuildSearchQuery(title, artist, album), IsPyWhitespace)
  {
    var parts := NonEmpty(QueryParts(title, artist, album));
    NonEmptyKeeps(QueryParts(title, artist, album));
    if parts != [] {
      JoinEdges(parts);
    }
  }

  /** The query is empty exactly when title, artist and album are all blank. */
  lemma QueryEmptyIff(title: string, artist: string, album: Option<string>)
    ensures BuildSearchQuery(title, artist, album) == ""
      <==> PyStrip(title) == "" && PyStrip(artist) == "" && (album.None? || PyStrip(album.value) == "")
  {
    var qp := QueryParts(title, artist, album);
    assert qp[0] == PyStrip(title) && qp[1] == PyStrip(artist);
    NonEmptyIsEmpty(qp);
    var parts := NonEmpty(qp);
    if parts != [] {
      NonEmptyKeeps(qp);
      JoinEdges(parts);
    }
    if album.Some? && album.value == "" {
      StripNoEdge(album.value, IsPyWhitespace);
    } else if album.Some? {
      assert qp[2] == PyStrip(album.value);
    }
  }

  /** With all three parts present, they appear stripped and in order, one space apart. */
  lemma QueryAllParts(title: string, artist: string, album: string)
    requires PyStrip(title) != "" && PyStrip(artist) != "" && PyStrip(album) != ""
    ensures BuildSearchQuery(title, artist, Some(album))
      == PyStrip(title) + " " + PyStrip(artist) + " " + PyStrip(album)
  {
    var a, b, c := PyStrip(title), PyStrip(artist), PyStrip(album);
    assert album != "";
    assert QueryParts(title, artist, Some(album)) == [a, b, c];
    assert [a, b, c][1..] == [b, c] && [b, c][1..] == [c] && [c][1..] == [];
    assert NonEmpty([c]) == [c];
    assert NonEmpty([b, c]) == [b, c];
    assert NonEmpty([a, b, c]) == [a, b, c];
    assert Join([b, c], " ") == b + " " + c;
  }

  /** A blank part leaves no double space behind: a blank artist is simply skipped. */
  lemma QueryBlankArtist(title: string, artist: string, album: string)
    requires PyStrip(title) != "" && PyStrip(artist) == "" && PyStrip(album) != ""
    ensures BuildSearchQuery(title, artist, Some(album)) == PyStrip(title) + " " + PyStrip(album)
  {
    var a, b, c := PyStrip(title), PyStrip(artist), PyStrip(album);
    assert album != "";
    assert QueryParts(title, artist, Some(album)) == [a, b, c];
    assert [a, b, c][1..] == [b, c] && [b, c][1..] == [c] && [c][1..] == [];
    assert NonEmpty([c]) == [c];
    assert NonEmpty([b, c]) == [c];
    assert NonEmpty([a, b, c]) == [a, c];
    assert [a, c][1..] == [c];
    assert Join([a, c], " ") == a + " " + c;
  }

  /** Building a query from a query alone gives it back. */
  lemma QueryFixpoint(title: string, artist: string, album: Option<string>)
    ensures var q := BuildSearchQuery(title, artist, album);
      BuildSearchQuery(q, "", None) == q
  {
    var q := BuildSearchQuery(title, artist, album);
    QueryNoEdge(title, artist, album);
    StripNoEdge(q, IsPyWhitespace);
    StripNoEdge("", IsPyWhitespace);
  }

  // ---------------------------------------------------------------------------
  // Form encoding: urllib.parse.quote_plus and its inverse
  // ---------------------------------------------------------------------------

  /** Bytes `quote` never escapes: ASCII letters, digits and `_.-~`. */
  predicate IsUnreserved(b: Utf8.byte) {
    || 'A' as int <= b <= 'Z' as int || 'a' as int <= b <= 'z' as int || '0' as int <= b <= '9' as int
    || b == '_' as int || b == '.' as int || b == '-' as int || b == '~' as int
  }

  /** Upper-case hexadecimal digit. */
  function HexDigit(d: nat): char
    requires d < 16
  {
    if d < 10 then ('0' as int + d) as char else ('A' as int + d - 10) as char
  }

  /** The value of a hexadecimal digit of either case. */
  function HexValue(c: char): Option<nat> {
    if '0' <= c <= '9' then Some(c as int - '0' as int)
    else if 'A' <= c <= 'F' then Some(c as int - 'A' as int + 10)
    else if 'a' <= c <= 'f' then Some(c as int - 'a' as int + 10)
    else None
  }

  /** One byte as `quote_plus` writes it: space as `+`, unreserved as itself, the rest as `%XX`. */
  function QuoteByte(b: Utf8.byte): string {
    if b == 0x20 then "+"
    else if IsUnreserved(b) then [b as char]
    else ['%', HexDigit(b / 16), HexDigit(b % 16)]
  }

  function QuoteBytes(bs: seq<Utf8.byte>): string {
    if bs == [] then "" else QuoteByte(bs[0]) + QuoteBytes(bs[1..])
  }

  /** `urllib.parse.quote_plus(s)`: the UTF-8 bytes of `s`, form-encoded. */
  function QuotePlus(s: string): string {
    QuoteBytes(Utf8.Encode(s))
  }

  /**
   * The bytes `unquote_plus` reads: `+` is a space, `%` with two hex digits
   * is that byte, any other character stands for its own UTF-8 bytes.
   */
  function PercentDecode(s: string): seq<Utf8.byte>
    decreases |s|
  {
    if s == [] then []
    else if s[0] == '+' then [0x20] + PercentDecode(s[1..])
    else if s[0] == '%' && |s| >= 3 && HexValue(s[1]).Some? && HexValue(s[2]).Some? then
      [16 * HexValue(s[1]).value + HexValue(s[2]).value] + PercentDecode(s[3..])
    else Utf8.EncodeChar(s[0]) + PercentDecode(s[1..])
  }

  /** `urllib.parse.unquote_plus` for input whose bytes are well-formed UTF-8. */
  function UnquotePlus(s: string): Option<string> {
    Utf8.Decode(PercentDecode(s))
  }

  /** Characters that can appear in a form-encoded value. */
  predicate IsFormSafe(c: char) {
    IsAsciiAlnum(c) || c == '_' || c == '.' || c == '-' || c == '~' || c == '+' || c == '%'
  }

  predicate AllFormSafe(s: string) {
    forall i :: 0 <= i < |s| ==> IsFormSafe(s[i])
  }

  lemma HexValueOfDigit(d: nat)
    requires d < 16
    ensures HexValue(HexDigit(d)) == Some(d)
  {
  }

  /** Decoding one encoded byte in front of anything yields that byte in front of the rest. */
  lemma DecodeQuotedByte(b: Utf8.byte, t: string)
    ensures PercentDecode(QuoteByte(b) + t) == [b] + PercentDecode(t)
  {
    var s := QuoteByte(b) + t;
    if b == 0x20 {
      assert s[0] == '+' && s[1..] == t;
    } else if IsUnreserved(b) {
      assert s[0] == b as char && s[1..] == t;
      Utf8.EncodeAscii(b as char);
    } else {
      assert s[0] == '%' && s[1] == HexDigit(b / 16) && s[2] == HexDigit(b % 16) && s[3..] == t;
      HexValueOfDigit(b / 16);
      HexValueOfDigit(b % 16);
    }
  }

  lemma {:induction false} DecodeQuotedBytes(bs: seq<Utf8.byte>)
    ensures PercentDecode(QuoteBytes(bs)) == bs
  {
    if bs != [] {
      DecodeQuotedByte(bs[0], QuoteBytes(bs[1..]));
      DecodeQuotedBytes(bs[1..]);
      assert [bs[0]] + bs[1..] == bs;
    }
  }

  /** Form encoding loses nothing: decoding gives the query back. */
  lemma QuotePlusRoundTrip(s: string)
    ensures UnquotePlus(QuotePlus(s)) == Some(s)
  {
    DecodeQuotedBytes(Utf8.Encode(s));
    Utf8.DecodeEncode(s);
  }

  lemma {:induction false} QuoteBytesSafe(bs: seq<Utf8.byte>)
    ensures AllFormSafe(QuoteBytes(bs))
  {
    if bs != [] {
      QuoteBytesSafe(bs[1..]);
      var h, t := QuoteByte(bs[0]), QuoteBytes(bs[1..]);
      assert forall i :: |h| <= i < |h + t| ==> (h + t)[i] == t[i - |h|];
    }
  }

  /** An encoded query holds no space, `&`, `=`, `?` or `#`: it cannot leave its URL parameter. */
  lemma QuotePlusSafe(s: string)
    ensures AllFormSafe(QuotePlus(s))
    ensures forall i :: 0 <= i < |QuotePlus(s)| ==> QuotePlus(s)[i] !in " &=?#"
  {
    QuoteBytesSafe(Utf8.Encode(s));
  }

  // ---------------------------------------------------------------------------
  // Store links
  // ---------------------------------------------------------------------------

  const BeatportSearch := "https://www.beatport.com/search?q="
  const BandcampSearch := "https://bandcamp.com/search?q="
  const ItunesSearch := "https://music.apple.com/search?term="

  /** The Beatport, Bandcamp and Apple Music search links of one track. */
  datatype StoreLinks = StoreLinks(beatport: string, bandcamp: string, itunes: string)

  function BuildStoreLinks(title: string, artist: string, album: Option<string>): (r: StoreLinks)
    ensures StartsWith(r.beatport, BeatportSearch)
    ensures StartsWith(r.bandcamp, BandcampSearch)
    ensures StartsWith(r.itunes, ItunesSearch)
  {
    var q := QuotePlus(BuildSearchQuery(title, artist, album));
    StoreLinks(BeatportSearch + q, BandcampSearch + q, ItunesSearch + q)
  }

  /** Each link carries the same search query, and decoding its parameter gives that query back. */
  lemma StoreLinksCarryQuery(title: string, artist: string, album: Option<string>)
    ensures var r := BuildStoreLinks(title, artist, album);
      var query := Some(BuildSearchQuery(title, artist, album));
      && UnquotePlus(r.beatport[|BeatportSearch|..]) == query
      && UnquotePlus(r.bandcamp[|BandcampSearch|..]) == query
      && UnquotePlus(r.itunes[|ItunesSearch|..]) == query
  {
    var q := BuildSearchQuery(title, artist, album);
    var r := BuildStoreLinks(title, artist, album);
    assert r.beatport[|BeatportSearch|..] == QuotePlus(q);
    assert r.bandcamp[|BandcampSearch|..] == QuotePlus(q);
    assert r.itunes[|ItunesSearch|..] == QuotePlus(q);
    QuotePlusRoundTrip(q);
  }

  lemma {:induction false} QuoteBytesAppend(x: seq<Utf8.byte>, y: seq<Utf8.byte>)
    ensures QuoteBytes(x + y) == QuoteBytes(x) + QuoteBytes(y)
  {
    if x == [] {
      assert x + y == y;
    } else {
      assert (x + y)[0] == x[0] && (x + y)[1..] == x[1..] + y;
      QuoteBytesAppend(x[1..], y);
      calc {
        QuoteBytes(x + y);
        QuoteByte(x[0]) + QuoteBytes(x[1..] + y);
        QuoteByte(x[0]) + (QuoteBytes(x[1..]) + QuoteBytes(y));
        QuoteBytes(x) + QuoteBytes(y);
      }
    }
  }

  /** Words of ASCII letters and digits are left as they are. */
  lemma {:induction false} QuotePlusAlnum(s: string)
    requires AllAsciiAlnum(s)
    ensures QuotePlus(s) == s
  {
    if s != [] {
      var e := Utf8.Encode(s[1..]);
      Utf8.EncodeAscii(s[0]);
      assert ([s[0] as int] + e)[1..] == e;
      QuotePlusAlnum(s[1..]);
      assert [s[0]] + s[1..] == s;
    }
  }

  /** A space between two words becomes a `+` between their encodings. */
  lemma QuotePlusSpace(a: string, b: string)
    ensures QuotePlus(a + " " + b) == QuotePlus(a) + "+" + QuotePlus(b)
  {
    Utf8.EncodeAppend(a + " ", b);
    Utf8.EncodeAppend(a, " ");
    Utf8.EncodeAscii(' ');
    assert Utf8.Encode(" ") == [0x20];
    assert QuoteBytes([0x20]) == "+";
    QuoteBytesAppend(Utf8.Encode(a) + [0x20], Utf8.Encode(b));
    QuoteBytesAppend(Utf8.Encode(a), [0x20]);
  }

  lemma QueryTwoWords(title: string, artist: string)
    requires title != "" && artist != "" && AllAsciiAlnum(title) && AllAsciiAlnum(artist)
    ensures BuildSearchQuery(title, artist, None) == title + " " + artist
  {
    StripNoEdge(title, IsPyWhitespace);
    StripNoEdge(artist, IsPyWhitespace);
    assert QueryParts(title, artist, None) == [title, artist];
    assert [title, artist][1..] == [artist] && [artist][1..] == [];
    assert NonEmpty([title, artist]) == [title, artist];
    assert Join([artist], " ") == artist;
  }

  /** A title and an artist that are single words are searched as `title+artist`. */
  lemma StoreLinksTwoWords(title: string, artist: string)
    requires title != "" && artist != "" && AllAsciiAlnum(title) && AllAsciiAlnum(artist)
    ensures BuildStoreLinks(title, artist, None).beatport == BeatportSearch + title + "+" + artist
  {
    QueryTwoWords(title, artist);
    assert BuildStoreLinks(title, artist, None).beatport == BeatportSearch + QuotePlus(title + " " + artist);
    QuotePlusTwoWords(title, artist);
  }

  lemma QuotePlusTwoWords(a: string, b: string)
    requires AllAsciiAlnum(a) && AllAsciiAlnum(b)
    ensures QuotePlus(a + " " + b) == a + "+" + b
  {
    QuotePlusSpace(a, b);
    QuotePlusAlnum(a);
    QuotePlusAlnum(b);
  }
}
