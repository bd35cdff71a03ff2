/**
 * Clean-up of one line of playlist input, and the source detector.
 */
module PlaylistUrl {
  import opened Text

  datatype Source = Spotify | Apple

  /**
   * Every return of the detector gives Spotify: the host test, the id test
   * and the fall-through all answer the same, so no input reaches Apple.
   */
  function DetectSourceFromUrl(u: string): (r: Source)
    ensures r != Apple
  {
    Spotify
  }

  predicate IsQuote(c: char) {
    c == '\'' || c == '"'
  }

  predicate IsAngled(t: string) {
    StartsWith(t, "<") && EndsWith(t, ">")
  }

  /** One enclosing `<...>` pair removed from a trimmed string, and the rest trimmed. */
  function Unbracket(t: string): (r: string)
    ensures |r| <= |t|
  {
    if IsAngled(t) then
      assert t[0] == '<' && t[|t| - 1] == '>' by {
        assert t[..1] == "<" && t[|t| - 1..] == ">";
      }
      JsTrim(t[1..|t| - 1])
    else t
  }

  /**
   * `sanitizeUrl`: trim, drop one enclosing `<...>` pair, drop the runs of
   * quote characters at both ends, and trim again.
   */
  function SanitizeUrl(raw: string): string {
    JsTrim(Strip(Unbracket(JsTrim(raw)), IsQuote))
  }

  /** The result has no white space at either end. */
  lemma SanitizeUrlNoEdge(raw: string)
    ensures NoEdge(SanitizeUrl(raw), IsJsWhitespace)
    ensures |SanitizeUrl(raw)| <= |raw|
  {
  }

  /** Input with no edge white space, no edge quotes and no enclosing brackets comes back as it is. */
  lemma SanitizeUrlClean(x: string)
    requires NoEdge(x, IsJsWhitespace) && NoEdge(x, IsQuote) && !IsAngled(x)
    ensures SanitizeUrl(x) == x
  {
    StripNoEdge(x, IsJsWhitespace);
    StripNoEdge(x, IsQuote);
  }

  /** A bare 22-character id, or any run of ASCII letters and digits, is left alone. */
  lemma SanitizeUrlBareId(x: string)
    requires AllAsciiAlnum(x)
    ensures SanitizeUrl(x) == x
  {
    if x != [] {
      assert x[..1] != "<" by {
        assert x[..1][0] == x[0];
      }
    }
    SanitizeUrlClean(x);
  }

  /** White space alone gives the empty string. */
  lemma SanitizeUrlBlank(raw: string)
    requires forall i :: 0 <= i < |raw| ==> IsJsWhitespace(raw[i])
    ensures SanitizeUrl(raw) == ""
  {
    StripAllWhitespace(raw, IsJsWhitespace);
  }

  /** Exactly one enclosing pair is removed, together with the white space just inside it. */
  lemma SanitizeUrlBrackets(w1: string, x: string, w2: string)
    requires forall i :: 0 <= i < |w1| ==> IsJsWhitespace(w1[i])
    requires forall i :: 0 <= i < |w2| ==> IsJsWhitespace(w2[i])
    requires x != [] && NoEdge(x, IsJsWhitespace) && NoEdge(x, IsQuote)
    ensures SanitizeUrl("<" + w1 + x + w2 + ">") == x
  {
    var t := "<" + w1 + x + w2 + ">";
    StripNoEdge(t, IsJsWhitespace);
    assert t[..1] == "<" && t[|t| - 1..] == ">";
    assert t[1..|t| - 1] == w1 + x + w2;
    StripPadded(w1, x, w2, IsJsWhitespace);
    StripNoEdge(x, IsQuote);
    StripNoEdge(x, IsJsWhitespace);
  }

  /**
   * The quote runs at both ends are removed once: quotes that reappear at
   * the edges after the second trim stay.
   */
  lemma SanitizeUrlQuotes(q1: string, w1: string, x: string, w2: string, q2: string)
    requires q1 != [] && forall i :: 0 <= i < |q1| ==> IsQuote(q1[i])
    requires q2 != [] && forall i :: 0 <= i < |q2| ==> IsQuote(q2[i])
    requires forall i :: 0 <= i < |w1| ==> IsJsWhitespace(w1[i])
    requires forall i :: 0 <= i < |w2| ==> IsJsWhitespace(w2[i])
    requires x != [] && NoEdge(x, IsJsWhitespace)
    requires w1 != [] || !IsQuote(x[0])
    requires w2 != [] || !IsQuote(x[|x| - 1])
    ensures SanitizeUrl(q1 + w1 + x + w2 + q2) == x
  {
    var t := q1 + w1 + x + w2 + q2;
    var mid := w1 + x + w2;
    assert t == q1 + mid + q2;
    assert t[0] == q1[0] && t[|t| - 1] == q2[|q2| - 1];
    StripNoEdge(t, IsJsWhitespace);
    assert t[..1] != "<" by {
      assert t[..1][0] == q1[0];
    }
    assert !IsQuote(mid[0]) && !IsQuote(mid[|mid| - 1]) by {
      if w1 != [] { assert mid[0] == w1[0]; } else { assert mid[0] == x[0]; }
      if w2 != [] { assert mid[|mid| - 1] == w2[|w2| - 1]; } else { assert mid[|mid| - 1] == x[|x| - 1]; }
    }
    StripPadded(q1, mid, q2, IsQuote);
    StripPadded(w1, x, w2, IsJsWhitespace);
  }
}
