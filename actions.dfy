/**
 * The user-triggered operations of the page that are not the analysis
 * itself: closing one tab, closing all tabs, and the CSV export with its
 * download file name.
 */
module Actions {
  import opened Wrappers
  import opened Text
  import opened Rows
  import opened UiState
  import opened CsvSanitize
  import opened Stores
  import opened AnalyzerRules
  import JsonText

  // ---------------------------------------------------------------------------
  // Tabs
  // ---------------------------------------------------------------------------

  /**
   * `handleRemoveTab`: drops every tab with that URL. When the closed tab
   * was the active one, the first remaining tab becomes active (null when
   * none is left), and a falsy next tab expands the form.
   */
  method HandleRemoveTab(s: AppState, url: string)
    modifies s`multiResults, s`activeTab, s`formCollapsed
    ensures s.multiResults == KeepOthers(old(s.multiResults), [url])
    ensures old(s.activeTab) != Some(url) ==>
      s.activeTab == old(s.activeTab) && s.formCollapsed == old(s.formCollapsed)
    ensures old(s.activeTab) == Some(url) ==>
      && s.activeTab == (if s.multiResults == [] then None else Some(s.multiResults[0].0))
      && s.formCollapsed == (if s.multiResults == [] || s.multiResults[0].0 == "" then false else old(s.formCollapsed))
  {
    var filtered := KeepOthers(s.multiResults, [url]);
    if s.activeTab == Some(url) {
      var next := if filtered == [] then None else Some(filtered[0].0);
      s.activeTab := next;
      if next.None? || next.value == "" {
        s.formCollapsed := false;
      }
    }
    s.multiResults := filtered;
  }

  /** After closing a tab no tab has its URL, and every other tab is kept in order. */
  lemma RemovedTabGone(tabs: seq<Tab>, url: string)
    ensures forall i :: 0 <= i < |KeepOthers(tabs, [url])| ==> KeepOthers(tabs, [url])[i].0 != url
    ensures forall t :: t in tabs && t.0 != url <==> t in KeepOthers(tabs, [url])
  {
    KeepOthersMembers(tabs, [url]);
  }

  /** `handleClearAllTabs`: no tabs, no active tab, an expanded form. */
  method HandleClearAllTabs(s: AppState)
    modifies s`multiResults, s`activeTab, s`formCollapsed
    ensures s.multiResults == [] && s.activeTab == None && !s.formCollapsed
  {
    s.multiResults := [];
    s.activeTab := None;
    s.formCollapsed := false;
  }

  // ---------------------------------------------------------------------------
  // CSV export
  // ---------------------------------------------------------------------------

  const CsvHeaders: seq<string> := ["#", "Title", "Artist", "Album", "ISRC", "Owned", "Beatport", "Bandcamp", "iTunes"]

  /** `String(cell).replace(/"/g, '""')`. */
  function DoubleQuotes(s: string): string {
    if s == [] then [] else (if s[0] == '"' then "\"\"" else [s[0]]) + DoubleQuotes(s[1..])
  }

  /** A cell as a quoted field, as in section 2 of RFC 4180. */
  function QuoteCell(cell: string): string {
    "\"" + DoubleQuotes(cell) + "\""
  }

  function QuotedCells(cells: seq<string>): seq<string> {
    seq(|cells|, i requires 0 <= i < |cells| => QuoteCell(cells[i]))
  }

  /** One record: its quoted fields joined by commas. */
  function CsvLine(cells: seq<string>): string {
    Join(QuotedCells(cells), ",")
  }

  /** The records joined by line feeds. */
  function EncodeGrid(grid: seq<seq<string>>): string {
    Join(seq(|grid|, i requires 0 <= i < |grid| => CsvLine(grid[i])), "\n")
  }

  /** The nine sanitised cells of one track's row. */
  function TrackCells(t: PlaylistRow, aid: Option<string>): (r: seq<string>)
    ensures |r| == |CsvHeaders|
  {
    var stores := NormalizeStores(t.stores, aid);
    [ SanitizeForCsvCell(Str(IntToString(t.index))),
      SanitizeForCsvCell(Str(t.title)),
      SanitizeForCsvCell(Str(t.artist)),
      SanitizeForCsvCell(Str(t.album)),
      SanitizeForCsvCell(Str(t.isrc.GetOr(""))),
      SanitizeForCsvCell(Str(if IsOwned(t) then "Yes" else "No")),
      SanitizeForCsvCell(Str(stores.beatport)),
      SanitizeForCsvCell(Str(stores.bandcamp)),
      SanitizeForCsvCell(Str(stores.itunes)) ]
  }

  /** The header row followed by one row per shown track, in order. */
  function CsvGrid(tracks: seq<PlaylistRow>, aid: Option<string>): seq<seq<string>> {
    [CsvHeaders] + seq(|tracks|, i requires 0 <= i < |tracks| => TrackCells(tracks[i], aid))
  }

  /**
   * `generateCsv(displayedTracks, currentResult)`: null without rows or
   * without a current result; the Beatport affiliate id is a parameter.
   */
  function GenerateCsv(tracks: seq<PlaylistRow>, current: Option<ResultState>, aid: Option<string>): Option<string> {
    if |tracks| == 0 || current.None? then None
    else Some(EncodeGrid(CsvGrid(tracks, aid)))
  }

  // ---------------------------------------------------------------------------
  // Reading the CSV back
  // ---------------------------------------------------------------------------

  /**
   * The rest of a quoted field after its opening quote: the cell, with
   * each `""` read as `"`, and the text after the closing quote.
   */
  function ReadQuoted(s: string): (r: Option<(string, string)>)
    ensures r.Some? ==> |r.value.1| < |s|
    decreases |s|
  {
    if s == [] then None
    else if s[0] == '"' then
      if |s| >= 2 && s[1] == '"' then
        match ReadQuoted(s[2..])
        case None => None
        case Some(p) => Some(("\"" + p.0, p.1))
      else Some(("", s[1..]))
    else
      match ReadQuoted(s[1..])
      case None => None
      case Some(p) => Some(([s[0]] + p.0, p.1))
  }

  /** The quoted fields of one record, up to a line feed or the end. */
  function ReadFields(s: string): (r: Option<(seq<string>, string)>)
    ensures r.Some? ==> |r.value.1| < |s|
    decreases |s|
  {
    if s == [] || s[0] != '"' then None
    else
      match ReadQuoted(s[1..])
      case None => None
      case Some(p) =>
        if p.1 != [] && p.1[0] == ',' then
          match ReadFields(p.1[1..])
          case None => None
          case Some(q) => Some(([p.0] + q.0, q.1))
        else Some(([p.0], p.1))
  }

  /** The records of a CSV text whose fields are all quoted. */
  function ReadRecords(s: string): Option<seq<seq<string>>>
    decreases |s|
  {
    match ReadFields(s)
    case None => None
    case Some(p) =>
      if p.1 == [] then Some([p.0])
      else if p.1[0] == '\n' then
        match ReadRecords(p.1[1..])
        case None => None
        case Some(rs) => Some([p.0] + rs)
      else None
  }

  lemma {:induction false} ReadDoubled(c: string, rest: string)
    requires rest == [] || rest[0] != '"'
    ensures ReadQuoted(DoubleQuotes(c) + "\"" + rest) == Some((c, rest))
  {
    var s := DoubleQuotes(c) + "\"" + rest;
    if c != [] {
      ReadDoubled(c[1..], rest);
      var inner := DoubleQuotes(c[1..]) + "\"" + rest;
      if c[0] == '"' {
        assert s == "\"\"" + inner;
        assert s[0] == '"' && s[1] == '"';
        assert s[2..] == inner;
        assert "\"" + c[1..] == c;
      } else {
        assert s == [c[0]] + inner;
        assert s[0] == c[0];
        assert s[1..] == inner;
        assert [c[0]] + c[1..] == c;
      }
    } else {
      assert s == "\"" + rest;
      assert s[1..] == rest;
    }
  }

  /** A quoted cell opens with a quote and reads back as the cell. */
  lemma ReadCell(c: string, after: string)
    requires after == [] || after[0] != '"'
    ensures var s := QuoteCell(c) + after; s[0] == '"' && ReadQuoted(s[1..]) == Some((c, after))
  {
    var s := QuoteCell(c) + after;
    assert s[1..] == DoubleQuotes(c) + "\"" + after;
    ReadDoubled(c, after);
  }

  lemma {:induction false} ReadLine(cells: seq<string>, rest: string)
    requires |cells| >= 1
    requires rest == [] || rest[0] == '\n'
    ensures ReadFields(CsvLine(cells) + rest) == Some((cells, rest))
  {
    var c := cells[0];
    if |cells| == 1 {
      assert CsvLine(cells) == QuoteCell(c);
      ReadCell(c, rest);
      assert [c] == cells;
    } else {
      var tail := cells[1..];
      assert QuotedCells(cells)[1..] == QuotedCells(tail);
      var after := "," + CsvLine(tail) + rest;
      assert CsvLine(cells) + rest == QuoteCell(c) + after;
      ReadCell(c, after);
      assert after[1..] == CsvLine(tail) + rest;
      ReadLine(tail, rest);
      assert [c] + tail == cells;
    }
  }

  lemma {:induction false} ReadGrid(grid: seq<seq<string>>)
    requires |grid| >= 1
    requires forall i :: 0 <= i < |grid| ==> |grid[i]| >= 1
    ensures ReadRecords(EncodeGrid(grid)) == Some(grid)
  {
    var lines := seq(|grid|, i requires 0 <= i < |grid| => CsvLine(grid[i]));
    if |grid| == 1 {
      assert EncodeGrid(grid) == CsvLine(grid[0]) + "";
      ReadLine(grid[0], "");
      assert [grid[0]] == grid;
    } else {
      var tail := grid[1..];
      assert lines[1..] == seq(|tail|, i requires 0 <= i < |tail| => CsvLine(tail[i]));
      var after := "\n" + EncodeGrid(tail);
      assert EncodeGrid(grid) == CsvLine(grid[0]) + after;
      ReadLine(grid[0], after);
      assert after[1..] == EncodeGrid(tail);
      ReadGrid(tail);
      assert [grid[0]] + tail == grid;
    }
  }

  // ---------------------------------------------------------------------------
  // Properties of generateCsv
  // ---------------------------------------------------------------------------

  /** There is no CSV exactly when there are no rows or no current result. */
  lemma GenerateCsvNull(tracks: seq<PlaylistRow>, current: Option<ResultState>, aid: Option<string>)
    ensures GenerateCsv(tracks, current, aid).None? <==> tracks == [] || current.None?
  {
  }

  /**
   * A CSV reader gets back the header row and then each track's nine
   * cells, in order: quoting hides every comma, quote and line feed.
   */
  lemma CsvReadsBack(tracks: seq<PlaylistRow>, current: Option<ResultState>, aid: Option<string>)
    requires GenerateCsv(tracks, current, aid).Some?
    ensures var grid := ReadRecords(GenerateCsv(tracks, current, aid).value);
      && grid.Some? && |grid.value| == |tracks| + 1
      && grid.value[0] == CsvHeaders
      && forall i :: 0 <= i < |tracks| ==> grid.value[i + 1] == TrackCells(tracks[i], aid)
  {
    CsvGridShape(tracks, aid);
    CsvGridRows(tracks, aid);
    ReadGrid(CsvGrid(tracks, aid));
  }

  lemma CsvGridShape(tracks: seq<PlaylistRow>, aid: Option<string>)
    ensures var grid := CsvGrid(tracks, aid);
      && |grid| == |tracks| + 1 && grid[0] == CsvHeaders
      && forall i :: 0 <= i < |tracks| ==> grid[i + 1] == TrackCells(tracks[i], aid)
  {
  }

  lemma CsvGridRows(tracks: seq<PlaylistRow>, aid: Option<string>)
    ensures var grid := CsvGrid(tracks, aid);
      forall i :: 0 <= i < |grid| ==> |grid[i]| >= 1
  {
    var grid := CsvGrid(tracks, aid);
    CsvGridShape(tracks, aid);
    assert |CsvHeaders| == 9;
    forall i | 0 <= i < |grid|
      ensures |grid[i]| >= 1
    {
      if i > 0 {
        assert |grid[i]| == |TrackCells(tracks[i - 1], aid)|;
      }
    }
  }

  /**
   * Each row's cells are the sanitised index, title, artist, album, ISRC
   * (empty when missing), ownership and the three normalised store links;
   * Owned reads "Yes" exactly when `owned === true`; no cell starts a formula.
   */
  lemma TrackCellsFacts(t: PlaylistRow, aid: Option<string>)
    ensures var cells := TrackCells(t, aid);
      && |cells| == |CsvHeaders| == 9
      && (cells[5] == "Yes" <==> IsOwned(t))
      && (cells[5] == "No" <==> !IsOwned(t))
      && cells[1] == SanitizeForCsvCell(Str(t.title))
      && (t.isrc.None? ==> cells[4] == "")
      && cells[6] == SanitizeForCsvCell(Str(NormalizeStores(t.stores, aid).beatport))
      && forall i :: 0 <= i < 9 ==> !Dangerous(cells[i])
  {
    var cells := TrackCells(t, aid);
    forall i | 0 <= i < 9
      ensures !Dangerous(cells[i])
    {
      SanitizeSafe(Str(""));
    }
  }

  // ---------------------------------------------------------------------------
  // Download file name
  // ---------------------------------------------------------------------------

  predicate IsFilenameChar(c: char) {
    IsAsciiAlnum(c) || c == '_' || c == '-'
  }

  /**
   * `.replace(/[^a-zA-Z0-9_-]/g, "_")` over UTF-16 code units: a character
   * outside the Basic Multilingual Plane is two units, so two `_`.
   */
  function ReplaceUnsafe(s: string): (r: string)
    ensures |r| == JsonText.Utf16Length(s)
    ensures forall i :: 0 <= i < |r| ==> IsFilenameChar(r[i])
  {
    if s == [] then []
    else
      var head := if IsFilenameChar(s[0]) then [s[0]] else if (s[0] as int) > 0xFFFF then "__" else "_";
      head + ReplaceUnsafe(s[1..])
  }

  /** The safe playlist name: `(title || "playlist")`, made safe, cut to 50 code units. */
  function SafePlaylistName(title: string): string {
    var r := ReplaceUnsafe(if title == "" then "playlist" else title);
    if |r| <= 50 then r else r[..50]
  }

  /** `playlist_${safePlaylistName}_${Date.now()}.csv`, with the clock as a parameter. */
  function DownloadFilename(title: string, now: int): string {
    "playlist_" + SafePlaylistName(title) + "_" + IntToString(now) + ".csv"
  }

  /**
   * `downloadCsv`: nothing to download when there is no CSV (the page
   * alerts instead); otherwise the file name and the CSV text.
   */
  function DownloadCsv(tracks: seq<PlaylistRow>, current: Option<ResultState>, aid: Option<string>, now: int): Option<(string, string)> {
    match GenerateCsv(tracks, current, aid)
    case None => None
    case Some(csv) => Some((DownloadFilename(current.value.title, now), csv))
  }

  lemma {:induction false} ReplaceUnsafeKeeps(s: string)
    requires forall i :: 0 <= i < |s| ==> IsFilenameChar(s[i])
    ensures ReplaceUnsafe(s) == s
  {
    if s != [] {
      ReplaceUnsafeKeeps(s[1..]);
      assert [s[0]] + s[1..] == s;
    }
  }

  /** The safe name has at most 50 characters, all from `[A-Za-z0-9_-]`. */
  lemma SafePlaylistNameSafe(title: string)
    ensures |SafePlaylistName(title)| <= 50
    ensures forall i :: 0 <= i < |SafePlaylistName(title)| ==> IsFilenameChar(SafePlaylistName(title)[i])
  {
  }

  /** A title made only of allowed characters is kept up to the cut. */
  lemma SafePlaylistNameKeeps(title: string)
    requires title != [] && forall i :: 0 <= i < |title| ==> IsFilenameChar(title[i])
    ensures SafePlaylistName(title) == title[..if |title| <= 50 then |title| else 50]
  {
    ReplaceUnsafeKeeps(title);
  }

  /** An empty title reads "playlist". */
  lemma SafePlaylistNameEmpty()
    ensures SafePlaylistName("") == "playlist"
  {
    var p := "playlist";
    assert forall i :: 0 <= i < |p| ==> IsFilenameChar(p[i]);
    ReplaceUnsafeKeeps(p);
  }

  /** A download happens exactly when there is a CSV, and then carries it. */
  lemma DownloadCsvFacts(tracks: seq<PlaylistRow>, current: Option<ResultState>, aid: Option<string>, now: int)
    ensures DownloadCsv(tracks, current, aid, now).None? <==> tracks == [] || current.None?
    ensures DownloadCsv(tracks, current, aid, now).Some? ==>
      DownloadCsv(tracks, current, aid, now).value.1 == GenerateCsv(tracks, current, aid).value
  {
  }
}
