/**
 * The state-changing parts of the playlist analyzer: analysing the URLs of
 * the input box, removing a tab, applying a Rekordbox match to a result,
 * and saving the summary of the tab list.
 */
module PlaylistAnalyzer {
  import opened Wrappers
  import opened Text
  import opened Json
  import opened Rows
  import opened UiState
  import opened AnalyzerRules
  import JsonText

  // ---------------------------------------------------------------------------
  // handleAnalyze
  // ---------------------------------------------------------------------------

  /**
   * What the playlist request for one URL gives: a response, no data, or an
   * error with its message and the banner text the error tables derive
   * from the error's detail, if it has one.
   */
  datatype FetchOutcome =
    | Fetched(resp: ApiPlaylistResponse)
    | NoData
    | FetchError(message: Option<string>, detailText: Option<string>)

  const NoUrlError := "Please enter at least one playlist URL or ID."
  const FetchFailedError := "プレイリストの取得に失敗しました"
  const AllFailedError := "Failed to load playlists. Check URLs and try again."
  const NoDataMessage := "Failed to fetch playlist data"
  const RequestFailedMessage := "request failed"

  predicate Succeeds(url: string, fetch: string -> FetchOutcome) {
    ShouldFetch(url) && fetch(url).Fetched?
  }

  /** `json.meta ?? {}` as the base of the stored meta. */
  function MetaOf(meta: Json): Json {
    if meta.JObj? then meta else JObj([])
  }

  /** The result built for one response; `rb` is the Rekordbox file's metadata, if one is loaded. */
  function NewResult(resp: ApiPlaylistResponse, now: int, rb: Option<RekordboxMeta>): ResultState {
    var rows := MapTracks(resp);
    ResultState(
      resp.playlistName, |rows|, resp.playlistUrl,
      Some(resp.playlistId), Some(resp.playlistName),
      rows, now, Some(rb.Some?), MetaOf(resp.meta), None)
  }

  /** The results of the URLs that are requested and answered, in input order. */
  function Results(urls: seq<string>, fetch: string -> FetchOutcome, now: int, rb: Option<RekordboxMeta>): seq<Tab> {
    if urls == [] then []
    else
      var rest := Results(urls[..|urls| - 1], fetch, now, rb);
      var u := urls[|urls| - 1];
      if Succeeds(u, fetch) then rest + [(u, NewResult(fetch(u).resp, now, rb))] else rest
  }

  /** The banner text a failed request sets. */
  function ErrorTextOf(outcome: FetchOutcome): string
    requires !outcome.Fetched?
  {
    if outcome.NoData? then FetchFailedError else outcome.detailText.GetOr(FetchFailedError)
  }

  /** The banner text of the last requested URL that failed, if any. */
  function LastError(urls: seq<string>, fetch: string -> FetchOutcome): Option<string> {
    if urls == [] then None
    else
      var u := urls[|urls| - 1];
      if ShouldFetch(u) && !fetch(u).Fetched? then Some(ErrorTextOf(fetch(u)))
      else LastError(urls[..|urls| - 1], fetch)
  }

  predicate AnyFailed(urls: seq<string>, fetch: string -> FetchOutcome) {
    exists i :: 0 <= i < |urls| && !Succeeds(urls[i], fetch)
  }

  /**
   * The progress line a URL ends with. A URL the gate skips keeps the
   * `fetching` status it was given before the gate.
   */
  function FinalItem(url: string, fetch: string -> FetchOutcome, force: bool): ProgressItem {
    if !ShouldFetch(url) then ProgressItem(url, Fetching, Some(if force then "Reloading" else "Loading"))
    else match fetch(url)
      case Fetched(resp) => ProgressItem(url, Done, Some(NatToString(|resp.tracks|) + " tracks"))
      case NoData => ProgressItem(url, Failed, Some(NoDataMessage))
      case FetchError(m, _) => ProgressItem(url, Failed, Some(m.GetOr(RequestFailedMessage)))
  }

  /** `prev.map(p => p.url === url ? { ...p, status, message } : p)`. */
  function SetStatus(items: seq<ProgressItem>, url: string, status: ProgressStatus, message: Option<string>): (r: seq<ProgressItem>)
    ensures |r| == |items|
  {
    seq(|items|, j requires 0 <= j < |items| =>
      if items[j].url == url then ProgressItem(url, status, message) else items[j])
  }

  function ItemsAfter(urls: seq<string>, k: nat, fetch: string -> FetchOutcome, force: bool): (r: seq<ProgressItem>)
    requires k <= |urls|
    ensures |r| == |urls|
  {
    seq(|urls|, j requires 0 <= j < |urls| =>
      if urls[j] in urls[..k] then FinalItem(urls[j], fetch, force) else ProgressItem(urls[j], Pending, None))
  }

  /**
   * `handleAnalyze`: reads the URL box; with no URL it only sets the error.
   * Otherwise each URL is requested in turn (the gate skips Spotify
   * references of no accepted form), the answered ones become new results
   * merged in front of the tab list, the box is cleared when something was
   * added, and the banner shows the last failure or, when everything
   * failed, a general message. The request is the function `fetch`, the
   * clock reading is `now`.
   */
  method HandleAnalyze(s: AppState, fetch: string -> FetchOutcome, force: bool, rb: Option<RekordboxMeta>, now: int)
    returns (urls: seq<string>)
    modifies s`errorText, s`progressItems, s`multiResults, s`playlistUrlInput
    ensures urls == AnalyzeUrls(old(s.playlistUrlInput))
    ensures urls == [] ==>
      && s.errorText == Some(NoUrlError)
      && s.progressItems == old(s.progressItems)
      && s.multiResults == old(s.multiResults)
      && s.playlistUrlInput == old(s.playlistUrlInput)
    ensures urls != [] ==>
      var added := Results(urls, fetch, now, rb);
      && s.progressItems == ItemsAfter(urls, |urls|, fetch, force)
      && s.multiResults == (if added == [] then old(s.multiResults) else MergeResults(added, old(s.multiResults), rb))
      && s.playlistUrlInput == (if added == [] then old(s.playlistUrlInput) else "")
      && s.errorText == (if LastError(urls, fetch).Some? then LastError(urls, fetch)
                         else if AnyFailed(urls, fetch) && added == [] then Some(AllFailedError)
                         else None)
  {
    s.errorText := None;
    urls := AnalyzeUrls(s.playlistUrlInput);
    if urls == [] {
      s.errorText := Some(NoUrlError);
      return;
    }
    s.progressItems := seq(|urls|, j requires 0 <= j < |urls| => ProgressItem(urls[j], Pending, None));
    var added, hasError := RequestEach(s, urls, fetch, force, rb, now);
    if |added| > 0 {
      s.multiResults := MergeResults(added, s.multiResults, rb);
      s.playlistUrlInput := "";
    }
    if hasError && |added| == 0 && s.errorText.None? {
      s.errorText := Some(AllFailedError);
    }
  }

  /**
   * The loop of `handleAnalyze` over the URLs, from the state where every
   * URL is pending and the banner is empty.
   */
  method RequestEach(s: AppState, urls: seq<string>, fetch: string -> FetchOutcome, force: bool,
                     rb: Option<RekordboxMeta>, now: int)
    returns (added: seq<Tab>, hasError: bool)
    requires s.errorText == None && s.progressItems == ItemsAfter(urls, 0, fetch, force)
    modifies s`errorText, s`progressItems
    ensures added == Results(urls, fetch, now, rb)
    ensures hasError == AnyFailed(urls, fetch)
    ensures s.errorText == LastError(urls, fetch)
    ensures s.progressItems == ItemsAfter(urls, |urls|, fetch, force)
  {
    added := [];
    hasError := false;
    for k := 0 to |urls|
      invariant added == Results(urls[..k], fetch, now, rb)
      invariant hasError == AnyFailed(urls[..k], fetch)
      invariant s.errorText == LastError(urls[..k], fetch)
      invariant s.progressItems == ItemsAfter(urls, k, fetch, force)
          {
      var url := urls[k];
      Step(urls, k, fetch, now, rb);
      var items := SetStatus(s.progressItems, url, Fetching, Some(if force then "Reloading" else "Loading"));
      if !ShouldFetch(url) {
        hasError := true;
      } else {
        var outcome := fetch(url);
        match outcome {
          case Fetched(resp) =>
            added := added + [(url, NewResult(resp, now, rb))];
            items := SetStatus(items, url, Done, Some(NatToString(|MapTracks(resp)|) + " tracks"));
          case NoData =>
            hasError := true;
            items := SetStatus(items, url, Failed, Some(NoDataMessage));
            s.errorText := Some(FetchFailedError);
          case FetchError(m, d) =>
            hasError := true;
            items := SetStatus(items, url, Failed, Some(m.GetOr(RequestFailedMessage)));
            s.errorText := Some(d.GetOr(FetchFailedError));
        }
        SetStatusOverwrite(s.progressItems, url, Fetching, Some(if force then "Reloading" else "Loading"),
          FinalItem(url, fetch, force).status, FinalItem(url, fetch, force).message);
      }
      ItemsStep(urls, k, fetch, force, s.progressItems);
      s.progressItems := items;
    }
    assert urls[..|urls|] == urls;
  }

  /** How the results, the failure flag and the banner text grow by one URL. */
  lemma Step(urls: seq<string>, k: nat, fetch: string -> FetchOutcome, now: int, rb: Option<RekordboxMeta>)
    requires k < |urls|
    ensures Results(urls[..k + 1], fetch, now, rb) ==
      if Succeeds(urls[k], fetch) then Results(urls[..k], fetch, now, rb) + [(urls[k], NewResult(fetch(urls[k]).resp, now, rb))]
      else Results(urls[..k], fetch, now, rb)
    ensures LastError(urls[..k + 1], fetch) ==
      if ShouldFetch(urls[k]) && !fetch(urls[k]).Fetched? then Some(ErrorTextOf(fetch(urls[k])))
      else LastError(urls[..k], fetch)
    ensures AnyFailed(urls[..k + 1], fetch) == (AnyFailed(urls[..k], fetch) || !Succeeds(urls[k], fetch))
  {
    var a := urls[..k];
    var b := urls[..k + 1];
    assert b[..k] == a;
    assert forall i :: 0 <= i < k ==> b[i] == a[i];
    assert b[k] == urls[k];
  }

  lemma SetStatusOverwrite(items: seq<ProgressItem>, url: string, s1: ProgressStatus, m1: Option<string>,
                           s2: ProgressStatus, m2: Option<string>)
    ensures SetStatus(SetStatus(items, url, s1, m1), url, s2, m2) == SetStatus(items, url, s2, m2)
  {
  }

  /** One iteration turns every line of the current URL into its final form and leaves the others. */
  lemma ItemsStep(urls: seq<string>, k: nat, fetch: string -> FetchOutcome, force: bool, before: seq<ProgressItem>)
    requires k < |urls| && before == ItemsAfter(urls, k, fetch, force)
    ensures SetStatus(before, urls[k], FinalItem(urls[k], fetch, force).status, FinalItem(urls[k], fetch, force).message)
      == ItemsAfter(urls, k + 1, fetch, force)
  {
    assert urls[..k + 1] == urls[..k] + [urls[k]];
    var after := SetStatus(before, urls[k], FinalItem(urls[k], fetch, force).status, FinalItem(urls[k], fetch, force).message);
    forall j | 0 <= j < |urls| ensures after[j] == ItemsAfter(urls, k + 1, fetch, force)[j] {
      assert before[j].url == urls[j];
    }
  }

  // ---------------------------------------------------------------------------
  // What an analysis run produces
  // ---------------------------------------------------------------------------

  /** A new result counts exactly its rows, which are the mapped response tracks, and records the Rekordbox flag. */
  lemma NewResultFacts(resp: ApiPlaylistResponse, now: int, rb: Option<RekordboxMeta>)
    ensures var r := NewResult(resp, now, rb);
      && r.total == |r.tracks| == |resp.tracks|
      && r.tracks == MapTracks(resp)
      && r.title == resp.playlistName && r.playlistUrl == resp.playlistUrl
      && r.playlistId == Some(resp.playlistId)
      && r.analyzedAt == now
      && (r.hasRekordboxData == Some(true) <==> rb.Some?)
      && r.rekordboxMeta == None
  {
  }

  /**
   * Every new result belongs to a requested URL that was answered, and
   * every such URL has a result; there are no more results than URLs.
   */
  lemma {:induction false} ResultsFacts(urls: seq<string>, fetch: string -> FetchOutcome, now: int, rb: Option<RekordboxMeta>)
    ensures |Results(urls, fetch, now, rb)| <= |urls|
    ensures forall i :: 0 <= i < |Results(urls, fetch, now, rb)| ==>
      var t := Results(urls, fetch, now, rb)[i];
      t.0 in urls && Succeeds(t.0, fetch) && t.1 == NewResult(fetch(t.0).resp, now, rb)
    ensures forall j :: 0 <= j < |urls| && Succeeds(urls[j], fetch) ==>
      urls[j] in TabUrls(Results(urls, fetch, now, rb))
  {
    if urls != [] {
      var init := urls[..|urls| - 1];
      var u := urls[|urls| - 1];
      ResultsFacts(init, fetch, now, rb);
      var rest := Results(init, fetch, now, rb);
      var r := Results(urls, fetch, now, rb);
      assert forall j :: 0 <= j < |init| ==> init[j] == urls[j];
      forall j | 0 <= j < |urls| && Succeeds(urls[j], fetch)
        ensures urls[j] in TabUrls(r)
      {
        if j < |init| {
          assert urls[j] in TabUrls(rest);
          var i :| 0 <= i < |rest| && TabUrls(rest)[i] == urls[j];
          assert r[i] == rest[i];
          assert TabUrls(r)[i] == urls[j];
        } else {
          assert TabUrls(r)[|r| - 1] == u;
        }
      }
    }
  }

  /** The banner names a failure exactly when some requested URL failed, and then not everything succeeded. */
  lemma {:induction false} LastErrorFacts(urls: seq<string>, fetch: string -> FetchOutcome)
    ensures LastError(urls, fetch).Some? <==>
      exists i :: 0 <= i < |urls| && ShouldFetch(urls[i]) && !fetch(urls[i]).Fetched?
    ensures LastError(urls, fetch).Some? ==> AnyFailed(urls, fetch)
  {
    if urls != [] {
      var init := urls[..|urls| - 1];
      LastErrorFacts(init, fetch);
      assert forall j :: 0 <= j < |init| ==> init[j] == urls[j];
      var n := |urls| - 1;
      if LastError(urls, fetch).Some? {
        if ShouldFetch(urls[n]) && !fetch(urls[n]).Fetched? {
          assert !Succeeds(urls[n], fetch);
        } else {
          var i :| 0 <= i < |init| && ShouldFetch(init[i]) && !fetch(init[i]).Fetched?;
          assert !Succeeds(urls[i], fetch);
        }
      }
    }
  }

  /** A reference the gate skips ends the run still marked as fetching. */
  lemma GatedStaysFetching(url: string, fetch: string -> FetchOutcome, force: bool)
    requires !ShouldFetch(url)
    ensures FinalItem(url, fetch, force).status == Fetching
  {
  }

  // ---------------------------------------------------------------------------
  // handleRemoveTab
  // ---------------------------------------------------------------------------

  /** The analyzer's `handleRemoveTab`: drops every tab with that URL. */
  method HandleRemoveTab(s: AppState, url: string)
    modifies s`multiResults
    ensures s.multiResults == KeepOthers(old(s.multiResults), [url])
  {
    s.multiResults := KeepOthers(s.multiResults, [url]);
  }

  // ---------------------------------------------------------------------------
  // applySnapshotWithXml
  // ---------------------------------------------------------------------------

  /** `findIndex` by playlist id. */
  function FindTab(tabs: seq<Tab>, id: Option<string>): (r: Option<nat>)
    ensures r.Some? ==> r.value < |tabs| && tabs[r.value].1.playlistId == id
    ensures r.Some? ==> forall j :: 0 <= j < r.value ==> tabs[j].1.playlistId != id
    ensures r.None? ==> forall j :: 0 <= j < |tabs| ==> tabs[j].1.playlistId != id
  {
    if tabs == [] then None
    else if tabs[0].1.playlistId == id then Some(0)
    else match FindTab(tabs[1..], id)
      case None => None
      case Some(i) => Some(i + 1)
  }

  /** The tab list after the overlay: the first tab of the playlist gets the overlaid rows and the Rekordbox flag. */
  function OverlayResults(tabs: seq<Tab>, id: Option<string>, byKey: map<string, Json>): seq<Tab> {
    match FindTab(tabs, id)
    case None => tabs
    case Some(i) =>
      var r := tabs[i].1;
      tabs[i := (tabs[i].0, r.(tracks := OverlayTracks(r.tracks, byKey), hasRekordboxData := Some(true)))]
  }

  /**
   * `applySnapshotWithXml`: the match response `resp` is indexed by track
   * key, then the current playlist's tab takes the matched ownership. The
   * snapshot request body and the upload are not part of the model.
   */
  method ApplySnapshotWithXml(s: AppState, current: ResultState, resp: Json)
    modifies s`multiResults
    ensures s.multiResults == OverlayResults(old(s.multiResults), current.playlistId, ByKey(ResponseTracks(resp)))
  {
    var ts := ResponseTracks(resp);
    var byKey: map<string, Json> := map[];
    for k := 0 to |ts|
      invariant byKey == ByKey(ts[..k])
    {
      assert ts[..k + 1][..k] == ts[..k];
      var key := ResponseKey(ts[k]);
      if key.Some? {
        byKey := byKey[key.value := ts[k]];
      }
    }
    assert ts[..|ts|] == ts;
    var idx := FindTab(s.multiResults, current.playlistId);
    if idx.Some? {
      var i := idx.value;
      var nt := s.multiResults[i].1;
      var tracks := OverlayTracks(nt.tracks, byKey);
      s.multiResults := s.multiResults[i := (s.multiResults[i].0, nt.(tracks := tracks, hasRekordboxData := Some(true)))];
    }
  }

  /**
   * Only the first tab of the playlist changes, and in it only the rows and
   * the Rekordbox flag, which becomes true; without such a tab nothing does.
   */
  lemma OverlayResultsFacts(tabs: seq<Tab>, id: Option<string>, byKey: map<string, Json>)
    ensures var r := OverlayResults(tabs, id, byKey);
      && |r| == |tabs|
      && (forall j :: 0 <= j < |tabs| && tabs[j].1.playlistId != id ==> r[j] == tabs[j])
      && (forall j :: 0 <= j < |tabs| && tabs[j].1.playlistId == id ==>
            (exists i :: 0 <= i < j && tabs[i].1.playlistId == id) ==> r[j] == tabs[j])
      && (forall j :: 0 <= j < |tabs| && tabs[j].1.playlistId == id && (forall i :: 0 <= i < j ==> tabs[i].1.playlistId != id) ==>
            && r[j].0 == tabs[j].0
            && r[j].1 == tabs[j].1.(tracks := r[j].1.tracks, hasRekordboxData := Some(true))
            && r[j].1.tracks == OverlayTracks(tabs[j].1.tracks, byKey))
  {
  }

  // ---------------------------------------------------------------------------
  // The persisted summary
  // ---------------------------------------------------------------------------

  const MaxStorageBytes := 300 * 1024
  const StorageFullWarning := "保存容量上限を超えました"

  function OptionalText(o: Option<string>): Json {
    if o.Some? then JStr(o.value) else JUndefined
  }

  function RekordboxJson(m: Option<RekordboxMeta>): Json {
    match m
    case None => JNull
    case Some(meta) => JObj([("filename", JStr(meta.filename)), ("updatedAtISO", JStr(meta.updatedAtIso))])
  }

  /** One tab's entry in the saved list: its URL, its playlist id and the result without its rows. */
  function Summary(tab: Tab): Json {
    var r := tab.1;
    JObj([
      ("url", JStr(tab.0)),
      ("snapshotId", OptionalText(r.playlistId)),
      ("summary", JObj([
        ("title", JStr(r.title)),
        ("total", JNum(r.total)),
        ("playlistUrl", JStr(r.playlistUrl)),
        ("playlist_id", OptionalText(r.playlistId)),
        ("playlist_name", OptionalText(r.playlistName)),
        ("analyzedAt", JNum(r.analyzedAt)),
        ("hasRekordboxData", if r.hasRekordboxData.Some? then JBool(r.hasRekordboxData.value) else JUndefined),
        ("rekordboxMeta", RekordboxJson(r.rekordboxMeta)),
        ("meta", r.meta)]))])
  }

  function Payload(tabs: seq<Tab>): Json {
    JObj([("version", JNum(2)), ("results", JArr(seq(|tabs|, i requires 0 <= i < |tabs| => Summary(tabs[i]))))])
  }

  /**
   * The debounced save of the tab list: nothing with no tabs; a payload
   * longer than the guard only raises the storage warning; otherwise the
   * payload is written.
   */
  method PersistResults(s: AppState)
    modifies s`storedResults, s`storageWarning
    ensures s.multiResults == [] ==> s.storedResults == old(s.storedResults) && s.storageWarning == old(s.storageWarning)
    ensures s.multiResults != [] ==>
      var payload := JsonText.Write(Payload(s.multiResults));
      if JsonText.Utf16Length(payload) > MaxStorageBytes then
        s.storageWarning == Some(StorageFullWarning) && s.storedResults == old(s.storedResults)
      else
        s.storedResults == Some(payload) && s.storageWarning == old(s.storageWarning)
  {
    if |s.multiResults| == 0 {
      return;
    }
    var payload := JsonText.Write(Payload(s.multiResults));
    if JsonText.Utf16Length(payload) > MaxStorageBytes {
      s.storageWarning := Some(StorageFullWarning);
      return;
    }
    s.storedResults := Some(payload);
  }

  /** The saved payload does not depend on any tab's rows, so they are never saved. */
  lemma PayloadIgnoresTracks(tabs: seq<Tab>, i: int, rows: seq<PlaylistRow>)
    requires 0 <= i < |tabs|
    ensures Payload(tabs[i := (tabs[i].0, tabs[i].1.(tracks := rows))]) == Payload(tabs)
  {
    var tabs' := tabs[i := (tabs[i].0, tabs[i].1.(tracks := rows))];
    var a := seq(|tabs'|, j requires 0 <= j < |tabs'| => Summary(tabs'[j]));
    var b := seq(|tabs|, j requires 0 <= j < |tabs| => Summary(tabs[j]));
    assert Summary(tabs'[i]) == Summary(tabs[i]);
    assert forall j :: 0 <= j < |tabs| ==> a[j] == b[j];
    assert a == b;
  }

  /** A key that no entry carries reads as `undefined`. */
  lemma {:induction false} LookupMissing(fields: seq<(string, Json)>, key: string)
    requires forall i :: 0 <= i < |fields| ==> fields[i].0 != key
    ensures Lookup(fields, key) == JUndefined
  {
    if fields != [] {
      LookupMissing(fields[1..], key);
    }
  }

  /** No level of a saved entry has a `tracks` key. */
  lemma SummaryHasNoTracks(tab: Tab)
    ensures Get(Summary(tab), "tracks") == JUndefined
    ensures Get(Get(Summary(tab), "summary"), "tracks") == JUndefined
  {
    var outer := Summary(tab).fields;
    assert forall i :: 0 <= i < |outer| ==> |outer[i].0| != 6;
    LookupMissing(outer, "tracks");
    assert outer[2].0 == "summary";
    var inner := outer[2].1.fields;
    assert |outer[0].0| == 3 && |outer[1].0| == 10;
    assert Lookup(outer, "summary") == Lookup(outer[1..], "summary") == Lookup(outer[2..], "summary") == outer[2].1;
    assert forall i :: 0 <= i < |inner| ==> |inner[i].0| != 6;
    LookupMissing(inner, "tracks");
  }
}
