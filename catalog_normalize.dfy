/**
 * `playlist_result_to_dict`: flattens the fetched playlist into the rows the
 * front end and the command line show. Items without a track, with an empty
 * track dictionary or with a local track are skipped; every other item gives
 * one row, in input order, with field defaults and store links.
 */
module CatalogNormalize {
  import opened Wrappers
  import opened Text
  import opened CatalogRaw
  import CatalogFetch
  import SearchLinks

  datatype TrackRow = TrackRow(
    title: string,
    artist: string,
    album: string,
    isrc: Option<string>,
    spotifyUrl: string,
    links: SearchLinks.StoreLinks)

  datatype PlaylistDict = PlaylistDict(playlistId: string, playlistName: string, playlistUrl: string, tracks: seq<TrackRow>)

  /** The key lookups that raise `KeyError`, in the order they are made. */
  datatype NormalizeError = MissingPlaylist | MissingItems | MissingPlaylistId | MissingPlaylistName

  /** `x or ""` for an optional string. */
  function OrEmpty(s: Option<string>): string {
    if s.Some? then s.value else ""
  }

  /** `.get("external_urls", {}).get("spotify", "")`. */
  function SpotifyUrl(urls: Option<RawUrls>): string {
    if urls.Some? then OrEmpty(urls.value.spotify) else ""
  }

  /** The item is kept: its track is present, is not an empty dictionary and is not local. */
  predicate Keeps(item: RawItem) {
    item.track.Some? && !IsEmptyTrack(item.track.value) && item.track.value.isLocal != Some(true)
  }

  /** The artist names that are present and non-empty, in order. */
  function ArtistNames(artists: seq<RawArtist>): seq<string> {
    if artists == [] then []
    else
      (if artists[0].name.Some? && artists[0].name.value != "" then [artists[0].name.value] else [])
      + ArtistNames(artists[1..])
  }

  function ArtistLine(t: RawTrack): string {
    Join(ArtistNames(t.artists.GetOr([])), ", ")
  }

  function AlbumName(t: RawTrack): string {
    if t.album.Some? then OrEmpty(t.album.value.name) else ""
  }

  /** `(external_ids or {}).get("isrc")`. */
  function Isrc(t: RawTrack): Option<string> {
    if t.externalIds.Some? then t.externalIds.value.isrc else None
  }

  /** The row of one kept track. */
  function NormalizeTrack(t: RawTrack): TrackRow {
    var title := OrEmpty(t.name);
    var artist := ArtistLine(t);
    var album := AlbumName(t);
    TrackRow(title, artist, album, Isrc(t), SpotifyUrl(t.externalUrls), SearchLinks.BuildStoreLinks(title, artist, Some(album)))
  }

  /** The rows of the kept items, in input order. */
  function NormalizeItems(items: seq<RawItem>): seq<TrackRow> {
    if items == [] then []
    else (if Keeps(items[0]) then [NormalizeTrack(items[0].track.value)] else []) + NormalizeItems(items[1..])
  }

  /** The kept items, in input order. */
  function Kept(items: seq<RawItem>): (r: seq<RawItem>)
    ensures |r| <= |items|
  {
    if items == [] then []
    else (if Keeps(items[0]) then [items[0]] else []) + Kept(items[1..])
  }

  lemma {:induction false} NormalizeItemsAppend(a: seq<RawItem>, b: seq<RawItem>)
    ensures NormalizeItems(a + b) == NormalizeItems(a) + NormalizeItems(b)
  {
    if a == [] {
      assert a + b == b;
    } else {
      assert (a + b)[0] == a[0] && (a + b)[1..] == a[1..] + b;
      NormalizeItemsAppend(a[1..], b);
      var h := if Keeps(a[0]) then [NormalizeTrack(a[0].track.value)] else [];
      calc {
        NormalizeItems(a + b);
        h + NormalizeItems(a[1..] + b);
        h + (NormalizeItems(a[1..]) + NormalizeItems(b));
        (h + NormalizeItems(a[1..])) + NormalizeItems(b);
      }
    }
  }

  /**
   * Flattens the fetched result. Missing `playlist`, `items`, playlist `id`
   * or playlist `name` fail, checked in that order; a missing playlist URL
   * becomes "". The rows are those of the kept items, in input order.
   */
  method PlaylistResultToDict(raw: RawResult) returns (r: Result<PlaylistDict, NormalizeError>)
    ensures raw.playlist.None? ==> r == Failure(MissingPlaylist)
    ensures raw.playlist.Some? && raw.items.None? ==> r == Failure(MissingItems)
    ensures raw.playlist.Some? && raw.items.Some? && raw.playlist.value.id.None? ==> r == Failure(MissingPlaylistId)
    ensures raw.playlist.Some? && raw.items.Some? && raw.playlist.value.id.Some? && raw.playlist.value.name.None? ==>
      r == Failure(MissingPlaylistName)
    ensures raw.playlist.Some? && raw.items.Some? && raw.playlist.value.id.Some? && raw.playlist.value.name.Some? ==>
      var p := raw.playlist.value;
      r == Success(PlaylistDict(p.id.value, p.name.value, SpotifyUrl(p.externalUrls), NormalizeItems(raw.items.value)))
  {
    if raw.playlist.None? {
      return Failure(MissingPlaylist);
    }
    var playlist := raw.playlist.value;
    if raw.items.None? {
      return Failure(MissingItems);
    }
    var items := raw.items.value;
    if playlist.id.None? {
      return Failure(MissingPlaylistId);
    }
    if playlist.name.None? {
      return Failure(MissingPlaylistName);
    }
    var playlistUrl := SpotifyUrl(playlist.externalUrls);
    var tracksOut: seq<TrackRow> := [];
    for k := 0 to |items|
      invariant tracksOut == NormalizeItems(items[..k])
    {
      assert items[..k + 1] == items[..k] + [items[k]];
      NormalizeItemsAppend(items[..k], [items[k]]);
      assert NormalizeItems([items[k]]) == (if Keeps(items[k]) then [NormalizeTrack(items[k].track.value)] else []) + NormalizeItems([]);
      var track := items[k].track;
      if track.None? || IsEmptyTrack(track.value) {
        continue;
      }
      if track.value.isLocal == Some(true) {
        continue;
      }
      var t := track.value;
      var title := OrEmpty(t.name);
      var artistName := Join(ArtistNames(t.artists.GetOr([])), ", ");
      var albumName := AlbumName(t);
      var spotifyUrl := SpotifyUrl(t.externalUrls);
      var isrc := Isrc(t);
      var links := SearchLinks.BuildStoreLinks(title, artistName, Some(albumName));
      tracksOut := tracksOut + [TrackRow(title, artistName, albumName, isrc, spotifyUrl, links)];
    }
    assert items[..|items|] == items;
    r := Success(PlaylistDict(playlist.id.value, playlist.name.value, playlistUrl, tracksOut));
  }

  // ---------------------------------------------------------------------------
  // What the rows are
  // ---------------------------------------------------------------------------

  /** One row per kept item, the i-th row made from the i-th kept item. */
  lemma {:induction false} RowsOfKept(items: seq<RawItem>)
    ensures |NormalizeItems(items)| == |Kept(items)|
    ensures forall i :: 0 <= i < |Kept(items)| ==>
      Keeps(Kept(items)[i]) && NormalizeItems(items)[i] == NormalizeTrack(Kept(items)[i].track.value)
  {
    RowsLength(items);
    forall i | 0 <= i < |Kept(items)|
      ensures Keeps(Kept(items)[i]) && NormalizeItems(items)[i] == NormalizeTrack(Kept(items)[i].track.value)
    {
      RowOfKept(items, i);
    }
  }

  lemma {:induction false} RowsLength(items: seq<RawItem>)
    ensures |NormalizeItems(items)| == |Kept(items)|
  {
    if items != [] {
      RowsLength(items[1..]);
    }
  }

  lemma {:induction false} RowOfKept(items: seq<RawItem>, i: nat)
    requires i < |Kept(items)|
    ensures i < |NormalizeItems(items)|
    ensures Keeps(Kept(items)[i]) && NormalizeItems(items)[i] == NormalizeTrack(Kept(items)[i].track.value)
  {
    RowsLength(items);
    var rest := items[1..];
    if Keeps(items[0]) {
      assert Kept(items) == [items[0]] + Kept(rest);
      assert NormalizeItems(items) == [NormalizeTrack(items[0].track.value)] + NormalizeItems(rest);
      if i > 0 {
        RowOfKept(rest, i - 1);
      }
    } else {
      assert Kept(items) == Kept(rest) && NormalizeItems(items) == NormalizeItems(rest);
      RowOfKept(rest, i);
    }
  }

  /** An item is kept exactly when it is in the input and passes the filter. */
  lemma {:induction false} KeptMembers(items: seq<RawItem>, x: RawItem)
    ensures x in Kept(items) <==> x in items && Keeps(x)
  {
    if items != [] {
      KeptMembers(items[1..], x);
      assert items == [items[0]] + items[1..];
    }
  }

  /** Kept items keep their relative order: kept items taken from two halves come out in halves. */
  lemma {:induction false} KeptAppend(a: seq<RawItem>, b: seq<RawItem>)
    ensures Kept(a + b) == Kept(a) + Kept(b)
  {
    if a == [] {
      assert a + b == b;
    } else {
      assert (a + b)[0] == a[0] && (a + b)[1..] == a[1..] + b;
      KeptAppend(a[1..], b);
      var h := if Keeps(a[0]) then [a[0]] else [];
      calc {
        Kept(a + b);
        h + Kept(a[1..] + b);
        h + (Kept(a[1..]) + Kept(b));
        (h + Kept(a[1..])) + Kept(b);
      }
    }
  }

  /** Normalising the items of two runs of pages is normalising each run in turn. */
  lemma NormalizePages(a: seq<RawPage>, b: seq<RawPage>)
    ensures NormalizeItems(CatalogFetch.ItemsOf(a + b))
      == NormalizeItems(CatalogFetch.ItemsOf(a)) + NormalizeItems(CatalogFetch.ItemsOf(b))
  {
    CatalogFetch.ItemsOfAppend(a, b);
    NormalizeItemsAppend(CatalogFetch.ItemsOf(a), CatalogFetch.ItemsOf(b));
  }

  /** An item whose track is missing, empty or local gives no row. */
  lemma SkippedItems(before: seq<RawItem>, t: Option<RawTrack>, after: seq<RawItem>)
    requires t.None? || IsEmptyTrack(t.value) || t.value.isLocal == Some(true)
    ensures NormalizeItems(before + [RawItem(t)] + after) == NormalizeItems(before + after)
  {
    NormalizeItemsAppend(before + [RawItem(t)], after);
    NormalizeItemsAppend(before, [RawItem(t)]);
    NormalizeItemsAppend(before, after);
    assert NormalizeItems([RawItem(t)]) == [] + NormalizeItems([]);
  }

  /**
   * A track dictionary holding only keys the normaliser does not read is
   * not empty, so it is kept and gives a row of empty fields.
   */
  lemma UnreadKeysKept(t: RawTrack)
    requires t == RawTrack(None, None, None, None, None, None, true)
    ensures NormalizeItems([RawItem(Some(t))])
      == [TrackRow("", "", "", None, "", SearchLinks.BuildStoreLinks("", "", Some("")))]
  {
    assert ArtistNames([]) == [];
  }

  // ---------------------------------------------------------------------------
  // Field rules of one row
  // ---------------------------------------------------------------------------

  lemma {:induction false} ArtistNamesNonEmpty(artists: seq<RawArtist>)
    ensures forall i :: 0 <= i < |ArtistNames(artists)| ==> ArtistNames(artists)[i] != ""
    ensures ArtistNames(artists) == [] <==> forall i :: 0 <= i < |artists| ==> OrEmpty(artists[i].name) == ""
  {
    if artists != [] {
      ArtistNamesNonEmpty(artists[1..]);
      assert forall i :: 1 <= i < |artists| ==> artists[i] == artists[1..][i - 1];
    }
  }

  lemma {:induction false} JoinNonEmpty(parts: seq<string>, sep: string)
    requires forall i :: 0 <= i < |parts| ==> parts[i] != ""
    ensures Join(parts, sep) == "" <==> parts == []
  {
    if |parts| > 1 {
      JoinNonEmpty(parts[1..], sep);
    }
  }

  /**
   * The defaults of one row: title, album and Spotify URL fall back to "",
   * the artist line is empty exactly when no artist has a non-empty name,
   * and the ISRC is absent when `external_ids` or its `isrc` is absent.
   */
  lemma TrackFieldRules(t: RawTrack)
    ensures var row := NormalizeTrack(t);
      && (row.title == "" <==> t.name.None? || t.name.value == "")
      && (row.album == "" <==> t.album.None? || t.album.value.name.None? || t.album.value.name.value == "")
      && (row.spotifyUrl == "" <==> t.externalUrls.None? || t.externalUrls.value.spotify.None? || t.externalUrls.value.spotify.value == "")
      && (row.isrc.None? <==> t.externalIds.None? || t.externalIds.value.isrc.None?)
      && (row.artist == "" <==>
            forall i :: 0 <= i < |t.artists.GetOr([])| ==> OrEmpty(t.artists.GetOr([])[i].name) == "")
  {
    ArtistNamesNonEmpty(t.artists.GetOr([]));
    JoinNonEmpty(ArtistNames(t.artists.GetOr([])), ", ");
  }

  /** Each row's store links search for that row's own title, artist and album. */
  lemma TrackLinksCarryQuery(t: RawTrack)
    ensures var row := NormalizeTrack(t);
      var query := Some(SearchLinks.BuildSearchQuery(row.title, row.artist, Some(row.album)));
      && SearchLinks.UnquotePlus(row.links.beatport[|SearchLinks.BeatportSearch|..]) == query
      && SearchLinks.UnquotePlus(row.links.bandcamp[|SearchLinks.BandcampSearch|..]) == query
      && SearchLinks.UnquotePlus(row.links.itunes[|SearchLinks.ItunesSearch|..]) == query
  {
    var row := NormalizeTrack(t);
    SearchLinks.StoreLinksCarryQuery(row.title, row.artist, Some(row.album));
  }
}
