/**
 * The front end's shared records: store links, one playlist row per track,
 * and the per-playlist result held in the tab list.
 */
module Rows {
  import opened Wrappers
  import opened Json

  /** `'isrc' | 'norm'`: how confident the server's primary track key is. */
  datatype KeyType = IsrcKey | NormKey

  /** Store links; every key is optional. */
  datatype StoreLinks = StoreLinks(
    beatport: Option<string>,
    bandcamp: Option<string>,
    itunes: Option<string>,
    spotify: Option<string>,
    apple: Option<string>)

  /** `owned` and `ownedReason` use None for both `null` and `undefined`. */
  datatype PlaylistRow = PlaylistRow(
    index: int,
    title: string,
    artist: string,
    album: string,
    isrc: Option<string>,
    spotifyUrl: Option<string>,
    appleUrl: Option<string>,
    stores: StoreLinks,
    owned: Option<bool>,
    ownedReason: Option<string>,
    trackKeyPrimary: Option<string>,
    trackKeyFallback: Option<string>,
    trackKeyPrimaryType: Option<KeyType>)

  datatype RekordboxMeta = RekordboxMeta(filename: string, updatedAtIso: string)

  /** One analysed playlist; `meta` is `JUndefined` when absent. */
  datatype ResultState = ResultState(
    title: string,
    total: int,
    playlistUrl: string,
    playlistId: Option<string>,
    playlistName: Option<string>,
    tracks: seq<PlaylistRow>,
    analyzedAt: int,
    hasRekordboxData: Option<bool>,
    meta: Json,
    rekordboxMeta: Option<RekordboxMeta>)

  /** A track as the playlist endpoint returns it; `null` and absent are both None. */
  datatype ApiTrack = ApiTrack(
    title: string,
    artist: string,
    album: string,
    isrc: Option<string>,
    spotifyUrl: Option<string>,
    appleUrl: Option<string>,
    links: Option<StoreLinks>,
    owned: Option<bool>,
    ownedReason: Option<string>,
    trackKeyPrimary: Option<string>,
    trackKeyFallback: Option<string>,
    trackKeyPrimaryType: Option<KeyType>)

  datatype ApiPlaylistResponse = ApiPlaylistResponse(
    playlistId: string,
    playlistName: string,
    playlistUrl: string,
    tracks: seq<ApiTrack>,
    meta: Json)

  /** `owned === true`. */
  predicate IsOwned(t: PlaylistRow) {
    t.owned == Some(true)
  }
}
