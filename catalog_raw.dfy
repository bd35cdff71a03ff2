/**
 * The shapes of the catalog client's responses that the pipeline reads.
 * Each dictionary key the code looks up with `.get` is an Option: None when
 * the key is absent.
 */
module CatalogRaw {
  import opened Wrappers

  datatype RawArtist = RawArtist(name: Option<string>)

  datatype RawAlbum = RawAlbum(name: Option<string>)

  /** An `external_urls` dictionary. */
  datatype RawUrls = RawUrls(spotify: Option<string>)

  /** An `external_ids` dictionary. */
  datatype RawIds = RawIds(isrc: Option<string>)

  /**
   * A track dictionary: the six keys the normaliser reads, and whether it
   * holds any other key (such as `id`), which the normaliser never reads
   * but which makes the dictionary non-empty.
   */
  datatype RawTrack = RawTrack(
    name: Option<string>,
    artists: Option<seq<RawArtist>>,
    album: Option<RawAlbum>,
    externalUrls: Option<RawUrls>,
    externalIds: Option<RawIds>,
    isLocal: Option<bool>,
    otherKeys: bool)

  /** One entry of a playlist's track list; `track` is absent or null for removed tracks. */
  datatype RawItem = RawItem(track: Option<RawTrack>)

  /** The playlist metadata, requested with the fields `id`, `name` and `external_urls`. */
  datatype RawPlaylist = RawPlaylist(id: Option<string>, name: Option<string>, externalUrls: Option<RawUrls>)

  /** One page of a playlist's tracks and the link to the following page. */
  datatype RawPage = RawPage(items: Option<seq<RawItem>>, next: Option<string>)

  /** What the fetch step hands to the normaliser: the `playlist` and `items` keys. */
  datatype RawResult = RawResult(playlist: Option<RawPlaylist>, items: Option<seq<RawItem>>)

  /** The dictionary has no keys at all, which Python treats as false. */
  predicate IsEmptyTrack(t: RawTrack) {
    && t.name.None? && t.artists.None? && t.album.None? && t.externalUrls.None? && t.externalIds.None? && t.isLocal.None?
    && !t.otherKeys
  }
}
