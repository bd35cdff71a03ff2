/**
 * Store links on a playlist row: the three shop links with the Beatport
 * affiliate id applied, the recommended store, and the other stores shown
 * next to it.
 */
module Stores {
  import opened Wrappers
  import opened Rows
  import BeatportAffiliate

  /** The normalised links: only these three keys, a missing link is "". */
  datatype ShopLinks = ShopLinks(beatport: string, bandcamp: string, itunes: string)

  /** `{ name, url }` as the shop buttons use it. */
  datatype StoreChoice = StoreChoice(name: string, url: string)

  const BeatportName := "Beatport"
  const BandcampName := "Bandcamp"
  const ITunesName := "iTunes"

  /**
   * `normalizeStores(stores, beatportAid)`; the affiliate id, read from the
   * environment by default, is a parameter.
   */
  function NormalizeStores(stores: StoreLinks, aid: Option<string>): ShopLinks {
    ShopLinks(
      BeatportAffiliate.WithBeatportAid(stores.beatport.GetOr(""), aid),
      stores.bandcamp.GetOr(""),
      stores.itunes.GetOr(""))
  }

  /** The three stores in their fixed order of preference. */
  function Candidates(s: ShopLinks): (r: seq<StoreChoice>)
    ensures |r| == 3
  {
    [StoreChoice(BeatportName, s.beatport), StoreChoice(BandcampName, s.bandcamp), StoreChoice(ITunesName, s.itunes)]
  }

  /** `c` as a one-element list when its link is non-empty and its name is not `skip`'s. */
  function Pick(c: StoreChoice, skip: Option<StoreChoice>): seq<StoreChoice> {
    if c.url != "" && (skip.None? || c.name != skip.value.name) then [c] else []
  }

  /** The stores of `cs` with a non-empty link and a name other than `skip`'s, in order. */
  function Besides(cs: seq<StoreChoice>, skip: Option<StoreChoice>): seq<StoreChoice> {
    if cs == [] then [] else Pick(cs[0], skip) + Besides(cs[1..], skip)
  }

  /** The stores of `cs` with a non-empty link, in order. */
  function Available(cs: seq<StoreChoice>): seq<StoreChoice> {
    Besides(cs, None)
  }

  /** `getRecommendedStore(track)`: the first non-empty link, or null. */
  function GetRecommendedStore(track: PlaylistRow, aid: Option<string>): Option<StoreChoice> {
    var s := NormalizeStores(track.stores, aid);
    if s.beatport != "" then Some(StoreChoice(BeatportName, s.beatport))
    else if s.bandcamp != "" then Some(StoreChoice(BandcampName, s.bandcamp))
    else if s.itunes != "" then Some(StoreChoice(ITunesName, s.itunes))
    else None
  }

  /**
   * `getOtherStores(stores, recommended)`: pushes each non-empty link whose
   * name differs from the recommended one, in the order Beatport, Bandcamp,
   * iTunes.
   */
  method GetOtherStores(stores: StoreLinks, recommended: Option<StoreChoice>, aid: Option<string>)
    returns (others: seq<StoreChoice>)
    ensures others == Besides(Candidates(NormalizeStores(stores, aid)), recommended)
  {
    var s := NormalizeStores(stores, aid);
    BesidesOfThree(Candidates(s), recommended);
    others := [];
    if s.beatport != "" && (recommended.None? || recommended.value.name != BeatportName) {
      others := others + [StoreChoice(BeatportName, s.beatport)];
    }
    if s.bandcamp != "" && (recommended.None? || recommended.value.name != BandcampName) {
      others := others + [StoreChoice(BandcampName, s.bandcamp)];
    }
    if s.itunes != "" && (recommended.None? || recommended.value.name != ITunesName) {
      others := others + [StoreChoice(ITunesName, s.itunes)];
    }
  }

  lemma BesidesOfThree(cs: seq<StoreChoice>, skip: Option<StoreChoice>)
    requires |cs| == 3
    ensures Besides(cs, skip) == Pick(cs[0], skip) + Pick(cs[1], skip) + Pick(cs[2], skip)
  {
    var t := cs[1..];
    assert t[1..][1..] == [];
    assert Besides(t[1..], skip) == Pick(cs[2], skip) + [];
  }

  // ---------------------------------------------------------------------------
  // Properties
  // ---------------------------------------------------------------------------

  /**
   * Only the three shop keys survive; a missing Bandcamp or iTunes link is
   * "", kept links are unchanged, and the Beatport link is empty exactly
   * when it was missing or empty.
   */
  lemma NormalizeStoresDefaults(stores: StoreLinks, aid: Option<string>)
    ensures var s := NormalizeStores(stores, aid);
      && (stores.bandcamp.None? ==> s.bandcamp == "")
      && (stores.bandcamp.Some? ==> s.bandcamp == stores.bandcamp.value)
      && (stores.itunes.None? ==> s.itunes == "")
      && (stores.itunes.Some? ==> s.itunes == stores.itunes.value)
      && (s.beatport == "" <==> stores.beatport.GetOr("") == "")
  {
    var b := stores.beatport.GetOr("");
    if b != "" && BeatportAffiliate.Parse(b).Some? {
      var u := BeatportAffiliate.Parse(b).value;
      assert |BeatportAffiliate.Serialize(u)| >= 3;
      assert forall a :: |BeatportAffiliate.Serialize(BeatportAffiliate.Tagged(u, a))| >= 3;
    }
  }

  /** The recommended store is the first available one, and there is none exactly when all three links are empty. */
  lemma RecommendedIsFirst(track: PlaylistRow, aid: Option<string>)
    ensures var avail := Available(Candidates(NormalizeStores(track.stores, aid)));
      GetRecommendedStore(track, aid) == (if avail == [] then None else Some(avail[0]))
    ensures var s := NormalizeStores(track.stores, aid);
      GetRecommendedStore(track, aid).None? <==> s.beatport == "" && s.bandcamp == "" && s.itunes == ""
  {
    var cs := Candidates(NormalizeStores(track.stores, aid));
    BesidesOfThree(cs, None);
  }

  /**
   * The recommended store followed by the other stores lists every
   * non-empty link exactly once, in the fixed order.
   */
  lemma RecommendedAndOthers(track: PlaylistRow, aid: Option<string>)
    ensures var rec := GetRecommendedStore(track, aid);
      var cs := Candidates(NormalizeStores(track.stores, aid));
      (if rec.Some? then [rec.value] else []) + Besides(cs, rec) == Available(cs)
  {
    var rec := GetRecommendedStore(track, aid);
    var cs := Candidates(NormalizeStores(track.stores, aid));
    BesidesOfThree(cs, None);
    BesidesOfThree(cs, rec);
  }
}
