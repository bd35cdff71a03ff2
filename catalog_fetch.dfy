/**
 * `fetch_playlist_tracks`: resolve the reference, read the playlist
 * metadata, then read track pages until the client reports no next page.
 * The catalog client is given as the metadata it answers and the pages it
 * answers, in the order it answers them; the method returns the requests it
 * made.
 */
module CatalogFetch {
  import opened Wrappers
  import opened CatalogRaw
  import PlaylistId

  const PageLimit := 100
  const MetaFields := "id,name,external_urls"

  /** A request to the catalog client. `NextPage(k)` follows the `next` link of the k-th page. */
  datatype Request =
    | PlaylistMeta(id: string, fields: string)
    | PlaylistTracks(id: string, limit: nat, offset: nat)
    | NextPage(after: nat)

  /** The client's answers: the metadata, and the track pages in the order they are served. */
  datatype Client = Client(playlist: RawPlaylist, pages: seq<RawPage>)

  /** What the fetch returns: the `playlist` and `items` keys. */
  datatype Fetched = Fetched(playlist: RawPlaylist, items: seq<RawItem>)

  /** `results.get("next")` is truthy. */
  predicate HasNext(p: RawPage) {
    p.next.Some? && p.next.value != ""
  }

  /** `results.get("items", [])`. */
  function PageItems(p: RawPage): seq<RawItem> {
    p.items.GetOr([])
  }

  /** Some page has no next link: the client does not hand out pages for ever. */
  predicate Ends(pages: seq<RawPage>) {
    |pages| > 0 && (!HasNext(pages[0]) || Ends(pages[1..]))
  }

  /** The position of the first page without a next link. */
  function LastRead(pages: seq<RawPage>): (k: nat)
    requires Ends(pages)
    ensures k < |pages|
  {
    if !HasNext(pages[0]) then 0 else 1 + LastRead(pages[1..])
  }

  /** The items of the given pages, concatenated in order. */
  function ItemsOf(pages: seq<RawPage>): seq<RawItem> {
    if pages == [] then [] else PageItems(pages[0]) + ItemsOf(pages[1..])
  }

  lemma {:induction false} LastReadIsFirstEnd(pages: seq<RawPage>)
    requires Ends(pages)
    ensures !HasNext(pages[LastRead(pages)])
    ensures forall j :: 0 <= j < LastRead(pages) ==> HasNext(pages[j])
  {
    if HasNext(pages[0]) {
      LastReadIsFirstEnd(pages[1..]);
      assert forall j :: 1 <= j < |pages| ==> pages[j] == pages[1..][j - 1];
    }
  }

  lemma {:induction false} ItemsOfSnoc(pages: seq<RawPage>, p: RawPage)
    ensures ItemsOf(pages + [p]) == ItemsOf(pages) + PageItems(p)
  {
    if pages == [] {
      assert ItemsOf([p]) == PageItems(p) + ItemsOf([]);
    } else {
      assert (pages + [p])[0] == pages[0] && (pages + [p])[1..] == pages[1..] + [p];
      ItemsOfSnoc(pages[1..], p);
    }
  }

  /** Reading pages in two runs gives the items of both runs, in order. */
  lemma {:induction false} ItemsOfAppend(a: seq<RawPage>, b: seq<RawPage>)
    ensures ItemsOf(a + b) == ItemsOf(a) + ItemsOf(b)
  {
    if a == [] {
      assert a + b == b;
    } else {
      assert (a + b)[0] == a[0] && (a + b)[1..] == a[1..] + b;
      ItemsOfAppend(a[1..], b);
    }
  }

  lemma ConsPair<T>(a: T, b: T, t: seq<T>)
    ensures [a] + ([b] + t) == [a, b] + t
  {
  }

  /** The requests for pages after the first: one per followed `next` link. */
  function NextRequests(k: nat): (r: seq<Request>)
    ensures |r| == k
  {
    if k == 0 then [] else NextRequests(k - 1) + [NextPage(k - 1)]
  }

  /** The j-th follow-up request follows the j-th page's link. */
  lemma {:induction false} NextRequestsAt(k: nat, j: nat)
    requires j < k
    ensures NextRequests(k)[j] == NextPage(j)
  {
    if j < k - 1 {
      NextRequestsAt(k - 1, j);
    }
  }

  /** The items read: those of every page up to and including the first without a next link. */
  function ItemsRead(pages: seq<RawPage>): seq<RawItem>
    requires Ends(pages)
  {
    ItemsOf(pages[..LastRead(pages) + 1])
  }

  /**
   * The paging loop for a resolved id: the first page (limit 100, offset 0),
   * then one next-page request per page while the last page read has a next
   * link. The items are those of every page up to and including the first
   * one without a next link, in the order served.
   */
  method ReadPages(id: string, pages: seq<RawPage>) returns (items: seq<RawItem>, calls: seq<Request>)
    requires Ends(pages)
    ensures items == ItemsRead(pages)
    ensures calls == [PlaylistTracks(id, PageLimit, 0)] + NextRequests(LastRead(pages))
  {
    calls := [PlaylistTracks(id, PageLimit, 0)];
    LastReadIsFirstEnd(pages);
    var i := 0;
    var results := pages[0];
    items := PageItems(results);
    assert pages[..1] == [pages[0]];
    assert ItemsOf([pages[0]]) == PageItems(pages[0]) + ItemsOf([]);
    while HasNext(results)
      invariant 0 <= i <= LastRead(pages)
      invariant results == pages[i]
      invariant items == ItemsOf(pages[..i + 1])
      invariant calls == [PlaylistTracks(id, PageLimit, 0)] + NextRequests(i)
      decreases LastRead(pages) - i
    {
      calls := calls + [NextPage(i)];
      i := i + 1;
      results := pages[i];
      assert pages[..i + 1] == pages[..i] + [pages[i]];
      ItemsOfSnoc(pages[..i], pages[i]);
      items := items + PageItems(results);
    }
  }

  /**
   * Resolves `reference`, then reads the metadata and the pages. An invalid
   * reference fails before any request is made.
   */
  method FetchPlaylistTracks(reference: string, client: Client)
    returns (r: Result<Fetched, PlaylistId.ResolveError>, calls: seq<Request>)
    requires Ends(client.pages)
    ensures match PlaylistId.ExtractPlaylistId(reference)
      case Failure(e) => r == Failure(e) && calls == []
      case Success(id) =>
        && r == Success(Fetched(client.playlist, ItemsRead(client.pages)))
        && calls == [PlaylistMeta(id, MetaFields), PlaylistTracks(id, PageLimit, 0)] + NextRequests(LastRead(client.pages))
  {
    var resolved := PlaylistId.ExtractPlaylistId(reference);
    if resolved.Failure? {
      return Failure(resolved.error), [];
    }
    var id := resolved.value;
    var items, pageCalls := ReadPages(id, client.pages);
    r := Success(Fetched(client.playlist, items));
    calls := [PlaylistMeta(id, MetaFields)] + pageCalls;
    ConsPair(PlaylistMeta(id, MetaFields), PlaylistTracks(id, PageLimit, 0), NextRequests(LastRead(client.pages)));
  }
}
