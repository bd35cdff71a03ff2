# spotify-shopper, modelled in Dafny

spotify-shopper reads a Spotify playlist, turns each track into a row with
search links for the Beatport, Bandcamp and iTunes stores, and shows the rows
in a web front end. There the user can mark tracks as owned from a Rekordbox
library export, keep a buylist, export CSV and share a snapshot.

This project models the core of both halves and proves what each part
promises.

**The Python ingestion pipeline (`core.py`)**

- Resolving a playlist reference. A web URL, a `spotify:playlist:` URI or a
  bare 22-character id becomes the canonical id, or the call raises
  `ValueError`. This is modules `PlaylistId` and `PlaylistIdForms`, with a
  simplified `urlparse`.
- The search query and the three store links, which use form-style
  percent-encoding over UTF-8. This is modules `SearchLinks` and `Utf8`.
- The paginated fetch loop over an abstract catalog client. This is modules
  `CatalogRaw` and `CatalogFetch`.
- The track normaliser. This is module `CatalogNormalize`.

**The TypeScript front end**

- The defensive API normaliser (`ApiNormalize`).
- The track-list selectors (`Selectors`).
- Store ranking (`Stores`).
- The Beatport affiliate tag over a simplified URL record (`BeatportAffiliate`).
- The CSV and URL-input sanitisers (`CsvSanitize`, `PlaylistUrl`).
- The owned-status style (`OwnedStatus`).
- The analyzer's pure rules (`AnalyzerRules`).
- The analyzer's state updates on the React state (`PlaylistAnalyzer` over
  the class `UiState.AppState`). These cover analysing, removing a tab, the
  ownership overlay and persisting the summary.
- The tab actions and CSV export (`Actions`). CSV export includes a reader
  that proves the export reads back cell for cell, quoted as in section 2 of
  RFC 4180.
- The IndexedDB buylist store as a class over a map (`Buylist`).
- The `t` query parameter that keeps the selected tab (`TabQuery`). It uses
  base64url, as in section 5 of RFC 4648, without padding.
- The share endpoint's validation chain (`ShareRoute`).

**Shared modules**

- `Wrappers`: `Option` and `Result`.
- `Text`: strip, trim, lower-casing, join and search on strings.
- `Json`: JavaScript values.
- `JsonText`: `JSON.stringify`, and UTF-8 and UTF-16 lengths.
- `Rows`: the front end's records.

**Behaviour modelled as the code has it**

- A URL that `handleAnalyze` gates out keeps the progress status
  `fetching`. `PlaylistAnalyzer.GatedStaysFetching` states this.
- `useActions`' `handleRemoveTab` makes the empty string the active tab when
  the first remaining result's URL is empty.
- `getRateLimitState` returns a stored record with `appleResetAt` 0 unchanged
  while the current time is before the next reset.
- `detectSourceFromUrl` is declared twice in `lib/utils/playlistUrl.ts`. Both
  bodies return `'spotify'` on every path, so it is modelled as that constant.

## Model

| member | source | states |
|---|---|---|
| PlaylistId.SplitScheme | core.py:71 | `urlparse`'s scheme split: with no scheme the whole URL is left as the rest, and the rest is never longer than the URL |
| PlaylistId.SplitNetloc | core.py:71 | the network location and the rest put back together after `//` give the URL again |
| PlaylistId.SplitParams | core.py:71 | cutting off `;params` leaves a prefix of the path |
| PlaylistId.PathPart | core.py:71 | the path holds no `#` and no `?` and is no longer than what follows the host |
| PlaylistId.UrlParse | core.py:71 | a successful parse has the lower-cased scheme of the cleaned URL, a path no longer than the input, and a host only when `//` follows the scheme |
| PlaylistId.LastSegment | core.py:74-76 | the last segment of the path with its trailing slashes removed contains no `/` |
| PlaylistId.UrlCandidate | core.py:71-78 | step 1 can only give a 22-character run of letters and digits |
| PlaylistId.SearchMarker | core.py:84 | a reported position lies at or after the starting point and holds `playlist/` or `playlist:` followed by 22 letters and digits |
| PlaylistId.SearchMarkerLeftmost | core.py:84-86 | the search reports the leftmost marker, and reports none only when no marker exists |
| PlaylistId.ExtractPlaylistId | core.py:57-93 | the result is always a canonical 22-character id; otherwise the call fails with InvalidReference carrying the original input |
| PlaylistId.CleanUrlUnchanged | core.py:71 | letters, digits and URL punctuation come through `urlsplit`'s clean-up unchanged |
| PlaylistId.NoMarkerInAlnum | core.py:84 | no marker can be found in a run of letters and digits |
| PlaylistId.NoSchemeWithoutColon | core.py:71 | a string without `:` has no scheme |
| PlaylistId.SchemelessNoCandidate | core.py:72 | step 1 never applies without a scheme |
| PlaylistId.NoColonNoCandidate | core.py:72 | step 1 never applies to a string without `:` |
| PlaylistId.NoNetlocNoCandidate | core.py:72 | step 1 never applies without `//` after the scheme |
| PlaylistId.SplitSchemeAt | core.py:71 | the scheme is the lower-cased text before the first `:`, and the rest is the text after it |
| PlaylistId.SplitNetlocAt | core.py:71 | the host ends at the first `/`, `?` or `#` after the `//` |
| PlaylistId.PathPartAt | core.py:71 | without a `#`, the path runs up to the first `?` |
| PlaylistId.LastSegmentAt | core.py:74-76 | the last segment is the text after the last `/` |
| PlaylistId.SearchMarkerAt | core.py:84 | the search from a point returns the first marker after that point |
| PlaylistId.SearchFinds | core.py:84-86 | a marker with none before it is the match of step 2 |
| PlaylistId.NoMarkerOverColon | core.py:84 | no marker can start within the eight characters before a `:` |
| PlaylistId.BareIdResolves | core.py:67-90 | a bare id with surrounding white space resolves to itself |
| PlaylistId.PathPartWhole | core.py:71 | a path without `?` and `#` is kept whole |
| PlaylistIdForms.SplitSchemeOf | core.py:71 | a lower-case scheme followed by `:` is split off as the scheme |
| PlaylistIdForms.SplitNetlocOf | core.py:71 | a host free of `/`, `?` and `#`, followed by a path, becomes the network location |
| PlaylistIdForms.PathPartOf | core.py:71 | the query after a path is cut off |
| PlaylistIdForms.HttpsUrlClean | core.py:71 | an `https` URL of letters, digits and separators needs no clean-up |
| PlaylistIdForms.UrlSplits | core.py:71 | a URL made of scheme, host, path and query parses into those parts |
| PlaylistIdForms.UrlParseOfParts | core.py:71 | `urlparse` is the composition of its steps |
| PlaylistIdForms.HttpsUrlParses | core.py:71 | an `https` URL parses into its host and path |
| PlaylistIdForms.CandidateFromPath | core.py:72-78 | a URL with a scheme, a host and a canonical last path segment yields that segment in step 1 |
| PlaylistIdForms.PaddingIgnored | core.py:67 | white space around a reference changes neither the id it resolves to nor whether it fails |
| PlaylistIdForms.SameStripSameResult | core.py:67 | inputs that strip to the same text succeed together and give the same id |
| PlaylistIdForms.PlaylistPathSegment | core.py:74-76 | a path ending in `/` and an id has that id as its last segment |
| PlaylistIdForms.VisibleEdgesStrip | core.py:67 | text that starts and ends with a visible ASCII character is not changed by the strip |
| PlaylistIdForms.ResolvesByCandidate | core.py:71-78 | a reference whose step 1 finds an id resolves to that id |
| PlaylistIdForms.ResolvesByMarker | core.py:84-86 | a reference that step 1 rejects resolves to the 22 characters after its leftmost marker |
| PlaylistIdForms.UrlPathMarker | core.py:84 | `https://<host>/playlist/<a>/<b>`, for any host of letters, digits and dots, carries a marker right after the host, followed by `a` |
| PlaylistIdForms.UrlPathCandidate | core.py:74-78 | step 1 takes the last segment of `https://<host>/playlist/<a>/<b>`, for any host of letters, digits and dots |
| PlaylistIdForms.UrlPathBeforeMarker | core.py:71-86 | step 1 runs before the marker search: in `https://<host>/playlist/<a>/<b>` the last segment `b` wins over the marker's `a` |
| PlaylistIdForms.WebUrlParses | core.py:71 | the web form parses into scheme `https`, host `open.spotify.com` and path `/playlist/<id>` |
| PlaylistIdForms.WebUrlCandidate | core.py:71-78 | step 1 takes the id from the web form, whatever share token follows |
| PlaylistIdForms.ShareTokenQuery | core.py:71 | a `?si=` share token uses only query characters |
| PlaylistIdForms.WebUrlResolves | core.py:63-78 | the web form resolves to the id in its path |
| PlaylistIdForms.UriSearch | core.py:84 | in the URI form the marker search finds the id right after `spotify:playlist:` |
| PlaylistIdForms.SchemeWithoutHost | core.py:71 | a scheme not followed by `//` is split off and leaves no host |
| PlaylistIdForms.NoHostNoCandidate | core.py:72 | step 1 does not apply to a URL with no `//` after its scheme |
| PlaylistIdForms.UriClean | core.py:71 | the URI form needs no clean-up |
| PlaylistIdForms.UriNoCandidate | core.py:72 | step 1 does not apply to the URI form |
| PlaylistIdForms.UriResolves | core.py:64-86 | the URI form resolves to the 22 characters after the marker |
| PlaylistIdForms.ReferenceFormsAgree | core.py:62-65 | the web URL, the URI and the bare id of a playlist all resolve to its id, with or without surrounding white space |
| PlaylistIdForms.ExtractFailsExactly | core.py:67-93 | resolution fails if and only if, after the strip, step 1 finds nothing, no marker occurs and the text is not an id |
| PlaylistIdForms.ShortReferenceRejected | core.py:89-93 | a reference shorter than 22 characters once stripped always fails |
| SearchLinks.BuildSearchQuery | core.py:101-109 | `build_search_query`; its contract is proved in QueryNoEdge, QueryEmptyIff, QueryAllParts, QueryBlankArtist and QueryFixpoint |
| SearchLinks.QuotePlus | core.py:117 | `quote_plus` over the UTF-8 bytes of the query; QuotePlusRoundTrip proves an independent `unquote_plus` gives the query back, QuotePlusSafe that only form-safe characters appear |
| SearchLinks.NonEmpty | core.py:109 | dropping the empty parts never lengthens the list |
| SearchLinks.NonEmptyKeeps | core.py:106-109 | the parts kept are all non-empty and carry no edge white space |
| SearchLinks.NonEmptyIsEmpty | core.py:109 | nothing is kept exactly when every part is empty |
| SearchLinks.JoinEdges | core.py:109 | joining non-empty parts with spaces starts with the first part's first character and ends with the last part's last one |
| SearchLinks.QueryNoEdge | core.py:101-109 | the search query never starts or ends with white space |
| SearchLinks.QueryEmptyIff | core.py:101-109 | the query is empty if and only if title, artist and album are all blank or the album is missing |
| SearchLinks.QueryAllParts | core.py:106-109 | with all three parts present, the query is the stripped title, artist and album, one space apart |
| SearchLinks.QueryBlankArtist | core.py:109 | a blank artist is skipped without leaving a double space |
| SearchLinks.QueryFixpoint | core.py:101-109 | building a query from a query alone gives it back |
| SearchLinks.QueryTwoWords | core.py:106-109 | two stripped words give `title artist` |
| SearchLinks.HexValueOfDigit | core.py:117 | every hexadecimal digit written by the encoder reads back as its value |
| SearchLinks.DecodeQuotedByte | core.py:117 | one encoded byte decodes back to that byte |
| SearchLinks.DecodeQuotedBytes | core.py:117 | a sequence of encoded bytes decodes back to those bytes |
| SearchLinks.QuotePlusRoundTrip | core.py:117 | `quote_plus` loses nothing: `unquote_plus` gives the query back |
| SearchLinks.QuoteBytesSafe | core.py:117 | encoded bytes use only form-safe characters |
| SearchLinks.QuotePlusSafe | core.py:117-121 | the encoded query contains no space, `&`, `=`, `?` or `#`, so it stays inside its URL parameter |
| SearchLinks.BuildStoreLinks | core.py:112-127 | each link starts with its store's search URL |
| SearchLinks.StoreLinksCarryQuery | core.py:116-121 | in each of the three links, decoding the parameter gives back the search query |
| SearchLinks.QuoteBytesAppend | core.py:117 | encoding works byte by byte, so it distributes over concatenation |
| SearchLinks.QuotePlusAlnum | core.py:117 | ASCII letters and digits are not escaped |
| SearchLinks.QuotePlusSpace | core.py:117 | a space becomes `+` between the encodings of its neighbours |
| SearchLinks.QuotePlusTwoWords | core.py:117 | two words of letters and digits are encoded as `a+b` |
| SearchLinks.StoreLinksTwoWords | core.py:116-119 | a one-word title and a one-word artist are searched on Beatport as `title+artist` |
| Utf8.EncodeChar | core.py:117 | a scalar value is encoded to between one and four bytes |
| Utf8.Encode | core.py:117 | a string of n characters is encoded to between n and 4n bytes |
| Utf8.DecodeChar | core.py:117 | a decoded character takes one to four bytes, none past the end of the input |
| Utf8.DecodeEncodeChar | core.py:117 | decoding reads back exactly the bytes that one character was encoded to |
| Utf8.DecodeEncode | core.py:117 | decoding an encoding gives the string back |
| Utf8.EncodeAppend | core.py:117 | the encoding of a concatenation is the concatenation of the encodings |
| Utf8.EncodeAscii | core.py:117 | an ASCII character is encoded as the single byte of its code |
| CatalogFetch.LastRead | core.py:160-162 | the loop stops at a page that exists |
| CatalogFetch.LastReadIsFirstEnd | core.py:160 | the loop stops at the first page without a `next` link; every page before it has one |
| CatalogFetch.ItemsOfSnoc | core.py:162 | reading one more page appends its items |
| CatalogFetch.ItemsOfAppend | core.py:158-162 | reading pages in two runs gives the items of both runs, in order |
| CatalogFetch.NextRequests | core.py:160-161 | one follow-up request for each `next` link followed |
| CatalogFetch.NextRequestsAt | core.py:161 | the j-th follow-up request follows the j-th page's link |
| CatalogFetch.ReadPages | core.py:156-162 | the items are those of every page up to and including the first without a `next` link, in order; the requests are the first page (limit 100, offset 0) and then one per `next` link |
| CatalogFetch.FetchPlaylistTracks | core.py:135-167 | an invalid reference fails before any request; otherwise the result holds the metadata and the items read, after exactly the metadata request, the first-page request and one request per `next` link |
| CatalogRaw.IsEmptyTrack | core.py:212-214 | `not track` for a track dictionary: true only when it has no key at all, including keys the normaliser never reads; KeptMembers and UnreadKeysKept state what it decides |
| CatalogNormalize.NormalizeTrack | core.py:220-240 | the row of one kept track; TrackFieldRules proves its defaults and TrackLinksCarryQuery that its links search for its own fields |
| CatalogNormalize.NormalizeItems | core.py:211-240 | the rows of the kept items; RowsOfKept, KeptMembers and NormalizeItemsAppend prove one row per kept item, in order |
| CatalogNormalize.Kept | core.py:211-218 | filtering never lengthens the item list |
| CatalogNormalize.NormalizeItemsAppend | core.py:211-240 | the rows of two runs of items are the rows of each run, in turn |
| CatalogNormalize.PlaylistResultToDict | core.py:175-247 | a missing `playlist`, `items`, playlist `id` or playlist `name` fails with that key's error, checked in that order; otherwise the result has the playlist's id, name and URL (default "") and one row per kept item in input order |
| CatalogNormalize.RowsOfKept | core.py:211-240 | there is one row per kept item, and the i-th row is made from the i-th kept item |
| CatalogNormalize.RowsLength | core.py:211-240 | there are as many rows as kept items |
| CatalogNormalize.RowOfKept | core.py:220-240 | the i-th row is made from the i-th kept item |
| CatalogNormalize.KeptMembers | core.py:212-218 | an item is kept if and only if it is in the input and has a present, non-empty, non-local track |
| CatalogNormalize.KeptAppend | core.py:211-218 | kept items keep their relative order |
| CatalogNormalize.NormalizePages | core.py:158-240 | normalising the items of two runs of pages is normalising each run in turn |
| CatalogNormalize.SkippedItems | core.py:212-218 | an item whose track is missing, empty or local gives no row |
| CatalogNormalize.UnreadKeysKept | core.py:212-214 | a track dictionary holding only keys the normaliser does not read is kept and gives a row of empty fields |
| CatalogNormalize.ArtistNamesNonEmpty | core.py:224 | the artist names joined are all non-empty, and there are none exactly when no artist has a non-empty name |
| CatalogNormalize.JoinNonEmpty | core.py:224 | joining non-empty names gives "" only when there are no names |
| CatalogNormalize.TrackFieldRules | core.py:220-227 | title, album and Spotify URL default to ""; the artist line is empty if and only if no artist has a name; the ISRC is absent if and only if `external_ids` or its `isrc` is absent |
| CatalogNormalize.TrackLinksCarryQuery | core.py:229 | each row's store links search for that row's own title, artist and album |
| ApiNormalize.StripNulls | lib/api/normalize.ts:3-16 | the value `stripNullsDeep` computes; StripNullsNullFree, StripNullsFixpoint and StripNullsShrinks prove what it removes and keeps |
| ApiNormalize.NormalizeMeta | lib/api/normalize.ts:18-20 | `normalizeMeta`; StripNullsIdempotent proves that normalising twice is normalising once |
| ApiNormalize.StripNullsDeep | lib/api/normalize.ts:3-16 | the recursive walk (array map and filter, object rebuilt entry by entry) computes the null-free value `StripNulls` of its input |
| ApiNormalize.StripItemsShape | lib/api/normalize.ts:5 | a stripped array is never longer, holds no `undefined`, and each element is the stripped form of an input element |
| ApiNormalize.StripFieldsShape | lib/api/normalize.ts:9-12 | a stripped object gains no keys, holds no `undefined` value, and each value is the stripped form of an input value |
| ApiNormalize.StripNullsNullFree | lib/api/normalize.ts:3-16 | stripping gives `undefined` if and only if the value is `null` or `undefined`; anything else comes back with no `null` or `undefined` at any depth |
| ApiNormalize.StripItemsOfNullFree | lib/api/normalize.ts:5 | an array with no `null` or `undefined` at any depth loses no element |
| ApiNormalize.StripFieldsOfNullFree | lib/api/normalize.ts:9-12 | an object with no `null` or `undefined` at any depth loses no entry |
| ApiNormalize.StripNullsFixpoint | lib/api/normalize.ts:3-16 | a value already free of `null` and `undefined` comes back unchanged; primitives pass through |
| ApiNormalize.StripNullsIdempotent | lib/api/normalize.ts:18-20 | normalising metadata twice is normalising it once |
| ApiNormalize.StripNullsShrinks | lib/api/normalize.ts:5-13 | an array stays an array and never grows; an object stays an object and gains no keys |
| ApiNormalize.GetLinks | lib/api/normalize.ts:50-57 | `getLinks`; GetLinksDefaults proves the `""` default of each of the three links |
| ApiNormalize.NormalizeTrack | lib/api/normalize.ts:59-79 | `normalizeTrack`; NormalizeTrackDefaults proves its field defaults |
| ApiNormalize.NormalizeTracks | lib/api/normalize.ts:81-89 | `normalizeTracks`; NormalizeTracksShape and RecordsMembers prove which elements give rows and how they are numbered |
| ApiNormalize.GetLinksDefaults | lib/api/normalize.ts:50-57 | a value that is not an object gives three empty links; each of the Beatport, Bandcamp and iTunes links is the string stored under its key, and "" if and only if that key does not hold a non-empty string |
| ApiNormalize.NormalizeTrackDefaults | lib/api/normalize.ts:59-79 | the row keeps its index; title, artist, album and Spotify URL fall back to ""; `owned` is true only for the boolean true; the key type is `isrc` only for that exact string |
| ApiNormalize.RecordsMembers | lib/api/normalize.ts:87 | an element survives the filter if and only if it is in the list and is an object or array |
| ApiNormalize.NormalizeTracksShape | lib/api/normalize.ts:81-89 | no rows unless the input is a record whose `tracks` is an array; otherwise one row per record element, in order, numbered from 1 |
| Stores.NormalizeStores | lib/playlist/stores.ts:6-12 | `normalizeStores`; NormalizeStoresDefaults proves its `''` defaults |
| Stores.GetRecommendedStore | lib/playlist/stores.ts:14-27 | `getRecommendedStore`; RecommendedIsFirst proves it is the first store with a link, and RecommendedAndOthers that with the other stores it lists each link once |
| Stores.Candidates | lib/playlist/stores.ts:29-41 | there are always exactly three stores to choose from |
| Stores.GetOtherStores | lib/playlist/stores.ts:29-42 | the three guarded pushes give exactly the stores with a non-empty link whose name differs from the recommended one, in the order Beatport, Bandcamp, iTunes |
| Stores.BesidesOfThree | lib/playlist/stores.ts:32-40 | for three candidates the other stores are the three guarded picks in order |
| Stores.NormalizeStoresDefaults | lib/playlist/stores.ts:6-12 | a missing Bandcamp or iTunes link becomes "", a present one is kept, and the Beatport link is empty if and only if it was missing or empty |
| Stores.RecommendedIsFirst | lib/playlist/stores.ts:14-27 | the recommended store is the first store with a link, and there is none if and only if all three links are empty |
| Stores.RecommendedAndOthers | lib/playlist/stores.ts:14-42 | the recommended store followed by the other stores lists every non-empty link exactly once, in the fixed order |
| Selectors.SelectDisplayedTracks | lib/ui/selectors.ts:15-54 | `selectDisplayedTracks`; DisplayedSubsetOf, DisplayedAreInputRows, DisplayedInOrder and SortOrdersDisplayed prove which rows are shown and in what order |
| Selectors.Filter | lib/ui/selectors.ts:23-50 | a filter never lengthens the list |
| Selectors.FilterMembers | lib/ui/selectors.ts:23-50 | a filter keeps exactly the rows that pass, each no more often than in the input |
| Selectors.Insert | lib/ui/selectors.ts:39-43 | inserting a row adds exactly that row |
| Selectors.SortRows | lib/ui/selectors.ts:39-43 | the sort is a permutation of its input |
| Selectors.SelectTrackCounts | lib/ui/selectors.ts:59-67 | the owned and to-buy counts add up to the number of rows |
| Selectors.FilterSubsequence | lib/ui/selectors.ts:23-50 | a filter keeps its rows in their input order |
| Selectors.SubsequenceCompose | lib/ui/selectors.ts:19-53 | order kept by two stages in turn is kept by both together |
| Selectors.SubsequenceSelf | lib/ui/selectors.ts:19 | a stage that changes nothing keeps the order |
| Selectors.FilterThenSubsequence | lib/ui/selectors.ts:19-53 | a filter after an order-keeping stage still keeps the input order |
| Selectors.InsertBound | lib/ui/selectors.ts:39-43 | a row that sorts before the inserted row and before every other row still sorts before every row after the insertion |
| Selectors.InsertSorted | lib/ui/selectors.ts:39-43 | inserting into a sorted list keeps it sorted |
| Selectors.SortRowsSorted | lib/ui/selectors.ts:39-43 | for a total preorder the sort orders the rows by the key and keeps every row |
| Selectors.DefaultsShowEverything | lib/ui/selectors.ts:15-53 | with default options and any blank query the rows are shown as they are |
| Selectors.UnownedStageMembers | lib/ui/selectors.ts:22-24 | with only-unowned on, exactly the rows not owned are kept |
| Selectors.SearchStageMembers | lib/ui/selectors.ts:27-35 | a non-blank query keeps exactly the matching rows; a blank one keeps all |
| Selectors.SortStageMembers | lib/ui/selectors.ts:38-44 | sorting keeps exactly the rows it was given |
| Selectors.CategoryStageMembers | lib/ui/selectors.ts:47-51 | the category filter keeps exactly the rows of the chosen category |
| Selectors.DisplayedAreInputRows | lib/ui/selectors.ts:15-53 | the shown rows are input rows, each at most as often as in the input |
| Selectors.DisplayedInOrder | lib/ui/selectors.ts:15-53 | without a sort key the shown rows keep the input order |
| Selectors.OnlyUnownedHidesOwned | lib/ui/selectors.ts:22-24 | with only-unowned on, no shown row is owned |
| Selectors.DisplayedSubsetOf | lib/ui/selectors.ts:15-53 | a row is shown if and only if it is an input row that passes every active filter |
| Selectors.SearchKeepsMatches | lib/ui/selectors.ts:27-35 | a non-blank search keeps exactly the rows whose lower-cased title, artist or album contains the lower-cased query, which is not trimmed first |
| Selectors.SortOrdersDisplayed | lib/ui/selectors.ts:37-51 | with a sort key and a total preorder, the shown rows are in order of that key under every category, since the category stage after the sort only filters |
| Selectors.SubsequenceSorted | lib/ui/selectors.ts:47-51 | rows picked from a sorted list in their order are still sorted |
| Selectors.CountsMatchCategories | lib/ui/selectors.ts:59-67 | the owned count is the size of the owned category, and the to-buy count is the size of the checkout category and of the not-owned rows |
| BeatportAffiliate.Parse | lib/affiliates/beatport.ts:6 | the simplified `new URL`; ParseWellFormed, ParseSerialize and ParseNormalForm prove it inverts serialisation |
| BeatportAffiliate.SetParam | lib/affiliates/beatport.ts:13 | `searchParams.set`; SetParamFacts proves the first pair is replaced and later ones dropped, or the pair appended |
| BeatportAffiliate.WithBeatportAid | lib/affiliates/beatport.ts:1-18 | `withBeatportAid`; WithBeatportAidUntouched, WithBeatportAidKeepsExisting, WithBeatportAidSets and WithBeatportAidKeepsOthers prove its cases |
| BeatportAffiliate.LowerKeepsClass | lib/affiliates/beatport.ts:6 | lower-casing keeps a character a scheme character or a letter if and only if it was one |
| BeatportAffiliate.LowerScheme | lib/affiliates/beatport.ts:6 | a valid scheme lower-cased is still valid and stays fixed under lower-casing |
| BeatportAffiliate.NoDelimsSlice | lib/affiliates/beatport.ts:6 | a slice of text free of authority delimiters is free of them too |
| BeatportAffiliate.AfterLastLacks | lib/affiliates/beatport.ts:6 | the text after the last occurrence of a character does not contain it |
| BeatportAffiliate.SplitUserinfoParts | lib/affiliates/beatport.ts:6 | user information and host:port rejoin to the authority; the user information is empty or ends in `@`; the rest has no `@` |
| BeatportAffiliate.SplitPortParts | lib/affiliates/beatport.ts:6 | host and port rejoin to their text; the host has no `:`; the port is empty or starts with `:` |
| BeatportAffiliate.SplitAuthorityParts | lib/affiliates/beatport.ts:6 | the three parts of an authority hold none of the characters that end or split it |
| BeatportAffiliate.SplitAtParts | lib/affiliates/beatport.ts:6 | the part before the cut lacks the separator, and the parts rejoin to the input |
| BeatportAffiliate.SplitAtRejoin | lib/affiliates/beatport.ts:6 | cutting undoes rejoining when the first part lacks the separator |
| BeatportAffiliate.NotInRejoin | lib/affiliates/beatport.ts:6 | a character missing from a rejoined text is missing from both parts |
| BeatportAffiliate.ParseAfterSchemeWellFormed | lib/affiliates/beatport.ts:6 | every record the parser builds after `scheme://` is well formed |
| BeatportAffiliate.BodyParts | lib/affiliates/beatport.ts:6 | the part before `?` holds neither `?` nor `#`, and the query holds no `#` |
| BeatportAffiliate.HierParts | lib/affiliates/beatport.ts:6 | the authority has no delimiter; the path is empty or starts with `/` and has no `?` or `#` |
| BeatportAffiliate.LowerHost | lib/affiliates/beatport.ts:6-7 | a lower-cased host name is still a host name and is empty only when the original was |
| BeatportAffiliate.ParseWellFormed | lib/affiliates/beatport.ts:6 | every URL `new URL` accepts gives a well-formed record |
| BeatportAffiliate.SplitAuthorityOf | lib/affiliates/beatport.ts:6 | splitting a well-formed authority gives its three parts back |
| BeatportAffiliate.ParseTail | lib/affiliates/beatport.ts:6-14 | parsing the text after `scheme://` of a serialised record gives the record back |
| BeatportAffiliate.ParseScheme | lib/affiliates/beatport.ts:6 | a valid lower-case scheme followed by `://` is read off, and the rest is parsed |
| BeatportAffiliate.ParseSerialize | lib/affiliates/beatport.ts:6-14 | parsing a serialised well-formed record gives it back |
| BeatportAffiliate.ParseNormalForm | lib/affiliates/beatport.ts:6-11 | the serialised form of a parsed URL parses to the same record |
| BeatportAffiliate.ParsePieceOf | lib/affiliates/beatport.ts:11-13 | a `name=value` piece reads back as its pair |
| BeatportAffiliate.ParsePiecesOf | lib/affiliates/beatport.ts:11-13 | the pieces of a well-formed list read back as the list |
| BeatportAffiliate.PiecesPlain | lib/affiliates/beatport.ts:13-14 | no piece of a well-formed list holds `&` or `#` |
| BeatportAffiliate.QueryRoundTrip | lib/affiliates/beatport.ts:13-14 | a well-formed parameter list survives being serialised and parsed again |
| BeatportAffiliate.SerializeQueryPlain | lib/affiliates/beatport.ts:13-14 | a serialised well-formed list has no `#`, so it can stand as a query |
| BeatportAffiliate.ParsePiecesWellFormed | lib/affiliates/beatport.ts:11 | the parameters read from pieces are well formed |
| BeatportAffiliate.ParsedParamsWellFormed | lib/affiliates/beatport.ts:11 | the parameters read from a query without `#` are well formed |
| BeatportAffiliate.WithoutTwice | lib/affiliates/beatport.ts:13 | removing a name twice is removing it once |
| BeatportAffiliate.WithoutAppend | lib/affiliates/beatport.ts:13 | appending a pair under the removed name changes nothing once it is removed |
| BeatportAffiliate.GetAppend | lib/affiliates/beatport.ts:13 | an appended pair whose name is new is what `get` finds |
| BeatportAffiliate.SetFirstFacts | lib/affiliates/beatport.ts:13 | replacing the first pair leaves the new value under the name and the other pairs as they were |
| BeatportAffiliate.SetParamFacts | lib/affiliates/beatport.ts:13 | `set` leaves the new value as the one found under the name and every pair under other names as it was, in order |
| BeatportAffiliate.GetWithout | lib/affiliates/beatport.ts:13 | removing one name does not change the value found under another |
| BeatportAffiliate.WithoutWellFormed | lib/affiliates/beatport.ts:13 | removing a name keeps a parameter list well formed |
| BeatportAffiliate.SetParamWellFormed | lib/affiliates/beatport.ts:13 | setting a plain value keeps a parameter list well formed |
| BeatportAffiliate.SetFirstWellFormed | lib/affiliates/beatport.ts:13 | replacing the first pair with a plain value keeps the list well formed |
| BeatportAffiliate.WithBeatportAidUntouched | lib/affiliates/beatport.ts:2-17 | the URL comes back as it is when it is empty, when the trimmed aid is empty or missing, when it does not parse, and when its host is not Beatport's with or without `www.` |
| BeatportAffiliate.WithBeatportAidKeepsExisting | lib/affiliates/beatport.ts:10-11 | a URL that already has a non-empty `a_aid` parses to the same record afterwards, with the same value |
| BeatportAffiliate.TaggedReadsBack | lib/affiliates/beatport.ts:13-14 | a tagged URL serialises and parses back to itself, with `a_aid` set to the aid and every other parameter unchanged |
| BeatportAffiliate.WithBeatportAidSets | lib/affiliates/beatport.ts:1-14 | otherwise the result parses to the same URL with `a_aid` set to the trimmed aid and every other parameter as it was, in order |
| BeatportAffiliate.WithBeatportAidKeepsOthers | lib/affiliates/beatport.ts:13-14 | a parameter under any other name keeps its value when the aid is added |
| CsvSanitize.SanitizeForCsvCell | lib/utils/csvSanitize.ts:5-15 | `sanitizeForCsvCell`; SanitizeShape, SanitizeSafe and SanitizeIdempotent prove its contract |
| CsvSanitize.SanitizeNullish | lib/utils/csvSanitize.ts:5-6 | `null` and `undefined` become the empty string |
| CsvSanitize.SanitizeShape | lib/utils/csvSanitize.ts:5-15 | a dangerous first character is neutralised by exactly one `'` (if and only if); anything else is returned unchanged, so the length grows by at most one |
| CsvSanitize.SanitizeSafe | lib/utils/csvSanitize.ts:1-12 | the result never starts with `=`, `+`, `-` or `@` |
| CsvSanitize.SanitizeIdempotent | lib/utils/csvSanitize.ts:5-15 | sanitising the sanitised text changes nothing |
| CsvSanitize.SanitizeNegative | lib/utils/csvSanitize.ts:6-11 | a negative number is text that starts with `-`, so it gets the prefix too |
| PlaylistUrl.DetectSourceFromUrl | lib/utils/playlistUrl.ts:4-23 | no input is detected as Apple |
| PlaylistUrl.SanitizeUrl | lib/utils/playlistUrl.ts:28-35 | `sanitizeUrl`; the SanitizeUrl lemmas below prove its contract |
| PlaylistUrl.Unbracket | lib/utils/playlistUrl.ts:30-32 | removing the brackets never lengthens the text |
| PlaylistUrl.SanitizeUrlNoEdge | lib/utils/playlistUrl.ts:28-35 | the result has no white space at either end and is never longer than the input |
| PlaylistUrl.SanitizeUrlClean | lib/utils/playlistUrl.ts:28-35 | input with no edge white space, no edge quotes and no enclosing brackets comes back as it is |
| PlaylistUrl.SanitizeUrlBareId | lib/utils/playlistUrl.ts:28-35 | a bare id, or any run of ASCII letters and digits, is left alone |
| PlaylistUrl.SanitizeUrlBlank | lib/utils/playlistUrl.ts:29 | white space alone gives the empty string |
| PlaylistUrl.SanitizeUrlBrackets | lib/utils/playlistUrl.ts:30-32 | exactly one enclosing pair of angle brackets is removed, with the white space just inside it |
| PlaylistUrl.SanitizeUrlQuotes | lib/utils/playlistUrl.ts:33 | the quote runs at both ends are removed once |
| OwnedStatus.GetOwnedStatusStyle | lib/ui/ownedStatus.ts:4-28 | `getOwnedStatusStyle`; BorderRule, ToBuyRule and OwnedTooltipRule prove its cases |
| OwnedStatus.BorderRule | lib/ui/ownedStatus.ts:8-28 | the border is emerald if and only if `owned === true`, and every border class starts with `border-l-4` |
| OwnedStatus.ToBuyRule | lib/ui/ownedStatus.ts:24-28 | anything but `owned === true` is To Buy, whatever the reason |
| OwnedStatus.OwnedTooltipRule | lib/ui/ownedStatus.ts:9-18 | an owned track gets the tooltip of its reason (ISRC, exact, album, fuzzy), each if and only if, and the generic one for any other reason |
| AnalyzerRules.CategorizeTrack | lib/state/usePlaylistAnalyzer.ts:21-24 | a track is `owned` if and only if `owned === true`, and `checkout` otherwise |
| AnalyzerRules.MapTracks | lib/state/usePlaylistAnalyzer.ts:26-42 | one row per response track |
| AnalyzerRules.MapTracksShape | lib/state/usePlaylistAnalyzer.ts:26-42 | row i is track i, numbered i + 1, with the same texts; missing links become three empty links, a missing Spotify URL becomes "", and `owned`, the keys and the key type are carried over |
| AnalyzerRules.ClassifyAppleError | lib/state/usePlaylistAnalyzer.ts:46-54 | `classifyAppleError`; ClassifyByRules and ClassifyIgnoresCase prove its contract |
| AnalyzerRules.HasMarkerOf | lib/state/usePlaylistAnalyzer.ts:49-52 | a message has one of a reason's markers if and only if it contains one of them |
| AnalyzerRules.ClassifyByRules | lib/state/usePlaylistAnalyzer.ts:46-54 | an empty or absent message is unknown; otherwise the reason is that of the first rule, in the order timeout, dom-change, region, bot-suspected, with a marker in the lower-cased message |
| AnalyzerRules.ClassifyIgnoresCase | lib/state/usePlaylistAnalyzer.ts:48 | the classification ignores ASCII case |
| AnalyzerRules.AnalyzeUrls | lib/state/usePlaylistAnalyzer.ts:349-352 | the URL list of `handleAnalyze`; AnalyzeUrlsFacts and AnalyzeUrlsBlank prove its contract |
| AnalyzerRules.NonEmpty | lib/state/usePlaylistAnalyzer.ts:352 | dropping blank lines never lengthens the list |
| AnalyzerRules.SanitizeAll | lib/state/usePlaylistAnalyzer.ts:351 | sanitising keeps one entry per line |
| AnalyzerRules.NonEmptyMembers | lib/state/usePlaylistAnalyzer.ts:352 | a string is kept if and only if it was there and is not empty |
| AnalyzerRules.AnalyzeUrlsFacts | lib/state/usePlaylistAnalyzer.ts:349-352 | the lines joined with newlines give the input back; a URL is in the list if and only if it is a non-empty sanitised line; no URL has edge white space |
| AnalyzerRules.AnalyzeUrlsBlank | lib/state/usePlaylistAnalyzer.ts:349-357 | input that is all white space leaves no URL, so the error path is taken and nothing is requested |
| AnalyzerRules.NonEmptyAllBlank | lib/state/usePlaylistAnalyzer.ts:352 | a list of empty strings keeps nothing |
| AnalyzerRules.LineOfBlank | lib/state/usePlaylistAnalyzer.ts:350 | every line of white-space input is white space |
| AnalyzerRules.ShouldFetch | lib/state/usePlaylistAnalyzer.ts:400-407 | the gate of `handleAnalyze`; AcceptedIdForms, AcceptedLink and ShortIdSkipped prove what it lets through |
| AnalyzerRules.LowerAlnum | lib/state/usePlaylistAnalyzer.ts:402 | lower-casing keeps letters and digits letters and digits |
| AnalyzerRules.LowerAt | lib/state/usePlaylistAnalyzer.ts:401-402 | lower-casing works character by character |
| AnalyzerRules.LowerAppend | lib/state/usePlaylistAnalyzer.ts:401-402 | lower-casing distributes over concatenation |
| AnalyzerRules.LowerNoCapitals | lib/state/usePlaylistAnalyzer.ts:401-402 | text without capitals is not changed by lower-casing |
| AnalyzerRules.AcceptedIdForms | lib/state/usePlaylistAnalyzer.ts:402-403 | a bare 22-character id and its `spotify:playlist:` URI are requested |
| AnalyzerRules.OccursLowered | lib/state/usePlaylistAnalyzer.ts:401 | a lower-case marker still occurs after lower-casing |
| AnalyzerRules.AcceptedLink | lib/state/usePlaylistAnalyzer.ts:401 | an `open.spotify.com/playlist/` link is requested, whatever surrounds it |
| AnalyzerRules.ShortIdSkipped | lib/state/usePlaylistAnalyzer.ts:400-407 | a run of letters and digits of any other length than 22 is skipped |
| AnalyzerRules.MergeResults | lib/state/usePlaylistAnalyzer.ts:633-642 | the merge of new results into the tab list; MergeResultsFacts proves its contract |
| AnalyzerRules.TabUrls | lib/state/usePlaylistAnalyzer.ts:635 | one URL per tab |
| AnalyzerRules.Stamp | lib/state/usePlaylistAnalyzer.ts:639 | stamping the Rekordbox metadata keeps one entry per new result |
| AnalyzerRules.KeepOthersMembers | lib/state/usePlaylistAnalyzer.ts:636 | a tab survives if and only if it was there and its URL was not re-analysed; the list never grows |
| AnalyzerRules.MergeResultsFacts | lib/state/usePlaylistAnalyzer.ts:633-642 | the new results come first, in input order, each stamped with the Rekordbox metadata; an earlier result survives after them if and only if its URL was not re-analysed |
| AnalyzerRules.ByKey | lib/state/usePlaylistAnalyzer.ts:705-709 | the `byKey` table; ByKeyLastWins proves later tracks win and the empty key is never stored |
| AnalyzerRules.OverlayTrack | lib/state/usePlaylistAnalyzer.ts:715-721 | one row of the overlay; OverlayFacts proves only matched rows change, and only in `owned` and `ownedReason` |
| AnalyzerRules.OverlayTracks | lib/state/usePlaylistAnalyzer.ts:715-723 | the overlay keeps the number of rows |
| AnalyzerRules.ByKeyLastWins | lib/state/usePlaylistAnalyzer.ts:705-709 | a key is in `byKey` if and only if some response track carries it, and it maps to the last such track; the empty key never occurs |
| AnalyzerRules.OverlayFacts | lib/state/usePlaylistAnalyzer.ts:705-723 | the overlay changes only `owned` and `ownedReason`, only on rows whose key the response carries, taking a boolean `owned` and a string reason and null otherwise; every other row is unchanged |
| UiState.AppState.constructor | lib/state/usePlaylistAnalyzer.ts:162-217 | the state on first render: no tabs, no selection, an expanded form, no error, an empty URL box, no progress lines, nothing stored |
| PlaylistAnalyzer.SetStatus | lib/state/usePlaylistAnalyzer.ts:388-558 | updating the progress lines of one URL keeps the number of lines |
| PlaylistAnalyzer.ItemsAfter | lib/state/usePlaylistAnalyzer.ts:360-558 | one progress line per URL |
| PlaylistAnalyzer.HandleAnalyze | lib/state/usePlaylistAnalyzer.ts:339-661 | the URLs are the non-blank sanitised lines of the box; with none, only the error is set. Otherwise each URL ends with its final progress line; the answered ones are merged in front of the tab list; the box is cleared when something was added; the banner shows the last failure, or the general message when everything failed |
| PlaylistAnalyzer.RequestEach | lib/state/usePlaylistAnalyzer.ts:378-631 | the loop collects the results of the answered URLs in input order, reports whether any URL failed or was skipped, leaves the banner at the last failure's text and each progress line at its final form |
| PlaylistAnalyzer.Step | lib/state/usePlaylistAnalyzer.ts:381-631 | one more URL adds its result when it is answered, sets the banner when it is requested and fails, and sets the failure flag when it is not answered |
| PlaylistAnalyzer.SetStatusOverwrite | lib/state/usePlaylistAnalyzer.ts:388-528 | a later status update of the same URL overrides the earlier one |
| PlaylistAnalyzer.ItemsStep | lib/state/usePlaylistAnalyzer.ts:381-558 | one iteration gives the current URL's progress line its final form and leaves the others |
| PlaylistAnalyzer.NewResultFacts | lib/state/usePlaylistAnalyzer.ts:496-524 | a new result counts exactly its rows, which are the mapped response tracks, carries the playlist's title, URL and id and the clock reading, and records whether a Rekordbox file was loaded |
| PlaylistAnalyzer.ResultsFacts | lib/state/usePlaylistAnalyzer.ts:381-524 | every new result belongs to a URL that was requested and answered, every such URL has a result, and there are no more results than URLs |
| PlaylistAnalyzer.LastErrorFacts | lib/state/usePlaylistAnalyzer.ts:545-651 | the banner names a failure if and only if some requested URL failed, and then not everything succeeded |
| PlaylistAnalyzer.GatedStaysFetching | lib/state/usePlaylistAnalyzer.ts:388-407 | a reference the gate skips ends the run still marked as fetching |
| PlaylistAnalyzer.HandleRemoveTab | lib/state/usePlaylistAnalyzer.ts:253-255 | every tab with the URL is removed and the others stay in order |
| PlaylistAnalyzer.FindTab | lib/state/usePlaylistAnalyzer.ts:712 | the index found is the first tab with the playlist id, and there is none only when no tab has it |
| PlaylistAnalyzer.ApplySnapshotWithXml | lib/state/usePlaylistAnalyzer.ts:704-727 | the tab list becomes the overlay of the response's keyed tracks on the current playlist's tab |
| PlaylistAnalyzer.OverlayResultsFacts | lib/state/usePlaylistAnalyzer.ts:710-727 | only the first tab of the playlist changes, and in it only the rows, which are overlaid, and the Rekordbox flag, which becomes true; with no such tab nothing changes |
| PlaylistAnalyzer.PersistResults | lib/state/usePlaylistAnalyzer.ts:169-197 | nothing happens with no tabs; a payload longer than 300 KB only raises the storage warning; otherwise the payload is stored |
| PlaylistAnalyzer.PayloadIgnoresTracks | lib/state/usePlaylistAnalyzer.ts:174-190 | the saved payload does not depend on any tab's rows |
| PlaylistAnalyzer.LookupMissing | lib/state/usePlaylistAnalyzer.ts:175-189 | a key that no entry carries reads as `undefined` |
| PlaylistAnalyzer.SummaryHasNoTracks | lib/state/usePlaylistAnalyzer.ts:174-189 | no level of a saved entry has a `tracks` key |
| Actions.HandleRemoveTab | lib/state/useActions.ts:47-57 | every tab with the URL is removed and the rest keep their order; when it was the active tab, the first remaining tab becomes active (none when no tab is left) and a missing or empty next tab expands the form; otherwise the selection and the form are untouched |
| Actions.RemovedTabGone | lib/state/useActions.ts:50 | after closing, no tab has the URL, and a tab is kept if and only if it had another URL |
| Actions.HandleClearAllTabs | lib/state/useActions.ts:62-66 | no tabs, no active tab and an expanded form |
| Actions.GenerateCsv | lib/state/useActions.ts:72-112 | `generateCsv`; GenerateCsvNull, CsvGridShape and CsvReadsBack prove its contract |
| Actions.TrackCells | lib/state/useActions.ts:89-101 | each track gives as many cells as there are headers |
| Actions.ReadQuoted | lib/state/useActions.ts:107 | reading a quoted field always consumes input |
| Actions.ReadFields | lib/state/useActions.ts:104-108 | reading a record always consumes input |
| Actions.ReadDoubled | lib/state/useActions.ts:107 | a cell with its quotes doubled, followed by the closing quote, reads back as the cell |
| Actions.ReadCell | lib/state/useActions.ts:107 | a quoted cell opens with a quote and reads back as the cell |
| Actions.ReadLine | lib/state/useActions.ts:105-108 | a record of quoted cells joined by commas reads back as its cells |
| Actions.ReadGrid | lib/state/useActions.ts:104-110 | records joined by line feeds read back as the grid |
| Actions.GenerateCsvNull | lib/state/useActions.ts:74-76 | there is no CSV if and only if there are no rows or no current result |
| Actions.CsvReadsBack | lib/state/useActions.ts:78-112 | a CSV reader gets back the header row and then each track's nine cells, in order: quoting as in section 2 of RFC 4180 hides every comma, quote and line feed |
| Actions.CsvGridShape | lib/state/useActions.ts:78-104 | the grid is the header row followed by one row per track, in order |
| Actions.CsvGridRows | lib/state/useActions.ts:78-104 | no row of the grid is empty |
| Actions.TrackCellsFacts | lib/state/useActions.ts:89-101 | a row holds the nine sanitised cells; Owned reads "Yes" if and only if `owned === true`, and "No" otherwise; a missing ISRC is ""; the Beatport cell is the normalised link; no cell starts a formula |
| Actions.SafePlaylistName | lib/state/useActions.ts:130-132 | the file-name stem; SafePlaylistNameSafe, SafePlaylistNameKeeps and SafePlaylistNameEmpty prove its contract |
| Actions.DownloadCsv | lib/state/useActions.ts:117-136 | `downloadCsv`; DownloadCsvFacts proves its contract |
| Actions.ReplaceUnsafe | lib/state/useActions.ts:131 | every UTF-16 code unit becomes one character of `[A-Za-z0-9_-]` |
| Actions.ReplaceUnsafeKeeps | lib/state/useActions.ts:131 | a title of allowed characters is not changed |
| Actions.SafePlaylistNameSafe | lib/state/useActions.ts:130-132 | the safe name has at most 50 characters, all from `[A-Za-z0-9_-]` |
| Actions.SafePlaylistNameKeeps | lib/state/useActions.ts:130-132 | a title of allowed characters is kept up to the cut at 50 |
| Actions.SafePlaylistNameEmpty | lib/state/useActions.ts:130 | an empty title gives "playlist" |
| Actions.DownloadCsvFacts | lib/state/useActions.ts:117-136 | a file is produced if and only if there is a CSV, and it carries that CSV |
| Buylist.FindTrack | lib/buylistStore.ts:125-128 | the index found is the first track with the key, and there is none only when no track has it |
| Buylist.BuylistStore.constructor | lib/buylistStore.ts:40-72 | an empty database: no buylists and no rate-limit record |
| Buylist.BuylistStore.SaveBuylist | lib/buylistStore.ts:77-93 | the snapshot is stored under its playlist id with `updatedAt` set to the clock, replacing any earlier one; every other key is unchanged |
| Buylist.BuylistStore.GetBuylist | lib/buylistStore.ts:99-112 | a snapshot is returned if and only if one is stored under the id, and then it is that snapshot |
| Buylist.BuylistStore.UpdateTrackState | lib/buylistStore.ts:117-137 | an unknown playlist or key changes nothing; otherwise only the first track with the key is merged with the updates and stamped, and the snapshot is saved again with a new `updatedAt` |
| Buylist.BuylistStore.GetTrackState | lib/buylistStore.ts:142-152 | the result is the first stored track with the key; there is none if and only if the playlist is unknown or no track has the key |
| Buylist.BuylistStore.GetRateLimitState | lib/buylistStore.ts:157-181 | the record is read as `RateLimitView` of the stored record |
| Buylist.BuylistStore.IncrementAppleRequest | lib/buylistStore.ts:186-203 | the stored record becomes the current view with one more request and the same reset time, and that record is returned |
| Buylist.BuylistStore.ResetAppleRequest | lib/buylistStore.ts:208-222 | the stored record becomes a count of 0 until the next reset |
| Buylist.BuylistStore.GetAllBuylists | lib/buylistStore.ts:245-256 | the result holds exactly the stored snapshots |
| Buylist.BuylistStore.DeleteBuylist | lib/buylistStore.ts:261-272 | only that playlist's snapshot is removed |
| Buylist.MergeTrackFacts | lib/buylistStore.ts:130-134 | a merged track takes every given field from the updates, keeps every other field, and carries the new time stamp; empty updates change only the stamp |
| Buylist.UpdateKeepsOthers | lib/buylistStore.ts:125-134 | the update keeps the track count and every track other than the first one with the key |
| Buylist.RateLimitViewFacts | lib/buylistStore.ts:170-178 | the count reads 0 with a fresh reset time once the reset time has passed; before it, the stored record is returned, or a count of 0 when nothing is stored |
| Buylist.IncrementCounts | lib/buylistStore.ts:190-198 | before the reset time the next read sees the increment: the count goes up by exactly one and the reset time stays |
| Buylist.ResetReadsZero | lib/buylistStore.ts:214-216 | after a reset the count reads 0 |
| Buylist.TwoIncrementsCountTwo | lib/buylistStore.ts:190-198 | two increments in a row before the reset time count two |
| TabQuery.EncodeTab | app/page.tsx:51-52 | `encodeTab`; EncodeTabAlphabet, UrlBodyUnpadded and TabRoundTrip prove its contract |
| TabQuery.DecodeTab | app/page.tsx:54-61 | `decodeTab`; DecodeTabBadLength, TriplePadRejected and TabRoundTrip prove its contract |
| TabQuery.SextetOf | app/page.tsx:57 | the value of a base64 character is a 6-bit number |
| TabQuery.SextetOfAlphabet | app/page.tsx:51-57 | every 6-bit value has a character of the standard alphabet, and reading that character gives the value back |
| TabQuery.Duo | app/page.tsx:52 | a last group of one byte is written as two alphabet characters |
| TabQuery.Trio | app/page.tsx:52 | a last group of two bytes is written as three alphabet characters |
| TabQuery.Quad | app/page.tsx:52 | a full group of three bytes is written as four alphabet characters |
| TabQuery.Body | app/page.tsx:52 | the unpadded `btoa` output has four characters per full group plus two or three for a short last group, all from the standard alphabet |
| TabQuery.Replace | app/page.tsx:52 | replacing one character by another keeps the length |
| TabQuery.TrimTrailing | app/page.tsx:52 | removing a trailing run of `=` never lengthens the text |
| TabQuery.EncodeTabAlphabet | app/page.tsx:51-52 | `encodeTab` fails exactly when the URL has a character above U+00FF; otherwise its result holds only `A-Z`, `a-z`, `0-9`, `-` and `_`, with no `+`, `/` or `=` |
| TabQuery.UrlBodyUnpadded | app/page.tsx:51-52 | the encoded tab is the unpadded body with `+` and `/` turned into `-` and `_`: stripping the trailing `=` removes exactly the padding |
| TabQuery.PaddingForCases | app/page.tsx:56 | `decodeTab` appends no `=` to a length that is a multiple of four, `==` after 2, `=` after 3 and `===` after 1 (lengths in UTF-16 code units) |
| TabQuery.DecodeTabBadLength | app/page.tsx:54-61 | a URL-safe string whose length leaves 1 modulo 4 cannot be decoded and `decodeTab` gives null |
| TabQuery.TriplePadRejected | app/page.tsx:56-59 | three `=` after such a length make `atob` throw, which `decodeTab` turns into null |
| TabQuery.DuoRoundTrip | app/page.tsx:52-57 | decoding a two-character last group gives its byte back |
| TabQuery.TrioRoundTrip | app/page.tsx:52-57 | decoding a three-character last group gives its two bytes back |
| TabQuery.DecodeQuad | app/page.tsx:52-57 | a full group decodes to its three bytes, ahead of the decoding of what follows |
| TabQuery.BodyRoundTrip | app/page.tsx:52-57 | decoding the unpadded body of a Latin-1 string gives the string back |
| TabQuery.BodyLengthFacts | app/page.tsx:52-56 | the body never leaves one character over a multiple of four, and the padding completes it to a multiple of four |
| TabQuery.BodyLengthMod | app/page.tsx:52 | only the last group decides the body's length modulo four |
| TabQuery.StripPaddingOf | app/page.tsx:57 | the forgiving decoder's padding step removes exactly the padding `btoa` added |
| TabQuery.AtobBtoa | app/page.tsx:52-57 | `atob` undoes `btoa` on every Latin-1 string |
| TabQuery.UndoUrlSafe | app/page.tsx:52-56 | turning `-` and `_` back into `+` and `/` restores the standard body |
| TabQuery.TabRoundTrip | app/page.tsx:51-61 | for a URL with no character above U+00FF, `encodeTab` succeeds and `decodeTab` of its result is the URL |
| TabQuery.InitialTab | app/page.tsx:64-78 | the tab the effect selects; InitialTabIsResult and ReloadRestoresTab prove its contract |
| TabQuery.SelectInitialTab | app/page.tsx:64-78 | the effect leaves an active tab alone and does nothing without results; otherwise it selects the decoded `t` parameter when it names a result, and the first result when not |
| TabQuery.InitialTabIsResult | app/page.tsx:64-78 | when there are results and no active tab, the tab selected is one of the results |
| TabQuery.ReloadRestoresTab | app/page.tsx:81-89 | after a reload, the `t` parameter written for a result's URL with no character above U+00FF selects that same tab again |
| ShareRoute.Post | app/api/share/route.ts:11-45 | the response status is one of 200, 400, 413 and 500, and the store is called if and only if the body parsed, the snapshot passed every check and both credentials are set |
| ShareRoute.MissingSnapshotRejected | app/api/share/route.ts:13-15 | a missing or falsy snapshot gives 400 "snapshot is required" and no store call, whatever else the request holds |
| ShareRoute.SizeCheckedBeforeSchema | app/api/share/route.ts:16-17 | a snapshot whose UTF-8 JSON text is over 1 MiB gives 413 before its schema is looked at, and no store call |
| ShareRoute.SchemaRejectedIff | app/api/share/route.ts:19-21 | for a present snapshot within the size limit, the schema error is returned exactly when the schema is not `playlist_snapshot` or the version is not 1 |
| ShareRoute.CredentialsCheckedLast | app/api/share/route.ts:27-29 | the missing-credentials error is returned exactly when the snapshot passed every check and the URL or the token is empty |
| ShareRoute.StoreCall | app/api/share/route.ts:23-34 | the store is asked to keep the serialised snapshot, at most 1 MiB, under `share:<id>` with the clamped time to live |
| ShareRoute.UpstreamRefusal | app/api/share/route.ts:35-38 | a store that refuses the call gives 500 with its reply text after "Upstash error: " |
| ShareRoute.SuccessIff | app/api/share/route.ts:11-44 | the share succeeds exactly when every check passes, the store keeps the snapshot and the time to live is a number; the reply then carries the id and an expiry between one minute and seven days after the clock |
| ShareRoute.Ttl | app/api/share/route.ts:23 | the clamped time to live; TtlBounds and DefaultTtlIsOneDay prove its contract |
| ShareRoute.TtlBounds | app/api/share/route.ts:23 | a numeric time to live is clamped into 60..604800 seconds, a value in that range is kept, and a non-number stays `NaN` |
| ShareRoute.DefaultTtlIsOneDay | app/api/share/route.ts:14-23 | an absent or null `ttl_seconds` gives 86400 seconds |
| ShareRoute.NumberOfDecimal | app/api/share/route.ts:23 | `Number` of the decimal text of an integer is that integer |
| ShareRoute.MessagesDiffer | app/api/share/route.ts:15-28 | the three 400 responses carry three different messages |

## Left out

- `get_spotify_client` and the real catalog client: they are OAuth and network code. The client is a parameter that yields a fixed sequence of pages, one of which has no `next`.
- `app.py`, `html_renderer.py`, `playlist_shop_links.py`, the React components and the network and proxy modules are not part of this model. They hold routing, rendering and I/O.
- `urllib.parse.urlparse` and WHATWG URL parsing and serialisation are modelled as simplified URL records. Port numbers, IDNA, userinfo and percent-decoding of the host are not modelled.
- BeatportAffiliate.WithBeatportAidSets: stated only for an aid without `&` or `#`. The simplified query serialiser does not percent-encode those characters.
- BeatportAffiliate.WithBeatportAid: the query is a list of raw `name=value` pieces, not the decoded pairs of `URLSearchParams`. Three results differ from the source because of this:
  - `searchParams.set` re-serialises the whole query as `application/x-www-form-urlencoded`. The source turns `q=F%2Ak~x` into `q=F*k%7Ex` and `%20` into `+`, and encodes an aid holding a space. The model keeps the other pieces as written and appends the aid as it is.
  - `new URL` accepts forms such as `https:beatport.com/x` and backslashes in place of `/`, and tags them. `Parse` rejects them, so the model returns them unchanged.
  - `searchParams.get` percent-decodes names, so `a%5Faid=X` counts as an existing aid in the source. In the model it does not, and the aid is appended.
- PlaylistId.UrlParse: the only `ValueError` modelled is a netloc with one square bracket and not the other. `urlsplit` also raises when a bracketed host is not a valid IPv6 or IPvFuture address, and when a non-ASCII host changes under NFKC normalisation. For `https://[x]/foo/<22 letters and digits>`, Python raises in step 1, steps 2 and 3 find nothing, and the call fails. The model's step 1 returns the id.
- Lower-casing (`toLowerCase`, `str.lower`) covers the ASCII letters only.
- The whitespace sets of JavaScript `trim` and Python `strip` are fixed finite subsets of the real ones.
- A Python dict key that is present with value `None` is treated as absent.
- `localeCompare` is an abstract comparison function given as a parameter. The selectors' sort is an insertion sort by it. When the comparison is a total preorder, the result is proved sorted and a permutation of the input. Stability is not proved.
- JavaScript numbers are integers. `NaN` is a separate value. `Number` of a string with a fraction, an exponent, a hex prefix or `Infinity` is modelled as `NaN`, as is `Number` of an array or an object.
- The share route: the `toISOString` date range and the formatting of `expires_at` are not modelled. `expiresAt` is kept in milliseconds since the epoch.
- ShareRoute.Post: `randomUUID`, `Date.now`, the environment and the reply of the store's `fetch` are parameters. The URL encoding of the `SETEX` request is not modelled.
- IndexedDB transactions, the `db` handle, async code and `getNextResetTime` are not modelled. The clock and the next reset time are parameters.
- Buylist.BuylistStore.GetAllBuylists: returns the set of stored snapshots. The store's key order is not modelled.
- `TrackUpdate` cannot express a field explicitly set to `undefined`. Every field it names overwrites.
- AnalyzerRules.ByKey: only string keys are stored. In the source a truthy non-string `track_key_primary`, such as the number 5, is stored under its string form `"5"`; the model falls back to `track_key_fallback`.
- AnalyzerRules.OverlayTrack: `byKey` is a plain object in the source, so a row keyed `"toString"` or another inherited property name finds a function and gets `owned` and `ownedReason` set to null. The model leaves such a row as it is.
- AnalyzerRules.ResponseTracks: a `null` element of `tracks`, or a `tracks` that is truthy but not iterable, makes the source throw. The model skips the element, or reads no tracks.
- The row field `trackKeyGuess` is not modelled. `normalizeTrack` always sets it to `""` and no modelled code reads it.
- In `usePlaylistAnalyzer.ts`, these are not modelled:
  - timers and `performance.now` timings;
  - the `Math.random` progress ticker;
  - `AbortController`, `requestAnimationFrame` and the request-id staleness check;
  - the retry `sleep`;
  - the error-message text tables (the banner text is abstracted to the message).
- The fetch of each URL is a parameter that returns a response or an error.
- The Apple Music branches of `handleAnalyze` cannot be reached, because `detectSourceFromUrl` always gives `'spotify'`. They are not modelled.
- `handleReAnalyzeFileChange`, `applyRekordboxFile`, `handleRekordboxChange`, `cancelAnalyze`, `retryFailed`, `clearLocalData` and `handleExportCSV` are not modelled. They are I/O on files, storage and the network, with no rule of their own beyond those modelled here.
- The restore-on-load effect and `ensureHydrated` are not modelled. `useActions`' `handleClearDataAndReset` and `triggerReAnalyzeFileInput` are not modelled either. They are storage and DOM plumbing.
- localStorage writes are abstracted to a field of `AppState` that holds the last payload written. The debounce and `requestIdleCallback` are not modelled.
- `applySnapshotWithXml`: the request that uploads the file is not modelled. The response is a parameter.
- TabQuery.TabRoundTrip: proved for URLs whose characters are all at most U+00FF, where `btoa` does not throw. This covers the ASCII URLs the source comments assume.
- `btoa` and `atob` work on characters as bytes. Unicode beyond U+FFFF is counted in UTF-16 code units only where `decodeTab` reads a length.
