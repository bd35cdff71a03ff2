/**
 * The track-list selectors: the rows shown for a tab under the filter bar's
 * options, and the owned / to-buy counts.
 *
 * `localeCompare` is locale-dependent; it is the parameter `cmp`, and the
 * ordering facts hold for any `cmp` that is a total preorder.
 */
module Selectors {
  import opened Text
  import opened Rows
  import opened AnalyzerRules

  datatype CategoryFilter = AllTracks | ToBuy | OwnedOnly
  datatype SortKey = Unsorted | ByArtist | ByAlbum | ByTitle

  datatype FilterOptions = FilterOptions(
    categoryFilter: CategoryFilter,
    searchQuery: string,
    sortKey: SortKey,
    onlyUnowned: bool)

  /** The options of a fresh filter bar. */
  const DefaultOptions := FilterOptions(AllTracks, "", Unsorted, false)

  /** The test one `filter` call applies. */
  datatype Criterion = NotOwned | Search(query: string) | InCategory(category: Category)

  /** A non-blank search matches when the lowercased title, artist or album contains the lowercased query. */
  predicate MatchesSearch(t: PlaylistRow, query: string) {
    var q := Lower(query);
    Contains(Lower(t.title), q) || Contains(Lower(t.artist), q) || Contains(Lower(t.album), q)
  }

  predicate Keeps(c: Criterion, t: PlaylistRow) {
    match c
    case NotOwned => !IsOwned(t)
    case Search(q) => MatchesSearch(t, q)
    case InCategory(cat) => CategorizeTrack(t) == cat
  }

  /** `Array.prototype.filter`: the rows that pass, in order. */
  function Filter(ts: seq<PlaylistRow>, c: Criterion): (r: seq<PlaylistRow>)
    ensures |r| <= |ts|
  {
    if ts == [] then []
    else
      var rest := Filter(ts[1..], c);
      if Keeps(c, ts[0]) then [ts[0]] + rest else rest
  }

  /** A filter keeps exactly the rows that pass, each no more often than the input has it. */
  lemma {:induction false} FilterMembers(ts: seq<PlaylistRow>, c: Criterion)
    ensures multiset(Filter(ts, c)) <= multiset(ts)
    ensures forall t :: t in Filter(ts, c) <==> t in ts && Keeps(c, t)
  {
    if ts != [] {
      FilterMembers(ts[1..], c);
      assert ts == [ts[0]] + ts[1..];
    }
  }

  /** The field a sort key compares. */
  function SortField(t: PlaylistRow, k: SortKey): string {
    match k
    case Unsorted => ""
    case ByArtist => t.artist
    case ByAlbum => t.album
    case ByTitle => t.title
  }

  /** `x` placed after every leading row that does not compare greater, so equal keys keep their order. */
  function Insert(x: PlaylistRow, s: seq<PlaylistRow>, k: SortKey, cmp: (string, string) -> int): (r: seq<PlaylistRow>)
    ensures |r| == |s| + 1
    ensures multiset(r) == multiset(s) + multiset{x}
  {
    if s == [] then [x]
    else if cmp(SortField(s[0], k), SortField(x, k)) <= 0 then
      assert s == [s[0]] + s[1..];
      [s[0]] + Insert(x, s[1..], k, cmp)
    else [x] + s
  }

  /** `[...rows].sort(...)`: a stable insertion sort of a copy. */
  function SortRows(s: seq<PlaylistRow>, k: SortKey, cmp: (string, string) -> int): (r: seq<PlaylistRow>)
    ensures |r| == |s|
    ensures multiset(r) == multiset(s)
  {
    if s == [] then []
    else
      assert s == s[..|s| - 1] + [s[|s| - 1]];
      Insert(s[|s| - 1], SortRows(s[..|s| - 1], k, cmp), k, cmp)
  }

  /**
   * `selectDisplayedTracks`: the only-unowned filter, then the search
   * (skipped when the query is blank after trimming, and using the query
   * untrimmed otherwise), then the sort, then the category filter.
   */
  function SelectDisplayedTracks(tracks: seq<PlaylistRow>, options: FilterOptions, cmp: (string, string) -> int): seq<PlaylistRow> {
    CategoryStage(SortStage(SearchStage(UnownedStage(tracks, options), options), options, cmp), options)
  }

  function UnownedStage(ts: seq<PlaylistRow>, options: FilterOptions): seq<PlaylistRow> {
    if options.onlyUnowned then Filter(ts, NotOwned) else ts
  }

  function SearchStage(ts: seq<PlaylistRow>, options: FilterOptions): seq<PlaylistRow> {
    if JsTrim(options.searchQuery) != "" then Filter(ts, Search(options.searchQuery)) else ts
  }

  function SortStage(ts: seq<PlaylistRow>, options: FilterOptions, cmp: (string, string) -> int): seq<PlaylistRow> {
    if options.sortKey == Unsorted then ts else SortRows(ts, options.sortKey, cmp)
  }

  function CategoryStage(ts: seq<PlaylistRow>, options: FilterOptions): seq<PlaylistRow> {
    match options.categoryFilter
    case AllTracks => ts
    case OwnedOnly => Filter(ts, InCategory(Owned))
    case ToBuy => Filter(ts, InCategory(Checkout))
  }

  /** `selectTrackCounts`. */
  datatype TrackCounts = TrackCounts(ownedCount: nat, toBuyCount: nat)

  function SelectTrackCounts(tracks: seq<PlaylistRow>): (r: TrackCounts)
    ensures r.ownedCount + r.toBuyCount == |tracks|
  {
    if tracks == [] then TrackCounts(0, 0)
    else
      var rest := SelectTrackCounts(tracks[1..]);
      if IsOwned(tracks[0]) then TrackCounts(rest.ownedCount + 1, rest.toBuyCount)
      else TrackCounts(rest.ownedCount, rest.toBuyCount + 1)
  }

  // ---------------------------------------------------------------------------
  // Subsequences
  // ---------------------------------------------------------------------------

  /** `r[i] == ts[idx[i]]` for strictly increasing positions `idx`. */
  predicate SubsequenceVia(r: seq<PlaylistRow>, ts: seq<PlaylistRow>, idx: seq<nat>) {
    && |idx| == |r|
    && (forall i :: 0 <= i < |idx| ==> idx[i] < |ts| && r[i] == ts[idx[i]])
    && (forall i, j :: 0 <= i < j < |idx| ==> idx[i] < idx[j])
  }

  ghost predicate IsSubsequence(r: seq<PlaylistRow>, ts: seq<PlaylistRow>) {
    exists idx :: SubsequenceVia(r, ts, idx)
  }

  /** A filter keeps the rows it keeps in their order. */
  lemma {:induction false} FilterSubsequence(ts: seq<PlaylistRow>, c: Criterion) returns (idx: seq<nat>)
    ensures SubsequenceVia(Filter(ts, c), ts, idx)
  {
    if ts == [] {
      idx := [];
    } else {
      var tail := ts[1..];
      var rest := Filter(tail, c);
      var inner := FilterSubsequence(tail, c);
      var shifted := seq(|inner|, i requires 0 <= i < |inner| => inner[i] + 1);
      assert SubsequenceVia(rest, ts, shifted) by {
        forall i | 0 <= i < |shifted|
          ensures shifted[i] < |ts| && rest[i] == ts[shifted[i]]
        {
          assert rest[i] == tail[inner[i]];
        }
      }
      if Keeps(c, ts[0]) {
        idx := [0] + shifted;
        var r := [ts[0]] + rest;
        assert Filter(ts, c) == r;
        forall i | 0 <= i < |idx|
          ensures idx[i] < |ts| && r[i] == ts[idx[i]]
        {
          if i > 0 {
            assert r[i] == rest[i - 1] && idx[i] == shifted[i - 1];
          }
        }
      } else {
        idx := shifted;
      }
    }
  }

  /** Positions compose: a subsequence of a subsequence is a subsequence. */
  lemma SubsequenceCompose(a: seq<PlaylistRow>, b: seq<PlaylistRow>, c: seq<PlaylistRow>, ab: seq<nat>, bc: seq<nat>)
    returns (ac: seq<nat>)
    requires SubsequenceVia(a, b, ab) && SubsequenceVia(b, c, bc)
    ensures SubsequenceVia(a, c, ac)
  {
    ac := seq(|ab|, i requires 0 <= i < |ab| => bc[ab[i]]);
  }

  lemma SubsequenceSelf(ts: seq<PlaylistRow>) returns (idx: seq<nat>)
    ensures SubsequenceVia(ts, ts, idx)
  {
    idx := seq(|ts|, i requires 0 <= i < |ts| => i);
  }

  lemma FilterThenSubsequence(a: seq<PlaylistRow>, ts: seq<PlaylistRow>, c: Criterion, idx: seq<nat>) returns (idx2: seq<nat>)
    requires SubsequenceVia(a, ts, idx)
    ensures SubsequenceVia(Filter(a, c), ts, idx2)
  {
    var f := FilterSubsequence(a, c);
    idx2 := SubsequenceCompose(Filter(a, c), a, ts, f, idx);
  }

  // ---------------------------------------------------------------------------
  // Ordering
  // ---------------------------------------------------------------------------

  /** `cmp(a, b) <= 0` is total and transitive, as `localeCompare` is meant to be. */
  ghost predicate IsTotalPreorder(cmp: (string, string) -> int) {
    && (forall a, b :: cmp(a, b) <= 0 || cmp(b, a) <= 0)
    && (forall a, b, c :: cmp(a, b) <= 0 && cmp(b, c) <= 0 ==> cmp(a, c) <= 0)
  }

  /** `a` sorts no later than `b` under key `k`. */
  predicate Le(a: PlaylistRow, b: PlaylistRow, k: SortKey, cmp: (string, string) -> int) {
    cmp(SortField(a, k), SortField(b, k)) <= 0
  }

  predicate SortedBy(s: seq<PlaylistRow>, k: SortKey, cmp: (string, string) -> int) {
    forall i, j :: 0 <= i < j < |s| ==> Le(s[i], s[j], k, cmp)
  }

  /** A lower bound of `x` and of every row of `s` bounds every row after the insertion. */
  lemma {:induction false} InsertBound(y: PlaylistRow, x: PlaylistRow, s: seq<PlaylistRow>, k: SortKey, cmp: (string, string) -> int)
    requires Le(y, x, k, cmp) && forall m :: 0 <= m < |s| ==> Le(y, s[m], k, cmp)
    ensures forall j :: 0 <= j < |Insert(x, s, k, cmp)| ==> Le(y, Insert(x, s, k, cmp)[j], k, cmp)
  {
    if s != [] && Le(s[0], x, k, cmp) {
      InsertBound(y, x, s[1..], k, cmp);
      assert forall m :: 0 <= m < |s| - 1 ==> s[1..][m] == s[m + 1];
    }
  }

  lemma {:induction false} InsertSorted(x: PlaylistRow, s: seq<PlaylistRow>, k: SortKey, cmp: (string, string) -> int)
    requires IsTotalPreorder(cmp) && SortedBy(s, k, cmp)
    ensures SortedBy(Insert(x, s, k, cmp), k, cmp)
  {
    if s != [] && Le(s[0], x, k, cmp) {
      var tail := s[1..];
      InsertSorted(x, tail, k, cmp);
      InsertBound(s[0], x, tail, k, cmp);
      var rt := Insert(x, tail, k, cmp);
      assert Insert(x, s, k, cmp) == [s[0]] + rt;
    } else if s != [] {
      assert !Le(s[0], x, k, cmp);
      assert Le(x, s[0], k, cmp);
      assert forall j :: 0 <= j < |s| ==> Le(x, s[j], k, cmp);
    }
  }

  /** For a total preorder the sort orders by the key and keeps every row. */
  lemma {:induction false} SortRowsSorted(s: seq<PlaylistRow>, k: SortKey, cmp: (string, string) -> int)
    requires IsTotalPreorder(cmp)
    ensures SortedBy(SortRows(s, k, cmp), k, cmp)
    ensures multiset(SortRows(s, k, cmp)) == multiset(s)
  {
    if s != [] {
      SortRowsSorted(s[..|s| - 1], k, cmp);
      InsertSorted(s[|s| - 1], SortRows(s[..|s| - 1], k, cmp), k, cmp);
    }
  }

  // ---------------------------------------------------------------------------
  // Properties of selectDisplayedTracks and selectTrackCounts
  // ---------------------------------------------------------------------------

  /** Default options (any blank query) show the rows as they are. */
  lemma DefaultsShowEverything(tracks: seq<PlaylistRow>, query: string, cmp: (string, string) -> int)
    requires JsTrim(query) == ""
    ensures SelectDisplayedTracks(tracks, DefaultOptions.(searchQuery := query), cmp) == tracks
  {
  }

  lemma UnownedStageMembers(ts: seq<PlaylistRow>, options: FilterOptions)
    ensures multiset(UnownedStage(ts, options)) <= multiset(ts)
    ensures forall t :: t in UnownedStage(ts, options) <==> t in ts && (options.onlyUnowned ==> !IsOwned(t))
  {
    FilterMembers(ts, NotOwned);
  }

  lemma SearchStageMembers(ts: seq<PlaylistRow>, options: FilterOptions)
    ensures multiset(SearchStage(ts, options)) <= multiset(ts)
    ensures forall t :: t in SearchStage(ts, options) <==>
      t in ts && (JsTrim(options.searchQuery) != "" ==> MatchesSearch(t, options.searchQuery))
  {
    FilterMembers(ts, Search(options.searchQuery));
  }

  lemma SortStageMembers(ts: seq<PlaylistRow>, options: FilterOptions, cmp: (string, string) -> int)
    ensures multiset(SortStage(ts, options, cmp)) == multiset(ts)
    ensures forall t :: t in SortStage(ts, options, cmp) <==> t in ts
  {
    var r := SortStage(ts, options, cmp);
    forall t
      ensures t in r <==> t in ts
    {
      assert t in r <==> t in multiset(r);
      assert t in ts <==> t in multiset(ts);
    }
  }

  lemma CategoryStageMembers(ts: seq<PlaylistRow>, options: FilterOptions)
    ensures multiset(CategoryStage(ts, options)) <= multiset(ts)
    ensures forall t :: t in CategoryStage(ts, options) <==>
      && t in ts
      && (options.categoryFilter == OwnedOnly ==> CategorizeTrack(t) == Owned)
      && (options.categoryFilter == ToBuy ==> CategorizeTrack(t) == Checkout)
  {
    FilterMembers(ts, InCategory(Owned));
    FilterMembers(ts, InCategory(Checkout));
  }

  /** The shown rows are rows of the input, each at most as often as there. */
  lemma DisplayedAreInputRows(tracks: seq<PlaylistRow>, options: FilterOptions, cmp: (string, string) -> int)
    ensures var r := SelectDisplayedTracks(tracks, options, cmp);
      |r| <= |tracks| && multiset(r) <= multiset(tracks)
  {
    var unowned := UnownedStage(tracks, options);
    var searched := SearchStage(unowned, options);
    var sorted := SortStage(searched, options, cmp);
    UnownedStageMembers(tracks, options);
    SearchStageMembers(unowned, options);
    SortStageMembers(searched, options, cmp);
    CategoryStageMembers(sorted, options);
    var r := CategoryStage(sorted, options);
    assert |r| == |multiset(r)| && |tracks| == |multiset(tracks)|;
  }

  /** Without a sort key the shown rows keep the input's order. */
  lemma DisplayedInOrder(tracks: seq<PlaylistRow>, options: FilterOptions, cmp: (string, string) -> int)
    requires options.sortKey == Unsorted
    ensures IsSubsequence(SelectDisplayedTracks(tracks, options, cmp), tracks)
  {
    var idx := SubsequenceSelf(tracks);
    var unowned := UnownedStage(tracks, options);
    if options.onlyUnowned {
      idx := FilterThenSubsequence(tracks, tracks, NotOwned, idx);
    }
    var searched := SearchStage(unowned, options);
    if JsTrim(options.searchQuery) != "" {
      idx := FilterThenSubsequence(unowned, tracks, Search(options.searchQuery), idx);
    }
    match options.categoryFilter
    case AllTracks =>
    case OwnedOnly => idx := FilterThenSubsequence(searched, tracks, InCategory(Owned), idx);
    case ToBuy => idx := FilterThenSubsequence(searched, tracks, InCategory(Checkout), idx);
  }

  /** With only-unowned on, no shown row is owned. */
  lemma OnlyUnownedHidesOwned(tracks: seq<PlaylistRow>, options: FilterOptions, cmp: (string, string) -> int)
    requires options.onlyUnowned
    ensures forall t :: t in SelectDisplayedTracks(tracks, options, cmp) ==> !IsOwned(t)
  {
    DisplayedSubsetOf(tracks, options, cmp);
  }

  /**
   * Every shown row passed each active filter, and every input row that
   * passes all of them is shown.
   */
  lemma DisplayedSubsetOf(tracks: seq<PlaylistRow>, options: FilterOptions, cmp: (string, string) -> int)
    ensures forall t :: t in SelectDisplayedTracks(tracks, options, cmp) <==>
      && t in tracks
      && (options.onlyUnowned ==> !IsOwned(t))
      && (JsTrim(options.searchQuery) != "" ==> MatchesSearch(t, options.searchQuery))
      && (options.categoryFilter == OwnedOnly ==> CategorizeTrack(t) == Owned)
      && (options.categoryFilter == ToBuy ==> CategorizeTrack(t) == Checkout)
  {
    var unowned := UnownedStage(tracks, options);
    var searched := SearchStage(unowned, options);
    var sorted := SortStage(searched, options, cmp);
    UnownedStageMembers(tracks, options);
    SearchStageMembers(unowned, options);
    SortStageMembers(searched, options, cmp);
    CategoryStageMembers(sorted, options);
  }

  /**
   * A non-blank search with no other filter keeps exactly the rows whose
   * lowercased title, artist or album contains the lowercased query, which
   * is not trimmed first.
   */
  lemma SearchKeepsMatches(tracks: seq<PlaylistRow>, query: string, cmp: (string, string) -> int)
    requires JsTrim(query) != ""
    ensures SelectDisplayedTracks(tracks, DefaultOptions.(searchQuery := query), cmp) ==
      Filter(tracks, Search(query))
    ensures forall t :: t in SelectDisplayedTracks(tracks, DefaultOptions.(searchQuery := query), cmp) <==>
      t in tracks && (Contains(Lower(t.title), Lower(query)) || Contains(Lower(t.artist), Lower(query)) || Contains(Lower(t.album), Lower(query)))
  {
    FilterMembers(tracks, Search(query));
  }

  /** Rows picked from a sorted list in their order are still sorted. */
  lemma SubsequenceSorted(r: seq<PlaylistRow>, s: seq<PlaylistRow>, idx: seq<nat>, k: SortKey, cmp: (string, string) -> int)
    requires SubsequenceVia(r, s, idx) && SortedBy(s, k, cmp)
    ensures SortedBy(r, k, cmp)
  {
    forall i, j | 0 <= i < j < |r|
      ensures Le(r[i], r[j], k, cmp)
    {
      assert r[i] == s[idx[i]] && r[j] == s[idx[j]];
    }
  }

  /**
   * A sort key orders the shown rows (for a total preorder) under every
   * category: the category stage after the sort only filters.
   */
  lemma SortOrdersDisplayed(tracks: seq<PlaylistRow>, options: FilterOptions, cmp: (string, string) -> int)
    requires IsTotalPreorder(cmp) && options.sortKey != Unsorted
    ensures SortedBy(SelectDisplayedTracks(tracks, options, cmp), options.sortKey, cmp)
  {
    var sorted := SortStage(SearchStage(UnownedStage(tracks, options), options), options, cmp);
    SortRowsSorted(SearchStage(UnownedStage(tracks, options), options), options.sortKey, cmp);
    match options.categoryFilter
    case AllTracks =>
    case OwnedOnly =>
      var idx := FilterSubsequence(sorted, InCategory(Owned));
      SubsequenceSorted(Filter(sorted, InCategory(Owned)), sorted, idx, options.sortKey, cmp);
    case ToBuy =>
      var idx := FilterSubsequence(sorted, InCategory(Checkout));
      SubsequenceSorted(Filter(sorted, InCategory(Checkout)), sorted, idx, options.sortKey, cmp);
  }

  /** The owned count is the number of `owned === true` rows, which is the size of the owned category. */
  lemma {:induction false} CountsMatchCategories(tracks: seq<PlaylistRow>)
    ensures SelectTrackCounts(tracks).ownedCount == |Filter(tracks, InCategory(Owned))|
    ensures SelectTrackCounts(tracks).toBuyCount == |Filter(tracks, InCategory(Checkout))|
    ensures SelectTrackCounts(tracks).toBuyCount == |Filter(tracks, NotOwned)|
  {
    if tracks != [] {
      CountsMatchCategories(tracks[1..]);
    }
  }
}
