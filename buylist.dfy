/**
 * The browser-side buylist store: one snapshot of purchase states per
 * playlist, keyed by playlist id, and the record counting today's Apple
 * lookups. The two object stores are the fields `buylists` and `apple`;
 * the clock (`Date.now()`) and the next reset time (`getNextResetTime()`)
 * are parameters.
 */
module Buylist {
  import opened Wrappers
  import opened Rows

  datatype PurchaseState = Need | Bought | Skipped | Ambiguous
  datatype StoreSelected = BeatportStore | ITunesStore | BandcampStore

  datatype TrackState = TrackState(
    trackKeyPrimary: string,
    trackKeyFallback: string,
    trackKeyPrimaryType: KeyType,
    title: string,
    artist: string,
    purchaseState: PurchaseState,
    storeSelected: StoreSelected,
    notes: Option<string>,
    updatedAt: int)

  /** `Partial<TrackState>`: a `Some` field overrides the stored one. */
  datatype TrackUpdate = TrackUpdate(
    trackKeyPrimary: Option<string>,
    trackKeyFallback: Option<string>,
    trackKeyPrimaryType: Option<KeyType>,
    title: Option<string>,
    artist: Option<string>,
    purchaseState: Option<PurchaseState>,
    storeSelected: Option<StoreSelected>,
    notes: Option<string>)

  datatype BuylistSnapshot = BuylistSnapshot(
    playlistId: string,
    playlistUrl: string,
    playlistName: string,
    tracks: seq<TrackState>,
    createdAt: int,
    updatedAt: int)

  datatype RateLimitState = RateLimitState(appleRequestsToday: int, appleResetAt: int)

  /** `findIndex` by primary key: the first match. */
  function FindTrack(tracks: seq<TrackState>, key: string): (r: Option<nat>)
    ensures r.Some? ==> r.value < |tracks| && tracks[r.value].trackKeyPrimary == key
    ensures r.Some? ==> forall j :: 0 <= j < r.value ==> tracks[j].trackKeyPrimary != key
    ensures r.None? ==> forall j :: 0 <= j < |tracks| ==> tracks[j].trackKeyPrimary != key
  {
    if tracks == [] then None
    else if tracks[0].trackKeyPrimary == key then Some(0)
    else match FindTrack(tracks[1..], key)
      case None => None
      case Some(i) => Some(i + 1)
  }

  /** Position `i` holds the first track with that key. */
  predicate FirstWithKey(tracks: seq<TrackState>, key: string, i: int)
    requires 0 <= i < |tracks|
  {
    tracks[i].trackKeyPrimary == key && forall j :: 0 <= j < i ==> tracks[j].trackKeyPrimary != key
  }

  /** `{ ...t, ...updates, updatedAt: now }`. */
  function MergeTrack(t: TrackState, u: TrackUpdate, now: int): TrackState {
    TrackState(
      u.trackKeyPrimary.GetOr(t.trackKeyPrimary),
      u.trackKeyFallback.GetOr(t.trackKeyFallback),
      u.trackKeyPrimaryType.GetOr(t.trackKeyPrimaryType),
      u.title.GetOr(t.title),
      u.artist.GetOr(t.artist),
      u.purchaseState.GetOr(t.purchaseState),
      u.storeSelected.GetOr(t.storeSelected),
      if u.notes.Some? then u.notes else t.notes,
      now)
  }

  /**
   * The rate-limit record as `getRateLimitState` reports it: a stored reset
   * time of 0 counts as absent; once `now` reaches the reset time the count
   * starts again at 0.
   */
  function RateLimitView(data: Option<RateLimitState>, now: int, nextReset: int): RateLimitState {
    var resetAt := if data.Some? && data.value.appleResetAt != 0 then data.value.appleResetAt else nextReset;
    if now >= resetAt then RateLimitState(0, nextReset)
    else if data.Some? then data.value
    else RateLimitState(0, resetAt)
  }

  /** The record `incrementAppleRequest` writes. */
  function Incremented(data: Option<RateLimitState>, now: int, nextReset: int): RateLimitState {
    var current := RateLimitView(data, now, nextReset);
    RateLimitState(current.appleRequestsToday + 1, current.appleResetAt)
  }

  class BuylistStore {
    /** The `buylists` object store, keyed by `playlistId`. */
    var buylists: map<string, BuylistSnapshot>
    /** The `apple` record of the `ratelimit` object store. */
    var apple: Option<RateLimitState>

    /** Every snapshot sits under its own playlist id. */
    predicate Valid()
      reads this
    {
      forall id :: id in buylists ==> buylists[id].playlistId == id
    }

    constructor()
      ensures buylists == map[] && apple == None && Valid()
    {
      buylists := map[];
      apple := None;
    }

    /** `saveBuylist`: stores the snapshot under its id, stamped with `now`, replacing any earlier one. */
    method SaveBuylist(snapshot: BuylistSnapshot, now: int)
      requires Valid()
      modifies this`buylists
      ensures Valid()
      ensures buylists == old(buylists)[snapshot.playlistId := snapshot.(updatedAt := now)]
    {
      buylists := buylists[snapshot.playlistId := snapshot.(updatedAt := now)];
    }

    /** `getBuylist`: the stored snapshot, or null. */
    method GetBuylist(playlistId: string) returns (r: Option<BuylistSnapshot>)
      requires Valid()
      ensures r.Some? <==> playlistId in buylists
      ensures r.Some? ==> r.value == buylists[playlistId] && r.value.playlistId == playlistId
    {
      if playlistId in buylists {
        r := Some(buylists[playlistId]);
      } else {
        r := None;
      }
    }

    /**
     * `updateTrackState`: nothing happens for an unknown playlist or key;
     * otherwise the first track with that key is merged with the updates
     * and stamped, and the snapshot is saved again, which stamps it too.
     */
    method UpdateTrackState(playlistId: string, key: string, updates: TrackUpdate, now: int)
      requires Valid()
      modifies this`buylists
      ensures Valid()
      ensures playlistId !in old(buylists) ==> buylists == old(buylists)
      ensures playlistId in old(buylists) && FindTrack(old(buylists)[playlistId].tracks, key).None? ==>
        buylists == old(buylists)
      ensures playlistId in old(buylists) && FindTrack(old(buylists)[playlistId].tracks, key).Some? ==>
        var snap := old(buylists)[playlistId];
        var i := FindTrack(snap.tracks, key).value;
        buylists == old(buylists)[playlistId :=
          snap.(tracks := snap.tracks[i := MergeTrack(snap.tracks[i], updates, now)], updatedAt := now)]
    {
      var snapshot := GetBuylist(playlistId);
      if snapshot.None? {
        return;
      }
      var snap := snapshot.value;
      var idx := FindTrack(snap.tracks, key);
      if idx.None? {
        return;
      }
      var i := idx.value;
      snap := snap.(tracks := snap.tracks[i := MergeTrack(snap.tracks[i], updates, now)]);
      SaveBuylist(snap, now);
    }

    /** `getTrackState`: the first track with that key, or null. */
    method GetTrackState(playlistId: string, key: string) returns (r: Option<TrackState>)
      requires Valid()
      ensures r.Some? ==> playlistId in buylists && r.value in buylists[playlistId].tracks && r.value.trackKeyPrimary == key
      ensures r.None? <==> playlistId !in buylists || forall t :: t in buylists[playlistId].tracks ==> t.trackKeyPrimary != key
      ensures r.Some? ==> exists i :: 0 <= i < |buylists[playlistId].tracks| && FirstWithKey(buylists[playlistId].tracks, key, i) && buylists[playlistId].tracks[i] == r.value
    {
      var snapshot := GetBuylist(playlistId);
      if snapshot.None? {
        return None;
      }
      var idx := FindTrack(snapshot.value.tracks, key);
      if idx.None? {
        return None;
      }
      r := Some(snapshot.value.tracks[idx.value]);
    }

    /** `getRateLimitState`. */
    method GetRateLimitState(now: int, nextReset: int) returns (r: RateLimitState)
      ensures r == RateLimitView(apple, now, nextReset)
    {
      var resetAt := if apple.Some? && apple.value.appleResetAt != 0 then apple.value.appleResetAt else nextReset;
      if now >= resetAt {
        return RateLimitState(0, nextReset);
      }
      r := if apple.Some? then apple.value else RateLimitState(0, resetAt);
    }

    /** `incrementAppleRequest`: one more request against the current reset time. */
    method IncrementAppleRequest(now: int, nextReset: int) returns (updated: RateLimitState)
      modifies this`apple
      ensures updated == Incremented(old(apple), now, nextReset)
      ensures apple == Some(updated)
    {
      var current := GetRateLimitState(now, nextReset);
      updated := RateLimitState(current.appleRequestsToday + 1, current.appleResetAt);
      apple := Some(updated);
    }

    /** `resetAppleRequest`: a count of 0 until the next reset. */
    method ResetAppleRequest(nextReset: int)
      modifies this`apple
      ensures apple == Some(RateLimitState(0, nextReset))
    {
      apple := Some(RateLimitState(0, nextReset));
    }

    /** `getAllBuylists`: every stored snapshot. */
    method GetAllBuylists() returns (r: set<BuylistSnapshot>)
      requires Valid()
      ensures forall s :: s in r <==> s.playlistId in buylists && buylists[s.playlistId] == s
    {
      r := set id | id in buylists :: buylists[id];
    }

    /** `deleteBuylist`: removes that playlist's snapshot and no other. */
    method DeleteBuylist(playlistId: string)
      requires Valid()
      modifies this`buylists
      ensures Valid()
      ensures buylists == old(buylists) - {playlistId}
    {
      buylists := buylists - {playlistId};
    }
  }

  // ---------------------------------------------------------------------------
  // Properties
  // ---------------------------------------------------------------------------

  /**
   * A merged track takes every given field from the updates, keeps every
   * other field, and carries the new time stamp.
   */
  lemma MergeTrackFacts(t: TrackState, u: TrackUpdate, now: int)
    ensures var m := MergeTrack(t, u, now);
      && m.updatedAt == now
      && (u.purchaseState.Some? ==> m.purchaseState == u.purchaseState.value)
      && (u.purchaseState.None? ==> m.purchaseState == t.purchaseState)
      && (u.storeSelected.Some? ==> m.storeSelected == u.storeSelected.value)
      && (u.storeSelected.None? ==> m.storeSelected == t.storeSelected)
      && (u.notes.None? ==> m.notes == t.notes)
      && (u == TrackUpdate(None, None, None, None, None, None, None, None) ==> m == t.(updatedAt := now))
  {
  }

  /**
   * Updating a track keeps the snapshot's track count and every track
   * other than the first one with the key.
   */
  lemma UpdateKeepsOthers(snap: BuylistSnapshot, key: string, u: TrackUpdate, now: int)
    requires FindTrack(snap.tracks, key).Some?
    ensures var i := FindTrack(snap.tracks, key).value;
      var tracks := snap.tracks[i := MergeTrack(snap.tracks[i], u, now)];
      && |tracks| == |snap.tracks|
      && (forall j :: 0 <= j < |tracks| && j != i ==> tracks[j] == snap.tracks[j])
      && (forall j :: 0 <= j < i ==> tracks[j].trackKeyPrimary != key)
      && tracks[i].updatedAt == now
  {
  }

  /**
   * The reported count is 0 once the reset time has passed, or when
   * nothing is stored; otherwise it is the stored record.
   */
  lemma RateLimitViewFacts(data: Option<RateLimitState>, now: int, nextReset: int)
    ensures var resetAt := if data.Some? && data.value.appleResetAt != 0 then data.value.appleResetAt else nextReset;
      && (now >= resetAt ==> RateLimitView(data, now, nextReset) == RateLimitState(0, nextReset))
      && (now < resetAt && data.Some? ==> RateLimitView(data, now, nextReset) == data.value)
      && (now < resetAt && data.None? ==> RateLimitView(data, now, nextReset) == RateLimitState(0, nextReset))
    ensures now < nextReset ==> now < RateLimitView(data, now, nextReset).appleResetAt || RateLimitView(data, now, nextReset).appleResetAt == 0
  {
  }

  /**
   * Before the reset time (which `getNextResetTime` always puts in the
   * future) every increment is seen by the next read: the count goes up by
   * exactly one and the reset time stays.
   */
  lemma IncrementCounts(data: Option<RateLimitState>, now: int, nextReset: int)
    requires now < nextReset
    ensures RateLimitView(Some(Incremented(data, now, nextReset)), now, nextReset) == Incremented(data, now, nextReset)
    ensures Incremented(data, now, nextReset).appleRequestsToday == RateLimitView(data, now, nextReset).appleRequestsToday + 1
    ensures Incremented(data, now, nextReset).appleResetAt == RateLimitView(data, now, nextReset).appleResetAt
  {
  }

  /** After a reset the count reads 0 until the reset time. */
  lemma ResetReadsZero(now: int, nextReset: int)
    ensures RateLimitView(Some(RateLimitState(0, nextReset)), now, nextReset).appleRequestsToday == 0
  {
  }

  /** Two increments in a row before the reset time count two. */
  lemma TwoIncrementsCountTwo(data: Option<RateLimitState>, now: int, nextReset: int)
    requires now < nextReset
    ensures Incremented(Some(Incremented(data, now, nextReset)), now, nextReset).appleRequestsToday ==
      RateLimitView(data, now, nextReset).appleRequestsToday + 2
  {
    IncrementCounts(data, now, nextReset);
  }
}
