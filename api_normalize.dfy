/**
 * The defensive normaliser for API responses: deep removal of `null` and
 * `undefined`, and the conversion of loosely typed track objects into rows.
 */
module ApiNormalize {
  import opened Wrappers
  import opened Json
  import opened Rows

  // ---------------------------------------------------------------------------
  // stripNullsDeep
  // ---------------------------------------------------------------------------

  /**
   * `null` and `undefined` become `undefined`; arrays lose the elements that
   * strip to `undefined`, objects lose such entries; anything else is kept.
   */
  function StripNulls(v: Json): Json
    decreases v, 1
  {
    match v
    case JUndefined => JUndefined
    case JNull => JUndefined
    case JArr(items) => JArr(StripItems(items, v))
    case JObj(fields) => JObj(StripFields(fields, v))
    case _ => v
  }

  /** The stripped elements of `items` (a prefix of `parent`'s) that are not `undefined`, in order. */
  function StripItems(items: seq<Json>, parent: Json): seq<Json>
    requires parent.JArr? && items <= parent.items
    decreases parent, 0, |items|
  {
    if items == [] then []
    else
      var rest := StripItems(items[..|items| - 1], parent);
      var x := StripNulls(items[|items| - 1]);
      if x == JUndefined then rest else rest + [x]
  }

  /** The entries of `fields` (a prefix of `parent`'s) whose stripped value is not `undefined`, in order. */
  function StripFields(fields: seq<(string, Json)>, parent: Json): seq<(string, Json)>
    requires parent.JObj? && fields <= parent.fields
    decreases parent, 0, |fields|
  {
    if fields == [] then []
    else
      var rest := StripFields(fields[..|fields| - 1], parent);
      var x := StripNulls(fields[|fields| - 1].1);
      if x == JUndefined then rest else rest + [(fields[|fields| - 1].0, x)]
  }

  /**
   * `stripNullsDeep`: arrays are mapped and filtered, objects are rebuilt
   * entry by entry into a fresh record.
   */
  method StripNullsDeep(input: Json) returns (r: Json)
    ensures r == StripNulls(input)
    decreases input
  {
    if input.JNull? || input.JUndefined? {
      return JUndefined;
    }
    if input.JArr? {
      var items := input.items;
      var out: seq<Json> := [];
      for k := 0 to |items|
        invariant out == StripItems(items[..k], input)
      {
        assert items[..k + 1][..k] == items[..k];
        var v := StripNullsDeep(items[k]);
        if v != JUndefined {
          out := out + [v];
        }
      }
      assert items[..|items|] == items;
      return JArr(out);
    }
    if input.JObj? {
      var fields := input.fields;
      var out: seq<(string, Json)> := [];
      for k := 0 to |fields|
        invariant out == StripFields(fields[..k], input)
      {
        assert fields[..k + 1][..k] == fields[..k];
        var v := StripNullsDeep(fields[k].1);
        if v != JUndefined {
          out := out + [(fields[k].0, v)];
        }
      }
      assert fields[..|fields|] == fields;
      return JObj(out);
    }
    return input;
  }

  /** `normalizeMeta`: the metadata with every `null` removed. */
  function NormalizeMeta(meta: Json): Json {
    StripNulls(meta)
  }

  /** The keys of an object's entries. */
  function Keys(fields: seq<(string, Json)>): set<string> {
    set i | 0 <= i < |fields| :: fields[i].0
  }

  lemma {:induction false} StripItemsShape(items: seq<Json>, parent: Json)
    requires parent.JArr? && items <= parent.items
    ensures |StripItems(items, parent)| <= |items|
    ensures forall i :: 0 <= i < |StripItems(items, parent)| ==>
      StripItems(items, parent)[i] != JUndefined
      && exists j :: 0 <= j < |items| && StripItems(items, parent)[i] == StripNulls(items[j])
    decreases |items|
  {
    if items != [] {
      StripItemsShape(items[..|items| - 1], parent);
      var rest := StripItems(items[..|items| - 1], parent);
      forall i | 0 <= i < |rest|
        ensures exists j :: 0 <= j < |items| && rest[i] == StripNulls(items[j])
      {
        var j :| 0 <= j < |items| - 1 && rest[i] == StripNulls(items[..|items| - 1][j]);
        assert items[..|items| - 1][j] == items[j];
      }
    }
  }

  lemma {:induction false} StripFieldsShape(fields: seq<(string, Json)>, parent: Json)
    requires parent.JObj? && fields <= parent.fields
    ensures Keys(StripFields(fields, parent)) <= Keys(fields)
    ensures forall i :: 0 <= i < |StripFields(fields, parent)| ==>
      StripFields(fields, parent)[i].1 != JUndefined
      && exists j :: 0 <= j < |fields| && StripFields(fields, parent)[i].1 == StripNulls(fields[j].1)
    decreases |fields|
  {
    if fields != [] {
      var init := fields[..|fields| - 1];
      StripFieldsShape(init, parent);
      var rest := StripFields(init, parent);
      assert Keys(init) <= Keys(fields) by {
        forall k | k in Keys(init) ensures k in Keys(fields) {
          var j :| 0 <= j < |init| && init[j].0 == k;
          assert fields[j].0 == k;
        }
      }
      forall i | 0 <= i < |rest|
        ensures exists j :: 0 <= j < |fields| && rest[i].1 == StripNulls(fields[j].1)
      {
        var j :| 0 <= j < |init| && rest[i].1 == StripNulls(init[j].1);
        assert init[j] == fields[j];
      }
      var last := fields[|fields| - 1];
      assert last.0 in Keys(fields);
    }
  }

  /** Stripping gives `undefined` exactly for `null` and `undefined`; anything else comes back free of them at every depth. */
  lemma {:induction false} StripNullsNullFree(v: Json)
    ensures StripNulls(v) == JUndefined <==> v.JNull? || v.JUndefined?
    ensures !(v.JNull? || v.JUndefined?) ==> NullFree(StripNulls(v))
    decreases v
  {
    match v
    case JArr(items) =>
      StripItemsShape(items, v);
      var out := StripItems(items, v);
      forall i | 0 <= i < |out| ensures NullFree(out[i]) {
        var j :| 0 <= j < |items| && out[i] == StripNulls(items[j]);
        StripNullsNullFree(items[j]);
      }
    case JObj(fields) =>
      StripFieldsShape(fields, v);
      var out := StripFields(fields, v);
      forall i | 0 <= i < |out| ensures NullFree(out[i].1) {
        var j :| 0 <= j < |fields| && out[i].1 == StripNulls(fields[j].1);
        StripNullsNullFree(fields[j].1);
      }
    case _ =>
  }

  lemma {:induction false} StripItemsOfNullFree(items: seq<Json>, parent: Json)
    requires parent.JArr? && items <= parent.items
    requires forall i :: 0 <= i < |items| ==> NullFree(items[i])
    ensures StripItems(items, parent) == items
    decreases parent, 0, |items|
  {
    if items != [] {
      StripItemsOfNullFree(items[..|items| - 1], parent);
      StripNullsFixpoint(items[|items| - 1]);
      assert items[..|items| - 1] + [items[|items| - 1]] == items;
    }
  }

  lemma {:induction false} StripFieldsOfNullFree(fields: seq<(string, Json)>, parent: Json)
    requires parent.JObj? && fields <= parent.fields
    requires forall i :: 0 <= i < |fields| ==> NullFree(fields[i].1)
    ensures StripFields(fields, parent) == fields
    decreases parent, 0, |fields|
  {
    if fields != [] {
      var last := fields[|fields| - 1];
      StripFieldsOfNullFree(fields[..|fields| - 1], parent);
      StripNullsFixpoint(last.1);
      assert (last.0, last.1) == last;
      assert fields[..|fields| - 1] + [last] == fields;
    }
  }

  /** A value already free of `null` and `undefined` is returned as it is; in particular primitives pass through. */
  lemma {:induction false} StripNullsFixpoint(v: Json)
    requires NullFree(v)
    ensures StripNulls(v) == v
    decreases v, 1
  {
    match v
    case JArr(items) => StripItemsOfNullFree(items, v);
    case JObj(fields) => StripFieldsOfNullFree(fields, v);
    case _ =>
  }

  /** Stripping twice is stripping once. */
  lemma StripNullsIdempotent(v: Json)
    ensures StripNulls(StripNulls(v)) == StripNulls(v)
  {
    StripNullsNullFree(v);
    if !(v.JNull? || v.JUndefined?) {
      StripNullsFixpoint(StripNulls(v));
    }
  }

  /** An array never grows and an object gains no keys. */
  lemma StripNullsShrinks(v: Json)
    ensures v.JArr? ==> StripNulls(v).JArr? && |StripNulls(v).items| <= |v.items|
    ensures v.JObj? ==> StripNulls(v).JObj? && Keys(StripNulls(v).fields) <= Keys(v.fields)
  {
    if v.JArr? {
      StripItemsShape(v.items, v);
    } else if v.JObj? {
      StripFieldsShape(v.fields, v);
    }
  }

  // ---------------------------------------------------------------------------
  // Tracks
  // ---------------------------------------------------------------------------

  /** The three store links, each "" when missing or not a string. */
  datatype Links = Links(beatport: string, bandcamp: string, itunes: string)

  const NoLinks := Links("", "", "")

  /** `getLinks`. */
  function GetLinks(v: Json): Links {
    if !IsRecord(v) then NoLinks
    else Links(
      AsString(Get(v, "beatport")).GetOr(""),
      AsString(Get(v, "bandcamp")).GetOr(""),
      AsString(Get(v, "itunes")).GetOr(""))
  }

  function AsStores(l: Links): StoreLinks {
    StoreLinks(Some(l.beatport), Some(l.bandcamp), Some(l.itunes), None, None)
  }

  /** `normalizeTrack(t, index)`. */
  function NormalizeTrack(t: Json, index: int): PlaylistRow {
    var links := if IsRecord(Get(t, "links")) then GetLinks(Get(t, "links")) else NoLinks;
    var primaryType := if AsString(Get(t, "track_key_primary_type")) == Some("isrc") then IsrcKey else NormKey;
    PlaylistRow(
      index,
      AsString(Get(t, "title")).GetOr(""),
      AsString(Get(t, "artist")).GetOr(""),
      AsString(Get(t, "album")).GetOr(""),
      AsString(Get(t, "isrc")),
      Some(AsString(Get(t, "spotify_url")).GetOr("")),
      AsString(Get(t, "apple_url")),
      AsStores(links),
      Some(AsBool(Get(t, "owned")).GetOr(false)),
      AsString(Get(t, "owned_reason")),
      AsString(Get(t, "track_key_primary")),
      AsString(Get(t, "track_key_fallback")),
      Some(primaryType))
  }

  /** The elements that are objects or arrays, in order. */
  function Records(items: seq<Json>): seq<Json> {
    if items == [] then []
    else (if IsRecord(items[0]) then [items[0]] else []) + Records(items[1..])
  }

  /** `normalizeTracks`: the record entries of `input.tracks`, numbered from 1. */
  function NormalizeTracks(input: Json): seq<PlaylistRow> {
    if !IsRecord(input) then []
    else
      var tracks := Get(input, "tracks");
      if !tracks.JArr? then []
      else
        var recs := Records(tracks.items);
        seq(|recs|, i requires 0 <= i < |recs| => NormalizeTrack(recs[i], i + 1))
  }

  /**
   * Links are always three strings, all "" for a value that is not an object
   * or array; each link is the string stored under its key, and "" exactly
   * when that key does not hold a non-empty string.
   */
  lemma GetLinksDefaults(v: Json)
    ensures !IsRecord(v) ==> GetLinks(v) == Links("", "", "")
    ensures GetLinks(v).beatport == "" <==> !(Get(v, "beatport").JStr? && Get(v, "beatport").s != "")
    ensures GetLinks(v).bandcamp == "" <==> !(Get(v, "bandcamp").JStr? && Get(v, "bandcamp").s != "")
    ensures GetLinks(v).itunes == "" <==> !(Get(v, "itunes").JStr? && Get(v, "itunes").s != "")
    ensures Get(v, "beatport").JStr? ==> GetLinks(v).beatport == Get(v, "beatport").s
    ensures Get(v, "bandcamp").JStr? ==> GetLinks(v).bandcamp == Get(v, "bandcamp").s
    ensures Get(v, "itunes").JStr? ==> GetLinks(v).itunes == Get(v, "itunes").s
  {
  }

  /**
   * The defaults of a row: text fields fall back to "", `owned` to false
   * unless it is a boolean, and the key type is `isrc` only for that exact string.
   */
  lemma NormalizeTrackDefaults(t: Json, index: int)
    ensures var row := NormalizeTrack(t, index);
      && row.index == index
      && (row.title == "" <==> !(Get(t, "title").JStr? && Get(t, "title").s != ""))
      && (row.artist == "" <==> !(Get(t, "artist").JStr? && Get(t, "artist").s != ""))
      && (row.album == "" <==> !(Get(t, "album").JStr? && Get(t, "album").s != ""))
      && (row.spotifyUrl == Some("") <==> !(Get(t, "spotify_url").JStr? && Get(t, "spotify_url").s != ""))
      && (row.owned == Some(true) <==> Get(t, "owned") == JBool(true))
      && (row.trackKeyPrimaryType == Some(IsrcKey) <==> Get(t, "track_key_primary_type") == JStr("isrc"))
  {
  }

  lemma {:induction false} RecordsMembers(items: seq<Json>, x: Json)
    ensures x in Records(items) <==> x in items && IsRecord(x)
  {
    if items != [] {
      RecordsMembers(items[1..], x);
      assert items == [items[0]] + items[1..];
    }
  }

  /**
   * No tracks unless the input is a record whose `tracks` is an array;
   * otherwise one row per record entry, in order, numbered 1..n.
   */
  lemma NormalizeTracksShape(input: Json)
    ensures !IsRecord(input) || !Get(input, "tracks").JArr? ==> NormalizeTracks(input) == []
    ensures IsRecord(input) && Get(input, "tracks").JArr? ==>
      var recs := Records(Get(input, "tracks").items);
      && |NormalizeTracks(input)| == |recs|
      && forall i :: 0 <= i < |recs| ==>
           NormalizeTracks(input)[i].index == i + 1 && NormalizeTracks(input)[i] == NormalizeTrack(recs[i], i + 1)
  {
  }
}
