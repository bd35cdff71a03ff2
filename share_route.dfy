/**
 * `POST /api/share`: the checks a share request passes before the snapshot
 * is stored, the clamp on its time to live, and the response.
 *
 * The parsed request body, the environment's store credentials, the fresh
 * id, the clock and the store's reply are parameters; the route's answer
 * is an `Outcome`: the response and the `SETEX` call it made, if any.
 */
module ShareRoute {
  import opened Wrappers
  import opened Text
  import opened Json
  import JsonText

  const MaxSnapshotBytes := 1 * 1024 * 1024
  const DefaultTtl := 86400
  const MinTtl := 60
  const MaxTtl := 7 * 24 * 3600
  const SnapshotSchema := "playlist_snapshot"
  const KeyPrefix := "share:"

  const SnapshotRequired := "snapshot is required"
  const SnapshotTooLarge := "snapshot too large (max 1MB)"
  const InvalidSchema := "invalid snapshot schema/version"
  const EnvMissing := "Upstash env missing: UPSTASH_REDIS_REST_URL/TOKEN"
  const UpstashErrorPrefix := "Upstash error: "
  const FailedPrefix := "failed: "
  /** The message of the `RangeError` `toISOString` throws on an invalid date. */
  const InvalidTimeValue := "Invalid time value"

  /** A JavaScript number as this route can meet it: an integer or `NaN`. */
  datatype Number = Finite(value: int) | NaN

  /** What `req.json()` gives: a value, or the message of the error it throws. */
  datatype Request = Parsed(body: Json) | Unparseable(message: string)

  /** The store's answer to the `SETEX` call. */
  datatype Upstream =
    | Stored
    | Refused(text: string)       // `resp.ok` is false; `text` is the response body
    | Unreachable(message: string) // `fetch` throws

  /** `SETEX key ttl value`, the call the route makes to the store. */
  datatype SetEx = SetEx(key: string, ttl: Number, value: string)

  datatype Response =
    | Rejected(status: nat, error: string)
    | Shared(shareId: string, expiresAt: int) // status 200; `expiresAt` in milliseconds since the epoch

  datatype Outcome = Outcome(response: Response, call: Option<SetEx>)

  function Status(r: Response): nat {
    if r.Shared? then 200 else r.status
  }

  // ---------------------------------------------------------------------------
  // JavaScript conversions
  // ---------------------------------------------------------------------------

  /** `!!v`. */
  predicate Truthy(v: Json) {
    match v
    case JUndefined => false
    case JNull => false
    case JBool(b) => b
    case JNum(n) => n != 0
    case JStr(s) => s != ""
    case _ => true
  }

  predicate AllDigits(s: string) {
    forall i :: 0 <= i < |s| ==> IsAsciiDigit(s[i])
  }

  /** The value of a string of decimal digits. */
  function DecimalValue(s: string): nat
    requires AllDigits(s)
    decreases |s|
  {
    if s == [] then 0 else DecimalValue(s[..|s| - 1]) * 10 + (s[|s| - 1] as int - '0' as int)
  }

  /** `Number(s)` on a string already trimmed: empty is 0, an optionally signed run of digits its value, anything else `NaN`. */
  function TrimmedToNumber(t: string): Number {
    if t == [] then Finite(0)
    else if AllDigits(t) then Finite(DecimalValue(t))
    else if |t| > 1 && (t[0] == '-' || t[0] == '+') && AllDigits(t[1..]) then
      Finite(if t[0] == '-' then -(DecimalValue(t[1..]) as int) else DecimalValue(t[1..]))
    else NaN
  }

  /** `Number(v)`. */
  function ToNumber(v: Json): Number {
    match v
    case JUndefined => NaN
    case JNull => Finite(0)
    case JBool(b) => Finite(if b then 1 else 0)
    case JNum(n) => Finite(n)
    case JStr(s) => TrimmedToNumber(JsTrim(s))
    case _ => NaN
  }

  /** `Math.min(Math.max(n, 60), 604800)`: `NaN` stays `NaN`. */
  function Clamp(n: Number): Number {
    match n
    case NaN => NaN
    case Finite(x) => Finite(if x < MinTtl then MinTtl else if x > MaxTtl then MaxTtl else x)
  }

  /** `Math.min(Math.max(Number(ttl_seconds ?? 86400), 60), 7 * 24 * 3600)`. */
  function Ttl(ttlSeconds: Json): Number {
    Clamp(ToNumber(if ttlSeconds.JUndefined? || ttlSeconds.JNull? then JNum(DefaultTtl) else ttlSeconds))
  }

  // ---------------------------------------------------------------------------
  // The route
  // ---------------------------------------------------------------------------

  /** The UTF-8 size of `JSON.stringify(snapshot)`. */
  function SnapshotBytes(snapshot: Json): nat {
    JsonText.Utf8Length(JsonText.Write(snapshot))
  }

  /** `snapshot?.schema === "playlist_snapshot" && snapshot?.version === 1`. */
  predicate SchemaOk(snapshot: Json) {
    Get(snapshot, "schema") == JStr(SnapshotSchema) && Get(snapshot, "version") == JNum(1)
  }

  /** The body passes the three snapshot checks. */
  predicate Acceptable(body: Json) {
    var snapshot := Get(body, "snapshot");
    Truthy(snapshot) && SnapshotBytes(snapshot) <= MaxSnapshotBytes && SchemaOk(snapshot)
  }

  /**
   * The handler. `body ?? {}` needs no case of its own: reading a property
   * of `null` through `{}` and of any non-object gives `undefined`, as `Get`
   * does. `url` and `token` are the environment's values, `""` when unset.
   */
  function Post(req: Request, url: string, token: string, id: string, now: int, upstream: Upstream): (r: Outcome)
    ensures Status(r.response) in {200, 400, 413, 500}
    ensures r.call.Some? <==> req.Parsed? && Acceptable(req.body) && url != "" && token != ""
  {
    match req
    case Unparseable(m) => Outcome(Rejected(500, FailedPrefix + m), None)
    case Parsed(body) =>
      var snapshot := Get(body, "snapshot");
      if !Truthy(snapshot) then Outcome(Rejected(400, SnapshotRequired), None)
      else if SnapshotBytes(snapshot) > MaxSnapshotBytes then Outcome(Rejected(413, SnapshotTooLarge), None)
      else if !SchemaOk(snapshot) then Outcome(Rejected(400, InvalidSchema), None)
      else
        var ttl := Ttl(Get(body, "ttl_seconds"));
        var key := KeyPrefix + id;
        if url == "" || token == "" then Outcome(Rejected(400, EnvMissing), None)
        else
          var call := Some(SetEx(key, ttl, JsonText.Write(snapshot)));
          match upstream
          case Unreachable(m) => Outcome(Rejected(500, FailedPrefix + m), call)
          case Refused(text) => Outcome(Rejected(500, UpstashErrorPrefix + text), call)
          case Stored =>
            if ttl.NaN? then Outcome(Rejected(500, FailedPrefix + InvalidTimeValue), call)
            else Outcome(Shared(id, now + ttl.value * 1000), call)
  }

  // ---------------------------------------------------------------------------
  // Properties
  // ---------------------------------------------------------------------------

  /** A falsy or missing snapshot is refused with 400, whatever else the request holds. */
  lemma MissingSnapshotRejected(body: Json, url: string, token: string, id: string, now: int, upstream: Upstream)
    requires !Truthy(Get(body, "snapshot"))
    ensures Post(Parsed(body), url, token, id, now, upstream) == Outcome(Rejected(400, SnapshotRequired), None)
  {
  }

  /** A snapshot over 1 MiB is refused with 413 before its schema is looked at. */
  lemma SizeCheckedBeforeSchema(body: Json, url: string, token: string, id: string, now: int, upstream: Upstream)
    requires Truthy(Get(body, "snapshot")) && SnapshotBytes(Get(body, "snapshot")) > MaxSnapshotBytes
    ensures Post(Parsed(body), url, token, id, now, upstream) == Outcome(Rejected(413, SnapshotTooLarge), None)
  {
  }

  /** For a present snapshot within the size limit, the schema error happens exactly when the schema or version is wrong. */
  lemma SchemaRejectedIff(body: Json, url: string, token: string, id: string, now: int, upstream: Upstream)
    requires Truthy(Get(body, "snapshot")) && SnapshotBytes(Get(body, "snapshot")) <= MaxSnapshotBytes
    ensures Post(Parsed(body), url, token, id, now, upstream).response == Rejected(400, InvalidSchema)
      <==> !SchemaOk(Get(body, "snapshot"))
  {
    if SchemaOk(Get(body, "snapshot")) {
      MessagesDiffer();
    }
  }

  /** Missing store credentials give 400, and only once every snapshot check has passed. */
  lemma CredentialsCheckedLast(req: Request, url: string, token: string, id: string, now: int, upstream: Upstream)
    ensures Post(req, url, token, id, now, upstream).response == Rejected(400, EnvMissing)
      <==> req.Parsed? && Acceptable(req.body) && (url == "" || token == "")
  {
    MessagesDiffer();
  }

  /** The store is asked to keep the serialised snapshot under `share:<id>` for the clamped time to live. */
  lemma StoreCall(body: Json, url: string, token: string, id: string, now: int, upstream: Upstream)
    requires Acceptable(body) && url != "" && token != ""
    ensures var c := Post(Parsed(body), url, token, id, now, upstream).call.value;
      && c.key == KeyPrefix + id && StartsWith(c.key, KeyPrefix)
      && c.ttl == Ttl(Get(body, "ttl_seconds"))
      && c.value == JsonText.Write(Get(body, "snapshot"))
      && JsonText.Utf8Length(c.value) <= MaxSnapshotBytes
  {
  }

  /** A store that refuses the call gives 500 with its own text. */
  lemma UpstreamRefusal(body: Json, url: string, token: string, id: string, now: int, text: string)
    requires Acceptable(body) && url != "" && token != ""
    ensures Post(Parsed(body), url, token, id, now, Refused(text)).response == Rejected(500, UpstashErrorPrefix + text)
  {
  }

  /**
   * The request succeeds exactly when every check passes, the store keeps
   * the snapshot and the time to live is a number; the response then
   * carries the id and an expiry between one minute and seven days ahead.
   */
  lemma SuccessIff(req: Request, url: string, token: string, id: string, now: int, upstream: Upstream)
    ensures var r := Post(req, url, token, id, now, upstream).response;
      r.Shared? <==>
        && req.Parsed? && Acceptable(req.body) && url != "" && token != ""
        && upstream.Stored? && Ttl(Get(req.body, "ttl_seconds")).Finite?
    ensures var r := Post(req, url, token, id, now, upstream).response;
      r.Shared? ==>
        && r.shareId == id
        && r.expiresAt == now + Ttl(Get(req.body, "ttl_seconds")).value * 1000
        && now + MinTtl * 1000 <= r.expiresAt <= now + MaxTtl * 1000
  {
    if req.Parsed? {
      TtlBounds(Get(req.body, "ttl_seconds"));
    }
  }

  /** The clamp keeps a number within 60 and 604800 seconds, leaves a value in that range as it is, and keeps `NaN`. */
  lemma TtlBounds(ttlSeconds: Json)
    ensures Ttl(ttlSeconds).Finite? ==> MinTtl <= Ttl(ttlSeconds).value <= MaxTtl
    ensures ToNumber(ttlSeconds).Finite? && MinTtl <= ToNumber(ttlSeconds).value <= MaxTtl
      ==> Ttl(ttlSeconds) == ToNumber(ttlSeconds)
    ensures ToNumber(ttlSeconds).Finite? && ToNumber(ttlSeconds).value < MinTtl && !ttlSeconds.JNull?
      ==> Ttl(ttlSeconds) == Finite(MinTtl)
    ensures ToNumber(ttlSeconds).Finite? && ToNumber(ttlSeconds).value > MaxTtl ==> Ttl(ttlSeconds) == Finite(MaxTtl)
    ensures ToNumber(ttlSeconds).NaN? && !ttlSeconds.JUndefined? ==> Ttl(ttlSeconds).NaN?
  {
  }

  /** An absent or `null` `ttl_seconds` gives one day. */
  lemma DefaultTtlIsOneDay(ttlSeconds: Json)
    requires ttlSeconds.JUndefined? || ttlSeconds.JNull?
    ensures Ttl(ttlSeconds) == Finite(24 * 3600)
  {
  }

  /** `Number` reads back the decimal text of any integer. */
  lemma NumberOfDecimal(n: int)
    ensures ToNumber(JStr(IntToString(n))) == Finite(n)
  {
    var t := IntToString(n);
    var m := if n < 0 then -n else n;
    DecimalOfNatToString(m);
    assert NoEdge(t, IsJsWhitespace) by {
      assert !IsJsWhitespace(t[|t| - 1]);
    }
    StripNoEdge(t, IsJsWhitespace);
    if n < 0 {
      assert t[1..] == NatToString(m);
      assert !AllDigits(t) by {
        assert !IsAsciiDigit(t[0]);
      }
    }
  }

  lemma {:induction false} DecimalOfNatToString(n: nat)
    ensures AllDigits(NatToString(n)) && DecimalValue(NatToString(n)) == n
  {
    var s := NatToString(n);
    if n >= 10 {
      DecimalOfNatToString(n / 10);
      assert s[..|s| - 1] == NatToString(n / 10);
    }
  }

  /** The three messages that come with status 400 are distinct. */
  lemma MessagesDiffer()
    ensures SnapshotRequired != InvalidSchema && EnvMissing != InvalidSchema && SnapshotRequired != EnvMissing
  {
    assert |SnapshotRequired| == 20 && |InvalidSchema| == 31 && |EnvMissing| == 49;
  }
}
