/**
 * The AI advisor endpoint: the per-key daily rate limiter held in memory,
 * and the checks the route makes before it spends any quota. The clock
 * (now and the coming midnight) and the completion service are passed in.
 */
module AiChat {
  import W = Wrappers
  import opened Models
  import opened LicenseUtils
  import opened LicenseStore

  const FreeDailyLimit: int := 10
  const ProDailyLimit: int := 100

  /** The limiter key, `<license_key>:<device_id>`. */
  function RateLimitKey(licenseKey: string, deviceId: string): (k: string)
    ensures |k| == |licenseKey| + 1 + |deviceId| && k[..|licenseKey|] == licenseKey && k[|licenseKey|] == ':'
  {
    licenseKey + ":" + deviceId
  }

  /** A licence key without ':' determines its device from the limiter key, and back. */
  lemma RateLimitKeyInjective(k1: string, d1: string, k2: string, d2: string)
    requires ':' !in k1 && ':' !in k2
    ensures RateLimitKey(k1, d1) == RateLimitKey(k2, d2) <==> k1 == k2 && d1 == d2
  {
    if RateLimitKey(k1, d1) == RateLimitKey(k2, d2) {
      var key := RateLimitKey(k1, d1);
      assert k1 == key[..|k1|] == k2;
      assert d1 == key[|k1| + 1..] == d2;
    }
  }

  function DailyLimit(tier: Tier): (n: int)
    ensures tier == Free <==> n == FreeDailyLimit
    ensures tier != Free <==> n == ProDailyLimit
  {
    if tier == Free then FreeDailyLimit else ProDailyLimit
  }

  // ---------- The limiter ----------

  datatype RateRecord = RateRecord(count: nat, resetAt: int)

  datatype RateDecision = RateDecision(allowed: bool, remaining: int, resetAt: int)

  function Get(m: map<string, RateRecord>, key: string): W.Option<RateRecord> {
    if key in m then W.Some(m[key]) else W.None
  }

  /** The record a call works on: a missing or elapsed one is replaced by a fresh window ending at midnight. */
  function Window(rec: W.Option<RateRecord>, now: int, midnight: int): (w: RateRecord)
    ensures rec.None? || now > rec.value.resetAt ==> w == RateRecord(0, midnight)
    ensures rec.Some? && now <= rec.value.resetAt ==> w == rec.value
  {
    if rec.None? || now > rec.value.resetAt then RateRecord(0, midnight) else rec.value
  }

  function Max(a: int, b: int): int { if a >= b then a else b }

  /** `checkRateLimit`'s answer. */
  function Decide(rec: W.Option<RateRecord>, limit: int, now: int, midnight: int): RateDecision {
    var w := Window(rec, now, midnight);
    var remaining := Max(0, limit - w.count);
    if w.count >= limit then RateDecision(false, 0, w.resetAt) else RateDecision(true, remaining - 1, w.resetAt)
  }

  /** The stored record after the call: a refusal stores nothing, an allowed call one more. */
  function After(rec: W.Option<RateRecord>, limit: int, now: int, midnight: int): W.Option<RateRecord> {
    var w := Window(rec, now, midnight);
    if w.count >= limit then rec else W.Some(w.(count := w.count + 1))
  }

  /**
   * Refused exactly when the window's count has reached the limit, with
   * nothing remaining and nothing stored; otherwise the count grows by one
   * and what remains is the limit less the new count.
   */
  lemma DecideMeaning(rec: W.Option<RateRecord>, limit: int, now: int, midnight: int)
    ensures var w := Window(rec, now, midnight); var d := Decide(rec, limit, now, midnight);
      (!d.allowed <==> w.count >= limit)
      && (!d.allowed ==> d.remaining == 0 && After(rec, limit, now, midnight) == rec)
      && (d.allowed ==>
            After(rec, limit, now, midnight) == W.Some(RateRecord(w.count + 1, w.resetAt))
            && d.remaining == limit - (w.count + 1) >= 0)
      && d.resetAt == w.resetAt
  {
  }

  /** The number of calls allowed in a run of calls at the given instants. */
  function AllowedCalls(rec: W.Option<RateRecord>, limit: int, times: seq<int>, midnight: int): nat
    decreases |times|
  {
    if times == [] then 0
    else
      (if Decide(rec, limit, times[0], midnight).allowed then 1 else 0)
      + AllowedCalls(After(rec, limit, times[0], midnight), limit, times[1..], midnight)
  }

  /** Within one window at most the limit less what was already counted is allowed. */
  lemma {:induction false} AtMostLimit(r: RateRecord, limit: int, times: seq<int>, midnight: int)
    requires forall t :: t in times ==> t <= r.resetAt
    ensures AllowedCalls(W.Some(r), limit, times, midnight) <= Max(0, limit - r.count)
    decreases |times|
  {
    if times != [] {
      var next := After(W.Some(r), limit, times[0], midnight);
      assert times[0] in times;
      assert forall t :: t in times[1..] ==> t in times;
      if r.count < limit {
        assert next == W.Some(r.(count := r.count + 1));
        AtMostLimit(r.(count := r.count + 1), limit, times[1..], midnight);
      } else {
        AtMostLimit(r, limit, times[1..], midnight);
      }
    }
  }

  /** A fresh window allows at most `limit` calls before midnight. */
  lemma FreshWindowLimit(limit: int, times: seq<int>, midnight: int)
    requires forall t :: t in times ==> t <= midnight
    ensures AllowedCalls(W.Some(RateRecord(0, midnight)), limit, times, midnight) <= Max(0, limit)
  {
    AtMostLimit(RateRecord(0, midnight), limit, times, midnight);
  }

  class RateLimiter {
    var records: map<string, RateRecord>

    constructor()
      ensures records == map[]
    {
      records := map[];
    }

    /** `checkRateLimit`: answers for the key and stores the record only when the call is allowed. */
    method CheckRateLimit(key: string, limit: int, now: int, midnight: int) returns (d: RateDecision)
      modifies this
      ensures d == Decide(Get(old(records), key), limit, now, midnight)
      ensures var a := After(Get(old(records), key), limit, now, midnight);
        records == if a.Some? then old(records)[key := a.value] else old(records)
      ensures !d.allowed ==> records == old(records)
    {
      var rec := Get(records, key);
      var w := Window(rec, now, midnight);
      var remaining := Max(0, limit - w.count);
      if w.count >= limit {
        return RateDecision(false, 0, w.resetAt);
      }
      var updated := w.(count := w.count + 1);
      records := records[key := updated];
      d := RateDecision(true, remaining - 1, w.resetAt);
    }
  }

  // ---------- The route ----------

  /** Missing question or context is the empty string and false. */
  datatype ChatRequest = ChatRequest(licenseKey: string, deviceId: string, question: string, hasContext: bool)

  datatype ChatReply =
    | Rejected(status: int, error: string)
    | LimitReached(limit: int, remaining: int, resetAt: int)
    | Answer(response: string, remaining: int, limit: int, resetAt: int)

  /** The checks before the quota, in order: fields (400), licence (403), device (403). */
  function Gate(req: ChatRequest, found: W.Option<License>, devices: set<string>, now: int): W.Option<ChatReply> {
    if req.licenseKey == "" || req.deviceId == "" || req.question == "" || !req.hasContext then
      W.Some(Rejected(400, "Missing required fields: license_key, device_id, question, context"))
    else if found.None? || !IsLicenseValid(found.value.status, found.value.expiresAt, now) then
      W.Some(Rejected(403, "Invalid or expired license"))
    else if req.deviceId !in devices then
      W.Some(Rejected(403, "Device not activated for this license"))
    else W.None
  }

  /** Only a complete request for a valid licence on an activated device reaches the quota. */
  lemma GateMeaning(req: ChatRequest, found: W.Option<License>, devices: set<string>, now: int)
    ensures Gate(req, found, devices, now).None? <==>
      req.licenseKey != "" && req.deviceId != "" && req.question != "" && req.hasContext
      && found.Some? && IsLicenseValid(found.value.status, found.value.expiresAt, now) && req.deviceId in devices
    ensures Gate(req, found, devices, now).Some? ==>
              Gate(req, found, devices, now).value.Rejected? && Gate(req, found, devices, now).value.status in {400, 403}
  {
  }

  const NoAnswer: string := "Sorry, I couldn't generate a response."

  /**
   * The chat route. Rejections before the quota leave the limiter as it was;
   * a reached limit is a 429 and stores nothing; an allowed call spends one
   * unit even when the completion service then fails (502).
   */
  method Chat(store: Store, limiter: RateLimiter, req: ChatRequest, now: int, midnight: int, completion: W.Result<string, string>)
    returns (r: ChatReply)
    modifies limiter
    ensures var found := store.LicenseByKey(req.licenseKey);
      var gate := Gate(req, found, if found.Some? then store.Devices(found.value.id) else {}, now);
      if gate.Some? then r == gate.value && limiter.records == old(limiter.records)
      else
        var limit := DailyLimit(found.value.tier);
        var key := RateLimitKey(req.licenseKey, req.deviceId);
        var d := Decide(Get(old(limiter.records), key), limit, now, midnight);
        (!d.allowed ==> r == LimitReached(limit, d.remaining, d.resetAt) && limiter.records == old(limiter.records))
        && (d.allowed ==>
              limiter.records == old(limiter.records)[key := After(Get(old(limiter.records), key), limit, now, midnight).value]
              && r == match completion
                case Err(m) => Rejected(502, "AI service error: " + m)
                case Ok(text) => Answer(if text == "" then NoAnswer else text, d.remaining, limit, d.resetAt))
  {
    var found := store.LicenseByKey(req.licenseKey);
    var gate := Gate(req, found, if found.Some? then store.Devices(found.value.id) else {}, now);
    if gate.Some? {
      return gate.value;
    }
    var limit := DailyLimit(found.value.tier);
    var key := RateLimitKey(req.licenseKey, req.deviceId);
    var d := limiter.CheckRateLimit(key, limit, now, midnight);
    if !d.allowed {
      return LimitReached(limit, d.remaining, d.resetAt);
    }
    match completion
    case Err(m) =>
      r := Rejected(502, "AI service error: " + m);
    case Ok(text) =>
      r := Answer(if text == "" then NoAnswer else text, d.remaining, limit, d.resetAt);
  }
}
