/** The standalone serverless identify endpoint (api/identify.js): its own CORS
    headers, the POST-only rule, a daily scan quota kept in a module-level map
    `dailyScansStore`, the request checks, and the replies for each outcome of the
    call to the vision model. The model call itself is an outcome passed in; the
    clock gives `today` and the reset time `midnight`. */
module IdentifyApi {
  import opened Text
  import opened Quota
  import opened Validation
  import ClientIp
  import Cors
  import ServerLimits

  const ProductionOrigin: string := "https://ok-snap-repo.vercel.app"
  const IdentifierOrigin: string := "https://ok-snap-identifier.vercel.app"

  /** The endpoint's fixed list of allowed origins. */
  const IdentifyOrigins: seq<string> := [IdentifierOrigin, ProductionOrigin] + Cors.LocalOrigins

  /** The CORS headers this endpoint writes: the shared decision, with its own list and
      the production site as the fallback origin. */
  function IdentifyCorsHeaders(origin: string): map<string, string> {
    Cors.CorsHeaders(origin, IdentifyOrigins, ProductionOrigin)
  }

  /** The endpoint's list is the shared helper's default list when the API is served
      from the identifier site and the public site is the production one. */
  lemma SameOriginsAsSharedDefaults(origin: string)
    ensures IdentifyOrigins == Cors.AllowedOrigins("", IdentifierOrigin, ProductionOrigin)
    ensures IdentifyCorsHeaders(origin)
            == Cors.CorsHeaders(origin, Cors.AllowedOrigins("", IdentifierOrigin, ProductionOrigin), ProductionOrigin)
  {
  }

  // ---- the daily quota over `dailyScansStore` ----

  /** checkDailyScanLimit: the reply and the map afterwards. There is no login bonus and
      no separate guest-by-IP tracking in this copy. */
  function CheckStep(store: map<string, DayRecord>, userId: string, userIp: string, today: string, midnight: string)
    : (r: (ScanResult, map<string, DayRecord>))
  {
    var level := UserLevel(userId);
    var limit := Limit(level);
    var key := QuotaKey(userId, userIp);
    var rec := ServerLimits.Get(store, key);
    var d := Decide(rec, today, limit);
    var store' := match d
      case StartDay => store[key := FirstScan(today, level)]
      case Deny => store
      case CountScan(n) => store[key := rec.value.(count := n)];
    (Reply(d, limit, level, midnight), store')
  }

  /** getRemainingScans: a pure read of the caller's record. */
  function RemainingOf(store: map<string, DayRecord>, userId: string, userIp: string, today: string): RemainingInfo {
    RemainingReport(ServerLimits.Get(store, QuotaKey(userId, userIp)), today, UserLevel(userId))
  }

  /** Every stored record has used between one scan and the larger daily limit. */
  predicate Bounded(store: map<string, DayRecord>) {
    forall k :: k in store ==> 1 <= store[k].count <= FreeLimit
  }

  /** The three outcomes of a check: a new day starts at one scan used; at the limit the
      scan is refused, nothing is written and the reset time is reported; otherwise the
      count rises by exactly one. */
  lemma CheckOutcomes(store: map<string, DayRecord>, userId: string, userIp: string, today: string, midnight: string)
    ensures var key := QuotaKey(userId, userIp);
            var limit := Limit(UserLevel(userId));
            var (r, store') := CheckStep(store, userId, userIp, today, midnight);
            r.limit == limit && r.level == UserLevel(userId)
            && ((key !in store || store[key].date != today) ==>
                  r.allowed && r.remaining == limit - 1 && r.resetTime.None?
                  && store' == store[key := DayRecord(1, today, Some(UserLevel(userId)), false)])
            && ((key in store && store[key].date == today && store[key].count >= limit) <==> !r.allowed)
            && (!r.allowed ==> store' == store && r.remaining == 0 && r.resetTime == Some(midnight))
            && ((key in store && store[key].date == today && store[key].count < limit) ==>
                  r.allowed && r.remaining == limit - (store[key].count + 1) >= 0
                  && store' == store[key := store[key].(count := store[key].count + 1)])
  {
  }

  /** Only the caller's own record is ever written. */
  lemma OnlyOwnRecordWritten(store: map<string, DayRecord>, userId: string, userIp: string, today: string, midnight: string)
    ensures var store' := CheckStep(store, userId, userIp, today, midnight).1;
            store'.Keys == store.Keys + {QuotaKey(userId, userIp)}
            && forall k :: k in store && k != QuotaKey(userId, userIp) ==> store'[k] == store[k]
  {
  }

  /** The counts stay between one and the larger limit. */
  lemma CheckKeepsBounded(store: map<string, DayRecord>, userId: string, userIp: string, today: string, midnight: string)
    requires Bounded(store)
    ensures Bounded(CheckStep(store, userId, userIp, today, midnight).1)
  {
  }

  /** An allowed check reports what a read right after it reports, and spends exactly one
      of the caller's remaining scans. */
  lemma {:induction false} AllowedCheckSpendsOne(store: map<string, DayRecord>, userId: string, userIp: string, today: string, midnight: string)
    ensures var (r, store') := CheckStep(store, userId, userIp, today, midnight);
            r.allowed ==>
              RemainingOf(store', userId, userIp, today) == RemainingInfo(r.remaining, r.limit, r.level)
              && RemainingOf(store', userId, userIp, today).remaining == RemainingOf(store, userId, userIp, today).remaining - 1
  {
    var key := QuotaKey(userId, userIp);
    var store' := CheckStep(store, userId, userIp, today, midnight).1;
    if CheckStep(store, userId, userIp, today, midnight).0.allowed {
      assert key in store' && store'[key].date == today;
      assert ServerLimits.Get(store', key) == Some(store'[key]);
    }
  }

  /** The number of scans allowed among `n` identical requests made the same day. */
  function AllowedAmong(store: map<string, DayRecord>, userId: string, userIp: string, today: string, midnight: string, n: nat)
    : nat
    decreases n
  {
    if n == 0 then 0
    else
      var (r, store') := CheckStep(store, userId, userIp, today, midnight);
      (if r.allowed then 1 else 0) + AllowedAmong(store', userId, userIp, today, midnight, n - 1)
  }

  lemma {:induction false} AllowedAmongFromCount(store: map<string, DayRecord>, userId: string, userIp: string, today: string, midnight: string, n: nat)
    requires QuotaKey(userId, userIp) in store && store[QuotaKey(userId, userIp)].date == today
    requires 0 <= store[QuotaKey(userId, userIp)].count
    ensures var left := Limit(UserLevel(userId)) - store[QuotaKey(userId, userIp)].count;
            AllowedAmong(store, userId, userIp, today, midnight, n) == if left <= 0 then 0 else if n <= left then n else left
    decreases n
  {
    if n > 0 {
      var key := QuotaKey(userId, userIp);
      var store' := CheckStep(store, userId, userIp, today, midnight).1;
      CheckOutcomes(store, userId, userIp, today, midnight);
      AllowedAmongFromCount(store', userId, userIp, today, midnight, n - 1);
    }
  }

  /** However many requests a caller makes in one day, starting from no record for that
      day, exactly `min(n, limit)` of them are allowed: three for a guest, five for a
      signed-in user. */
  lemma {:induction false} DailyAllowance(store: map<string, DayRecord>, userId: string, userIp: string, today: string, midnight: string, n: nat)
    requires QuotaKey(userId, userIp) !in store || store[QuotaKey(userId, userIp)].date != today
    ensures var limit := Limit(UserLevel(userId));
            AllowedAmong(store, userId, userIp, today, midnight, n) == if n <= limit then n else limit
  {
    if n > 0 {
      var store' := CheckStep(store, userId, userIp, today, midnight).1;
      CheckOutcomes(store, userId, userIp, today, midnight);
      AllowedAmongFromCount(store', userId, userIp, today, midnight, n - 1);
    }
  }

  // ---- the handler ----

  /** The parts of the request the handler reads. `hasBody` is false when `req.body` is
      undefined. Absent headers and body fields are the empty string; an `imageData`
      that is absent or not a string is None. */
  datatype Request = Request(httpMethod: string, hasBody: bool, origin: string, forwardedFor: string, realIp: string,
                             imageData: Option<string>, targetLanguage: string, userId: string)

  /** The environment: whether OPENAI_API_KEY is set and whether NODE_ENV is production. */
  datatype Env = Env(apiKeyConfigured: bool, production: bool)

  /** What the call to the vision model came to: a reply, a non-2xx status with the
      error message it carried ("" when none), the 55-second abort, or another failure. */
  datatype AiOutcome =
    | AiReplied(data: string)
    | AiRefused(status: int, message: string)
    | AiTimedOut
    | AiFailed(message: string)

  /** The JSON bodies. A quota reply repeats its message under `error` and `message` and
      carries `limitExceeded: true` and `remaining: 0`. */
  datatype Body =
    | NoBody
    | ErrorBody(error: string)
    | LimitBody(message: string, limit: nat, level: Level, resetTime: Option<string>)
    | Identified(data: string, scanInfo: RemainingInfo)

  datatype HttpReply = HttpReply(status: int, headers: map<string, string>, body: Body)

  const MethodNotAllowedMessage: string := "Method not allowed"
  const ConfigurationMessage: string := "Server configuration error"
  const ModelErrorMessage: string := "OpenAI API error"
  const TimeoutMessage: string :=
    "Request timeout. The image analysis took too long. Please try again with a smaller image."
  const ProductionErrorMessage: string := "An error occurred while processing your request. Please try again."
  const UnknownErrorMessage: string := "Unknown error occurred"

  const GuestLimitMessage: string :=
    "Oops! That's all the scans you get for today. Come back tomorrow, or sign up for a free account to get 5 scans per day! \U{1F37D}\U{FE0F}"
  const FreeLimitMessage: string :=
    "Oops! That's all your scans for today. Come back tomorrow for more food discoveries! \U{1F31F}"

  /** The quota message, by level; the guest's invites signing up for five daily scans. */
  function LimitMessage(level: Level): string {
    match level
    case Guest => GuestLimitMessage
    case Free => FreeLimitMessage
  }

  /** The reply after an allowed quota check. */
  function AfterQuota(store': map<string, DayRecord>, req: Request, userIp: string, env: Env, ai: AiOutcome,
                      today: string, headers: map<string, string>): (r: HttpReply)
    ensures r.headers == headers
  {
    var imageError := ValidateImageData(req.imageData);
    if imageError.Some? then HttpReply(400, headers, ErrorBody(ImageErrorMessage(imageError.value)))
    else if !ValidateLanguage(req.targetLanguage) then HttpReply(400, headers, ErrorBody(InvalidLanguageMessage))
    else if !env.apiKeyConfigured then HttpReply(500, headers, ErrorBody(ConfigurationMessage))
    else match ai
      case AiReplied(data) => HttpReply(200, headers, Identified(data, RemainingOf(store', req.userId, userIp, today)))
      case AiRefused(status, message) =>
        HttpReply(status, headers, ErrorBody(if message != "" then message else ModelErrorMessage))
      case AiTimedOut => HttpReply(504, headers, ErrorBody(TimeoutMessage))
      case AiFailed(message) =>
        HttpReply(500, headers, ErrorBody(if env.production then ProductionErrorMessage
                                          else if message != "" then message else UnknownErrorMessage))
  }

  /** A POST whose body was read: the quota check first, then the rest of the request. */
  function PostStep(store: map<string, DayRecord>, req: Request, userIp: string, env: Env, ai: AiOutcome, today: string,
                    midnight: string, headers: map<string, string>)
    : (r: (HttpReply, map<string, DayRecord>))
    ensures r.0.headers == headers
  {
    var step := CheckStep(store, req.userId, userIp, today, midnight);
    if !step.0.allowed then
      (HttpReply(429, headers, LimitBody(LimitMessage(step.0.level), step.0.limit, step.0.level, step.0.resetTime)), step.1)
    else (AfterQuota(step.1, req, userIp, env, ai, today, headers), step.1)
  }

  /** The catch's reply to a POST without a body: destructuring it throws before the
      caller's address is resolved or the quota consulted. */
  function MissingBodyReply(env: Env, headers: map<string, string>): (r: HttpReply)
    ensures r.status == 500 && r.headers == headers && r.body.ErrorBody? && r.body.error != ""
    ensures env.production ==> r.body == ErrorBody(ProductionErrorMessage)
  {
    HttpReply(500, headers, ErrorBody(if env.production then ProductionErrorMessage else DestructureError("imageData")))
  }

  /** One request: the reply and the quota map afterwards. */
  function HandleStep(store: map<string, DayRecord>, req: Request, env: Env, ai: AiOutcome, today: string, midnight: string)
    : (r: (HttpReply, map<string, DayRecord>))
    ensures r.0.headers == IdentifyCorsHeaders(req.origin)
  {
    var headers := IdentifyCorsHeaders(req.origin);
    if req.httpMethod == "OPTIONS" then (HttpReply(200, headers, NoBody), store)
    else if req.httpMethod != "POST" then (HttpReply(405, headers, ErrorBody(MethodNotAllowedMessage)), store)
    else if !req.hasBody then (MissingBodyReply(env, headers), store)
    else PostStep(store, req, ClientIp.ResolveIp(req.forwardedFor, req.realIp), env, ai, today, midnight, headers)
  }

  /** Every reply carries the CORS headers; a preflight is an empty 200 and any method
      other than POST a 405, and neither touches the quota. */
  lemma PreflightAndMethodRule(store: map<string, DayRecord>, req: Request, env: Env, ai: AiOutcome, today: string, midnight: string)
    ensures var (reply, store') := HandleStep(store, req, env, ai, today, midnight);
            reply.headers == IdentifyCorsHeaders(req.origin)
            && (req.httpMethod == "OPTIONS" ==> reply == HttpReply(200, reply.headers, NoBody) && store' == store)
            && (req.httpMethod != "OPTIONS" && req.httpMethod != "POST" ==>
                  reply.status == 405 && reply.body == ErrorBody(MethodNotAllowedMessage) && store' == store)
  {
  }

  /** A POST with a body is answered from the caller's address as resolved from the
      proxy headers; one without a body gets the catch's 500 and spends no scan. */
  lemma PostUsesResolvedAddress(store: map<string, DayRecord>, req: Request, env: Env, ai: AiOutcome, today: string, midnight: string)
    requires req.httpMethod == "POST"
    ensures HandleStep(store, req, env, ai, today, midnight)
            == if req.hasBody then
                 PostStep(store, req, ClientIp.ResolveIp(req.forwardedFor, req.realIp), env, ai, today, midnight,
                          IdentifyCorsHeaders(req.origin))
               else (MissingBodyReply(env, IdentifyCorsHeaders(req.origin)), store)
  {
  }

  /** A POST without a body is a 500 and leaves every caller's quota as it was. */
  lemma MissingBodySpendsNothing(store: map<string, DayRecord>, req: Request, env: Env, ai: AiOutcome, today: string,
                                 midnight: string, userId: string, userIp: string)
    requires req.httpMethod == "POST" && !req.hasBody
    ensures var (reply, store') := HandleStep(store, req, env, ai, today, midnight);
            reply.status == 500 && reply.body.ErrorBody?
            && RemainingOf(store', userId, userIp, today) == RemainingOf(store, userId, userIp, today)
  {
  }

  /** The quota is checked before anything else about the request: every POST has the
      same effect on the map whatever its image, language, the environment or the model's
      outcome, so a request rejected for a bad image still uses up a scan. */
  lemma QuotaChargedFirst(store: map<string, DayRecord>, req: Request, userIp: string, env: Env, ai: AiOutcome,
                          today: string, midnight: string, headers: map<string, string>)
    ensures PostStep(store, req, userIp, env, ai, today, midnight, headers).1
            == CheckStep(store, req.userId, userIp, today, midnight).1
  {
  }

  /** A POST past the quota gets 429 with the level's message, the level's limit and the
      reset time, and the map is unchanged. */
  lemma {:induction false} QuotaExceededReply(store: map<string, DayRecord>, req: Request, userIp: string, env: Env, ai: AiOutcome,
                                              today: string, midnight: string, headers: map<string, string>)
    requires var key := QuotaKey(req.userId, userIp);
             key in store && store[key].date == today && store[key].count >= Limit(UserLevel(req.userId))
    ensures var (reply, store') := PostStep(store, req, userIp, env, ai, today, midnight, headers);
            var level := UserLevel(req.userId);
            reply.status == 429 && store' == store
            && reply.body == LimitBody(LimitMessage(level), Limit(level), level, Some(midnight))
  {
    CheckOutcomes(store, req.userId, userIp, today, midnight);
  }

  /** An allowed POST with an image the checks reject is answered 400 with the check's
      message, yet one scan has been spent. */
  lemma {:induction false} RejectedImageSpendsScan(store: map<string, DayRecord>, req: Request, userIp: string, env: Env, ai: AiOutcome,
                                                   today: string, midnight: string, headers: map<string, string>)
    requires ValidateImageData(req.imageData).Some?
    ensures var (reply, store') := PostStep(store, req, userIp, env, ai, today, midnight, headers);
            reply.status != 429 ==>
              reply.body == ErrorBody(ImageErrorMessage(ValidateImageData(req.imageData).value))
              && reply.status == 400
              && RemainingOf(store', req.userId, userIp, today).remaining
                 == RemainingOf(store, req.userId, userIp, today).remaining - 1
  {
    AllowedCheckSpendsOne(store, req.userId, userIp, today, midnight);
  }

  /** With valid input and the key configured, the model's outcome decides the reply: its
      data with the caller's scan info (the same count the quota check reported), its
      own status for a refusal, 504 for the timeout and 500 otherwise, with a generic
      message in production. */
  lemma {:induction false} ModelOutcomeReplies(store: map<string, DayRecord>, req: Request, userIp: string, env: Env, ai: AiOutcome,
                                               today: string, midnight: string, headers: map<string, string>)
    requires ValidateImageData(req.imageData).None? && ValidateLanguage(req.targetLanguage) && env.apiKeyConfigured
    ensures var (check, _) := CheckStep(store, req.userId, userIp, today, midnight);
            var (reply, _) := PostStep(store, req, userIp, env, ai, today, midnight, headers);
            check.allowed ==>
              (ai.AiReplied? ==>
                 reply.status == 200
                 && reply.body == Identified(ai.data, RemainingInfo(check.remaining, check.limit, check.level)))
              && (ai.AiRefused? ==>
                    reply.status == ai.status && reply.body.ErrorBody? && reply.body.error != "")
              && (ai.AiTimedOut? ==> reply.status == 504 && reply.body == ErrorBody(TimeoutMessage))
              && (ai.AiFailed? ==>
                    reply.status == 500 && (env.production ==> reply.body == ErrorBody(ProductionErrorMessage)))
  {
    AllowedCheckSpendsOne(store, req.userId, userIp, today, midnight);
  }

  /** The module-level state of the endpoint's instance. */
  class IdentifyEndpoint {
    var dailyScansStore: map<string, DayRecord>

    constructor ()
      ensures dailyScansStore == map[]
    {
      dailyScansStore := map[];
    }

    method CheckDailyScanLimit(userId: string, userIp: string, today: string, midnight: string)
      returns (result: ScanResult)
      modifies this
      ensures (result, dailyScansStore) == CheckStep(old(dailyScansStore), userId, userIp, today, midnight)
    {
      var level := UserLevel(userId);
      var limit := Limit(level);
      var key := QuotaKey(userId, userIp);
      if key !in dailyScansStore || dailyScansStore[key].date != today {
        dailyScansStore := dailyScansStore[key := DayRecord(1, today, Some(level), false)];
        return ScanResult(true, limit - 1, limit, level, None, false);
      }
      var record := dailyScansStore[key];
      if record.count >= limit {
        return ScanResult(false, 0, limit, level, Some(midnight), false);
      }
      record := record.(count := record.count + 1);
      dailyScansStore := dailyScansStore[key := record];
      return ScanResult(true, limit - record.count, limit, level, None, false);
    }

    method GetRemainingScans(userId: string, userIp: string, today: string) returns (info: RemainingInfo)
      ensures info == RemainingOf(dailyScansStore, userId, userIp, today)
      ensures 0 <= info.remaining
    {
      var level := UserLevel(userId);
      var limit := Limit(level);
      var key := QuotaKey(userId, userIp);
      if key !in dailyScansStore || dailyScansStore[key].date != today {
        return RemainingInfo(limit, limit, level);
      }
      var remaining := limit - dailyScansStore[key].count;
      return RemainingInfo(if remaining > 0 then remaining else 0, limit, level);
    }

    /** The exported handler, over this instance's map. */
    method Handle(req: Request, env: Env, ai: AiOutcome, today: string, midnight: string) returns (reply: HttpReply)
      modifies this
      ensures (reply, dailyScansStore) == HandleStep(old(dailyScansStore), req, env, ai, today, midnight)
    {
      var headers := IdentifyCorsHeaders(req.origin);
      if req.httpMethod == "OPTIONS" {
        return HttpReply(200, headers, NoBody);
      }
      if req.httpMethod != "POST" {
        return HttpReply(405, headers, ErrorBody(MethodNotAllowedMessage));
      }
      if !req.hasBody {
        return MissingBodyReply(env, headers);
      }
      var userIp := ClientIp.ResolveIp(req.forwardedFor, req.realIp);
      var check := CheckDailyScanLimit(req.userId, userIp, today, midnight);
      if !check.allowed {
        return HttpReply(429, headers, LimitBody(LimitMessage(check.level), check.limit, check.level, check.resetTime));
      }
      var imageError := ValidateImageData(req.imageData);
      if imageError.Some? {
        return HttpReply(400, headers, ErrorBody(ImageErrorMessage(imageError.value)));
      }
      if !ValidateLanguage(req.targetLanguage) {
        return HttpReply(400, headers, ErrorBody(InvalidLanguageMessage));
      }
      if !env.apiKeyConfigured {
        return HttpReply(500, headers, ErrorBody(ConfigurationMessage));
      }
      match ai {
        case AiReplied(data) =>
          var info := GetRemainingScans(req.userId, userIp, today);
          return HttpReply(200, headers, Identified(data, info));
        case AiRefused(status, message) =>
          return HttpReply(status, headers, ErrorBody(if message != "" then message else ModelErrorMessage));
        case AiTimedOut =>
          return HttpReply(504, headers, ErrorBody(TimeoutMessage));
        case AiFailed(message) =>
          var text := if env.production then ProductionErrorMessage
                      else if message != "" then message else UnknownErrorMessage;
          return HttpReply(500, headers, ErrorBody(text));
      }
    }
  }
}
