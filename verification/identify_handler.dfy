/** The identify handler behind the API router (api-handlers/identify.js): wildcard
    CORS headers, the preflight answer, the POST-only rule through the standard error
    replies, the daily quota delegated to the persistent ledger, the image and language
    checks, and the replies for each outcome of the call to the vision model.

    As written, the handler's list of target languages (and the emoji at the end of its
    quota messages) are the UTF-8 bytes of the intended text read back as Windows-1252,
    so four of the five labels the app sends are refused. `HandleWith` takes the list as
    a parameter: `HandleAsWritten` uses the garbled list and `Handle` the intended one. */
module IdentifyHandler {
  import opened Text
  import opened Quota
  import opened Validation
  import E = ErrorResponse
  import RS = RateLimitStorage
  import ClientIp
  import Cors
  import IdentifyApi

  /** The four headers written before anything else: any origin, POST and OPTIONS only. */
  const WildcardCors: map<string, string> :=
    map[Cors.AllowOrigin := "*", Cors.AllowMethods := "POST, OPTIONS",
        Cors.AllowHeaders := "Content-Type, Authorization", Cors.MaxAge := Cors.MaxAgeValue]

  const GarbledKorean: string := "Korean (\U{00ED}\U{2022}\U{0153}\U{00EA}\U{00B5}\U{00AD}\U{00EC}\U{2013}\U{00B4})"
  const GarbledSpanish: string := "Spanish (Espa\U{00C3}\U{00B1}ol)"
  const GarbledFrench: string := "French (Fran\U{00C3}\U{00A7}ais)"
  const GarbledChinese: string := "Chinese (\U{00E4}\U{00B8}\U{00AD}\U{00E6}\U{2013}\U{2021})"

  /** The language list as it stands in the handler. */
  const GarbledLanguages: seq<string> := [English, GarbledKorean, GarbledSpanish, GarbledFrench, GarbledChinese]

  const GuestLimitMessage: string :=
    "Oops! That's all the scans you get for today. Come back tomorrow, or sign up for a free account to get 5 scans per day! \U{00F0}\U{0178}\U{00BD}\U{00EF}\U{00B8}"
  const FreeLimitMessage: string :=
    "Oops! That's all your scans for today. Come back tomorrow for more food discoveries! \U{00F0}\U{0178}\U{0152}\U{0178}"

  function LimitMessage(level: Level): string {
    match level
    case Guest => GuestLimitMessage
    case Free => FreeLimitMessage
  }

  const ConfigurationMessage: string := "OPENAI_API_KEY is not configured"
  const ModelFailureMessage: string := "Failed to process image with AI service"
  const IdentifyFailureMessage: string := "Failed to identify dish"

  /** A falsy language, or one of the listed labels, compared exactly. */
  predicate LanguageAllowed(languages: seq<string>, language: string) {
    language == "" || language in languages
  }

  /** The JSON bodies: a standard error body, the quota body (`success: false`, `error:
      'SCAN_LIMIT_EXCEEDED'`, `limitExceeded: true`, `remaining: 0`), or the model's data
      with the caller's scan info. */
  datatype Body =
    | NoBody
    | Standard(body: E.ErrorBody)
    | LimitBody(error: string, message: string, limit: nat, level: Level, resetTime: Option<string>)
    | Identified(data: string, scanInfo: RemainingInfo)

  datatype HttpReply = HttpReply(status: int, headers: map<string, string>, body: Body)

  /** A reply sent through one of the ErrorResponse helpers. */
  function Helper(h: E.Helper, message: Option<string>, error: Option<string>): (r: HttpReply)
    ensures r.status == E.StatusOf(h) && r.headers == WildcardCors
    ensures r.body == Standard(E.ErrorBody(false, E.CodeText(E.CodeOf(h)), if message.Some? then message else E.DefaultMessage(h)))
  {
    var sent := E.Send(h, message, error);
    HttpReply(sent.status, WildcardCors, Standard(sent.body))
  }

  /** The checks of a POST past the quota, in order: the image, the target language,
      then the API key; None when all pass. */
  function Rejection(languages: seq<string>, req: IdentifyApi.Request, apiKeyConfigured: bool): (r: Option<HttpReply>)
    ensures r.None? <==>
              ValidateImageData(req.imageData).None? && LanguageAllowed(languages, req.targetLanguage) && apiKeyConfigured
    ensures r.Some? ==> r.value.headers == WildcardCors && (r.value.status == 400 || r.value.status == 500)
    ensures r.Some? ==>
              (r.value.status == 500 <==> ValidateImageData(req.imageData).None? && LanguageAllowed(languages, req.targetLanguage))
  {
    var imageError := ValidateImageData(req.imageData);
    if imageError.Some? then Some(Helper(E.BadRequest, Some(ImageErrorMessage(imageError.value)), None))
    else if !LanguageAllowed(languages, req.targetLanguage) then Some(Helper(E.BadRequest, Some(InvalidLanguageMessage), None))
    else if !apiKeyConfigured then Some(Helper(E.ConfigurationError, Some(ConfigurationMessage), None))
    else None
  }

  /** The reply to the model call's outcome. A reply from the model is followed by a
      read of the remaining scans; no other outcome touches the ledger. */
  function ModelAnswer(kv: RS.Kv, req: IdentifyApi.Request, userIp: string, ai: IdentifyApi.AiOutcome, today: string)
    : (r: (HttpReply, RS.Kv))
    ensures !ai.AiReplied? ==> r.1 == kv
    ensures r.0.headers == WildcardCors
    ensures r.0.status == 200 || r.0.status == 500 || r.0.status == 504
    ensures r.0.status == 200 <==> ai.AiReplied?
  {
    match ai
    case AiReplied(data) =>
      var read := RS.RemainingStep(kv, req.userId, userIp, today);
      (HttpReply(200, WildcardCors, Identified(data, read.0)), read.1)
    case AiRefused(_, message) => (Helper(E.ExternalServiceError, Some(ModelFailureMessage), Some(message)), kv)
    case AiTimedOut => (Helper(E.GatewayTimeout, Some(IdentifyApi.TimeoutMessage), None), kv)
    case AiFailed(message) => (Helper(E.InternalServerError, Some(IdentifyFailureMessage), Some(message)), kv)
  }

  /** The rest of a POST once the quota has let it through, over the ledger as the quota
      check left it. */
  function AfterQuota(languages: seq<string>, kv: RS.Kv, req: IdentifyApi.Request, userIp: string, apiKeyConfigured: bool,
                      ai: IdentifyApi.AiOutcome, today: string)
    : (r: (HttpReply, RS.Kv))
    ensures !ai.AiReplied? ==> r.1 == kv
    ensures r.0.headers == WildcardCors
    ensures r.0.status == 200 || r.0.status == 400 || r.0.status == 500 || r.0.status == 504
  {
    match Rejection(languages, req, apiKeyConfigured)
    case Some(reply) => (reply, kv)
    case None => ModelAnswer(kv, req, userIp, ai, today)
  }

  /** A POST whose body was read, from the caller at `userIp`: the quota check first.
      The reply is a 429 exactly when the quota refuses the scan. */
  function PostStep(languages: seq<string>, kv: RS.Kv, req: IdentifyApi.Request, userIp: string, apiKeyConfigured: bool,
                    ai: IdentifyApi.AiOutcome, today: string, midnight: string)
    : (r: (HttpReply, RS.Kv))
    ensures r.0.headers == WildcardCors
    ensures r.0.status == 429 <==> !RS.DailyStep(kv, req.userId, userIp, today, midnight).0.allowed
    ensures r.0.status == 200 || r.0.status == 400 || r.0.status == 429 || r.0.status == 500 || r.0.status == 504
  {
    var check := RS.DailyStep(kv, req.userId, userIp, today, midnight);
    if !check.0.allowed then
      (HttpReply(429, WildcardCors,
                 LimitBody(E.CodeText(E.ScanLimitExceededCode), LimitMessage(check.0.level), check.0.limit,
                           check.0.level, check.0.resetTime)),
       check.1)
    else AfterQuota(languages, check.1, req, userIp, apiKeyConfigured, ai, today)
  }

  /** One request, with the language list as a parameter. A POST without a body throws
      at the destructuring, before the quota, and gets the catch's 500. */
  function HandleWith(languages: seq<string>, kv: RS.Kv, req: IdentifyApi.Request, apiKeyConfigured: bool,
                      ai: IdentifyApi.AiOutcome, today: string, midnight: string)
    : (r: (HttpReply, RS.Kv))
    ensures r.0.headers == WildcardCors
    ensures req.httpMethod != "POST" || !req.hasBody ==> r.1 == kv
    ensures r.0.status == 405 <==> req.httpMethod != "POST" && req.httpMethod != "OPTIONS"
  {
    if req.httpMethod == "OPTIONS" then (HttpReply(200, WildcardCors, NoBody), kv)
    else if req.httpMethod != "POST" then (Helper(E.MethodNotAllowed, None, None), kv)
    else if !req.hasBody then (Helper(E.InternalServerError, Some(IdentifyFailureMessage), Some(DestructureError("imageData"))), kv)
    else PostStep(languages, kv, req, ClientIp.ResolveIp(req.forwardedFor, req.realIp), apiKeyConfigured, ai, today, midnight)
  }

  /** The handler as written, with the garbled language list. */
  function HandleAsWritten(kv: RS.Kv, req: IdentifyApi.Request, apiKeyConfigured: bool, ai: IdentifyApi.AiOutcome,
                           today: string, midnight: string)
    : (r: (HttpReply, RS.Kv))
    ensures r.0.headers == WildcardCors
    ensures req.httpMethod != "POST" || !req.hasBody ==> r.1 == kv
    ensures r.0.status == 405 <==> req.httpMethod != "POST" && req.httpMethod != "OPTIONS"
  {
    HandleWith(GarbledLanguages, kv, req, apiKeyConfigured, ai, today, midnight)
  }

  /** The handler with the intended list, the one the Express server also checks against. */
  function Handle(kv: RS.Kv, req: IdentifyApi.Request, apiKeyConfigured: bool, ai: IdentifyApi.AiOutcome,
                  today: string, midnight: string)
    : (r: (HttpReply, RS.Kv))
    ensures r.0.headers == WildcardCors
    ensures req.httpMethod != "POST" || !req.hasBody ==> r.1 == kv
    ensures r.0.status == 405 <==> req.httpMethod != "POST" && req.httpMethod != "OPTIONS"
  {
    HandleWith(AllowedLanguages, kv, req, apiKeyConfigured, ai, today, midnight)
  }

  // ---- properties ----

  /** A preflight is an empty 200 and any method other than POST the standard 405; the
      ledger is not touched by either, and every reply carries the wildcard headers. */
  lemma PreflightAndMethodRule(languages: seq<string>, kv: RS.Kv, req: IdentifyApi.Request, apiKeyConfigured: bool,
                               ai: IdentifyApi.AiOutcome, today: string, midnight: string)
    requires req.httpMethod != "POST"
    ensures var (reply, kv') := HandleWith(languages, kv, req, apiKeyConfigured, ai, today, midnight);
            kv' == kv && reply.headers == WildcardCors
            && (req.httpMethod == "OPTIONS" ==> reply.status == 200 && reply.body == NoBody)
            && (req.httpMethod != "OPTIONS" ==>
                  reply.status == 405
                  && reply.body == Standard(E.ErrorBody(false, "METHOD_NOT_ALLOWED", Some("Method not allowed"))))
  {
  }

  /** A POST without a body is the catch's 500 `INTERNAL_SERVER_ERROR`, and no scan is
      charged; a POST with one goes through the quota from the resolved address. */
  lemma PostBodyRule(languages: seq<string>, kv: RS.Kv, req: IdentifyApi.Request, apiKeyConfigured: bool,
                     ai: IdentifyApi.AiOutcome, today: string, midnight: string)
    requires req.httpMethod == "POST"
    ensures var (reply, kv') := HandleWith(languages, kv, req, apiKeyConfigured, ai, today, midnight);
            (!req.hasBody ==>
               kv' == kv && reply.status == 500
               && reply.body == Standard(E.ErrorBody(false, E.CodeText(E.InternalServerErrorCode), Some(IdentifyFailureMessage))))
            && (req.hasBody ==>
                  (reply, kv') == PostStep(languages, kv, req, ClientIp.ResolveIp(req.forwardedFor, req.realIp),
                                           apiKeyConfigured, ai, today, midnight))
  {
  }

  /** Reading the remaining scans right after a scan check changes nothing: if the login
      bonus did not fire in the check it cannot fire in the read, and if it did, the
      guest record it needs is gone. */
  lemma {:induction false} ReadAfterCheckWritesNothing(kv: RS.Kv, userId: string, userIp: string, today: string, midnight: string)
    ensures var kv1 := RS.DailyStep(kv, userId, userIp, today, midnight).1;
            RS.RemainingStep(kv1, userId, userIp, today).1 == kv1
  {
    var kv1 := RS.DailyStep(kv, userId, userIp, today, midnight).1;
    if userId != "" && userIp != "" {
      RS.KeyFamiliesDiffer("", userId, userIp);
      assert QuotaKey(userId, userIp) == userId;
      assert RS.ScanKey(userId, userIp) == RS.UserScanKey(userId);
      if RS.BonusFires(kv, userId, userIp, today) {
        RS.BonusEffect(kv, userId, userIp, today);
        if !kv.writable {
          RS.WriteFailureChargesNothing(kv1, userId, userIp, today, midnight, 0, 0);
          return;
        }
        assert RS.Lookup(kv1, RS.GuestKey(userIp)).None?;
      } else {
        assert RS.Lookup(kv1, RS.GuestKey(userIp)) == RS.Lookup(kv, RS.GuestKey(userIp));
        var user := RS.DayAt(kv, RS.UserScanKey(userId));
        if IsToday(user, today) && user.value.bonusApplied {
          assert RS.DayAt(kv1, RS.UserScanKey(userId)).value.bonusApplied;
        }
      }
      assert !RS.BonusFires(kv1, userId, userIp, today);
    }
  }

  /** The quota is charged before the image or the language is looked at: a POST leaves
      the ledger exactly as the scan check alone would, whatever follows. */
  lemma {:induction false} QuotaChargedFirst(languages: seq<string>, kv: RS.Kv, req: IdentifyApi.Request, userIp: string,
                                             apiKeyConfigured: bool, ai: IdentifyApi.AiOutcome, today: string, midnight: string)
    ensures PostStep(languages, kv, req, userIp, apiKeyConfigured, ai, today, midnight).1
            == RS.DailyStep(kv, req.userId, userIp, today, midnight).1
  {
    ReadAfterCheckWritesNothing(kv, req.userId, userIp, today, midnight);
  }

  /** A refused scan is answered 429 with `SCAN_LIMIT_EXCEEDED`, the level's message, the
      limit and the reset time (none when the refusal came after an unwritten bonus), and
      the ledger is unchanged. */
  lemma {:induction false} QuotaExceededReply(languages: seq<string>, kv: RS.Kv, req: IdentifyApi.Request, userIp: string,
                                              apiKeyConfigured: bool, ai: IdentifyApi.AiOutcome, today: string, midnight: string)
    requires !RS.DailyStep(kv, req.userId, userIp, today, midnight).0.allowed
    ensures var (reply, kv') := PostStep(languages, kv, req, userIp, apiKeyConfigured, ai, today, midnight);
            var level := UserLevel(req.userId);
            var bonus := RS.DailyStep(kv, req.userId, userIp, today, midnight).0.bonusApplied;
            kv' == kv && reply.status == 429
            && reply.body == LimitBody("SCAN_LIMIT_EXCEEDED", LimitMessage(level), Limit(level), level,
                                       if bonus then None else Some(midnight))
  {
    RS.DenialWritesNothing(kv, req.userId, userIp, today, midnight);
  }

  /** A POST the quota lets through goes on over the ledger as the check left it. */
  lemma AllowedPostContinues(languages: seq<string>, kv: RS.Kv, req: IdentifyApi.Request, userIp: string,
                             apiKeyConfigured: bool, ai: IdentifyApi.AiOutcome, today: string, midnight: string)
    requires RS.DailyStep(kv, req.userId, userIp, today, midnight).0.allowed
    ensures PostStep(languages, kv, req, userIp, apiKeyConfigured, ai, today, midnight)
            == AfterQuota(languages, RS.DailyStep(kv, req.userId, userIp, today, midnight).1, req, userIp,
                          apiKeyConfigured, ai, today)
  {
  }

  /** Past the quota, the checks answer 400 through badRequest in the order image, then
      language; then a missing key is a configuration error. */
  lemma ValidationOrder(languages: seq<string>, kv: RS.Kv, req: IdentifyApi.Request, userIp: string,
                        apiKeyConfigured: bool, ai: IdentifyApi.AiOutcome, today: string)
    ensures var reply := AfterQuota(languages, kv, req, userIp, apiKeyConfigured, ai, today).0;
            var image := ValidateImageData(req.imageData);
            (image.Some? ==>
               reply.status == 400
               && reply.body == Standard(E.ErrorBody(false, E.CodeText(E.BadRequestCode), Some(ImageErrorMessage(image.value)))))
            && (image.None? && !LanguageAllowed(languages, req.targetLanguage) ==>
                  reply.status == 400
                  && reply.body == Standard(E.ErrorBody(false, E.CodeText(E.BadRequestCode), Some(InvalidLanguageMessage))))
            && (image.None? && LanguageAllowed(languages, req.targetLanguage) && !apiKeyConfigured ==>
                  reply.status == 500
                  && reply.body == Standard(E.ErrorBody(false, E.CodeText(E.ConfigurationErrorCode), Some(ConfigurationMessage))))
  {
    RejectionReplies(languages, req, apiKeyConfigured);
    var r := Rejection(languages, req, apiKeyConfigured);
    if r.Some? {
      assert AfterQuota(languages, kv, req, userIp, apiKeyConfigured, ai, today).0 == r.value;
    }
  }

  /** The checks' replies, in their order. */
  lemma RejectionReplies(languages: seq<string>, req: IdentifyApi.Request, apiKeyConfigured: bool)
    ensures var r := Rejection(languages, req, apiKeyConfigured);
            var image := ValidateImageData(req.imageData);
            (image.Some? ==>
               r.Some? && r.value.status == 400
               && r.value.body == Standard(E.ErrorBody(false, E.CodeText(E.BadRequestCode), Some(ImageErrorMessage(image.value)))))
            && (image.None? && !LanguageAllowed(languages, req.targetLanguage) ==>
                  r.Some? && r.value.status == 400
                  && r.value.body == Standard(E.ErrorBody(false, E.CodeText(E.BadRequestCode), Some(InvalidLanguageMessage))))
            && (image.None? && LanguageAllowed(languages, req.targetLanguage) && !apiKeyConfigured ==>
                  r.Some? && r.value.status == 500
                  && r.value.body == Standard(E.ErrorBody(false, E.CodeText(E.ConfigurationErrorCode), Some(ConfigurationMessage))))
  {
    var image := ValidateImageData(req.imageData);
    if image.Some? {
      assert Rejection(languages, req, apiKeyConfigured) == Some(Helper(E.BadRequest, Some(ImageErrorMessage(image.value)), None));
    } else if !LanguageAllowed(languages, req.targetLanguage) {
      assert Rejection(languages, req, apiKeyConfigured) == Some(Helper(E.BadRequest, Some(InvalidLanguageMessage), None));
    } else if !apiKeyConfigured {
      assert Rejection(languages, req, apiKeyConfigured) == Some(Helper(E.ConfigurationError, Some(ConfigurationMessage), None));
    }
  }

  /** The replies to the model call's failures; none touches the ledger. */
  lemma ModelFailureAnswer(kv: RS.Kv, req: IdentifyApi.Request, userIp: string, ai: IdentifyApi.AiOutcome, today: string)
    requires !ai.AiReplied?
    ensures var (reply, kv') := ModelAnswer(kv, req, userIp, ai, today);
            kv' == kv
            && (ai.AiRefused? ==>
                  reply.status == 500
                  && reply.body == Standard(E.ErrorBody(false, E.CodeText(E.ExternalServiceErrorCode), Some(ModelFailureMessage))))
            && (ai.AiTimedOut? ==>
                  reply.status == 504
                  && reply.body == Standard(E.ErrorBody(false, E.CodeText(E.ExternalServiceErrorCode), Some(IdentifyApi.TimeoutMessage))))
            && (ai.AiFailed? ==>
                  reply.status == 500
                  && reply.body == Standard(E.ErrorBody(false, E.CodeText(E.InternalServerErrorCode), Some(IdentifyFailureMessage))))
  {
  }

  /** With everything valid, a reply from the model is passed on with the scan info a
      read of the ledger reports. */
  lemma ModelReplyPassedOn(languages: seq<string>, kv: RS.Kv, req: IdentifyApi.Request, userIp: string,
                           data: string, today: string)
    requires ValidateImageData(req.imageData).None? && LanguageAllowed(languages, req.targetLanguage)
    ensures var (reply, kv') := AfterQuota(languages, kv, req, userIp, true, IdentifyApi.AiReplied(data), today);
            reply.status == 200
            && reply.body == Identified(data, RS.RemainingStep(kv, req.userId, userIp, today).0)
            && kv' == RS.RemainingStep(kv, req.userId, userIp, today).1
  {
    assert Rejection(languages, req, true).None?;
  }

  /** With everything valid, a refusal from the model, whatever its status, is 500
      `EXTERNAL_SERVICE_ERROR`; the ledger is not touched. */
  lemma ModelRefusalReply(languages: seq<string>, kv: RS.Kv, req: IdentifyApi.Request, userIp: string,
                          ai: IdentifyApi.AiOutcome, today: string)
    requires ValidateImageData(req.imageData).None? && LanguageAllowed(languages, req.targetLanguage)
    requires ai.AiRefused?
    ensures var (reply, kv') := AfterQuota(languages, kv, req, userIp, true, ai, today);
            kv' == kv && reply.status == 500
            && reply.body == Standard(E.ErrorBody(false, E.CodeText(E.ExternalServiceErrorCode), Some(ModelFailureMessage)))
  {
    assert Rejection(languages, req, true).None?;
    assert AfterQuota(languages, kv, req, userIp, true, ai, today) == ModelAnswer(kv, req, userIp, ai, today);
    ModelFailureAnswer(kv, req, userIp, ai, today);
  }

  /** With everything valid, the model call's timeout is 504; the ledger is not touched. */
  lemma ModelTimeoutReply(languages: seq<string>, kv: RS.Kv, req: IdentifyApi.Request, userIp: string,
                          ai: IdentifyApi.AiOutcome, today: string)
    requires ValidateImageData(req.imageData).None? && LanguageAllowed(languages, req.targetLanguage)
    requires ai.AiTimedOut?
    ensures var (reply, kv') := AfterQuota(languages, kv, req, userIp, true, ai, today);
            kv' == kv && reply.status == 504
            && reply.body == Standard(E.ErrorBody(false, E.CodeText(E.ExternalServiceErrorCode), Some(IdentifyApi.TimeoutMessage)))
  {
    assert Rejection(languages, req, true).None?;
    assert AfterQuota(languages, kv, req, userIp, true, ai, today) == ModelAnswer(kv, req, userIp, ai, today);
    ModelFailureAnswer(kv, req, userIp, ai, today);
  }

  /** With everything valid, any other failure of the model call is 500
      `INTERNAL_SERVER_ERROR`; the ledger is not touched. */
  lemma ModelErrorReply(languages: seq<string>, kv: RS.Kv, req: IdentifyApi.Request, userIp: string,
                        ai: IdentifyApi.AiOutcome, today: string)
    requires ValidateImageData(req.imageData).None? && LanguageAllowed(languages, req.targetLanguage)
    requires ai.AiFailed?
    ensures var (reply, kv') := AfterQuota(languages, kv, req, userIp, true, ai, today);
            kv' == kv && reply.status == 500
            && reply.body == Standard(E.ErrorBody(false, E.CodeText(E.InternalServerErrorCode), Some(IdentifyFailureMessage)))
  {
    assert Rejection(languages, req, true).None?;
    assert AfterQuota(languages, kv, req, userIp, true, ai, today) == ModelAnswer(kv, req, userIp, ai, today);
    ModelFailureAnswer(kv, req, userIp, ai, today);
  }

  // ---- the garbled language list ----

  /** As written, English is the only label that passes; the four labels the app sends
      for Korean, Spanish, French and Chinese are refused. */
  lemma GarbledListRefusesRealLabels()
    ensures LanguageAllowed(GarbledLanguages, English)
    ensures !LanguageAllowed(GarbledLanguages, Korean) && !LanguageAllowed(GarbledLanguages, Spanish)
    ensures !LanguageAllowed(GarbledLanguages, French) && !LanguageAllowed(GarbledLanguages, Chinese)
  {
    assert Korean[0] != English[0] && Korean[0] != GarbledSpanish[0] && Korean[0] != GarbledFrench[0];
    assert Korean[0] != GarbledChinese[0] && Korean[8] != GarbledKorean[8];
    assert Spanish[0] != English[0] && Spanish[0] != GarbledKorean[0] && Spanish[0] != GarbledFrench[0];
    assert Spanish[0] != GarbledChinese[0] && Spanish[13] != GarbledSpanish[13];
    assert French[0] != English[0] && French[0] != GarbledKorean[0] && French[0] != GarbledSpanish[0];
    assert French[0] != GarbledChinese[0] && French[12] != GarbledFrench[12];
    assert Chinese[0] != English[0] && Chinese[0] != GarbledKorean[0] && Chinese[0] != GarbledSpanish[0];
    assert Chinese[0] != GarbledFrench[0] && Chinese[9] != GarbledChinese[9];
  }

  /** So a valid Korean request that the quota lets through is refused with 400 as
      written, while the corrected handler goes on to the model. */
  lemma {:induction false} KoreanRequestRefusedAsWritten(kv: RS.Kv, req: IdentifyApi.Request, userIp: string,
                                                         ai: IdentifyApi.AiOutcome, today: string)
    requires ValidateImageData(req.imageData).None? && req.targetLanguage == Korean
    ensures AfterQuota(GarbledLanguages, kv, req, userIp, true, ai, today).0.body
            == Standard(E.ErrorBody(false, E.CodeText(E.BadRequestCode), Some(InvalidLanguageMessage)))
    ensures AfterQuota(AllowedLanguages, kv, req, userIp, true, ai, today).0.status != 400
  {
    GarbledListRefusesRealLabels();
    if ai.AiReplied? {
      ModelReplyPassedOn(AllowedLanguages, kv, req, userIp, ai.data, today);
    } else if ai.AiRefused? {
      ModelRefusalReply(AllowedLanguages, kv, req, userIp, ai, today);
    } else if ai.AiTimedOut? {
      ModelTimeoutReply(AllowedLanguages, kv, req, userIp, ai, today);
    } else {
      ModelErrorReply(AllowedLanguages, kv, req, userIp, ai, today);
    }
  }

  /** The corrected list accepts exactly what the server's language check accepts. */
  lemma CorrectedListIsServerCheck(language: string)
    ensures LanguageAllowed(AllowedLanguages, language) <==> ValidateLanguage(language)
    ensures forall l :: l in AllowedLanguages ==> LanguageAllowed(AllowedLanguages, l)
  {
  }
}
