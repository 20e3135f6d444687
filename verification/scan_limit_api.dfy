/** The serverless scan-limit endpoint (api/scan-limit.js): a GET reporting the
    caller's remaining scans. Its `dailyScansStore` map is separate from the identify
    endpoint's and nothing in the file ever writes it, so the report is always the full
    daily limit. */
module ScanLimitApi {
  import opened Quota
  import ClientIp
  import Cors
  import ServerLimits

  /** The `userId` query parameter with '', 'null' and 'undefined' read as absent;
      an absent parameter is the empty string. */
  function NormaliseUserId(userId: string): (r: string)
    ensures r == "" <==> userId == "" || userId == "null" || userId == "undefined"
    ensures r != "" ==> r == userId
  {
    if userId == "" || userId == "null" || userId == "undefined" then "" else userId
  }

  /** The module-level map: created empty and never written. */
  const DailyScansStore: map<string, DayRecord> := map[]

  /** getRemainingScans over a map: the full limit without a record for today, otherwise
      `max(0, limit - count)`, which lies in [0, limit] when the count is not negative. */
  function GetRemainingScans(store: map<string, DayRecord>, userId: string, userIp: string, today: string)
    : (r: RemainingInfo)
    ensures r.level == UserLevel(userId) && r.limit == Limit(r.level)
    ensures var key := QuotaKey(userId, userIp);
            (key !in store || store[key].date != today) ==> r.remaining == r.limit
    ensures var key := QuotaKey(userId, userIp);
            key in store && store[key].date == today ==>
              r.remaining == (if r.limit - store[key].count > 0 then r.limit - store[key].count else 0)
    ensures var key := QuotaKey(userId, userIp);
            key in store && store[key].date == today && store[key].count >= 0 ==> 0 <= r.remaining <= r.limit
  {
    RemainingReport(ServerLimits.Get(store, QuotaKey(userId, userIp)), today, UserLevel(userId))
  }

  /** The parts of the request the endpoint reads; absent headers are the empty string. */
  datatype Request = Request(httpMethod: string, origin: string, forwardedFor: string, realIp: string, userId: string)

  /** What the shared CORS helper is configured with. */
  datatype CorsConfig = CorsConfig(allowedOriginsEnv: string, apiBaseUrl: string, publicSiteUrl: string)

  datatype Body = NoBody | ErrorBody(error: string) | Report(info: RemainingInfo)

  datatype HttpReply = HttpReply(status: int, headers: map<string, string>, body: Body)

  const MethodNotAllowedMessage: string := "Method not allowed"

  /** One request against the endpoint's own map. */
  function Handle(req: Request, cors: CorsConfig, today: string): (reply: HttpReply)
    ensures reply.headers
            == Cors.CorsHeaders(req.origin, Cors.AllowedOrigins(cors.allowedOriginsEnv, cors.apiBaseUrl, cors.publicSiteUrl),
                                cors.publicSiteUrl)
  {
    var headers :=
      Cors.CorsHeaders(req.origin, Cors.AllowedOrigins(cors.allowedOriginsEnv, cors.apiBaseUrl, cors.publicSiteUrl),
                       cors.publicSiteUrl);
    if req.httpMethod == "OPTIONS" then HttpReply(200, headers, NoBody)
    else if req.httpMethod != "GET" then HttpReply(405, headers, ErrorBody(MethodNotAllowedMessage))
    else
      var userId := NormaliseUserId(req.userId);
      var userIp := ClientIp.ResolveIp(req.forwardedFor, req.realIp);
      HttpReply(200, headers, Report(GetRemainingScans(DailyScansStore, userId, userIp, today)))
  }

  /** Every GET is answered with the whole daily limit: three scans for a caller without a
      user id (or with '', 'null' or 'undefined'), five for anyone else. */
  lemma AlwaysFullLimit(req: Request, cors: CorsConfig, today: string)
    requires req.httpMethod == "GET"
    ensures var reply := Handle(req, cors, today);
            var guest := req.userId == "" || req.userId == "null" || req.userId == "undefined";
            reply.status == 200
            && reply.body == Report(RemainingInfo(if guest then 3 else 5, if guest then 3 else 5,
                                                  if guest then Guest else Free))
  {
  }

  /** A preflight is an empty 200, and any method other than GET a 405. */
  lemma PreflightAndMethodRule(req: Request, cors: CorsConfig, today: string)
    ensures req.httpMethod == "OPTIONS" ==> Handle(req, cors, today).status == 200 && Handle(req, cors, today).body == NoBody
    ensures req.httpMethod != "OPTIONS" && req.httpMethod != "GET" ==>
              Handle(req, cors, today).status == 405 && Handle(req, cors, today).body == ErrorBody(MethodNotAllowedMessage)
    ensures Handle(req, cors, today).status == 200 <==> req.httpMethod == "OPTIONS" || req.httpMethod == "GET"
  {
  }
}
