/** The shared CORS helper (api/_cors.js): the decision which origin a response
    admits, and its effect as header writes on the response, following the CORS
    protocol of section 3.2 of the WHATWG Fetch Standard. The API base URL, the public
    site URL and the ALLOWED_ORIGINS variable are parameters. */
module Cors {
  import opened Text

  const AllowOrigin: string := "Access-Control-Allow-Origin"
  const AllowCredentials: string := "Access-Control-Allow-Credentials"
  const AllowMethods: string := "Access-Control-Allow-Methods"
  const AllowHeaders: string := "Access-Control-Allow-Headers"
  const MaxAge: string := "Access-Control-Max-Age"

  const MethodsValue: string := "GET, POST, OPTIONS, PUT, DELETE"
  const HeadersValue: string := "Content-Type, Authorization, X-Requested-With"
  /** 24 hours, in seconds. */
  const MaxAgeValue: string := "86400"

  const VercelSuffix: string := ".vercel.app"

  const LocalOrigins: seq<string> := ["http://localhost:3000", "http://localhost:5173", "http://localhost:8080"]

  /** `.map(o => o.trim()).filter(o => o.length > 0)`: every kept entry is non-empty and
      has no whitespace at either end. */
  function CleanEntries(parts: seq<string>): (r: seq<string>)
    ensures |r| <= |parts|
    ensures forall i :: 0 <= i < |r| ==> r[i] != "" && !IsWhitespace(r[i][0]) && !IsWhitespace(r[i][|r[i]| - 1])
  {
    if parts == [] then []
    else
      var t := Trim(parts[0]);
      if t == "" then CleanEntries(parts[1..]) else [t] + CleanEntries(parts[1..])
  }

  /** The cleaned list holds exactly the non-empty trimmed entries. */
  lemma {:induction false} CleanEntriesMembers(parts: seq<string>, x: string)
    ensures x in CleanEntries(parts) <==> x != "" && exists i :: 0 <= i < |parts| && Trim(parts[i]) == x
  {
    if parts != [] {
      CleanEntriesMembers(parts[1..], x);
      if x != "" && (exists i :: 0 <= i < |parts| && Trim(parts[i]) == x) {
        var i :| 0 <= i < |parts| && Trim(parts[i]) == x;
        if i > 0 {
          assert Trim(parts[1..][i - 1]) == x;
        }
      }
      if exists i :: 0 <= i < |parts[1..]| && Trim(parts[1..][i]) == x {
        var i :| 0 <= i < |parts[1..]| && Trim(parts[1..][i]) == x;
        assert Trim(parts[i + 1]) == x;
      }
    }
  }

  /** The allowed origins: the comma-separated ALLOWED_ORIGINS when set, otherwise the
      API base URL, the public site URL and three local development servers. */
  function AllowedOrigins(allowedOriginsEnv: string, apiBaseUrl: string, publicSiteUrl: string): (r: seq<string>)
    ensures allowedOriginsEnv == "" ==> r == [apiBaseUrl, publicSiteUrl] + LocalOrigins
    ensures allowedOriginsEnv != "" ==> r == CleanEntries(Split(allowedOriginsEnv, ','))
  {
    if allowedOriginsEnv != "" then CleanEntries(Split(allowedOriginsEnv, ','))
    else [apiBaseUrl, publicSiteUrl] + LocalOrigins
  }

  /** A request without Origin comes from the native app; any `*.vercel.app` origin is a
      preview deployment. */
  predicate IsAllowedOrigin(origin: string, allowed: seq<string>) {
    origin == "" || origin in allowed || EndsWith(origin, VercelSuffix)
  }

  /** The headers setCorsHeaders writes, by name. */
  function CorsHeaders(origin: string, allowed: seq<string>, publicSiteUrl: string): map<string, string> {
    var admitted :=
      if origin == "" then map[AllowOrigin := "*"]
      else if IsAllowedOrigin(origin, allowed) then map[AllowOrigin := origin][AllowCredentials := "true"]
      else map[AllowOrigin := publicSiteUrl][AllowCredentials := "true"];
    admitted[AllowMethods := MethodsValue][AllowHeaders := HeadersValue][MaxAge := MaxAgeValue]
  }

  /** Writing one more header onto a merge is merging one more header. */
  lemma MergeThenWrite(h: map<string, string>, m: map<string, string>, k: string, v: string)
    ensures (h + m)[k := v] == h + m[k := v]
  {
  }

  /** Without an Origin header the response admits every origin and claims no
      credentials; with one, credentials are always claimed. */
  lemma NativeAppWildcard(allowed: seq<string>, publicSiteUrl: string, origin: string)
    ensures var h := CorsHeaders(origin, allowed, publicSiteUrl);
            AllowOrigin in h && (origin == "" <==> h[AllowOrigin] == "*" && AllowCredentials !in h)
    ensures origin != "" ==> CorsHeaders(origin, allowed, publicSiteUrl)[AllowCredentials] == "true"
  {
  }

  /** A listed or preview origin is echoed back; any other origin is answered with the
      public site URL. */
  lemma OriginEcho(origin: string, allowed: seq<string>, publicSiteUrl: string)
    requires origin != ""
    ensures IsAllowedOrigin(origin, allowed) ==> CorsHeaders(origin, allowed, publicSiteUrl)[AllowOrigin] == origin
    ensures !IsAllowedOrigin(origin, allowed) ==> CorsHeaders(origin, allowed, publicSiteUrl)[AllowOrigin] == publicSiteUrl
  {
  }

  /** The admitted origin is never arbitrary: it is `*`, the public site, a listed origin
      or a preview deployment. */
  lemma AdmittedOriginIsPermitted(origin: string, allowed: seq<string>, publicSiteUrl: string)
    ensures var a := CorsHeaders(origin, allowed, publicSiteUrl)[AllowOrigin];
            a == "*" || a == publicSiteUrl || a in allowed || EndsWith(a, VercelSuffix)
  {
  }

  /** Methods, headers and the preflight cache age are written whatever the origin. */
  lemma FixedHeadersAlwaysSet(origin: string, allowed: seq<string>, publicSiteUrl: string)
    ensures var h := CorsHeaders(origin, allowed, publicSiteUrl);
            AllowMethods in h && h[AllowMethods] == MethodsValue
            && AllowHeaders in h && h[AllowHeaders] == HeadersValue
            && MaxAge in h && h[MaxAge] == MaxAgeValue
  {
  }

  /** With ALLOWED_ORIGINS set, an origin is listed exactly when it is one of its
      non-empty trimmed entries; the defaults play no part. */
  lemma {:induction false} EnvironmentListReplacesDefaults(env: string, apiBaseUrl: string, publicSiteUrl: string, origin: string)
    requires env != ""
    ensures origin in AllowedOrigins(env, apiBaseUrl, publicSiteUrl) <==>
              origin != "" && exists i :: 0 <= i < |Split(env, ',')| && Trim(Split(env, ',')[i]) == origin
  {
    SplitEntriesMembers(env, origin);
  }

  lemma {:induction false} SplitEntriesMembers(env: string, origin: string)
    ensures origin in CleanEntries(Split(env, ',')) <==>
              origin != "" && exists i :: 0 <= i < |Split(env, ',')| && Trim(Split(env, ',')[i]) == origin
  {
    CleanEntriesMembers(Split(env, ','), origin);
  }

  /** The part of the HTTP response the helpers write. */
  class Response {
    var headers: map<string, string>
    var status: Option<int>
    var ended: bool

    constructor ()
      ensures headers == map[] && status == None && !ended
    {
      headers := map[];
      status := None;
      ended := false;
    }

    method SetHeader(name: string, value: string)
      modifies this
      ensures headers == old(headers)[name := value]
      ensures status == old(status) && ended == old(ended)
    {
      headers := headers[name := value];
    }

    /** `res.status(code).end()`. */
    method End(code: int)
      modifies this
      ensures status == Some(code) && ended && headers == old(headers)
    {
      status := Some(code);
      ended := true;
    }
  }

  /** setCorsHeaders: the header writes, in the source's order. Earlier headers are
      kept; a credentials header from an earlier write is not removed. */
  method SetCorsHeaders(origin: string, allowedOriginsEnv: string, apiBaseUrl: string, publicSiteUrl: string,
                        res: Response)
    modifies res
    ensures res.headers == old(res.headers) + CorsHeaders(origin, AllowedOrigins(allowedOriginsEnv, apiBaseUrl, publicSiteUrl), publicSiteUrl)
    ensures res.status == old(res.status) && res.ended == old(res.ended)
  {
    var allowed := AllowedOrigins(allowedOriginsEnv, apiBaseUrl, publicSiteUrl);
    var isNativeApp := origin == "";
    var isVercelPreview := origin != "" && EndsWith(origin, VercelSuffix);
    var isAllowed := isNativeApp || origin in allowed || isVercelPreview;
    ghost var before := res.headers;
    ghost var written: map<string, string> := map[];
    assert res.headers == before + written;
    if isNativeApp {
      res.SetHeader(AllowOrigin, "*");
      MergeThenWrite(before, written, AllowOrigin, "*");
      written := written[AllowOrigin := "*"];
    } else if isAllowed {
      res.SetHeader(AllowOrigin, origin);
      MergeThenWrite(before, written, AllowOrigin, origin);
      written := written[AllowOrigin := origin];
      res.SetHeader(AllowCredentials, "true");
      MergeThenWrite(before, written, AllowCredentials, "true");
      written := written[AllowCredentials := "true"];
    } else {
      res.SetHeader(AllowOrigin, publicSiteUrl);
      MergeThenWrite(before, written, AllowOrigin, publicSiteUrl);
      written := written[AllowOrigin := publicSiteUrl];
      res.SetHeader(AllowCredentials, "true");
      MergeThenWrite(before, written, AllowCredentials, "true");
      written := written[AllowCredentials := "true"];
    }
    res.SetHeader(AllowMethods, MethodsValue);
    MergeThenWrite(before, written, AllowMethods, MethodsValue);
    written := written[AllowMethods := MethodsValue];
    res.SetHeader(AllowHeaders, HeadersValue);
    MergeThenWrite(before, written, AllowHeaders, HeadersValue);
    written := written[AllowHeaders := HeadersValue];
    res.SetHeader(MaxAge, MaxAgeValue);
    MergeThenWrite(before, written, MaxAge, MaxAgeValue);
    written := written[MaxAge := MaxAgeValue];
    assert written == CorsHeaders(origin, allowed, publicSiteUrl);
  }

  /** handlePreflight: an OPTIONS request is answered here with the CORS headers and an
      empty 200; any other request is left untouched. */
  method HandlePreflight(requestMethod: string, origin: string, allowedOriginsEnv: string, apiBaseUrl: string,
                         publicSiteUrl: string, res: Response) returns (handled: bool)
    modifies res
    ensures handled <==> requestMethod == "OPTIONS"
    ensures handled ==> res.status == Some(200) && res.ended
                        && res.headers == old(res.headers) + CorsHeaders(origin, AllowedOrigins(allowedOriginsEnv, apiBaseUrl, publicSiteUrl), publicSiteUrl)
    ensures !handled ==> res.headers == old(res.headers) && res.status == old(res.status) && res.ended == old(res.ended)
  {
    if requestMethod == "OPTIONS" {
      SetCorsHeaders(origin, allowedOriginsEnv, apiBaseUrl, publicSiteUrl, res);
      res.End(200);
      return true;
    }
    return false;
  }
}
