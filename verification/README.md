# Ok Snap core, modelled in Dafny

Ok Snap identifies a dish from a photo and publishes a recipe blog post about it. Most
of the code is HTTP glue around the vision and text models, the GitHub contents API,
Supabase and Vercel. Inside that glue sit small deterministic decisions, and this
project models them. Every answer from an outside service is an input value, and so is
the clock: `today`, `now` and the midnight reset time are parameters.

The modules follow the source files:

- **Quota and rate limits.**
  - `Quota` holds the user levels, daily limits, the per-day scan record, the 15-minute
    request window and the decisions over them.
  - `RateLimitStorage` is the persistent ledger in `lib/rate-limit-storage.js`. It is
    pure step functions over a key-value table, plus the class `RateLimitStore` whose
    methods run the same steps on a `map` field. The table records whether reads and
    writes reach it, so an unconfigured or failing Supabase is part of the model: the
    ledger then fails open and charges nothing.
  - `ServerLimits` is the Express server's copy in `server.js`: a class over three maps,
    with its eviction and sweep loops.
  - `IdentifyApi` (`api/identify.js`) and `ScanLimitApi` (`api/scan-limit.js`) are the
    two reduced in-memory copies.
  - `ClientIp` is how the endpoints name the caller.
- **Identify requests.**
  - `Validation` covers the image data URL and target-language checks.
  - `IdentifyHandler` is the routed handler in `api-handlers/identify.js`. As with the
    blog publisher, `HandleAsWritten` uses the language list as written and `Handle`
    the intended one.
- **Blog generation.**
  - `BlogSlug` is `createSlug`.
  - `BlogFences` strips markdown code fences from the generated HTML.
  - `BlogPublisher` is the GitHub publisher in `api/generate-blog.js`: the image URL,
    the existence skip, the recipe-index upsert, and the three-PUT retry loop (a method
    proved against a recursive specification). The publisher and the handler take the
    image-URL rules as a parameter: `HandleAsWritten` runs the rewrites as the code
    writes them, and `Handle` the corrected ones of the Findings. The lemmas about the
    handler hold under both.
  - `BlogStore` is the Supabase generator in `api-handlers/generate-blog.js`. Its
    `SupabaseEnv`, `Key` and `Configured` (SUPABASE_URL, and the service-role key or
    else the anonymous key) are shared by `RecipesStore` and `SyncRecipesStore`, which
    read the same variables.
- **Recipe index.**
  - `SyncRecipes` (`api/sync-recipes.js`) filters the listing and builds one entry per
    post with a loop. It then orders the entries newest first with a stable
    insertion sort, proved to be an ordered permutation.
  - `SyncRecipesStore` (`api-handlers/sync-recipes.js`) maps the same entries to
    Supabase rows.
  - `RecipesStore` (`api-handlers/recipes-store.js`) validates and upserts batches.
- **Plumbing.**
  - `ApiRouter` is the path normalisation and dispatch of `api/index.js`.
  - `Cors` is the origin decision of `api/_cors.js` and its header writes on a `Response`
    object. These are the response headers of the CORS protocol, section 3.2 of the
    WHATWG Fetch Standard.
  - `ErrorResponse` is the error body and the status/code table of
    `lib/error-response.js`. Its 429 is the status of section 4 of RFC 6585.
  - `SlugValidation` covers slug checks and `encodeURIComponent`, which is
    percent-encoding per section 2.1 of RFC 3986 over UTF-8 per section 3 of RFC 3629.
  - `Text` holds the JavaScript string operations the handlers use (`trim`, `split`,
    `replace` with a string pattern, ASCII `toLowerCase`), and the TypeError message
    for destructuring an undefined `req.body`.
- **Request bodies.** Each POST handler's request records whether there is a body at
  all. Destructuring a missing `req.body` throws, and the handler's catch answers 500
  before anything else happens. In the identify handlers that is before a scan is
  charged.

A JavaScript string is falsy exactly when it is empty, so an absent header, query
parameter or body field is modelled as `""` throughout.

## Model

| member | source | states |
|---|---|---|
| ErrorResponse.CreateErrorResponse | lib/error-response.js:12-18 | the body always has success false and carries the given code and message |
| ErrorResponse.SendErrorResponse | lib/error-response.js:29-46 | the reply has the given status, success false, the given code and the given message |
| ErrorResponse.ErrorDetailNeverSent | lib/error-response.js:29-46 | the reply is the same whatever error detail is passed: the detail is only logged, and the body is exactly {success: false, error, message} |
| ErrorResponse.Send | lib/error-response.js:70-120 | every helper reply has success false |
| ErrorResponse.StatusOf | lib/error-response.js:70-120 | every helper answers with a status in 400-599; 429 (section 4 of RFC 6585) exactly for rateLimitExceeded and 504 exactly for gatewayTimeout |
| ErrorResponse.CodeOf | lib/error-response.js:51-120 | EXTERNAL_SERVICE_ERROR exactly for externalServiceError and gatewayTimeout, VALIDATION_ERROR exactly for validationError, BAD_REQUEST exactly for badRequest, and no helper sends SCAN_LIMIT_EXCEEDED |
| ErrorResponse.DefaultMessage | lib/error-response.js:70-120 | badRequest, configurationError and validationError have no default message, every other helper a non-empty one |
| ErrorResponse.StatusTable | lib/error-response.js:70-120 | client helpers (badRequest, notFound, methodNotAllowed, rateLimitExceeded, validationError) answer 4xx and the rest 5xx; 400 exactly for badRequest and validationError; 500 exactly for the four server failures |
| ErrorResponse.CodesShared | lib/error-response.js:112-119 | two distinct helpers share a code only for externalServiceError and gatewayTimeout; status and code together identify the helper; validationError's code differs from badRequest's |
| ErrorResponse.HelperReply | lib/error-response.js:70-120 | each helper sends its own status and code, the given message or else its default, and never the error detail |
| Cors.CleanEntries | api/_cors.js:33-34 | the cleaned ALLOWED_ORIGINS list is no longer than the split, and every kept entry is non-empty with no whitespace at either end |
| Cors.CleanEntriesMembers | api/_cors.js:34 | a string is kept exactly when it is non-empty and is the trimmed form of some entry |
| Cors.AllowedOrigins | api/_cors.js:24-35 | without ALLOWED_ORIGINS the list is the API base, the public site and the three localhost servers; with it, the cleaned split of the variable |
| Cors.EnvironmentListReplacesDefaults | api/_cors.js:33-35 | with ALLOWED_ORIGINS set, an origin is allowed exactly when it is a non-empty trimmed entry of it; the defaults play no part |
| Cors.NativeAppWildcard | api/_cors.js:37-48 | with no Origin header the response admits `*` and sets no credentials header, and with an Origin header credentials are always 'true' |
| Cors.OriginEcho | api/_cors.js:40-56 | a listed or `*.vercel.app` origin is echoed back; any other origin is answered with the public site URL |
| Cors.AdmittedOriginIsPermitted | api/_cors.js:43-56 | the admitted origin is always `*`, the public site, a listed origin or a preview deployment |
| Cors.FixedHeadersAlwaysSet | api/_cors.js:58-60 | the methods, headers and Max-Age 86400 headers are set whatever the origin |
| Cors.SetCorsHeaders | api/_cors.js:15-61 | the response's headers become the old ones merged with exactly the CORS decision for this origin; status and end state are untouched |
| Cors.MergeThenWrite | api/_cors.js:15-61 | writing one more header onto a merge is merging one more header |
| Cors.HandlePreflight | api/_cors.js:71-78 | it handles the request exactly when the method is OPTIONS, then the CORS headers are set and the response ended with 200; otherwise the response is untouched |
| ApiRouter.StripQuery | api/index.js:32-35 | the path keeps no '?', is a prefix of the URL, and equals the URL when it has no query |
| ApiRouter.RouteOf | api/index.js:37-38 | the route is never longer than the path |
| ApiRouter.ApiPrefixStripped | api/index.js:38 | "/api/" + r and "/api" + r (r not starting with '/') both route to r, so "/api" alone gives ""; a path not starting with "/api" is its own route |
| ApiRouter.QueryIgnored | api/index.js:32-38 | appending a query string never changes the route |
| ApiRouter.Capture | api/index.js:77-85 | the pattern matches exactly when the route starts with the prefix and has a non-empty rest without line terminators, and the capture is that rest |
| ApiRouter.NoCaptureAt | api/index.js:77-85 | a route too short for the prefix, or differing from it at the prefix's last character, is not captured |
| ApiRouter.Route | api/index.js:21-26 | the router answers the preflight itself exactly for OPTIONS |
| ApiRouter.FixedRouteDispatch | api/index.js:44-74 | each fixed route reaches its handler exactly with its listed methods, and with any other method ends in the 404 naming the route |
| ApiRouter.Dispatch | api/index.js:44-97 | a method other than GET or POST always ends in the 404 naming the route; a slug handler is reached only by a GET whose route is its prefix followed by the slug; a 404 names the route |
| ApiRouter.SlugRoutes | api/index.js:72-91 | a GET of "blogs/<slug>" or "blog-exists/<slug>" reaches the slug handler with everything after the first '/' as the slug, and "blogs" alone is not captured |
| ApiRouter.UnknownRouteNotFound | api/index.js:93-97 | a route no fixed entry names and no slug pattern captures gets the 404 'API route not found: <route>' whatever the method |
| SlugValidation.IsValidSlug | lib/slug-validation.js:9-16 | a slug is valid exactly when it is non-empty and every character is one of a-z, 0-9, '_' and '-' |
| SlugValidation.ValidateSlug | lib/slug-validation.js:24-31 | nothing is thrown exactly for a valid slug; an empty slug throws '<param> is required', any other invalid one the format message |
| SlugValidation.EncodeSlugForUrl | lib/slug-validation.js:39-42 | the empty slug encodes to '', any other slug to its encodeURIComponent |
| SlugValidation.ValidSlugEncodesToItself | lib/slug-validation.js:39-42 | every valid slug is its own URL encoding |
| SlugValidation.UnreservedUnchanged | lib/slug-validation.js:41 | a string of characters that encodeURIComponent leaves alone encodes to itself |
| SlugValidation.EncodingLengthensReserved | lib/slug-validation.js:41 | the encoding is the identity, and keeps the length, exactly when every character is unreserved |
| SlugValidation.EncodingDecodesToUtf8 | lib/slug-validation.js:41 | percent-decoding the encoding gives back exactly the UTF-8 bytes of the input, so the encoding loses nothing |
| SlugValidation.DecodeEscaped | lib/slug-validation.js:41 | decoding an escaped byte run followed by any text gives back those bytes followed by the text's decoding |
| SlugValidation.EncodeChar | lib/slug-validation.js:41 | an unreserved character is kept; any other becomes at least one '%'-escape |
| SlugValidation.Utf8 | lib/slug-validation.js:41 | the UTF-8 encoding of a character is 1 to 4 bytes, one byte exactly for ASCII and then the code itself (RFC 3629 section 3) |
| BlogSlug.Collapse | api/generate-blog.js:99-104 | after the run replacement only a-z, 0-9 and '-' remain, with no two hyphens adjacent; a run at the front becomes a leading hyphen |
| BlogSlug.DropRun | api/generate-blog.js:102 | dropping a leading run of characters outside a-z and 0-9 never lengthens the string and leaves it empty or starting with a letter or digit |
| BlogSlug.ShapedTail | api/generate-blog.js:102 | the tail of a string over a-z, 0-9 and single hyphens is again over them |
| BlogSlug.DropSingleHyphen | api/generate-blog.js:102 | a hyphen followed by a letter, a digit or nothing is a run of one, and only it is dropped |
| BlogSlug.CreateSlug | api/generate-blog.js:99-104 | every slug holds only a-z, 0-9 and single hyphens, with no hyphen at either end |
| BlogSlug.CreateSlugIdempotent | api/generate-blog.js:99-104 | making a slug of a slug changes nothing |
| BlogSlug.CollapseFixesShaped | api/generate-blog.js:102 | a string already over a-z, 0-9 and single hyphens is left unchanged by the run replacement |
| BlogSlug.CreateSlugKeepsAlnums | api/generate-blog.js:99-104 | the letters and digits of the slug are exactly those of the lower-cased name, in order |
| BlogSlug.Alnums | api/generate-blog.js:99-104 | the letters and digits of a string, in order: every character kept is in a-z or 0-9 |
| BlogSlug.AlnumsAppend | api/generate-blog.js:99-104 | the letters and digits of a concatenation are those of each part, in order |
| BlogSlug.DropRunKeepsAlnums | api/generate-blog.js:102 | dropping a leading run loses no letter or digit |
| BlogSlug.LowerFixesLower | api/generate-blog.js:101 | lower-casing a string without upper-case ASCII letters changes nothing |
| BlogSlug.CollapseKeepsAlnums | api/generate-blog.js:102 | the run replacement keeps every letter and digit, in order |
| BlogSlug.StripKeepsAlnums | api/generate-blog.js:103 | removing the edge hyphens keeps every letter and digit, in order |
| BlogSlug.EmptySlugIffNoAlnum | api/generate-blog.js:99-104 | the slug is empty exactly when the name has no ASCII letter or digit; a non-empty slug always passes isValidSlug |
| BlogSlug.HangulNameHasEmptySlug | api/generate-blog.js:704-709 | a Hangul-only dish name, which the handler accepts because it is non-empty, gets the empty slug |
| BlogFences.NoFenceAfterRemoval | api/generate-blog.js:87-89 | after every "```" (with an optional newline) is removed, no three backticks remain anywhere |
| BlogFences.RemoveMarker | api/generate-blog.js:87-88 | removing every marker and the newline after it never lengthens the text |
| BlogFences.FirstKept | api/generate-blog.js:87-88 | a character that does not start the marker is kept, and the removal goes on after it |
| BlogFences.NoFenceAtFrontAfterKept | api/generate-blog.js:87-89 | when the first character is kept, the result cannot open with three backticks |
| BlogFences.InfixHasNoFence | api/generate-blog.js:87-89 | a piece taken from fence-free text has no fence |
| BlogFences.TrimHasNoFence | api/generate-blog.js:87-89 | trimming fence-free text leaves it fence-free |
| BlogFences.StripFences | api/generate-blog.js:85-90 | a trimmed reply that opens with a fence, html or plain, comes out with no three backticks left in it; any other reply is only trimmed; the result never starts or ends with white space |
| BlogFences.HtmlFenceRoundTrip | api/generate-blog.js:85-88 | a reply "```html\n<body>\n```" yields exactly the body, for a body without backticks or surrounding whitespace |
| BlogFences.PlainFenceRoundTrip | api/generate-blog.js:85-90 | a reply "```\n<body>\n```" yields exactly the body, under the same conditions |
| BlogFences.Unfence | api/generate-blog.js:86-89 | on the trimmed reply: fenced content loses every fence and has no edge white space; content not opening with a fence is kept as it is |
| BlogFences.LeadingMarker | api/generate-blog.js:87 | a marker followed by a newline is removed together with the newline |
| BlogFences.RemoveMarkerSkipsPlain | api/generate-blog.js:87 | text without backticks passes the removal unchanged |
| BlogFences.ClosingFenceDropped | api/generate-blog.js:87-89 | a closing "\n```" loses its fence and keeps the newline |
| BlogFences.ShortTextKept | api/generate-blog.js:87 | text shorter than the marker passes the removal unchanged |
| BlogFences.ClosingFenceRemoved | api/generate-blog.js:89 | a closing "\n```" loses its fence and keeps the newline |
| BlogFences.TrimDropsNewline | api/generate-blog.js:87-89 | trimming a body without edge white space plus a trailing newline gives the body |
| BlogFences.FencedTextTrimmed | api/generate-blog.js:85 | text that starts and ends with a backtick is its own trim |
| BlogFences.BodyKeepsThroughHtmlMarker | api/generate-blog.js:87 | a body without backticks followed by a closing fence passes the html-marker removal unchanged |
| BlogPublisher.ImageUrlAsWritten | api/generate-blog.js:206-213 | the featured-image URL of the page always starts with the public site's address, whatever the image path |
| BlogPublisher.ImageUrl | api/generate-blog.js:206-213 | the featured-image URL (with absolute URLs kept) is always an http(s) URL |
| BlogPublisher.SitePathRewrite | api/generate-blog.js:209-213 | '/public-site/x', '/x' and a relative 'x' all become the site address followed by '/x' |
| BlogPublisher.AbsoluteUrlMangledAsWritten | api/generate-blog.js:209-213 | as written, an absolute image URL such as the generator returns is glued after the site address and so differs from the URL it was given |
| BlogPublisher.ImageUrlCorrected | api/generate-blog.js:209-213 | the corrected rewrite keeps absolute URLs as they are and agrees with the code as written on every site path |
| BlogPublisher.ReportedImageUrl | api/generate-blog.js:598-603 | the image URL reported after publishing is the absolute URL itself, or else the site's images/blogs/<slug>.png |
| BlogPublisher.FallbackImageUrlAsWritten | api/generate-blog.js:762 | the fallback reply's image URL always starts with the site address |
| BlogPublisher.FallbackUrlMangledAsWritten | api/generate-blog.js:762 | as written, an absolute image URL becomes 'https://ok-snap.comhttp…', which is not the URL given |
| BlogPublisher.FallbackImageUrl | api/generate-blog.js:762 | the corrected fallback image URL is always an http(s) URL |
| BlogPublisher.FallbackImageUrlCorrected | api/generate-blog.js:762 | the corrected fallback URL keeps an absolute URL and is the site address plus the path otherwise, as written |
| BlogPublisher.PageImageUrl | api/generate-blog.js:206-213 | the page's image URL starts with the site address, or under the corrected rules is an absolute URL kept as given; a site path is rewritten as the code does under both rules |
| BlogPublisher.FallbackUrl | api/generate-blog.js:762 | the fallback image URL starts with the site address, or under the corrected rules is an absolute URL kept as given; a site path is the site address plus the path under both rules |
| BlogPublisher.BlogUrl | api/generate-blog.js:452 | a post's URL lies under the site's /blogs/ and ends in .html |
| BlogPublisher.NewEntry | api/generate-blog.js:448-454 | the index entry of a new post carries the slug, the dish name as title and name, the post URL and the day of the call |
| BlogPublisher.FindSlug | api/generate-blog.js:456 | the lookup finds nothing exactly when no entry has the slug, and otherwise the first entry that has it |
| BlogPublisher.Upsert | api/generate-blog.js:456-463 | after the update the index always contains the new entry |
| BlogPublisher.CountAppend | api/generate-blog.js:456-463 | the entries with a slug in a concatenation are those of each part |
| BlogPublisher.WithoutAppend | api/generate-blog.js:456-463 | removing a slug from a concatenation removes it from each part |
| BlogPublisher.CountZeroIffAbsent | api/generate-blog.js:456 | a slug counts zero times exactly when no entry has it |
| BlogPublisher.ReplaceSameSlug | api/generate-blog.js:459 | replacing an entry by one with the same slug keeps the number of entries with that slug and every other entry |
| BlogPublisher.UpsertKeepsOthers | api/generate-blog.js:456-463 | the entries with other slugs are kept, unchanged and in their order |
| BlogPublisher.UpsertCount | api/generate-blog.js:456-463 | a new slug ends up exactly once; an existing slug keeps its number of entries, so an index without duplicates keeps none |
| BlogPublisher.UpsertPlacement | api/generate-blog.js:457-459 | an existing slug is replaced at its first position, the length and every other position unchanged |
| BlogPublisher.UpsertPrepends | api/generate-blog.js:460-462 | a new slug goes to the front of the index |
| BlogPublisher.UpsertIdempotent | api/generate-blog.js:456-463 | repeating the update with the same entry changes nothing |
| BlogPublisher.InitialIndex | api/generate-blog.js:372-445 | the index and sha are kept only from a fetched index that decodes to an array; a 404, another status, a thrown fetch, a non-array or bad JSON start from the empty index without sha |
| BlogPublisher.PutOf | api/generate-blog.js:474-483 | the PUT body carries the index, and a sha exactly when one is known |
| BlogPublisher.AfterConflict | api/generate-blog.js:520-553 | the state after a 422 still holds the entry when the state before did |
| BlogPublisher.NextState | api/generate-blog.js:520-554 | after a failure other than 422 the next attempt sends the same state |
| BlogPublisher.RetryRun | api/generate-blog.js:470-591 | the loop sends between one and three PUTs, the first being the current index |
| BlogPublisher.ResumedStep | api/generate-blog.js:496-554 | a failed attempt before the last adds the PUT it sent to the finished ones and carries on with the next state |
| BlogPublisher.RetryStopsAtFirstSuccess | api/generate-blog.js:496-591 | the loop stops at the first successful PUT, succeeds exactly when its last PUT did, and fails only after all three attempts |
| BlogPublisher.RetryBodies | api/generate-blog.js:520-554 | after a 422 whose re-read decodes, the next PUT is the entry upserted into the re-read index with the fresh sha; after any other failure the same body is sent again |
| BlogPublisher.RetrySendsEntry | api/generate-blog.js:541-548 | once the entry is in the index, every PUT the loop sends contains it |
| BlogPublisher.UpdateIndexWithRetry | api/generate-blog.js:456-591 | the loop, run step by step, sends exactly the PUTs of the retry specification and reports its success |
| BlogPublisher.InBase | api/generate-blog.js:271 | a path in the base folder ends with the file name and is the bare file name when the base is empty |
| BlogPublisher.Branch | api/generate-blog.js:169 | the branch is never empty, and GITHUB_BRANCH is used as given when set |
| BlogPublisher.BasePath | api/generate-blog.js:172 | the base path is empty exactly when GITHUB_BASE_PATH is set to the empty string; unset, it is public-site |
| BlogPublisher.BlogFilePath | api/generate-blog.js:271 | the post file ends in blogs/<slug>.html, is exactly that at the root when the base path is set empty, and lies under the base path and a '/' otherwise |
| BlogPublisher.RepoWellFormed | api/generate-blog.js:189-190 | GITHUB_REPO passes the owner/repo check exactly when its first '/' is neither its first nor its last character nor followed by another '/' |
| BlogPublisher.FirstSlashShape | api/generate-blog.js:189-190 | both parts of the split are non-empty exactly when the first '/' sits strictly inside the string and is not followed by another |
| BlogPublisher.IndexStage | api/generate-blog.js:358-591 | the index update sends between one and three PUTs |
| BlogPublisher.Publish | api/generate-blog.js:161-679 | index writes happen exactly when the blog file was written; a skipped post writes nothing; at most three index PUTs; the page written carries the image rewrite of the given rules (AsWritten for the code as written, Corrected for the intended one) |
| BlogPublisher.CredentialsChecked | api/generate-blog.js:178-186 | under either image rules, a missing token or repository fails first, without details and without any request |
| BlogPublisher.ExistingBlogSkipped | api/generate-blog.js:288-301 | under either image rules, an existing blog file makes the call a skip with the post URL and 'Blog already exists', writing nothing |
| BlogPublisher.IndexWritesAfterBlogFile | api/generate-blog.js:310-656 | after the blog file is written, the index writes are the loop's, the first holding the upserted index, the post is published exactly when the loop succeeded, and the page's featured image is the given rules' rewrite of the image path; with the rules as written that is the site-prefixed rewrite of the Findings |
| BlogPublisher.UnreadableIndexStartsFresh | api/generate-blog.js:408-445 | an unreadable or undecodable index is replaced by one holding only the new entry, sent without sha |
| BlogPublisher.PublishedIndexHoldsEntry | api/generate-blog.js:456-591 | every index PUT holds the new entry, a successful update ends in a successful PUT, and an index without duplicates gets the slug exactly once |
| BlogPublisher.Answer | api/generate-blog.js:741-768 | a generated post is always answered 200, with the fallback body exactly when publishing failed; the fallback's image URL follows the given rules |
| BlogPublisher.HandleWith | api/generate-blog.js:682-779 | the handler under given image rules: every reply carries the handler's CORS headers |
| BlogPublisher.HandleAsWritten | api/generate-blog.js:682-779 | the handler as written: every reply carries the handler's CORS headers and is a 200, 400, 405 or 500 |
| BlogPublisher.Handle | api/generate-blog.js:682-779 | the corrected handler (absolute image URLs kept): every reply carries the handler's CORS headers and is a 200, 400, 405 or 500 |
| BlogPublisher.RequestChecks | api/generate-blog.js:689-706 | under either image rules, a preflight is an empty 200, other methods but POST a 405, a POST without a body the catch's 500 with the destructuring TypeError's message (lines 697-698 and 769-778), a POST without a dish name a 400, whatever the generator and GitHub would answer |
| BlogPublisher.GeneratedPostAnswered | api/generate-blog.js:735-768 | under either image rules, a generated post is answered 200: the created post's URL and image when published, else the post content, the reason and the rules' fallback image URL, which as written is the site address glued to the image path |
| BlogPublisher.AbsoluteImageFiledAsWritten | api/generate-blog.js:206-213 | end to end, as written a page made with the generator's absolute image URL is filed with the site address and a '/' glued in front of it; the corrected publisher files the URL itself |
| BlogPublisher.AbsoluteImageAnsweredAsWritten | api/generate-blog.js:755-766 | end to end, when publishing fails the reply's image URL is, as written, the site address run together with the absolute URL, and the URL itself when corrected |
| BlogPublisher.AbsoluteFallbackImage | api/generate-blog.js:762 | for an absolute image URL the fallback reply carries the site address glued to it as written, and the URL itself when corrected |
| BlogPublisher.GenerationFailureIs500 | api/generate-blog.js:769-778 | under either image rules, a failed generation or a missing OpenAI key gives a 500 with the failure's message or 'Unknown error' |
| BlogPublisher.NameWithoutAlnumGivesEmptySlug | api/generate-blog.js:704-709 | a non-empty dish name with no ASCII letter or digit passes the name check and gets the empty slug |
| BlogPublisher.NoAlnumCharsNoAlnums | api/generate-blog.js:99-104 | a string with no ASCII letter or digit keeps none |
| BlogStore.Key | api-handlers/generate-blog.js:167 | no key is available exactly when neither the service-role key nor the anonymous key is set |
| BlogStore.OrNull | api-handlers/generate-blog.js:204-207 | an empty field is stored as null and any other value as itself |
| BlogStore.BlogRowOf | api-handlers/generate-blog.js:200-211 | the blog row carries the slug, the dish name as title and name, the content; the image URL is null exactly when there is no image; the cuisine is null exactly when absent for a non-Korean dish and falls back to 'Korean' for a Korean one; the language is 'en' exactly when absent or 'en' |
| BlogStore.StoreBlog | api-handlers/generate-blog.js:161-284 | missing credentials insert nothing; the recipe row is inserted exactly when the store succeeds, and a stored post's blog row carries its slug |
| BlogStore.CredentialsFirst | api-handlers/generate-blog.js:166-174 | a missing URL or key fails first, before any request, whatever Supabase would answer |
| BlogStore.ExistingSlugSkipped | api-handlers/generate-blog.js:185-197 | a slug with a row already is a skip with the post URL and 'Blog already exists', inserting nothing |
| BlogStore.FailedCheckMeansAbsent | api-handlers/generate-blog.js:185-197 | an existence check that is not ok or not an array counts as 'no row yet' |
| BlogStore.InsertDecides | api-handlers/generate-blog.js:219-272 | a failed blog insert fails the store and writes no recipe row; a successful one also inserts the recipe row and succeeds whatever that insert answers |
| BlogStore.Answer | api-handlers/generate-blog.js:342-357 | the reply is 200 exactly when the store did not fail, and 500 otherwise |
| BlogStore.Handle | api-handlers/generate-blog.js:287-368 | every reply carries the handler's CORS headers |
| BlogStore.RequestChecks | api-handlers/generate-blog.js:294-311 | a preflight is an empty 200, other methods but POST a 405, a POST without a body the catch's 500 with the destructuring TypeError's message (lines 302-303 and 358-366), a POST without a dish name a 400 |
| BlogStore.StoreOutcomeReplies | api-handlers/generate-blog.js:314-357 | a generated post is answered 200 when stored or already there, and a 500 carrying the store's reason when storing failed |
| ClientIp.FirstForwarded | api/identify.js:58 | the entry taken from x-forwarded-for holds no comma and has no surrounding whitespace |
| ClientIp.ResolveIp | api/identify.js:58-60 | an address is always found: the first forwarded entry if non-empty, else x-real-ip if set, else 127.0.0.1 |
| ClientIp.ClientEntryWins | api/scan-limit.js:25-27 | behind a chain of proxies the client's own first entry is used, whatever the later entries and x-real-ip say |
| ClientIp.NoForwardingHeader | api/scan-limit.js:25-27 | without x-forwarded-for, x-real-ip is used, and 127.0.0.1 only when it is absent too |
| Quota.UserLevel | lib/rate-limit-storage.js:16-19 | a caller is a guest exactly when no user id is given |
| Quota.Limit | lib/rate-limit-storage.js:7-10 | guests get 3 scans a day and logged-in free users 5 |
| Quota.QuotaKey | lib/rate-limit-storage.js:240 | a user's count is kept under the user id, a guest's under 'ip_' followed by the address |
| Quota.FirstScan | lib/rate-limit-storage.js:265-270 | a new day's record has one scan used, today's date, the caller's level and no bonus |
| Quota.FirstGuestScan | lib/rate-limit-storage.js:274-280 | a new guest-by-IP record has one scan used and today's date |
| Quota.TrackGuest | lib/rate-limit-storage.js:301-313 | guest tracking always leaves a record dated today: today's record one higher, any other replaced by a fresh count of 1 |
| Quota.Remaining | lib/rate-limit-storage.js:343-351 | the scans left are never negative: the whole limit without a record for today, else the limit less today's count, and 0 once the count reaches the limit |
| Quota.Decide | lib/rate-limit-storage.js:262-298 | a new day starts exactly when there is no record for today; a scan is refused exactly when today's count has reached the limit; otherwise the count rises by one and stays within the limit |
| Quota.Reply | lib/rate-limit-storage.js:282-320 | the scan is allowed exactly unless refused; a reset time is given exactly on a refusal; the remaining count after a counted scan is never negative |
| Quota.BonusCount | lib/rate-limit-storage.js:417-422 | the user record written by the login bonus never has a negative count, and has count 0 whenever the guest count was non-negative |
| Quota.BonusRemaining | lib/rate-limit-storage.js:421 | the scans reported after the bonus never exceed the free limit, and are the full free limit after any non-negative guest count |
| Quota.BonusRecord | lib/rate-limit-storage.js:425-430 | the bonus record is today's, of level free, marked as bonus applied, with count 0 after guest use |
| Quota.RemainingReport | lib/rate-limit-storage.js:329-352 | the report carries the caller's level and limit and a remaining count between 0 and the limit, the whole limit without a record for today |
| Quota.CeilSeconds | lib/rate-limit-storage.js:216 | the retry delay in whole seconds covers the remaining window and overshoots it by less than a second |
| Quota.RateDecide | lib/rate-limit-storage.js:188-224 | a request is allowed exactly when the window is written; a missing or expired window restarts at 1 for 15 minutes; a full window refuses with the seconds left; otherwise the count rises by one |
| Quota.RateWindowStaysBounded | lib/rate-limit-storage.js:188-224 | a window written by a request holds between 1 and 20 requests and does not expire before the request |
| RateLimitStorage.KeyFamiliesDiffer | lib/rate-limit-storage.js:190-241 | the rate-window, daily-scan and guest-scan keys never collide |
| RateLimitStorage.Lookup | lib/rate-limit-storage.js:42-93 | a value is found exactly when reads reach the table and it holds the key, and it is the stored one |
| RateLimitStorage.Store | lib/rate-limit-storage.js:96-153 | when writes reach the table the key then holds the value written (and reads it back when reads reach it too); every other key reads as before; a write that does not reach the table changes nothing |
| RateLimitStorage.Delete | lib/rate-limit-storage.js:156-177 | when writes reach the table the key is gone afterwards; every other key reads as before; a delete that does not reach the table changes nothing |
| RateLimitStorage.BonusEffect | lib/rate-limit-storage.js:414-435 | when the bonus fires (which needs a read that reached the table) all five scans are reported; if its writes land the user's record becomes today's with count 0 and the bonus flag and the IP's guest record is deleted, and if not the table is unchanged |
| RateLimitStorage.BonusOncePerDay | lib/rate-limit-storage.js:408-411 | when its writes land, asking again straight after the bonus fired grants nothing and changes nothing; when they do not, asking again grants it again |
| RateLimitStorage.BonusAlreadyApplied | lib/rate-limit-storage.js:408-411 | a user whose record for today carries the bonus flag gets no bonus and the table is unchanged |
| RateLimitStorage.FreshDayStartsAtOne | lib/rate-limit-storage.js:262-283 | when reads and writes reach the table, a first scan of the day stores count 1 dated today and reports limit - 1 left; a guest's IP record also starts at 1 |
| RateLimitStorage.AllowedScanCountsOne | lib/rate-limit-storage.js:296-320 | when writes reach the table, a scan under the limit raises today's count by exactly one, keeps the rest of the record and reports limit less the new count, never negative |
| RateLimitStorage.GuestScanTracked | lib/rate-limit-storage.js:274-313 | when reads and writes reach the table, a guest's allowed scan also sets the IP's guest record: 1 on a new day, else today's guest record plus one, or a fresh 1 when it is stale |
| RateLimitStorage.DenialWritesNothing | lib/rate-limit-storage.js:286-294 | a refused scan leaves the table exactly as it was and reports 0 left; it reports the next midnight, except on the bonus path, which refuses only when the bonus could not be written and then reports no reset time |
| RateLimitStorage.BonusScanIsNotCounted | lib/rate-limit-storage.js:244-260 | when the bonus fires inside the scan check and is written, the scan is allowed without being counted, the user's record stays at 0 and all five scans are reported left |
| RateLimitStorage.RemainingWithinLimit | lib/rate-limit-storage.js:250-351 | on a table with non-negative counts the remaining count reported by the scan check and by the remaining-scans query lies between 0 and the limit |
| RateLimitStorage.DecrementFloorsAtZero | lib/rate-limit-storage.js:361-392 | a refund never takes the count below 0 and reports max(0, limit - count), storing the new count when writes reach the table; without a record for today it writes nothing and reports the full limit |
| RateLimitStorage.RateLimitSteps | lib/rate-limit-storage.js:188-224 | when reads and writes reach the table: a first or expired window restarts at 1 for 15 minutes; a full window is refused with the whole seconds to its reset and no write; otherwise one more request is counted |
| RateLimitStorage.ReadFailureFailsOpen | lib/rate-limit-storage.js:42-93 | when reads do not reach the table (no configuration, a failing status, a throw) every request and scan is allowed, a scan reports limit - 1 left and no bonus, and the remaining-scans query reports the full limit; if writes do land they restart the caller's window and day record at 1, and if not nothing is stored |
| RateLimitStorage.WriteFailureChargesNothing | lib/rate-limit-storage.js:96-177 | when writes do not reach the table, the window check, the scan check, the remaining-scans query and the refund all leave it as it was, so scans let through are never charged |
| RateLimitStorage.RateStep | lib/rate-limit-storage.js:188-224 | a refusal writes nothing, reachability is kept, and every key but the caller's window reads as before |
| RateLimitStorage.BonusStep | lib/rate-limit-storage.js:400-439 | the bonus is granted exactly when it fires (not yet applied today, and the IP scanned as a guest today); no bonus changes nothing; only the user's record and the IP's guest record can change |
| RateLimitStorage.DailyStep | lib/rate-limit-storage.js:236-321 | the reply is for the caller's level and limit, and only the caller's scan record, the user's record and the IP's guest record can change |
| RateLimitStorage.RemainingStep | lib/rate-limit-storage.js:329-352 | the report is for the caller's level and limit and never negative; only the bonus check's two records can change |
| RateLimitStorage.DecrementStep | lib/rate-limit-storage.js:361-392 | the refund always succeeds, for the caller's limit, never reports a negative count, and only the caller's scan record can change |
| RateLimitStorage.StorePreservesWellFormed | lib/rate-limit-storage.js:96-153 | writing a non-negative count of the right kind keeps every count non-negative and windows under rate keys only |
| RateLimitStorage.BonusPreservesWellFormed | lib/rate-limit-storage.js:400-439 | the bonus check keeps the table well formed |
| RateLimitStorage.RatePreservesWellFormed | lib/rate-limit-storage.js:188-224 | the request-window check keeps the table well formed |
| RateLimitStorage.DailyPreservesWellFormed | lib/rate-limit-storage.js:236-321 | the scan check keeps the table well formed, by way of the bonus check and the counting half |
| RateLimitStorage.CountPreservesWellFormed | lib/rate-limit-storage.js:262-320 | the counting half of the scan check keeps the table well formed: the scan and guest records it writes have non-negative counts and day keys |
| RateLimitStorage.ReadAndDecrementPreserveWellFormed | lib/rate-limit-storage.js:329-392 | the remaining-scans query and the refund keep the table well formed |
| RateLimitStorage.RateLimitStore.constructor | lib/rate-limit-storage.js:30-39 | a new table is empty, and reads and writes reach it exactly when it is configured |
| RateLimitStorage.RateLimitStore.GetValue | lib/rate-limit-storage.js:42-93 | a read returns what the table holds when reads reach it, else nothing, and changes nothing |
| RateLimitStorage.RateLimitStore.SetValue | lib/rate-limit-storage.js:96-153 | a write updates the table as the upsert specifies, and is dropped when writes do not reach it |
| RateLimitStorage.RateLimitStore.DeleteValue | lib/rate-limit-storage.js:156-177 | a delete updates the table as the removal specifies, and is dropped when writes do not reach it |
| RateLimitStorage.RateLimitStore.CheckRateLimit | lib/rate-limit-storage.js:188-224 | the in-place window check gives the verdict and new table of the window specification and keeps the table well formed |
| RateLimitStorage.RateLimitStore.ApplyLoginBonus | lib/rate-limit-storage.js:400-439 | the in-place bonus check gives the result and new table of the bonus specification |
| RateLimitStorage.RateLimitStore.CheckDailyScanLimit | lib/rate-limit-storage.js:236-321 | the in-place scan check gives the reply and new table of the scan specification and keeps the table well formed |
| RateLimitStorage.RateLimitStore.CountDailyScan | lib/rate-limit-storage.js:262-320 | the counting half of the scan check follows its specification on the table the bonus check left |
| RateLimitStorage.RateLimitStore.TrackGuestScan | lib/rate-limit-storage.js:301-313 | the IP's guest record is replaced by its tracked successor and nothing else changes |
| RateLimitStorage.RateLimitStore.GetRemainingScans | lib/rate-limit-storage.js:329-352 | the in-place query gives the report and new table of its specification |
| RateLimitStorage.RateLimitStore.DecrementScanCount | lib/rate-limit-storage.js:361-392 | the in-place refund gives the reply and new table of its specification |
| IdentifyApi.SameOriginsAsSharedDefaults | api/identify.js:11-43 | the endpoint's own origin list and CORS headers are those of the shared helper's default configuration |
| IdentifyApi.CheckOutcomes | api/identify.js:260-296 | a new day stores count 1 and reports limit - 1; a scan is refused exactly when today's count has reached the limit, writing nothing and reporting the reset; otherwise the count rises by one and the remaining count is never negative |
| IdentifyApi.OnlyOwnRecordWritten | api/identify.js:264-288 | the check writes only the caller's own record and keeps every other record |
| IdentifyApi.CheckKeepsBounded | api/identify.js:260-296 | every stored count stays between 1 and the larger daily limit |
| IdentifyApi.AllowedCheckSpendsOne | api/identify.js:260-315 | an allowed check reports what a read right after it reports, and spends exactly one of the caller's remaining scans |
| IdentifyApi.AllowedAmongFromCount | api/identify.js:260-296 | of n same-day requests from a caller with c scans used, exactly min(n, limit - c) are allowed (none at the limit) |
| IdentifyApi.DailyAllowance | api/identify.js:242-296 | of n requests in a day, starting without a record for that day, exactly min(n, limit) are allowed: 3 for a guest, 5 for a signed-in user |
| IdentifyApi.AfterQuota | api/identify.js:86-237 | the replies after the quota check carry the endpoint's CORS headers |
| IdentifyApi.PostStep | api/identify.js:54-238 | every reply to a POST whose body was read carries the CORS headers |
| IdentifyApi.HandleStep | api/identify.js:8-239 | every reply carries the headers the CORS decision gives for the request's origin |
| IdentifyApi.PreflightAndMethodRule | api/identify.js:46-52 | a preflight is an empty 200 and any other method but POST a 405, and neither touches the quota |
| IdentifyApi.PostUsesResolvedAddress | api/identify.js:55-63 | a POST with a body is charged to the address resolved from the proxy headers; one without a body (line 55 throws) gets the catch's 500 and the map is unchanged |
| IdentifyApi.MissingBodyReply | api/identify.js:224-237 | the catch's reply to a body-less POST: 500 with a non-empty error, the generic text in production |
| IdentifyApi.MissingBodySpendsNothing | api/identify.js:54-63 | a POST without a body is a 500 and leaves every caller's remaining scans as they were |
| IdentifyApi.QuotaChargedFirst | api/identify.js:62-84 | the quota map after a POST is the same whatever the image, language, environment or model outcome: the quota is charged before any validation |
| IdentifyApi.QuotaExceededReply | api/identify.js:65-84 | a POST past the quota gets 429 with the level's message, limit and reset time, and the map is unchanged |
| IdentifyApi.RejectedImageSpendsScan | api/identify.js:86-105 | an allowed POST whose image the checks reject gets 400 with the check's message, yet one scan has been spent |
| IdentifyApi.ModelOutcomeReplies | api/identify.js:194-237 | with valid input and a key, the model's data comes back with the scan count the check reported; a refusal keeps the model's status, a timeout is 504, any other failure 500 with a generic message in production |
| IdentifyApi.IdentifyEndpoint.constructor | api/identify.js:257 | the endpoint starts with an empty quota map |
| IdentifyApi.IdentifyEndpoint.CheckDailyScanLimit | api/identify.js:260-296 | the in-place check gives the reply and updated map of the check's specification |
| IdentifyApi.IdentifyEndpoint.GetRemainingScans | api/identify.js:298-315 | the read reports the remaining count of its specification, never negative, and changes nothing |
| IdentifyApi.IdentifyEndpoint.Handle | api/identify.js:8-239 | the handler gives the reply and updated map of the request specification |
| IdentifyHandler.Helper | lib/error-response.js:70-120 | a reply sent through a helper carries the helper's status and code, the message given or the helper's default, and the wildcard CORS headers |
| IdentifyHandler.Rejection | api-handlers/identify.js:66-96 | no rejection exactly when the image passes, the language is allowed and the key is set; a rejection is a 400, or a 500 exactly when only the key is missing, with the wildcard headers |
| IdentifyHandler.PostStep | api-handlers/identify.js:32-216 | a POST whose body was read is answered 429 exactly when the quota refuses the scan, and otherwise 200, 400, 500 or 504, always with the wildcard headers |
| IdentifyHandler.HandleWith | api-handlers/identify.js:2-216 | every reply carries the wildcard headers; only a POST with a body can change the ledger; the reply is 405 exactly for a method other than POST and OPTIONS |
| IdentifyHandler.PostBodyRule | api-handlers/identify.js:32-40 | a POST without a body throws at the destructuring and gets the catch's 500 INTERNAL_SERVER_ERROR "Failed to identify dish" with no scan charged (lines 206-215); one with a body goes through the quota from the resolved address |
| IdentifyHandler.HandleAsWritten | api-handlers/identify.js:2-216 | the handler as written, with its language list: the same guarantees as HandleWith |
| IdentifyHandler.Handle | api-handlers/identify.js:2-216 | the handler with the intended language list: the same guarantees as HandleWith |
| IdentifyHandler.ModelAnswer | api-handlers/identify.js:176-205 | only a reply from the model reads the ledger again, and it is exactly the 200 reply; a refusal or failure is a 500 and a timeout a 504, none changing the ledger |
| IdentifyHandler.AfterQuota | api-handlers/identify.js:66-216 | after the quota check, nothing but a model reply touches the ledger, and the reply is a 200, 400, 500 or 504 with the wildcard headers |
| IdentifyHandler.PreflightAndMethodRule | api-handlers/identify.js:7-30 | a preflight is an empty 200 and any other method but POST the standard 405, neither touching the ledger, and every reply carries the wildcard headers |
| IdentifyHandler.ReadAfterCheckWritesNothing | api-handlers/identify.js:41-185 | reading the remaining scans right after a scan check changes nothing: the login bonus cannot fire twice |
| IdentifyHandler.QuotaChargedFirst | api-handlers/identify.js:40-64 | a POST leaves the ledger exactly as the scan check alone would, whatever the image, language or model outcome |
| IdentifyHandler.QuotaExceededReply | api-handlers/identify.js:43-64 | a refused scan gets 429 with SCAN_LIMIT_EXCEEDED, the level's message, the limit and the reset time (none when the refusal follows a bonus that could not be written), and the ledger is unchanged |
| IdentifyHandler.AllowedPostContinues | api-handlers/identify.js:40-66 | a POST the quota lets through goes on over the ledger as the check left it |
| IdentifyHandler.ValidationOrder | api-handlers/identify.js:66-96 | past the quota, a bad image is a 400 first, then a bad language a 400, then a missing key a 500 configuration error |
| IdentifyHandler.RejectionReplies | api-handlers/identify.js:66-96 | the checks give those three replies in that order |
| IdentifyHandler.ModelFailureAnswer | api-handlers/identify.js:176-215 | a model refusal is 500 EXTERNAL_SERVICE_ERROR, a timeout 504, any other failure 500 INTERNAL_SERVER_ERROR, none touching the ledger |
| IdentifyHandler.ModelReplyPassedOn | api-handlers/identify.js:182-193 | with valid input, a model reply is passed on with 200 and the scan info a read of the ledger reports |
| IdentifyHandler.ModelRefusalReply | api-handlers/identify.js:176-180 | with valid input, a refusal from the model, whatever its status, is 500 EXTERNAL_SERVICE_ERROR and the ledger is untouched |
| IdentifyHandler.ModelTimeoutReply | api-handlers/identify.js:194-200 | with valid input, the model call's timeout is 504 and the ledger is untouched |
| IdentifyHandler.ModelErrorReply | api-handlers/identify.js:202-216 | with valid input, any other failure of the model call is 500 INTERNAL_SERVER_ERROR and the ledger is untouched |
| IdentifyHandler.GarbledListRefusesRealLabels | api-handlers/identify.js:88-91 | as written, English is the only label that passes; the Korean, Spanish, French and Chinese labels the app sends are refused |
| IdentifyHandler.KoreanRequestRefusedAsWritten | api-handlers/identify.js:88-91 | a valid Korean request is refused with 400 as written, while the corrected handler goes on to the model |
| IdentifyHandler.CorrectedListIsServerCheck | api-handlers/identify.js:88-91 | the corrected list accepts exactly what the server's language check accepts |
| ScanLimitApi.NormaliseUserId | api/scan-limit.js:20-23 | a user id of '', 'null' or 'undefined' counts as absent, any other is kept as given |
| ScanLimitApi.GetRemainingScans | api/scan-limit.js:57-76 | the report carries the caller's level and limit, the whole limit without a record for today, otherwise the limit less the count, never below 0 |
| ScanLimitApi.Handle | api/scan-limit.js:5-35 | every reply carries the headers the shared CORS helper gives for the request's origin |
| ScanLimitApi.AlwaysFullLimit | api/scan-limit.js:51-76 | since the endpoint's own map is never written, every GET reports the whole daily limit: 3 for a caller without a user id, 5 otherwise |
| ScanLimitApi.PreflightAndMethodRule | api/scan-limit.js:9-16 | a preflight is an empty 200 and any other method but GET a 405; the reply is 200 exactly for OPTIONS and GET |
| ServerLimits.Get | server.js:88 | a lookup finds a value exactly when the key is present, and it is the stored one |
| ServerLimits.Evict | server.js:79-86 | the clean-up keeps exactly the windows not stale by more than one window length, unchanged |
| ServerLimits.EvictionInvisibleToCaller | server.js:79-113 | the clean-up never changes the verdict or the window written for the caller: a stale window removed and an expired window found both restart the count |
| ServerLimits.RateLimitStep | server.js:75-113 | the verdict is the one the uncleaned map would give; the caller's window is present afterwards unless refused; every other window kept is unchanged |
| ServerLimits.BonusStep | server.js:136-177 | the bonus is granted exactly when it fires; no bonus changes nothing; only the user's record and the IP's guest record can change |
| ServerLimits.DailyStep | server.js:179-262 | the reply is for the caller's level and limit; only the caller's record, the user's record and the IP's guest record can change |
| ServerLimits.RemainingStep | server.js:272-294 | the report is for the caller's level and limit and never negative; only the bonus can change the maps |
| ServerLimits.RateLimitOutcomes | server.js:75-113 | an unseen IP or expired window gets count 1 for 15 minutes; a full window gets 429 with the seconds to its reset and no change; otherwise one more request is counted; other IPs only lose stale windows |
| ServerLimits.Sweep | server.js:296-304 | the hourly sweep keeps exactly today's records, unchanged |
| ServerLimits.FreshDayStartsAtOne | server.js:206-225 | a first scan of the day stores count 1 and reports limit - 1; a guest's IP record also starts at 1 |
| ServerLimits.DenialChangesNothing | server.js:227-236 | a refused scan changes neither map and reports 0 left and the next midnight |
| ServerLimits.AllowedScanCountsOne | server.js:238-261 | under the limit the count rises by exactly one, the remaining count is never negative, and a guest's IP record is incremented when today's, restarted at 1 otherwise |
| ServerLimits.BonusResetsUserRecord | server.js:136-177 | the bonus replaces today's user record without the bonus flag, even one that used all five scans, by count 0, removes the IP's guest record, and never fires again that day |
| ServerLimits.RemainingReportsQuota | server.js:272-294 | the remaining-scans query reports the full limit without a record for today and max(0, limit - count) otherwise, changing the maps only through the bonus |
| ServerLimits.SweepKeepsToday | server.js:296-304 | sweeping twice is sweeping once, and no record for today is ever removed |
| ServerLimits.Server.constructor | server.js:71-124 | the server starts with empty window, scan and guest maps |
| ServerLimits.Server.EvictStale | server.js:80-86 | the entry-by-entry deletion leaves exactly the windows the clean-up specification keeps |
| ServerLimits.Server.RateLimit | server.js:75-113 | the in-place limiter gives the verdict and new windows of its specification |
| ServerLimits.Server.ApplyLoginBonus | server.js:136-177 | the in-place bonus gives the result and new maps of its specification |
| ServerLimits.Server.CheckDailyScanLimit | server.js:179-262 | the in-place scan check gives the reply and new maps of its specification |
| ServerLimits.Server.GetRemainingScans | server.js:272-294 | the in-place query gives the report and new maps of its specification |
| ServerLimits.Server.SweepDailyScans | server.js:297-304 | the entry-by-entry sweep leaves exactly today's records |
| Validation.ValidateImageData | server.js:342-367 | each rejection happens exactly in its own case, in order: no image, not a data:image/ URL, no payload after the first comma, a payload decoding to more than 10 MiB |
| Validation.AcceptedImages | server.js:342-367 | an image is accepted exactly when it is a data:image/ URL whose first comma-separated payload is non-empty and at most 13981013 characters long |
| Validation.OverSize | server.js:358-364 | the payload is too large exactly when it is longer than 13981013 characters, that is when three quarters of its length exceeds 10 MiB |
| Validation.DataUrlAccepted | server.js:342-367 | every data:image/<type>,<payload> URL with a non-empty comma-free payload within the bound is accepted |
| Validation.LanguageCheckIsExact | server.js:369-375 | the five listed labels pass and the comparison is exact: 'english', 'Korean' and ' English' are refused |
| Validation.ValidateLanguage | server.js:369-375 | a non-empty language that passes starts with an ASCII capital and is at least as long as 'English' |
| RecipesStore.FirstInvalid | api-handlers/recipes-store.js:66-73 | nothing is found exactly when every recipe has a valid slug; otherwise the first recipe without one |
| RecipesStore.FirstInvalidIs | api-handlers/recipes-store.js:66-73 | the validation stops at the first recipe without a valid slug |
| RecipesStore.RowOf | api-handlers/recipes-store.js:76-82 | a row keeps its recipe's slug and url; its title is empty exactly when the recipe has neither title nor name, and its name exactly when its title is; a missing timestamp takes the time of the call |
| RecipesStore.UpsertRows | api-handlers/recipes-store.js:76-82 | the upsert sends one row per posted recipe |
| RecipesStore.UpsertRowsMapping | api-handlers/recipes-store.js:76-82 | each row keeps its recipe's slug and url, a missing title takes the name and a missing name the title, so a row lacks both only when its recipe did |
| RecipesStore.DatePart | api-handlers/recipes-store.js:52 | the listed date is the prefix of the stored timestamp before its 'T' |
| RecipesStore.Listing | api-handlers/recipes-store.js:47-53 | the listing has one entry per stored row |
| RecipesStore.ListingMapping | api-handlers/recipes-store.js:47-53 | each entry keeps its row's slug, title and url in Supabase's order, falls back from name to title, and keeps only the date of the timestamp |
| RecipesStore.Helper | lib/error-response.js:70-120 | a reply sent through a helper carries the helper's status and code, the message given or the helper's default, and the handler's CORS headers |
| RecipesStore.HandleGet | api-handlers/recipes-store.js:23-55 | every listing reply carries the handler's CORS headers |
| RecipesStore.HandlePost | api-handlers/recipes-store.js:57-114 | every reply to a POST whose body was read carries the handler's CORS headers |
| RecipesStore.Handle | api-handlers/recipes-store.js:4-122 | every reply carries the handler's CORS headers |
| RecipesStore.PostBodyRule | api-handlers/recipes-store.js:57-60 | a configured POST without a body is the catch's 500 INTERNAL_SERVER_ERROR (lines 119-120) with nothing written; with a body it is the POST step on `recipes` |
| RecipesStore.ConfigurationAndMethod | api-handlers/recipes-store.js:11-117 | missing configuration is a 500 CONFIGURATION_ERROR before the method is looked at (only a preflight comes first), another method a 405, and neither writes anything |
| RecipesStore.NonArrayRejected | api-handlers/recipes-store.js:59-63 | a body whose recipes field is not an array gets 400 and nothing is written |
| RecipesStore.ValidationGatesUpsert | api-handlers/recipes-store.js:66-73 | a batch with an invalid recipe gets a 400 validation error naming the first such recipe's problem, and nothing is written |
| RecipesStore.AcceptedBatchUpserted | api-handlers/recipes-store.js:76-114 | a valid batch is sent whole; on success the reply reports the batch stored and counts the returned rows, or the batch when none come back |
| RecipesStore.MissingTableListsNothing | api-handlers/recipes-store.js:34-42 | a listing answered 404 or 406 (no table yet) is an empty 200, any other failure a 500 |
| SyncRecipes.Filter | api/sync-recipes.js:72-74 | the kept items are exactly the listed entries of type file whose name ends in ".html"; nothing is added and a listing of posts only is kept whole |
| SyncRecipes.BlogFiles | api/sync-recipes.js:70-74 | a listing that is not an array gives no posts; an array gives exactly its blog files |
| SyncRecipes.SlugOfPostName | api/sync-recipes.js:98 | removing the first ".html" from a dot-free name followed by ".html" gives back the name |
| SyncRecipes.SlugOf | api/sync-recipes.js:98 | a name without ".html" is its own slug; otherwise putting ".html" back where its first occurrence was gives the name |
| SyncRecipes.SlugOfCreatedPost | api/sync-recipes.js:98 | a post filed under a generated slug plus ".html" is read back with that same slug |
| SyncRecipes.Enclosed | api/sync-recipes.js:118-119 | text captured between '>' and a closing tag is non-empty and holds no '<' (the `[^<]+` group) |
| SyncRecipes.MatchAt | api/sync-recipes.js:118-119 | a match of the element at one position captures non-empty text without '<' |
| SyncRecipes.MatchPosition | api/sync-recipes.js:118-119 | the search finds the leftmost position where the element matches, and reports no match only when none exists from the start position on |
| SyncRecipes.Capture | api/sync-recipes.js:118-119 | the first element's captured text is non-empty and holds no '<' |
| SyncRecipes.MatchStartsAtTag | api/sync-recipes.js:118-119 | a match can only start at a '<' followed by the tag's first letter in either case |
| SyncRecipes.OpenTagFound | api/sync-recipes.js:118-119 | a lower-case '<tag' opens a match |
| SyncRecipes.FirstOccurrence | api/sync-recipes.js:118-119 | the first occurrence of a character in a + [c] + b, when a lacks it, is right after a |
| SyncRecipes.ClosingTagFound | api/sync-recipes.js:118-119 | a lower-case closing tag is matched in any letter case |
| SyncRecipes.EnclosedText | api/sync-recipes.js:118-119 | '>', a non-empty text without '<' and then a closing tag capture exactly that text |
| SyncRecipes.ElementMatched | api/sync-recipes.js:118-119 | the element <tag>text</tag> at a position is matched there, capturing text |
| SyncRecipes.FirstMatchAt | api/sync-recipes.js:118-119 | a match at a position with no '<' before it is the leftmost match |
| SyncRecipes.ElementLayout | api/sync-recipes.js:118-119 | where the parts of prefix<tag>t</tag>rest sit in the page |
| SyncRecipes.ElementCaptured | api/sync-recipes.js:118-119 | on a page with no '<' before a well-formed element, that element's text is what the pattern captures |
| SyncRecipes.TitleFromTitleElement | api/sync-recipes.js:117-122 | a page whose first tag is `<title>t</title>` is titled by t with its white space trimmed |
| SyncRecipes.TitleFromHeading | api/sync-recipes.js:117-122 | a page with no title element but an `<h1>h</h1>` is titled by h, trimmed |
| SyncRecipes.TitleOf | api/sync-recipes.js:117-122 | a title taken from a title or h1 element holds no '<' and has no white space at either end; with neither element the title is the slug |
| SyncRecipes.TrimKeepsNoTag | api/sync-recipes.js:119-120 | trimming a capture without '<' leaves it without '<' |
| SyncRecipes.PlainPageTitledBySlug | api/sync-recipes.js:117 | a page with neither element is titled by its slug |
| SyncRecipes.NoTitleTag | api/sync-recipes.js:118 | when no '<' is followed by a 't' the title pattern cannot match |
| SyncRecipes.PostUrl | api/sync-recipes.js:133 | the entry's url lies under the site's /blogs/ path and ends in ".html" |
| SyncRecipes.PostUrlOnPublicSite | api/sync-recipes.js:24 | on the fixed public site the synced url is the url the blog generator gives the same post |
| SyncRecipes.DatePart | api/sync-recipes.js:126 | the date kept is a prefix of the ISO timestamp and holds no 'T' |
| SyncRecipes.EntryOf | api/sync-recipes.js:96-149 | a post gives no entry exactly when its step throws; otherwise the slug comes from the file name and the name mirrors the title; a non-ok read is titled by its slug and dated today; an ok read is titled from its page and dated by its commit, or today without one |
| SyncRecipes.Entries | api/sync-recipes.js:94-150 | there are at most as many entries as posts, and each carries its title as name and the post url of its slug |
| SyncRecipes.EntriesCount | api/sync-recipes.js:94-150 | the number of entries is the number of posts whose step did not throw |
| SyncRecipes.EntriesFollowFiles | api/sync-recipes.js:94-150 | when no step throws, the entries follow the posts one for one, in listing order |
| SyncRecipes.BuildEntries | api/sync-recipes.js:94-150 | the loop over the posts builds exactly the entries the specification function describes |
| SyncRecipes.EarlierAsymmetric | api/sync-recipes.js:153 | no two dates are each earlier than the other |
| SyncRecipes.EarlierTransitive | api/sync-recipes.js:153 | the date order the comparator uses is transitive |
| SyncRecipes.EarlierTotal | api/sync-recipes.js:153 | any two different dates are ordered one way or the other |
| SyncRecipes.InsertByDate | api/sync-recipes.js:153 | inserting an entry adds exactly that entry, losing and duplicating none |
| SyncRecipes.InsertKeepsOrder | api/sync-recipes.js:153 | inserting into a newest-first index leaves it newest first |
| SyncRecipes.NotOlderChain | api/sync-recipes.js:153 | an entry not older than a is not older than anything a is not older than |
| SyncRecipes.ConsNewestFirst | api/sync-recipes.js:153 | putting an entry not older than all of a newest-first list in front keeps it newest first |
| SyncRecipes.HeadStaysFirst | api/sync-recipes.js:153 | when the inserted entry goes after the head, the head is not older than anything after it |
| SyncRecipes.SortNewestFirst | api/sync-recipes.js:153 | the sort is a permutation of its input |
| SyncRecipes.SortedNewestFirst | api/sync-recipes.js:153 | the sorted index is newest first and a permutation of the entries |
| SyncRecipes.SortKeepsSorted | api/sync-recipes.js:153 | an index already newest first comes out of the sort unchanged |
| SyncRecipes.AppendOldest | api/sync-recipes.js:153 | an entry no newer than all those present goes at the end, so entries of equal date keep their order |
| SyncRecipes.Summaries | api/sync-recipes.js:234 | one summary per written entry, in order, carrying its slug and title |
| SyncRecipes.IndexSha | api/sync-recipes.js:158-178 | a sha is sent only when the index file was fetched with that sha |
| SyncRecipes.Sync | api/sync-recipes.js:4-244 | every reply of the handler carries the CORS headers for GET, POST and OPTIONS |
| SyncRecipes.RequestChecks | api/sync-recipes.js:10-31 | a preflight is an empty 200, a method other than GET and POST is a 405, and missing credentials are a 500; none of these writes anything |
| SyncRecipes.WritesOnlyWithPosts | api/sync-recipes.js:58-91 | the index is written exactly when the listing succeeded and held at least one post; a missing directory or an empty listing is a 200 reporting zero recipes |
| SyncRecipes.SyncedIndexContents | api/sync-recipes.js:94-153 | the written index is newest first, a permutation of the posts' entries, and holds one entry per post that did not throw |
| SyncRecipes.PutContents | api/sync-recipes.js:181-192 | the PUT carries the sorted index, and a sha exactly when the index file was fetched and had one |
| SyncRecipes.ReplyFollowsPut | api/sync-recipes.js:208-243 | the reply is a 200 exactly when the PUT succeeded, and then reports the count and the slugs and titles written; otherwise it is the sync failure |
| SyncRecipesStore.Rows | api-handlers/sync-recipes.js:161-167 | one row per entry, in the index's order |
| SyncRecipesStore.RowsMapping | api-handlers/sync-recipes.js:161-167 | each row keeps its entry's slug and url; title and name stand in for each other when one is missing and are empty only when both are; the timestamp begins with the entry's date |
| SyncRecipesStore.SyncedRowsKeepTitles | api-handlers/sync-recipes.js:126-141 | rows of entries built by the sync carry the entry's title as both title and name |
| SyncRecipesStore.Helper | lib/error-response.js:70-120 | a helper reply has the helper's status, the handler's CORS headers and the standard error body with the helper's code and the given message |
| SyncRecipesStore.StoreStep | api-handlers/sync-recipes.js:155-195 | rows are sent exactly when a Supabase url and key are set, and the step succeeds exactly when they are and the store answered ok |
| SyncRecipesStore.Sync | api-handlers/sync-recipes.js:4-211 | every reply of the handler carries the CORS headers for GET, POST and OPTIONS |
| SyncRecipesStore.Publish | api-handlers/sync-recipes.js:155-206 | every reply after the index is built carries the CORS headers |
| SyncRecipesStore.SyncPublishes | api-handlers/sync-recipes.js:58-155 | once posts are found, the request goes on to the store step with the index built from them |
| SyncRecipesStore.UnstoredPublish | api-handlers/sync-recipes.js:181-199 | an unconfigured store, a failing status or a throw gives the DATABASE_ERROR 500 reply |
| SyncRecipesStore.RequestChecks | api-handlers/sync-recipes.js:11-32 | a preflight is an empty 200, another method a METHOD_NOT_ALLOWED 405, missing GitHub credentials a CONFIGURATION_ERROR 500; none of them stores anything |
| SyncRecipesStore.NothingListed | api-handlers/sync-recipes.js:59-88 | a missing directory or an empty listing is a 200 with zero recipes; a failing or throwing listing is an EXTERNAL_SERVICE_ERROR 500; neither stores anything |
| SyncRecipesStore.RowsSentWhenConfigured | api-handlers/sync-recipes.js:150-167 | once posts are found, the rows of the newest-first index are sent exactly when Supabase is configured |
| SyncRecipesStore.StoredReply | api-handlers/sync-recipes.js:181-206 | a configured store that answers ok gives a 200 with the index's count, slugs and titles |
| SyncRecipesStore.UnstoredReply | api-handlers/sync-recipes.js:181-199 | an unconfigured store, a failing status or a throw gives a DATABASE_ERROR 500 |
| Cors.SplitEntriesMembers | api/_cors.js:34 | an origin is in the cleaned ALLOWED_ORIGINS list exactly when it is non-empty and the trim of some comma-separated entry |
| Cors.Response.constructor | api/_cors.js:15-61 | a fresh response has no headers, no status and is not ended |
| Cors.Response.SetHeader | api/_cors.js:43-60 | setting a header writes that one header and leaves status and end state alone |
| Cors.Response.End | api/_cors.js:74 | ending records the status and ends the response, keeping its headers |
| SlugValidation.HexDigit | lib/slug-validation.js:41 | an escape digit is 0-9 or an upper-case A-F |
| SlugValidation.HexRoundTrip | lib/slug-validation.js:41 | reading an escape digit back gives the nibble it was written from |
| SlugValidation.Escape | lib/slug-validation.js:41 | each byte becomes exactly three characters |
| SlugValidation.EncodeUriComponent | lib/slug-validation.js:41 | encoding never shortens a string |
| BlogSlug.StripEdgeHyphens | api/generate-blog.js:103 | removing the edge hyphens never lengthens the string and keeps its front when it did not start with '-' |
| BlogSlug.StripKeepsShape | api/generate-blog.js:103 | on a string over a-z, 0-9 and single hyphens, the edge removal leaves a well-shaped slug |
| Text.Trim | api/_cors.js:34 | the trim is the part of the string with no white space at either end, found by dropping white space only at the edges |
| Text.TrimStart | api/_cors.js:34 | the left trim is a suffix whose front is not white space, and everything dropped is white space |
| Text.TrimEnd | api/_cors.js:34 | the right trim is a prefix whose end is not white space, and everything dropped is white space |
| Text.TrimUnchanged | api/_cors.js:34 | a string with no white space at either end is its own trim |
| Text.TrimEmptyIffBlank | api/_cors.js:34 | trimming leaves nothing exactly when the string is all white space |
| Text.Split | api/_cors.js:34 | a split gives at least one segment and no segment holds the separator |
| Text.BeforeFirst | api/sync-recipes.js:126 | the part before the first separator is a prefix without the separator, and the whole string when there is none |
| Text.IndexOf | api/sync-recipes.js:126 | nothing is found exactly when the character is absent; otherwise the position of its first occurrence |
| Text.AfterFirst | server.js:353 | with the separator present the string is the part before it, the separator and this part; with none this part is empty |
| Text.SecondSegment | server.js:353 | the second comma segment exists exactly when a separator does, and holds none |
| Text.ReplaceFirst | api/sync-recipes.js:98 | a string pattern replaces only its first occurrence, and nothing when it does not occur |
| Text.Find | api/sync-recipes.js:98 | the position found is an occurrence of the pattern with none before it, and nothing is found only when none exists |
| Text.Lower | api/generate-blog.js:101 | lower-casing keeps the length and maps each character on its own, upper-case ASCII letters to lower case |
| Text.LowerChar | api/generate-blog.js:101 | an upper-case ASCII letter becomes lower case and any other character is kept |

## Left out

- Network calls to OpenAI, GitHub, Supabase and Vercel are not made. In the handlers, each response is an oracle value passed in: an ok answer, a failing status, or a throw. The model includes sequences of PUT outcomes for the retry loop.
- The rate-limit ledger (lib/rate-limit-storage.js) is the exception: its Supabase calls are modelled by two flags on the table, whether reads reach it and whether writes and deletes reach it. A read that does not reach it (no configuration, a non-ok status, a throw) answers nothing; a write that does not reach it is dropped.
- RateLimitStorage.Lookup, RateLimitStorage.Store: call failures are modelled per request, as read and write reachability for the whole request, not per individual call. A request in which one read succeeds and a later read fails, or one write lands and the next is dropped, is not represented.
- The clock: `today`, `now` and the midnight reset time are parameters. `getTodayDateString` and `getMidnightResetTime` use local-time `Date` arithmetic, which is not modelled. The numeric `resetTime` of api/identify.js:283 is carried as the same opaque value.
- `new Date(x).toISOString()` normalisation is not modelled. The model assumes the dates it reads are already ISO, so:
  - a recipe's `createdAt` in api-handlers/recipes-store.js:81 is passed through unchanged;
  - a commit date in api/sync-recipes.js:126 gives its date part directly;
  - a `YYYY-MM-DD` date in api-handlers/sync-recipes.js:166 becomes UTC midnight;
  - invalid dates, which throw in the source, are not represented.
- SyncRecipes.Earlier: the comparator `new Date(b) - new Date(a)` is modelled as the lexicographic order of the date strings. That is the same order for `YYYY-MM-DD` dates, but not for arbitrary timestamps.
- SyncRecipes.SortNewestFirst: the in-place `Array.prototype.sort` is modelled as a stable insertion sort on a sequence. It has the same result for this comparator, but the in-place update of the array is not represented.
- SyncRecipesStore.StoreStep: the step-by-step `supabaseSuccess` flag is modelled as one function of the store's outcome. The 404/406 and other-failure branches only log, so they are merged into "not ok".
- The Base64 and JSON encoding and decoding of recipes.json and the blog pages are not modelled. The parsed index and the decoded page text are the inputs, and a failed parse is the empty index.
- The text of the thrown-error messages (for example "Failed to update recipes.json: 409 - …") is abstracted into one reply per error kind. So is the `statusText` in them.
- JSON fields of the wrong type (`typeof` checks, non-string values) are merged with absent fields, as "" or `None`.
- A request body that is `null` rather than undefined: the handlers' catch answers it the same way, but the model carries only the TypeError message for an undefined body (in the replies that show it, the as-written api/identify.js outside production and the two blog generators).
- Lower-casing handles the ASCII letters only. Unicode case folding in `toLowerCase` is not modelled, and case-insensitive tag matching compares ASCII letters only.
- Concurrency is not modelled: races between serverless invocations on the same key or index file. The model is one sequential call at a time.
- Deployment promotion is not modelled (api/promote-deployment.js, called after a successful commit in api/sync-recipes.js:222-227). It only starts a network call whose failure is ignored.
- The `setInterval` scheduling at server.js:297 is not modelled; the sweep body it runs is.
- The Express routes of server.js are not modelled:
  - the request handlers themselves;
  - the `req.ip` fallback they try first;
  - static serving and the security headers;
  - the `/api/generate-blog` and `/api/blog-exists` routes, which call helpers that no longer exist.
- The limiter, quota, sweep and validation functions those routes call are modelled.
- Logging, the `debugLog` calls and the fire-and-forget debug beacons to 127.0.0.1:7242 are not modelled; they have no effect on replies or state.
- Environment variables are parameters: GitHub and Supabase credentials, ALLOWED_ORIGINS, the public site and API base URLs.
- The prompts, the blog HTML template and the `validateEnvironment` start-up exit are not modelled.
- The image generation call is an oracle. Its failure leaves the post without an image.
- Thin handlers that only call modelled code are not modelled: the Supabase read handlers (blogs, blogs-slug, blog-exists-slug), api/recipes-json.js, the scan-limit and decrement wrappers in api-handlers, lib/config.js, lib/logger.js, and the placeholder translate and recipe handlers.
- The outer `catch` of api-handlers/sync-recipes.js:208-210 (INTERNAL_SERVER_ERROR) is not modelled. Every network step inside it that can throw is caught by its own inner handler, and those handlers are modelled.

## Findings

| source | as written | input that shows it | evidently intended | confidence | as-written member | corrected member |
|---|---|---|---|---|---|---|
| api/generate-blog.js:209-213 | a path that does not start with '/' gets the site address and a '/' put in front, and an absolute URL is one such path | the DALL-E URL "https://oaidalleapi…/img.png" becomes "https://ok-snap.com/https://oaidalleapi…/img.png" in the page's featured image and og:image | an absolute image URL is used as it is, as the same file does when it reports the URL (598-603) | not executed | BlogPublisher.AbsoluteUrlMangledAsWritten | BlogPublisher.ImageUrlCorrected |
| api/generate-blog.js:762 | the fallback reply's imageUrl is "https://ok-snap.com" with the image path appended directly | with the generator's absolute URL "https://x/y.png" the reply says "https://ok-snap.comhttps://x/y.png" | the absolute URL is reported as it is | not executed | BlogPublisher.FallbackUrlMangledAsWritten | BlogPublisher.FallbackImageUrlCorrected |
| api-handlers/identify.js:88 | the allowed-language list holds the UTF-8 bytes of 'Korean (한국어)', 'Spanish (Español)', 'French (Français)' and 'Chinese (中文)' read back as Windows-1252 | a valid request with targetLanguage 'Korean (한국어)' is refused with 400 "Invalid language specified" | the list of server.js:370, which accepts all five labels | not executed | IdentifyHandler.KoreanRequestRefusedAsWritten | IdentifyHandler.CorrectedListIsServerCheck |
