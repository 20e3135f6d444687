/** The Supabase-backed blog generator (api-handlers/generate-blog.js). It shares the slug
    and fence rules of the GitHub publisher; `storeBlogInSupabase` checks the credentials,
    skips a slug that already has a row, inserts the blog row and then, without letting
    its failure matter, the recipe row. Supabase and OpenAI answers are oracle values. */
module BlogStore {
  import opened Text
  import BlogSlug
  import BlogFences
  import Cors

  const PublicSiteUrl: string := "https://ok-snap.com"

  /** The URL of a stored post. */
  function BlogUrl(slug: string): string {
    PublicSiteUrl + "/blog.html?slug=" + slug
  }

  /** SUPABASE_URL, SUPABASE_SERVICE_ROLE_KEY and SUPABASE_ANON_KEY, "" when unset. */
  datatype SupabaseEnv = SupabaseEnv(url: string, serviceRoleKey: string, anonKey: string)

  /** The key used: the service-role key, else the anonymous key. */
  function Key(env: SupabaseEnv): (k: string)
    ensures k == "" <==> env.serviceRoleKey == "" && env.anonKey == ""
  {
    if env.serviceRoleKey != "" then env.serviceRoleKey else env.anonKey
  }

  /** A project url and a key are both set. */
  predicate Configured(env: SupabaseEnv) {
    env.url != "" && Key(env) != ""
  }

  /** The fields of `dishData` the store reads; "" stands for an absent or falsy field. */
  datatype DishData = DishData(name: string, nameKorean: string, description: string, cuisine: string,
                               isKorean: bool, language: string)

  function OrNull(s: string): (r: Option<string>)
    ensures r.None? <==> s == ""
    ensures r.Some? ==> r.value == s
  {
    if s == "" then None else Some(s)
  }

  /** The row inserted into `blogs`; `now` is the ISO timestamp of the call. */
  datatype BlogRow = BlogRow(slug: string, title: string, name: string, nameKorean: Option<string>, content: string,
                             imageUrl: Option<string>, description: Option<string>, cuisine: Option<string>,
                             language: string, createdAt: string)

  /** The row inserted into `recipes`. */
  datatype RecipeRow = RecipeRow(slug: string, title: string, name: string, url: string, createdAt: string)

  /** Title and name both carry the dish name, absent optional fields become null, the
      cuisine falls back to 'Korean' for a Korean dish and the language to 'en'. */
  function BlogRowOf(dish: DishData, content: string, imagePath: string, slug: string, now: string): (row: BlogRow)
    ensures row.slug == slug && row.title == dish.name && row.name == dish.name && row.content == content
    ensures row.imageUrl.Some? <==> imagePath != ""
    ensures row.cuisine.None? <==> dish.cuisine == "" && !dish.isKorean
    ensures dish.cuisine == "" && dish.isKorean ==> row.cuisine == Some("Korean")
    ensures row.language == "en" <==> dish.language == "" || dish.language == "en"
  {
    BlogRow(slug, dish.name, dish.name, OrNull(dish.nameKorean), content, OrNull(imagePath), OrNull(dish.description),
            if dish.cuisine != "" then Some(dish.cuisine) else if dish.isKorean then Some("Korean") else None,
            if dish.language != "" then dish.language else "en", now)
  }

  /** The existence query: an ok answer with an array of `n` rows, an ok answer that is
      not an array, an answer that is not ok, or a thrown request. */
  datatype ExistsCheck = Rows(n: nat) | NotArray | CheckNotOk | CheckThrew(message: string)

  /** The insert of the blog row. */
  datatype Insert = Inserted | Rejected(status: int) | InsertThrew(message: string)

  /** Why storing failed. */
  datatype StoreError = CredentialsMissing | InsertRejected(status: int) | RequestFailed(message: string)

  const CredentialsMessage: string :=
    "Supabase credentials not configured. Set SUPABASE_URL and SUPABASE_SERVICE_ROLE_KEY environment variables."
  const AlreadyExistsMessage: string := "Blog already exists"
  const StoredMessage: string := "Blog stored in Supabase - available immediately, no deployment needed!"

  datatype StoreResult =
    | Stored(blogUrl: string, imageUrl: Option<string>, slug: string, message: string)
    | SkippedExisting(blogUrl: string, slug: string, message: string)
    | StoreFailed(error: StoreError)

  /** The result with the inserts attempted. */
  datatype StoreRun = StoreRun(result: StoreResult, blogInsert: Option<BlogRow>, recipeInsert: Option<RecipeRow>)

  /** `storeBlogInSupabase(dishData, blogContent, imagePath, slug)`; `metadata` is the
      answer to the recipe-row insert, whose failure is only logged. */
  function StoreBlog(env: SupabaseEnv, dish: DishData, content: string, imagePath: string, slug: string, now: string,
                     check: ExistsCheck, insert: Insert, metadata: Insert): (run: StoreRun)
    ensures run.result.StoreFailed? && run.result.error.CredentialsMissing? ==> run.blogInsert.None?
    ensures run.recipeInsert.Some? <==> run.result.Stored?
    ensures run.result.Stored? ==> run.blogInsert.Some? && run.blogInsert.value.slug == slug
  {
    if !Configured(env) then StoreRun(StoreFailed(CredentialsMissing), None, None)
    else if check.CheckThrew? then StoreRun(StoreFailed(RequestFailed(check.message)), None, None)
    else if check.Rows? && check.n > 0 then StoreRun(SkippedExisting(BlogUrl(slug), slug, AlreadyExistsMessage), None, None)
    else
      var row := BlogRowOf(dish, content, imagePath, slug, now);
      match insert
      case InsertThrew(m) => StoreRun(StoreFailed(RequestFailed(m)), Some(row), None)
      case Rejected(status) => StoreRun(StoreFailed(InsertRejected(status)), Some(row), None)
      case Inserted =>
        var recipe := RecipeRow(slug, dish.name, dish.name, BlogUrl(slug), now);
        StoreRun(Stored(BlogUrl(slug), OrNull(imagePath), slug, StoredMessage), Some(row), Some(recipe))
  }

  /** Missing credentials fail before any request, whatever Supabase would answer. */
  lemma CredentialsFirst(env: SupabaseEnv, dish: DishData, content: string, imagePath: string, slug: string, now: string,
                         check: ExistsCheck, insert: Insert, metadata: Insert)
    requires env.url == "" || (env.serviceRoleKey == "" && env.anonKey == "")
    ensures StoreBlog(env, dish, content, imagePath, slug, now, check, insert, metadata)
            == StoreRun(StoreFailed(CredentialsMissing), None, None)
  {
  }

  /** A slug that already has a row is reported as skipped and nothing is inserted. */
  lemma ExistingSlugSkipped(env: SupabaseEnv, dish: DishData, content: string, imagePath: string, slug: string,
                            now: string, n: nat, insert: Insert, metadata: Insert)
    requires env.url != "" && Key(env) != "" && n > 0
    ensures StoreBlog(env, dish, content, imagePath, slug, now, Rows(n), insert, metadata)
            == StoreRun(SkippedExisting(PublicSiteUrl + "/blog.html?slug=" + slug, slug, AlreadyExistsMessage), None, None)
  {
  }

  /** An existence check that is not ok or not an array is read as "no row yet". */
  lemma FailedCheckMeansAbsent(env: SupabaseEnv, dish: DishData, content: string, imagePath: string, slug: string,
                               now: string, check: ExistsCheck, insert: Insert, metadata: Insert)
    requires check == CheckNotOk || check == NotArray
    ensures StoreBlog(env, dish, content, imagePath, slug, now, check, insert, metadata)
            == StoreBlog(env, dish, content, imagePath, slug, now, Rows(0), insert, metadata)
  {
  }

  /** Past the check, the blog row is inserted; a failed insert fails the store and
      nothing else is written, and a successful one stores the recipe row as well and
      succeeds whatever the recipe insert answers. */
  lemma InsertDecides(env: SupabaseEnv, dish: DishData, content: string, imagePath: string, slug: string, now: string,
                      insert: Insert, m1: Insert, m2: Insert)
    requires env.url != "" && Key(env) != ""
    ensures var run := StoreBlog(env, dish, content, imagePath, slug, now, Rows(0), insert, m1);
            run.blogInsert == Some(BlogRowOf(dish, content, imagePath, slug, now))
            && (!insert.Inserted? ==> run.result.StoreFailed? && run.recipeInsert.None?)
            && (insert.Inserted? ==>
                  run.result == Stored(BlogUrl(slug), OrNull(imagePath), slug, StoredMessage)
                  && run.recipeInsert == Some(RecipeRow(slug, dish.name, dish.name, BlogUrl(slug), now)))
    ensures StoreBlog(env, dish, content, imagePath, slug, now, Rows(0), insert, m1)
            == StoreBlog(env, dish, content, imagePath, slug, now, Rows(0), insert, m2)
  {
  }

  // ---- the handler ----

  /** The request: its method, whether there is a body at all, and the `dishData` field,
      if any. */
  datatype Request = Request(httpMethod: string, hasBody: bool, dishData: Option<DishData>)

  /** The chat completion: its raw text, or a failure with its message. */
  datatype Generation = Generated(raw: string) | GenerationFailed(message: string)

  datatype Body =
    | NoBody
    | ErrorOnly(error: string)
    | ErrorWithMessage(error: string, message: string)
    | StorageFailed(error: string, reason: StoreError)
    | Created(blogUrl: string, slug: string, imageUrl: Option<string>, message: string)

  datatype HttpReply = HttpReply(status: int, headers: map<string, string>, body: Body)

  const HandlerCors: map<string, string> :=
    map[Cors.AllowOrigin := "*", Cors.AllowMethods := "POST, OPTIONS", Cors.AllowHeaders := "Content-Type"]

  const MethodNotAllowedMessage: string := "Method not allowed"
  const NameRequiredMessage: string := "dishData with name is required"
  const GenerationError: string := "Failed to generate blog post"
  const MissingKeyMessage: string := "OPENAI_API_KEY is not set in environment variables"
  const UnknownError: string := "Unknown error"
  const StorageError: string := "Failed to store blog in Supabase"
  const CreatedMessage: string := "Blog post created and stored in Supabase. Available immediately - no deployment needed!"

  /** The reply once the post is generated and the store has run. */
  function Answer(slug: string, result: StoreResult): (reply: HttpReply)
    ensures reply.headers == HandlerCors
    ensures reply.status == 200 <==> !result.StoreFailed?
    ensures reply.status != 200 ==> reply.status == 500
  {
    match result
    case Stored(url, imageUrl, _, _) => HttpReply(200, HandlerCors, Created(url, slug, imageUrl, CreatedMessage))
    case SkippedExisting(url, _, _) => HttpReply(200, HandlerCors, Created(url, slug, None, CreatedMessage))
    case StoreFailed(e) => HttpReply(500, HandlerCors, StorageFailed(StorageError, e))
  }

  /** The exported handler; `imagePath` is the generated image's URL, "" when image
      generation failed. */
  function Handle(req: Request, apiKeyConfigured: bool, generation: Generation, imagePath: string, env: SupabaseEnv,
                  now: string, check: ExistsCheck, insert: Insert, metadata: Insert): (reply: HttpReply)
    ensures reply.headers == HandlerCors
  {
    if req.httpMethod == "OPTIONS" then HttpReply(200, HandlerCors, NoBody)
    else if req.httpMethod != "POST" then HttpReply(405, HandlerCors, ErrorOnly(MethodNotAllowedMessage))
    else if !req.hasBody then HttpReply(500, HandlerCors, ErrorWithMessage(GenerationError, DestructureError("dishData")))
    else if req.dishData.None? || req.dishData.value.name == "" then HttpReply(400, HandlerCors, ErrorOnly(NameRequiredMessage))
    else if !apiKeyConfigured then HttpReply(500, HandlerCors, ErrorWithMessage(GenerationError, MissingKeyMessage))
    else match generation
      case GenerationFailed(m) =>
        HttpReply(500, HandlerCors, ErrorWithMessage(GenerationError, if m == "" then UnknownError else m))
      case Generated(raw) =>
        var dish := req.dishData.value;
        var slug := BlogSlug.CreateSlug(dish.name);
        var content := BlogFences.StripFences(raw);
        Answer(slug, StoreBlog(env, dish, content, imagePath, slug, now, check, insert, metadata).result)
  }

  /** A preflight is an empty 200, any method but POST a 405, a POST without a body the
      catch's 500 (destructuring it throws), and a POST without a dish name a 400, all
      before anything is generated or stored. */
  lemma RequestChecks(req: Request, key: bool, g: Generation, imagePath: string, env: SupabaseEnv, now: string,
                      check: ExistsCheck, insert: Insert, metadata: Insert)
    ensures req.httpMethod == "OPTIONS" ==>
              Handle(req, key, g, imagePath, env, now, check, insert, metadata) == HttpReply(200, HandlerCors, NoBody)
    ensures req.httpMethod != "OPTIONS" && req.httpMethod != "POST" ==>
              Handle(req, key, g, imagePath, env, now, check, insert, metadata).status == 405
    ensures req.httpMethod == "POST" && !req.hasBody ==>
              Handle(req, key, g, imagePath, env, now, check, insert, metadata)
              == HttpReply(500, HandlerCors, ErrorWithMessage(GenerationError, DestructureError("dishData")))
    ensures req.httpMethod == "POST" && req.hasBody && (req.dishData.None? || req.dishData.value.name == "") ==>
              Handle(req, key, g, imagePath, env, now, check, insert, metadata)
              == HttpReply(400, HandlerCors, ErrorOnly(NameRequiredMessage))
  {
  }

  /** For a generated post, the reply is 200 when the post was stored or already there,
      and a 500 with success false and the store's reason when storing failed. */
  lemma StoreOutcomeReplies(dish: DishData, raw: string, imagePath: string, env: SupabaseEnv, now: string,
                            check: ExistsCheck, insert: Insert, metadata: Insert)
    requires dish.name != ""
    ensures var slug := BlogSlug.CreateSlug(dish.name);
            var run := StoreBlog(env, dish, BlogFences.StripFences(raw), imagePath, slug, now, check, insert, metadata);
            var reply := Handle(Request("POST", true, Some(dish)), true, Generated(raw), imagePath, env, now, check, insert, metadata);
            (run.result.StoreFailed? ==> reply == HttpReply(500, HandlerCors, StorageFailed(StorageError, run.result.error)))
            && (!run.result.StoreFailed? ==> reply.status == 200)
  {
    var slug := BlogSlug.CreateSlug(dish.name);
    var result := StoreBlog(env, dish, BlogFences.StripFences(raw), imagePath, slug, now, check, insert, metadata).result;
    assert Handle(Request("POST", true, Some(dish)), true, Generated(raw), imagePath, env, now, check, insert, metadata)
           == Answer(slug, result);
  }
}
