/** The recipe index kept in Supabase (api-handlers/recipes-store.js): GET lists the
    stored recipes, POST validates every slug and then upserts the whole batch. Supabase's
    answers are oracle values; the timestamp of the call is a parameter. */
module RecipesStore {
  import opened Text
  import E = ErrorResponse
  import SlugValidation
  import Cors
  import BS = BlogStore

  /** A recipe as posted; "" stands for an absent or falsy field. */
  datatype RecipeInput = RecipeInput(slug: string, title: string, name: string, url: string, createdAt: string)

  /** A row sent to the upsert. */
  datatype UpsertRow = UpsertRow(slug: string, title: string, name: string, url: string, createdAt: string)

  /** A row as Supabase returns it; `createdAt` is its `created_at` timestamp. */
  datatype StoredRow = StoredRow(slug: string, title: string, name: string, url: string, createdAt: string)

  /** A recipe as the GET answers it. */
  datatype RecipeOut = RecipeOut(slug: string, title: string, name: string, url: string, createdAt: string)

  const MissingSlugMessage: string := "All recipes must have a slug field"

  function InvalidSlugMessage(slug: string): string {
    "Invalid slug format: \"" + slug
    + "\". Slug must contain only lowercase letters, numbers, underscores, and hyphens (a-z0-9_-)"
  }

  predicate Acceptable(r: RecipeInput) {
    r.slug != "" && SlugValidation.IsValidSlug(r.slug)
  }

  /** The index of the first recipe the validation loop stops at, if any. */
  function FirstInvalid(recipes: seq<RecipeInput>): (r: Option<nat>)
    ensures r.None? <==> forall i :: 0 <= i < |recipes| ==> Acceptable(recipes[i])
    ensures r.Some? ==> r.value < |recipes| && !Acceptable(recipes[r.value])
    ensures r.Some? ==> forall j :: 0 <= j < r.value ==> Acceptable(recipes[j])
  {
    if recipes == [] then None
    else if !Acceptable(recipes[0]) then Some(0)
    else match FirstInvalid(recipes[1..])
      case None => None
      case Some(i) => Some(i + 1)
  }

  /** The message for a recipe that fails validation: a missing slug, or the slug that
      is not made of a-z, 0-9, '_' and '-'. */
  function RejectionMessage(r: RecipeInput): string {
    if r.slug == "" then MissingSlugMessage else InvalidSlugMessage(r.slug)
  }

  /** One posted recipe as a row: title falls back to name and name to title; a missing
      `createdAt` becomes the time of the call. */
  function RowOf(r: RecipeInput, now: string): (row: UpsertRow)
    ensures row.slug == r.slug && row.url == r.url
    ensures row.title == "" <==> r.title == "" && r.name == ""
    ensures row.name == "" <==> row.title == ""
    ensures row.createdAt == "" ==> now == ""
  {
    UpsertRow(r.slug, if r.title != "" then r.title else r.name, if r.name != "" then r.name else r.title, r.url,
              if r.createdAt != "" then r.createdAt else now)
  }

  function UpsertRows(recipes: seq<RecipeInput>, now: string): (rows: seq<UpsertRow>)
    ensures |rows| == |recipes|
  {
    seq(|recipes|, i requires 0 <= i < |recipes| => RowOf(recipes[i], now))
  }

  /** The upsert keeps count and order and each row's slug and url; a title or name that
      is missing takes the other one, so a row lacks both only when its recipe did. */
  lemma UpsertRowsMapping(recipes: seq<RecipeInput>, now: string, i: nat)
    requires i < |recipes|
    ensures var row := UpsertRows(recipes, now)[i];
            row.slug == recipes[i].slug && row.url == recipes[i].url
            && (recipes[i].title != "" ==> row.title == recipes[i].title)
            && (recipes[i].title == "" ==> row.title == recipes[i].name)
            && (recipes[i].name != "" ==> row.name == recipes[i].name)
            && (recipes[i].name == "" ==> row.name == recipes[i].title)
            && (row.title == "" <==> recipes[i].title == "" && recipes[i].name == "")
            && (row.name == "" <==> row.title == "")
  {
  }

  /** `new Date(created_at).toISOString().split('T')[0]` for a timestamp Supabase already
      gives in UTC ISO form: the part before the 'T'. A missing value stays missing. */
  function DatePart(createdAt: string): (d: string)
    ensures 'T' !in d && StartsWith(createdAt, d)
  {
    if createdAt == "" then "" else BeforeFirst(createdAt, 'T')
  }

  function OutOf(row: StoredRow): RecipeOut {
    RecipeOut(row.slug, row.title, if row.name != "" then row.name else row.title, row.url, DatePart(row.createdAt))
  }

  function Listing(rows: seq<StoredRow>): (out: seq<RecipeOut>)
    ensures |out| == |rows|
  {
    seq(|rows|, i requires 0 <= i < |rows| => OutOf(rows[i]))
  }

  /** The listing maps rows one for one, in the order Supabase gives (newest first),
      falls back from name to title, and keeps only the date of `created_at`. */
  lemma ListingMapping(rows: seq<StoredRow>, i: nat)
    requires i < |rows|
    ensures var out := Listing(rows)[i];
            out.slug == rows[i].slug && out.title == rows[i].title && out.url == rows[i].url
            && (rows[i].name != "" ==> out.name == rows[i].name)
            && (rows[i].name == "" ==> out.name == rows[i].title)
            && 'T' !in out.createdAt && StartsWith(rows[i].createdAt, out.createdAt)
            && ('T' !in rows[i].createdAt ==> out.createdAt == rows[i].createdAt)
  {
  }

  // ---- the handler ----

  /** The request: its method, whether there is a body at all, and, for a POST, the
      `recipes` field when it is an array. */
  datatype Request = Request(httpMethod: string, hasBody: bool, recipes: Option<seq<RecipeInput>>)

  /** The GET to Supabase: the rows (None for a null body), a status that is not ok, or a
      thrown request. */
  datatype Fetch = Listed(rows: Option<seq<StoredRow>>) | FetchFailed(status: int) | FetchThrew

  /** The upsert: the number of rows returned (None when the body is null), a status
      that is not ok, or a thrown request. */
  datatype Upsert = Upserted(returned: Option<nat>) | UpsertFailed(status: int) | UpsertThrew

  datatype Body =
    | NoBody
    | Standard(error: E.ErrorBody)
    | Recipes(recipes: seq<RecipeOut>)
    | StoredCount(stored: nat, count: nat)

  datatype HttpReply = HttpReply(status: int, headers: map<string, string>, body: Body)

  /** The reply and the rows sent to the upsert, if any. */
  datatype Run = Run(reply: HttpReply, upserted: Option<seq<UpsertRow>>)

  const HandlerCors: map<string, string> :=
    map[Cors.AllowOrigin := "*", Cors.AllowMethods := "GET, POST, OPTIONS", Cors.AllowHeaders := "Content-Type"]

  const ConfigurationMessage: string := "SUPABASE_URL and SUPABASE_SERVICE_ROLE_KEY must be set"
  const FetchFailedMessage: string := "Failed to fetch recipes from database"
  const NotArrayMessage: string := "recipes must be an array"
  const MissingTableMessage: string :=
    "Recipes table does not exist. Please create the recipes table in Supabase. See SUPABASE_SETUP.md for instructions."
  const StoreFailedMessage: string := "Failed to store recipes in database"
  const InternalMessage: string := "An internal server error occurred"

  function Helper(h: E.Helper, message: Option<string>): (r: HttpReply)
    ensures r.status == E.StatusOf(h) && r.headers == HandlerCors
    ensures r.body == Standard(E.ErrorBody(false, E.CodeText(E.CodeOf(h)), if message.Some? then message else E.DefaultMessage(h)))
  {
    var sent := E.Send(h, message, None);
    HttpReply(sent.status, HandlerCors, Standard(sent.body))
  }

  /** A GET once configured. */
  function HandleGet(fetch: Fetch): (reply: HttpReply)
    ensures reply.headers == HandlerCors
  {
    match fetch
    case Listed(rows) => HttpReply(200, HandlerCors, Recipes(if rows.Some? then Listing(rows.value) else []))
    case FetchFailed(status) =>
      if status == 404 || status == 406 then HttpReply(200, HandlerCors, Recipes([]))
      else Helper(E.DatabaseError, Some(FetchFailedMessage))
    case FetchThrew => Helper(E.InternalServerError, Some(InternalMessage))
  }

  /** A POST once configured and its body read; `now` is the time of the call. */
  function HandlePost(recipes: Option<seq<RecipeInput>>, now: string, upsert: Upsert): (run: Run)
    ensures run.reply.headers == HandlerCors
  {
    if recipes.None? then Run(Helper(E.BadRequest, Some(NotArrayMessage)), None)
    else match FirstInvalid(recipes.value)
      case Some(i) => Run(Helper(E.ValidationError, Some(RejectionMessage(recipes.value[i]))), None)
      case None =>
        var rows := UpsertRows(recipes.value, now);
        match upsert
        case Upserted(returned) =>
          var n := |recipes.value|;
          Run(HttpReply(200, HandlerCors, StoredCount(n, if returned.Some? && returned.value != 0 then returned.value else n)),
              Some(rows))
        case UpsertFailed(status) =>
          if status == 404 || status == 406 then Run(Helper(E.ConfigurationError, Some(MissingTableMessage)), Some(rows))
          else Run(Helper(E.DatabaseError, Some(StoreFailedMessage)), Some(rows))
        case UpsertThrew => Run(Helper(E.InternalServerError, Some(InternalMessage)), Some(rows))
  }

  /** The exported handler. */
  function Handle(req: Request, env: BS.SupabaseEnv, now: string, fetch: Fetch, upsert: Upsert): (run: Run)
    ensures run.reply.headers == HandlerCors
  {
    if req.httpMethod == "OPTIONS" then Run(HttpReply(200, HandlerCors, NoBody), None)
    else if !BS.Configured(env) then Run(Helper(E.ConfigurationError, Some(ConfigurationMessage)), None)
    else if req.httpMethod == "GET" then Run(HandleGet(fetch), None)
    else if req.httpMethod == "POST" then
      if !req.hasBody then Run(Helper(E.InternalServerError, Some(InternalMessage)), None)
      else HandlePost(req.recipes, now, upsert)
    else Run(Helper(E.MethodNotAllowed, None), None)
  }

  /** Missing configuration is answered before the method is looked at (only a preflight
      comes first), and a method other than GET, POST and OPTIONS gets 405; neither
      writes anything. */
  lemma ConfigurationAndMethod(req: Request, env: BS.SupabaseEnv, now: string, fetch: Fetch, upsert: Upsert)
    ensures req.httpMethod != "OPTIONS" && !BS.Configured(env) ==>
              Handle(req, env, now, fetch, upsert).reply.status == 500
              && Handle(req, env, now, fetch, upsert).reply.body.error.error == E.CodeText(E.ConfigurationErrorCode)
              && Handle(req, env, now, fetch, upsert).upserted.None?
    ensures BS.Configured(env) && req.httpMethod != "OPTIONS" && req.httpMethod != "GET" && req.httpMethod != "POST" ==>
              Handle(req, env, now, fetch, upsert).reply.status == 405
              && Handle(req, env, now, fetch, upsert).upserted.None?
  {
  }

  /** A configured POST without a body throws at the destructuring and gets the catch's
      500; one with a body is the POST step on its `recipes`. */
  lemma PostBodyRule(req: Request, env: BS.SupabaseEnv, now: string, fetch: Fetch, upsert: Upsert)
    requires req.httpMethod == "POST" && BS.Configured(env)
    ensures !req.hasBody ==>
              Handle(req, env, now, fetch, upsert).reply.status == 500
              && Handle(req, env, now, fetch, upsert).reply.body
                 == Standard(E.ErrorBody(false, E.CodeText(E.InternalServerErrorCode), Some(InternalMessage)))
              && Handle(req, env, now, fetch, upsert).upserted.None?
    ensures req.hasBody ==> Handle(req, env, now, fetch, upsert) == HandlePost(req.recipes, now, upsert)
  {
  }

  /** A body whose `recipes` is not an array is a 400 and nothing is written. */
  lemma NonArrayRejected(now: string, upsert: Upsert)
    ensures HandlePost(None, now, upsert).reply.status == 400
    ensures HandlePost(None, now, upsert).reply.body == Standard(E.ErrorBody(false, E.CodeText(E.BadRequestCode), Some(NotArrayMessage)))
    ensures HandlePost(None, now, upsert).upserted.None?
  {
  }

  /** A batch with an unacceptable recipe is a validation error naming the first such
      recipe's problem, and nothing is written; a batch of acceptable recipes is written
      whole, one row per recipe. */
  lemma ValidationGatesUpsert(recipes: seq<RecipeInput>, now: string, upsert: Upsert, i: nat)
    requires i < |recipes| && !Acceptable(recipes[i])
    requires forall j :: 0 <= j < i ==> Acceptable(recipes[j])
    ensures HandlePost(Some(recipes), now, upsert).reply.status == 400
    ensures HandlePost(Some(recipes), now, upsert).reply.body
            == Standard(E.ErrorBody(false, E.CodeText(E.ValidationErrorCode), Some(RejectionMessage(recipes[i]))))
    ensures HandlePost(Some(recipes), now, upsert).upserted.None?
  {
    FirstInvalidIs(recipes, i);
    var reply := Helper(E.ValidationError, Some(RejectionMessage(recipes[i])));
    assert HandlePost(Some(recipes), now, upsert) == Run(reply, None);
  }

  /** The validation loop stops at the first recipe that is not acceptable. */
  lemma FirstInvalidIs(recipes: seq<RecipeInput>, i: nat)
    requires i < |recipes| && !Acceptable(recipes[i])
    requires forall j :: 0 <= j < i ==> Acceptable(recipes[j])
    ensures FirstInvalid(recipes) == Some(i)
  {
    var k := FirstInvalid(recipes);
    assert !(k.value < i) && !(i < k.value);
  }

  /** A batch whose recipes are all acceptable is sent whole; on success the reply counts
      the returned rows, or the batch when none come back. */
  lemma AcceptedBatchUpserted(recipes: seq<RecipeInput>, now: string, upsert: Upsert)
    requires forall j :: 0 <= j < |recipes| ==> Acceptable(recipes[j])
    ensures HandlePost(Some(recipes), now, upsert).upserted == Some(UpsertRows(recipes, now))
    ensures upsert.Upserted? ==>
              HandlePost(Some(recipes), now, upsert).reply.status == 200
              && HandlePost(Some(recipes), now, upsert).reply.body.stored == |recipes|
    ensures upsert == Upserted(None) ==> HandlePost(Some(recipes), now, upsert).reply.body.count == |recipes|
  {
  }

  /** A GET answered 404 or 406 (no table yet) is an empty listing, any other failure a
      database error. */
  lemma MissingTableListsNothing(status: int)
    ensures status == 404 || status == 406 ==> HandleGet(FetchFailed(status)) == HttpReply(200, HandlerCors, Recipes([]))
    ensures status != 404 && status != 406 ==> HandleGet(FetchFailed(status)).status == 500
  {
  }
}
