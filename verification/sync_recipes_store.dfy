/** The Supabase variant of the recipe-index sync (api-handlers/sync-recipes.js): the
    posts are listed and turned into entries exactly as in module SyncRecipes, but the
    entries are sent to the Supabase `recipes` table instead of being committed, and the
    request fails unless that store call succeeds. Errors go through the standard
    ErrorResponse helpers. */
module SyncRecipesStore {
  import opened Text
  import E = ErrorResponse
  import BP = BlogPublisher
  import S = SyncRecipes
  import BS = BlogStore

  /** One row sent to the table. */
  datatype Row = Row(slug: string, title: string, name: string, url: string, createdAt: string)

  /** `new Date(createdAt).toISOString()` of a "YYYY-MM-DD" date, which is read as UTC
      midnight. */
  function MidnightIso(date: string): string {
    date + "T00:00:00.000Z"
  }

  /** The row of one entry: `title || name` and `name || title`. */
  function RowOf(r: BP.Recipe): Row {
    Row(r.slug, if r.title != "" then r.title else r.name, if r.name != "" then r.name else r.title, r.url,
        MidnightIso(r.createdAt))
  }

  function Rows(recipes: seq<BP.Recipe>): (rows: seq<Row>)
    ensures |rows| == |recipes|
    ensures forall i :: 0 <= i < |rows| ==> rows[i] == RowOf(recipes[i])
  {
    seq(|recipes|, i requires 0 <= i < |recipes| => RowOf(recipes[i]))
  }

  /** The rows keep the entries' order, slugs and urls; a row's title and name are empty
      only when both of the entry's are, and each stands in for the other when missing;
      the timestamp starts with the entry's date. */
  lemma RowsMapping(recipes: seq<BP.Recipe>)
    ensures var rows := Rows(recipes);
            |rows| == |recipes|
            && forall i :: 0 <= i < |rows| ==>
                 rows[i].slug == recipes[i].slug && rows[i].url == recipes[i].url
                 && (rows[i].title == "" <==> recipes[i].title == "" && recipes[i].name == "")
                 && (rows[i].name == "" <==> recipes[i].title == "" && recipes[i].name == "")
                 && (recipes[i].title != "" ==> rows[i].title == recipes[i].title)
                 && (recipes[i].title == "" ==> rows[i].title == recipes[i].name)
                 && (recipes[i].name != "" ==> rows[i].name == recipes[i].name)
                 && (recipes[i].name == "" ==> rows[i].name == recipes[i].title)
                 && StartsWith(rows[i].createdAt, recipes[i].createdAt)
  {
    var rows := Rows(recipes);
    forall i | 0 <= i < |rows|
      ensures StartsWith(rows[i].createdAt, recipes[i].createdAt)
    {
      assert rows[i].createdAt[..|recipes[i].createdAt|] == recipes[i].createdAt;
    }
  }

  /** Entries built by the sync have equal title and name, so their rows carry them unchanged. */
  lemma SyncedRowsKeepTitles(recipes: seq<BP.Recipe>)
    requires forall i :: 0 <= i < |recipes| ==> recipes[i].name == recipes[i].title
    ensures forall i :: 0 <= i < |recipes| ==>
              Rows(recipes)[i].title == recipes[i].title && Rows(recipes)[i].name == recipes[i].title
  {
  }

  /** What the services answer: the listing and post reads as in SyncRecipes, and the
      store POST (answered with a status, or thrown). */
  datatype Services = Services(listing: S.Listing, fetches: seq<S.FileRead>, store: BP.Response)

  /** One read per listed post. */
  predicate Answers(sv: Services) {
    sv.listing.Listed? ==> |sv.fetches| == |S.BlogFiles(sv.listing.items)|
  }

  datatype Body =
    | NoBody
    | Standard(error: E.ErrorBody)
    | NothingToSync(message: string, recipesCount: nat)
    | Synced(recipesCount: nat, recipes: seq<S.Summary>)

  datatype HttpReply = HttpReply(status: int, headers: map<string, string>, body: Body)

  /** The reply and the rows sent to the table, if any were. */
  datatype SyncRun = SyncRun(reply: HttpReply, stored: Option<seq<Row>>)

  const ListMessage: string := "Failed to list blog files from GitHub"
  const StoreMessage: string :=
    "Supabase storage failed. Check your SUPABASE_URL and SUPABASE_SERVICE_ROLE_KEY environment variables."

  function Helper(h: E.Helper, message: string): (r: HttpReply)
    ensures r.status == E.StatusOf(h) && r.headers == S.HandlerCors
    ensures r.body == Standard(E.ErrorBody(false, E.CodeText(E.CodeOf(h)), Some(message)))
  {
    var sent := E.Send(h, Some(message), None);
    HttpReply(sent.status, S.HandlerCors, Standard(sent.body))
  }

  function Reply(status: int, body: Body): HttpReply {
    HttpReply(status, S.HandlerCors, body)
  }

  /** The store step: rows are sent only with a url and a key, and the step succeeds
      only when the POST was answered with a 2xx status. */
  function StoreStep(db: BS.SupabaseEnv, recipes: seq<BP.Recipe>, store: BP.Response): (r: (bool, Option<seq<Row>>))
    ensures r.1.Some? <==> BS.Configured(db)
    ensures r.0 <==> BS.Configured(db) && BP.Succeeded(store)
  {
    if BS.Configured(db) then (BP.Succeeded(store), Some(Rows(recipes))) else (false, None)
  }

  /** One request; `site` is the configured public site url and `today` the ISO date. */
  function Sync(httpMethod: string, env: BP.GitHubEnv, db: BS.SupabaseEnv, site: string, today: string, sv: Services)
    : (run: SyncRun)
    requires Answers(sv)
    ensures run.reply.headers == S.HandlerCors
  {
    if httpMethod == "OPTIONS" then SyncRun(Reply(200, NoBody), None)
    else if httpMethod != "POST" && httpMethod != "GET" then SyncRun(Helper(E.MethodNotAllowed, S.MethodMessage), None)
    else if env.token == "" || env.repo == "" then SyncRun(Helper(E.ConfigurationError, S.CredentialsMessage), None)
    else if sv.listing.ListThrew? then SyncRun(Helper(E.ExternalServiceError, ListMessage), None)
    else if sv.listing.ListFailed? then
      if sv.listing.status == 404 then SyncRun(Reply(200, NothingToSync(S.NoDirectoryMessage, 0)), None)
      else SyncRun(Helper(E.ExternalServiceError, ListMessage), None)
    else
      var files := S.BlogFiles(sv.listing.items);
      if files == [] then SyncRun(Reply(200, NothingToSync(S.NoFilesMessage, 0)), None)
      else Publish(db, S.SyncedIndex(files, sv.fetches, site, today), sv.store)
  }

  /** The store step and the reply once the index is built. */
  function Publish(db: BS.SupabaseEnv, recipes: seq<BP.Recipe>, store: BP.Response): (run: SyncRun)
    ensures run.reply.headers == S.HandlerCors
  {
    var step := StoreStep(db, recipes, store);
    if !step.0 then SyncRun(Helper(E.DatabaseError, StoreMessage), step.1)
    else SyncRun(Reply(200, Synced(|recipes|, S.Summaries(recipes))), step.1)
  }

  /** A preflight is an empty 200, another method than GET and POST a METHOD_NOT_ALLOWED
      405, and missing GitHub credentials a CONFIGURATION_ERROR 500; none stores anything. */
  lemma RequestChecks(httpMethod: string, env: BP.GitHubEnv, db: BS.SupabaseEnv, site: string, today: string, sv: Services)
    requires Answers(sv)
    ensures var run := Sync(httpMethod, env, db, site, today, sv);
            httpMethod == "OPTIONS" ==> run == SyncRun(Reply(200, NoBody), None)
    ensures var run := Sync(httpMethod, env, db, site, today, sv);
            httpMethod != "OPTIONS" && httpMethod != "GET" && httpMethod != "POST" ==>
              run.reply.status == 405 && run.stored.None?
              && run.reply.body.error.error == E.CodeText(E.MethodNotAllowedCode)
    ensures var run := Sync(httpMethod, env, db, site, today, sv);
            (httpMethod == "GET" || httpMethod == "POST") && (env.token == "" || env.repo == "") ==>
              run.reply.status == 500 && run.stored.None?
              && run.reply.body.error.error == E.CodeText(E.ConfigurationErrorCode)
  {
  }

  /** Without posts (no blogs directory, or none listed) the reply is a 200 with
      recipesCount 0 and nothing is stored; a failed listing is an EXTERNAL_SERVICE_ERROR. */
  lemma NothingListed(httpMethod: string, env: BP.GitHubEnv, db: BS.SupabaseEnv, site: string, today: string, sv: Services)
    requires Answers(sv)
    requires httpMethod == "GET" || httpMethod == "POST"
    requires env.token != "" && env.repo != ""
    ensures var run := Sync(httpMethod, env, db, site, today, sv);
            (sv.listing == S.ListFailed(404) || (sv.listing.Listed? && S.BlogFiles(sv.listing.items) == [])) ==>
              run.reply.status == 200 && run.reply.body.NothingToSync? && run.reply.body.recipesCount == 0
              && run.stored.None?
    ensures var run := Sync(httpMethod, env, db, site, today, sv);
            (sv.listing.ListThrew? || (sv.listing.ListFailed? && sv.listing.status != 404)) ==>
              run.reply.status == 500 && run.stored.None?
              && run.reply.body.error.error == E.CodeText(E.ExternalServiceErrorCode)
  {
  }

  /** Once posts are found, the request goes on to the store step with the index built
      from them. */
  lemma SyncPublishes(httpMethod: string, env: BP.GitHubEnv, db: BS.SupabaseEnv, site: string, today: string,
                      sv: Services)
    requires Answers(sv)
    requires httpMethod == "GET" || httpMethod == "POST"
    requires env.token != "" && env.repo != ""
    requires sv.listing.Listed? && S.BlogFiles(sv.listing.items) != []
    ensures Sync(httpMethod, env, db, site, today, sv)
            == Publish(db, S.SyncedIndex(S.BlogFiles(sv.listing.items), sv.fetches, site, today), sv.store)
  {
  }

  /** Once posts are found, the rows of the newest-first index are sent exactly when
      Supabase is configured. */
  lemma RowsSentWhenConfigured(httpMethod: string, env: BP.GitHubEnv, db: BS.SupabaseEnv, site: string, today: string,
                               sv: Services)
    requires Answers(sv)
    requires httpMethod == "GET" || httpMethod == "POST"
    requires env.token != "" && env.repo != ""
    requires sv.listing.Listed? && S.BlogFiles(sv.listing.items) != []
    ensures var run := Sync(httpMethod, env, db, site, today, sv);
            var index := S.SyncedIndex(S.BlogFiles(sv.listing.items), sv.fetches, site, today);
            (run.stored.Some? <==> BS.Configured(db)) && (run.stored.Some? ==> run.stored.value == Rows(index))
  {
    SyncPublishes(httpMethod, env, db, site, today, sv);
  }

  /** Once posts are found, a configured store that accepts the rows gives a 200 listing
      the index. */
  lemma StoredReply(httpMethod: string, env: BP.GitHubEnv, db: BS.SupabaseEnv, site: string, today: string, sv: Services)
    requires Answers(sv)
    requires httpMethod == "GET" || httpMethod == "POST"
    requires env.token != "" && env.repo != ""
    requires sv.listing.Listed? && S.BlogFiles(sv.listing.items) != []
    requires BS.Configured(db) && BP.Succeeded(sv.store)
    ensures var index := S.SyncedIndex(S.BlogFiles(sv.listing.items), sv.fetches, site, today);
            Sync(httpMethod, env, db, site, today, sv).reply == Reply(200, Synced(|index|, S.Summaries(index)))
  {
    SyncPublishes(httpMethod, env, db, site, today, sv);
  }

  /** Once posts are found, an unconfigured store, a failing status or a throw gives a
      DATABASE_ERROR 500. */
  lemma UnstoredReply(httpMethod: string, env: BP.GitHubEnv, db: BS.SupabaseEnv, site: string, today: string, sv: Services)
    requires Answers(sv)
    requires httpMethod == "GET" || httpMethod == "POST"
    requires env.token != "" && env.repo != ""
    requires sv.listing.Listed? && S.BlogFiles(sv.listing.items) != []
    requires !(BS.Configured(db) && BP.Succeeded(sv.store))
    ensures Sync(httpMethod, env, db, site, today, sv).reply == Helper(E.DatabaseError, StoreMessage)
    ensures Sync(httpMethod, env, db, site, today, sv).reply.status == 500
    ensures Sync(httpMethod, env, db, site, today, sv).reply.body.error.error == E.CodeText(E.DatabaseErrorCode)
  {
    SyncPublishes(httpMethod, env, db, site, today, sv);
    UnstoredPublish(db, S.SyncedIndex(S.BlogFiles(sv.listing.items), sv.fetches, site, today), sv.store);
  }

  /** The store step's failure is the DATABASE_ERROR reply. */
  lemma UnstoredPublish(db: BS.SupabaseEnv, recipes: seq<BP.Recipe>, store: BP.Response)
    requires !(BS.Configured(db) && BP.Succeeded(store))
    ensures Publish(db, recipes, store).reply == Helper(E.DatabaseError, StoreMessage)
    ensures Helper(E.DatabaseError, StoreMessage).status == 500
    ensures Helper(E.DatabaseError, StoreMessage).body.error.error == E.CodeText(E.DatabaseErrorCode)
  {
  }
}
