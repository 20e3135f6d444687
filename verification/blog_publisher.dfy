/** The GitHub-backed blog publisher (api/generate-blog.js). The dish name becomes a slug,
    the generated post is un-fenced, and `createBlogFilesViaGitHub` skips a post that
    already exists, writes the blog file, and keeps the recipe index `recipes.json` up to
    date: the index is read (any failure gives an empty index without a sha), the new entry
    is upserted, and the index is written back with at most three PUTs, re-reading it after
    a 422 conflict. The handler answers 200 with the post itself when publishing fails.
    Every GitHub and OpenAI response is an oracle value; the HTML template, the prompts and
    the Base64/JSON encodings are not modelled. */
module BlogPublisher {
  import opened Text
  import BlogSlug
  import BlogFences
  import Cors

  const PublicSiteUrl: string := "https://ok-snap.com"
  const PublicSitePrefix: string := "/public-site"

  // ---- image URLs ----

  /** The rewrite of the image path into the URL used by the page's featured image and
      its og:image tag, as written: a '/public-site/' path loses its first "/public-site",
      any other path is appended to the site, with a '/' between when it has none. */
  function ImageUrlAsWritten(imagePath: string): (url: string)
    ensures StartsWith(url, PublicSiteUrl)
  {
    if StartsWith(imagePath, PublicSitePrefix + "/") then PublicSiteUrl + ReplaceFirst(imagePath, PublicSitePrefix, "")
    else if StartsWith(imagePath, "/") then PublicSiteUrl + imagePath
    else PublicSiteUrl + "/" + imagePath
  }

  /** The rewrite with an absolute URL (the DALL-E image URL the generator actually
      passes) kept as it is, which is how the same function treats it when it reports
      the image URL back. */
  function ImageUrl(imagePath: string): (url: string)
    ensures StartsWith(url, "http")
  {
    if StartsWith(imagePath, "http") then imagePath else ImageUrlAsWritten(imagePath)
  }

  /** The three rewrite rules for site paths: '/public-site/x', '/x' and 'x' all become
      the site followed by '/x'. */
  lemma SitePathRewrite(x: string)
    ensures ImageUrl(PublicSitePrefix + "/" + x) == PublicSiteUrl + "/" + x
    ensures !StartsWith("/" + x, PublicSitePrefix + "/") ==> ImageUrl("/" + x) == PublicSiteUrl + "/" + x
    ensures (x == [] || x[0] != '/') && !StartsWith(x, "http") ==> ImageUrl(x) == PublicSiteUrl + "/" + x
  {
    var p := PublicSitePrefix + "/" + x;
    assert p[..|PublicSitePrefix + "/"|] == PublicSitePrefix + "/";
    assert p[0] == '/';
    assert StartsWith(p, PublicSitePrefix);
    assert p[|PublicSitePrefix|..] == "/" + x;
    assert ReplaceFirst(p, PublicSitePrefix, "") == "/" + x;
    var q := "/" + x;
    assert q[0] == '/' && q[..1] == "/";
  }

  /** Finding, as written: an absolute image URL is appended to the site, so the page
      links to "https://ok-snap.com/https://…" instead of the image. */
  lemma AbsoluteUrlMangledAsWritten(imagePath: string)
    requires StartsWith(imagePath, "http")
    ensures ImageUrlAsWritten(imagePath) == PublicSiteUrl + "/" + imagePath
    ensures ImageUrlAsWritten(imagePath) != imagePath
  {
    assert imagePath[0] == 'h';
    assert !StartsWith(imagePath, "/");
    assert !StartsWith(imagePath, PublicSitePrefix + "/");
    assert |ImageUrlAsWritten(imagePath)| > |imagePath|;
  }

  /** The corrected rewrite keeps absolute URLs and agrees with the code as written on
      every other path. */
  lemma ImageUrlCorrected(imagePath: string)
    ensures StartsWith(imagePath, "http") ==> ImageUrl(imagePath) == imagePath
    ensures !StartsWith(imagePath, "http") ==> ImageUrl(imagePath) == ImageUrlAsWritten(imagePath)
  {
  }

  /** The image URL reported after publishing: an absolute URL as it is, otherwise the
      conventional image path of the slug. */
  function ReportedImageUrl(imagePath: string, slug: string): (url: string)
    ensures StartsWith(imagePath, "http") ==> url == imagePath
    ensures !StartsWith(imagePath, "http") ==> url == PublicSiteUrl + "/images/blogs/" + slug + ".png"
  {
    if StartsWith(imagePath, "http") then imagePath else PublicSiteUrl + "/images/blogs/" + slug + ".png"
  }

  /** The image URL of the handler's fallback reply, as written: the site with the image
      path appended directly. */
  function FallbackImageUrlAsWritten(imagePath: string): (url: string)
    ensures StartsWith(url, PublicSiteUrl)
  {
    PublicSiteUrl + imagePath
  }

  /** Finding, as written: with the absolute URL the generator produces, the fallback URL
      is "https://ok-snap.comhttps://…", whose host is not the site's. */
  lemma FallbackUrlMangledAsWritten(imagePath: string)
    requires StartsWith(imagePath, "http")
    ensures StartsWith(FallbackImageUrlAsWritten(imagePath), PublicSiteUrl + "http")
    ensures FallbackImageUrlAsWritten(imagePath) != imagePath
  {
    var u := FallbackImageUrlAsWritten(imagePath);
    assert u[..|PublicSiteUrl + "http"|] == PublicSiteUrl + imagePath[..4];
    assert |u| > |imagePath|;
  }

  /** The fallback image URL with an absolute URL kept as it is; a site path is still
      appended to the site. */
  function FallbackImageUrl(imagePath: string): (url: string)
    ensures StartsWith(url, "http")
  {
    if StartsWith(imagePath, "http") then imagePath else FallbackImageUrlAsWritten(imagePath)
  }

  /** The corrected fallback URL keeps the generator's URL and is the same as written for
      every path that is not absolute. */
  lemma FallbackImageUrlCorrected(imagePath: string)
    ensures StartsWith(imagePath, "http") ==> FallbackImageUrl(imagePath) == imagePath
    ensures !StartsWith(imagePath, "http") ==> FallbackImageUrl(imagePath) == PublicSiteUrl + imagePath
  {
  }

  // ---- the recipe index ----

  /** One entry of recipes.json. */
  datatype Recipe = Recipe(slug: string, title: string, name: string, url: string, createdAt: string)

  function BlogUrl(slug: string): (url: string)
    ensures StartsWith(url, PublicSiteUrl + "/blogs/") && EndsWith(url, ".html")
  {
    var url := PublicSiteUrl + "/blogs/" + slug + ".html";
    assert url[..|PublicSiteUrl + "/blogs/"|] == PublicSiteUrl + "/blogs/";
    assert url[|url| - 5..] == ".html";
    url
  }

  /** The entry written for a new post; `today` is the ISO date of the call. */
  function NewEntry(name: string, slug: string, today: string): (e: Recipe)
    ensures e.slug == slug && e.title == name && e.name == name && e.url == BlogUrl(slug) && e.createdAt == today
  {
    Recipe(slug, name, name, BlogUrl(slug), today)
  }

  /** `recipes.findIndex(r => r.slug === slug)`, with None for -1. */
  function FindSlug(recipes: seq<Recipe>, slug: string): (r: Option<nat>)
    ensures r.None? <==> forall i :: 0 <= i < |recipes| ==> recipes[i].slug != slug
    ensures r.Some? ==> r.value < |recipes| && recipes[r.value].slug == slug
    ensures r.Some? ==> forall j :: 0 <= j < r.value ==> recipes[j].slug != slug
  {
    if recipes == [] then None
    else if recipes[0].slug == slug then Some(0)
    else match FindSlug(recipes[1..], slug)
      case None => None
      case Some(i) => Some(i + 1)
  }

  /** The index update: the first entry with the same slug is replaced in place,
      otherwise the entry is put in front. */
  function Upsert(recipes: seq<Recipe>, entry: Recipe): (r: seq<Recipe>)
    ensures entry in r
  {
    match FindSlug(recipes, entry.slug)
    case Some(i) =>
      assert recipes[i := entry][i] == entry;
      recipes[i := entry]
    case None => [entry] + recipes
  }

  /** How many entries carry the slug. */
  function Count(recipes: seq<Recipe>, slug: string): nat {
    if recipes == [] then 0
    else (if recipes[0].slug == slug then 1 else 0) + Count(recipes[1..], slug)
  }

  /** The entries that do not carry the slug, in order. */
  function Without(recipes: seq<Recipe>, slug: string): seq<Recipe> {
    if recipes == [] then []
    else (if recipes[0].slug == slug then [] else [recipes[0]]) + Without(recipes[1..], slug)
  }

  lemma {:induction false} CountAppend(a: seq<Recipe>, b: seq<Recipe>, slug: string)
    ensures Count(a + b, slug) == Count(a, slug) + Count(b, slug)
  {
    if a == [] {
      assert a + b == b;
    } else {
      assert (a + b)[1..] == a[1..] + b;
      CountAppend(a[1..], b, slug);
    }
  }

  lemma {:induction false} WithoutAppend(a: seq<Recipe>, b: seq<Recipe>, slug: string)
    ensures Without(a + b, slug) == Without(a, slug) + Without(b, slug)
  {
    if a == [] {
      assert a + b == b;
    } else {
      assert (a + b)[1..] == a[1..] + b;
      WithoutAppend(a[1..], b, slug);
    }
  }

  lemma {:induction false} CountZeroIffAbsent(recipes: seq<Recipe>, slug: string)
    ensures Count(recipes, slug) == 0 <==> forall i :: 0 <= i < |recipes| ==> recipes[i].slug != slug
  {
    if recipes != [] {
      CountZeroIffAbsent(recipes[1..], slug);
      assert forall i :: 1 <= i < |recipes| ==> recipes[i] == recipes[1..][i - 1];
    }
  }

  /** Replacing an entry at `i` by one with the same slug. */
  lemma ReplaceSameSlug(recipes: seq<Recipe>, i: nat, entry: Recipe)
    requires i < |recipes| && recipes[i].slug == entry.slug
    ensures Count(recipes[i := entry], entry.slug) == Count(recipes, entry.slug)
    ensures Without(recipes[i := entry], entry.slug) == Without(recipes, entry.slug)
  {
    var a, b := recipes[..i], recipes[i + 1..];
    assert recipes == a + [recipes[i]] + b;
    assert recipes[i := entry] == a + [entry] + b;
    CountAppend(a + [recipes[i]], b, entry.slug);
    CountAppend(a, [recipes[i]], entry.slug);
    CountAppend(a + [entry], b, entry.slug);
    CountAppend(a, [entry], entry.slug);
    WithoutAppend(a + [recipes[i]], b, entry.slug);
    WithoutAppend(a, [recipes[i]], entry.slug);
    WithoutAppend(a + [entry], b, entry.slug);
    WithoutAppend(a, [entry], entry.slug);
  }

  /** The upsert leaves every entry with another slug as it was, in the same order. */
  lemma UpsertKeepsOthers(recipes: seq<Recipe>, entry: Recipe)
    ensures Without(Upsert(recipes, entry), entry.slug) == Without(recipes, entry.slug)
  {
    match FindSlug(recipes, entry.slug)
    case Some(i) => ReplaceSameSlug(recipes, i, entry);
    case None => assert ([entry] + recipes)[1..] == recipes;
  }

  /** The upsert adds one entry with the slug when there was none and otherwise keeps the
      number of such entries; so a slug present at most once is present exactly once
      afterwards. */
  lemma UpsertCount(recipes: seq<Recipe>, entry: Recipe)
    ensures Count(recipes, entry.slug) == 0 ==> Count(Upsert(recipes, entry), entry.slug) == 1
    ensures Count(recipes, entry.slug) > 0 ==> Count(Upsert(recipes, entry), entry.slug) == Count(recipes, entry.slug)
    ensures Count(recipes, entry.slug) <= 1 ==> Count(Upsert(recipes, entry), entry.slug) == 1
  {
    CountZeroIffAbsent(recipes, entry.slug);
    match FindSlug(recipes, entry.slug)
    case Some(i) => ReplaceSameSlug(recipes, i, entry);
    case None => assert ([entry] + recipes)[1..] == recipes;
  }

  /** An index with the slug keeps its length and has the new entry where the first
      such entry was; one without it grows by the entry in front. */
  lemma UpsertPlacement(recipes: seq<Recipe>, entry: Recipe, i: nat)
    requires i < |recipes| && recipes[i].slug == entry.slug
    requires forall j :: 0 <= j < i ==> recipes[j].slug != entry.slug
    ensures |Upsert(recipes, entry)| == |recipes| && Upsert(recipes, entry)[i] == entry
    ensures forall j :: 0 <= j < |recipes| && j != i ==> Upsert(recipes, entry)[j] == recipes[j]
  {
    var k := FindSlug(recipes, entry.slug);
    assert k.Some?;
    assert !(k.value < i) && !(i < k.value);
  }

  lemma UpsertPrepends(recipes: seq<Recipe>, entry: Recipe)
    requires forall j :: 0 <= j < |recipes| ==> recipes[j].slug != entry.slug
    ensures Upsert(recipes, entry) == [entry] + recipes
  {
  }

  /** Applying the same upsert twice is applying it once. */
  lemma UpsertIdempotent(recipes: seq<Recipe>, entry: Recipe)
    ensures Upsert(Upsert(recipes, entry), entry) == Upsert(recipes, entry)
  {
    var once := Upsert(recipes, entry);
    match FindSlug(recipes, entry.slug)
    case Some(i) =>
      UpsertPlacement(once, entry, i);
      assert once[i := entry] == once;
    case None =>
      UpsertPlacement(once, entry, 0);
      assert once[0 := entry] == once;
  }

  // ---- reading and writing the index ----

  /** The decoded content of a fetched index: a JSON array, something that is not a
      parsable array, or no `content` field at all. */
  datatype Content = Parsed(recipes: seq<Recipe>) | Unparsable | NoContent

  /** A GET of recipes.json: fetched (with the file's sha, "" when absent), answered
      without success, or thrown. */
  datatype ReadOutcome = Fetched(sha: string, content: Content) | NotFetched(status: int) | ReadThrew

  /** A PUT or GET answered with a status, or thrown. */
  datatype Response = Answered(status: int) | Threw

  predicate Succeeded(r: Response) {
    r.Answered? && 200 <= r.status <= 299
  }

  /** The index about to be written and the sha to send with it ("" for none). */
  datatype IndexState = IndexState(recipes: seq<Recipe>, sha: string)

  /** The first read of the index: only a fetched, parsable array is kept, with its sha;
      anything else starts from an empty index without a sha. */
  function InitialIndex(read: ReadOutcome): (s: IndexState)
    ensures s.sha != "" ==> read.Fetched? && read.content.Parsed? && s.sha == read.sha
    ensures s.recipes != [] ==> read.Fetched? && read.content.Parsed? && s.recipes == read.content.recipes
  {
    match read
    case Fetched(sha, Parsed(recipes)) => IndexState(recipes, sha)
    case _ => IndexState([], "")
  }

  /** The body of one index PUT; the sha goes in only when it is non-empty. */
  datatype IndexPut = IndexPut(recipes: seq<Recipe>, sha: Option<string>)

  function PutOf(s: IndexState): (p: IndexPut)
    ensures p.recipes == s.recipes
    ensures p.sha.Some? <==> s.sha != ""
    ensures p.sha.Some? ==> p.sha.value == s.sha
  {
    IndexPut(s.recipes, if s.sha == "" then None else Some(s.sha))
  }

  const MaxRetries: nat := 2
  const ConflictStatus: int := 422

  /** The re-read after a 422: a fetched index takes its sha (even when the content then
      fails to decode) and, when it decodes, the entry is upserted into it (an unparsable
      index counts as empty); a failed re-read keeps the state. */
  function AfterConflict(read: ReadOutcome, s: IndexState, entry: Recipe): (next: IndexState)
    ensures entry in s.recipes ==> entry in next.recipes
  {
    match read
    case Fetched(sha, Parsed(recipes)) => IndexState(Upsert(recipes, entry), sha)
    case Fetched(sha, Unparsable) => IndexState(Upsert([], entry), sha)
    case Fetched(sha, NoContent) => IndexState(s.recipes, sha)
    case _ => s
  }

  datatype RetryOutcome = RetryOutcome(success: bool, sent: seq<IndexPut>)

  /** The state the next attempt sends after a failed one: the re-read state after a
      422, the same state after any other failure. */
  function NextState(attempt: nat, s: IndexState, entry: Recipe, puts: seq<Response>, rereads: seq<ReadOutcome>)
    : (next: IndexState)
    requires attempt < MaxRetries < |puts| && MaxRetries <= |rereads|
    ensures puts[attempt] != Answered(ConflictStatus) ==> next == s
  {
    if puts[attempt] == Answered(ConflictStatus) then AfterConflict(rereads[attempt], s, entry) else s
  }

  /** The PUT loop from attempt `attempt` on: `puts[k]` answers attempt k and `rereads[k]`
      the re-read after a 422 on attempt k. A success stops the loop; a failure on the last
      attempt ends it unsuccessfully; any other failure retries, after a 422 with the
      re-read state. */
  function RetryRun(attempt: nat, s: IndexState, entry: Recipe, puts: seq<Response>, rereads: seq<ReadOutcome>)
    : (r: RetryOutcome)
    requires attempt <= MaxRetries < |puts| && MaxRetries <= |rereads|
    ensures 1 <= |r.sent| <= MaxRetries + 1 - attempt
    ensures r.sent[0] == PutOf(s)
    decreases MaxRetries - attempt
  {
    var put := PutOf(s);
    if Succeeded(puts[attempt]) then RetryOutcome(true, [put])
    else if attempt == MaxRetries then RetryOutcome(false, [put])
    else
      var rest := RetryRun(attempt + 1, NextState(attempt, s, entry, puts, rereads), entry, puts, rereads);
      RetryOutcome(rest.success, [put] + rest.sent)
  }

  /** The loop stops at the first successful PUT and succeeds exactly when its last PUT
      did; it fails only after using every attempt. */
  lemma {:induction false} RetryStopsAtFirstSuccess(attempt: nat, s: IndexState, entry: Recipe, puts: seq<Response>,
                                                    rereads: seq<ReadOutcome>)
    requires attempt <= MaxRetries < |puts| && MaxRetries <= |rereads|
    ensures var r := RetryRun(attempt, s, entry, puts, rereads);
            r.success <==> Succeeded(puts[attempt + |r.sent| - 1])
    ensures var r := RetryRun(attempt, s, entry, puts, rereads);
            forall k :: attempt <= k < attempt + |r.sent| - 1 ==> !Succeeded(puts[k])
    ensures var r := RetryRun(attempt, s, entry, puts, rereads);
            !r.success ==> attempt + |r.sent| == MaxRetries + 1
    decreases MaxRetries - attempt
  {
    if !Succeeded(puts[attempt]) && attempt < MaxRetries {
      RetryStopsAtFirstSuccess(attempt + 1, NextState(attempt, s, entry, puts, rereads), entry, puts, rereads);
    }
  }

  /** What each retry sends: after a failure other than 422 the same body again; after a
      422 whose re-read decodes, the entry upserted into the re-read index with the
      re-read sha; after a 422 whose re-read fails, the same body again. */
  lemma {:induction false} RetryBodies(attempt: nat, s: IndexState, entry: Recipe, puts: seq<Response>,
                                       rereads: seq<ReadOutcome>, k: nat)
    requires attempt <= MaxRetries < |puts| && MaxRetries <= |rereads|
    requires k + 1 < |RetryRun(attempt, s, entry, puts, rereads).sent|
    ensures var sent := RetryRun(attempt, s, entry, puts, rereads).sent;
            puts[attempt + k] != Answered(ConflictStatus) ==> sent[k + 1] == sent[k]
    ensures var sent := RetryRun(attempt, s, entry, puts, rereads).sent;
            puts[attempt + k] == Answered(ConflictStatus) && rereads[attempt + k].Fetched?
            && rereads[attempt + k].content.Parsed? ==>
              sent[k + 1] == PutOf(IndexState(Upsert(rereads[attempt + k].content.recipes, entry), rereads[attempt + k].sha))
    ensures var sent := RetryRun(attempt, s, entry, puts, rereads).sent;
            puts[attempt + k] == Answered(ConflictStatus) && !rereads[attempt + k].Fetched? ==> sent[k + 1] == sent[k]
    decreases MaxRetries - attempt
  {
    if k > 0 {
      RetryBodies(attempt + 1, NextState(attempt, s, entry, puts, rereads), entry, puts, rereads, k - 1);
    }
  }

  /** Once the entry is in the index, every body the loop sends contains it. */
  lemma {:induction false} RetrySendsEntry(attempt: nat, s: IndexState, entry: Recipe, puts: seq<Response>,
                                           rereads: seq<ReadOutcome>)
    requires attempt <= MaxRetries < |puts| && MaxRetries <= |rereads|
    requires entry in s.recipes
    ensures var sent := RetryRun(attempt, s, entry, puts, rereads).sent;
            forall k :: 0 <= k < |sent| ==> entry in sent[k].recipes
    decreases MaxRetries - attempt
  {
    if !Succeeded(puts[attempt]) && attempt < MaxRetries {
      RetrySendsEntry(attempt + 1, NextState(attempt, s, entry, puts, rereads), entry, puts, rereads);
    }
  }

  /** A run whose first PUTs were `done`. */
  function Resumed(done: seq<IndexPut>, r: RetryOutcome): RetryOutcome {
    RetryOutcome(r.success, done + r.sent)
  }

  /** One failed attempt before the last moves the PUT it made into the finished prefix. */
  lemma ResumedStep(done: seq<IndexPut>, attempt: nat, s: IndexState, entry: Recipe, puts: seq<Response>,
                    rereads: seq<ReadOutcome>)
    requires attempt < MaxRetries < |puts| && MaxRetries <= |rereads|
    requires !Succeeded(puts[attempt])
    ensures Resumed(done, RetryRun(attempt, s, entry, puts, rereads))
            == Resumed(done + [PutOf(s)], RetryRun(attempt + 1, NextState(attempt, s, entry, puts, rereads), entry, puts, rereads))
  {
    var rest := RetryRun(attempt + 1, NextState(attempt, s, entry, puts, rereads), entry, puts, rereads);
    assert done + ([PutOf(s)] + rest.sent) == (done + [PutOf(s)]) + rest.sent;
  }

  /** The index update of `createBlogFilesViaGitHub`: the entry is upserted into the index
      read at the start, then a loop of at most MaxRetries + 1 PUTs runs, with `puts` and
      `rereads` answering the requests in order. A failure on the last attempt ends the
      loop unsuccessfully (the source throws there). */
  method UpdateIndexWithRetry(start: IndexState, entry: Recipe, puts: seq<Response>, rereads: seq<ReadOutcome>)
    returns (success: bool, sent: seq<IndexPut>)
    requires MaxRetries < |puts| && MaxRetries <= |rereads|
    ensures RetryOutcome(success, sent) == RetryRun(0, IndexState(Upsert(start.recipes, entry), start.sha), entry, puts, rereads)
    ensures 1 <= |sent| <= MaxRetries + 1
  {
    var s := IndexState(Upsert(start.recipes, entry), start.sha);
    ghost var whole := RetryRun(0, s, entry, puts, rereads);
    success := false;
    sent := [];
    var attempt: nat := 0;
    while attempt <= MaxRetries
      invariant attempt <= MaxRetries + 1
      invariant attempt <= MaxRetries ==> whole == Resumed(sent, RetryRun(attempt, s, entry, puts, rereads))
      invariant attempt > MaxRetries ==> whole == RetryOutcome(false, sent) && !success
      decreases MaxRetries + 1 - attempt
    {
      ghost var before := sent;
      sent := sent + [PutOf(s)];
      if Succeeded(puts[attempt]) {
        success := true;
        break;
      }
      if attempt < MaxRetries {
        var next := s;
        if puts[attempt] == Answered(ConflictStatus) {
          next := AfterConflict(rereads[attempt], s, entry);
        }
        ResumedStep(before, attempt, s, entry, puts, rereads);
        s := next;
      }
      attempt := attempt + 1;
    }
  }

  // ---- createBlogFilesViaGitHub ----

  /** GITHUB_TOKEN, GITHUB_REPO and GITHUB_BRANCH ("" when unset) and GITHUB_BASE_PATH
      (None when unset, so that an empty base path can be told apart). */
  datatype GitHubEnv = GitHubEnv(token: string, repo: string, branch: string, basePath: Option<string>)

  /** GITHUB_BRANCH, else `site`: never empty, and a branch that is set is used as given. */
  function Branch(env: GitHubEnv): (branch: string)
    ensures branch != ""
    ensures env.branch != "" ==> branch == env.branch
  {
    if env.branch == "" then "site" else env.branch
  }

  /** GITHUB_BASE_PATH, else `public-site`: files go to the repository root exactly when
      the variable is set to the empty string. */
  function BasePath(env: GitHubEnv): (base: string)
    ensures base == "" <==> env.basePath == Some("")
  {
    match env.basePath
    case None => "public-site"
    case Some(p) => p
  }

  /** `${base ? base + '/' : ''}<file>`. */
  function InBase(base: string, file: string): (path: string)
    ensures EndsWith(path, file)
    ensures base == "" ==> path == file
  {
    var path := (if base != "" then base + "/" else "") + file;
    assert path[|path| - |file|..] == file;
    path
  }

  /** The post's file: `blogs/<slug>.html`, under the base path unless that is empty. */
  function BlogFilePath(env: GitHubEnv, slug: string): (path: string)
    ensures EndsWith(path, "blogs/" + slug + ".html")
    ensures env.basePath == Some("") ==> path == "blogs/" + slug + ".html"
    ensures env.basePath != Some("") ==> StartsWith(path, BasePath(env) + "/")
  {
    var base := BasePath(env);
    var path := InBase(base, "blogs/" + slug + ".html");
    assert base != "" ==> path[..|base + "/"|] == base + "/";
    path
  }

  /** `const [owner, repo] = githubRepo.split('/')` followed by the check that both are
      non-empty: the first slash is neither the first character, nor the last, nor
      followed straight away by another slash. */
  predicate RepoWellFormed(repo: string)
    ensures RepoWellFormed(repo) <==>
              exists i :: 0 < i < |repo| - 1 && repo[i] == '/' && '/' !in repo[..i] && repo[i + 1] != '/'
  {
    var ok := BeforeFirst(repo, '/') != "" && SecondSegment(repo, '/').Some? && SecondSegment(repo, '/').value != "";
    FirstSlashShape(repo);
    ok
  }

  lemma FirstSlashShape(repo: string)
    ensures (BeforeFirst(repo, '/') != "" && SecondSegment(repo, '/').Some? && SecondSegment(repo, '/').value != "") <==>
              exists i :: 0 < i < |repo| - 1 && repo[i] == '/' && '/' !in repo[..i] && repo[i + 1] != '/'
  {
    if '/' in repo {
      var b := BeforeFirst(repo, '/');
      var a := AfterFirst(repo, '/');
      var k := |b|;
      assert repo == b + ['/'] + a;
      assert repo[..k] == b;
      assert forall i :: 0 < i < |repo| - 1 && repo[i] == '/' && '/' !in repo[..i] ==> i == k;
      var seg := BeforeFirst(a, '/');
      if a != [] {
        assert repo[k + 1] == a[0];
        if a[0] == '/' {
          assert seg == [];
        } else {
          assert seg != [] by { assert StartsWith(a, seg); assert IndexOf(a, '/') != Some(0); }
        }
      }
    }
  }

  /** The details attached to a failure after the credential check. */
  datatype Details = Details(repo: string, branch: string, basePath: string)

  function DetailsOf(env: GitHubEnv): Details {
    Details(env.repo, Branch(env), if BasePath(env) == "" then "(root)" else BasePath(env))
  }

  /** Why publishing failed; the texts the source builds from response bodies are not
      modelled. */
  datatype Failure = CredentialsMissing | InvalidRepoFormat | RequestThrew | BlogFileRejected(status: int) | IndexNotUpdated

  const AlreadyExistsMessage: string := "Blog already exists"

  datatype PublishResult =
    | Skipped(blogUrl: string, slug: string, message: string)
    | Published(blogUrl: string, imageUrl: Option<string>, blogFilePath: string, branch: string)
    | NotPublished(error: Failure, details: Option<Details>)

  /** The answers GitHub gives, in the order they are asked for. */
  datatype GitHub = GitHub(blogCheck: Response, blogCreate: Response, indexRead: ReadOutcome,
                           indexPuts: seq<Response>, rereads: seq<ReadOutcome>)

  predicate Answers(gh: GitHub) {
    MaxRetries < |gh.indexPuts| && MaxRetries <= |gh.rereads|
  }

  /** The blog file written: its path, title, featured image and generated content. */
  datatype BlogFile = BlogFile(path: string, title: string, imageUrl: Option<string>, content: string)

  /** The outcome with every write made: the blog file PUT (if attempted) and the index
      PUTs, in order. */
  datatype PublishRun = PublishRun(result: PublishResult, blogWrite: Option<BlogFile>, indexWrites: seq<IndexPut>)

  /** The index writes that follow a successful blog file PUT. */
  function IndexStage(name: string, slug: string, today: string, gh: GitHub): (r: RetryOutcome)
    requires Answers(gh)
    ensures 1 <= |r.sent| <= MaxRetries + 1
  {
    var start := InitialIndex(gh.indexRead);
    var entry := NewEntry(name, slug, today);
    RetryRun(0, IndexState(Upsert(start.recipes, entry), start.sha), entry, gh.indexPuts, gh.rereads)
  }

  /** Everything up to the blog file PUT succeeded, so the index is updated. */
  predicate ReachesIndex(env: GitHubEnv, gh: GitHub) {
    env.token != "" && env.repo != "" && RepoWellFormed(env.repo)
    && gh.blogCheck.Answered? && !Succeeded(gh.blogCheck)
    && Succeeded(gh.blogCreate)
  }

  /** Which image-URL rewrites the handler applies: those of the code as written, or the
      corrected ones that keep an absolute URL (see ImageUrlCorrected and
      FallbackImageUrlCorrected). */
  datatype UrlRules = AsWritten | Corrected

  /** The featured-image URL written into the blog page under the given rules. */
  function PageImageUrl(rules: UrlRules, imagePath: string): (url: string)
    ensures StartsWith(url, PublicSiteUrl) || (rules.Corrected? && url == imagePath)
    ensures !StartsWith(imagePath, "http") ==> url == ImageUrlAsWritten(imagePath)
  {
    if rules.AsWritten? then ImageUrlAsWritten(imagePath) else ImageUrl(imagePath)
  }

  /** The image URL of the fallback reply under the given rules. */
  function FallbackUrl(rules: UrlRules, imagePath: string): (url: string)
    ensures StartsWith(url, PublicSiteUrl) || (rules.Corrected? && url == imagePath)
    ensures !StartsWith(imagePath, "http") ==> url == PublicSiteUrl + imagePath
  {
    if rules.AsWritten? then FallbackImageUrlAsWritten(imagePath) else FallbackImageUrl(imagePath)
  }

  /** `createBlogFilesViaGitHub(dishData, blogContent, imagePath, slug)`; an `imagePath`
      of "" stands for null. The code as written is `Publish(AsWritten, ...)`. */
  function Publish(rules: UrlRules, env: GitHubEnv, name: string, content: string, imagePath: string, slug: string,
                   today: string, gh: GitHub): (run: PublishRun)
    requires Answers(gh)
    ensures run.indexWrites != [] <==> ReachesIndex(env, gh)
    ensures run.result.Skipped? ==> run.blogWrite.None?
    ensures |run.indexWrites| <= MaxRetries + 1
    ensures run.blogWrite.Some? ==>
              run.blogWrite.value.imageUrl == (if imagePath == "" then None else Some(PageImageUrl(rules, imagePath)))
  {
    if env.token == "" || env.repo == "" then PublishRun(NotPublished(CredentialsMissing, None), None, [])
    else if !RepoWellFormed(env.repo) then PublishRun(NotPublished(InvalidRepoFormat, Some(DetailsOf(env))), None, [])
    else if gh.blogCheck.Threw? then PublishRun(NotPublished(RequestThrew, Some(DetailsOf(env))), None, [])
    else if Succeeded(gh.blogCheck) then PublishRun(Skipped(BlogUrl(slug), slug, AlreadyExistsMessage), None, [])
    else
      var path := BlogFilePath(env, slug);
      var file := BlogFile(path, name, if imagePath == "" then None else Some(PageImageUrl(rules, imagePath)), content);
      if gh.blogCreate.Threw? then PublishRun(NotPublished(RequestThrew, Some(DetailsOf(env))), Some(file), [])
      else if !Succeeded(gh.blogCreate) then
        PublishRun(NotPublished(BlogFileRejected(gh.blogCreate.status), Some(DetailsOf(env))), Some(file), [])
      else
        var index := IndexStage(name, slug, today, gh);
        if index.success then
          var imageUrl := if imagePath == "" then None else Some(ReportedImageUrl(imagePath, slug));
          PublishRun(Published(BlogUrl(slug), imageUrl, path, Branch(env)), Some(file), index.sent)
        else PublishRun(NotPublished(IndexNotUpdated, Some(DetailsOf(env))), Some(file), index.sent)
  }

  /** Missing credentials fail first, without details and without any request. */
  lemma CredentialsChecked(rules: UrlRules, env: GitHubEnv, name: string, content: string, imagePath: string, slug: string,
                           today: string, gh: GitHub)
    requires Answers(gh)
    requires env.token == "" || env.repo == ""
    ensures Publish(rules, env, name, content, imagePath, slug, today, gh) == PublishRun(NotPublished(CredentialsMissing, None), None, [])
  {
  }

  /** A post whose file already exists is reported as skipped, with its URL, and nothing
      is written. */
  lemma ExistingBlogSkipped(rules: UrlRules, env: GitHubEnv, name: string, content: string, imagePath: string, slug: string,
                            today: string, gh: GitHub)
    requires Answers(gh)
    requires env.token != "" && env.repo != "" && RepoWellFormed(env.repo) && Succeeded(gh.blogCheck)
    ensures Publish(rules, env, name, content, imagePath, slug, today, gh)
            == PublishRun(Skipped(PublicSiteUrl + "/blogs/" + slug + ".html", slug, AlreadyExistsMessage), None, [])
  {
  }

  /** When the blog file was written, the index writes are exactly the loop's, the first
      one carrying the upserted index, and the post counts as published exactly when the
      loop succeeded; the page's featured image is the rules' rewrite of the image path. */
  lemma IndexWritesAfterBlogFile(rules: UrlRules, env: GitHubEnv, name: string, content: string, imagePath: string, slug: string,
                                 today: string, gh: GitHub)
    requires Answers(gh) && ReachesIndex(env, gh)
    ensures var run := Publish(rules, env, name, content, imagePath, slug, today, gh);
            var start := InitialIndex(gh.indexRead);
            run.indexWrites == IndexStage(name, slug, today, gh).sent
            && run.indexWrites[0] == PutOf(IndexState(Upsert(start.recipes, NewEntry(name, slug, today)), start.sha))
            && (run.result.Published? <==> IndexStage(name, slug, today, gh).success)
            && run.blogWrite == Some(BlogFile(BlogFilePath(env, slug), name,
                                              if imagePath == "" then None else Some(PageImageUrl(rules, imagePath)), content))
  {
  }

  /** An index that could not be read or decoded is replaced by one holding only the new
      entry, sent without a sha. */
  lemma UnreadableIndexStartsFresh(name: string, slug: string, today: string, gh: GitHub)
    requires Answers(gh)
    requires !(gh.indexRead.Fetched? && gh.indexRead.content.Parsed?)
    ensures IndexStage(name, slug, today, gh).sent[0] == IndexPut([NewEntry(name, slug, today)], None)
  {
    assert InitialIndex(gh.indexRead) == IndexState([], "");
  }

  /** A published post's index update ended in a successful PUT whose body holds the new
      entry exactly once when the index read held it at most once. */
  lemma {:induction false} PublishedIndexHoldsEntry(name: string, slug: string, today: string, gh: GitHub)
    requires Answers(gh)
    ensures var r := IndexStage(name, slug, today, gh);
            forall k :: 0 <= k < |r.sent| ==> NewEntry(name, slug, today) in r.sent[k].recipes
    ensures var r := IndexStage(name, slug, today, gh);
            r.success ==> Succeeded(gh.indexPuts[|r.sent| - 1])
    ensures var start := InitialIndex(gh.indexRead);
            Count(start.recipes, slug) <= 1 ==> Count(IndexStage(name, slug, today, gh).sent[0].recipes, slug) == 1
  {
    var start := InitialIndex(gh.indexRead);
    var entry := NewEntry(name, slug, today);
    var s := IndexState(Upsert(start.recipes, entry), start.sha);
    RetrySendsEntry(0, s, entry, gh.indexPuts, gh.rereads);
    RetryStopsAtFirstSuccess(0, s, entry, gh.indexPuts, gh.rereads);
    UpsertCount(start.recipes, entry);
  }

  // ---- the handler ----

  /** The request fields the handler reads: the method, whether there is a body at all,
      whether `dishData` is present, and its name ("" when absent). */
  datatype DishRequest = DishRequest(httpMethod: string, hasBody: bool, hasDishData: bool, name: string)

  /** The chat completion: its raw text, or a failure with its message. */
  datatype Generation = Generated(raw: string) | GenerationFailed(message: string)

  datatype Body =
    | NoBody
    | ErrorOnly(error: string)
    | ErrorWithMessage(error: string, message: string)
    | Created(blogUrl: string, slug: string, imageUrl: Option<string>, message: string)
    | Fallback(blogUrl: string, slug: string, imageUrl: Option<string>, blogContent: string, note: string,
               githubError: Failure, githubDetails: Option<Details>)

  datatype HttpReply = HttpReply(status: int, headers: map<string, string>, body: Body)

  const HandlerCors: map<string, string> :=
    map[Cors.AllowOrigin := "*", Cors.AllowMethods := "POST, OPTIONS", Cors.AllowHeaders := "Content-Type"]

  const MethodNotAllowedMessage: string := "Method not allowed"
  const NameRequiredMessage: string := "dishData with name is required"
  const GenerationError: string := "Failed to generate blog post"
  const MissingKeyMessage: string := "OPENAI_API_KEY is not set in environment variables"
  const UnknownError: string := "Unknown error"
  const CreatedMessage: string := "Blog post created successfully. It will be available on the website shortly."
  const FallbackNote: string := "Blog content included in response (GitHub upload failed)"

  /** The reply once the post is generated and the publisher has run: 200 in every case,
      with the post itself when publishing failed. */
  function Answer(rules: UrlRules, slug: string, content: string, imagePath: string, result: PublishResult): (reply: HttpReply)
    ensures reply.status == 200 && reply.headers == HandlerCors
    ensures reply.body.Fallback? <==> result.NotPublished?
  {
    match result
    case Published(url, imageUrl, _, _) => HttpReply(200, HandlerCors, Created(url, slug, imageUrl, CreatedMessage))
    case Skipped(url, _, _) => HttpReply(200, HandlerCors, Created(url, slug, None, CreatedMessage))
    case NotPublished(err, details) =>
      var imageUrl := if imagePath == "" then None else Some(FallbackUrl(rules, imagePath));
      HttpReply(200, HandlerCors, Fallback(BlogUrl(slug), slug, imageUrl, content, FallbackNote, err, details))
  }

  /** The exported handler under the given image-URL rules. `apiKeyConfigured` is whether
      OPENAI_API_KEY is set, and `imagePath` the generated image's URL ("" when image
      generation failed). */
  function HandleWith(rules: UrlRules, req: DishRequest, apiKeyConfigured: bool, generation: Generation, imagePath: string,
                  env: GitHubEnv, today: string, gh: GitHub): (reply: HttpReply)
    requires Answers(gh)
    ensures reply.headers == HandlerCors
  {
    if req.httpMethod == "OPTIONS" then HttpReply(200, HandlerCors, NoBody)
    else if req.httpMethod != "POST" then HttpReply(405, HandlerCors, ErrorOnly(MethodNotAllowedMessage))
    else if !req.hasBody then HttpReply(500, HandlerCors, ErrorWithMessage(GenerationError, DestructureError("dishData")))
    else if !req.hasDishData || req.name == "" then HttpReply(400, HandlerCors, ErrorOnly(NameRequiredMessage))
    else if !apiKeyConfigured then HttpReply(500, HandlerCors, ErrorWithMessage(GenerationError, MissingKeyMessage))
    else match generation
      case GenerationFailed(m) =>
        HttpReply(500, HandlerCors, ErrorWithMessage(GenerationError, if m == "" then UnknownError else m))
      case Generated(raw) =>
        var slug := BlogSlug.CreateSlug(req.name);
        var content := BlogFences.StripFences(raw);
        Answer(rules, slug, content, imagePath, Publish(rules, env, req.name, content, imagePath, slug, today, gh).result)
  }

  /** The handler as written. */
  function HandleAsWritten(req: DishRequest, apiKeyConfigured: bool, generation: Generation, imagePath: string,
                           env: GitHubEnv, today: string, gh: GitHub): (reply: HttpReply)
    requires Answers(gh)
    ensures reply.headers == HandlerCors
    ensures reply.status == 200 || reply.status == 400 || reply.status == 405 || reply.status == 500
  {
    HandleWith(AsWritten, req, apiKeyConfigured, generation, imagePath, env, today, gh)
  }

  /** The handler with absolute image URLs kept. */
  function Handle(req: DishRequest, apiKeyConfigured: bool, generation: Generation, imagePath: string,
                  env: GitHubEnv, today: string, gh: GitHub): (reply: HttpReply)
    requires Answers(gh)
    ensures reply.headers == HandlerCors
    ensures reply.status == 200 || reply.status == 400 || reply.status == 405 || reply.status == 500
  {
    HandleWith(Corrected, req, apiKeyConfigured, generation, imagePath, env, today, gh)
  }

  /** A preflight is an empty 200, any other method but POST a 405, a POST without a
      body the catch's 500 (destructuring it throws), and a POST without a dish name a
      400, whatever the generator and GitHub would answer. */
  lemma RequestChecks(rules: UrlRules, req: DishRequest, key: bool, g1: Generation, g2: Generation, imagePath: string,
                      env: GitHubEnv, today: string, gh1: GitHub, gh2: GitHub)
    requires Answers(gh1) && Answers(gh2)
    ensures req.httpMethod == "OPTIONS" ==>
              HandleWith(rules, req, key, g1, imagePath, env, today, gh1) == HttpReply(200, HandlerCors, NoBody)
    ensures req.httpMethod != "OPTIONS" && req.httpMethod != "POST" ==>
              HandleWith(rules, req, key, g1, imagePath, env, today, gh1).status == 405
    ensures req.httpMethod == "POST" && !req.hasBody ==>
              HandleWith(rules, req, key, g1, imagePath, env, today, gh1)
              == HttpReply(500, HandlerCors, ErrorWithMessage(GenerationError, DestructureError("dishData")))
    ensures req.httpMethod == "POST" && req.hasBody && (!req.hasDishData || req.name == "") ==>
              HandleWith(rules, req, key, g1, imagePath, env, today, gh1)
              == HttpReply(400, HandlerCors, ErrorOnly(NameRequiredMessage))
    ensures req.httpMethod != "POST" || !req.hasBody || !req.hasDishData || req.name == "" ==>
              HandleWith(rules, req, key, g1, imagePath, env, today, gh1)
              == HandleWith(rules, req, key, g2, imagePath, env, today, gh2)
  {
  }

  /** A generated post is always answered 200; when publishing fails the reply carries
      the post, the reason and the rules' fallback image URL. */
  lemma GeneratedPostAnswered(rules: UrlRules, req: DishRequest, raw: string, imagePath: string, env: GitHubEnv,
                              today: string, gh: GitHub)
    requires Answers(gh)
    requires req.httpMethod == "POST" && req.hasBody && req.hasDishData && req.name != ""
    ensures var slug := BlogSlug.CreateSlug(req.name);
            var content := BlogFences.StripFences(raw);
            var run := Publish(rules, env, req.name, content, imagePath, slug, today, gh);
            var reply := HandleWith(rules, req, true, Generated(raw), imagePath, env, today, gh);
            reply.status == 200
            && (run.result.NotPublished? ==>
                  reply.body == Fallback(PublicSiteUrl + "/blogs/" + slug + ".html", slug,
                                         if imagePath == "" then None else Some(FallbackUrl(rules, imagePath)),
                                         content, FallbackNote, run.result.error, run.result.details))
            && (run.result.Published? ==> reply.body == Created(run.result.blogUrl, slug, run.result.imageUrl, CreatedMessage))
            && (run.result.Skipped? ==> reply.body == Created(run.result.blogUrl, slug, None, CreatedMessage))
  {
  }

  /** As written, a post with the generator's absolute image URL is filed with the site
      address glued in front of that URL; the corrected publisher files the URL itself. */
  lemma {:induction false} AbsoluteImageFiledAsWritten(env: GitHubEnv, name: string, content: string, imagePath: string,
                                                       slug: string, today: string, gh: GitHub)
    requires Answers(gh)
    requires StartsWith(imagePath, "http")
    ensures var run := Publish(AsWritten, env, name, content, imagePath, slug, today, gh);
            run.blogWrite.Some? ==> run.blogWrite.value.imageUrl == Some(PublicSiteUrl + "/" + imagePath)
    ensures var run := Publish(Corrected, env, name, content, imagePath, slug, today, gh);
            run.blogWrite.Some? ==> run.blogWrite.value.imageUrl == Some(imagePath)
  {
    AbsoluteUrlMangledAsWritten(imagePath);
    ImageUrlCorrected(imagePath);
    assert imagePath != "" by { assert imagePath[0] == 'h'; }
  }

  /** As written, when publishing fails the reply reports the site address and the
      generator's absolute image URL run together; the corrected handler reports the URL. */
  lemma {:induction false} AbsoluteImageAnsweredAsWritten(rules: UrlRules, req: DishRequest, raw: string,
                                                          imagePath: string, env: GitHubEnv, today: string, gh: GitHub)
    requires Answers(gh)
    requires req.httpMethod == "POST" && req.hasBody && req.hasDishData && req.name != ""
    requires StartsWith(imagePath, "http")
    ensures var run := Publish(rules, env, req.name, BlogFences.StripFences(raw), imagePath,
                               BlogSlug.CreateSlug(req.name), today, gh);
            var reply := HandleWith(rules, req, true, Generated(raw), imagePath, env, today, gh);
            run.result.NotPublished? ==>
              reply.body.Fallback?
              && reply.body.imageUrl == Some(if rules.AsWritten? then PublicSiteUrl + imagePath else imagePath)
  {
    var slug := BlogSlug.CreateSlug(req.name);
    var content := BlogFences.StripFences(raw);
    var result := Publish(rules, env, req.name, content, imagePath, slug, today, gh).result;
    assert HandleWith(rules, req, true, Generated(raw), imagePath, env, today, gh)
           == Answer(rules, slug, content, imagePath, result);
    if result.NotPublished? {
      AbsoluteFallbackImage(rules, slug, content, imagePath, result);
    }
  }

  /** The fallback reply's image URL for an absolute generated image URL. */
  lemma AbsoluteFallbackImage(rules: UrlRules, slug: string, content: string, imagePath: string, result: PublishResult)
    requires result.NotPublished? && StartsWith(imagePath, "http")
    ensures Answer(rules, slug, content, imagePath, result).body.imageUrl
            == Some(if rules.AsWritten? then PublicSiteUrl + imagePath else imagePath)
  {
    assert imagePath != "" by { assert imagePath[0] == 'h'; }
    FallbackImageUrlCorrected(imagePath);
  }

  /** Generation failures are 500s carrying the failure's message, or "Unknown error". */
  lemma GenerationFailureIs500(rules: UrlRules, req: DishRequest, key: bool, m: string, imagePath: string,
                               env: GitHubEnv, today: string, gh: GitHub)
    requires Answers(gh)
    requires req.httpMethod == "POST" && req.hasBody && req.hasDishData && req.name != ""
    ensures key ==> HandleWith(rules, req, key, GenerationFailed(m), imagePath, env, today, gh)
                    == HttpReply(500, HandlerCors, ErrorWithMessage(GenerationError, if m == "" then UnknownError else m))
    ensures !key ==> HandleWith(rules, req, key, GenerationFailed(m), imagePath, env, today, gh)
                     == HttpReply(500, HandlerCors, ErrorWithMessage(GenerationError, MissingKeyMessage))
  {
  }

  /** A name with no ASCII letter or digit (a name in Hangul, say) passes the handler's
      check but gives the empty slug, so every such post shares one file and one index
      entry. */
  lemma NameWithoutAlnumGivesEmptySlug(name: string)
    requires name != []
    requires forall i :: 0 <= i < |Lower(name)| ==> !BlogSlug.IsSlugAlnum(Lower(name)[i])
    ensures BlogSlug.CreateSlug(name) == ""
  {
    NoAlnumCharsNoAlnums(Lower(name));
    BlogSlug.EmptySlugIffNoAlnum(name);
  }

  lemma {:induction false} NoAlnumCharsNoAlnums(s: string)
    requires forall i :: 0 <= i < |s| ==> !BlogSlug.IsSlugAlnum(s[i])
    ensures BlogSlug.Alnums(s) == ""
  {
    if s != [] {
      NoAlnumCharsNoAlnums(s[1..]);
    }
  }
}
