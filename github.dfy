/**
 * The GitHub side of the server: the request headers (`get_github_headers`),
 * the token taken from an `Authorization: token ...` header, the pagination
 * loop of `fetch_github_repos`, and the loop that turns GitHub's repository
 * objects into `Repository` records, dropping the ones that do not validate.
 *
 * The HTTP requests are not made: the loop reads its answers from a
 * sequence `pages`, whose element `k - 1` answers the request for page `k`;
 * a page past the end of the sequence answers an empty list, as GitHub does
 * once the user's repositories run out.
 */
module GitHub {
  import opened Seqs
  import opened Wrappers
  import opened PyStr
  import opened JsonValue

  // ---------------------------------------------------------------------
  // Headers and tokens
  // ---------------------------------------------------------------------

  const AcceptValue: string := "application/vnd.github.v3+json"
  const UserAgentValue: string := "GitIngest-API"
  const TokenPrefix: string := "token "

  /** Python's truthiness of an `Optional[str]`. */
  predicate Present(token: Option<string>) {
    token.Some? && token.value != ""
  }

  /**
   * `get_github_headers(token)`, where `defaultToken` is `DEFAULT_GITHUB_TOKEN`
   * (the `GITHUB_TOKEN` environment variable, `""` when unset).
   */
  function GitHubHeaders(token: Option<string>, defaultToken: string): (h: map<string, string>)
    ensures "Accept" in h && h["Accept"] == AcceptValue
    ensures "User-Agent" in h && h["User-Agent"] == UserAgentValue
    ensures h.Keys <= {"Accept", "User-Agent", "Authorization"}
    ensures Present(token) ==> "Authorization" in h && h["Authorization"] == TokenPrefix + token.value
    ensures !Present(token) && defaultToken != "" ==>
              "Authorization" in h && h["Authorization"] == TokenPrefix + defaultToken
    ensures "Authorization" !in h <==> !Present(token) && defaultToken == ""
  {
    var base := map["Accept" := AcceptValue, "User-Agent" := UserAgentValue];
    if Present(token) then base["Authorization" := TokenPrefix + token.value]
    else if defaultToken != "" then base["Authorization" := TokenPrefix + defaultToken]
    else base
  }

  /**
   * The token taken from an `Authorization` header:
   * `authorization.split("token ")[1]` when the header starts with `token `.
   * That is the text between the first and the second occurrence of `token `.
   */
  function ExtractToken(authorization: Option<string>): (t: Option<string>)
    ensures t.Some? <==> authorization.Some? && StartsWith(authorization.value, TokenPrefix)
  {
    if authorization.Some? && authorization.value != "" && StartsWith(authorization.value, TokenPrefix) then
      SplitStrAfterSeparator(TokenPrefix, authorization.value[|TokenPrefix|..]);
      assert authorization.value == TokenPrefix + authorization.value[|TokenPrefix|..];
      Some(SplitStr(authorization.value, TokenPrefix)[1])
    else None
  }

  /** A token with no `token ` inside it survives the round trip through the header. */
  lemma TokenRoundTrip(token: string, defaultToken: string)
    requires token != "" && !Contains(token, TokenPrefix)
    ensures ExtractToken(Some(GitHubHeaders(Some(token), defaultToken)["Authorization"])) == Some(token)
  {
    var header := TokenPrefix + token;
    SplitStrAfterSeparator(TokenPrefix, token);
    NoOccurrence(token, TokenPrefix);
    assert header[|TokenPrefix|..] == token;
  }

  /**
   * Only the text up to the next `token ` is kept: the token is the longest
   * prefix of the rest of the header in which no `token ` begins.
   */
  lemma TokenStopsAtNextPrefix(rest: string)
    ensures var t := ExtractToken(Some(TokenPrefix + rest));
      t.Some? && FirstPiece(rest, TokenPrefix, t.value)
  {
    var a := TokenPrefix + rest;
    assert a[..|TokenPrefix|] == TokenPrefix;
    assert a[|TokenPrefix|..] == rest;
    SplitStrAfterSeparator(TokenPrefix, rest);
    SplitStrFirst(rest, TokenPrefix);
  }

  /** A header of exactly `token ` gives the empty token, which then counts as no token. */
  lemma EmptyTokenFallsBack(defaultToken: string)
    ensures ExtractToken(Some(TokenPrefix)) == Some("")
    ensures GitHubHeaders(ExtractToken(Some(TokenPrefix)), defaultToken) == GitHubHeaders(None, defaultToken)
  {
    SplitStrAfterSeparator(TokenPrefix, "");
    assert TokenPrefix + "" == TokenPrefix;
    assert TokenPrefix[|TokenPrefix|..] == "";
  }

  // ---------------------------------------------------------------------
  // Pagination
  // ---------------------------------------------------------------------

  /** A GitHub repository object as decoded from the response. */
  type RawRepo = map<string, Json>

  /**
   * What one `requests.get` for a page gives: a response whose body decodes
   * to a list, a response whose body `response.json()` cannot decode, or a
   * `RequestException` before any response.
   */
  datatype PageAnswer =
    | Response(status: int, body: seq<RawRepo>)
    | Undecodable(status: int)
    | TransportError

  /** The outcome of `fetch_github_repos`: the repositories, or the `HTTPException` status. */
  datatype FetchResult = Fetched(repos: seq<RawRepo>) | FetchFailed(status: int)

  /** `response.raise_for_status()` raises for client and server errors. */
  predicate IsErrorStatus(status: int) {
    400 <= status < 600
  }

  /** The answer to the request for page `page` (1-based). */
  function Answer(pages: seq<PageAnswer>, page: nat): PageAnswer
    requires page >= 1
  {
    if page <= |pages| then pages[page - 1] else Response(200, [])
  }

  /**
   * The pagination from page `page` on; `last` is the status of the previous
   * response, which the error handler reports when a later request fails
   * before it gets a response. With no previous response the handler itself
   * fails and the server answers 500.
   */
  function Paginate(pages: seq<PageAnswer>, perPage: int, page: nat, last: Option<int>): FetchResult
    requires page >= 1
    decreases |pages| + 1 - page
  {
    match Answer(pages, page)
    case TransportError => FetchFailed(if last.Some? then last.value else 500)
    case Undecodable(status) => FetchFailed(status)
    case Response(status, body) =>
      if IsErrorStatus(status) then FetchFailed(status)
      else if body == [] then Fetched([])
      else if |body| < perPage then Fetched(body)
      else
        assert page <= |pages|;
        match Paginate(pages, perPage, page + 1, Some(status))
        case Fetched(rest) => Fetched(body + rest)
        case FetchFailed(s) => FetchFailed(s)
  }

  /** Prefix `acc` to what the rest of the loop fetches. */
  function After(acc: seq<RawRepo>, r: FetchResult): FetchResult {
    match r
    case Fetched(rest) => Fetched(acc + rest)
    case FetchFailed(s) => FetchFailed(s)
  }

  /** The `while True` loop of `fetch_github_repos`. */
  method FetchGitHubRepos(pages: seq<PageAnswer>, perPage: int) returns (r: FetchResult)
    ensures r == Paginate(pages, perPage, 1, None)
  {
    var allRepos: seq<RawRepo> := [];
    var page: nat := 1;
    var last: Option<int> := None;
    while true
      invariant 1 <= page <= |pages| + 1
      invariant After(allRepos, Paginate(pages, perPage, page, last)) == Paginate(pages, perPage, 1, None)
      decreases |pages| + 1 - page
    {
      var response := Answer(pages, page);
      if response.TransportError? {
        return FetchFailed(if last.Some? then last.value else 500);
      }
      if IsErrorStatus(response.status) {
        return FetchFailed(response.status);
      }
      if response.Undecodable? {
        return FetchFailed(response.status);
      }
      var repos := response.body;
      if repos == [] {
        assert allRepos + [] == allRepos;
        return Fetched(allRepos);
      }
      allRepos := allRepos + repos;
      if |repos| < perPage {
        return Fetched(allRepos);
      }
      page := page + 1;
      last := Some(response.status);
    }
  }

  /** A page after which the loop asks for the next one. */
  predicate FullPage(a: PageAnswer, perPage: int) {
    a.Response? && !IsErrorStatus(a.status) && a.body != [] && |a.body| >= perPage
  }

  /** A page that ends the loop: an empty or a short list. */
  predicate LastPage(a: PageAnswer, perPage: int) {
    a.Response? && !IsErrorStatus(a.status) && (a.body == [] || |a.body| < perPage)
  }

  function Bodies(pages: seq<PageAnswer>): seq<RawRepo>
    requires forall k :: 0 <= k < |pages| ==> pages[k].Response?
  {
    if pages == [] then [] else Bodies(pages[..|pages| - 1]) + pages[|pages| - 1].body
  }

  lemma {:induction false} PaginateFull(pages: seq<PageAnswer>, perPage: int, page: nat, last: Option<int>, n: nat)
    requires 1 <= page <= n + 1 && n <= |pages|
    requires forall k :: 0 <= k < n ==> FullPage(pages[k], perPage)
    requires n < |pages| ==> LastPage(pages[n], perPage)
    ensures forall k :: 0 <= k < n ==> pages[k].Response?
    ensures Paginate(pages, perPage, page, last)
         == After(Bodies(pages[page - 1..n]), Fetched(if n < |pages| then pages[n].body else []))
    decreases n + 1 - page
  {
    var a := pages[page - 1..n];
    if page == n + 1 {
      assert a == [];
      PaginateLast(pages, perPage, last, n);
    } else {
      var p := pages[page - 1];
      PaginateFull(pages, perPage, page + 1, Some(p.status), n);
      assert pages[page..n] == a[1..];
      BodiesCons(a);
      PaginateFullPage(pages, perPage, page, last);
      AfterAfter(p.body, Bodies(a[1..]), Fetched(if n < |pages| then pages[n].body else []));
    }
  }

  /** The page that ends the loop, or the empty answer past the last page, contributes its list and nothing after. */
  lemma PaginateLast(pages: seq<PageAnswer>, perPage: int, last: Option<int>, n: nat)
    requires n <= |pages| && (n < |pages| ==> LastPage(pages[n], perPage))
    ensures Paginate(pages, perPage, n + 1, last) == Fetched(if n < |pages| then pages[n].body else [])
  {
    if n < |pages| {
      assert Answer(pages, n + 1) == pages[n];
    }
  }

  /** A full page contributes its list, followed by what the next request fetches. */
  lemma PaginateFullPage(pages: seq<PageAnswer>, perPage: int, page: nat, last: Option<int>)
    requires 1 <= page <= |pages| && FullPage(pages[page - 1], perPage)
    ensures Paginate(pages, perPage, page, last)
         == After(pages[page - 1].body, Paginate(pages, perPage, page + 1, Some(pages[page - 1].status)))
  {
    assert Answer(pages, page) == pages[page - 1];
  }

  lemma AfterAfter(x: seq<RawRepo>, y: seq<RawRepo>, r: FetchResult)
    ensures After(x, After(y, r)) == After(x + y, r)
  {
    if r.Fetched? {
      assert x + (y + r.repos) == (x + y) + r.repos;
    }
  }

  lemma {:induction false} BodiesCons(a: seq<PageAnswer>)
    requires |a| > 0 && forall k :: 0 <= k < |a| ==> a[k].Response?
    ensures Bodies(a) == a[0].body + Bodies(a[1..])
    decreases |a|
  {
    if |a| > 1 {
      var init := a[..|a| - 1];
      BodiesCons(init);
      assert init[1..] == a[1..][..|a[1..]| - 1];
    } else {
      assert a[1..] == [];
      assert a[..0] == [];
    }
  }

  /**
   * Without errors, the repositories are the pages concatenated in order, from
   * the first page up to the first empty page (left out) or short page (kept).
   */
  lemma PaginationCollects(pages: seq<PageAnswer>, perPage: int, n: nat)
    requires n <= |pages|
    requires forall k :: 0 <= k < n ==> FullPage(pages[k], perPage)
    requires n < |pages| ==> LastPage(pages[n], perPage)
    ensures forall k :: 0 <= k < n ==> pages[k].Response?
    ensures Paginate(pages, perPage, 1, None)
         == Fetched(Bodies(pages[..n]) + (if n < |pages| then pages[n].body else []))
  {
    PaginateFull(pages, perPage, 1, None, n);
    assert pages[0..n] == pages[..n];
  }

  /**
   * A request that fails without a response after `n` full pages is reported
   * with the status of the previous response (a success status, not an error
   * one), or with 500 on the first page.
   */
  lemma TransportErrorStatus(pages: seq<PageAnswer>, perPage: int, n: nat)
    requires n < |pages| && pages[n].TransportError?
    requires forall k :: 0 <= k < n ==> FullPage(pages[k], perPage)
    requires n > 0 ==> pages[n - 1].Response?
    ensures Paginate(pages, perPage, 1, None) == FetchFailed(if n == 0 then 500 else pages[n - 1].status)
    ensures n > 0 ==> !IsErrorStatus(pages[n - 1].status)
  {
    TransportFrom(pages, perPage, 1, None, n);
  }

  lemma {:induction false} TransportFrom(pages: seq<PageAnswer>, perPage: int, page: nat, last: Option<int>, n: nat)
    requires 1 <= page <= n + 1 && n < |pages| && pages[n].TransportError?
    requires forall k :: 0 <= k < n ==> FullPage(pages[k], perPage)
    requires n > 0 ==> pages[n - 1].Response?
    requires page > 1 ==> pages[page - 2].Response? && last == Some(pages[page - 2].status)
    requires page == 1 ==> last == None
    ensures Paginate(pages, perPage, page, last) == FetchFailed(if n == 0 then 500 else pages[n - 1].status)
    decreases n + 1 - page
  {
    if page <= n {
      TransportFrom(pages, perPage, page + 1, Some(pages[page - 1].status), n);
    }
  }

  /**
   * A page that fails once its response has arrived: `raise_for_status`
   * raises for an error status, and `response.json()` raises for a body it
   * cannot decode. Either way `response` is already the current page's.
   */
  predicate FailsWithOwnStatus(a: PageAnswer) {
    (a.Response? && IsErrorStatus(a.status)) || a.Undecodable?
  }

  /** An error status on a page fails the whole fetch with that status; earlier pages are discarded. */
  lemma ErrorStatusFails(pages: seq<PageAnswer>, perPage: int, n: nat)
    requires n < |pages| && pages[n].Response? && IsErrorStatus(pages[n].status)
    requires forall k :: 0 <= k < n ==> FullPage(pages[k], perPage)
    ensures Paginate(pages, perPage, 1, None) == FetchFailed(pages[n].status)
  {
    ErrorFrom(pages, perPage, 1, None, n);
  }

  /**
   * A body that does not decode fails the whole fetch with the status of that
   * same response, even a success status such as 200, and on the first page too.
   */
  lemma UndecodableFails(pages: seq<PageAnswer>, perPage: int, n: nat)
    requires n < |pages| && pages[n].Undecodable?
    requires forall k :: 0 <= k < n ==> FullPage(pages[k], perPage)
    ensures Paginate(pages, perPage, 1, None) == FetchFailed(pages[n].status)
  {
    ErrorFrom(pages, perPage, 1, None, n);
  }

  lemma {:induction false} ErrorFrom(pages: seq<PageAnswer>, perPage: int, page: nat, last: Option<int>, n: nat)
    requires 1 <= page <= n + 1 && n < |pages| && FailsWithOwnStatus(pages[n])
    requires forall k :: 0 <= k < n ==> FullPage(pages[k], perPage)
    ensures Paginate(pages, perPage, page, last) == FetchFailed(pages[n].status)
    decreases n + 1 - page
  {
    if page <= n {
      ErrorFrom(pages, perPage, page + 1, Some(pages[page - 1].status), n);
    }
  }

  // ---------------------------------------------------------------------
  // Repository records
  // ---------------------------------------------------------------------

  /** The `Repository` model. */
  datatype Repository = Repository(
    name: string,
    fullName: string,
    description: Option<string>,
    htmlUrl: string,
    private: bool,
    fork: bool,
    stars: int,
    language: Option<string>,
    updatedAt: string)

  /** Validation of a field declared `str`. */
  function AsStr(v: Json): Option<string> {
    if v.JStr? then Some(v.s) else None
  }

  /** Validation of a field declared `Optional[str]`: `Some(None)` for `null`. */
  function AsOptStr(v: Json): Option<Option<string>> {
    if v.JNull? then Some(None) else if v.JStr? then Some(Some(v.s)) else None
  }

  function AsBool(v: Json): Option<bool> {
    if v.JBool? then Some(v.b) else None
  }

  function AsInt(v: Json): Option<int> {
    if v.JInt? then Some(v.i) else None
  }

  /** The two versions of the record mapping. */
  datatype Schema =
    | Backend  // backend/main.py: fields read with `repo.get(...)` and defaults
    | Legacy   // main.py: `Repository(**repo)` on GitHub's object as it is

  /** A field of a raw repository: `None` when the key is missing. */
  function Field(repo: RawRepo, key: string): Option<Json> {
    if key in repo then Some(repo[key]) else None
  }

  /**
   * The record `Repository(...)` builds from a raw object, or `None` when the
   * model's validation raises. For `Backend` the keys are read with
   * `repo.get(key)` (a missing key is `None`) and with the defaults `False`,
   * `False` and `0` for `private`, `fork` and `stargazers_count`. For `Legacy`
   * every field is required, `description` and `language` may be `null`, and
   * `stars` is read under its alias `stargazers_count` or, since the model
   * sets `populate_by_name`, under its own name `stars`.
   */
  function Validate(schema: Schema, repo: RawRepo): Option<Repository> {
    var name := Required(schema, repo, "name");
    var fullName := Required(schema, repo, "full_name");
    var description := Required(schema, repo, "description");
    var htmlUrl := Required(schema, repo, "html_url");
    var private := WithDefault(schema, repo, "private", JBool(false));
    var fork := WithDefault(schema, repo, "fork", JBool(false));
    var stars := Stars(schema, repo);
    var language := Required(schema, repo, "language");
    var updatedAt := Required(schema, repo, "updated_at");
    if name.None? || fullName.None? || description.None? || htmlUrl.None? || private.None?
       || fork.None? || stars.None? || language.None? || updatedAt.None? then None
    else
      var n, fn, d, h := AsStr(name.value), AsStr(fullName.value), AsOptStr(description.value), AsStr(htmlUrl.value);
      var p, f, st := AsBool(private.value), AsBool(fork.value), AsInt(stars.value);
      var l, u := AsOptStr(language.value), AsStr(updatedAt.value);
      if n.None? || fn.None? || d.None? || h.None? || p.None? || f.None? || st.None? || l.None? || u.None? then None
      else Some(Repository(n.value, fn.value, d.value, h.value, p.value, f.value, st.value, l.value, u.value))
  }

  /** A field without a default: `repo.get(key)` for `Backend`, the key itself for `Legacy`. */
  function Required(schema: Schema, repo: RawRepo, key: string): Option<Json> {
    if schema.Backend? then Some(Get(repo, key, JNull)) else Field(repo, key)
  }

  /** A field read with `repo.get(key, default)` for `Backend`; required for `Legacy`. */
  function WithDefault(schema: Schema, repo: RawRepo, key: string, default: Json): Option<Json> {
    if schema.Backend? then Some(Get(repo, key, default)) else Field(repo, key)
  }

  /**
   * The star count: `repo.get("stargazers_count", 0)` for `Backend`; for
   * `Legacy` the alias `stargazers_count` when present, else the field name `stars`.
   */
  function Stars(schema: Schema, repo: RawRepo): Option<Json> {
    if schema.Backend? then Some(Get(repo, "stargazers_count", JInt(0)))
    else if "stargazers_count" in repo then Some(repo["stargazers_count"])
    else Field(repo, "stars")
  }

  /** The legacy record accepts the star count under the alias or under the field name alike. */
  lemma LegacyStarsEitherKey(repo: RawRepo, v: Json)
    requires "stargazers_count" !in repo
    ensures Validate(Legacy, repo["stars" := v]) == Validate(Legacy, repo["stargazers_count" := v])
  {
    var a, b := repo["stars" := v], repo["stargazers_count" := v];
    assert Stars(Legacy, a) == Some(v) == Stars(Legacy, b);
    forall key | key != "stars" && key != "stargazers_count"
      ensures Field(a, key) == Field(b, key)
    {
    }
  }

  /** The records of the repositories that validate, in order. */
  function Transformed(schema: Schema, repos: seq<RawRepo>): seq<Repository> {
    Collect(raw => Validate(schema, raw), repos)
  }

  /** The `for repo in repos` loop that appends each record and skips a repository whose validation raises. */
  method TransformRepos(schema: Schema, repos: seq<RawRepo>) returns (transformed: seq<Repository>)
    ensures transformed == Transformed(schema, repos)
  {
    transformed := [];
    for i := 0 to |repos|
      invariant transformed == Transformed(schema, repos[..i])
    {
      assert repos[..i + 1][..i] == repos[..i];
      var repo := Validate(schema, repos[i]);
      if repo.Some? {
        transformed := transformed + [repo.value];
      }
    }
    assert repos[..|repos|] == repos;
  }

  /** The transformation works repository by repository: it distributes over concatenation. */
  lemma TransformedAppend(schema: Schema, a: seq<RawRepo>, b: seq<RawRepo>)
    ensures Transformed(schema, a + b) == Transformed(schema, a) + Transformed(schema, b)
  {
    CollectAppend(raw => Validate(schema, raw), a, b);
  }

  /** Nothing is invented: the result is never longer, and holds exactly the records of the valid repositories. */
  lemma TransformedMembers(schema: Schema, repos: seq<RawRepo>, r: Repository)
    ensures |Transformed(schema, repos)| <= |repos|
    ensures r in Transformed(schema, repos) <==> exists i :: 0 <= i < |repos| && Validate(schema, repos[i]) == Some(r)
  {
    CollectMembers(raw => Validate(schema, raw), repos, r);
  }

  /**
   * The backend fills in the defaults: an object with string `name`, `full_name`,
   * `html_url` and `updated_at` and nothing else validates, with no description,
   * not private, not a fork, no stars and no language. The legacy mapping rejects it.
   */
  lemma BackendDefaults(name: string, fullName: string, htmlUrl: string, updatedAt: string)
    ensures var repo := map["name" := JStr(name), "full_name" := JStr(fullName),
                            "html_url" := JStr(htmlUrl), "updated_at" := JStr(updatedAt)];
      && Validate(Backend, repo) == Some(Repository(name, fullName, None, htmlUrl, false, false, 0, None, updatedAt))
      && Validate(Legacy, repo) == None
  {
  }
  // ---------------------------------------------------------------------
  // The repositories endpoint
  // ---------------------------------------------------------------------

  /** What `GET /repos/{username}` answers: the valid records, or the status of the failed fetch. */
  function UserRepositories(schema: Schema, pages: seq<PageAnswer>, perPage: int): Result<seq<Repository>, int> {
    match Paginate(pages, perPage, 1, None)
    case FetchFailed(status) => Err(status)
    case Fetched(repos) => Ok(Transformed(schema, repos))
  }

  /** `get_user_repositories(username, repo_type, sort, per_page, authorization)` after the token is taken. */
  method GetUserRepositories(schema: Schema, pages: seq<PageAnswer>, perPage: int) returns (r: Result<seq<Repository>, int>)
    ensures r == UserRepositories(schema, pages, perPage)
  {
    var fetched := FetchGitHubRepos(pages, perPage);
    if fetched.FetchFailed? {
      return Err(fetched.status);
    }
    var transformed := TransformRepos(schema, fetched.repos);
    r := Ok(transformed);
  }

  /** Without errors, the answer is the valid records of each page in turn, up to the last page. */
  lemma UserRepositoriesByPage(schema: Schema, pages: seq<PageAnswer>, perPage: int, n: nat)
    requires n <= |pages|
    requires forall k :: 0 <= k < n ==> FullPage(pages[k], perPage)
    requires n < |pages| ==> LastPage(pages[n], perPage)
    ensures forall k :: 0 <= k < n ==> pages[k].Response?
    ensures UserRepositories(schema, pages, perPage)
         == Ok(Transformed(schema, Bodies(pages[..n])) + Transformed(schema, if n < |pages| then pages[n].body else []))
  {
    PaginationCollects(pages, perPage, n);
    TransformedAppend(schema, Bodies(pages[..n]), if n < |pages| then pages[n].body else []);
  }
}
