/**
 * The GitIngest side of the server: `fetch_gitingest`, which asks the
 * GitIngest package for a digest of one repository and answers its
 * content or the detailed summary of it, the batch endpoint
 * `POST /gitingest` and the single-repository endpoint
 * `GET /gitingest/{owner}/{repo}`.
 *
 * `gitingest.ingest` is not modelled: it is a parameter `ingest`, a
 * function from the repository URL and the token to what the call gives
 * (the three strings, or the message of the exception it raised).
 */
module Ingest {
  import opened Wrappers
  import opened PyStr
  import opened GitHub
  import opened Analysis
  import opened Report
  import opened Http

  const GitHubUrlPrefix: string := "https://github.com/"
  const FailurePrefix: string := "Failed to process with GitIngest: "
  const InvalidFormat: string := "Invalid repository format. Use 'owner/repo'"
  const NoRepositories: string := "At least one repository must be specified"

  /** What one call of `ingest(url, token=...)` gives. */
  datatype IngestOutcome =
    | Ingested(summary: string, tree: string, content: string)
    | IngestFailed(message: string)

  /** The `GitIngestResponse` record; `None` is Python's `None`. */
  datatype GitIngestResponse = GitIngestResponse(
    repository: string,
    success: bool,
    summary: Option<string>,
    tree: Option<string>,
    content: Option<string>,
    error: Option<string>)

  /** The `GitIngestBatchResponse` record. */
  datatype BatchResponse = BatchResponse(
    results: seq<GitIngestResponse>,
    totalRequested: nat,
    successful: nat,
    failed: nat)

  /** The success record of `fetch_gitingest`. */
  function Succeeded(repo: string, summary: string, tree: string, content: string): GitIngestResponse {
    GitIngestResponse(repo, true, Some(summary), Some(tree), Some(content), None)
  }

  /** A failure record: every field but the name and the error is `None`. */
  function Failed(repo: string, error: string): GitIngestResponse {
    GitIngestResponse(repo, false, None, None, None, Some(error))
  }

  /** `token or DEFAULT_GITHUB_TOKEN or None`: the first non-empty one, if any. */
  function UseToken(token: Option<string>, defaultToken: string): Option<string> {
    if Present(token) then token
    else if defaultToken != "" then Some(defaultToken)
    else None
  }

  /** The token handed to GitIngest is the one GitHub's `Authorization` header carries. */
  lemma UseTokenMatchesHeaders(token: Option<string>, defaultToken: string)
    ensures var t := UseToken(token, defaultToken);
            var h := GitHubHeaders(token, defaultToken);
            (t.Some? <==> "Authorization" in h)
            && (t.Some? ==> t.value != "" && h["Authorization"] == TokenPrefix + t.value)
  {
  }

  /** What `fetch_gitingest(repo, token, include_content)` answers. */
  ghost function GitIngest(repo: string, token: Option<string>, defaultToken: string, includeContent: bool,
                           ingest: (string, Option<string>) -> IngestOutcome): GitIngestResponse
  {
    match ingest(GitHubUrlPrefix + repo, UseToken(token, defaultToken))
    case IngestFailed(message) => Failed(repo, FailurePrefix + message)
    case Ingested(summary, tree, content) =>
      if includeContent then Succeeded(repo, summary, tree, content)
      else
        match DetailedSummary(content, tree, summary)
        case Err(e) => Failed(repo, FailurePrefix + ErrorText(e))
        case Ok(detailed) => Succeeded(repo, summary, tree, detailed)
  }

  /** `fetch_gitingest(repo_full_name, token, include_content)` */
  method FetchGitingest(repo: string, token: Option<string>, defaultToken: string, includeContent: bool,
                        ingest: (string, Option<string>) -> IngestOutcome) returns (r: GitIngestResponse)
    ensures r == GitIngest(repo, token, defaultToken, includeContent, ingest)
  {
    var url := GitHubUrlPrefix + repo;
    var useToken := UseToken(token, defaultToken);
    var outcome := ingest(url, useToken);
    if outcome.IngestFailed? {
      return Failed(repo, FailurePrefix + outcome.message);
    }
    var returnContent := outcome.content;
    if !includeContent {
      var detailed := GenerateDetailedSummary(outcome.content, outcome.tree, outcome.summary);
      if detailed.Err? {
        return Failed(repo, FailurePrefix + ErrorText(detailed.error));
      }
      returnContent := detailed.value;
    }
    r := Succeeded(repo, outcome.summary, outcome.tree, returnContent);
  }

  // ---------------------------------------------------------------------
  // Properties of one response
  // ---------------------------------------------------------------------

  /** A well-formed record: success exactly when there is no error, and then all three texts. */
  predicate WellFormed(r: GitIngestResponse) {
    && (r.success <==> r.error.None?)
    && (r.success ==> r.summary.Some? && r.tree.Some? && r.content.Some?)
    && (!r.success ==> r.summary.None? && r.tree.None? && r.content.None?)
  }

  /** Every answer of `fetch_gitingest` is well formed, names its repository, and fails with the GitIngest prefix. */
  lemma GitIngestShape(repo: string, token: Option<string>, defaultToken: string, includeContent: bool,
                       ingest: (string, Option<string>) -> IngestOutcome)
    ensures var r := GitIngest(repo, token, defaultToken, includeContent, ingest);
            WellFormed(r) && r.repository == repo
            && (!r.success ==> StartsWith(r.error.value, FailurePrefix))
  {
    var r := GitIngest(repo, token, defaultToken, includeContent, ingest);
    if !r.success {
      assert r.error.value[..|FailurePrefix|] == FailurePrefix;
    }
  }

  /** The call fails exactly when GitIngest fails, or the summary is asked for and its analysis raises. */
  lemma GitIngestFailsIff(repo: string, token: Option<string>, defaultToken: string, includeContent: bool,
                          ingest: (string, Option<string>) -> IngestOutcome)
    ensures var o := ingest(GitHubUrlPrefix + repo, UseToken(token, defaultToken));
            !GitIngest(repo, token, defaultToken, includeContent, ingest).success <==>
              o.IngestFailed? || (!includeContent && DetailedSummary(o.content, o.tree, o.summary).Err?)
  {
  }

  /** With `include_content` the digest's own content is returned; otherwise the detailed summary of it. */
  lemma GitIngestContent(repo: string, token: Option<string>, defaultToken: string, includeContent: bool,
                         ingest: (string, Option<string>) -> IngestOutcome)
    requires ingest(GitHubUrlPrefix + repo, UseToken(token, defaultToken)).Ingested?
    ensures var o := ingest(GitHubUrlPrefix + repo, UseToken(token, defaultToken));
            var r := GitIngest(repo, token, defaultToken, includeContent, ingest);
            r.success ==> (r.summary == Some(o.summary) && r.tree == Some(o.tree)
              && r.content == Some(if includeContent then o.content else DetailedSummary(o.content, o.tree, o.summary).value))
  {
  }

  /** The failure message of GitIngest is passed on after the prefix. */
  lemma IngestFailureMessage(repo: string, token: Option<string>, defaultToken: string, includeContent: bool,
                             ingest: (string, Option<string>) -> IngestOutcome)
    requires ingest(GitHubUrlPrefix + repo, UseToken(token, defaultToken)).IngestFailed?
    ensures GitIngest(repo, token, defaultToken, includeContent, ingest).error ==
            Some(FailurePrefix + ingest(GitHubUrlPrefix + repo, UseToken(token, defaultToken)).message)
  {
  }

  // ---------------------------------------------------------------------
  // The batch endpoint
  // ---------------------------------------------------------------------

  /** The record for one requested name: GitIngest is only asked about names with a `/`. */
  ghost function ResultFor(name: string, token: Option<string>, defaultToken: string, includeContent: bool,
                           ingest: (string, Option<string>) -> IngestOutcome): GitIngestResponse
  {
    if !Contains(name, "/") then Failed(name, InvalidFormat)
    else GitIngest(name, token, defaultToken, includeContent, ingest)
  }

  /** The records for the names, in order. */
  ghost function Results(names: seq<string>, token: Option<string>, defaultToken: string, includeContent: bool,
                         ingest: (string, Option<string>) -> IngestOutcome): (rs: seq<GitIngestResponse>)
    ensures |rs| == |names|
  {
    if names == [] then []
    else Results(names[..|names| - 1], token, defaultToken, includeContent, ingest)
         + [ResultFor(names[|names| - 1], token, defaultToken, includeContent, ingest)]
  }

  /** `sum(1 for r in results if r["success"])` */
  function SuccessCount(results: seq<GitIngestResponse>): (n: nat)
    ensures n <= |results|
  {
    if results == [] then 0
    else SuccessCount(results[..|results| - 1]) + (if results[|results| - 1].success then 1 else 0)
  }

  /** What `POST /gitingest` answers for the names and the `Authorization` header. */
  ghost function Batch(names: seq<string>, authorization: Option<string>, defaultToken: string, includeContent: bool,
                       ingest: (string, Option<string>) -> IngestOutcome): Result<BatchResponse, HttpError>
  {
    if names == [] then Err(HttpError(400, NoRepositories))
    else
      var results := Results(names, ExtractToken(authorization), defaultToken, includeContent, ingest);
      var successful := SuccessCount(results);
      Ok(BatchResponse(results, |names|, successful, |results| - successful))
  }

  lemma ResultsStep(names: seq<string>, j: nat, token: Option<string>, defaultToken: string, includeContent: bool,
                    ingest: (string, Option<string>) -> IngestOutcome)
    requires j < |names|
    ensures Results(names[..j + 1], token, defaultToken, includeContent, ingest)
         == Results(names[..j], token, defaultToken, includeContent, ingest)
            + [ResultFor(names[j], token, defaultToken, includeContent, ingest)]
  {
    assert names[..j + 1][..j] == names[..j];
  }

  /** `get_gitingest_extracts(request, include_content, authorization)` */
  method GetGitingestExtracts(names: seq<string>, authorization: Option<string>, defaultToken: string,
                              includeContent: bool, ingest: (string, Option<string>) -> IngestOutcome)
    returns (r: Result<BatchResponse, HttpError>)
    ensures r == Batch(names, authorization, defaultToken, includeContent, ingest)
  {
    if names == [] {
      return Err(HttpError(400, NoRepositories));
    }
    var token := ExtractToken(authorization);
    var results: seq<GitIngestResponse> := [];
    for j := 0 to |names|
      invariant results == Results(names[..j], token, defaultToken, includeContent, ingest)
    {
      ResultsStep(names, j, token, defaultToken, includeContent, ingest);
      var name := names[j];
      if !Contains(name, "/") {
        results := results + [Failed(name, InvalidFormat)];
        continue;
      }
      var result := FetchGitingest(name, token, defaultToken, includeContent, ingest);
      results := results + [result];
    }
    assert names[..|names|] == names;
    var successful := SuccessCount(results);
    r := Ok(BatchResponse(results, |names|, successful, |results| - successful));
  }

  // ---------------------------------------------------------------------
  // Properties of the batch
  // ---------------------------------------------------------------------

  lemma {:induction false} ResultsAt(names: seq<string>, token: Option<string>, defaultToken: string, includeContent: bool,
                                     ingest: (string, Option<string>) -> IngestOutcome)
    ensures var rs := Results(names, token, defaultToken, includeContent, ingest);
            |rs| == |names|
            && forall i :: 0 <= i < |names| ==> rs[i] == ResultFor(names[i], token, defaultToken, includeContent, ingest)
    decreases |names|
  {
    if names != [] {
      ResultsAt(names[..|names| - 1], token, defaultToken, includeContent, ingest);
    }
  }

  /** The indices of the successful records. */
  function SuccessIndices(results: seq<GitIngestResponse>): set<nat> {
    set i: nat | i < |results| && results[i].success
  }

  lemma {:induction false} SuccessCountIsCardinality(results: seq<GitIngestResponse>)
    ensures SuccessCount(results) == |SuccessIndices(results)|
    decreases |results|
  {
    if results != [] {
      var init := results[..|results| - 1];
      SuccessCountIsCardinality(init);
      var n := |results| - 1;
      if results[n].success {
        assert SuccessIndices(results) == SuccessIndices(init) + {n};
      } else {
        assert SuccessIndices(results) == SuccessIndices(init);
      }
    }
  }

  /** Only an empty request is refused, with status 400. */
  lemma BatchRefusedIff(names: seq<string>, authorization: Option<string>, defaultToken: string, includeContent: bool,
                        ingest: (string, Option<string>) -> IngestOutcome)
    ensures var r := Batch(names, authorization, defaultToken, includeContent, ingest);
            (r.Err? <==> names == []) && (r.Err? ==> r.error == HttpError(400, NoRepositories))
  {
  }

  /**
   * One record per requested name, in the order asked, each well formed;
   * `successful` counts the successful records, and `successful + failed`
   * is the number of names requested.
   */
  lemma BatchCounts(names: seq<string>, authorization: Option<string>, defaultToken: string, includeContent: bool,
                    ingest: (string, Option<string>) -> IngestOutcome)
    requires names != []
    ensures var b := Batch(names, authorization, defaultToken, includeContent, ingest).value;
            && |b.results| == b.totalRequested == |names|
            && b.successful + b.failed == b.totalRequested
            && b.successful == |SuccessIndices(b.results)|
            && (forall i :: 0 <= i < |names| ==> b.results[i].repository == names[i] && WellFormed(b.results[i]))
  {
    var token := ExtractToken(authorization);
    var rs := Results(names, token, defaultToken, includeContent, ingest);
    ResultsAt(names, token, defaultToken, includeContent, ingest);
    SuccessCountIsCardinality(rs);
    forall i | 0 <= i < |names|
      ensures rs[i].repository == names[i] && WellFormed(rs[i])
    {
      if Contains(names[i], "/") {
        GitIngestShape(names[i], token, defaultToken, includeContent, ingest);
      }
    }
  }

  /**
   * A name without `/` is answered with the format error, whatever GitIngest
   * would have said: it is never asked.
   */
  lemma InvalidNameNotIngested(names: seq<string>, authorization: Option<string>, defaultToken: string,
                               includeContent: bool, ingest: (string, Option<string>) -> IngestOutcome,
                               ingest': (string, Option<string>) -> IngestOutcome, i: nat)
    requires i < |names| && !Contains(names[i], "/")
    ensures var r := Batch(names, authorization, defaultToken, includeContent, ingest);
            var r' := Batch(names, authorization, defaultToken, includeContent, ingest');
            r.value.results[i] == r'.value.results[i] == Failed(names[i], InvalidFormat)
  {
    var token := ExtractToken(authorization);
    ResultsAt(names, token, defaultToken, includeContent, ingest);
    ResultsAt(names, token, defaultToken, includeContent, ingest');
  }

  /** A name with `/` gets exactly what `fetch_gitingest` answers for it with the header's token. */
  lemma ValidNameIngested(names: seq<string>, authorization: Option<string>, defaultToken: string,
                          includeContent: bool, ingest: (string, Option<string>) -> IngestOutcome, i: nat)
    requires i < |names| && Contains(names[i], "/")
    ensures Batch(names, authorization, defaultToken, includeContent, ingest).value.results[i]
         == GitIngest(names[i], ExtractToken(authorization), defaultToken, includeContent, ingest)
  {
    ResultsAt(names, ExtractToken(authorization), defaultToken, includeContent, ingest);
  }

  // ---------------------------------------------------------------------
  // The single-repository endpoint
  // ---------------------------------------------------------------------

  /** What `GET /gitingest/{owner}/{repo}` answers. */
  ghost function Single(owner: string, repo: string, authorization: Option<string>, defaultToken: string,
                        includeContent: bool, ingest: (string, Option<string>) -> IngestOutcome)
    : Result<GitIngestResponse, HttpError>
  {
    var r := GitIngest(owner + "/" + repo, ExtractToken(authorization), defaultToken, includeContent, ingest);
    if r.success then Ok(r) else Err(HttpError(500, r.error.value))
  }

  /** `get_single_gitingest(owner, repo, include_content, authorization)` */
  method GetSingleGitingest(owner: string, repo: string, authorization: Option<string>, defaultToken: string,
                            includeContent: bool, ingest: (string, Option<string>) -> IngestOutcome)
    returns (r: Result<GitIngestResponse, HttpError>)
    ensures r == Single(owner, repo, authorization, defaultToken, includeContent, ingest)
  {
    var token := ExtractToken(authorization);
    var fullName := owner + "/" + repo;
    var result := FetchGitingest(fullName, token, defaultToken, includeContent, ingest);
    GitIngestShape(fullName, token, defaultToken, includeContent, ingest);
    if !result.success {
      return Err(HttpError(500, result.error.value));
    }
    r := Ok(result);
  }

  /**
   * The single endpoint answers the batch's record for `owner/repo`, or
   * turns its failure into a 500 carrying the same error.
   */
  lemma SingleAgreesWithBatch(owner: string, repo: string, authorization: Option<string>, defaultToken: string,
                              includeContent: bool, ingest: (string, Option<string>) -> IngestOutcome)
    ensures var s := Single(owner, repo, authorization, defaultToken, includeContent, ingest);
            var b := Batch([owner + "/" + repo], authorization, defaultToken, includeContent, ingest).value;
            b.results[0].success ==> s == Ok(b.results[0])
    ensures var s := Single(owner, repo, authorization, defaultToken, includeContent, ingest);
            var b := Batch([owner + "/" + repo], authorization, defaultToken, includeContent, ingest).value;
            !b.results[0].success ==> b.results[0].error.Some? && s == Err(HttpError(500, b.results[0].error.value))
  {
    var name := owner + "/" + repo;
    assert name[|owner|..][..1] == "/";
    assert StartsWith(name[|owner|..], "/");
    ContainsAt(name, "/", |owner|);
    ResultsAt([name], ExtractToken(authorization), defaultToken, includeContent, ingest);
    GitIngestShape(name, ExtractToken(authorization), defaultToken, includeContent, ingest);
  }
}
