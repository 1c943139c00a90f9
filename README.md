# GitIngest API server — a Dafny model

The server is a small FastAPI application. It lists a GitHub user's
repositories, turns repositories into GitIngest digests, and fetches
LinkedIn profiles and posts through Agent.ai scraping agents. There are two
copies of it: `backend/main.py` (the current one) and `main.py` (an older
one). This project models the decision logic of both, and proves it.

- **The detailed summary.** `generate_detailed_summary` turns a GitIngest
  digest into a text report. The model follows every step:
  - it splits the digest into file sections at the `FILE:` headers;
  - it sorts each file into a category by its suffix;
  - it collects the import names from the first 50 lines of each Python file;
  - it builds the report line by line.
  The report lists the categories, the technologies, the tree and the key
  insights, then the Markdown files with README.md first. Python's own
  string operations are written out in Dafny (module `PyStr`):
  `split('\n')`, `split(sep)`, `replace`, `strip()` and `split()`. So are
  `f"{n}"` and `f"{n:,}"` (module `Format`), and the string order behind
  `sorted()` (module `StrOrder`). The code is imperative: `ParseDigest`,
  `AnalyzeFiles` (with `AnalyzeFile` for one pass of its body) and
  `GenerateDetailedSummary` are methods with loops, each proved equal to a
  specification function.
- **GitHub.**
  - The request headers, and the token taken from an
    `Authorization: token …` header.
  - The pagination loop of `fetch_github_repos`, over a sequence of page
    answers.
  - The loop that validates GitHub's objects into `Repository` records. It
    exists in two versions: `backend/main.py`'s `repo.get(...)` mapping with
    defaults, and `main.py`'s `Repository(**repo)`.
- **GitIngest.**
  - `fetch_gitingest`, with `gitingest.ingest` as a function parameter.
  - The batch endpoint: a 400 error for an empty request; one record per
    name, in order; a name without `/` never sent to GitIngest; the success
    and failure counts.
  - The single-repository endpoint, whose failure is a 500 error.
- **LinkedIn.**
  - The start request and the status-polling loop of `fetch_linkedin_profile`
    and `fetch_linkedin_posts`. The poll interval starts at 2 s, grows by
    0.5 s after each 204 and stops at 5 s. The model counts it in
    half-seconds.
  - The endpoints' choice between 408 and 500.

The generate_detailed_summary, headers, token, pagination, gitingest and
batch code is the same, line for line, in the two copies. The model follows
`backend/main.py` and cites it. The two copies differ only in how raw
repositories become records, and `GitHub.Schema` tells the two apart.

## Model

| member | source | states |
|---|---|---|
| Digest.ParseDigest | backend/main.py:181-209 | the file sections the loop collects are `Sections(lines)`, the reference definition of the `FILE:` digest format |
| Digest.NextHeader | backend/main.py:188-201 | the index it returns is the first header line: none before it, and it is a header when in range |
| Digest.NonSeparators | backend/main.py:189-190 | the kept lines are no more than the input and none is a `====` separator line |
| Digest.SeparatorsNeverCount | backend/main.py:189-190 | inserting a separator line anywhere does not change the file sections |
| Digest.PendingIgnoresSeparator | backend/main.py:189-190 | a separator line in the middle of a pending section is skipped wherever it stands |
| Digest.PreambleDiscarded | backend/main.py:185-201 | lines before the first `FILE:` header belong to no file and are dropped |
| Digest.EmptyHeaderYieldsNothing | backend/main.py:192-199 | a header whose path strips to empty opens no section: its lines are lost (`if current_file` is false) |
| Digest.NamedHeaderSection | backend/main.py:191-209 | a named header yields one file whose content is its non-separator lines up to the next header, joined by newlines, with that line count |
| Digest.SectionCount | backend/main.py:274 | `Total Files` equals the number of headers whose path is not empty |
| Digest.TotalLinesCount | backend/main.py:275 | total lines are at most the body lines, and equal them when the digest starts with a header and no header path is empty |
| Digest.HeaderPathOf | backend/main.py:196-198 | the path of every header line `FILE: x` is `x` with every `FILE: ` removed (the concatenation of `x.split('FILE: ')`), then stripped; only stripped when `x` holds no `FILE: ` |
| Digest.HeaderPathRemovesEveryOccurrence | backend/main.py:198 | an example: `FILE: a/FILE: b` gives the path `a/b`, so an occurrence inside the path is removed too |
| Analysis.AnalyzeFiles | backend/main.py:226-255 | the categories, import names and Markdown files the loop builds are `Analyze(files)`; an import line with no second word raises `IndexError` |
| Analysis.AnalyzeFile | backend/main.py:227-255 | one pass of the loop body takes the state after the files so far to the state after one more file, filing it by the first matching suffix branch, or fails exactly when that file's import scan raises |
| Analysis.CategoriesAt | backend/main.py:212-255 | `file_categories` has every one of the seven keys, each holding the paths of its category |
| Analysis.ScanImports | backend/main.py:247-249 | the import scan adds exactly `ImportsIn(lines)` to the set, or fails with `IndexError` when that does |
| Analysis.CategoryPaths | backend/main.py:230-255 | a category never lists more paths than there are files |
| Analysis.CategoriesPartition | backend/main.py:231-255 | the six main categories together list every file exactly once |
| Analysis.DockerWithinConfiguration | backend/main.py:240-243 | Docker lists exactly the Configuration paths that contain `Dockerfile`, in order |
| Analysis.CategoryPathsMembers | backend/main.py:230-255 | a path is listed in a category iff some file has that path and belongs to that category |
| Analysis.MarkdownIsDocumentation | backend/main.py:231-234 | a `.md` path is Documentation |
| Analysis.DockerfileIsConfiguration | backend/main.py:240-243 | a path ending in `Dockerfile` is Configuration and is also listed under Docker |
| Analysis.MarkdownPresentIff | backend/main.py:234-239 | the Markdown list is non-empty iff some file path ends in `.md` |
| Analysis.ImportName | backend/main.py:249 | `line.split()[1].split('.')[0]` fails iff the line has fewer than two words; otherwise the name has no dot or space and starts the second word |
| Analysis.ScannedLines | backend/main.py:247 | at most 50 lines of a file are scanned |
| Analysis.ScannedLinesOfSection | backend/main.py:247 | for a parsed non-empty section, the scanned lines are its first 50 body lines |
| Analysis.ImportLineFails | backend/main.py:248-249 | an `import `/`from ` line raises iff everything after the keyword is whitespace |
| Analysis.ImportNameOfModule | backend/main.py:249 | `import a.b.c` and `from a.b import c` yield the top-level name `a` |
| Analysis.ImportsErrIff | backend/main.py:247-249 | scanning fails iff some scanned line is an import line with no second word |
| Analysis.ImportsValue | backend/main.py:247-249 | a name is collected iff some scanned import line yields it |
| Analysis.TechnologiesErrIff | backend/main.py:244-249 | technology detection fails iff some Python file has a failing import line |
| Analysis.TechnologiesValue | backend/main.py:244-249 | the technologies are exactly the names the Python files' import lines yield |
| MarkdownOrder.SortMarkdown | backend/main.py:322-325 | the sorted Markdown files are a permutation of the input |
| MarkdownOrder.Insert | backend/main.py:322-325 | one insertion step adds exactly the inserted file |
| MarkdownOrder.SortMarkdownSorted | backend/main.py:322-325 | the result is ordered by the key `(0 if path == 'README.md' else 1, path)` |
| MarkdownOrder.SortMarkdownStable | backend/main.py:322-325 | files with the same path keep their input order, as `sorted` is stable |
| MarkdownOrder.InsertSorted | backend/main.py:322-325 | inserting into a sorted sequence keeps it sorted |
| MarkdownOrder.InsertWithPath | backend/main.py:322-325 | inserting keeps the relative order of files with the same path |
| MarkdownOrder.ReadmeFirst | backend/main.py:321-325 | when some Markdown file is exactly `README.md`, the block starts with it |
| MarkdownOrder.ReadmeFirstOfSorted | backend/main.py:321-325 | in a key-ordered sequence, a `README.md` anywhere means one at the front |
| MarkdownOrder.AscendingAfterReadme | backend/main.py:321-325 | after the README files, paths come in ascending order |
| MarkdownOrder.BeforeTransitive | backend/main.py:322-325 | the sort key order is transitive |
| MarkdownOrder.BeforeIrreflexive | backend/main.py:322-325 | the sort key order is irreflexive |
| MarkdownOrder.BeforeTotal | backend/main.py:322-325 | any two paths are equal or ordered by the key |
| Report.GenerateDetailedSummary | backend/main.py:175-339 | the method's result is `DetailedSummary`: the report lines joined by newlines, or `IndexError` exactly when the analysis raises |
| Report.AppendListing | backend/main.py:281-287 | the listing appends each category's block in the dictionary's order |
| Report.AppendCategory | backend/main.py:282-287 | one category appends its heading, its first ten bullets and the overflow line |
| Report.AppendBullets | backend/main.py:284-285 | every path appends one bullet line |
| Report.AppendTechnologies | backend/main.py:293-294 | the technology lines are bullets of the first 20 names in sorted order |
| Report.AppendEntries | backend/main.py:327-333 | each Markdown file appends its six lines in sorted order |
| Report.AppendMarkdown | backend/main.py:313-337 | the documentation block appears only when there are Markdown files, with header, entries and footer |
| Report.Take | backend/main.py:284 | `xs[:n]` has length `min(|xs|, n)` and is a prefix of `xs` |
| Report.Bullets | backend/main.py:284-285 | one `  • ` line per element, in order |
| Report.MainLanguage | backend/main.py:307 | the main language is Python iff there are more Python files than JavaScript/TypeScript files |
| Report.CategoryBlockShape | backend/main.py:282-287 | an empty category has no lines; otherwise a heading, `min(n, 10)` bullets, and one overflow line iff more than ten |
| Report.OverflowIff | backend/main.py:286-287 | an `... and N more` line appears iff the category has more than ten files |
| Report.BulletIsNotOverflow | backend/main.py:285-287 | a bullet line is never taken for an overflow line |
| Report.HeadingIsNotOverflow | backend/main.py:283-287 | a category heading is never taken for an overflow line |
| Report.TechnologiesListed | backend/main.py:293-294 | at most 20 technologies are shown, strictly ascending and all detected |
| Report.TechnologiesSmallestShown | backend/main.py:293 | a technology left out is greater than every one shown |
| Report.DockerSupportIff | backend/main.py:308 | `Has Docker support: Yes` iff some file is listed under Docker |
| Report.MarkdownBlockIff | backend/main.py:313 | the documentation block is present iff some path ends in `.md` |
| Report.MarkdownEntriesLayout | backend/main.py:327-333 | the entries are six lines per file, and the six lines from `6 * i` on are exactly file `i`'s entry (`FILE: path (n lines)` between rules, then the content) |
| Report.SummaryFailsIff | backend/main.py:244-249 | the summary raises iff some Python file has a scanned import line with no second word |
| PyStr.Split | backend/main.py:181 | `split('\n')` gives at least one piece, none holding a newline |
| PyStr.JoinSplit | backend/main.py:181 | joining the pieces of `split(c)` with `c` gives back the string |
| PyStr.SplitJoin | backend/main.py:195 | splitting a join of newline-free pieces gives back the pieces |
| PyStr.Strip | backend/main.py:198 | `strip()` drops exactly the leading and trailing whitespace |
| PyStr.StripIdempotent | backend/main.py:198 | stripping twice is stripping once |
| PyStr.Words | backend/main.py:249 | every word of `split()` is non-empty and has no whitespace |
| PyStr.WordsEmptyIff | backend/main.py:249 | `split()` is empty iff the string is all whitespace |
| PyStr.WordsAfterKeyword | backend/main.py:248-249 | after `import ` the words are the keyword followed by the words of the rest |
| PyStr.RemoveAllIsConcatOfSplit | backend/main.py:198 | `replace(p, '')` is the concatenation of `split(p)` |
| PyStr.NoOccurrence | backend/main.py:198 | without an occurrence, `split` and `replace` leave the string alone |
| PyStr.SplitStrFirst | backend/main.py:669 | the first piece of `split(sep)` runs up to the first occurrence of `sep` |
| PyStr.SplitStrAfterSeparator | backend/main.py:669 | a string starting with `sep` splits into at least two pieces, the second being the first piece of the rest |
| PyStr.EndsWithAnyIff | backend/main.py:231 | `endswith(tuple)` holds iff some suffix of the tuple matches |
| PyStr.ContainsAt | backend/main.py:242 | `p in s` holds when `p` begins at some index of `s` |
| Format.Decimal | backend/main.py:277 | `f"{n}"` is non-empty, all digits, without a leading zero |
| Format.DecimalRoundTrip | backend/main.py:277 | reading the digits of `f"{n}"` back gives `n` |
| Format.GroupedIsDecimal | backend/main.py:278 | `f"{n:,}"` with its commas removed is `f"{n}"` |
| Format.IntStr | backend/main.py:474 | `f"{i}"` of a negative integer is a minus sign and the digits of its absolute value |
| StrOrder.SortSet | backend/main.py:293 | `sorted(technologies)` is the unique strictly ascending sequence of the set's elements |
| StrOrder.SortedOf | backend/main.py:293 | the sorted sequence is strictly ascending, as long as the set, with the same elements |
| StrOrder.SortedOfUnique | backend/main.py:293 | only one strictly ascending sequence has exactly a given set's elements |
| StrOrder.LessTotal | backend/main.py:293 | string order is total |
| StrOrder.LessTransitive | backend/main.py:293 | string order is transitive |
| StrOrder.LessIrreflexive | backend/main.py:293 | string order is irreflexive |
| GitHub.GitHubHeaders | backend/main.py:114-126 | Accept and User-Agent are always set; Authorization carries the given token, else the default one, and is absent iff neither is set |
| GitHub.ExtractToken | backend/main.py:667-669 | a token is taken iff the header starts with `token ` |
| GitHub.TokenRoundTrip | backend/main.py:122 | a token without `token ` inside survives the trip through the header |
| GitHub.TokenStopsAtNextPrefix | backend/main.py:669 | `split("token ")[1]` keeps only the text up to the next `token ` |
| GitHub.EmptyTokenFallsBack | backend/main.py:121-124 | the header `token ` gives the empty token, which then counts as none |
| GitHub.FetchGitHubRepos | backend/main.py:137-172 | the loop gives `Paginate(pages, perPage, 1, None)`, the reference pagination |
| GitHub.PaginationCollects | backend/main.py:141-164 | without errors, the repositories are the full pages in order, then the last page (an empty page adds nothing) |
| GitHub.TransportErrorStatus | backend/main.py:166-170 | a request that fails without a response reports the previous response's success status, or 500 on the first page |
| GitHub.ErrorStatusFails | backend/main.py:150-170 | an error status on any page fails the whole fetch with that status |
| GitHub.UndecodableFails | backend/main.py:151-170 | a body `response.json()` cannot decode fails the whole fetch with that response's own status, even 200 on the first page |
| GitHub.LegacyStarsEitherKey | main.py:49-54 | the legacy record takes the star count under the alias `stargazers_count` or under the field name `stars` alike |
| GitHub.TransformRepos | backend/main.py:674-693 | the loop gives `Transformed`, the valid records in order |
| GitHub.TransformedAppend | backend/main.py:675-693 | the transformation distributes over concatenation |
| GitHub.TransformedMembers | backend/main.py:675-693 | no more records than repositories, and a record is kept iff some repository validates to it |
| GitHub.BackendDefaults | backend/main.py:678-689 | the backend fills `private`, `fork` and `stars` with False, False and 0; the legacy mapping rejects the same object |
| GitHub.GetUserRepositories | backend/main.py:665-695 | the endpoint answers `UserRepositories`: the failed fetch's status, or the valid records |
| GitHub.UserRepositoriesByPage | backend/main.py:671-695 | without errors, the answer is the valid records of each page in turn |
| Ingest.FetchGitingest | backend/main.py:342-391 | the method's result is `GitIngest`: the digest or its summary on success, `Failed to process with GitIngest: …` otherwise |
| Ingest.UseTokenMatchesHeaders | backend/main.py:361 | the token given to GitIngest is the one GitHub's Authorization header would carry |
| Ingest.GitIngestShape | backend/main.py:375-391 | every record names its repository; success iff no error; all three texts on success and none on failure; errors carry the GitIngest prefix |
| Ingest.GitIngestFailsIff | backend/main.py:364-391 | the call fails iff ingest fails or, in summary mode, the summary raises |
| Ingest.GitIngestContent | backend/main.py:368-382 | on success, `content` is the digest with `include_content`, else the detailed summary |
| Ingest.IngestFailureMessage | backend/main.py:383-391 | an ingest failure's message is kept after the prefix |
| Ingest.GetGitingestExtracts | backend/main.py:736-775 | the method's answer is `Batch`: a 400 error for no names, else the records and counts |
| Ingest.Results | backend/main.py:751-766 | one record per name |
| Ingest.SuccessCount | backend/main.py:768 | the success count is at most the number of records |
| Ingest.ResultsAt | backend/main.py:751-766 | record `i` is the answer for name `i` |
| Ingest.SuccessCountIsCardinality | backend/main.py:768 | the sum counts exactly the indices of successful records |
| Ingest.BatchRefusedIff | backend/main.py:738-742 | the batch is refused iff no repository is named, with 400 and the fixed message |
| Ingest.BatchCounts | backend/main.py:751-775 | `|results| == total_requested == |names|`, `successful + failed == total_requested`, `successful` counts the successes, each record names its repository and is well formed |
| Ingest.InvalidNameNotIngested | backend/main.py:753-763 | a name without `/` gets the format error whatever GitIngest would do, so it is never asked |
| Ingest.ValidNameIngested | backend/main.py:765-766 | a name with `/` gets `fetch_gitingest`'s answer with the header's token |
| Ingest.GetSingleGitingest | backend/main.py:809-822 | the endpoint answers `Single`: the record, or 500 with its error |
| Ingest.SingleAgreesWithBatch | backend/main.py:781-822 | the single endpoint answers the batch's record for `owner/repo`, or a 500 carrying its error |
| LinkedIn.PollStatus | backend/main.py:437-489 | the loop gives `PollLoop`: its result and the intervals it slept |
| LinkedIn.FetchAgent | backend/main.py:394-502 | the fetch gives `FetchRun`: start failures, a missing `run_id`, then the poll loop |
| LinkedIn.GetLinkedIn | backend/main.py:867-879 | the endpoint answers `Respond` of the fetch result, whose result is always complete |
| LinkedIn.PollLoopIsExpected | backend/main.py:442-489 | the loop equals the reference: wait up to the first decisive answer, sleeping by `Schedule`, then decide or time out |
| LinkedIn.FirstDecisive | backend/main.py:442-481 | the index found is the first answer that is not waiting |
| LinkedIn.Processing | backend/main.py:462-467 | the number of 204 answers is at most the number of answers |
| LinkedIn.ScheduleBounds | backend/main.py:440-467 | every interval is between 2 s and the interval reached so far, and the intervals never shrink |
| LinkedIn.ScheduleCapped | backend/main.py:467 | every interval is between 2 s and 5 s |
| LinkedIn.ScheduleLength | backend/main.py:462-481 | one sleep per 204 or request error |
| LinkedIn.ErrorsKeepFirstInterval | backend/main.py:478-481 | without a 204 the interval stays at 2 s: a request error does not lengthen it |
| LinkedIn.StillProcessingSchedule | backend/main.py:462-467 | with 204s only, the k-th sleep is `min(2 + k/2, 5)` seconds, one per poll |
| LinkedIn.AllProcessing | backend/main.py:462-467 | with 204s only, every answer is counted |
| LinkedIn.ResponseSucceeds | backend/main.py:449-460 | a 200 with a non-empty `response` succeeds with that data and the run id |
| LinkedIn.OtherStatusFails | backend/main.py:470-476 | any status other than 200 and 204 fails with `Unexpected status code: N` |
| LinkedIn.WaitingTimesOut | backend/main.py:442-489 | when every answer is waiting, the loop times out after the scheduled sleeps |
| LinkedIn.FetchComplete | backend/main.py:394-502 | every result has data on success and an error on failure |
| LinkedIn.RespondStatus | backend/main.py:869-879 | the endpoint fails iff the fetch failed, with its error, and with 408 iff the error contains `Timeout`, else 500 |
| LinkedIn.TimeoutAnswers408 | backend/main.py:484-489 | running out of time answers 408 |
| LinkedIn.UnexpectedStatusAnswers500 | backend/main.py:471-476 | an unexpected status code answers 500 |
| LinkedIn.NoRunIdAnswers500 | backend/main.py:426-433 | a start answer without a `run_id` answers 500 |
| LinkedIn.AbsentLetter | backend/main.py:871 | a text without `T` does not contain `Timeout` |

## Left out

- HTTP itself is not modelled: FastAPI routing, CORS, request-body validation, uvicorn, and the `/` and `/health` endpoints. Each handler is modelled from its arguments to its answer or its `HTTPException`.
- Network calls are not made. GitHub pages, the Agent.ai start and status answers, and `gitingest.ingest` are parameters.
- The URLs and query parameters sent (username, `type`, `sort`, the webhook URLs, the posted `user_input`) only shape those requests, so they do not appear.
- Exception texts (`str(e)`) are opaque strings given with the answer. The response status of a failed GitHub fetch is kept; its `detail` text is not.
- Clocks and `asyncio.sleep` are not modelled. The deadline `max_wait_seconds` appears only in the timeout message. The answers given are the polls made before the deadline, so when they run out the loop times out. The sleeps are returned as a sequence instead of being performed.
- `print` logging is left out. So is the unused `dependencies` list, which never reaches the report.
- Pydantic's lax coercions (for example the string `"1"` accepted as an int) are not modelled. A field validates only when its JSON value has the declared type. `main.py`'s model, under Pydantic v2, requires every field, including `description` and `language`, which may be `null`.
- Floating-point JSON numbers are not modelled.
- The start request's `raise_for_status` errors are merged with transport errors: both are `requests.RequestException` and give the same message prefix.
- A JSON body that does not decode is counted as a request exception, as recent versions of `requests` make it (`requests.JSONDecodeError`). Older versions raise a `ValueError` that the `except` does not catch; that case is not modelled.
- GitHub.FetchGitHubRepos: a page past the end of the given answers is taken to answer an empty list, which ends the loop. So the model does not capture the source's unbounded `while True` going on forever against a server that keeps sending full pages; every modelled fetch ends.
- `main.py`'s own `fetch_gitingest`, batch and single endpoints are the same code as `backend/main.py`'s, so they have no separate rows.
- `test_api.py` and the frontend are not part of this model.
