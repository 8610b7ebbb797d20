# adomcp core, modelled in Dafny

adomcp is an MCP server that answers questions about Azure DevOps: which pull requests
are open for a branch, what reviewers wrote on a pull request, and which errors the latest
pull-request build logged. This project models the logic that sits between its remote SDK
calls and proves properties of it:

- `Text` (`text.dfy`): the .NET string operations the services rely on. These are
  `Char.IsWhiteSpace`, `string.IsNullOrWhiteSpace`, `TrimStart`, `StartsWith`,
  `Contains(_, OrdinalIgnoreCase)`, `string.Join` and `int.TryParse`, over `string` = `seq<char>`.
- `ConfigValidator` (`config_validator.dfy`): `ConfigValidator.GetSetting` and the
  personal-access-token guard at the head of every service method that connects to Azure
  DevOps. An `IConfiguration` is a
  `map<string, string>`; a missing key reads as null.
- `LogScan` (`log_scan.dfy`): the error-line scanner of `GetBuildErrorsAsync`.
  `ExtractErrors` specifies the findings of one log. `ScanLog` is the source's `for` loop
  and `CollectTrace` its inner `while` loop; `ScanLog` is proved equal to `ExtractErrors`.
- `BuildErrorService` (`build_error_service.dfy`): `GetBuildErrorsAsync`. It covers the token
  guard, the build query, the `pr.number` filter and the nested loops over builds and logs.
  The build client is a `BuildServer` value with three members, one per request the service
  sends. The method returns the findings and the list of requests it sent, so "no log is
  fetched" can be stated.
- `PullRequestService` (`pull_request_service.dfy`): `GetPullRequestsAsync` and
  `GetPullRequestCommentsAsync`. The source builds both results with LINQ projections, so
  they are modelled as functions. The Git client is a `GitServer` value.
- `Wrappers` (`wrappers.dfy`): `Option` for nullable values and `Result` for the
  `InvalidOperationException` the services throw.

Two behaviours of the code shape what the model can promise:

- The build query asks for the project's completed pull-request builds, most recently
  finished first, `top: 1`. It does not filter on the pull-request id and applies no time
  window. The `pr.number` filter then runs on that one build, so a pull request whose build
  is not the project's most recently finished completed pull-request build gets no findings
  (`BuildErrorService.AtMostOneBuildScanned`, `BuildErrorService.FindingsComeFromPullRequestBuilds`).
- Only a space counts as indentation: a tab-indented line continues a trace only when it is
  an `at ` line (`LogScan.TabIndentedLines`).

## Model

| member | source | states |
|---|---|---|
| `Text.TrimStartSpec` | src/AdoMCP/Services/AdoSdkBuildErrorService.cs:73 | `TrimStart` removes only leading white space and keeps a suffix that does not start with white space |
| `Text.ContainsIgnoreCaseSpec` | src/AdoMCP/Services/AdoSdkBuildErrorService.cs:68 | the left-to-right ordinal case-insensitive search succeeds exactly when the needle occurs at some position, ignoring case |
| `Text.TryParseInt32` | src/AdoMCP/Services/AdoSdkBuildErrorService.cs:54 | `int.TryParse` only ever yields a value in the 32-bit range |
| `Text.TryParseIntToString` | src/AdoMCP/Services/AdoSdkBuildErrorService.cs:54 | round trip: `int.TryParse` reads back every 32-bit value written by `int.ToString` |
| `Text.SplitJoin` | src/AdoMCP/Services/AdoSdkBuildErrorService.cs:79 | round trip: lines joined with "\n" split back into the same lines when none contains "\n" |
| `ConfigValidator.Lookup` | src/AdoMCP/Helpers/ConfigValidator.cs:22 | the indexer yields the key's value when the key is present and null otherwise |
| `ConfigValidator.GetSetting` | src/AdoMCP/Helpers/ConfigValidator.cs:17-25 | succeeds iff the key is present and its value is not blank; then it returns that value unchanged; otherwise it fails with `InvalidOperationException` carrying the caller's message |
| `ConfigValidator.GetSettingNonBlank` | src/AdoMCP/Helpers/ConfigValidator.cs:23-24 | a value `GetSetting` returns holds a character that is not white space |
| `ConfigValidator.GetSettingReadsOnlyKey` | src/AdoMCP/Helpers/ConfigValidator.cs:22 | two configurations that agree on the key give the same outcome |
| `ConfigValidator.RequirePat` | src/AdoMCP/Services/AdoSdkBuildErrorService.cs:30-34 | fails with the fixed PAT message iff `Ado:Pat` is null or blank (`Text.IsNullOrWhiteSpace`, the model of `string.IsNullOrWhiteSpace`), otherwise yields the token |
| `ConfigValidator.RequirePatCases` | src/AdoMCP.Tests/AdoSdkBuildErrorServiceTests.cs:25-50 | missing, empty and white-space tokens are refused; a token that starts with a non-blank character is accepted |
| `LogScan.IsErrorLine` | src/AdoMCP/Services/AdoSdkBuildErrorService.cs:68 | a line is an error line iff "error" matches it, letter by letter ignoring case, at some position |
| `LogScan.IsTraceLine` | src/AdoMCP/Services/AdoSdkBuildErrorService.cs:73 | a line continues a trace iff it starts with a space, or `at ` follows a white-space-only prefix of it |
| `LogScan.TraceRun` | src/AdoMCP/Services/AdoSdkBuildErrorService.cs:71-77 | the lines the inner loop gathers from `j` are a stretch of consecutive lines of the log starting at `j` |
| `LogScan.TraceRunIsMaximalRun` | src/AdoMCP/Services/AdoSdkBuildErrorService.cs:71-77 | every line of the run from `j` is a trace line, and the run stops at the first non-trace line or at the end |
| `LogScan.Finding` | src/AdoMCP/Services/AdoSdkBuildErrorService.cs:79 | the message is the error line verbatim; the trace is null iff the run is empty, and is never the empty string |
| `LogScan.ExtractErrors` | src/AdoMCP/Services/AdoSdkBuildErrorService.cs:65-81 | at most one finding per line, each well formed |
| `LogScan.ErrorIndicesFrom` | src/AdoMCP/Services/AdoSdkBuildErrorService.cs:65-68 | the indices of exactly the error lines, strictly increasing |
| `LogScan.ExtractFromIndices` | src/AdoMCP/Services/AdoSdkBuildErrorService.cs:65-81 | the k-th finding is the finding of the k-th error line |
| `LogScan.OneFindingPerErrorLine` | src/AdoMCP/Services/AdoSdkBuildErrorService.cs:65-79 | one finding per error line in line order, with its message and its trace (null or the maximal run joined with "\n") |
| `LogScan.FindingIsReported` | src/AdoMCP/Services/AdoSdkBuildErrorService.cs:65-68 | every error line's finding is among the findings |
| `LogScan.OverlappingFindings` | src/AdoMCP/Services/AdoSdkBuildErrorService.cs:65-77 | an error line inside an earlier finding's trace is also reported as a finding of its own |
| `LogScan.TraceIsContiguousRun` | src/AdoMCP/Services/AdoSdkBuildErrorService.cs:71-79 | when no line holds "\n", the trace splits back into the lines after the error line up to the first non-trace line, all of them trace lines |
| `LogScan.TraceSplitsBack` | src/AdoMCP/Services/AdoSdkBuildErrorService.cs:79 | the joined trace splits back into its run of lines |
| `LogScan.CollectTrace` | src/AdoMCP/Services/AdoSdkBuildErrorService.cs:71-77 | the inner `while` loop gathers exactly the run of trace lines from its start index |
| `LogScan.ScanLog` | src/AdoMCP/Services/AdoSdkBuildErrorService.cs:65-81 | the imperative scan returns exactly `ExtractErrors` of the lines |
| `LogScan.TraceStopsAtUnindentedLine` | src/AdoMCP/Services/AdoSdkBuildErrorService.cs:71-79 | example: two `  at` lines after an error line form its trace, and the unindented line after them ends it |
| `LogScan.AdjacentErrorLines` | src/AdoMCP/Services/AdoSdkBuildErrorService.cs:65-79 | example: two adjacent unindented error lines give two findings without traces |
| `LogScan.SubstringMatchIgnoringCase` | src/AdoMCP/Services/AdoSdkBuildErrorService.cs:68 | "errortown" and "Build ERROR" are error lines |
| `LogScan.TabIndentedLines` | src/AdoMCP/Services/AdoSdkBuildErrorService.cs:73 | a tab-indented line is a trace line only if it is an `at ` line |
| `LogScan.NotTraceLine` | src/AdoMCP/Services/AdoSdkBuildErrorService.cs:73 | a line starting with neither white space nor `a` is not a trace line |
| `LogScan.LacksLetterOfError` | src/AdoMCP/Services/AdoSdkBuildErrorService.cs:68 | a line lacking some letter of "error" in both cases is not an error line |
| `BuildErrorService.BuildsQuery` | src/AdoMCP/Services/AdoSdkBuildErrorService.cs:42-47 | the build query asks for the project's completed pull-request builds, most recently finished first, top 1 |
| `BuildErrorService.LinesQuery` | src/AdoMCP/Services/AdoSdkBuildErrorService.cs:64 | the lines of a log are requested from line 0 to line 1000 |
| `BuildErrorService.IsPullRequestBuild` | src/AdoMCP/Services/AdoSdkBuildErrorService.cs:52-54 | only a build whose trigger info is present and holds `pr.number` can belong to a pull request, and only to one whose id is a 32-bit value |
| `BuildErrorService.PullRequestBuilds` | src/AdoMCP/Services/AdoSdkBuildErrorService.cs:52-54 | the filter never adds builds |
| `BuildErrorService.PullRequestBuildsMembers` | src/AdoMCP/Services/AdoSdkBuildErrorService.cs:52-54 | a build is kept iff it has trigger info whose `pr.number` parses to the requested id |
| `BuildErrorService.PullRequestBuildsAppend` | src/AdoMCP/Services/AdoSdkBuildErrorService.cs:52-54 | the filter keeps relative order: it distributes over concatenation |
| `BuildErrorService.PrNumberSelects` | src/AdoMCP/Services/AdoSdkBuildErrorService.cs:52-54 | a build whose `pr.number` is `n` written in decimal is selected for `n` and for no other id; a build without trigger info never is |
| `BuildErrorService.AtMostOneBuildScanned` | src/AdoMCP/Services/AdoSdkBuildErrorService.cs:42-54 | if the server honours `top`, at most one build is scanned |
| `BuildErrorService.LogsErrors` | src/AdoMCP/Services/AdoSdkBuildErrorService.cs:62-81 | the findings of a build's logs, log after log, are all well formed |
| `BuildErrorService.BuildsErrors` | src/AdoMCP/Services/AdoSdkBuildErrorService.cs:57-85 | the findings of the matching builds, build after build, are all well formed |
| `BuildErrorService.BuildsErrorsAppend` | src/AdoMCP/Services/AdoSdkBuildErrorService.cs:57-85 | findings of several builds are the plain concatenation of each build's findings, with no dedup or reordering |
| `BuildErrorService.LogsErrorsOrigin` | src/AdoMCP/Services/AdoSdkBuildErrorService.cs:62-81 | every finding of a build comes from one of its logs and is well formed |
| `BuildErrorService.BuildsErrorsOrigin` | src/AdoMCP/Services/AdoSdkBuildErrorService.cs:59-83 | every finding comes from a log of one of the scanned builds and is well formed |
| `BuildErrorService.FindingsComeFromPullRequestBuilds` | src/AdoMCP/Services/AdoSdkBuildErrorService.cs:52-85 | every finding comes from a log of a returned build of the pull request; no matching build means no finding |
| `BuildErrorService.LogsCallsFor` | src/AdoMCP/Services/AdoSdkBuildErrorService.cs:62-64 | every line request of a build names that build and the project, lines 0 to 1000 |
| `BuildErrorService.BuildsCallsFor` | src/AdoMCP/Services/AdoSdkBuildErrorService.cs:59-64 | every log or line request names one of the scanned builds |
| `BuildErrorService.LogsFetchedOnlyForPullRequestBuilds` | src/AdoMCP/Services/AdoSdkBuildErrorService.cs:42-64 | the first request is the build query and all later ones are for matching builds; no matching build means no log is fetched |
| `BuildErrorService.ScanBuild` | src/AdoMCP/Services/AdoSdkBuildErrorService.cs:61-82 | the loop over one build's logs returns that build's findings and sends its log-list request, then one line request per log |
| `BuildErrorService.GetBuildErrors` | src/AdoMCP/Services/AdoSdkBuildErrorService.cs:25-86 | fails with the PAT message and sends no request iff the token is null or blank; otherwise returns `BuildErrors`, the findings of `MatchingBuilds` (the build query followed by the `Where` of lines 42-54), and sends exactly `ServiceCalls`, the build query and then each matching build's log-list and line requests, in order |
| `PullRequestService.BranchRef` | src/AdoMCP/Services/AdoSdkPullRequestService.cs:52 | the source ref of a branch starts with `refs/heads/`, and what follows that prefix is exactly the branch name |
| `PullRequestService.BranchOfRef` | src/AdoMCP/Services/AdoSdkPullRequestService.cs:52 | a ref names a branch iff it starts with `refs/heads/` |
| `PullRequestService.BranchRefRoundTrip` | src/AdoMCP/Services/AdoSdkPullRequestService.cs:52 | the branch is recovered from its ref, and a `refs/heads/` ref is the ref of the branch it names |
| `PullRequestService.PullRequestsQuery` | src/AdoMCP/Services/AdoSdkPullRequestService.cs:46-54 | the query asks for active pull requests whose source ref names the branch, top 100, in the given project and repository |
| `PullRequestService.StatusNameInjective` | src/AdoMCP/Services/AdoSdkPullRequestService.cs:62 | distinct statuses print differently under `StatusName`, the model of `pr.Status.ToString()` |
| `PullRequestService.DisplayNameOr` | src/AdoMCP/Services/AdoSdkPullRequestService.cs:59 | the identity's display name when both are present, the fallback otherwise |
| `PullRequestService.ProjectPullRequest` | src/AdoMCP/Services/AdoSdkPullRequestService.cs:56-63 | id, status and creation date carry over; null title, creator name and refs read as "" |
| `PullRequestService.ProjectPullRequests` | src/AdoMCP/Services/AdoSdkPullRequestService.cs:56-63 | one record per returned pull request, in the same order |
| `PullRequestService.ProjectionKeepsPresentValues` | src/AdoMCP/Services/AdoSdkPullRequestService.cs:57-63 | members that are present are copied unchanged |
| `PullRequestService.ProjectPullRequestsAppend` | src/AdoMCP/Services/AdoSdkPullRequestService.cs:56-63 | the projection distributes over concatenation |
| `PullRequestService.GetPullRequests` | src/AdoMCP/Services/AdoSdkPullRequestService.cs:32-64 | fails with the PAT message iff the token is null or blank, otherwise projects the answer to the branch query |
| `PullRequestService.PatGuardPrecedesRequests` | src/AdoMCP/Services/AdoSdkPullRequestService.cs:34-38 | without a usable token both operations give the same result whatever the server holds, so no request matters |
| `PullRequestService.CommentType` | src/AdoMCP/Services/AdoSdkPullRequestService.cs:103-105 | "markdown" iff the thread's properties are present and hold the markdown key, "text" otherwise |
| `PullRequestService.IsKept` | src/AdoMCP/Services/AdoSdkPullRequestService.cs:100 | a comment is kept iff its content is present and holds a character that is not white space |
| `PullRequestService.ToPullRequestComment` | src/AdoMCP/Services/AdoSdkPullRequestService.cs:106-111 | id, content and date carry over; the author is the display name, or "Unknown" when it is null; the type is the thread's |
| `PullRequestService.KeptComments` | src/AdoMCP/Services/AdoSdkPullRequestService.cs:99-112 | a thread yields no more comments than it has |
| `PullRequestService.ThreadComments` | src/AdoMCP/Services/AdoSdkPullRequestService.cs:98 | a thread whose comment list is null contributes nothing |
| `PullRequestService.GetPullRequestComments` | src/AdoMCP/Services/AdoSdkPullRequestService.cs:74-116 | fails with the PAT message iff the token is null or blank, otherwise flattens the threads of the pull request |
| `PullRequestService.KeptCommentsMembers` | src/AdoMCP/Services/AdoSdkPullRequestService.cs:100-111 | an output comment of a thread is exactly the image of one of its non-blank comments |
| `PullRequestService.KeptCommentsAppend` | src/AdoMCP/Services/AdoSdkPullRequestService.cs:99-112 | comments keep their order within a thread |
| `PullRequestService.FlattenCommentsAppend` | src/AdoMCP/Services/AdoSdkPullRequestService.cs:97-113 | threads keep their order: flattening distributes over concatenation |
| `PullRequestService.FlattenComments` | src/AdoMCP/Services/AdoSdkPullRequestService.cs:97-113 | flattening the threads never yields more output comments than there are comments in the threads |
| `PullRequestService.FlattenCommentsMembers` | src/AdoMCP/Services/AdoSdkPullRequestService.cs:97-113 | an output comment is exactly the image of a non-blank comment of a thread with a comment list |
| `PullRequestService.OutputCommentsAreNonBlank` | src/AdoMCP/Services/AdoSdkPullRequestService.cs:100-105 | every output comment has non-blank content and type "markdown" or "text" |
| `PullRequestService.ThreadCommentsShareType` | src/AdoMCP/Services/AdoSdkPullRequestService.cs:103-105 | all comments of one thread get the same type |
| `PullRequestService.BlankCommentDropped` | src/AdoMCP/Services/AdoSdkPullRequestService.cs:97-113 | example: a blank comment is dropped, an anonymous one is by "Unknown", a thread without a comment list adds nothing |

## Left out

- Remote calls are not modelled: `VssConnection`, credentials, client creation, `async`/`await`
  and `using` disposal. The clients' answers are total functions in `BuildServer` and
  `GitServer`, and the requests they receive are part of the model.
- The `organization` parameter is not modelled. It only forms the connection URL.
- `top: 1`, `top: 100` and the line range 0..1000 are limits the server applies. The model
  sees only what the server returns. `AtMostOneBuildScanned` assumes the server honours `top`.
- The tool facades, `AdoRestPullRequestService`, the change-retrieval service, the
  console programs and dependency injection are not modelled. Tool facades are config
  lookups plus JSON serialisation. `AdoRestPullRequestService` is an HTTP request plus JSON
  parsing. The change-retrieval service throws `NotImplementedException` in the source.
- `DateTime` values are opaque tick counts that are only copied.
- `Text.EqualsIgnoreCase`: `OrdinalIgnoreCase` folds case for all of Unicode; the model
  folds only the ASCII letters. The search word "error" is ASCII. A non-ASCII character
  that .NET folds to an ASCII letter of "error" is not modelled.
- `Text.StartsWith`: `StartsWith(string)` without a comparison argument compares by the
  current culture in .NET. It is modelled as an ordinal prefix test.
- Strings are sequences of Unicode scalar values rather than UTF-16 code units.
- `Text.TryParseInt32`: `int.TryParse` also depends on the current culture's sign symbols
  and accepts trailing null characters. The model takes the invariant culture's `+`/`-` and
  no trailing nulls.
- `PullRequestService.StatusName`: the SDK's `PullRequestStatus` is reduced to its named
  members. A status value outside them cannot occur in the model.
- Thread `Properties` are reduced to their key set, because only `ContainsKey` is used.
