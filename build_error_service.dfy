/** `AdoSdkBuildErrorService.GetBuildErrorsAsync`: the access-token guard, the query for the
    most recent completed pull-request build, the `pr.number` filter on its trigger info, and
    the nested loops over builds, logs and log lines that gather the findings of `LogScan`.
    The build client is a `BuildServer` value whose three members answer the three requests
    the service sends; the method also returns the requests it sent, in order. */
module BuildErrorService {
  import opened Wrappers
  import opened Text
  import opened ConfigValidator
  import opened LogScan

  // ---------------------------------------------------------------------------
  // The build client
  // ---------------------------------------------------------------------------

  /** The `BuildReason`, `BuildStatus` and `BuildQueryOrder` values the service can ask for
      (the client library has more; only these matter here). */
  datatype BuildReason = Manual | IndividualCI | BatchedCI | Schedule | PullRequest
  datatype BuildStatus = InProgress | Completed | Cancelling | Postponed | NotStarted
  datatype BuildQueryOrder = FinishTimeAscending | FinishTimeDescending | QueueTimeAscending | QueueTimeDescending

  /** The arguments of `GetBuildsAsync` the service passes. */
  datatype BuildQuery = BuildQuery(
    project: string,
    reasonFilter: BuildReason,
    statusFilter: BuildStatus,
    queryOrder: BuildQueryOrder,
    top: int)

  /** A build: its id and its trigger info, a string dictionary that may be null. */
  datatype Build = Build(id: int, triggerInfo: Option<map<string, string>>)

  /** A log of a build. */
  datatype BuildLog = BuildLog(id: int)

  /** The arguments of `GetBuildLogLinesAsync`: project, build, log and the line range. */
  datatype LogLinesQuery = LogLinesQuery(project: string, buildId: int, logId: int, startLine: int, endLine: int)

  /** What the build client answers to `GetBuildsAsync`, `GetBuildLogsAsync(project, buildId)`
      and `GetBuildLogLinesAsync`. */
  datatype BuildServer = BuildServer(
    getBuilds: BuildQuery -> seq<Build>,
    getBuildLogs: (string, int) -> seq<BuildLog>,
    getBuildLogLines: LogLinesQuery -> seq<string>)

  /** A request sent to the build client. */
  datatype ServiceCall =
    | GetBuildsCall(query: BuildQuery)
    | GetBuildLogsCall(project: string, buildId: int)
    | GetBuildLogLinesCall(linesQuery: LogLinesQuery)

  /** The one build query: completed pull-request builds of `project`, most recently
      finished first, at most one. */
  function BuildsQuery(project: string): (q: BuildQuery)
    ensures q.project == project && q.reasonFilter == PullRequest && q.statusFilter == Completed
    ensures q.queryOrder == FinishTimeDescending && q.top == 1
  {
    BuildQuery(project, PullRequest, Completed, FinishTimeDescending, 1)
  }

  /** The lines of one log are asked for from line 0 to line 1000. */
  function LinesQuery(project: string, buildId: int, logId: int): (q: LogLinesQuery)
    ensures q.project == project && q.buildId == buildId && q.logId == logId
    ensures q.startLine == 0 && q.endLine == 1000
  {
    LogLinesQuery(project, buildId, logId, 0, 1000)
  }

  // ---------------------------------------------------------------------------
  // The pull-request build filter
  // ---------------------------------------------------------------------------

  const PrNumberKey: string := "pr.number"

  /** A build belongs to the pull request when its trigger info is present, holds
      `pr.number`, and that value parses as a 32-bit integer equal to the request's id. */
  predicate IsPullRequestBuild(b: Build, pullRequestId: int)
    ensures IsPullRequestBuild(b, pullRequestId) ==>
      b.triggerInfo.Some? && PrNumberKey in b.triggerInfo.value && Int32Min <= pullRequestId <= Int32Max
  {
    && b.triggerInfo.Some?
    && PrNumberKey in b.triggerInfo.value
    && TryParseInt32(b.triggerInfo.value[PrNumberKey]) == Some(pullRequestId)
  }

  /** The `Where` over the returned builds. */
  function PullRequestBuilds(builds: seq<Build>, pullRequestId: int): (r: seq<Build>)
    ensures |r| <= |builds|
  {
    if builds == [] then []
    else if IsPullRequestBuild(builds[0], pullRequestId) then [builds[0]] + PullRequestBuilds(builds[1..], pullRequestId)
    else PullRequestBuilds(builds[1..], pullRequestId)
  }

  /** The filter keeps exactly the builds of the pull request. */
  lemma {:induction false} PullRequestBuildsMembers(builds: seq<Build>, pullRequestId: int)
    ensures forall b :: (b in PullRequestBuilds(builds, pullRequestId)
      <==> b in builds && IsPullRequestBuild(b, pullRequestId))
  {
    if builds != [] {
      PullRequestBuildsMembers(builds[1..], pullRequestId);
      assert builds == [builds[0]] + builds[1..];
    }
  }

  /** The filter keeps the relative order: filtering a concatenation concatenates the
      filtered parts. */
  lemma {:induction false} PullRequestBuildsAppend(xs: seq<Build>, ys: seq<Build>, pullRequestId: int)
    ensures PullRequestBuilds(xs + ys, pullRequestId)
      == PullRequestBuilds(xs, pullRequestId) + PullRequestBuilds(ys, pullRequestId)
  {
    if xs != [] {
      assert (xs + ys)[0] == xs[0];
      assert (xs + ys)[1..] == xs[1..] + ys;
      PullRequestBuildsAppend(xs[1..], ys, pullRequestId);
      var rest, tail := PullRequestBuilds(xs[1..], pullRequestId), PullRequestBuilds(ys, pullRequestId);
      assert [xs[0]] + rest + tail == [xs[0]] + (rest + tail);
    } else {
      assert xs + ys == ys;
    }
  }

  /** A build triggered by pull request `n`, its number written as `int.ToString` writes
      it, is selected for `n` and for no other id; a build without trigger info is never
      selected. */
  lemma PrNumberSelects(id: int, n: int, m: int)
    requires Int32Min <= n <= Int32Max
    ensures IsPullRequestBuild(Build(id, Some(map[PrNumberKey := IntToString(n)])), n)
    ensures m != n ==> !IsPullRequestBuild(Build(id, Some(map[PrNumberKey := IntToString(n)])), m)
    ensures !IsPullRequestBuild(Build(id, None), m)
  {
    TryParseIntToString(n);
  }

  /** The build query asks for one build only, and the filter never adds builds: when the
      server honours `top`, at most one build is scanned. */
  lemma AtMostOneBuildScanned(server: BuildServer, project: string, pullRequestId: int)
    requires |server.getBuilds(BuildsQuery(project))| <= BuildsQuery(project).top
    ensures |MatchingBuilds(server, project, pullRequestId)| <= 1
  {
  }

  // ---------------------------------------------------------------------------
  // The findings and the requests, as functions
  // ---------------------------------------------------------------------------

  /** The findings of one log of build `buildId`. */
  function LogErrors(server: BuildServer, project: string, buildId: int, log: BuildLog): seq<BuildErrorDetail> {
    ExtractErrors(server.getBuildLogLines(LinesQuery(project, buildId, log.id)))
  }

  /** The findings of the logs `logs` of build `buildId`, log after log; each is well formed. */
  function LogsErrors(server: BuildServer, project: string, buildId: int, logs: seq<BuildLog>): (r: seq<BuildErrorDetail>)
    ensures forall k :: 0 <= k < |r| ==> WellFormed(r[k])
  {
    if logs == [] then []
    else LogsErrors(server, project, buildId, logs[..|logs| - 1]) + LogErrors(server, project, buildId, logs[|logs| - 1])
  }

  /** The findings of one build: those of each of its logs. */
  function BuildErrorsOf(server: BuildServer, project: string, b: Build): seq<BuildErrorDetail> {
    LogsErrors(server, project, b.id, server.getBuildLogs(project, b.id))
  }

  /** The findings of the builds `builds`, build after build; each is well formed. */
  function BuildsErrors(server: BuildServer, project: string, builds: seq<Build>): (r: seq<BuildErrorDetail>)
    ensures forall k :: 0 <= k < |r| ==> WellFormed(r[k])
  {
    if builds == [] then []
    else BuildsErrors(server, project, builds[..|builds| - 1]) + BuildErrorsOf(server, project, builds[|builds| - 1])
  }

  /** The builds of the pull request among those the build query returns. */
  function MatchingBuilds(server: BuildServer, project: string, pullRequestId: int): seq<Build> {
    PullRequestBuilds(server.getBuilds(BuildsQuery(project)), pullRequestId)
  }

  /** The result of a call that passes the access-token guard. */
  function BuildErrors(server: BuildServer, project: string, pullRequestId: int): seq<BuildErrorDetail> {
    BuildsErrors(server, project, MatchingBuilds(server, project, pullRequestId))
  }

  /** The line requests for the logs `logs` of build `buildId`. */
  function LogsCalls(project: string, buildId: int, logs: seq<BuildLog>): (calls: seq<ServiceCall>)
    ensures |calls| == |logs|
  {
    if logs == [] then []
    else
      var last := logs[|logs| - 1];
      LogsCalls(project, buildId, logs[..|logs| - 1]) + [GetBuildLogLinesCall(LinesQuery(project, buildId, last.id))]
  }

  /** The requests for one build: its log list, then the lines of each log. */
  function BuildCalls(server: BuildServer, project: string, b: Build): seq<ServiceCall> {
    [GetBuildLogsCall(project, b.id)] + LogsCalls(project, b.id, server.getBuildLogs(project, b.id))
  }

  /** The requests for the builds `builds`, build after build. */
  function BuildsCalls(server: BuildServer, project: string, builds: seq<Build>): (calls: seq<ServiceCall>)
    ensures |calls| >= |builds|
  {
    if builds == [] then []
    else BuildsCalls(server, project, builds[..|builds| - 1]) + BuildCalls(server, project, builds[|builds| - 1])
  }

  /** The requests of a call that passes the access-token guard: the build query, then
      the requests for each matching build. */
  function ServiceCalls(server: BuildServer, project: string, pullRequestId: int): seq<ServiceCall> {
    [GetBuildsCall(BuildsQuery(project))] + BuildsCalls(server, project, MatchingBuilds(server, project, pullRequestId))
  }

  /** Findings of several builds are the plain concatenation of the findings of each: no
      finding is dropped, merged or reordered. */
  lemma {:induction false} BuildsErrorsAppend(server: BuildServer, project: string, xs: seq<Build>, ys: seq<Build>)
    ensures BuildsErrors(server, project, xs + ys)
      == BuildsErrors(server, project, xs) + BuildsErrors(server, project, ys)
    decreases |ys|
  {
    if ys == [] {
      assert xs + ys == xs;
    } else {
      var last := ys[|ys| - 1];
      assert (xs + ys)[..|xs + ys| - 1] == xs + ys[..|ys| - 1];
      BuildsErrorsAppend(server, project, xs, ys[..|ys| - 1]);
    }
  }

  /** Every finding of a log list comes from one of its logs, and is well formed. */
  lemma {:induction false} LogsErrorsOrigin(server: BuildServer, project: string, buildId: int, logs: seq<BuildLog>)
    ensures forall d :: d in LogsErrors(server, project, buildId, logs) ==>
      WellFormed(d) && exists log :: log in logs && d in LogErrors(server, project, buildId, log)
  {
    if logs != [] {
      var init, last := logs[..|logs| - 1], logs[|logs| - 1];
      LogsErrorsOrigin(server, project, buildId, init);
      forall d | d in LogsErrors(server, project, buildId, logs)
        ensures WellFormed(d) && exists log :: log in logs && d in LogErrors(server, project, buildId, log)
      {
        if d in LogsErrors(server, project, buildId, init) {
          var log :| log in init && d in LogErrors(server, project, buildId, log);
          assert log in logs;
        } else {
          assert d in LogErrors(server, project, buildId, last);
        }
      }
    }
  }

  /** Every finding of a build list comes from a log of one of the builds, and is well formed. */
  lemma {:induction false} BuildsErrorsOrigin(server: BuildServer, project: string, builds: seq<Build>)
    ensures forall d :: d in BuildsErrors(server, project, builds) ==>
      WellFormed(d) && exists b, log :: (b in builds && log in server.getBuildLogs(project, b.id)
        && d in LogErrors(server, project, b.id, log))
  {
    if builds != [] {
      var init, last := builds[..|builds| - 1], builds[|builds| - 1];
      BuildsErrorsOrigin(server, project, init);
      LogsErrorsOrigin(server, project, last.id, server.getBuildLogs(project, last.id));
      forall d | d in BuildsErrors(server, project, builds)
        ensures WellFormed(d) && exists b, log :: (b in builds && log in server.getBuildLogs(project, b.id)
          && d in LogErrors(server, project, b.id, log))
      {
        if d in BuildsErrors(server, project, init) {
          var b, log :| b in init && log in server.getBuildLogs(project, b.id)
            && d in LogErrors(server, project, b.id, log);
          assert b in builds;
        } else {
          assert d in BuildErrorsOf(server, project, last);
          var log :| log in server.getBuildLogs(project, last.id) && d in LogErrors(server, project, last.id, log);
          assert last in builds;
        }
      }
    }
  }

  /** Only the builds of the pull request are scanned: every finding of the service is well
      formed and comes from a log of a build whose `pr.number` is `pullRequestId`; when no
      build matches, there is no finding. */
  lemma FindingsComeFromPullRequestBuilds(server: BuildServer, project: string, pullRequestId: int)
    ensures forall d :: d in BuildErrors(server, project, pullRequestId) ==>
      WellFormed(d) && exists b, log :: (b in server.getBuilds(BuildsQuery(project))
        && IsPullRequestBuild(b, pullRequestId)
        && log in server.getBuildLogs(project, b.id)
        && d in LogErrors(server, project, b.id, log))
    ensures MatchingBuilds(server, project, pullRequestId) == [] ==> BuildErrors(server, project, pullRequestId) == []
  {
    var builds := server.getBuilds(BuildsQuery(project));
    BuildsErrorsOrigin(server, project, MatchingBuilds(server, project, pullRequestId));
    PullRequestBuildsMembers(builds, pullRequestId);
  }

  /** A request for a log list or for log lines names one of the builds, in the service's
      project; line requests always ask for lines 0 to 1000. */
  predicate RequestFor(c: ServiceCall, project: string, builds: seq<Build>) {
    match c
    case GetBuildsCall(_) => false
    case GetBuildLogsCall(p, buildId) => p == project && exists b :: b in builds && b.id == buildId
    case GetBuildLogLinesCall(q) =>
      q.project == project && q.startLine == 0 && q.endLine == 1000
      && exists b :: b in builds && b.id == q.buildId
  }

  lemma {:induction false} BuildsCallsFor(server: BuildServer, project: string, builds: seq<Build>)
    ensures forall c :: c in BuildsCalls(server, project, builds) ==> RequestFor(c, project, builds)
  {
    if builds != [] {
      var init, last := builds[..|builds| - 1], builds[|builds| - 1];
      BuildsCallsFor(server, project, init);
      LogsCallsFor(project, last.id, server.getBuildLogs(project, last.id));
      forall c | c in BuildsCalls(server, project, builds) ensures RequestFor(c, project, builds) {
        if c in BuildsCalls(server, project, init) {
          assert RequestFor(c, project, init);
        } else {
          assert last in builds;
        }
      }
    }
  }

  lemma {:induction false} LogsCallsFor(project: string, buildId: int, logs: seq<BuildLog>)
    ensures forall c :: c in LogsCalls(project, buildId, logs) ==>
      c.GetBuildLogLinesCall? && c.linesQuery.project == project && c.linesQuery.buildId == buildId
      && c.linesQuery.startLine == 0 && c.linesQuery.endLine == 1000
  {
    if logs != [] {
      LogsCallsFor(project, buildId, logs[..|logs| - 1]);
    }
  }

  /** The first request is the build query and every later one is for a build of the pull
      request: when no build matches, the build query is the only request and no log is
      fetched. */
  lemma LogsFetchedOnlyForPullRequestBuilds(server: BuildServer, project: string, pullRequestId: int)
    ensures var calls := ServiceCalls(server, project, pullRequestId);
      && calls[0] == GetBuildsCall(BuildsQuery(project))
      && forall c :: c in calls[1..] ==> RequestFor(c, project, MatchingBuilds(server, project, pullRequestId))
    ensures MatchingBuilds(server, project, pullRequestId) == []
      ==> ServiceCalls(server, project, pullRequestId) == [GetBuildsCall(BuildsQuery(project))]
  {
    var calls := ServiceCalls(server, project, pullRequestId);
    BuildsCallsFor(server, project, MatchingBuilds(server, project, pullRequestId));
    assert calls[1..] == BuildsCalls(server, project, MatchingBuilds(server, project, pullRequestId));
  }

  /** One more log: its findings and its line request come after those of the logs before it. */
  lemma LogsStep(server: BuildServer, project: string, buildId: int, logs: seq<BuildLog>, l: nat)
    requires l < |logs|
    ensures LogsErrors(server, project, buildId, logs[..l + 1])
      == LogsErrors(server, project, buildId, logs[..l]) + LogErrors(server, project, buildId, logs[l])
    ensures LogsCalls(project, buildId, logs[..l + 1])
      == LogsCalls(project, buildId, logs[..l]) + [GetBuildLogLinesCall(LinesQuery(project, buildId, logs[l].id))]
  {
    assert logs[..l + 1][..l] == logs[..l];
  }

  /** One more build: its findings and requests come after those of the builds before it. */
  lemma BuildsStep(server: BuildServer, project: string, builds: seq<Build>, k: nat)
    requires k < |builds|
    ensures BuildsErrors(server, project, builds[..k + 1])
      == BuildsErrors(server, project, builds[..k]) + BuildErrorsOf(server, project, builds[k])
    ensures BuildsCalls(server, project, builds[..k + 1])
      == BuildsCalls(server, project, builds[..k]) + BuildCalls(server, project, builds[k])
  {
    assert builds[..k + 1][..k] == builds[..k];
  }

  // ---------------------------------------------------------------------------
  // The service method
  // ---------------------------------------------------------------------------

  /** The body of the loop over the kept builds: the build's log list, then, log after log,
      the lines of the log scanned by `ScanLog`. */
  method ScanBuild(server: BuildServer, project: string, build: Build)
    returns (errorDetails: seq<BuildErrorDetail>, calls: seq<ServiceCall>)
    ensures errorDetails == BuildErrorsOf(server, project, build)
    ensures calls == BuildCalls(server, project, build)
  {
    var logs := server.getBuildLogs(project, build.id);
    calls := [GetBuildLogsCall(project, build.id)];
    errorDetails := [];
    for l := 0 to |logs|
      invariant errorDetails == LogsErrors(server, project, build.id, logs[..l])
      invariant calls == [GetBuildLogsCall(project, build.id)] + LogsCalls(project, build.id, logs[..l])
    {
      var log := logs[l];
      var linesQuery := LinesQuery(project, build.id, log.id);
      var lines := server.getBuildLogLines(linesQuery);
      calls := calls + [GetBuildLogLinesCall(linesQuery)];
      var found := ScanLog(lines);
      LogsStep(server, project, build.id, logs, l);
      errorDetails := errorDetails + found;
    }
    assert logs[..|logs|] == logs;
  }

  /** `GetBuildErrorsAsync`: refuses a missing or blank access token before sending any
      request; otherwise asks for the latest completed pull-request build, keeps the builds
      of `pullRequestId`, and appends the findings of every log of every kept build. */
  method GetBuildErrors(config: Configuration, server: BuildServer, project: string, pullRequestId: int)
    returns (r: Result<seq<BuildErrorDetail>, Error>, calls: seq<ServiceCall>)
    ensures r.Failure? <==> IsNullOrWhiteSpace(Lookup(config, PatKey))
    ensures r.Failure? ==> r.error == InvalidOperation(PatMissingMessage) && calls == []
    ensures r.Success? ==> r.value == BuildErrors(server, project, pullRequestId)
    ensures r.Success? ==> calls == ServiceCalls(server, project, pullRequestId)
  {
    var pat := RequirePat(config);
    if pat.Failure? {
      return Failure(pat.error), [];
    }
    var query := BuildsQuery(project);
    var builds := server.getBuilds(query);
    calls := [GetBuildsCall(query)];
    var pullRequestBuilds := PullRequestBuilds(builds, pullRequestId);
    var errorDetails: seq<BuildErrorDetail> := [];
    for k := 0 to |pullRequestBuilds|
      invariant errorDetails == BuildsErrors(server, project, pullRequestBuilds[..k])
      invariant calls == [GetBuildsCall(query)] + BuildsCalls(server, project, pullRequestBuilds[..k])
    {
      var found, buildCalls := ScanBuild(server, project, pullRequestBuilds[k]);
      BuildsStep(server, project, pullRequestBuilds, k);
      errorDetails := errorDetails + found;
      calls := calls + buildCalls;
    }
    assert pullRequestBuilds[..|pullRequestBuilds|] == pullRequestBuilds;
    return Success(errorDetails), calls;
  }
}
