/** `AdoSdkPullRequestService`: the pull-request listing for a branch and the comment
    listing for a pull request. Both run the access-token guard, send one request to the
    Git client and map its answer; the Git client is a `GitServer` value whose two members
    answer the two requests. */
module PullRequestService {
  import opened Wrappers
  import opened Text
  import opened ConfigValidator

  // ---------------------------------------------------------------------------
  // The Git client's objects
  // ---------------------------------------------------------------------------

  /** A `DateTime`, only ever copied: its tick count. */
  datatype DateTime = DateTime(ticks: int)

  /** The client library's `PullRequestStatus`. */
  datatype PullRequestStatus = NotSet | Active | Abandoned | Completed | All

  /** An `IdentityRef`: a user whose display name may be null. */
  datatype IdentityRef = IdentityRef(displayName: Option<string>)

  /** A `GitPullRequest` as the client returns it; reference-typed members may be null. */
  datatype GitPullRequest = GitPullRequest(
    pullRequestId: int,
    title: Option<string>,
    createdBy: Option<IdentityRef>,
    sourceRefName: Option<string>,
    targetRefName: Option<string>,
    status: PullRequestStatus,
    creationDate: DateTime)

  /** The members of `GitPullRequestSearchCriteria` the service sets (unset ones are null). */
  datatype SearchCriteria = SearchCriteria(status: Option<PullRequestStatus>, sourceRefName: Option<string>)

  /** The arguments of `GetPullRequestsAsync`. */
  datatype PullRequestQuery = PullRequestQuery(project: string, repositoryId: string, searchCriteria: SearchCriteria, top: int)

  /** The arguments of `GetThreadsAsync`. */
  datatype ThreadQuery = ThreadQuery(project: string, repositoryId: string, pullRequestId: int)

  /** A comment of a thread: its content and its author may be null. */
  datatype Comment = Comment(id: int, content: Option<string>, author: Option<IdentityRef>, publishedDate: DateTime)

  /** A comment thread: its comment list may be null, and so may its property collection,
      of which only the keys matter here. */
  datatype CommentThread = CommentThread(comments: Option<seq<Comment>>, properties: Option<set<string>>)

  /** What the Git client answers to `GetPullRequestsAsync` and `GetThreadsAsync`. */
  datatype GitServer = GitServer(
    getPullRequests: PullRequestQuery -> seq<GitPullRequest>,
    getThreads: ThreadQuery -> seq<CommentThread>)

  /** The service's `PullRequest` record. */
  datatype PullRequest = PullRequest(
    id: int,
    title: string,
    createdBy: string,
    sourceBranch: string,
    targetBranch: string,
    status: string,
    createdDate: DateTime)

  /** The service's `PullRequestComment` record. */
  datatype PullRequestComment = PullRequestComment(
    id: int,
    content: string,
    author: string,
    createdDate: DateTime,
    commentType: string)

  // ---------------------------------------------------------------------------
  // Listing the pull requests of a branch
  // ---------------------------------------------------------------------------

  const RefsHeads: string := "refs/heads/"
  const MaxPullRequests: int := 100

  /** The full name of the branch `branch`. */
  function BranchRef(branch: string): (r: string)
    ensures StartsWith(r, RefsHeads) && |r| == |RefsHeads| + |branch|
    ensures r[|RefsHeads|..] == branch
  {
    RefsHeads + branch
  }

  /** The branch a full `refs/heads/` name stands for, if it is one. */
  function BranchOfRef(ref: string): (b: Option<string>)
    ensures b.Some? <==> StartsWith(ref, RefsHeads)
  {
    if StartsWith(ref, RefsHeads) then Some(ref[|RefsHeads|..]) else None
  }

  /** `BranchRef` and `BranchOfRef` are inverse: every branch name is recovered from its
      ref, and every `refs/heads/` ref is the ref of the branch it names. */
  lemma BranchRefRoundTrip(branch: string, ref: string)
    ensures BranchOfRef(BranchRef(branch)) == Some(branch)
    ensures BranchOfRef(ref) == Some(branch) ==> BranchRef(branch) == ref
  {
    assert BranchRef(branch)[|RefsHeads|..] == branch;
  }

  /** The one pull-request query: active pull requests whose source is `branch`, at most 100. */
  function PullRequestsQuery(project: string, repository: string, branch: string): (q: PullRequestQuery)
    ensures q.project == project && q.repositoryId == repository
    ensures q.searchCriteria.status == Some(Active)
    ensures q.searchCriteria.sourceRefName.Some?
      && BranchOfRef(q.searchCriteria.sourceRefName.value) == Some(branch)
    ensures q.top == MaxPullRequests
  {
    BranchRefRoundTrip(branch, BranchRef(branch));
    PullRequestQuery(project, repository, SearchCriteria(Some(Active), Some(BranchRef(branch))), MaxPullRequests)
  }

  /** `PullRequestStatus.ToString()`. */
  function StatusName(s: PullRequestStatus): string {
    match s
    case NotSet => "NotSet"
    case Active => "Active"
    case Abandoned => "Abandoned"
    case Completed => "Completed"
    case All => "All"
  }

  /** Distinct statuses have distinct names, so the status survives the projection. */
  lemma StatusNameInjective(s: PullRequestStatus, t: PullRequestStatus)
    ensures StatusName(s) == StatusName(t) ==> s == t
  {
    if s != t {
      assert StatusName(s)[0] != StatusName(t)[0] || StatusName(s)[1] != StatusName(t)[1];
    }
  }

  /** `identity?.DisplayName ?? fallback`. */
  function DisplayNameOr(identity: Option<IdentityRef>, fallback: string): (name: string)
    ensures identity.Some? && identity.value.displayName.Some? ==> name == identity.value.displayName.value
    ensures !(identity.Some? && identity.value.displayName.Some?) ==> name == fallback
  {
    match identity
    case Some(IdentityRef(Some(name))) => name
    case _ => fallback
  }

  /** One pull request as the service returns it: a null title, creator name or ref name
      reads as the empty string; id, status and creation date carry over. */
  function ProjectPullRequest(pr: GitPullRequest): (r: PullRequest)
    ensures r.id == pr.pullRequestId && r.createdDate == pr.creationDate
    ensures r.title == pr.title.GetOr("")
    ensures r.createdBy == DisplayNameOr(pr.createdBy, "")
    ensures r.sourceBranch == pr.sourceRefName.GetOr("") && r.targetBranch == pr.targetRefName.GetOr("")
    ensures r.status == StatusName(pr.status)
  {
    PullRequest(
      pr.pullRequestId,
      pr.title.GetOr(""),
      DisplayNameOr(pr.createdBy, ""),
      pr.sourceRefName.GetOr(""),
      pr.targetRefName.GetOr(""),
      StatusName(pr.status),
      pr.creationDate)
  }

  /** The `Select` over the returned pull requests: one record per pull request, in order. */
  function ProjectPullRequests(prs: seq<GitPullRequest>): (r: seq<PullRequest>)
    ensures |r| == |prs|
    ensures forall i :: 0 <= i < |prs| ==> r[i] == ProjectPullRequest(prs[i])
  {
    if prs == [] then [] else [ProjectPullRequest(prs[0])] + ProjectPullRequests(prs[1..])
  }

  /** `GetPullRequestsAsync`: refuses a missing or blank access token; otherwise projects
      the answer to the pull-request query for `branch`. */
  function GetPullRequests(config: Configuration, server: GitServer, project: string, repository: string, branch: string)
    : (r: Result<seq<PullRequest>, Error>)
    ensures r.Failure? <==> IsNullOrWhiteSpace(Lookup(config, PatKey))
    ensures r.Failure? ==> r.error == InvalidOperation(PatMissingMessage)
    ensures r.Success? ==> r.value == ProjectPullRequests(server.getPullRequests(PullRequestsQuery(project, repository, branch)))
  {
    var _ :- RequirePat(config);
    Success(ProjectPullRequests(server.getPullRequests(PullRequestsQuery(project, repository, branch))))
  }

  /** The projection is the identity on everything the record keeps: a pull request whose
      members are all present comes back with those very values. */
  lemma ProjectionKeepsPresentValues(pr: GitPullRequest)
    requires pr.title.Some? && pr.sourceRefName.Some? && pr.targetRefName.Some?
    requires pr.createdBy.Some? && pr.createdBy.value.displayName.Some?
    ensures ProjectPullRequest(pr) == PullRequest(
      pr.pullRequestId, pr.title.value, pr.createdBy.value.displayName.value,
      pr.sourceRefName.value, pr.targetRefName.value, StatusName(pr.status), pr.creationDate)
  {
  }

  /** Projecting a concatenation concatenates the projections. */
  lemma {:induction false} ProjectPullRequestsAppend(xs: seq<GitPullRequest>, ys: seq<GitPullRequest>)
    ensures ProjectPullRequests(xs + ys) == ProjectPullRequests(xs) + ProjectPullRequests(ys)
  {
    var l, r := ProjectPullRequests(xs + ys), ProjectPullRequests(xs) + ProjectPullRequests(ys);
    assert |l| == |r|;
    forall i | 0 <= i < |l| ensures l[i] == r[i] {
      if i < |xs| {
        assert (xs + ys)[i] == xs[i];
      } else {
        assert (xs + ys)[i] == ys[i - |xs|];
      }
    }
  }

  /** Without a usable access token the service fails the same way whatever the server
      holds: no request is sent. */
  lemma PatGuardPrecedesRequests(config: Configuration, s1: GitServer, s2: GitServer, project: string, repository: string, branch: string, pullRequestId: int)
    requires IsNullOrWhiteSpace(Lookup(config, PatKey))
    ensures GetPullRequests(config, s1, project, repository, branch) == GetPullRequests(config, s2, project, repository, branch)
    ensures GetPullRequestComments(config, s1, project, repository, pullRequestId)
      == GetPullRequestComments(config, s2, project, repository, pullRequestId)
  {
  }

  // ---------------------------------------------------------------------------
  // Listing the comments of a pull request
  // ---------------------------------------------------------------------------

  const SupportsMarkdownKey: string := "Microsoft.TeamFoundation.Discussion.SupportsMarkdown"
  const UnknownAuthor: string := "Unknown"

  /** A thread's comments are markdown when its properties hold the markdown key. */
  function CommentType(thread: CommentThread): (t: string)
    ensures t == "markdown" <==> thread.properties.Some? && SupportsMarkdownKey in thread.properties.value
    ensures t == "markdown" || t == "text"
  {
    if thread.properties.Some? && SupportsMarkdownKey in thread.properties.value then "markdown" else "text"
  }

  /** A comment is kept when its content is neither null nor blank: when it has content
      holding a character that is not white space. */
  predicate IsKept(c: Comment)
    ensures IsKept(c) <==> c.content.Some? && exists k :: 0 <= k < |c.content.value| && !IsWhiteSpace(c.content.value[k])
  {
    !IsNullOrWhiteSpace(c.content)
  }

  /** A kept comment as the service returns it. */
  function ToPullRequestComment(thread: CommentThread, c: Comment): (r: PullRequestComment)
    requires IsKept(c)
    ensures r.id == c.id && Some(r.content) == c.content && r.createdDate == c.publishedDate
    ensures r.author == DisplayNameOr(c.author, UnknownAuthor)
    ensures r.commentType == CommentType(thread)
  {
    PullRequestComment(c.id, c.content.value, DisplayNameOr(c.author, UnknownAuthor), c.publishedDate, CommentType(thread))
  }

  /** The `Where` and `Select` over the comments `cs` of `thread`. */
  function KeptComments(thread: CommentThread, cs: seq<Comment>): (r: seq<PullRequestComment>)
    ensures |r| <= |cs|
  {
    if cs == [] then []
    else if IsKept(cs[0]) then [ToPullRequestComment(thread, cs[0])] + KeptComments(thread, cs[1..])
    else KeptComments(thread, cs[1..])
  }

  /** The comments one thread contributes: none when its comment list is null. */
  function ThreadComments(thread: CommentThread): (r: seq<PullRequestComment>)
    ensures thread.comments.None? ==> r == []
  {
    if thread.comments.None? then [] else KeptComments(thread, thread.comments.value)
  }

  /** The `SelectMany` over the threads, in thread order: never more output comments than
      comments in the threads. */
  function FlattenComments(threads: seq<CommentThread>): (r: seq<PullRequestComment>)
    ensures |r| <= TotalComments(threads)
  {
    if threads == [] then [] else ThreadComments(threads[0]) + FlattenComments(threads[1..])
  }

  /** The number of comments in the threads, null lists counting as empty. */
  function TotalComments(threads: seq<CommentThread>): nat {
    if threads == [] then 0
    else (if threads[0].comments.Some? then |threads[0].comments.value| else 0) + TotalComments(threads[1..])
  }

  /** `GetPullRequestCommentsAsync`: refuses a missing or blank access token; otherwise
      flattens the answer to the thread query. */
  function GetPullRequestComments(config: Configuration, server: GitServer, project: string, repository: string, pullRequestId: int)
    : (r: Result<seq<PullRequestComment>, Error>)
    ensures r.Failure? <==> IsNullOrWhiteSpace(Lookup(config, PatKey))
    ensures r.Failure? ==> r.error == InvalidOperation(PatMissingMessage)
    ensures r.Success? ==> r.value == FlattenComments(server.getThreads(ThreadQuery(project, repository, pullRequestId)))
  {
    var _ :- RequirePat(config);
    Success(FlattenComments(server.getThreads(ThreadQuery(project, repository, pullRequestId))))
  }

  /** A comment of the thread's output is exactly the image of a kept comment of the thread. */
  lemma {:induction false} KeptCommentsMembers(thread: CommentThread, cs: seq<Comment>)
    ensures forall d :: (d in KeptComments(thread, cs)
      <==> exists c :: c in cs && IsKept(c) && d == ToPullRequestComment(thread, c))
  {
    if cs != [] {
      KeptCommentsMembers(thread, cs[1..]);
      assert cs == [cs[0]] + cs[1..];
      forall d | exists c :: c in cs && IsKept(c) && d == ToPullRequestComment(thread, c)
        ensures d in KeptComments(thread, cs)
      {
        var c :| c in cs && IsKept(c) && d == ToPullRequestComment(thread, c);
        if c != cs[0] {
          assert c in cs[1..];
        }
      }
    }
  }

  /** Filtering and mapping a concatenation of comments concatenates the results: comments
      keep their order within a thread. */
  lemma {:induction false} KeptCommentsAppend(thread: CommentThread, xs: seq<Comment>, ys: seq<Comment>)
    ensures KeptComments(thread, xs + ys) == KeptComments(thread, xs) + KeptComments(thread, ys)
  {
    if xs == [] {
      assert xs + ys == ys;
    } else {
      assert (xs + ys)[1..] == xs[1..] + ys;
      KeptCommentsAppend(thread, xs[1..], ys);
    }
  }

  /** Threads keep their order: flattening a concatenation of threads concatenates the results. */
  lemma {:induction false} FlattenCommentsAppend(xs: seq<CommentThread>, ys: seq<CommentThread>)
    ensures FlattenComments(xs + ys) == FlattenComments(xs) + FlattenComments(ys)
  {
    if xs == [] {
      assert xs + ys == ys;
    } else {
      assert (xs + ys)[1..] == xs[1..] + ys;
      FlattenCommentsAppend(xs[1..], ys);
    }
  }

  /** An output comment is exactly the image of a kept comment of some thread whose
      comment list is not null; so its content is never blank, and its type is that of its
      thread. */
  lemma {:induction false} FlattenCommentsMembers(threads: seq<CommentThread>)
    ensures forall d :: (d in FlattenComments(threads)
      <==> exists t, c :: (t in threads && t.comments.Some? && c in t.comments.value && IsKept(c)
        && d == ToPullRequestComment(t, c)))
  {
    if threads != [] {
      var t0 := threads[0];
      FlattenCommentsMembers(threads[1..]);
      if t0.comments.Some? {
        KeptCommentsMembers(t0, t0.comments.value);
      }
      forall d | d in FlattenComments(threads)
        ensures exists t, c :: (t in threads && t.comments.Some? && c in t.comments.value && IsKept(c)
          && d == ToPullRequestComment(t, c))
      {
        if d in ThreadComments(t0) {
          var c :| c in t0.comments.value && IsKept(c) && d == ToPullRequestComment(t0, c);
        } else {
          assert d in FlattenComments(threads[1..]);
          var t, c :| t in threads[1..] && t.comments.Some? && c in t.comments.value && IsKept(c)
            && d == ToPullRequestComment(t, c);
          assert t in threads;
        }
      }
      forall d | exists t, c :: (t in threads && t.comments.Some? && c in t.comments.value && IsKept(c)
          && d == ToPullRequestComment(t, c))
        ensures d in FlattenComments(threads)
      {
        var t, c :| t in threads && t.comments.Some? && c in t.comments.value && IsKept(c)
          && d == ToPullRequestComment(t, c);
        if t == t0 {
          assert d in ThreadComments(t0);
        } else {
          assert t in threads[1..];
        }
      }
    }
  }

  /** Every output comment has non-blank content and a type of "markdown" or "text". */
  lemma OutputCommentsAreNonBlank(threads: seq<CommentThread>)
    ensures forall d :: d in FlattenComments(threads) ==>
      !IsWhiteSpaceOnly(d.content) && (d.commentType == "markdown" || d.commentType == "text")
  {
    FlattenCommentsMembers(threads);
  }

  /** All the comments of one thread get the same type. */
  lemma {:induction false} ThreadCommentsShareType(thread: CommentThread)
    ensures forall d :: d in ThreadComments(thread) ==> d.commentType == CommentType(thread)
  {
    if thread.comments.Some? {
      KeptCommentsMembers(thread, thread.comments.value);
    }
  }

  /** A thread with one blank and one signed comment, without the markdown property:
      the blank comment is dropped and the other is a "text" comment. */
  lemma BlankCommentDropped(d: DateTime, who: string)
    ensures var blank := Comment(1, Some(" "), None, d);
      var signed := Comment(2, Some("fine"), Some(IdentityRef(Some(who))), d);
      var anonymous := Comment(3, Some("ok"), None, d);
      FlattenComments([CommentThread(Some([blank, signed, anonymous]), None), CommentThread(None, Some({}))])
        == [PullRequestComment(2, "fine", who, d, "text"), PullRequestComment(3, "ok", UnknownAuthor, d, "text")]
  {
    var blank := Comment(1, Some(" "), None, d);
    var signed := Comment(2, Some("fine"), Some(IdentityRef(Some(who))), d);
    var anonymous := Comment(3, Some("ok"), None, d);
    var t := CommentThread(Some([blank, signed, anonymous]), None);
    assert !IsKept(blank);
    assert IsKept(signed) by { assert !IsWhiteSpace("fine"[0]); }
    assert IsKept(anonymous) by { assert !IsWhiteSpace("ok"[0]); }
    assert [blank, signed, anonymous][1..] == [signed, anonymous];
    assert [signed, anonymous][1..] == [anonymous];
    assert KeptComments(t, [anonymous]) == [ToPullRequestComment(t, anonymous)];
    assert KeptComments(t, [signed, anonymous]) == [ToPullRequestComment(t, signed), ToPullRequestComment(t, anonymous)];
    assert ThreadComments(t) == [PullRequestComment(2, "fine", who, d, "text"), PullRequestComment(3, "ok", UnknownAuthor, d, "text")];
    var threads := [t, CommentThread(None, Some({}))];
    assert FlattenComments(threads[1..]) == [];
  }
}
