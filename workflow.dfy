/**
 * One issue, from its body to a pull request on the target repository:
 * `processIssue`. The specification `Process` gives the calls the action
 * makes and how the issue ends; `ProcessIssue` is the step-by-step version
 * with the locals the action reassigns, proved to agree with it.
 */
module Workflow {
  import opened Optional
  import opened Strings
  import opened SlugParser
  import opened Funding
  import opened Platform

  datatype SkipReason = NoRepository | KeyPresent

  /** How an issue ends: returned early without writing anything, finished
      (with the URL announced in the issue comment, if one was posted), or
      failed with the error that escaped. */
  datatype Outcome = Skipped(reason: SkipReason) | Done(announced: Option<string>) | Failed(fault: Fault)

  /** The calls made for one issue, in order, and how it ended. */
  datatype Step = Step(calls: seq<Call>, outcome: Outcome)

  const NullBody := TypeError("Cannot read properties of null (reading 'match')")
  const NoHome := TypeError("Cannot read properties of undefined (reading 'owner')")

  /** The funding file as the action keeps it: `content` and `sha` are ""
      where the action leaves them null (it only tests them for truth). */
  datatype FundingState = FundingState(content: string, sha: string)

  /** Reading the funding file: a 404 means absent, any other error is
      fatal (None), and a reply whose raw content is empty also leaves both
      content and sha unset. */
  function ReadFunding(r: Reply<FileData>): (f: Option<FundingState>)
    ensures f.None? <==> r.Err? && r.status != 404
    ensures r.Ok? && r.value.content == "" ==> f == Some(FundingState("", ""))
    ensures r.Err? && r.status == 404 ==> f == Some(FundingState("", ""))
    ensures f.Some? && f.value.sha != "" ==> r.Ok? && r.value.content != "" && f.value.sha == r.value.sha
    ensures f.Some? && f.value.content != "" ==> r.Ok? && r.value.content != "" && f.value.content == r.value.text
    ensures r.Ok? && r.value.content != "" ==> f == Some(FundingState(r.value.text, r.value.sha))
  {
    match r
    case Err(status, _) => if status == 404 then Some(FundingState("", "")) else None
    case Ok(data) => if data.content != "" then Some(FundingState(data.text, data.sha)) else Some(FundingState("", ""))
  }

  /** The catch around the pull request and the comment. */
  function Caught(status: int, message: string): (o: Outcome)
    ensures o == Done(None) <==> status == 422 && Contains(message, PullExistsPhrase)
    ensures o != Done(None) ==> o == Failed(Http(status, message))
  {
    if status == 422 && Contains(message, PullExistsPhrase) then Done(None) else Failed(Http(status, message))
  }

  function Then(pre: seq<Call>, step: Step): Step {
    Step(pre + step.calls, step.outcome)
  }

  function ReadCall(t: Slug): Call {
    GetContent(t.owner, t.repo, FundingPath)
  }

  function Sha(fundingSha: string): Option<string> {
    if fundingSha != "" then Some(fundingSha) else None
  }

  /** `processIssue`: parse the body, read the funding file, merge, then
      publish. Nothing is called when the body names no repository. */
  function Process(srv: Server, h: History, issue: Issue): (st: Step)
    ensures |st.calls| <= 7
    ensures st.calls == [] <==> issue.body.None? || Find(issue.body.value).None?
    ensures st.outcome.Skipped? && st.calls != [] ==> st.outcome == Skipped(KeyPresent) && |st.calls| == 1
  {
    match issue.body
    case None => Step([], Failed(NullBody))
    case Some(body) =>
      var found := Find(body);
      if found.None? then Step([], Skipped(NoRepository))
      else Fetch(srv, h, issue, Target(found.value))
  }

  /** The read and the merge: a file already holding the key is the one
      reason to stop after the read alone. */
  function Fetch(srv: Server, h: History, issue: Issue, t: Slug): (st: Step)
    ensures 1 <= |st.calls| <= 7 && st.calls[0] == ReadCall(t)
    ensures st.outcome.Skipped? ==> st == Step([ReadCall(t)], Skipped(KeyPresent))
    ensures st.outcome.Done? ==> |st.calls| >= 5
  {
    var read := ReadCall(t);
    var reply := srv.getContent(h, read);
    match ReadFunding(reply)
    case None => Step([read], Failed(Http(reply.status, reply.message)))
    case Some(funding) =>
      match Merged(funding.content, issue.url)
      case AlreadyListed => Step([read], Skipped(KeyPresent))
      case Write(text) => Then([read], Publish(srv, h + [read], issue, t, funding.sha, text))
  }

  /** Default branch, its tip, and the issue's branch (created, or reused
      when it exists). */
  function Publish(srv: Server, h: History, issue: Issue, t: Slug, sha: string, text: string): (st: Step)
    ensures 1 <= |st.calls| <= 6 && st.calls[0] == GetRepo(t.owner, t.repo)
    ensures !st.outcome.Skipped?
    ensures st.outcome.Done? ==> |st.calls| >= 4
  {
    var repoCall := GetRepo(t.owner, t.repo);
    match srv.getRepo(h, repoCall)
    case Err(s, m) => Step([repoCall], Failed(Http(s, m)))
    case Ok(base) =>
      var h1 := h + [repoCall];
      var refCall := GetRef(t.owner, t.repo, "heads/" + base);
      match srv.getRef(h1, refCall)
      case Err(s, m) => Step([repoCall, refCall], Failed(Http(s, m)))
      case Ok(tip) =>
        var h2 := h1 + [refCall];
        var branchCall := CreateRef(t.owner, t.repo, "refs/heads/" + BranchName(issue.number), tip);
        var pre := [repoCall, refCall, branchCall];
        match srv.createRef(h2, branchCall)
        case Err(s, m) =>
          if s == 422 then Then(pre, Submit(srv, h2 + [branchCall], issue, t, base, sha, text))
          else Step(pre, Failed(Http(s, m)))
        case Ok(_) => Then(pre, Submit(srv, h2 + [branchCall], issue, t, base, sha, text))
  }

  /** Write the file on the branch, open the pull request, comment on the
      issue. */
  function Submit(srv: Server, h: History, issue: Issue, t: Slug, base: string, sha: string, text: string): (st: Step)
    ensures 1 <= |st.calls| <= 3 && st.calls[0].PutFile?
    ensures !st.outcome.Skipped?
    ensures st.outcome.Done? && st.outcome.announced.Some? ==> |st.calls| == 3
  {
    var branch := BranchName(issue.number);
    var putCall := PutFile(t.owner, t.repo, FundingPath, CommitMessage(sha, issue.url), text, branch, Sha(sha));
    match srv.putFile(h, putCall)
    case Err(s, m) => Step([putCall], Failed(Http(s, m)))
    case Ok(_) =>
      var h1 := h + [putCall];
      var pullCall := CreatePull(t.owner, t.repo, PullTitle(sha), branch, base, PullBody(issue.url));
      match srv.createPull(h1, pullCall)
      case Err(s, m) => Step([putCall, pullCall], Caught(s, m))
      case Ok(pr) =>
        match issue.home
        case None => Step([putCall, pullCall], Failed(NoHome))
        case Some(home) =>
          var noteCall := CreateComment(home.owner, home.name, issue.number, CommentBodyAsWritten(pr.url));
          match srv.createComment(h1 + [pullCall], noteCall)
          case Err(s, m) => Step([putCall, pullCall, noteCall], Caught(s, m))
          case Ok(_) => Step([putCall, pullCall, noteCall], Done(Some(pr.url)))
  }

  lemma ThenThen(a: seq<Call>, b: seq<Call>, step: Step)
    ensures Then(a, Then(b, step)) == Then(a + b, step)
  {
    assert a + (b + step.calls) == (a + b) + step.calls;
  }

  /** `processIssue` step by step: `fundingContent`, `fundingSha` and
      `newContent` are assigned as the action assigns them, and each request
      is appended to `calls` as it is made. */
  method ProcessIssue(srv: Server, h: History, issue: Issue) returns (calls: seq<Call>, outcome: Outcome)
    ensures Step(calls, outcome) == Process(srv, h, issue)
  {
    calls := [];
    if issue.body.None? {
      outcome := Failed(NullBody);
      return;
    }
    var found := Find(issue.body.value);
    if found.None? {
      outcome := Skipped(NoRepository);
      return;
    }
    var target := Target(found.value);
    calls, outcome := FetchFunding(srv, h, issue, target);
  }

  /** The read of the funding file and the merge, then the rest. */
  method FetchFunding(srv: Server, h: History, issue: Issue, target: Slug) returns (calls: seq<Call>, outcome: Outcome)
    ensures Step(calls, outcome) == Fetch(srv, h, issue, target)
  {
    var fundingContent, fundingSha := "", "";
    var read := GetContent(target.owner, target.repo, FundingPath);
    var readReply := srv.getContent(h, read);
    calls := [read];
    if readReply.Ok? {
      if readReply.value.content != "" {
        fundingContent, fundingSha := readReply.value.text, readReply.value.sha;
      }
    } else if readReply.status != 404 {
      outcome := Failed(Http(readReply.status, readReply.message));
      return;
    }
    assert ReadFunding(readReply) == Some(FundingState(fundingContent, fundingSha));

    var line := WishlistLine(issue.url);
    var newContent: string;
    if fundingContent != "" {
      if Contains(fundingContent, Key) {
        outcome := Skipped(KeyPresent);
        return;
      }
      newContent := Trim(fundingContent) + "\n" + line + "\n";
    } else {
      newContent := line + "\n";
    }
    assert Merged(fundingContent, issue.url) == Write(newContent);

    var more;
    more, outcome := PublishChange(srv, h + calls, issue, target, fundingSha, newContent);
    calls := calls + more;
  }

  /** The default branch, its tip, and the branch for the issue (created,
      or reused on 422), then the write and the pull request. */
  method PublishChange(srv: Server, h: History, issue: Issue, target: Slug, fundingSha: string, newContent: string)
    returns (calls: seq<Call>, outcome: Outcome)
    ensures Step(calls, outcome) == Publish(srv, h, issue, target, fundingSha, newContent)
  {
    var owner, repo := target.owner, target.repo;
    var log := h;
    var repoCall := GetRepo(owner, repo);
    var repoReply := srv.getRepo(log, repoCall);
    calls, log := [repoCall], log + [repoCall];
    if repoReply.Err? {
      outcome := Failed(Http(repoReply.status, repoReply.message));
      return;
    }
    var defaultBranch := repoReply.value;
    var branchName := BranchName(issue.number);

    var refCall := GetRef(owner, repo, "heads/" + defaultBranch);
    var refReply := srv.getRef(log, refCall);
    calls, log := calls + [refCall], log + [refCall];
    if refReply.Err? {
      outcome := Failed(Http(refReply.status, refReply.message));
      return;
    }
    var branchCall := CreateRef(owner, repo, "refs/heads/" + branchName, refReply.value);
    var branchReply := srv.createRef(log, branchCall);
    calls, log := calls + [branchCall], log + [branchCall];
    if branchReply.Err? && branchReply.status != 422 {
      outcome := Failed(Http(branchReply.status, branchReply.message));
      return;
    }

    assert calls == [repoCall, refCall, branchCall] && log == h + calls;
    var more;
    more, outcome := SubmitChange(srv, log, issue, target, defaultBranch, fundingSha, newContent);
    calls := calls + more;
  }

  /** The write of the funding file on the branch (an update carrying the
      old sha when one is known, a creation otherwise), then the pull
      request and the comment, in one try block. */
  method SubmitChange(srv: Server, h: History, issue: Issue, target: Slug, defaultBranch: string, fundingSha: string, newContent: string)
    returns (calls: seq<Call>, outcome: Outcome)
    ensures Step(calls, outcome) == Submit(srv, h, issue, target, defaultBranch, fundingSha, newContent)
  {
    var owner, repo := target.owner, target.repo;
    var branchName := BranchName(issue.number);
    var log := h;
    var putCall;
    if fundingSha != "" {
      putCall := PutFile(owner, repo, FundingPath, UpdateTitle + " (" + issue.url + ")", newContent, branchName, Some(fundingSha));
    } else {
      putCall := PutFile(owner, repo, FundingPath, CreateTitle + " (" + issue.url + ")", newContent, branchName, None);
    }
    var putReply := srv.putFile(log, putCall);
    calls, log := [putCall], log + [putCall];
    if putReply.Err? {
      outcome := Failed(Http(putReply.status, putReply.message));
      return;
    }

    var prTitle := if fundingSha != "" then UpdateTitle else CreateTitle;
    var pullCall := CreatePull(owner, repo, prTitle, branchName, defaultBranch, PullBody(issue.url));
    var pullReply := srv.createPull(log, pullCall);
    calls, log := calls + [pullCall], log + [pullCall];
    var failure: Option<(int, string)> := None;
    if pullReply.Err? {
      failure := Some((pullReply.status, pullReply.message));
    } else if issue.home.None? {
      outcome := Failed(NoHome);
      return;
    } else {
      var home := issue.home.value;
      var noteCall := CreateComment(home.owner, home.name, issue.number, CommentBodyAsWritten(pullReply.value.url));
      var noteReply := srv.createComment(log, noteCall);
      calls, log := calls + [noteCall], log + [noteCall];
      if noteReply.Err? {
        failure := Some((noteReply.status, noteReply.message));
      } else {
        outcome := Done(Some(pullReply.value.url));
        return;
      }
    }
    var (status, message) := failure.value;
    if status == 422 && Contains(message, PullExistsPhrase) {
      outcome := Done(None);
    } else {
      outcome := Failed(Http(status, message));
    }
  }
}
