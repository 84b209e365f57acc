/**
 * What `processIssue` guarantees, stated over every platform behaviour:
 * which calls it makes and in which order, which errors it carries on from
 * and which end the issue, what it writes, and when it comments.
 */
module WorkflowFacts {
  import opened Optional
  import opened Strings
  import opened SlugParser
  import opened Funding
  import opened Platform
  import opened Workflow

  /** What the last call, made after `h`, and the platform's reply to it
      must have been for the issue to end with `o`; `home` is the issue's
      own repository field, which the comment goes to. */
  predicate LastAccounts(srv: Server, h: History, last: Call, o: Outcome, home: Option<RepoRef>) {
    var e := ErrorOf(srv, h, last);
    match o
    case Skipped(reason) =>
      && reason == KeyPresent && last.GetContent?
      && var r := srv.getContent(h, last);
         r.Ok? && r.value.content != "" && Contains(r.value.text, Key)
    case Done(announced) =>
      if announced.Some? then
        && last.CreateComment? && e.None? && Contains(last.body, announced.value)
        && home.Some? && last.owner == home.value.owner && last.repo == home.value.name
      else
        && (last.CreatePull? || last.CreateComment?)
        && e.Some? && e.value.Http? && Tolerated(last, e.value.status, e.value.message)
    case Failed(f) =>
      if f.Http? then e == Some(f) && !Tolerated(last, f.status, f.message)
      else f == NoHome && last.CreatePull? && e.None? && home.None?
  }

  /** The status-code table agrees with the handlers that apply it: the
      404 branch of the read, and the catch around the pull request and the
      comment. */
  lemma ToleratedByHandlers(c: Call, status: int, message: string)
    ensures c.GetContent? ==> (Tolerated(c, status, message) <==> ReadFunding(Err(status, message)).Some?)
    ensures c.CreatePull? || c.CreateComment? ==>
      (Tolerated(c, status, message) <==> Caught(status, message) == Done(None))
  {
  }

  /** How a run of calls explains its outcome: no call at all only when the
      body is null or names no repository; otherwise every call but the last
      succeeded or got a tolerated error, and the last call accounts for the
      outcome. */
  predicate Explained(srv: Server, h: History, calls: seq<Call>, o: Outcome, home: Option<RepoRef>)
    decreases |calls|
  {
    if calls == [] then o == Skipped(NoRepository) || o == Failed(NullBody)
    else if |calls| == 1 then LastAccounts(srv, h, calls[0], o, home)
    else !Fatal(srv, h, calls[0]) && Explained(srv, h + [calls[0]], calls[1..], o, home)
  }

  lemma ExplainedLast(srv: Server, h: History, c: Call, o: Outcome, home: Option<RepoRef>)
    requires LastAccounts(srv, h, c, o, home)
    ensures Explained(srv, h, [c], o, home)
  {
  }

  lemma ExplainedCons(srv: Server, h: History, c: Call, rest: seq<Call>, o: Outcome, home: Option<RepoRef>)
    requires !Fatal(srv, h, c)
    requires rest != [] && Explained(srv, h + [c], rest, o, home)
    ensures Explained(srv, h, [c] + rest, o, home)
  {
    assert ([c] + rest)[0] == c;
    assert ([c] + rest)[1..] == rest;
  }

  lemma SubmitExplained(srv: Server, h: History, issue: Issue, t: Slug, base: string, sha: string, text: string)
    ensures var st := Submit(srv, h, issue, t, base, sha, text); Explained(srv, h, st.calls, st.outcome, issue.home)
  {
    var st := Submit(srv, h, issue, t, base, sha, text);
    var branch := BranchName(issue.number);
    var putCall := PutFile(t.owner, t.repo, FundingPath, CommitMessage(sha, issue.url), text, branch, Sha(sha));
    var putReply := srv.putFile(h, putCall);
    if putReply.Err? {
      ExplainedLast(srv, h, putCall, st.outcome, issue.home);
      return;
    }
    var h1 := h + [putCall];
    var pullCall := CreatePull(t.owner, t.repo, PullTitle(sha), branch, base, PullBody(issue.url));
    var pullReply := srv.createPull(h1, pullCall);
    if pullReply.Err? || issue.home.None? {
      ExplainedLast(srv, h1, pullCall, st.outcome, issue.home);
      ExplainedCons(srv, h, putCall, [pullCall], st.outcome, issue.home);
      assert st.calls == [putCall] + [pullCall];
      return;
    }
    var home := issue.home.value;
    var noteCall := CreateComment(home.owner, home.name, issue.number, CommentBodyAsWritten(pullReply.value.url));
    ExplainedLast(srv, h1 + [pullCall], noteCall, st.outcome, issue.home);
    ExplainedCons(srv, h1, pullCall, [noteCall], st.outcome, issue.home);
    ExplainedCons(srv, h, putCall, [pullCall] + [noteCall], st.outcome, issue.home);
    assert st.calls == [putCall] + ([pullCall] + [noteCall]);
  }

  lemma PublishExplained(srv: Server, h: History, issue: Issue, t: Slug, sha: string, text: string)
    ensures var st := Publish(srv, h, issue, t, sha, text); Explained(srv, h, st.calls, st.outcome, issue.home)
  {
    var repoCall := GetRepo(t.owner, t.repo);
    var reply := srv.getRepo(h, repoCall);
    if reply.Ok? {
      var refCall := GetRef(t.owner, t.repo, "heads/" + reply.value);
      var refReply := srv.getRef(h + [repoCall], refCall);
      if refReply.Ok? {
        var branchCall := CreateRef(t.owner, t.repo, "refs/heads/" + BranchName(issue.number), refReply.value);
        var branchReply := srv.createRef(h + [repoCall] + [refCall], branchCall);
        if branchReply.Ok? || branchReply.status == 422 {
          PublishExplainedBranched(srv, h, issue, t, sha, text);
          return;
        }
      }
    }
    PublishExplainedEarly(srv, h, issue, t, sha, text);
  }

  /** The branch stage when one of its own three calls ends the issue. */
  lemma PublishExplainedEarly(srv: Server, h: History, issue: Issue, t: Slug, sha: string, text: string)
    requires var st := Publish(srv, h, issue, t, sha, text); |st.calls| <= 3
    ensures var st := Publish(srv, h, issue, t, sha, text); Explained(srv, h, st.calls, st.outcome, issue.home)
  {
    var st := Publish(srv, h, issue, t, sha, text);
    var repoCall := GetRepo(t.owner, t.repo);
    var reply := srv.getRepo(h, repoCall);
    if reply.Err? {
      ExplainedLast(srv, h, repoCall, st.outcome, issue.home);
      return;
    }
    var h1 := h + [repoCall];
    var refCall := GetRef(t.owner, t.repo, "heads/" + reply.value);
    var refReply := srv.getRef(h1, refCall);
    if refReply.Err? {
      ExplainedLast(srv, h1, refCall, st.outcome, issue.home);
      ExplainedCons(srv, h, repoCall, [refCall], st.outcome, issue.home);
      assert st.calls == [repoCall] + [refCall];
      return;
    }
    var h2 := h1 + [refCall];
    var branchCall := CreateRef(t.owner, t.repo, "refs/heads/" + BranchName(issue.number), refReply.value);
    ExplainedLast(srv, h2, branchCall, st.outcome, issue.home);
    ExplainedCons(srv, h1, refCall, [branchCall], st.outcome, issue.home);
    ExplainedCons(srv, h, repoCall, [refCall] + [branchCall], st.outcome, issue.home);
    assert st.calls == [repoCall] + ([refCall] + [branchCall]);
  }

  /** The branch stage when the branch was created or reused. */
  lemma PublishExplainedBranched(srv: Server, h: History, issue: Issue, t: Slug, sha: string, text: string)
    requires var st := Publish(srv, h, issue, t, sha, text); |st.calls| > 3
    ensures var st := Publish(srv, h, issue, t, sha, text); Explained(srv, h, st.calls, st.outcome, issue.home)
  {
    var st := Publish(srv, h, issue, t, sha, text);
    var repoCall := GetRepo(t.owner, t.repo);
    var reply := srv.getRepo(h, repoCall);
    var h1 := h + [repoCall];
    var refCall := GetRef(t.owner, t.repo, "heads/" + reply.value);
    var refReply := srv.getRef(h1, refCall);
    var h2 := h1 + [refCall];
    var branchCall := CreateRef(t.owner, t.repo, "refs/heads/" + BranchName(issue.number), refReply.value);
    var sub := Submit(srv, h2 + [branchCall], issue, t, reply.value, sha, text);
    assert st == Then([repoCall, refCall, branchCall], sub);
    SubmitExplained(srv, h2 + [branchCall], issue, t, reply.value, sha, text);
    assert !Fatal(srv, h, repoCall) && !Fatal(srv, h1, refCall) && !Fatal(srv, h2, branchCall);
    ExplainedAfterThree(srv, h, repoCall, refCall, branchCall, sub.calls, st.outcome, issue.home);
  }

  /** Three calls the issue carried on from, then an explained rest. */
  lemma ExplainedAfterThree(srv: Server, h: History, a: Call, b: Call, c: Call, rest: seq<Call>, o: Outcome, home: Option<RepoRef>)
    requires !Fatal(srv, h, a) && !Fatal(srv, h + [a], b) && !Fatal(srv, h + [a] + [b], c)
    requires rest != [] && Explained(srv, h + [a] + [b] + [c], rest, o, home)
    ensures Explained(srv, h, [a, b, c] + rest, o, home)
  {
    ExplainedCons(srv, h + [a] + [b], c, rest, o, home);
    ExplainedCons(srv, h + [a], b, [c] + rest, o, home);
    ExplainedCons(srv, h, a, [b] + ([c] + rest), o, home);
    assert [a, b, c] + rest == [a] + ([b] + ([c] + rest));
  }

  lemma FetchExplained(srv: Server, h: History, issue: Issue, t: Slug)
    ensures var st := Fetch(srv, h, issue, t); Explained(srv, h, st.calls, st.outcome, issue.home)
  {
    var st := Fetch(srv, h, issue, t);
    var read := ReadCall(t);
    var funding := ReadFunding(srv.getContent(h, read));
    if funding.None? || Merged(funding.value.content, issue.url).AlreadyListed? {
      ExplainedLast(srv, h, read, st.outcome, issue.home);
    } else {
      var m := Merged(funding.value.content, issue.url);
      var rest := Publish(srv, h + [read], issue, t, funding.value.sha, m.text);
      PublishExplained(srv, h + [read], issue, t, funding.value.sha, m.text);
      ExplainedCons(srv, h, read, rest.calls, rest.outcome, issue.home);
    }
  }

  /** The status-code decision table, over the whole issue: every call
      but the last succeeded or got one of the tolerated errors (404 on the
      read, 422 on the branch, an existing pull request), and the issue ends
      only after a fatal error (which becomes its outcome), a file that
      already has the key, a tolerated pull-request conflict, the comment,
      or a missing `repository` field. A 404 on the read and a 422 on the
      branch therefore never end the issue. */
  lemma ProcessExplained(srv: Server, h: History, issue: Issue)
    ensures var st := Process(srv, h, issue); Explained(srv, h, st.calls, st.outcome, issue.home)
  {
    if issue.body.Some? && Find(issue.body.value).Some? {
      FetchExplained(srv, h, issue, Target(Find(issue.body.value).value));
    }
  }

  lemma SubmitShape(srv: Server, h: History, issue: Issue, t: Slug, base: string, sha: string, text: string)
    ensures var st := Submit(srv, h, issue, t, base, sha, text); var c := st.calls;
      && 1 <= |c| <= 3
      && c[0] == PutFile(t.owner, t.repo, FundingPath, CommitMessage(sha, issue.url), text, BranchName(issue.number), Sha(sha))
      && (|c| >= 2 ==> c[1] == CreatePull(t.owner, t.repo, PullTitle(sha), BranchName(issue.number), base, PullBody(issue.url)))
      && (|c| == 3 ==>
            && srv.createPull(h + c[..1], c[1]).Ok?
            && issue.home.Some?
            && c[2] == CreateComment(issue.home.value.owner, issue.home.value.name, issue.number,
                                     CommentBodyAsWritten(srv.createPull(h + c[..1], c[1]).value.url)))
      && (st.outcome.Done? && st.outcome.announced.Some? ==>
            |c| == 3 && st.outcome.announced.value == srv.createPull(h + c[..1], c[1]).value.url)
      && (|c| >= 2 && srv.createPull(h + c[..1], c[1]).Ok? && issue.home.Some? ==> |c| == 3)
  {
    var st := Submit(srv, h, issue, t, base, sha, text);
    if |st.calls| > 1 {
      assert st.calls[..1] == [st.calls[0]];
    }
  }

  /** The first three calls of the branch stage, with the replies they
      depended on. */
  lemma PublishHead(srv: Server, h: History, issue: Issue, t: Slug, sha: string, text: string)
    ensures var c := Publish(srv, h, issue, t, sha, text).calls;
      && 1 <= |c|
      && c[0] == GetRepo(t.owner, t.repo)
      && (|c| >= 2 ==> srv.getRepo(h, c[0]).Ok? && c[1] == GetRef(t.owner, t.repo, "heads/" + srv.getRepo(h, c[0]).value))
      && (|c| >= 3 ==>
            && srv.getRef(h + c[..1], c[1]).Ok?
            && c[2] == CreateRef(t.owner, t.repo, "refs/heads/" + BranchName(issue.number), srv.getRef(h + c[..1], c[1]).value))
  {
    var st := Publish(srv, h, issue, t, sha, text);
    if |st.calls| >= 2 {
      assert st.calls[..1] == [st.calls[0]];
    }
  }

  /** After its first three calls, the branch stage is the submit stage. */
  lemma PublishTail(srv: Server, h: History, issue: Issue, t: Slug, sha: string, text: string)
    ensures var st := Publish(srv, h, issue, t, sha, text); var c := st.calls;
      |c| <= 3 || st == Then(c[..3], Submit(srv, h + c[..3], issue, t, srv.getRepo(h, c[0]).value, sha, text))
  {
    var st := Publish(srv, h, issue, t, sha, text);
    if |st.calls| > 3 {
      var repoCall := GetRepo(t.owner, t.repo);
      var reply := srv.getRepo(h, repoCall);
      var refCall := GetRef(t.owner, t.repo, "heads/" + reply.value);
      var refReply := srv.getRef(h + [repoCall], refCall);
      var branchCall := CreateRef(t.owner, t.repo, "refs/heads/" + BranchName(issue.number), refReply.value);
      var pre := [repoCall, refCall, branchCall];
      assert st.calls[..3] == pre;
      assert h + [repoCall] + [refCall] + [branchCall] == h + pre;
    }
  }

  /** The first two calls of `Fetch`, with the reply they depended on. */
  lemma FetchStart(srv: Server, h: History, issue: Issue, t: Slug)
    ensures var calls := Fetch(srv, h, issue, t).calls;
      && 1 <= |calls| <= 7
      && calls[0] == ReadCall(t)
      && (|calls| >= 2 ==>
            && ReadFunding(srv.getContent(h, calls[0])).Some?
            && Merged(ReadFunding(srv.getContent(h, calls[0])).value.content, issue.url).Write?
            && calls[1] == GetRepo(t.owner, t.repo))
  {
    var read := ReadCall(t);
    var f := ReadFunding(srv.getContent(h, read));
    if f.Some? && Merged(f.value.content, issue.url).Write? {
      var pub := Publish(srv, h + [read], issue, t, f.value.sha, Merged(f.value.content, issue.url).text);
      PublishHead(srv, h + [read], issue, t, f.value.sha, Merged(f.value.content, issue.url).text);
      ThenAt(h, [read], pub, 0);
    }
  }

  /** The third and fourth calls of `Fetch`: the default branch's ref and
      the new branch, with the replies they depended on. */
  lemma FetchBranch(srv: Server, h: History, issue: Issue, t: Slug)
    ensures var calls := Fetch(srv, h, issue, t).calls;
      && (|calls| >= 3 ==>
            && srv.getRepo(h + calls[..1], calls[1]).Ok?
            && calls[2] == GetRef(t.owner, t.repo, "heads/" + srv.getRepo(h + calls[..1], calls[1]).value))
      && (|calls| >= 4 ==>
            && srv.getRef(h + calls[..2], calls[2]).Ok?
            && calls[3] == CreateRef(t.owner, t.repo, "refs/heads/" + BranchName(issue.number),
                                     srv.getRef(h + calls[..2], calls[2]).value))
  {
    var read := ReadCall(t);
    var f := ReadFunding(srv.getContent(h, read));
    if f.Some? && Merged(f.value.content, issue.url).Write? {
      var pub := Publish(srv, h + [read], issue, t, f.value.sha, Merged(f.value.content, issue.url).text);
      PublishHead(srv, h + [read], issue, t, f.value.sha, Merged(f.value.content, issue.url).text);
      if |pub.calls| >= 2 {
        ThenAt(h, [read], pub, 1);
      }
      if |pub.calls| >= 3 {
        ThenAt(h, [read], pub, 2);
      }
    }
  }

  /** The write, the pull request and the comment made by `Fetch`. */
  lemma FetchLate(srv: Server, h: History, issue: Issue, t: Slug)
    ensures var st := Fetch(srv, h, issue, t); var calls := st.calls;
      |calls| >= 5 ==>
        var f := ReadFunding(srv.getContent(h, calls[0])).value;
        var base := srv.getRepo(h + calls[..1], calls[1]).value;
        && calls[4] == PutFile(t.owner, t.repo, FundingPath, CommitMessage(f.sha, issue.url),
                               Merged(f.content, issue.url).text, BranchName(issue.number), Sha(f.sha))
        && (|calls| >= 6 ==>
              calls[5] == CreatePull(t.owner, t.repo, PullTitle(f.sha), BranchName(issue.number), base, PullBody(issue.url)))
  {
    var st := Fetch(srv, h, issue, t);
    var calls := st.calls;
    FetchTail(srv, h, issue, t);
    if |calls| >= 5 {
      var f := ReadFunding(srv.getContent(h, calls[0])).value;
      var base := srv.getRepo(h + calls[..1], calls[1]).value;
      var text := Merged(f.content, issue.url).text;
      var sub := Submit(srv, h + calls[..4], issue, t, base, f.sha, text);
      SubmitShape(srv, h + calls[..4], issue, t, base, f.sha, text);
      ThenAt(h, calls[..4], sub, 0);
      if |calls| >= 6 {
        ThenAt(h, calls[..4], sub, 1);
      }
    }
  }

  /** A call of a step prefixed by `pre`, and the history before it. */
  lemma ThenAt(h: History, pre: seq<Call>, st: Step, k: nat)
    requires k < |st.calls|
    ensures Then(pre, st).calls[|pre| + k] == st.calls[k]
    ensures h + Then(pre, st).calls[..|pre| + k] == (h + pre) + st.calls[..k]
  {
    assert Then(pre, st).calls[..|pre| + k] == pre + st.calls[..k];
    assert h + (pre + st.calls[..k]) == (h + pre) + st.calls[..k];
  }

  /** The comment made by `Fetch`, and the URL it announces: made exactly
      when the pull request was created and the issue has its repository. */
  lemma FetchComment(srv: Server, h: History, issue: Issue, t: Slug)
    ensures var st := Fetch(srv, h, issue, t); var calls := st.calls;
      |calls| == 7 ==>
        && srv.createPull(h + calls[..5], calls[5]).Ok?
        && issue.home.Some?
        && calls[6] == CreateComment(issue.home.value.owner, issue.home.value.name, issue.number,
                                     CommentBodyAsWritten(srv.createPull(h + calls[..5], calls[5]).value.url))
    ensures var calls := Fetch(srv, h, issue, t).calls;
      |calls| >= 6 && srv.createPull(h + calls[..5], calls[5]).Ok? && issue.home.Some? ==> |calls| == 7
  {
    var calls := Fetch(srv, h, issue, t).calls;
    FetchTail(srv, h, issue, t);
    if |calls| >= 6 {
      var f := ReadFunding(srv.getContent(h, calls[0])).value;
      var base := srv.getRepo(h + calls[..1], calls[1]).value;
      var h4 := h + calls[..4];
      var sub := Submit(srv, h4, issue, t, base, f.sha, Merged(f.content, issue.url).text);
      SubmitShape(srv, h4, issue, t, base, f.sha, Merged(f.content, issue.url).text);
      ThenAt(h, calls[..4], sub, 1);
      if |calls| == 7 {
        ThenAt(h, calls[..4], sub, 2);
      }
    }
  }

  lemma FetchAnnounced(srv: Server, h: History, issue: Issue, t: Slug)
    ensures var st := Fetch(srv, h, issue, t); var calls := st.calls;
      st.outcome.Done? && st.outcome.announced.Some? ==>
        && |calls| == 7
        && srv.createPull(h + calls[..5], calls[5]).Ok?
        && st.outcome.announced.value == srv.createPull(h + calls[..5], calls[5]).value.url
  {
    var st := Fetch(srv, h, issue, t);
    var calls := st.calls;
    FetchTail(srv, h, issue, t);
    if st.outcome.Done? && st.outcome.announced.Some? {
      var f := ReadFunding(srv.getContent(h, calls[0])).value;
      var base := srv.getRepo(h + calls[..1], calls[1]).value;
      var h4 := h + calls[..4];
      var sub := Submit(srv, h4, issue, t, base, f.sha, Merged(f.content, issue.url).text);
      SubmitShape(srv, h4, issue, t, base, f.sha, Merged(f.content, issue.url).text);
      ThenAt(h, calls[..4], sub, 1);
    }
  }

  /** From the write on, `Fetch` is `Submit` after the first four calls. */
  lemma FetchTail(srv: Server, h: History, issue: Issue, t: Slug)
    ensures var st := Fetch(srv, h, issue, t); var calls := st.calls;
      |calls| >= 5 ==>
        && ReadFunding(srv.getContent(h, calls[0])).Some?
        && Merged(ReadFunding(srv.getContent(h, calls[0])).value.content, issue.url).Write?
        && srv.getRepo(h + calls[..1], calls[1]).Ok?
        && var f := ReadFunding(srv.getContent(h, calls[0])).value;
           st == Then(calls[..4], Submit(srv, h + calls[..4], issue, t, srv.getRepo(h + calls[..1], calls[1]).value,
                                         f.sha, Merged(f.content, issue.url).text))
  {
    var st := Fetch(srv, h, issue, t);
    var read := ReadCall(t);
    var f := ReadFunding(srv.getContent(h, read));
    if f.Some? && Merged(f.value.content, issue.url).Write? {
      var text := Merged(f.value.content, issue.url).text;
      var h0 := h + [read];
      var pub := Publish(srv, h0, issue, t, f.value.sha, text);
      PublishTail(srv, h0, issue, t, f.value.sha, text);
      var pc := pub.calls;
      if |pc| >= 4 {
        var sub := Submit(srv, h0 + pc[..3], issue, t, srv.getRepo(h0, pc[0]).value, f.value.sha, text);
        ThenShift(h, read, pub, sub);
      }
    }
  }

  /** A step that begins with the read and continues with a stage that is
      three calls and then `sub` is four calls and then `sub`. */
  lemma ThenShift(h: History, read: Call, pub: Step, sub: Step)
    requires |pub.calls| >= 4 && pub == Then(pub.calls[..3], sub)
    ensures var st := Then([read], pub);
      && st == Then(st.calls[..4], sub)
      && st.calls[0] == read && st.calls[1] == pub.calls[0]
      && h + st.calls[..1] == h + [read]
      && h + st.calls[..4] == (h + [read]) + pub.calls[..3]
  {
    var st := Then([read], pub);
    assert st.calls[..4] == [read] + pub.calls[..3];
    assert st.calls[..1] == [read];
    assert st.calls == st.calls[..4] + sub.calls;
  }

  /** Once the body names a repository, the issue is the fetch stage for
      exactly that repository. */
  lemma ProcessIsFetch(srv: Server, h: History, issue: Issue)
    requires issue.body.Some? && Find(issue.body.value).Some?
    ensures Process(srv, h, issue) == Fetch(srv, h, issue, Find(issue.body.value).value)
  {
  }

  /** The endpoints in the order the action calls them. */
  function Rank(c: Call): nat {
    match c
    case GetContent(_, _, _) => 0
    case GetRepo(_, _) => 1
    case GetRef(_, _, _) => 2
    case CreateRef(_, _, _, _) => 3
    case PutFile(_, _, _, _, _, _, _) => 4
    case CreatePull(_, _, _, _, _, _) => 5
    case CreateComment(_, _, _, _) => 6
    case ListIssues(_, _, _, _) => 7
  }

  /** One issue makes at most one call per endpoint, always in the same
      order (read, default branch, its ref, new branch, write, pull request,
      comment), stopping at the first that ends it; every call but the
      comment goes straight to the repository named in the body, and no
      call is made unless the body names one. */
  lemma ProcessCallOrder(srv: Server, h: History, issue: Issue)
    ensures var calls := Process(srv, h, issue).calls;
      && |calls| <= 7
      && (forall i :: 0 <= i < |calls| ==> Rank(calls[i]) == i)
      && (calls != [] <==> issue.body.Some? && Find(issue.body.value).Some?)
      && (issue.body.Some? && Find(issue.body.value).Some? ==>
            forall i :: 0 <= i < |calls| && i < 6 ==>
              && !calls[i].ListIssues?
              && calls[i].owner == Find(issue.body.value).value.owner
              && calls[i].repo == Find(issue.body.value).value.repo)
  {
    if issue.body.Some? && Find(issue.body.value).Some? {
      var t := Find(issue.body.value).value;
      ProcessIsFetch(srv, h, issue);
      FetchStart(srv, h, issue, t);
      FetchBranch(srv, h, issue, t);
      FetchLate(srv, h, issue, t);
      FetchComment(srv, h, issue, t);
      var calls := Fetch(srv, h, issue, t).calls;
      forall i | 0 <= i < |calls|
        ensures Rank(calls[i]) == i
        ensures i < 6 ==> !calls[i].ListIssues? && calls[i].owner == t.owner && calls[i].repo == t.repo
      {
        if i == 0 {
          assert calls[0].GetContent?;
        } else if i == 1 {
          assert calls[1].GetRepo?;
        } else if i == 2 {
          assert calls[2].GetRef?;
        } else if i == 3 {
          assert calls[3].CreateRef?;
        } else if i == 4 {
          assert calls[4].PutFile?;
        } else if i == 5 {
          assert calls[5].CreatePull?;
        } else {
          assert i == 6 && calls[6].CreateComment?;
        }
      }
    }
  }

  /** An issue ends before any request exactly when its body is null (a
      TypeError) or names no repository (skipped). */
  lemma NoRepositoryNoCalls(srv: Server, h: History, issue: Issue)
    ensures Process(srv, h, issue).outcome == Failed(NullBody) <==> issue.body.None?
    ensures Process(srv, h, issue).outcome == Skipped(NoRepository) <==> issue.body.Some? && Find(issue.body.value).None?
    ensures Process(srv, h, issue).calls == [] <==>
      Process(srv, h, issue).outcome == Failed(NullBody) || Process(srv, h, issue).outcome == Skipped(NoRepository)
  {
    ProcessExplained(srv, h, issue);
    ProcessCallOrder(srv, h, issue);
    var st := Process(srv, h, issue);
    if st.calls != [] {
      assert Explained(srv, h, st.calls, st.outcome, issue.home);
      ExplainedNotEarly(srv, h, st.calls, st.outcome, issue.home);
    }
  }

  /** With at least one call, the outcome is neither of the two that end an
      issue before any request. */
  lemma {:induction false} ExplainedNotEarly(srv: Server, h: History, calls: seq<Call>, o: Outcome, home: Option<RepoRef>)
    requires calls != [] && Explained(srv, h, calls, o, home)
    ensures o != Failed(NullBody) && o != Skipped(NoRepository)
    ensures o == Failed(NoHome) ==> home.None?
    decreases |calls|
  {
    if |calls| > 1 {
      ExplainedNotEarly(srv, h + [calls[0]], calls[1..], o, home);
    }
  }

  /** A file whose text mentions the key is the one reason to stop after
      the read: the issue is skipped exactly when the read succeeds with
      non-empty content whose text contains `oss_wishlist:`, and then the
      read is the only call. */
  lemma SkippedIffKeyPresent(srv: Server, h: History, issue: Issue)
    ensures Process(srv, h, issue).outcome == Skipped(KeyPresent) <==>
      && issue.body.Some? && Find(issue.body.value).Some?
      && var r := srv.getContent(h, ReadCall(Find(issue.body.value).value));
         r.Ok? && r.value.content != "" && Contains(r.value.text, Key)
    ensures Process(srv, h, issue).outcome == Skipped(KeyPresent) ==>
      && issue.body.Some? && Find(issue.body.value).Some?
      && Process(srv, h, issue).calls == [ReadCall(Find(issue.body.value).value)]
  {
    if issue.body.Some? && Find(issue.body.value).Some? {
      var t := Find(issue.body.value).value;
      ProcessIsFetch(srv, h, issue);
      var read := ReadCall(t);
      var r := srv.getContent(h, read);
      var f := ReadFunding(r);
      if f.Some? {
        var m := Merged(f.value.content, issue.url);
        if m.Write? {
          assert Fetch(srv, h, issue, t).outcome == Publish(srv, h + [read], issue, t, f.value.sha, m.text).outcome;
        }
      }
    }
  }

  /** Running again is harmless: once the file on the target holds text the
      action wrote (for this issue or any other), a later run for any issue
      naming that repository reads it and stops. */
  lemma RerunIsNoop(srv: Server, h: History, issue: Issue, earlier: string, earlierUrl: string)
    requires issue.body.Some? && Find(issue.body.value).Some?
    requires Merged(earlier, earlierUrl).Write?
    requires var r := srv.getContent(h, ReadCall(Find(issue.body.value).value));
      r.Ok? && r.value.content != "" && r.value.text == Merged(earlier, earlierUrl).text
    ensures Process(srv, h, issue) == Step([ReadCall(Find(issue.body.value).value)], Skipped(KeyPresent))
  {
    MergeIdempotent(earlier, earlierUrl, issue.url);
    SkippedIffKeyPresent(srv, h, issue);
  }

  /** The branch: named after the issue number, created from the tip of the
      default branch the platform reported, holding the write, and proposed
      for merging into that default branch. */
  lemma BranchPlan(srv: Server, h: History, issue: Issue)
    ensures var calls := Process(srv, h, issue).calls;
      |calls| >= 5 ==>
        && calls[2].GetRef? && calls[3].CreateRef? && calls[4].PutFile?
        && srv.getRepo(h + calls[..1], calls[1]).Ok? && srv.getRef(h + calls[..2], calls[2]).Ok?
        && calls[4].branch == BranchName(issue.number)
        && calls[3].ref == "refs/heads/" + calls[4].branch
        && calls[2].ref == "heads/" + srv.getRepo(h + calls[..1], calls[1]).value
        && calls[3].sha == srv.getRef(h + calls[..2], calls[2]).value
        && (|calls| >= 6 ==>
              && calls[5].CreatePull?
              && calls[5].head == calls[4].branch
              && calls[5].base == srv.getRepo(h + calls[..1], calls[1]).value)
  {
    if issue.body.Some? && Find(issue.body.value).Some? {
      var t := Target(Find(issue.body.value).value);
      FetchStart(srv, h, issue, t);
      FetchBranch(srv, h, issue, t);
      FetchLate(srv, h, issue, t);
    }
  }

  /** The text written: the merged text (the old text trimmed, then the
      wishlist line) at the funding path; nothing is written over a file
      that already mentions the key, and the old text is the decoded
      content the read returned, or nothing. */
  lemma WrittenText(srv: Server, h: History, issue: Issue)
    ensures var calls := Process(srv, h, issue).calls;
      |calls| >= 5 ==>
        var r := srv.getContent(h, calls[0]);
        && ReadFunding(r).Some?
        && calls[4].PutFile?
        && var before := ReadFunding(r).value.content;
        && (before == "" || !Contains(before, Key))
        && calls[4].path == FundingPath
        && calls[4].content == Merged(before, issue.url).text
        && Contains(calls[4].content, WishlistLine(issue.url))
        && StartsWith(calls[4].content, Trim(before))
        && (r.Ok? && r.value.content != "" ==> before == r.value.text)
        && (before != "" ==> r.Ok? && r.value.content != "")
  {
    if issue.body.Some? && Find(issue.body.value).Some? {
      ProcessIsFetch(srv, h, issue);
      FetchWrittenText(srv, h, issue, Find(issue.body.value).value);
    }
  }

  lemma FetchWrittenText(srv: Server, h: History, issue: Issue, t: Slug)
    ensures var calls := Fetch(srv, h, issue, t).calls;
      |calls| >= 5 ==>
        var r := srv.getContent(h, calls[0]);
        && ReadFunding(r).Some?
        && calls[4].PutFile?
        && var before := ReadFunding(r).value.content;
        && (before == "" || !Contains(before, Key))
        && calls[4].path == FundingPath
        && calls[4].content == Merged(before, issue.url).text
        && Contains(calls[4].content, WishlistLine(issue.url))
        && StartsWith(calls[4].content, Trim(before))
        && (r.Ok? && r.value.content != "" ==> before == r.value.text)
        && (before != "" ==> r.Ok? && r.value.content != "")
  {
    FetchStart(srv, h, issue, t);
    FetchLate(srv, h, issue, t);
    var calls := Fetch(srv, h, issue, t).calls;
    if |calls| >= 5 {
      var f := ReadFunding(srv.getContent(h, calls[0])).value;
      MergeKeepsOldText(f.content, issue.url);
      MergedText(f.content, issue.url);
    }
  }

  /** Update or creation: the write carries the old sha exactly when the
      read returned content and a sha, and the pull request is titled as an
      update exactly then; the commit message and the pull-request body
      cite the issue. */
  lemma UpdateIffShaKnown(srv: Server, h: History, issue: Issue)
    ensures var calls := Process(srv, h, issue).calls;
      |calls| >= 5 ==>
        var r := srv.getContent(h, calls[0]);
        && calls[4].PutFile?
        && (calls[4].fileSha.Some? <==> r.Ok? && r.value.content != "" && r.value.sha != "")
        && (calls[4].fileSha.Some? ==> r.Ok? && calls[4].fileSha.value == r.value.sha)
        && Contains(calls[4].message, issue.url)
        && (|calls| >= 6 ==>
              && calls[5].CreatePull?
              && (calls[5].title == UpdateTitle <==> calls[4].fileSha.Some?)
              && (calls[5].title == CreateTitle <==> calls[4].fileSha.None?)
              && Contains(calls[5].body, issue.url))
  {
    if issue.body.Some? && Find(issue.body.value).Some? {
      var t := Find(issue.body.value).value;
      ProcessIsFetch(srv, h, issue);
      FetchStart(srv, h, issue, t);
      FetchBranch(srv, h, issue, t);
      FetchLate(srv, h, issue, t);
      var calls := Fetch(srv, h, issue, t).calls;
      if |calls| >= 5 {
        var r := srv.getContent(h, calls[0]);
        var f := ReadFunding(r).value;
        assert calls[4].fileSha == Sha(f.sha);
        CommitMessageCitesIssue(f.sha, issue.url);
        if |calls| >= 6 {
          assert calls[5].title == PullTitle(f.sha);
        }
      }
    }
  }

  /** The comment: posted exactly when the pull request was created and
      the issue carries its repository, on that repository and issue
      number, giving the URL of the new pull request, which is the URL the
      issue reports as announced; an issue without its repository fails
      right after the pull request, and only such an issue fails that way. */
  lemma CommentPlan(srv: Server, h: History, issue: Issue)
    ensures var st := Process(srv, h, issue); var calls := st.calls;
      |calls| == 7 ==>
        var pr := srv.createPull(h + calls[..5], calls[5]);
        && pr.Ok?
        && issue.home.Some?
        && calls[6].CreateComment?
        && calls[6].owner == issue.home.value.owner
        && calls[6].repo == issue.home.value.name
        && calls[6].issueNumber == issue.number
        && Contains(calls[6].body, pr.value.url)
        && EndsWith(calls[6].body, pr.value.url)
        && (st.outcome.Done? && st.outcome.announced.Some? ==> st.outcome.announced.value == pr.value.url)
    ensures var st := Process(srv, h, issue);
      st.outcome.Done? && st.outcome.announced.Some? ==> |st.calls| == 7
    ensures var calls := Process(srv, h, issue).calls;
      |calls| >= 6 && srv.createPull(h + calls[..5], calls[5]).Ok? && issue.home.Some? ==> |calls| == 7
    ensures Process(srv, h, issue).outcome == Failed(NoHome) ==> issue.home.None?
  {
    var st := Process(srv, h, issue);
    if issue.body.Some? && Find(issue.body.value).Some? {
      ProcessIsFetch(srv, h, issue);
      var t := Find(issue.body.value).value;
      FetchComment(srv, h, issue, t);
      FetchAnnounced(srv, h, issue, t);
    }
    ProcessExplained(srv, h, issue);
    if st.calls != [] {
      ExplainedNotEarly(srv, h, st.calls, st.outcome, issue.home);
    }
  }
}
