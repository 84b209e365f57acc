/**
 * The action's entry point, `run`: read the inputs, list the open issues
 * carrying the label in the wishlists repository, and process each one in
 * turn, carrying on past any issue that fails.
 */
module Runner {
  import opened Optional
  import opened Strings
  import opened Platform
  import opened Workflow
  import opened WorkflowFacts

  const DefaultWishlists := "oss-wishlist/wishlists"
  const DefaultLabel := "funding-yml-requested"

  /** The raw `wishlists-repo` and `label` inputs ("" when unset). The
      token only authenticates the client and is not modelled. */
  datatype Inputs = Inputs(wishlistsRepo: string, labelName: string)

  /** How the run ends: the listing failed (the run is marked failed), or
      every listed issue was processed, with what happened to each. */
  datatype Run = Aborted(failure: Fault) | Completed(steps: seq<Step>)

  /** The calls made by the whole run, and how it ended. */
  datatype RunTrace = RunTrace(calls: seq<Call>, run: Run)

  /** An input or its default, as JavaScript's `||` on strings picks. */
  function OrDefault(input: string, fallback: string): string {
    if input != "" then input else fallback
  }

  /** The listing request: `owner/repo` destructured from the split input
      (the first two pieces, whole; a missing second part is undefined),
      the label, open issues only. */
  function ListCall(inputs: Inputs): (c: Call)
    ensures c.ListIssues? && c.state == "open" && c.labels != ""
    ensures var repo := OrDefault(inputs.wishlistsRepo, DefaultWishlists);
      && '/' !in c.listOwner
      && (c.listRepo.None? <==> '/' !in repo)
      && (c.listRepo.None? ==> c.listOwner == repo)
      && (c.listRepo.Some? ==> '/' !in c.listRepo.value && StartsWith(repo, c.listOwner + "/" + c.listRepo.value))
      && (c.listRepo.Some? ==>
            var k := |c.listOwner| + 1 + |c.listRepo.value|;
            k <= |repo| && (k == |repo| || repo[k] == '/'))
  {
    var parts := Split(OrDefault(inputs.wishlistsRepo, DefaultWishlists), '/');
    SplitFirstTwo(OrDefault(inputs.wishlistsRepo, DefaultWishlists), '/');
    ListIssues(parts[0], if |parts| >= 2 then Some(parts[1]) else None,
               OrDefault(inputs.labelName, DefaultLabel), "open")
  }

  /** The calls of a sequence of steps, one after the other. */
  function Flatten(steps: seq<Step>): seq<Call> {
    if steps == [] then [] else steps[0].calls + Flatten(steps[1..])
  }

  /** Each issue in list order, each one after the calls of those before;
      `process` is what one issue does after a given history. */
  function ProcessAll(process: (History, Issue) -> Step, h: History, issues: seq<Issue>): (steps: seq<Step>)
    ensures |steps| == |issues|
    decreases |issues|
  {
    if issues == [] then []
    else
      var st := process(h, issues[0]);
      [st] + ProcessAll(process, h + st.calls, issues[1..])
  }

  /** `processIssue` against the platform `srv`. */
  function Processor(srv: Server): (History, Issue) -> Step {
    (h: History, issue: Issue) => Process(srv, h, issue)
  }

  /** `run`: the listing, then every issue. */
  function RunSpec(srv: Server, h: History, inputs: Inputs): (r: RunTrace)
    ensures r.calls != [] && r.calls[0] == ListCall(inputs)
    ensures r.run.Aborted? <==> srv.listIssues(h, ListCall(inputs)).Err?
    ensures r.run.Aborted? ==> r.calls == [ListCall(inputs)]
    ensures r.run.Aborted? ==>
      r.run.failure == Http(srv.listIssues(h, ListCall(inputs)).status, srv.listIssues(h, ListCall(inputs)).message)
    ensures r.run.Completed? ==> |r.run.steps| == |srv.listIssues(h, ListCall(inputs)).value|
  {
    var listCall := ListCall(inputs);
    match srv.listIssues(h, listCall)
    case Err(s, m) => RunTrace([listCall], Aborted(Http(s, m)))
    case Ok(issues) =>
      var steps := ProcessAll(Processor(srv), h + [listCall], issues);
      RunTrace([listCall] + Flatten(steps), Completed(steps))
  }

  lemma {:induction false} FlattenSnoc(steps: seq<Step>, st: Step)
    ensures Flatten(steps + [st]) == Flatten(steps) + st.calls
  {
    if steps == [] {
      assert [] + [st] == [st];
      assert Flatten([st]) == st.calls + Flatten([]);
    } else {
      assert (steps + [st])[0] == steps[0];
      assert (steps + [st])[1..] == steps[1..] + [st];
      FlattenSnoc(steps[1..], st);
    }
  }

  lemma FlattenCons(st: Step, rest: seq<Step>)
    ensures Flatten([st] + rest) == st.calls + Flatten(rest)
  {
    assert ([st] + rest)[0] == st;
    assert ([st] + rest)[1..] == rest;
  }

  /** One more issue at the end of the list is processed after all the
      calls of the ones before it. */
  lemma {:induction false} ProcessAllSnoc(process: (History, Issue) -> Step, h: History, issues: seq<Issue>, issue: Issue)
    ensures ProcessAll(process, h, issues + [issue])
         == ProcessAll(process, h, issues) + [process(h + Flatten(ProcessAll(process, h, issues)), issue)]
    decreases |issues|
  {
    if issues == [] {
      assert [] + [issue] == [issue];
      assert h + Flatten([]) == h;
    } else {
      var st := process(h, issues[0]);
      assert (issues + [issue])[0] == issues[0];
      assert (issues + [issue])[1..] == issues[1..] + [issue];
      ProcessAllSnoc(process, h + st.calls, issues[1..], issue);
      var rest := ProcessAll(process, h + st.calls, issues[1..]);
      FlattenCons(st, rest);
      assert h + (st.calls + Flatten(rest)) == (h + st.calls) + Flatten(rest);
      var last := process(h + st.calls + Flatten(rest), issue);
      assert [st] + (rest + [last]) == ([st] + rest) + [last];
    }
  }

  /** One turn of the loop over the issues: the step for issue `k`,
      taken after the calls of the steps before it, extends them. */
  lemma NextIssue(process: (History, Issue) -> Step, h: History, issues: seq<Issue>, k: nat, steps: seq<Step>, st: Step)
    requires k < |issues|
    requires steps == ProcessAll(process, h, issues[..k])
    requires st == process(h + Flatten(steps), issues[k])
    ensures steps + [st] == ProcessAll(process, h, issues[..k + 1])
    ensures Flatten(steps + [st]) == Flatten(steps) + st.calls
  {
    assert issues[..k + 1] == issues[..k] + [issues[k]];
    ProcessAllSnoc(process, h, issues[..k], issues[k]);
    FlattenSnoc(steps, st);
  }

  /** Fault isolation: every listed issue is processed, in list order,
      whatever happened to the issues before it; each sees exactly the calls
      made before it. */
  lemma {:induction false} ProcessAllInOrder(process: (History, Issue) -> Step, h: History, issues: seq<Issue>)
    ensures var steps := ProcessAll(process, h, issues);
      forall i :: 0 <= i < |issues| ==> steps[i] == process(h + Flatten(steps[..i]), issues[i])
    decreases |issues|
  {
    if issues != [] {
      var steps := ProcessAll(process, h, issues);
      var st := process(h, issues[0]);
      var rest := ProcessAll(process, h + st.calls, issues[1..]);
      ProcessAllInOrder(process, h + st.calls, issues[1..]);
      assert steps == [st] + rest;
      forall i | 0 <= i < |issues|
        ensures steps[i] == process(h + Flatten(steps[..i]), issues[i])
      {
        if i == 0 {
          assert steps[..0] == [];
          assert h + Flatten(steps[..0]) == h;
        } else {
          assert steps[i] == rest[i - 1];
          assert issues[1..][i - 1] == issues[i];
          assert rest[i - 1] == process(h + st.calls + Flatten(rest[..i - 1]), issues[i]);
          assert steps[..i] == [st] + rest[..i - 1];
          FlattenCons(st, rest[..i - 1]);
          assert h + Flatten(steps[..i]) == (h + st.calls) + Flatten(rest[..i - 1]);
        }
      }
    }
  }

  /** No call in `calls` lists issues. */
  predicate NoListing(calls: seq<Call>) {
    forall c :: c in calls ==> !c.ListIssues?
  }

  lemma {:induction false} FlattenNoListing(steps: seq<Step>)
    requires forall k :: 0 <= k < |steps| ==> NoListing(steps[k].calls)
    ensures NoListing(Flatten(steps))
  {
    if steps != [] {
      FlattenNoListing(steps[1..]);
    }
  }

  /** An issue never lists issues. */
  lemma ProcessNeverLists(srv: Server, h: History, issue: Issue)
    ensures NoListing(Process(srv, h, issue).calls)
  {
    var calls := Process(srv, h, issue).calls;
    ProcessCallOrder(srv, h, issue);
    forall c | c in calls
      ensures !c.ListIssues?
    {
      var i :| 0 <= i < |calls| && calls[i] == c;
      assert Rank(calls[i]) == i < 7;
    }
  }

  /** The run lists issues once, first; a failed listing ends the run with
      that error and nothing else; otherwise every issue is processed in
      order and the run completes, whatever the issues' outcomes. */
  lemma RunPlan(srv: Server, h: History, inputs: Inputs)
    ensures var r := RunSpec(srv, h, inputs);
      && |r.calls| >= 1
      && r.calls[0] == ListCall(inputs)
      && NoListing(r.calls[1..])
      && (r.run.Aborted? <==> srv.listIssues(h, ListCall(inputs)).Err?)
      && (r.run.Aborted? ==> r.calls == [ListCall(inputs)])
      && (r.run.Aborted? ==>
            r.run.failure == Http(srv.listIssues(h, ListCall(inputs)).status, srv.listIssues(h, ListCall(inputs)).message))
    ensures var r := RunSpec(srv, h, inputs); var reply := srv.listIssues(h, ListCall(inputs));
      reply.Ok? ==>
        && r.run.Completed?
        && |r.run.steps| == |reply.value|
        && r.calls[1..] == Flatten(r.run.steps)
        && forall i :: 0 <= i < |reply.value| ==>
             r.run.steps[i] == Process(srv, h + [ListCall(inputs)] + Flatten(r.run.steps[..i]), reply.value[i])
  {
    var listCall := ListCall(inputs);
    var reply := srv.listIssues(h, listCall);
    if reply.Ok? {
      var h1 := h + [listCall];
      var steps := ProcessAll(Processor(srv), h1, reply.value);
      ProcessAllInOrder(Processor(srv), h1, reply.value);
      forall k | 0 <= k < |steps|
        ensures NoListing(steps[k].calls)
      {
        ProcessNeverLists(srv, h1 + Flatten(steps[..k]), reply.value[k]);
      }
      FlattenNoListing(steps);
      assert ([listCall] + Flatten(steps))[1..] == Flatten(steps);
    }
  }

  /** With neither input set, the run lists the open issues labelled
      `funding-yml-requested` in `oss-wishlist/wishlists`. */
  lemma DefaultListing()
    ensures ListCall(Inputs("", "")) == ListIssues("oss-wishlist", Some("wishlists"), "funding-yml-requested", "open")
  {
    assert DefaultWishlists == "oss-wishlist" + ['/'] + "wishlists";
    SplitAtOnly("oss-wishlist", "wishlists", '/');
  }

  /** A `wishlists-repo` input `owner/name` lists issues in `owner/name`;
      a set label is used as given. */
  lemma ListCallFromInputs(owner: string, name: string, labelName: string)
    requires '/' !in owner && '/' !in name
    requires labelName != ""
    ensures ListCall(Inputs(owner + "/" + name, labelName)) == ListIssues(owner, Some(name), labelName, "open")
  {
    assert owner + "/" + name == owner + ['/'] + name;
    SplitAtOnly(owner, name, '/');
  }

  /** An input with no `/` leaves the repository undefined. */
  lemma ListCallWithoutSlash(wishlistsRepo: string, labelName: string)
    requires wishlistsRepo != "" && '/' !in wishlistsRepo
    ensures ListCall(Inputs(wishlistsRepo, labelName)).listOwner == wishlistsRepo
    ensures ListCall(Inputs(wishlistsRepo, labelName)).listRepo.None?
  {
    SplitWithout(wishlistsRepo, '/');
  }

  /** `run` step by step: the `for` loop over the listed issues, each one
      processed with its errors caught so the loop goes on. */
  method RunAction(srv: Server, h: History, inputs: Inputs) returns (calls: seq<Call>, run: Run)
    ensures RunTrace(calls, run) == RunSpec(srv, h, inputs)
  {
    var wishlistsRepo := OrDefault(inputs.wishlistsRepo, DefaultWishlists);
    var labelName := OrDefault(inputs.labelName, DefaultLabel);
    var parts := Split(wishlistsRepo, '/');
    var owner, repo := parts[0], if |parts| >= 2 then Some(parts[1]) else None;
    var listCall := ListIssues(owner, repo, labelName, "open");
    var reply := srv.listIssues(h, listCall);
    calls := [listCall];
    if reply.Err? {
      run := Aborted(Http(reply.status, reply.message));
      return;
    }
    var steps, more := ProcessEach(srv, h + calls, reply.value);
    calls := calls + more;
    run := Completed(steps);
  }

  /** The loop over the listed issues: each one processed with its errors
      caught, so the loop goes on after an issue that fails. */
  method ProcessEach(srv: Server, h: History, issues: seq<Issue>) returns (steps: seq<Step>, calls: seq<Call>)
    ensures steps == ProcessAll(Processor(srv), h, issues)
    ensures calls == Flatten(steps)
  {
    steps, calls := [], [];
    var k := 0;
    while k < |issues|
      invariant 0 <= k <= |issues|
      invariant steps == ProcessAll(Processor(srv), h, issues[..k])
      invariant calls == Flatten(steps)
    {
      var more, outcome := ProcessIssue(srv, h + calls, issues[k]);
      NextIssue(Processor(srv), h, issues, k, steps, Step(more, outcome));
      steps := steps + [Step(more, outcome)];
      calls := calls + more;
      k := k + 1;
    }
    assert issues[..k] == issues;
  }
}
