/**
 * The hosting platform as the action sees it through its REST client: the
 * calls it makes, the replies it gets, and the status codes it tolerates.
 * Each endpoint is a function from the calls made so far and the new call
 * to a reply, so a reply may depend on everything the run did before.
 */
module Platform {
  import opened Optional
  import opened Strings
  import opened Funding

  /** A reply: the data of a successful request, or the status and message
      of the error the client throws. */
  datatype Reply<+T> = Ok(value: T) | Err(status: int, message: string)

  /** Where an issue lives (its `repository` field, which may be missing). */
  datatype RepoRef = RepoRef(owner: string, name: string)

  /** The fields of an issue the action reads; `body` may be null. */
  datatype Issue = Issue(number: nat, url: string, body: Option<string>, home: Option<RepoRef>)

  /** A file read: `content` is the raw base64 field ("" when missing),
      `text` its decoding, `sha` the blob sha. */
  datatype FileData = FileData(content: string, text: string, sha: string)

  datatype PullData = PullData(number: nat, url: string)

  /** Every request the action makes, with the arguments it passes. */
  datatype Call =
    | ListIssues(listOwner: string, listRepo: Option<string>, labels: string, state: string)
    | GetContent(owner: string, repo: string, path: string)
    | GetRepo(owner: string, repo: string)
    | GetRef(owner: string, repo: string, ref: string)
    | CreateRef(owner: string, repo: string, ref: string, sha: string)
    | PutFile(owner: string, repo: string, path: string, message: string, content: string,
              branch: string, fileSha: Option<string>)
    | CreatePull(owner: string, repo: string, title: string, head: string, base: string, body: string)
    | CreateComment(owner: string, repo: string, issueNumber: nat, body: string)

  type History = seq<Call>

  /** The platform: one reply function per endpoint. */
  datatype Server = Server(
    listIssues: (History, Call) -> Reply<seq<Issue>>,
    getContent: (History, Call) -> Reply<FileData>,
    getRepo: (History, Call) -> Reply<string>,
    getRef: (History, Call) -> Reply<string>,
    createRef: (History, Call) -> Reply<()>,
    putFile: (History, Call) -> Reply<()>,
    createPull: (History, Call) -> Reply<PullData>,
    createComment: (History, Call) -> Reply<()>)

  /** Why an issue (or the run) failed: an error the client threw, or a
      TypeError from reading a field of null or undefined. */
  datatype Fault = Http(status: int, message: string) | TypeError(reason: string)

  function ErrorIn<T>(r: Reply<T>): (e: Option<Fault>)
    ensures e.Some? <==> r.Err?
    ensures r.Err? ==> e == Some(Http(r.status, r.message))
  {
    match r
    case Ok(_) => None
    case Err(s, m) => Some(Http(s, m))
  }

  /** The error, if any, that the platform answers to call `c` after `h`. */
  function ErrorOf(srv: Server, h: History, c: Call): Option<Fault> {
    match c
    case ListIssues(_, _, _, _) => ErrorIn(srv.listIssues(h, c))
    case GetContent(_, _, _) => ErrorIn(srv.getContent(h, c))
    case GetRepo(_, _) => ErrorIn(srv.getRepo(h, c))
    case GetRef(_, _, _) => ErrorIn(srv.getRef(h, c))
    case CreateRef(_, _, _, _) => ErrorIn(srv.createRef(h, c))
    case PutFile(_, _, _, _, _, _, _) => ErrorIn(srv.putFile(h, c))
    case CreatePull(_, _, _, _, _, _) => ErrorIn(srv.createPull(h, c))
    case CreateComment(_, _, _, _) => ErrorIn(srv.createComment(h, c))
  }

  /** The status-code decision table: the errors the action catches and
      carries on from. A missing funding file (404) means "create it"; an
      existing branch (422) is reused; a pull request that already exists
      (422 with that phrase), reported by the pull-request call or by the
      comment call in the same try block, counts as done. */
  predicate Tolerated(c: Call, status: int, message: string)
    ensures Tolerated(c, status, message) ==> status == 404 || status == 422
    ensures Tolerated(c, status, message) && status == 404 ==> c.GetContent?
    ensures c.ListIssues? || c.GetRepo? || c.GetRef? || c.PutFile? ==> !Tolerated(c, status, message)
  {
    match c
    case GetContent(_, _, _) => status == 404
    case CreateRef(_, _, _, _) => status == 422
    case CreatePull(_, _, _, _, _, _) => status == 422 && Contains(message, PullExistsPhrase)
    case CreateComment(_, _, _, _) => status == 422 && Contains(message, PullExistsPhrase)
    case _ => false
  }

  /** The reply to `c` is an error the action does not catch. */
  predicate Fatal(srv: Server, h: History, c: Call) {
    var e := ErrorOf(srv, h, c);
    e.Some? && e.value.Http? && !Tolerated(c, e.value.status, e.value.message)
  }
}
