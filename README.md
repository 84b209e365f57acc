# manage-funding-yml, modelled in Dafny

This project models the GitHub Action in `src/index.js`. The action lists the
open issues carrying a label (`funding-yml-requested` by default) in a
wishlists repository (`oss-wishlist/wishlists` by default). For each issue it
finds the `Repository: owner/repo` line in the issue body. It then reads
`.github/FUNDING.yml` on that repository and, unless the file already mentions
`oss_wishlist:`, appends an `oss_wishlist: <issue URL>` line. The change goes
on a branch named after the issue number. Last, it opens a pull request into
the default branch and comments the pull request's URL on the issue.

## Structure

- `strings.dfy` (`Optional`, `Strings`): JavaScript string operations the action uses.
  - `trim` and the `\s` class, over the exact ECMAScript white-space and line-terminator set.
  - `includes`, `split`, and the decimal rendering of an issue number.
  - Matching ASCII letters ignoring case, which is what the `/i` flag does for the pattern's letters.
- `slug.dfy` (`SlugParser`): the `Repository:` regular expression as a hand-written parser.
  - `Find` returns the leftmost match.
  - `Target` applies the trim and the split of the captured text.
- `funding.dfy` (`Funding`): the funding-file merge, which is a plain-text append, not a YAML edit.
  - Also the branch name and the commit message.
  - Also the pull-request title and body, and the issue comment. The comment exists twice: as the file spells it, which is what the action posts, and as intended (see "## Findings").
- `platform.dfy` (`Platform`): the platform as the action sees it.
  - Every request is a `Call` that records the arguments passed.
  - The `Server` answers each endpoint with a function of the calls made before and the call itself. A reply can therefore depend on everything the run did earlier.
  - `Tolerated` is the action's status-code table.
- `workflow.dfy` (`Workflow`): `processIssue`.
  - `Process` is the specification: the calls made for one issue, in order, and how the issue ends. The endings are `Skipped`, `Done` with the announced URL if any, or `Failed` with the escaping error.
  - `ProcessIssue` and its stage methods `FetchFunding`, `PublishChange` and `SubmitChange` are the step-by-step version, written with the action's reassigned locals. Each is proved equal to its stage of the specification.
- `workflow_facts.dfy` (`WorkflowFacts`): what `processIssue` guarantees for every platform behaviour.
- `runner.dfy` (`Runner`): `run`.
  - It reads the inputs with their defaults and lists the issues.
  - The `for` loop (`ProcessEach`) catches every issue's error and goes on.

The action writes to the target repository directly, without a fork. It appends one line of text to the funding file rather than editing it as YAML. It relies on the fixed branch name and on the platform's "pull request already exists" error to avoid duplicates, and it adds no label or marker to the issue.

## Model

| member | source | states |
|---|---|---|
| Strings.TrimSlice | src/index.js:56 | `trim` removes exactly the leading and trailing white space. The result is a slice of the input with no white space at either end, and a string without white space is unchanged. |
| Strings.Split | src/index.js:57 | `split('/')` yields at least one piece. No piece contains the separator, and the pieces joined by it give back the input. |
| Strings.ContainsAt | src/index.js:94 | `includes` (the key test here and the error-message test at line 198) holds when the text occurs at some position. |
| Strings.ContainsSound | src/index.js:94 | Conversely, when `includes` holds (here and at line 198), the text occurs at some position. |
| Strings.SplitAtOnly | src/index.js:57 | `a/b`, with no slash in `a` or `b`, splits into exactly `[a, b]`. |
| Strings.DecimalStringDigits | src/index.js:113 | The decimal rendering of an issue number is all digits, with no leading zero except for 0 itself, and read as a decimal numeral it denotes that number. |
| Strings.DecimalStringInjective | src/index.js:113 | Distinct numbers render differently. |
| Strings.SplitFirstTwo | src/index.js:15 | The first piece of `split('/')` is the whole string exactly when it has no `/`. Otherwise the string begins with the first piece, `/` and the second piece, and the second piece runs up to the next `/` or to the end. |
| SlugParser.SegmentLength | src/index.js:49 | The greedy run of `[^\s\/]` characters: all of them are segment characters, and the next character is not. |
| SlugParser.MatchPair | src/index.js:49 | A capture `owner/repo` has two non-empty segments without white space or `/`, and the text starts with it. |
| SlugParser.MatchPairSound | src/index.js:49 | Conversely, the text is the captured owner, `/` and repository, followed by nothing that could extend the repository name. |
| SlugParser.MatchAfterLabel | src/index.js:49 | After the label, any match found, with or without the optional `http(s)://github.com/` prefix, consists of two valid segments. |
| SlugParser.MatchAt | src/index.js:49 | A match at a position needs the label there, in any letter case, and captures two valid segments. |
| SlugParser.MatchAtSound | src/index.js:49 | Every match is read off the text: the text is the label in some letter case, white space, an optional `http(s)://github.com/` prefix in some letter case, then the captured owner, `/` and repository, followed by nothing that could extend the name. With MatchAtWritten this pins the match down in both directions. |
| SlugParser.MatchAfterLabelSound | src/index.js:49 | After the white space, a match is an optional URL prefix in some letter case, then the captured owner, `/` and repository, followed by nothing that could extend the name. |
| SlugParser.Find | src/index.js:49 | A match of the pattern anywhere in the body yields two valid segments. |
| SlugParser.FindLeftmost | src/index.js:49 | The match returned is the one at the leftmost position where the pattern matches, and no earlier position matches. |
| SlugParser.FindNone | src/index.js:49-54 | With no match, the pattern matches at no position of the body, which is the case where the action returns early. |
| SlugParser.FindWritten | src/index.js:49 | `Repository:`, white space, an optional `http(s)://github.com/` prefix and then `owner/repo`, followed by a character that cannot extend the name, parses to exactly that owner and repository with the prefix stripped. The label and the prefix may be in any letter case (the `/i` flag). |
| SlugParser.MatchAtLabel | src/index.js:49 | The label in any letter case, then `\s*`, skips all the white space after the label. |
| SlugParser.NoUrlPrefix | src/index.js:49 | Text that begins `owner/repo` never begins with either URL prefix, so the prefix group cannot misfire. |
| SlugParser.Target | src/index.js:56-57 | Trimming and splitting the captured text gives back exactly the two captured segments. |
| Funding.Merged | src/index.js:92-103 | The merge leaves the file alone exactly when the current content is non-empty and contains `oss_wishlist:`. |
| Funding.MergedText | src/index.js:88-103 | The merged text is either the old text trimmed, a newline, the wishlist line and a newline, or the line and a newline alone when there is no content. It ends with the line and contains the key. |
| Funding.MergeIdempotent | src/index.js:94-97 | Text the action wrote counts as already listed for any later issue. |
| Funding.MergeKeepsOldText | src/index.js:99 | The trimmed old text is a prefix of the new text. |
| Funding.BranchName | src/index.js:113 | Every branch name starts with `add-oss-wishlist-funding-`. |
| Funding.BranchNameInjective | src/index.js:113 | After the prefix `add-oss-wishlist-funding-` the branch name is decimal digits that denote the issue number, so distinct issue numbers give distinct branches. |
| Funding.PullTitle | src/index.js:167-169 | The title is the update title exactly when the old sha is known, and the creation title exactly when it is not. |
| Funding.CommitMessageCitesIssue | src/index.js:147-159 | The commit message equals the matching title, then ` (`, the issue URL and `)`, so it starts with the title and contains and ends with the cited issue. |
| Funding.PullBody | src/index.js:171-175 | The pull-request body contains the issue URL. |
| Funding.CommentBody | src/index.js:194 | The intended issue comment opens with the check mark U+2705, and contains and ends with the pull request's URL. |
| Funding.CommentBodyAsWritten | src/index.js:194 | The comment as the file spells it, which the action posts, contains and ends with the pull request's URL. |
| Funding.CheckMarkMisread | src/index.js:194 | The three characters opening the comment in the file are the UTF-8 bytes of U+2705 read as Windows-1252. |
| Funding.CommentMisencoded | src/index.js:194 | The comment as written differs from the intended one for every URL: three characters replace the intended check mark, and the rest is equal. |
| Platform.Tolerated | src/index.js:78-203 | The status-code table of the catch blocks at lines 79, 133 and 198: only 404 and 422 are ever caught, 404 only on the read, and no error of the listing, the repository, the ref or the write is caught. |
| WorkflowFacts.ToleratedByHandlers | src/index.js:78-203 | The table agrees with the handlers: on the read it tolerates exactly what the 404 branch at line 79 absorbs, and on the pull request and the comment exactly what the catch at line 198 swallows. |
| Workflow.ReadFunding | src/index.js:66-84 | A 404 on the read counts as an absent file, and any other error is fatal. When content is returned, content and sha are both set from that reply. When the raw content is empty, neither is set. |
| Workflow.Caught | src/index.js:197-203 | An error from the pull request or the comment is swallowed exactly when it is a 422 whose message contains "pull request already exists". Otherwise it escapes. |
| Workflow.Process | src/index.js:45-209 | The specification of `processIssue`: at most seven calls, none exactly when the body is null or names no repository, and a skip after a call only after the read alone, because the file holds the key. |
| Workflow.Fetch | src/index.js:61-103 | The read comes first. A skip in this stage is the read alone, and an issue that finishes made at least five calls. |
| Workflow.Publish | src/index.js:105-138 | Asking for the repository comes first. The stage makes at most six calls, never skips, and finishes only after at least four calls. |
| Workflow.Submit | src/index.js:140-208 | The write comes first. The stage makes at most three calls, never skips, and an announced pull request means all three were made. |
| Workflow.ProcessIssue | src/index.js:45-209 | The step-by-step `processIssue` makes exactly the calls of `Process`, in order, and ends the same way. |
| Workflow.FetchFunding | src/index.js:61-103 | The read and the merge, with `fundingContent`, `fundingSha` and `newContent` reassigned as in the action, agree with `Fetch`. |
| Workflow.PublishChange | src/index.js:105-138 | The default branch, its ref, and the branch creation (reused on 422) agree with `Publish`. |
| Workflow.SubmitChange | src/index.js:140-208 | The write, the pull request and the comment inside their try block agree with `Submit`. |
| WorkflowFacts.SubmitExplained | src/index.js:140-208 | In the write and pull-request stage, every call but the last succeeded or was tolerated, and the last call accounts for the outcome. |
| WorkflowFacts.PublishExplained | src/index.js:105-138 | The same for the branch stage: only a 422 on branch creation is tolerated. |
| WorkflowFacts.FetchExplained | src/index.js:61-103 | The same for the read: only a 404 is tolerated. |
| WorkflowFacts.ProcessExplained | src/index.js:45-209 | The status-code table over the whole issue. Every call but the last succeeded or got a tolerated error. The issue ends only after a fatal error (its outcome), a read that returned non-empty content whose text holds `oss_wishlist:`, a tolerated pull-request conflict, the comment on the issue's own repository, or a created pull request on an issue without a `repository` field. |
| WorkflowFacts.ProcessCallOrder | src/index.js:45-209 | An issue makes at most seven calls, one per endpoint, always in the order read, repository, ref, branch, write, pull request, comment. It makes none unless the body names a repository, and every call before the comment goes to that repository. |
| WorkflowFacts.NoRepositoryNoCalls | src/index.js:49-54 | A null body fails with a TypeError, and a body without a match is skipped. These are exactly the issues that make no call. |
| WorkflowFacts.SkippedIffKeyPresent | src/index.js:92-97 | An issue is skipped after its read exactly when the read returns non-empty content whose text contains `oss_wishlist:`. The read is then the only call. |
| WorkflowFacts.RerunIsNoop | src/index.js:88-97 | Once the file holds text the action wrote, a later run for any issue naming that repository reads it and stops. |
| WorkflowFacts.BranchPlan | src/index.js:105-185 | The branch is named after the issue number and created from the tip of the reported default branch. The write goes to it, and the pull request goes from it into that default branch. |
| WorkflowFacts.WrittenText | src/index.js:66-162 | The write is the merge of the old text (the decoded content, or nothing) at the funding path. It contains the wishlist line, starts with the trimmed old text, and is never made over text that holds the key. |
| WorkflowFacts.UpdateIffShaKnown | src/index.js:141-175 | The write carries the old sha exactly when the read returned content with a sha. The pull request is titled as an update exactly then. The commit message and the body cite the issue. |
| WorkflowFacts.CommentPlan | src/index.js:177-195 | A comment is posted exactly when the pull request was created and the issue has its repository. It goes to that repository and issue number and gives the pull request's URL, which is the URL the issue reports as announced. The `TypeError` of a missing `repository` field happens only to an issue without one. |
| Runner.ListCall | src/index.js:8-25 | The listing asks for open issues with a non-empty label. Its owner has no `/`. The repository is undefined exactly when the wishlists input has no `/`, and then the owner is the whole input. Otherwise the input begins with `owner/repo`, and the repository is the whole text up to the next `/` or the end. |
| Runner.RunSpec | src/index.js:4-43 | The specification of `run`: the listing is the first call. The run aborts exactly when the listing fails, with the listing's error and no other call. A completed run has one step per listed issue. |
| Runner.ProcessAll | src/index.js:30-37 | There is one step per listed issue. |
| Runner.ProcessAllInOrder | src/index.js:30-37 | Every listed issue is processed, in list order, whatever happened to the issues before it. Each one is processed after exactly the calls made for the issues before it. |
| Runner.ProcessEach | src/index.js:30-37 | The `for` loop with its per-issue catch computes `ProcessAll`, and its calls are the steps' calls in order. |
| Runner.RunPlan | src/index.js:4-43 | The run lists issues once, first, and never again. A failed listing ends the run with that error and no other call. Otherwise the run completes after processing every issue in order, whatever the issues' outcomes. |
| Runner.RunAction | src/index.js:4-43 | The step-by-step `run` makes the calls of `RunSpec` and ends the same way. |
| Runner.DefaultListing | src/index.js:8-25 | With neither input set, the run lists the open issues labelled `funding-yml-requested` in `oss-wishlist/wishlists`. |
| Runner.ListCallFromInputs | src/index.js:8-25 | A `wishlists-repo` input `owner/name` and a set label list the open issues with that label in `owner/name`. |
| Runner.ListCallWithoutSlash | src/index.js:15 | An input without `/` is the owner, and the repository is left undefined. |

## Left out

- Network I/O, authentication and the token (src/index.js:7, 12). Every reply comes from the `Server` parameter, and the model proves its properties for every possible server.
- The requests themselves are atomic values. Octokit's URL building, headers, pagination and retries are not modelled. The listing is a single request, as in the code, which reads one page of results.
- Logging (`core.info`, `core.warning`, `core.error`) and the text passed to `core.setFailed`. A failed run is `Aborted` with the error that reached the outer catch.
- Base64. The read's reply carries both the raw `content` field, which the action tests for truth, and its decoded text. The write records the new text rather than its base64 encoding.
- UTF-8 decoding errors and Unicode versions. Strings are sequences of code points. `trim` and `\s` use the ECMAScript white-space set as a fixed list.
- JavaScript `null` and `undefined` are modelled only where the code reads them.
  - A null body is a TypeError.
  - A missing `repository` on the issue is a TypeError raised after the pull request was created.
  - A `wishlists-repo` without `/` gives an undefined repository.
  - `fundingContent` and `fundingSha` are strings, with "" standing for null. The action only tests them for truth, so the two behave alike.
- Other malformed platform data, such as a missing `default_branch`, `object.sha` or `html_url`, is taken to be well formed.
- Concurrency. The action awaits every call in turn, and the model is sequential.

## Findings

The workflow posts the comment exactly as the file spells it (`CommentBodyAsWritten`). `CommentBody` is the intended text, kept as the corrected definition.

| source | as written | input that shows it | evidently intended | confidence | as-written member | corrected member |
|---|---|---|---|---|---|---|
| src/index.js:194 | The comment text begins with the three characters U+00E2 U+0153 U+2026 ("âœ…"). These are the UTF-8 bytes of U+2705 read as Windows-1252, so the file was saved after a wrong decoding. | Any created pull request: the comment starts with "âœ…" instead of a check mark. | The comment starts with the check mark U+2705 ("✅ Pull request created: ..."). | not executed; high that the file holds these three characters, medium that they reach GitHub unchanged | Funding.CommentMisencoded | Funding.CommentBody |
