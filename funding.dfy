/**
 * The text the action writes: the funding-file merge (a plain-text append,
 * not a YAML edit), the branch name, and the commit, pull-request and
 * comment texts.
 */
module Funding {
  import opened Strings

  const FundingPath := ".github/FUNDING.yml"

  /** The key whose presence anywhere in the file means "already done". */
  const Key := "oss_wishlist:"

  /** The line appended for an issue. */
  function WishlistLine(issueUrl: string): string {
    Key + " " + issueUrl
  }

  datatype Merge = AlreadyListed | Write(text: string)

  /** The new file text for the current text `content` ("" when the file is
      absent or empty, which the action does not tell apart). A file that
      mentions the key anywhere is left alone; otherwise the line is added
      after the trimmed old text, or alone. */
  function Merged(content: string, issueUrl: string): (m: Merge)
    ensures m.AlreadyListed? <==> content != "" && Contains(content, Key)
  {
    if content != "" then
      if Contains(content, Key) then AlreadyListed
      else Write(Trim(content) + "\n" + WishlistLine(issueUrl) + "\n")
    else Write(WishlistLine(issueUrl) + "\n")
  }

  /** What a merge writes: the wishlist line and its newline at the end,
      after the trimmed old text when there was any, so the result holds
      the line and therefore the key. */
  lemma MergedText(content: string, issueUrl: string)
    requires Merged(content, issueUrl).Write?
    ensures var text := Merged(content, issueUrl).text;
      && EndsWith(text, WishlistLine(issueUrl) + "\n")
      && Contains(text, WishlistLine(issueUrl))
      && Contains(text, Key)
      && (content == "" ==> text == WishlistLine(issueUrl) + "\n")
      && (content != "" ==> text == Trim(content) + "\n" + WishlistLine(issueUrl) + "\n")
  {
    var line := WishlistLine(issueUrl);
    assert line[..|Key|] == Key;
    if content != "" {
      AddedLine(Trim(content) + "\n", line);
    } else {
      AddedLine([], line);
      assert [] + line + "\n" == line + "\n";
    }
  }

  /** `before + line + "\n"` holds the line and the key, and ends with the
      line and its newline. */
  lemma AddedLine(before: string, line: string)
    requires StartsWith(line, Key)
    ensures Contains(before + line + "\n", line)
    ensures Contains(before + line + "\n", Key)
    ensures EndsWith(before + line + "\n", line + "\n")
  {
    var text := before + line + "\n";
    assert text[|before|..|before| + |line|] == line;
    ContainsAt(text, line, |before|);
    assert text[|before|..|before| + |Key|] == Key;
    ContainsAt(text, Key, |before|);
    assert text[|text| - |line + "\n"|..] == line + "\n";
  }

  /** Merging is idempotent: text the action wrote is recognised as done by
      any later run, whatever issue that run is for. */
  lemma MergeIdempotent(content: string, issueUrl: string, laterUrl: string)
    requires Merged(content, issueUrl).Write?
    ensures Merged(Merged(content, issueUrl).text, laterUrl) == AlreadyListed
  {
    MergedText(content, issueUrl);
  }

  /** What is kept of the old text: it is the beginning of the new one. */
  lemma MergeKeepsOldText(content: string, issueUrl: string)
    requires Merged(content, issueUrl).Write?
    ensures StartsWith(Merged(content, issueUrl).text, Trim(content))
  {
    var text := Merged(content, issueUrl).text;
    if content != "" {
      assert text[..|Trim(content)|] == Trim(content);
    }
  }

  const BranchPrefix := "add-oss-wishlist-funding-"

  /** The branch for an issue, from the issue number alone: the prefix
      followed by the decimal digits of the number. */
  function BranchName(issueNumber: nat): (b: string)
    ensures StartsWith(b, BranchPrefix)
  {
    var b := BranchPrefix + DecimalString(issueNumber);
    assert b[..|BranchPrefix|] == BranchPrefix;
    b
  }

  /**
   * The branch name is the prefix followed by the issue number in decimal,
   * so distinct issues use distinct branches.
   */
  lemma BranchNameInjective(a: nat, b: nat)
    ensures var digits := BranchName(a)[|BranchPrefix|..];
      && (forall i :: 0 <= i < |digits| ==> '0' <= digits[i] <= '9')
      && DigitsValue(digits) == a
    ensures BranchName(a) == BranchName(b) <==> a == b
  {
    assert DecimalString(a) == BranchName(a)[|BranchPrefix|..];
    DecimalStringDigits(a);
    if BranchName(a) == BranchName(b) {
      assert DecimalString(b) == BranchName(b)[|BranchPrefix|..];
      DecimalStringInjective(a, b);
    }
  }

  const UpdateTitle := "Add OSS Wishlist funding link"
  const CreateTitle := "Add FUNDING.yml with OSS Wishlist link"
  const PullExistsPhrase := "pull request already exists"

  /** The pull-request title: an update when the old file's sha is known. */
  function PullTitle(fundingSha: string): (title: string)
    ensures fundingSha != "" <==> title == UpdateTitle
    ensures fundingSha == "" <==> title == CreateTitle
  {
    if fundingSha != "" then UpdateTitle else CreateTitle
  }

  /** The commit message: the pull-request title followed by the issue URL
      in parentheses. */
  function CommitMessage(fundingSha: string, issueUrl: string): string {
    PullTitle(fundingSha) + " (" + issueUrl + ")"
  }

  /** The commit message is the pull-request title with the issue URL in
      parentheses after it. */
  lemma CommitMessageCitesIssue(fundingSha: string, issueUrl: string)
    ensures CommitMessage(fundingSha, issueUrl) == PullTitle(fundingSha) + " (" + issueUrl + ")"
    ensures StartsWith(CommitMessage(fundingSha, issueUrl), PullTitle(fundingSha) + " (")
    ensures Contains(CommitMessage(fundingSha, issueUrl), issueUrl)
    ensures EndsWith(CommitMessage(fundingSha, issueUrl), issueUrl + ")")
  {
    var head := PullTitle(fundingSha) + " (";
    var message := CommitMessage(fundingSha, issueUrl);
    assert message == head + issueUrl + ")";
    assert message[..|head|] == head;
    assert message[|head|..|head| + |issueUrl|] == issueUrl;
    ContainsAt(message, issueUrl, |head|);
    assert message[|message| - |issueUrl + ")"|..] == issueUrl + ")";
  }

  const BodyOpening := "This PR adds the OSS Wishlist funding link to support your project.\n\nRelated issue: "
  const BodyClosing := "\n\nThis change adds the `oss_wishlist` field to your FUNDING.yml file, which will display a link to the OSS Wishlist on your repository's funding page."

  /** The pull-request body: it names the originating issue. */
  function PullBody(issueUrl: string): (body: string)
    ensures Contains(body, issueUrl)
  {
    ContainsMiddle(BodyOpening, issueUrl, BodyClosing);
    BodyOpening + issueUrl + BodyClosing
  }

  /** `head + mid + tail` contains `mid`. */
  lemma ContainsMiddle(head: string, mid: string, tail: string)
    ensures Contains(head + mid + tail, mid)
  {
    var s := head + mid + tail;
    assert s[|head|..|head| + |mid|] == mid;
    ContainsAt(s, mid, |head|);
  }

  const CommentTail := " Pull request created: "
  const CommentOpening := "\U{2705}" + CommentTail

  /** `head + tail` contains `tail` and ends with it. */
  lemma EndsWithTail(head: string, tail: string)
    ensures Contains(head + tail, tail)
    ensures EndsWith(head + tail, tail)
  {
    var s := head + tail;
    assert s[|head|..|head| + |tail|] == tail;
    ContainsAt(s, tail, |head|);
  }

  /** The comment meant for the originating issue: a check mark, then the
      pull request's URL at the end. */
  function CommentBody(pullUrl: string): (body: string)
    ensures |body| > |pullUrl| && body[0] == '\U{2705}'
    ensures Contains(body, pullUrl)
    ensures EndsWith(body, pullUrl)
  {
    EndsWithTail(CommentOpening, pullUrl);
    CommentOpening + pullUrl
  }

  /** The three bytes of the UTF-8 encoding of a code point in
      U+0800..U+FFFF. */
  function Utf8Three(cp: nat): (bytes: seq<nat>)
    requires 0x800 <= cp < 0x10000
    ensures |bytes| == 3 && forall k :: 0 <= k < 3 ==> bytes[k] < 256
  {
    [0xE0 + cp / 0x1000, 0x80 + (cp / 0x40) % 0x40, 0x80 + cp % 0x40]
  }

  /** Windows-1252 code points of the bytes 0x80..0x9F (the five bytes it
      leaves unassigned read as the C1 controls). */
  const Cp1252High: seq<nat> := [
    0x20AC, 0x81, 0x201A, 0x192, 0x201E, 0x2026, 0x2020, 0x2021,
    0x2C6, 0x2030, 0x160, 0x2039, 0x152, 0x8D, 0x17D, 0x8F,
    0x90, 0x2018, 0x2019, 0x201C, 0x201D, 0x2022, 0x2013, 0x2014,
    0x2DC, 0x2122, 0x161, 0x203A, 0x153, 0x9D, 0x17E, 0x178]

  /** Bytes read one character per byte in Windows-1252. */
  function Misread(bytes: seq<nat>): string
    requires forall k :: 0 <= k < |bytes| ==> bytes[k] < 256
  {
    if bytes == [] then []
    else
      var b := bytes[0];
      [if 0x80 <= b < 0xA0 then Cp1252High[b - 0x80] as char else b as char] + Misread(bytes[1..])
  }

  /** The comment's opening as the source file spells it. */
  const CommentOpeningAsWritten := "\U{00E2}\U{0153}\U{2026}" + CommentTail

  /** The comment as the source file spells it, the one the action posts:
      it too ends with the pull request's URL. */
  function CommentBodyAsWritten(pullUrl: string): (body: string)
    ensures Contains(body, pullUrl)
    ensures EndsWith(body, pullUrl)
  {
    EndsWithTail(CommentOpeningAsWritten, pullUrl);
    CommentOpeningAsWritten + pullUrl
  }

  /** The UTF-8 bytes of the check mark U+2705, read as Windows-1252. */
  lemma CheckMarkMisread()
    ensures Misread(Utf8Three(0x2705)) == "\U{00E2}\U{0153}\U{2026}"
  {
    assert Utf8Three(0x2705) == [0xE2, 0x9C, 0x85];
    assert Cp1252High[0x1C] == 0x153 && Cp1252High[0x05] == 0x2026;
    assert [0xE2, 0x9C, 0x85][1..] == [0x9C, 0x85];
    assert [0x9C, 0x85][1..] == [0x85];
    assert Misread([0x85]) == [0x2026 as char];
  }

  /** The comment as written opens with the UTF-8 bytes of the check mark
      U+2705 read as Windows-1252, three characters where one was meant;
      it differs from the intended comment for every pull-request URL. */
  lemma CommentMisencoded(pullUrl: string)
    ensures |CommentBodyAsWritten(pullUrl)| >= 3
    ensures CommentBodyAsWritten(pullUrl)[..3] == Misread(Utf8Three(0x2705))
    ensures CommentBodyAsWritten(pullUrl)[3..] == CommentBody(pullUrl)[1..]
    ensures CommentBodyAsWritten(pullUrl) != CommentBody(pullUrl)
  {
    CheckMarkMisread();
    OpeningSwapped(CommentOpeningAsWritten, CommentOpening, pullUrl);
    assert CommentBodyAsWritten(pullUrl) == CommentOpeningAsWritten + pullUrl;
    assert CommentBody(pullUrl) == CommentOpening + pullUrl;
  }

  /** Replacing the check mark by its misreading changes the first
      character into three and leaves the rest alone. */
  lemma OpeningSwapped(written: string, intended: string, pullUrl: string)
    requires written == "\U{00E2}\U{0153}\U{2026}" + CommentTail
    requires intended == "\U{2705}" + CommentTail
    ensures (written + pullUrl)[..3] == "\U{00E2}\U{0153}\U{2026}"
    ensures (written + pullUrl)[3..] == (intended + pullUrl)[1..]
    ensures written + pullUrl != intended + pullUrl
  {
    var rest := CommentTail + pullUrl;
    assert written + pullUrl == "\U{00E2}\U{0153}\U{2026}" + rest;
    assert intended + pullUrl == "\U{2705}" + rest;
    assert (written + pullUrl)[0] != (intended + pullUrl)[0];
  }
}
