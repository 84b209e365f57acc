/**
 * The search for the target repository in an issue body: the first match
 * of the case-insensitive pattern
 *   Repository:\s*(?:https?:\/\/github\.com\/)?([^\s\/]+\/[^\s\/\n]+)
 * written out as a parser, followed by the trim and the split of the
 * captured `owner/repo` text.
 */
module SlugParser {
  import opened Optional
  import opened Strings

  datatype Slug = Slug(owner: string, repo: string)

  const Label := "Repository:"
  const HttpsPrefix := "https://github.com/"
  const HttpPrefix := "http://github.com/"

  /** A character of `[^\s\/]` (the `\n` of the second class is already in `\s`). */
  predicate IsSegmentChar(c: char) {
    !IsSpace(c) && c != '/'
  }

  /** An owner or repository name as the pattern captures it. */
  predicate IsSegment(s: string) {
    |s| > 0 && forall i :: 0 <= i < |s| ==> IsSegmentChar(s[i])
  }

  /** How many segment characters `s` begins with: what a greedy
      `[^\s\/]+` takes. */
  function SegmentLength(s: string): (n: nat)
    ensures n <= |s|
    ensures forall i :: 0 <= i < n ==> IsSegmentChar(s[i])
    ensures n < |s| ==> !IsSegmentChar(s[n])
    decreases |s|
  {
    if s != [] && IsSegmentChar(s[0]) then 1 + SegmentLength(s[1..]) else 0
  }

  /** `([^\s\/]+\/[^\s\/\n]+)` at the very start of `s`. A shorter owner
      would be followed by a segment character instead of `/`, so the only
      candidate owner is the longest one; the repository is the longest run
      after the slash. */
  function MatchPair(s: string): (r: Option<Slug>)
    ensures r.Some? ==> IsSegment(r.value.owner) && IsSegment(r.value.repo)
    ensures r.Some? ==> StartsWith(s, r.value.owner + "/" + r.value.repo)
  {
    var n := SegmentLength(s);
    if n == 0 || n == |s| || s[n] != '/' then None
    else
      var m := SegmentLength(s[n + 1..]);
      if m == 0 then None
      else
        assert s[..n + 1 + m] == s[..n] + "/" + s[n + 1..n + 1 + m];
        Some(Slug(s[..n], s[n + 1..n + 1 + m]))
  }

  /** The whole pattern anchored at the start of `s`. */
  function MatchAt(s: string): (r: Option<Slug>)
    ensures r.Some? ==> StartsWithIgnoringCase(s, Label)
    ensures r.Some? ==> IsSegment(r.value.owner) && IsSegment(r.value.repo)
  {
    if StartsWithIgnoringCase(s, Label) then MatchAfterLabel(TrimStart(s[|Label|..])) else None
  }

  /** What follows `Repository:\s*`. The optional URL prefix is tried
      first and skipped only if the rest fails there, as a backtracking
      matcher does. */
  function MatchAfterLabel(t: string): (r: Option<Slug>)
    ensures r.Some? ==> IsSegment(r.value.owner) && IsSegment(r.value.repo)
  {
    var viaUrl :=
      if StartsWithIgnoringCase(t, HttpsPrefix) then MatchPair(t[|HttpsPrefix|..])
      else if StartsWithIgnoringCase(t, HttpPrefix) then MatchPair(t[|HttpPrefix|..])
      else None;
    if viaUrl.Some? then viaUrl else MatchPair(t)
  }

  /** `String.prototype.match` without the `g` flag: the match that starts
      leftmost in `body`, or none. */
  function Find(body: string): (r: Option<Slug>)
    ensures r.Some? ==> IsSegment(r.value.owner) && IsSegment(r.value.repo)
    decreases |body|
  {
    var here := MatchAt(body);
    if here.Some? then here
    else if body == [] then None
    else Find(body[1..])
  }

  /** Find returns the match at the leftmost position where the pattern
      matches, and no earlier position matches. */
  lemma {:induction false} FindLeftmost(body: string)
    requires Find(body).Some?
    ensures exists i ::
      && 0 <= i <= |body|
      && MatchAt(body[i..]) == Find(body)
      && (forall j :: 0 <= j < i ==> MatchAt(body[j..]).None?)
    decreases |body|
  {
    if MatchAt(body).Some? {
      assert body[0..] == body;
    } else {
      FindLeftmost(body[1..]);
      var i :|
        && 0 <= i <= |body[1..]|
        && MatchAt(body[1..][i..]) == Find(body[1..])
        && (forall j :: 0 <= j < i ==> MatchAt(body[1..][j..]).None?);
      assert body[1..][i..] == body[i + 1..];
      forall j | 0 <= j < i + 1
        ensures MatchAt(body[j..]).None?
      {
        if j == 0 {
          assert body[0..] == body;
        } else {
          assert body[1..][j - 1..] == body[j..];
        }
      }
    }
  }

  /** Find finds nothing exactly when the pattern matches at no position. */
  lemma {:induction false} FindNone(body: string)
    requires Find(body).None?
    ensures forall i :: 0 <= i <= |body| ==> MatchAt(body[i..]).None?
    decreases |body|
  {
    if body != [] {
      FindNone(body[1..]);
      forall i | 0 <= i <= |body|
        ensures MatchAt(body[i..]).None?
      {
        if i == 0 {
          assert body[0..] == body;
        } else {
          assert body[1..][i - 1..] == body[i..];
        }
      }
    } else {
      assert body[0..] == body;
    }
  }

  /** The owner and repository the action addresses: the captured text,
      trimmed, split at `/`. Because the capture has no white space and one
      slash, this gives back exactly the two captured segments. */
  function Target(slug: Slug): (t: Slug)
    requires IsSegment(slug.owner) && IsSegment(slug.repo)
    ensures t == slug
  {
    var captured := slug.owner + "/" + slug.repo;
    assert NoSpace(captured);
    TrimSlice(captured);
    assert '/' !in slug.owner && '/' !in slug.repo;
    SplitAtOnly(slug.owner, slug.repo, '/');
    var parts := Split(Trim(captured), '/');
    Slug(parts[0], parts[1])
  }

  /** A segment followed by a slash and another segment never begins with
      either URL prefix: the prefix's first `/` is followed by another `/`. */
  lemma NoUrlPrefix(o: string, r: string, tail: string, prefix: string)
    requires IsSegment(o) && IsSegment(r)
    requires prefix == HttpsPrefix || prefix == HttpPrefix
    ensures !StartsWithIgnoringCase(o + "/" + r + tail, prefix)
  {
    var t := o + "/" + r + tail;
    var k := if prefix == HttpsPrefix then 6 else 5;
    assert prefix[k] == '/' && prefix[k + 1] == '/';
    assert forall i :: 0 <= i < k ==> Upper(prefix[i]) != '/';
    if |o| < k {
      assert t[|o|] == '/' && Upper(t[|o|]) != Upper(prefix[|o|]);
    } else if |o| == k {
      assert t[k + 1] == r[0] && Upper(t[k + 1]) != Upper(prefix[k + 1]);
    } else {
      assert t[k] == o[k] && Upper(t[k]) != Upper(prefix[k]);
    }
  }

  /** `s` is the ASCII literal `lit` in any mix of letter cases. */
  predicate CaseVariant(s: string, lit: string) {
    |s| == |lit| && StartsWithIgnoringCase(s, lit)
  }

  /** The URL prefixes the pattern accepts, in any letter case, or none. */
  predicate UrlPrefix(prefix: string) {
    prefix == "" || CaseVariant(prefix, HttpsPrefix) || CaseVariant(prefix, HttpPrefix)
  }

  /** A body that opens with the label, some white space, an optional
      `http(s)://github.com/` prefix and `owner/repo` (followed by nothing
      that could extend the repository name) yields exactly that owner and
      repository, with the URL prefix stripped. The label and the prefix
      may be written in any letter case. */
  lemma FindWritten(lab: string, spaces: string, prefix: string, o: string, r: string, tail: string)
    requires CaseVariant(lab, Label)
    requires AllSpace(spaces)
    requires UrlPrefix(prefix)
    requires IsSegment(o) && IsSegment(r)
    requires tail == [] || !IsSegmentChar(tail[0])
    ensures Find(lab + spaces + prefix + o + "/" + r + tail) == Some(Slug(o, r))
  {
    MatchAtWritten(lab, spaces, prefix, o, r, tail);
  }

  lemma MatchAtWritten(lab: string, spaces: string, prefix: string, o: string, r: string, tail: string)
    requires CaseVariant(lab, Label)
    requires AllSpace(spaces)
    requires UrlPrefix(prefix)
    requires IsSegment(o) && IsSegment(r)
    requires tail == [] || !IsSegmentChar(tail[0])
    ensures MatchAt(lab + spaces + prefix + o + "/" + r + tail) == Some(Slug(o, r))
  {
    var rest := prefix + o + "/" + r + tail;
    assert lab + spaces + prefix + o + "/" + r + tail == lab + spaces + rest;
    if prefix == "" {
      assert rest[0] == o[0];
    } else {
      assert rest[0] == prefix[0] && Upper(prefix[0]) == 'H';
    }
    MatchAtLabel(lab, spaces, rest);
    MatchAfterLabelWritten(prefix, o, r, tail);
  }

  /** After the label, in any letter case, `\s*` takes all the white space
      there is. */
  lemma MatchAtLabel(lab: string, spaces: string, rest: string)
    requires CaseVariant(lab, Label)
    requires AllSpace(spaces)
    requires rest == [] || !IsSpace(rest[0])
    ensures MatchAt(lab + spaces + rest) == MatchAfterLabel(rest)
  {
    var body := lab + spaces + rest;
    assert body[..|Label|] == lab;
    assert StartsWithIgnoringCase(body, Label);
    assert body[|Label|..] == spaces + rest;
    TrimStartAfterSpaces(spaces, rest);
  }

  /** The part after the label: the URL prefix, when present, is stripped. */
  lemma MatchAfterLabelWritten(prefix: string, o: string, r: string, tail: string)
    requires UrlPrefix(prefix)
    requires IsSegment(o) && IsSegment(r)
    requires tail == [] || !IsSegmentChar(tail[0])
    ensures MatchAfterLabel(prefix + o + "/" + r + tail) == Some(Slug(o, r))
  {
    if CaseVariant(prefix, HttpsPrefix) {
      AfterHttpsPrefix(prefix, o, r, tail);
    } else if CaseVariant(prefix, HttpPrefix) {
      AfterHttpPrefix(prefix, o, r, tail);
    } else {
      assert prefix + o + "/" + r + tail == o + "/" + r + tail;
      MatchPairWritten(o, r, tail);
      NoUrlPrefix(o, r, tail, HttpsPrefix);
      NoUrlPrefix(o, r, tail, HttpPrefix);
    }
  }

  lemma AfterHttpsPrefix(prefix: string, o: string, r: string, tail: string)
    requires CaseVariant(prefix, HttpsPrefix)
    requires IsSegment(o) && IsSegment(r)
    requires tail == [] || !IsSegmentChar(tail[0])
    ensures MatchAfterLabel(prefix + o + "/" + r + tail) == Some(Slug(o, r))
  {
    var t := prefix + o + "/" + r + tail;
    MatchPairWritten(o, r, tail);
    assert t[|HttpsPrefix|..] == o + "/" + r + tail;
    assert forall i :: 0 <= i < |HttpsPrefix| ==> t[i] == prefix[i];
    assert StartsWithIgnoringCase(t, HttpsPrefix);
  }

  lemma AfterHttpPrefix(prefix: string, o: string, r: string, tail: string)
    requires CaseVariant(prefix, HttpPrefix)
    requires IsSegment(o) && IsSegment(r)
    requires tail == [] || !IsSegmentChar(tail[0])
    ensures MatchAfterLabel(prefix + o + "/" + r + tail) == Some(Slug(o, r))
  {
    var t := prefix + o + "/" + r + tail;
    MatchPairWritten(o, r, tail);
    assert t[|HttpPrefix|..] == o + "/" + r + tail;
    assert forall i :: 0 <= i < |HttpPrefix| ==> t[i] == prefix[i];
    assert StartsWithIgnoringCase(t, HttpPrefix);
    assert Upper(t[4]) == Upper(HttpPrefix[4]) == ':';
    assert Upper(t[4]) != Upper(HttpsPrefix[4]);
  }

  /** Conversely, a match is exactly such a text: the label in some letter
      case, white space, an optional URL prefix, then the captured owner,
      `/` and repository, followed by nothing that could extend the
      repository name. */
  lemma MatchAtSound(s: string) returns (lab: string, spaces: string, prefix: string, tail: string)
    requires MatchAt(s).Some?
    ensures CaseVariant(lab, Label)
    ensures AllSpace(spaces)
    ensures UrlPrefix(prefix)
    ensures tail == [] || !IsSegmentChar(tail[0])
    ensures s == lab + spaces + prefix + MatchAt(s).value.owner + "/" + MatchAt(s).value.repo + tail
  {
    var t;
    lab, spaces, t := LabelSplit(s);
    var slug := MatchAfterLabel(t).value;
    prefix, tail := MatchAfterLabelSound(t);
    Regroup(lab, spaces, prefix, slug.owner, slug.repo, tail);
  }

  /** The label, in the letter case it is written in, and the white space
      that `\s*` consumes after it. */
  lemma LabelSplit(s: string) returns (lab: string, spaces: string, t: string)
    requires StartsWithIgnoringCase(s, Label)
    ensures CaseVariant(lab, Label) && AllSpace(spaces)
    ensures t == TrimStart(s[|Label|..]) && s == lab + (spaces + t)
  {
    var after := s[|Label|..];
    t := TrimStart(after);
    TrimStartSlice(after);
    lab := s[..|Label|];
    spaces := after[..|after| - |t|];
    assert after == spaces + t;
  }

  /** What follows the white space: an optional URL prefix, in any letter
      case, then the captured `owner/repo` and a tail that cannot extend it. */
  lemma MatchAfterLabelSound(t: string) returns (prefix: string, tail: string)
    requires MatchAfterLabel(t).Some?
    ensures UrlPrefix(prefix)
    ensures tail == [] || !IsSegmentChar(tail[0])
    ensures t == prefix + (MatchAfterLabel(t).value.owner + "/" + MatchAfterLabel(t).value.repo + tail)
  {
    if StartsWithIgnoringCase(t, HttpsPrefix) && MatchPair(t[|HttpsPrefix|..]).Some? {
      prefix := CasePrefix(t, HttpsPrefix);
      tail := MatchPairSound(t[|HttpsPrefix|..]);
    } else if !StartsWithIgnoringCase(t, HttpsPrefix) && StartsWithIgnoringCase(t, HttpPrefix)
      && MatchPair(t[|HttpPrefix|..]).Some?
    {
      prefix := CasePrefix(t, HttpPrefix);
      tail := MatchPairSound(t[|HttpPrefix|..]);
    } else {
      prefix := "";
      tail := MatchPairSound(t);
    }
  }

  /** The first `|lit|` characters of a text that starts with `lit`,
      ignoring case, are a case variant of `lit`. */
  lemma CasePrefix(t: string, lit: string) returns (prefix: string)
    requires StartsWithIgnoringCase(t, lit)
    ensures CaseVariant(prefix, lit) && t == prefix + t[|lit|..]
  {
    prefix := t[..|lit|];
  }

  lemma Regroup(lab: string, spaces: string, prefix: string, o: string, r: string, tail: string)
    ensures lab + (spaces + (prefix + (o + "/" + r + tail))) == lab + spaces + prefix + o + "/" + r + tail
  {
  }

  /** MatchPair captures the start of the text, and what follows the
      repository name cannot extend it. */
  lemma MatchPairSound(s: string) returns (tail: string)
    requires MatchPair(s).Some?
    ensures tail == [] || !IsSegmentChar(tail[0])
    ensures s == MatchPair(s).value.owner + "/" + MatchPair(s).value.repo + tail
  {
    var n := SegmentLength(s);
    var m := SegmentLength(s[n + 1..]);
    tail := s[n + 1 + m..];
    assert tail == s[n + 1..][m..];
    assert s == s[..n] + "/" + s[n + 1..n + 1 + m] + tail;
  }

  /** MatchPair recovers the two segments of `owner/repo` when nothing that
      could extend the repository name follows. */
  lemma MatchPairWritten(o: string, r: string, tail: string)
    requires IsSegment(o) && IsSegment(r)
    requires tail == [] || !IsSegmentChar(tail[0])
    ensures MatchPair(o + "/" + r + tail) == Some(Slug(o, r))
  {
    var s := o + "/" + r + tail;
    SegmentLengthOf(o, "/" + r + tail);
    assert s == o + ("/" + r + tail);
    assert s[|o| + 1..] == r + tail;
    SegmentLengthOf(r, tail);
    assert s[..|o|] == o;
    assert s[|o| + 1..|o| + 1 + |r|] == r;
  }

  /** A greedy segment run stops exactly where a non-segment character
      begins. */
  lemma {:induction false} SegmentLengthOf(seg: string, rest: string)
    requires forall i :: 0 <= i < |seg| ==> IsSegmentChar(seg[i])
    requires rest == [] || !IsSegmentChar(rest[0])
    ensures SegmentLength(seg + rest) == |seg|
    decreases |seg|
  {
    if seg != [] {
      assert (seg + rest)[1..] == seg[1..] + rest;
      SegmentLengthOf(seg[1..], rest);
    } else {
      assert seg + rest == rest;
    }
  }
}
