/** The optional value used throughout the model. */
module Optional {
  datatype Option<+T> = None | Some(value: T)
}

/**
 * The JavaScript string built-ins the action relies on, on strings of
 * Unicode scalar values: white space as `\s` and `trim` see it,
 * `includes`, `split` on one character, case-insensitive comparison with an
 * ASCII literal, and the decimal rendering of a non-negative integer.
 */
module Strings {

  /** ECMAScript WhiteSpace and LineTerminator code points: the set that a
      regular expression's `\s` matches and that `String.prototype.trim`
      removes. */
  predicate IsSpace(c: char) {
    || c == '\t' || c == '\n' || c == '\U{000B}' || c == '\U{000C}' || c == '\r'
    || c == ' ' || c == '\U{00A0}' || c == '\U{1680}'
    || ('\U{2000}' <= c <= '\U{200A}')
    || c == '\U{2028}' || c == '\U{2029}' || c == '\U{202F}' || c == '\U{205F}'
    || c == '\U{3000}' || c == '\U{FEFF}'
  }

  predicate NoSpace(s: string) {
    forall i :: 0 <= i < |s| ==> !IsSpace(s[i])
  }

  predicate AllSpace(s: string) {
    forall i :: 0 <= i < |s| ==> IsSpace(s[i])
  }

  predicate StartsWith(s: string, p: string) {
    |p| <= |s| && s[..|p|] == p
  }

  predicate EndsWith(s: string, p: string) {
    |p| <= |s| && s[|s| - |p|..] == p
  }

  /** Leading white space removed (also what a greedy `\s*` consumes). */
  function TrimStart(s: string): string
    decreases |s|
  {
    if s != [] && IsSpace(s[0]) then TrimStart(s[1..]) else s
  }

  /** TrimStart leaves a suffix of `s`, drops only white space, and stops
      at a character that is not white space. */
  lemma {:induction false} TrimStartSlice(s: string)
    ensures var r := TrimStart(s);
      && |r| <= |s| && r == s[|s| - |r|..]
      && AllSpace(s[..|s| - |r|])
      && (r == [] || !IsSpace(r[0]))
    decreases |s|
  {
    if s != [] && IsSpace(s[0]) {
      TrimStartSlice(s[1..]);
      var r := TrimStart(s);
      assert s[1..][|s| - 1 - |r|..] == s[|s| - |r|..];
      assert forall k :: 1 <= k < |s| - |r| ==> s[k] == s[1..][..|s| - 1 - |r|][k - 1];
    }
  }

  /** Trailing white space removed. */
  function TrimEnd(s: string): string
    decreases |s|
  {
    if s != [] && IsSpace(s[|s| - 1]) then TrimEnd(s[..|s| - 1]) else s
  }

  /** TrimEnd leaves a prefix of `s`, drops only white space, and stops at
      a character that is not white space. */
  lemma {:induction false} TrimEndSlice(s: string)
    ensures var r := TrimEnd(s);
      && |r| <= |s| && r == s[..|r|]
      && AllSpace(s[|r|..])
      && (r == [] || !IsSpace(r[|r| - 1]))
    decreases |s|
  {
    if s != [] && IsSpace(s[|s| - 1]) {
      TrimEndSlice(s[..|s| - 1]);
      var r := TrimEnd(s);
      assert s[..|s| - 1][..|r|] == s[..|r|];
      assert forall k :: |r| <= k < |s| - 1 ==> s[k] == s[..|s| - 1][|r|..][k - |r|];
    }
  }

  /** `String.prototype.trim`: white space removed at both ends. */
  function Trim(s: string): string {
    TrimEnd(TrimStart(s))
  }

  /** Trim leaves the slice of `s` between two runs of white space, with no
      white space at either end, and leaves a string without white space
      unchanged. */
  lemma TrimSlice(s: string)
    ensures var r := Trim(s);
      && (exists i, j :: 0 <= i <= j <= |s| && r == s[i..j] && AllSpace(s[..i]) && AllSpace(s[j..]))
      && (r == [] || (!IsSpace(r[0]) && !IsSpace(r[|r| - 1])))
      && (NoSpace(s) ==> r == s)
  {
    var a := TrimStart(s);
    TrimStartSlice(s);
    var r := TrimEnd(a);
    TrimEndSlice(a);
    var i := |s| - |a|;
    var j := i + |r|;
    assert r == s[i..j];
    assert s[j..] == a[|r|..];
    assert AllSpace(s[..i]) && AllSpace(s[j..]);
    if r != [] {
      assert r[0] == a[0];
    }
    if NoSpace(s) && s != [] {
      assert !IsSpace(s[0]) && a == s;
      assert !IsSpace(s[|s| - 1]) && r == s;
    }
  }

  /** TrimStart skips exactly a run of white space that is followed by a
      character that is not white space (or by nothing). */
  lemma {:induction false} TrimStartAfterSpaces(spaces: string, s: string)
    requires AllSpace(spaces)
    requires s == [] || !IsSpace(s[0])
    ensures TrimStart(spaces + s) == s
    decreases |spaces|
  {
    if spaces == [] {
      assert spaces + s == s;
    } else {
      assert (spaces + s)[1..] == spaces[1..] + s;
      TrimStartAfterSpaces(spaces[1..], s);
    }
  }

  /** `String.prototype.includes`: `sub` occurs somewhere in `s`. */
  predicate Contains(s: string, sub: string)
    decreases |s|
  {
    StartsWith(s, sub) || (s != [] && Contains(s[1..], sub))
  }

  /** An occurrence at a known position is found by Contains. */
  lemma {:induction false} ContainsAt(s: string, sub: string, i: nat)
    requires i + |sub| <= |s| && s[i..i + |sub|] == sub
    ensures Contains(s, sub)
    decreases i
  {
    if i > 0 {
      assert s[1..][i - 1..i - 1 + |sub|] == sub;
      ContainsAt(s[1..], sub, i - 1);
    }
  }

  /** Conversely, Contains holds only when `sub` occurs at some position. */
  lemma {:induction false} ContainsSound(s: string, sub: string) returns (i: nat)
    requires Contains(s, sub)
    ensures i + |sub| <= |s| && s[i..i + |sub|] == sub
    decreases |s|
  {
    if StartsWith(s, sub) {
      i := 0;
    } else {
      var j := ContainsSound(s[1..], sub);
      i := j + 1;
      assert s[1..][j..j + |sub|] == s[i..i + |sub|];
    }
  }

  /** `String.prototype.split` with a one-character separator: the pieces
      between separators, in order, always at least one. */
  function Split(s: string, sep: char): (parts: seq<string>)
    ensures |parts| >= 1
    ensures forall k :: 0 <= k < |parts| ==> sep !in parts[k]
    ensures Join(parts, sep) == s
    decreases |s|
  {
    if s == [] then [[]]
    else
      var rest := Split(s[1..], sep);
      if s[0] == sep then [[]] + rest
      else [[s[0]] + rest[0]] + rest[1..]
  }

  /** The inverse of Split: the pieces with the separator between them. */
  function Join(parts: seq<string>, sep: char): string
    requires |parts| >= 1
    decreases |parts|
  {
    if |parts| == 1 then parts[0] else parts[0] + [sep] + Join(parts[1..], sep)
  }

  /** The first piece of a split is everything before the first separator:
      the whole string when there is none, and otherwise the string begins
      with the first piece, the separator and the second piece, which runs
      up to the next separator or to the end. */
  lemma SplitFirstTwo(s: string, sep: char)
    ensures var parts := Split(s, sep);
      && (|parts| == 1 <==> sep !in s)
      && (|parts| == 1 ==> parts[0] == s)
      && (|parts| >= 2 ==> StartsWith(s, parts[0] + [sep] + parts[1]))
      && (|parts| >= 2 ==>
            var k := |parts[0]| + 1 + |parts[1]|;
            k <= |s| && (k == |s| || s[k] == sep))
  {
    var parts := Split(s, sep);
    if |parts| >= 2 {
      var rest := Join(parts[1..], sep);
      assert s == parts[0] + [sep] + rest;
      assert parts[1..][0] == parts[1];
      assert rest[..|parts[1]|] == parts[1];
      assert s[..|parts[0]| + 1 + |parts[1]|] == parts[0] + [sep] + parts[1];
      assert s[|parts[0]|] == sep;
      if |parts| > 2 {
        assert rest == parts[1] + [sep] + Join(parts[2..], sep);
        assert rest[|parts[1]|] == sep;
      }
    }
  }

  /** A string holding the separator exactly once splits into the two sides. */
  lemma {:induction false} SplitAtOnly(a: string, b: string, sep: char)
    requires sep !in a && sep !in b
    ensures Split(a + [sep] + b, sep) == [a, b]
    decreases |a|
  {
    if a == [] {
      assert a + [sep] + b == [sep] + b;
      assert ([sep] + b)[1..] == b;
      SplitWithout(b, sep);
    } else {
      assert (a + [sep] + b)[1..] == a[1..] + [sep] + b;
      SplitAtOnly(a[1..], b, sep);
      assert [a[0]] + a[1..] == a;
    }
  }

  /** A string without the separator is a single piece. */
  lemma {:induction false} SplitWithout(s: string, sep: char)
    requires sep !in s
    ensures Split(s, sep) == [s]
    decreases |s|
  {
    if s != [] {
      assert s[0] in s;
      SplitWithout(s[1..], sep);
      assert [s[0]] + s[1..] == s;
    }
  }

  /** Canonicalisation of a character for a case-insensitive regular
      expression without the `u` flag: upper-casing, where a character
      outside ASCII never becomes an ASCII one. Against the ASCII literals of
      this model, ASCII upper-casing therefore decides a match exactly. */
  function Upper(c: char): char {
    if 'a' <= c <= 'z' then (c as int - 32) as char else c
  }

  /** `s` begins with the ASCII literal `lit`, ignoring case. */
  predicate StartsWithIgnoringCase(s: string, lit: string) {
    |lit| <= |s| && forall i :: 0 <= i < |lit| ==> Upper(s[i]) == Upper(lit[i])
  }

  function DigitChar(d: nat): (c: char)
    requires d < 10
    ensures '0' <= c <= '9'
  {
    ('0' as int + d) as char
  }

  /** The decimal rendering of a non-negative integer, as a template
      literal prints it: no sign, no leading zero. */
  function DecimalString(n: nat): (s: string)
    ensures |s| >= 1
    decreases n
  {
    if n < 10 then [DigitChar(n)] else DecimalString(n / 10) + [DigitChar(n % 10)]
  }

  /** The number that a string of decimal digits denotes, most significant
      digit first. */
  function DigitsValue(s: string): nat
    requires forall i :: 0 <= i < |s| ==> '0' <= s[i] <= '9'
    decreases |s|
  {
    if s == [] then 0 else 10 * DigitsValue(s[..|s| - 1]) + (s[|s| - 1] as int - '0' as int)
  }

  /** The rendering is all digits, with no leading zero, and the digits
      denote `n`. */
  lemma {:induction false} DecimalStringDigits(n: nat)
    ensures var s := DecimalString(n);
      && (forall i :: 0 <= i < |s| ==> '0' <= s[i] <= '9')
      && (|s| > 1 ==> s[0] != '0')
      && DigitsValue(s) == n
    decreases n
  {
    var s := DecimalString(n);
    if n >= 10 {
      DecimalStringDigits(n / 10);
      assert s[..|s| - 1] == DecimalString(n / 10);
      assert forall i :: 0 <= i < |s| - 1 ==> s[i] == DecimalString(n / 10)[i];
      if n / 10 < 10 {
        assert s[0] == DigitChar(n / 10);
      }
      assert s[|s| - 1] == DigitChar(n % 10);
    } else {
      assert s[..0] == [];
    }
  }

  /** Distinct numbers have distinct renderings. */
  lemma {:induction false} DecimalStringInjective(a: nat, b: nat)
    requires DecimalString(a) == DecimalString(b)
    ensures a == b
    decreases a
  {
    var s := DecimalString(a);
    if a < 10 && b < 10 {
      assert s[0] == DigitChar(a) && s[0] == DigitChar(b);
    } else if a >= 10 && b >= 10 {
      assert DigitChar(a % 10) == s[|s| - 1] == DigitChar(b % 10);
      assert DecimalString(a / 10) == s[..|s| - 1] == DecimalString(b / 10);
      DecimalStringInjective(a / 10, b / 10);
    }
  }
}
