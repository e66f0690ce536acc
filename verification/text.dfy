/** String operations the source leans on: JavaScript's `String.prototype.trim`
    (the feedback guard) and Python's three-part f-string join (the recommender
    profiles), with a space-splitting inverse for the latter. */
module Text {

  /** The characters `trim` strips: ECMAScript WhiteSpace and LineTerminator. */
  predicate IsWhite(c: char) {
    || c == ' ' || c == '\t' || c == '\n' || c == '\r'
    || c == '\U{000B}' || c == '\U{000C}' || c == '\U{00A0}' || c == '\U{FEFF}'
    || c == '\U{1680}' || ('\U{2000}' <= c <= '\U{200A}')
    || c == '\U{2028}' || c == '\U{2029}' || c == '\U{202F}'
    || c == '\U{205F}' || c == '\U{3000}'
  }

  /** Every character is whitespace (so `!s.trim()` holds). */
  predicate Blank(s: string) {
    forall i :: 0 <= i < |s| ==> IsWhite(s[i])
  }

  /** The first position at or after `i` that is not whitespace (`|s|` if
      there is none). */
  function SkipWhite(s: string, i: nat): (j: nat)
    requires i <= |s|
    ensures i <= j <= |s|
    ensures forall k :: i <= k < j ==> IsWhite(s[k])
    ensures j == |s| || !IsWhite(s[j])
    decreases |s| - i
  {
    if i < |s| && IsWhite(s[i]) then SkipWhite(s, i + 1) else i
  }

  /** The position after the last non-whitespace character below `j`, not
      going under `lo` (`lo` if there is none). */
  function SkipWhiteBack(s: string, lo: nat, j: nat): (e: nat)
    requires lo <= j <= |s|
    ensures lo <= e <= j
    ensures forall k :: e <= k < j ==> IsWhite(s[k])
    ensures e == lo || !IsWhite(s[e - 1])
    decreases j
  {
    if lo < j && IsWhite(s[j - 1]) then SkipWhiteBack(s, lo, j - 1) else j
  }

  /** `s.trim()`: a stretch of the input with only whitespace around it, and
      with no whitespace at either end. */
  function Trim(s: string): (r: string)
    ensures |r| <= |s|
    ensures exists k :: 0 <= k <= |s| - |r| && r == s[k..k + |r|] && Blank(s[..k]) && Blank(s[k + |r|..])
    ensures r == [] || (!IsWhite(r[0]) && !IsWhite(r[|r| - 1]))
  {
    var start := SkipWhite(s, 0);
    var end := SkipWhiteBack(s, start, |s|);
    TrimmedStretch(s, start, end);
    s[start..end]
  }

  /** `s[start..end]` with only whitespace before `start` and from `end` on,
      and non-whitespace at both of its ends, is such a stretch. */
  lemma TrimmedStretch(s: string, start: nat, end: nat)
    requires start <= end <= |s|
    requires forall k :: 0 <= k < start ==> IsWhite(s[k])
    requires forall k :: end <= k < |s| ==> IsWhite(s[k])
    requires start == |s| || !IsWhite(s[start])
    requires end == start || !IsWhite(s[end - 1])
    ensures var r := s[start..end];
      && (exists k :: 0 <= k <= |s| - |r| && r == s[k..k + |r|] && Blank(s[..k]) && Blank(s[k + |r|..]))
      && (r == [] || (!IsWhite(r[0]) && !IsWhite(r[|r| - 1])))
  {
    var r := s[start..end];
    AroundIsBlank(s, start, end);
    assert start <= |s| - |r| && r == s[start..start + |r|];
    assert r != [] ==> r[0] == s[start] && r[|r| - 1] == s[end - 1];
  }

  /** Whitespace before `start` and from `end` on, as `Blank` slices. */
  lemma AroundIsBlank(s: string, start: nat, end: nat)
    requires start <= end <= |s|
    requires forall k :: 0 <= k < start ==> IsWhite(s[k])
    requires forall k :: end <= k < |s| ==> IsWhite(s[k])
    ensures Blank(s[..start]) && Blank(s[end..])
  {
    forall i | 0 <= i < start
      ensures IsWhite(s[..start][i])
    {
    }
    forall i | 0 <= i < |s| - end
      ensures IsWhite(s[end..][i])
    {
      assert s[end..][i] == s[end + i];
    }
  }

  /** The trimmed string is empty exactly when the whole string is whitespace. */
  lemma TrimEmptyIffBlank(s: string)
    ensures Trim(s) == [] <==> Blank(s)
  {
  }

  /** Python's `f"{a} {b} {c}"`. */
  function Join3(a: string, b: string, c: string): string {
    a + " " + b + " " + c
  }

  /** Split on a separator character, keeping empty pieces (Python's
      `str.split(sep)`). */
  function Split(s: string, sep: char): (r: seq<string>)
    ensures |r| >= 1
    decreases |s|
  {
    if |s| == 0 then [""]
    else
      var rest := Split(s[1..], sep);
      if s[0] == sep then [""] + rest else [[s[0]] + rest[0]] + rest[1..]
  }

  lemma {:induction false} SplitNoSeparator(s: string, sep: char)
    requires sep !in s
    ensures Split(s, sep) == [s]
    decreases |s|
  {
    if |s| > 0 {
      SplitNoSeparator(s[1..], sep);
      assert [s[0]] + s[1..] == s;
    }
  }

  lemma {:induction false} SplitAfterPiece(a: string, sep: char, b: string)
    requires sep !in a
    ensures Split(a + [sep] + b, sep) == [a] + Split(b, sep)
    decreases |a|
  {
    var s := a + [sep] + b;
    if |a| == 0 {
      assert s[1..] == b;
    } else {
      assert s[1..] == a[1..] + [sep] + b;
      SplitAfterPiece(a[1..], sep, b);
      assert [a[0]] + a[1..] == a;
    }
  }

  /** Splitting a three-part join on spaces gives the parts back, provided no
      part contains a space itself. */
  lemma SplitJoin3(a: string, b: string, c: string)
    requires ' ' !in a && ' ' !in b && ' ' !in c
    ensures Split(Join3(a, b, c), ' ') == [a, b, c]
  {
    assert Join3(a, b, c) == a + [' '] + (b + [' '] + c);
    SplitAfterPiece(a, ' ', b + [' '] + c);
    SplitAfterPiece(b, ' ', c);
    SplitNoSeparator(c, ' ');
  }
}
