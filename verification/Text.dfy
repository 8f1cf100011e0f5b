/** The few string operations of the Go standard library that the program relies on,
    over sequences of Unicode scalar values. */
module Text {

  /** The white space that Go trims: ASCII blanks, NEL, NBSP and the Unicode space separators. */
  predicate IsSpace(c: char) {
    || '\t' <= c <= '\r' || c == ' ' || c == '\U{85}' || c == '\U{A0}' || c == '\U{1680}'
    || '\U{2000}' <= c <= '\U{200A}' || c == '\U{2028}' || c == '\U{2029}'
    || c == '\U{202F}' || c == '\U{205F}' || c == '\U{3000}'
  }

  /** No white space at either end. */
  predicate Trimmed(s: string) {
    s == "" || (!IsSpace(s[0]) && !IsSpace(s[|s| - 1]))
  }

  predicate Blank(s: string) {
    forall i :: 0 <= i < |s| ==> IsSpace(s[i])
  }

  /** First position from i on with no white space. */
  function SkipBlanks(s: string, i: nat): (j: nat)
    requires i <= |s|
    ensures i <= j <= |s| && (j < |s| ==> !IsSpace(s[j]))
    ensures forall k :: i <= k < j ==> IsSpace(s[k])
    decreases |s| - i
  {
    if i == |s| || !IsSpace(s[i]) then i else SkipBlanks(s, i + 1)
  }

  /** Last position up to i with no white space before it. */
  function SkipBlanksBack(s: string, i: nat): (j: nat)
    requires i <= |s|
    ensures j <= i && (j > 0 ==> !IsSpace(s[j - 1]))
    ensures forall k :: j <= k < i ==> IsSpace(s[k])
  {
    if i == 0 || !IsSpace(s[i - 1]) then i else SkipBlanksBack(s, i - 1)
  }

  function TrimLeft(s: string): (r: string)
    ensures r == "" || !IsSpace(r[0])
    ensures |r| <= |s| && s[|s| - |r|..] == r
    ensures Blank(s[..|s| - |r|])
  {
    s[SkipBlanks(s, 0)..]
  }

  function TrimRight(s: string): (r: string)
    ensures r == "" || !IsSpace(r[|r| - 1])
    ensures |r| <= |s| && s[..|r|] == r
    ensures Blank(s[|r|..])
  {
    s[..SkipBlanksBack(s, |s|)]
  }

  /** `strings.TrimSpace`: the longest middle part with no white space at either end. */
  function TrimSpace(s: string): (r: string)
    ensures Trimmed(r) && |r| <= |s|
    ensures Trimmed(s) ==> r == s
    ensures r == "" <==> Blank(s)
  {
    var t := TrimLeft(s);
    assert t != "" ==> !IsSpace(s[|s| - |t|]);
    TrimRight(t)
  }

  lemma BlankBoth(a: string, b: string)
    requires Blank(a) && Blank(b)
    ensures Blank(a + b)
  {
  }

  /** What trimming takes away is blank. */
  lemma TrimSpaceInWords(s: string) returns (before: string, after: string)
    ensures Blank(before) && Blank(after) && s == before + TrimSpace(s) + after
  {
    hide SkipBlanks, SkipBlanksBack, Blank, Trimmed;
    var t := TrimLeft(s);
    var r := TrimRight(t);
    before, after := s[..|s| - |t|], t[|r|..];
    assert s == before + t && t == r + after;
  }

  /** Whatever blanks are put around a text that has none at its ends, trimming takes exactly those away. */
  lemma TrimmedIsMiddle(before: string, middle: string, after: string)
    requires Blank(before) && Blank(after) && middle != "" && Trimmed(middle)
    ensures TrimSpace(before + middle + after) == middle
  {
    var s := before + middle + after;
    assert s[|before|] == middle[0] && s[|before| + |middle| - 1] == middle[|middle| - 1];
    assert forall k | 0 <= k < |before| :: s[k] == before[k];
    assert SkipBlanks(s, 0) == |before|;
    var t := TrimLeft(s);
    assert t == middle + after;
    assert forall k | |middle| <= k < |t| :: t[k] == after[k - |middle|];
    assert t[|middle| - 1] == middle[|middle| - 1];
    assert SkipBlanksBack(t, |t|) == |middle|;
  }

  /** `strings.LastIndex` for a single character: its last position, or -1. */
  function LastIndex(s: string, c: char): (i: int)
    ensures -1 <= i < |s|
    ensures i >= 0 ==> s[i] == c
    ensures forall k :: i < k < |s| ==> s[k] != c
  {
    if s == "" then -1
    else if s[|s| - 1] == c then |s| - 1
    else LastIndex(s[..|s| - 1], c)
  }

  /** First position of a character, or -1. */
  function IndexOf(s: string, c: char): (i: int)
    ensures -1 <= i < |s|
    ensures i >= 0 ==> s[i] == c
    ensures forall k :: 0 <= k < (if i < 0 then |s| else i) ==> s[k] != c
  {
    if s == "" then -1
    else if s[0] == c then 0
    else
      var i := IndexOf(s[1..], c);
      if i < 0 then -1 else i + 1
  }
}
