/**
 * The functions of Go's `strings` package that the core uses, on strings
 * of Unicode scalar values. Case mapping covers ASCII letters only.
 */
module GoStrings {

  /** unicode.IsSpace, the predicate strings.TrimSpace trims by. */
  predicate IsSpace(c: char) {
    c == ' ' || c == '\t' || c == '\n' || c == '\r' || c == '\U{000B}' || c == '\U{000C}'
    || c == '\U{0085}' || c == '\U{00A0}' || c == '\U{1680}'
    || ('\U{2000}' <= c <= '\U{200A}')
    || c == '\U{2028}' || c == '\U{2029}' || c == '\U{202F}' || c == '\U{205F}' || c == '\U{3000}'
  }

  ghost predicate AllSpace(s: string) {
    forall k | 0 <= k < |s| :: IsSpace(s[k])
  }

  /** No white space at either end. */
  ghost predicate Unpadded(s: string) {
    s == [] || (!IsSpace(s[0]) && !IsSpace(s[|s| - 1]))
  }

  /** The number of white-space characters at the front of s. */
  function LeadingSpaces(s: string): (n: nat)
    ensures n <= |s|
    ensures AllSpace(s[..n])
    ensures n < |s| ==> !IsSpace(s[n])
  {
    if |s| > 0 && IsSpace(s[0]) then 1 + LeadingSpaces(s[1..]) else 0
  }

  /** The number of white-space characters at the back of s. */
  function TrailingSpaces(s: string): (n: nat)
    ensures n <= |s|
    ensures AllSpace(s[|s| - n..])
    ensures n < |s| ==> !IsSpace(s[|s| - 1 - n])
  {
    if |s| > 0 && IsSpace(s[|s| - 1]) then 1 + TrailingSpaces(s[..|s| - 1]) else 0
  }

  /**
   * strings.TrimSpace: the part of s between its leading and its trailing
   * white space.
   */
  function TrimSpace(s: string): (r: string)
    ensures Unpadded(r)
    ensures |r| <= |s|
  {
    var i := LeadingSpaces(s);
    var t := s[i..];
    var j := TrailingSpaces(t);
    t[..|t| - j]
  }

  /** TrimSpace removes white space only: what it drops on either side is all white space. */
  lemma TrimSpaceSurrounded(s: string)
    ensures exists i | 0 <= i <= |s| - |TrimSpace(s)| ::
      s[i..i + |TrimSpace(s)|] == TrimSpace(s) && AllSpace(s[..i]) && AllSpace(s[i + |TrimSpace(s)|..])
  {
    var i := LeadingSpaces(s);
    var t := s[i..];
    var j := TrailingSpaces(t);
    var r := t[..|t| - j];
    assert r == TrimSpace(s);
    assert s[i..i + |r|] == r;
    assert s[i + |r|..] == t[|t| - j..];
    assert AllSpace(s[..i]) && AllSpace(s[i + |r|..]);
    assert 0 <= i <= |s| - |r| && s[i..i + |r|] == r && AllSpace(s[..i]) && AllSpace(s[i + |r|..]);
  }

  lemma AllSpaceAppend(a: string, b: string)
    requires AllSpace(a) && AllSpace(b)
    ensures AllSpace(a + b)
  {
    assert forall k | 0 <= k < |a + b| :: (a + b)[k] == if k < |a| then a[k] else b[k - |a|];
  }

  lemma {:induction false} LeadingSpacesAt(s: string, i: nat)
    requires i <= |s| && AllSpace(s[..i]) && (i < |s| ==> !IsSpace(s[i]))
    ensures LeadingSpaces(s) == i
    decreases i
  {
    if i > 0 {
      assert IsSpace(s[..i][0]);
      assert s[1..][..i - 1] == s[..i][1..];
      LeadingSpacesAt(s[1..], i - 1);
    }
  }

  lemma {:induction false} TrailingSpacesAt(s: string, j: nat)
    requires j <= |s| && AllSpace(s[|s| - j..]) && (j < |s| ==> !IsSpace(s[|s| - 1 - j]))
    ensures TrailingSpaces(s) == j
    decreases j
  {
    if j > 0 {
      var t := s[..|s| - 1];
      assert IsSpace(s[|s| - j..][j - 1]);
      assert t[|t| - (j - 1)..] == s[|s| - j..][..j - 1];
      TrailingSpacesAt(t, j - 1);
    }
  }

  /** TrimSpace(s) is the only unpadded string that s surrounds with white space. */
  lemma TrimSpaceUnique(s: string, r: string, i: nat)
    requires i + |r| <= |s| && s[i..i + |r|] == r
    requires AllSpace(s[..i]) && AllSpace(s[i + |r|..]) && Unpadded(r)
    ensures TrimSpace(s) == r
  {
    if r == [] {
      AllSpaceAppend(s[..i], s[i..]);
      assert s[..i] + s[i..] == s;
      LeadingSpacesAt(s, |s|);
    } else {
      assert s[i] == r[0];
      LeadingSpacesAt(s, i);
      var t := s[i..];
      var j := |t| - |r|;
      assert t[|t| - j..] == s[i + |r|..];
      assert t[|t| - 1 - j] == r[|r| - 1];
      TrailingSpacesAt(t, j);
      assert t[..|t| - j] == r;
    }
  }

  lemma TrimSpaceIdempotent(s: string)
    ensures TrimSpace(TrimSpace(s)) == TrimSpace(s)
  {
    TrimSpaceUnique(TrimSpace(s), TrimSpace(s), 0);
  }

  /** A string without white space at its ends is left as it is. */
  lemma TrimSpaceOfUnpadded(s: string)
    requires Unpadded(s)
    ensures TrimSpace(s) == s
  {
    TrimSpaceUnique(s, s, 0);
  }

  /** TrimSpace yields "" exactly for strings made only of white space. */
  lemma TrimSpaceEmpty(s: string)
    ensures TrimSpace(s) == [] <==> AllSpace(s)
  {
    if AllSpace(s) {
      AllSpaceTrimsToEmpty(s);
    }
    if TrimSpace(s) == [] {
      EmptyTrimIsAllSpace(s);
    }
  }

  lemma AllSpaceTrimsToEmpty(s: string)
    requires AllSpace(s)
    ensures TrimSpace(s) == []
  {
    assert s[..|s|] == s;
    LeadingSpacesAt(s, |s|);
  }

  lemma EmptyTrimIsAllSpace(s: string)
    requires TrimSpace(s) == []
    ensures AllSpace(s)
  {
    var n := LeadingSpaces(s);
    var t := s[n..];
    var j := TrailingSpaces(t);
    assert j == |t|;
    assert t[|t| - j..] == t;
    AllSpaceAppend(s[..n], t);
    assert s[..n] + t == s;
  }

  /** The ASCII letter mapping of unicode.ToLower. */
  function LowerChar(c: char): char {
    if 'A' <= c <= 'Z' then (c as int + 32) as char else c
  }

  /** strings.ToLower, restricted to ASCII case mapping. */
  function ToLower(s: string): (r: string)
    ensures |r| == |s|
    ensures forall k | 0 <= k < |s| :: r[k] == LowerChar(s[k])
  {
    if s == [] then [] else [LowerChar(s[0])] + ToLower(s[1..])
  }

  ghost predicate NoUpper(s: string) {
    forall k | 0 <= k < |s| :: !('A' <= s[k] <= 'Z')
  }

  lemma ToLowerNoUpper(s: string)
    ensures NoUpper(ToLower(s))
    ensures ToLower(ToLower(s)) == ToLower(s)
  {
  }

  /** strings.EqualFold, restricted to ASCII letters: equal under simple case folding. */
  function EqualFold(a: string, b: string): bool {
    |a| == |b| && (a == [] || (LowerChar(a[0]) == LowerChar(b[0]) && EqualFold(a[1..], b[1..])))
  }

  /** EqualFold compares the lower-cased strings. */
  lemma {:induction false} EqualFoldIsLowerEqual(a: string, b: string)
    ensures EqualFold(a, b) <==> ToLower(a) == ToLower(b)
  {
    if |a| == |b| && a != [] {
      EqualFoldIsLowerEqual(a[1..], b[1..]);
      assert ToLower(a) == [LowerChar(a[0])] + ToLower(a[1..]);
      assert ToLower(b) == [LowerChar(b[0])] + ToLower(b[1..]);
      if ToLower(a) == ToLower(b) {
        assert ToLower(a)[1..] == ToLower(a[1..]);
        assert ToLower(b)[1..] == ToLower(b[1..]);
      }
    }
  }

  lemma {:induction false} EqualFoldReflexive(a: string)
    ensures EqualFold(a, a)
  {
    if a != [] { EqualFoldReflexive(a[1..]); }
  }

  /** strings.IndexByte: the first position of c in s, or -1. */
  function IndexByte(s: string, c: char): (r: int)
    ensures -1 <= r < |s|
    ensures r == -1 <==> c !in s
    ensures r >= 0 ==> s[r] == c && c !in s[..r]
  {
    if s == [] then -1
    else if s[0] == c then 0
    else
      var k := IndexByte(s[1..], c);
      assert s[1..] == s[1..][..|s| - 1];
      if k == -1 then -1
      else
        assert s[..k + 1] == [s[0]] + s[1..][..k];
        k + 1
  }

  /**
   * strings.SplitN(s, sep, 2) for a one-character separator: s cut at the
   * first sep into two parts, or [s] when sep does not occur.
   */
  function SplitN2(s: string, sep: char): (parts: seq<string>)
    ensures |parts| == 1 || |parts| == 2
    ensures |parts| == 1 <==> sep !in s
    ensures |parts| == 1 ==> parts[0] == s
    ensures |parts| == 2 ==> parts[0] + [sep] + parts[1] == s && sep !in parts[0]
  {
    var i := IndexByte(s, sep);
    if i < 0 then [s] else
      assert s == s[..i] + [sep] + s[i + 1..];
      [s[..i], s[i + 1..]]
  }

  /** The cut is unique: a separator-free head followed by sep is split off exactly. */
  lemma SplitN2At(head: string, sep: char, tail: string)
    requires sep !in head
    ensures SplitN2(head + [sep] + tail, sep) == [head, tail]
  {
    var s := head + [sep] + tail;
    var i := IndexByte(s, sep);
    assert s[|head|] == sep;
    assert s[..i] == head && s[i + 1..] == tail;
  }
}
