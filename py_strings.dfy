/** The handful of Python `str` operations the comment pipeline relies on:
    `lower`, `startswith`, the substring test `p in s`, and `lstrip`/`rstrip`
    with a string argument, which Python reads as a SET of characters to
    remove, not as a fixed prefix or suffix. */
module PyStrings {

  /** `s.startswith(p)`. */
  predicate StartsWith(s: string, p: string)
  {
    |p| <= |s| && forall i :: 0 <= i < |p| ==> s[i] == p[i]
  }

  /** True when `p` occurs in `s` at position `i`. */
  predicate OccursAt(s: string, p: string, i: int)
  {
    0 <= i && i + |p| <= |s| && s[i..i + |p|] == p
  }

  /** The substring test `p in s`. */
  function Contains(s: string, p: string): (r: bool)
    ensures r <==> exists i :: OccursAt(s, p, i)
    decreases |s|
  {
    if |s| < |p| then false
    else if s[..|p|] == p then
      assert OccursAt(s, p, 0);
      true
    else
      var r := Contains(s[1..], p);
      assert forall i {:trigger OccursAt(s, p, i)} :: 1 <= i ==> (OccursAt(s, p, i) <==> OccursAt(s[1..], p, i - 1)) by {
        forall i | 1 <= i { OccursInTail(s, p, i); }
      }
      assert !OccursAt(s, p, 0) by { assert s[0..|p|] == s[..|p|]; }
      if r then
        var j :| OccursAt(s[1..], p, j);
        assert OccursAt(s, p, j + 1);
        true
      else
        false
  }

  /** An occurrence at a positive position of `s` is one in `s[1..]`, one place earlier. */
  lemma OccursInTail(s: string, p: string, i: int)
    requires 1 <= |s| && 1 <= i
    ensures OccursAt(s, p, i) <==> OccursAt(s[1..], p, i - 1)
  {
    if i + |p| <= |s| {
      var a, b := s[i..i + |p|], s[1..][i - 1..i - 1 + |p|];
      assert |a| == |b| && forall k :: 0 <= k < |a| ==> a[k] == s[i + k] == b[k];
      assert a == b;
    }
  }

  /** `c.lower()` for one character of the ASCII range. */
  function LowerChar(c: char): char
  {
    if 'A' <= c <= 'Z' then (c as int - 'A' as int + 'a' as int) as char else c
  }

  /** `s.lower()`, restricted to the ASCII case mapping. */
  function Lower(s: string): (r: string)
    ensures |r| == |s|
    ensures forall i :: 0 <= i < |s| ==> r[i] == LowerChar(s[i])
  {
    seq(|s|, i requires 0 <= i < |s| => LowerChar(s[i]))
  }

  /** The length of the longest prefix of `s` made only of characters of
      `chars`. */
  function LeadingRun(s: string, chars: set<char>): (n: nat)
    ensures n <= |s|
    ensures forall i :: 0 <= i < n ==> s[i] in chars
    ensures n == |s| || s[n] !in chars
    decreases |s|
  {
    if |s| > 0 && s[0] in chars then 1 + LeadingRun(s[1..], chars) else 0
  }

  /** The length of the longest suffix of `s` made only of characters of
      `chars`. */
  function TrailingRun(s: string, chars: set<char>): (n: nat)
    ensures n <= |s|
    ensures forall i :: |s| - n <= i < |s| ==> s[i] in chars
    ensures n == |s| || s[|s| - n - 1] !in chars
    decreases |s|
  {
    if |s| > 0 && s[|s| - 1] in chars then 1 + TrailingRun(s[..|s| - 1], chars) else 0
  }

  /** `s.lstrip(chars)`: drops the longest prefix made only of characters of `chars`. */
  function LStrip(s: string, chars: set<char>): (r: string)
    ensures |r| <= |s| && r == s[|s| - |r|..]
    ensures forall i :: 0 <= i < |s| - |r| ==> s[i] in chars
    ensures r == [] || r[0] !in chars
  {
    s[LeadingRun(s, chars)..]
  }

  /** `s.rstrip(chars)`: drops the longest suffix made only of characters of `chars`. */
  function RStrip(s: string, chars: set<char>): (r: string)
    ensures |r| <= |s| && r == s[..|r|]
    ensures forall i :: |r| <= i < |s| ==> s[i] in chars
    ensures r == [] || r[|r| - 1] !in chars
  {
    s[..|s| - TrailingRun(s, chars)]
  }

  /** A leading run of `k` characters of `chars` is removed entirely (and
      possibly more). */
  lemma LStripRemovesRun(s: string, chars: set<char>, k: nat)
    requires k <= |s|
    requires forall i :: 0 <= i < k ==> s[i] in chars
    ensures |LStrip(s, chars)| + k <= |s|
  {
  }

  /** `r` is the piece s[lo..lo + |r|] of `s`, and everything of `s` around it
      is a character of `chars`. */
  predicate Trimmed(s: string, r: string, lo: int, chars: set<char>)
  {
    0 <= lo && lo + |r| <= |s| && r == s[lo..lo + |r|] &&
    (forall i :: 0 <= i < lo ==> s[i] in chars) &&
    (forall i :: lo + |r| <= i < |s| ==> s[i] in chars)
  }

  /** `s.lstrip(chars).rstrip(chars)` is the piece of `s` that starts where
      lstrip stopped, with only `chars` around it, and it neither starts nor
      ends with a character of `chars`. */
  lemma StripBothEnds(s: string, chars: set<char>)
    ensures var l := LStrip(s, chars); var r := RStrip(l, chars);
      Trimmed(s, r, |s| - |l|, chars) &&
      (r == [] || (r[0] !in chars && r[|r| - 1] !in chars))
  {
    var l := LStrip(s, chars);
    var r := RStrip(l, chars);
    StripBothEndsPiece(s, chars, l, r);
    assert r != [] ==> r[0] == l[0];
  }

  /** The piece RStrip keeps of LStrip's result, located in `s`. */
  lemma StripBothEndsPiece(s: string, chars: set<char>, l: string, r: string)
    requires l == LStrip(s, chars) && r == RStrip(l, chars)
    ensures Trimmed(s, r, |s| - |l|, chars)
  {
    var lo := |s| - |l|;
    assert r == s[lo..lo + |r|] by {
      assert forall k :: 0 <= k < |r| ==> r[k] == l[k] == s[lo + k];
    }
    forall i | lo + |r| <= i < |s|
      ensures s[i] in chars
    {
      assert s[i] == l[i - lo];
    }
  }

  /** The three properties in LStrip's contract pin its result down: any
      suffix of `s` that has them IS `s.lstrip(chars)`. */
  lemma LStripUnique(s: string, chars: set<char>, r: string)
    requires |r| <= |s| && r == s[|s| - |r|..]
    requires forall i :: 0 <= i < |s| - |r| ==> s[i] in chars
    requires r == [] || r[0] !in chars
    ensures r == LStrip(s, chars)
  {
  }

  /** Likewise for RStrip: any prefix of `s` with RStrip's three properties
      is `s.rstrip(chars)`. */
  lemma RStripUnique(s: string, chars: set<char>, r: string)
    requires |r| <= |s| && r == s[..|r|]
    requires forall i :: |r| <= i < |s| ==> s[i] in chars
    requires r == [] || r[|r| - 1] !in chars
    ensures r == RStrip(s, chars)
  {
  }
}
