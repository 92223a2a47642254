/** What the pipeline does to one comment's text before re-lexing it: the CJK
    test that skips the comment altogether, the "copyright" guard, and the
    stripping of the comment markers with `lstrip`/`rstrip`. */
module CommentText {
  import opened PyStrings

  /** `lstrip('//')` removes every leading '/'. */
  const LineMarkerChars: set<char> := {'/'}
  /** The block-comment strip (`lstrip` with the opener, `rstrip` with the
      closer) removes characters of this set at both ends. */
  const BlockMarkerChars: set<char> := {'/', '*'}

  /** A character of the class `[一-龥]`: the CJK unified ideographs. */
  predicate IsCjk(c: char)
  {
    '\U{4E00}' <= c <= '\U{9FA5}'
  }

  /** `re.search(r"[一-龥]", s)` finds a match. */
  function ContainsCjk(s: string): (r: bool)
    ensures r <==> exists i :: 0 <= i < |s| && IsCjk(s[i])
    decreases |s|
  {
    if s == [] then false
    else if IsCjk(s[0]) then true
    else
      var r := ContainsCjk(s[1..]);
      assert forall i :: 1 <= i < |s| ==> s[i] == s[1..][i - 1];
      r
  }

  /** `"copyright" in s.lower()`: the guard that keeps a comment's markers. */
  predicate MentionsCopyright(s: string)
  {
    Contains(Lower(s), "copyright")
  }

  /** The nine characters of `s` at `i` spell "copyright" in any mix of
      upper and lower case. */
  predicate CopyrightAt(s: string, i: int)
  {
    0 <= i && i + 9 <= |s| &&
    forall k :: 0 <= k < 9 ==> s[i + k] == "copyright"[k] || s[i + k] == "COPYRIGHT"[k]
  }

  /** The guard is a case-insensitive search: `s.lower()` contains
      "copyright" exactly when some nine characters of `s` spell it in any
      case. */
  lemma CopyrightIgnoresCase(s: string)
    ensures MentionsCopyright(s) <==> exists i :: CopyrightAt(s, i)
  {
    forall i
      ensures OccursAt(Lower(s), "copyright", i) <==> CopyrightAt(s, i)
    {
      CopyrightAtLowered(s, i);
    }
  }

  /** One position of the search: the lowered window matches exactly when
      the original one spells "copyright" in any case. */
  lemma CopyrightAtLowered(s: string, i: int)
    ensures OccursAt(Lower(s), "copyright", i) <==> CopyrightAt(s, i)
  {
    if 0 <= i && i + 9 <= |s| {
      var w := Lower(s)[i..i + 9];
      var lo, up := "copyright", "COPYRIGHT";
      assert forall k :: 0 <= k < 9 ==> 'a' <= lo[k] <= 'z' && up[k] as int == lo[k] as int - 32;
      forall k | 0 <= k < 9
        ensures w[k] == lo[k] <==> s[i + k] == lo[k] || s[i + k] == up[k]
      {
        LowerCharOfLetter(s[i + k], lo[k], up[k]);
      }
      assert w == lo <==> forall k :: 0 <= k < 9 ==> w[k] == lo[k];
    }
  }

  /** A character lowers to the letter `l` exactly when it is `l` or its
      upper-case form `u`. */
  lemma LowerCharOfLetter(c: char, l: char, u: char)
    requires 'a' <= l <= 'z' && u as int == l as int - 32
    ensures LowerChar(c) == l <==> c == l || c == u
  {
  }

  /** `s.lstrip('//')`: the whole leading run of '/' goes, so the result is a
      suffix of `s` that does not start with '/'; when `s` opens with the
      line-comment marker, both of its slashes are among those removed. */
  function StripLineMarker(s: string): (r: string)
    ensures |r| <= |s| && r == s[|s| - |r|..]
    ensures forall i :: 0 <= i < |s| - |r| ==> s[i] == '/'
    ensures r == [] || r[0] != '/'
    ensures StartsWith(s, "//") ==> |r| + 2 <= |s|
  {
    assert StartsWith(s, "//") ==> |LStrip(s, LineMarkerChars)| + 2 <= |s| by {
      if StartsWith(s, "//") {
        LStripRemovesRun(s, LineMarkerChars, 2);
      }
    }
    LStrip(s, LineMarkerChars)
  }

  /** `s.lstrip("/*")` followed by `.rstrip("*/")`: a contiguous piece of `s`
      remains, everything around it is '/' or '*', and the piece neither
      starts nor ends with either character; when `s` opens with the
      block-comment marker, both of its characters are among those removed. */
  function StripBlockMarkers(s: string): (r: string)
    ensures exists lo :: Trimmed(s, r, lo, BlockMarkerChars) && (StartsWith(s, "/*") ==> 2 <= lo)
    ensures r == [] || (r[0] !in BlockMarkerChars && r[|r| - 1] !in BlockMarkerChars)
  {
    StripBothEnds(s, BlockMarkerChars);
    if StartsWith(s, "/*") then
      BlockStripRemovesOpener(s);
      RStrip(LStrip(s, BlockMarkerChars), BlockMarkerChars)
    else
      RStrip(LStrip(s, BlockMarkerChars), BlockMarkerChars)
  }

  /** Both characters of the block-comment opener are removed by the
      leading strip. */
  lemma BlockStripRemovesOpener(s: string)
    requires StartsWith(s, "/*")
    ensures |LStrip(s, BlockMarkerChars)| + 2 <= |s|
  {
    LStripRemovesRun(s, BlockMarkerChars, 2);
  }

  /** The text handed to the re-lexer for a comment spelled `s`: unchanged
      when it mentions copyright; otherwise a line comment loses its leading
      slashes, a block comment its marker runs at both ends; any other text
      is unchanged. Only one of the two strippings ever applies (see
      LineStripLeavesNoBlockMarker). */
  function CommentBody(s: string): string
  {
    if MentionsCopyright(s) then s
    else if StartsWith(s, "//") then StripLineMarker(s)
    else if StartsWith(s, "/*") then StripBlockMarkers(s)
    else s
  }

  /** The marker stripping as the pipeline performs it: two guarded
      reassignments in sequence, the second testing the text the first left. */
  method StripCommentMarkers(spelling: string) returns (content: string)
    ensures content == CommentBody(spelling)
  {
    content := spelling;
    if StartsWith(content, "//") && !MentionsCopyright(content) {
      content := LStrip(content, LineMarkerChars);
      LineStripLeavesNoBlockMarker(spelling);
    }
    if StartsWith(content, "/*") && !MentionsCopyright(content) {
      content := LStrip(content, BlockMarkerChars);
      content := RStrip(content, BlockMarkerChars);
    }
  }

  /** After the line-comment strip the text no longer starts with '/', so
      not with the block-comment opener either, and the block-comment branch
      cannot fire on the same comment. */
  lemma LineStripLeavesNoBlockMarker(s: string)
    ensures !StartsWith(StripLineMarker(s), "/*")
  {
  }

  /** A comment that mentions copyright, or that does not start with '/' and
      so with neither marker, reaches the re-lexer exactly as spelled. */
  lemma UnmarkedOrCopyrightUnchanged(s: string)
    requires MentionsCopyright(s) || !StartsWith(s, "/")
    ensures CommentBody(s) == s
  {
  }

  /** Lower-casing maps only 'y' and 'Y' to 'y', so text without either cannot
      mention copyright. */
  lemma NoYNoCopyright(s: string)
    requires 'y' !in s && 'Y' !in s
    ensures !MentionsCopyright(s)
  {
    forall i | 0 <= i && i + 9 <= |s|
      ensures !OccursAt(Lower(s), "copyright", i)
    {
      assert s[i + 3] in s;
      assert Lower(s)[i..i + 9][3] != "copyright"[3];
    }
  }

  /** A line comment whose spelling is `k` slashes and then a character
      other than '/' loses exactly those `k` slashes. */
  lemma LineStripExact(s: string, k: nat)
    requires k < |s| && s[k] != '/'
    requires forall i :: 0 <= i < k ==> s[i] == '/'
    ensures StripLineMarker(s) == s[k..]
  {
  }

  /** A line comment "//" + t, where t does not start with '/', reaches the
      re-lexer as t when it does not mention copyright. */
  lemma LineCommentLosesMarker(t: string)
    requires t == [] || t[0] != '/'
    requires !MentionsCopyright("//" + t)
    ensures CommentBody("//" + t) == t
  {
    var s := "//" + t;
    assert s[0] == '/' && s[1] == '/';
    assert StartsWith(s, "//");
    if t != [] {
      LineStripExact(s, 2);
    }
  }

  /** The first comment of the project's unit test loses its "//" marker
      and keeps the leading blank, as the test expects. */
  lemma UnitTestProseBody()
    ensures CommentBody("// test comment 1") == " test comment 1"
  {
    var t := " test comment 1";
    assert "//" + t == "// test comment 1";
    NoYNoCopyright("//" + t);
    LineCommentLosesMarker(t);
  }
}
