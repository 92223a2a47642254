/** The checker's two entry points: collecting the C/C++ files of a
    directory listing by suffix, and walking one file's token stream to
    decide, comment by comment, whether the comment reads as English.
    The lexer is a parameter: `fileTokens` is what it produced for the whole
    file, `relex` what it produces for a stand-alone comment body. */
module CoCode {
  import opened PyStrings
  import opened SeqFilter
  import opened Tokens
  import opened CommentText
  import opened EnglishScan

  /** The extensions `getfiles_fromdir` keeps when none are given. */
  const DefaultExtensions: set<string> := {".cpp", ".hpp", ".cc", ".h"}

  /** The test `path.suffix in extensions`, as a function of the path. */
  function SuffixIn<P>(suffix: P -> string, extensions: set<string>): P -> bool
  {
    p => suffix(p) in extensions
  }

  /** The paths of the directory listing whose suffix is one of `extensions`,
      in listing order. */
  method GetFilesFromDir<P>(paths: seq<P>, suffix: P -> string, extensions: set<string> := DefaultExtensions)
    returns (filelist: seq<P>)
    ensures filelist == Filter(paths, SuffixIn(suffix, extensions))
    ensures forall p :: p in filelist <==> p in paths && suffix(p) in extensions
  {
    filelist := [];
    for i := 0 to |paths|
      invariant filelist == Filter(paths[..i], SuffixIn(suffix, extensions))
    {
      assert paths[..i + 1][..i] == paths[..i];
      if suffix(paths[i]) in extensions {
        filelist := filelist + [paths[i]];
      }
    }
    assert paths[..|paths|] == paths;
    forall p | p in paths && suffix(p) in extensions
      ensures p in filelist
    {
      FilterKeeps(paths, SuffixIn(suffix, extensions), p);
    }
  }

  /** What the pipeline settles for one comment token: it is skipped for
      containing a CJK ideograph, or its body is re-lexed and the kinds of
      the resulting tokens decide the English flag. */
  datatype Decision =
    | CjkSkipped(spelling: string)
    | Classified(spelling: string, body: string, kinds: seq<TokenKind>, isEnglishComment: int)

  /** The decision for a comment spelled `spelling`, with the corrected
      window scan (see IsEnglishComment). The CJK test comes first, so such
      a comment is neither stripped nor re-lexed; any other comment is
      re-lexed after marker stripping, and a comment that mentions copyright
      as spelled. */
  function Decide(spelling: string, relex: string -> seq<Token>): (d: Decision)
    ensures d.spelling == spelling
    ensures d.CjkSkipped? <==> exists i :: 0 <= i < |spelling| && IsCjk(spelling[i])
    ensures d.Classified? ==> d.body == CommentBody(spelling)
    ensures d.Classified? && MentionsCopyright(spelling) ==> d.body == spelling
    ensures d.Classified? ==> (|d.kinds| == |relex(d.body)| &&
      forall i :: 0 <= i < |d.kinds| ==> d.kinds[i] == relex(d.body)[i].kind)
    ensures d.Classified? ==> d.isEnglishComment == 0 || d.isEnglishComment == 1
    ensures d.Classified? ==> (d.isEnglishComment == 1 <==> HasIdentifierRun(d.kinds))
  {
    if ContainsCjk(spelling) then CjkSkipped(spelling)
    else
      var body := CommentBody(spelling);
      var kinds := KindsOf(relex(body));
      Classified(spelling, body, kinds, if HasIdentifierRun(kinds) then 1 else 0)
  }

  /** The walk over a file's tokens: only COMMENT tokens are considered, in
      stream order, and each gets exactly the decision Decide gives it. */
  method CppParser(fileTokens: seq<Token>, relex: string -> seq<Token>)
    returns (decisions: seq<Decision>)
    ensures |decisions| == |Filter(fileTokens, IsComment)|
    ensures forall k :: 0 <= k < |decisions| ==>
      decisions[k] == Decide(Filter(fileTokens, IsComment)[k].spelling, relex)
  {
    decisions := [];
    for i := 0 to |fileTokens|
      invariant |decisions| == |Filter(fileTokens[..i], IsComment)|
      invariant forall k :: 0 <= k < |decisions| ==>
        decisions[k] == Decide(Filter(fileTokens[..i], IsComment)[k].spelling, relex)
    {
      var token := fileTokens[i];
      assert fileTokens[..i + 1][..i] == fileTokens[..i];
      if token.kind == Comment {
        var commentContent := token.spelling;
        if ContainsCjk(commentContent) {
          decisions := decisions + [CjkSkipped(commentContent)];
        } else {
          commentContent := StripCommentMarkers(commentContent);
          var kindnameList := KindNames(relex(commentContent));
          var isEnglishComment := IsEnglishComment(kindnameList);
          assert kindnameList == KindsOf(relex(commentContent));
          decisions := decisions + [Classified(token.spelling, commentContent, kindnameList, isEnglishComment)];
        }
      }
    }
    assert fileTokens[..|fileTokens|] == fileTokens;
  }

  /** The decision the pipeline as written reaches: that of Decide, except
      that the flag comes from the scan over `range(len(kinds) - 3)`, which
      never reads the final window. */
  function DecideAsWritten(spelling: string, relex: string -> seq<Token>): (d: Decision)
    ensures d.spelling == spelling
    ensures d.CjkSkipped? <==> exists i :: 0 <= i < |spelling| && IsCjk(spelling[i])
    ensures d.Classified? ==> d.body == CommentBody(spelling)
    ensures d.Classified? ==> d.kinds == Decide(spelling, relex).kinds
    ensures d.Classified? ==> d.isEnglishComment == 0 || d.isEnglishComment == 1
    ensures d.Classified? ==> (d.isEnglishComment == 1 <==> RunStartsBelow(d.kinds, |d.kinds| - 3))
  {
    var c := Decide(spelling, relex);
    if c.CjkSkipped? then c
    else c.(isEnglishComment := if RunStartsBelow(c.kinds, |c.kinds| - 3) then 1 else 0)
  }

  /** The two decisions differ in nothing but the flag, and in the flag
      exactly when the only run of three identifiers is the final window. */
  lemma {:induction false} AsWrittenDiffersOnlyAtFinalWindow(spelling: string, relex: string -> seq<Token>)
    ensures var d, w := Decide(spelling, relex), DecideAsWritten(spelling, relex);
      d.CjkSkipped? <==> w.CjkSkipped?
    ensures var d, w := Decide(spelling, relex), DecideAsWritten(spelling, relex);
      d.Classified? ==> (d.body == w.body && d.kinds == w.kinds &&
        (d.isEnglishComment != w.isEnglishComment <==>
           IdentifierRunAt(d.kinds, |d.kinds| - 3) && !RunStartsBelow(d.kinds, |d.kinds| - 3)))
  {
    var d := Decide(spelling, relex);
    if d.Classified? {
      AsWrittenMissesOnlyFinalWindow(d.kinds);
    }
  }

  /** The pipeline's walk exactly as written: each comment gets the decision
      DecideAsWritten gives it. */
  method CppParserAsWritten(fileTokens: seq<Token>, relex: string -> seq<Token>)
    returns (decisions: seq<Decision>)
    ensures |decisions| == |Filter(fileTokens, IsComment)|
    ensures forall k :: 0 <= k < |decisions| ==>
      decisions[k] == DecideAsWritten(Filter(fileTokens, IsComment)[k].spelling, relex)
  {
    decisions := [];
    for i := 0 to |fileTokens|
      invariant |decisions| == |Filter(fileTokens[..i], IsComment)|
      invariant forall k :: 0 <= k < |decisions| ==>
        decisions[k] == DecideAsWritten(Filter(fileTokens[..i], IsComment)[k].spelling, relex)
    {
      var token := fileTokens[i];
      assert fileTokens[..i + 1][..i] == fileTokens[..i];
      if token.kind == Comment {
        var commentContent := token.spelling;
        if ContainsCjk(commentContent) {
          decisions := decisions + [CjkSkipped(commentContent)];
        } else {
          commentContent := StripCommentMarkers(commentContent);
          var kindnameList := KindNames(relex(commentContent));
          var isEnglishComment := IsEnglishCommentAsWritten(kindnameList);
          assert kindnameList == KindsOf(relex(commentContent));
          decisions := decisions + [Classified(token.spelling, commentContent, kindnameList, isEnglishComment)];
        }
      }
    }
    assert fileTokens[..|fileTokens|] == fileTokens;
  }

  /** A comment with no CJK ideograph whose body re-lexes to exactly three
      identifiers (such as "// some plain words") is English for the
      corrected scan and not for the scan as written. */
  lemma ThreeWordCommentMissed(spelling: string, relex: string -> seq<Token>)
    requires !ContainsCjk(spelling)
    requires KindsOf(relex(CommentBody(spelling))) == [Identifier, Identifier, Identifier]
    ensures Decide(spelling, relex).isEnglishComment == 1
    ensures DecideAsWritten(spelling, relex).isEnglishComment == 0
  {
    assert IdentifierRunAt(KindsOf(relex(CommentBody(spelling))), 0);
  }

  /** Comment selection keeps every COMMENT token, only those, and in stream
      order: the comments of two consecutive stretches of a file are those of
      the first followed by those of the second. */
  lemma CommentSelection(fileTokens: seq<Token>, more: seq<Token>)
    ensures forall t :: t in Filter(fileTokens, IsComment) <==> t in fileTokens && t.kind == Comment
    ensures Filter(fileTokens + more, IsComment) == Filter(fileTokens, IsComment) + Filter(more, IsComment)
  {
    forall t | t in fileTokens && t.kind == Comment
      ensures t in Filter(fileTokens, IsComment)
    {
      FilterKeeps(fileTokens, IsComment, t);
    }
    FilterAppend(fileTokens, more, IsComment);
  }
}
