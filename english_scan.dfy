/** The prose test applied to a re-lexed comment body: the list of token-kind
    names is built, then scanned, window by window, for three consecutive
    identifiers; the first such window sets `isEnglishComment` to 1 and ends
    the scan. */
module EnglishScan {
  import opened Tokens

  /** `isidfr`: the kind name is "IDENTIFIER". */
  predicate IsIdentifier(k: TokenKind)
  {
    k == Identifier
  }

  /** The window of three kinds starting at `i` consists of identifiers. */
  predicate IdentifierRunAt(kinds: seq<TokenKind>, i: int)
  {
    0 <= i && i + 3 <= |kinds| &&
    IsIdentifier(kinds[i]) && IsIdentifier(kinds[i + 1]) && IsIdentifier(kinds[i + 2])
  }

  /** Some window starting below `bound` is a run of three identifiers. */
  predicate RunStartsBelow(kinds: seq<TokenKind>, bound: int)
  {
    exists i :: 0 <= i < bound && IdentifierRunAt(kinds, i)
  }

  /** Three consecutive identifiers occur anywhere in `kinds`: what the
      pipeline's own comment says makes an English comment. */
  predicate HasIdentifierRun(kinds: seq<TokenKind>)
  {
    exists i :: 0 <= i < |kinds| && IdentifierRunAt(kinds, i)
  }

  /** Builds the list of kind names of the re-lexed tokens, one append per
      token. */
  method KindNames(tokens: seq<Token>) returns (kindnames: seq<TokenKind>)
    ensures |kindnames| == |tokens|
    ensures forall i :: 0 <= i < |tokens| ==> kindnames[i] == tokens[i].kind
  {
    kindnames := [];
    for t := 0 to |tokens|
      invariant |kindnames| == t
      invariant forall i :: 0 <= i < t ==> kindnames[i] == tokens[i].kind
    {
      kindnames := kindnames + [tokens[t].kind];
    }
  }

  /** The scan over the windows starting at 0, 1, ..., bound - 1, stopping
      at the first run of three identifiers. */
  method ScanWindows(kinds: seq<TokenKind>, bound: int) returns (isEnglishComment: int)
    requires bound <= |kinds| - 2
    ensures isEnglishComment == 0 || isEnglishComment == 1
    ensures isEnglishComment == 1 <==> RunStartsBelow(kinds, bound)
  {
    isEnglishComment := 0;
    var i := 0;
    while i < bound
      invariant 0 <= i && (i <= bound || i == 0)
      invariant isEnglishComment == 0
      invariant forall j :: 0 <= j < i ==> !IdentifierRunAt(kinds, j)
    {
      if IsIdentifier(kinds[i]) && IsIdentifier(kinds[i + 1]) && IsIdentifier(kinds[i + 2]) {
        assert IdentifierRunAt(kinds, i);
        isEnglishComment := 1;
        break;
      }
      i := i + 1;
    }
  }

  /** The scan as written: `range(len(kindname_list) - 3)`, so the window
      that ends at the last kind is never looked at. */
  method IsEnglishCommentAsWritten(kinds: seq<TokenKind>) returns (isEnglishComment: int)
    ensures isEnglishComment == 0 || isEnglishComment == 1
    ensures isEnglishComment == 1 <==> exists i :: 0 <= i < |kinds| - 3 && IdentifierRunAt(kinds, i)
    ensures |kinds| <= 3 ==> isEnglishComment == 0
  {
    isEnglishComment := ScanWindows(kinds, |kinds| - 3);
  }

  /** The scan with the bound the comment beside it intends,
      `range(len(kindname_list) - 2)`: every window is looked at. */
  method IsEnglishComment(kinds: seq<TokenKind>) returns (isEnglishComment: int)
    ensures isEnglishComment == 0 || isEnglishComment == 1
    ensures isEnglishComment == 1 <==> HasIdentifierRun(kinds)
    ensures |kinds| < 3 ==> isEnglishComment == 0
  {
    isEnglishComment := ScanWindows(kinds, |kinds| - 2);
  }

  /** The flag a scan over windows 0 .. bound - 1 WITHOUT the `break` would
      end with: every matching window sets it to 1 again. */
  function FullScanFlag(kinds: seq<TokenKind>, bound: int): int
    decreases bound
  {
    if bound <= 0 then 0
    else if IdentifierRunAt(kinds, bound - 1) then 1
    else FullScanFlag(kinds, bound - 1)
  }

  /** Stopping at the first match gives the same flag as scanning every
      window. */
  lemma {:induction false} BreakAgreesWithFullScan(kinds: seq<TokenKind>, bound: int)
    ensures FullScanFlag(kinds, bound) == (if RunStartsBelow(kinds, bound) then 1 else 0)
    decreases bound
  {
    if bound > 0 {
      BreakAgreesWithFullScan(kinds, bound - 1);
      if IdentifierRunAt(kinds, bound - 1) {
        assert RunStartsBelow(kinds, bound);
      } else if RunStartsBelow(kinds, bound) {
        var i :| 0 <= i < bound && IdentifierRunAt(kinds, i);
        assert RunStartsBelow(kinds, bound - 1);
      }
    }
  }

  /** The as-written scan misses a run exactly when the only run is the
      final window. */
  lemma AsWrittenMissesOnlyFinalWindow(kinds: seq<TokenKind>)
    ensures HasIdentifierRun(kinds) <==>
      RunStartsBelow(kinds, |kinds| - 3) || IdentifierRunAt(kinds, |kinds| - 3)
  {
    if HasIdentifierRun(kinds) {
      var i :| 0 <= i < |kinds| && IdentifierRunAt(kinds, i);
      if i < |kinds| - 3 {
        assert RunStartsBelow(kinds, |kinds| - 3);
      }
    }
  }

  /** Three identifiers, e.g. the body " some plain words": the comment
      describes this as English, yet the as-written scan examines no window
      and leaves the flag at 0. */
  lemma AsWrittenMissesThreeWords()
    ensures var kinds := [Identifier, Identifier, Identifier];
      HasIdentifierRun(kinds) && !RunStartsBelow(kinds, |kinds| - 3)
  {
    assert IdentifierRunAt([Identifier, Identifier, Identifier], 0);
  }
}
