# cocodeChecker comment pipeline, modelled in Dafny

cocodeChecker looks for commented-out code in C/C++ sources. It asks libclang
for the tokens of a file and walks them. For every COMMENT token, it:

1. skips the comment if it contains a CJK ideograph (U+4E00..U+9FA5);
2. strips the comment markers with Python's `lstrip`/`rstrip`, unless the
   lower-cased text contains "copyright";
3. re-lexes the stripped body on its own and collects the token-kind names;
4. sets `isEnglishComment` when three consecutive `IDENTIFIER` kinds start
   at a position below n - 3, where n is the number of kinds. The window
   that ends at the last kind is never examined (see Findings).

A separate helper, `getfiles_fromdir`, picks the C/C++ files out of a
directory listing by suffix.

The model has six modules:

- `PyStrings`: the Python string operations the pipeline uses: `startswith`,
  `in`, `lower`, `lstrip`, `rstrip`. Stripping removes a SET of characters,
  not a fixed prefix.
- `SeqFilter`: order-preserving selection from a sequence. It serves both
  the suffix filter and the selection of comment tokens.
- `Tokens`: the token kinds and tokens that the lexer produces.
- `CommentText`: the CJK test, the copyright guard and the two marker
  strippers. `StripCommentMarkers` keeps the pipeline's two guarded
  reassignments in sequence.
- `EnglishScan`: builds the kind list and runs the window scan with its
  early `break`, both as written and with the corrected bound (see
  Findings).
- `CoCode`: `GetFilesFromDir` and the walk over a file's tokens, both as
  written (`CppParserAsWritten`) and with the corrected scan (`CppParser`).

The lexer is not modelled. `CppParser` takes the file's token sequence as an
input, plus a function `relex` that gives the tokens of a stand-alone
comment body. The source's `cppparser` returns nothing: the branch for a
non-English comment is empty. So the model ends where the source does,
once the flag is computed. `CppParser` returns one `Decision` per comment
token, in stream order, recording:

- a CJK skip; or
- the body passed to the lexer, the kinds it produced and the flag.

What the code does, and does not do:

- The character filter drops only comments with a character in
  U+4E00..U+9FA5. Other non-ASCII comments go on to be stripped and scanned.
- "copyright" only turns marker stripping off. The comment is still
  re-lexed and scanned.
- The classifier is only the three-identifier flag. Nothing else about the
  kinds (literals, punctuation, statement terminators) is looked at.
- The flag leads to no outcome: nothing is recorded, aggregated or reported.
- The default extensions are `.cpp`, `.hpp`, `.cc` and `.h`.

## Model

| member | source | states |
|---|---|---|
| PyStrings.Contains | cocode.py:36 | `p in s` holds exactly when `p` occurs in `s` at some position |
| PyStrings.LeadingRun | cocode.py:37 | the length of the longest prefix made only of characters of the set |
| PyStrings.TrailingRun | cocode.py:41 | the length of the longest suffix made only of characters of the set |
| PyStrings.LStrip | cocode.py:37 | `lstrip(chars)` returns a suffix of its input; everything removed is in the set and the result does not start with a set character |
| PyStrings.RStrip | cocode.py:41 | `rstrip(chars)` returns a prefix of its input; everything removed is in the set and the result does not end with a set character |
| PyStrings.LStripRemovesRun | cocode.py:37 | a leading run of set characters is always removed completely |
| PyStrings.LStripUnique | cocode.py:37 | LStrip's three properties determine its result: any suffix with them equals LStrip |
| PyStrings.RStripUnique | cocode.py:41 | the same uniqueness for RStrip |
| PyStrings.StripBothEnds | cocode.py:40-41 | `lstrip` then `rstrip` with one set keeps a contiguous piece with only set characters around it; the piece neither starts nor ends with one |
| PyStrings.StripBothEndsPiece | cocode.py:40-41 | the kept piece starts where `lstrip` stopped |
| SeqFilter.Filter | cocode.py:12-14 | the appending loop's result: at most as long as the input, and every element kept is from the input and passes the test |
| SeqFilter.FilterAppend | cocode.py:12-14 | selection preserves order: filtering a concatenation is concatenating the filtered parts |
| SeqFilter.FilterKeeps | cocode.py:12-14 | every element that passes the test is kept |
| CommentText.ContainsCjk | cocode.py:32-34 | `re.search` with the class U+4E00..U+9FA5 matches exactly when some character lies in that range |
| CommentText.CopyrightIgnoresCase | cocode.py:36 | the guard `"copyright" in s.lower()` holds exactly when some nine characters of `s` spell "copyright" in any mix of cases |
| CommentText.CopyrightAtLowered | cocode.py:36 | at one position, the lowered text matches "copyright" exactly when the original spells it in any case |
| CommentText.LowerCharOfLetter | cocode.py:36 | a character lower-cases to a letter exactly when it is that letter or its capital |
| CommentText.StripLineMarker | cocode.py:36-37 | the leading run of '/' is removed: the result is a suffix that does not start with '/', and at least two characters shorter when the text starts with the line marker |
| CommentText.StripBlockMarkers | cocode.py:39-41 | a contiguous piece remains with only '/' and '*' around it, and it neither starts nor ends with either; when the text opens with the block marker, at least two leading characters are removed |
| CommentText.BlockStripRemovesOpener | cocode.py:39-40 | both characters of the block opener are removed by the leading strip |
| CommentText.StripCommentMarkers | cocode.py:31-41 | the two guarded reassignments in sequence give CommentBody: at most one stripping applies and the copyright guard keeps the text |
| CommentText.LineStripLeavesNoBlockMarker | cocode.py:36-41 | after the line strip the text cannot start with the block opener, so the block branch cannot fire too |
| CommentText.UnmarkedOrCopyrightUnchanged | cocode.py:36-41 | a comment that mentions "copyright" (any case), or does not start with '/', reaches the lexer unchanged |
| CommentText.NoYNoCopyright | cocode.py:36 | text with no 'y' or 'Y' cannot mention copyright after lower-casing |
| CommentText.LineStripExact | cocode.py:37 | a text of k slashes followed by a non-slash loses exactly those k slashes |
| CommentText.LineCommentLosesMarker | cocode.py:36-37 | a line comment "//" + t, with t not starting with '/' and no copyright mention, reaches the lexer as t |
| CommentText.UnitTestProseBody | cocode_unittest.py:29-33 | "// test comment 1" reaches the lexer as " test comment 1", as the unit test expects |
| EnglishScan.KindNames | cocode.py:51-55 | the kind list has one entry per re-lexed token, holding that token's kind |
| EnglishScan.ScanWindows | cocode.py:58-62 | the scan with `break` over windows below a bound yields 0 or 1, and 1 exactly when some window below the bound holds three identifiers |
| EnglishScan.IsEnglishCommentAsWritten | cocode.py:49-62 | the flag as written is 1 exactly when a run of three identifiers starts at some i < n - 3; it is always 0 or 1, and 0 when n <= 3 |
| EnglishScan.IsEnglishComment | cocode.py:58-62 | the corrected flag is 1 exactly when three consecutive identifiers occur anywhere; it is always 0 or 1 |
| EnglishScan.BreakAgreesWithFullScan | cocode.py:58-62 | stopping at the first match gives the same flag as a scan that visits every window |
| EnglishScan.AsWrittenMissesOnlyFinalWindow | cocode.py:58-60 | a run of three identifiers exists exactly when the as-written scan finds one or the final window is one |
| EnglishScan.AsWrittenMissesThreeWords | cocode.py:58-60 | three identifiers form a run, yet the as-written scan finds none |
| CoCode.GetFilesFromDir | cocode.py:9-16 | the result is the listing filtered by `suffix in extensions` (by default `.cpp`, `.hpp`, `.cc`, `.h`), in listing order; a path is in it exactly when it is listed and its suffix is allowed |
| CoCode.Decide | cocode.py:31-62 | the corrected decision: a comment is skipped exactly when it contains a CJK ideograph; otherwise the body re-lexed is the marker-stripped text (the spelling itself for a copyright comment), the kinds are those of the re-lexed tokens in order, and the flag is 0 or 1, being 1 exactly when three consecutive identifiers occur anywhere |
| CoCode.DecideAsWritten | cocode.py:31-62 | the decision as written: same skip test, body and kinds, but the flag is 1 exactly when a run of three identifiers starts below n - 3 |
| CoCode.AsWrittenDiffersOnlyAtFinalWindow | cocode.py:58-62 | the two decisions agree on skip, body and kinds, and differ in the flag exactly when the final window is the only run |
| CoCode.ThreeWordCommentMissed | cocode.py:58-62 | a comment without CJK whose body re-lexes to three identifiers is English for the corrected scan and not for the scan as written |
| CoCode.CppParser | cocode.py:25-62 | there is one decision per COMMENT token and no other token, in stream order, each equal to Decide of that comment's spelling |
| CoCode.CppParserAsWritten | cocode.py:25-62 | the walk as written: one decision per COMMENT token, in stream order, each equal to DecideAsWritten of that comment's spelling |
| CoCode.CommentSelection | cocode.py:25-27 | a token is selected exactly when it is a COMMENT token; selection over two stretches of a file is the concatenation of the two selections |

## Left out

- The lexer: `Index.create`, `parse` and `get_tokens` (cocode.py:20-22 and
  cocode.py:43-52) are native library calls. Their results are inputs:
  `fileTokens` and the `relex` function.
- File handling: the `open`/`close` of the scanned file (cocode.py:19 and
  cocode.py:72) is I/O, and the file is never read.
- Directory traversal: the `**/*` glob (cocode.py:10-12) is I/O. The listing
  is an input sequence, and `Path.suffix` is an input function.
- The `print` diagnostics (cocode.py:29-30 and cocode.py:56) are output only.
- The empty `else:` branch (cocode.py:67-70) has no body, so nothing is
  reported for non-English comments. The model does not invent a report.
- PyStrings.Lower: only the ASCII case mapping is modelled, not Python's
  full Unicode `lower()`, which can also change a string's length.
- Python strings can hold lone surrogate code points; Dafny's `char` cannot.
- The `Filter` class that cocode_unittest.py exercises is not part of this
  model. The unit test is used only for the stripped body it expects.
- CoCode.Decide: its flag uses the corrected window scan, not the
  `range(n - 3)` scan at cocode.py:58; CoCode.DecideAsWritten gives the flag
  as written (see Findings).
- CoCode.CppParser: the decisions use the corrected window scan;
  CoCode.CppParserAsWritten is the walk exactly as written.

## Findings

| source | as written | input that shows it | evidently intended | confidence | as-written member | corrected member |
|---|---|---|---|---|---|---|
| cocode.py:58 | `for i in range(len(kindname_list) - 3)` never examines the window that ends at the last kind | kinds `[IDENTIFIER, IDENTIFIER, IDENTIFIER]`, e.g. the body " some plain words": no window is examined and the flag stays 0 (lemma EnglishScan.AsWrittenMissesThreeWords) | `range(len(kindname_list) - 2)`, so that any three consecutive identifiers set the flag, as the comment at cocode.py:59 says | medium, not executed | EnglishScan.IsEnglishCommentAsWritten | EnglishScan.IsEnglishComment |
