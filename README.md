# PHOS digitization merge and the THtml-to-Doxygen comment converter, in Dafny

This project models two pieces of the AliRoot repository and proves what they
promise.

**AliPHOSDigitizer::Digitize** (`PHOS/AliPHOSDigitizer.cxx`) builds the digit
list of one event of the PHOS calorimeter. Every channel, EMC first and then
CPV, gets a digit made of noise. The summable digits of every input are then
added to the digit of their channel:
- amplitudes add up;
- primaries are shifted by the input's offset and appended;
- an EMC channel that received signal takes the front-edge time of its
  contributions.

The inputs are walked with one cursor each, led by the id of the next channel
that has signal. Digits whose calibrated amplitude is below their region's
threshold are then removed, the list is compressed, and every digit learns its
index.

How the model is organised:
- Module `PhosDigits` states the result as functions: `Merged`, `Suppressed`,
  `Compact`, `Indexed`, composed in `Digitized`.
- Module `PhosDigitizer` is the imperative algorithm. The `DigitList` class
  models the TClonesArray of slots, and the cursors are an `array<int>`. Every
  loop is proved to compute those functions.
- Module `PhosProperties` proves what the result means: order, indexes,
  contents, the threshold if-and-only-if, and disjoint primaries.
- Module `PhosFindings` holds the next-signal search as written. The
  defects it shows are listed under Findings.

**thtml2doxy.py** (`doxygen/thtml2doxy.py`) converts ROOT's THtml comments to
Doxygen. The modelled parts are:
- **The comment records** (`DoxyComments`): `Comment`, `MemberComment` and
  `RemoveComment`, their asserting constructors, and `has_comment`.
- **The line-level text functions** (`DoxyText`): `strip_html` and the
  script's regular expressions. Each regular expression becomes a named
  function or predicate that decides the same thing on a line without an
  inner newline. The one exception is the garbage pattern `regarbage`:
  `DoxyText.IsGarbage` is the class its authors evidently meant, and the
  class as written is `DoxyText.IsGarbageAsWritten` (see Findings).
- **`refactor_comment`** (`DoxyRefactor`, `DoxyRefactorProperties`): a loop
  over the comment lines. The loop is the method `RefactorComment`, one
  iteration is the function `Step`, and the method is proved to compute the
  fold of `Step`. The properties proved are:
  - macro blocks become one image line;
  - runs of blank or garbage lines become one blank line, or none at the
    start and end;
  - LaTeX blocks become `\f[`/`\f]`, and `#` becomes a backslash inside them;
  - lone `<pre>` tags become `~~~` fences.
- **`rewrite_comments`** (`DoxyRewrite`, `DoxyRewriteProperties`): the loop
  that copies the source file and replaces commented lines, with the same
  split between method and step function. The properties proved are:
  - uncovered lines are copied;
  - a block comment is replaced by its dump;
  - the blank line after a dump is dropped;
  - a dump reads back as `/// ` lines.

  Three behaviours of the script are kept as written. A block comment still
  open at the end of the file is never dumped. A block comment that starts on
  the line right after another block comment takes its place: the later block
  is dumped and the earlier block's lines are lost. A block comment that
  starts on the line right after a member or remove comment is never dumped,
  and its lines vanish.
- **The class-name and header logic of `comment_classdesc`**
  (`DoxyClassDesc`): the class name guessed from the file name, and the
  `\class` or `\file` header. The header is proved to read back through the
  script's own `\class|\file` pattern.
- **The garbage pattern** (`DoxyFindings`): as written and as meant.

Two facts about the digitizer's code that the model keeps:
- A summable digit whose channel id is above nCPV is never merged, and nothing
  reports it. The channel loops stop at nCPV and no check looks at the id.
- "No further signal" is the sentinel channel id 200000
  (`PHOS/AliPHOSDigitizer.cxx:204`), so the model requires every channel id
  to lie below it.

## Model

| member | source | states |
|---|---|---|
| PhosDigits.FrontEdge | PHOS/AliPHOSDigitizer.cxx:433-444 | the front-edge time is the smallest time read before the first zero, and is one of those times; zero when the first time is zero |
| PhosDigits.LeadingNonZero | PHOS/AliPHOSDigitizer.cxx:436-441 | the times the scan reads: a prefix of the array, all non-zero, ended by a zero or by the end |
| PhosDigits.Matching | PHOS/AliPHOSDigitizer.cxx:233-250 | the summable digits of an input that belong to a channel all carry that channel's id |
| PhosDigits.Compact | PHOS/AliPHOSDigitizer.cxx:320 | compression keeps at most as many digits as there were slots |
| PhosDigits.TimeOfNoise | PHOS/AliPHOSDigitizer.cxx:629-634 | the time given to a digit made of noise is the constant 1, which every CPV digit and every channel without signal keeps (PhosProperties.MergedChannels) |
| PhosDigits.Int32 | PHOS/AliPHOSDigitizer.cxx:237-241 | an `Int_t` keeps a value congruent to x modulo 2^32 in [-2^31, 2^31), and keeps x itself when x is in that range |
| PhosDigits.PrimaryOffset | PHOS/AliPHOSDigitizer.cxx:238-242 | the offset of input i is the run digitizer's mask i when there are masks |
| PhosDigits.StrideOffset | PHOS/AliPHOSDigitizer.cxx:237-241 | without masks, the offset is the `Int_t` value of 10000000*i: exactly 10000000*i up to input 214, and a wrapped-around value different from it from input 215 on |
| PhosDigits.AddAll | PHOS/AliPHOSDigitizer.cxx:244 | adding summable digits to a digit never changes its channel id, its time or its list index |
| PhosDigits.MergedDigit | PHOS/AliPHOSDigitizer.cxx:221-256 | the merged digit of channel c carries id c and no list index yet, and outside the EMC it keeps the time of noise |
| PhosDigits.Merged | PHOS/AliPHOSDigitizer.cxx:163-304 | the merged array has one digit per channel, and position k holds channel k+1 |
| PhosDigits.Suppressed | PHOS/AliPHOSDigitizer.cxx:312-318 | a slot is emptied exactly when the calibrated amplitude of its digit is below the threshold of its region, and a slot that stays holds its digit unchanged |
| PhosDigits.Digitized | PHOS/AliPHOSDigitizer.cxx:320-329 | the final list holds at most one digit per channel, and digit k has index k |
| PhosDigits.NextSignal | PHOS/AliPHOSDigitizer.cxx:204-210 | the next signal channel is at most 200000 and at most the id under the cursor of every input |
| PhosDigitizer.DigitList.Clear | PHOS/AliPHOSDigitizer.cxx:163 | every slot becomes empty and the capacity is unchanged |
| PhosDigitizer.DigitList.Expand | PHOS/AliPHOSDigitizer.cxx:177 | the list is resized to n slots, keeping the first entries and adding empty ones |
| PhosDigitizer.DigitList.RemoveAt | PHOS/AliPHOSDigitizer.cxx:312-318 | only slot k becomes empty; nothing moves |
| PhosDigitizer.DigitList.Compress | PHOS/AliPHOSDigitizer.cxx:320 | the occupied slots move to the front in order and the rest become empty |
| PhosDigitizer.DigitList.EntriesFast | PHOS/AliPHOSDigitizer.cxx:322 | the result is one past the last occupied slot, and every slot after it is empty |
| PhosDigitizer.FrontEdgeTime | PHOS/AliPHOSDigitizer.cxx:433-444 | the while loop computes FrontEdge of the time list |
| PhosDigitizer.ScanNextSignal | PHOS/AliPHOSDigitizer.cxx:204-210 | the search computes NextSignal: the smallest id under a cursor of a non-exhausted input, else 200000 |
| PhosDigitizer.AddInput | PHOS/AliPHOSDigitizer.cxx:235-250 | the cursor passes exactly the run of digits of channel absID; the digit gains their shifted sum and the time list their times |
| PhosDigitizer.AdvanceInput | PHOS/AliPHOSDigitizer.cxx:232-250 | after input i, the digit holds the contributions of inputs 0..i and cursor i is positioned for the next channel |
| PhosDigitizer.AddInputs | PHOS/AliPHOSDigitizer.cxx:231-251 | after all inputs, the digit is the noise digit plus every contribution in folding order, and every cursor is positioned for the next channel |
| PhosDigitizer.MergeChannel | PHOS/AliPHOSDigitizer.cxx:225-264 | a signal channel's digit is MergedDigit; the next signal channel is recomputed and lies above absID |
| PhosDigitizer.FillChannel | PHOS/AliPHOSDigitizer.cxx:221-265 | one iteration of a channel loop puts channel absID's merged digit in its slot |
| PhosDigitizer.MergeChannels | PHOS/AliPHOSDigitizer.cxx:270-304 | a channel loop fills slots lo-1..hi-1 with their merged digits and leaves the cursors positioned for hi+1 |
| PhosDigitizer.StartCursors | PHOS/AliPHOSDigitizer.cxx:204-216 | every cursor starts at its input's first digit, and nextSig is the first signal channel, at least 1 |
| PhosDigitizer.MergeAll | PHOS/AliPHOSDigitizer.cxx:163-304 | the list holds exactly the merged digit of every channel 1..nCPV at position id-1 |
| PhosDigitizer.MergeRegions | PHOS/AliPHOSDigitizer.cxx:221-304 | the EMC loop and then the CPV loop fill every empty slot with the merged digit of its channel |
| PhosDigitizer.RemoveBelowThreshold | PHOS/AliPHOSDigitizer.cxx:312-318 | exactly the digits whose calibrated amplitude is below their region's threshold are removed |
| PhosDigitizer.Shrink | PHOS/AliPHOSDigitizer.cxx:320-323 | the list becomes the surviving digits in order, with no empty slot |
| PhosDigitizer.SetIndexes | PHOS/AliPHOSDigitizer.cxx:326-329 | digit i gets index i in the list, and nothing else changes |
| PhosDigitizer.Digitize | PHOS/AliPHOSDigitizer.cxx:147-331 | the digit list ends up exactly Digitized: merged, suppressed, compacted and indexed |
| PhosDigitizer.LastOccupied | PHOS/AliPHOSDigitizer.cxx:320-323 | after compression, GetEntriesFast is the number of surviving digits |
| PhosDigitizer.CursorPastChannel | PHOS/AliPHOSDigitizer.cxx:235-250 | a cursor stopped after channel absID's run passed exactly that channel's digits |
| PhosDigitizer.NextSignalAbove | PHOS/AliPHOSDigitizer.cxx:258-263 | once every cursor is positioned for channel c, the next signal channel is not below c |
| PhosProperties.MatchingEmptyIff | PHOS/AliPHOSDigitizer.cxx:235 | an input contributes nothing to a channel if and only if it has no digit with that id |
| PhosProperties.MatchingBlock | PHOS/AliPHOSDigitizer.cxx:235-249 | between its positions for channels c and c+1, a cursor passes exactly channel c's digits |
| PhosProperties.NoContributionIff | PHOS/AliPHOSDigitizer.cxx:231-251 | a channel receives nothing if and only if no input holds a digit with its id |
| PhosProperties.AddAllSums | PHOS/AliPHOSDigitizer.cxx:244 | folding digits into a digit adds their amplitudes and appends their primaries in order |
| PhosProperties.MergedDigitContents | PHOS/AliPHOSDigitizer.cxx:221-256 | a merged digit keeps its id; its amplitude is noise plus all contributions and its primaries are theirs in order; its time is the front edge for an EMC channel with signal, else the time of noise |
| PhosProperties.MergedChannels | PHOS/AliPHOSDigitizer.cxx:221-304 | position k holds channel k+1; a channel without signal holds exactly its noise digit; a CPV digit keeps time 1 |
| PhosProperties.ShiftedPrimariesDisjoint | PHOS/AliPHOSDigitizer.cxx:238-242 | without masks, the shifted primaries of two different inputs below input 214 never collide, provided each input numbers its primaries below 10000000 |
| PhosProperties.WrappedOffsetCollides | PHOS/AliPHOSDigitizer.cxx:237-242 | past the `Int_t` range the separation fails: input 430's offset wraps to 5032704, and its primary 0 collides with input 0's primary 5032704 |
| PhosProperties.NextSignalIsNextPending | PHOS/AliPHOSDigitizer.cxx:258-263 | the next signal channel is at most every pending id and, unless it is 200000, equals one of them |
| PhosProperties.QuietChannel | PHOS/AliPHOSDigitizer.cxx:225 | a channel below the next signal channel receives nothing, and the cursors are already positioned for the channel after it |
| PhosProperties.SignalChannelContributes | PHOS/AliPHOSDigitizer.cxx:225-251 | the channel nextSig names receives at least one contribution |
| PhosProperties.CompactSorted | PHOS/AliPHOSDigitizer.cxx:320 | compaction keeps the digits in strictly ascending channel order |
| PhosProperties.CompactComplete | PHOS/AliPHOSDigitizer.cxx:320 | compaction drops no occupied slot |
| PhosProperties.DigitizedOrderedAndIndexed | PHOS/AliPHOSDigitizer.cxx:320-329 | the final digits are in strictly ascending channel order, and digit i has index i |
| PhosProperties.DigitizedFromMerged | PHOS/AliPHOSDigitizer.cxx:221-329 | every final digit is its channel's merged digit with its index, and it passed its threshold |
| PhosProperties.DigitizedSurvivors | PHOS/AliPHOSDigitizer.cxx:312-318 | a channel has a final digit if and only if its calibrated merged amplitude reaches its region's threshold |
| PhosProperties.QuietChannelSuppressed | PHOS/AliPHOSDigitizer.cxx:221-318 | a channel with no signal whose calibrated noise is below its threshold leaves no digit |
| PhosFindings.ScanNextAsWritten | PHOS/AliPHOSDigitizer.cxx:258-263 | the search as written succeeds only when no input is exhausted |
| PhosFindings.FirstSignalAsWritten | PHOS/AliPHOSDigitizer.cxx:204-210 | the first search as written succeeds only when every input is non-empty |
| PhosFindings.AsWrittenNeverAdvances | PHOS/AliPHOSDigitizer.cxx:296-301 | the search as written never returns a value above nextSig's current value |
| PhosFindings.AsWrittenFromNoSignal | PHOS/AliPHOSDigitizer.cxx:258-263 | with no exhausted input and a reset to 200000, the search as written equals NextSignal |
| PhosFindings.FirstSignalAgrees | PHOS/AliPHOSDigitizer.cxx:204-210 | with every input non-empty, the first search as written equals NextSignal at the start |
| PhosFindings.StaleNextSignal | PHOS/AliPHOSDigitizer.cxx:258-263 | for one input with channels 1 and 2, the search as written still answers 1 while the corrected one answers 2 |
| PhosFindings.EmptyInputDereferenced | PHOS/AliPHOSDigitizer.cxx:208 | an empty input makes the first search as written read past the end |
| PhosFindings.ExhaustedInputDereferenced | PHOS/AliPHOSDigitizer.cxx:261 | an exhausted input makes the search as written read past the end; the corrected one skips it |
| DoxyComments.NewComment | doxygen/thtml2doxy.py:72-80 | a block comment exists if and only if first_line > 0 and last_line >= first_line, and then it covers exactly that line range |
| DoxyComments.NewMemberComment | doxygen/thtml2doxy.py:88-96 | a member comment exists if and only if first_line > 0 and the flag is known; its lines are [text]; it covers its first line only |
| DoxyComments.NewRemoveComment | doxygen/thtml2doxy.py:133-137 | a remove comment exists if and only if the line range is valid, and then it covers exactly that range |
| DoxyComments.FlagsExclusive | doxygen/thtml2doxy.py:94-109 | a member comment is at most one of transient, dontsplit and ptr, and is one of them exactly when it has a flag |
| DoxyComments.CoversFirstLine | doxygen/thtml2doxy.py:82-83 | a valid comment covers its first line, and only lines from there on |
| DoxyComments.Covering | doxygen/thtml2doxy.py:714-718 | the comment picked for a line is one of the comments and covers the line; none is picked if and only if no comment covers it |
| DoxyComments.LastCovering | doxygen/thtml2doxy.py:714-718 | the position found covers the line, and no comment after it covers the line |
| DoxyComments.CoveringIsLast | doxygen/thtml2doxy.py:714-718 | the comment picked is the one at LastCovering: when several comments cover a line, the last of them wins |
| DoxyComments.HasComment | doxygen/thtml2doxy.py:82-83 | a comment covers no line before its first line |
| DoxyComments.IsTransient | doxygen/thtml2doxy.py:102-103 | a transient comment is a member comment that carries neither the `||` nor the `->` flag |
| DoxyComments.IsDontSplit | doxygen/thtml2doxy.py:105-106 | a do-not-split comment is a member comment that carries neither the `!` nor the `->` flag |
| DoxyComments.IsPtr | doxygen/thtml2doxy.py:108-109 | a pointer comment is a member comment that carries neither the `!` nor the `||` flag |
| DoxyText.LeadingSpaces | doxygen/thtml2doxy.py:696 | the count is the length of the run of whitespace at the start of the line |
| DoxyText.RStrip | doxygen/thtml2doxy.py:789 | the result is a prefix that does not end in whitespace, and only whitespace was removed |
| DoxyText.Strip | doxygen/thtml2doxy.py:805 | the stripped line is the slice of the line that starts after its leading whitespace, and only whitespace follows it in the line; it is empty if and only if the line is all whitespace, and otherwise neither starts nor ends in whitespace |
| DoxyText.RStripNewlines | doxygen/thtml2doxy.py:802 | the result is a prefix without a trailing newline, and only newlines were removed |
| DoxyText.ReplaceHash | doxygen/thtml2doxy.py:562 | the result has the same length; every `#` becomes a backslash and every other character is unchanged |
| DoxyText.HtmlTagAt | doxygen/thtml2doxy.py:482 | a tag found is 3 to 6 characters long, from `<` to `>` |
| DoxyText.StripHtml | doxygen/thtml2doxy.py:481-483 | removing tags never lengthens the line, and a line with no tag is unchanged |
| DoxyText.CommentText | doxygen/thtml2doxy.py:491 | the comment text is no longer than the line and does not end in whitespace unless it is all whitespace |
| DoxyText.TextEnd | doxygen/thtml2doxy.py:491 | the lazy group stops at the first position where a closing tail follows |
| DoxyText.TextEndAfterText | doxygen/thtml2doxy.py:491 | the text never ends right after whitespace once it has started: that whitespace belongs to the closer tail |
| DoxyText.FirstKeywordRun | doxygen/thtml2doxy.py:495 | the lazy prefix ends at the first whitespace run followed by a LaTeX keyword, and no earlier one exists |
| DoxyText.LatexMarker | doxygen/thtml2doxy.py:495 | the text before a keyword is a prefix of the line, and the texts before and after it are together shorter than the line |
| DoxyText.IsGarbage | doxygen/thtml2doxy.py:492 | the empty text is never garbage: the pattern needs at least one character |
| DoxyText.IsMacroMarker | doxygen/thtml2doxy.py:508 | a macro marker has at least the nine characters of a keyword after its leading whitespace |
| DoxyText.PreTag | doxygen/thtml2doxy.py:503 | a lone pre tag gives its indentation: a prefix of the line, all whitespace |
| DoxyText.LastInline | doxygen/thtml2doxy.py:500 | the greedy prefix takes the last BEGIN_LATEX that opens a complete inline formula; none exists below it otherwise |
| DoxyText.InlineEnd | doxygen/thtml2doxy.py:500 | a formula ends at an END_LATEX preceded by whitespace, past the whitespace after BEGIN_LATEX |
| DoxyText.FindInline | doxygen/thtml2doxy.py:559 | a found formula splits the line, so its parts are shorter than the line by at least the keywords |
| DoxyText.RewriteInline | doxygen/thtml2doxy.py:558-565 | rewriting inline formulas never lengthens the line, and never empties a line that was not empty |
| DoxyText.RewriteInlineComplete | doxygen/thtml2doxy.py:558-565 | the loop stops only when no inline formula is left, and a line without one is unchanged |
| DoxyText.ImageLine | doxygen/thtml2doxy.py:526 | the image line is the path framed by the fixed 32 characters of the Markdown image syntax |
| DoxyRefactor.Kept | doxygen/thtml2doxy.py:570-637 | every kept text emits at least one line, and a text that is not empty emits no empty line |
| DoxyRefactor.RewriteInlineLatex | doxygen/thtml2doxy.py:558-565 | the while loop computes RewriteInline |
| DoxyRefactor.RefactorComment | doxygen/thtml2doxy.py:489-640 | refactor_comment computes the fold of Step over the comment |
| DoxyRefactor.RefactorLine | doxygen/thtml2doxy.py:513-540 | one loop iteration computes Step: macro markers toggle the macro, lines inside a macro are collected, other lines go through TextStep |
| DoxyRefactor.RefactorText | doxygen/thtml2doxy.py:542-553 | a blank or garbage text only sets insert_blank; other text is rewritten and kept |
| DoxyRefactor.KeepText | doxygen/thtml2doxy.py:550-553 | a kept line is preceded by one blank line when one is owed and the first kept line was already seen |
| DoxyRefactor.KeptLines | doxygen/thtml2doxy.py:570-637 | the LaTeX, pre-tag and plain branches compute Kept |
| DoxyRefactor.FoldSnoc | doxygen/thtml2doxy.py:513 | the fold over lines plus one line is one more Step |
| DoxyRefactorProperties.FoldKeepsInv | doxygen/thtml2doxy.py:513-637 | the macro buffer is empty outside a macro; no blank line is written before the first kept line; once a line is kept the output is not empty, and its first and last lines are not blank |
| DoxyRefactorProperties.MacroBodyCollected | doxygen/thtml2doxy.py:534-536 | inside a macro every non-marker line is collected and nothing is written |
| DoxyRefactorProperties.MacroBecomesImage | doxygen/thtml2doxy.py:516-533 | a macro block becomes exactly one image line named by the macro's path |
| DoxyRefactorProperties.DroppedRunSilent | doxygen/thtml2doxy.py:547-548 | blank and garbage lines write nothing and only note that a blank line is owed |
| DoxyRefactorProperties.TrailingRunVanishes | doxygen/thtml2doxy.py:547-548 | blank or garbage lines at the end of a comment leave the output unchanged |
| DoxyRefactorProperties.RunBecomesOneBlank | doxygen/thtml2doxy.py:547-553 | a run of blank or garbage lines between kept lines becomes exactly one blank line |
| DoxyRefactorProperties.NoRunNoBlank | doxygen/thtml2doxy.py:550-553 | a kept line right after a kept line gets no blank line before it |
| DoxyRefactorProperties.LeadingRunVanishes | doxygen/thtml2doxy.py:511-553 | blank or garbage lines at the start of a comment do not change the result |
| DoxyRefactorProperties.NoLeadingBlank | doxygen/thtml2doxy.py:510-553 | the result neither starts nor ends with a blank line, and holds no blank line while no line was kept |
| DoxyRefactorProperties.LoneBeginOpensBlock | doxygen/thtml2doxy.py:583-592 | a text that is only BEGIN_LATEX, after any whitespace and in any case, is written `\f[` and opens a LaTeX block, whatever the flags were |
| DoxyRefactorProperties.LoneEndClosesBlock | doxygen/thtml2doxy.py:601-613 | inside a LaTeX block, a text that is only END_LATEX, after any whitespace and in any case, is written `\f]` and leaves LaTeX |
| DoxyRefactorProperties.LoneLatexMarker | doxygen/thtml2doxy.py:570-581 | relatex reads a lone keyword as BEGIN or END with empty texts before and after it |
| DoxyRefactorProperties.LoneLatexText | doxygen/thtml2doxy.py:547-565 | a lone keyword is not blank, not garbage, and holds no inline formula to rewrite |
| DoxyRefactorProperties.KeptLineStep | doxygen/thtml2doxy.py:538-637 | a line outside a macro that is not a marker and not dropped goes through Kept after the blank line it owes |
| DoxyRefactorProperties.KeptInsideLatex | doxygen/thtml2doxy.py:634-637 | inside LaTeX a text without a keyword is written as one line with `#` turned into a backslash, and the flags stay |
| DoxyRefactorProperties.LatexBody | doxygen/thtml2doxy.py:634-637 | one written line per body line: its text with inline formulas rewritten and `#` turned into a backslash |
| DoxyRefactorProperties.PlainLatexStep | doxygen/thtml2doxy.py:550-637 | inside a LaTeX block, a kept line without a keyword appends exactly its rewritten text with `#` turned into a backslash |
| DoxyRefactorProperties.LatexBodyCopied | doxygen/thtml2doxy.py:513-637 | inside a LaTeX block, a run of such lines appends exactly their rewritten texts with `#` turned into backslashes, and nothing else changes |
| DoxyRefactorProperties.OpenLatexStep | doxygen/thtml2doxy.py:547-592 | a lone BEGIN_LATEX line writes the blank line it owes, then `\f[`, and sets in_latex and latex_block |
| DoxyRefactorProperties.CloseLatexStep | doxygen/thtml2doxy.py:601-613 | inside a block, a lone END_LATEX line writes `\f]` and clears in_latex |
| DoxyRefactorProperties.LatexBlockBecomesFormula | doxygen/thtml2doxy.py:513-637 | a lone BEGIN_LATEX line, kept lines without a keyword, then a lone END_LATEX line are written as the owed blank line, `\f[`, each body line rewritten with `#` turned into a backslash, and `\f]` |
| DoxyRefactorProperties.PreBecomesFence | doxygen/thtml2doxy.py:627-632 | a lone `<pre>` or `</pre>` tag, in any letter case, outside LaTeX becomes a `~~~` fence with the tag's indentation |
| DoxyRefactorProperties.PreTagOfFence | doxygen/thtml2doxy.py:503 | the indentation reblock reads from a line of whitespace and a pre tag is that whitespace |
| DoxyRewrite.PySlice | doxygen/thtml2doxy.py:729 | `line[0:stop]` is a prefix of the line; a negative stop counts from the end |
| DoxyRewrite.DumpCommentBlock | doxygen/thtml2doxy.py:699-706 | dump_comment_block writes Dump: one indented `/// ` line per comment line, then an empty line |
| DoxyRewrite.FindComment | doxygen/thtml2doxy.py:714-718 | the inner loop finds Covering: the last comment that covers the line |
| DoxyRewrite.RewriteComments | doxygen/thtml2doxy.py:688-808 | rewrite_comments writes the fold of Step over the file, with lines numbered from 1 |
| DoxyRewrite.RewriteLine | doxygen/thtml2doxy.py:709-808 | one loop iteration computes Step |
| DoxyRewrite.RewriteCovered | doxygen/thtml2doxy.py:720-791 | on a line a comment covers, the iteration computes Step: a member comment is written after any open block's dump, a remove comment writes nothing, and a block's first line writes the code before it |
| DoxyRewrite.RewriteUncovered | doxygen/thtml2doxy.py:793-808 | on a line no comment covers, the iteration computes Step: an open block is dumped and a blank line right after it dropped, any other line is copied |
| DoxyRewrite.DumpBlock | doxygen/thtml2doxy.py:726 | the block being read is dumped |
| DoxyRewrite.WriteMember | doxygen/thtml2doxy.py:729-775 | the method writes exactly MemberOut, the text whose two forms SplitMemberReadsBack and InlineMemberReadsBack read back |
| DoxyRewrite.FlagText | doxygen/thtml2doxy.py:740-744 | the flag written after `//` is the comment's flag, or nothing when it has none; a valid flag holds no newline and at most two characters |
| DoxyRewriteProperties.SplitMemberReadsBack | doxygen/thtml2doxy.py:731-756 | a member comment with an array size, or flagged dontsplit or ptr, reads back as two lines: `/// <comment>` at the member's indentation, then the code before the comment, `//`, the flag and `[<size>]` |
| DoxyRewriteProperties.InlineMemberReadsBack | doxygen/thtml2doxy.py:758-775 | any other member comment reads back as one line: the code before the comment, `//!< ` when transient or `///< ` otherwise, then the comment |
| DoxyRewrite.FoldSnoc | doxygen/thtml2doxy.py:709 | the fold over lines plus one line is one more Step |
| DoxyRewriteProperties.FoldKeepsInv | doxygen/thtml2doxy.py:709-808 | skip_empty never outlives an iteration, and while a block is read the previous comment is a block |
| DoxyRewriteProperties.UncoveredCopied | doxygen/thtml2doxy.py:793-808 | outside a block, lines no comment covers are copied, each ended by one newline |
| DoxyRewriteProperties.NoCommentsIdentity | doxygen/thtml2doxy.py:688-808 | with no comments, the file is copied line by line |
| DoxyRewriteProperties.InsideBlockSilent | doxygen/thtml2doxy.py:783 | further lines of the block being read write nothing |
| DoxyRewriteProperties.BlockEndDumped | doxygen/thtml2doxy.py:795-808 | the line after a block dumps it, then is written only when it is not blank |
| DoxyRewriteProperties.BlockReplaced | doxygen/thtml2doxy.py:783-808 | a block comment is replaced by the code before it, its dump and the next line when that line is not blank |
| DoxyRewriteProperties.BlockRunQuiet | doxygen/thtml2doxy.py:713-787 | block lines read right after a line another comment covers write nothing and leave in_comment as it was |
| DoxyRewriteProperties.BlockAfterBlockReplacesIt | doxygen/thtml2doxy.py:713-798 | a block starting right after another block is the one dumped at the next uncovered line; the earlier block's lines are not written |
| DoxyRewriteProperties.BlockAfterMemberVanishes | doxygen/thtml2doxy.py:720-808 | a block starting right after a member or remove comment is never dumped: the next uncovered line is only copied |
| DoxyRewriteProperties.DumpReadsBack | doxygen/thtml2doxy.py:699-706 | a dump read back as lines is the comment lines behind the indentation and `/// `, then one empty line |
| DoxyRewriteProperties.LineThenRest | doxygen/thtml2doxy.py:705 | a line without a newline, followed by a newline, reads back as that line |
| DoxyRewriteProperties.DocLinesCons | doxygen/thtml2doxy.py:704-705 | the doc lines of a block are the first line's doc line followed by the rest's |
| DoxyRewriteProperties.DumpCons | doxygen/thtml2doxy.py:699-706 | a dump is its first doc line, a newline, and the dump of the other lines |
| DoxyClassDesc.BaseStart | doxygen/thtml2doxy.py:395 | the directory group ends at the last `/` of the path |
| DoxyClassDesc.Basename | doxygen/thtml2doxy.py:395 | what follows the directory holds no `/` |
| DoxyClassDesc.FirstDot | doxygen/thtml2doxy.py:395 | the lazy name ends at the first `.` |
| DoxyClassDesc.GuessClassName | doxygen/thtml2doxy.py:392-398 | the guessed class name is the start of the file's base name, up to its first `.`; it holds no `/` and no `.` |
| DoxyClassDesc.GuessFromParts | doxygen/thtml2doxy.py:395-398 | a path made of a directory, a name and an extension gives back the name |
| DoxyClassDesc.BasenameOfJoin | doxygen/thtml2doxy.py:395 | a directory ending in `/` followed by a base name gives back that base name |
| DoxyClassDesc.FirstDotOfJoin | doxygen/thtml2doxy.py:395 | in a name without `.` followed by an extension, the lazy name stops where the extension starts |
| DoxyClassDesc.ClassDescLines | doxygen/thtml2doxy.py:402-417 | the header comes first, then the description's lines and one empty line, then `\author <author>` when there is an author and `\date <date>` last when there is a date |
| DoxyClassDesc.ClassDoxy | doxygen/thtml2doxy.py:318 | a name read from a `\class` or `\file` line holds no `.` |
| DoxyClassDesc.HeaderReadsBack | doxygen/thtml2doxy.py:318 | the header written in front of a description reads back as its class name |
| DoxyClassDesc.MacroHeaderReadsBack | doxygen/thtml2doxy.py:406 | `\file <name>.C` reads back as the name |
| DoxyClassDesc.MacroHeaderKeyword | doxygen/thtml2doxy.py:406 | a macro header starts with `\file`, which the read-back pattern takes for `\file` and not `\class`, then a space and the macro file name |
| DoxyClassDesc.ClassHeaderReadsBack | doxygen/thtml2doxy.py:408 | `\class <name>` reads back as the name |
| DoxyFindings.WordsLineCounterexample | doxygen/thtml2doxy.py:492 | as written, under the IGNORECASE range semantics of Python 2.7 since the fix of bpo-17381, the comment line "Default constructor" is garbage; as meant, it is not |
| DoxyFindings.HyphenLineCounterexample | doxygen/thtml2doxy.py:492 | as written, the separator line "------" is not garbage; as meant, it is |
| DoxyFindings.SeparatorLineIsGarbage | doxygen/thtml2doxy.py:492 | as meant, a line of separator characters and blanks is garbage |
| DoxyFindings.LetterLineNotGarbage | doxygen/thtml2doxy.py:492 | as meant, a line holding a letter is garbage only when it is the bare word Begin_Html or End_Html |
| DoxyFindings.WordsGarbageAsWritten | doxygen/thtml2doxy.py:492 | as written, under the IGNORECASE range semantics of Python 2.7 since the fix of bpo-17381, every line of letters and blanks is garbage |

## Left out

- Reading the summable digits from the ROOT folders, the getter, `Init`, `Exec`, `WriteDigits`, `MixWith`, `Print`, `PrintDigits`, `SetSDigitsBranch` and `Reset`. These are I/O and bookkeeping around `Digitize`. The inputs are a sequence of digit sequences, and the thresholds and masks are a `Config`.
- The noise draws of `gRandom->Gaus` are a parameter, one draw per channel. The summable digitizer's `Digitize` and `Calibrate` are parameter functions.
- Amplitudes and times are integers. Floating point is not modelled.
- The `energies` and `times` arrays are `TArrayF` pointers indexed as if they were arrays, which is undefined behaviour. The model keeps the evident intent: the list of the contribution times. `FrontEdgeTime` receives that list and reads a zero past its end, as `TArrayF::At` does.
- AliPHOSDigit is modelled only as far as `Digitize` uses it: `operator+` adds amplitudes and appends primaries, and `ShiftPrimary` adds the offset to every primary, each sum kept as an `Int_t`. The cap on the number of primaries inside AliPHOSDigit is not modelled.
- PhosDigitizer.Digitize: requires the inputs to be sorted by channel id with ids from 1, and requires `nCPV < 200000`. The source relies on both without checking them.
- PhosDigitizer.Digitize: models the corrected next-signal search; the as-written search is in module PhosFindings.
- PhosProperties.ShiftedPrimariesDisjoint: holds only for inputs below 214, because the offset `10000000*i` and the shifted primaries are `Int_t` and wrap around past 2^31 - 1; WrappedOffsetCollides shows the collision at input 430. `Int_t` overflow is undefined behaviour in C++; the model takes the two's-complement wrap-around that compiled code gives.
- PhosDigitizer.Digitize: the inputs are values, so the model does not capture that `ShiftPrimary` shifts the summable digits in place (lines 243 and 287). After `Digitize` every summable digit of an input i >= 1 that was merged carries shifted primaries, and a second `Digitize` over the same inputs would shift them again.
- The logging and the `Colt` colouring of thtml2doxy.py, `main`, `traverse_ast`, `comment_method` and `comment_datamember`. These need the clang AST.
- The file reading of `comment_classdesc`, and its author and date patterns. The class description's lines, author and date are parameters of `DoxyClassDesc.ClassDescLines`.
- `write_macro` hashes a macro and writes it to disk. It is the parameter `macroPath` of `DoxyRefactor.Refactor`.
- The `assert False` of refactor_comment (line 640) and of comment_classdesc (line 400) is not modelled. The patterns involved match every line without an inner newline, and `DoxyText.CommentText` and `DoxyClassDesc.GuessClassName` are total.
- The regular expressions are replaced by named predicates over single lines. Lines are assumed to hold no inner newline, where Python's `.` would stop.
- DoxyText.RewriteInline: only the bounds of one rewrite step and the termination of the loop are proved. No concrete rewritten line is stated.
- DoxyRefactor.Refactor: uses the corrected garbage class; the as-written class is DoxyText.IsGarbageAsWritten.
- DoxyText.IsGarbageAsWritten: encodes the IGNORECASE range semantics of Python 2.7 since the fix of bpo-17381, where a letter matches when either of its cases lies in the range. Before that fix the subject is lowered and the range is not, so no letter matches. The separator line "------" is kept under both.
- DoxyText.StripHtml: does not state that the result holds no tag. `re.sub` does not rescan, so removing a tag can leave a new one.
- `RALICE/Ali4Vector.h` is header-only floating-point vector algebra. `MUON/AliMUONTrack.h` relies on an external fitter. Neither is part of this model.

## Findings

| source | as written | input that shows it | evidently intended | confidence | as-written member | corrected member |
|---|---|---|---|---|---|---|
| PHOS/AliPHOSDigitizer.cxx:258-263 | the search for the next signal channel starts from nextSig's current value, which is the channel just merged, so it can never move past it | one input holding channels 1 and 2: after channel 1, nextSig stays 1 and channel 2 loses its signal | reset nextSig to 200000 before the search | high (not executed) | PhosFindings.StaleNextSignal, PhosFindings.AsWrittenNeverAdvances | PhosDigitizer.ScanNextSignal, PhosProperties.NextSignalIsNextPending |
| PHOS/AliPHOSDigitizer.cxx:204-210 | the first search reads `At(0)` of every input without checking that it has a digit | an input with no summable digit: `At(0)` is null and is dereferenced | skip empty inputs | high (not executed) | PhosFindings.EmptyInputDereferenced, PhosFindings.FirstSignalAsWritten | PhosDigitizer.StartCursors |
| PHOS/AliPHOSDigitizer.cxx:296-301 | the search reads `At(index[i])` of every input, even one whose digits are all merged | inputs [[ch 1], [ch 4]] after channel 1: `At(1)` of the first input is null and is dereferenced | skip exhausted inputs | high (not executed) | PhosFindings.ExhaustedInputDereferenced, PhosFindings.ScanNextAsWritten | PhosDigitizer.ScanNextSignal, PhosProperties.NextSignalIsNextPending |
| doxygen/thtml2doxy.py:492 | `[\s*=-_#]` reads `=-_` as the range from `=` to `_`, so it does not hold `-`; under the IGNORECASE range semantics of Python 2.7 since the fix of bpo-17381 the range also holds every letter | a separator line "------" is kept on every Python; with those range semantics the comment line "Default constructor" is also dropped as garbage | a class of whitespace and the characters `*`, `=`, `-`, `_`, `#` | high (not executed) | DoxyFindings.HyphenLineCounterexample, DoxyFindings.WordsLineCounterexample | DoxyFindings.SeparatorLineIsGarbage, DoxyFindings.LetterLineNotGarbage |
