/**
 * What refactor_comment promises about the comment it returns: macro lines
 * become one image line, runs of blank or garbage lines become one blank
 * line between kept lines and vanish at either end, and the LaTeX and pre
 * markers become their Doxygen forms.
 */
module DoxyRefactorProperties {
  import opened Wrappers
  import opened DoxyText
  import opened DoxyRefactor

  /** Lines from the start that are not macro markers. */
  predicate NoMarkers(lines: seq<string>)
  {
    forall k :: 0 <= k < |lines| ==> !IsMacroMarker(lines[k])
  }

  predicate AllDropped(lines: seq<string>, stripHtml: bool)
  {
    forall k :: 0 <= k < |lines| ==> Dropped(lines[k], stripHtml)
  }

  /**
   * The state invariant of the loop: outside a macro no macro lines are
   * pending, and until the first kept line no blank line has been emitted.
   */
  predicate Inv(st: State)
  {
    && (!st.inMacro ==> st.macro == [])
    && (st.waitFirstNonBlank ==> forall k :: 0 <= k < |st.out| ==> st.out[k] != "")
    && (!st.waitFirstNonBlank ==> st.out != [])
    && (st.out != [] ==> st.out[0] != "" && st.out[|st.out| - 1] != "")
  }

  lemma StepKeepsInv(st: State, line: string, stripHtml: bool, macroPath: seq<string> -> string)
    requires Inv(st)
    ensures Inv(Step(st, line, stripHtml, macroPath))
  {
    if IsMacroMarker(line) {
      MarkerKeepsInv(st, line, stripHtml, macroPath);
    } else if st.inMacro || Dropped(line, stripHtml) {
      SilentKeepsInv(st, line, stripHtml, macroPath);
    } else {
      KeptKeepsInv(st, line, stripHtml, macroPath);
    }
  }

  /** A line collected into a macro, or a blank or garbage line, writes nothing. */
  lemma SilentKeepsInv(st: State, line: string, stripHtml: bool, macroPath: seq<string> -> string)
    requires Inv(st) && !IsMacroMarker(line) && (st.inMacro || Dropped(line, stripHtml))
    ensures Inv(Step(st, line, stripHtml, macroPath))
  {
  }

  /** A kept line outside a macro. */
  lemma KeptKeepsInv(st: State, line: string, stripHtml: bool, macroPath: seq<string> -> string)
    requires Inv(st) && !IsMacroMarker(line) && !st.inMacro && !Dropped(line, stripHtml)
    ensures Inv(Step(st, line, stripHtml, macroPath))
  {
    KeptLineStep(st, line, stripHtml, macroPath);
    KeepKeepsInv(st, Kept(st.inLatex, st.latexBlock, RewriteInline(TextOf(line, stripHtml))));
  }

  /** A macro marker opens a macro, or closes one and writes its image line, which is not blank. */
  lemma MarkerKeepsInv(st: State, line: string, stripHtml: bool, macroPath: seq<string> -> string)
    requires Inv(st) && IsMacroMarker(line)
    ensures Inv(Step(st, line, stripHtml, macroPath))
  {
    if st.inMacro {
      var img := ImageLine(macroPath(st.macro));
      assert img != "";
      var out' := st.out + [img];
      assert forall k :: 0 <= k < |out'| ==> out'[k] == (if k < |st.out| then st.out[k] else img);
    }
  }

  /** A kept line adds only non-blank lines, after the blank line it owes. */
  lemma KeepKeepsInv(st: State, e: Emitted)
    requires Inv(st) && e.lines != [] && forall k :: 0 <= k < |e.lines| ==> e.lines[k] != ""
    ensures Inv(KeepStep(st, e))
  {
    var sep := Owed(st);
    var out' := st.out + sep + e.lines;
    assert forall k :: 0 <= k < |out'| ==>
      out'[k] == if k < |st.out| then st.out[k] else if k < |st.out| + |sep| then "" else e.lines[k - |st.out| - |sep|];
  }

  lemma {:induction false} FoldKeepsInv(st: State, lines: seq<string>, stripHtml: bool,
                                        macroPath: seq<string> -> string)
    requires Inv(st)
    ensures Inv(Fold(st, lines, stripHtml, macroPath))
    decreases |lines|
  {
    if lines != [] {
      StepKeepsInv(st, lines[0], stripHtml, macroPath);
      FoldKeepsInv(Step(st, lines[0], stripHtml, macroPath), lines[1..], stripHtml, macroPath);
    }
  }

  /** Inside a macro every line that is not a marker is collected and none is emitted. */
  lemma {:induction false} MacroBodyCollected(st: State, body: seq<string>, stripHtml: bool,
                                              macroPath: seq<string> -> string)
    requires st.inMacro && NoMarkers(body)
    ensures Fold(st, body, stripHtml, macroPath) == st.(macro := st.macro + body)
    decreases |body|
  {
    if body == [] {
      assert st.macro + body == st.macro;
    } else {
      var st1 := Step(st, body[0], stripHtml, macroPath);
      assert st1 == st.(macro := st.macro + [body[0]]);
      MacroBodyCollected(st1, body[1..], stripHtml, macroPath);
      assert st.macro + [body[0]] + body[1..] == st.macro + body;
    }
  }

  /**
   * A macro between a Begin_Macro and an End_Macro line becomes exactly one
   * image line, named by the macro's own lines; nothing else is emitted.
   */
  lemma MacroBecomesImage(st: State, open: string, body: seq<string>, close: string, stripHtml: bool,
                          macroPath: seq<string> -> string)
    requires !st.inMacro && st.macro == []
    requires IsMacroMarker(open) && IsMacroMarker(close) && NoMarkers(body)
    ensures Fold(st, [open] + body + [close], stripHtml, macroPath)
            == st.(out := st.out + [ImageLine(macroPath(body))])
  {
    var lines := [open] + body;
    assert lines[0] == open && lines[1..] == body;
    var st1 := Step(st, open, stripHtml, macroPath);
    assert st1 == st.(inMacro := true);
    assert Fold(st, lines, stripHtml, macroPath) == Fold(st1, body, stripHtml, macroPath);
    MacroBodyCollected(st1, body, stripHtml, macroPath);
    assert st1.macro + body == body;
    FoldSnoc(st, lines, close, stripHtml, macroPath);
  }

  /** Blank and garbage lines outside a macro emit nothing; they only note that a blank line is owed. */
  lemma {:induction false} DroppedRunSilent(st: State, run: seq<string>, stripHtml: bool,
                                            macroPath: seq<string> -> string)
    requires !st.inMacro && AllDropped(run, stripHtml)
    ensures Fold(st, run, stripHtml, macroPath) == if run == [] then st else st.(insertBlank := true)
    decreases |run|
  {
    if run != [] {
      DroppedRunSilent(st.(insertBlank := true), run[1..], stripHtml, macroPath);
    }
  }

  /** A run of blank or garbage lines at the end of a comment leaves the output unchanged. */
  lemma TrailingRunVanishes(st: State, run: seq<string>, stripHtml: bool, macroPath: seq<string> -> string)
    requires !st.inMacro && AllDropped(run, stripHtml)
    ensures Fold(st, run, stripHtml, macroPath).out == st.out
  {
    DroppedRunSilent(st, run, stripHtml, macroPath);
  }

  /**
   * Between two kept lines, a run of blank or garbage lines of any length
   * becomes exactly one blank line.
   */
  lemma RunBecomesOneBlank(st: State, run: seq<string>, line: string, stripHtml: bool,
                           macroPath: seq<string> -> string)
    requires !st.inMacro && !st.waitFirstNonBlank
    requires run != [] && AllDropped(run, stripHtml)
    requires !IsMacroMarker(line) && !Dropped(line, stripHtml)
    ensures Fold(st, run + [line], stripHtml, macroPath).out
            == st.out + [""] + Kept(st.inLatex, st.latexBlock, RewriteInline(TextOf(line, stripHtml))).lines
  {
    var text := TextOf(line, stripHtml);
    var e := Kept(st.inLatex, st.latexBlock, RewriteInline(text));
    var st' := st.(insertBlank := true);
    DroppedRunSilent(st, run, stripHtml, macroPath);
    FoldSnoc(st, run, line, stripHtml, macroPath);
    assert Step(st', line, stripHtml, macroPath) == TextStep(st', text);
    assert TextStep(st', text) == KeepStep(st', e);
  }

  /** A kept line right after a kept line is written with no blank line before it. */
  lemma NoRunNoBlank(st: State, line: string, stripHtml: bool, macroPath: seq<string> -> string)
    requires !st.inMacro && !st.insertBlank
    requires !IsMacroMarker(line) && !Dropped(line, stripHtml)
    ensures Step(st, line, stripHtml, macroPath).out
            == st.out + Kept(st.inLatex, st.latexBlock, RewriteInline(TextOf(line, stripHtml))).lines
  {
    var text := TextOf(line, stripHtml);
    var e := Kept(st.inLatex, st.latexBlock, RewriteInline(text));
    assert Step(st, line, stripHtml, macroPath) == TextStep(st, text);
    assert TextStep(st, text) == KeepStep(st, e);
    assert st.out + [] == st.out;
  }

  /** Two states that differ at most in insert_blank while the first kept line is still awaited. */
  predicate AgreeUpToBlank(s1: State, s2: State)
  {
    s1 == s2 || (s1.waitFirstNonBlank && s1 == s2.(insertBlank := s1.insertBlank))
  }

  lemma StepAgrees(s1: State, s2: State, line: string, stripHtml: bool, macroPath: seq<string> -> string)
    requires AgreeUpToBlank(s1, s2)
    ensures AgreeUpToBlank(Step(s1, line, stripHtml, macroPath), Step(s2, line, stripHtml, macroPath))
  {
  }

  lemma {:induction false} FoldAgrees(s1: State, s2: State, lines: seq<string>, stripHtml: bool,
                                      macroPath: seq<string> -> string)
    requires AgreeUpToBlank(s1, s2)
    ensures AgreeUpToBlank(Fold(s1, lines, stripHtml, macroPath), Fold(s2, lines, stripHtml, macroPath))
    decreases |lines|
  {
    if lines != [] {
      StepAgrees(s1, s2, lines[0], stripHtml, macroPath);
      FoldAgrees(Step(s1, lines[0], stripHtml, macroPath), Step(s2, lines[0], stripHtml, macroPath),
                 lines[1..], stripHtml, macroPath);
    }
  }

  lemma {:induction false} LeadingRunFrom(st: State, run: seq<string>, rest: seq<string>, stripHtml: bool,
                                          macroPath: seq<string> -> string)
    requires AgreeUpToBlank(st, Start()) && AllDropped(run, stripHtml)
    ensures AgreeUpToBlank(Fold(st, run + rest, stripHtml, macroPath), Fold(Start(), rest, stripHtml, macroPath))
    decreases |run|
  {
    if run == [] {
      assert run + rest == rest;
      FoldAgrees(st, Start(), rest, stripHtml, macroPath);
    } else {
      var all := run + rest;
      assert all[0] == run[0] && all[1..] == run[1..] + rest;
      assert Dropped(run[0], stripHtml);
      var t := TextOf(run[0], stripHtml);
      assert Step(st, run[0], stripHtml, macroPath) == TextStep(st, t);
      assert TextStep(st, t) == st.(insertBlank := true);
      assert Fold(st, all, stripHtml, macroPath) == Fold(st.(insertBlank := true), all[1..], stripHtml, macroPath);
      LeadingRunFrom(st.(insertBlank := true), run[1..], rest, stripHtml, macroPath);
    }
  }

  /** A run of blank or garbage lines at the start of a comment changes nothing in the result. */
  lemma LeadingRunVanishes(run: seq<string>, rest: seq<string>, stripHtml: bool, macroPath: seq<string> -> string)
    requires AllDropped(run, stripHtml)
    ensures Refactor(run + rest, stripHtml, macroPath) == Refactor(rest, stripHtml, macroPath)
  {
    LeadingRunFrom(Start(), run, rest, stripHtml, macroPath);
  }

  /**
   * The comment refactor_comment returns neither starts nor ends with a
   * blank line, and has no blank line at all until a line was kept.
   */
  lemma NoLeadingBlank(comment: seq<string>, stripHtml: bool, macroPath: seq<string> -> string)
    ensures var r := Refactor(comment, stripHtml, macroPath);
            r != [] ==> r[0] != "" && r[|r| - 1] != ""
    ensures var st := Fold(Start(), comment, stripHtml, macroPath);
            st.waitFirstNonBlank ==> forall k :: 0 <= k < |st.out| ==> st.out[k] != ""
  {
    FoldKeepsInv(Start(), comment, stripHtml, macroPath);
  }

  /** A comment text that is only the word w, after any whitespace, in any case. */
  predicate LoneLatex(s: string, w: string)
  {
    |w| <= |s| && AllSpace(s[..|s| - |w|]) && WordAt(s, |s| - |w|, w)
  }

  /** No character of a LaTeX keyword, in any case, is whitespace. */
  lemma KeywordNoSpace(s: string, p: nat, w: string)
    requires w == "BEGIN_LATEX" || w == "END_LATEX"
    requires WordAt(s, p, w)
    ensures forall k :: p <= k < p + |w| ==> !IsSpace(s[k])
  {
    forall k | p <= k < p + |w|
      ensures !IsSpace(s[k])
    {
      assert Lower(s[p + (k - p)]) == Lower(w[k - p]);
    }
  }

  /** relatex reads a lone keyword as a keyword with nothing before and nothing after it. */
  lemma LoneLatexMarker(s: string, w: string)
    requires (w == "BEGIN_LATEX" || w == "END_LATEX") && LoneLatex(s, w)
    ensures LatexMarker(s) == Some(LatexMark(w == "BEGIN_LATEX", "", ""))
  {
    var p := |s| - |w|;
    LoneLatexIndent(s, w);
    assert w == "END_LATEX" ==> !WordAt(s, p, "BEGIN_LATEX");
    assert LatexKeywordAt(s, p) == Some((w == "BEGIN_LATEX", |w|));
    if p == 0 {
      assert forall k :: 0 <= k < |s| ==> !KeywordRunAt(s, k);
      assert FirstKeywordRun(s, 0).None?;
      assert s[|w|..] == [];
    } else {
      assert s[0] == s[..p][0];
      assert s[0..] == s;
      assert KeywordRunAt(s, 0);
      assert FirstKeywordRun(s, 0) == Some(0);
      assert s[..0] == [] && s[p + |w|..] == [];
    }
  }

  /** The indentation of a lone keyword is all that precedes it. */
  lemma LoneLatexIndent(s: string, w: string)
    requires (w == "BEGIN_LATEX" || w == "END_LATEX") && LoneLatex(s, w)
    ensures LeadingSpaces(s) == |s| - |w|
    ensures forall k :: |s| - |w| <= k < |s| ==> !IsSpace(s[k])
  {
    var p := |s| - |w|;
    KeywordNoSpace(s, p, w);
    assert !IsSpace(s[p]);
    assert forall k :: 0 <= k < p ==> s[k] == s[..p][k];
  }

  /**
   * A lone keyword is kept: it is not blank, not garbage, and holds no
   * inline formula to rewrite.
   */
  lemma LoneLatexText(s: string, w: string)
    requires (w == "BEGIN_LATEX" || w == "END_LATEX") && LoneLatex(s, w)
    ensures s != [] && !IsGarbage(s) && RewriteInline(s) == s
  {
    var p := |s| - |w|;
    LoneLatexIndent(s, w);
    assert Lower(s[p + 0]) == Lower(w[0]);
    assert !GarbageChar(s[p]);
    StripParts(s);
    assert Lower(s[p + 4]) == Lower(w[4]) && Lower(s[p + 6]) == Lower(w[6]);
    forall k | 0 <= k < |s|
      ensures !(WordAt(s, k, "BEGIN_LATEX") && InlineEnd(s, k).Some?)
    {
      if k < p {
        assert WordAt(s, k, "BEGIN_LATEX") ==> Lower(s[k + 0]) == Lower("BEGIN_LATEX"[0]);
      }
    }
    assert LastInline(s, |s|).None?;
  }

  /** A line inside a LaTeX block that is kept and carries no LaTeX keyword. */
  predicate PlainLatexLine(line: string, stripHtml: bool)
  {
    !IsMacroMarker(line) && !Dropped(line, stripHtml) && LatexMarker(RewriteInline(TextOf(line, stripHtml))).None?
  }

  /** The lines a LaTeX block's body is written as: inline formulas rewritten, then # turned into a backslash. */
  function LatexBody(body: seq<string>, stripHtml: bool): (r: seq<string>)
    ensures |r| == |body|
    ensures forall k :: 0 <= k < |body| ==> r[k] == ReplaceHash(RewriteInline(TextOf(body[k], stripHtml)))
    decreases |body|
  {
    if body == [] then []
    else [ReplaceHash(RewriteInline(TextOf(body[0], stripHtml)))] + LatexBody(body[1..], stripHtml)
  }

  /** A line outside a macro that is kept goes through Kept, after the blank line it owes. */
  lemma KeptLineStep(st: State, line: string, stripHtml: bool, macroPath: seq<string> -> string)
    requires !st.inMacro && !IsMacroMarker(line) && !Dropped(line, stripHtml)
    ensures Step(st, line, stripHtml, macroPath)
            == KeepStep(st, Kept(st.inLatex, st.latexBlock, RewriteInline(TextOf(line, stripHtml))))
  {
  }

  /** Inside a LaTeX block, every plain line is written with # turned into a backslash, and nothing else changes. */
  lemma {:induction false} LatexBodyCopied(st: State, body: seq<string>, stripHtml: bool,
                                           macroPath: seq<string> -> string)
    requires !st.inMacro && st.inLatex && !st.insertBlank && !st.waitFirstNonBlank
    requires forall k :: 0 <= k < |body| ==> PlainLatexLine(body[k], stripHtml)
    ensures Fold(st, body, stripHtml, macroPath) == st.(out := st.out + LatexBody(body, stripHtml))
    decreases |body|
  {
    if body == [] {
      assert st.out + LatexBody(body, stripHtml) == st.out;
    } else {
      var line := ReplaceHash(RewriteInline(TextOf(body[0], stripHtml)));
      PlainLatexStep(st, body[0], stripHtml, macroPath);
      var st1 := st.(out := st.out + [line]);
      LatexBodyCopied(st1, body[1..], stripHtml, macroPath);
      AppendAssoc(st.out, [line], LatexBody(body[1..], stripHtml));
    }
  }

  /** One plain line inside a LaTeX block. */
  lemma PlainLatexStep(st: State, line: string, stripHtml: bool, macroPath: seq<string> -> string)
    requires !st.inMacro && st.inLatex && !st.insertBlank && !st.waitFirstNonBlank
    requires PlainLatexLine(line, stripHtml)
    ensures Step(st, line, stripHtml, macroPath)
            == st.(out := st.out + [ReplaceHash(RewriteInline(TextOf(line, stripHtml)))])
  {
    var s := RewriteInline(TextOf(line, stripHtml));
    KeptLineStep(st, line, stripHtml, macroPath);
    KeptInsideLatex(st.latexBlock, s);
    KeepStepQuiet(st, Emitted([ReplaceHash(s)], true, st.latexBlock));
  }

  /** A kept line that owes no blank line adds just its own lines. */
  lemma KeepStepQuiet(st: State, e: Emitted)
    requires !st.insertBlank && !st.waitFirstNonBlank
    ensures KeepStep(st, e) == st.(inLatex := e.inLatex, latexBlock := e.latexBlock, out := st.out + e.lines)
  {
    assert st.out + Owed(st) == st.out;
  }

  /** Inside LaTeX, a text without a LaTeX keyword is kept as one line with # turned into a backslash. */
  lemma KeptInsideLatex(latexBlock: bool, s: string)
    requires LatexMarker(s).None?
    ensures Kept(true, latexBlock, s) == Emitted([ReplaceHash(s)], true, latexBlock)
  {
  }

  /** A comment text that is only BEGIN_LATEX, after any whitespace and in any case, opens a LaTeX block: `\f[`. */
  lemma LoneBeginOpensBlock(inLatex: bool, latexBlock: bool, s: string)
    requires LoneLatex(s, "BEGIN_LATEX")
    ensures Kept(inLatex, latexBlock, s) == Emitted(["\\f["], true, true)
  {
    LoneLatexMarker(s, "BEGIN_LATEX");
  }

  /** In a LaTeX block, a comment text that is only END_LATEX, after any whitespace and in any case, closes it: `\f]`. */
  lemma LoneEndClosesBlock(inLatex: bool, s: string)
    requires LoneLatex(s, "END_LATEX")
    ensures Kept(inLatex, true, s) == Emitted(["\\f]"], false, true)
  {
    LoneLatexMarker(s, "END_LATEX");
  }

  /**
   * A LaTeX block, a lone BEGIN_LATEX line, plain lines, then a lone
   * END_LATEX line, becomes `\f[`, the body lines with # turned into a
   * backslash, and `\f]`, after the blank line owed before it.
   */
  lemma LatexBlockBecomesFormula(st: State, open: string, body: seq<string>, close: string, stripHtml: bool,
                                 macroPath: seq<string> -> string)
    requires !st.inMacro
    requires !IsMacroMarker(open) && LoneLatex(TextOf(open, stripHtml), "BEGIN_LATEX")
    requires forall k :: 0 <= k < |body| ==> PlainLatexLine(body[k], stripHtml)
    requires !IsMacroMarker(close) && LoneLatex(TextOf(close, stripHtml), "END_LATEX")
    ensures Fold(st, [open] + body + [close], stripHtml, macroPath)
            == st.(inLatex := false, latexBlock := true, insertBlank := false, waitFirstNonBlank := false,
                   out := st.out + Owed(st) + ["\\f["] + LatexBody(body, stripHtml) + ["\\f]"])
  {
    var st1 := st.(insertBlank := false, waitFirstNonBlank := false, inLatex := true, latexBlock := true,
                   out := st.out + Owed(st) + ["\\f["]);
    var lines := [open] + body;
    OpenLatexFold(st, open, body, stripHtml, macroPath);
    LatexBodyCopied(st1, body, stripHtml, macroPath);
    var st2 := st1.(out := st1.out + LatexBody(body, stripHtml));
    FoldSnoc(st, lines, close, stripHtml, macroPath);
    CloseLatexStep(st2, close, stripHtml, macroPath);
  }

  /** The lone BEGIN_LATEX line of a block is written as `\f[` and sets both LaTeX flags. */
  lemma OpenLatexFold(st: State, open: string, body: seq<string>, stripHtml: bool, macroPath: seq<string> -> string)
    requires !st.inMacro
    requires !IsMacroMarker(open) && LoneLatex(TextOf(open, stripHtml), "BEGIN_LATEX")
    ensures Fold(st, [open] + body, stripHtml, macroPath)
            == Fold(st.(insertBlank := false, waitFirstNonBlank := false, inLatex := true, latexBlock := true,
                        out := st.out + Owed(st) + ["\\f["]), body, stripHtml, macroPath)
  {
    var lines := [open] + body;
    assert lines[0] == open && lines[1..] == body;
    OpenLatexStep(st, open, stripHtml, macroPath);
  }

  lemma OpenLatexStep(st: State, open: string, stripHtml: bool, macroPath: seq<string> -> string)
    requires !st.inMacro
    requires !IsMacroMarker(open) && LoneLatex(TextOf(open, stripHtml), "BEGIN_LATEX")
    ensures Step(st, open, stripHtml, macroPath)
            == st.(insertBlank := false, waitFirstNonBlank := false, inLatex := true, latexBlock := true,
                   out := st.out + Owed(st) + ["\\f["])
  {
    var t := TextOf(open, stripHtml);
    LoneLatexText(t, "BEGIN_LATEX");
    KeptLineStep(st, open, stripHtml, macroPath);
    LoneBeginOpensBlock(st.inLatex, st.latexBlock, t);
  }

  /** The lone END_LATEX line closing a block is written as `\f]`. */
  lemma CloseLatexStep(st: State, close: string, stripHtml: bool, macroPath: seq<string> -> string)
    requires !st.inMacro && st.inLatex && st.latexBlock && !st.insertBlank && !st.waitFirstNonBlank
    requires !IsMacroMarker(close) && LoneLatex(TextOf(close, stripHtml), "END_LATEX")
    ensures Step(st, close, stripHtml, macroPath) == st.(inLatex := false, out := st.out + ["\\f]"])
  {
    var t := TextOf(close, stripHtml);
    LoneLatexText(t, "END_LATEX");
    KeptLineStep(st, close, stripHtml, macroPath);
    LoneEndClosesBlock(true, t);
    KeepStepQuiet(st, Emitted(["\\f]"], false, true));
  }

  /** A `<pre>` or `</pre>` tag in any letter case, as reblock's IGNORECASE match reads it. */
  predicate PreTagWord(tag: string)
  {
    (|tag| == 5 && WordAt(tag, 0, "<PRE>")) || (|tag| == 6 && WordAt(tag, 0, "</PRE>"))
  }

  /** A pre tag starts with `<` and holds no whitespace and no letter b. */
  lemma PreTagChars(tag: string)
    requires PreTagWord(tag)
    ensures tag[0] == '<'
    ensures forall k :: 0 <= k < |tag| ==> !IsSpace(tag[k]) && Lower(tag[k]) != 'b'
  {
    var w := if |tag| == 5 then "<PRE>" else "</PRE>";
    assert Lower(tag[0]) == Lower(w[0]);
    forall k | 0 <= k < |tag| ensures !IsSpace(tag[k]) && Lower(tag[k]) != 'b' {
      assert Lower(tag[k]) == Lower(w[k]);
    }
  }

  /** The indentation of a line that is whitespace followed by a tag. */
  lemma SpacesBeforeTag(ws: string, tag: string)
    requires AllSpace(ws) && tag != [] && tag[0] == '<'
    ensures LeadingSpaces(ws + tag) == |ws|
  {
    var s := ws + tag;
    assert s[|ws|] == '<';
    assert forall k :: 0 <= k < |ws| ==> s[k] == ws[k];
  }

  /** No LaTeX keyword starts where a character that is not a letter stands. */
  lemma NoKeywordAt(s: string, p: nat)
    requires p < |s| && Lower(s[p]) != 'b' && Lower(s[p]) != 'e'
    ensures LatexKeywordAt(s, p).None?
  {
    assert WordAt(s, p, "BEGIN_LATEX") ==> Lower(s[p + 0]) == Lower("BEGIN_LATEX"[0]);
    assert WordAt(s, p, "END_LATEX") ==> Lower(s[p + 0]) == Lower("END_LATEX"[0]);
  }

  lemma NoKeywordRunBeforeTag(ws: string, tag: string, k: nat)
    requires AllSpace(ws) && PreTagWord(tag) && k < |ws + tag|
    ensures !KeywordRunAt(ws + tag, k)
  {
    var s := ws + tag;
    PreTagChars(tag);
    if k < |ws| {
      assert s[k..] == ws[k..] + tag;
      SpacesBeforeTag(ws[k..], tag);
      NoKeywordAt(s, |ws|);
    } else {
      assert s[k] == tag[k - |ws|];
    }
  }

  /** A pre tag line carries no LaTeX keyword. */
  lemma NoLatexBeforeTag(ws: string, tag: string)
    requires AllSpace(ws) && PreTagWord(tag)
    ensures LatexMarker(ws + tag).None?
  {
    var s := ws + tag;
    forall k | 0 <= k < |s| ensures !KeywordRunAt(s, k) {
      NoKeywordRunBeforeTag(ws, tag, k);
    }
    assert FirstKeywordRun(s, 0).None?;
    PreTagChars(tag);
    assert IsSpace(s[0]) || s[0] == '<';
    NoKeywordAt(s, 0);
  }

  /**
   * A line holding only a `<pre>` or `</pre>` tag, in any letter case, outside
   * LaTeX, becomes a code fence with the tag's indentation.
   */
  lemma PreBecomesFence(ws: string, tag: string, latexBlock: bool)
    requires AllSpace(ws) && PreTagWord(tag)
    ensures Kept(false, latexBlock, ws + tag) == Emitted([ws + "~~~"], false, latexBlock)
  {
    NoLatexBeforeTag(ws, tag);
    PreTagOfFence(ws, tag);
  }

  /** The pre tag of a line made of whitespace and a `<pre>` or `</pre>` tag in any case is that whitespace. */
  lemma PreTagOfFence(ws: string, tag: string)
    requires AllSpace(ws) && PreTagWord(tag)
    ensures PreTag(ws + tag) == Some(ws)
  {
    var s := ws + tag;
    PreTagChars(tag);
    SpacesBeforeTag(ws, tag);
    assert s[|ws|..] == tag && s[..|ws|] == ws;
    assert |tag| == 5 ==> tag[5..] == [];
    assert |tag| == 6 ==> tag[6..] == [];
  }
}
