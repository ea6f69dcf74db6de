/**
 * refactor_comment of thtml2doxy.py: the line-by-line rewriting of a THtml
 * comment into Doxygen form.  The script's loop is the method
 * RefactorComment; one iteration of it is the function Step on the loop's
 * state, and the method is proved to compute the fold of Step over the
 * comment.  write_macro, which hashes a macro and writes it to disk, is the
 * parameter macroPath.
 */
module DoxyRefactor {
  import opened Wrappers
  import opened DoxyText

  /** The loop variables of refactor_comment. */
  datatype State = State(inMacro: bool, macro: seq<string>, inLatex: bool, latexBlock: bool,
                         insertBlank: bool, waitFirstNonBlank: bool, out: seq<string>)

  function Start(): State
  {
    State(false, [], false, false, false, true, [])
  }

  /** What a kept line contributes, and the LaTeX flags after it. */
  datatype Emitted = Emitted(lines: seq<string>, inLatex: bool, latexBlock: bool)

  /**
   * The lines a kept comment text s turns into, after its inline formulas
   * were rewritten: a LaTeX keyword opens or closes a block or an inline
   * formula, a lone pre tag outside LaTeX becomes a code fence, and any
   * other line is kept, with # turned into a backslash inside LaTeX.
   */
  function Kept(inLatex: bool, latexBlock: bool, s: string): (e: Emitted)
    ensures |e.lines| >= 1
    ensures s != [] ==> forall k :: 0 <= k < |e.lines| ==> e.lines[k] != []
  {
    match LatexMarker(s)
    case Some(m) =>
      if m.isBegin then
        if m.before == "" && m.after == "" then Emitted(["\\f["], true, true)
        else Emitted([m.before + " \\f$" + ReplaceHash(m.after)], true, false)
      else if latexBlock then
        Emitted((if m.before != "" then [ReplaceHash(m.before)] else []) + ["\\f]"]
                + (if m.after != "" then [m.after] else []), false, latexBlock)
      else Emitted([ReplaceHash(m.before) + "\\f$" + m.after], false, latexBlock)
    case None =>
      if !inLatex && PreTag(s).Some? then Emitted([PreTag(s).value + "~~~"], inLatex, latexBlock)
      else Emitted([if inLatex then ReplaceHash(s) else s], inLatex, latexBlock)
  }

  /** The comment text of a line, with the HTML tags stripped first when asked. */
  function TextOf(line: string, stripHtml: bool): string
  {
    CommentText(if stripHtml then StripHtml(line) else line)
  }

  /** A line that is neither a macro marker nor anything but blank or garbage text: it sets insert_blank and emits nothing. */
  predicate Dropped(line: string, stripHtml: bool)
  {
    !IsMacroMarker(line) && (TextOf(line, stripHtml) == [] || IsGarbage(TextOf(line, stripHtml)))
  }

  /** One iteration of refactor_comment's loop. */
  function Step(st: State, line: string, stripHtml: bool, macroPath: seq<string> -> string): State
  {
    if IsMacroMarker(line) then
      if st.inMacro then st.(inMacro := false, macro := [], out := st.out + [ImageLine(macroPath(st.macro))])
      else st.(inMacro := true)
    else if st.inMacro then st.(macro := st.macro + [line])
    else TextStep(st, TextOf(line, stripHtml))
  }

  /** The part of an iteration that handles the comment text t of a line outside a macro. */
  function TextStep(st: State, t: string): State
  {
    if t == [] || IsGarbage(t) then st.(insertBlank := true)
    else KeepStep(st, Kept(st.inLatex, st.latexBlock, RewriteInline(t)))
  }

  /**
   * A line whose text is kept and turns into e: the blank line owed to a
   * preceding run of blank or garbage lines, then the lines of e.
   */
  function KeepStep(st: State, e: Emitted): State
  {
    st.(insertBlank := false, waitFirstNonBlank := false, inLatex := e.inLatex, latexBlock := e.latexBlock,
        out := st.out + Owed(st) + e.lines)
  }

  /** The blank line a kept line is preceded by: owed after a run of blank or garbage lines, never before the first. */
  function Owed(st: State): seq<string>
  {
    if st.insertBlank && !st.waitFirstNonBlank then [""] else []
  }

  function Fold(st: State, lines: seq<string>, stripHtml: bool, macroPath: seq<string> -> string): State
    decreases |lines|
  {
    if lines == [] then st else Fold(Step(st, lines[0], stripHtml, macroPath), lines[1..], stripHtml, macroPath)
  }

  /** The comment refactor_comment returns. */
  function Refactor(comment: seq<string>, stripHtml: bool, macroPath: seq<string> -> string): seq<string>
  {
    Fold(Start(), comment, stripHtml, macroPath).out
  }

  lemma {:induction false} FoldSnoc(st: State, lines: seq<string>, line: string, stripHtml: bool,
                                    macroPath: seq<string> -> string)
    ensures Fold(st, lines + [line], stripHtml, macroPath)
            == Step(Fold(st, lines, stripHtml, macroPath), line, stripHtml, macroPath)
    decreases |lines|
  {
    if lines == [] {
      assert [line][1..] == [];
    } else {
      assert (lines + [line])[1..] == lines[1..] + [line];
      FoldSnoc(Step(st, lines[0], stripHtml, macroPath), lines[1..], line, stripHtml, macroPath);
    }
  }

  /** The `while True` loop of refactor_comment that rewrites inline formulas until none is left. */
  method RewriteInlineLatex(s: string) returns (r: string)
    ensures r == RewriteInline(s)
  {
    r := s;
    while true
      invariant RewriteInline(r) == RewriteInline(s)
      decreases |r|
    {
      var m := FindInline(r);
      if m.None? {
        break;
      }
      r := m.value.before + "\\f$" + ReplaceHash(m.value.formula) + "\\f$" + m.value.after;
    }
  }

  /** refactor_comment. */
  method RefactorComment(comment: seq<string>, stripHtml: bool, macroPath: seq<string> -> string)
    returns (newComment: seq<string>)
    ensures newComment == Refactor(comment, stripHtml, macroPath)
  {
    var st := Start();
    for i := 0 to |comment|
      invariant st == Fold(Start(), comment[..i], stripHtml, macroPath)
    {
      FoldSnoc(Start(), comment[..i], comment[i], stripHtml, macroPath);
      TakeSnoc(comment, i);
      st := RefactorLine(st, comment[i], stripHtml, macroPath);
    }
    assert comment[..|comment|] == comment;
    newComment := st.out;
  }

  /** The body of refactor_comment's loop for one line of the comment. */
  method RefactorLine(st0: State, line: string, stripHtml: bool, macroPath: seq<string> -> string)
    returns (st: State)
    ensures st == Step(st0, line, stripHtml, macroPath)
  {
    st := st0;
    if IsMacroMarker(line) {
      if st.inMacro {
        var outimg := macroPath(st.macro);
        st := st.(inMacro := false, macro := [], out := st.out + [ImageLine(outimg)]);
      } else {
        st := st.(inMacro := true);
      }
    } else if st.inMacro {
      st := st.(macro := st.macro + [line]);
    } else {
      var lineComment := if stripHtml then StripHtml(line) else line;
      st := RefactorText(st, CommentText(lineComment));
    }
  }

  /** The rest of the loop body, on the comment text of a line outside a macro. */
  method RefactorText(st0: State, text: string) returns (st: State)
    ensures st == TextStep(st0, text)
  {
    if text == [] || IsGarbage(text) {
      st := st0.(insertBlank := true);
    } else {
      var newLineComment := RewriteInlineLatex(text);
      var lines, inLatex, latexBlock := KeptLines(st0.inLatex, st0.latexBlock, newLineComment);
      st := KeepText(st0, lines, inLatex, latexBlock);
    }
  }

  /** The branch of the loop body for a kept line. */
  method KeepText(st0: State, lines: seq<string>, inLatex: bool, latexBlock: bool) returns (st: State)
    ensures st == KeepStep(st0, Emitted(lines, inLatex, latexBlock))
  {
    var newComment := st0.out;
    if st0.insertBlank && !st0.waitFirstNonBlank {
      newComment := newComment + [""];
    }
    st := st0.(insertBlank := false, waitFirstNonBlank := false, inLatex := inLatex, latexBlock := latexBlock,
               out := newComment + lines);
  }

  /** The LaTeX and pre-tag branches of refactor_comment for one kept line. */
  method KeptLines(inLatex0: bool, latexBlock0: bool, s: string)
    returns (lines: seq<string>, inLatex: bool, latexBlock: bool)
    ensures Emitted(lines, inLatex, latexBlock) == Kept(inLatex0, latexBlock0, s)
  {
    inLatex, latexBlock := inLatex0, latexBlock0;
    var mlatex := LatexMarker(s);
    if mlatex.Some? {
      var lBefore, lAfter := mlatex.value.before, mlatex.value.after;
      if mlatex.value.isBegin {
        inLatex := true;
        if lBefore == "" && lAfter == "" {
          latexBlock := true;
          lines := ["\\f["];
        } else {
          latexBlock := false;
          lines := [lBefore + " \\f$" + ReplaceHash(lAfter)];
        }
      } else {
        inLatex := false;
        if latexBlock {
          lines := if lBefore != "" then [ReplaceHash(lBefore)] else [];
          lines := lines + ["\\f]"];
          if lAfter != "" {
            lines := lines + [lAfter];
          }
        } else {
          lines := [ReplaceHash(lBefore) + "\\f$" + lAfter];
        }
      }
      return;
    }
    var mblock := PreTag(s);
    if !inLatex && mblock.Some? {
      lines := [mblock.value + "~~~"];
    } else {
      lines := [if inLatex then ReplaceHash(s) else s];
    }
  }
}
