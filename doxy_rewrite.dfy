/**
 * rewrite_comments of thtml2doxy.py: the source file is copied line by line,
 * and the lines the collected comments cover are replaced by their Doxygen
 * form.  The input file is the sequence of its lines, each with its newline
 * if it has one; the output file is the text written.  One iteration of the
 * loop is the function Step, and the method RewriteComments is proved to
 * compute the fold of Step over the file.
 */
module DoxyRewrite {
  import opened Wrappers
  import opened DoxyText
  import opened DoxyComments

  /** The loop variables of rewrite_comments; comm is the comment of the line read last. */
  datatype State = State(inComment: bool, skipEmpty: bool, comm: Option<Comment>, out: string)

  function Start(): State
  {
    State(false, false, None, "")
  }

  /** Python's s[0:stop]: a negative stop counts from the end of s. */
  function PySlice(s: string, stop: int): (r: string)
    ensures r <= s
    ensures 0 <= stop <= |s| ==> |r| == stop
    ensures stop < 0 ==> |r| == if |s| + stop >= 0 then |s| + stop else 0
  {
    if stop >= |s| then s
    else if stop >= 0 then s[..stop]
    else if |s| + stop >= 0 then s[..|s| + stop]
    else []
  }

  /** One line of a dumped comment block: the indentation, `/// ` and the comment line. */
  function DocLine(indent: nat, line: string): string
  {
    Spaces(indent) + "/// " + line + "\n"
  }

  /** The doc lines of a comment block, in order. */
  function DocLines(indent: nat, lines: seq<string>): (r: string)
    decreases |lines|
  {
    if lines == [] then [] else DocLines(indent, lines[..|lines| - 1]) + DocLine(indent, lines[|lines| - 1])
  }

  /** What dump_comment_block writes: the doc lines, then an empty line. */
  function Dump(indent: nat, lines: seq<string>): string
  {
    DocLines(indent, lines) + "\n"
  }

  /**
   * The block a line ends, when the loop is inside one: rewrite_comments
   * dumps prev_comm there, which is always a block comment (DoxyRewriteProperties.StepKeepsInv).
   */
  function DumpOf(c: Option<Comment>): string
  {
    if c.Some? && c.value.Block? then Dump(c.value.indent, c.value.lines) else ""
  }

  /** The comment flag written after `//` on a split member's line: the flag, or nothing. */
  function FlagText(c: Comment): (r: string)
    requires c.Member?
    ensures Valid(c) ==> '\n' !in r && |r| <= 2
    ensures r == [] <==> c.flag.None? || c.flag.value == []
  {
    if c.flag.Some? then c.flag.value else ""
  }

  /** The two lines a data member comment becomes when it cannot stay on the member's line. */
  function SplitMember(line: string, c: Comment): string
    requires c.Member?
  {
    var asize := if c.arraySize.Some? then "[" + c.arraySize.value + "]" else "";
    line[..LeadingSpaces(line)] + "/// " + c.text + "\n" + PySlice(line, c.firstCol - 1) + "//" + FlagText(c) + asize + "\n"
  }

  /** The one line a data member comment becomes: `//!<` when transient, `///<` otherwise. */
  function InlineMember(line: string, c: Comment): string
    requires c.Member?
  {
    PySlice(line, c.firstCol - 1) + "//" + (if IsTransient(c) then "!" else "/") + "< " + c.text + "\n"
  }

  /** What a data member comment's line becomes. */
  function MemberOut(line: string, c: Comment): string
    requires c.Member?
  {
    if c.arraySize.Some? || IsDontSplit(c) || IsPtr(c) then SplitMember(line, c) else InlineMember(line, c)
  }

  /** The state after the block being read, if any, has been dumped. */
  function EndBlock(st: State): State
  {
    if st.inComment then st.(inComment := false, out := st.out + DumpOf(st.comm)) else st
  }

  /** One iteration of rewrite_comments' loop, on line number lineNum. */
  function Step(st: State, line: string, lineNum: int, comments: seq<Comment>): State
  {
    var prevComm := st.comm;
    var comm := Covering(comments, lineNum);
    match comm
    case Some(c) =>
      if c.Member? then
        var st1 := EndBlock(st);
        st1.(comm := comm, out := st1.out + MemberOut(line, c))
      else if c.Remove? then EndBlock(st).(comm := comm)
      else if prevComm.None? then
        var nonComment := RStrip(PySlice(line, c.firstCol - 1));
        st.(inComment := true, comm := comm, out := st.out + if nonComment != "" then nonComment + "\n" else "")
      else st.(comm := comm)
    case None =>
      var st1 := if st.inComment then EndBlock(st).(skipEmpty := true) else st;
      var lineOut := RStripNewlines(line);
      if st1.skipEmpty then
        st1.(skipEmpty := false, comm := comm, out := st1.out + if Strip(lineOut) != "" then lineOut + "\n" else "")
      else st1.(comm := comm, out := st1.out + lineOut + "\n")
  }

  /** The loop over the lines of the file, the first of them being line number lineNum. */
  function Fold(st: State, lines: seq<string>, lineNum: int, comments: seq<Comment>): State
    decreases |lines|
  {
    if lines == [] then st else Fold(Step(st, lines[0], lineNum, comments), lines[1..], lineNum + 1, comments)
  }

  /** The text rewrite_comments writes for a file; lines are numbered from 1. */
  function Rewrite(fhin: seq<string>, comments: seq<Comment>): string
  {
    Fold(Start(), fhin, 1, comments).out
  }

  /** The fold over lines plus one line is one more Step. */
  lemma {:induction false} FoldSnoc(st: State, lines: seq<string>, line: string, lineNum: int, comments: seq<Comment>)
    ensures Fold(st, lines + [line], lineNum, comments)
            == Step(Fold(st, lines, lineNum, comments), line, lineNum + |lines|, comments)
    decreases |lines|
  {
    if lines == [] {
      assert [line][1..] == [];
    } else {
      assert (lines + [line])[1..] == lines[1..] + [line];
      FoldSnoc(Step(st, lines[0], lineNum, comments), lines[1..], line, lineNum + 1, comments);
    }
  }

  /** The fold over the first i+1 lines of a file is one more Step after the fold over the first i. */
  lemma FoldPrefixStep(fhin: seq<string>, i: int, comments: seq<Comment>)
    requires 0 <= i < |fhin|
    ensures Fold(Start(), fhin[..i + 1], 1, comments) == Step(Fold(Start(), fhin[..i], 1, comments), fhin[i], i + 1, comments)
  {
    FoldSnoc(Start(), fhin[..i], fhin[i], 1, comments);
    TakeSnoc(fhin, i);
  }

  /** dump_comment_block. */
  method DumpCommentBlock(indent: nat, lines: seq<string>) returns (text: string)
    ensures text == Dump(indent, lines)
  {
    var textIndent := "";
    for i := 0 to indent
      invariant textIndent == Spaces(i)
    {
      textIndent := textIndent + " ";
    }
    text := "";
    for i := 0 to |lines|
      invariant text == DocLines(indent, lines[..i])
    {
      assert lines[..i + 1][..i] == lines[..i];
      text := text + (textIndent + "/// " + lines[i] + "\n");
    }
    assert lines[..|lines|] == lines;
    text := text + "\n";
  }

  /** The inner loop of rewrite_comments: the last comment covering line lineNum. */
  method FindComment(comments: seq<Comment>, lineNum: int) returns (comm: Option<Comment>)
    ensures comm == Covering(comments, lineNum)
  {
    comm := None;
    for i := 0 to |comments|
      invariant comm == Covering(comments[..i], lineNum)
    {
      assert comments[..i + 1][..i] == comments[..i];
      if HasComment(comments[i], lineNum) {
        comm := Some(comments[i]);
      }
    }
    assert comments[..|comments|] == comments;
  }

  /** rewrite_comments. */
  method RewriteComments(fhin: seq<string>, comments: seq<Comment>) returns (fhout: string)
    ensures fhout == Rewrite(fhin, comments)
  {
    var st := Start();
    for i := 0 to |fhin|
      invariant st == Fold(Start(), fhin[..i], 1, comments)
    {
      FoldPrefixStep(fhin, i, comments);
      st := RewriteLine(st, fhin[i], i + 1, comments);
    }
    assert fhin[..|fhin|] == fhin;
    fhout := st.out;
  }

  /** The body of rewrite_comments' loop for one line. */
  method RewriteLine(st0: State, line: string, lineNum: int, comments: seq<Comment>) returns (st: State)
    ensures st == Step(st0, line, lineNum, comments)
  {
    var comm := FindComment(comments, lineNum);
    if comm.Some? {
      st := RewriteCovered(st0, line, lineNum, comments, comm.value);
    } else {
      st := RewriteUncovered(st0, line, lineNum, comments);
    }
  }

  /** The loop body for a line some comment covers. */
  method RewriteCovered(st0: State, line: string, lineNum: int, comments: seq<Comment>, c: Comment) returns (st: State)
    requires Covering(comments, lineNum) == Some(c)
    ensures st == Step(st0, line, lineNum, comments)
  {
    var inComment, fhout := st0.inComment, st0.out;
    if c.Member? {
      if inComment {
        var block := DumpBlock(st0.comm);
        fhout := fhout + block;
        inComment := false;
      }
      var text := WriteMember(line, c);
      fhout := fhout + text;
    } else if c.Remove? {
      if inComment {
        var block := DumpBlock(st0.comm);
        fhout := fhout + block;
        inComment := false;
      }
    } else if st0.comm.None? {
      inComment := true;
      var nonComment := RStrip(PySlice(line, c.firstCol - 1));
      if nonComment != "" {
        fhout := fhout + (nonComment + "\n");
      } else {
        assert fhout + "" == fhout;
      }
    }
    st := State(inComment, st0.skipEmpty, Some(c), fhout);
  }

  /** The loop body for a line no comment covers. */
  method RewriteUncovered(st0: State, line: string, lineNum: int, comments: seq<Comment>) returns (st: State)
    requires Covering(comments, lineNum).None?
    ensures st == Step(st0, line, lineNum, comments)
  {
    var inComment, skipEmpty, fhout := st0.inComment, st0.skipEmpty, st0.out;
    if inComment {
      var block := DumpBlock(st0.comm);
      fhout := fhout + block;
      inComment := false;
      skipEmpty := true;
    }
    var lineOut := RStripNewlines(line);
    if skipEmpty {
      skipEmpty := false;
      if Strip(lineOut) != "" {
        fhout := fhout + (lineOut + "\n");
      } else {
        assert fhout + "" == fhout;
      }
    } else {
      fhout := fhout + (lineOut + "\n");
    }
    st := State(inComment, skipEmpty, None, fhout);
  }

  /** dump_comment_block(prev_comm), for the block the loop is in. */
  method DumpBlock(prevComm: Option<Comment>) returns (text: string)
    ensures text == DumpOf(prevComm)
  {
    if prevComm.Some? && prevComm.value.Block? {
      text := DumpCommentBlock(prevComm.value.indent, prevComm.value.lines);
    } else {
      text := "";
    }
  }

  /** The lines written for a data member comment. */
  method WriteMember(line: string, c: Comment) returns (text: string)
    requires c.Member?
    ensures text == MemberOut(line, c)
  {
    var nonComment := PySlice(line, c.firstCol - 1);
    if c.arraySize.Some? || IsDontSplit(c) || IsPtr(c) {
      var mindent := line[..LeadingSpaces(line)];
      var cflag := if c.flag.Some? then c.flag.value else "";
      var asize := if c.arraySize.Some? then "[" + c.arraySize.value + "]" else "";
      text := mindent + "/// " + c.text + "\n" + nonComment + "//" + cflag + asize + "\n";
    } else {
      var tt := if IsTransient(c) then "!" else "/";
      text := nonComment + "//" + tt + "< " + c.text + "\n";
    }
  }
}
