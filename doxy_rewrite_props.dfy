/**
 * What rewrite_comments promises about the file it writes: lines no comment
 * covers are copied, a block comment is replaced by its dump, the first
 * blank line after a dumped block is dropped, and a dump reads back as the
 * block's lines behind `/// `.
 */
module DoxyRewriteProperties {
  import opened Wrappers
  import opened DoxyText
  import opened DoxyComments
  import opened DoxyRewrite

  /**
   * The loop's invariant: skip_empty is only ever set for the rest of one
   * iteration, and while a block is being read the previous line belongs to
   * a block comment, so that dump_comment_block always gets one.
   */
  predicate Inv(st: State)
  {
    !st.skipEmpty && (st.inComment ==> st.comm.Some? && st.comm.value.Block?)
  }

  lemma StepKeepsInv(st: State, line: string, lineNum: int, comments: seq<Comment>)
    requires Inv(st)
    ensures Inv(Step(st, line, lineNum, comments))
  {
  }

  lemma {:induction false} FoldKeepsInv(st: State, lines: seq<string>, lineNum: int, comments: seq<Comment>)
    requires Inv(st)
    ensures Inv(Fold(st, lines, lineNum, comments))
    decreases |lines|
  {
    if lines != [] {
      StepKeepsInv(st, lines[0], lineNum, comments);
      FoldKeepsInv(Step(st, lines[0], lineNum, comments), lines[1..], lineNum + 1, comments);
    }
  }

  /** Lines copied as they are, each ended by exactly one newline. */
  function Copied(lines: seq<string>): string
    decreases |lines|
  {
    if lines == [] then "" else RStripNewlines(lines[0]) + "\n" + Copied(lines[1..])
  }

  predicate Uncovered(comments: seq<Comment>, lineNum: int, count: nat)
  {
    forall n :: lineNum <= n < lineNum + count ==> Covering(comments, n).None?
  }

  /** Outside a block, lines no comment covers are copied to the output unchanged but for their line ends. */
  lemma {:induction false} UncoveredCopied(st: State, lines: seq<string>, lineNum: int, comments: seq<Comment>)
    requires !st.inComment && !st.skipEmpty && Uncovered(comments, lineNum, |lines|)
    ensures Fold(st, lines, lineNum, comments).out == st.out + Copied(lines)
    ensures lines != [] ==> Fold(st, lines, lineNum, comments).comm.None?
    decreases |lines|
  {
    if lines != [] {
      assert Covering(comments, lineNum).None?;
      var a := RStripNewlines(lines[0]) + "\n";
      var st1 := Step(st, lines[0], lineNum, comments);
      assert st1.out == st.out + a && !st1.inComment && !st1.skipEmpty;
      assert Fold(st, lines, lineNum, comments) == Fold(st1, lines[1..], lineNum + 1, comments);
      UncoveredCopied(st1, lines[1..], lineNum + 1, comments);
      assert Copied(lines) == a + Copied(lines[1..]);
      AppendAssoc(st.out, a, Copied(lines[1..]));
    }
  }

  /** With no comments at all, the file is copied, each line ended by one newline. */
  lemma NoCommentsIdentity(fhin: seq<string>)
    ensures Rewrite(fhin, []) == Copied(fhin)
  {
    UncoveredCopied(Start(), fhin, 1, []);
  }

  /** A line after a block line, within the same block, writes nothing. */
  lemma {:induction false} InsideBlockSilent(st: State, lines: seq<string>, lineNum: int, comments: seq<Comment>,
                                             b: Comment)
    requires b.Block? && st.inComment && st.comm == Some(b)
    requires forall n :: lineNum <= n < lineNum + |lines| ==> Covering(comments, n) == Some(b)
    ensures Fold(st, lines, lineNum, comments) == st
    decreases |lines|
  {
    if lines != [] {
      assert Covering(comments, lineNum) == Some(b);
      InsideBlockSilent(st, lines[1..], lineNum + 1, comments, b);
    }
  }

  /** The code before a block comment on its first line, if there is any. */
  function CodeBefore(line: string, b: Comment): string
    requires b.Block?
  {
    var nonComment := RStrip(PySlice(line, b.firstCol - 1));
    if nonComment != "" then nonComment + "\n" else ""
  }

  /** The uncovered line after a dumped block: dropped when blank, else copied. */
  function AfterBlock(line: string): string
  {
    var lineOut := RStripNewlines(line);
    if Strip(lineOut) != "" then lineOut + "\n" else ""
  }

  /** When a block ends, its dump is written, and the line after it only when it is not blank. */
  lemma BlockEndDumped(st: State, line: string, lineNum: int, comments: seq<Comment>, b: Comment)
    requires b.Block? && st.inComment && !st.skipEmpty && st.comm == Some(b)
    requires Covering(comments, lineNum).None?
    ensures Step(st, line, lineNum, comments)
            == State(false, false, None, st.out + Dump(b.indent, b.lines) + AfterBlock(line))
  {
  }

  /**
   * A block comment read from the line after an uncovered one is replaced
   * by the code before it, its dump, and the line after it unless that line
   * is blank.
   */
  lemma BlockReplaced(st: State, first: string, body: seq<string>, after: string, lineNum: int,
                      comments: seq<Comment>, b: Comment)
    requires b.Block? && !st.inComment && !st.skipEmpty && st.comm.None?
    requires Covering(comments, lineNum) == Some(b)
    requires forall n :: lineNum < n <= lineNum + |body| ==> Covering(comments, n) == Some(b)
    requires Covering(comments, lineNum + 1 + |body|).None?
    ensures Fold(st, [first] + body + [after], lineNum, comments).out
            == st.out + CodeBefore(first, b) + Dump(b.indent, b.lines) + AfterBlock(after)
  {
    var lines := [first] + body;
    assert lines[0] == first && lines[1..] == body;
    var st1 := Step(st, first, lineNum, comments);
    assert st1 == State(true, false, Some(b), st.out + CodeBefore(first, b));
    assert Fold(st, lines, lineNum, comments) == Fold(st1, body, lineNum + 1, comments);
    InsideBlockSilent(st1, body, lineNum + 1, comments, b);
    FoldSnoc(st, lines, after, lineNum, comments);
    BlockEndDumped(st1, after, lineNum + |lines|, comments, b);
  }

  /**
   * A run of lines covered by a block comment, read right after a line that
   * another comment covers, writes nothing: prev_comm is set, so the block is
   * never begun, and in_comment keeps the value the earlier comment left.
   */
  lemma {:induction false} BlockRunQuiet(st: State, lines: seq<string>, lineNum: int, comments: seq<Comment>,
                                         b: Comment)
    requires b.Block? && st.comm.Some? && lines != []
    requires forall n :: lineNum <= n < lineNum + |lines| ==> Covering(comments, n) == Some(b)
    ensures Fold(st, lines, lineNum, comments) == st.(comm := Some(b))
    decreases |lines|
  {
    assert Covering(comments, lineNum) == Some(b);
    var st1 := Step(st, lines[0], lineNum, comments);
    assert st1 == st.(comm := Some(b));
    if |lines| > 1 {
      BlockRunQuiet(st1, lines[1..], lineNum + 1, comments, b);
    }
  }

  /**
   * A block comment that starts on the line right after another block
   * comment takes that block's place: the code before it is not written, and
   * the next uncovered line dumps the later block, so the earlier block's
   * lines are never written.
   */
  lemma BlockAfterBlockReplacesIt(st: State, block: seq<string>, after: string, lineNum: int,
                                  comments: seq<Comment>, b: Comment)
    requires b.Block? && st.inComment && !st.skipEmpty && st.comm.Some? && st.comm.value.Block?
    requires block != []
    requires forall n :: lineNum <= n < lineNum + |block| ==> Covering(comments, n) == Some(b)
    requires Covering(comments, lineNum + |block|).None?
    ensures Fold(st, block + [after], lineNum, comments).out == st.out + Dump(b.indent, b.lines) + AfterBlock(after)
  {
    BlockRunQuiet(st, block, lineNum, comments, b);
    FoldSnoc(st, block, after, lineNum, comments);
    BlockEndDumped(st.(comm := Some(b)), after, lineNum + |block|, comments, b);
  }

  /**
   * A block comment that starts on the line right after a member or remove
   * comment is never dumped: in_comment stays false, its lines write
   * nothing, and the uncovered line after it is copied as it is.
   */
  lemma BlockAfterMemberVanishes(st: State, block: seq<string>, after: string, lineNum: int,
                                 comments: seq<Comment>, b: Comment)
    requires b.Block? && !st.inComment && !st.skipEmpty && st.comm.Some?
    requires block != []
    requires forall n :: lineNum <= n < lineNum + |block| ==> Covering(comments, n) == Some(b)
    requires Covering(comments, lineNum + |block|).None?
    ensures Fold(st, block + [after], lineNum, comments).out == st.out + RStripNewlines(after) + "\n"
  {
    BlockRunQuiet(st, block, lineNum, comments, b);
    FoldSnoc(st, block, after, lineNum, comments);
  }

  /** The first newline of s at or after i, or |s| when there is none. */
  function NewlineFrom(s: string, i: nat): (r: nat)
    requires i <= |s|
    ensures i <= r <= |s| && (r < |s| ==> s[r] == '\n')
    ensures forall k :: i <= k < r ==> s[k] != '\n'
    decreases |s| - i
  {
    if i == |s| || s[i] == '\n' then i else NewlineFrom(s, i + 1)
  }

  /** A text read back as lines, each newline ending one; a last line without a newline counts too. */
  function TextLines(s: string): seq<string>
    decreases |s|
  {
    if s == [] then []
    else
      var e := NewlineFrom(s, 0);
      if e == |s| then [s] else [s[..e]] + TextLines(s[e + 1..])
  }

  lemma LineThenRest(a: string, b: string)
    requires '\n' !in a
    ensures TextLines(a + "\n" + b) == [a] + TextLines(b)
  {
    var s := a + "\n" + b;
    var e := NewlineFrom(s, 0);
    assert s[|a|] == '\n';
    assert forall k :: 0 <= k < |a| ==> s[k] == a[k];
    assert s[..|a|] == a && s[|a| + 1..] == b;
  }

  /** A newline-free text ended by one newline reads back as that one line. */
  lemma OneLine(a: string)
    requires '\n' !in a
    ensures TextLines(a + "\n") == [a]
  {
    LineThenRest(a, "");
    assert a + "\n" + "" == a + "\n";
  }

  /** Two newline-free texts, each ended by one newline, read back as those two lines. */
  lemma TwoLines(a: string, b: string)
    requires '\n' !in a && '\n' !in b
    ensures TextLines(a + "\n" + b + "\n") == [a, b]
  {
    LineThenRest(a, b + "\n");
    assert a + "\n" + b + "\n" == a + "\n" + (b + "\n");
    OneLine(b);
  }

  /**
   * A data member comment with an array size, or flagged dontsplit or ptr,
   * reads back as two lines: the comment behind `/// ` at the member's
   * indentation, then the code before the comment, `//`, the flag and the
   * array size in brackets.
   */
  lemma SplitMemberReadsBack(line: string, c: Comment)
    requires c.Member? && Valid(c) && (c.arraySize.Some? || IsDontSplit(c) || IsPtr(c))
    requires '\n' !in line[..LeadingSpaces(line)] && '\n' !in PySlice(line, c.firstCol - 1) && '\n' !in c.text
    requires c.arraySize.Some? ==> '\n' !in c.arraySize.value
    ensures TextLines(MemberOut(line, c))
            == [line[..LeadingSpaces(line)] + "/// " + c.text,
                PySlice(line, c.firstCol - 1) + "//" + FlagText(c)
                + (if c.arraySize.Some? then "[" + c.arraySize.value + "]" else "")]
  {
    var asize := if c.arraySize.Some? then "[" + c.arraySize.value + "]" else "";
    var a := line[..LeadingSpaces(line)] + "/// " + c.text;
    var code := PySlice(line, c.firstCol - 1);
    var b := code + "//" + FlagText(c) + asize;
    var u := a + "\n";
    AppendAssoc(u, code, "//");
    AppendAssoc(u, code + "//", FlagText(c));
    AppendAssoc(u, code + "//" + FlagText(c), asize);
    assert SplitMember(line, c) == u + b + "\n";
    TwoLines(a, b);
  }

  /**
   * Any other data member comment reads back as one line: the code before
   * the comment, then `//!< ` when the comment is transient and `///< `
   * otherwise, then the comment.
   */
  lemma InlineMemberReadsBack(line: string, c: Comment)
    requires c.Member? && !(c.arraySize.Some? || IsDontSplit(c) || IsPtr(c))
    requires '\n' !in PySlice(line, c.firstCol - 1) && '\n' !in c.text
    ensures TextLines(MemberOut(line, c))
            == [PySlice(line, c.firstCol - 1) + "//" + (if IsTransient(c) then "!" else "/") + "< " + c.text]
  {
    var a := PySlice(line, c.firstCol - 1) + "//" + (if IsTransient(c) then "!" else "/") + "< " + c.text;
    assert MemberOut(line, c) == InlineMember(line, c) == a + "\n";
    OneLine(a);
  }

  lemma {:induction false} DocLinesCons(indent: nat, line: string, rest: seq<string>)
    ensures DocLines(indent, [line] + rest) == DocLine(indent, line) + DocLines(indent, rest)
    decreases |rest|
  {
    if rest != [] {
      var all := [line] + rest;
      assert all[..|all| - 1] == [line] + rest[..|rest| - 1];
      assert all[|all| - 1] == rest[|rest| - 1];
      DocLinesCons(indent, line, rest[..|rest| - 1]);
    } else {
      assert ([line] + rest)[..0] == [];
    }
  }

  /** The lines of a dump as they read in the output: indentation, `/// `, then the comment line. */
  function Prefixed(indent: nat, lines: seq<string>): (r: seq<string>)
    ensures |r| == |lines|
    ensures forall k :: 0 <= k < |lines| ==> r[k] == Spaces(indent) + "/// " + lines[k]
  {
    seq(|lines|, k requires 0 <= k < |lines| => Spaces(indent) + "/// " + lines[k])
  }

  /** A dump is its first doc line, without its newline, a newline, and the dump of the other lines. */
  lemma DumpCons(indent: nat, lines: seq<string>)
    requires lines != [] && '\n' !in lines[0]
    ensures var head := Spaces(indent) + "/// " + lines[0];
            && '\n' !in head
            && Dump(indent, lines) == head + "\n" + Dump(indent, lines[1..])
  {
    assert [lines[0]] + lines[1..] == lines;
    DocLinesCons(indent, lines[0], lines[1..]);
    var prefix := Spaces(indent) + "/// ";
    assert '\n' !in prefix by {
      assert forall k :: 0 <= k < |prefix| ==> prefix[k] == ' ' || prefix[k] == '/';
    }
    var head := prefix + lines[0];
    assert forall k :: 0 <= k < |head| ==> head[k] == if k < |prefix| then prefix[k] else lines[0][k - |prefix|];
  }

  lemma PrefixedCons(indent: nat, lines: seq<string>)
    requires lines != []
    ensures Prefixed(indent, lines) == [Spaces(indent) + "/// " + lines[0]] + Prefixed(indent, lines[1..])
  {
  }

  /**
   * A dumped block reads back as its comment lines behind the indentation
   * and `/// `, followed by one empty line, when no comment line holds a
   * newline of its own.
   */
  lemma {:induction false} DumpReadsBack(indent: nat, lines: seq<string>)
    requires forall k :: 0 <= k < |lines| ==> '\n' !in lines[k]
    ensures TextLines(Dump(indent, lines)) == Prefixed(indent, lines) + [""]
    decreases |lines|
  {
    if lines == [] {
      assert TextLines("\n") == [""] + TextLines([]);
    } else {
      var head := Spaces(indent) + "/// " + lines[0];
      DumpCons(indent, lines);
      LineThenRest(head, Dump(indent, lines[1..]));
      DumpReadsBack(indent, lines[1..]);
      PrefixedCons(indent, lines);
      AppendAssoc([head], Prefixed(indent, lines[1..]), [""]);
    }
  }
}
