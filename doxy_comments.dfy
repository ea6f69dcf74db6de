/**
 * The comment records of thtml2doxy.py: a block comment (Comment), the
 * comment of a data member (MemberComment) and a range of lines to delete
 * (RemoveComment).  The Python constructors assert their arguments; here the
 * smart constructors return None where the assertion would fail.
 */
module DoxyComments {
  import opened Wrappers

  datatype Comment =
    | Block(lines: seq<string>, firstLine: int, firstCol: int, lastLine: int, lastCol: int,
            indent: nat, func: string)
    | Member(text: string, flag: Option<string>, arraySize: Option<string>, firstLine: int, firstCol: int,
             func: string)
    | Remove(firstLine: int, lastLine: int)

  /** The ROOT comment flags a data member may carry: transient, do-not-split, pointer to an array. */
  predicate KnownFlag(flag: Option<string>)
  {
    flag == None || flag == Some("!") || flag == Some("||") || flag == Some("->")
  }

  /** What the three constructors assert of their arguments. */
  predicate Valid(c: Comment)
  {
    match c
    case Block(_, first, _, last, _, _, _) => first > 0 && last >= first
    case Member(_, flag, _, first, _, _) => first > 0 && KnownFlag(flag)
    case Remove(first, last) => first > 0 && last >= first
  }

  /** Comment.__init__. */
  function NewComment(lines: seq<string>, firstLine: int, firstCol: int, lastLine: int, lastCol: int,
                      indent: nat, func: string): (r: Option<Comment>)
    ensures r.Some? <==> firstLine > 0 && lastLine >= firstLine
    ensures r.Some? ==> Valid(r.value) && r.value.Block? && r.value.lines == lines
    ensures r.Some? ==> forall line :: HasComment(r.value, line) <==> firstLine <= line <= lastLine
  {
    if firstLine > 0 && lastLine >= firstLine
    then Some(Block(lines, firstLine, firstCol, lastLine, lastCol, indent, func))
    else None
  }

  /** MemberComment.__init__: the comment text becomes its single line. */
  function NewMemberComment(text: string, flag: Option<string>, arraySize: Option<string>, firstLine: int,
                            firstCol: int, func: string): (r: Option<Comment>)
    ensures r.Some? <==> firstLine > 0 && KnownFlag(flag)
    ensures r.Some? ==> Valid(r.value) && Lines(r.value) == [text]
    ensures r.Some? ==> forall line :: HasComment(r.value, line) <==> line == firstLine
  {
    if firstLine > 0 && KnownFlag(flag)
    then Some(Member(text, flag, arraySize, firstLine, firstCol, func))
    else None
  }

  /** RemoveComment.__init__. */
  function NewRemoveComment(firstLine: int, lastLine: int): (r: Option<Comment>)
    ensures r.Some? <==> firstLine > 0 && lastLine >= firstLine
    ensures r.Some? ==> Valid(r.value) && forall line :: HasComment(r.value, line) <==> firstLine <= line <= lastLine
  {
    if firstLine > 0 && lastLine >= firstLine then Some(Remove(firstLine, lastLine)) else None
  }

  /** has_comment: a block or remove comment covers its line range, a member comment its one line. */
  predicate HasComment(c: Comment, line: int)
    ensures HasComment(c, line) ==> c.firstLine <= line
  {
    match c
    case Member(_, _, _, first, _, _) => line == first
    case _ => c.firstLine <= line <= c.lastLine
  }

  /** The lines a comment would be written as (a remove comment has none). */
  function Lines(c: Comment): seq<string>
  {
    match c
    case Block(lines, _, _, _, _, _, _) => lines
    case Member(text, _, _, _, _, _) => [text]
    case Remove(_, _) => []
  }

  /** is_transient, is_dontsplit, is_ptr: each names one flag of a member comment, so at most one holds. */
  predicate IsTransient(c: Comment)
    ensures IsTransient(c) ==> c.Member? && c.flag != Some("||") && c.flag != Some("->")
  {
    c.Member? && c.flag == Some("!")
  }

  predicate IsDontSplit(c: Comment)
    ensures IsDontSplit(c) ==> c.Member? && c.flag != Some("!") && c.flag != Some("->")
  {
    c.Member? && c.flag == Some("||")
  }

  predicate IsPtr(c: Comment)
    ensures IsPtr(c) ==> c.Member? && c.flag != Some("!") && c.flag != Some("||")
  {
    c.Member? && c.flag == Some("->")
  }

  /**
   * A member comment carries at most one flag, and it carries one exactly
   * when its flag is set.
   */
  lemma FlagsExclusive(c: Comment)
    requires Valid(c) && c.Member?
    ensures !(IsTransient(c) && IsDontSplit(c)) && !(IsTransient(c) && IsPtr(c)) && !(IsDontSplit(c) && IsPtr(c))
    ensures c.flag.Some? <==> IsTransient(c) || IsDontSplit(c) || IsPtr(c)
  {
  }

  /** A valid comment covers at least its first line, and only lines from its first on. */
  lemma CoversFirstLine(c: Comment)
    requires Valid(c)
    ensures HasComment(c, c.firstLine)
    ensures forall line :: HasComment(c, line) ==> line >= c.firstLine > 0
  {
  }

  /** The position of the last comment whose range covers the line, or -1 when none does. */
  function LastCovering(comments: seq<Comment>, line: int): (k: int)
    ensures -1 <= k < |comments| && (k >= 0 ==> HasComment(comments[k], line))
    ensures forall j :: k < j < |comments| ==> !HasComment(comments[j], line)
    decreases |comments|
  {
    if comments == [] then -1
    else if HasComment(comments[|comments| - 1], line) then |comments| - 1
    else LastCovering(comments[..|comments| - 1], line)
  }

  /**
   * The comment rewrite_comments picks for a line: the last of the comments
   * whose range covers it, or None.
   */
  function Covering(comments: seq<Comment>, line: int): (r: Option<Comment>)
    ensures r.Some? ==> r.value in comments && HasComment(r.value, line)
    ensures r.None? <==> forall k :: 0 <= k < |comments| ==> !HasComment(comments[k], line)
    decreases |comments|
  {
    if comments == [] then None
    else if HasComment(comments[|comments| - 1], line) then Some(comments[|comments| - 1])
    else Covering(comments[..|comments| - 1], line)
  }

  /** The comment picked for a line is the last one that covers it: no later comment covers the line. */
  lemma {:induction false} CoveringIsLast(comments: seq<Comment>, line: int)
    ensures var k := LastCovering(comments, line);
            Covering(comments, line) == if k < 0 then None else Some(comments[k])
    decreases |comments|
  {
    if comments != [] && !HasComment(comments[|comments| - 1], line) {
      CoveringIsLast(comments[..|comments| - 1], line);
    }
  }
}
