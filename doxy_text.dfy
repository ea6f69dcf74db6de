/**
 * Character classes and line classifications of thtml2doxy.py.  Each regular
 * expression of the script becomes a named function or predicate that
 * decides the same thing on a single line; the comments name the pattern it
 * stands for.  Strings are Python 2 byte strings, modelled as seq<char>.
 */
module DoxyText {
  import opened Wrappers

  /** `\s` without the UNICODE flag: space, tab, newline, carriage return, form feed, vertical tab. */
  predicate IsSpace(c: char)
  {
    c == ' ' || c == '\t' || c == '\n' || c == '\r' || c == '\U{000C}' || c == '\U{000B}'
  }

  predicate AllSpace(s: string)
  {
    forall k :: 0 <= k < |s| ==> IsSpace(s[k])
  }

  /** ASCII lower case, as the IGNORECASE flag compares characters. */
  function Lower(c: char): char
  {
    if 'A' <= c <= 'Z' then (c as int + 32) as char else c
  }

  /** s holds the upper-case word w at position i, ignoring case. */
  predicate WordAt(s: string, i: int, w: string)
  {
    0 <= i && i + |w| <= |s| && forall k :: 0 <= k < |w| ==> Lower(s[i + k]) == Lower(w[k])
  }

  /** The number of whitespace characters s starts with. */
  function LeadingSpaces(s: string): (n: nat)
    ensures n <= |s|
    ensures forall k :: 0 <= k < n ==> IsSpace(s[k])
    ensures n < |s| ==> !IsSpace(s[n])
  {
    if s == [] || !IsSpace(s[0]) then 0 else 1 + LeadingSpaces(s[1..])
  }

  /** The number of whitespace characters s ends with. */
  function TrailingSpaces(s: string): (n: nat)
    ensures n <= |s|
    ensures forall k :: |s| - n <= k < |s| ==> IsSpace(s[k])
    ensures n < |s| ==> !IsSpace(s[|s| - n - 1])
  {
    if s == [] || !IsSpace(s[|s| - 1]) then 0 else 1 + TrailingSpaces(s[..|s| - 1])
  }

  /** str.rstrip(): s without its trailing whitespace. */
  function RStrip(s: string): (r: string)
    ensures r <= s
    ensures r == [] || !IsSpace(r[|r| - 1])
    ensures AllSpace(s[|r|..])
  {
    s[..|s| - TrailingSpaces(s)]
  }

  /** str.strip(): s without its leading and trailing whitespace. */
  function Strip(s: string): (r: string)
    ensures |r| <= |s|
    ensures r == [] || (!IsSpace(r[0]) && !IsSpace(r[|r| - 1]))
    ensures s != [] && (IsSpace(s[0]) || IsSpace(s[|s| - 1])) ==> |r| < |s|
    ensures r == [] <==> AllSpace(s)
    ensures LeadingSpaces(s) + |r| <= |s| && r == s[LeadingSpaces(s)..LeadingSpaces(s) + |r|]
    ensures AllSpace(s[LeadingSpaces(s) + |r|..])
  {
    StripParts(s);
    RStrip(s[LeadingSpaces(s)..])
  }

  /** The right-stripped rest of s after its leading whitespace is a slice of s followed only by whitespace. */
  lemma StripParts(s: string)
    ensures var n := LeadingSpaces(s); var r := RStrip(s[n..]);
            && n + |r| <= |s| && r == s[n..n + |r|] && AllSpace(s[n + |r|..])
            && (r == [] <==> AllSpace(s))
  {
    StripSlice(s);
    StripEmpty(s);
  }

  lemma StripSlice(s: string)
    ensures var n := LeadingSpaces(s); var r := RStrip(s[n..]);
            && n + |r| <= |s| && r == s[n..n + |r|] && AllSpace(s[n + |r|..])
  {
    var n := LeadingSpaces(s);
    var r := RStrip(s[n..]);
    PrefixOfDrop(s, n, r);
  }

  lemma StripEmpty(s: string)
    ensures RStrip(s[LeadingSpaces(s)..]) == [] <==> AllSpace(s)
  {
    var n := LeadingSpaces(s);
    var t := s[n..];
    if n < |s| {
      assert t[0] == s[n] && !IsSpace(t[0]);
    } else {
      assert AllSpace(s);
    }
  }

  /** str.rstrip('\n'): s without its trailing newlines. */
  function RStripNewlines(s: string): (r: string)
    ensures r <= s
    ensures r == [] || r[|r| - 1] != '\n'
    ensures forall k :: |r| <= k < |s| ==> s[k] == '\n'
  {
    if s == [] || s[|s| - 1] != '\n' then s else RStripNewlines(s[..|s| - 1])
  }

  /** str.replace('#', '\\'): ROOT's LaTeX uses # where LaTeX uses a backslash. */
  function ReplaceHash(s: string): (r: string)
    ensures |r| == |s| && '#' !in r
    ensures forall k :: 0 <= k < |s| ==> r[k] == if s[k] == '#' then '\\' else s[k]
  {
    seq(|s|, k requires 0 <= k < |s| => if s[k] == '#' then '\\' else s[k])
  }

  function Spaces(n: nat): (r: string)
    ensures |r| == n && AllSpace(r)
    ensures forall k :: 0 <= k < n ==> r[k] == ' '
  {
    seq(n, _ => ' ')
  }

  /**
   * The HTML tag `</?(P|BR)/?>` (any case) starting at s[i]: its length, or 0
   * when there is none there.
   */
  function HtmlTagAt(s: string, i: nat): (n: nat)
    ensures n == 0 || (3 <= n <= 6 && i + n <= |s| && s[i] == '<' && s[i + n - 1] == '>')
  {
    if i >= |s| || s[i] != '<' then 0
    else
      var j := if i + 1 < |s| && s[i + 1] == '/' then i + 2 else i + 1;
      var k := if WordAt(s, j, "P") then j + 1 else if WordAt(s, j, "BR") then j + 2 else j;
      var l := if k > j && k < |s| && s[k] == '/' then k + 1 else k;
      if k > j && l < |s| && s[l] == '>' then l + 1 - i else 0
  }

  /** strip_html: every `</?(P|BR)/?>` tag removed, scanning from the left as re.sub does. */
  function StripHtml(s: string): (r: string)
    ensures |r| <= |s|
    ensures (forall i :: 0 <= i < |s| ==> HtmlTagAt(s, i) == 0) ==> r == s
    decreases |s|
  {
    if s == [] then []
    else
      var n := HtmlTagAt(s, 0);
      if n > 0 then StripHtml(s[n..])
      else
        assert forall i :: 0 <= i < |s[1..]| ==> HtmlTagAt(s[1..], i) == HtmlTagAt(s, i + 1) by {
          forall i | 0 <= i < |s[1..]| ensures HtmlTagAt(s[1..], i) == HtmlTagAt(s, i + 1) {
            HtmlTagShift(s, i);
          }
        }
        [s[0]] + StripHtml(s[1..])
  }

  lemma HtmlTagShift(s: string, i: nat)
    requires s != []
    ensures HtmlTagAt(s[1..], i) == HtmlTagAt(s, i + 1)
  {
    var t := s[1..];
    var j := if i + 1 < |t| && t[i + 1] == '/' then i + 2 else i + 1;
    WordAtShift(s, j, "P");
    WordAtShift(s, j, "BR");
  }

  lemma WordAtShift(s: string, j: nat, w: string)
    requires s != []
    ensures WordAt(s[1..], j, w) == WordAt(s, j + 1, w)
  {
    var t := s[1..];
    if WordAt(t, j, w) {
      forall k | 0 <= k < |w| ensures Lower(s[j + 1 + k]) == Lower(w[k]) {
        assert t[j + k] == s[j + 1 + k];
      }
    }
    if WordAt(s, j + 1, w) {
      forall k | 0 <= k < |w| ensures Lower(t[j + k]) == Lower(w[k]) {
        assert t[j + k] == s[j + 1 + k];
      }
    }
  }

  /** The number of slashes s holds from position i on. */
  function Slashes(s: string, i: nat): (n: nat)
    ensures i + n <= |s| || (i > |s| && n == 0)
    ensures forall k :: i <= k < i + n ==> s[k] == '/'
    ensures i + n < |s| ==> s[i + n] != '/'
    decreases |s| - i
  {
    if i < |s| && s[i] == '/' then 1 + Slashes(s, i + 1) else 0
  }

  /** What recomm's `^(/{2,}|/\*)? ?` consumes: the comment opener and one space after it. */
  function OpenerLength(s: string): (n: nat)
    ensures n <= |s|
  {
    var k := if Slashes(s, 0) >= 2 then Slashes(s, 0) else if |s| >= 2 && s[..2] == "/*" then 2 else 0;
    if k < |s| && s[k] == ' ' then k + 1 else k
  }

  /** recomm's tail: trailing whitespace, a trailing run of two or more slashes, or a closing star-slash. */
  predicate CloserTail(t: string)
    decreases |t|
  {
    if t != [] && IsSpace(t[0]) then CloserTail(t[1..])
    else t == [] || t == "*/" || (Slashes(t, 0) >= 2 && AllSpace(t[Slashes(t, 0)..]))
  }

  /** What follows position m of r is a closer tail. */
  predicate CloserAt(r: string, m: int)
    requires 0 <= m <= |r|
  {
    CloserTail(r[m..])
  }

  /** The first position from n on where what follows is a closer tail. */
  function TextEnd(r: string, n: nat): (e: nat)
    requires n <= |r|
    ensures n <= e <= |r| && CloserAt(r, e)
    ensures forall m :: n <= m < e ==> !CloserAt(r, m)
    decreases |r| - n
  {
    if CloserAt(r, n) then n else TextEnd(r, n + 1)
  }

  /** The lazy group never stops right after whitespace: that whitespace belongs to the closer tail. */
  lemma TextEndAfterText(r: string, n: nat)
    requires n <= |r|
    ensures var e := TextEnd(r, n); e > n ==> !IsSpace(r[e - 1])
  {
    var e := TextEnd(r, n);
    if e > n {
      assert !CloserAt(r, e - 1);
      CloserTailSkipsSpace(r, e - 1);
    }
  }

  /**
   * recomm's group 2: the text of a comment line without its opener, the
   * one space after it, and the closer tail; leading whitespace beyond that
   * one space is kept, and a line of whitespace only is kept whole.
   */
  function CommentText(line: string): (t: string)
    ensures |t| <= |line|
    ensures NoTrailingSpace(t)
  {
    var r := line[OpenerLength(line)..];
    TextEndNoSpace(r);
    r[..TextEnd(r, LeadingSpaces(r))]
  }

  /** t does not end in whitespace, unless it is whitespace only. */
  predicate NoTrailingSpace(t: string)
  {
    AllSpace(t) || !IsSpace(t[|t| - 1])
  }

  /** The comment text never ends in whitespace unless it is whitespace only. */
  lemma TextEndNoSpace(r: string)
    ensures NoTrailingSpace(r[..TextEnd(r, LeadingSpaces(r))])
  {
    var lw := LeadingSpaces(r);
    var e := TextEnd(r, lw);
    assert e > lw ==> !IsSpace(r[e - 1]) by { TextEndAfterText(r, lw); }
    CleanPrefix(r, lw, e);
  }

  /**
   * A prefix of r that is the whitespace r starts with, or that goes past it
   * and ends in a non-space character, does not end in whitespace.
   */
  lemma CleanPrefix(r: string, lw: nat, e: nat)
    requires lw <= e <= |r| && forall k :: 0 <= k < lw ==> IsSpace(r[k])
    requires e > lw ==> !IsSpace(r[e - 1])
    ensures NoTrailingSpace(r[..e])
  {
    if e == lw {
      assert forall k :: 0 <= k < e ==> r[..e][k] == r[k];
    } else {
      assert r[..e][e - 1] == r[e - 1];
    }
  }

  /** A closer tail stays one when whitespace is put in front of it. */
  lemma CloserTailSkipsSpace(r: string, m: nat)
    requires m < |r| && CloserAt(r, m + 1)
    ensures IsSpace(r[m]) ==> CloserAt(r, m)
  {
    assert r[m..][1..] == r[m + 1..];
  }

  /** The character class `[\s*=\-_#]` the garbage pattern evidently means. */
  predicate GarbageChar(c: char)
  {
    IsSpace(c) || c == '*' || c == '=' || c == '-' || c == '_' || c == '#'
  }

  /**
   * regarbage as intended: a line made only of whitespace and the
   * separator characters `*`, `=`, `-`, `_`, `#`, or the bare words
   * Begin_Html / End_Html (any case).
   */
  predicate IsGarbage(s: string)
    ensures IsGarbage(s) ==> s != []
  {
    || (s != [] && forall k :: 0 <= k < |s| ==> GarbageChar(s[k]))
    || (|Strip(s)| == 10 && WordAt(Strip(s), 0, "BEGIN_HTML"))
    || (|Strip(s)| == 8 && WordAt(Strip(s), 0, "END_HTML"))
  }

  /**
   * The character class `[\s*=-_#]` as written: `=-_` is the range from `=`
   * to `_`, which holds `>?@[\]^` and the capital letters; the hyphen itself
   * is not in it.  The small letters are in it under the range semantics of
   * IGNORECASE that Python 2.7 has since the fix of bpo-17381, which tests a
   * character's other case against the range as well.  Before that fix the
   * subject is lowered and the range is not, so no letter matches; the hyphen
   * is outside the class either way.
   */
  predicate GarbageCharAsWritten(c: char)
  {
    IsSpace(c) || c == '*' || c == '#' || ('=' <= c <= '_') || ('a' <= c <= 'z')
  }

  predicate IsGarbageAsWritten(s: string)
  {
    || (s != [] && forall k :: 0 <= k < |s| ==> GarbageCharAsWritten(s[k]))
    || (|Strip(s)| == 10 && WordAt(Strip(s), 0, "BEGIN_HTML"))
    || (|Strip(s)| == 8 && WordAt(Strip(s), 0, "END_HTML"))
  }

  /** remacro `(?i)^\s*(BEGIN|END)_MACRO(\((.*?)\))?\s*$`: a line opening or closing a macro block. */
  predicate IsMacroMarker(s: string)
    ensures IsMacroMarker(s) ==> LeadingSpaces(s) + 9 <= |s|
  {
    var rest := s[LeadingSpaces(s)..];
    || (WordAt(rest, 0, "BEGIN_MACRO") && MacroTail(rest[11..]))
    || (WordAt(rest, 0, "END_MACRO") && MacroTail(rest[9..]))
  }

  /** What may follow the macro keyword: whitespace, or a parenthesised argument and whitespace. */
  predicate MacroTail(t: string)
  {
    AllSpace(t) || (|RStrip(t)| >= 2 && t[0] == '(' && RStrip(t)[|RStrip(t)| - 1] == ')')
  }

  /** The image line that replaces a macro block whose macro was written to path (without extension). */
  function ImageLine(path: string): (r: string)
    ensures |r| == |path| + 32
  {
    "![Picture from ROOT macro](" + path + ".png)"
  }

  /** A `BEGIN_LATEX` / `END_LATEX` keyword found by relatex, with the text before and after it. */
  datatype LatexMark = LatexMark(isBegin: bool, before: string, after: string)

  /**
   * The LaTeX keyword starting at s[p], when it is followed by the end of
   * the line, whitespace or one of `.,;:`: whether it opens, and its length.
   */
  function LatexKeywordAt(s: string, p: nat): (r: Option<(bool, nat)>)
    ensures r.Some? ==> p + r.value.1 <= |s| && r.value.1 == (if r.value.0 then 11 else 9)
  {
    var len := if WordAt(s, p, "BEGIN_LATEX") then 11 else if WordAt(s, p, "END_LATEX") then 9 else 0;
    if len > 0 && (p + len == |s| || IsSpace(s[p + len]) || s[p + len] in ".,;:")
    then Some((len == 11, len))
    else None
  }

  /** A whitespace run starts at s[m] and a LaTeX keyword follows it. */
  predicate KeywordRunAt(s: string, m: nat)
  {
    m < |s| && IsSpace(s[m]) && LatexKeywordAt(s, m + LeadingSpaces(s[m..])).Some?
  }

  /** The first position, from m0 on, where a whitespace run followed by a LaTeX keyword starts. */
  function FirstKeywordRun(s: string, m0: nat): (m: Option<nat>)
    ensures m.Some? ==> m0 <= m.value && KeywordRunAt(s, m.value)
    ensures m.None? ==> forall k :: m0 <= k < |s| ==> !KeywordRunAt(s, k)
    decreases |s| - m0
  {
    if m0 >= |s| then None
    else if KeywordRunAt(s, m0) then Some(m0)
    else FirstKeywordRun(s, m0 + 1)
  }

  /**
   * relatex `(?i)^((.*?)\s+)?(BEGIN|END)_LATEX([.,;:\s]+.*)?$`: the first
   * keyword preceded by whitespace, else a keyword at the start of the line.
   */
  function LatexMarker(s: string): (r: Option<LatexMark>)
    ensures r.Some? ==> r.value.before <= s && |r.value.before| + |r.value.after| < |s|
  {
    match FirstKeywordRun(s, 0)
    case Some(m) =>
      var p := m + LeadingSpaces(s[m..]);
      var kw := LatexKeywordAt(s, p).value;
      Some(LatexMark(kw.0, s[..m], s[p + kw.1..]))
    case None =>
      match LatexKeywordAt(s, 0)
      case Some(kw) => Some(LatexMark(kw.0, "", s[kw.1..]))
      case None => None
  }

  /** reblock `(?i)^(\s*)</?PRE>\s*$`: a lone `<pre>` or `</pre>` tag, giving its indentation. */
  function PreTag(s: string): (r: Option<string>)
    ensures r.Some? ==> r.value <= s && AllSpace(r.value)
  {
    var lw := LeadingSpaces(s);
    var rest := s[lw..];
    if (WordAt(rest, 0, "<PRE>") && AllSpace(rest[5..])) || (WordAt(rest, 0, "</PRE>") && AllSpace(rest[6..]))
    then Some(s[..lw])
    else None
  }

  /** An inline formula `before BEGIN_LATEX x END_LATEX after` found by reinline_latex. */
  datatype Inline = Inline(before: string, formula: string, after: string)

  /** The first `END_LATEX` at or after j that directly follows a whitespace character. */
  function FirstEndAfter(s: string, j: nat): (q: Option<nat>)
    requires 1 <= j
    ensures q.Some? ==> j <= q.value && q.value + 9 <= |s| && IsSpace(s[q.value - 1]) && WordAt(s, q.value, "END_LATEX")
    decreases |s| - j
  {
    if j + 9 > |s| then None
    else if IsSpace(s[j - 1]) && WordAt(s, j, "END_LATEX") then Some(j)
    else FirstEndAfter(s, j + 1)
  }

  /**
   * Where the formula opened by the `BEGIN_LATEX` at s[i] ends: the first
   * whitespace-preceded `END_LATEX` past the whitespace after the keyword,
   * or, failing that, an `END_LATEX` right after two or more whitespace
   * characters.
   */
  function InlineEnd(s: string, i: nat): (q: Option<nat>)
    ensures q.Some? ==> i + 13 <= q.value && q.value + 9 <= |s| && IsSpace(s[i + 11])
                        && IsSpace(s[q.value - 1]) && WordAt(s, q.value, "END_LATEX")
  {
    if i + 11 < |s| && IsSpace(s[i + 11]) then
      var g := i + 11 + LeadingSpaces(s[i + 11..]);
      match FirstEndAfter(s, g + 1)
      case Some(q) => Some(q)
      case None => if g >= i + 13 && WordAt(s, g, "END_LATEX") then Some(g) else None
    else None
  }

  /** The last `BEGIN_LATEX` below n that opens a complete inline formula. */
  function LastInline(s: string, n: nat): (i: Option<nat>)
    ensures i.Some? ==> i.value < n && WordAt(s, i.value, "BEGIN_LATEX") && InlineEnd(s, i.value).Some?
    ensures i.None? ==> forall k :: 0 <= k < n ==> !(WordAt(s, k, "BEGIN_LATEX") && InlineEnd(s, k).Some?)
  {
    if n == 0 then None
    else if WordAt(s, n - 1, "BEGIN_LATEX") && InlineEnd(s, n - 1).Some? then Some(n - 1)
    else LastInline(s, n - 1)
  }

  /** reinline_latex `(?i)(.*)BEGIN_LATEX\s+(.*?)\s+END_LATEX(.*)$`, the greedy prefix taking the last formula. */
  function FindInline(s: string): (r: Option<Inline>)
    ensures r.Some? ==> |r.value.before| + |r.value.formula| + |r.value.after| + 15 <= |s|
  {
    match LastInline(s, |s|)
    case None => None
    case Some(i) =>
      var q := InlineEnd(s, i).value;
      var x := Strip(s[i + 11..q]);
      Some(Inline(s[..i], x, s[q + 9..]))
  }

  /** One inline formula replaced: `before\f$x\f$after` with `#` turned into `\` in x. */
  function InlineRewritten(sp: Inline): (r: string)
  {
    sp.before + "\\f$" + ReplaceHash(sp.formula) + "\\f$" + sp.after
  }

  /** The rewriting loop of refactor_comment: inline formulas are replaced until none is left. */
  function RewriteInline(s: string): (r: string)
    ensures |r| <= |s| && (s != [] ==> r != [])
    decreases |s|
  {
    match FindInline(s)
    case None => s
    case Some(sp) => RewriteInline(InlineRewritten(sp))
  }

  /** The rewriting stops only when no inline formula is left. */
  lemma {:induction false} RewriteInlineComplete(s: string)
    ensures FindInline(RewriteInline(s)).None?
    ensures FindInline(s).None? ==> RewriteInline(s) == s
    decreases |s|
  {
    match FindInline(s)
    case None =>
    case Some(sp) => RewriteInlineComplete(InlineRewritten(sp));
  }
}
