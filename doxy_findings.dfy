/**
 * The character class of refactor_comment's garbage pattern, as written and
 * as meant.  `[\s*=-_#]` reads `=-_` as a range that leaves out the hyphen,
 * so a line of hyphens is kept on every Python.  Under the IGNORECASE range
 * semantics of Python 2.7 after the fix of bpo-17381, which the as-written
 * class encodes, the range also holds every letter, so a line of plain words
 * is taken for garbage and dropped.  The model uses the intended class
 * (DoxyText.IsGarbage).
 */
module DoxyFindings {
  import opened DoxyText

  /** A line of plain words is garbage as written, and is not as meant. */
  lemma WordsLineCounterexample()
    ensures IsGarbageAsWritten("Default constructor") && !IsGarbage("Default constructor")
  {
    var w := "Default constructor";
    assert !GarbageChar(w[0]);
    assert LeadingSpaces(w) == 0 && TrailingSpaces(w) == 0;
    assert |Strip(w)| == 19;
  }

  /** A line of hyphens is not garbage as written, and is as meant. */
  lemma HyphenLineCounterexample()
    ensures !IsGarbageAsWritten("------") && IsGarbage("------")
  {
    var h := "------";
    assert !GarbageCharAsWritten(h[0]);
    assert LeadingSpaces(h) == 0 && TrailingSpaces(h) == 0;
    assert |Strip(h)| == 6;
  }

  /** With the intended class, a line made of separator characters and blanks is garbage. */
  lemma SeparatorLineIsGarbage(s: string)
    requires s != [] && forall k :: 0 <= k < |s| ==> s[k] in " \t-=*_#"
    ensures IsGarbage(s)
  {
    assert forall k :: 0 <= k < |s| ==> GarbageChar(s[k]);
  }

  /**
   * With the intended class, a line holding a letter is garbage only when it
   * is the bare word Begin_Html or End_Html.
   */
  lemma LetterLineNotGarbage(s: string, i: nat)
    requires i < |s| && ('a' <= s[i] <= 'z' || 'A' <= s[i] <= 'Z')
    requires !(|Strip(s)| == 10 && WordAt(Strip(s), 0, "BEGIN_HTML"))
    requires !(|Strip(s)| == 8 && WordAt(Strip(s), 0, "END_HTML"))
    ensures !IsGarbage(s)
  {
    assert !GarbageChar(s[i]);
  }

  /** As written, any line of letters and blanks is garbage, whatever it says. */
  lemma WordsGarbageAsWritten(s: string)
    requires s != [] && forall k :: 0 <= k < |s| ==> s[k] == ' ' || 'a' <= s[k] <= 'z' || 'A' <= s[k] <= 'Z'
    ensures IsGarbageAsWritten(s)
  {
    assert forall k :: 0 <= k < |s| ==> GarbageCharAsWritten(s[k]);
  }
}
