/**
 * The class-name and header logic of comment_classdesc in thtml2doxy.py:
 * the class a file documents, guessed from the file name when the class
 * description names none, and the `\class` or `\file` line put in front of
 * the description.
 */
module DoxyClassDesc {
  import opened Wrappers
  import opened DoxyText

  /** Where the last component of a path starts: just after its last `/`, or 0. */
  function BaseStart(path: string): (r: nat)
    ensures r <= |path| && (r == 0 || path[r - 1] == '/')
    ensures forall k :: r <= k < |path| ==> path[k] != '/'
    decreases |path|
  {
    if path == [] then 0
    else if path[|path| - 1] == '/' then |path|
    else BaseStart(path[..|path| - 1])
  }

  /** The part of a path after its last `/`. */
  function Basename(path: string): (r: string)
    ensures '/' !in r
  {
    path[BaseStart(path)..]
  }

  /** The position of the first `.` in s, or |s| when there is none. */
  function FirstDot(s: string): (n: nat)
    ensures n <= |s| && (n < |s| ==> s[n] == '.')
    ensures forall k :: 0 <= k < n ==> s[k] != '.'
    decreases |s|
  {
    if s == [] || s[0] == '.' then 0 else 1 + FirstDot(s[1..])
  }

  // reclass `^(.*/)?(.*?)(\..*)?$`, group 2: the greedy optional directory
  // takes everything up to the last `/`, and the lazy name stops at the
  // first `.` of what is left.
  function GuessClassName(filename: string): (name: string)
    ensures '/' !in name && '.' !in name
    ensures var b := Basename(filename); name <= b && (|name| < |b| ==> b[|name|] == '.')
  {
    var b := Basename(filename);
    b[..FirstDot(b)]
  }

  /** filename.endswith('.C'): the file is a ROOT macro. */
  predicate IsMacro(filename: string)
  {
    |filename| >= 2 && filename[|filename| - 2..] == ".C"
  }

  /** The line put in front of a class description: `\file <name>.C` for a macro, `\class <name>` otherwise. */
  function Header(filename: string, className: string): (r: string)
    ensures IsMacro(filename) ==> r == "\\file " + className + ".C"
    ensures !IsMacro(filename) ==> r == "\\class " + className
  {
    if IsMacro(filename) then "\\file " + className + ".C" else "\\class " + className
  }

  /**
   * The lines of a class description before refactor_comment: the header,
   * the description's own lines, an empty line, then the author and the
   * date when the description gave them.  The class is the one a `\class`
   * or `\file` line named, else the one guessed from the file name.
   */
  function ClassDescLines(filename: string, classNameDoxy: Option<string>, lines: seq<string>,
                          author: Option<string>, date: Option<string>): (r: seq<string>)
    ensures |r| == |lines| + 2 + (if author.Some? then 1 else 0) + (if date.Some? then 1 else 0)
    ensures r[0] == Header(filename, if classNameDoxy.Some? then classNameDoxy.value else GuessClassName(filename))
    ensures r[1..|lines| + 1] == lines && r[|lines| + 1] == ""
    ensures author.Some? ==> r[|lines| + 2] == "\\author " + author.value
    ensures date.Some? ==> r[|r| - 1] == "\\date " + date.value
  {
    var name := if classNameDoxy.Some? then classNameDoxy.value else GuessClassName(filename);
    [Header(filename, name)] + lines + [""]
      + (if author.Some? then ["\\author " + author.value] else [])
      + (if date.Some? then ["\\date " + date.value] else [])
  }

  /**
   * reclass_doxy `(?i)^\s*\\(class|file):?\s*([^.]*)`, group 2: the name
   * a `\class` or `\file` line gives, up to its first `.`.
   */
  function ClassDoxy(s: string): (r: Option<string>)
    ensures r.Some? ==> '.' !in r.value
  {
    var t := s[LeadingSpaces(s)..];
    var kw := if WordAt(t, 0, "\\CLASS") then 6 else if WordAt(t, 0, "\\FILE") then 5 else 0;
    if kw == 0 then None
    else
      var u := t[kw..];
      var u1 := if u != [] && u[0] == ':' then u[1..] else u;
      var v := u1[LeadingSpaces(u1)..];
      Some(v[..FirstDot(v)])
  }

  /**
   * The class name is guessed back from any path made of a directory, the
   * name and an extension.
   */
  lemma GuessFromParts(dir: string, name: string, ext: string)
    requires dir == [] || dir[|dir| - 1] == '/'
    requires '/' !in name && '.' !in name && '/' !in ext
    requires ext == [] || ext[0] == '.'
    ensures GuessClassName(dir + name + ext) == name
  {
    var base := name + ext;
    AppendAssoc(dir, name, ext);
    BasenameOfJoin(dir, base);
    FirstDotOfJoin(name, ext);
    SliceAppend(name, ext);
  }

  /** The first `.` of a name without one, followed by an extension, is where the extension starts. */
  lemma FirstDotOfJoin(name: string, ext: string)
    requires '.' !in name && (ext == [] || ext[0] == '.')
    ensures FirstDot(name + ext) == |name|
  {
    var s := name + ext;
    assert forall k :: 0 <= k < |name| ==> s[k] == name[k];
    assert |name| < |s| ==> s[|name|] == '.';
  }

  /** The last component of dir + base is base when dir ends with `/` and base holds none. */
  lemma BasenameOfJoin(dir: string, base: string)
    requires dir == [] || dir[|dir| - 1] == '/'
    requires '/' !in base
    ensures Basename(dir + base) == base
  {
    var path := dir + base;
    var r := BaseStart(path);
    assert dir != [] ==> path[|dir| - 1] == '/';
    assert r >= |dir|;
    assert forall k :: |dir| <= k < |path| ==> path[k] == base[k - |dir|];
    assert r == |dir|;
    assert path[|dir|..] == base;
  }

  /** The header of a macro is read back as its class name. */
  lemma MacroHeaderReadsBack(className: string)
    requires '.' !in className
    requires className == [] || (className[0] != ':' && !IsSpace(className[0]))
    ensures ClassDoxy("\\file " + className + ".C") == Some(className)
  {
    var v := className + ".C";
    MacroHeaderKeyword(className);
    LeadingSpacesAt(" " + v, v);
    FirstDotOfJoin(className, ".C");
    SliceAppend(className, ".C");
  }

  /** A macro header starts with the `\file` keyword, not `\class`, and one space. */
  lemma MacroHeaderKeyword(className: string)
    ensures var h := "\\file " + className + ".C";
            && LeadingSpaces(h) == 0 && h[0..] == h
            && WordAt(h, 0, "\\FILE") && !WordAt(h, 0, "\\CLASS")
            && h[5..] == " " + (className + ".C")
  {
    var h := "\\file " + className + ".C";
    assert h[0] == '\\' && h[1] == 'f';
    assert WordAt(h, 0, "\\FILE");
    assert !WordAt(h, 0, "\\CLASS") by {
      assert WordAt(h, 0, "\\CLASS") ==> Lower(h[0 + 1]) == Lower("\\CLASS"[1]);
    }
    assert h[5..] == " " + (className + ".C");
  }

  /** The header of a class is read back as its class name. */
  lemma ClassHeaderReadsBack(className: string)
    requires '.' !in className
    requires className == [] || (className[0] != ':' && !IsSpace(className[0]))
    ensures ClassDoxy("\\class " + className) == Some(className)
  {
    var h := "\\class " + className;
    assert h[0] == '\\';
    assert LeadingSpaces(h) == 0;
    assert h[0..] == h;
    assert WordAt(h, 0, "\\CLASS");
    var v := className;
    assert h[6..] == " " + v;
    LeadingSpacesAt(" " + v, v);
    assert FirstDot(v) == |className|;
    assert v[..|className|] == className;
  }

  /**
   * The header written in front of a description names its class so that
   * the script's own `\class`/`\file` pattern reads the same name back,
   * when the name has no `.` and does not start with `:` or whitespace.
   */
  lemma HeaderReadsBack(filename: string, className: string)
    requires '.' !in className
    requires className == [] || (className[0] != ':' && !IsSpace(className[0]))
    ensures ClassDoxy(Header(filename, className)) == Some(className)
  {
    if IsMacro(filename) {
      MacroHeaderReadsBack(className);
    } else {
      ClassHeaderReadsBack(className);
    }
  }

  /** One space in front of a text that does not start with whitespace. */
  lemma LeadingSpacesAt(u: string, v: string)
    requires u == " " + v && (v == [] || !IsSpace(v[0]))
    ensures LeadingSpaces(u) == 1 && u[1..] == v
  {
    assert u[1..] == v;
  }
}
