/**
 * String and path helpers of Pixi (Util.h, Util.cpp): the in-place trims,
 * the ".asm" name test, trailing-separator removal, directory joining,
 * `!` escaping, the C-string suffix test and the sub-file name rule.
 */
module Util {
  import opened Types
  import opened CLib

  // ---------------------------------------------------------------------------
  // ltrim / rtrim / trim (Util.h)

  /** Length of the maximal white-space prefix of `s`. */
  function LeadingSpaces(s: string): (k: nat)
    ensures k <= |s|
  {
    if |s| == 0 || !IsSpace(s[0]) then 0 else 1 + LeadingSpaces(s[1..])
  }

  /** The prefix counted by `LeadingSpaces` is white space, and the character after it is not. */
  lemma {:induction false} LeadingSpacesSpan(s: string)
    ensures var k := LeadingSpaces(s);
      && (forall j :: 0 <= j < k ==> IsSpace(s[j]))
      && (k < |s| ==> !IsSpace(s[k]))
  {
    if |s| > 0 && IsSpace(s[0]) {
      LeadingSpacesSpan(s[1..]);
      var k := LeadingSpaces(s);
      forall j | 0 <= j < k ensures IsSpace(s[j]) {
        if j > 0 { assert s[j] == s[1..][j - 1]; }
      }
      if k < |s| { assert s[k] == s[1..][k - 1]; }
    }
  }

  /** Length of the maximal white-space suffix of `s`. */
  function TrailingSpaces(s: string): (k: nat)
    ensures k <= |s|
  {
    if |s| == 0 || !IsSpace(s[|s| - 1]) then 0 else 1 + TrailingSpaces(s[..|s| - 1])
  }

  /** The suffix counted by `TrailingSpaces` is white space, and the character before it is not. */
  lemma {:induction false} TrailingSpacesSpan(s: string)
    ensures var k := TrailingSpaces(s);
      && (forall j :: |s| - k <= j < |s| ==> IsSpace(s[j]))
      && (k < |s| ==> !IsSpace(s[|s| - 1 - k]))
  {
    if |s| > 0 && IsSpace(s[|s| - 1]) {
      var p := s[..|s| - 1];
      TrailingSpacesSpan(p);
      var k := TrailingSpaces(s);
      forall j | |s| - k <= j < |s| ensures IsSpace(s[j]) {
        if j < |s| - 1 { assert s[j] == p[j]; }
      }
      if k < |s| { assert s[|s| - 1 - k] == p[|p| - 1 - (k - 1)]; }
    }
  }

  function LTrimmed(s: string): string { s[LeadingSpaces(s)..] }

  function RTrimmed(s: string): string { s[..|s| - TrailingSpaces(s)] }

  function Trimmed(s: string): string { RTrimmed(LTrimmed(s)) }

  /** `ltrim`: erases everything before the first character that is not white space. */
  method LTrim(s: string) returns (r: string)
    ensures r == LTrimmed(s)
  {
    var k := 0;
    while k < |s| && IsSpace(s[k])
      invariant k <= |s|
      invariant forall j :: 0 <= j < k ==> IsSpace(s[j])
    {
      k := k + 1;
    }
    LeadingSpacesSpan(s);
    r := s[k..];
  }

  /** `rtrim`: erases everything after the last character that is not white space. */
  method RTrim(s: string) returns (r: string)
    ensures r == RTrimmed(s)
  {
    var e := |s|;
    while e > 0 && IsSpace(s[e - 1])
      invariant 0 <= e <= |s|
      invariant forall j :: e <= j < |s| ==> IsSpace(s[j])
    {
      e := e - 1;
    }
    TrailingSpacesSpan(s);
    r := s[..e];
  }

  /** `trim`: `ltrim` then `rtrim`. */
  method Trim(s: string) returns (r: string)
    ensures r == Trimmed(s)
  {
    r := LTrim(s);
    r := RTrim(r);
  }

  /** The trimmed string is a contiguous piece of the input, and everything cut away is white space. */
  lemma TrimmedIsInnerSlice(s: string)
    ensures exists i, j :: 0 <= i <= j <= |s| && Trimmed(s) == s[i..j]
              && (forall k :: 0 <= k < i ==> IsSpace(s[k]))
              && (forall k :: j <= k < |s| ==> IsSpace(s[k]))
  {
    var i := LeadingSpaces(s);
    var t := s[i..];
    var j := i + |t| - TrailingSpaces(t);
    LeadingSpacesSpan(s);
    TrailingSpacesSpan(t);
    assert Trimmed(s) == s[i..j];
    forall k | j <= k < |s| ensures IsSpace(s[k]) {
      assert s[k] == t[k - i];
    }
  }

  /** A non-empty trimmed string starts and ends with a character that is not white space. */
  lemma TrimmedEnds(s: string)
    ensures var t := Trimmed(s); |t| > 0 ==> !IsSpace(t[0]) && !IsSpace(t[|t| - 1])
  {
    var l := LTrimmed(s);
    var t := Trimmed(s);
    LeadingSpacesSpan(s);
    TrailingSpacesSpan(l);
    if |t| > 0 {
      assert t[0] == l[0];
    }
  }

  lemma TrimIdempotent(s: string)
    ensures Trimmed(Trimmed(s)) == Trimmed(s)
  {
    var t := Trimmed(s);
    TrimmedEnds(s);
    if |t| > 0 {
      assert LeadingSpaces(t) == 0;
      assert TrailingSpaces(t) == 0;
    } else {
      assert LeadingSpaces(t) == 0;
    }
  }

  lemma AllSpaceTrimsToEmpty(s: string)
    requires forall k :: 0 <= k < |s| ==> IsSpace(s[k])
    ensures Trimmed(s) == []
  {
    LeadingSpacesAll(s);
  }

  /** A string of white space is all leading white space. */
  lemma {:induction false} LeadingSpacesAll(s: string)
    requires forall k :: 0 <= k < |s| ==> IsSpace(s[k])
    ensures LeadingSpaces(s) == |s|
  {
    if |s| > 0 {
      assert forall k :: 0 <= k < |s[1..]| ==> s[1..][k] == s[k + 1];
      LeadingSpacesAll(s[1..]);
    }
  }

  // ---------------------------------------------------------------------------
  // nameEndWithAsmExtension (Util.cpp)

  /** Whether `s` ends with `suffix`. */
  predicate HasSuffix(s: string, suffix: string) {
    |suffix| <= |s| && s[|s| - |suffix|..] == suffix
  }

  /** `nameEndWithAsmExtension`: at least 4 characters, ending in ".asm", not starting with '.'. */
  predicate NameEndsWithAsmExtension(name: string) {
    if |name| < 4 then false
    else name[|name| - 4..] == ".asm" && name[0] != '.'
  }

  /** The ".asm" test is the suffix test of `ends_with` plus the hidden-file exclusion. */
  lemma AsmNameIsAsmSuffix(name: string)
    ensures NameEndsWithAsmExtension(name) <==>
              EndsWith(Some(name), Some(".asm")) && name[0] != '.'
  {
  }

  /** Every non-hidden base name followed by ".asm" passes, and ".asm" alone does not. */
  lemma AsmNameOfBase(base: string)
    ensures NameEndsWithAsmExtension(base + ".asm") <==> |base| > 0 && base[0] != '.'
  {
    var n := base + ".asm";
    assert n[|n| - 4..] == ".asm";
    if |base| > 0 { assert n[0] == base[0]; }
  }

  // ---------------------------------------------------------------------------
  // cleanPathTrail (Util.cpp)

  predicate IsSeparator(c: char) { c == '/' || c == '\\' }

  /** `cleanPathTrail`: drops one trailing '/' or '\\'; `back()` of an empty string is undefined. */
  function CleanPathTrail(path: string): (r: string)
    requires |path| > 0
    ensures IsSeparator(path[|path| - 1]) ==> path == r + [path[|path| - 1]]
    ensures !IsSeparator(path[|path| - 1]) ==> r == path
  {
    if IsSeparator(path[|path| - 1]) then path[..|path| - 1] else path
  }

  /** Cleaning undoes appending one separator. */
  lemma CleanPathTrailUndoesSeparator(dir: string, sep: char)
    requires IsSeparator(sep)
    ensures CleanPathTrail(dir + [sep]) == dir
  {
    assert (dir + [sep])[..|dir|] == dir;
  }

  // ---------------------------------------------------------------------------
  // append_to_dir (Util.cpp)

  /** The position of the last character of `s` satisfying separator-ness, if any. */
  function LastSeparator(s: string): (r: Option<nat>)
    ensures r.Some? ==> (r.value < |s| && IsSeparator(s[r.value])
                         && forall k :: r.value < k < |s| ==> !IsSeparator(s[k]))
    ensures r.None? ==> forall k :: 0 <= k < |s| ==> !IsSeparator(s[k])
  {
    if |s| == 0 then None
    else if IsSeparator(s[|s| - 1]) then Some(|s| - 1)
    else LastSeparator(s[..|s| - 1])
  }

  /** `std::replace(..., '\\', '/')`. */
  function ForwardSlashes(s: string): (r: string)
    ensures |r| == |s|
    ensures forall k :: 0 <= k < |s| ==> r[k] == if s[k] == '\\' then '/' else s[k]
  {
    seq(|s|, k requires 0 <= k < |s| => if s[k] == '\\' then '/' else s[k])
  }

  /** The directory part of `src`: everything up to and including its last separator, or nothing. */
  function DirectoryPart(src: string): (d: string)
    ensures |d| <= |src| && d == src[..|d|]
    ensures |d| > 0 ==> IsSeparator(d[|d| - 1])
    ensures forall k :: |d| <= k < |src| ==> !IsSeparator(src[k])
  {
    match LastSeparator(src)
    case None => []
    case Some(e) => src[..e + 1]
  }

  /** `append_to_dir(src, file)`: the directory of `src` followed by `file`, with every '\\' turned into '/'. */
  function AppendToDir(src: string, file: string): string
  {
    ForwardSlashes(DirectoryPart(src) + file)
  }

  lemma AppendToDirHasNoBackslash(src: string, file: string)
    ensures forall k :: 0 <= k < |AppendToDir(src, file)| ==> AppendToDir(src, file)[k] != '\\'
  {
  }

  /** Without any separator in `src`, the result is `file` alone (with forward slashes). */
  lemma AppendToDirWithoutSeparator(src: string, file: string)
    requires forall k :: 0 <= k < |src| ==> !IsSeparator(src[k])
    ensures AppendToDir(src, file) == ForwardSlashes(file)
  {
    assert DirectoryPart(src) == [];
    assert [] + file == file;
  }

  /** Joining to a file inside directory `dir` keeps `dir` and replaces the file name. */
  lemma AppendToDirReplacesFileName(dir: string, name: string, file: string)
    requires |dir| > 0 && IsSeparator(dir[|dir| - 1])
    requires forall k :: 0 <= k < |name| ==> !IsSeparator(name[k])
    ensures AppendToDir(dir + name, file) == ForwardSlashes(dir + file)
  {
    var src := dir + name;
    var d := DirectoryPart(src);
    assert src[|dir| - 1] == dir[|dir| - 1];
    assert forall k :: |dir| <= k < |src| ==> src[k] == name[k - |dir|];
    assert IsSeparator(src[|dir| - 1]);
    assert forall k :: |dir| <= k < |src| ==> !IsSeparator(src[k]);
    assert |d| >= |dir|;
    assert |d| > 0 ==> d[|d| - 1] == src[|d| - 1];
    assert |d| == |dir|;
    assert d == dir;
  }

  // ---------------------------------------------------------------------------
  // escapeDefines (Util.cpp)

  /** Specification of `escapeDefines`: every '!' replaced by `repl`, everything else copied. */
  function Escaped(path: string, repl: string): string
  {
    if |path| == 0 then []
    else Escaped(path[..|path| - 1], repl) + (if path[|path| - 1] == '!' then repl else [path[|path| - 1]])
  }

  /** `escapeDefines(path, repl)`, the character loop appending to a string stream. */
  method EscapeDefines(path: string, repl: string) returns (r: string)
    ensures r == Escaped(path, repl)
  {
    r := [];
    var i := 0;
    while i < |path|
      invariant i <= |path|
      invariant r == Escaped(path[..i], repl)
    {
      assert path[..i + 1][..i] == path[..i];
      if path[i] == '!' {
        r := r + repl;
      } else {
        r := r + [path[i]];
      }
      i := i + 1;
    }
    assert path[..i] == path;
  }

  lemma {:induction false} EscapedWithoutBang(path: string, repl: string)
    requires forall k :: 0 <= k < |path| ==> path[k] != '!'
    ensures Escaped(path, repl) == path
  {
    if |path| > 0 {
      EscapedWithoutBang(path[..|path| - 1], repl);
      assert path[..|path| - 1] + [path[|path| - 1]] == path;
    }
  }

  lemma {:induction false} EscapedConcat(a: string, b: string, repl: string)
    ensures Escaped(a + b, repl) == Escaped(a, repl) + Escaped(b, repl)
    decreases |b|
  {
    if |b| > 0 {
      var b' := b[..|b| - 1];
      assert (a + b)[..|a + b| - 1] == a + b';
      EscapedConcat(a, b', repl);
    } else {
      assert a + b == a;
    }
  }

  /** A replacement without '!' leaves no '!' behind. */
  lemma {:induction false} EscapedHasNoBang(path: string, repl: string)
    requires forall k :: 0 <= k < |repl| ==> repl[k] != '!'
    ensures forall k :: 0 <= k < |Escaped(path, repl)| ==> Escaped(path, repl)[k] != '!'
  {
    if |path| > 0 {
      EscapedHasNoBang(path[..|path| - 1], repl);
    }
  }

  // ---------------------------------------------------------------------------
  // ends_with (Util.cpp); a null pointer is `None`

  function EndsWith(str: Option<string>, suffix: Option<string>): (r: bool)
    ensures r <==> str.Some? && suffix.Some? && HasSuffix(str.value, suffix.value)
  {
    if str.None? || suffix.None? then false
    else if |suffix.value| > |str.value| then false
    else str.value[|str.value| - |suffix.value|..] == suffix.value
  }

  lemma EndsWithConcat(prefix: string, suffix: string)
    ensures EndsWith(Some(prefix + suffix), Some(suffix))
  {
    assert (prefix + suffix)[|prefix|..] == suffix;
  }

  // ---------------------------------------------------------------------------
  // open_subfile's name rule (Util.cpp)

  function LastDot(s: string): (r: Option<nat>)
    ensures r.Some? ==> r.value < |s| && s[r.value] == '.' && forall k :: r.value < k < |s| ==> s[k] != '.'
    ensures r.None? ==> forall k :: 0 <= k < |s| ==> s[k] != '.'
  {
    if |s| == 0 then None
    else if s[|s| - 1] == '.' then Some(|s| - 1)
    else LastDot(s[..|s| - 1])
  }

  /**
   * `name.substr(0, name.find_last_of('.') + 1) + ext`; with no '.', npos + 1
   * wraps to 0 and the result is `ext` alone.
   */
  function SubfileName(name: string, ext: string): (r: string)
    ensures LastDot(name).None? ==> r == ext
    ensures LastDot(name).Some? ==> r == name[..LastDot(name).value + 1] + ext
  {
    var len := match LastDot(name) case None => 0 case Some(d) => d + 1;
    name[..len] + ext
  }

  /** Changing the extension twice is the same as changing it once, when the first one holds no dot. */
  lemma SubfileNameTwice(name: string, e1: string, e2: string)
    requires forall k :: 0 <= k < |e1| ==> e1[k] != '.'
    ensures SubfileName(SubfileName(name, e1), e2) == SubfileName(name, e2)
  {
    var m := SubfileName(name, e1);
    match LastDot(name)
    case None =>
      assert LastDot(m).None?;
    case Some(d) =>
      assert m[d] == '.';
      assert forall k :: d < k < |m| ==> m[k] == e1[k - d - 1];
      assert LastDot(m) == Some(d);
      assert m[..d + 1] == name[..d + 1];
  }

  /** Replacing the extension of a name that already ends in `.ext` gives the name back. */
  lemma SubfileNameOfSameExtension(base: string, ext: string)
    requires forall k :: 0 <= k < |ext| ==> ext[k] != '.'
    ensures SubfileName(base + "." + ext, ext) == base + "." + ext
  {
    var n := base + "." + ext;
    assert n[|base|] == '.';
    assert forall k :: |base| < k < |n| ==> n[k] == ext[k - |base| - 1];
    assert LastDot(n) == Some(|base|);
    assert n[..|base| + 1] == base + ".";
  }

  // ---------------------------------------------------------------------------
  // std::filesystem::path(p).filename(), for messages

  /** The last component of a '/'-separated path. */
  function FileName(path: string): (r: string)
    ensures |r| <= |path| && r == path[|path| - |r|..]
  {
    match LastSeparator(path)
    case None => path
    case Some(e) => path[e + 1..]
  }
}
