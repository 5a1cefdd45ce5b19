/**
 * Character-level helpers the manager relies on: Python's notion of
 * whitespace (what `str.strip` removes), lower-casing, stripping, and the
 * file-name extension as Windows `os.path.splitext` computes it.
 */
module Text {

  /** The characters for which Python's `str.isspace()` holds. */
  predicate IsSpace(c: char) {
    var n := c as int;
    || (9 <= n <= 13) || (28 <= n <= 32)
    || n == 0x85 || n == 0xA0 || n == 0x1680
    || (0x2000 <= n <= 0x200A)
    || n == 0x2028 || n == 0x2029 || n == 0x202F || n == 0x205F || n == 0x3000
  }

  predicate IsUpper(c: char) {
    'A' <= c <= 'Z'
  }

  /** Lower-cases one character (the ASCII letters; every other character is kept). */
  function LowerChar(c: char): (d: char)
    ensures !IsUpper(d)
    ensures d == c || (IsUpper(c) && d as int == c as int + 32)
  {
    if IsUpper(c) then (c as int + 32) as char else c
  }

  /** `str.lower()` on ASCII text: every character lower-cased, in place. */
  function Lower(s: string): (r: string)
    ensures |r| == |s|
  {
    if s == [] then [] else [LowerChar(s[0])] + Lower(s[1..])
  }

  /** `Lower` works character by character: each position is lower-cased on its own. */
  lemma {:induction false} LowerAt(s: string)
    ensures forall i :: 0 <= i < |s| ==> Lower(s)[i] == LowerChar(s[i])
  {
    if s != [] {
      LowerAt(s[1..]);
      assert forall i :: 1 <= i < |s| ==> Lower(s)[i] == Lower(s[1..])[i - 1];
    }
  }

  /** A string with no whitespace at either end, the shape `str.strip()` produces. */
  predicate Stripped(s: string) {
    s == [] || (!IsSpace(s[0]) && !IsSpace(s[|s| - 1]))
  }

  /** `str.lstrip()`: drop the leading whitespace. */
  function StripLeft(s: string): (r: string)
    ensures |r| <= |s| && r == s[|s| - |r|..]
    ensures forall k :: 0 <= k < |s| - |r| ==> IsSpace(s[k])
    ensures r == [] || !IsSpace(r[0])
    decreases |s|
  {
    if s == [] || !IsSpace(s[0]) then s else StripLeft(s[1..])
  }

  /** `str.rstrip()`: drop the trailing whitespace. */
  function StripRight(s: string): (r: string)
    ensures |r| <= |s| && r == s[..|r|]
    ensures forall k :: |r| <= k < |s| ==> IsSpace(s[k])
    ensures r == [] || !IsSpace(r[|r| - 1])
    decreases |s|
  {
    if s == [] || !IsSpace(s[|s| - 1]) then s else StripRight(s[..|s| - 1])
  }

  /** `r` is `s` with the `m` characters before it and the rest after it cut off, all whitespace. */
  predicate TrimmedAt(s: string, r: string, m: nat) {
    && m + |r| <= |s| && r == s[m..m + |r|]
    && (forall k :: 0 <= k < m ==> IsSpace(s[k]))
    && (forall k :: m + |r| <= k < |s| ==> IsSpace(s[k]))
  }

  /** `str.strip()`: the longest infix with no whitespace at either end. */
  function Strip(s: string): (r: string)
    ensures Stripped(r)
    ensures |r| <= |s|
  {
    StripRight(StripLeft(s))
  }

  /**
   * Strip cuts off exactly the whitespace around the result: the result
   * is the infix of `s` after its leading whitespace, and everything after
   * it is whitespace too.
   */
  lemma StripTrims(s: string)
    ensures TrimmedAt(s, Strip(s), |s| - |StripLeft(s)|)
  {
    TrimmedOfParts(s, StripLeft(s), Strip(s));
  }

  /** Cutting whitespace off the front of `s` and then off the back of what is left trims `s`. */
  lemma TrimmedOfParts(s: string, u: string, r: string)
    requires |u| <= |s| && u == s[|s| - |u|..]
    requires forall k :: 0 <= k < |s| - |u| ==> IsSpace(s[k])
    requires |r| <= |u| && r == u[..|r|]
    requires forall k :: |r| <= k < |u| ==> IsSpace(u[k])
    ensures TrimmedAt(s, r, |s| - |u|)
  {
    var m := |s| - |u|;
    assert r == s[m..m + |r|];
    forall k | m + |r| <= k < |s|
      ensures IsSpace(s[k])
    {
      assert s[k] == u[k - m];
    }
  }

  /** Stripping a line read with its terminator gives back the bare line. */
  lemma StripLine(x: string)
    requires Stripped(x)
    ensures Strip(x + "\n") == x
  {
  }

  /** The path separators of Windows paths, as `ntpath` knows them. */
  predicate IsSep(c: char) {
    c == '\\' || c == '/'
  }

  /** Index of the last separator in `p`, or -1 when there is none. */
  function LastSep(p: string): (i: int)
    ensures -1 <= i < |p|
    ensures 0 <= i ==> IsSep(p[i])
    ensures forall k :: i < k < |p| ==> !IsSep(p[k])
    decreases |p|
  {
    if p == [] then -1
    else if IsSep(p[|p| - 1]) then |p| - 1
    else LastSep(p[..|p| - 1])
  }

  /** Index of the last '.' in `p`, or -1 when there is none. */
  function LastDot(p: string): (i: int)
    ensures -1 <= i < |p|
    ensures 0 <= i ==> p[i] == '.'
    ensures forall k :: i < k < |p| ==> p[k] != '.'
    decreases |p|
  {
    if p == [] then -1
    else if p[|p| - 1] == '.' then |p| - 1
    else LastDot(p[..|p| - 1])
  }

  /** Some character of `p[lo..hi]` is not a dot. */
  predicate HasNonDot(p: string, lo: int, hi: int)
    requires 0 <= lo && hi <= |p|
  {
    exists k :: lo <= k < hi && p[k] != '.'
  }

  /**
   * The extension of a Windows path, as the second half of
   * `ntpath.splitext`: the text from the last '.' of the final path
   * component, provided that component has a non-dot character before the
   * dot (so ".profile" has no extension); otherwise the empty string.
   */
  function Extension(p: string): (e: string)
    ensures |e| <= |p| && e == p[|p| - |e|..]
    ensures e != [] ==> e[0] == '.'
    ensures forall k :: 0 < k < |e| ==> e[k] != '.' && !IsSep(e[k])
  {
    var sep := LastSep(p);
    var dot := LastDot(p);
    if sep < dot && HasNonDot(p, sep + 1, dot) then p[dot..] else []
  }

  /** The characters allowed after the dot of an extension. */
  predicate ExtensionShaped(ext: string) {
    && |ext| >= 1 && ext[0] == '.'
    && forall k :: 1 <= k < |ext| ==> ext[k] != '.' && !IsSep(ext[k])
  }

  /**
   * A file name `stem + ext` whose stem ends in an ordinary character has
   * exactly `ext` as its extension, whatever directories the stem holds.
   */
  lemma ExtensionOfName(stem: string, ext: string)
    requires ExtensionShaped(ext)
    requires stem != [] && stem[|stem| - 1] != '.' && !IsSep(stem[|stem| - 1])
    ensures Extension(stem + ext) == ext
  {
    var p := stem + ext;
    var n := |stem|;
    assert p[n] == '.';
    var dot := LastDot(p);
    assert dot == n by {
      assert forall k :: n < k < |p| ==> p[k] == ext[k - n];
    }
    var sep := LastSep(p);
    assert sep < n - 1 by {
      assert forall k :: n <= k < |p| ==> p[k] == ext[k - n];
      assert p[n - 1] == stem[n - 1];
    }
    assert HasNonDot(p, sep + 1, dot) by {
      assert p[n - 1] != '.';
    }
    assert p[n..] == ext;
  }
}
