/**
 * The GLib string and path helpers the plugin relies on, for the POSIX
 * directory separator '/': g_str_has_suffix, g_path_get_basename and the
 * two-element form of g_build_filename.
 */
module GPath {

  const Separator: char := '/'

  /** g_str_has_suffix: the last |suffix| characters of s are suffix. */
  predicate HasSuffix(s: string, suffix: string) {
    |suffix| <= |s| && s[|s| - |suffix|..] == suffix
  }

  /** A path element with no separator at either end, such as "applications/x.desktop". */
  predicate IsInnerElement(s: string) {
    s != [] && s[0] != Separator && s[|s| - 1] != Separator
  }

  /** The number of separators s starts with. */
  function LeadingSeparators(s: string): (n: nat)
    ensures n <= |s|
    ensures forall i :: 0 <= i < n ==> s[i] == Separator
    ensures n < |s| ==> s[n] != Separator
  {
    if s != [] && s[0] == Separator then 1 + LeadingSeparators(s[1..]) else 0
  }

  /** s with the separators it ends with removed. */
  function StripTrailingSeparators(s: string): (r: string)
    ensures |r| <= |s|
  {
    if s != [] && s[|s| - 1] == Separator then StripTrailingSeparators(s[..|s| - 1]) else s
  }

  /** What follows the last separator of s; all of s when it holds none. */
  function LastComponent(s: string): string {
    if s == [] || s[|s| - 1] == Separator then []
    else LastComponent(s[..|s| - 1]) + [s[|s| - 1]]
  }

  /**
   * g_path_get_basename: "." for the empty path, "/" for a path made only of
   * separators, otherwise the last component once trailing separators are dropped.
   */
  function PathGetBasename(path: string): string {
    if path == [] then "."
    else
      var stripped := StripTrailingSeparators(path);
      if stripped == [] then [Separator] else LastComponent(stripped)
  }

  /** s without the separators at either end. */
  function Core(s: string): string {
    StripTrailingSeparators(s[LeadingSeparators(s)..])
  }

  /**
   * g_build_filename(first, last, NULL): empty elements are skipped; the
   * separators first starts with and those last ends with are kept; between
   * the two the separators are collapsed into one, and none is added next to
   * an element made only of separators.
   */
  function BuildFilename(first: string, last: string): (p: string)
    ensures |p| <= |first| + 1 + |last|
  {
    if first == [] then last
    else if last == [] then first
    else
      var head := Core(first);
      var tail := Core(last);
      var rest := last[LeadingSeparators(last)..];
      first[..LeadingSeparators(first)] + head
        + (if head != [] && tail != [] then [Separator] else [])
        + (if tail == [] then last else tail + rest[|tail|..])
  }

  /** The stripped path is a prefix ending in a non-separator, and only separators were dropped. */
  lemma {:induction false} StripTrailingSeparatorsShape(s: string)
    ensures var r := StripTrailingSeparators(s);
      && r == s[..|r|]
      && (r == [] || r[|r| - 1] != Separator)
      && forall i :: |r| <= i < |s| ==> s[i] == Separator
  {
    if s != [] && s[|s| - 1] == Separator {
      var t := s[..|s| - 1];
      StripTrailingSeparatorsShape(t);
      var r := StripTrailingSeparators(t);
      assert t[..|r|] == s[..|r|];
    }
  }

  /**
   * The last component is a separator-free suffix of s, and either all of s
   * or preceded by a separator.
   */
  lemma {:induction false} LastComponentShape(s: string)
    ensures var r := LastComponent(s);
      && |r| <= |s| && r == s[|s| - |r|..]
      && Separator !in r
      && (|r| < |s| ==> s[|s| - |r| - 1] == Separator)
  {
    if s != [] && s[|s| - 1] != Separator {
      var t := s[..|s| - 1];
      LastComponentShape(t);
      var r := LastComponent(t);
      assert LastComponent(s) == r + [s[|s| - 1]];
      assert t[|t| - |r|..] + [s[|s| - 1]] == s[|s| - |r| - 1..];
      assert |r| < |t| ==> s[|s| - |r| - 2] == t[|t| - |r| - 1];
    }
  }

  /**
   * A basename is never empty; it is "/" or holds no separator; and for a
   * path that does not end in a separator it is the last component.
   */
  lemma BasenameShape(path: string)
    ensures var b := PathGetBasename(path);
      && b != []
      && (b == [Separator] || Separator !in b)
      && (path != [] && path[|path| - 1] != Separator ==> b == LastComponent(path))
  {
    if path != [] {
      var stripped := StripTrailingSeparators(path);
      StripTrailingSeparatorsShape(path);
      if stripped != [] {
        LastComponentShape(stripped);
        var r := LastComponent(stripped);
        assert r[|r| - 1] == stripped[|stripped| - 1];
      }
    }
  }

  lemma StripTrailingOfClean(s: string)
    requires s == [] || s[|s| - 1] != Separator
    ensures StripTrailingSeparators(s) == s
  {
  }

  lemma CoreOfInner(s: string)
    requires IsInnerElement(s)
    ensures LeadingSeparators(s) == 0 && Core(s) == s
  {
    assert s[0..] == s;
    StripTrailingOfClean(s);
  }

  /** A component with no separator ends the path: it is the path's last component. */
  lemma LastComponentAfterSeparator(a: string, b: string)
    requires Separator !in b
    ensures LastComponent(a + [Separator] + b) == b
  {
    var s := a + [Separator] + b;
    LastComponentShape(s);
    assert s[|s| - |b| - 1] == Separator;
    assert forall i :: |s| - |b| <= i < |s| ==> s[i] == b[i - (|s| - |b|)];
    assert s[|s| - |b|..] == b;
  }

  /** g_path_get_basename of "a/b" is b for a non-empty b with no separator. */
  lemma BasenameAfterSeparator(a: string, b: string)
    requires b != [] && Separator !in b
    ensures PathGetBasename(a + [Separator] + b) == b
  {
    var s := a + [Separator] + b;
    assert s[|s| - 1] == b[|b| - 1];
    StripTrailingOfClean(s);
    LastComponentAfterSeparator(a, b);
  }

  /** A path with no separator is its own last component. */
  lemma LastComponentOfPlain(s: string)
    requires Separator !in s
    ensures LastComponent(s) == s
  {
    LastComponentShape(s);
    assert s[|s| - |s|..] == s;
  }

  /** The last component keeps every separator-free suffix of the path. */
  lemma LastComponentKeepsSuffix(s: string, t: string)
    requires HasSuffix(s, t) && Separator !in t
    ensures HasSuffix(LastComponent(s), t)
  {
    LastComponentShape(s);
    var r := LastComponent(s);
    assert r[|r| - |t|..] == s[|s| - |t|..];
  }

  /** A path ending in a separator-free suffix has a basename ending in it. */
  lemma BasenameKeepsSuffix(s: string, t: string)
    requires t != [] && HasSuffix(s, t) && Separator !in t
    ensures PathGetBasename(s) == LastComponent(s)
    ensures HasSuffix(PathGetBasename(s), t)
  {
    assert s[|s| - 1] == t[|t| - 1];
    StripTrailingOfClean(s);
    LastComponentKeepsSuffix(s, t);
  }

  /** Joining onto an inner element always ends with that element. */
  lemma BuildFilenameEndsWith(first: string, last: string)
    requires IsInnerElement(last)
    ensures HasSuffix(BuildFilename(first, last), last)
  {
    CoreOfInner(last);
    var p := BuildFilename(first, last);
    assert last[LeadingSeparators(last)..][|last|..] == [];
    assert p[|p| - |last|..] == last;
  }

  /** Joining an inner element onto a directory that does not end in '/' puts exactly one '/' between them. */
  lemma BuildFilenameOfPlainDirectory(first: string, last: string)
    requires IsInnerElement(last)
    requires first != [] && first[|first| - 1] != Separator
    ensures BuildFilename(first, last) == first + [Separator] + last
  {
    CoreOfInner(last);
    assert last[LeadingSeparators(last)..][|last|..] == [];
    var n := LeadingSeparators(first);
    StripTrailingOfClean(first[n..]);
    assert first[..n] + first[n..] == first;
  }
}
