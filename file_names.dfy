/**
 * `get_clean_filename` of the driver: the name used for the output files of
 * one input file, that is the input path without its directories and its
 * extension, with the characters a file system may refuse replaced by `_`.
 */
module FileNames {
  import opened Wrappers

  /** The index of the last `c` in `s`, as `strrchr` finds it. */
  function LastIndexOf(s: string, c: char): (r: Option<nat>)
    ensures r.Some? ==> r.value < |s| && s[r.value] == c && forall j :: r.value < j < |s| ==> s[j] != c
    ensures r.None? ==> forall j :: 0 <= j < |s| ==> s[j] != c
  {
    if |s| == 0 then None
    else if s[|s| - 1] == c then Some(|s| - 1)
    else LastIndexOf(s[..|s| - 1], c)
  }

  /** The Windows separator (the driver's `PATH_SEPARATOR`) or the Unix one. */
  predicate IsSeparator(c: char)
  {
    c == '\\' || c == '/'
  }

  /** The later of the last `\` and the last `/`. */
  function LastSeparator(path: string): (r: Option<nat>)
    ensures r.Some? ==> r.value < |path| && IsSeparator(path[r.value]) && forall j :: r.value < j < |path| ==> !IsSeparator(path[j])
    ensures r.None? ==> forall j :: 0 <= j < |path| ==> !IsSeparator(path[j])
  {
    var windows := LastIndexOf(path, '\\');
    var unix := LastIndexOf(path, '/');
    if unix.Some? && (windows.None? || unix.value > windows.value) then unix else windows
  }

  /** The path without its directories. */
  function BaseName(path: string): (r: string)
    ensures |r| <= |path| && r == path[|path| - |r|..]
    ensures forall j :: 0 <= j < |r| ==> !IsSeparator(r[j])
    ensures r == path || IsSeparator(path[|path| - |r| - 1])
  {
    match LastSeparator(path)
    case None => path
    case Some(k) => path[k + 1..]
  }

  /** A base name has no directories left to remove. */
  lemma BaseNameIdempotent(path: string)
    ensures BaseName(BaseName(path)) == BaseName(path)
  {
    assert LastSeparator(BaseName(path)).None?;
  }

  /** The name without everything from its last `.` on. */
  function StripExtension(name: string): (r: string)
    ensures |r| <= |name| && r == name[..|r|]
    ensures r == name || (name[|r|] == '.' && forall j :: |r| < j < |name| ==> name[j] != '.')
    ensures r == name ==> forall j :: 0 <= j < |name| ==> name[j] != '.'
  {
    match LastIndexOf(name, '.')
    case None => name
    case Some(k) => name[..k]
  }

  /** The characters replaced by `_`. */
  predicate Unsafe(c: char)
  {
    c == '.' || c == '/' || c == '\\' || c == ':' || c == '*' || c == '?' || c == '"' || c == '<' || c == '>' || c == '|'
  }

  /** The clean name of an input path. */
  function CleanFilename(path: string): string
  {
    var name := StripExtension(BaseName(path));
    seq(|name|, i requires 0 <= i < |name| => if Unsafe(name[i]) then '_' else name[i])
  }

  /** The replacement loop runs over a copy of the stripped base name. */
  method GetCleanFilename(path: string) returns (clean: string)
    ensures clean == CleanFilename(path)
  {
    var name := StripExtension(BaseName(path));
    var a := new char[|name|](i requires 0 <= i < |name| => name[i]);
    for p := 0 to a.Length
      invariant forall j :: 0 <= j < p ==> a[j] == (if Unsafe(name[j]) then '_' else name[j])
      invariant forall j :: p <= j < a.Length ==> a[j] == name[j]
    {
      if Unsafe(a[p]) {
        a[p] := '_';
      }
    }
    clean := a[..];
  }

  /**
   * Only the last path component counts: a path and its base name have the
   * same clean name, so the directories a file sits in never show up in it.
   */
  lemma {:induction false} CleanFilenameOfBaseName(path: string)
    ensures CleanFilename(path) == CleanFilename(BaseName(path))
  {
    BaseNameIdempotent(path);
  }

  /** No separator, dot or other unsafe character is left in a clean name. */
  lemma CleanFilenameSafe(path: string)
    ensures forall i :: 0 <= i < |CleanFilename(path)| ==> !Unsafe(CleanFilename(path)[i])
  {
  }

  /** A name without unsafe characters is its own base name, without extension, unchanged. */
  lemma {:induction false} SafeNameFixed(name: string)
    requires forall i :: 0 <= i < |name| ==> !Unsafe(name[i])
    ensures CleanFilename(name) == name
  {
    assert forall j :: 0 <= j < |name| ==> !IsSeparator(name[j]) && name[j] != '.';
  }

  /** Cleaning a clean name changes nothing. */
  lemma CleanFilenameIdempotent(path: string)
    ensures CleanFilename(CleanFilename(path)) == CleanFilename(path)
  {
    CleanFilenameSafe(path);
    SafeNameFixed(CleanFilename(path));
  }
}
