/**
 * File-name and path helpers: `sanitize_filename` (the cache's naming rule)
 * and the part of `os.path.join` the cache uses.
 */
module Helpers {
  import opened Text

  /** The characters a file name may not hold: backslash, slash, star, question mark, quote, colon, angle brackets, bar. */
  predicate IsForbidden(c: char) {
    c == '\\' || c == '/' || c == '*' || c == '?' || c == '"' || c == ':' || c == '<' || c == '>' || c == '|'
  }

  function ForbiddenAt(s: string, p: nat): (r: Option<nat>)
    ensures r.Some? ==> p < r.value <= |s|
  {
    if p < |s| && IsForbidden(s[p]) then Some(p + 1) else None
  }

  /** `re.sub(r'\s+', '_', s)`: a maximal run of whitespace at `p`. */
  function SpaceRunAt(s: string, p: nat): (r: Option<nat>)
    ensures r.Some? ==> p < r.value <= |s|
  {
    if p < |s| && IsSpace(s[p]) then Some(SpaceRunEnd(s, p)) else None
  }

  function RemoveForbidden(s: string): (r: string)
    ensures forall i :: 0 <= i < |r| ==> !IsForbidden(r[i])
    ensures IsLowerText(s) ==> IsLowerText(r)
  {
    SubFromChars(s, ForbiddenAt, "", 0, c => !IsForbidden(c));
    if IsLowerText(s) then
      SubFromChars(s, ForbiddenAt, "", 0, c => LowerChar(c) == c);
      SubFrom(s, ForbiddenAt, "", 0)
    else
      SubFrom(s, ForbiddenAt, "", 0)
  }

  function UnderscoreSpaces(s: string): (r: string)
    ensures NoSpace(r)
    ensures (forall i :: 0 <= i < |s| ==> !IsForbidden(s[i]) && LowerChar(s[i]) == s[i]) ==> IsCleanName(r)
  {
    SubFromChars(s, SpaceRunAt, "_", 0, c => !IsSpace(c));
    if forall i :: 0 <= i < |s| ==> !IsForbidden(s[i]) && LowerChar(s[i]) == s[i] then
      SubFromChars(s, SpaceRunAt, "_", 0, c => !IsForbidden(c) && LowerChar(c) == c);
      SubFrom(s, SpaceRunAt, "_", 0)
    else
      SubFrom(s, SpaceRunAt, "_", 0)
  }

  /** A name already in the vault's file-name form. */
  predicate IsCleanName(s: string) {
    forall i :: 0 <= i < |s| ==> !IsForbidden(s[i]) && !IsSpace(s[i]) && LowerChar(s[i]) == s[i]
  }

  /**
   * `sanitize_filename`: lower-case, strip, drop the forbidden characters,
   * then turn each run of whitespace into one underscore.
   */
  function SanitizeFilename(name: string): (r: string)
    ensures IsCleanName(r)
  {
    LowerIdempotent(name);
    StripKeepsLower(Lower(name));
    UnderscoreSpaces(RemoveForbidden(Strip(Lower(name))))
  }

  /** Stripping keeps lower-case text lower-case. */
  lemma StripKeepsLower(s: string)
    requires IsLowerText(s)
    ensures IsLowerText(Strip(s))
  {
    var l := LStrip(s);
    LowerSlice(s, |s| - |l|, |s|);
    var r := RStrip(l);
    LowerSlice(l, 0, |r|);
  }

  lemma LowerSlice(s: string, i: nat, j: nat)
    requires IsLowerText(s) && i <= j <= |s|
    ensures IsLowerText(s[i..j])
  {
    var t := s[i..j];
    forall k | 0 <= k < |t|
      ensures LowerChar(t[k]) == t[k]
    {
      assert t[k] == s[i + k];
    }
  }

  /** A name already in file-name form is its own sanitized name. */
  lemma SanitizeCleanName(s: string)
    requires IsCleanName(s)
    ensures SanitizeFilename(s) == s
  {
    assert IsLowerText(s);
    LowerOfLowerText(s);
    assert NoSpace(s);
    StripNoSpace(s);
    assert Strip(Lower(s)) == s;
    RemoveForbiddenClean(s);
    UnderscoreClean(s);
  }

  lemma RemoveForbiddenClean(s: string)
    requires IsCleanName(s)
    ensures RemoveForbidden(s) == s
  {
    assert forall k :: 0 <= k < |s| ==> ForbiddenAt(s, k).None?;
    SubFromNoMatch(s, ForbiddenAt, "");
  }

  lemma UnderscoreClean(s: string)
    requires IsCleanName(s)
    ensures UnderscoreSpaces(s) == s
  {
    assert forall k :: 0 <= k < |s| ==> SpaceRunAt(s, k).None?;
    SubFromNoMatch(s, SpaceRunAt, "_");
  }

  /** Sanitizing twice is sanitizing once. */
  lemma SanitizeIdempotent(name: string)
    ensures SanitizeFilename(SanitizeFilename(name)) == SanitizeFilename(name)
  {
    SanitizeCleanName(SanitizeFilename(name));
  }

  /** Substitution splits at a boundary that is not inside a run of whitespace. */
  lemma UnderscoreSplit(x: string, y: string)
    requires (x == [] || !IsSpace(x[|x| - 1])) || (y == [] || !IsSpace(y[0]))
    ensures UnderscoreSpaces(x + y) == UnderscoreSpaces(x) + UnderscoreSpaces(y)
  {
    forall k | 0 <= k < |x|
      ensures MatchEnd(SpaceRunAt, x + y, k) == MatchEnd(SpaceRunAt, x, k)
    {
      if IsSpace(x[k]) {
        var j := SpaceRunEnd(x, k);
        SpaceRunSpaces(x, k);
        SpaceRunExact(x + y, k, j);
      }
    }
    forall k | 0 <= k < |y|
      ensures MatchEnd(SpaceRunAt, x + y, |x| + k) == Shift(MatchEnd(SpaceRunAt, y, k), |x|)
    {
      if IsSpace(y[k]) {
        SpaceRunSpaces(y, k);
        SpaceRunExact(x + y, |x| + k, |x| + SpaceRunEnd(y, k));
      }
    }
    SubFromConcat(x, y, SpaceRunAt, "_");
  }

  /**
   * Each maximal run of whitespace becomes exactly one underscore, and the
   * text on either side is treated independently.
   */
  lemma UnderscoreOneRun(a: string, w: string, b: string)
    requires w != [] && forall i :: 0 <= i < |w| ==> IsSpace(w[i])
    requires a == [] || !IsSpace(a[|a| - 1])
    requires b == [] || !IsSpace(b[0])
    ensures UnderscoreSpaces(a + w + b) == UnderscoreSpaces(a) + "_" + UnderscoreSpaces(b)
  {
    assert a + w + b == a + (w + b);
    UnderscoreSplit(a, w + b);
    UnderscoreSplit(w, b);
    SpaceRunExact(w, 0, |w|);
    assert UnderscoreSpaces(w) == "_" + SubFrom(w, SpaceRunAt, "_", |w|);
  }

  // ---------------------------------------------------------------------
  // Paths

  /** `os.path.join(dir, file)` for POSIX paths. */
  function PathJoin(dir: string, file: string): (r: string)
    ensures file != [] && file[0] == '/' ==> r == file
    ensures (file == [] || file[0] != '/') ==> exists pre :: r == pre + file && (pre == [] || pre[|pre| - 1] == '/')
  {
    if file != [] && file[0] == '/' then file
    else if dir == [] || dir[|dir| - 1] == '/' then
      assert dir + file == dir + file;
      dir + file
    else
      assert dir + "/" + file == (dir + "/") + file;
      dir + "/" + file
  }

  /** `os.path.basename`: what follows the last slash. */
  function Basename(path: string): (r: string)
    ensures '/' !in r
  {
    if path == [] || path[|path| - 1] == '/' then []
    else Basename(path[..|path| - 1]) + [path[|path| - 1]]
  }

  lemma {:induction false} BasenameAfterSlash(pre: string, file: string)
    requires pre == [] || pre[|pre| - 1] == '/'
    requires '/' !in file
    ensures Basename(pre + file) == file
    decreases |file|
  {
    if file == [] {
      assert pre + file == pre;
    } else {
      var f := file[..|file| - 1];
      assert (pre + file)[..|pre + file| - 1] == pre + f;
      BasenameAfterSlash(pre, f);
      assert file == f + [file[|file| - 1]];
    }
  }

  /** Joining a slash-free file name onto a directory leaves it as the last path component. */
  lemma BasenameOfJoin(dir: string, file: string)
    requires '/' !in file
    ensures Basename(PathJoin(dir, file)) == file
  {
    var pre :| PathJoin(dir, file) == pre + file && (pre == [] || pre[|pre| - 1] == '/');
    BasenameAfterSlash(pre, file);
  }
}
