/**
 * Characters, strings and the two regular-expression drivers every module
 * of the workout analyzer uses.
 *
 * Python's `re` engine is not modelled in general. Each pattern of the
 * analyzer is written as a hand-made "matcher" that, given the whole text and
 * a start position, says whether the pattern matches there (with Python's
 * greedy/lazy backtracking worked out for that one pattern). Two drivers turn
 * matchers into the library calls the source uses:
 *   - FirstMatch: `re.search`, the leftmost position where the matcher fires;
 *   - SubFrom:    `re.sub`, scanning left to right and replacing every
 *                 non-overlapping match.
 */
module Text {

  datatype Option<+T> = None | Some(value: T) {
    function GetOr(default: T): T {
      match this
      case Some(v) => v
      case None => default
    }
  }

  // ---------------------------------------------------------------------
  // Character classes

  predicate IsDigit(c: char) { '0' <= c <= '9' }

  /** Whitespace as `\s` and `str.strip()` treat it (ASCII whitespace). */
  predicate IsSpace(c: char) {
    c == ' ' || c == '\t' || c == '\n' || c == '\r' || c == '\U{000B}' || c == '\U{000C}'
  }

  predicate AllDigits(s: string) { forall i :: 0 <= i < |s| ==> IsDigit(s[i]) }

  predicate NoSpace(s: string) { forall i :: 0 <= i < |s| ==> !IsSpace(s[i]) }

  /**
   * `str.lower()` on one character: ASCII letters and the Cyrillic capitals
   * (including the Ѐ..Џ row) map to their small letters, everything else is
   * unchanged.
   */
  function LowerChar(c: char): (r: char)
    ensures IsDigit(c) == IsDigit(r) && IsSpace(c) == IsSpace(r)
    ensures !('A' <= r <= 'Z')
  {
    if 'A' <= c <= 'Z' then (c as int + 32) as char
    else if '\U{0410}' <= c <= '\U{042F}' then (c as int + 32) as char
    else if '\U{0400}' <= c <= '\U{040F}' then (c as int + 80) as char
    else c
  }

  lemma LowerCharIdempotent(c: char)
    ensures LowerChar(LowerChar(c)) == LowerChar(c)
  {
  }

  function Lower(s: string): (r: string)
    ensures |r| == |s|
    ensures forall i :: 0 <= i < |s| ==> r[i] == LowerChar(s[i])
  {
    seq(|s|, i requires 0 <= i < |s| => LowerChar(s[i]))
  }

  predicate IsLowerText(s: string) { forall i :: 0 <= i < |s| ==> LowerChar(s[i]) == s[i] }

  /** Lower-casing is idempotent, and what it returns is lower-case text. */
  lemma LowerIdempotent(s: string)
    ensures IsLowerText(Lower(s)) && Lower(Lower(s)) == Lower(s)
  {
    forall i | 0 <= i < |s| ensures LowerChar(LowerChar(s[i])) == LowerChar(s[i]) {
      LowerCharIdempotent(s[i]);
    }
  }

  lemma LowerOfLowerText(s: string)
    requires IsLowerText(s)
    ensures Lower(s) == s
  {
  }

  // ---------------------------------------------------------------------
  // Literal search

  /** The text `w` occurs in `s` starting at position `i`. */
  predicate StartsAt(s: string, i: nat, w: string) {
    i + |w| <= |s| && s[i..i + |w|] == w
  }

  /** `str.lower()` of the text matches `w`: how an IGNORECASE pattern's letters match. */
  predicate StartsAtIgnoreCase(s: string, i: nat, w: string) {
    i + |w| <= |s| && Lower(s[i..i + |w|]) == w
  }

  /** First occurrence of `w` in `s` at or after `from`. */
  function IndexOf(s: string, w: string, from: nat): (r: Option<nat>)
    decreases |s| + 1 - from
    ensures r.Some? ==> from <= r.value <= |s| && StartsAt(s, r.value, w)
    ensures r.Some? ==> forall q :: from <= q < r.value ==> !StartsAt(s, q, w)
    ensures r.None? ==> forall q :: from <= q ==> !StartsAt(s, q, w)
  {
    if from > |s| then None
    else if StartsAt(s, from, w) then Some(from)
    else IndexOf(s, w, from + 1)
  }

  /** Python's `w in s` for strings. */
  predicate Contains(s: string, w: string) { IndexOf(s, w, 0).Some? }

  /** `w` does not start where its first character is missing. */
  lemma NotStartsAt(s: string, i: nat, w: string)
    requires w != [] && i < |s| && s[i] != w[0]
    ensures !StartsAt(s, i, w)
  {
    if i + |w| <= |s| {
      assert s[i..i + |w|][0] == s[i];
    }
  }

  /** Text without the first character of `w` does not contain `w`. */
  lemma NotContainsChar(s: string, w: string)
    requires w != [] && forall k :: 0 <= k < |s| ==> s[k] != w[0]
    ensures !Contains(s, w)
  {
    forall q | 0 <= q ensures !StartsAt(s, q, w) {
      if q < |s| {
        NotStartsAt(s, q, w);
      }
    }
  }

  lemma ContainsAt(s: string, w: string, i: nat)
    requires StartsAt(s, i, w)
    ensures Contains(s, w)
  {
  }

  lemma ContainsSelf(s: string)
    ensures Contains(s, s)
  {
    assert StartsAt(s, 0, s);
  }

  predicate ContainsAny(s: string, ws: seq<string>) {
    exists k :: 0 <= k < |ws| && Contains(s, ws[k])
  }

  predicate StartsWithAny(s: string, i: nat, ws: seq<string>) {
    exists k :: 0 <= k < |ws| && StartsAt(s, i, ws[k])
  }

  /** Longest prefix of `s` that does not contain `c`: the end of the line holding `i`. */
  function CharIndex(s: string, c: char, from: nat): (r: nat)
    decreases |s| - from
    ensures r >= from || (from > |s| && r == |s|)
    ensures r <= |s|
    ensures forall k :: from <= k < r ==> s[k] != c
    ensures r == |s| || s[r] == c
  {
    if from >= |s| then |s|
    else if s[from] == c then from
    else CharIndex(s, c, from + 1)
  }

  /** Position of the first newline at or after `i`, or the end of the text. */
  function LineEnd(s: string, i: nat): (r: nat)
    ensures r <= |s|
    ensures i <= |s| ==> i <= r
    ensures forall k :: i <= k < r ==> s[k] != '\n'
    ensures r == |s| || s[r] == '\n'
  {
    CharIndex(s, '\n', i)
  }

  // ---------------------------------------------------------------------
  // Runs of characters

  function DigitRunEnd(s: string, i: nat): (j: nat)
    requires i <= |s|
    decreases |s| - i
    ensures i <= j <= |s|
    ensures j == |s| || !IsDigit(s[j])
  {
    if i < |s| && IsDigit(s[i]) then DigitRunEnd(s, i + 1) else i
  }

  /** Every character of the run is a digit. */
  lemma {:induction false} DigitRunDigits(s: string, i: nat)
    requires i <= |s|
    ensures forall k :: i <= k < DigitRunEnd(s, i) ==> IsDigit(s[k])
    decreases |s| - i
  {
    if i < |s| && IsDigit(s[i]) { DigitRunDigits(s, i + 1); }
  }

  function SpaceRunEnd(s: string, i: nat): (j: nat)
    requires i <= |s|
    decreases |s| - i
    ensures i <= j <= |s|
    ensures j == |s| || !IsSpace(s[j])
  {
    if i < |s| && IsSpace(s[i]) then SpaceRunEnd(s, i + 1) else i
  }

  /** Every character of the run is whitespace. */
  lemma {:induction false} SpaceRunSpaces(s: string, i: nat)
    requires i <= |s|
    ensures forall k :: i <= k < SpaceRunEnd(s, i) ==> IsSpace(s[k])
    decreases |s| - i
  {
    if i < |s| && IsSpace(s[i]) { SpaceRunSpaces(s, i + 1); }
  }

  lemma {:induction false} SpaceRunExact(s: string, i: nat, j: nat)
    requires i <= j <= |s|
    requires forall k :: i <= k < j ==> IsSpace(s[k])
    requires j == |s| || !IsSpace(s[j])
    ensures SpaceRunEnd(s, i) == j
    decreases j - i
  {
    if i < j { SpaceRunExact(s, i + 1, j); }
  }

  /** A run of whitespace from `k` stops before a non-space at `m - 1`. */
  lemma {:induction false} SpaceRunStopsBefore(s: string, k: nat, m: nat)
    requires k < m <= |s| && !IsSpace(s[m - 1])
    ensures SpaceRunEnd(s, k) < m
    decreases m - k
  {
    if IsSpace(s[k]) { SpaceRunStopsBefore(s, k + 1, m); }
  }

  /** The class `[:\s]` used by several patterns. */
  predicate IsColonOrSpace(c: char) { c == ':' || IsSpace(c) }

  function ColonSpaceRunEnd(s: string, i: nat): (j: nat)
    requires i <= |s|
    decreases |s| - i
    ensures i <= j <= |s|
    ensures forall k :: i <= k < j ==> IsColonOrSpace(s[k])
    ensures j == |s| || !IsColonOrSpace(s[j])
  {
    if i < |s| && IsColonOrSpace(s[i]) then ColonSpaceRunEnd(s, i + 1) else i
  }

  // ---------------------------------------------------------------------
  // Decimal numbers

  function DigitValue(c: char): nat
    requires IsDigit(c)
  {
    c as int - '0' as int
  }

  function DigitChar(d: nat): (c: char)
    requires d < 10
    ensures IsDigit(c) && DigitValue(c) == d
  {
    ('0' as int + d) as char
  }

  /** Python's `int(ds)` for a string of ASCII digits (leading zeros allowed). */
  function DigitsValue(ds: string): nat
    requires AllDigits(ds)
  {
    if ds == [] then 0 else DigitsValue(ds[..|ds| - 1]) * 10 + DigitValue(ds[|ds| - 1])
  }

  /** The value of the maximal run of digits starting at `i`. */
  function NumberAt(s: string, i: nat): nat
    requires i <= |s|
  {
    DigitRunDigits(s, i);
    DigitsValue(s[i..DigitRunEnd(s, i)])
  }

  /** Python's `str(n)` for a natural number. */
  function NatToString(n: nat): (r: string)
    ensures |r| > 0 && AllDigits(r)
  {
    if n < 10 then [DigitChar(n)] else NatToString(n / 10) + [DigitChar(n % 10)]
  }

  function IntToString(n: int): string {
    if n < 0 then "-" + NatToString(-n) else NatToString(n)
  }

  /** Reading back a number that was written out gives the number. */
  lemma {:induction false} NatToStringRoundTrip(n: nat)
    ensures DigitsValue(NatToString(n)) == n
  {
    if n >= 10 {
      var r := NatToString(n);
      assert r[..|r| - 1] == NatToString(n / 10);
      NatToStringRoundTrip(n / 10);
    }
  }

  /** The run of digits starting at the start of a written number ends where the number ends. */
  lemma NumberAtWritten(n: nat, tail: string)
    requires tail == [] || !IsDigit(tail[0])
    ensures DigitRunEnd(NatToString(n) + tail, 0) == |NatToString(n)|
    ensures NumberAt(NatToString(n) + tail, 0) == n
  {
    var d := NatToString(n);
    var s := d + tail;
    DigitRunPrefix(s, 0, |d|);
    assert s[0..|d|] == d;
    NatToStringRoundTrip(n);
  }

  lemma {:induction false} DigitRunPrefix(s: string, i: nat, j: nat)
    requires i <= j <= |s|
    requires forall k :: i <= k < j ==> IsDigit(s[k])
    requires j == |s| || !IsDigit(s[j])
    ensures DigitRunEnd(s, i) == j
    decreases j - i
  {
    if i < j { DigitRunPrefix(s, i + 1, j); }
  }

  lemma ConcatAssoc<T>(x: seq<T>, y: seq<T>, z: seq<T>)
    ensures x + y + z == x + (y + z)
  {
  }

  /** Dropping past a prefix drops inside what follows it. */
  lemma DropPastPrefix(x: string, y: string, k: nat)
    requires k <= |y|
    ensures (x + y)[|x| + k..] == y[k..]
  {
  }

  /** The whitespace run at a position inside `y` ends where it ends in `y`, whatever precedes `y`. */
  lemma SpaceRunEndShift(x: string, y: string, k: nat)
    requires k <= |y|
    ensures SpaceRunEnd(x + y, |x| + k) == |x| + SpaceRunEnd(y, k)
  {
    var j := SpaceRunEnd(y, k);
    SpaceRunSpaces(y, k);
    var s := x + y;
    forall i | |x| + k <= i < |x| + j
      ensures IsSpace(s[i])
    {
      assert s[i] == y[i - |x|];
    }
    if |x| + j < |s| {
      assert s[|x| + j] == y[j];
    }
    SpaceRunExact(s, |x| + k, |x| + j);
  }

  /** The digit run at a position inside `y` ends where it ends in `y`, whatever precedes `y`. */
  lemma DigitRunEndShift(x: string, y: string, k: nat)
    requires k <= |y|
    ensures DigitRunEnd(x + y, |x| + k) == |x| + DigitRunEnd(y, k)
  {
    var j := DigitRunEnd(y, k);
    DigitRunDigits(y, k);
    var s := x + y;
    forall i | |x| + k <= i < |x| + j
      ensures IsDigit(s[i])
    {
      assert s[i] == y[i - |x|];
    }
    if |x| + j < |s| {
      assert s[|x| + j] == y[j];
    }
    DigitRunPrefix(s, |x| + k, |x| + j);
  }

  lemma NumberAtShift(x: string, y: string, k: nat)
    requires k <= |y|
    ensures NumberAt(x + y, |x| + k) == NumberAt(y, k)
  {
    DigitRunEndShift(x, y, k);
    var j := DigitRunEnd(y, k);
    assert (x + y)[|x| + k..|x| + j] == y[k..j];
  }

  // ---------------------------------------------------------------------
  // Strip, split, join, replace

  /** The text without its leading whitespace. */
  function LStrip(s: string): (r: string)
    ensures |r| <= |s| && r == s[|s| - |r|..]
    ensures r == [] || !IsSpace(r[0])
  {
    s[SpaceRunEnd(s, 0)..]
  }

  /** Where the whitespace that ends `s[..j]` begins. */
  function TrailingSpaceStart(s: string, j: nat): (i: nat)
    requires j <= |s|
    ensures i <= j
    ensures i == 0 || !IsSpace(s[i - 1])
  {
    if j > 0 && IsSpace(s[j - 1]) then TrailingSpaceStart(s, j - 1) else j
  }

  /** The text without its trailing whitespace. */
  function RStrip(s: string): (r: string)
    ensures |r| <= |s| && r == s[..|r|]
    ensures r == [] || !IsSpace(r[|r| - 1])
  {
    s[..TrailingSpaceStart(s, |s|)]
  }

  /** Python's `str.strip()`. */
  function Strip(s: string): (r: string)
    ensures r == [] || (!IsSpace(r[0]) && !IsSpace(r[|r| - 1]))
    ensures |r| <= |s|
  {
    RStrip(LStrip(s))
  }

  /** Text that neither starts nor ends in whitespace is its own stripped form. */
  lemma StripNoEdgeSpace(s: string)
    requires s == [] || (!IsSpace(s[0]) && !IsSpace(s[|s| - 1]))
    ensures Strip(s) == s
  {
    assert LStrip(s) == s;
  }

  /** Text that does not end in whitespace is its own right-stripped form. */
  lemma RStripNoTrailingSpace(s: string)
    requires s == [] || !IsSpace(s[|s| - 1])
    ensures RStrip(s) == s
  {
  }

  /** Stripping twice is stripping once. */
  lemma StripStripped(s: string)
    ensures Strip(Strip(s)) == Strip(s)
  {
    StripNoEdgeSpace(Strip(s));
  }

  lemma StripNoSpace(s: string)
    requires NoSpace(s)
    ensures Strip(s) == s
  {
  }

  /** Python's `s.split(c)`: the pieces between the separators, at least one. */
  function Split(s: string, c: char): (r: seq<string>)
    decreases |s|
    ensures |r| >= 1
    ensures forall k :: 0 <= k < |r| ==> c !in r[k]
  {
    var i := CharIndex(s, c, 0);
    if i == |s| then
      assert forall k :: 0 <= k < |s| ==> s[k] != c;
      [s]
    else [s[..i]] + Split(s[i + 1..], c)
  }

  /** Python's `sep.join(parts)`. */
  function Join(parts: seq<string>, sep: string): string {
    if |parts| == 0 then ""
    else if |parts| == 1 then parts[0]
    else parts[0] + sep + Join(parts[1..], sep)
  }

  /** Joining the pieces of a split with the separator gives back the text. */
  lemma {:induction false} JoinSplit(s: string, c: char)
    ensures Join(Split(s, c), [c]) == s
    decreases |s|
  {
    var i := CharIndex(s, c, 0);
    if i < |s| {
      JoinSplit(s[i + 1..], c);
      assert s == s[..i] + [c] + s[i + 1..];
    }
  }

  /** Splitting at one separator splits the two sides independently. */
  lemma {:induction false} SplitAround(a: string, b: string, c: char)
    ensures Split(a + [c] + b, c) == Split(a, c) + Split(b, c)
    decreases |a|
  {
    var s := a + [c] + b;
    var i := CharIndex(s, c, 0);
    var ia := CharIndex(a, c, 0);
    if ia == |a| {
      assert forall k :: 0 <= k < |a| ==> s[k] != c;
      assert s[|a|] == c;
      CharIndexFirst(s, c, 0, |a|);
      assert s[..i] == a && s[i + 1..] == b;
    } else {
      CharIndexFirst(s, c, 0, ia);
      assert s[..i] == a[..ia];
      assert s[i + 1..] == a[ia + 1..] + [c] + b;
      SplitAround(a[ia + 1..], b, c);
      ConcatAssoc([a[..ia]], Split(a[ia + 1..], c), Split(b, c));
    }
  }

  lemma {:induction false} CharIndexFirst(s: string, c: char, from: nat, j: nat)
    requires from <= j < |s| && s[j] == c
    requires forall k :: from <= k < j ==> s[k] != c
    ensures CharIndex(s, c, from) == j
    decreases j - from
  {
    if from < j { CharIndexFirst(s, c, from + 1, j); }
  }

  /** Python's `s.replace(a, b)` for single characters. */
  function ReplaceChar(s: string, a: char, b: char): (r: string)
    ensures |r| == |s|
    ensures forall i :: 0 <= i < |s| ==> r[i] == (if s[i] == a then b else s[i])
  {
    seq(|s|, i requires 0 <= i < |s| => if s[i] == a then b else s[i])
  }

  function Sum(xs: seq<int>): int {
    if xs == [] then 0 else Sum(xs[..|xs| - 1]) + xs[|xs| - 1]
  }

  lemma {:induction false} SumAppend(xs: seq<int>, ys: seq<int>)
    ensures Sum(xs + ys) == Sum(xs) + Sum(ys)
    decreases |ys|
  {
    if ys != [] {
      assert (xs + ys)[..|xs + ys| - 1] == xs + ys[..|ys| - 1];
      assert (xs + ys)[|xs + ys| - 1] == ys[|ys| - 1];
      assert Sum(xs + ys) == Sum(xs + ys[..|ys| - 1]) + ys[|ys| - 1];
      SumAppend(xs, ys[..|ys| - 1]);
    } else {
      assert xs + ys == xs;
    }
  }

  function Repeat<T>(x: T, n: nat): (r: seq<T>)
    ensures |r| == n && forall i :: 0 <= i < n ==> r[i] == x
  {
    if n == 0 then [] else Repeat(x, n - 1) + [x]
  }

  /** A ladder of n equal rungs sums to n times the rung. */
  lemma {:induction false} SumRepeat(x: nat, n: nat)
    ensures Sum(Repeat<nat>(x, n)) == x * n
  {
    if n > 0 {
      assert Repeat<nat>(x, n)[..n - 1] == Repeat<nat>(x, n - 1);
      SumRepeat(x, n - 1);
    }
  }

  // ---------------------------------------------------------------------
  // The two regular-expression drivers

  /** `re.search`: the leftmost position at or after `from` where `at` fires. */
  function FirstMatch<T>(s: string, at: (string, nat) -> Option<T>, from: nat): (r: Option<(nat, T)>)
    decreases |s| + 1 - from
    ensures r.Some? ==> from <= r.value.0 <= |s| && at(s, r.value.0) == Some(r.value.1)
    ensures r.Some? ==> forall q :: from <= q < r.value.0 ==> at(s, q).None?
    ensures r.None? ==> forall q :: from <= q <= |s| ==> at(s, q).None?
  {
    if from > |s| then None
    else match at(s, from)
      case Some(v) => Some((from, v))
      case None => FirstMatch(s, at, from + 1)
  }

  /** The search stops at the first position where the matcher fires. */
  lemma FirstMatchAt<T>(s: string, at: (string, nat) -> Option<T>, from: nat, p: nat)
    requires from <= p <= |s| && at(s, p).Some?
    requires forall q :: from <= q < p ==> at(s, q).None?
    ensures FirstMatch(s, at, from) == Some((p, at(s, p).value))
  {
  }

  /** Where a match of `m` starting at `p` ends; a match that does not advance inside the text counts as none. */
  function MatchEnd(m: (string, nat) -> Option<nat>, s: string, p: nat): (r: Option<nat>)
    ensures r.Some? ==> p < r.value <= |s|
    ensures m(s, p).None? ==> r.None?
  {
    match m(s, p)
    case Some(e) => if p < e <= |s| then Some(e) else None
    case None => None
  }

  /** `re.sub(pattern, rep, s[p..])` where `m` says where a match starting at a position ends. */
  function SubFrom(s: string, m: (string, nat) -> Option<nat>, rep: string, p: nat): string
    requires p <= |s|
    decreases |s| - p
  {
    if p == |s| then []
    else match MatchEnd(m, s, p)
      case Some(e) => rep + SubFrom(s, m, rep, e)
      case None => [s[p]] + SubFrom(s, m, rep, p + 1)
  }

  /** Text where no match starts is copied unchanged. */
  lemma {:induction false} SubFromSkip(s: string, m: (string, nat) -> Option<nat>, rep: string, p: nat, q: nat)
    requires p <= q <= |s|
    requires forall k :: p <= k < q ==> m(s, k).None?
    ensures SubFrom(s, m, rep, p) == s[p..q] + SubFrom(s, m, rep, q)
    decreases q - p
  {
    if p < q {
      SubFromCopies(s, m, rep, p);
      SubFromSkip(s, m, rep, p + 1, q);
      var rest := SubFrom(s, m, rep, q);
      assert [s[p]] + (s[p + 1..q] + rest) == ([s[p]] + s[p + 1..q]) + rest;
      assert s[p..q] == [s[p]] + s[p + 1..q];
    }
  }

  /** A substitution with exactly one match, from `i` to `e`, replaces just that stretch. */
  lemma SubFromOneMatch(s: string, m: (string, nat) -> Option<nat>, rep: string, i: nat, e: nat)
    requires i < e <= |s| && MatchEnd(m, s, i) == Some(e)
    requires forall k :: 0 <= k < i ==> m(s, k).None?
    requires forall k :: e <= k < |s| ==> m(s, k).None?
    ensures SubFrom(s, m, rep, 0) == s[..i] + rep + s[e..]
  {
    SubFromSkip(s, m, rep, 0, i);
    SubFromSkip(s, m, rep, e, |s|);
    assert s[0..i] == s[..i] && s[e..|s|] == s[e..];
  }

  /** A position where no match starts is copied. */
  lemma SubFromCopies(s: string, m: (string, nat) -> Option<nat>, rep: string, p: nat)
    requires p < |s| && m(s, p).None?
    ensures SubFrom(s, m, rep, p) == [s[p]] + SubFrom(s, m, rep, p + 1)
  {
    assert MatchEnd(m, s, p).None?;
  }

  /** A substitution that never matches is the identity. */
  lemma SubFromNoMatch(s: string, m: (string, nat) -> Option<nat>, rep: string)
    requires forall k :: 0 <= k < |s| ==> m(s, k).None?
    ensures SubFrom(s, m, rep, 0) == s
  {
    SubFromSkip(s, m, rep, 0, |s|);
  }

  /**
   * Every character of a substitution's output is either a character of the
   * replacement or an unmatched character of the input.
   */
  lemma {:induction false} SubFromChars(s: string, m: (string, nat) -> Option<nat>, rep: string, p: nat, P: char -> bool)
    requires p <= |s|
    requires forall i :: 0 <= i < |rep| ==> P(rep[i])
    requires forall k :: p <= k < |s| && MatchEnd(m, s, k).None? ==> P(s[k])
    ensures forall i :: 0 <= i < |SubFrom(s, m, rep, p)| ==> P(SubFrom(s, m, rep, p)[i])
    decreases |s| - p
  {
    if p < |s| {
      match MatchEnd(m, s, p)
      case Some(e) => SubFromChars(s, m, rep, e, P);
      case None => SubFromChars(s, m, rep, p + 1, P);
    }
  }

  /** The output of a substitution is never longer than the input when the replacement is empty. */
  lemma {:induction false} SubFromShrinks(s: string, m: (string, nat) -> Option<nat>, p: nat)
    requires p <= |s|
    ensures |SubFrom(s, m, "", p)| <= |s| - p
    decreases |s| - p
  {
    if p < |s| {
      match MatchEnd(m, s, p)
      case Some(e) => SubFromShrinks(s, m, e);
      case None => SubFromShrinks(s, m, p + 1);
    }
  }

  /** With an empty replacement, a match anywhere ahead makes the output strictly shorter. */
  lemma {:induction false} SubFromShrinksStrictly(s: string, m: (string, nat) -> Option<nat>, p: nat, k: nat)
    requires p <= k < |s| && MatchEnd(m, s, k).Some?
    ensures |SubFrom(s, m, "", p)| < |s| - p
    decreases |s| - p
  {
    match MatchEnd(m, s, p)
    case Some(e) => SubFromShrinks(s, m, e);
    case None => SubFromShrinksStrictly(s, m, p + 1, k);
  }

  /** Shifting a match end by an offset (a match found in a suffix, seen from the whole text). */
  function Shift(r: Option<nat>, d: nat): Option<nat> {
    match r
    case Some(e) => Some(e + d)
    case None => None
  }

  /**
   * A substitution over `x + y` is the two substitutions concatenated, when
   * matches seen from the whole text are the matches seen in each part.
   */
  lemma SubFromConcat(x: string, y: string, m: (string, nat) -> Option<nat>, rep: string)
    requires forall k :: 0 <= k < |x| ==> MatchEnd(m, x + y, k) == MatchEnd(m, x, k)
    requires forall k :: 0 <= k < |y| ==> MatchEnd(m, x + y, |x| + k) == Shift(MatchEnd(m, y, k), |x|)
    ensures SubFrom(x + y, m, rep, 0) == SubFrom(x, m, rep, 0) + SubFrom(y, m, rep, 0)
  {
    SubFromConcatLeft(x, y, m, rep, 0);
    SubFromConcatRight(x, y, m, rep, 0);
  }

  lemma {:induction false} SubFromConcatLeft(x: string, y: string, m: (string, nat) -> Option<nat>, rep: string, p: nat)
    requires p <= |x|
    requires forall k :: 0 <= k < |x| ==> MatchEnd(m, x + y, k) == MatchEnd(m, x, k)
    ensures SubFrom(x + y, m, rep, p) == SubFrom(x, m, rep, p) + SubFrom(x + y, m, rep, |x|)
    decreases |x| - p
  {
    if p < |x| {
      var s := x + y;
      assert s[p] == x[p];
      assert MatchEnd(m, s, p) == MatchEnd(m, x, p);
      match MatchEnd(m, x, p)
      case Some(e) =>
        assert SubFrom(s, m, rep, p) == rep + SubFrom(s, m, rep, e) by {
          assert MatchEnd(m, s, p) == Some(e);
        }
        assert SubFrom(x, m, rep, p) == rep + SubFrom(x, m, rep, e);
        SubFromConcatLeft(x, y, m, rep, e);
        ConcatAssoc(rep, SubFrom(x, m, rep, e), SubFrom(s, m, rep, |x|));
      case None =>
        assert SubFrom(s, m, rep, p) == [s[p]] + SubFrom(s, m, rep, p + 1) by {
          assert MatchEnd(m, s, p).None?;
        }
        assert SubFrom(x, m, rep, p) == [x[p]] + SubFrom(x, m, rep, p + 1);
        SubFromConcatLeft(x, y, m, rep, p + 1);
        ConcatAssoc([x[p]], SubFrom(x, m, rep, p + 1), SubFrom(s, m, rep, |x|));
    }
  }

  lemma {:induction false} SubFromConcatRight(x: string, y: string, m: (string, nat) -> Option<nat>, rep: string, q: nat)
    requires q <= |y|
    requires forall k :: 0 <= k < |y| ==> MatchEnd(m, x + y, |x| + k) == Shift(MatchEnd(m, y, k), |x|)
    ensures SubFrom(x + y, m, rep, |x| + q) == SubFrom(y, m, rep, q)
    decreases |y| - q
  {
    if q < |y| {
      var s := x + y;
      assert s[|x| + q] == y[q];
      assert MatchEnd(m, s, |x| + q) == Shift(MatchEnd(m, y, q), |x|);
      match MatchEnd(m, y, q)
      case Some(e) =>
        assert SubFrom(s, m, rep, |x| + q) == rep + SubFrom(s, m, rep, |x| + e);
        assert SubFrom(y, m, rep, q) == rep + SubFrom(y, m, rep, e);
        SubFromConcatRight(x, y, m, rep, e);
      case None =>
        assert SubFrom(s, m, rep, |x| + q) == [s[|x| + q]] + SubFrom(s, m, rep, |x| + q + 1);
        assert SubFrom(y, m, rep, q) == [y[q]] + SubFrom(y, m, rep, q + 1);
        SubFromConcatRight(x, y, m, rep, q + 1);
    }
  }
}
