/**
 * `extract_scheme`: what a workout's markdown says about its scheme — the
 * scheme type, the rep ladder under the `## Схема` heading, the number of
 * rounds, the timing, EMOM and Tabata notations, and the equipment line.
 *
 * Every regular expression of the source is a scanner here: a function
 * that says, for one start position, whether the pattern matches there
 * and what its groups hold, with Python's greedy and backtracking rules
 * worked out for that pattern. `FirstMatch` then plays `re.search`.
 * Case-insensitive searches run on the lower-cased text, which keeps every
 * position.
 *
 * The rest pattern is read as written (`RestOfAsWritten`): in its third
 * alternative the greedy `.*` leaves only the last digit of the number to
 * the group. `RestOf` is the corrected reading that takes the whole number.
 */
module WorkoutScheme {
  import opened Text

  /** The scheme dictionary `extract_scheme` returns. */
  datatype Scheme = Scheme(
    schemeType: string,
    pattern: string,
    repsPerSet: seq<nat>,
    totalReps: int,
    timePerRep: nat,
    restBetween: nat,
    sets: nat,
    equipment: Option<string>)

  const SchemeTypes: seq<string> := ["Лесенка", "EMOM", "Табата", "AMRAP", "RFT", "Custom"]

  // ---------------------------------------------------------------------
  // Scheme type

  /** The first of `types` whose lower-case name occurs in `lc`. */
  function FirstTypeIn(lc: string, types: seq<string>): (r: Option<string>)
    ensures r.Some? ==> r.value in types && Contains(lc, Lower(r.value))
    ensures r.None? ==> forall k :: 0 <= k < |types| ==> !Contains(lc, Lower(types[k]))
    ensures r.Some? && types != [] && Contains(lc, Lower(types[0])) ==> r.value == types[0]
  {
    if types == [] then None
    else if Contains(lc, Lower(types[0])) then Some(types[0])
    else FirstTypeIn(lc, types[1..])
  }

  /** The scheme type read from the lower-cased text, `''` when none is named. */
  function DetectType(lc: string): (r: string)
    ensures r == "" || r in SchemeTypes
  {
    match FirstTypeIn(lc, SchemeTypes)
    case Some(t) => t
    case None =>
      if Contains(lc, "лесенка") || Contains(lc, "ladder") then "Лесенка"
      else if Contains(lc, "emom") then "EMOM"
      else if Contains(lc, "табата") then "Табата"
      else if Contains(lc, "amrap") then "AMRAP"
      else if Contains(lc, "rft") || Contains(lc, "rounds for time") then "RFT"
      else ""
  }

  lemma {:induction false} LowerSchemeTypes()
    ensures Lower(SchemeTypes[0]) == "лесенка" && Lower(SchemeTypes[1]) == "emom"
    ensures Lower(SchemeTypes[2]) == "табата" && Lower(SchemeTypes[3]) == "amrap"
    ensures Lower(SchemeTypes[4]) == "rft" && Lower(SchemeTypes[5]) == "custom"
  {
  }

  /**
   * The type is the first listed type the text names; failing that,
   * "ladder" means a ladder and "rounds for time" means RFT; otherwise none.
   */
  lemma {:induction false} DetectTypeCases(lc: string)
    ensures FirstTypeIn(lc, SchemeTypes).Some? ==> DetectType(lc) == FirstTypeIn(lc, SchemeTypes).value
    ensures FirstTypeIn(lc, SchemeTypes).None? ==>
      DetectType(lc) ==
        if Contains(lc, "ladder") then "Лесенка"
        else if Contains(lc, "rounds for time") then "RFT"
        else ""
  {
    LowerSchemeTypes();
    if FirstTypeIn(lc, SchemeTypes).None? {
      assert !Contains(lc, Lower(SchemeTypes[0])) && !Contains(lc, Lower(SchemeTypes[1]));
      assert !Contains(lc, Lower(SchemeTypes[2])) && !Contains(lc, Lower(SchemeTypes[3]));
      assert !Contains(lc, Lower(SchemeTypes[4]));
    }
  }

  // ---------------------------------------------------------------------
  // The `## Схема` section

  /** `##\s*Схема` at `p` of the lower-cased text; the end of the match. */
  function SchemeHeadingAt(lc: string, p: nat): (r: Option<nat>)
    ensures r.Some? ==> p + 7 <= r.value <= |lc|
  {
    if StartsAt(lc, p, "##") then
      var q := SpaceRunEnd(lc, p + 2);
      if StartsAt(lc, q, "схема") then Some(q + 5) else None
    else None
  }

  /** `\n##\s` at `p`. */
  function SubHeadingAt(s: string, p: nat): (r: Option<nat>)
    ensures r.Some? ==> p + 4 <= r.value <= |s|
  {
    if StartsAt(s, p, "\n##") && p + 3 < |s| && IsSpace(s[p + 3]) then Some(p + 4) else None
  }

  /**
   * The text from the first `## Схема` heading (found in the lower-cased
   * text `lc`) up to the next `\n##\s` found from the heading's fourth
   * character on, or to the end; `''` when there is no such heading.
   */
  function SchemeSection(content: string, lc: string): (r: string)
    requires |lc| == |content|
    ensures r == [] <==> FirstMatch(lc, SchemeHeadingAt, 0).None?
    ensures r != [] ==> r == SectionFrom(content, FirstMatch(lc, SchemeHeadingAt, 0).value.0)
  {
    match FirstMatch(lc, SchemeHeadingAt, 0)
    case None => []
    case Some((start, _)) => SectionFrom(content, start)
  }

  /**
   * The section starting at `start`: it runs up to the next `\n##\s`
   * found from `start + 3` on, or to the end, and holds no such heading
   * in between.
   */
  function SectionFrom(content: string, start: nat): (r: string)
    requires start + 7 <= |content|
    ensures |r| >= 3 && start + |r| <= |content| && r == content[start..start + |r|]
    ensures forall q :: start + 3 <= q < start + |r| ==> SubHeadingAt(content, q).None?
    ensures start + |r| == |content| || SubHeadingAt(content, start + |r|).Some?
  {
    match FirstMatch(content, SubHeadingAt, start + 3)
    case Some((k, _)) => content[start..k]
    case None => content[start..]
  }

  // ---------------------------------------------------------------------
  // The rep ladder `\d+(?:[-,]+\d+){2,}`

  predicate IsSep(c: char) { c == '-' || c == ',' }

  /** The end of the run of separators starting at `i`. */
  function SepRunEnd(s: string, i: nat): (j: nat)
    requires i <= |s|
    decreases |s| - i
    ensures i <= j <= |s|
  {
    if i < |s| && IsSep(s[i]) then SepRunEnd(s, i + 1) else i
  }

  /** The end of the run of digits starting at `i`, as the ladder scanner takes it. */
  function NumberEnd(s: string, i: nat): (j: nat)
    requires i <= |s|
    decreases |s| - i
    ensures i <= j <= |s|
  {
    if i < |s| && IsDigit(s[i]) then NumberEnd(s, i + 1) else i
  }

  lemma {:induction false} NumberEndExact(s: string, i: nat, j: nat)
    requires i <= j <= |s|
    requires forall k :: i <= k < j ==> IsDigit(s[k])
    requires j == |s| || !IsDigit(s[j])
    ensures NumberEnd(s, i) == j
    decreases j - i
  {
    if i < j { NumberEndExact(s, i + 1, j); }
  }

  /** The text holds `w` at position `i`, character by character. */
  predicate HoldsAt(s: string, i: nat, w: string) {
    i + |w| <= |s| && forall k {:trigger w[k]} :: 0 <= k < |w| ==> s[i + k] == w[k]
  }

  /** A non-empty run of digits, as a number is written. */
  predicate IsNumeral(d: string) {
    d != [] && AllDigits(d)
  }

  /** A number written at `i` and not followed by a digit is one digit run. */
  lemma {:induction false} WrittenNumberEnd(s: string, i: nat, d: string)
    requires IsNumeral(d)
    requires HoldsAt(s, i, d)
    requires i + |d| == |s| || !IsDigit(s[i + |d|])
    ensures NumberEnd(s, i) == i + |d|
  {
    forall k | i <= k < i + |d|
      ensures IsDigit(s[k])
    {
      assert s[i + (k - i)] == d[k - i];
    }
    NumberEndExact(s, i, i + |d|);
  }

  /** Where a run of ladder tails ends, and how many tails it has. */
  datatype Tails = Tails(end: nat, count: nat)

  /**
   * `(?:[-,]+\d+)*` taken greedily from `a`: where the last tail ends and
   * how many tails there are.
   */
  function ChainTails(s: string, a: nat): (r: Tails)
    requires a <= |s|
    decreases |s| - a
    ensures a <= r.end <= |s|
  {
    var b := SepRunEnd(s, a);
    if b > a && b < |s| && IsDigit(s[b]) then
      var t := ChainTails(s, NumberEnd(s, b));
      Tails(t.end, t.count + 1)
    else Tails(a, 0)
  }

  /** `\d+(?:[-,]+\d+){2,}` at `p`: a number followed by at least two more, each after separators. */
  function ChainAt(s: string, p: nat): (r: Option<nat>)
    ensures r.Some? ==> p < r.value <= |s|
  {
    if p < |s| && IsDigit(s[p]) then
      var t := ChainTails(s, NumberEnd(s, p));
      if t.count >= 2 then Some(t.end) else None
    else None
  }

  /** `re.findall(r'\d+', s[i..])` converted with `int`. */
  function DigitRuns(s: string, i: nat): seq<nat>
    requires i <= |s|
    decreases |s| - i
  {
    if i == |s| then []
    else if IsDigit(s[i]) then [NumberAt(s, i)] + DigitRuns(s, DigitRunEnd(s, i))
    else DigitRuns(s, i + 1)
  }

  /** The ladder's reps: its numbers, read after the separators became spaces. */
  function LadderReps(chain: string): seq<nat> {
    DigitRuns(ReplaceChar(ReplaceChar(chain, '-', ' '), ',', ' '), 0)
  }

  /** The pattern text and the reps per set that `extract_scheme` reads from the scheme section. */
  datatype Pattern = Pattern(text: string, reps: seq<nat>)

  /** The pattern, empty when the section holds no ladder. */
  function PatternOf(content: string, lc: string): (r: Pattern)
    requires |lc| == |content|
    ensures r.reps == LadderReps(r.text)
    ensures SchemeSection(content, lc) == [] ==> r == Pattern([], [])
  {
    var section := SchemeSection(content, lc);
    assert LadderReps([]) == [];
    if section == [] then Pattern([], [])
    else
      match FirstMatch(section, ChainAt, 0)
      case None => Pattern([], [])
      case Some((p, e)) =>
        var chain := section[p..e];
        Pattern(chain, LadderReps(chain))
  }

  /** The numbers written out in decimal, joined by `c`. */
  function Ladder(ns: seq<nat>, c: char): (r: string)
    requires ns != []
    decreases |ns|
    ensures |r| > 0 && IsDigit(r[0])
  {
    if |ns| == 1 then NatToString(ns[0])
    else NatToString(ns[0]) + [c] + Ladder(ns[1..], c)
  }

  /** Reading digit runs from inside `y` does not depend on what precedes it. */
  lemma {:induction false} DigitRunsShift(x: string, y: string, k: nat)
    requires k <= |y|
    ensures DigitRuns(x + y, |x| + k) == DigitRuns(y, k)
    decreases |y| - k
  {
    if k < |y| {
      assert (x + y)[|x| + k] == y[k];
      if IsDigit(y[k]) {
        DigitRunEndShift(x, y, k);
        NumberAtShift(x, y, k);
        DigitRunsShift(x, y, DigitRunEnd(y, k));
      } else {
        DigitRunsShift(x, y, k + 1);
      }
    }
  }

  /** Reading the numbers back out of a written ladder gives the numbers. */
  lemma {:induction false} DigitRunsLadder(ns: seq<nat>, c: char)
    requires ns != [] && !IsDigit(c)
    ensures DigitRuns(Ladder(ns, c), 0) == ns
    decreases |ns|
  {
    var n := NatToString(ns[0]);
    if |ns| == 1 {
      NumberAtWritten(ns[0], []);
      assert n + [] == n;
    } else {
      var rest := Ladder(ns[1..], c);
      var s := n + ([c] + rest);
      assert Ladder(ns, c) == s;
      NumberAtWritten(ns[0], [c] + rest);
      assert DigitRuns(s, |n|) == DigitRuns(s, |n| + 1) by {
        assert s[|n|] == c;
      }
      assert s == (n + [c]) + rest;
      DigitRunsShift(n + [c], rest, 0);
      DigitRunsLadder(ns[1..], c);
    }
  }

  /** Digit runs are read the same way from two texts that agree on their digits. */
  lemma {:induction false} DigitRunsSameDigits(s: string, t: string, i: nat)
    requires |s| == |t| && i <= |s|
    requires forall k :: 0 <= k < |s| ==> IsDigit(s[k]) == IsDigit(t[k]) && (IsDigit(s[k]) ==> s[k] == t[k])
    ensures DigitRuns(s, i) == DigitRuns(t, i)
    decreases |s| - i
  {
    if i < |s| {
      if IsDigit(s[i]) {
        var j := DigitRunEnd(s, i);
        DigitRunDigits(s, i);
        DigitRunPrefix(t, i, j);
        assert s[i..j] == t[i..j];
        DigitRunsSameDigits(s, t, j);
      } else {
        DigitRunsSameDigits(s, t, i + 1);
      }
    }
  }

  lemma {:induction false} LadderRepsOfLadder(ns: seq<nat>, c: char)
    requires ns != [] && IsSep(c)
    ensures LadderReps(Ladder(ns, c)) == ns
  {
    var l := Ladder(ns, c);
    var t := ReplaceChar(ReplaceChar(l, '-', ' '), ',', ' ');
    DigitRunsSameDigits(l, t, 0);
    DigitRunsLadder(ns, c);
  }

  /** One step of the greedy tails: a separator run, then a number. */
  lemma {:induction false} ChainTailsStep(s: string, a: nat, b: nat, e: nat)
    requires a < b < |s| && SepRunEnd(s, a) == b && IsDigit(s[b]) && NumberEnd(s, b) == e
    ensures ChainTails(s, a) == Tails(ChainTails(s, e).end, ChainTails(s, e).count + 1)
  {
  }

  /** The greedy tails stop where no separator run followed by a digit starts. */
  lemma {:induction false} ChainTailsStop(s: string, a: nat, b: nat)
    requires a <= b <= |s| && SepRunEnd(s, a) == b && !(a < b < |s| && IsDigit(s[b]))
    ensures ChainTails(s, a) == Tails(a, 0)
  {
  }

  /** Separator runs read inside `y` do not depend on what precedes it. */
  lemma {:induction false} SepRunEndFrom(s: string, off: nat, y: string, k: nat)
    requires HoldsAt(s, off, y) && off + |y| == |s| && k <= |y|
    ensures SepRunEnd(s, off + k) == off + SepRunEnd(y, k)
    decreases |y| - k
  {
    if k < |y| {
      assert s[off + k] == y[k];
      if IsSep(y[k]) { SepRunEndFrom(s, off, y, k + 1); }
    }
  }

  /** Digit runs read inside `y` do not depend on what precedes it. */
  lemma {:induction false} NumberEndFrom(s: string, off: nat, y: string, k: nat)
    requires HoldsAt(s, off, y) && off + |y| == |s| && k <= |y|
    ensures NumberEnd(s, off + k) == off + NumberEnd(y, k)
    decreases |y| - k
  {
    if k < |y| {
      assert s[off + k] == y[k];
      if IsDigit(y[k]) { NumberEndFrom(s, off, y, k + 1); }
    }
  }

  /** The greedy tails read inside `y` do not depend on what precedes it. */
  lemma {:induction false} ChainTailsFrom(s: string, off: nat, y: string, k: nat)
    requires HoldsAt(s, off, y) && off + |y| == |s| && k <= |y|
    ensures ChainTails(s, off + k) == Tails(off + ChainTails(y, k).end, ChainTails(y, k).count)
    decreases |y| - k
  {
    var b := SepRunEnd(y, k);
    SepRunEndFrom(s, off, y, k);
    if b < |y| {
      assert s[off + b] == y[b];
    }
    if b > k && b < |y| && IsDigit(y[b]) {
      var e := NumberEnd(y, b);
      NumberEndFrom(s, off, y, b);
      ChainTailsFrom(s, off, y, e);
      ChainTailsStep(y, k, b, e);
      ChainTailsStep(s, off + k, off + b, off + e);
      TailsShifted(ChainTails(s, off + k), ChainTails(s, off + e), ChainTails(y, k), ChainTails(y, e), off);
    } else {
      ChainTailsStop(y, k, b);
      ChainTailsStop(s, off + k, off + b);
    }
  }

  /** Shifting a tails record commutes with counting one more tail. */
  lemma {:induction false} TailsShifted(sk: Tails, se: Tails, yk: Tails, ye: Tails, off: nat)
    requires se == Tails(off + ye.end, ye.count)
    requires yk == Tails(ye.end, ye.count + 1)
    requires sk == Tails(se.end, se.count + 1)
    ensures sk == Tails(off + yk.end, yk.count)
  {
  }

  /** The greedy tails read from the start of `y`, found at `off`. */
  lemma {:induction false} ChainTailsOf(s: string, off: nat, y: string)
    requires HoldsAt(s, off, y) && off + |y| == |s|
    ensures ChainTails(s, off) == Tails(off + ChainTails(y, 0).end, ChainTails(y, 0).count)
  {
    ChainTailsFrom(s, off, y, 0);
  }

  /** `s` is `x`, a written number, then `y`: the number is a digit run and `y` follows it. */
  lemma {:induction false} NumberThen(s: string, x: string, d: string, y: string)
    requires IsNumeral(d)
    requires s == x + d + y
    requires y == [] || !IsDigit(y[0])
    ensures NumberEnd(s, |x|) == |x| + |d|
  {
    forall k | 0 <= k < |d|
      ensures s[|x| + k] == d[k]
    {
    }
    if y != [] {
      assert s[|x| + |d|] == y[0];
    }
    WrittenNumberEnd(s, |x|, d);
  }

  /** `y` follows `x` in `x + y`. */
  lemma {:induction false} HoldsAfter(s: string, x: string, y: string)
    requires s == x + y
    ensures HoldsAt(s, |x|, y)
  {
  }

  /** The greedy tails read after `x` in `x + y` are those of `y`. */
  lemma {:induction false} ChainTailsOfConcat(s: string, x: string, y: string, off: nat)
    requires s == x + y && off == |x|
    ensures ChainTails(s, off) == Tails(off + ChainTails(y, 0).end, ChainTails(y, 0).count)
  {
    HoldsAfter(s, x, y);
    ChainTailsOf(s, off, y);
  }

  /** `s` is `x`, a written number, then `y`: the greedy tails after the number are those of `y`. */
  lemma {:induction false} NumberThenTails(s: string, x: string, d: string, y: string)
    requires IsNumeral(d)
    requires s == x + d + y
    requires y == [] || !IsDigit(y[0])
    ensures |x| < |s| && IsDigit(s[|x|])
    ensures NumberEnd(s, |x|) == |x| + |d|
    ensures ChainTails(s, |x| + |d|) ==
      Tails(|x| + |d| + ChainTails(y, 0).end, ChainTails(y, 0).count)
  {
    NumberThen(s, x, d, y);
    assert s[|x|] == d[0];
    ChainTailsOfConcat(s, x + d, y, |x| + |d|);
  }

  /** A separator and a number, then text whose tails are known: one tail more. */
  lemma {:induction false} TailsAfterNumber(c: char, d: string, u: string, m: nat, count: nat)
    requires IsNumeral(d)
    requires IsSep(c) && (u == [] || !IsDigit(u[0]))
    requires ChainTails(u, 0) == Tails(m, count)
    ensures ChainTails([c] + d + u, 0) == Tails(1 + |d| + m, count + 1)
  {
    var t := [c] + d + u;
    var e := 1 + |d|;
    SepAndNumber(t, c, d, u);
    ChainTailsStep(t, 0, 1, e);
    ChainTailsOfConcat(t, [c] + d, u, e);
    TailsPrepended(ChainTails(t, 0), ChainTails(t, e), ChainTails(u, 0), e);
  }

  lemma {:induction false} TailsPrepended(t0: Tails, te: Tails, u0: Tails, e: nat)
    requires te == Tails(e + u0.end, u0.count)
    requires t0 == Tails(te.end, te.count + 1)
    ensures t0 == Tails(e + u0.end, u0.count + 1)
  {
  }

  /** A separator and a number, then text that does not continue the chain: one tail. */
  lemma {:induction false} TailsOfLastNumber(c: char, d: string, post: string)
    requires IsNumeral(d)
    requires IsSep(c) && (post == [] || (!IsDigit(post[0]) && !IsSep(post[0])))
    ensures ChainTails([c] + d + post, 0) == Tails(1 + |d|, 1)
  {
    var t := [c] + d + post;
    var e := 1 + |d|;
    SepAndNumber(t, c, d, post);
    if post != [] {
      assert t[e] == post[0];
    }
    ChainTailsStep(t, 0, 1, e);
    assert SepRunEnd(t, e) == e;
    ChainTailsStop(t, e, e);
  }

  /** `[c] + d + y` starts with a separator and a number ending where `y` starts. */
  lemma {:induction false} SepAndNumber(t: string, c: char, d: string, y: string)
    requires IsNumeral(d)
    requires IsSep(c) && t == [c] + d + y
    requires y == [] || !IsDigit(y[0])
    ensures SepRunEnd(t, 0) == 1 && IsDigit(t[1])
    ensures NumberEnd(t, 1) == 1 + |d|
  {
    NumberThen(t, [c], d, y);
    assert t[1] == d[0];
    assert SepRunEnd(t, 0) == 1;
  }

  /**
   * A separator, a written ladder, then a text that does not start with a
   * digit or a separator: the greedy tails take every number.
   */
  lemma {:induction false} LadderTails(ns: seq<nat>, c: char, post: string)
    requires ns != [] && IsSep(c)
    requires post == [] || (!IsDigit(post[0]) && !IsSep(post[0]))
    ensures ChainTails([c] + Ladder(ns, c) + post, 0) == Tails(1 + |Ladder(ns, c)|, |ns|)
    decreases |ns|
  {
    if |ns| == 1 {
      LadderTailsOne(ns, c, post);
    } else {
      LadderTails(ns[1..], c, post);
      LadderTailsMore(ns, c, post);
    }
  }

  lemma {:induction false} LadderTailsOne(ns: seq<nat>, c: char, post: string)
    requires |ns| == 1 && IsSep(c)
    requires post == [] || (!IsDigit(post[0]) && !IsSep(post[0]))
    ensures ChainTails([c] + Ladder(ns, c) + post, 0) == Tails(1 + |Ladder(ns, c)|, 1)
  {
    assert [c] + Ladder(ns, c) + post == [c] + NatToString(ns[0]) + post;
    TailsOfLastNumber(c, NatToString(ns[0]), post);
  }

  lemma {:induction false} LadderTailsMore(ns: seq<nat>, c: char, post: string)
    requires |ns| > 1 && IsSep(c)
    requires ChainTails([c] + Ladder(ns[1..], c) + post, 0) == Tails(1 + |Ladder(ns[1..], c)|, |ns| - 1)
    ensures ChainTails([c] + Ladder(ns, c) + post, 0) == Tails(1 + |Ladder(ns, c)|, |ns|)
  {
    var d := NatToString(ns[0]);
    var l' := Ladder(ns[1..], c);
    var u := [c] + l' + post;
    assert [c] + Ladder(ns, c) + post == [c] + d + u;
    TailsAfterNumber(c, NatToString(ns[0]), u, 1 + |l'|, |ns| - 1);
  }

  /** A written ladder of at least three numbers, then neither a digit nor a separator, is a chain, and the whole of it. */
  lemma {:induction false} ChainAtLadder(pre: string, ns: seq<nat>, c: char, post: string)
    requires |ns| >= 3 && IsSep(c)
    requires post == [] || (!IsDigit(post[0]) && !IsSep(post[0]))
    ensures ChainAt(pre + Ladder(ns, c) + post, |pre|) == Some(|pre| + |Ladder(ns, c)|)
  {
    LadderSplit(pre, ns, c, post);
    ChainAtLadderSplit(pre, ns, c, post);
  }

  /** The same as a first number followed by the rest of the ladder. */
  lemma {:induction false} ChainAtLadderSplit(pre: string, ns: seq<nat>, c: char, post: string)
    requires |ns| >= 3 && IsSep(c)
    requires post == [] || (!IsDigit(post[0]) && !IsSep(post[0]))
    requires |Ladder(ns, c)| == |NatToString(ns[0])| + 1 + |Ladder(ns[1..], c)|
    ensures ChainAt(pre + NatToString(ns[0]) + ([c] + Ladder(ns[1..], c) + post), |pre|) == Some(|pre| + |Ladder(ns, c)|)
  {
    LadderTails(ns[1..], c, post);
    ChainAtNumberThen(pre, NatToString(ns[0]), [c] + Ladder(ns[1..], c) + post, 1 + |Ladder(ns[1..], c)|, |ns| - 1, |pre| + |Ladder(ns, c)|);
  }

  /** A ladder of more than one number is its first number, then the separator and the rest. */
  lemma {:induction false} LadderSplit(pre: string, ns: seq<nat>, c: char, post: string)
    requires |ns| > 1
    ensures pre + Ladder(ns, c) + post == pre + NatToString(ns[0]) + ([c] + Ladder(ns[1..], c) + post)
    ensures |Ladder(ns, c)| == |NatToString(ns[0])| + 1 + |Ladder(ns[1..], c)|
  {
    var d := NatToString(ns[0]);
    var l' := Ladder(ns[1..], c);
    assert Ladder(ns, c) == d + [c] + l';
    ConcatAssoc(d, [c], l');
    ConcatRegroup(pre, d, [c] + l', post);
  }

  lemma {:induction false} ConcatRegroup(a: string, b: string, x: string, y: string)
    ensures a + (b + x) + y == a + b + (x + y)
  {
  }

  /** A number, then text whose greedy tails are known to be at least two: a chain. */
  lemma {:induction false} ChainAtNumberThen(pre: string, d: string, u: string, m: nat, count: nat, v: nat)
    requires IsNumeral(d)
    requires u == [] || !IsDigit(u[0])
    requires ChainTails(u, 0) == Tails(m, count) && count >= 2
    requires v == |pre| + |d| + m
    ensures ChainAt(pre + d + u, |pre|) == Some(v)
  {
    var s := pre + d + u;
    var e := |pre| + |d|;
    NumberThenTails(s, pre, d, u);
    ChainAtFromTails(s, |pre|, e, ChainTails(s, e), ChainTails(u, 0), v);
  }

  /** A number at `p` followed by tails read from a text that holds them. */
  lemma {:induction false} ChainAtFromTails(s: string, p: nat, e: nat, te: Tails, u0: Tails, v: nat)
    requires p < |s| && IsDigit(s[p]) && NumberEnd(s, p) == e
    requires ChainTails(s, e) == te && te == Tails(e + u0.end, u0.count) && u0.count >= 2
    requires v == e + u0.end
    ensures ChainAt(s, p) == Some(v)
  {
  }

  /**
   * A scheme section whose first digit starts a written ladder of at least
   * three numbers has that ladder as its pattern, and exactly its numbers,
   * in order, as the reps per set.
   */
  lemma {:induction false} PatternOfLadder(content: string, lc: string, pre: string, ns: seq<nat>, c: char, post: string)
    requires |lc| == |content|
    requires |ns| >= 3 && IsSep(c)
    requires SchemeSection(content, lc) == pre + Ladder(ns, c) + post
    requires forall i :: 0 <= i < |pre| ==> !IsDigit(pre[i])
    requires post == [] || (!IsDigit(post[0]) && !IsSep(post[0]))
    ensures PatternOf(content, lc) == Pattern(Ladder(ns, c), ns)
  {
    var section := SchemeSection(content, lc);
    var l := Ladder(ns, c);
    ChainAtLadder(pre, ns, c, post);
    forall q | 0 <= q < |pre|
      ensures ChainAt(section, q).None?
    {
      assert section[q] == pre[q];
    }
    FirstMatchAt(section, ChainAt, 0, |pre|);
    assert section[|pre|..|pre| + |l|] == l;
    LadderRepsOfLadder(ns, c);
  }

  // ---------------------------------------------------------------------
  // Rounds

  const RoundWords: seq<string> := [
    "лесенок", "лесенки", "лесенка", "кругов", "круга", "круг",
    "раундов", "раунда", "раунд", "rounds", "round", "sets", "set", "ladders", "ladder"]

  /** `(\d+)\s*(?:лесенок|…|ladders?)` at `p`: the count. */
  function SetsAt(lc: string, p: nat): Option<nat> {
    if p < |lc| && IsDigit(lc[p]) then
      var b := SpaceRunEnd(lc, DigitRunEnd(lc, p));
      if StartsWithAny(lc, b, RoundWords) then Some(NumberAt(lc, p)) else None
    else None
  }

  /** The class `[:\s*]`. */
  predicate IsLabelSep(c: char) { c == ':' || c == '*' || IsSpace(c) }

  function LabelSepRunEnd(s: string, i: nat): (j: nat)
    requires i <= |s|
    decreases |s| - i
    ensures i <= j <= |s|
    ensures forall k :: i <= k < j ==> IsLabelSep(s[k])
    ensures j == |s| || !IsLabelSep(s[j])
  {
    if i < |s| && IsLabelSep(s[i]) then LabelSepRunEnd(s, i + 1) else i
  }

  /** `(?:w1|w2|…)[:\s*]+(\d+)` at `p`, the words tried in order. */
  function LabelledCountAt(lc: string, p: nat, words: seq<string>): Option<nat>
    decreases |words|
  {
    if words == [] then None
    else if StartsAt(lc, p, words[0]) then
      var a := p + |words[0]|;
      var b := LabelSepRunEnd(lc, a);
      if b > a && b < |lc| && IsDigit(lc[b]) then Some(NumberAt(lc, b))
      else LabelledCountAt(lc, p, words[1..])
    else LabelledCountAt(lc, p, words[1..])
  }

  /** The reversed rounds phrase, as in `**Кругов:** 10`. */
  function ReversedSetsAt(lc: string, p: nat): Option<nat> {
    LabelledCountAt(lc, p, RoundWords)
  }

  /** The rounds count: the first `N раундов` phrase, else the first `Раундов: N` phrase. */
  function RoundsOf(lc: string): (r: Option<nat>)
    ensures r.None? <==>
      (forall p :: 0 <= p <= |lc| ==> SetsAt(lc, p).None?) &&
      (forall p :: 0 <= p <= |lc| ==> ReversedSetsAt(lc, p).None?)
  {
    match FirstMatch(lc, SetsAt, 0)
    case Some((_, n)) => Some(n)
    case None =>
      match FirstMatch(lc, ReversedSetsAt, 0)
      case Some((_, n)) => Some(n)
      case None => None
  }

  /** Non-decreasing or non-increasing. */
  predicate Monotone(xs: seq<nat>) {
    (forall i :: 0 <= i < |xs| - 1 ==> xs[i] <= xs[i + 1]) ||
    (forall i :: 0 <= i < |xs| - 1 ==> xs[i] >= xs[i + 1])
  }

  /**
   * Whether the rounds count multiplies the total: not when a ladder's
   * count equals its number of rungs and the rungs are monotone (then the
   * count describes the rungs).
   */
  predicate ShouldMultiply(ty: string, reps: seq<nat>, sets: nat) {
    !(ty == "Лесенка" && reps != [] && sets == |reps| && Monotone(reps))
  }

  /** The total after the rounds rule. */
  function RoundsTotal(ty: string, reps: seq<nat>, total: int, rounds: Option<nat>): (r: int)
    ensures rounds.None? ==> r == total
    ensures rounds.Some? && total > 0 && ShouldMultiply(ty, reps, rounds.value) ==> r == total * rounds.value
    ensures rounds.Some? && !ShouldMultiply(ty, reps, rounds.value) ==> r == total
  {
    match rounds
    case Some(n) => if ShouldMultiply(ty, reps, n) && total > 0 then total * n else total
    case None => total
  }

  // ---------------------------------------------------------------------
  // Timing

  /** `.*на\s*повторение` from `j`: "на" later on the same line, then whitespace, then "повторение". */
  predicate PerRepFrom(lc: string, j: nat) {
    exists k :: j <= k < LineEnd(lc, j) && StartsAt(lc, k, "на") && StartsAt(lc, SpaceRunEnd(lc, k + 2), "повторение")
  }

  /** `(\d+)\s*сек.*на\s*повторение|time per rep[:\s]*(\d+)` at `p`: the seconds. */
  function TimePerRepAt(lc: string, p: nat): Option<nat> {
    if p < |lc| && IsDigit(lc[p]) then
      var b := SpaceRunEnd(lc, DigitRunEnd(lc, p));
      if StartsAt(lc, b, "сек") && PerRepFrom(lc, b + 3) then Some(NumberAt(lc, p)) else None
    else if StartsAt(lc, p, "time per rep") then
      var c := ColonSpaceRunEnd(lc, p + 12);
      if c < |lc| && IsDigit(lc[c]) then Some(NumberAt(lc, c)) else None
    else None
  }

  /** Seconds per rep, 3 unless the text says otherwise. */
  function TimePerRepOf(lc: string): nat {
    match FirstMatch(lc, TimePerRepAt, 0)
    case Some((_, n)) => n
    case None => 3
  }

  /** `.*отдых` from `j`: "отдых" later on the same line. */
  predicate RestWordFrom(lc: string, j: nat) {
    exists k :: j <= k < LineEnd(lc, j) && StartsAt(lc, k, "отдых")
  }

  /** A digit at `k` whose run is followed by optional whitespace and "сек". */
  predicate SecondsDigit(lc: string, k: nat) {
    k < |lc| && IsDigit(lc[k]) && StartsAt(lc, SpaceRunEnd(lc, DigitRunEnd(lc, k)), "сек")
  }

  /** `SecondsDigit` at the first digit of its run. */
  predicate SecondsNumber(lc: string, j: nat, k: nat) {
    SecondsDigit(lc, k) && (k == j || (0 < k && !IsDigit(lc[k - 1])))
  }

  /**
   * `.*(\d+)\s*сек` from `j` as Python runs it: the greedy `.*` leaves the
   * group the LAST qualifying digit on the line, a single digit of its number.
   * Searches the positions below `k`.
   */
  function GreedySeconds(lc: string, j: nat, k: nat): Option<nat>
    requires j <= k <= |lc|
    decreases k - j
  {
    if k == j then None
    else if SecondsDigit(lc, k - 1) then Some(NumberAt(lc, k - 1))
    else GreedySeconds(lc, j, k - 1)
  }

  /** The corrected reading: the last number on the line, whole, that is followed by "сек". */
  function WholeSeconds(lc: string, j: nat, k: nat): Option<nat>
    requires j <= k <= |lc|
    decreases k - j
  {
    if k == j then None
    else if SecondsNumber(lc, j, k - 1) then Some(NumberAt(lc, k - 1))
    else WholeSeconds(lc, j, k - 1)
  }

  /** `(\d+)\s*сек.*отдых|rest[:\s]*(\d+)` at `p`: the two alternatives the findings leave alone. */
  function RestLeadAt(lc: string, p: nat): Option<nat> {
    if p < |lc| && IsDigit(lc[p]) then
      var b := SpaceRunEnd(lc, DigitRunEnd(lc, p));
      if StartsAt(lc, b, "сек") && RestWordFrom(lc, b + 3) then Some(NumberAt(lc, p)) else None
    else if StartsAt(lc, p, "rest") then
      var c := ColonSpaceRunEnd(lc, p + 4);
      if c < |lc| && IsDigit(lc[c]) then Some(NumberAt(lc, c)) else None
    else None
  }

  /** The rest pattern as written, third alternative `отдых.*(\d+)\s*сек` included. */
  function RestAtAsWritten(lc: string, p: nat): Option<nat> {
    if StartsAt(lc, p, "отдых") then GreedySeconds(lc, p + 5, LineEnd(lc, p + 5))
    else RestLeadAt(lc, p)
  }

  /** The rest pattern with the third alternative reading the whole number. */
  function RestAt(lc: string, p: nat): Option<nat> {
    if StartsAt(lc, p, "отдых") then WholeSeconds(lc, p + 5, LineEnd(lc, p + 5))
    else RestLeadAt(lc, p)
  }

  /** `rest_between` as written: 60 unless a rest phrase is found, and then the first phrase's seconds. */
  function RestOfAsWritten(lc: string): (r: nat)
    ensures (forall p :: 0 <= p <= |lc| ==> RestAtAsWritten(lc, p).None?) ==> r == 60
    ensures r != 60 ==> exists p :: (0 <= p <= |lc| && RestAtAsWritten(lc, p) == Some(r) &&
      forall q :: 0 <= q < p ==> RestAtAsWritten(lc, q).None?)
  {
    match FirstMatch(lc, RestAtAsWritten, 0)
    case Some((_, n)) => n
    case None => 60
  }

  /** Seconds of rest between rounds, corrected: 60 unless the text says otherwise. */
  function RestOf(lc: string): (r: nat)
    ensures (forall p :: 0 <= p <= |lc| ==> RestAt(lc, p).None?) ==> r == 60
    ensures r != 60 ==> exists p :: 0 <= p <= |lc| && RestAt(lc, p) == Some(r)
  {
    match FirstMatch(lc, RestAt, 0)
    case Some((_, n)) => n
    case None => 60
  }

  /** `re.search` takes the leftmost rest phrase: its seconds are the rest, as written. */
  lemma LeftmostRestAsWritten(lc: string, p: nat)
    requires p <= |lc| && RestAtAsWritten(lc, p).Some?
    requires forall q :: 0 <= q < p ==> RestAtAsWritten(lc, q).None?
    ensures RestOfAsWritten(lc) == RestAtAsWritten(lc, p).value
  {
    FirstMatchAt(lc, RestAtAsWritten, 0, p);
  }

  /** The same for the corrected reading. */
  lemma LeftmostRest(lc: string, p: nat)
    requires p <= |lc| && RestAt(lc, p).Some?
    requires forall q :: 0 <= q < p ==> RestAt(lc, q).None?
    ensures RestOf(lc) == RestAt(lc, p).value
  {
    FirstMatchAt(lc, RestAt, 0, p);
  }

  /** The as-written rest pattern reads "отдых 30 сек" as zero seconds. */
  lemma {:induction false} RestAsWrittenDropsTens()
    ensures RestOfAsWritten("отдых 30 сек") == 0
  {
    var lc := "отдых 30 сек";
    assert StartsAt(lc, 0, "отдых");
    assert LineEnd(lc, 5) == |lc|;
    assert DigitRunEnd(lc, 7) == 8;
    assert SpaceRunEnd(lc, 8) == 9;
    assert lc[9..12] == "сек";
    assert SecondsDigit(lc, 7);
    assert lc[7..8] == "0";
    assert GreedySeconds(lc, 5, 8) == Some(0);
    assert !SecondsDigit(lc, 8) && !SecondsDigit(lc, 9) && !SecondsDigit(lc, 10) && !SecondsDigit(lc, 11);
    assert GreedySeconds(lc, 5, 12) == Some(0);
    assert RestAtAsWritten(lc, 0) == Some(0);
  }

  /** The corrected rest pattern reads "отдых N сек" as N seconds. */
  lemma {:induction false} RestReadsWholeNumber(n: nat)
    ensures RestOf("отдых " + NatToString(n) + " сек") == n
  {
    var d := NatToString(n);
    var lc := "отдых " + d + " сек";
    RestLineLayout(lc, d);
    RestLineNumber(lc, d, n);
    WholeSecondsSkip(lc, 5, 7, |lc|);
    assert WholeSeconds(lc, 5, 7) == Some(n);
    assert RestAt(lc, 0) == Some(n);
  }

  /** Where the parts of "отдых D сек" sit. */
  lemma {:induction false} RestLineLayout(lc: string, d: string)
    requires IsNumeral(d) && lc == "отдых " + d + " сек"
    ensures |lc| == 10 + |d| && StartsAt(lc, 0, "отдых")
    ensures forall i :: 0 <= i < |lc| ==> lc[i] != '\n'
    ensures !IsDigit(lc[5]) && lc[6..6 + |d|] == d
    ensures forall i :: 6 <= i < 6 + |d| ==> IsDigit(lc[i])
    ensures forall i :: 6 + |d| <= i < |lc| ==> !IsDigit(lc[i])
    ensures lc[6 + |d|] == ' ' && StartsAt(lc, 7 + |d|, "сек")
  {
    assert lc == "отдых " + (d + " сек");
    forall i | 6 <= i < 6 + |d|
      ensures IsDigit(lc[i])
    {
      assert lc[i] == d[i - 6];
    }
    assert lc[7 + |d|..10 + |d|] == "сек";
  }

  /** In "отдых D сек" the only number followed by "сек" is D, and the line runs to the end. */
  lemma {:induction false} RestLineNumber(lc: string, d: string, n: nat)
    requires d == NatToString(n) && |lc| == 10 + |d|
    requires forall i :: 0 <= i < |lc| ==> lc[i] != '\n'
    requires !IsDigit(lc[5]) && lc[6..6 + |d|] == d
    requires forall i :: 6 <= i < 6 + |d| ==> IsDigit(lc[i])
    requires forall i :: 6 + |d| <= i < |lc| ==> !IsDigit(lc[i])
    requires lc[6 + |d|] == ' ' && StartsAt(lc, 7 + |d|, "сек")
    ensures LineEnd(lc, 5) == |lc|
    ensures SecondsNumber(lc, 5, 6) && NumberAt(lc, 6) == n
    ensures forall i :: 6 < i < |lc| ==> !SecondsNumber(lc, 5, i)
  {
    var e := 6 + |d|;
    DigitRunPrefix(lc, 6, e);
    NatToStringRoundTrip(n);
    assert lc[e + 1] == lc[7 + |d|..10 + |d|][0];
    assert SpaceRunEnd(lc, e + 1) == e + 1;
    assert SpaceRunEnd(lc, e) == e + 1;
    forall i | 6 < i < |lc|
      ensures !SecondsNumber(lc, 5, i)
    {
      if i < e { assert IsDigit(lc[i - 1]); } else { assert !IsDigit(lc[i]); }
    }
  }

  lemma {:induction false} WholeSecondsSkip(lc: string, j: nat, m: nat, k: nat)
    requires j <= m <= k <= |lc|
    requires forall i :: m <= i < k ==> !SecondsNumber(lc, j, i)
    ensures WholeSeconds(lc, j, k) == WholeSeconds(lc, j, m)
    decreases k - m
  {
    if m < k { WholeSecondsSkip(lc, j, m, k - 1); }
  }

  // ---------------------------------------------------------------------
  // EMOM and Tabata notations

  /** An EMOM notation: its number and the reps done each minute. */
  datatype Emom = Emom(minutes: nat, reps: nat)

  /**
   * `emom[:\s]*(\d+)[:\s]*(\d+)\s*повторений` at `p`: the minutes and the
   * reps. When the second number cannot be found after the first, the
   * pattern backtracks into the first number and takes its last digit as
   * the reps.
   */
  function EmomAt(lc: string, p: nat): Option<Emom> {
    if StartsAt(lc, p, "emom") then
      var a := ColonSpaceRunEnd(lc, p + 4);
      if a < |lc| && IsDigit(lc[a]) then
        var r1 := DigitRunEnd(lc, a);
        var c := ColonSpaceRunEnd(lc, r1);
        if c < |lc| && IsDigit(lc[c]) && StartsAt(lc, SpaceRunEnd(lc, DigitRunEnd(lc, c)), "повторений") then
          Some(Emom(NumberAt(lc, a), NumberAt(lc, c)))
        else if r1 - a >= 2 && StartsAt(lc, SpaceRunEnd(lc, r1), "повторений") then
          DigitRunDigits(lc, a);
          assert AllDigits(lc[a..r1 - 1]);
          Some(Emom(DigitsValue(lc[a..r1 - 1]), DigitValue(lc[r1 - 1])))
        else None
      else None
    else None
  }

  /** The class `[x×]` on lower-cased text. */
  predicate IsTimes(c: char) { c == 'x' || c == '×' }

  /** `табата[:\s]*(\d+)\s*[x×]\s*(\d+)\s*[/]\s*(\d+)` at `p`: rounds, work and rest seconds. */
  /** A Tabata notation: rounds, work seconds and rest seconds. */
  datatype Tabata = Tabata(rounds: nat, work: nat, rest: nat)

  function TabataAt(lc: string, p: nat): Option<Tabata> {
    if StartsAt(lc, p, "табата") then
      var a := ColonSpaceRunEnd(lc, p + 6);
      if a < |lc| && IsDigit(lc[a]) then
        var x := SpaceRunEnd(lc, DigitRunEnd(lc, a));
        if x < |lc| && IsTimes(lc[x]) then
          var b := SpaceRunEnd(lc, x + 1);
          if b < |lc| && IsDigit(lc[b]) then
            var y := SpaceRunEnd(lc, DigitRunEnd(lc, b));
            if y < |lc| && lc[y] == '/' then
              var c := SpaceRunEnd(lc, y + 1);
              if c < |lc| && IsDigit(lc[c]) then Some(Tabata(NumberAt(lc, a), NumberAt(lc, b), NumberAt(lc, c)))
              else None
            else None
          else None
        else None
      else None
    else None
  }

  // ---------------------------------------------------------------------
  // Equipment

  const EquipmentWords: seq<string> := ["снаряд", "equipment", "вес"]

  /**
   * Where `([^\n]+)` can start after `[:\s]*` has taken `lc[q..r]`: the
   * greedy class gives back characters until the group has one that is not
   * a newline.
   */
  function ValueStart(lc: string, q: nat, r: nat): (b: Option<nat>)
    requires q <= r <= |lc|
    decreases r - q
    ensures b.Some? ==> q <= b.value <= r && b.value < |lc| && lc[b.value] != '\n'
  {
    if r < |lc| && lc[r] != '\n' then Some(r)
    else if r == q then None
    else ValueStart(lc, q, r - 1)
  }

  /** `(?:снаряд|equipment|вес)[:\s]*([^\n]+)` at `p`: where the group starts. */
  function LabelledValueAt(lc: string, p: nat, words: seq<string>): (b: Option<nat>)
    decreases |words|
    ensures b.Some? ==> b.value < |lc| && lc[b.value] != '\n'
  {
    if words == [] then None
    else if StartsAt(lc, p, words[0]) then
      var q := p + |words[0]|;
      match ValueStart(lc, q, ColonSpaceRunEnd(lc, q))
      case Some(b) => Some(b)
      case None => LabelledValueAt(lc, p, words[1..])
    else LabelledValueAt(lc, p, words[1..])
  }

  function EquipmentAt(lc: string, p: nat): (b: Option<nat>)
    ensures b.Some? ==> b.value < |lc|
  {
    LabelledValueAt(lc, p, EquipmentWords)
  }

  function DoubleStarAt(s: string, p: nat): (r: Option<nat>)
    ensures r.Some? ==> p < r.value <= |s|
  {
    if StartsAt(s, p, "**") then Some(p + 2) else None
  }

  function DoubleUnderscoreAt(s: string, p: nat): (r: Option<nat>)
    ensures r.Some? ==> p < r.value <= |s|
  {
    if StartsAt(s, p, "__") then Some(p + 2) else None
  }

  /** The equipment text with outer whitespace and markdown emphasis markers removed. */
  function CleanEquipment(raw: string): (r: string)
    ensures r == [] || (!IsSpace(r[0]) && !IsSpace(r[|r| - 1]))
  {
    var s := Strip(raw);
    var t := SubFrom(s, DoubleStarAt, "", 0);
    Strip(SubFrom(t, DoubleUnderscoreAt, "", 0))
  }

  /** The equipment line: the rest of the line after the first equipment label found in `lc`. */
  function EquipmentOf(content: string, lc: string): (r: Option<string>)
    requires |lc| == |content|
    ensures r.None? <==> forall p :: 0 <= p <= |lc| ==> EquipmentAt(lc, p).None?
    ensures r.Some? ==> r.value == [] || (!IsSpace(r.value[0]) && !IsSpace(r.value[|r.value| - 1]))
  {
    match FirstMatch(lc, EquipmentAt, 0)
    case Some((_, b)) => Some(CleanEquipment(content[b..LineEnd(content, b)]))
    case None => None
  }

  // ---------------------------------------------------------------------
  // The whole scheme

  /** The first EMOM notation: its minutes and reps. */
  function EmomOf(lc: string): (r: Option<Emom>)
    ensures r.None? <==> forall p :: 0 <= p <= |lc| ==> EmomAt(lc, p).None?
  {
    match FirstMatch(lc, EmomAt, 0)
    case Some((_, v)) => Some(v)
    case None => None
  }

  /** The first Tabata notation: its rounds, work and rest seconds. */
  function TabataOf(lc: string): (r: Option<Tabata>)
    ensures r.None? <==> forall p :: 0 <= p <= |lc| ==> TabataAt(lc, p).None?
  {
    match FirstMatch(lc, TabataAt, 0)
    case Some((_, v)) => Some(v)
    case None => None
  }

  /** The scheme before the EMOM and Tabata notations are applied. */
  function BaseScheme(content: string, lc: string): Scheme
    requires |lc| == |content|
  {
    var ty := DetectType(lc);
    var pat := PatternOf(content, lc);
    var reps := pat.reps;
    var rounds := RoundsOf(lc);
    Scheme(ty, pat.text, reps, RoundsTotal(ty, reps, Sum(reps), rounds), TimePerRepOf(lc), RestOfAsWritten(lc), rounds.GetOr(1), None)
  }

  /**
   * EMOM notation makes the scheme EMOM with one set of its reps per whole
   * sixty of its number, and the total their sum; nothing else changes.
   */
  function WithEmom(s: Scheme, lc: string): (r: Scheme)
    ensures EmomOf(lc).None? ==> r == s
    ensures EmomOf(lc).Some? ==>
      var e := EmomOf(lc).value;
      r.schemeType == "EMOM" && r.repsPerSet == Repeat<nat>(e.reps, e.minutes / 60) && r.totalReps == e.reps * (e.minutes / 60) &&
      r.pattern == s.pattern && r.timePerRep == s.timePerRep && r.restBetween == s.restBetween &&
      r.sets == s.sets && r.equipment == s.equipment
  {
    match EmomOf(lc)
    case Some(e) =>
      var reps := Repeat<nat>(e.reps, e.minutes / 60);
      SumRepeat(e.reps, e.minutes / 60);
      s.(schemeType := "EMOM", repsPerSet := reps, totalReps := Sum(reps))
    case None => s
  }

  /**
   * Tabata notation makes the scheme Tabata with one rep per round, and
   * takes its timing from the notation; the rounds count is left alone.
   */
  function WithTabata(s: Scheme, lc: string): (r: Scheme)
    ensures TabataOf(lc).None? ==> r == s
    ensures TabataOf(lc).Some? ==>
      var t := TabataOf(lc).value;
      r.schemeType == "Табата" && r.repsPerSet == Repeat<nat>(1, t.rounds) && Sum(r.repsPerSet) == t.rounds &&
      r.totalReps == t.rounds && r.timePerRep == t.work && r.restBetween == t.rest &&
      r.pattern == s.pattern && r.sets == s.sets && r.equipment == s.equipment
  {
    match TabataOf(lc)
    case Some(t) =>
      SumRepeat(1, t.rounds);
      s.(schemeType := "Табата", repsPerSet := Repeat<nat>(1, t.rounds), totalReps := t.rounds, timePerRep := t.work, restBetween := t.rest)
    case None => s
  }

  /** The scheme read from `content` with `lc` as its lower-cased form. */
  function SchemeFrom(content: string, lc: string): (s: Scheme)
    requires |lc| == |content|
    ensures s.schemeType == "" || s.schemeType in SchemeTypes
    ensures s.sets == RoundsOf(lc).GetOr(1) && s.equipment == EquipmentOf(content, lc)
    ensures TabataOf(lc).None? ==> s.timePerRep == TimePerRepOf(lc) && s.restBetween == RestOfAsWritten(lc)
  {
    WithTabata(WithEmom(BaseScheme(content, lc), lc), lc).(equipment := EquipmentOf(content, lc))
  }

  /** The scheme `extract_scheme` returns for a workout's markdown body. */
  function SchemeOf(content: string): Scheme {
    SchemeFrom(content, Lower(content))
  }

  /**
   * `extract_scheme`, filling the scheme in the source's order: type,
   * pattern, rounds, timing, EMOM, Tabata, equipment.
   */
  method ExtractScheme(content: string) returns (s: Scheme)
    ensures s == SchemeOf(content)
  {
    var lc := Lower(content);
    s := Scheme("", "", [], 0, 3, 60, 1, None);
    s := s.(schemeType := DetectType(lc));
    var pr := PatternOf(content, lc);
    s := s.(pattern := pr.text, repsPerSet := pr.reps, totalReps := Sum(pr.reps));
    var rounds := RoundsOf(lc);
    if rounds.Some? {
      s := s.(sets := rounds.value);
      if ShouldMultiply(s.schemeType, s.repsPerSet, s.sets) && s.totalReps > 0 {
        s := s.(totalReps := s.totalReps * s.sets);
      }
    } else {
      s := s.(sets := 1);
    }
    s := s.(timePerRep := TimePerRepOf(lc), restBetween := RestOfAsWritten(lc));
    assert s == BaseScheme(content, lc);
    var emom := EmomOf(lc);
    if emom.Some? {
      var e := emom.value;
      s := s.(schemeType := "EMOM", repsPerSet := Repeat<nat>(e.reps, e.minutes / 60));
      s := s.(totalReps := Sum(s.repsPerSet));
    }
    assert s == WithEmom(BaseScheme(content, lc), lc);
    var tabata := TabataOf(lc);
    if tabata.Some? {
      var t := tabata.value;
      s := s.(schemeType := "Табата", repsPerSet := Repeat<nat>(1, t.rounds), totalReps := t.rounds);
      s := s.(timePerRep := t.work, restBetween := t.rest);
    }
    s := s.(equipment := EquipmentOf(content, lc));
  }

  // ---------------------------------------------------------------------
  // Properties of the scheme

  /**
   * Without EMOM or Tabata notation the reps per set are the pattern's
   * numbers and the total is their sum, multiplied by the rounds count
   * unless the count describes a monotone ladder's rungs.
   */
  lemma {:induction false} SchemeTotals(content: string, lc: string)
    requires |lc| == |content|
    requires EmomOf(lc).None? && TabataOf(lc).None?
    ensures var s := SchemeFrom(content, lc);
      s.pattern == PatternOf(content, lc).text && s.repsPerSet == PatternOf(content, lc).reps &&
      s.totalReps == RoundsTotal(s.schemeType, s.repsPerSet, Sum(s.repsPerSet), RoundsOf(lc))
  {
  }

  /** With no rounds phrase the scheme counts one set and the total is never multiplied. */
  lemma {:induction false} NoRoundsPhrase(content: string, lc: string)
    requires |lc| == |content|
    requires forall p :: 0 <= p <= |lc| ==> SetsAt(lc, p).None?
    requires forall p :: 0 <= p <= |lc| ==> ReversedSetsAt(lc, p).None?
    ensures SchemeFrom(content, lc).sets == 1
    ensures EmomOf(lc).None? && TabataOf(lc).None? ==> SchemeFrom(content, lc).totalReps == Sum(PatternOf(content, lc).reps)
  {
    assert RoundsOf(lc).None?;
  }

  /** With no scheme heading the scheme has no pattern and no reps of its own. */
  lemma {:induction false} NoSchemeSection(content: string, lc: string)
    requires |lc| == |content|
    requires forall p :: 0 <= p <= |lc| ==> SchemeHeadingAt(lc, p).None?
    requires EmomOf(lc).None? && TabataOf(lc).None?
    ensures var s := SchemeFrom(content, lc);
      s.pattern == [] && s.repsPerSet == [] && s.totalReps == 0
  {
    assert SchemeSection(content, lc) == [];
  }

  /** A monotone ladder whose rounds count equals its rungs keeps its plain sum. */
  lemma {:induction false} MonotoneLadderNotMultiplied(reps: seq<nat>, n: nat)
    requires reps != [] && n == |reps| && Monotone(reps)
    ensures RoundsTotal("Лесенка", reps, Sum(reps), Some(n)) == Sum(reps)
  {
  }

  /** A ladder up and back down is not monotone, so its rounds count multiplies it. */
  lemma {:induction false} UpAndDownMultiplied(reps: seq<nat>, i: nat, n: nat)
    requires 0 < i < |reps| - 1 && reps[i - 1] < reps[i] && reps[i] > reps[i + 1]
    requires Sum(reps) > 0
    ensures RoundsTotal("Лесенка", reps, Sum(reps), Some(n)) == Sum(reps) * n
  {
    assert !(reps[i - 1] >= reps[i]);
    assert !(reps[i] <= reps[i + 1]);
  }

  /** Tabata notation wins over EMOM notation and fixes reps and timing; the rounds count stays. */
  lemma {:induction false} TabataScheme(content: string, lc: string)
    requires |lc| == |content|
    requires TabataOf(lc).Some?
    ensures var t := TabataOf(lc).value;
      var s := SchemeFrom(content, lc);
      s.schemeType == "Табата" && s.repsPerSet == Repeat<nat>(1, t.rounds) && s.totalReps == t.rounds &&
      s.timePerRep == t.work && s.restBetween == t.rest && s.sets == RoundsOf(lc).GetOr(1)
  {
  }

  /** EMOM notation gives one set of its reps per whole sixty of its number, and keeps the timing. */
  lemma {:induction false} EmomScheme(content: string, lc: string)
    requires |lc| == |content|
    requires EmomOf(lc).Some? && TabataOf(lc).None?
    ensures var e := EmomOf(lc).value;
      var s := SchemeFrom(content, lc);
      s.schemeType == "EMOM" && s.repsPerSet == Repeat<nat>(e.reps, e.minutes / 60) && s.totalReps == e.reps * (e.minutes / 60) &&
      s.timePerRep == TimePerRepOf(lc) && s.restBetween == RestOfAsWritten(lc)
  {
  }
}
