/**
 * `parse_workout_file` once the note is loaded: the reps handed out to the
 * exercises, the duration read from the frontmatter (`_parse_duration` and
 * the EMOM rules), the workout record, `get_workout_summary` and
 * `extract_workout_metadata`.
 *
 * Python's `float(s)` on a string is a parameter `floatOf`: the model does
 * not parse floating-point literals.
 */
module WorkoutParser {
  import opened Text
  import opened Numeric
  import opened Documents
  import WorkoutScheme
  import WorkoutExercises

  type Scheme = WorkoutScheme.Scheme
  type Exercise = WorkoutExercises.Exercise

  // ---------------------------------------------------------------------
  // Durations

  const HourUnits: seq<string> := ["час", "hour", "ч", "h"]
  const MinuteUnits: seq<string> := ["минут", "мин", "min", "m"]
  const SecondUnits: seq<string> := ["секунд", "сек", "sec", "s"]

  /**
   * `(\d+)\s*(?:unit|...)` at `p`: the digits starting there, the
   * whitespace after them and one of the units. Backtracking cannot help:
   * with fewer digits the next character is a digit, which neither `\s`
   * nor any unit starts with.
   */
  function UnitNumberAt(s: string, p: nat, units: seq<string>): Option<nat> {
    if p < |s| && IsDigit(s[p]) && StartsWithAny(s, SpaceRunEnd(s, DigitRunEnd(s, p)), units) then
      Some(NumberAt(s, p))
    else None
  }

  function HoursAt(s: string, p: nat): Option<nat> { UnitNumberAt(s, p, HourUnits) }

  function MinutesAt(s: string, p: nat): Option<nat> { UnitNumberAt(s, p, MinuteUnits) }

  function SecondsAt(s: string, p: nat): Option<nat> { UnitNumberAt(s, p, SecondUnits) }

  /** The number of the first match of a `re.search`. */
  function FirstNumber(s: string, at: (string, nat) -> Option<nat>): Option<nat> {
    match FirstMatch(s, at, 0)
    case Some(m) => Some(m.1)
    case None => None
  }

  /** `^(\d+):(\d+)$` on stripped text: minutes and seconds. */
  function MinSec(s: string): (r: Option<real>)
    ensures r.Some? ==> ':' in s
  {
    if s != [] && IsDigit(s[0]) then
      var e := DigitRunEnd(s, 0);
      if e + 1 < |s| && s[e] == ':' && IsDigit(s[e + 1]) && DigitRunEnd(s, e + 1) == |s| then
        Some(NumberAt(s, 0) as real + NumberAt(s, e + 1) as real / 60.0)
      else None
    else None
  }

  /** The minutes the hour, minute and second tokens add up to. */
  function TokenMinutes(h: Option<nat>, m: Option<nat>, sec: Option<nat>): real {
    (if h.Some? then (h.value * 60) as real else 0.0) +
    (if m.Some? then m.value as real else 0.0) +
    (if sec.Some? then sec.value as real / 60.0 else 0.0)
  }

  /** `_parse_duration` on the stripped, lower-cased text. */
  function DurationText(s: string, floatOf: string -> Option<real>): Option<real> {
    if s == [] then None
    else if MinSec(s).Some? then MinSec(s)
    else
      var h := FirstNumber(s, HoursAt);
      var m := FirstNumber(s, MinutesAt);
      var sec := FirstNumber(s, SecondsAt);
      if h.Some? || m.Some? || sec.Some? then Some(Round2(TokenMinutes(h, m, sec)))
      else floatOf(s)
  }

  /**
   * `_parse_duration(raw)`: nothing for null, the number itself for a
   * number, and the text rules for a string.
   */
  function DurationOf(raw: Value, floatOf: string -> Option<real>): Option<real> {
    match raw
    case Null => None
    case Num(n) => Some(n)
    case Str(t) => DurationText(Lower(Strip(t)), floatOf)
    case Strs(_) => None
  }

  /** `_parse_duration`, accumulating the token minutes as the source does. */
  method ParseDuration(raw: Value, floatOf: string -> Option<real>) returns (r: Option<real>)
    ensures r == DurationOf(raw, floatOf)
  {
    match raw {
      case Null => r := None;
      case Num(n) => r := Some(n);
      case Str(t) => r := ParseDurationText(Lower(Strip(t)), floatOf);
      case Strs(_) => r := None;
    }
  }

  method ParseDurationText(s: string, floatOf: string -> Option<real>) returns (r: Option<real>)
    ensures r == DurationText(s, floatOf)
  {
    if s == [] {
      return None;
    }
    var mmss := MinSec(s);
    if mmss.Some? {
      return mmss;
    }
    var totalMin := 0.0;
    var found := false;
    var h := FirstNumber(s, HoursAt);
    if h.Some? {
      totalMin := totalMin + (h.value * 60) as real;
      found := true;
    }
    var m := FirstNumber(s, MinutesAt);
    if m.Some? {
      totalMin := totalMin + m.value as real;
      found := true;
    }
    var sec := FirstNumber(s, SecondsAt);
    if sec.Some? {
      totalMin := totalMin + sec.value as real / 60.0;
      found := true;
    }
    assert totalMin == TokenMinutes(h, m, sec);
    if found {
      return Some(Round2(totalMin));
    }
    return floatOf(s);
  }

  /** Null and blank text parse to no duration; a number is taken as it is. */
  lemma DurationOfMissing(t: string, x: real, floatOf: string -> Option<real>)
    ensures DurationOf(Null, floatOf).None?
    ensures Strip(t) == [] ==> DurationOf(Str(t), floatOf).None?
    ensures DurationOf(Num(x), floatOf) == Some(x)
  {
  }

  /** `m:ss` is `m` minutes and `ss` seconds. */
  lemma DurationOfMinSec(m: nat, ss: nat, floatOf: string -> Option<real>)
    ensures DurationOf(Str(NatToString(m) + ":" + NatToString(ss)), floatOf) ==
      Some(m as real + ss as real / 60.0)
  {
    MinSecText(NatToString(m), NatToString(ss));
    MinSecWritten(m, ss);
  }

  lemma {:induction false} MinSecWritten(m: nat, ss: nat)
    ensures MinSec(NatToString(m) + ":" + NatToString(ss)) == Some(m as real + ss as real / 60.0)
  {
    var dm := NatToString(m);
    var ds := NatToString(ss);
    var t := dm + ":" + ds;
    NumberAtWritten(m, ":" + ds);
    assert t == dm + (":" + ds);
    DigitRunEndShift(dm + ":", ds, 0);
    NumberAtShift(dm + ":", ds, 0);
    NumberAtWritten(ss, "");
    assert ds + "" == ds;
    assert t == (dm + ":") + ds;
    assert t[|dm|] == ':' && t[|dm| + 1] == ds[0];
  }

  /** Digits and a colon are their own stripped, lower-cased text. */
  lemma {:induction false} MinSecText(dm: string, ds: string)
    requires AllDigits(dm) && AllDigits(ds) && dm != [] && ds != []
    ensures Lower(Strip(dm + ":" + ds)) == dm + ":" + ds
  {
    var t := dm + ":" + ds;
    assert t[0] == dm[0] && t[|t| - 1] == ds[|ds| - 1];
    assert Strip(t) == t;
    forall k | 0 <= k < |t| ensures LowerChar(t[k]) == t[k] {
      if k < |dm| { assert t[k] == dm[k]; }
      else if k > |dm| { assert t[k] == ds[k - |dm| - 1]; }
    }
    LowerOfLowerText(t);
  }

  // ---------------------------------------------------------------------
  // Duration tokens

  /** Whether a unit starts at a position inside `y` does not depend on what precedes `y`. */
  lemma StartsWithAnyShift(x: string, y: string, k: nat, units: seq<string>)
    requires k <= |y|
    ensures StartsWithAny(x + y, |x| + k, units) == StartsWithAny(y, k, units)
  {
    forall i | 0 <= i < |units| ensures StartsAt(x + y, |x| + k, units[i]) == StartsAt(y, k, units[i]) {
      if k + |units[i]| <= |y| {
        assert (x + y)[|x| + k..|x| + k + |units[i]|] == y[k..k + |units[i]|];
      }
    }
  }

  /** A number-and-unit match inside `y` is the same match seen from `x + y`. */
  lemma UnitNumberShift(x: string, y: string, k: nat, units: seq<string>)
    requires k <= |y|
    ensures UnitNumberAt(x + y, |x| + k, units) == UnitNumberAt(y, k, units)
  {
    if k < |y| {
      assert (x + y)[|x| + k] == y[k];
      DigitRunEndShift(x, y, k);
      SpaceRunEndShift(x, y, DigitRunEnd(y, k));
      StartsWithAnyShift(x, y, SpaceRunEnd(y, DigitRunEnd(y, k)), units);
      NumberAtShift(x, y, k);
    }
  }

  /** No unit starts with the character at `i`. */
  lemma NoUnitAt(s: string, i: nat, units: seq<string>)
    requires i < |s| && forall k :: 0 <= k < |units| ==> units[k] != [] && units[k][0] != s[i]
    ensures !StartsWithAny(s, i, units)
  {
    forall k | 0 <= k < |units| ensures !StartsAt(s, i, units[k]) {
      NotStartsAt(s, i, units[k]);
    }
  }

  /** Text made only of whitespace. */
  predicate Blank(sp: string) { forall k :: 0 <= k < |sp| ==> IsSpace(sp[k]) }

  /**
   * In `n`, whitespace `sp`, then `u`: a match starting inside the number is
   * there exactly when `u` starts with a unit, and the one at the first
   * digit reads `n`.
   */
  lemma {:induction false} TokenAt(n: nat, sp: string, u: string, units: seq<string>, p: nat)
    requires Blank(sp) && u != [] && !IsDigit(u[0]) && !IsSpace(u[0]) && p < |NatToString(n)|
    ensures UnitNumberAt(NatToString(n) + sp + u, p, units).Some? == StartsWithAny(u, 0, units)
    ensures p == 0 && StartsWithAny(u, 0, units) ==> UnitNumberAt(NatToString(n) + sp + u, p, units) == Some(n)
  {
    var d := NatToString(n);
    var y := d + sp + u;
    var l := |d|;
    forall k | p <= k < l ensures IsDigit(y[k]) { assert y[k] == d[k]; }
    forall k | l <= k < l + |sp| ensures IsSpace(y[k]) { assert y[k] == sp[k - l]; }
    assert y[l + |sp|] == u[0];
    DigitRunPrefix(y, p, l);
    SpaceRunExact(y, l, l + |sp|);
    assert y == (d + sp) + u;
    StartsWithAnyShift(d + sp, u, 0, units);
    if p == 0 {
      assert y == d + (sp + u);
      assert (sp + u)[0] == if sp == [] then u[0] else sp[0];
      NumberAtWritten(n, sp + u);
    }
  }

  /** No number-and-unit match starts where there is no digit. */
  lemma NoDigitNoToken(s: string, p: nat, units: seq<string>)
    requires p < |s| ==> !IsDigit(s[p])
    ensures UnitNumberAt(s, p, units).None?
  {
  }

  /** Text made of digits, whitespace, lower-case letters and no colon, with no edge whitespace. */
  predicate DurationLiteral(t: string) {
    t != [] && !IsSpace(t[0]) && !IsSpace(t[|t| - 1]) && IsLowerText(t) && forall k :: 0 <= k < |t| ==> t[k] != ':'
  }

  /** Such text is its own stripped, lower-cased form, and it is no `m:ss`. */
  lemma LiteralText(t: string)
    requires DurationLiteral(t)
    ensures Lower(Strip(t)) == t && MinSec(t).None?
  {
    StripNoEdgeSpace(t);
    LowerOfLowerText(t);
  }

  /** A word: lower-case letters, no digit, no whitespace, no colon. */
  predicate Word(u: string) {
    u != [] && IsLowerText(u) && forall k :: 0 <= k < |u| ==> !IsDigit(u[k]) && !IsSpace(u[k]) && u[k] != ':'
  }

  /** `n`, a single space or none, and a word, is such text. */
  lemma {:induction false} TokenLiteral(n: nat, sp: string, u: string)
    requires (sp == [] || sp == " ") && Word(u)
    ensures DurationLiteral(NatToString(n) + sp + u)
  {
    var d := NatToString(n);
    var y := d + sp + u;
    assert y[0] == d[0] && y[|y| - 1] == u[|u| - 1];
    forall k | 0 <= k < |y| ensures LowerChar(y[k]) == y[k] && y[k] != ':' {
      if k < |d| { assert y[k] == d[k]; }
      else if k >= |d| + |sp| { assert y[k] == u[k - |d| - |sp|]; }
    }
  }

  /** A text that is no `m:ss` is read by its hour, minute and second tokens, or else by `float()`. */
  lemma TokensDecide(t: string, h: Option<nat>, m: Option<nat>, sec: Option<nat>, floatOf: string -> Option<real>)
    requires t != [] && Lower(Strip(t)) == t && MinSec(t).None?
    requires FirstNumber(t, HoursAt) == h && FirstNumber(t, MinutesAt) == m && FirstNumber(t, SecondsAt) == sec
    ensures DurationOf(Str(t), floatOf) ==
      if h.Some? || m.Some? || sec.Some? then Some(Round2(TokenMinutes(h, m, sec))) else floatOf(t)
  {
  }

  /**
   * In `n u` for a word `u`, the number is matched at its first digit when
   * `u` starts with a unit, and nowhere at all otherwise.
   */
  lemma SingleTokenUnits(n: nat, sp: string, u: string, y: string, units: seq<string>)
    requires Blank(sp) && Word(u) && y == NatToString(n) + sp + u
    ensures StartsWithAny(u, 0, units) ==> UnitNumberAt(y, 0, units) == Some(n)
    ensures !StartsWithAny(u, 0, units) ==> forall p :: 0 <= p <= |y| ==> UnitNumberAt(y, p, units).None?
  {
    var l := |NatToString(n)|;
    TokenAt(n, sp, u, units, 0);
    forall p | 0 <= p <= |y| && !StartsWithAny(u, 0, units) ensures UnitNumberAt(y, p, units).None? {
      if p < l {
        TokenAt(n, sp, u, units, p);
      } else if p < |y| {
        if p < l + |sp| { assert y[p] == sp[p - l]; } else { assert y[p] == u[p - l - |sp|]; }
        NoDigitNoToken(y, p, units);
      }
    }
  }

  /** In `n u` for a word `u`, each unit search finds `n` exactly when `u` starts with one of its units. */
  lemma SingleToken(n: nat, sp: string, u: string, y: string)
    requires Blank(sp) && Word(u) && y == NatToString(n) + sp + u
    ensures FirstNumber(y, HoursAt) == (if StartsWithAny(u, 0, HourUnits) then Some(n) else None)
    ensures FirstNumber(y, MinutesAt) == (if StartsWithAny(u, 0, MinuteUnits) then Some(n) else None)
    ensures FirstNumber(y, SecondsAt) == (if StartsWithAny(u, 0, SecondUnits) then Some(n) else None)
  {
    SingleTokenUnits(n, sp, u, y, HourUnits);
    SingleTokenUnits(n, sp, u, y, MinuteUnits);
    SingleTokenUnits(n, sp, u, y, SecondUnits);
    if StartsWithAny(u, 0, HourUnits) { FirstMatchAt(y, HoursAt, 0, 0); }
    if StartsWithAny(u, 0, MinuteUnits) { FirstMatchAt(y, MinutesAt, 0, 0); }
    if StartsWithAny(u, 0, SecondUnits) { FirstMatchAt(y, SecondsAt, 0, 0); }
  }

  /** `N минут`, with or without the space, is N minutes. */
  lemma MinutesToken(n: nat, sp: string, floatOf: string -> Option<real>)
    requires sp == [] || sp == " "
    ensures DurationOf(Str(NatToString(n) + sp + "минут"), floatOf) == Some(n as real)
  {
    var y := NatToString(n) + sp + "минут";
    TokenLiteral(n, sp, "минут");
    LiteralText(y);
    MinutesWord(n, sp, y);
    TokensDecide(y, None, Some(n), None, floatOf);
    Round2Whole(n);
  }

  lemma MinutesWord(n: nat, sp: string, y: string)
    requires (sp == [] || sp == " ") && y == NatToString(n) + sp + "минут"
    ensures FirstNumber(y, HoursAt).None? && FirstNumber(y, MinutesAt) == Some(n) && FirstNumber(y, SecondsAt).None?
  {
    UnitWords();
    MinutesWordUnits();
    SingleToken(n, sp, "минут", y);
  }

  lemma MinutesWordUnits()
    ensures StartsWithAny("минут", 0, MinuteUnits) && !StartsWithAny("минут", 0, HourUnits) && !StartsWithAny("минут", 0, SecondUnits)
  {
    assert StartsAt("минут", 0, MinuteUnits[0]);
    NoUnitAt("минут", 0, HourUnits);
    NoUnitAt("минут", 0, SecondUnits);
  }

  /** `N мин`, with or without the space, is N minutes. */
  lemma ShortMinutesToken(n: nat, sp: string, floatOf: string -> Option<real>)
    requires sp == [] || sp == " "
    ensures DurationOf(Str(NatToString(n) + sp + "мин"), floatOf) == Some(n as real)
  {
    var y := NatToString(n) + sp + "мин";
    TokenLiteral(n, sp, "мин");
    LiteralText(y);
    ShortMinutesWord(n, sp, y);
    TokensDecide(y, None, Some(n), None, floatOf);
    Round2Whole(n);
  }

  lemma ShortMinutesWord(n: nat, sp: string, y: string)
    requires (sp == [] || sp == " ") && y == NatToString(n) + sp + "мин"
    ensures FirstNumber(y, HoursAt).None? && FirstNumber(y, MinutesAt) == Some(n) && FirstNumber(y, SecondsAt).None?
  {
    UnitWords();
    ShortMinutesWordUnits();
    SingleToken(n, sp, "мин", y);
  }

  /** `N сек`, with or without the space, is N sixtieths of a minute, rounded to two places. */
  lemma SecondsToken(n: nat, sp: string, floatOf: string -> Option<real>)
    requires sp == [] || sp == " "
    ensures DurationOf(Str(NatToString(n) + sp + "сек"), floatOf) == Some(Round2(n as real / 60.0))
  {
    var y := NatToString(n) + sp + "сек";
    TokenLiteral(n, sp, "сек");
    LiteralText(y);
    SecondsWord(n, sp, y);
    TokensDecide(y, None, None, Some(n), floatOf);
    assert TokenMinutes(None, None, Some(n)) == n as real / 60.0;
  }

  lemma SecondsWord(n: nat, sp: string, y: string)
    requires (sp == [] || sp == " ") && y == NatToString(n) + sp + "сек"
    ensures FirstNumber(y, HoursAt).None? && FirstNumber(y, MinutesAt).None? && FirstNumber(y, SecondsAt) == Some(n)
  {
    UnitWords();
    SecondsWordUnits();
    SingleToken(n, sp, "сек", y);
  }

  lemma SecondsWordUnits()
    ensures StartsWithAny("сек", 0, SecondUnits) && !StartsWithAny("сек", 0, HourUnits) && !StartsWithAny("сек", 0, MinuteUnits)
  {
    assert StartsAt("сек", 0, SecondUnits[1]);
    NoUnitAt("сек", 0, HourUnits);
    NoUnitAt("сек", 0, MinuteUnits);
  }

  /** `N ч`, with or without the space, is N hours, sixty minutes each. */
  lemma HoursToken(n: nat, sp: string, floatOf: string -> Option<real>)
    requires sp == [] || sp == " "
    ensures DurationOf(Str(NatToString(n) + sp + "ч"), floatOf) == Some((60 * n) as real)
  {
    var y := NatToString(n) + sp + "ч";
    TokenLiteral(n, sp, "ч");
    LiteralText(y);
    HoursWord(n, sp, y);
    TokensDecide(y, Some(n), None, None, floatOf);
    Round2Whole(n * 60);
  }

  lemma HoursWord(n: nat, sp: string, y: string)
    requires (sp == [] || sp == " ") && y == NatToString(n) + sp + "ч"
    ensures FirstNumber(y, HoursAt) == Some(n) && FirstNumber(y, MinutesAt).None? && FirstNumber(y, SecondsAt).None?
  {
    UnitWords();
    HoursWordUnits();
    SingleToken(n, sp, "ч", y);
  }

  lemma HoursWordUnits()
    ensures StartsWithAny("ч", 0, HourUnits) && !StartsWithAny("ч", 0, MinuteUnits) && !StartsWithAny("ч", 0, SecondUnits)
  {
    assert StartsAt("ч", 0, HourUnits[2]);
    NoUnitAt("ч", 0, MinuteUnits);
    NoUnitAt("ч", 0, SecondUnits);
  }

  lemma ShortMinutesWordUnits()
    ensures StartsWithAny("мин", 0, MinuteUnits) && !StartsWithAny("мин", 0, HourUnits) && !StartsWithAny("мин", 0, SecondUnits)
  {
    assert StartsAt("мин", 0, MinuteUnits[1]);
    NoUnitAt("мин", 0, HourUnits);
    NoUnitAt("мин", 0, SecondUnits);
  }

  lemma LongSecondsWordUnits()
    ensures StartsWithAny("секунд", 0, SecondUnits) && !StartsWithAny("секунд", 0, HourUnits) && !StartsWithAny("секунд", 0, MinuteUnits)
  {
    assert StartsAt("секунд", 0, SecondUnits[0]);
    NoUnitAt("секунд", 0, HourUnits);
    NoUnitAt("секунд", 0, MinuteUnits);
  }

  /** A plain number is no token: it is left to `float()`. */
  lemma PlainNumberFallsBack(n: nat, floatOf: string -> Option<real>)
    ensures DurationOf(Str(NatToString(n)), floatOf) == floatOf(NatToString(n))
  {
    var d := NatToString(n);
    PlainNumberText(d);
    PlainNumberNoToken(d);
    TokensDecide(d, None, None, None, floatOf);
  }

  lemma PlainNumberText(d: string)
    requires d != [] && AllDigits(d)
    ensures Lower(Strip(d)) == d && MinSec(d).None?
  {
    forall k | 0 <= k < |d| ensures LowerChar(d[k]) == d[k] && d[k] != ':' {
    }
    LiteralText(d);
  }

  lemma PlainNumberNoToken(d: string)
    requires AllDigits(d)
    ensures FirstNumber(d, HoursAt).None? && FirstNumber(d, MinutesAt).None? && FirstNumber(d, SecondsAt).None?
  {
    forall p | 0 <= p <= |d| ensures HoursAt(d, p).None? && MinutesAt(d, p).None? && SecondsAt(d, p).None? {
      if p < |d| {
        DigitRunPrefix(d, p, |d|);
        assert SpaceRunEnd(d, |d|) == |d|;
      }
    }
  }

  /**
   * In `n1 w1 n2 w2`, a match of a unit search inside the first token is
   * there only when the text after the first number starts with a unit,
   * and further on the matches are those of the second token alone.
   */
  lemma TwoTokenUnits(n1: nat, w1: string, n2: nat, w2: string, x: string, y: string, s: string, units: seq<string>)
    requires Word(w1) && Word(w2)
    requires x == NatToString(n1) + " " + w1 + " " && y == NatToString(n2) + " " + w2 && s == x + y
    ensures StartsWithAny(w1 + " " + y, 0, units) ==> UnitNumberAt(s, 0, units) == Some(n1)
    ensures !StartsWithAny(w1 + " " + y, 0, units) ==> forall p :: 0 <= p < |x| ==> UnitNumberAt(s, p, units).None?
    ensures forall k :: 0 <= k <= |y| ==> UnitNumberAt(s, |x| + k, units) == UnitNumberAt(y, k, units)
  {
    var d1 := NatToString(n1);
    var u := w1 + " " + y;
    assert s == d1 + " " + u;
    assert u[0] == w1[0];
    TokenAt(n1, " ", u, units, 0);
    forall p | 0 <= p < |x| && !StartsWithAny(u, 0, units) ensures UnitNumberAt(s, p, units).None? {
      if p < |d1| {
        TokenAt(n1, " ", u, units, p);
      } else {
        assert s[p] == x[p];
        if |d1| < p < |x| - 1 { assert x[p] == w1[p - |d1| - 1]; }
        NoDigitNoToken(s, p, units);
      }
    }
    forall k | 0 <= k <= |y| ensures UnitNumberAt(s, |x| + k, units) == UnitNumberAt(y, k, units) {
      UnitNumberShift(x, y, k, units);
    }
  }

  /** `H ч M мин` adds the hours, as sixty minutes each, to the minutes. */
  lemma HoursAndMinutes(h: nat, m: nat, floatOf: string -> Option<real>)
    ensures DurationOf(Str(NatToString(h) + " ч " + NatToString(m) + " мин"), floatOf) == Some((60 * h + m) as real)
  {
    HoursAndMinutesAt(h, m, NatToString(h) + " ч " + NatToString(m) + " мин", floatOf);
  }

  lemma HoursAndMinutesAt(h: nat, m: nat, s: string, floatOf: string -> Option<real>)
    requires s == NatToString(h) + " ч " + NatToString(m) + " мин"
    ensures DurationOf(Str(s), floatOf) == Some((60 * h + m) as real)
  {
    var x := NatToString(h) + " ч ";
    var y := NatToString(m) + " мин";
    ConcatAssoc(x, NatToString(m), " мин");
    HoursAndMinutesText(h, m, x, y, s);
    HoursAndMinutesTokens(h, m, x, y, s);
    TokensDecide(s, Some(h), Some(m), None, floatOf);
    HoursAndMinutesValue(h, m);
  }

  lemma HoursAndMinutesValue(h: nat, m: nat)
    ensures Round2(TokenMinutes(Some(h), Some(m), None)) == (60 * h + m) as real
  {
    assert TokenMinutes(Some(h), Some(m), None) == (60 * h + m) as real;
    Round2Whole(60 * h + m);
  }

  lemma HoursAndMinutesTokens(h: nat, m: nat, x: string, y: string, s: string)
    requires x == NatToString(h) + " ч " && y == NatToString(m) + " мин" && s == x + y
    ensures FirstNumber(s, HoursAt) == Some(h) && FirstNumber(s, MinutesAt) == Some(m) && FirstNumber(s, SecondsAt).None?
  {
    HourMinuteHours(h, m, x, y, s);
    HourMinuteMinutes(h, m, x, y, s);
    HourMinuteSeconds(h, m, x, y, s);
  }

  lemma HourMinuteHours(h: nat, m: nat, x: string, y: string, s: string)
    requires x == NatToString(h) + " ч " && y == NatToString(m) + " мин" && s == x + y
    ensures FirstNumber(s, HoursAt) == Some(h)
  {
    SpacedWords();
    Spaced(NatToString(h), "ч", " ч ");
    SpacedEnd(NatToString(m), "мин", " мин");
    UnitWords();
    UnitsSpaceFree();
    HoursWordUnits();
    ShortMinutesWordUnits();
    TwoTokenFirst(h, "ч", m, "мин", x, y, s, HourUnits, HoursAt);
  }

  lemma HourMinuteMinutes(h: nat, m: nat, x: string, y: string, s: string)
    requires x == NatToString(h) + " ч " && y == NatToString(m) + " мин" && s == x + y
    ensures FirstNumber(s, MinutesAt) == Some(m)
  {
    SpacedWords();
    Spaced(NatToString(h), "ч", " ч ");
    SpacedEnd(NatToString(m), "мин", " мин");
    UnitWords();
    UnitsSpaceFree();
    HoursWordUnits();
    ShortMinutesWordUnits();
    TwoTokenFirst(h, "ч", m, "мин", x, y, s, MinuteUnits, MinutesAt);
  }

  lemma HourMinuteSeconds(h: nat, m: nat, x: string, y: string, s: string)
    requires x == NatToString(h) + " ч " && y == NatToString(m) + " мин" && s == x + y
    ensures FirstNumber(s, SecondsAt).None?
  {
    SpacedWords();
    Spaced(NatToString(h), "ч", " ч ");
    SpacedEnd(NatToString(m), "мин", " мин");
    UnitWords();
    UnitsSpaceFree();
    HoursWordUnits();
    ShortMinutesWordUnits();
    TwoTokenFirst(h, "ч", m, "мин", x, y, s, SecondUnits, SecondsAt);
  }

  /** Units written without whitespace. */
  predicate SpaceFree(units: seq<string>) {
    forall k :: 0 <= k < |units| ==> forall j :: 0 <= j < |units[k]| ==> !IsSpace(units[k][j])
  }

  lemma UnitsSpaceFree()
    ensures SpaceFree(HourUnits) && SpaceFree(MinuteUnits) && SpaceFree(SecondUnits)
  {
  }

  /** A unit without whitespace that starts a word followed by a space lies inside the word. */
  lemma WordThenSpace(w: string, rest: string, units: seq<string>)
    requires Word(w) && rest != [] && IsSpace(rest[0]) && SpaceFree(units)
    ensures StartsWithAny(w + rest, 0, units) == StartsWithAny(w, 0, units)
  {
    forall k | 0 <= k < |units| ensures StartsAt(w + rest, 0, units[k]) == StartsAt(w, 0, units[k]) {
      var v := units[k];
      if |w| < |v| <= |w + rest| {
        assert (w + rest)[..|v|][|w|] == rest[0];
      }
      if StartsAt(w + rest, 0, v) && |v| <= |w| {
        assert (w + rest)[..|v|] == w[..|v|];
      }
      if StartsAt(w, 0, v) {
        assert (w + rest)[..|v|] == w[..|v|];
      }
    }
  }

  /**
   * In `n1 w1 n2 w2`, a unit search finds the first number when the text
   * after it starts with a unit, else the second when `w2` does, else
   * nothing.
   */
  lemma TwoTokenFirst(n1: nat, w1: string, n2: nat, w2: string, x: string, y: string, s: string,
                      units: seq<string>, at: (string, nat) -> Option<nat>)
    requires Word(w1) && Word(w2)
    requires x == NatToString(n1) + " " + w1 + " " && y == NatToString(n2) + " " + w2 && s == x + y
    requires forall t, p :: at(t, p) == UnitNumberAt(t, p, units)
    requires SpaceFree(units)
    ensures FirstNumber(s, at) ==
      if StartsWithAny(w1, 0, units) then Some(n1)
      else if StartsWithAny(w2, 0, units) then Some(n2) else None
  {
    WordThenSpace(w1, " " + y, units);
    assert w1 + " " + y == w1 + (" " + y);
    TwoTokenUnits(n1, w1, n2, w2, x, y, s, units);
    SingleTokenUnits(n2, " ", w2, y, units);
    if StartsWithAny(w1 + " " + y, 0, units) {
      FirstMatchAt(s, at, 0, 0);
    } else if StartsWithAny(w2, 0, units) {
      FirstMatchAt(s, at, 0, |x|);
    } else {
      forall q | 0 <= q <= |s| ensures at(s, q).None? {
        if q >= |x| { assert UnitNumberAt(s, |x| + (q - |x|), units) == UnitNumberAt(y, q - |x|, units); }
      }
    }
  }

  /** `M минут S секунд` adds sixtieths of a minute for the seconds, rounded to two places. */
  lemma MinutesAndSeconds(m: nat, sec: nat, floatOf: string -> Option<real>)
    ensures DurationOf(Str(NatToString(m) + " минут " + NatToString(sec) + " секунд"), floatOf) ==
      Some(Round2(m as real + sec as real / 60.0))
  {
    MinutesAndSecondsAt(m, sec, NatToString(m) + " минут " + NatToString(sec) + " секунд", floatOf);
  }

  lemma MinutesAndSecondsAt(m: nat, sec: nat, s: string, floatOf: string -> Option<real>)
    requires s == NatToString(m) + " минут " + NatToString(sec) + " секунд"
    ensures DurationOf(Str(s), floatOf) == Some(Round2(m as real + sec as real / 60.0))
  {
    var x := NatToString(m) + " минут ";
    var y := NatToString(sec) + " секунд";
    ConcatAssoc(x, NatToString(sec), " секунд");
    MinutesAndSecondsText(m, sec, x, y, s);
    MinutesAndSecondsTokens(m, sec, x, y, s);
    TokensDecide(s, None, Some(m), Some(sec), floatOf);
    assert TokenMinutes(None, Some(m), Some(sec)) == m as real + sec as real / 60.0;
  }

  lemma MinutesAndSecondsTokens(m: nat, sec: nat, x: string, y: string, s: string)
    requires x == NatToString(m) + " минут " && y == NatToString(sec) + " секунд" && s == x + y
    ensures FirstNumber(s, HoursAt).None? && FirstNumber(s, MinutesAt) == Some(m) && FirstNumber(s, SecondsAt) == Some(sec)
  {
    MinuteSecondHours(m, sec, x, y, s);
    MinuteSecondMinutes(m, sec, x, y, s);
    MinuteSecondSeconds(m, sec, x, y, s);
  }

  lemma MinuteSecondHours(m: nat, sec: nat, x: string, y: string, s: string)
    requires x == NatToString(m) + " минут " && y == NatToString(sec) + " секунд" && s == x + y
    ensures FirstNumber(s, HoursAt).None?
  {
    SpacedWords();
    Spaced(NatToString(m), "минут", " минут ");
    SpacedEnd(NatToString(sec), "секунд", " секунд");
    UnitWords();
    UnitsSpaceFree();
    MinutesWordUnits();
    LongSecondsWordUnits();
    TwoTokenFirst(m, "минут", sec, "секунд", x, y, s, HourUnits, HoursAt);
  }

  lemma MinuteSecondMinutes(m: nat, sec: nat, x: string, y: string, s: string)
    requires x == NatToString(m) + " минут " && y == NatToString(sec) + " секунд" && s == x + y
    ensures FirstNumber(s, MinutesAt) == Some(m)
  {
    SpacedWords();
    Spaced(NatToString(m), "минут", " минут ");
    SpacedEnd(NatToString(sec), "секунд", " секунд");
    UnitWords();
    UnitsSpaceFree();
    MinutesWordUnits();
    LongSecondsWordUnits();
    TwoTokenFirst(m, "минут", sec, "секунд", x, y, s, MinuteUnits, MinutesAt);
  }

  lemma MinuteSecondSeconds(m: nat, sec: nat, x: string, y: string, s: string)
    requires x == NatToString(m) + " минут " && y == NatToString(sec) + " секунд" && s == x + y
    ensures FirstNumber(s, SecondsAt) == Some(sec)
  {
    SpacedWords();
    Spaced(NatToString(m), "минут", " минут ");
    SpacedEnd(NatToString(sec), "секунд", " секунд");
    UnitWords();
    UnitsSpaceFree();
    MinutesWordUnits();
    LongSecondsWordUnits();
    TwoTokenFirst(m, "минут", sec, "секунд", x, y, s, SecondUnits, SecondsAt);
  }

  /** The unit words of the examples are words. */
  lemma UnitWords()
    ensures Word("ч") && Word("мин") && Word("минут") && Word("сек") && Word("секунд")
  {
  }

  /** The unit words of the examples, written with their spaces. */
  lemma SpacedWords()
    ensures " ч " == " " + "ч" + " " && " мин" == " " + "мин"
    ensures " минут " == " " + "минут" + " " && " секунд" == " " + "секунд"
  {
  }

  lemma Spaced(d: string, w: string, sw: string)
    requires sw == " " + w + " "
    ensures d + sw == d + " " + w + " "
  {
  }

  lemma SpacedEnd(d: string, w: string, sw: string)
    requires sw == " " + w
    ensures d + sw == d + " " + w
  {
  }

  lemma HoursAndMinutesText(h: nat, m: nat, x: string, y: string, s: string)
    requires x == NatToString(h) + " ч " && y == NatToString(m) + " мин" && s == x + y
    ensures Lower(Strip(s)) == s && MinSec(s).None?
  {
    UnitWords();
    SpacedWords();
    Spaced(NatToString(h), "ч", " ч ");
    SpacedEnd(NatToString(m), "мин", " мин");
    TwoTokenLiteral(h, "ч", m, "мин", x, y, s);
  }

  lemma MinutesAndSecondsText(m: nat, sec: nat, x: string, y: string, s: string)
    requires x == NatToString(m) + " минут " && y == NatToString(sec) + " секунд" && s == x + y
    ensures Lower(Strip(s)) == s && MinSec(s).None?
  {
    UnitWords();
    SpacedWords();
    Spaced(NatToString(m), "минут", " минут ");
    SpacedEnd(NatToString(sec), "секунд", " секунд");
    TwoTokenLiteral(m, "минут", sec, "секунд", x, y, s);
  }

  /** Two tokens separated by single spaces are text `_parse_duration` reads as it is. */
  lemma {:induction false} TwoTokenLiteral(n1: nat, w1: string, n2: nat, w2: string, x: string, y: string, s: string)
    requires Word(w1) && Word(w2)
    requires x == NatToString(n1) + " " + w1 + " " && y == NatToString(n2) + " " + w2 && s == x + y
    ensures Lower(Strip(s)) == s && MinSec(s).None?
  {
    var d1 := NatToString(n1);
    var d2 := NatToString(n2);
    assert s[0] == d1[0] && s[|s| - 1] == w2[|w2| - 1];
    forall k | 0 <= k < |s| ensures LowerChar(s[k]) == s[k] && s[k] != ':' {
      if k < |d1| { assert s[k] == d1[k]; }
      else if |d1| < k < |x| - 1 { assert s[k] == w1[k - |d1| - 1]; }
      else if |x| <= k < |x| + |d2| { assert s[k] == d2[k - |x|]; }
      else if k > |x| + |d2| { assert s[k] == w2[k - |x| - |d2| - 1]; }
    }
    LiteralText(s);
  }

  // ---------------------------------------------------------------------
  // Reps handed out to the exercises

  /** An exercise of the workout record: the parsed exercise and the reps it was given. */
  datatype Assigned = Assigned(exercise: Exercise, reps: int)

  /** `any(ex.get('reps_per_round', 0) > 0 for ex in exercises)`. */
  predicate HasPerRoundReps(exercises: seq<Exercise>) {
    exists i :: 0 <= i < |exercises| && exercises[i].repsPerRound > 0
  }

  /** The reps per round of the exercises, added up. */
  function SumPerRound(exercises: seq<Exercise>): nat {
    if exercises == [] then 0
    else SumPerRound(exercises[..|exercises| - 1]) + exercises[|exercises| - 1].repsPerRound
  }

  /** The reps handed out, added up. */
  function SumHanded(handed: seq<Assigned>): int {
    if handed == [] then 0
    else SumHanded(handed[..|handed| - 1]) + handed[|handed| - 1].reps
  }

  /**
   * What the distribution promises: every exercise keeps its place and gets
   * `reps_per_round × sets` when some exercise has per-round reps (and the
   * scheme total becomes their sum), else the pattern total when it is
   * positive, else 0.
   */
  predicate Distributed(exercises: seq<Exercise>, scheme: Scheme, handed: seq<Assigned>, updated: Scheme) {
    |handed| == |exercises| &&
    (forall i :: 0 <= i < |handed| ==> handed[i].exercise == exercises[i]) &&
    (if HasPerRoundReps(exercises) then
      (forall i :: 0 <= i < |handed| ==> handed[i].reps == exercises[i].repsPerRound * scheme.sets) &&
      updated == scheme.(totalReps := SumHanded(handed))
    else
      (forall i :: 0 <= i < |handed| ==> handed[i].reps == (if scheme.totalReps > 0 then scheme.totalReps else 0)) &&
      updated == scheme)
  }

  /** `parse_workout_file` lines 91-114: hand the reps out and, with per-round reps, recount the total. */
  method DistributeReps(exercises: seq<Exercise>, scheme: Scheme) returns (handed: seq<Assigned>, updated: Scheme)
    ensures Distributed(exercises, scheme, handed, updated)
  {
    var sets := scheme.sets;
    var patternReps := scheme.totalReps;
    updated := scheme;
    handed := [];
    if HasPerRoundReps(exercises) {
      var totalReps := 0;
      for i := 0 to |exercises|
        invariant |handed| == i
        invariant forall k :: 0 <= k < i ==> handed[k] == Assigned(exercises[k], exercises[k].repsPerRound * sets)
        invariant totalReps == SumHanded(handed)
      {
        var reps := exercises[i].repsPerRound * sets;
        assert (handed + [Assigned(exercises[i], reps)])[..i] == handed;
        handed := handed + [Assigned(exercises[i], reps)];
        totalReps := totalReps + reps;
      }
      updated := updated.(totalReps := totalReps);
    } else if patternReps > 0 {
      for i := 0 to |exercises|
        invariant |handed| == i
        invariant forall k :: 0 <= k < i ==> handed[k] == Assigned(exercises[k], patternReps)
      {
        handed := handed + [Assigned(exercises[i], patternReps)];
      }
    } else {
      for i := 0 to |exercises|
        invariant |handed| == i
        invariant forall k :: 0 <= k < i ==> handed[k] == Assigned(exercises[k], 0)
      {
        handed := handed + [Assigned(exercises[i], 0)];
      }
    }
  }

  /** With per-round reps, the scheme total is the rounds times the reps of one round. */
  lemma PerRoundTotal(exercises: seq<Exercise>, scheme: Scheme, handed: seq<Assigned>, updated: Scheme)
    requires Distributed(exercises, scheme, handed, updated) && HasPerRoundReps(exercises)
    ensures updated.totalReps == scheme.sets * SumPerRound(exercises)
    ensures forall i :: 0 <= i < |handed| ==> handed[i].reps >= 0
  {
    SumHandedScaled(exercises, handed, scheme.sets);
  }

  lemma {:induction false} SumHandedScaled(exercises: seq<Exercise>, handed: seq<Assigned>, sets: nat)
    requires |handed| == |exercises|
    requires forall i :: 0 <= i < |handed| ==> handed[i].reps == exercises[i].repsPerRound * sets
    ensures SumHanded(handed) == sets * SumPerRound(exercises)
    decreases |handed|
  {
    if handed != [] {
      var n := |handed| - 1;
      SumHandedScaled(exercises[..n], handed[..n], sets);
    }
  }

  /** The distribution is determined by the exercises and the scheme. */
  lemma DistributedUnique(exercises: seq<Exercise>, scheme: Scheme, a1: seq<Assigned>, u1: Scheme, a2: seq<Assigned>, u2: Scheme)
    requires Distributed(exercises, scheme, a1, u1) && Distributed(exercises, scheme, a2, u2)
    ensures a1 == a2 && u1 == u2
  {
    assert forall i :: 0 <= i < |a1| ==> a1[i] == a2[i];
  }

  // ---------------------------------------------------------------------
  // The workout's duration

  /** Python truthiness of an optional number: present and not zero. */
  predicate TruthyNumber(v: Option<real>) { v.Some? && v.value != 0.0 }

  /** `post.metadata.get(key, None)`: a missing key and a null value are both None. */
  function FrontmatterValue(meta: Dict, key: string): Value {
    Get(meta, key, Null)
  }

  /**
   * The EMOM rules on the parsed values: `duration` when the key holds a
   * value (scaled by the rounds for an EMOM whose value is under half a
   * minute per round), else `time` (per round for an EMOM), else none.
   */
  function ScaledDuration(hasDuration: bool, duration: Option<real>, hasTime: bool, time: Option<real>,
                          schemeType: string, sets: nat): Option<real> {
    if hasDuration then
      if TruthyNumber(duration) && schemeType == "EMOM" then
        if sets > 1 && duration.value < sets as real * 0.5 then Some(duration.value * sets as real) else duration
      else duration
    else if hasTime then
      if TruthyNumber(time) && schemeType == "EMOM" then Some(time.value * sets as real)
      else time
    else None
  }

  /** The total duration in minutes from the frontmatter. */
  function WorkoutDuration(meta: Dict, schemeType: string, sets: nat, floatOf: string -> Option<real>): Option<real> {
    var rawDur := FrontmatterValue(meta, "duration");
    var rawTime := FrontmatterValue(meta, "time");
    ScaledDuration(rawDur != Null, DurationOf(rawDur, floatOf), rawTime != Null, DurationOf(rawTime, floatOf), schemeType, sets)
  }

  /** A `duration` value wins: whatever `time` holds is then ignored. */
  lemma DurationBeforeTime(duration: Option<real>, h1: bool, t1: Option<real>, h2: bool, t2: Option<real>,
                           schemeType: string, sets: nat)
    ensures ScaledDuration(true, duration, h1, t1, schemeType, sets) == ScaledDuration(true, duration, h2, t2, schemeType, sets)
  {
  }

  /** Outside EMOM the value is the parsed `duration` when given, else the parsed `time`. */
  lemma DurationOutsideEmom(hasDuration: bool, duration: Option<real>, hasTime: bool, time: Option<real>,
                            schemeType: string, sets: nat)
    requires schemeType != "EMOM"
    ensures ScaledDuration(hasDuration, duration, hasTime, time, schemeType, sets) ==
      if hasDuration then duration else if hasTime then time else None
  {
  }

  /**
   * For an EMOM, a positive `duration` grows exactly when it is under half
   * a minute per round and there is more than one round; then it is per round.
   */
  lemma EmomDuration(hasTime: bool, time: Option<real>, sets: nat, v: real)
    requires v > 0.0
    ensures ScaledDuration(true, Some(v), hasTime, time, "EMOM", sets).Some?
    ensures ScaledDuration(true, Some(v), hasTime, time, "EMOM", sets).value >= v
    ensures ScaledDuration(true, Some(v), hasTime, time, "EMOM", sets).value > v <==> sets > 1 && v < sets as real * 0.5
    ensures ScaledDuration(true, Some(v), hasTime, time, "EMOM", sets).value > v ==>
      ScaledDuration(true, Some(v), hasTime, time, "EMOM", sets).value == v * sets as real
  {
    if sets > 1 && v < sets as real * 0.5 {
      MultiplyGrows(v, sets as real);
    }
  }

  lemma MultiplyGrows(v: real, k: real)
    requires v > 0.0 && k >= 2.0
    ensures v * k > v
  {
    assert v * k - v == v * (k - 1.0);
  }

  /** For an EMOM without `duration`, a non-zero `time` counts once per round. */
  lemma EmomTime(time: real, sets: nat)
    requires time != 0.0
    ensures ScaledDuration(false, None, true, Some(time), "EMOM", sets) == Some(time * sets as real)
  {
    assert TruthyNumber(Some(time));
    var e: string := "EMOM";
    assert e == "EMOM";
  }

  /** Neither key present: no duration. */
  lemma NoDurationKeys(meta: Dict, schemeType: string, sets: nat, floatOf: string -> Option<real>)
    requires "duration" !in meta && "time" !in meta
    ensures WorkoutDuration(meta, schemeType, sets, floatOf).None?
  {
  }

  // ---------------------------------------------------------------------
  // The workout record

  /**
   * The dictionary `parse_workout_file` returns, without the raw post:
   * frontmatter `date`, `type` and `weight` as given, the total duration,
   * the scheme after the reps were handed out, the exercises with their
   * reps, and the body.
   */
  datatype WorkoutData = WorkoutData(
    date: Value,
    workoutType: Value,
    weight: Value,
    duration: Option<real>,
    scheme: Scheme,
    exercises: seq<Assigned>,
    content: string)

  /** What `parse_workout_file` promises about the record it builds from a note's frontmatter and body. */
  predicate IsWorkoutOf(meta: Dict, content: string, floatOf: string -> Option<real>, w: WorkoutData) {
    var scheme := WorkoutScheme.SchemeOf(content);
    var exercises := WorkoutExercises.ExercisesOf(Split(content, '\n'));
    Distributed(exercises, scheme, w.exercises, w.scheme) &&
    w.duration == WorkoutDuration(meta, scheme.schemeType, scheme.sets, floatOf) &&
    w.date == Get(meta, "date", Str("")) &&
    w.workoutType == Get(meta, "type", Str("")) &&
    w.weight == Get(meta, "weight", Num(70.0)) &&
    w.content == content
  }

  /** `parse_workout_file` once the note is loaded: scheme, exercises, reps, duration, record. */
  method ParseWorkoutFile(meta: Dict, content: string, floatOf: string -> Option<real>) returns (w: WorkoutData)
    ensures IsWorkoutOf(meta, content, floatOf, w)
  {
    var scheme := WorkoutScheme.ExtractScheme(content);
    var exercises := WorkoutExercises.ExtractExercises(content);
    var handed, updated := DistributeReps(exercises, scheme);
    var rawDur := FrontmatterValue(meta, "duration");
    var rawTime := FrontmatterValue(meta, "time");
    var durVal := ParseDuration(rawDur, floatOf);
    var timeVal := ParseDuration(rawTime, floatOf);
    var duration := ScaledDuration(rawDur != Null, durVal, rawTime != Null, timeVal, updated.schemeType, updated.sets);
    w := WorkoutData(Get(meta, "date", Str("")), Get(meta, "type", Str("")), Get(meta, "weight", Num(70.0)),
                     duration, updated, handed, content);
  }

  /** Handing out the reps changes only the scheme's total, never its type, pattern or rounds. */
  lemma DistributedKeepsScheme(exercises: seq<Exercise>, scheme: Scheme, handed: seq<Assigned>, updated: Scheme)
    requires Distributed(exercises, scheme, handed, updated)
    ensures updated == scheme.(totalReps := updated.totalReps)
  {
  }

  /** Without a `weight` key the rider weighs the default 70 kg; the body is kept as read. */
  lemma WorkoutDefaults(meta: Dict, content: string, floatOf: string -> Option<real>, w: WorkoutData)
    requires IsWorkoutOf(meta, content, floatOf, w)
    ensures "weight" !in meta ==> w.weight == Num(70.0)
    ensures "date" !in meta ==> w.date == Str("")
    ensures |w.exercises| == |WorkoutExercises.ExercisesOf(Split(content, '\n'))|
    ensures w.content == content
  {
  }

  // ---------------------------------------------------------------------
  // The one-line summary

  /**
   * The parts of `get_workout_summary`, in order; each is present when its
   * value is truthy. `show` is Python's `str()` of a frontmatter value.
   */
  function SummaryParts(w: WorkoutData, show: Value -> string): (r: seq<string>)
    ensures |r| <= 5
    ensures forall k :: 0 <= k < |r| ==> r[k] != []
    ensures r == [] <==>
      !Truthy(w.date) && !Truthy(w.workoutType) && w.scheme.schemeType == [] && w.exercises == [] && w.scheme.totalReps == 0
  {
    (if Truthy(w.date) then ["Дата: " + show(w.date)] else []) +
    (if Truthy(w.workoutType) then ["Тип: " + show(w.workoutType)] else []) +
    (if w.scheme.schemeType != [] then ["Схема: " + w.scheme.schemeType] else []) +
    (if w.exercises != [] then ["Упражнений: " + NatToString(|w.exercises|)] else []) +
    (if w.scheme.totalReps != 0 then ["Всего повторений: " + IntToString(w.scheme.totalReps)] else [])
  }

  /** `get_workout_summary`: the parts joined with ` | `. */
  function WorkoutSummary(w: WorkoutData, show: Value -> string): (r: string)
    ensures r == [] <==> SummaryParts(w, show) == []
  {
    JoinNonEmpty(SummaryParts(w, show), " | ");
    Join(SummaryParts(w, show), " | ")
  }

  /** Joining non-empty parts gives the empty text only for no parts. */
  lemma {:induction false} JoinNonEmpty(parts: seq<string>, sep: string)
    requires forall k :: 0 <= k < |parts| ==> parts[k] != []
    ensures Join(parts, sep) == [] <==> parts == []
  {
    if |parts| > 1 {
      assert |parts[0] + sep + Join(parts[1..], sep)| >= |parts[0]|;
    }
  }

  /** A workout with only its exercise list filled in is summarised by its count alone. */
  lemma SummaryOfExercisesOnly(w: WorkoutData, show: Value -> string)
    requires !Truthy(w.date) && !Truthy(w.workoutType) && w.scheme.schemeType == [] && w.scheme.totalReps == 0
    requires w.exercises != []
    ensures WorkoutSummary(w, show) == "Упражнений: " + NatToString(|w.exercises|)
  {
    assert SummaryParts(w, show) == ["Упражнений: " + NatToString(|w.exercises|)];
  }

  // ---------------------------------------------------------------------
  // Metadata found in the body

  /** What `extract_workout_metadata` finds; a missing key is None. */
  datatype Metadata = Metadata(date: Option<string>, weight: Option<nat>, notes: Option<string>)

  /** `\d{4}-\d{2}-\d{2}`. */
  predicate IsDateText(d: string) {
    |d| == 10 && d[4] == '-' && d[7] == '-' &&
    AllDigits(d[..4]) && AllDigits(d[5..7]) && AllDigits(d[8..])
  }

  /** A date is written at `p`. */
  predicate DateStartsAt(s: string, p: nat) {
    p + 10 <= |s| && IsDateText(s[p..p + 10])
  }

  /** A date written at `p`. */
  function DateAt(s: string, p: nat): (r: Option<string>)
    ensures r.Some? <==> DateStartsAt(s, p)
    ensures r.Some? ==> r.value == s[p..p + 10]
  {
    if DateStartsAt(s, p) then Some(s[p..p + 10]) else None
  }

  /**
   * `вес[:\s]*(\d+)` at `p` of the lower-cased text. Backtracking over
   * `[:\s]*` cannot help: a shorter run is followed by a colon or space.
   */
  function WeightAt(lc: string, p: nat): Option<nat> {
    if p + 3 <= |lc| && StartsAt(lc, p, "вес") then
      var q := ColonSpaceRunEnd(lc, p + 3);
      if q < |lc| && IsDigit(lc[q]) then Some(NumberAt(lc, q)) else None
    else None
  }

  /** The lookahead `(?=\n##|\n#\s|$)` at `e`; `$` also holds before a final newline. */
  predicate NotesStop(s: string, e: nat) {
    e == |s| || (e + 1 == |s| && s[e] == '\n') ||
    StartsAt(s, e, "\n##") || (StartsAt(s, e, "\n#") && e + 2 < |s| && IsSpace(s[e + 2]))
  }

  /** The first position at or after `e` where the lookahead holds: where the lazy `.+?` stops. */
  function NotesEnd(s: string, e: nat): (r: nat)
    requires e <= |s|
    decreases |s| - e
    ensures e <= r <= |s| && NotesStop(s, r)
  {
    if NotesStop(s, e) then e else NotesEnd(s, e + 1)
  }

  /**
   * `[:\s]*(.+?)(?=...)` from `b`: the greedy run, then at least one
   * character up to the first stop; when the run reaches the end, it gives
   * its last character back to `.+?`.
   */
  function NotesFrom(s: string, b: nat): (r: Option<string>)
    requires b <= |s|
  {
    var c := ColonSpaceRunEnd(s, b);
    if c < |s| then Some(s[c..NotesEnd(s, c + 1)])
    else if c > b then Some(s[c - 1..])
    else None
  }

  /** ` notes?` at `p` and the rest of the pattern; `s?` is given back when the rest fails with it. */
  function NotesAt(s: string, p: nat): Option<string> {
    if p < |s| && s[p] == ' ' && StartsAtIgnoreCase(s, p + 1, "note") then
      var a := p + 5;
      if a < |s| && LowerChar(s[a]) == 's' && NotesFrom(s, a + 1).Some? then NotesFrom(s, a + 1)
      else NotesFrom(s, a)
    else None
  }

  /** The first date in the body. */
  function DateOf(content: string): Option<string> {
    match FirstMatch(content, DateAt, 0)
    case Some(m) => Some(m.1)
    case None => None
  }

  /** The first weight mentioned in the body, read on its lower-cased text. */
  function WeightOf(content: string): Option<nat> {
    FirstNumber(Lower(content), WeightAt)
  }

  /** The first notes text in the body, stripped. */
  function NotesOf(content: string): Option<string> {
    match FirstMatch(content, NotesAt, 0)
    case Some(m) => Some(Strip(m.1))
    case None => None
  }

  /** `extract_workout_metadata(content)`. */
  function WorkoutMetadata(content: string): Metadata {
    Metadata(DateOf(content), WeightOf(content), NotesOf(content))
  }

  /** A date found is ten characters of the body in `YYYY-MM-DD` form, at the first place one occurs. */
  lemma MetadataDate(content: string)
    ensures DateOf(content).Some? <==> exists p: nat :: DateStartsAt(content, p)
    ensures DateOf(content).Some? ==>
      exists p: nat :: DateStartsAt(content, p) && DateOf(content).value == content[p..p + 10] &&
        forall q :: 0 <= q < p ==> !DateStartsAt(content, q)
  {
    var d := FirstMatch(content, DateAt, 0);
    if d.None? {
      forall p: nat
        ensures !DateStartsAt(content, p)
      {
        if p <= |content| {
          assert DateAt(content, p).None?;
        }
      }
    } else {
      var p := d.value.0;
      assert DateStartsAt(content, p);
      forall q | 0 <= q < p
        ensures !DateStartsAt(content, q)
      {
        assert DateAt(content, q).None?;
      }
    }
  }

  /** `вес: N` at the start of the body gives weight N. */
  lemma MetadataWeight(n: nat, rest: string)
    requires rest == [] || !IsDigit(rest[0])
    ensures WeightOf("вес: " + NatToString(n) + rest) == Some(n)
  {
    var s := "вес: " + NatToString(n) + rest;
    var lc := Lower(s);
    LowerDigitsAfterMarker(n, rest);
    assert lc == "вес: " + NatToString(n) + Lower(rest);
    WeightAtMarker(n, Lower(rest));
    FirstMatchAt(lc, WeightAt, 0, 0);
  }

  lemma {:induction false} LowerDigitsAfterMarker(n: nat, rest: string)
    ensures Lower("вес: " + NatToString(n) + rest) == "вес: " + NatToString(n) + Lower(rest)
  {
    var d := NatToString(n);
    var m := "вес: " + d;
    assert ("вес: " + d + rest) == m + rest;
    assert Lower(m + rest) == Lower(m) + Lower(rest);
    forall k | 0 <= k < |m| ensures LowerChar(m[k]) == m[k] {
      if k >= 5 { assert m[k] == d[k - 5]; }
    }
    LowerOfLowerText(m);
  }

  lemma {:induction false} WeightAtMarker(n: nat, tail: string)
    requires tail == [] || !IsDigit(tail[0])
    ensures WeightAt("вес: " + NatToString(n) + tail, 0) == Some(n)
  {
    var d := NatToString(n);
    var s := "вес: " + d + tail;
    assert s == "вес: " + (d + tail);
    assert s[..3] == "вес";
    assert s[3] == ':' && s[4] == ' ' && s[5] == d[0];
    assert ColonSpaceRunEnd(s, 5) == 5;
    assert ColonSpaceRunEnd(s, 3) == 5;
    NumberAtWritten(n, tail);
    NumberAtShift("вес: ", d + tail, 0);
  }

  /** Without a newline after `e` the lazy notes text runs to the end. */
  lemma {:induction false} NotesEndNoNewline(s: string, e: nat)
    requires e <= |s|
    requires forall k :: e <= k < |s| ==> s[k] != '\n'
    ensures NotesEnd(s, e) == |s|
    decreases |s| - e
  {
    if e < |s| {
      NotStartsAt(s, e, "\n#");
      NotStartsAt(s, e, "\n##");
      NotesEndNoNewline(s, e + 1);
    }
  }

  /** ` notes: text` on one line at the start of the body gives the stripped text as the notes. */
  lemma MetadataNotes(t: string)
    requires t != [] && !IsColonOrSpace(t[0])
    requires forall k :: 0 <= k < |t| ==> t[k] != '\n'
    ensures NotesOf(" notes: " + t) == Some(Strip(t))
  {
    var s := " notes: " + t;
    assert s[1..5] == "note";
    LowerOfLowerText("note");
    assert s[5] == 's' && s[6] == ':' && s[7] == ' ' && s[8] == t[0];
    assert ColonSpaceRunEnd(s, 8) == 8;
    assert ColonSpaceRunEnd(s, 6) == 8;
    NotesEndNoNewline(s, 9);
    assert NotesEnd(s, 9) == |s|;
    assert s[8..|s|] == t;
    assert s[0] == ' ';
    assert StartsAtIgnoreCase(s, 1, "note");
    assert LowerChar(s[5]) == 's';
    assert NotesFrom(s, 6) == Some(t);
    assert NotesAt(s, 0) == Some(t);
    FirstMatchAt(s, NotesAt, 0, 0);
  }

  /**
   * ` notes` closing the body: `[:\s]*` and `(.+?)` have nothing left, so
   * `s?` gives its letter back and the notes are that letter.
   */
  lemma NotesGiveBackLetter()
    ensures NotesOf(" notes") == Some("s")
  {
    var s := " notes";
    assert |s| == 6 && s[0] == ' ' && s[5] == 's';
    assert s[1..5] == "note";
    LowerOfLowerText("note");
    assert StartsAtIgnoreCase(s, 1, "note");
    assert ColonSpaceRunEnd(s, 6) == 6;
    assert NotesFrom(s, 6).None?;
    assert ColonSpaceRunEnd(s, 5) == 5;
    assert NotesEnd(s, 6) == 6;
    assert s[5..6] == "s";
    assert NotesFrom(s, 5) == Some("s");
    assert NotesAt(s, 0) == Some("s");
    FirstMatchAt(s, NotesAt, 0, 0);
    StripNoSpace("s");
  }
}
