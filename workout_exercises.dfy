/**
 * `extract_exercises`: the bullet and numbered lines of a workout note that
 * name exercises, each with its equipment (a bracketed group holding a
 * weight in кг/kg) and its reps per round (a leading number or an `xN`
 * suffix).
 *
 * The note is split into lines and every line is classified on its own:
 * it ends the list (an analysis heading), is skipped (blank lines, other
 * headings, noise lines) or is accepted as one exercise. `ExercisesOf` is
 * the list the classification gives; `ExtractExercises` is the loop of the
 * source, proved to compute it.
 *
 * An item is read as the source reads it (`ParseItemAsWritten`): the `xN`
 * suffix is looked for before the equipment group is taken out, so the `x`
 * of a weight such as `1x16кг` counts as a reps suffix. `ParseItem` is the
 * corrected reading, which takes the group out first.
 */
module WorkoutExercises {
  import opened Text

  /** One extracted exercise; `repsPerRound == 0` stands for the absent `reps_per_round` key. */
  datatype Exercise = Exercise(name: string, equipment: string, repsPerRound: nat)

  /** What a single line contributes. */
  datatype LineClass = Stop | Skip | Accept(exercise: Exercise)

  /** A leading count and the text after it. */
  datatype Lead = Lead(reps: nat, rest: string)

  /** Lines holding one of these (lower-cased) are warm-up, rest or scheme notes, not exercises. */
  const SkipKeywords: seq<string> := [
    "разминка", "заминка", "растяжка", "кошка", "воробей", "отдых",
    "повторить", "схема", "время", "раунд", "комплекс"]

  predicate IsBullet(c: char) { c == '-' || c == '*' || c == '•' }

  /** The class `[xXхХ×]`: Latin and Cyrillic x of both cases, and the multiplication sign. */
  predicate IsXChar(c: char) { c == 'x' || c == 'X' || c == 'х' || c == 'Х' || c == '×' }

  predicate IsOpen(c: char) { c == '(' || c == '[' }

  predicate IsClose(c: char) { c == ')' || c == ']' }

  predicate AllSpace(s: string) { forall k :: 0 <= k < |s| ==> IsSpace(s[k]) }

  // ---------------------------------------------------------------------
  // Line classification

  /** A heading that ends the exercise list: one whose lower-cased text mentions the analysis. */
  predicate IsAnalysisHeading(line: string) {
    line != [] && line[0] == '#' &&
    (Contains(Lower(line), "analysis") || Contains(Lower(line), "анализ") || Contains(Lower(line), "ai"))
  }

  /**
   * The item text of a stripped line: `^\s*[-*•]\s*(.+?)\s*$`, failing that
   * `^\s*\d+[.)]\s*(.+?)\s*$`, with the group stripped. Since the lazy
   * group is followed only by whitespace up to the end, it is the rest of
   * the line without its surrounding whitespace.
   */
  function ItemText(line: string): (r: Option<string>)
    ensures r.Some? ==> line != [] && (IsBullet(line[0]) || IsDigit(line[0])) && r.value != []
  {
    if line != [] && IsBullet(line[0]) then
      if Strip(line[1..]) != [] then Some(Strip(line[1..])) else None
    else if line != [] && IsDigit(line[0]) then
      var e := DigitRunEnd(line, 0);
      if e < |line| && (line[e] == '.' || line[e] == ')') && Strip(line[e + 1..]) != [] then
        Some(Strip(line[e + 1..]))
      else None
    else None
  }

  /** The decision the loop body of `extract_exercises` makes for one line. */
  function ClassifyLine(raw: string): (r: LineClass)
    ensures r == Stop ==> IsAnalysisHeading(Strip(raw))
    ensures r.Accept? ==> |r.exercise.name| > 2 && ItemText(Strip(raw)).Some?
  {
    var line := Strip(raw);
    if line == [] then Skip
    else if line[0] == '#' then
      if IsAnalysisHeading(line) then Stop else Skip
    else
      match ItemText(line)
      case None => Skip
      case Some(t) =>
        if ContainsAny(Lower(t), SkipKeywords) || Contains(t, ":**") then Skip
        else
          var e := ParseItemAsWritten(t);
          if |e.name| > 2 then Accept(e) else Skip
  }

  /** The exercises a note's lines give, in document order, up to the first analysis heading. */
  function ExercisesOf(lines: seq<string>): (r: seq<Exercise>)
    ensures |r| <= |lines|
    ensures forall k :: 0 <= k < |r| ==> |r[k].name| > 2
  {
    if lines == [] then []
    else
      match ClassifyLine(lines[0])
      case Stop => []
      case Skip => ExercisesOf(lines[1..])
      case Accept(e) => [e] + ExercisesOf(lines[1..])
  }

  /** `extract_exercises(content)`: the loop over the note's lines, appending each accepted exercise. */
  method ExtractExercises(content: string) returns (exercises: seq<Exercise>)
    ensures exercises == ExercisesOf(Split(content, '\n'))
  {
    var lines := Split(content, '\n');
    exercises := [];
    var i := 0;
    while i < |lines|
      invariant i <= |lines|
      invariant ExercisesOf(lines) == exercises + ExercisesOf(lines[i..])
    {
      var c := ClassifyLine(lines[i]);
      ExercisesOfStep(lines, i, c, exercises);
      if c == Stop {
        return;
      }
      if c.Accept? {
        exercises := exercises + [c.exercise];
      }
      i := i + 1;
    }
    assert exercises + ExercisesOf(lines[i..]) == exercises;
  }

  /** One step of the loop: the line at `i` ends the list, adds nothing, or adds its exercise. */
  lemma ExercisesOfStep(lines: seq<string>, i: nat, c: LineClass, done: seq<Exercise>)
    requires i < |lines| && c == ClassifyLine(lines[i])
    ensures c == Stop ==> done + ExercisesOf(lines[i..]) == done
    ensures c == Skip ==> done + ExercisesOf(lines[i..]) == done + ExercisesOf(lines[i + 1..])
    ensures c.Accept? ==> done + ExercisesOf(lines[i..]) == (done + [c.exercise]) + ExercisesOf(lines[i + 1..])
  {
    assert lines[i..][0] == lines[i] && lines[i..][1..] == lines[i + 1..];
    if c.Accept? {
      assert done + ([c.exercise] + ExercisesOf(lines[i + 1..])) == (done + [c.exercise]) + ExercisesOf(lines[i + 1..]);
    }
  }

  // ---------------------------------------------------------------------
  // Reps per round and equipment

  /**
   * `^(\d+)\s+(.+)$` on the stripped item text: a count, whitespace, and
   * the rest stripped. (Stripped text never ends in whitespace, so the
   * whitespace after the count is always followed by the rest.)
   */
  function SplitLeadingNumber(t: string): (r: Option<Lead>)
    ensures r.Some? ==> t != [] && IsDigit(t[0]) && |r.value.rest| < |t|
  {
    if t != [] && IsDigit(t[0]) then
      var e := DigitRunEnd(t, 0);
      if e < |t| && IsSpace(t[e]) then
        var f := SpaceRunEnd(t, e);
        if f < |t| then Some(Lead(NumberAt(t, 0), Strip(t[f..]))) else None
      else None
    else None
  }

  /** The count the text starts with, or none (0) and the text itself. */
  function LeadOf(t: string): Lead {
    match SplitLeadingNumber(t)
    case Some(l) => l
    case None => Lead(0, t)
  }

  /** `[xXхХ×](\d+)` at `p`, with the value of its digits. */
  function XRepsAt(s: string, p: nat): Option<nat> {
    if p + 1 < |s| && IsXChar(s[p]) && IsDigit(s[p + 1]) then Some(NumberAt(s, p + 1)) else None
  }

  /** First `xN` suffix of the text: `re.search(r'[xXхХ×](\d+)', t)`. */
  function SuffixReps(t: string): Option<nat> {
    match FirstMatch(t, XRepsAt, 0)
    case Some(m) => Some(m.1)
    case None => None
  }

  /** `\s*[xXхХ×]\d+` at `p`: where the match ends. */
  function XSuffixAt(s: string, p: nat): Option<nat> {
    if p <= |s| then
      var q := SpaceRunEnd(s, p);
      if q + 1 < |s| && IsXChar(s[q]) && IsDigit(s[q + 1]) then Some(DigitRunEnd(s, q + 1)) else None
    else None
  }

  /** `re.sub(r'\s*[xXхХ×]\d+', '', t).strip()`. */
  function RemoveSuffixes(t: string): string {
    Strip(SubFrom(t, XSuffixAt, "", 0))
  }

  /** Position of the first `)` or `]` at or after `i`, or the end of the text. */
  function CloseIndex(s: string, i: nat): (r: nat)
    requires i <= |s|
    decreases |s| - i
    ensures i <= r <= |s|
  {
    if i == |s| || IsClose(s[i]) then i else CloseIndex(s, i + 1)
  }

  predicate HasWeightUnit(w: string) { Contains(w, "кг") || Contains(w, "kg") }

  /**
   * `[\(\[]([^\)\]]*(?:кг|kg)[^\)\]]*)[\)\]]` at `p`, with its group. The
   * group cannot hold a closing bracket, so it runs exactly to the first
   * one, and the pattern matches when that stretch names a unit.
   */
  function EquipmentAt(s: string, p: nat): (r: Option<string>)
    ensures r.Some? ==> p + |r.value| + 2 <= |s|
  {
    if p < |s| && IsOpen(s[p]) then
      var c := CloseIndex(s, p + 1);
      if c < |s| && HasWeightUnit(s[p + 1..c]) then Some(s[p + 1..c]) else None
    else None
  }

  /** `\s*[\(\[][^\)\]]*(?:кг|kg)[^\)\]]*[\)\]]` at `p`: where the match ends. */
  function EquipmentRemovalAt(s: string, p: nat): Option<nat> {
    if p <= |s| then
      var q := SpaceRunEnd(s, p);
      match EquipmentAt(s, q)
      case Some(w) => Some(q + |w| + 2)
      case None => None
    else None
  }

  /** The equipment: the first weighted bracket group, stripped. */
  function EquipmentOf(t: string): Option<string> {
    match FirstMatch(t, EquipmentAt, 0)
    case Some(m) => Some(Strip(m.1))
    case None => None
  }

  /** The text with every weighted bracket group (and the whitespace before it) removed, stripped. */
  function RemoveEquipment(t: string): string {
    Strip(SubFrom(t, EquipmentRemovalAt, "", 0))
  }

  /**
   * The text the equipment is read from in the source: what the leading
   * count leaves, with every `xN` suffix removed when the reps come from one.
   */
  function RestAfterReps(t: string): string {
    var l := LeadOf(t);
    if l.reps == 0 && SuffixReps(l.rest).Some? then RemoveSuffixes(l.rest) else l.rest
  }

  /**
   * The item text read as the source reads it: a leading count, else the
   * first `xN` suffix (removing every suffix from the text), and then the
   * equipment from what is left.
   */
  function ParseItemAsWritten(t: string): (r: Exercise)
    ensures LeadOf(t).reps > 0 ==> r.repsPerRound == LeadOf(t).reps
    ensures LeadOf(t).reps == 0 ==> r.repsPerRound == SuffixReps(LeadOf(t).rest).GetOr(0)
  {
    var l := LeadOf(t);
    var r :=
      if l.reps == 0 then
        match SuffixReps(l.rest)
        case Some(n) => Lead(n, RemoveSuffixes(l.rest))
        case None => l
      else l;
    match EquipmentOf(r.rest)
    case Some(eq) => Exercise(RemoveEquipment(r.rest), eq, r.reps)
    case None => Exercise(r.rest, "", r.reps)
  }
  /**
   * The name and equipment of the as-written parse: the equipment is the
   * first weighted group of the text the reps step leaves, and the name is
   * that text with the groups removed, or the whole text without one.
   */
  lemma ParseItemAsWrittenParts(t: string)
    ensures var r := ParseItemAsWritten(t);
      var rest := RestAfterReps(t);
      r.equipment == EquipmentOf(rest).GetOr("") &&
      (EquipmentOf(rest).Some? ==> r.name == RemoveEquipment(rest)) &&
      (EquipmentOf(rest).None? ==> r.name == rest)
  {
  }


  /**
   * The item text read with the equipment taken first: a leading count,
   * the equipment group, and the `xN` suffix only in the text outside the
   * group, so that `(2x24кг)` stays whole and gives no reps.
   */
  function ParseItem(t: string): (r: Exercise)
    ensures LeadOf(t).reps > 0 ==> r.repsPerRound == LeadOf(t).reps
    ensures r.equipment == EquipmentOf(LeadOf(t).rest).GetOr("")
  {
    var l := LeadOf(t);
    var eq := EquipmentOf(l.rest);
    var rest := if eq.Some? then RemoveEquipment(l.rest) else l.rest;
    if l.reps == 0 then
      match SuffixReps(rest)
      case Some(n) => Exercise(RemoveSuffixes(rest), eq.GetOr(""), n)
      case None => Exercise(rest, eq.GetOr(""), 0)
    else Exercise(rest, eq.GetOr(""), l.reps)
  }

  // ---------------------------------------------------------------------
  // Stopping, skipping and document order

  predicate NoAnalysisHeading(lines: seq<string>) {
    forall k :: 0 <= k < |lines| ==> !IsAnalysisHeading(Strip(lines[k]))
  }

  /** Before the first analysis heading, the lines contribute independently and in order. */
  lemma {:induction false} ExercisesOfConcat(a: seq<string>, b: seq<string>)
    requires NoAnalysisHeading(a)
    ensures ExercisesOf(a + b) == ExercisesOf(a) + ExercisesOf(b)
    decreases |a|
  {
    if a != [] {
      var s := a + b;
      assert s[0] == a[0] && s[1..] == a[1..] + b;
      assert ClassifyLine(a[0]) != Stop by {
        assert !IsAnalysisHeading(Strip(a[0]));
      }
      assert NoAnalysisHeading(a[1..]) by {
        forall k | 0 <= k < |a[1..]| ensures !IsAnalysisHeading(Strip(a[1..][k])) {
          assert a[1..][k] == a[k + 1];
        }
      }
      ExercisesOfConcat(a[1..], b);
    } else {
      assert a + b == b;
    }
  }

  /** A line the classification skips contributes nothing, wherever it stands before the analysis. */
  lemma {:induction false} SkippedLineAddsNothing(a: seq<string>, l: string, b: seq<string>)
    requires NoAnalysisHeading(a) && ClassifyLine(l) == Skip
    ensures ExercisesOf(a + [l] + b) == ExercisesOf(a + b)
  {
    assert a + [l] + b == a + ([l] + b);
    ExercisesOfConcat(a, [l] + b);
    ExercisesOfCons(l, b, Skip);
    ExercisesOfConcat(a, b);
  }

  /** An accepted line adds exactly its exercise, at its place: order and duplicates are kept. */
  lemma {:induction false} AcceptedLineAppends(a: seq<string>, l: string, b: seq<string>, e: Exercise)
    requires NoAnalysisHeading(a) && ClassifyLine(l) == Accept(e)
    ensures ExercisesOf(a + [l] + b) == ExercisesOf(a) + [e] + ExercisesOf(b)
  {
    ConcatAssoc(a, [l], b);
    ExercisesOfConcat(a, [l] + b);
    ExercisesOfCons(l, b, ClassifyLine(l));
    ConcatAssoc(ExercisesOf(a), [e], ExercisesOf(b));
  }

  /** What the first line contributes ahead of the rest. */
  lemma ExercisesOfCons(l: string, b: seq<string>, c: LineClass)
    requires c == ClassifyLine(l)
    ensures c == Stop ==> ExercisesOf([l] + b) == []
    ensures c == Skip ==> ExercisesOf([l] + b) == ExercisesOf(b)
    ensures c.Accept? ==> ExercisesOf([l] + b) == [c.exercise] + ExercisesOf(b)
  {
    assert ([l] + b)[0] == l && ([l] + b)[1..] == b;
  }

  /** Nothing after the first analysis heading becomes an exercise. */
  lemma {:induction false} AnalysisHeadingStops(a: seq<string>, h: string, b: seq<string>)
    requires NoAnalysisHeading(a) && IsAnalysisHeading(Strip(h))
    ensures ExercisesOf(a + [h] + b) == ExercisesOf(a)
  {
    assert a + [h] + b == a + ([h] + b);
    ExercisesOfConcat(a, [h] + b);
    assert ClassifyLine(h) == Stop;
    ExercisesOfCons(h, b, Stop);
  }

  /** Every other heading line is skipped. */
  lemma {:induction false} OtherHeadingSkipped(a: seq<string>, h: string, b: seq<string>)
    requires NoAnalysisHeading(a)
    requires Strip(h) != [] && Strip(h)[0] == '#' && !IsAnalysisHeading(Strip(h))
    ensures ExercisesOf(a + [h] + b) == ExercisesOf(a + b)
  {
    SkippedLineAddsNothing(a, h, b);
  }

  /** An item naming one of the skip keywords is dropped. */
  lemma {:induction false} KeywordLineDropped(a: seq<string>, l: string, b: seq<string>, k: nat)
    requires NoAnalysisHeading(a)
    requires ItemText(Strip(l)).Some? && k < |SkipKeywords|
    requires Contains(Lower(ItemText(Strip(l)).value), SkipKeywords[k])
    ensures ExercisesOf(a + [l] + b) == ExercisesOf(a + b)
  {
    assert ContainsAny(Lower(ItemText(Strip(l)).value), SkipKeywords);
    assert ClassifyLine(l) == Skip;
    SkippedLineAddsNothing(a, l, b);
  }

  /** A metadata item such as `**Тип:** …` (seen as `*Тип:** …` after the bullet) is dropped. */
  lemma {:induction false} MetadataLineDropped(a: seq<string>, l: string, b: seq<string>)
    requires NoAnalysisHeading(a)
    requires ItemText(Strip(l)).Some? && Contains(ItemText(Strip(l)).value, ":**")
    ensures ExercisesOf(a + [l] + b) == ExercisesOf(a + b)
  {
    assert ClassifyLine(l) == Skip;
    SkippedLineAddsNothing(a, l, b);
  }

  /** An item whose name comes out at most two characters long is dropped. */
  lemma {:induction false} ShortNameDropped(a: seq<string>, l: string, b: seq<string>)
    requires NoAnalysisHeading(a)
    requires ItemText(Strip(l)).Some? && |ParseItemAsWritten(ItemText(Strip(l)).value).name| <= 2
    ensures ExercisesOf(a + [l] + b) == ExercisesOf(a + b)
  {
    assert ClassifyLine(l) == Skip;
    SkippedLineAddsNothing(a, l, b);
  }

  // ---------------------------------------------------------------------
  // Reading reps and equipment

  /** A count followed by whitespace and more text splits into the count and that text. */
  lemma {:induction false} LeadingNumberSplits(n: nat, u: string)
    requires u != [] && IsSpace(u[0]) && SpaceRunEnd(u, 0) < |u|
    ensures SplitLeadingNumber(NatToString(n) + u).Some?
    ensures SplitLeadingNumber(NatToString(n) + u).value.reps == n
    ensures SplitLeadingNumber(NatToString(n) + u).value.rest == Strip(u[SpaceRunEnd(u, 0)..])
  {
    var d := NatToString(n);
    NumberAtWritten(n, u);
    SpaceRunEndShift(d, u, 0);
    DropPastPrefix(d, u, SpaceRunEnd(u, 0));
    LeadingSplitAt(d + u, |d|, |d| + SpaceRunEnd(u, 0), u[0], d[0], u[SpaceRunEnd(u, 0)..]);
  }

  /** The split of a text whose digits end at `e` and whose whitespace after them ends at `f`. */
  lemma LeadingSplitAt(t: string, e: nat, f: nat, c: char, c0: char, rest: string)
    requires 0 < e < |t| && c == t[e] && c0 == t[0] && IsDigit(c0) && IsSpace(c)
    requires DigitRunEnd(t, 0) == e && SpaceRunEnd(t, e) == f && f < |t| && rest == t[f..]
    ensures SplitLeadingNumber(t).Some?
    ensures SplitLeadingNumber(t).value.reps == NumberAt(t, 0)
    ensures SplitLeadingNumber(t).value.rest == Strip(rest)
  {
  }

  /** A positive leading count is the reps per round, whatever suffix the rest carries. */
  lemma {:induction false} LeadingNumberWins(n: nat, u: string)
    requires n > 0 && u != [] && IsSpace(u[0]) && SpaceRunEnd(u, 0) < |u|
    ensures ParseItemAsWritten(NatToString(n) + u).repsPerRound == n
  {
    LeadingNumberSplits(n, u);
    LeadCountsReps(NatToString(n) + u, SplitLeadingNumber(NatToString(n) + u).value);
  }

  lemma {:induction false} LeadCountsReps(t: string, l: Lead)
    requires SplitLeadingNumber(t) == Some(l) && l.reps > 0
    ensures ParseItemAsWritten(t).repsPerRound == l.reps
  {
    assert LeadOf(t) == l;
  }

  lemma {:induction false} CloseIndexExact(s: string, i: nat, j: nat)
    requires i <= j <= |s|
    requires forall k :: i <= k < j ==> !IsClose(s[k])
    requires j == |s| || IsClose(s[j])
    ensures CloseIndex(s, i) == j
    decreases j - i
  {
    if i < j { CloseIndexExact(s, i + 1, j); }
  }

  predicate NoOpen(s: string) { '(' !in s && '[' !in s }

  predicate NoClose(s: string) { ')' !in s && ']' !in s }

  /** The group `o w c` starting at position `i` of `s` is a weighted bracket group. */
  lemma {:induction false} GroupAt(s: string, i: nat, o: char, w: string, c: char)
    requires IsOpen(o) && IsClose(c) && NoClose(w) && HasWeightUnit(w)
    requires i + |w| + 2 <= |s| && s[i] == o && s[i + 1..i + 1 + |w|] == w && s[i + 1 + |w|] == c
    ensures EquipmentAt(s, i) == Some(w)
  {
    forall k | i + 1 <= k < i + 1 + |w| ensures !IsClose(s[k]) {
      assert s[k] == w[k - i - 1];
    }
    CloseIndexExact(s, i + 1, i + 1 + |w|);
  }

  /** The equipment is the first weighted bracket group, stripped. */
  lemma {:induction false} EquipmentFirstGroup(a: string, o: char, w: string, c: char, b: string)
    requires IsOpen(o) && IsClose(c) && NoClose(w) && HasWeightUnit(w)
    requires NoOpen(a)
    ensures EquipmentOf(a + [o] + w + [c] + b) == Some(Strip(w))
  {
    var t := a + [o] + w + [c] + b;
    forall q | 0 <= q < |a| ensures EquipmentAt(t, q).None? {
      assert t[q] == a[q];
    }
    assert t[|a|] == o && t[|a| + 1..|a| + 1 + |w|] == w && t[|a| + 1 + |w|] == c;
    GroupAt(t, |a|, o, w, c);
    FirstMatchAt(t, EquipmentAt, 0, |a|);
  }

  /** No removal starts before a non-space end `m` of a stretch holding no opening bracket. */
  lemma {:induction false} NoRemovalBefore(s: string, m: nat)
    requires m <= |s| && (m == 0 || !IsSpace(s[m - 1]))
    requires forall k :: 0 <= k < m ==> !IsOpen(s[k])
    ensures forall k :: 0 <= k < m ==> EquipmentRemovalAt(s, k).None?
  {
    forall k | 0 <= k < m ensures EquipmentRemovalAt(s, k).None? {
      SpaceRunStopsBefore(s, k, m);
    }
  }

  /** No removal starts in a tail holding no opening bracket. */
  lemma {:induction false} NoRemovalAfter(s: string, e: nat)
    requires e <= |s|
    requires forall k :: e <= k < |s| ==> !IsOpen(s[k])
    ensures forall k :: e <= k < |s| ==> EquipmentRemovalAt(s, k).None?
  {
  }

  /** Whitespace from `i` up to a weighted group at `g` is removed with the group. */
  lemma {:induction false} RemovalAtGroup(s: string, i: nat, g: nat, w: string)
    requires i <= g < |s| && EquipmentAt(s, g) == Some(w)
    requires forall k :: i <= k < g ==> IsSpace(s[k])
    ensures MatchEnd(EquipmentRemovalAt, s, i) == Some(g + |w| + 2)
  {
    SpaceRunExact(s, i, g);
  }

  /** A text with one weighted group, at `g` after whitespace from `i`, loses exactly that stretch. */
  lemma {:induction false} RemovalOfOneGroup(s: string, i: nat, g: nat, w: string)
    requires i <= g < |s| && EquipmentAt(s, g) == Some(w)
    requires i == 0 || !IsSpace(s[i - 1])
    requires forall k :: 0 <= k < i ==> !IsOpen(s[k])
    requires forall k :: i <= k < g ==> IsSpace(s[k])
    requires forall k :: g + |w| + 2 <= k < |s| ==> !IsOpen(s[k])
    ensures SubFrom(s, EquipmentRemovalAt, "", 0) == s[..i] + s[g + |w| + 2..]
  {
    NoRemovalBefore(s, i);
    RemovalAtGroup(s, i, g, w);
    NoRemovalAfter(s, g + |w| + 2);
    SubFromOneMatch(s, EquipmentRemovalAt, "", i, g + |w| + 2);
  }

  /** The weighted group and the whitespace before it leave the name; the text around it stays. */
  lemma {:induction false} EquipmentRemoved(a: string, sp: string, o: char, w: string, c: char, b: string)
    requires IsOpen(o) && IsClose(c) && NoClose(w) && HasWeightUnit(w)
    requires NoOpen(a) && NoOpen(b) && AllSpace(sp)
    requires a == [] || !IsSpace(a[|a| - 1])
    ensures SubFrom(a + sp + [o] + w + [c] + b, EquipmentRemovalAt, "", 0) == a + b
  {
    var t := a + sp + [o] + w + [c] + b;
    var g := |a| + |sp|;
    assert t[g] == o && t[g + 1..g + 1 + |w|] == w && t[g + 1 + |w|] == c;
    GroupAt(t, g, o, w, c);
    forall k | 0 <= k < |a| ensures !IsOpen(t[k]) {
      assert t[k] == a[k];
    }
    if a != [] { assert t[|a| - 1] == a[|a| - 1]; }
    forall k | |a| <= k < g ensures IsSpace(t[k]) {
      assert t[k] == sp[k - |a|];
    }
    NoOpenTail(a + sp + [o] + w + [c], b);
    RemovalOfOneGroup(t, |a|, g, w);
    PiecesOfGrouped(a, sp, o, w, c, b);
  }

  /** A tail with no opening bracket keeps that property inside a longer text. */
  lemma NoOpenTail(p: string, b: string)
    requires NoOpen(b)
    ensures forall k :: |p| <= k < |p + b| ==> !IsOpen((p + b)[k])
  {
    forall k | |p| <= k < |p + b| ensures !IsOpen((p + b)[k]) {
      assert (p + b)[k] == b[k - |p|];
    }
  }

  lemma PiecesOfGrouped(a: string, sp: string, o: char, w: string, c: char, b: string)
    ensures (a + sp + [o] + w + [c] + b)[..|a|] == a
    ensures (a + sp + [o] + w + [c] + b)[|a| + |sp| + |w| + 2..] == b
  {
    assert a + sp + [o] + w + [c] + b == a + (sp + [o] + w + [c] + b);
  }

  /** No x-sign of the text is directly followed by a digit. */
  predicate NoXReps(s: string) {
    forall k :: 0 <= k < |s| - 1 ==> !(IsXChar(s[k]) && IsDigit(s[k + 1]))
  }

  /** The reps come from the first x-sign followed by digits, read whole. */
  lemma {:induction false} SuffixRepsFirst(a: string, x: char, n: nat, b: string)
    requires IsXChar(x) && NoXReps(a) && (b == [] || !IsDigit(b[0]))
    ensures SuffixReps(a + [x] + NatToString(n) + b) == Some(n)
  {
    var d := NatToString(n);
    var t := a + [x] + d + b;
    forall q | 0 <= q < |a| ensures XRepsAt(t, q).None? {
      assert t[q] == a[q];
      if q + 1 < |a| { assert t[q + 1] == a[q + 1]; } else { assert t[q + 1] == x; }
    }
    assert t == (a + [x]) + (d + b);
    NumberAtWritten(n, b);
    NumberAtShift(a + [x], d + b, 0);
    assert t[|a|] == x && t[|a| + 1] == d[0];
    FirstMatchAt(t, XRepsAt, 0, |a|);
  }

  /** Text without an x-sign before a digit has no suffix reps. */
  lemma {:induction false} NoSuffixReps(t: string)
    requires NoXReps(t)
    ensures SuffixReps(t).None?
  {
    forall q | 0 <= q <= |t| ensures XRepsAt(t, q).None? {
    }
  }

  /** No suffix starts before a non-space end `m` of a stretch with no x-sign before a digit. */
  lemma {:induction false} NoSuffixBefore(s: string, m: nat)
    requires m <= |s| && (m == 0 || !IsSpace(s[m - 1]))
    requires forall k :: 0 <= k < m && k + 1 < |s| ==> !(IsXChar(s[k]) && IsDigit(s[k + 1]))
    ensures forall k :: 0 <= k < m ==> XSuffixAt(s, k).None?
  {
    forall k | 0 <= k < m ensures XSuffixAt(s, k).None? {
      SpaceRunStopsBefore(s, k, m);
    }
  }

  /** No suffix starts in a tail with no x-sign before a digit. */
  lemma {:induction false} NoSuffixAfter(s: string, e: nat)
    requires e <= |s|
    requires forall k :: e <= k < |s| - 1 ==> !(IsXChar(s[k]) && IsDigit(s[k + 1]))
    ensures forall k :: e <= k < |s| ==> XSuffixAt(s, k).None?
  {
  }

  /** Whitespace from `i` up to an x-sign at `g` before a digit is removed with the digits. */
  lemma {:induction false} SuffixAtX(s: string, i: nat, g: nat)
    requires i <= g && g + 1 < |s| && IsXChar(s[g]) && IsDigit(s[g + 1])
    requires forall k :: i <= k < g ==> IsSpace(s[k])
    ensures MatchEnd(XSuffixAt, s, i) == Some(DigitRunEnd(s, g + 1))
  {
    SpaceRunExact(s, i, g);
  }

  /** A text with one suffix, at `g` after whitespace from `i`, loses exactly that stretch. */
  lemma {:induction false} RemovalOfOneSuffix(s: string, i: nat, g: nat)
    requires i <= g && g + 1 < |s| && IsXChar(s[g]) && IsDigit(s[g + 1])
    requires i == 0 || !IsSpace(s[i - 1])
    requires forall k :: 0 <= k < i && k + 1 < |s| ==> !(IsXChar(s[k]) && IsDigit(s[k + 1]))
    requires forall k :: i <= k < g ==> IsSpace(s[k])
    requires forall k :: DigitRunEnd(s, g + 1) <= k < |s| - 1 ==> !(IsXChar(s[k]) && IsDigit(s[k + 1]))
    ensures SubFrom(s, XSuffixAt, "", 0) == s[..i] + s[DigitRunEnd(s, g + 1)..]
  {
    NoSuffixBefore(s, i);
    SuffixAtX(s, i, g);
    NoSuffixAfter(s, DigitRunEnd(s, g + 1));
    SubFromOneMatch(s, XSuffixAt, "", i, DigitRunEnd(s, g + 1));
  }

  /** The suffix and the whitespace before it leave the name; the text around it stays. */
  lemma {:induction false} SuffixRemoved(a: string, sp: string, x: char, n: nat, b: string)
    requires IsXChar(x) && NoXReps(a) && NoXReps(b) && AllSpace(sp)
    requires b == [] || !IsDigit(b[0])
    requires a == [] || !IsSpace(a[|a| - 1])
    ensures SubFrom(a + sp + [x] + NatToString(n) + b, XSuffixAt, "", 0) == a + b
  {
    var d := NatToString(n);
    var t := a + sp + [x] + d + b;
    var g := |a| + |sp|;
    var e := g + 1 + |d|;
    assert t[g] == x && t[g + 1] == d[0];
    WrittenRunEnd(a + sp + [x], n, b);
    forall k | 0 <= k < |a| && k + 1 < |t| ensures !(IsXChar(t[k]) && IsDigit(t[k + 1])) {
      assert t[k] == a[k];
      if k + 1 < |a| {
        assert t[k + 1] == a[k + 1];
      } else if sp != [] {
        assert t[k + 1] == sp[0];
      } else {
        assert t[k + 1] == x;
      }
    }
    if a != [] { assert t[|a| - 1] == a[|a| - 1]; }
    forall k | |a| <= k < g ensures IsSpace(t[k]) {
      assert t[k] == sp[k - |a|];
    }
    NoXRepsTail(a + sp + [x] + d, b);
    RemovalOfOneSuffix(t, |a|, g);
    PiecesOfSuffixed(a, sp, x, d, b);
  }

  /** The digits of a written number, placed after `p`, run exactly to its end. */
  lemma WrittenRunEnd(p: string, n: nat, b: string)
    requires b == [] || !IsDigit(b[0])
    ensures DigitRunEnd(p + NatToString(n) + b, |p|) == |p| + |NatToString(n)|
  {
    var d := NatToString(n);
    ConcatAssoc(p, d, b);
    NumberAtWritten(n, b);
    DigitRunEndShift(p, d + b, 0);
  }

  /** A tail with no x-sign before a digit keeps that property inside a longer text. */
  lemma NoXRepsTail(p: string, b: string)
    requires NoXReps(b)
    ensures forall k :: |p| <= k < |p + b| - 1 ==> !(IsXChar((p + b)[k]) && IsDigit((p + b)[k + 1]))
  {
    forall k | |p| <= k < |p + b| - 1 ensures !(IsXChar((p + b)[k]) && IsDigit((p + b)[k + 1])) {
      assert (p + b)[k] == b[k - |p|] && (p + b)[k + 1] == b[k + 1 - |p|];
    }
  }

  lemma PiecesOfSuffixed(a: string, sp: string, x: char, d: string, b: string)
    ensures (a + sp + [x] + d + b)[..|a|] == a
    ensures (a + sp + [x] + d + b)[|a| + |sp| + 1 + |d|..] == b
  {
    assert a + sp + [x] + d + b == a + (sp + [x] + d + b);
  }

  // ---------------------------------------------------------------------
  // The equipment group that loses its weight

  lemma {:induction false} NoXRepsJoin(u: string, v: string)
    requires NoXReps(u) && NoXReps(v)
    requires u == [] || v == [] || !IsXChar(u[|u| - 1]) || !IsDigit(v[0])
    ensures NoXReps(u + v)
  {
    var s := u + v;
    forall k | 0 <= k < |s| - 1 ensures !(IsXChar(s[k]) && IsDigit(s[k + 1])) {
      if k + 1 < |u| {
        assert s[k] == u[k] && s[k + 1] == u[k + 1];
      } else if k + 1 == |u| {
        assert s[k] == u[|u| - 1] && s[k + 1] == v[0];
      } else {
        assert s[k] == v[k - |u|] && s[k + 1] == v[k + 1 - |u|];
      }
    }
  }

  lemma {:induction false} NoXCharNoXReps(u: string)
    requires 'x' !in u && 'X' !in u && 'х' !in u && 'Х' !in u && '×' !in u
    ensures NoXReps(u)
  {
    forall k | 0 <= k < |u| - 1 ensures !IsXChar(u[k]) {
      assert u[k] in u;
    }
  }

  lemma {:induction false} StripTrimmed(s: string)
    requires s != [] && !IsSpace(s[0]) && !IsSpace(s[|s| - 1])
    ensures Strip(s) == s
  {
  }

  /** An exercise name as the example lines have it: trimmed, no brackets, no count, no `xN`. */
  predicate PlainName(a: string) {
    a != [] && NoOpen(a) && NoXReps(a) && !IsDigit(a[0]) && !IsSpace(a[0]) && !IsSpace(a[|a| - 1])
  }

  /** A weight such as `16кг` or `2x24кг`: no brackets, trimmed, naming a unit. */
  predicate PlainWeight(w: string) {
    w != [] && NoClose(w) && HasWeightUnit(w) && !IsSpace(w[0]) && !IsSpace(w[|w| - 1])
  }

  /** A name followed by one weighted group reads as that name and that equipment. */
  lemma {:induction false} NameWithGroup(a: string, w: string)
    requires PlainName(a) && PlainWeight(w)
    ensures LeadOf(a + " (" + w + ")") == Lead(0, a + " (" + w + ")")
    ensures EquipmentOf(a + " (" + w + ")") == Some(w)
    ensures RemoveEquipment(a + " (" + w + ")") == a
  {
    var t := a + " (" + w + ")";
    assert t[0] == a[0];
    GroupEquipment(a, w);
    GroupRemoved(a, w);
  }

  lemma {:induction false} GroupEquipment(a: string, w: string)
    requires PlainName(a) && PlainWeight(w)
    ensures EquipmentOf(a + " (" + w + ")") == Some(w)
  {
    GroupPieces(a, w);
    assert NoOpen(a + " ") by {
      assert a + " " == a + [' '];
    }
    EquipmentFirstGroup(a + " ", '(', w, ')', "");
    StripTrimmed(w);
  }

  lemma {:induction false} GroupRemoved(a: string, w: string)
    requires PlainName(a) && PlainWeight(w)
    ensures RemoveEquipment(a + " (" + w + ")") == a
  {
    GroupPieces(a, w);
    EquipmentRemoved(a, " ", '(', w, ')', "");
    StripTrimmed(a);
  }

  lemma GroupPieces(a: string, w: string)
    ensures a + " (" + w + ")" == a + " " + ['('] + w + [')'] + ""
    ensures a + [] == a
  {
  }

  /** `16кг` and the like: a written number followed by the unit. */
  lemma {:induction false} NumberWeight(m: nat)
    ensures PlainWeight(NatToString(m) + "кг")
  {
    var d := NatToString(m);
    var w := d + "кг";
    assert StartsAt(w, |d|, "кг");
    ContainsAt(w, "кг", |d|);
    assert w[0] == d[0];
    forall k | 0 <= k < |w| ensures w[k] != ')' && w[k] != ']' {
      if k < |d| { assert w[k] == d[k]; }
    }
  }

  /** `2x24кг`: a count, an x-sign and a written weight. */
  lemma {:induction false} CountWeight(m: nat, n: nat)
    ensures PlainWeight(NatToString(m) + "x" + NatToString(n) + "кг")
  {
    var dm := NatToString(m);
    var dn := NatToString(n);
    var w := dm + "x" + dn + "кг";
    assert w == dm + "x" + (dn + "кг");
    NumberWeight(n);
    assert StartsAt(w, |dm| + 1 + |dn|, "кг");
    ContainsAt(w, "кг", |dm| + 1 + |dn|);
    assert w[0] == dm[0];
    forall k | 0 <= k < |w| ensures w[k] != ')' && w[k] != ']' {
      if k < |dm| { assert w[k] == dm[k]; }
      else if k > |dm| { assert w[k] == (dn + "кг")[k - |dm| - 1]; }
    }
  }

  /** Written digits hold no x-sign. */
  lemma {:induction false} DigitsNoXReps(d: string)
    requires AllDigits(d)
    ensures NoXReps(d)
  {
  }

  /** The text before the x-sign of a weighted group `(mxnкг)` has no x-sign before a digit. */
  lemma {:induction false} BeforeCountNoXReps(a: string, m: nat)
    requires PlainName(a)
    ensures NoXReps(a + " (" + NatToString(m))
    ensures !IsSpace((a + " (" + NatToString(m))[|a + " (" + NatToString(m)| - 1])
  {
    var dm := NatToString(m);
    NoXRepsJoin(a, " (");
    DigitsNoXReps(dm);
    NoXRepsJoin(a + " (", dm);
    assert (a + " (" + dm)[|a + " (" + dm| - 1] == dm[|dm| - 1];
  }

  /** The first `xN` of `a (mxnкг)` is the n inside the group. */
  lemma {:induction false} WeightedGroupSuffix(a: string, m: nat, n: nat)
    requires PlainName(a)
    ensures SuffixReps(a + " (" + NatToString(m) + "x" + NatToString(n) + "кг)") == Some(n)
  {
    var p := a + " (" + NatToString(m);
    assert a + " (" + NatToString(m) + "x" + NatToString(n) + "кг)" == p + ['x'] + NatToString(n) + "кг)";
    BeforeCountNoXReps(a, m);
    SuffixRepsFirst(p, 'x', n, "кг)");
  }

  /** Removing the suffixes of `a (mxnкг)` leaves `a (mкг)`. */
  lemma {:induction false} WeightedGroupSuffixRemoved(a: string, m: nat, n: nat)
    requires PlainName(a)
    ensures RemoveSuffixes(a + " (" + NatToString(m) + "x" + NatToString(n) + "кг)") ==
      a + " (" + (NatToString(m) + "кг") + ")"
  {
    var p := a + " (" + NatToString(m);
    assert a + " (" + NatToString(m) + "x" + NatToString(n) + "кг)" == p + [] + ['x'] + NatToString(n) + "кг)";
    BeforeCountNoXReps(a, m);
    NoXCharNoXReps("кг)");
    SuffixRemoved(p, [], 'x', n, "кг)");
    var u := a + " (" + (NatToString(m) + "кг") + ")";
    assert p + "кг)" == u;
    assert u[0] == a[0];
    StripTrimmed(u);
  }

  /**
   * As written, the x inside a weighted group `(mxnкг)` is read as a suffix:
   * the exercise gets n reps per round and the equipment shrinks to `mкг`.
   */
  lemma {:induction false} WeightedGroupAsWritten(a: string, m: nat, n: nat)
    requires PlainName(a)
    ensures ParseItemAsWritten(a + " (" + NatToString(m) + "x" + NatToString(n) + "кг)") ==
      Exercise(a, NatToString(m) + "кг", n)
  {
    var t := a + " (" + NatToString(m) + "x" + NatToString(n) + "кг)";
    assert t[0] == a[0];
    assert LeadOf(t) == Lead(0, t);
    WeightedGroupSuffix(a, m, n);
    WeightedGroupSuffixRemoved(a, m, n);
    NumberWeight(m);
    NameWithGroup(a, NatToString(m) + "кг");
  }

  /** Taking the equipment first keeps the group whole and reads no reps from it. */
  lemma {:induction false} WeightedGroupKeptWhole(a: string, m: nat, n: nat)
    requires PlainName(a)
    ensures ParseItem(a + " (" + NatToString(m) + "x" + NatToString(n) + "кг)") ==
      Exercise(a, NatToString(m) + "x" + NatToString(n) + "кг", 0)
  {
    var w := NatToString(m) + "x" + NatToString(n) + "кг";
    assert a + " (" + NatToString(m) + "x" + NatToString(n) + "кг)" == a + " (" + w + ")";
    CountWeight(m, n);
    NameWithGroup(a, w);
    NoSuffixReps(a);
  }

  /** `Махи (1x16кг)` as written: 16 reps per round and the equipment `1кг`. */
  lemma {:induction false} SwingsAsWritten()
    ensures ParseItemAsWritten("Махи (1x16кг)") == Exercise("Махи", "1кг", 16)
  {
    SwingsPlainName();
    SwingsText();
    WeightedGroupAsWritten("Махи", 1, 16);
  }

  /** `Махи (1x16кг)` read with the equipment first: no reps and the equipment `1x16кг`. */
  lemma {:induction false} SwingsKeptWhole()
    ensures ParseItem("Махи (1x16кг)") == Exercise("Махи", "1x16кг", 0)
  {
    SwingsPlainName();
    SwingsText();
    WeightedGroupKeptWhole("Махи", 1, 16);
  }

  lemma SwingsText()
    ensures "Махи (1x16кг)" == "Махи" + " (" + NatToString(1) + "x" + NatToString(16) + "кг)"
    ensures NatToString(1) + "кг" == "1кг"
    ensures NatToString(1) + "x" + NatToString(16) + "кг" == "1x16кг"
  {
    assert NatToString(1) == "1" && NatToString(16) == "16";
  }

  lemma {:induction false} SwingsPlainName()
    ensures PlainName("Махи")
  {
    NoDigitNoXReps("Махи");
  }

  /** Text without digits has no `xN`. */
  lemma {:induction false} NoDigitNoXReps(u: string)
    requires forall k :: 0 <= k < |u| ==> !IsDigit(u[k])
    ensures NoXReps(u)
  {
  }
}
