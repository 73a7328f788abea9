/**
 * `writers/markdown_writer.py` once reading and writing the files is
 * separated out: removing every `## AI Analysis` section and collapsing
 * blank lines, appending the new section at the end, formatting that
 * section and the calorie table, and updating an exercise note's
 * frontmatter.
 *
 * Number formatting (`{x:.1f}`, `str(x)`) is passed in as `fmt1` and
 * `show`; the timestamp is passed in as text.
 */
module MarkdownWriter {
  import opened Text
  import opened Documents

  /** The heading the writer's removal pattern starts with, newline included (case matters). */
  const Heading: string := "## AI Analysis\n"

  // ---------------------------------------------------------------------
  // Removing the old sections

  /** Where the lazy `.*?(?=\n## |\Z)` stops: the first `\n## ` at or after `e`, else the end. */
  function SectionEnd(s: string, e: nat): (r: nat)
    requires e <= |s|
    decreases |s| - e
    ensures e <= r <= |s|
    ensures r == |s| || StartsAt(s, r, "\n## ")
    ensures forall k :: e <= k < r ==> !StartsAt(s, k, "\n## ")
  {
    if e == |s| || StartsAt(s, e, "\n## ") then e else SectionEnd(s, e + 1)
  }

  /** `## AI Analysis\n.*?(?=\n## |\Z)` at `p` (dot matching newlines): where the section ends. */
  function AnalysisAt(s: string, p: nat): (r: Option<nat>)
    ensures r.Some? ==> p < r.value <= |s|
  {
    if StartsAt(s, p, Heading) then Some(SectionEnd(s, p + |Heading|)) else None
  }

  /** The first `re.sub` of `write_analysis_to_workout` and `remove_analysis_section`. */
  function RemoveSections(content: string): (r: string)
    ensures |r| <= |content|
  {
    SubFromShrinks(content, AnalysisAt, 0);
    SubFrom(content, AnalysisAt, "", 0)
  }

  /** The removal changes the text exactly when the text holds the heading. */
  lemma RemoveChangesIffHeading(content: string)
    ensures RemoveSections(content) == content <==> !Contains(content, Heading)
  {
    if Contains(content, Heading) {
      var k := IndexOf(content, Heading, 0).value;
      assert k < |content|;
      assert MatchEnd(AnalysisAt, content, k).Some?;
      SubFromShrinksStrictly(content, AnalysisAt, 0, k);
    } else {
      forall k | 0 <= k < |content| ensures AnalysisAt(content, k).None? {
        assert !StartsAt(content, k, Heading);
      }
      SubFromNoMatch(content, AnalysisAt, "");
    }
  }

  /**
   * With one heading, at `i`, the section from it up to the next `\n## `
   * (or the end) is cut out and everything around it is kept.
   */
  lemma RemoveOneSection(content: string, i: nat)
    requires StartsAt(content, i, Heading)
    requires forall k :: 0 <= k < |content| && k != i ==> !StartsAt(content, k, Heading)
    ensures RemoveSections(content) == content[..i] + content[SectionEnd(content, i + |Heading|)..]
  {
    var e := SectionEnd(content, i + |Heading|);
    assert MatchEnd(AnalysisAt, content, i) == Some(e);
    SubFromOneMatch(content, AnalysisAt, "", i, e);
    assert content[..i] + "" + content[e..] == content[..i] + content[e..];
  }

  /**
   * One step of the removal, wherever the scan stands: the text up to the
   * next heading is kept, that heading's section is cut, and removal goes
   * on from where the section ends. Applied at each heading in turn, every
   * section is removed and all text between sections is kept.
   */
  lemma RemoveNextSection(content: string, p: nat, i: nat)
    requires p <= i && StartsAt(content, i, Heading)
    requires forall k :: p <= k < i ==> !StartsAt(content, k, Heading)
    ensures SubFrom(content, AnalysisAt, "", p) ==
      content[p..i] + SubFrom(content, AnalysisAt, "", SectionEnd(content, i + |Heading|))
  {
    NoSectionBetween(content, p, i);
    SubFromSkip(content, AnalysisAt, "", p, i);
    SectionCut(content, i);
  }

  /** No section starts where no heading does. */
  lemma NoSectionBetween(content: string, p: nat, i: nat)
    requires forall k :: p <= k < i ==> !StartsAt(content, k, Heading)
    ensures forall k :: p <= k < i ==> AnalysisAt(content, k).None?
  {
  }

  /** At a heading, removal skips to the section's end. */
  lemma SectionCut(content: string, i: nat)
    requires StartsAt(content, i, Heading)
    ensures SubFrom(content, AnalysisAt, "", i) == SubFrom(content, AnalysisAt, "", SectionEnd(content, i + |Heading|))
  {
    assert MatchEnd(AnalysisAt, content, i) == Some(SectionEnd(content, i + |Heading|));
  }

  /** The first section is cut, and removal goes on after it, whatever follows. */
  lemma RemoveFirstSection(content: string, i: nat)
    requires StartsAt(content, i, Heading)
    requires forall k :: 0 <= k < i ==> !StartsAt(content, k, Heading)
    ensures RemoveSections(content) ==
      content[..i] + SubFrom(content, AnalysisAt, "", SectionEnd(content, i + |Heading|))
  {
    RemoveNextSection(content, 0, i);
    assert content[0..i] == content[..i];
  }

  /**
   * A note with two analysis sections, as a repeated write leaves it, loses
   * both; the text before, between and after them is kept.
   */
  lemma RemoveTwoSections(content: string, i: nat, j: nat)
    requires StartsAt(content, i, Heading)
    requires forall k :: 0 <= k < i ==> !StartsAt(content, k, Heading)
    requires StartsAt(content, j, Heading) && SectionEnd(content, i + |Heading|) <= j
    requires forall k :: SectionEnd(content, i + |Heading|) <= k < j ==> !StartsAt(content, k, Heading)
    requires forall k :: SectionEnd(content, j + |Heading|) <= k < |content| ==> !StartsAt(content, k, Heading)
    ensures RemoveSections(content) ==
      content[..i] + content[SectionEnd(content, i + |Heading|)..j] + content[SectionEnd(content, j + |Heading|)..]
  {
    var e1 := SectionEnd(content, i + |Heading|);
    var e2 := SectionEnd(content, j + |Heading|);
    RemoveFirstSection(content, i);
    RemoveNextSection(content, e1, j);
    RemoveNoFurtherSection(content, e2);
  }

  /** Past the last heading, removal keeps the rest of the text. */
  lemma RemoveNoFurtherSection(content: string, p: nat)
    requires p <= |content|
    requires forall k :: p <= k < |content| ==> !StartsAt(content, k, Heading)
    ensures SubFrom(content, AnalysisAt, "", p) == content[p..]
  {
    NoSectionBetween(content, p, |content|);
    SubFromSkip(content, AnalysisAt, "", p, |content|);
    assert content[p..|content|] == content[p..];
  }

  // ---------------------------------------------------------------------
  // Collapsing blank lines

  /** The end of the run of newlines starting at `i`. */
  function NewlineRunEnd(s: string, i: nat): (j: nat)
    requires i <= |s|
    decreases |s| - i
    ensures i <= j <= |s|
    ensures j == |s| || s[j] != '\n'
    ensures forall k :: i <= k < j ==> s[k] == '\n'
  {
    if i < |s| && s[i] == '\n' then NewlineRunEnd(s, i + 1) else i
  }

  /** `\n{3,}` at `p`: the whole run of newlines. */
  function BlankRunAt(s: string, p: nat): (r: Option<nat>)
    ensures r.Some? ==> p + 3 <= r.value <= |s|
  {
    if StartsAt(s, p, "\n\n\n") then
      assert s[p] == '\n' && s[p + 1] == '\n' && s[p + 2] == '\n';
      Some(NewlineRunEnd(s, p))
    else None
  }

  /** The second `re.sub`: every run of three or more newlines becomes one blank line. */
  function CollapseNewlines(s: string): (r: string)
    ensures NoTriple(r)
  {
    CollapseFrom(s, 0);
    SubFrom(s, BlankRunAt, "\n\n", 0)
  }

  /** `remove_analysis_section` on the file's text. */
  function RemoveAnalysisSection(content: string): (r: string)
    ensures NoTriple(r)
  {
    CollapseNewlines(RemoveSections(content))
  }

  /** No three newlines in a row. */
  predicate NoTriple(x: string) {
    forall i :: 0 <= i && i + 2 < |x| ==> !(x[i] == '\n' && x[i + 1] == '\n' && x[i + 2] == '\n')
  }

  function LeadingNewlines(x: string): nat {
    if x != [] && x[0] == '\n' then 1 + LeadingNewlines(x[1..]) else 0
  }

  /** After the collapse no run of three newlines is left. */
  lemma CollapseLeavesNoTriple(s: string)
    ensures NoTriple(CollapseNewlines(s))
  {
    CollapseFrom(s, 0);
  }

  /** Text without such a run is left as it is. */
  lemma CollapseKeepsShortRuns(s: string)
    requires NoTriple(s)
    ensures CollapseNewlines(s) == s
  {
    forall k | 0 <= k < |s| ensures BlankRunAt(s, k).None? {
      TripleAt(s, k);
    }
    SubFromNoMatch(s, BlankRunAt, "\n\n");
  }

  /** The collapse from `p` on has no triple newline and starts with the run at `p`, cut to two when replaced. */
  ghost predicate CollapsedFrom(s: string, p: nat)
    requires p <= |s|
  {
    var out := SubFrom(s, BlankRunAt, "\n\n", p);
    NoTriple(out) && LeadingNewlines(out) == if NewlineRunEnd(s, p) - p >= 3 then 2 else NewlineRunEnd(s, p) - p
  }

  lemma {:induction false} CollapseFrom(s: string, p: nat)
    requires p <= |s|
    ensures CollapsedFrom(s, p)
    decreases |s| - p
  {
    if p < |s| {
      match MatchEnd(BlankRunAt, s, p)
      case Some(e) =>
        CollapseFrom(s, e);
        CollapseReplaced(s, p, e);
      case None =>
        CollapseFrom(s, p + 1);
        CollapseCopied(s, p);
    }
  }

  /** A run of three or more newlines becomes two, and what follows the run starts with no newline. */
  lemma CollapseReplaced(s: string, p: nat, e: nat)
    requires p < |s| && MatchEnd(BlankRunAt, s, p) == Some(e)
    requires CollapsedFrom(s, e)
    ensures CollapsedFrom(s, p)
  {
    RunOfThree(s, p);
    var y := SubFrom(s, BlankRunAt, "\n\n", e);
    assert SubFrom(s, BlankRunAt, "\n\n", p) == "\n\n" + y;
    assert NewlineRunEnd(s, e) == e;
    NoTripleCons('\n', y);
    NoTripleCons('\n', ['\n'] + y);
    assert "\n\n" + y == ['\n'] + (['\n'] + y);
  }

  /** A character where no long run starts is copied. */
  lemma CollapseCopied(s: string, p: nat)
    requires p < |s| && MatchEnd(BlankRunAt, s, p).None?
    requires CollapsedFrom(s, p + 1)
    ensures CollapsedFrom(s, p)
  {
    RunOfThree(s, p);
    var y := SubFrom(s, BlankRunAt, "\n\n", p + 1);
    assert SubFrom(s, BlankRunAt, "\n\n", p) == [s[p]] + y;
    if s[p] == '\n' {
      assert NewlineRunEnd(s, p) == NewlineRunEnd(s, p + 1);
    }
    NoTripleCons(s[p], y);
  }

  /** The run at `p` has three newlines or more exactly when `\n\n\n` starts there. */
  lemma RunOfThree(s: string, p: nat)
    requires p < |s|
    ensures StartsAt(s, p, "\n\n\n") <==> NewlineRunEnd(s, p) - p >= 3
    ensures MatchEnd(BlankRunAt, s, p).Some? <==> StartsAt(s, p, "\n\n\n")
    ensures MatchEnd(BlankRunAt, s, p).Some? ==> MatchEnd(BlankRunAt, s, p).value == NewlineRunEnd(s, p)
  {
    if NewlineRunEnd(s, p) - p >= 3 {
      assert s[p..p + 3] == "\n\n\n";
    }
    if StartsAt(s, p, "\n\n\n") {
      assert s[p] == '\n' && s[p + 1] == '\n' && s[p + 2] == '\n';
    }
  }

  lemma TripleAt(s: string, k: nat)
    ensures StartsAt(s, k, "\n\n\n") ==> k + 2 < |s| && s[k] == '\n' && s[k + 1] == '\n' && s[k + 2] == '\n'
  {
    if StartsAt(s, k, "\n\n\n") {
      assert s[k..k + 3] == "\n\n\n";
    }
  }

  lemma TwoLeading(y: string)
    requires |y| >= 2
    ensures y[0] == '\n' && y[1] == '\n' ==> LeadingNewlines(y) >= 2
  {
    assert y[1..][0] == y[1];
  }

  lemma NoTripleCons(c: char, y: string)
    requires NoTriple(y) && (c == '\n' ==> LeadingNewlines(y) <= 1)
    ensures NoTriple([c] + y)
    ensures LeadingNewlines([c] + y) == if c == '\n' then 1 + LeadingNewlines(y) else 0
  {
    var x := [c] + y;
    assert x[1..] == y;
    if |y| >= 2 {
      TwoLeading(y);
    }
    forall i | 1 <= i && i + 2 < |x| ensures !(x[i] == '\n' && x[i + 1] == '\n' && x[i + 2] == '\n') {
      assert x[i] == y[i - 1] && x[i + 1] == y[i] && x[i + 2] == y[i + 1];
    }
  }

  lemma NoTriplePrefix(x: string, n: nat)
    requires NoTriple(x) && n <= |x|
    ensures NoTriple(x[..n])
  {
  }

  // ---------------------------------------------------------------------
  // Writing the analysis

  /** The new text `write_analysis_to_workout` writes: the cleaned note, right-stripped, a blank line, the section. */
  function WriteAnalysis(content: string, section: string): (r: string)
    ensures |r| >= |section| + 2 && r[|r| - |section|..] == section
    ensures r[|r| - |section| - 2..|r| - |section|] == "\n\n"
    ensures var kept := r[..|r| - |section| - 2]; NoTriple(kept) && (kept == [] || !IsSpace(kept[|kept| - 1]))
  {
    var cleaned := RemoveAnalysisSection(content);
    NoTriplePrefix(cleaned, |RStrip(cleaned)|);
    var r := RStrip(cleaned) + "\n\n" + section;
    assert r[..|r| - |section| - 2] == RStrip(cleaned);
    r
  }

  /**
   * The written text ends with the section after exactly one blank line; the
   * note before it ends in no whitespace and has no run of three newlines.
   */
  lemma WrittenShape(content: string, section: string)
    ensures var kept := RStrip(RemoveAnalysisSection(content));
      WriteAnalysis(content, section) == kept + "\n\n" + section &&
      (kept == [] || !IsSpace(kept[|kept| - 1])) && NoTriple(kept)
  {
    var cleaned := RemoveAnalysisSection(content);
    CollapseLeavesNoTriple(RemoveSections(content));
    NoTriplePrefix(cleaned, |RStrip(cleaned)|);
  }

  /** A note without the heading only loses its long blank runs and trailing whitespace. */
  lemma WriteWithoutSection(content: string, section: string)
    requires !Contains(content, Heading) && NoTriple(content)
    ensures WriteAnalysis(content, section) == RStrip(content) + "\n\n" + section
  {
    RemoveChangesIffHeading(content);
    CollapseKeepsShortRuns(content);
  }

  // ---------------------------------------------------------------------
  // Formatting the section

  /** An entry of `muscle_groups_balance`: a group and its percentage. */
  datatype MuscleShare = MuscleShare(muscle: string, percentage: real)

  /** `muscle_groups_mapping.get(muscle, muscle)`. */
  function MuscleName(muscle: string): string {
    if muscle == "shoulders" then "Плечи"
    else if muscle == "legs" then "Ноги"
    else if muscle == "core" then "Пресс"
    else if muscle == "back" then "Спина"
    else if muscle == "chest" then "Грудь"
    else if muscle == "arms" then "Руки"
    else if muscle == "fullBody" then "Всё тело"
    else muscle
  }

  /** A group outside the mapping is shown by its own key. */
  lemma UnknownMuscleKept(muscle: string)
    requires muscle !in ["shoulders", "legs", "core", "back", "chest", "arms", "fullBody"]
    ensures MuscleName(muscle) == muscle
  {
    assert muscle != "shoulders" && muscle != "legs" && muscle != "core" && muscle != "back";
    assert muscle != "chest" && muscle != "arms" && muscle != "fullBody";
  }

  /** Non-increasing by percentage. */
  predicate Descending(xs: seq<MuscleShare>) {
    forall i, j :: 0 <= i < j < |xs| ==> xs[i].percentage >= xs[j].percentage
  }

  /** Put `x` after every entry of at least its percentage (it came later in the input). */
  function InsertShare(xs: seq<MuscleShare>, x: MuscleShare): (r: seq<MuscleShare>)
    decreases |xs|
    ensures multiset(r) == multiset(xs) + multiset{x}
    ensures |r| == |xs| + 1
  {
    if xs == [] then [x]
    else if xs[0].percentage >= x.percentage then
      assert xs == [xs[0]] + xs[1..];
      [xs[0]] + InsertShare(xs[1..], x)
    else [x] + xs
  }

  lemma {:induction false} InsertKeepsDescending(xs: seq<MuscleShare>, x: MuscleShare)
    requires Descending(xs)
    ensures Descending(InsertShare(xs, x))
    decreases |xs|
  {
    if xs != [] && xs[0].percentage >= x.percentage {
      InsertKeepsDescending(xs[1..], x);
      var rest := InsertShare(xs[1..], x);
      InsertBounded(xs[1..], x, xs[0].percentage);
      assert InsertShare(xs, x) == [xs[0]] + rest;
    }
  }

  /** Every entry of the insertion has at most the bound the inputs share. */
  lemma {:induction false} InsertBounded(xs: seq<MuscleShare>, x: MuscleShare, b: real)
    requires x.percentage <= b && forall i :: 0 <= i < |xs| ==> xs[i].percentage <= b
    ensures forall i :: 0 <= i < |InsertShare(xs, x)| ==> InsertShare(xs, x)[i].percentage <= b
    decreases |xs|
  {
    if xs != [] && xs[0].percentage >= x.percentage {
      InsertBounded(xs[1..], x, b);
    }
  }

  /** `sorted(items, key=lambda x: -x[1])`: by descending percentage, ties in input order. */
  function SortByPercentage(xs: seq<MuscleShare>): seq<MuscleShare> {
    if xs == [] then [] else InsertShare(SortByPercentage(xs[..|xs| - 1]), xs[|xs| - 1])
  }

  /** The sort is a descending permutation of its input. */
  lemma {:induction false} SortedByPercentage(xs: seq<MuscleShare>)
    ensures Descending(SortByPercentage(xs))
    ensures multiset(SortByPercentage(xs)) == multiset(xs)
  {
    SortDescends(xs);
    SortPermutes(xs);
  }

  lemma {:induction false} SortDescends(xs: seq<MuscleShare>)
    ensures Descending(SortByPercentage(xs))
  {
    if xs != [] {
      SortDescends(xs[..|xs| - 1]);
      InsertKeepsDescending(SortByPercentage(xs[..|xs| - 1]), xs[|xs| - 1]);
    }
  }

  lemma {:induction false} SortPermutes(xs: seq<MuscleShare>)
    ensures multiset(SortByPercentage(xs)) == multiset(xs)
  {
    if xs != [] {
      var init := xs[..|xs| - 1];
      SortPermutes(init);
      assert xs == init + [xs[|xs| - 1]];
    }
  }

  /** One line of the balance list. */
  function MuscleLine(m: MuscleShare, showPercent: real -> string): string {
    "- " + MuscleName(m.muscle) + ": " + showPercent(m.percentage) + "%\n"
  }

  /** The lines of the entries, one after another. */
  function MuscleLines(xs: seq<MuscleShare>, showPercent: real -> string): string {
    if xs == [] then "" else MuscleLines(xs[..|xs| - 1], showPercent) + MuscleLine(xs[|xs| - 1], showPercent)
  }

  /** The lines of two runs of entries are the lines of each, in order. */
  lemma {:induction false} MuscleLinesAppend(xs: seq<MuscleShare>, ys: seq<MuscleShare>, showPercent: real -> string)
    ensures MuscleLines(xs + ys, showPercent) == MuscleLines(xs, showPercent) + MuscleLines(ys, showPercent)
    decreases |ys|
  {
    if ys == [] {
      assert xs + ys == xs;
    } else {
      var init := ys[..|ys| - 1];
      assert (xs + ys)[..|xs + ys| - 1] == xs + init;
      assert (xs + ys)[|xs + ys| - 1] == ys[|ys| - 1];
      MuscleLinesAppend(xs, init, showPercent);
      ConcatAssoc(MuscleLines(xs, showPercent), MuscleLines(init, showPercent), MuscleLine(ys[|ys| - 1], showPercent));
    }
  }

  /** The part of the section above the muscle list: the heading, then the overview. */
  function SectionHead(analysis: Dict, userWeight: int, show: Value -> string, fmt1: Value -> string): string {
    Heading + Overview(analysis, userWeight, show, fmt1)
  }

  /** The totals of the analysis, and the title of the muscle list. */
  function Overview(analysis: Dict, userWeight: int, show: Value -> string, fmt1: Value -> string): string {
    "\n**Общая информация:**\n- Всего повторений: " + show(Get(analysis, "total_reps", Num(0.0))) +
    "\n- Калории: ~" + fmt1(Get(analysis, "total_calories", Num(0.0))) +
    " ккал\n- Время: ~" + show(Get(analysis, "estimated_time_minutes", Num(0.0))) +
    " минут\n- Средняя интенсивность: " + fmt1(Get(analysis, "average_met", Num(0.0))) +
    " MET\n- Вес пользователя: " + IntToString(userWeight) + " кг\n\n**Баланс мышечных групп:**\n"
  }

  /** The part of the section below the muscle list. */
  function SectionTail(response: string, timestamp: string): string {
    "\n**Рекомендации от Gemini:**\n" + Strip(response) + "\n\n---\n*Анализ от " + timestamp + "*\n"
  }

  const NoMuscleData: string := "- Нет данных о мышечных группах\n"

  /** The section starts with the heading the removal looks for. */
  lemma SectionHeadStartsWithHeading(analysis: Dict, userWeight: int, show: Value -> string, fmt1: Value -> string)
    ensures StartsAt(SectionHead(analysis, userWeight, show, fmt1), 0, Heading)
  {
    var rest := Overview(analysis, userWeight, show, fmt1);
    assert (Heading + rest)[..|Heading|] == Heading;
  }

  /**
   * `format_analysis_section`: the head, one line per group in descending
   * order of percentage (or the no-data line), and the tail holding the
   * stripped response and the timestamp. `balance` is
   * `muscle_groups_balance` as its entries in dictionary order.
   */
  method FormatAnalysisSection(analysis: Dict, balance: seq<MuscleShare>, response: string, userWeight: int,
                               timestamp: string, show: Value -> string, fmt1: Value -> string,
                               showPercent: real -> string)
    returns (section: string)
    ensures balance == [] ==>
      section == SectionHead(analysis, userWeight, show, fmt1) + NoMuscleData + SectionTail(response, timestamp)
    ensures balance != [] ==>
      section == SectionHead(analysis, userWeight, show, fmt1) +
                 MuscleLines(SortByPercentage(balance), showPercent) + SectionTail(response, timestamp)
  {
    var lines := NoMuscleData;
    if balance != [] {
      lines := WriteMuscleLines(SortByPercentage(balance), showPercent);
    }
    section := SectionHead(analysis, userWeight, show, fmt1) + lines + SectionTail(response, timestamp);
  }

  /** The loop of `format_analysis_section` over the sorted shares, one line each. */
  method WriteMuscleLines(sorted: seq<MuscleShare>, showPercent: real -> string) returns (lines: string)
    ensures lines == MuscleLines(sorted, showPercent)
  {
    lines := "";
    for i := 0 to |sorted|
      invariant lines == MuscleLines(sorted[..i], showPercent)
    {
      assert sorted[..i + 1][..i] == sorted[..i];
      lines := lines + MuscleLine(sorted[i], showPercent);
    }
    assert sorted[..|sorted|] == sorted;
  }

  /** `create_empty_analysis_section`. */
  function CreateEmptyAnalysisSection(): (r: string)
    ensures StartsAt(r, 0, Heading)
  {
    var r := Heading + "\n*Анализ еще не проводился*\n\n";
    assert r[..|Heading|] == Heading;
    r
  }

  // ---------------------------------------------------------------------
  // The calorie table

  /** One row of the table for a breakdown entry. */
  function CalorieRow(entry: Dict, show: Value -> string, fmt1: Value -> string): string {
    "| " + show(Get(entry, "name", Str("Unknown"))) + " | " + show(Get(entry, "reps", Num(0.0))) + " | " +
    show(Get(entry, "calories", Num(0.0))) + " | " + fmt1(Get(entry, "met", Num(0.0))) + " |\n"
  }

  function CalorieRows(entries: seq<Dict>, show: Value -> string, fmt1: Value -> string): string {
    if entries == [] then "" else CalorieRows(entries[..|entries| - 1], show, fmt1) + CalorieRow(entries[|entries| - 1], show, fmt1)
  }

  /** The rows of two runs of entries are the rows of each, in order: one row per entry. */
  lemma {:induction false} CalorieRowsAppend(xs: seq<Dict>, ys: seq<Dict>, show: Value -> string, fmt1: Value -> string)
    ensures CalorieRows(xs + ys, show, fmt1) == CalorieRows(xs, show, fmt1) + CalorieRows(ys, show, fmt1)
    decreases |ys|
  {
    if ys == [] {
      assert xs + ys == xs;
    } else {
      var init := ys[..|ys| - 1];
      assert (xs + ys)[..|xs + ys| - 1] == xs + init;
      assert (xs + ys)[|xs + ys| - 1] == ys[|ys| - 1];
      CalorieRowsAppend(xs, init, show, fmt1);
      ConcatAssoc(CalorieRows(xs, show, fmt1), CalorieRows(init, show, fmt1), CalorieRow(ys[|ys| - 1], show, fmt1));
    }
  }

  /** A single entry gives a single row. */
  lemma CalorieRowsOne(e: Dict, show: Value -> string, fmt1: Value -> string)
    ensures CalorieRows([e], show, fmt1) == CalorieRow(e, show, fmt1)
  {
    assert [e][..0] == [];
  }

  const SummaryHead: string :=
    "\n---\n\n## Сводка по калориям\n\n| Упражнение | Повторения | Калории | MET |\n|------------|------------|---------|-----|\n"

  function SummaryTail(totalCalories: int, totalReps: int): string {
    "\n**Итого:** " + IntToString(totalReps) + " повторений, ~" + IntToString(totalCalories) + " ккал\n"
  }

  /**
   * `write_calorie_summary` on the file's text: the text is kept as it is
   * and the table follows it, a row per breakdown entry in order.
   */
  method WriteCalorieSummary(content: string, breakdown: seq<Dict>, totalCalories: int, totalReps: int,
                             show: Value -> string, fmt1: Value -> string)
    returns (r: string)
    ensures r == content + SummaryHead + CalorieRows(breakdown, show, fmt1) + SummaryTail(totalCalories, totalReps)
    ensures r[..|content|] == content
  {
    var rows := "";
    for i := 0 to |breakdown|
      invariant rows == CalorieRows(breakdown[..i], show, fmt1)
    {
      assert breakdown[..i + 1][..i] == breakdown[..i];
      rows := rows + CalorieRow(breakdown[i], show, fmt1);
    }
    assert breakdown[..|breakdown|] == breakdown;
    r := content + SummaryHead + rows + SummaryTail(totalCalories, totalReps);
  }

  // ---------------------------------------------------------------------
  // Updating an exercise note

  /** The keys `update_exercise_data` copies when present. */
  const ExerciseDataKeys: seq<string> := ["met_base", "cal_per_rep", "muscle_groups", "source"]

  /** The frontmatter after an update: the given keys copied, `last_updated` stamped. */
  function UpdatedExerciseMetadata(meta: Dict, data: Dict, now: string): Dict {
    CopyKeys(meta, data, ExerciseDataKeys)["last_updated" := Str(now)]
  }

  /**
   * Only the four data keys the input holds are overwritten, `last_updated`
   * is always set, and every other key keeps its value.
   */
  lemma UpdatedExerciseFields(meta: Dict, data: Dict, now: string)
    ensures var r := UpdatedExerciseMetadata(meta, data, now);
      r["last_updated"] == Str(now) &&
      (forall k :: k in ExerciseDataKeys && k in data && k != "last_updated" ==> k in r && r[k] == data[k]) &&
      (forall k :: k in meta && k !in ExerciseDataKeys && k != "last_updated" ==> k in r && r[k] == meta[k]) &&
      (forall k :: k in ExerciseDataKeys && k !in data && k in meta ==> k in r && r[k] == meta[k]) &&
      (forall k :: k in r ==> k in meta || k in data || k == "last_updated")
  {
  }

  /** The four conditional copies in the order the source performs them. */
  lemma CopyFourKeys(meta: Dict, data: Dict)
    ensures CopyKeys(meta, data, ExerciseDataKeys) ==
      CopyKey(CopyKey(CopyKey(CopyKey(meta, data, "met_base"), data, "cal_per_rep"), data, "muscle_groups"), data, "source")
  {
    var ks := ExerciseDataKeys;
    CopyKeysUnfold(meta, data, ks);
    assert ks[1..] == ["cal_per_rep", "muscle_groups", "source"];
    CopyThreeKeys(CopyKey(meta, data, "met_base"), data, "cal_per_rep", "muscle_groups", "source");
  }

  /** `update_exercise_data` on a loaded note: the metadata is updated and the body written back unchanged. */
  method UpdateExerciseData(post: Post, data: Dict, now: string)
    modifies post
    ensures post.metadata == UpdatedExerciseMetadata(old(post.metadata), data, now)
    ensures post.content == old(post.content)
  {
    var originalContent := post.content;
    CopyFourKeys(post.metadata, data);
    post.metadata := CopyKey(post.metadata, data, "met_base");
    post.metadata := CopyKey(post.metadata, data, "cal_per_rep");
    post.metadata := CopyKey(post.metadata, data, "muscle_groups");
    post.metadata := CopyKey(post.metadata, data, "source");
    post.metadata := post.metadata["last_updated" := Str(now)];
    post.content := originalContent;
  }
}
