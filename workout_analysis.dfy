/**
 * The `## AI Analysis` section of a workout note as `workout_parser.py`
 * sees it: `needs_analysis` (is the section missing or only a placeholder
 * comment?) and the content rewrite of `update_workout_analysis` (drop every
 * such section, append the new one).
 *
 * Both use a heading pattern ending in `Analysis\s*\n`. The greedy `\s*`
 * runs over blank lines, so the body starts after the LAST newline of the
 * whitespace after the title; written that way, a heading followed by a
 * blank line and another section takes that section as its body. The
 * members named `...AsWritten` keep that reading and are the model of the
 * two functions; the others are the corrected reading, which ends the
 * heading at its own line as the lookahead for the next heading intends.
 */
module WorkoutAnalysis {
  import opened Text

  /** Where a found section's body begins and ends. */
  datatype Span = Span(start: nat, end: nat)

  /** `##\s*AI\s*Analysis` at `p`, ignoring case: where the title ends. */
  function TitleEnd(s: string, p: nat): (r: Option<nat>)
    ensures r.Some? ==> p + 12 <= r.value <= |s|
  {
    if StartsAt(s, p, "##") then
      var q1 := SpaceRunEnd(s, p + 2);
      if StartsAtIgnoreCase(s, q1, "ai") then
        var q2 := SpaceRunEnd(s, q1 + 2);
        if StartsAtIgnoreCase(s, q2, "analysis") then Some(q2 + 8) else None
      else None
    else None
  }

  /** The last newline in `s[i..j]`. */
  function LastNewline(s: string, i: nat, j: nat): (r: Option<nat>)
    requires i <= j <= |s|
    decreases j - i
    ensures r.Some? ==> i <= r.value < j && s[r.value] == '\n'
  {
    if j == i then None
    else if s[j - 1] == '\n' then Some(j - 1)
    else LastNewline(s, i, j - 1)
  }

  /** The first newline in `s[i..j]`. */
  function FirstNewline(s: string, i: nat, j: nat): (r: Option<nat>)
    requires i <= j <= |s|
    decreases j - i
    ensures r.Some? ==> i <= r.value < j && s[r.value] == '\n'
  {
    if j == i then None
    else if s[i] == '\n' then Some(i)
    else FirstNewline(s, i + 1, j)
  }

  /**
   * `\s*\n` after the title as written: the greedy run of whitespace gives
   * characters back until it ends before a newline, so the body starts
   * after the run's last newline.
   */
  function BodyStartAsWritten(s: string, p: nat): (r: Option<nat>)
    ensures r.Some? ==> p < r.value <= |s|
  {
    match TitleEnd(s, p)
    case None => None
    case Some(t) =>
      match LastNewline(s, t, SpaceRunEnd(s, t))
      case Some(k) => Some(k + 1)
      case None => None
  }

  /** The heading ends at its own line: the body starts after the first newline following the title. */
  function BodyStart(s: string, p: nat): (r: Option<nat>)
    ensures r.Some? ==> p < r.value <= |s|
  {
    match TitleEnd(s, p)
    case None => None
    case Some(t) =>
      match FirstNewline(s, t, SpaceRunEnd(s, t))
      case Some(k) => Some(k + 1)
      case None => None
  }

  /** `\n##\s|\n#\s` at `e`: the next heading of level one or two. */
  predicate HeadingAhead(s: string, e: nat) {
    (StartsAt(s, e, "\n#") && e + 2 < |s| && IsSpace(s[e + 2])) ||
    (StartsAt(s, e, "\n##") && e + 3 < |s| && IsSpace(s[e + 3]))
  }

  /** The lookahead with `$`: a heading, the end, or a final newline. */
  predicate StopsBody(s: string, e: nat) {
    HeadingAhead(s, e) || e == |s| || (e + 1 == |s| && s[e] == '\n')
  }

  /** The lookahead with `\Z`: a heading or the end. */
  predicate StopsSpan(s: string, e: nat) {
    HeadingAhead(s, e) || e == |s|
  }

  /** Where the lazy `(.*?)` of `needs_analysis` stops: the first `StopsBody` at or after `e`. */
  function BodyEnd(s: string, e: nat): (r: nat)
    requires e <= |s|
    decreases |s| - e
    ensures e <= r <= |s| && StopsBody(s, r)
  {
    if StopsBody(s, e) then e else BodyEnd(s, e + 1)
  }

  /** Where the lazy `.*?` of `update_workout_analysis` stops. */
  function SpanEnd(s: string, e: nat): (r: nat)
    requires e <= |s|
    decreases |s| - e
    ensures e <= r <= |s| && StopsSpan(s, r)
  {
    if StopsSpan(s, e) then e else SpanEnd(s, e + 1)
  }

  /** A section heading at `p` and its body, as `needs_analysis` finds it. */
  function BodyAtAsWritten(s: string, p: nat): (r: Option<Span>)
    ensures r.Some? ==> r.value.start <= r.value.end <= |s|
  {
    match BodyStartAsWritten(s, p)
    case Some(b) => Some(Span(b, BodyEnd(s, b)))
    case None => None
  }

  function BodyAt(s: string, p: nat): (r: Option<Span>)
    ensures r.Some? ==> r.value.start <= r.value.end <= |s|
  {
    match BodyStart(s, p)
    case Some(b) => Some(Span(b, BodyEnd(s, b)))
    case None => None
  }

  /** A whole section at `p`, as `update_workout_analysis` removes it: where it ends. */
  function SectionAtAsWritten(s: string, p: nat): (r: Option<nat>)
    ensures r.Some? ==> p < r.value <= |s|
  {
    match BodyStartAsWritten(s, p)
    case Some(b) => Some(SpanEnd(s, b))
    case None => None
  }

  function SectionAt(s: string, p: nat): (r: Option<nat>)
    ensures r.Some? ==> p < r.value <= |s|
  {
    match BodyStart(s, p)
    case Some(b) => Some(SpanEnd(s, b))
    case None => None
  }

  /** `<!--.*?-->` at `p`: the comment ends after the first `-->` behind its opening. */
  function CommentAt(s: string, p: nat): (r: Option<nat>)
    ensures r.Some? ==> p < r.value <= |s|
  {
    if StartsAt(s, p, "<!--") then
      match IndexOf(s, "-->", p + 4)
      case Some(k) => Some(k + 3)
      case None => None
    else None
  }

  /** A section body that is empty once stripped and cleared of HTML comments. */
  predicate CommentsOnly(body: string) {
    Strip(SubFrom(Strip(body), CommentAt, "", 0)) == []
  }

  /** `needs_analysis` after the search: no section, or a body with nothing but comments. */
  predicate NeedsFor(content: string, found: Option<(nat, Span)>)
    requires found.Some? ==> found.value.1.start <= found.value.1.end <= |content|
  {
    match found
    case None => true
    case Some(m) => CommentsOnly(content[m.1.start..m.1.end])
  }

  /**
   * `needs_analysis`: the workout has no AI Analysis section, or only a
   * placeholder in it; a note without the heading always needs analysis.
   */
  function NeedsAnalysisAsWritten(content: string): (r: bool)
    ensures (forall p :: 0 <= p <= |content| ==> BodyStartAsWritten(content, p).None?) ==> r
  {
    NeedsFor(content, FirstMatch(content, BodyAtAsWritten, 0))
  }

  /** The corrected `needs_analysis`, with the heading ended at its own line. */
  function NeedsAnalysis(content: string): (r: bool)
    ensures (forall p :: 0 <= p <= |content| ==> BodyStart(content, p).None?) ==> r
  {
    NeedsFor(content, FirstMatch(content, BodyAt, 0))
  }

  /** The section `update_workout_analysis` writes. */
  function NewSection(analysis: string): string {
    "## AI Analysis\n\n" + analysis + "\n"
  }

  /** The content rewrite of `update_workout_analysis` for a given section matcher. */
  function UpdatedWith(content: string, analysis: string, m: (string, nat) -> Option<nat>): string {
    if FirstMatch(content, m, 0).Some? then RStrip(SubFrom(content, m, "", 0)) + "\n\n" + NewSection(analysis)
    else RStrip(content) + "\n\n" + NewSection(analysis)
  }

  /**
   * `update_workout_analysis` on the note's body: every AI Analysis section
   * removed, the rest right-stripped, a blank line and the new section
   * appended; the kept part is never longer than the note.
   */
  function UpdateWorkoutAnalysisAsWritten(content: string, analysis: string): (r: string)
    ensures r == RStrip(SubFrom(content, SectionAtAsWritten, "", 0)) + "\n\n" + NewSection(analysis)
    ensures |r| <= |content| + 2 + |NewSection(analysis)|
  {
    UpdateShape(content, analysis, SectionAtAsWritten);
    UpdatedWith(content, analysis, SectionAtAsWritten)
  }

  /** The corrected `update_workout_analysis`, with the heading ended at its own line. */
  function UpdateWorkoutAnalysis(content: string, analysis: string): (r: string)
    ensures r == RStrip(SubFrom(content, SectionAt, "", 0)) + "\n\n" + NewSection(analysis)
    ensures |r| <= |content| + 2 + |NewSection(analysis)|
  {
    UpdateShape(content, analysis, SectionAt);
    UpdatedWith(content, analysis, SectionAt)
  }

  // ---------------------------------------------------------------------
  // Properties

  /**
   * Whether a section is found or not, the result is what is left once
   * every section is removed, right-stripped, a blank line, and the new
   * section; that text is no longer than the original and ends in no
   * whitespace.
   */
  lemma UpdateShape(content: string, analysis: string, m: (string, nat) -> Option<nat>)
    ensures UpdatedWith(content, analysis, m) ==
      RStrip(SubFrom(content, m, "", 0)) + "\n\n" + NewSection(analysis)
    ensures |RStrip(SubFrom(content, m, "", 0))| <= |content|
  {
    if FirstMatch(content, m, 0).None? {
      forall k | 0 <= k < |content| ensures m(content, k).None? {
        assert k <= |content|;
      }
      SubFromNoMatch(content, m, "");
    }
    SubFromShrinks(content, m, 0);
  }

  /** `\s*\n` finds a newline in the run exactly when it has one, read greedily or not. */
  lemma {:induction false} LastNewlineFinds(s: string, i: nat, j: nat, k: nat)
    requires i <= k < j <= |s| && s[k] == '\n'
    ensures LastNewline(s, i, j).Some?
    decreases j - i
  {
    if s[j - 1] != '\n' {
      LastNewlineFinds(s, i, j - 1, k);
    }
  }

  /** Where the heading pattern as written finds no body, the corrected one finds none either. */
  lemma NoBodyEither(s: string, p: nat)
    requires BodyStartAsWritten(s, p).None?
    ensures BodyStart(s, p).None?
  {
    if TitleEnd(s, p).Some? {
      var t := TitleEnd(s, p).value;
      var k := FirstNewline(s, t, SpaceRunEnd(s, t));
      if k.Some? {
        LastNewlineFinds(s, t, SpaceRunEnd(s, t), k.value);
      }
    }
  }

  /**
   * Without a match of the heading pattern the note is kept, trailing
   * whitespace aside, and the section follows it, in both readings.
   */
  lemma UpdateWithoutSection(content: string, analysis: string)
    requires forall p :: 0 <= p <= |content| ==> BodyStartAsWritten(content, p).None?
    ensures UpdateWorkoutAnalysisAsWritten(content, analysis) == RStrip(content) + "\n\n" + NewSection(analysis)
    ensures UpdateWorkoutAnalysis(content, analysis) == RStrip(content) + "\n\n" + NewSection(analysis)
  {
    forall p | 0 <= p <= |content| ensures SectionAt(content, p).None? {
      NoBodyEither(content, p);
    }
    assert forall p :: 0 <= p <= |content| ==> SectionAtAsWritten(content, p).None?;
  }

  /** A body with text and no comment marker counts as analysed. */
  lemma TextIsAnalysis(body: string)
    requires Strip(body) != []
    requires !Contains(Strip(body), "<!--")
    ensures !CommentsOnly(body)
  {
    var b := Strip(body);
    forall k | 0 <= k < |b| ensures CommentAt(b, k).None? {
      assert IndexOf(b, "<!--", 0).None?;
    }
    SubFromNoMatch(b, CommentAt, "");
    StripStripped(b);
  }

  /** A body holding only one comment without dashes (the placeholder the template leaves) still needs analysis. */
  lemma PlaceholderNeedsAnalysis(x: string)
    requires forall i :: 0 <= i < |x| ==> x[i] != '-'
    ensures CommentsOnly("<!--" + x + "-->")
  {
    var b := "<!--" + x + "-->";
    assert b[0] == '<' && b[|b| - 1] == '>';
    PlaceholderIsOneComment(x, b);
    OneCommentOnly(b);
  }

  lemma OneCommentOnly(b: string)
    requires b != [] && !IsSpace(b[0]) && !IsSpace(b[|b| - 1])
    requires CommentAt(b, 0) == Some(|b|)
    ensures CommentsOnly(b)
  {
    StripNoEdgeSpace(b);
    SubFromOneMatch(b, CommentAt, "", 0, |b|);
    assert b[..0] + "" + b[|b|..] == [];
  }

  lemma PlaceholderIsOneComment(x: string, b: string)
    requires forall i :: 0 <= i < |x| ==> x[i] != '-'
    requires b == "<!--" + x + "-->"
    ensures CommentAt(b, 0) == Some(|b|)
  {
    assert StartsAt(b, 0, "<!--");
    forall q | 4 <= q < |x| + 4 ensures !StartsAt(b, q, "-->") {
      assert b[q] == x[q - 4];
    }
    assert b[|x| + 4..] == "-->";
    assert StartsAt(b, |x| + 4, "-->");
  }

  /** The heading the writers produce, wherever it stands, has its title end after its fourteen characters. */
  lemma TitleOfHeadingAt(s: string, p: nat)
    requires p + 14 <= |s| && s[p..p + 14] == "## AI Analysis"
    ensures TitleEnd(s, p) == Some(p + 14)
  {
    HeadingLetters("## AI Analysis");
    var h := s[p..p + 14];
    assert s[p] == h[0] && s[p + 1] == h[1] && s[p + 2] == h[2] && s[p + 3] == h[3] && s[p + 5] == h[5] && s[p + 6] == h[6];
    SliceOfSlice(s, p, 14, 3, 5);
    SliceOfSlice(s, p, 14, 6, 14);
    TitleSpaces(s, p);
    SliceOfSlice(s, p, 14, 0, 2);
  }

  lemma SliceOfSlice(s: string, p: nat, n: nat, i: nat, j: nat)
    requires p + n <= |s| && i <= j <= n
    ensures s[p..p + n][i..j] == s[p + i..p + j]
  {
    var a := s[p..p + n][i..j];
    var b := s[p + i..p + j];
    forall k | 0 <= k < |a| ensures a[k] == b[k] {
      assert a[k] == s[p..p + n][i + k] == s[p + i + k];
    }
  }

  /** The pieces of the heading the writers produce. */
  lemma HeadingLetters(h: string)
    requires h == "## AI Analysis"
    ensures |h| == 14 && h[0] == '#' && h[1] == '#' && h[2] == ' ' && h[3] == 'A' && h[5] == ' ' && h[6] == 'A'
    ensures h[..2] == "##" && Lower(h[3..5]) == "ai" && Lower(h[6..14]) == "analysis"
  {
    assert h[3..5] == "AI";
    assert h[6..14] == "Analysis";
  }

  lemma TitleSpaces(s: string, p: nat)
    requires p + 14 <= |s| && s[p + 2] == ' ' && s[p + 3] == 'A' && s[p + 5] == ' ' && s[p + 6] == 'A'
    ensures SpaceRunEnd(s, p + 2) == p + 3 && SpaceRunEnd(s, p + 5) == p + 6
  {
    assert SpaceRunEnd(s, p + 3) == p + 3;
    assert SpaceRunEnd(s, p + 6) == p + 6;
  }

  /** Without a newline at or after `e`, the body runs to the end. */
  lemma {:induction false} BodyEndNoNewline(s: string, e: nat)
    requires e <= |s|
    requires forall k :: e <= k < |s| ==> s[k] != '\n'
    ensures BodyEnd(s, e) == |s| && SpanEnd(s, e) == |s|
    decreases |s| - e
  {
    if e < |s| {
      NotStartsAt(s, e, "\n#");
      NotStartsAt(s, e, "\n##");
      BodyEndNoNewline(s, e + 1);
    }
  }

  /** A heading on its own line with one line of text under it: that line is the body. */
  lemma HeadingThenLine(s: string, t: string)
    requires s == "## AI Analysis\n" + t
    requires t != [] && !IsSpace(t[0])
    requires forall k :: 0 <= k < |t| ==> t[k] != '\n'
    ensures BodyAt(s, 0) == Some(Span(15, |s|)) && BodyAtAsWritten(s, 0) == Some(Span(15, |s|))
    ensures s[15..|s|] == t
  {
    assert s[..14] == "## AI Analysis";
    TitleOfHeadingAt(s, 0);
    assert s[14] == '\n' && s[15] == t[0];
    assert SpaceRunEnd(s, 15) == 15;
    assert SpaceRunEnd(s, 14) == 15;
    assert FirstNewline(s, 14, 15) == Some(14);
    assert LastNewline(s, 14, 15) == Some(14);
    forall k | 15 <= k < |s| ensures s[k] != '\n' {
      assert s[k] == t[k - 15];
    }
    BodyEndNoNewline(s, 15);
  }

  /** A note that opens with the heading and one line: it needs analysis exactly when that line is only comments. */
  lemma NeedsAnalysisOfOneLine(t: string)
    requires t != [] && !IsSpace(t[0])
    requires forall k :: 0 <= k < |t| ==> t[k] != '\n'
    ensures NeedsAnalysisAsWritten("## AI Analysis\n" + t) == CommentsOnly(t)
    ensures NeedsAnalysis("## AI Analysis\n" + t) == CommentsOnly(t)
  {
    var s := "## AI Analysis\n" + t;
    HeadingThenLine(s, t);
    FirstMatchAt(s, BodyAtAsWritten, 0, 0);
    FirstMatchAt(s, BodyAt, 0, 0);
  }

  // ---------------------------------------------------------------------
  // Writing an analysis, then asking whether one is needed

  /** Analysis text that holds no heading mark and no comment and does not start or end in whitespace. */
  predicate PlainAnalysis(a: string) {
    a != [] && !IsSpace(a[0]) && !IsSpace(a[|a| - 1]) &&
    forall k :: 0 <= k < |a| ==> a[k] != '#' && a[k] != '<'
  }

  /** The characters of the section `update_workout_analysis` appends. */
  lemma NewSectionPieces(y: string, analysis: string)
    requires y == NewSection(analysis)
    ensures |y| == |analysis| + 17 && y[..14] == "## AI Analysis" && y[14] == '\n' && y[15] == '\n'
    ensures y[16..|y| - 1] == analysis && y[|y| - 1] == '\n'
  {
  }

  /** Text without a `#` holds no heading match. */
  lemma HashFreeHasNoBody(c: string)
    requires forall k :: 0 <= k < |c| ==> c[k] != '#'
    ensures forall p :: 0 <= p <= |c| ==> BodyStartAsWritten(c, p).None?
  {
    forall p | 0 <= p <= |c| ensures TitleEnd(c, p).None? {
      if p < |c| { NotStartsAt(c, p, "##"); }
    }
  }

  /** The lazy body stops at `j` when `j` is the first place at or after `e` where it can stop. */
  lemma {:induction false} BodyEndAt(s: string, e: nat, j: nat)
    requires e <= j <= |s| && StopsBody(s, j)
    requires forall k :: e <= k < j ==> !StopsBody(s, k)
    ensures BodyEnd(s, e) == j
    decreases j - e
  {
    if e < j { BodyEndAt(s, e + 1, j); }
  }

  /** No heading of level one or two starts at `k` when the character after it is not `#`. */
  lemma NoHeadingAhead(s: string, k: nat)
    requires k + 1 < |s| && s[k + 1] != '#'
    ensures !HeadingAhead(s, k)
  {
  }

  /** The appended section, after text without a `#`, is found there with the analysis as its body. */
  lemma AppendedSectionFound(x: string, y: string, s: string, analysis: string)
    requires s == x + y && y == NewSection(analysis) && PlainAnalysis(analysis)
    ensures BodyAtAsWritten(s, |x|) == Some(Span(|x| + 16, |s| - 1))
    ensures BodyAt(s, |x|) == Some(Span(|x| + 15, |s| - 1))
    ensures s[|x| + 16..|s| - 1] == analysis && s[|x| + 15..|s| - 1] == "\n" + analysis
  {
    AppendedSectionStarts(x, y, s, analysis);
    AppendedSectionEnds(x, y, s, analysis);
  }

  lemma AppendedSectionStarts(x: string, y: string, s: string, analysis: string)
    requires s == x + y && y == NewSection(analysis) && PlainAnalysis(analysis)
    ensures BodyStartAsWritten(s, |x|) == Some(|x| + 16) && BodyStart(s, |x|) == Some(|x| + 15)
  {
    NewSectionPieces(y, analysis);
    var p := |x|;
    assert s[p..p + 14] == y[..14];
    TitleOfHeadingAt(s, p);
    assert s[p + 14] == '\n' && s[p + 15] == '\n' && s[p + 16] == analysis[0];
    assert SpaceRunEnd(s, p + 16) == p + 16;
    assert SpaceRunEnd(s, p + 14) == p + 16;
    assert LastNewline(s, p + 14, p + 16) == Some(p + 15);
    assert FirstNewline(s, p + 14, p + 16) == Some(p + 14);
  }

  lemma AppendedSectionEnds(x: string, y: string, s: string, analysis: string)
    requires s == x + y && y == NewSection(analysis) && PlainAnalysis(analysis)
    ensures |x| + 16 <= |s| - 1
    ensures BodyEnd(s, |x| + 16) == |s| - 1 && BodyEnd(s, |x| + 15) == |s| - 1
    ensures s[|x| + 16..|s| - 1] == analysis && s[|x| + 15..|s| - 1] == "\n" + analysis
  {
    NewSectionPieces(y, analysis);
    SectionTail(x, y, s, analysis);
    BodyEndsAtLastNewline(s, |x| + 15, analysis);
  }

  lemma SectionTail(x: string, y: string, s: string, a: string)
    requires s == x + y && |y| == |a| + 17 && y[15] == '\n' && y[16..|y| - 1] == a && y[|y| - 1] == '\n'
    ensures |x| + 15 + |a| + 2 == |s| && s[|x| + 15] == '\n' && s[|x| + 16..|s| - 1] == a && s[|s| - 1] == '\n'
  {
    assert s[|x| + 16..|s| - 1] == y[16..|y| - 1];
  }

  /** After a newline, a plain analysis and a final newline, the body stops at that final newline. */
  lemma BodyEndsAtLastNewline(s: string, b: nat, a: string)
    requires PlainAnalysis(a) && b + |a| + 2 == |s|
    requires s[b] == '\n' && s[b + 1..|s| - 1] == a && s[|s| - 1] == '\n'
    ensures BodyEnd(s, b) == |s| - 1 && BodyEnd(s, b + 1) == |s| - 1
    ensures s[b..|s| - 1] == "\n" + a
  {
    forall k | b <= k < |s| - 1 ensures !StopsBody(s, k) {
      if k + 1 < |s| - 1 {
        assert s[k + 1] == a[k - b];
      }
      NoHeadingAhead(s, k);
    }
    BodyEndAt(s, b + 1, |s| - 1);
    BodyEndAt(s, b, |s| - 1);
  }

  /** Before the appended section, text without a `#` holds no heading. */
  lemma NoBodyBeforeSection(content: string, x: string, s: string)
    requires forall k :: 0 <= k < |content| ==> content[k] != '#'
    requires x == RStrip(content) + "\n\n" && |x| <= |s| && s[..|x|] == x
    ensures forall q :: 0 <= q < |x| ==> BodyAtAsWritten(s, q).None? && BodyAt(s, q).None?
  {
    forall q | 0 <= q < |x| ensures TitleEnd(s, q).None? {
      assert s[q] == x[q];
      NotStartsAt(s, q, "##");
    }
  }

  /** An analysis text whose stripped form it is, holding no comment, counts as analysed. */
  lemma PlainIsAnalysis(body: string, analysis: string)
    requires PlainAnalysis(analysis) && Strip(body) == analysis
    ensures !CommentsOnly(body)
  {
    NotContainsChar(analysis, "<!--");
    TextIsAnalysis(body);
  }

  /**
   * Writing a plain analysis into a note without a `#` gives a note that no
   * longer needs analysis, in both readings: the section written is the
   * section found.
   */
  lemma WrittenAnalysisIsFound(content: string, analysis: string)
    requires forall k :: 0 <= k < |content| ==> content[k] != '#'
    requires PlainAnalysis(analysis)
    ensures !NeedsAnalysisAsWritten(UpdateWorkoutAnalysisAsWritten(content, analysis))
    ensures !NeedsAnalysis(UpdateWorkoutAnalysis(content, analysis))
  {
    HashFreeHasNoBody(content);
    UpdateWithoutSection(content, analysis);
    var x := RStrip(content) + "\n\n";
    var s := x + NewSection(analysis);
    AppendedIsAnalysed(content, x, s, analysis);
  }

  lemma AppendedIsAnalysed(content: string, x: string, s: string, analysis: string)
    requires forall k :: 0 <= k < |content| ==> content[k] != '#'
    requires PlainAnalysis(analysis)
    requires x == RStrip(content) + "\n\n" && s == x + NewSection(analysis)
    ensures !NeedsAnalysisAsWritten(s) && !NeedsAnalysis(s)
  {
    assert s[..|x|] == x;
    NoBodyBeforeSection(content, x, s);
    AppendedSectionFound(x, NewSection(analysis), s, analysis);
    AppendedFoundAsWritten(x, s, analysis);
    AppendedFound(x, s, analysis);
  }

  lemma AppendedFoundAsWritten(x: string, s: string, analysis: string)
    requires PlainAnalysis(analysis) && |x| + 16 <= |s| - 1
    requires BodyAtAsWritten(s, |x|) == Some(Span(|x| + 16, |s| - 1)) && s[|x| + 16..|s| - 1] == analysis
    requires forall q :: 0 <= q < |x| ==> BodyAtAsWritten(s, q).None?
    ensures !NeedsAnalysisAsWritten(s)
  {
    FoundBodyDecides(s, BodyAtAsWritten, |x|, |x| + 16, |s| - 1);
    StripNoEdgeSpace(analysis);
    PlainIsAnalysis(analysis, analysis);
  }

  lemma AppendedFound(x: string, s: string, analysis: string)
    requires PlainAnalysis(analysis) && |x| + 15 <= |s| - 1
    requires BodyAt(s, |x|) == Some(Span(|x| + 15, |s| - 1)) && s[|x| + 15..|s| - 1] == "\n" + analysis
    requires forall q :: 0 <= q < |x| ==> BodyAt(s, q).None?
    ensures !NeedsAnalysis(s)
  {
    FoundBodyDecides(s, BodyAt, |x|, |x| + 15, |s| - 1);
    NewlineThenPlain(analysis);
  }

  lemma NewlineThenPlain(analysis: string)
    requires PlainAnalysis(analysis)
    ensures !CommentsOnly("\n" + analysis)
  {
    var b := "\n" + analysis;
    StripNoEdgeSpace(analysis);
    assert SpaceRunEnd(b, 1) == 1;
    assert LStrip(b) == analysis;
    PlainIsAnalysis(b, analysis);
  }

  /** The first body found decides `needs_analysis`. */
  lemma FoundBodyDecides(s: string, at: (string, nat) -> Option<Span>, p: nat, b: nat, e: nat)
    requires p <= |s| && at(s, p) == Some(Span(b, e)) && b <= e <= |s|
    requires forall q :: 0 <= q < p ==> at(s, q).None?
    ensures NeedsFor(s, FirstMatch(s, at, 0)) == CommentsOnly(s[b..e])
  {
    FirstMatchAt(s, at, 0, p);
  }

  // ---------------------------------------------------------------------
  // An empty section followed by a blank line and another section

  /** An empty AI Analysis section, a blank line, and a level-two section titled `w`. */
  function BlankThen(w: string): string {
    "## AI Analysis\n\n## " + w
  }

  /** A title that is one line of plain words: no newline, `#` or `<`, no edge whitespace, not starting with `ai`. */
  predicate PlainTitle(w: string) {
    w != [] && !IsSpace(w[0]) && !IsSpace(w[|w| - 1]) && LowerChar(w[0]) != 'a' &&
    forall k :: 0 <= k < |w| ==> w[k] != '\n' && w[k] != '#' && w[k] != '<'
  }

  lemma BlankThenPieces(c: string, w: string)
    requires c == BlankThen(w)
    ensures |c| == 19 + |w| && c[..14] == "## AI Analysis"
    ensures c[14] == '\n' && c[15] == '\n' && c[16] == '#' && c[17] == '#' && c[18] == ' '
    ensures c[19..] == w && c[16..] == "## " + w
  {
  }

  lemma BlankThenStarts(c: string, w: string)
    requires c == BlankThen(w) && PlainTitle(w)
    ensures BodyStartAsWritten(c, 0) == Some(16)
    ensures BodyStart(c, 0) == Some(15)
    ensures forall k :: 16 <= k < |c| ==> c[k] != '\n'
  {
    BlankThenPieces(c, w);
    TitleOfHeadingAt(c, 0);
    assert SpaceRunEnd(c, 16) == 16;
    assert SpaceRunEnd(c, 15) == 16;
    assert SpaceRunEnd(c, 14) == 16;
    assert LastNewline(c, 14, 16) == Some(15);
    assert FirstNewline(c, 14, 16) == Some(14);
    forall k | 19 <= k < |c| ensures c[k] != '\n' {
      assert c[k] == w[k - 19];
    }
  }

  /** As written, the body is the next section's heading, so the empty section reads as analysed. */
  lemma BlankThenAnalysedAsWritten(w: string)
    requires PlainTitle(w)
    ensures !NeedsAnalysisAsWritten(BlankThen(w))
  {
    var c := BlankThen(w);
    BlankThenStarts(c, w);
    BodyEndNoNewline(c, 16);
    FirstMatchAt(c, BodyAtAsWritten, 0, 0);
    BlankThenPieces(c, w);
    var body := c[16..|c|];
    assert body == "## " + w;
    HeadingTextIsAnalysis(body, w);
  }

  lemma HeadingTextIsAnalysis(body: string, w: string)
    requires body == "## " + w && PlainTitle(w)
    ensures !CommentsOnly(body)
  {
    assert body[0] == '#' && body[|body| - 1] == w[|w| - 1];
    StripNoEdgeSpace(body);
    forall k | 0 <= k < |body| ensures body[k] != '<' {
      if k >= 3 { assert body[k] == w[k - 3]; }
    }
    NotContainsChar(body, "<!--");
    TextIsAnalysis(body);
  }

  /** As written, the rewrite swallows the following section with the empty one. */
  lemma BlankThenLostAsWritten(w: string, analysis: string)
    requires PlainTitle(w)
    ensures UpdateWorkoutAnalysisAsWritten(BlankThen(w), analysis) == "\n\n" + NewSection(analysis)
  {
    var c := BlankThen(w);
    BlankThenStarts(c, w);
    BodyEndNoNewline(c, 16);
    assert SectionAtAsWritten(c, 0) == Some(|c|);
    FirstMatchAt(c, SectionAtAsWritten, 0, 0);
    SubFromOneMatch(c, SectionAtAsWritten, "", 0, |c|);
    assert c[..0] + "" + c[|c|..] == [];
  }

  lemma BlankThenHeadingAhead(c: string, w: string)
    requires c == BlankThen(w) && PlainTitle(w)
    ensures BodyEnd(c, 15) == 15 && SpanEnd(c, 15) == 15
  {
    BlankThenPieces(c, w);
    assert c[15..18] == "\n##";
    assert HeadingAhead(c, 15);
  }

  /** Ending the heading at its own line, the empty section still needs analysis. */
  lemma BlankThenNeedsAnalysis(w: string)
    requires PlainTitle(w)
    ensures NeedsAnalysis(BlankThen(w))
  {
    var c := BlankThen(w);
    BlankThenStarts(c, w);
    BlankThenHeadingAhead(c, w);
    FirstMatchAt(c, BodyAt, 0, 0);
    assert c[15..15] == [];
    StripNoEdgeSpace([]);
  }

  /** No AI Analysis heading starts after the empty section. */
  lemma BlankThenNoSecondHeading(c: string, w: string)
    requires c == BlankThen(w) && PlainTitle(w)
    ensures forall k :: 15 <= k < |c| ==> SectionAt(c, k).None?
  {
    BlankThenPieces(c, w);
    forall k | 15 <= k < |c| && k != 16 ensures !StartsAt(c, k, "##") {
      if k >= 19 {
        assert c[k] == w[k - 19];
      }
    }
    TitleNotAi(c, w);
  }

  lemma TitleNotAi(c: string, w: string)
    requires c == BlankThen(w) && PlainTitle(w)
    ensures TitleEnd(c, 16).None?
  {
    BlankThenPieces(c, w);
    assert c[19] == w[0];
    assert SpaceRunEnd(c, 19) == 19;
    assert SpaceRunEnd(c, 18) == 19;
    if 21 <= |c| {
      assert Lower(c[19..21])[0] == LowerChar(w[0]);
    }
  }

  /** Ending the heading at its own line, the rewrite keeps the following section. */
  lemma BlankThenKept(w: string, analysis: string)
    requires PlainTitle(w)
    ensures UpdateWorkoutAnalysis(BlankThen(w), analysis) == "\n## " + w + "\n\n" + NewSection(analysis)
  {
    var c := BlankThen(w);
    BlankThenStarts(c, w);
    BlankThenHeadingAhead(c, w);
    assert SectionAt(c, 0) == Some(15);
    FirstMatchAt(c, SectionAt, 0, 0);
    BlankThenNoSecondHeading(c, w);
    SubFromOneMatch(c, SectionAt, "", 0, 15);
    KeptTail(c, w);
  }

  lemma KeptTail(c: string, w: string)
    requires c == BlankThen(w) && PlainTitle(w)
    ensures RStrip(c[..0] + "" + c[15..]) == "\n## " + w
  {
    BlankThenPieces(c, w);
    var k := c[..0] + "" + c[15..];
    assert k == "\n## " + w;
    assert k[|k| - 1] == w[|w| - 1];
    RStripNoTrailingSpace(k);
  }

  /** The note `## AI Analysis`, a blank line, `## Notes`. */
  lemma NotesTitlePlain()
    ensures PlainTitle("Notes")
  {
  }
}
