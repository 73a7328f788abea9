/**
 * `ai/prompts.py`: the pieces of the workout prompt that are computed
 * (the estimated time, the numbered exercise list, the muscle-balance
 * list) and the cleaning of the model's reply.
 *
 * `str()` and f-string formatting of values is passed in as `show`
 * (for dictionary values) and `showReal` (for percentages).
 */
module Prompts {
  import opened Text
  import opened Numeric
  import opened Documents

  // ---------------------------------------------------------------------
  // Estimated time

  /**
   * `max(total_reps * time_per_rep / 60 + (total_reps / max(len(reps_per_set), 1) - 1) * rest_between / 60, 10)`
   * with true division.
   */
  function EstimatedTime(totalReps: real, timePerRep: real, sets: nat, restBetween: real): (r: real)
    ensures r >= 10.0
    ensures r >= totalReps * timePerRep / 60.0 +
      (totalReps / (if sets > 1 then sets else 1) as real - 1.0) * restBetween / 60.0
    ensures r == 10.0 || r == totalReps * timePerRep / 60.0 +
      (totalReps / (if sets > 1 then sets else 1) as real - 1.0) * restBetween / 60.0
  {
    var perSet := if sets > 1 then sets else 1;
    MaxReal(totalReps * timePerRep / 60.0 + (totalReps / perSet as real - 1.0) * restBetween / 60.0, 10.0)
  }

  /** `int(estimated_time)` as printed in the prompt. */
  function EstimatedMinutes(totalReps: real, timePerRep: real, sets: nat, restBetween: real): int {
    Truncate(EstimatedTime(totalReps, timePerRep, sets, restBetween))
  }

  /** The prompt never states fewer than ten minutes, whatever the scheme says. */
  lemma MinutesAtLeastTen(totalReps: real, timePerRep: real, sets: nat, restBetween: real)
    ensures EstimatedMinutes(totalReps, timePerRep, sets, restBetween) >= 10
  {
    var t := EstimatedTime(totalReps, timePerRep, sets, restBetween);
    assert 10.0 <= t;
    assert t < Truncate(t) as real + 1.0;
  }

  /** A scheme without reps, or with no time per rep or rest, gets the ten-minute floor. */
  lemma EmptySchemeTakesTen(sets: nat)
    ensures EstimatedTime(0.0, 0.0, sets, 0.0) == 10.0
  {
  }

  // ---------------------------------------------------------------------
  // Exercise list

  const NoExercises: string := "No exercises listed"

  /** The line of the `i`-th exercise (numbered from 1). */
  function ExerciseLine(i: nat, ex: Dict, show: Value -> string): string {
    var equipment := Get(ex, "equipment", Null);
    var reps := Get(ex, "reps", Null);
    NatToString(i) + ". " + show(Get(ex, "name", Str("Unknown"))) +
    (if Truthy(equipment) then " (" + show(equipment) + ")" else "") +
    (if Truthy(reps) then " - " + show(reps) + " reps" else "")
  }

  /**
   * The `enumerate(exercises, 1)` loop: one line per exercise, in input
   * order, the `i`-th numbered `i + 1`.
   */
  method ExerciseLines(exercises: seq<Dict>, show: Value -> string) returns (lines: seq<string>)
    ensures |lines| == |exercises|
    ensures forall i :: 0 <= i < |exercises| ==> lines[i] == ExerciseLine(i + 1, exercises[i], show)
  {
    lines := [];
    for i := 0 to |exercises|
      invariant |lines| == i
      invariant forall k :: 0 <= k < i ==> lines[k] == ExerciseLine(k + 1, exercises[k], show)
    {
      lines := lines + [ExerciseLine(i + 1, exercises[i], show)];
    }
  }

  /** `"\n".join(exercises_list) if exercises_list else "No exercises listed"`. */
  function ExercisesText(lines: seq<string>): (r: string)
    ensures lines == [] ==> r == NoExercises
    ensures |lines| == 1 ==> r == lines[0]
  {
    if lines == [] then NoExercises else Join(lines, "\n")
  }

  /** A line starts with its number and a dot. */
  lemma LineNumbered(i: nat, ex: Dict, show: Value -> string)
    ensures StartsAt(ExerciseLine(i, ex, show), 0, NatToString(i) + ". ")
  {
    var head := NatToString(i) + ". ";
    var line := ExerciseLine(i, ex, show);
    var rest := line[|head|..];
    assert line == head + rest;
    assert (head + rest)[..|head|] == head;
  }

  /** Without equipment or reps the line is just the number and the name. */
  lemma BareExerciseLine(i: nat, ex: Dict, show: Value -> string)
    requires !Truthy(Get(ex, "equipment", Null)) && !Truthy(Get(ex, "reps", Null))
    ensures ExerciseLine(i, ex, show) == NatToString(i) + ". " + show(Get(ex, "name", Str("Unknown")))
  {
  }

  /**
   * The equipment part is present exactly when the equipment is truthy, and
   * the reps part exactly when the reps are: the line is the bare line
   * followed by those parts.
   */
  lemma ExerciseLineParts(i: nat, ex: Dict, show: Value -> string)
    ensures exists equipmentPart: string, repsPart: string ::
      ExerciseLine(i, ex, show) == NatToString(i) + ". " + show(Get(ex, "name", Str("Unknown"))) + equipmentPart + repsPart &&
      (equipmentPart == [] <==> !Truthy(Get(ex, "equipment", Null))) &&
      (repsPart == [] <==> !Truthy(Get(ex, "reps", Null)))
  {
    var equipment := Get(ex, "equipment", Null);
    var reps := Get(ex, "reps", Null);
    var e := if Truthy(equipment) then " (" + show(equipment) + ")" else "";
    var r := if Truthy(reps) then " - " + show(reps) + " reps" else "";
    assert ExerciseLine(i, ex, show) == NatToString(i) + ". " + show(Get(ex, "name", Str("Unknown"))) + e + r;
  }

  // ---------------------------------------------------------------------
  // Muscle-balance list

  const NoBalance: string := "No muscle balance data available"

  /** Python's `<` on strings: code point by code point, a proper prefix first. */
  predicate Less(a: string, b: string)
    decreases |a|
  {
    b != [] && (a == [] || a[0] < b[0] || (a[0] == b[0] && Less(a[1..], b[1..])))
  }

  lemma {:induction false} LessTransitive(a: string, b: string, c: string)
    requires Less(a, b) && Less(b, c)
    ensures Less(a, c)
    decreases |a|
  {
    if a != [] && a[0] == b[0] && b[0] == c[0] {
      LessTransitive(a[1..], b[1..], c[1..]);
    }
  }

  lemma {:induction false} LessTotal(a: string, b: string)
    ensures a == b || Less(a, b) || Less(b, a)
    decreases |a|
  {
    if a != [] && b != [] && a[0] == b[0] {
      LessTotal(a[1..], b[1..]);
      if a[1..] == b[1..] {
        assert a == [a[0]] + a[1..] && b == [b[0]] + b[1..];
      }
    }
  }

  lemma {:induction false} LessIrreflexive(a: string)
    ensures !Less(a, a)
    decreases |a|
  {
    if a != [] { LessIrreflexive(a[1..]); }
  }

  /** Keys in non-decreasing order. */
  predicate KeysAscending(xs: seq<(string, real)>) {
    forall i, j :: 0 <= i < j < |xs| ==> !Less(xs[j].0, xs[i].0)
  }

  /** Put `x` before the first entry whose key is greater. */
  function InsertByKey(xs: seq<(string, real)>, x: (string, real)): (r: seq<(string, real)>)
    decreases |xs|
    ensures multiset(r) == multiset(xs) + multiset{x}
    ensures |r| == |xs| + 1
  {
    if xs == [] then [x]
    else if Less(x.0, xs[0].0) then [x] + xs
    else
      assert xs == [xs[0]] + xs[1..];
      [xs[0]] + InsertByKey(xs[1..], x)
  }

  /** Every entry of the insertion keeps above a key no key of the inputs is below. */
  lemma {:induction false} InsertAbove(xs: seq<(string, real)>, x: (string, real), b: string)
    requires !Less(x.0, b) && forall i :: 0 <= i < |xs| ==> !Less(xs[i].0, b)
    ensures forall i :: 0 <= i < |InsertByKey(xs, x)| ==> !Less(InsertByKey(xs, x)[i].0, b)
    decreases |xs|
  {
    if xs != [] && !Less(x.0, xs[0].0) {
      InsertAbove(xs[1..], x, b);
    }
  }

  lemma {:induction false} InsertKeepsAscending(xs: seq<(string, real)>, x: (string, real))
    requires KeysAscending(xs)
    ensures KeysAscending(InsertByKey(xs, x))
    decreases |xs|
  {
    if xs != [] {
      if Less(x.0, xs[0].0) {
        forall j | 0 <= j < |xs| ensures !Less(xs[j].0, x.0) {
          if Less(xs[j].0, x.0) {
            LessTransitive(xs[j].0, x.0, xs[0].0);
            if j == 0 { LessIrreflexive(xs[0].0); }
          }
        }
        var r := [x] + xs;
        assert forall j :: 1 <= j < |r| ==> r[j] == xs[j - 1];
      } else {
        InsertKeepsAscending(xs[1..], x);
        InsertAbove(xs[1..], x, xs[0].0);
        assert InsertByKey(xs, x) == [xs[0]] + InsertByKey(xs[1..], x);
      }
    }
  }

  /** `sorted(muscle_balance.items())`, the items given in dictionary order. */
  function SortByKey(xs: seq<(string, real)>): seq<(string, real)> {
    if xs == [] then [] else InsertByKey(SortByKey(xs[..|xs| - 1]), xs[|xs| - 1])
  }

  /** The sort puts the keys in ascending order and keeps every item. */
  lemma {:induction false} SortedByKey(xs: seq<(string, real)>)
    ensures KeysAscending(SortByKey(xs))
    ensures multiset(SortByKey(xs)) == multiset(xs)
  {
    if xs != [] {
      var init := xs[..|xs| - 1];
      SortedByKey(init);
      InsertKeepsAscending(SortByKey(init), xs[|xs| - 1]);
      assert xs == init + [xs[|xs| - 1]];
    }
  }

  /** The line of one balance item. */
  function BalanceLine(item: (string, real), showReal: real -> string): string {
    "- " + item.0 + ": " + showReal(item.1) + "%"
  }

  function BalanceLines(xs: seq<(string, real)>, showReal: real -> string): (r: seq<string>)
    ensures |r| == |xs|
    ensures forall i :: 0 <= i < |xs| ==> r[i] == BalanceLine(xs[i], showReal)
  {
    if xs == [] then [] else [BalanceLine(xs[0], showReal)] + BalanceLines(xs[1..], showReal)
  }

  /** `balance_str`: the sorted lines joined by newlines, or the no-data text. */
  function BalanceText(items: seq<(string, real)>, showReal: real -> string): (r: string)
    ensures items == [] ==> r == NoBalance
  {
    if items == [] then NoBalance else Join(BalanceLines(SortByKey(items), showReal), "\n")
  }

  /** A non-empty balance lists every item once, in ascending key order. */
  lemma BalanceTextLines(items: seq<(string, real)>, showReal: real -> string)
    requires items != []
    ensures exists sorted: seq<(string, real)> ::
      KeysAscending(sorted) && multiset(sorted) == multiset(items) &&
      BalanceText(items, showReal) == Join(BalanceLines(sorted, showReal), "\n")
  {
    SortedByKey(items);
    var sorted := SortByKey(items);
    assert BalanceText(items, showReal) == Join(BalanceLines(sorted, showReal), "\n");
  }

  // ---------------------------------------------------------------------
  // Cleaning the reply

  /** `^` under MULTILINE: the start of the text or just after a newline. */
  predicate LineStart(s: string, p: nat) {
    p == 0 || (p <= |s| && s[p - 1] == '\n')
  }

  /** `^```markdown?\s*` at `p`: where the match ends. */
  function OpeningFenceAt(s: string, p: nat): (r: Option<nat>)
    ensures r.Some? ==> p + 10 <= r.value <= |s|
  {
    if LineStart(s, p) && StartsAt(s, p, "```markdow") then
      var e := if p + 10 < |s| && s[p + 10] == 'n' then p + 11 else p + 10;
      Some(SpaceRunEnd(s, e))
    else None
  }

  /** The last newline in `s[r..t]`. */
  function LastNewline(s: string, r: nat, t: nat): (k: Option<nat>)
    requires r <= t <= |s|
    decreases t - r
    ensures k.Some? ==> r <= k.value < t && s[k.value] == '\n'
    ensures k.Some? ==> forall j :: k.value < j < t ==> s[j] != '\n'
    ensures k.None? ==> forall j :: r <= j < t ==> s[j] != '\n'
  {
    if t == r then None
    else if s[t - 1] == '\n' then Some(t - 1)
    else LastNewline(s, r, t - 1)
  }

  /**
   * `\s*```\s*$` at `p` under MULTILINE: the leading run of whitespace must
   * reach the fence; the trailing run is taken whole when it reaches the end
   * of the text, and otherwise up to its last newline (where `$` holds).
   */
  function ClosingFenceAt(s: string, p: nat): (r: Option<nat>)
    ensures r.Some? ==> p + 3 <= r.value <= |s|
  {
    if p > |s| then None
    else
      var q := SpaceRunEnd(s, p);
      if !StartsAt(s, q, "```") then None
      else
        var t := SpaceRunEnd(s, q + 3);
        if t == |s| then Some(t)
        else match LastNewline(s, q + 3, t)
          case Some(k) => Some(k)
          case None => None
  }

  /** `clean_markdown_response`. */
  function CleanMarkdownResponse(text: string): (r: string)
    ensures text == [] ==> r == []
    ensures r == [] || (!IsSpace(r[0]) && !IsSpace(r[|r| - 1]))
  {
    if text == [] then []
    else
      var unfenced := SubFrom(text, OpeningFenceAt, "", 0);
      Strip(SubFrom(unfenced, ClosingFenceAt, "", 0))
  }

  /** A match of a pattern that begins with a backtick needs one where it starts. */
  lemma FenceStart(s: string, p: nat, w: string)
    requires w != [] && w[0] == '`'
    ensures StartsAt(s, p, w) ==> p < |s| && s[p] == '`'
  {
    if StartsAt(s, p, w) {
      assert s[p..p + |w|][0] == s[p];
    }
  }

  /** A reply without backticks is only stripped. */
  lemma NoFenceOnlyStripped(text: string)
    requires forall i :: 0 <= i < |text| ==> text[i] != '`'
    ensures CleanMarkdownResponse(text) == Strip(text)
  {
    if text != [] {
      forall k | 0 <= k < |text| ensures OpeningFenceAt(text, k).None? {
        FenceStart(text, k, "```markdow");
      }
      SubFromNoMatch(text, OpeningFenceAt, "");
      forall k | 0 <= k < |text| ensures ClosingFenceAt(text, k).None? {
        FenceStart(text, SpaceRunEnd(text, k), "```");
      }
      SubFromNoMatch(text, ClosingFenceAt, "");
    }
  }

  /** A reply wrapped in a markdown fence gives back exactly the wrapped text. */
  lemma FencedReply(body: string)
    requires body != [] && !IsSpace(body[0]) && !IsSpace(body[|body| - 1])
    requires forall i :: 0 <= i < |body| ==> body[i] != '`'
    ensures CleanMarkdownResponse("```markdown\n" + body + "\n```") == body
  {
    var text := "```markdown\n" + body + "\n```";
    OpenedFence(body);
    var x := body + "\n```";
    assert SubFrom(text, OpeningFenceAt, "", 0) == x;
    ClosedFence(body);
    StripNoEdgeSpace(body);
  }

  /** No opening fence starts where there is no backtick. */
  lemma NoOpeningAt(s: string, k: nat)
    requires k < |s| && s[k] != '`'
    ensures OpeningFenceAt(s, k).None?
  {
    FenceStart(s, k, "```markdow");
  }

  /** No closing fence starts where the whitespace from `k` on ends at no backtick. */
  lemma NoClosingAt(s: string, k: nat)
    requires k <= |s| && SpaceRunEnd(s, k) < |s| && s[SpaceRunEnd(s, k)] != '`'
    ensures ClosingFenceAt(s, k).None?
  {
    FenceStart(s, SpaceRunEnd(s, k), "```");
  }

  /** The fence line at the start of the reply matches up to the first non-space after it. */
  lemma OpeningAtStart(text: string)
    requires |text| > 12 && text[..12] == "```markdown\n" && !IsSpace(text[12])
    ensures OpeningFenceAt(text, 0) == Some(12)
  {
    assert text[..10] == text[..12][..10];
    assert text[10] == text[..12][10] && text[11] == text[..12][11];
    SpaceRunExact(text, 11, 12);
  }

  /** A newline and a fence at the very end match from the newline to the end. */
  lemma ClosingAtEnd(x: string, n: nat)
    requires n + 4 == |x| && x[n..] == "\n```"
    ensures ClosingFenceAt(x, n) == Some(|x|)
  {
    assert x[n] == x[n..][0];
    SpaceRunExact(x, n, n + 1);
    assert x[n + 1..n + 4] == x[n..][1..];
  }

  /** The opening fence and the newline after it are the only match of the first pattern. */
  lemma OpenedFence(body: string)
    requires body != [] && !IsSpace(body[0])
    requires forall i :: 0 <= i < |body| ==> body[i] != '`'
    ensures SubFrom("```markdown\n" + body + "\n```", OpeningFenceAt, "", 0) == body + "\n```"
  {
    var head := "```markdown\n";
    var rest := body + "\n```";
    var text := head + rest;
    ConcatAssoc(head, body, "\n```");
    assert text[..12] == head && text[12] == rest[0] == body[0];
    OpeningAtStart(text);
    forall k | 12 <= k < |text| ensures OpeningFenceAt(text, k).None? {
      assert text[k] == rest[k - 12];
      if k - 12 < |body| {
        assert rest[k - 12] == body[k - 12];
        NoOpeningAt(text, k);
      } else if k - 12 == |body| {
        assert rest[k - 12] == '\n';
        NoOpeningAt(text, k);
      }
    }
    SubFromOneMatch(text, OpeningFenceAt, "", 0, 12);
    assert text[12..] == rest;
  }

  /** The newline and the closing fence are the only match of the second pattern. */
  lemma ClosedFence(body: string)
    requires body != [] && !IsSpace(body[|body| - 1])
    requires forall i :: 0 <= i < |body| ==> body[i] != '`'
    ensures SubFrom(body + "\n```", ClosingFenceAt, "", 0) == body
  {
    var x := body + "\n```";
    var n := |body|;
    forall k | 0 <= k < n ensures ClosingFenceAt(x, k).None? {
      SpaceRunStopsBefore(x, k, n);
      assert x[SpaceRunEnd(x, k)] == body[SpaceRunEnd(x, k)];
      NoClosingAt(x, k);
    }
    assert x[n..] == "\n```";
    ClosingAtEnd(x, n);
    SubFromOneMatch(x, ClosingFenceAt, "", n, |x|);
    assert x[..n] == body;
  }
}
