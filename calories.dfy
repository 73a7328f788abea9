/**
 * `calculators/calorie_calculator.py`: calories per exercise (by reps, by a
 * share of the workout's time, or by three seconds a rep), the workout
 * totals, how often each muscle group is worked, and the volume-weighted
 * muscle balance with its primary muscle.
 *
 * The dictionaries the calculator reads are records here; a key the
 * dictionary may lack is an `Option`, and the calculator's `.get` default
 * is applied where it reads it. Calories and times are exact reals.
 */
module Calories {
  import opened Text
  import opened Numeric

  /** An exercise's `reps`: missing, one number, or a list of numbers. */
  datatype RepsValue = NoReps | Count(n: int) | Counts(ns: seq<int>)

  /** `sum(reps)` for a list, else `reps or 0`. */
  function RepsTotal(r: RepsValue): int {
    match r
    case NoReps => 0
    case Count(n) => n
    case Counts(ns) => Sum(ns)
  }

  /** An exercise of the workout: `name`, `equipment` and `reps`, each possibly missing. */
  datatype WorkoutExercise = WorkoutExercise(name: Option<string>, equipment: Option<string>, reps: RepsValue)

  /** The stored data of an exercise: `met_base`, `cal_per_rep`, `muscle_groups`, `equipment`. */
  datatype ExerciseData = ExerciseData(
    metBase: Option<real>,
    calPerRep: Option<real>,
    muscleGroups: seq<string>,
    equipment: Option<string>)

  function Met(d: ExerciseData): real { d.metBase.GetOr(8.0) }

  function CalPerRep(d: ExerciseData): real { d.calPerRep.GetOr(0.0) }

  /** What the calculator reads of the workout: its duration, scheme timing and rounds, and the exercises. */
  datatype WorkoutInput = WorkoutInput(
    duration: Option<real>,
    estimatedMinutes: Option<real>,
    timePerRep: Option<int>,
    sets: Option<int>,
    exercises: seq<WorkoutExercise>)

  /** `duration`, else the scheme's `estimated_time_minutes`, else 0. */
  function DurationMinutes(w: WorkoutInput): real {
    if w.duration.Some? then w.duration.value else w.estimatedMinutes.GetOr(0.0)
  }

  // ---------------------------------------------------------------------
  // Calories of one exercise

  /**
   * `calculate_exercise_calories`: nothing without a positive rate, else
   * the rate times the reps, scaled by the rider's weight over the
   * reference weight, rounded.
   */
  function ExerciseCalories(calPerRep: Option<real>, reps: int, userWeight: int, baseWeight: int): (r: int)
    requires calPerRep.Some? && calPerRep.value > 0.0 ==> baseWeight != 0
    ensures (calPerRep.None? || calPerRep.value <= 0.0) ==> r == 0
    ensures reps >= 0 && userWeight >= 0 && baseWeight > 0 ==> r >= 0
  {
    if calPerRep.None? || calPerRep.value <= 0.0 then 0
    else
      NonNegativeProduct(calPerRep.value, reps as real, userWeight as real / baseWeight as real);
      RoundHalfEven(Scaled(calPerRep.value, reps, userWeight, baseWeight))
  }

  /** The rate times the reps, scaled by the weight factor. */
  function Scaled(calPerRep: real, reps: int, userWeight: int, baseWeight: int): real
    requires baseWeight != 0
  {
    calPerRep * reps as real * (userWeight as real / baseWeight as real)
  }

  lemma NonNegativeProduct(a: real, b: real, c: real)
    ensures a >= 0.0 && b >= 0.0 && c >= 0.0 ==> a * b * c >= 0.0
  {
  }

  /** At the reference weight the calories are the rounded rate times the reps. */
  lemma ReferenceWeightCalories(calPerRep: real, reps: int, weight: int)
    requires calPerRep > 0.0 && weight != 0
    ensures ExerciseCalories(Some(calPerRep), reps, weight, weight) == RoundHalfEven(calPerRep * reps as real)
  {
    var x := weight as real;
    DivideBySelf(x);
    assert Scaled(calPerRep, reps, weight, weight) == calPerRep * reps as real * (x / x);
    assert Scaled(calPerRep, reps, weight, weight) == calPerRep * reps as real;
    assert ExerciseCalories(Some(calPerRep), reps, weight, weight) == RoundHalfEven(Scaled(calPerRep, reps, weight, weight));
  }

  lemma DivideBySelf(x: real)
    requires x != 0.0
    ensures x / x == 1.0
  {
    var q := x / x;
    assert q * x == x;
    assert (q - 1.0) * x == 0.0;
  }

  /** The exercise is counted by reps: a positive rate and positive reps. */
  predicate ByReps(e: WorkoutExercise, d: ExerciseData) {
    CalPerRep(d) > 0.0 && RepsTotal(e.reps) > 0
  }

  /**
   * The calories of one exercise before rounding: by reps when it can be,
   * else its share of a positive duration at its MET, else three seconds a
   * rep at its MET.
   */
  function RawCalories(e: WorkoutExercise, d: ExerciseData, durationMin: real, numExercises: nat,
                       userWeight: int, baseWeight: int): real
    requires ByReps(e, d) ==> baseWeight != 0
  {
    var reps := RepsTotal(e.reps);
    if ByReps(e, d) then ExerciseCalories(Some(CalPerRep(d)), reps, userWeight, baseWeight) as real
    else if durationMin > 0.0 then
      var exMinutes := durationMin / (if numExercises > 1 then numExercises else 1) as real;
      Met(d) * userWeight as real * (exMinutes / 60.0)
    else
      var estMin := (reps as real * 3.0) / 60.0;
      Met(d) * userWeight as real * (estMin / 60.0)
  }

  /** One entry of `per_exercise`. */
  datatype ExerciseResult = ExerciseResult(
    name: string,
    equipment: string,
    reps: int,
    calories: real,
    metBase: real,
    calPerRep: real,
    byReps: bool)

  function Entry(e: WorkoutExercise, d: ExerciseData, durationMin: real, numExercises: nat,
                 userWeight: int, baseWeight: int): (r: ExerciseResult)
    requires ByReps(e, d) ==> baseWeight != 0
    ensures r.byReps <==> CalPerRep(d) > 0.0 && r.reps > 0
    ensures r.reps == RepsTotal(e.reps)
    ensures e.name.None? ==> r.name == "Unknown"
  {
    ExerciseResult(
      e.name.GetOr("Unknown"),
      e.equipment.GetOr(d.equipment.GetOr("")),
      RepsTotal(e.reps),
      Round1(RawCalories(e, d, durationMin, numExercises, userWeight, baseWeight)),
      Met(d),
      CalPerRep(d),
      ByReps(e, d))
  }

  /** Without the rate or the reps an exercise is never counted by reps, whatever the duration. */
  lemma TimeBasedWithoutRate(e: WorkoutExercise, d: ExerciseData, durationMin: real, n: nat, uw: int, bw: int)
    requires CalPerRep(d) <= 0.0 || RepsTotal(e.reps) <= 0
    ensures !Entry(e, d, durationMin, n, uw, bw).byReps
    ensures durationMin <= 0.0 ==>
      RawCalories(e, d, durationMin, n, uw, bw) == Met(d) * uw as real * (RepsTotal(e.reps) as real * 3.0 / 3600.0)
  {
  }

  // ---------------------------------------------------------------------
  // Workout totals

  function Min(a: nat, b: nat): nat { if a <= b then a else b }

  /** The reps of the entries, added up. */
  function SumReps(entries: seq<ExerciseResult>): int {
    if entries == [] then 0 else SumReps(entries[..|entries| - 1]) + entries[|entries| - 1].reps
  }

  /** The unrounded calories of the first `k` pairs. */
  function RawTotal(exercises: seq<WorkoutExercise>, data: seq<ExerciseData>, k: nat, durationMin: real,
                    userWeight: int, baseWeight: int): real
    requires k <= |exercises| && k <= |data|
    requires forall i :: 0 <= i < k ==> (ByReps(exercises[i], data[i]) ==> baseWeight != 0)
  {
    if k == 0 then 0.0
    else
      var before := RawTotal(exercises, data, k - 1, durationMin, userWeight, baseWeight);
      before + RawCalories(exercises[k - 1], data[k - 1], durationMin, |exercises|, userWeight, baseWeight)
  }

  /** How often `x` is listed in `xs`. */
  function Occurrences(xs: seq<string>, x: string): nat {
    if xs == [] then 0 else Occurrences(xs[..|xs| - 1], x) + (if xs[|xs| - 1] == x then 1 else 0)
  }

  /** How often the first `k` exercises list muscle group `mg`. */
  function MuscleCount(data: seq<ExerciseData>, k: nat, mg: string): nat
    requires k <= |data|
  {
    if k == 0 then 0 else MuscleCount(data, k - 1, mg) + Occurrences(data[k - 1].muscleGroups, mg)
  }

  /** An entry of `muscle_group_distribution`. */
  datatype MuscleShare = MuscleShare(count: nat, percentage: real)

  /** The count and its share of the exercises, in percent. */
  function Share(count: nat, numExercises: nat): MuscleShare {
    MuscleShare(count, if numExercises > 0 then Round1(count as real / numExercises as real * 100.0) else 0.0)
  }

  /** `counts` holds, for each group the first `k` exercises list, how often they list it. */
  ghost predicate CountsAre(counts: map<string, nat>, data: seq<ExerciseData>, k: nat)
    requires k <= |data|
  {
    (forall mg :: mg in counts <==> MuscleCount(data, k, mg) > 0) &&
    (forall mg :: mg in counts ==> counts[mg] == MuscleCount(data, k, mg))
  }

  /** The dictionary `calculate_workout_calories` returns. */
  datatype WorkoutCalories = WorkoutCalories(
    totalCalories: real,
    perExercise: seq<ExerciseResult>,
    distribution: map<string, MuscleShare>,
    totalReps: int,
    totalSets: int,
    totalTimeSeconds: int,
    estimatedMinutes: real,
    userWeight: int,
    calculatedAt: string)

  /** The base weight divides only for the exercises counted by reps. */
  predicate BaseWeightUsable(w: WorkoutInput, data: seq<ExerciseData>, baseWeight: int) {
    baseWeight != 0 || forall i :: 0 <= i < |w.exercises| && i < |data| ==> !ByReps(w.exercises[i], data[i])
  }

  /**
   * `calculate_workout_calories`: one entry per exercise paired with its
   * data (the shorter list decides), the totals, the time, and for each
   * listed muscle group how often it is worked and its share of the
   * exercises. `now` is the timestamp.
   */
  method CalculateWorkoutCalories(w: WorkoutInput, data: seq<ExerciseData>, userWeight: int, baseWeight: int,
                                  now: string) returns (r: WorkoutCalories)
    requires BaseWeightUsable(w, data, baseWeight)
    ensures |r.perExercise| == Min(|w.exercises|, |data|)
    ensures forall i :: 0 <= i < |r.perExercise| ==>
      r.perExercise[i] == Entry(w.exercises[i], data[i], DurationMinutes(w), |w.exercises|, userWeight, baseWeight)
    ensures r.totalReps == SumReps(r.perExercise)
    ensures r.totalCalories ==
      Round1(RawTotal(w.exercises, data, |r.perExercise|, DurationMinutes(w), userWeight, baseWeight))
    ensures forall mg :: mg in r.distribution <==> MuscleCount(data, |r.perExercise|, mg) > 0
    ensures forall mg :: mg in r.distribution ==>
      r.distribution[mg] == Share(MuscleCount(data, |r.perExercise|, mg), |r.perExercise|)
    ensures r.totalTimeSeconds ==
      if DurationMinutes(w) > 0.0 then Truncate(DurationMinutes(w) * 60.0)
      else r.totalReps * w.timePerRep.GetOr(3) + 60
    ensures r.estimatedMinutes == Round1(r.totalTimeSeconds as real / 60.0)
    ensures r.totalSets == w.sets.GetOr(1) && r.userWeight == userWeight && r.calculatedAt == now
  {
    var durationMin := DurationMinutes(w);
    var n := Min(|w.exercises|, |data|);
    var perExercise, totalReps, totalCalories, counts := TallyExercises(w.exercises, data, n, durationMin,
                                                                        userWeight, baseWeight);
    var totalTime := if durationMin > 0.0 then Truncate(durationMin * 60.0) else totalReps * w.timePerRep.GetOr(3) + 60;
    var distribution := map mg | mg in counts :: Share(counts[mg], n);
    r := WorkoutCalories(Round1(totalCalories), perExercise, distribution, totalReps, w.sets.GetOr(1),
                         totalTime, Round1(totalTime as real / 60.0), userWeight, now);
  }

  /** The loop over the first `n` pairs: their entries, reps, calories and muscle-group counts. */
  method TallyExercises(exercises: seq<WorkoutExercise>, data: seq<ExerciseData>, n: nat, durationMin: real,
                        userWeight: int, baseWeight: int)
    returns (perExercise: seq<ExerciseResult>, totalReps: int, totalCalories: real, counts: map<string, nat>)
    requires n <= |exercises| && n <= |data|
    requires forall i :: 0 <= i < n ==> (ByReps(exercises[i], data[i]) ==> baseWeight != 0)
    ensures |perExercise| == n
    ensures forall k :: 0 <= k < n ==>
      perExercise[k] == Entry(exercises[k], data[k], durationMin, |exercises|, userWeight, baseWeight)
    ensures totalReps == SumReps(perExercise)
    ensures totalCalories == RawTotal(exercises, data, n, durationMin, userWeight, baseWeight)
    ensures CountsAre(counts, data, n)
  {
    totalCalories := 0.0;
    perExercise := [];
    counts := map[];
    totalReps := 0;
    for i := 0 to n
      invariant |perExercise| == i
      invariant forall k :: 0 <= k < i ==>
        perExercise[k] == Entry(exercises[k], data[k], durationMin, |exercises|, userWeight, baseWeight)
      invariant totalReps == SumReps(perExercise)
      invariant totalCalories == RawTotal(exercises, data, i, durationMin, userWeight, baseWeight)
      invariant CountsAre(counts, data, i)
    {
      var entry := Entry(exercises[i], data[i], durationMin, |exercises|, userWeight, baseWeight);
      totalReps := totalReps + entry.reps;
      counts := CountGroups(counts, data, i);
      totalCalories := totalCalories + RawCalories(exercises[i], data[i], durationMin, |exercises|, userWeight, baseWeight);
      assert (perExercise + [entry])[..i] == perExercise;
      perExercise := perExercise + [entry];
    }
  }

  /** The inner loop: each group the exercise at `i` lists adds one to its count. */
  method CountGroups(counts: map<string, nat>, data: seq<ExerciseData>, i: nat) returns (r: map<string, nat>)
    requires i < |data| && CountsAre(counts, data, i)
    ensures CountsAre(r, data, i + 1)
  {
    var mgs := data[i].muscleGroups;
    r := counts;
    for j := 0 to |mgs|
      invariant forall mg :: mg in r <==> MuscleCount(data, i, mg) + Occurrences(mgs[..j], mg) > 0
      invariant forall mg :: mg in r ==> r[mg] == MuscleCount(data, i, mg) + Occurrences(mgs[..j], mg)
    {
      var mg := mgs[j];
      OccurrencesStep(mgs, j);
      r := r[mg := (if mg in r then r[mg] else 0) + 1];
    }
    assert mgs[..|mgs|] == mgs;
  }

  lemma OccurrencesStep(xs: seq<string>, j: nat)
    requires j < |xs|
    ensures forall x :: Occurrences(xs[..j + 1], x) == Occurrences(xs[..j], x) + (if xs[j] == x then 1 else 0)
  {
    assert xs[..j + 1][..j] == xs[..j];
  }

  /**
   * When no exercise is counted by reps and a duration is given, the
   * time-based calories of the exercises together are the MET rate over the
   * whole duration: the shares add up to the workout.
   */
  lemma TimeSharesCoverDuration(exercises: seq<WorkoutExercise>, data: seq<ExerciseData>, durationMin: real,
                                met: real, uw: int, bw: int)
    requires |exercises| > 0 && |data| >= |exercises| && durationMin > 0.0
    requires forall i :: 0 <= i < |exercises| ==> !ByReps(exercises[i], data[i]) && Met(data[i]) == met
    ensures RawTotal(exercises, data, |exercises|, durationMin, uw, bw) == met * uw as real * (durationMin / 60.0)
  {
    SharesAddUp(exercises, data, |exercises|, durationMin, met, uw, bw);
  }

  lemma {:induction false} SharesAddUp(exercises: seq<WorkoutExercise>, data: seq<ExerciseData>, k: nat,
                                       durationMin: real, met: real, uw: int, bw: int)
    requires |exercises| > 0 && k <= |exercises| && |data| >= |exercises| && durationMin > 0.0
    requires forall i :: 0 <= i < |exercises| ==> !ByReps(exercises[i], data[i]) && Met(data[i]) == met
    ensures RawTotal(exercises, data, k, durationMin, uw, bw) ==
      k as real * (met * uw as real * ((durationMin / |exercises| as real) / 60.0))
  {
    if k > 0 {
      SharesAddUp(exercises, data, k - 1, durationMin, met, uw, bw);
      assert RawCalories(exercises[k - 1], data[k - 1], durationMin, |exercises|, uw, bw) ==
        met * uw as real * ((durationMin / |exercises| as real) / 60.0);
    } else {
      assert RawTotal(exercises, data, 0, durationMin, uw, bw) == 0.0;
    }
  }

  /** A muscle group listed at most once per exercise is counted at most once per exercise. */
  lemma CountAtMostExercises(data: seq<ExerciseData>, k: nat, mg: string)
    requires k <= |data|
    requires forall i :: 0 <= i < k ==> Occurrences(data[i].muscleGroups, mg) <= 1
    ensures MuscleCount(data, k, mg) <= k
  {
    if k > 0 {
      CountAtMostExercises(data, k - 1, mg);
    }
  }

  /** Every group an exercise lists counts once more for each time it is listed. */
  lemma CountGrowsByListing(data: seq<ExerciseData>, k: nat, mg: string)
    requires k < |data|
    ensures MuscleCount(data, k + 1, mg) == MuscleCount(data, k, mg) + Occurrences(data[k].muscleGroups, mg)
    ensures mg in data[k].muscleGroups ==> MuscleCount(data, k + 1, mg) > MuscleCount(data, k, mg)
  {
    if mg in data[k].muscleGroups {
      ListedOccurs(data[k].muscleGroups, mg);
    }
  }

  lemma {:induction false} ListedOccurs(xs: seq<string>, x: string)
    requires x in xs
    ensures Occurrences(xs, x) > 0
  {
    if xs[|xs| - 1] != x {
      assert x in xs[..|xs| - 1] by {
        var i :| 0 <= i < |xs| && xs[i] == x;
        assert xs[..|xs| - 1][i] == x;
      }
      ListedOccurs(xs[..|xs| - 1], x);
    }
  }

  // ---------------------------------------------------------------------
  // Weight from the equipment text

  /**
   * `(\d+)\s*[xX]\s*(\d+)` matched at `p`: the product of the two numbers.
   * Neither run can give anything back, so the match is the maximal digit
   * run, the spaces, the `x`, the spaces and the next maximal digit run.
   */
  function TimesAt(s: string, p: nat): Option<nat> {
    if p < |s| && IsDigit(s[p]) then
      var e := DigitRunEnd(s, p);
      var f := SpaceRunEnd(s, e);
      if f < |s| && (s[f] == 'x' || s[f] == 'X') then
        var g := SpaceRunEnd(s, f + 1);
        if g < |s| && IsDigit(s[g]) then Some(NumberAt(s, p) * NumberAt(s, g)) else None
      else None
    else None
  }

  /** `(\d+)\s*(?:кг|kg)` matched at `p`: the number. */
  function KgAt(s: string, p: nat): Option<nat> {
    if p < |s| && IsDigit(s[p]) then
      var f := SpaceRunEnd(s, DigitRunEnd(s, p));
      if StartsAt(s, f, "кг") || StartsAt(s, f, "kg") then Some(NumberAt(s, p)) else None
    else None
  }

  /**
   * `extract_weight_from_equipment`: nothing for empty or body-weight
   * equipment, else the first `AxB` product, else the first `N кг`/`N kg`,
   * else nothing.
   */
  function ExtractWeight(equipment: string): nat {
    if equipment == [] || Contains(Lower(equipment), "body") then 0 else PatternWeight(equipment)
  }

  /** The two patterns in turn, the first one found deciding. */
  function PatternWeight(equipment: string): nat {
    match FirstMatch(equipment, TimesAt, 0)
    case Some(m) => m.1
    case None =>
      match FirstMatch(equipment, KgAt, 0)
      case Some(m) => m.1
      case None => 0
  }

  /** Empty, body-weight and digit-free equipment weighs nothing. */
  lemma NoWeight(equipment: string)
    ensures equipment == [] || Contains(Lower(equipment), "body") ==> ExtractWeight(equipment) == 0
    ensures (forall k :: 0 <= k < |equipment| ==> !IsDigit(equipment[k])) ==> ExtractWeight(equipment) == 0
  {
  }

  /** Text of digits, spaces, `x`, `к` and `г` never mentions `body`. */
  lemma NotBody(s: string)
    requires forall k :: 0 <= k < |s| ==> IsDigit(s[k]) || s[k] == 'x' || s[k] == ' ' || s[k] == 'к' || s[k] == 'г'
    ensures !Contains(Lower(s), "body")
  {
    NotContainsChar(Lower(s), "body");
  }

  /** When the product pattern is found, it decides the weight. */
  lemma WeightFromTimes(s: string, m: (nat, nat))
    requires s != [] && !Contains(Lower(s), "body") && FirstMatch(s, TimesAt, 0) == Some(m)
    ensures ExtractWeight(s) == m.1
  {
  }

  /** Without a product, the first `N кг` decides the weight. */
  lemma WeightFromKg(s: string, m: (nat, nat))
    requires s != [] && !Contains(Lower(s), "body")
    requires FirstMatch(s, TimesAt, 0).None? && FirstMatch(s, KgAt, 0) == Some(m)
    ensures ExtractWeight(s) == m.1
  {
  }

  /** `AxB` weighs A times B. */
  lemma TimesWeight(a: nat, b: nat)
    ensures ExtractWeight(NatToString(a) + "x" + NatToString(b)) == a * b
  {
    var s := NatToString(a) + "x" + NatToString(b);
    TimesNoBody(NatToString(a), NatToString(b));
    TimesWritten(a, b);
    FirstMatchAt(s, TimesAt, 0, 0);
    WeightFromTimes(s, (0, a * b));
  }

  lemma TimesNoBody(x: string, y: string)
    requires AllDigits(x) && AllDigits(y)
    ensures !Contains(Lower(x + "x" + y), "body")
  {
    var s := x + "x" + y;
    forall k | 0 <= k < |s| ensures IsDigit(s[k]) || s[k] == 'x' {
      if k < |x| { assert s[k] == x[k]; }
      else if k > |x| { assert s[k] == y[k - |x| - 1]; }
    }
    NotBody(s);
  }

  lemma TimesWritten(a: nat, b: nat)
    ensures TimesAt(NatToString(a) + "x" + NatToString(b), 0) == Some(a * b)
  {
    var x, y := NatToString(a), NatToString(b);
    var s := x + "x" + y;
    ConcatAssoc(x, "x", y);
    NumberAtWritten(a, "x" + y);
    NumberAtShift(x + "x", y, 0);
    NumberAtWritten(b, []);
    assert y + [] == y;
    TimesAtTight(s, |x|);
  }

  /** A digit run ending right before the `x` of `AxB`, with the next digit right after it. */
  lemma TimesAtTight(s: string, e: nat)
    requires 0 < e && e + 1 < |s| && IsDigit(s[0]) && DigitRunEnd(s, 0) == e
    requires s[e] == 'x' && IsDigit(s[e + 1])
    ensures TimesAt(s, 0) == Some(NumberAt(s, 0) * NumberAt(s, e + 1))
  {
    SpaceRunExact(s, e, e);
    SpaceRunExact(s, e + 1, e + 1);
  }

  /** `N кг` weighs N. */
  lemma KgWeight(n: nat)
    ensures ExtractWeight(NatToString(n) + " кг") == n
  {
    var s := NatToString(n) + " кг";
    KgNoBody(NatToString(n));
    KgNoTimes(n);
    KgWritten(n);
    FirstMatchAt(s, KgAt, 0, 0);
    WeightFromKg(s, (0, n));
  }

  lemma KgNoBody(x: string)
    requires AllDigits(x)
    ensures !Contains(Lower(x + " кг"), "body")
  {
    var s := x + " кг";
    forall k | 0 <= k < |s| ensures IsDigit(s[k]) || s[k] == ' ' || s[k] == 'к' || s[k] == 'г' {
      if k < |x| { assert s[k] == x[k]; }
    }
    NotBody(s);
  }

  lemma KgWritten(n: nat)
    ensures KgAt(NatToString(n) + " кг", 0) == Some(n)
  {
    var x := NatToString(n);
    var s := x + " кг";
    NumberAtWritten(n, " кг");
    assert s[|x|] == ' ' && s[|x| + 1] == 'к';
    SpaceRunExact(s, |x|, |x| + 1);
    assert s[|x| + 1..|x| + 3] == "кг";
  }

  lemma KgNoTimes(n: nat)
    ensures FirstMatch(NatToString(n) + " кг", TimesAt, 0).None?
  {
    var x := NatToString(n);
    var s := x + " кг";
    assert s[|x|] == ' ' && s[|x| + 1] == 'к';
    SpaceRunExact(s, |x|, |x| + 1);
    forall q: nat | q <= |s| ensures TimesAt(s, q).None? {
      if q < |x| {
        assert forall k :: q <= k < |x| ==> s[k] == x[k];
        DigitRunPrefix(s, q, |x|);
      } else {
        assert q >= |s| || !IsDigit(s[q]);
      }
    }
  }

  // ---------------------------------------------------------------------
  // Muscle balance

  /** The seven groups the balance knows, in the order it reports them. */
  const Groups: seq<string> := ["shoulders", "chest", "back", "core", "legs", "arms", "fullBody"]

  predicate Distinct(gs: seq<string>) {
    forall i, j :: 0 <= i < j < |gs| ==> gs[i] != gs[j]
  }

  lemma GroupsDistinct()
    ensures Distinct(Groups)
  {
  }

  /** How many pairs the balance walks: the workout's exercises with their data, or every stored exercise. */
  function BalancePairs(exercises: seq<WorkoutExercise>, data: seq<ExerciseData>): nat {
    if |exercises| > 0 then Min(|exercises|, |data|) else |data|
  }

  /** The exercise at `i`: the workout's own, or ten reps when the workout lists none. */
  function BalanceExercise(exercises: seq<WorkoutExercise>, i: nat): WorkoutExercise
    requires |exercises| > 0 ==> i < |exercises|
  {
    if |exercises| > 0 then exercises[i] else WorkoutExercise(None, None, Count(10))
  }

  /** The exercise's own equipment unless it is missing or empty, else the stored one. */
  function BalanceEquipment(e: WorkoutExercise, d: ExerciseData): string {
    if e.equipment.Some? && e.equipment.value != [] then e.equipment.value else d.equipment.GetOr("")
  }

  /** The weight an exercise moves: the equipment's, or 30 when the equipment gives none. */
  function LoadWeight(equipment: string): (r: nat)
    ensures r > 0
  {
    var w := ExtractWeight(equipment);
    if w == 0 then 30 else w
  }

  /** Body-weight and unweighted equipment count as 30. */
  lemma BodyWeightLoad(equipment: string)
    requires equipment == [] || Contains(Lower(equipment), "body")
    ensures LoadWeight(equipment) == 30
  {
  }

  /** The reps times the weight. */
  function Volume(e: WorkoutExercise, d: ExerciseData): int {
    RepsTotal(e.reps) * LoadWeight(BalanceEquipment(e, d))
  }

  /** How many entries of `mgs` are among `gs` (an entry listed twice counts twice). */
  function CountIn(mgs: seq<string>, gs: seq<string>): nat {
    if mgs == [] then 0 else CountIn(mgs[..|mgs| - 1], gs) + (if mgs[|mgs| - 1] in gs then 1 else 0)
  }

  /** What listing `mgs` adds to group `g`: the volume once per time `g` is listed. */
  function AddedVolume(mgs: seq<string>, g: string, volume: int): int {
    if mgs == [] then 0
    else AddedVolume(mgs[..|mgs| - 1], g, volume) + (if mgs[|mgs| - 1] == g then volume else 0)
  }

  lemma AddedVolumeStep(mgs: seq<string>, j: nat, volume: int)
    requires j < |mgs|
    ensures forall g ::
      AddedVolume(mgs[..j + 1], g, volume) == AddedVolume(mgs[..j], g, volume) + (if mgs[j] == g then volume else 0)
  {
    assert mgs[..j + 1][..j] == mgs[..j];
  }

  /** The volume of each pair the balance walks, in order. */
  function PairVolumes(exercises: seq<WorkoutExercise>, data: seq<ExerciseData>): (r: seq<int>)
    ensures |r| == BalancePairs(exercises, data)
    ensures forall i :: 0 <= i < |r| ==> r[i] == Volume(BalanceExercise(exercises, i), data[i])
  {
    seq(BalancePairs(exercises, data), i requires 0 <= i < BalancePairs(exercises, data) =>
      Volume(BalanceExercise(exercises, i), data[i]))
  }

  /** The volume of group `mg` over the first `k` pairs, `vs` giving each pair's volume. */
  function GroupVolume(vs: seq<int>, data: seq<ExerciseData>, k: nat, mg: string): int
    requires k <= |vs| && k <= |data|
  {
    if k == 0 then 0
    else GroupVolume(vs, data, k - 1, mg) + AddedVolume(data[k - 1].muscleGroups, mg, vs[k - 1])
  }

  /** The total over the first `k` pairs: each pair's volume times how many of the `known` groups it lists. */
  function TotalVolume(vs: seq<int>, data: seq<ExerciseData>, k: nat, known: seq<string>): int
    requires k <= |vs| && k <= |data|
  {
    if k == 0 then 0
    else TotalVolume(vs, data, k - 1, known) + vs[k - 1] * CountIn(data[k - 1].muscleGroups, known)
  }

  /** A group's share of the total in percent, before rounding. */
  function RawPercentage(volume: int, total: int): real
    requires total != 0
  {
    volume as real / total as real * 100.0
  }

  /** The reported share: rounded to a tenth, and 0 when there is no positive total. */
  function Percentage(volume: int, total: int): real {
    if total > 0 then Round1(RawPercentage(volume, total)) else 0.0
  }

  /** An entry of `balance`. */
  datatype GroupBalance = GroupBalance(volume: int, percentage: real)

  /** The dictionary `calculate_muscle_balance` returns. */
  datatype MuscleBalance = MuscleBalance(balance: map<string, GroupBalance>, primary: Option<string>, totalVolume: int)

  /** The volumes of the `known` groups after the first `k` pairs, in their order. */
  function Volumes(vs: seq<int>, data: seq<ExerciseData>, k: nat, known: seq<string>): (r: seq<int>)
    requires k <= |vs| && k <= |data|
    ensures |r| == |known|
    ensures forall j :: 0 <= j < |known| ==> r[j] == GroupVolume(vs, data, k, known[j])
  {
    seq(|known|, j requires 0 <= j < |known| => GroupVolume(vs, data, k, known[j]))
  }

  /** Group `j` is the primary muscle: positive, above every earlier group and at least every later one. */
  predicate IsPrimary(vols: seq<int>, j: nat)
    requires j < |vols|
  {
    vols[j] > 0 && (forall i :: 0 <= i < j ==> vols[i] < vols[j]) && (forall i :: j < i < |vols| ==> vols[i] <= vols[j])
  }

  /**
   * `calculate_muscle_balance`: the volume of each of the seven groups, its
   * share of the total, the total, and the first group of strictly largest
   * positive volume (none when no volume is positive). Each pair's volume
   * is `PairVolumes`; the groups accumulate them in pair order.
   */
  method CalculateMuscleBalance(data: seq<ExerciseData>, exercises: seq<WorkoutExercise>) returns (r: MuscleBalance)
    ensures forall g :: g in r.balance <==> g in Groups
    ensures r.totalVolume == TotalVolume(PairVolumes(exercises, data), data, BalancePairs(exercises, data), Groups)
    ensures forall j :: 0 <= j < |Groups| ==>
      var v := GroupVolume(PairVolumes(exercises, data), data, BalancePairs(exercises, data), Groups[j]);
      r.balance[Groups[j]] == GroupBalance(v, Percentage(v, r.totalVolume))
    ensures r.primary.None? <==> forall j :: 0 <= j < |Groups| ==>
      GroupVolume(PairVolumes(exercises, data), data, BalancePairs(exercises, data), Groups[j]) <= 0
    ensures r.primary.Some? ==>
      exists j :: 0 <= j < |Groups| && Groups[j] == r.primary.value &&
                  IsPrimary(Volumes(PairVolumes(exercises, data), data, BalancePairs(exercises, data), Groups), j)
  {
    var vs := PairVolumes(exercises, data);
    GroupsDistinct();
    var volumes, total := AccumulateVolumes(vs, data, Groups);
    r := Summarize(volumes, total, Groups, Volumes(vs, data, |vs|, Groups));
  }

  /**
   * The loop over the pairs: each pair's volume goes to every known group
   * it lists, and to the total once per such listing.
   */
  method AccumulateVolumes(vs: seq<int>, data: seq<ExerciseData>, known: seq<string>)
    returns (volumes: map<string, int>, total: int)
    requires |vs| <= |data|
    ensures forall g :: g in volumes <==> g in known
    ensures forall g :: g in volumes ==> volumes[g] == GroupVolume(vs, data, |vs|, g)
    ensures total == TotalVolume(vs, data, |vs|, known)
  {
    volumes := map g | g in known :: 0;
    total := 0;
    for i := 0 to |vs|
      invariant forall g :: g in volumes <==> g in known
      invariant forall g :: g in volumes ==> volumes[g] == GroupVolume(vs, data, i, g)
      invariant total == TotalVolume(vs, data, i, known)
    {
      var mgs := data[i].muscleGroups;
      volumes := AddVolume(volumes, mgs, vs[i], known);
      total := total + vs[i] * CountIn(mgs, known);
    }
  }

  /** The inner loop: each known group listed adds the exercise's volume. */
  method AddVolume(volumes: map<string, int>, mgs: seq<string>, volume: int, known: seq<string>)
    returns (r: map<string, int>)
    requires forall g :: g in volumes <==> g in known
    ensures forall g :: g in r <==> g in known
    ensures forall g :: g in r ==> r[g] == volumes[g] + AddedVolume(mgs, g, volume)
  {
    r := volumes;
    for j := 0 to |mgs|
      invariant forall g :: g in r <==> g in known
      invariant forall g :: g in r ==> r[g] == volumes[g] + AddedVolume(mgs[..j], g, volume)
    {
      var mg := mgs[j];
      AddedVolumeStep(mgs, j, volume);
      if mg in r {
        r := r[mg := r[mg] + volume];
      }
    }
    assert mgs[..|mgs|] == mgs;
  }

  lemma PrefixGrows(xs: seq<string>, j: nat)
    requires j < |xs|
    ensures forall x :: x in xs[..j + 1] <==> x in xs[..j] || x == xs[j]
  {
    assert xs[..j + 1] == xs[..j] + [xs[j]];
  }

  /** The entries of the first `j` groups are in `balance`, and nothing else is. */
  ghost predicate EntriesSoFar(balance: map<string, GroupBalance>, known: seq<string>, vols: seq<int>, total: int, j: nat)
    requires j <= |known| <= |vols|
  {
    (forall g :: g in balance <==> g in known[..j]) &&
    (forall i :: 0 <= i < j ==> balance[known[i]] == GroupBalance(vols[i], Percentage(vols[i], total)))
  }

  /**
   * Among the first `j` groups, `primary` is the first of strictly largest
   * positive volume `maxVolume`, found at `best`, or none when no volume so
   * far is positive.
   */
  ghost predicate LeaderSoFar(known: seq<string>, vols: seq<int>, j: nat, primary: Option<string>, maxVolume: int, best: nat)
    requires j <= |known| <= |vols|
  {
    maxVolume >= 0 && (forall i :: 0 <= i < j ==> vols[i] <= maxVolume) &&
    (primary.None? ==> maxVolume == 0) &&
    (primary.Some? ==>
       best < j && known[best] == primary.value && vols[best] == maxVolume > 0 &&
       forall i :: 0 <= i < best ==> vols[i] < maxVolume)
  }

  /** The loop over the groups in order: each group's entry, and the first strict maximum above zero. */
  method Summarize(volumes: map<string, int>, total: int, known: seq<string>, ghost vols: seq<int>)
    returns (r: MuscleBalance)
    requires Distinct(known) && |vols| == |known|
    requires forall j :: 0 <= j < |known| ==> known[j] in volumes && volumes[known[j]] == vols[j]
    ensures forall g :: g in r.balance <==> g in known
    ensures forall j :: 0 <= j < |known| ==> r.balance[known[j]] == GroupBalance(vols[j], Percentage(vols[j], total))
    ensures r.totalVolume == total
    ensures r.primary.None? <==> forall j :: 0 <= j < |known| ==> vols[j] <= 0
    ensures r.primary.Some? ==> exists j :: 0 <= j < |known| && known[j] == r.primary.value && IsPrimary(vols, j)
  {
    var balance: map<string, GroupBalance> := map[];
    var primary: Option<string> := None;
    var maxVolume := 0;
    ghost var best: nat := 0;
    for j := 0 to |known|
      invariant EntriesSoFar(balance, known, vols, total, j)
      invariant LeaderSoFar(known, vols, j, primary, maxVolume, best)
    {
      balance, primary, maxVolume, best := VisitGroup(volumes, total, known, vols, j, balance, primary, maxVolume, best);
    }
    assert known[..|known|] == known;
    r := MuscleBalance(balance, primary, total);
    if primary.Some? {
      assert IsPrimary(vols, best);
    }
  }

  /** One turn of the loop over the groups. */
  method VisitGroup(volumes: map<string, int>, total: int, known: seq<string>, ghost vols: seq<int>, j: nat,
                    balance: map<string, GroupBalance>, primary: Option<string>, maxVolume: int, ghost best: nat)
    returns (balance': map<string, GroupBalance>, primary': Option<string>, maxVolume': int, ghost best': nat)
    requires Distinct(known) && |vols| == |known| && j < |known|
    requires known[j] in volumes && volumes[known[j]] == vols[j]
    requires EntriesSoFar(balance, known, vols, total, j)
    requires LeaderSoFar(known, vols, j, primary, maxVolume, best)
    ensures EntriesSoFar(balance', known, vols, total, j + 1)
    ensures LeaderSoFar(known, vols, j + 1, primary', maxVolume', best')
  {
    var g := known[j];
    var v := volumes[g];
    PrefixGrows(known, j);
    balance' := balance[g := GroupBalance(v, Percentage(v, total))];
    primary', maxVolume', best' := primary, maxVolume, best;
    if v > maxVolume {
      maxVolume' := v;
      primary' := Some(g);
      best' := j;
    }
  }

  /** The volumes of the groups `gs`, added up. */
  function SumOver(vs: seq<int>, data: seq<ExerciseData>, k: nat, gs: seq<string>): int
    requires k <= |vs| && k <= |data|
  {
    if gs == [] then 0 else SumOver(vs, data, k, gs[..|gs| - 1]) + GroupVolume(vs, data, k, gs[|gs| - 1])
  }

  /** What one listing adds to the groups `gs`, added up. */
  function AddedOver(mgs: seq<string>, gs: seq<string>, volume: int): int {
    if gs == [] then 0 else AddedOver(mgs, gs[..|gs| - 1], volume) + AddedVolume(mgs, gs[|gs| - 1], volume)
  }

  /** Once per group of `gs` equal to `x`. */
  function Hits(x: string, gs: seq<string>, volume: int): int {
    if gs == [] then 0 else Hits(x, gs[..|gs| - 1], volume) + (if gs[|gs| - 1] == x then volume else 0)
  }

  /**
   * The sum of the seven groups' volumes is the total volume: a group the
   * balance does not know adds to neither side.
   */
  lemma GroupsMakeTotal(data: seq<ExerciseData>, exercises: seq<WorkoutExercise>)
    ensures SumOver(PairVolumes(exercises, data), data, BalancePairs(exercises, data), Groups) ==
      TotalVolume(PairVolumes(exercises, data), data, BalancePairs(exercises, data), Groups)
  {
    GroupsDistinct();
    SumOverIsTotal(PairVolumes(exercises, data), data, BalancePairs(exercises, data), Groups);
  }

  lemma {:induction false} SumOverIsTotal(vs: seq<int>, data: seq<ExerciseData>, k: nat, gs: seq<string>)
    requires k <= |vs| && k <= |data| && Distinct(gs)
    ensures SumOver(vs, data, k, gs) == TotalVolume(vs, data, k, gs)
  {
    if k == 0 {
      SumOverNothing(vs, data, gs);
    } else {
      SumOverIsTotal(vs, data, k - 1, gs);
      SumOverStep(vs, data, k, gs);
      AddedOverCount(data[k - 1].muscleGroups, gs, vs[k - 1]);
    }
  }

  lemma {:induction false} SumOverNothing(vs: seq<int>, data: seq<ExerciseData>, gs: seq<string>)
    ensures SumOver(vs, data, 0, gs) == 0
  {
    if gs != [] { SumOverNothing(vs, data, gs[..|gs| - 1]); }
  }

  /** Adding pair `k - 1` adds what its listing adds to each group. */
  lemma {:induction false} SumOverStep(vs: seq<int>, data: seq<ExerciseData>, k: nat, gs: seq<string>)
    requires 0 < k <= |vs| && k <= |data|
    ensures SumOver(vs, data, k, gs) == SumOver(vs, data, k - 1, gs) + AddedOver(data[k - 1].muscleGroups, gs, vs[k - 1])
  {
    if gs != [] { SumOverStep(vs, data, k, gs[..|gs| - 1]); }
  }

  /** What a listing adds to distinct groups is the volume once per listed group among them. */
  lemma {:induction false} AddedOverCount(mgs: seq<string>, gs: seq<string>, volume: int)
    requires Distinct(gs)
    ensures AddedOver(mgs, gs, volume) == volume * CountIn(mgs, gs)
  {
    if mgs == [] {
      AddedOverNothing(gs, volume);
    } else {
      var init, x := mgs[..|mgs| - 1], mgs[|mgs| - 1];
      AddedOverCount(init, gs, volume);
      AddedOverSplit(mgs, gs, volume);
      HitsOnce(x, gs, volume);
      Distribute(volume, CountIn(init, gs), if x in gs then 1 else 0);
    }
  }

  lemma Distribute(v: int, a: int, b: int)
    ensures v * (a + b) == v * a + v * b
  {
  }

  lemma {:induction false} AddedOverNothing(gs: seq<string>, volume: int)
    ensures AddedOver([], gs, volume) == 0
  {
    if gs != [] { AddedOverNothing(gs[..|gs| - 1], volume); }
  }

  lemma {:induction false} AddedOverSplit(mgs: seq<string>, gs: seq<string>, volume: int)
    requires mgs != []
    ensures AddedOver(mgs, gs, volume) ==
      AddedOver(mgs[..|mgs| - 1], gs, volume) + Hits(mgs[|mgs| - 1], gs, volume)
  {
    if gs != [] { AddedOverSplit(mgs, gs[..|gs| - 1], volume); }
  }

  /** Among distinct groups, `x` is hit once if it is one of them and never otherwise. */
  lemma {:induction false} HitsOnce(x: string, gs: seq<string>, volume: int)
    requires Distinct(gs)
    ensures Hits(x, gs, volume) == if x in gs then volume else 0
  {
    if gs != [] {
      var init := gs[..|gs| - 1];
      assert Distinct(init);
      HitsOnce(x, init, volume);
      if x == gs[|gs| - 1] {
        assert x !in init;
      } else {
        assert x in gs <==> x in init by {
          assert gs == init + [gs[|gs| - 1]];
        }
      }
    }
  }

  /** The unrounded shares of the groups `gs`, added up. */
  function PercentOver(vs: seq<int>, data: seq<ExerciseData>, k: nat, gs: seq<string>, total: int): real
    requires k <= |vs| && k <= |data| && total != 0
  {
    if gs == [] then 0.0
    else PercentOver(vs, data, k, gs[..|gs| - 1], total) + RawPercentage(GroupVolume(vs, data, k, gs[|gs| - 1]), total)
  }

  /** With a positive total, the seven unrounded shares add up to 100. */
  lemma SharesMakeHundred(data: seq<ExerciseData>, exercises: seq<WorkoutExercise>)
    requires TotalVolume(PairVolumes(exercises, data), data, BalancePairs(exercises, data), Groups) > 0
    ensures PercentOver(PairVolumes(exercises, data), data, BalancePairs(exercises, data), Groups,
                        TotalVolume(PairVolumes(exercises, data), data, BalancePairs(exercises, data), Groups)) == 100.0
  {
    var vs, n := PairVolumes(exercises, data), BalancePairs(exercises, data);
    var t := TotalVolume(vs, data, n, Groups);
    GroupsMakeTotal(data, exercises);
    PercentOverIsShare(vs, data, n, Groups, t);
    DivideBySelf(t as real);
    assert t as real / t as real * 100.0 == 100.0;
  }

  lemma {:induction false} PercentOverIsShare(vs: seq<int>, data: seq<ExerciseData>, k: nat, gs: seq<string>, total: int)
    requires k <= |vs| && k <= |data| && total != 0
    ensures PercentOver(vs, data, k, gs, total) == RawPercentage(SumOver(vs, data, k, gs), total)
  {
    if gs == [] {
      assert 0 as real / total as real == 0.0;
    } else {
      PercentOverIsShare(vs, data, k, gs[..|gs| - 1], total);
      SharesAdd(SumOver(vs, data, k, gs[..|gs| - 1]), GroupVolume(vs, data, k, gs[|gs| - 1]), total);
    }
  }

  lemma SharesAdd(a: int, b: int, t: int)
    requires t != 0
    ensures RawPercentage(a, t) + RawPercentage(b, t) == RawPercentage(a + b, t)
  {
    var x, y, z := a as real / t as real, b as real / t as real, (a + b) as real / t as real;
    assert x * t as real == a as real && y * t as real == b as real && z * t as real == (a + b) as real;
    assert (x + y - z) * t as real == 0.0;
  }

  /** Without an exercise list every stored exercise counts ten reps at its stored equipment's weight. */
  lemma TenRepsWithoutList(data: seq<ExerciseData>, i: nat)
    requires i < |data|
    ensures PairVolumes([], data)[i] == 10 * LoadWeight(data[i].equipment.GetOr(""))
  {
  }
}
