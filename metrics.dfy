/** The in-memory part of GET /api/metrics: given the user's workouts of the last
    fourteen days and their exercises, it computes weekly volumes, a composite
    score for this week and last week, their trend, the current streak and a
    seven-day series. Days are day numbers and `today` is a parameter. */
module Metrics {
  import opened Database
  import opened Seqs

  datatype Trend = Up | Down | Stable

  datatype DayEntry = DayEntry(date: int, score: int, workouts: nat)

  datatype FitnessMetrics = FitnessMetrics(
    currentScore: int,
    previousScore: int,
    weeklyWorkouts: nat,
    streak: nat,
    totalVolume: int,
    trend: Trend,
    weeklyData: seq<DayEntry>)

  /** `Math.round`: the nearest integer, halves rounded up. */
  function Round(x: real): (r: int)
    ensures r as real - 0.5 <= x < r as real + 0.5
  {
    (x + 0.5).Floor
  }

  function Min(a: real, b: real): real
  {
    if a <= b then a else b
  }

  // ---------------------------------------------------------------------------
  // Grouping exercises by workout

  function BelongsTo(id: string): Exercise -> bool
  {
    (e: Exercise) => e.workoutId == id
  }

  /** The exercises of one workout, in their fetched order. */
  function ExercisesOf(exs: seq<Exercise>, id: string): seq<Exercise>
  {
    Filter(exs, BelongsTo(id))
  }

  /** `exercisesByWorkout[id] || []`. */
  function GroupOf(groups: map<string, seq<Exercise>>, id: string): seq<Exercise>
  {
    if id in groups then groups[id] else []
  }

  ghost predicate Grouped(groups: map<string, seq<Exercise>>, exs: seq<Exercise>)
  {
    forall id :: GroupOf(groups, id) == ExercisesOf(exs, id)
  }

  /** Each exercise sits in exactly the bucket of its own workout. */
  lemma ExercisesOfMembers(exs: seq<Exercise>, id: string)
    ensures forall e :: e in ExercisesOf(exs, id) <==> e in exs && e.workoutId == id
  {
    FilterMembers(exs, BelongsTo(id));
  }

  /** `groups` holds a bucket for exactly the workout ids of `xs`, each bucket
      holding that workout's exercises of `xs` in order. */
  ghost predicate GroupsOf(groups: map<string, seq<Exercise>>, xs: seq<Exercise>)
  {
    && (forall id :: id in groups <==> ExercisesOf(xs, id) != [])
    && Grouped(groups, xs)
  }

  /** Pushing one more exercise onto its workout's bucket keeps the grouping exact. */
  lemma GroupsOfSnoc(groups: map<string, seq<Exercise>>, xs: seq<Exercise>, ex: Exercise)
    requires GroupsOf(groups, xs)
    ensures GroupsOf(groups[ex.workoutId := GroupOf(groups, ex.workoutId) + [ex]], xs + [ex])
  {
    var extended := groups[ex.workoutId := GroupOf(groups, ex.workoutId) + [ex]];
    forall id
      ensures id in extended <==> ExercisesOf(xs + [ex], id) != []
      ensures GroupOf(extended, id) == ExercisesOf(xs + [ex], id)
    {
      FilterSnoc(xs, ex, BelongsTo(id));
      assert ExercisesOf(xs, id) == GroupOf(groups, id);
      if id == ex.workoutId {
        assert GroupOf(extended, id) == GroupOf(groups, id) + [ex];
      } else {
        assert ExercisesOf(xs + [ex], id) == ExercisesOf(xs, id);
        assert GroupOf(extended, id) == GroupOf(groups, id);
      }
    }
  }

  /** The `reduce` that builds `exercisesByWorkout`: one bucket per workout id that
      occurs, holding that workout's exercises in their original order. */
  method GroupByWorkout(exs: seq<Exercise>) returns (groups: map<string, seq<Exercise>>)
    ensures forall id :: id in groups <==> ExercisesOf(exs, id) != []
    ensures forall id :: GroupOf(groups, id) == ExercisesOf(exs, id)
  {
    groups := map[];
    for i := 0 to |exs|
      invariant GroupsOf(groups, exs[..i])
    {
      var ex := exs[i];
      assert exs[..i + 1] == exs[..i] + [ex];
      GroupsOfSnoc(groups, exs[..i], ex);
      if ex.workoutId !in groups {
        groups := groups[ex.workoutId := []];
      }
      groups := groups[ex.workoutId := groups[ex.workoutId] + [ex]];
    }
    assert exs[..|exs|] == exs;
  }

  // ---------------------------------------------------------------------------
  // Volume

  /** Only weight-based rows count: a truthy weight, sets and reps, and a unit that
      is absent, "lbs" or "kg". */
  predicate CountsTowardVolume(e: Exercise)
  {
    && e.weight.Some? && e.weight.value != 0.0 && e.sets != 0 && e.reps != 0
    && (e.unit.None? || e.unit.value == "" || e.unit.value == "lbs" || e.unit.value == "kg")
  }

  function WeightInLbs(e: Exercise): real
    requires e.weight.Some?
  {
    if e.unit == Some("kg") then e.weight.value * 2.2 else e.weight.value
  }

  function Contribution(e: Exercise): real
  {
    if CountsTowardVolume(e) then (e.sets * e.reps) as real * WeightInLbs(e) else 0.0
  }

  /** 3 x 8 x 100 kg is 5280, the same in lbs is 2400, and a row in minutes adds nothing. */
  lemma ContributionExamples(e: Exercise)
    requires e.sets == 3 && e.reps == 8 && e.weight == Some(100.0)
    ensures e.unit == Some("kg") ==> Contribution(e) == 5280.0
    ensures e.unit == Some("lbs") ==> Contribution(e) == 2400.0
    ensures e.unit == Some("min") ==> Contribution(e) == 0.0
  {
  }

  function ListVolume(exs: seq<Exercise>): real
  {
    if exs == [] then 0.0 else ListVolume(exs[..|exs| - 1]) + Contribution(exs[|exs| - 1])
  }

  /** The unrounded volume of a list of workouts. */
  function PeriodVolume(ws: seq<Workout>, exs: seq<Exercise>): real
  {
    if ws == [] then 0.0
    else PeriodVolume(ws[..|ws| - 1], exs) + ListVolume(ExercisesOf(exs, ws[|ws| - 1].id))
  }

  predicate NonNegative(e: Exercise)
  {
    e.sets >= 0 && e.reps >= 0 && (e.weight.Some? ==> e.weight.value >= 0.0)
  }

  lemma {:induction false} ListVolumeNonNegative(exs: seq<Exercise>)
    requires forall e :: e in exs ==> NonNegative(e)
    ensures ListVolume(exs) >= 0.0
  {
    if exs != [] {
      var last := exs[|exs| - 1];
      ListVolumeNonNegative(exs[..|exs| - 1]);
      assert NonNegative(last);
      if CountsTowardVolume(last) {
        assert (last.sets * last.reps) as real >= 0.0;
        assert WeightInLbs(last) >= 0.0;
      }
    }
  }

  /** With no negative counts or weights, a period's volume is not negative. */
  lemma {:induction false} PeriodVolumeNonNegative(ws: seq<Workout>, exs: seq<Exercise>)
    requires forall e :: e in exs ==> NonNegative(e)
    ensures PeriodVolume(ws, exs) >= 0.0
  {
    if ws != [] {
      PeriodVolumeNonNegative(ws[..|ws| - 1], exs);
      var id := ws[|ws| - 1].id;
      ExercisesOfMembers(exs, id);
      ListVolumeNonNegative(ExercisesOf(exs, id));
    }
  }

  /** The inner loop: the volume of one workout's exercises. */
  method WorkoutVolume(group: seq<Exercise>) returns (volume: real)
    ensures volume == ListVolume(group)
  {
    volume := 0.0;
    for j := 0 to |group|
      invariant volume == ListVolume(group[..j])
    {
      assert group[..j + 1][..j] == group[..j];
      var ex := group[j];
      if CountsTowardVolume(ex) {
        volume := volume + (ex.sets * ex.reps) as real * WeightInLbs(ex);
      }
    }
    assert group[..|group|] == group;
  }

  /** The nested loops that add up `sets * reps * weightInLbs`, shared by
      `calculateVolume` and the per-day series. */
  method RawVolume(ws: seq<Workout>, groups: map<string, seq<Exercise>>, ghost exs: seq<Exercise>)
    returns (volume: real)
    requires Grouped(groups, exs)
    ensures volume == PeriodVolume(ws, exs)
  {
    volume := 0.0;
    for i := 0 to |ws|
      invariant volume == PeriodVolume(ws[..i], exs)
    {
      assert ws[..i + 1][..i] == ws[..i];
      var workoutVolume := WorkoutVolume(GroupOf(groups, ws[i].id));
      volume := volume + workoutVolume;
    }
    assert ws[..|ws|] == ws;
  }

  /** `calculateVolume`: the period's volume, rounded. */
  method CalculateVolume(ws: seq<Workout>, groups: map<string, seq<Exercise>>, ghost exs: seq<Exercise>)
    returns (volume: int)
    requires Grouped(groups, exs)
    ensures volume == Round(PeriodVolume(ws, exs))
  {
    var raw := RawVolume(ws, groups, exs);
    volume := Round(raw);
  }

  // ---------------------------------------------------------------------------
  // Periods, scores and trend

  /** `new Date(w.date) >= oneWeekAgo`: the last seven days, today included. */
  predicate InThisWeek(today: int, w: Workout)
  {
    w.date >= today - 6
  }

  /** Strictly before one week ago and not before two weeks ago: days 7 to 13 back. */
  predicate InLastWeek(today: int, w: Workout)
  {
    today - 13 <= w.date <= today - 7
  }

  function ThisWeek(ws: seq<Workout>, today: int): seq<Workout>
  {
    Filter(ws, (w: Workout) => InThisWeek(today, w))
  }

  function LastWeek(ws: seq<Workout>, today: int): seq<Workout>
  {
    Filter(ws, (w: Workout) => InLastWeek(today, w))
  }

  /** No workout is in both weeks, so the two counts never exceed the fetched list. */
  lemma {:induction false} WeeksDisjoint(ws: seq<Workout>, today: int)
    ensures forall w :: w in ThisWeek(ws, today) ==> w !in LastWeek(ws, today)
    ensures |ThisWeek(ws, today)| + |LastWeek(ws, today)| <= |ws|
  {
    FilterMembers(ws, (w: Workout) => InThisWeek(today, w));
    FilterMembers(ws, (w: Workout) => InLastWeek(today, w));
    if ws != [] {
      WeeksDisjoint(ws[..|ws| - 1], today);
    }
  }

  /** `Math.max(thisWeekVolume, lastWeekVolume, 1)`. */
  function MaxVolume(a: int, b: int): (r: int)
    ensures r >= 1 && r >= a && r >= b
    ensures r == a || r == b || r == 1
  {
    if a >= b && a >= 1 then a else if b >= 1 then b else 1
  }

  /** `calculateScore`: consistency (12.5 per workout, at most 50) plus the volume
      relative to the larger week (at most 50), rounded. */
  function Score(count: nat, volume: int, maxVolume: int): int
  {
    Round(Min(count as real * 12.5, 50.0) + (if maxVolume > 0 then volume as real / maxVolume as real * 50.0 else 0.0))
  }

  /** The score lies between 0 and 100 whenever the volume lies between 0 and the maximum. */
  lemma ScoreBounds(count: nat, volume: int, maxVolume: int)
    requires 0 <= volume <= maxVolume
    ensures 0 <= Score(count, volume, maxVolume) <= 100
  {
    if maxVolume > 0 {
      var ratio := volume as real / maxVolume as real;
      assert ratio * maxVolume as real == volume as real;
      assert 0.0 <= ratio <= 1.0;
    }
  }

  /** More workouts never lower the score. */
  lemma ScoreMonotoneInCount(c1: nat, c2: nat, volume: int, maxVolume: int)
    requires c1 <= c2
    ensures Score(c1, volume, maxVolume) <= Score(c2, volume, maxVolume)
  {
    assert c1 as real * 12.5 <= c2 as real * 12.5;
  }

  /** `up` beyond five points above, `down` beyond five below, otherwise `stable`. */
  function TrendOf(current: int, previous: int): (r: Trend)
    ensures r == Up <==> current > previous + 5
    ensures r == Down <==> current < previous - 5
    ensures r == Stable <==> previous - 5 <= current <= previous + 5
  {
    if current > previous + 5 then Up else if current < previous - 5 then Down else Stable
  }

  /** Swapping the two weeks swaps `up` and `down`. */
  lemma TrendAntisymmetric(a: int, b: int)
    ensures TrendOf(a, b) == Up <==> TrendOf(b, a) == Down
  {
  }

  // ---------------------------------------------------------------------------
  // Streak

  function Dates(ws: seq<Workout>): set<int>
  {
    set w | w in ws :: w.date
  }

  /** The date of the first workout once sorted newest first. */
  function LatestDate(ws: seq<Workout>): (d: int)
    requires ws != []
    ensures d in Dates(ws)
    ensures forall w :: w in ws ==> w.date <= d
  {
    if |ws| == 1 then ws[0].date
    else
      var rest := LatestDate(ws[1..]);
      assert forall w :: w in ws[1..] ==> w in ws;
      if ws[0].date >= rest then ws[0].date else rest
  }

  function DatesUpTo(dates: set<int>, d: int): set<int>
  {
    set x | x in dates && x <= d
  }

  lemma DatesUpToShrinks(dates: set<int>, d: int)
    requires d in dates
    ensures |DatesUpTo(dates, d - 1)| < |DatesUpTo(dates, d)|
  {
    var smaller, larger := DatesUpTo(dates, d - 1), DatesUpTo(dates, d);
    assert d in larger && d !in smaller;
    assert larger == smaller + {d};
  }

  /** The number of consecutive days with a workout, walking back from `d`. */
  function RunLength(dates: set<int>, d: int): nat
    decreases |DatesUpTo(dates, d)|
  {
    if d in dates then DatesUpToShrinks(dates, d); 1 + RunLength(dates, d - 1) else 0
  }

  /** The run from `d` is the exact number of days `d`, `d - 1`, ... that have a
      workout before the first day that has none. */
  lemma {:induction false} RunLengthMeaning(dates: set<int>, d: int)
    ensures forall x :: d - RunLength(dates, d) < x <= d ==> x in dates
    ensures d - RunLength(dates, d) !in dates
    decreases |DatesUpTo(dates, d)|
  {
    if d in dates {
      DatesUpToShrinks(dates, d);
      RunLengthMeaning(dates, d - 1);
    }
  }

  predicate Recent(latest: int, today: int)
  {
    latest == today || latest == today - 1
  }

  /** The streak: zero unless the latest workout is today or yesterday, otherwise
      the run of workout days ending at that latest date. */
  function StreakOf(ws: seq<Workout>, today: int): nat
  {
    if ws != [] && Recent(LatestDate(ws), today) then RunLength(Dates(ws), LatestDate(ws)) else 0
  }

  /** A live streak counts at least the latest day, and exactly the consecutive
      workout days walking back from it. */
  lemma StreakMeaning(ws: seq<Workout>, today: int)
    ensures ws == [] || !Recent(LatestDate(ws), today) ==> StreakOf(ws, today) == 0
    ensures ws != [] && Recent(LatestDate(ws), today) ==>
      var latest, s := LatestDate(ws), StreakOf(ws, today);
      && s >= 1
      && (forall x :: latest - s < x <= latest ==> x in Dates(ws))
      && latest - s !in Dates(ws)
  {
    if ws != [] && Recent(LatestDate(ws), today) {
      RunLengthMeaning(Dates(ws), LatestDate(ws));
    }
  }

  /** Workouts today and yesterday but not the day before give a streak of 2; a
      latest workout two or more days back gives 0. */
  lemma StreakExamples(ws: seq<Workout>, today: int)
    requires ws != []
    ensures Dates(ws) == {today, today - 1} ==> StreakOf(ws, today) == 2
    ensures LatestDate(ws) < today - 1 ==> StreakOf(ws, today) == 0
  {
    if Dates(ws) == {today, today - 1} {
      var latest := LatestDate(ws);
      assert latest == today;
      assert RunLength(Dates(ws), today - 2) == 0;
      assert RunLength(Dates(ws), today - 1) == 1;
    }
  }

  /** The streak loop: `checkDate` walks back from the latest date while it is a
      workout day. */
  method Streak(ws: seq<Workout>, today: int) returns (streak: nat)
    ensures streak == StreakOf(ws, today)
  {
    streak := 0;
    if ws != [] {
      var latest := LatestDate(ws);
      if latest == today || latest == today - 1 {
        var dates := Dates(ws);
        var check := latest;
        while check in dates
          invariant check == latest - streak
          invariant streak + RunLength(dates, check) == RunLength(dates, latest)
          decreases |DatesUpTo(dates, check)|
        {
          DatesUpToShrinks(dates, check);
          streak := streak + 1;
          check := check - 1;
        }
      }
    }
  }

  // ---------------------------------------------------------------------------
  // The seven-day series

  function OnDay(ws: seq<Workout>, day: int): seq<Workout>
  {
    Filter(ws, (w: Workout) => w.date == day)
  }

  /** 0 for a day without workouts, else 30 plus a hundredth of the day's volume,
      at most 100, rounded. */
  function DayScore(count: nat, dayVolume: real): int
  {
    if count > 0 then Round(Min(30.0 + dayVolume / 100.0, 100.0)) else 0
  }

  lemma DayScoreBounds(count: nat, dayVolume: real)
    ensures count == 0 ==> DayScore(count, dayVolume) == 0
    ensures count > 0 ==> DayScore(count, dayVolume) <= 100
    ensures count > 0 && dayVolume >= 0.0 ==> 30 <= DayScore(count, dayVolume)
  {
  }

  function DayEntryFor(ws: seq<Workout>, exs: seq<Exercise>, day: int): DayEntry
  {
    var dayWorkouts := OnDay(ws, day);
    DayEntry(day, DayScore(|dayWorkouts|, PeriodVolume(dayWorkouts, exs)), |dayWorkouts|)
  }

  /** The `weeklyData` loop, from six days back to today. */
  method WeeklyData(ws: seq<Workout>, groups: map<string, seq<Exercise>>, ghost exs: seq<Exercise>, today: int)
    returns (data: seq<DayEntry>)
    requires Grouped(groups, exs)
    ensures |data| == 7
    ensures forall k :: 0 <= k < 7 ==> data[k] == DayEntryFor(ws, exs, today - 6 + k)
  {
    data := [];
    for i := 7 downto 0
      invariant |data| == 7 - i
      invariant forall k :: 0 <= k < 7 - i ==> data[k] == DayEntryFor(ws, exs, today - 6 + k)
    {
      var day := today - i;
      var dayWorkouts := OnDay(ws, day);
      var dayVolume := RawVolume(dayWorkouts, groups, exs);
      var score := if |dayWorkouts| > 0 then Min(30.0 + dayVolume / 100.0, 100.0) else 0.0;
      data := data + [DayEntry(day, Round(score), |dayWorkouts|)];
    }
  }

  // ---------------------------------------------------------------------------
  // The report

  function Report(ws: seq<Workout>, exs: seq<Exercise>, today: int): FitnessMetrics
  {
    var thisWeek, lastWeek := ThisWeek(ws, today), LastWeek(ws, today);
    var thisVolume := Round(PeriodVolume(thisWeek, exs));
    var lastVolume := Round(PeriodVolume(lastWeek, exs));
    var maxVolume := MaxVolume(thisVolume, lastVolume);
    var current := Score(|thisWeek|, thisVolume, maxVolume);
    var previous := Score(|lastWeek|, lastVolume, maxVolume);
    FitnessMetrics(current, previous, |thisWeek|, StreakOf(ws, today), thisVolume,
                   TrendOf(current, previous),
                   seq(7, k requires 0 <= k < 7 => DayEntryFor(ws, exs, today - 6 + k)))
  }

  /** `exercises || []`: a failed exercise fetch counts as no exercises. */
  function FetchedOrEmpty(exercises: Option<seq<Exercise>>): seq<Exercise>
  {
    if exercises.Some? then exercises.value else []
  }

  /** GET /api/metrics after authentication and the workout fetch: `null` for an
      empty window, otherwise the report. */
  method ComputeMetrics(fetched: seq<Workout>, exercises: Option<seq<Exercise>>, today: int)
    returns (m: Option<FitnessMetrics>)
    ensures m.None? <==> fetched == []
    ensures m.Some? ==> m.value == Report(fetched, FetchedOrEmpty(exercises), today)
  {
    if |fetched| == 0 {
      return None;
    }
    var exs := FetchedOrEmpty(exercises);
    var groups := GroupByWorkout(exs);
    var thisWeek := ThisWeek(fetched, today);
    var lastWeek := LastWeek(fetched, today);
    var thisVolume := CalculateVolume(thisWeek, groups, exs);
    var lastVolume := CalculateVolume(lastWeek, groups, exs);
    var maxVolume := MaxVolume(thisVolume, lastVolume);
    var current := Score(|thisWeek|, thisVolume, maxVolume);
    var previous := Score(|lastWeek|, lastVolume, maxVolume);
    var streak := Streak(fetched, today);
    var weekly := WeeklyData(fetched, groups, exs, today);
    var trend := Stable;
    if current > previous + 5 {
      trend := Up;
    } else if current < previous - 5 {
      trend := Down;
    }
    m := Some(FitnessMetrics(current, previous, |thisWeek|, streak, thisVolume, trend, weekly));
    assert weekly == Report(fetched, exs, today).weeklyData;
  }

  datatype MetricsResponse = MetricsError(status: int, error: string) | NoData | Metrics(report: FitnessMetrics)

  /** GET /api/metrics. `sessionUser` is `session?.user?.id`; `fetched` is the
      user's workouts of the last fourteen days, or `None` when that query fails;
      `exercises` is their exercises, or `None` when that query fails. */
  method Get(sessionUser: Option<string>, fetched: Option<seq<Workout>>,
             exercises: Option<seq<Exercise>>, today: int) returns (r: MetricsResponse)
    ensures !Truthy(sessionUser) ==> r == MetricsError(401, "Unauthorized")
    ensures Truthy(sessionUser) && fetched.None? ==> r == MetricsError(500, "Failed to fetch metrics")
    ensures Truthy(sessionUser) && fetched.Some? ==>
      && (r == NoData <==> fetched.value == [])
      && (fetched.value != [] ==> r == Metrics(Report(fetched.value, FetchedOrEmpty(exercises), today)))
  {
    if !Truthy(sessionUser) {
      return MetricsError(401, "Unauthorized");
    }
    if fetched.None? {
      return MetricsError(500, "Failed to fetch metrics");
    }
    var m := ComputeMetrics(fetched.value, exercises, today);
    r := if m.None? then NoData else Metrics(m.value);
  }

  // ---------------------------------------------------------------------------
  // Properties of the report

  /** With no negative counts or weights both scores lie in [0, 100], the volume is
      not negative and the weekly count is this week's workouts. */
  lemma ReportScoresInRange(ws: seq<Workout>, exs: seq<Exercise>, today: int)
    requires forall e :: e in exs ==> NonNegative(e)
    ensures var r := Report(ws, exs, today);
      && 0 <= r.currentScore <= 100 && 0 <= r.previousScore <= 100
      && r.totalVolume >= 0
      && r.weeklyWorkouts <= |ws|
  {
    var thisWeek, lastWeek := ThisWeek(ws, today), LastWeek(ws, today);
    PeriodVolumeNonNegative(thisWeek, exs);
    PeriodVolumeNonNegative(lastWeek, exs);
    var thisVolume := Round(PeriodVolume(thisWeek, exs));
    var lastVolume := Round(PeriodVolume(lastWeek, exs));
    var maxVolume := MaxVolume(thisVolume, lastVolume);
    ScoreBounds(|thisWeek|, thisVolume, maxVolume);
    ScoreBounds(|lastWeek|, lastVolume, maxVolume);
  }

  /** No workout in either week gives two zero scores and a stable trend. */
  lemma QuietFortnight(ws: seq<Workout>, exs: seq<Exercise>, today: int)
    requires ThisWeek(ws, today) == [] && LastWeek(ws, today) == []
    ensures var r := Report(ws, exs, today);
      r.currentScore == 0 && r.previousScore == 0 && r.trend == Stable && r.totalVolume == 0
  {
  }

  /** The series has seven days in ascending order ending today; each entry counts
      that day's workouts, scores 0 when there were none, and scores at most 100. */
  lemma WeeklySeriesShape(ws: seq<Workout>, exs: seq<Exercise>, today: int)
    ensures var d := Report(ws, exs, today).weeklyData;
      && |d| == 7 && d[6].date == today
      && (forall k :: 0 <= k < 6 ==> d[k + 1].date == d[k].date + 1)
      && (forall k :: 0 <= k < 7 ==> d[k].workouts == |OnDay(ws, d[k].date)|)
      && (forall k :: 0 <= k < 7 ==> d[k].workouts == 0 ==> d[k].score == 0)
      && (forall k :: 0 <= k < 7 ==> d[k].score <= 100)
  {
    var d := Report(ws, exs, today).weeklyData;
    assert |d| == 7;
    forall k | 0 <= k < 7
      ensures d[k] == DayEntryFor(ws, exs, today - 6 + k)
      ensures d[k].score <= 100 && (d[k].workouts == 0 ==> d[k].score == 0)
    {
      var day := OnDay(ws, today - 6 + k);
      DayScoreBounds(|day|, PeriodVolume(day, exs));
    }
  }
}
