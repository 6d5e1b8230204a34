/**
 * Progress toward a target weight (src/utils/progress.ts), computed from the
 * profile and the weigh-in history.
 *
 * A weigh-in's date is represented by its instant in milliseconds, the value
 * `new Date(date).getTime()` gives; "today" is a parameter.  Ordering ISO-8601
 * date strings of one format with localeCompare orders them by that instant.
 */
module Progress {
  import opened Common
  import opened Numeric
  import StableSort
  import Calculations

  /** One weigh-in: when, and the weight in kilograms. */
  datatype WeightLog = WeightLog(time: int, weight: real)

  /** The fields of a profile progress reads; timeframe is in weeks. */
  datatype ProfileCore = ProfileCore(weight: real, targetWeight: Option<real>, timeframe: Option<real>, goal: Calculations.Goal)

  datatype GoalProgress = GoalProgress(
    weeksPassed: int,
    timeframe: real,
    totalChange: real,
    progressKg: real,
    progressPercentage: real,
    currentWeight: real,
    startWeight: real,
    targetWeight: real)

  const MsPerWeek: int := 7 * 24 * 60 * 60 * 1000

  /** weeksBetween: the whole weeks from one instant to a later one, 0 when the second is earlier. */
  function WeeksBetween(from: int, to: int): (r: int)
    ensures r >= 0
    ensures to - from >= 0 ==> r * MsPerWeek <= to - from < (r + 1) * MsPerWeek
    ensures to - from < MsPerWeek ==> r == 0
  {
    var w := Floor((to - from) as real / MsPerWeek as real);
    if w < 0 then 0 else w
  }

  /** The sort key of a log: its date. */
  function LogTime(log: WeightLog): real
  {
    log.time as real
  }

  /** `[...logs].sort` by date: the logs oldest first, ties in their given order. */
  function ByDate(logs: seq<WeightLog>): seq<WeightLog>
  {
    StableSort.Sort(logs, LogTime)
  }

  /** The `timeframe ?? 0` of a profile. */
  function Timeframe(profile: ProfileCore): real
  {
    if profile.timeframe.Some? then profile.timeframe.value else 0.0
  }

  /** The weight in the goal's direction that separates two weights. */
  function Gained(goal: Calculations.Goal, from: real, to: real): real
  {
    if goal.Gain? then to - from else from - to
  }

  /**
   * computeGoalProgress: nothing without a positive timeframe; otherwise
   * progress from the earliest weigh-in (or the profile weight) to the latest
   * one, measured in the goal's direction against the distance to the target.
   */
  function ComputeGoalProgress(profile: ProfileCore, logs: seq<WeightLog>, today: int): (r: Option<GoalProgress>)
    ensures r.None? <==> profile.timeframe.None? || profile.timeframe.value <= 0.0
    ensures r.Some? ==> r.value.timeframe == profile.timeframe.value > 0.0
    ensures r.Some? && profile.goal.Maintain? ==> r.value.targetWeight == profile.weight
    ensures r.Some? && !profile.goal.Maintain? && profile.targetWeight.Some? ==>
              r.value.targetWeight == profile.targetWeight.value
    ensures r.Some? && profile.targetWeight.None? ==> r.value.targetWeight == profile.weight
    ensures r.Some? ==> r.value.totalChange == Abs(r.value.targetWeight - r.value.startWeight)
    ensures r.Some? ==> r.value.weeksPassed >= 0
    ensures r.Some? ==> r.value.progressKg == Max(0.0, Gained(profile.goal, r.value.startWeight, r.value.currentWeight))
    ensures r.Some? ==> 0.0 <= r.value.progressPercentage <= 100.0
    ensures r.Some? && r.value.totalChange == 0.0 ==> r.value.progressPercentage == 100.0
    ensures r.Some? && logs == [] ==>
              r.value.startWeight == r.value.currentWeight == profile.weight && r.value.weeksPassed == 0
  {
    var timeframe := Timeframe(profile);
    var targetWeight :=
      if profile.goal.Maintain? then profile.weight
      else if profile.targetWeight.Some? then profile.targetWeight.value
      else profile.weight;
    if timeframe <= 0.0 then None
    else
      var sorted := ByDate(logs);
      var startWeight := if |sorted| > 0 then sorted[0].weight else profile.weight;
      var startDate := if |sorted| > 0 then sorted[0].time else today;
      var currentWeight := if |sorted| > 0 then sorted[|sorted| - 1].weight else startWeight;
      var totalChange := Abs(targetWeight - startWeight);
      var delta := startWeight - currentWeight;
      var progressKg := if profile.goal.Gain? then -delta else delta;
      var progressPercentage :=
        if totalChange == 0.0 then 100.0 else Min(100.0, Max(0.0, (progressKg / totalChange) * 100.0));
      Some(GoalProgress(
        WeeksBetween(startDate, today),
        timeframe,
        totalChange,
        Max(0.0, progressKg),
        progressPercentage,
        currentWeight,
        startWeight,
        targetWeight))
  }

  /** Position i holds a log no later than every log. */
  ghost predicate IsEarliest(logs: seq<WeightLog>, i: int)
  {
    0 <= i < |logs| && forall j :: 0 <= j < |logs| ==> logs[i].time <= logs[j].time
  }

  /** Position i holds a log no earlier than every log. */
  ghost predicate IsLatest(logs: seq<WeightLog>, i: int)
  {
    0 <= i < |logs| && forall j :: 0 <= j < |logs| ==> logs[j].time <= logs[i].time
  }

  /**
   * With weigh-ins present, the start weight is that of an earliest weigh-in,
   * the current weight that of a latest one, and weeks are counted from the
   * earliest weigh-in.
   */
  lemma StartAndCurrentComeFromLogs(profile: ProfileCore, logs: seq<WeightLog>, today: int)
    requires logs != [] && Timeframe(profile) > 0.0
    ensures var p := ComputeGoalProgress(profile, logs, today).value;
      && (exists i :: IsEarliest(logs, i) && p.startWeight == logs[i].weight
                      && p.weeksPassed == WeeksBetween(logs[i].time, today))
      && (exists i :: IsLatest(logs, i) && p.currentWeight == logs[i].weight)
  {
    var sorted := ByDate(logs);
    StableSort.SortSorted(logs, LogTime);
    StableSort.SortPermutes(logs, LogTime);
    var first, last := sorted[0], sorted[|sorted| - 1];
    assert first in multiset(logs) && last in multiset(logs);
    var i :| 0 <= i < |logs| && logs[i] == first;
    var k :| 0 <= k < |logs| && logs[k] == last;
    forall j | 0 <= j < |logs|
      ensures first.time <= logs[j].time <= last.time
    {
      assert logs[j] in multiset(sorted);
      var m :| 0 <= m < |sorted| && sorted[m] == logs[j];
      assert LogTime(sorted[0]) <= LogTime(sorted[m]) <= LogTime(sorted[|sorted| - 1]);
    }
    assert IsEarliest(logs, i);
    assert IsLatest(logs, k);
  }

  /**
   * While the weigh-ins move toward the target without passing it, progressKg
   * is the distance moved and the percentage is exactly the share of the
   * total distance covered.
   */
  lemma PercentageIsShareCovered(profile: ProfileCore, logs: seq<WeightLog>, today: int)
    requires Timeframe(profile) > 0.0
    requires var p := ComputeGoalProgress(profile, logs, today).value;
      p.totalChange > 0.0 && 0.0 <= Gained(profile.goal, p.startWeight, p.currentWeight) <= p.totalChange
    ensures var p := ComputeGoalProgress(profile, logs, today).value;
      && p.progressKg == Gained(profile.goal, p.startWeight, p.currentWeight)
      && p.progressPercentage == Gained(profile.goal, p.startWeight, p.currentWeight) / p.totalChange * 100.0
      && p.progressPercentage * p.totalChange == 100.0 * p.progressKg
  {
    var p := ComputeGoalProgress(profile, logs, today).value;
    var kg := Gained(profile.goal, p.startWeight, p.currentWeight);
    assert p.progressKg == kg;
    var share := kg / p.totalChange;
    assert share * p.totalChange == kg;
    ShareBounds(kg, p.totalChange);
    assert p.progressPercentage == share * 100.0;
  }

  /**
   * Passing the target in the goal's direction is full progress: the
   * percentage is capped at 100 while progressKg is the whole distance moved.
   */
  lemma OvershootIsFullProgress(profile: ProfileCore, logs: seq<WeightLog>, today: int)
    requires Timeframe(profile) > 0.0
    requires var p := ComputeGoalProgress(profile, logs, today).value;
      Gained(profile.goal, p.startWeight, p.currentWeight) >= p.totalChange
    ensures var p := ComputeGoalProgress(profile, logs, today).value;
      && p.progressPercentage == 100.0
      && p.progressKg == Gained(profile.goal, p.startWeight, p.currentWeight)
  {
    var p := ComputeGoalProgress(profile, logs, today).value;
    var kg := Gained(profile.goal, p.startWeight, p.currentWeight);
    if p.totalChange != 0.0 {
      ShareOfMore(kg, p.totalChange);
    }
  }

  /** A part of a positive whole is a share between 0 and 1. */
  lemma ShareBounds(part: real, whole: real)
    requires whole > 0.0 && 0.0 <= part <= whole
    ensures 0.0 <= part / whole <= 1.0
  {
  }

  /** A part at least as large as a positive whole is a share of at least 1. */
  lemma ShareOfMore(part: real, whole: real)
    requires whole > 0.0 && part >= whole
    ensures part / whole >= 1.0
  {
    var q := part / whole;
    assert q * whole == part;
  }

  /**
   * A latest weigh-in at the target, with the target on the goal's side of
   * the start, is full progress.
   */
  lemma ReachingTargetIsFullProgress(profile: ProfileCore, logs: seq<WeightLog>, today: int)
    requires Timeframe(profile) > 0.0
    requires var p := ComputeGoalProgress(profile, logs, today).value;
      p.currentWeight == p.targetWeight && Gained(profile.goal, p.startWeight, p.targetWeight) >= 0.0
    ensures ComputeGoalProgress(profile, logs, today).value.progressPercentage == 100.0
  {
    OvershootIsFullProgress(profile, logs, today);
  }

  /** A latest weigh-in equal to the start, short of a distinct target, is no progress. */
  lemma NoChangeIsNoProgress(profile: ProfileCore, logs: seq<WeightLog>, today: int)
    requires Timeframe(profile) > 0.0
    requires var p := ComputeGoalProgress(profile, logs, today).value;
      p.currentWeight == p.startWeight && p.targetWeight != p.startWeight
    ensures ComputeGoalProgress(profile, logs, today).value.progressPercentage == 0.0
    ensures ComputeGoalProgress(profile, logs, today).value.progressKg == 0.0
  {
  }

  /** Moving away from the target counts as no progress at all. */
  lemma WrongDirectionIsNoProgress(profile: ProfileCore, logs: seq<WeightLog>, today: int)
    requires Timeframe(profile) > 0.0
    requires var p := ComputeGoalProgress(profile, logs, today).value;
      Gained(profile.goal, p.startWeight, p.currentWeight) < 0.0 && p.totalChange > 0.0
    ensures ComputeGoalProgress(profile, logs, today).value.progressPercentage == 0.0
    ensures ComputeGoalProgress(profile, logs, today).value.progressKg == 0.0
  {
    var p := ComputeGoalProgress(profile, logs, today).value;
    var kg := Gained(profile.goal, p.startWeight, p.currentWeight);
    assert kg / p.totalChange < 0.0;
  }
}
