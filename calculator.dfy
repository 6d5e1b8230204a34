/**
 * The browser calorie calculator (calculator.js, class CalorieCalculator):
 * rounded Mifflin–St Jeor BMR, rounded TDEE from an external activity table,
 * a target adjusted by an external goal table with an absolute 1200 kcal
 * floor, the 25/35/30/10 meal distribution, BMI with its categories, and
 * profile validation.
 *
 * The tables window.ACTIVITY_LEVELS and window.GOALS are not part of this
 * model; they are parameters.  A number the form left out is represented by
 * 0 and a string left out by "", which JavaScript's truthiness tests treat
 * exactly like undefined.
 */
module Calculator {
  import opened Common
  import opened Numeric
  import Calculations

  datatype Profile = Profile(
    age: real,
    gender: string,
    height: real,
    weight: real,
    activityLevel: string,
    goal: string,
    targetWeight: real)

  datatype ActivityInfo = ActivityInfo(multiplier: real, labelText: string)

  datatype GoalInfo = GoalInfo(adjustment: real, description: string)

  type ActivityTable = map<string, ActivityInfo>

  type GoalTable = map<string, GoalInfo>

  datatype CalcError = IncompleteProfile | InvalidActivityLevel | InvalidGoal

  /** Some field the BMR needs is missing (falsy). */
  predicate MissingBMRField(p: Profile)
  {
    p.age == 0.0 || p.gender == "" || p.height == 0.0 || p.weight == 0.0
  }

  /** calculateBMR: throws on a missing field, otherwise rounds Mifflin–St Jeor. */
  function CalculateBMR(p: Profile): (r: Result<int, CalcError>)
    ensures r.Failure? <==> MissingBMRField(p)
    ensures r.Failure? ==> r.error == IncompleteProfile
  {
    if MissingBMRField(p) then Failure(IncompleteProfile)
    else if p.gender == "male" then Success(Round(10.0 * p.weight + 6.25 * p.height - 5.0 * p.age + 5.0))
    else Success(Round(10.0 * p.weight + 6.25 * p.height - 5.0 * p.age - 161.0))
  }

  /**
   * The browser BMR is the TypeScript engine's BMR rounded to the nearest
   * integer; any gender string other than "male" gets the female formula.
   */
  lemma BMRIsRoundedEngineBMR(p: Profile, q: Calculations.UserProfile)
    requires !MissingBMRField(p)
    requires p.age == q.age && p.height == q.height && p.weight == q.weight
    requires (p.gender == "male") <==> (q.gender == Calculations.Male)
    ensures CalculateBMR(p) == Success(Round(Calculations.CalculateBMR(q)))
  {
  }

  /** calculateTDEE: throws for a level missing from the table, otherwise rounds. */
  function CalculateTDEE(bmr: int, activityLevel: string, levels: ActivityTable): (r: Result<int, CalcError>)
    ensures r.Failure? <==> activityLevel !in levels
    ensures r.Failure? ==> r.error == InvalidActivityLevel
    ensures r.Success? ==> -0.5 < r.value as real - bmr as real * levels[activityLevel].multiplier <= 0.5
  {
    if activityLevel !in levels then Failure(InvalidActivityLevel)
    else Success(Round(bmr as real * levels[activityLevel].multiplier))
  }

  /** The lowest daily target this calculator ever reports, in kcal. */
  const MinTargetCalories: real := 1200.0

  datatype TargetCalculation = TargetCalculation(
    bmr: int,
    tdee: int,
    targetCalories: real,
    goal: GoalInfo,
    timeframe: Option<int>,
    weeklyWeightChange: real)

  /**
   * Whether a projection to the target weight is made: a target weight is
   * given, differs from the current weight, and the goal adjusts the calories.
   */
  predicate Projects(p: Profile, goal: GoalInfo)
  {
    p.targetWeight != 0.0 && p.targetWeight != p.weight && Abs(goal.adjustment) > 0.0
  }

  /** The unrounded weekly change: |adjustment|·7/7700 kg, negative for "lose". */
  function RawWeeklyChange(p: Profile, goal: GoalInfo): (w: real)
    requires Projects(p, goal)
    ensures w != 0.0 && (p.goal == "lose" <==> w < 0.0)
  {
    var weekly := Abs(goal.adjustment) * 7.0 / 7700.0;
    if p.goal == "lose" then -weekly else weekly
  }

  /** calculateTargetCalories */
  function CalculateTargetCalories(p: Profile, levels: ActivityTable, goals: GoalTable): (r: Result<TargetCalculation, CalcError>)
    ensures MissingBMRField(p) ==> r == Failure(IncompleteProfile)
    ensures !MissingBMRField(p) && p.activityLevel !in levels ==> r == Failure(InvalidActivityLevel)
    ensures !MissingBMRField(p) && p.activityLevel in levels && p.goal !in goals ==> r == Failure(InvalidGoal)
    ensures r.Success? ==>
      && p.goal in goals
      && Success(r.value.bmr) == CalculateBMR(p)
      && Success(r.value.tdee) == CalculateTDEE(r.value.bmr, p.activityLevel, levels)
      && Reports(p, r.value.bmr, r.value.tdee, goals[p.goal], r.value)
  {
    match CalculateBMR(p)
    case Failure(e) => Failure(e)
    case Success(bmr) =>
      match CalculateTDEE(bmr, p.activityLevel, levels)
      case Failure(e) => Failure(e)
      case Success(tdee) =>
        if p.goal !in goals then Failure(InvalidGoal)
        else Success(Target(p, bmr, tdee, goals[p.goal]))
  }

  /**
   * What a successful calculation reports for a profile, its BMR and TDEE and
   * its goal's entry: the target max(TDEE + adjustment, 1200); with a
   * projection, the fewest whole weeks that cover the distance to the target
   * weight and the weekly change to two decimals, signed by the goal; without
   * one, no timeframe and no change.
   */
  ghost predicate Reports(p: Profile, bmr: int, tdee: int, goal: GoalInfo, t: TargetCalculation)
  {
    && t.bmr == bmr && t.tdee == tdee && t.goal == goal
    && t.targetCalories >= MinTargetCalories
    && t.targetCalories == Max(tdee as real + goal.adjustment, MinTargetCalories)
    && (!Projects(p, goal) ==> t.timeframe.None? && t.weeklyWeightChange == 0.0)
    && (Projects(p, goal) ==>
      var weekly := RawWeeklyChange(p, goal);
      var diff := Abs(p.targetWeight - p.weight);
      && t.timeframe.Some? && FewestWeeks(t.timeframe.value, Abs(weekly), diff)
      && IsWhole(t.weeklyWeightChange * 100.0)
      && -0.005 < t.weeklyWeightChange - weekly <= 0.005
      && (p.goal == "lose" ==> t.weeklyWeightChange <= 0.0)
      && (p.goal != "lose" ==> t.weeklyWeightChange >= 0.0))
  }

  /** The successful result for a profile, its BMR and TDEE, and its goal's entry. */
  function Target(p: Profile, bmr: int, tdee: int, goal: GoalInfo): (t: TargetCalculation)
    ensures Reports(p, bmr, tdee, goal, t)
  {
    var targetCalories := Max(tdee as real + goal.adjustment, MinTargetCalories);
    if Projects(p, goal) then
      var weekly := RawWeeklyChange(p, goal);
      TargetCalculation(bmr, tdee, targetCalories, goal, Some(WeeksToTarget(p, goal)), RoundedWeeklyChange(weekly))
    else
      TargetCalculation(bmr, tdee, targetCalories, goal, None, 0.0)
  }

  /** weeks is the fewest whole weeks in which rate kg a week covers distance kg. */
  ghost predicate FewestWeeks(weeks: int, rate: real, distance: real)
  {
    weeks as real * rate >= distance && (weeks - 1) as real * rate < distance
  }

  /** Math.ceil(|(target - weight) / weekly|): the fewest whole weeks that reach the target. */
  function WeeksToTarget(p: Profile, goal: GoalInfo): (weeks: int)
    requires Projects(p, goal)
    ensures var weekly := RawWeeklyChange(p, goal);
      var diff := Abs(p.targetWeight - p.weight);
      FewestWeeks(weeks, Abs(weekly), diff)
  {
    var weekly := RawWeeklyChange(p, goal);
    WeeksCover(p.targetWeight - p.weight, weekly);
    Ceil(Abs((p.targetWeight - p.weight) / weekly))
  }

  /**
   * Math.round(weekly * 100) / 100: the multiple of 0.01 nearest the weekly
   * change, a tie going up; it keeps the change's sign.
   */
  function RoundedWeeklyChange(weekly: real): (r: real)
    ensures IsWhole(r * 100.0)
    ensures -0.005 < r - weekly <= 0.005
    ensures weekly < 0.0 ==> r <= 0.0
    ensures weekly > 0.0 ==> r >= 0.0
  {
    var k := Round(weekly * 100.0);
    assert (k as real / 100.0) * 100.0 == k as real;
    k as real / 100.0
  }

  /** Ceil(|diff / weekly|) is the fewest whole weeks that cover |diff| at |weekly| a week. */
  lemma WeeksCover(diff: real, weekly: real)
    requires diff != 0.0 && weekly != 0.0
    ensures var weeks := Ceil(Abs(diff / weekly));
      && weeks as real * Abs(weekly) >= Abs(diff)
      && (weeks - 1) as real * Abs(weekly) < Abs(diff)
  {
    AbsDiv(diff, weekly);
    Calculations.CeilCovers(Abs(diff), Abs(weekly));
  }

  /** A valid goal table never drives the reported target below 1200 kcal. */
  lemma TargetNeverBelowFloor(p: Profile, levels: ActivityTable, goals: GoalTable)
    requires CalculateTargetCalories(p, levels, goals).Success?
    ensures CalculateTargetCalories(p, levels, goals).value.targetCalories >= 1200.0
  {
  }

  /** The calorie budget of each meal slot, in whole kcal. */
  datatype Distribution = Distribution(breakfast: int, lunch: int, dinner: int, snacks: int)
  {
    function Budget(slot: Slot): int
    {
      match slot
      case Breakfast => breakfast
      case Lunch => lunch
      case Dinner => dinner
      case Snacks => snacks
    }

    function Total(): int
    {
      breakfast + lunch + dinner + snacks
    }
  }

  /**
   * calculateMealDistribution: each slot's share of the target, rounded; the
   * rounding errors add up to less than 2 kcal either way.
   */
  function CalculateMealDistribution(targetCalories: real): (d: Distribution)
    ensures forall slot :: -0.5 < d.Budget(slot) as real - targetCalories * Share(slot) <= 0.5
    ensures -2.0 < d.Total() as real - targetCalories <= 2.0
  {
    var d := Distribution(
      Round(targetCalories * Share(Breakfast)),
      Round(targetCalories * Share(Lunch)),
      Round(targetCalories * Share(Dinner)),
      Round(targetCalories * Share(Snacks)));
    assert forall slot :: d.Budget(slot) == Round(targetCalories * Share(slot));
    d
  }

  /** The rounded budgets can add up to more than the target. */
  lemma DistributionCanExceedTarget()
    ensures CalculateMealDistribution(2090.0).Total() == 2091
  {
  }

  /** Body-mass index: weight in kg over the square of the height in metres. */
  function BodyMassIndex(height: real, weight: real): real
    requires height != 0.0
  {
    var heightInMeters := height / 100.0;
    weight / (heightInMeters * heightInMeters)
  }

  /**
   * calculateBMI: the body-mass index rounded to one decimal, the multiple of
   * 0.1 nearest it with a tie going up (undefined for height 0).
   */
  function CalculateBMI(height: real, weight: real): (r: Option<real>)
    ensures r.None? <==> height == 0.0
    ensures r.Some? ==> IsWhole(r.value * 10.0)
    ensures r.Some? ==> -0.05 < r.value - BodyMassIndex(height, weight) <= 0.05
  {
    if height == 0.0 then None
    else
      var bmi := BodyMassIndex(height, weight);
      var x := bmi * 10.0;
      var k := Round(x);
      assert k as real / 10.0 - bmi == (k as real - x) / 10.0;
      assert (k as real / 10.0) * 10.0 == k as real;
      Some(k as real / 10.0)
  }

  datatype BMICategory = Underweight | NormalWeight | Overweight | Obese

  datatype BMIColor = Warning | Good | Alert

  /** getBMICategory */
  function GetBMICategory(bmi: real): (r: (BMICategory, BMIColor))
    ensures r.0 == Underweight <==> bmi < 18.5
    ensures r.0 == NormalWeight <==> 18.5 <= bmi < 25.0
    ensures r.0 == Overweight <==> 25.0 <= bmi < 30.0
    ensures r.0 == Obese <==> bmi >= 30.0
    ensures r.1 == (match r.0 case NormalWeight => Good case Obese => Alert case _ => Warning)
  {
    if bmi < 18.5 then (Underweight, Warning)
    else if bmi < 25.0 then (NormalWeight, Good)
    else if bmi < 30.0 then (Overweight, Warning)
    else (Obese, Alert)
  }

  function CategoryRank(c: BMICategory): nat
  {
    match c
    case Underweight => 0
    case NormalWeight => 1
    case Overweight => 2
    case Obese => 3
  }

  /** A higher BMI never falls in a lower category. */
  lemma CategoryMonotone(a: real, b: real)
    requires a <= b
    ensures CategoryRank(GetBMICategory(a).0) <= CategoryRank(GetBMICategory(b).0)
  {
  }

  /** One message per failed check of validateProfile, in the order the checks run. */
  datatype ProfileError =
    | AgeOutOfRange
    | GenderMissing
    | HeightOutOfRange
    | WeightOutOfRange
    | ActivityLevelMissing
    | GoalMissing
    | TargetWeightOutOfRange

  function ErrorRank(e: ProfileError): nat
  {
    match e
    case AgeOutOfRange => 0
    case GenderMissing => 1
    case HeightOutOfRange => 2
    case WeightOutOfRange => 3
    case ActivityLevelMissing => 4
    case GoalMissing => 5
    case TargetWeightOutOfRange => 6
  }

  /** The condition under which validateProfile pushes error e. */
  predicate Fails(p: Profile, levels: ActivityTable, goals: GoalTable, e: ProfileError)
  {
    match e
    case AgeOutOfRange => p.age == 0.0 || p.age < 15.0 || p.age > 100.0
    case GenderMissing => p.gender == "" || p.gender !in ["male", "female"]
    case HeightOutOfRange => p.height == 0.0 || p.height < 100.0 || p.height > 250.0
    case WeightOutOfRange => p.weight == 0.0 || p.weight < 30.0 || p.weight > 300.0
    case ActivityLevelMissing => p.activityLevel == "" || p.activityLevel !in levels
    case GoalMissing => p.goal == "" || p.goal !in goals
    // `targetWeight && targetWeight < 30 || targetWeight > 300`: && binds tighter
    case TargetWeightOutOfRange => (p.targetWeight != 0.0 && p.targetWeight < 30.0) || p.targetWeight > 300.0
  }

  /** The errors validateProfile has pushed once the checks ranked below n have run. */
  ghost predicate PushedBefore(errors: seq<ProfileError>, p: Profile, levels: ActivityTable, goals: GoalTable, n: nat)
  {
    && (forall e :: e in errors <==> ErrorRank(e) < n && Fails(p, levels, goals, e))
    && (forall i, j :: 0 <= i < j < |errors| ==> ErrorRank(errors[i]) < ErrorRank(errors[j]))
  }

  /** One check of validateProfile: push e when it fails. */
  method PushIfFails(errors: seq<ProfileError>, p: Profile, levels: ActivityTable, goals: GoalTable, e: ProfileError)
    returns (next: seq<ProfileError>)
    requires PushedBefore(errors, p, levels, goals, ErrorRank(e))
    ensures PushedBefore(next, p, levels, goals, ErrorRank(e) + 1)
  {
    next := if Fails(p, levels, goals, e) then errors + [e] else errors;
  }

  /**
   * validateProfile: runs the seven checks in order, pushing one error for
   * each that fails; the profile is valid exactly when nothing was pushed.
   */
  method ValidateProfile(p: Profile, levels: ActivityTable, goals: GoalTable) returns (isValid: bool, errors: seq<ProfileError>)
    ensures isValid <==> errors == []
    ensures forall e :: e in errors <==> Fails(p, levels, goals, e)
    ensures forall i, j :: 0 <= i < j < |errors| ==> ErrorRank(errors[i]) < ErrorRank(errors[j])
  {
    errors := [];
    errors := PushIfFails(errors, p, levels, goals, AgeOutOfRange);
    errors := PushIfFails(errors, p, levels, goals, GenderMissing);
    errors := PushIfFails(errors, p, levels, goals, HeightOutOfRange);
    errors := PushIfFails(errors, p, levels, goals, WeightOutOfRange);
    errors := PushIfFails(errors, p, levels, goals, ActivityLevelMissing);
    errors := PushIfFails(errors, p, levels, goals, GoalMissing);
    errors := PushIfFails(errors, p, levels, goals, TargetWeightOutOfRange);
    isValid := |errors| == 0;
  }

  /** A profile that passes validation can always be calculated. */
  lemma ValidProfileCalculates(p: Profile, levels: ActivityTable, goals: GoalTable)
    requires forall e :: !Fails(p, levels, goals, e)
    ensures CalculateTargetCalories(p, levels, goals).Success?
  {
    assert !Fails(p, levels, goals, AgeOutOfRange) && !Fails(p, levels, goals, GenderMissing);
    assert !Fails(p, levels, goals, HeightOutOfRange) && !Fails(p, levels, goals, WeightOutOfRange);
    assert !Fails(p, levels, goals, ActivityLevelMissing) && !Fails(p, levels, goals, GoalMissing);
  }
}
