/**
 * The TypeScript calorie engine (src/utils/calculations.ts): Mifflin–St Jeor
 * BMR without rounding, TDEE from a five-entry multiplier table, the
 * goal-based daily target with its 1000 kcal clamp, ±500 default and
 * 1.2·BMR floor for weight loss, the 30/45/25 macro split, time-to-goal,
 * weekly change, goal validation, and the simple randomised meal plan.
 */
module Calculations {
  import opened Common
  import opened Numeric

  datatype Gender = Male | Female

  datatype ActivityLevel = Sedentary | Light | Moderate | Active | VeryActive

  datatype Goal = Lose | Maintain | Gain

  /** A user profile; targetWeight (kg) and timeframe (weeks) are optional. */
  datatype UserProfile = UserProfile(
    gender: Gender,
    age: real,
    weight: real,
    height: real,
    activityLevel: ActivityLevel,
    goal: Goal,
    targetWeight: Option<real>,
    timeframe: Option<real>)

  datatype MacroBreakdown = MacroBreakdown(protein: int, carbs: int, fat: int)

  datatype CalorieCalculation = CalorieCalculation(
    bmr: real,
    tdee: real,
    targetCalories: real,
    deficitOrSurplus: real,
    macroBreakdown: MacroBreakdown)

  datatype FoodItem = FoodItem(name: string, calories: real, protein: real, carbs: real, fat: real, portion: string)

  datatype MealPlan = MealPlan(
    breakfast: seq<FoodItem>,
    lunch: seq<FoodItem>,
    dinner: seq<FoodItem>,
    snacks: seq<FoodItem>,
    totalCalories: real,
    date: string)

  /** Energy content of one kilogram of body weight, in kcal. */
  const KcalPerKg: real := 7700.0

  /** The largest daily deficit or surplus the engine derives, in kcal. */
  const MaxDailyChange: real := 1000.0

  /** ACTIVITY_MULTIPLIERS */
  function ActivityMultiplier(level: ActivityLevel): (m: real)
    ensures 1.2 <= m <= 1.9
  {
    match level
    case Sedentary => 1.2
    case Light => 1.375
    case Moderate => 1.55
    case Active => 1.725
    case VeryActive => 1.9
  }

  /** Position of a level in the table, from least to most active. */
  function ActivityRank(level: ActivityLevel): nat
  {
    match level
    case Sedentary => 0
    case Light => 1
    case Moderate => 2
    case Active => 3
    case VeryActive => 4
  }

  /** A more active level never has a smaller multiplier. */
  lemma MultiplierMonotone(a: ActivityLevel, b: ActivityLevel)
    requires ActivityRank(a) <= ActivityRank(b)
    ensures ActivityMultiplier(a) <= ActivityMultiplier(b)
  {
  }

  /** calculateBMR: the Mifflin–St Jeor equation, unrounded. */
  function CalculateBMR(p: UserProfile): (bmr: real)
    ensures bmr + 5.0 * p.age - 10.0 * p.weight - 6.25 * p.height == if p.gender == Male then 5.0 else -161.0
  {
    if p.gender == Male then 10.0 * p.weight + 6.25 * p.height - 5.0 * p.age + 5.0
    else 10.0 * p.weight + 6.25 * p.height - 5.0 * p.age - 161.0
  }

  /**
   * For identical measurements a man's BMR exceeds a woman's by 166 kcal, and
   * each kilogram, centimetre and year moves it by 10, 6.25 and -5 kcal.
   */
  lemma BMRStructure(p: UserProfile)
    ensures CalculateBMR(p.(gender := Male)) - CalculateBMR(p.(gender := Female)) == 166.0
    ensures CalculateBMR(p.(weight := p.weight + 1.0)) == CalculateBMR(p) + 10.0
    ensures CalculateBMR(p.(height := p.height + 1.0)) == CalculateBMR(p) + 6.25
    ensures CalculateBMR(p.(age := p.age + 1.0)) == CalculateBMR(p) - 5.0
  {
  }

  /** calculateTDEE: BMR scaled by the activity multiplier, unrounded. */
  function CalculateTDEE(bmr: real, level: ActivityLevel): (tdee: real)
    ensures bmr >= 0.0 ==> 1.2 * bmr <= tdee <= 1.9 * bmr
  {
    bmr * ActivityMultiplier(level)
  }

  /** A non-negative BMR yields a TDEE that grows with the activity level. */
  lemma TDEEMonotone(bmr: real, a: ActivityLevel, b: ActivityLevel)
    requires bmr >= 0.0 && ActivityRank(a) <= ActivityRank(b)
    ensures CalculateTDEE(bmr, a) <= CalculateTDEE(bmr, b)
  {
    MultiplierMonotone(a, b);
  }

  /** Both targetWeight and timeframe are truthy. */
  predicate HasGoalTarget(p: UserProfile)
  {
    Truthy(p.targetWeight) && Truthy(p.timeframe)
  }

  /** A weekly weight change in kg expressed as a daily energy change in kcal. */
  function DailyChange(weightDiff: real, timeframe: real): real
    requires timeframe != 0.0
  {
    weightDiff / timeframe * KcalPerKg / 7.0
  }

  /**
   * The 30/45/25 macro split of a calorie target: each macro's share of the
   * calories over its kcal per gram (4, 4, 9), rounded to whole grams.
   */
  function Macros(targetCalories: real): (m: MacroBreakdown)
    ensures -0.5 < m.protein as real - targetCalories * 0.3 / 4.0 <= 0.5
    ensures -0.5 < m.carbs as real - targetCalories * 0.45 / 4.0 <= 0.5
    ensures -0.5 < m.fat as real - targetCalories * 0.25 / 9.0 <= 0.5
    ensures targetCalories - 8.5 < (4 * m.protein + 4 * m.carbs + 9 * m.fat) as real <= targetCalories + 8.5
  {
    MacroBreakdown(Round(targetCalories * 0.3 / 4.0), Round(targetCalories * 0.45 / 4.0), Round(targetCalories * 0.25 / 9.0))
  }

  /** calculateTargetCalories */
  function CalculateTargetCalories(p: UserProfile, tdee: real): (r: CalorieCalculation)
    ensures r.bmr == CalculateBMR(p) && r.tdee == tdee
    ensures r.macroBreakdown == Macros(r.targetCalories)
    ensures p.goal == Maintain ==> r.targetCalories == tdee && r.deficitOrSurplus == 0.0
    ensures p.goal == Lose ==>
      && r.deficitOrSurplus >= -MaxDailyChange
      && r.targetCalories == Max(tdee + r.deficitOrSurplus, 1.2 * r.bmr)
    ensures p.goal == Gain ==>
      && r.deficitOrSurplus <= MaxDailyChange
      && r.targetCalories == tdee + r.deficitOrSurplus
    ensures p.goal != Maintain && !HasGoalTarget(p) ==>
      r.deficitOrSurplus == if p.goal == Lose then -500.0 else 500.0
    ensures p.goal == Lose && HasGoalTarget(p) ==>
      r.deficitOrSurplus == -Min(DailyChange(p.weight - p.targetWeight.value, p.timeframe.value), MaxDailyChange)
    ensures p.goal == Gain && HasGoalTarget(p) ==>
      r.deficitOrSurplus == Min(DailyChange(p.targetWeight.value - p.weight, p.timeframe.value), MaxDailyChange)
  {
    var bmr := CalculateBMR(p);
    var (targetCalories, deficitOrSurplus) :=
      match p.goal
      case Lose =>
        if HasGoalTarget(p) then
          var dailyDeficit := DailyChange(p.weight - p.targetWeight.value, p.timeframe.value);
          var d := -Min(dailyDeficit, MaxDailyChange);
          (Max(tdee + d, bmr * 1.2), d)
        else
          (Max(tdee - 500.0, bmr * 1.2), -500.0)
      case Gain =>
        if HasGoalTarget(p) then
          var dailySurplus := DailyChange(p.targetWeight.value - p.weight, p.timeframe.value);
          var d := Min(dailySurplus, MaxDailyChange);
          (tdee + d, d)
        else
          (tdee + 500.0, 500.0)
      case Maintain => (tdee, 0.0);
    CalorieCalculation(bmr, tdee, targetCalories, deficitOrSurplus, Macros(targetCalories))
  }

  /** calculateWeeklyWeightChange: kg per week implied by a daily kcal change. */
  function CalculateWeeklyWeightChange(dailyDeficitOrSurplus: real): (weekly: real)
    ensures weekly * KcalPerKg / 7.0 == dailyDeficitOrSurplus
    ensures (weekly < 0.0 <==> dailyDeficitOrSurplus < 0.0) && (weekly > 0.0 <==> dailyDeficitOrSurplus > 0.0)
  {
    dailyDeficitOrSurplus * 7.0 / KcalPerKg
  }

  /** calculateTimeToGoal: whole weeks needed to cover the weight difference. */
  function CalculateTimeToGoal(p: UserProfile, dailyDeficitOrSurplus: real): (weeks: int)
    ensures weeks >= 0
    ensures !Truthy(p.targetWeight) || p.goal == Maintain || dailyDeficitOrSurplus == 0.0 ==> weeks == 0
    ensures Truthy(p.targetWeight) && p.goal != Maintain && dailyDeficitOrSurplus != 0.0 ==>
      var rate := Abs(CalculateWeeklyWeightChange(dailyDeficitOrSurplus));
      var kgDiff := Abs(p.weight - p.targetWeight.value);
      && weeks as real * rate >= kgDiff
      && (weeks - 1) as real * rate < kgDiff
  {
    if !Truthy(p.targetWeight) || p.goal == Maintain then 0
    else
      var kgDiff := Abs(p.weight - p.targetWeight.value);
      var dailyKg := Abs(dailyDeficitOrSurplus) / KcalPerKg;
      if dailyKg == 0.0 then 0
      else
        var weeks := Ceil(kgDiff / (dailyKg * 7.0));
        CeilCovers(kgDiff, dailyKg * 7.0);
        assert Abs(CalculateWeeklyWeightChange(dailyDeficitOrSurplus)) == dailyKg * 7.0;
        weeks
  }

  /** Ceil(d / rate) is the least whole number of steps of size rate covering d. */
  lemma CeilCovers(d: real, rate: real)
    requires d >= 0.0 && rate > 0.0
    ensures Ceil(d / rate) >= 0
    ensures Ceil(d / rate) as real * rate >= d
    ensures (Ceil(d / rate) - 1) as real * rate < d
  {
    var q := d / rate;
    var c := Ceil(q);
    assert q * rate == d;
    assert q <= c as real < q + 1.0;
    assert c as real * rate >= q * rate;
    var e := q - (c - 1) as real;
    assert e > 0.0 && e * rate > 0.0;
    assert (c - 1) as real * rate == q * rate - e * rate;
    assert (c - 1) as real * rate < d;
    assert c == Ceil(d / rate);
  }

  /** Why a goal was judged unsafe or inconsistent. */
  datatype GoalMessage = UnsafeRate(weeklyChange: real) | LoseTargetNotBelow | GainTargetNotAbove

  datatype GoalCheck = GoalCheck(isValid: bool, message: Option<GoalMessage>)

  /** |weight − targetWeight| / timeframe, in kg per week. */
  function WeeklyRate(p: UserProfile): real
    requires HasGoalTarget(p)
  {
    Abs(p.weight - p.targetWeight.value) / p.timeframe.value
  }

  /** validateGoal: the checks run in order, the first failure reported. */
  function ValidateGoal(p: UserProfile): (r: GoalCheck)
    ensures r.isValid <==> r.message.None?
    ensures !HasGoalTarget(p) ==> r.isValid
    ensures HasGoalTarget(p) ==>
      (r.isValid <==>
        && WeeklyRate(p) <= 1.0
        && !(p.goal == Lose && p.targetWeight.value >= p.weight)
        && !(p.goal == Gain && p.targetWeight.value <= p.weight))
    ensures (r.message.Some? && r.message.value.UnsafeRate?) <==> HasGoalTarget(p) && WeeklyRate(p) > 1.0
    ensures HasGoalTarget(p) && WeeklyRate(p) > 1.0 ==> r.message == Some(UnsafeRate(WeeklyRate(p)))
    ensures r.message == Some(LoseTargetNotBelow) <==>
      HasGoalTarget(p) && WeeklyRate(p) <= 1.0 && p.goal == Lose && p.targetWeight.value >= p.weight
    ensures r.message == Some(GainTargetNotAbove) <==>
      HasGoalTarget(p) && WeeklyRate(p) <= 1.0 && p.goal == Gain && p.targetWeight.value <= p.weight
  {
    if !HasGoalTarget(p) then GoalCheck(true, None)
    else
      var weeklyChange := WeeklyRate(p);
      if weeklyChange > 1.0 then GoalCheck(false, Some(UnsafeRate(weeklyChange)))
      else if p.goal == Lose && p.targetWeight.value >= p.weight then GoalCheck(false, Some(LoseTargetNotBelow))
      else if p.goal == Gain && p.targetWeight.value <= p.weight then GoalCheck(false, Some(GainTargetNotAbove))
      else GoalCheck(true, None)
  }

  /**
   * A weight-loss goal that passes validation, with a positive timeframe,
   * yields a genuine deficit of at most 1000 kcal a day, a target no higher
   * than TDEE (for a non-negative BMR and the TDEE the engine computes) and a
   * weekly loss of at most 1000·7/7700 kg.
   */
  lemma ValidLoseGoalIsBoundedDeficit(p: UserProfile)
    requires p.goal == Lose && HasGoalTarget(p) && p.timeframe.value > 0.0
    requires ValidateGoal(p).isValid
    requires CalculateBMR(p) >= 0.0
    ensures var r := CalculateTargetCalories(p, CalculateTDEE(CalculateBMR(p), p.activityLevel));
      && -MaxDailyChange <= r.deficitOrSurplus < 0.0
      && r.targetCalories <= r.tdee
      && -MaxDailyChange * 7.0 / KcalPerKg <= CalculateWeeklyWeightChange(r.deficitOrSurplus) < 0.0
  {
    var bmr := CalculateBMR(p);
    var tdee := CalculateTDEE(bmr, p.activityLevel);
    var r := CalculateTargetCalories(p, tdee);
    var diff := p.weight - p.targetWeight.value;
    assert diff > 0.0;
    assert DailyChange(diff, p.timeframe.value) > 0.0 by {
      assert diff / p.timeframe.value > 0.0;
    }
    assert r.targetCalories <= tdee;
  }

  /**
   * A weight-gain goal that passes validation, with a positive timeframe,
   * yields a genuine surplus of at most 1000 kcal a day on top of TDEE.
   */
  lemma ValidGainGoalIsBoundedSurplus(p: UserProfile, tdee: real)
    requires p.goal == Gain && HasGoalTarget(p) && p.timeframe.value > 0.0
    requires ValidateGoal(p).isValid
    ensures var r := CalculateTargetCalories(p, tdee);
      && 0.0 < r.deficitOrSurplus <= MaxDailyChange
      && tdee < r.targetCalories <= tdee + MaxDailyChange
  {
    var diff := p.targetWeight.value - p.weight;
    assert diff / p.timeframe.value > 0.0;
  }

  /**
   * Without validation upstream, "lose" with a target above the current
   * weight produces a positive deficitOrSurplus: the engine plans a surplus.
   */
  lemma LoseAboveCurrentWeightPlansSurplus(p: UserProfile, tdee: real)
    requires p.goal == Lose && HasGoalTarget(p) && p.timeframe.value > 0.0
    requires p.targetWeight.value > p.weight
    ensures CalculateTargetCalories(p, tdee).deficitOrSurplus > 0.0
    ensures !ValidateGoal(p).isValid
  {
    var diff := p.weight - p.targetWeight.value;
    assert diff / p.timeframe.value < 0.0;
  }

  /** This engine has no absolute 1200 kcal floor: a small, old woman gets far less. */
  lemma NoAbsoluteFloor()
    ensures var p := UserProfile(Female, 100.0, 30.0, 100.0, Sedentary, Lose, None, None);
      CalculateTargetCalories(p, CalculateTDEE(CalculateBMR(p), p.activityLevel)).targetCalories < 1200.0
  {
  }

  /**
   * A worked example: a 25-year-old man, 70 kg, 170 cm, moderately active,
   * aiming for 65 kg in 12 weeks.
   */
  lemma WorkedExample()
    ensures var p := UserProfile(Male, 25.0, 70.0, 170.0, Moderate, Lose, Some(65.0), Some(12.0));
      var r := CalculateTargetCalories(p, CalculateTDEE(CalculateBMR(p), p.activityLevel));
      && r.bmr == 1642.5
      && r.tdee == 2545.875
      && r.deficitOrSurplus == -5500.0 / 12.0
      && r.targetCalories == 2545.875 - 5500.0 / 12.0
      && r.macroBreakdown == MacroBreakdown(157, 235, 58)
  {
  }

  /* -------------------- Simple meal plan generator -------------------- */

  /** THAI_FOODS: the generator's fixed menu per slot. */
  function ThaiFoods(slot: Slot): (list: seq<FoodItem>)
    ensures |list| > 0
  {
    match slot
    case Breakfast => [
      FoodItem("ข้าวต้มหมู", 280.0, 15.0, 35.0, 8.0, "1 ชาม"),
      FoodItem("โจ๊กหมู", 220.0, 12.0, 30.0, 6.0, "1 ชาม"),
      FoodItem("ข้าวผัดไก่ (เล็ก)", 320.0, 18.0, 45.0, 8.0, "1 จาน"),
      FoodItem("ไข่เจียว + ข้าวสวย", 290.0, 14.0, 35.0, 10.0, "1 จาน")]
    case Lunch => [
      FoodItem("กะเพราไก่ + ไข่ดาว", 520.0, 28.0, 55.0, 20.0, "1 จาน"),
      FoodItem("ต้มยำกุ้ง + ข้าวสวย", 360.0, 24.0, 40.0, 10.0, "1 ชุด"),
      FoodItem("ผัดไทยกุ้ง", 400.0, 20.0, 52.0, 12.0, "1 จาน")]
    case Dinner => [
      FoodItem("ยำวุ้นเส้น", 200.0, 10.0, 28.0, 5.0, "1 จาน"),
      FoodItem("ปลาเผา + ผักต้ม", 320.0, 35.0, 12.0, 10.0, "1 จาน"),
      FoodItem("แกงจืดเต้าหู้หมูสับ", 180.0, 15.0, 6.0, 8.0, "1 ถ้วย")]
    case Snacks => [
      FoodItem("กล้วยหอม", 90.0, 1.0, 23.0, 0.0, "1 ลูก"),
      FoodItem("โยเกิร์ตธรรมชาติ", 100.0, 10.0, 12.0, 4.0, "1 ถ้วย"),
      FoodItem("ถั่วลิสง", 160.0, 7.0, 6.0, 14.0, "30 กรัม")]
  }

  /** Sum of the items' calories, as `reduce((s, it) => s + it.calories, 0)`. */
  function SumCalories(items: seq<FoodItem>): real
  {
    if items == [] then 0.0 else SumCalories(items[..|items| - 1]) + items[|items| - 1].calories
  }

  lemma {:induction false} SumCaloriesConcat(a: seq<FoodItem>, b: seq<FoodItem>)
    ensures SumCalories(a + b) == SumCalories(a) + SumCalories(b)
  {
    if b != [] {
      assert (a + b)[..|a + b| - 1] == a + b[..|b| - 1];
      SumCaloriesConcat(a, b[..|b| - 1]);
    } else {
      assert a + b == a;
    }
  }

  /** `chosen.find(x => x.name === name)` finds something. */
  function HasName(items: seq<FoodItem>, name: string): (found: bool)
    ensures found <==> exists k :: 0 <= k < |items| && items[k].name == name
  {
    if items == [] then false else items[0].name == name || HasName(items[1..], name)
  }

  /** No two items share a name. */
  ghost predicate DistinctNames(items: seq<FoodItem>)
  {
    forall i, j :: 0 <= i < j < |items| ==> items[i].name != items[j].name
  }

  /** Appending an item whose name is new keeps the names distinct. */
  lemma AppendFreshName(items: seq<FoodItem>, item: FoodItem)
    requires DistinctNames(items) && !HasName(items, item.name)
    ensures DistinctNames(items + [item])
    ensures (items + [item])[..|items|] == items
    ensures SumCalories(items + [item]) == SumCalories(items) + item.calories
  {
    var r := items + [item];
    assert r[..|items|] == items;
    assert SumCalories(r) == SumCalories(items) + item.calories;
    forall i, j | 0 <= i < j < |r| ensures r[i].name != r[j].name {
      if j == |items| {
        assert r[i] == items[i] && r[j] == item;
      }
    }
  }

  /** Ten values of Math.random(), one per draw. */
  ghost predicate AreRolls(rolls: seq<real>)
  {
    |rolls| >= 10 && forall k :: 0 <= k < |rolls| ==> IsRoll(rolls[k])
  }

  /** A name found among some items is still found after one more is appended. */
  lemma HasNameAppend(items: seq<FoodItem>, item: FoodItem, name: string)
    requires HasName(items, name)
    ensures HasName(items + [item], name)
  {
    var k :| 0 <= k < |items| && items[k].name == name;
    assert (items + [item])[k] == items[k];
  }

  /** The menu item the k-th draw lands on: list[Math.floor(Math.random() * list.length)]. */
  function Drawn(list: seq<FoodItem>, rolls: seq<real>, k: nat): (item: FoodItem)
    requires |list| > 0 && AreRolls(rolls) && k < 10
    ensures item in list
  {
    list[Draw(rolls[k], |list|)]
  }

  /**
   * The loop of pick from draw `i` on, with `chosen` taken so far: while 85%
   * of the budget is not reached and fewer than ten draws were made, draw an
   * item and keep it unless its name was already chosen.
   */
  function PickLoop(list: seq<FoodItem>, kcalTarget: real, rolls: seq<real>, chosen: seq<FoodItem>, i: nat): seq<FoodItem>
    requires |list| > 0 && AreRolls(rolls) && i <= 10
    decreases 10 - i
  {
    if SumCalories(chosen) < kcalTarget * 0.85 && i < 10 then
      var item := Drawn(list, rolls, i);
      PickLoop(list, kcalTarget, rolls, if HasName(chosen, item.name) then chosen else chosen + [item], i + 1)
    else
      chosen
  }

  /** What pick returns for a menu, a budget and ten rolls: the loop's choice, or the first menu item when it chose nothing. */
  function PickOf(list: seq<FoodItem>, kcalTarget: real, rolls: seq<real>): seq<FoodItem>
    requires |list| > 0 && AreRolls(rolls)
  {
    var chosen := PickLoop(list, kcalTarget, rolls, [], 0);
    if |chosen| == 0 then [list[0]] else chosen
  }

  /** The names of the items of the first `i` draws are all among the names of `chosen`. */
  ghost predicate DrawnNamesIn(list: seq<FoodItem>, rolls: seq<real>, chosen: seq<FoodItem>, i: nat)
    requires |list| > 0 && AreRolls(rolls) && i <= 10
  {
    forall k :: 0 <= k < i ==> HasName(chosen, Drawn(list, rolls, k).name)
  }

  /**
   * What pick promises of `chosen`, the items it took from the menu `list`
   * for the budget `kcalTarget`: one to ten menu items with distinct names;
   * the first menu item alone when the budget is not positive; otherwise the
   * first draw's item first, 85% of the budget not yet reached before the last
   * item, and, when 85% is still not reached, every one of the ten draws
   * among the chosen names.
   */
  ghost predicate Picked(list: seq<FoodItem>, kcalTarget: real, rolls: seq<real>, chosen: seq<FoodItem>)
    requires |list| > 0 && AreRolls(rolls)
  {
    && 1 <= |chosen| <= 10
    && (forall x :: x in chosen ==> x in list)
    && DistinctNames(chosen)
    && (kcalTarget <= 0.0 ==> chosen == [list[0]])
    && (kcalTarget > 0.0 ==>
          && chosen[0] == Drawn(list, rolls, 0)
          && SumCalories(chosen[..|chosen| - 1]) < kcalTarget * 0.85
          && (SumCalories(chosen) < kcalTarget * 0.85 ==> DrawnNamesIn(list, rolls, chosen, 10)))
  }

  /**
   * What holds of the items `chosen` in the first `i` draws of pick: menu
   * items with distinct names, at most one per draw; none before the first
   * draw, and no draw at all when the budget is not positive; the first
   * draw's item first; 85% of the budget not reached before the last item.
   */
  ghost predicate PickState(list: seq<FoodItem>, kcalTarget: real, rolls: seq<real>, chosen: seq<FoodItem>, i: nat)
    requires |list| > 0 && AreRolls(rolls) && i <= 10
  {
    && |chosen| <= i
    && (forall x :: x in chosen ==> x in list)
    && DistinctNames(chosen)
    && (i == 0 ==> chosen == [])
    && (kcalTarget <= 0.0 ==> i == 0)
    && (i > 0 ==> chosen != [] && chosen[0] == Drawn(list, rolls, 0))
    && (chosen != [] ==> SumCalories(chosen[..|chosen| - 1]) < kcalTarget * 0.85)
  }

  /** One more draw of pick, made while 85% of the budget is not reached, keeps PickState. */
  lemma PickStep(list: seq<FoodItem>, kcalTarget: real, rolls: seq<real>, chosen: seq<FoodItem>, i: nat, item: FoodItem, next: seq<FoodItem>)
    requires |list| > 0 && AreRolls(rolls) && i < 10
    requires PickState(list, kcalTarget, rolls, chosen, i) && SumCalories(chosen) < kcalTarget * 0.85
    requires item == Drawn(list, rolls, i)
    requires next == if HasName(chosen, item.name) then chosen else chosen + [item]
    ensures PickState(list, kcalTarget, rolls, next, i + 1)
  {
    if !HasName(chosen, item.name) {
      AppendFreshName(chosen, item);
      if i == 0 {
        assert next == [item];
      } else {
        assert next[0] == chosen[0];
      }
    }
  }

  /** One more draw of pick leaves every drawn name among the chosen ones. */
  lemma DrawnNamesStep(list: seq<FoodItem>, rolls: seq<real>, chosen: seq<FoodItem>, i: nat, item: FoodItem, next: seq<FoodItem>)
    requires |list| > 0 && AreRolls(rolls) && i < 10
    requires DrawnNamesIn(list, rolls, chosen, i)
    requires item == Drawn(list, rolls, i)
    requires next == if HasName(chosen, item.name) then chosen else chosen + [item]
    ensures DrawnNamesIn(list, rolls, next, i + 1)
  {
    if !HasName(chosen, item.name) {
      forall k | 0 <= k < i ensures HasName(next, Drawn(list, rolls, k).name) {
        HasNameAppend(chosen, item, Drawn(list, rolls, k).name);
      }
      assert next[|chosen|] == item;
    }
  }

  /**
   * What the loop of pick leaves: at most ten menu items with distinct
   * names; nothing when the budget is not positive; otherwise the first
   * draw's item first and 85% of the budget not reached before the last item.
   */
  ghost predicate PickEnd(list: seq<FoodItem>, kcalTarget: real, rolls: seq<real>, r: seq<FoodItem>)
    requires |list| > 0 && AreRolls(rolls)
  {
    && |r| <= 10 && (forall x :: x in r ==> x in list) && DistinctNames(r)
    && (kcalTarget <= 0.0 ==> r == [])
    && (kcalTarget > 0.0 ==>
          && r != [] && r[0] == Drawn(list, rolls, 0)
          && SumCalories(r[..|r| - 1]) < kcalTarget * 0.85)
  }

  /** A PickState in which the loop of pick stops is a PickEnd. */
  lemma PickStateEnds(list: seq<FoodItem>, kcalTarget: real, rolls: seq<real>, chosen: seq<FoodItem>, i: nat)
    requires |list| > 0 && AreRolls(rolls) && i <= 10
    requires PickState(list, kcalTarget, rolls, chosen, i)
    requires !(SumCalories(chosen) < kcalTarget * 0.85 && i < 10)
    ensures PickEnd(list, kcalTarget, rolls, chosen)
  {
  }

  /** What the loop of pick leaves, started from a PickState, is a PickEnd. */
  lemma {:induction false} PickLoopEnds(list: seq<FoodItem>, kcalTarget: real, rolls: seq<real>, chosen: seq<FoodItem>, i: nat)
    requires |list| > 0 && AreRolls(rolls) && i <= 10
    requires PickState(list, kcalTarget, rolls, chosen, i)
    ensures PickEnd(list, kcalTarget, rolls, PickLoop(list, kcalTarget, rolls, chosen, i))
    decreases 10 - i
  {
    if SumCalories(chosen) < kcalTarget * 0.85 && i < 10 {
      var item := Drawn(list, rolls, i);
      var next := if HasName(chosen, item.name) then chosen else chosen + [item];
      assert PickLoop(list, kcalTarget, rolls, chosen, i) == PickLoop(list, kcalTarget, rolls, next, i + 1);
      PickStep(list, kcalTarget, rolls, chosen, i, item, next);
      PickLoopEnds(list, kcalTarget, rolls, next, i + 1);
    } else {
      PickStateEnds(list, kcalTarget, rolls, chosen, i);
    }
  }

  /** When the loop of pick stops short of 85% of the budget, every one of the ten drawn names was chosen. */
  lemma {:induction false} PickLoopDrawsAll(list: seq<FoodItem>, kcalTarget: real, rolls: seq<real>, chosen: seq<FoodItem>, i: nat)
    requires |list| > 0 && AreRolls(rolls) && i <= 10
    requires DrawnNamesIn(list, rolls, chosen, i)
    ensures var r := PickLoop(list, kcalTarget, rolls, chosen, i);
      SumCalories(r) < kcalTarget * 0.85 ==> DrawnNamesIn(list, rolls, r, 10)
    decreases 10 - i
  {
    if SumCalories(chosen) < kcalTarget * 0.85 && i < 10 {
      var item := Drawn(list, rolls, i);
      var next := if HasName(chosen, item.name) then chosen else chosen + [item];
      DrawnNamesStep(list, rolls, chosen, i, item, next);
      PickLoopDrawsAll(list, kcalTarget, rolls, next, i + 1);
    }
  }

  /** Whatever the menu, budget and rolls, what pick returns is Picked. */
  lemma PickOfIsPicked(list: seq<FoodItem>, kcalTarget: real, rolls: seq<real>)
    requires |list| > 0 && AreRolls(rolls)
    ensures Picked(list, kcalTarget, rolls, PickOf(list, kcalTarget, rolls))
  {
    PickLoopEnds(list, kcalTarget, rolls, [], 0);
    PickLoopDrawsAll(list, kcalTarget, rolls, [], 0);
  }

  /**
   * pick: draw up to ten items at random from the slot's menu `list`
   * (THAI_FOODS[category], looked up by the caller), skipping a name already
   * chosen, until 85% of the slot's budget is reached; fall back to the first
   * menu item when nothing was chosen.
   */
  method Pick(list: seq<FoodItem>, kcalTarget: real, rolls: seq<real>) returns (chosen: seq<FoodItem>)
    requires |list| > 0 && AreRolls(rolls)
    ensures chosen == PickOf(list, kcalTarget, rolls)
    ensures Picked(list, kcalTarget, rolls, chosen)
  {
    chosen := [];
    var kcal, i := 0.0, 0;
    while kcal < kcalTarget * 0.85 && i < 10
      invariant 0 <= i <= 10
      invariant kcal == SumCalories(chosen)
      invariant PickLoop(list, kcalTarget, rolls, chosen, i) == PickLoop(list, kcalTarget, rolls, [], 0)
      decreases 10 - i
    {
      var item := list[Draw(rolls[i], |list|)];
      if !HasName(chosen, item.name) {
        chosen := chosen + [item];
        kcal := kcal + item.calories;
      }
      i := i + 1;
    }
    if |chosen| == 0 {
      chosen := [list[0]];
    }
    PickOfIsPicked(list, kcalTarget, rolls);
  }

  /** Per-slot draws for generateMealPlan. */
  datatype SlotRolls = SlotRolls(breakfast: seq<real>, lunch: seq<real>, dinner: seq<real>, snacks: seq<real>)

  /**
   * generateMealPlan: pick each slot against its 25/35/30/10 percent share of
   * the target, with that slot's draws (the goal argument is unused by the
   * source), and total the chosen items.
   */
  method GenerateMealPlan(targetCalories: real, goal: Goal, day: string, rolls: SlotRolls) returns (plan: MealPlan)
    requires AreRolls(rolls.breakfast) && AreRolls(rolls.lunch) && AreRolls(rolls.dinner) && AreRolls(rolls.snacks)
    ensures plan.date == day
    ensures plan.totalCalories == SumCalories(plan.breakfast) + SumCalories(plan.lunch) + SumCalories(plan.dinner) + SumCalories(plan.snacks)
    ensures plan.breakfast == PickOf(ThaiFoods(Breakfast), targetCalories * Share(Breakfast), rolls.breakfast)
    ensures plan.lunch == PickOf(ThaiFoods(Lunch), targetCalories * Share(Lunch), rolls.lunch)
    ensures plan.dinner == PickOf(ThaiFoods(Dinner), targetCalories * Share(Dinner), rolls.dinner)
    ensures plan.snacks == PickOf(ThaiFoods(Snacks), targetCalories * Share(Snacks), rolls.snacks)
    ensures Picked(ThaiFoods(Breakfast), targetCalories * Share(Breakfast), rolls.breakfast, plan.breakfast)
    ensures Picked(ThaiFoods(Lunch), targetCalories * Share(Lunch), rolls.lunch, plan.lunch)
    ensures Picked(ThaiFoods(Dinner), targetCalories * Share(Dinner), rolls.dinner, plan.dinner)
    ensures Picked(ThaiFoods(Snacks), targetCalories * Share(Snacks), rolls.snacks, plan.snacks)
  {
    var breakfast := Pick(ThaiFoods(Breakfast), targetCalories * Share(Breakfast), rolls.breakfast);
    var lunch := Pick(ThaiFoods(Lunch), targetCalories * Share(Lunch), rolls.lunch);
    var dinner := Pick(ThaiFoods(Dinner), targetCalories * Share(Dinner), rolls.dinner);
    var snacks := Pick(ThaiFoods(Snacks), targetCalories * Share(Snacks), rolls.snacks);
    var totalCalories := SumCalories(breakfast + lunch + dinner + snacks);
    SumCaloriesConcat(breakfast + lunch + dinner, snacks);
    SumCaloriesConcat(breakfast + lunch, dinner);
    SumCaloriesConcat(breakfast, lunch);
    plan := MealPlan(breakfast, lunch, dinner, snacks, totalCalories, day);
  }
}
