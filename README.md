# AI Calorie Coach — a verified model of the calorie engines and meal planners

This project models, in Dafny, the computational core of the AI Calorie Coach
app:

- the TypeScript calorie engine (`src/utils/calculations.ts`): Mifflin–St Jeor
  BMR, activity multipliers, the daily target with its deficit or surplus,
  macro grams, time to goal, goal validation and the simple random meal-plan
  generator;
- the browser calculator (`calculator.js`): the rounded BMR/TDEE, the goal
  table adjustment with its 1200 kcal floor, the 25/35/30/10 meal
  distribution, BMI and its categories, and profile validation;
- the browser meal planner (`meal-planner.js`) and its helpers (`utils.js`):
  per-slot meal selection aimed at the slot budget, goal suitability, nearest
  calorie candidates, plan totals and summaries, tag balance, food categories,
  recommendations, and the saved-plan list;
- the server's calorie clamp (`server/src/index.ts`): scaling items down so a
  plan does not exceed its target;
- goal progress from weigh-ins (`src/utils/progress.ts`) and the per-day
  weigh-in upsert in browser storage (`src/services/weights.local.ts`).

JavaScript numbers are Dafny `real`s, with Math.floor, Math.ceil, Math.round,
Math.min/max and `toFixed(1)` written out in `Numeric`. Math.random is never
called: each random draw is a parameter `roll` in [0, 1), and Date.now, the
current date and generated ids are parameters as well. Array.prototype.sort
with a numeric comparator is stable (ECMAScript 2019), so it is modelled by
the stable insertion sort `StableSort.Sort`. Where the source sorts an array
it owns, `StableSort.SortInPlace` sorts it in place. localStorage is a map from
key to stored list, in which an entry is either a parsed list or text that
JSON.parse rejects.

Modules, one per core file, plus shared vocabulary:

| module | file | models |
|---|---|---|
| `Numeric` | numeric.dfy | Math helpers, random draws |
| `Common` | common.dfy | Option/Result, meal slots and shares, Array.filter, stored lists |
| `StableSort` | stable_sort.dfy | Array.prototype.sort (function and in-place method) |
| `Calculations` | calculations.dfy | src/utils/calculations.ts |
| `Calculator` | calculator.dfy | calculator.js |
| `MealPlanUtils` | mealplan_utils.dfy | utils.js |
| `MealPlanner` | meal_planner.dfy | meal-planner.js |
| `ServerClamp` | server_clamp.dfy | server/src/index.ts (scaleItem, reduceArrayCalories, clampPlanToTarget, samplePlan) |
| `Progress` | progress.dfy | src/utils/progress.ts |
| `WeightsLocal` | weights_local.dfy | src/services/weights.local.ts |

Two behaviours of the code shape the meal plans:

- Each of the four meal budgets is rounded on its own, so together they can
  miss the daily target by up to 2 kcal either way: a 2090 kcal target is
  distributed as 2091 kcal (`Calculator.DistributionCanExceedTarget`).
- selectMealsForCalories records `availableFoods.indexOf` of the copy that
  selectSingleMeal returns. A fresh copy is never an element of the list, so
  the recorded index is always −1, no dish is ever excluded, and a slot can
  hold the same dish twice (`MealPlanner.DuplicateGuardKeepsAll`,
  `MealPlanner.SameFoodCanBePickedTwice`).

## Model

| member | source | states |
|---|---|---|
| Calculations.ActivityMultiplier | src/utils/calculations.ts:5-11 | every activity multiplier lies between 1.2 (sedentary) and 1.9 (very active) |
| Calculations.MultiplierMonotone | src/utils/calculations.ts:5-11 | a more active level never has a smaller multiplier |
| Calculations.CalculateBMR | src/utils/calculations.ts:15-19 | the Mifflin–St Jeor equation: 10·kg + 6.25·cm − 5·years plus 5 for a man and −161 for a woman, unrounded |
| Calculations.BMRStructure | src/utils/calculations.ts:15-19 | a man's BMR exceeds a woman's by 166 kcal for the same measurements; +1 kg adds 10, +1 cm adds 6.25, +1 year takes 5 |
| Calculations.CalculateTDEE | src/utils/calculations.ts:21-23 | for a non-negative BMR, TDEE lies between 1.2·BMR and 1.9·BMR |
| Calculations.TDEEMonotone | src/utils/calculations.ts:21-23 | TDEE never falls as the activity level rises |
| Calculations.Macros | src/utils/calculations.ts:54-68 | protein, carbs and fat are each Math.round of the target's 30 %, 45 % and 25 % share over 4, 4 and 9 kcal per gram: a whole number of grams in (−0.5, 0.5] of that quotient; the grams convert back to within 8.5 kcal of the target |
| Calculations.CalculateTargetCalories | src/utils/calculations.ts:25-70 | maintain keeps TDEE with no deficit. Lose is −min(daily deficit, 1000) with the target floored at 1.2·BMR. Gain is +min(daily surplus, 1000) with no floor. Without both targetWeight and timeframe, the change is ∓500. The macros are those of the final target |
| Calculations.CalculateWeeklyWeightChange | src/utils/calculations.ts:80-82 | the weekly change converts back to the daily kcal change (×7700/7) and has its sign |
| Calculations.CalculateTimeToGoal | src/utils/calculations.ts:72-78 | 0 without a target weight, for maintain, or with no daily change; otherwise the fewest whole weeks covering the weight difference at the daily rate |
| Calculations.ValidateGoal | src/utils/calculations.ts:111-124 | valid iff there is no message, and always valid when targetWeight or timeframe is missing. Otherwise the checks run in order, each message given exactly when its check is the first to fail: the unsafe-rate message (carrying the rate) iff the weekly rate is above 1 kg; the lose message iff the rate is safe and a lose target is not below the weight; the gain message iff the rate is safe and a gain target is not above the weight |
| Calculations.ValidLoseGoalIsBoundedDeficit | src/utils/calculations.ts:31-35 | a validated weight-loss goal has a deficit between 0 and 1000 kcal, a target at most TDEE, and a weekly loss of at most 1000·7/7700 kg |
| Calculations.ValidGainGoalIsBoundedSurplus | src/utils/calculations.ts:41-45 | a validated weight-gain goal adds a surplus between 0 and 1000 kcal on top of TDEE |
| Calculations.LoseAboveCurrentWeightPlansSurplus | src/utils/calculations.ts:31-34 | "lose" with a target above the current weight yields a positive deficitOrSurplus, and validation rejects it |
| Calculations.NoAbsoluteFloor | src/utils/calculations.ts:35-38 | this engine has no 1200 kcal floor: a small, old, sedentary woman losing weight gets less |
| Calculations.WorkedExample | src/utils/calculations.ts:15-70 | a 25-year-old man of 70 kg and 170 cm, moderately active, going to 65 kg in 12 weeks, gets BMR 1642.5, TDEE 2545.875, a deficit of 5500/12 and macros 157/235/58 |
| Calculations.ThaiFoods | src/utils/calculations.ts:128-150 | every slot's menu is non-empty |
| Calculations.HasName | src/utils/calculations.ts:170 | the name search succeeds iff some chosen item has that name |
| Calculations.AppendFreshName | src/utils/calculations.ts:170-173 | adding an item with a new name keeps the names distinct and adds its calories to the sum |
| Calculations.HasNameAppend | src/utils/calculations.ts:170-171 | a name found among the chosen items is still found after a push |
| Calculations.Drawn | src/utils/calculations.ts:169 | a draw lands on an item of the menu |
| Calculations.PickStep | src/utils/calculations.ts:168-175 | one pass of the loop keeps PickState: menu items with distinct names, at most one per draw, none unless the budget is positive, the first draw's item first, 85 % not reached before the last item |
| Calculations.DrawnNamesStep | src/utils/calculations.ts:168-175 | after one more pass, the names of all draws so far are among the chosen names |
| Calculations.PickStateEnds | src/utils/calculations.ts:168 | when the loop condition fails, a PickState holds the first draw's item first (for a positive budget) and nothing otherwise |
| Calculations.PickLoopEnds | src/utils/calculations.ts:168-175 | the loop run to its end from a PickState leaves at most 10 distinct-named menu items, nothing for a non-positive budget, else the first draw's item first and 85 % not reached before the last item |
| Calculations.PickLoopDrawsAll | src/utils/calculations.ts:168-175 | if the loop ends below 85 % of the budget, the names of all ten draws are among the chosen names |
| Calculations.PickOfIsPicked | src/utils/calculations.ts:163-178 | what pick returns is Picked, for every menu, budget and rolls: 1 to 10 menu items with distinct names; the first menu item alone for a non-positive budget; otherwise the first draw's item first, 85 % of the budget not reached before the last item, and, when 85 % is not reached, every one of the ten drawn names chosen |
| Calculations.Pick | src/utils/calculations.ts:163-178 | the result is PickOf, the loop of pick written as a recursive function followed by the first-item fallback, draw by draw from the same rolls; it is therefore Picked |
| Calculations.GenerateMealPlan | src/utils/calculations.ts:153-189 | each slot equals PickOf, and is Picked, for that slot's menu against targetCalories × its 25/35/30/10 % share with that slot's own draws; the date is the given day; totalCalories is the sum of the four slots |
| Calculator.CalculateBMR | calculator.js:9-26 | fails with an incomplete-profile error iff age, gender, height or weight is missing or 0 |
| Calculator.BMRIsRoundedEngineBMR | calculator.js:9-26 | the browser BMR is the TypeScript BMR rounded to the nearest integer |
| Calculator.CalculateTDEE | calculator.js:29-37 | fails iff the activity level is not in the table; otherwise within 0.5 of BMR × multiplier |
| Calculator.RawWeeklyChange | calculator.js:60-65 | the projected weekly change is non-zero and negative exactly for "lose" |
| Calculator.CalculateTargetCalories | calculator.js:40-85 | the errors come in the order BMR, activity, goal. The target is max(TDEE + adjustment, 1200). A timeframe and weekly change are reported only with a different, truthy target weight and a non-zero adjustment: the fewest whole weeks that cover the distance at the absolute adjustment × 7/7700 kg a week, and that rate as Math.round(rate × 100)/100, the multiple of 0.01 in (−0.005, 0.005] of it, with the goal's sign. Otherwise null and 0 |
| Calculator.WeeksCover | calculator.js:68-77 | the reported timeframe is the fewest whole weeks that cover the weight difference |
| Calculator.TargetNeverBelowFloor | calculator.js:75 | a successful calculation never reports less than 1200 kcal |
| Calculator.CalculateMealDistribution | calculator.js:114-121 | each budget is within 0.5 of its 25/35/30/10 % share and the four add up to within 2 kcal of the target |
| Calculator.DistributionCanExceedTarget | calculator.js:114-121 | a 2090 kcal target is distributed as 2091 kcal |
| Calculator.CalculateBMI | calculator.js:124-128 | undefined iff the height is 0; otherwise Math.round(bmi × 10)/10: the multiple of 0.1 in (−0.05, 0.05] of bmi = weight / (height/100)² |
| Calculator.GetBMICategory | calculator.js:131-136 | underweight iff < 18.5, normal iff [18.5, 25), overweight iff [25, 30), obese iff ≥ 30, with the matching colour |
| Calculator.CategoryMonotone | calculator.js:131-136 | a higher BMI never gets a lower category |
| Calculator.PushIfFails | calculator.js:175-203 | one check pushes its message exactly when it fails, after all earlier checks' messages |
| Calculator.ValidateProfile | calculator.js:172-207 | valid iff no errors. An error is present iff its check fails. Errors come in check order |
| Calculator.ValidProfileCalculates | calculator.js:172-207 | a profile that passes every check can always be calculated |
| MealPlanUtils.CalculateMealCalories | utils.js:29-31 | a list of non-negative items sums to a non-negative total |
| MealPlanUtils.MealCaloriesConcat | utils.js:29-31 | the sum of a concatenation is the sum of the parts |
| MealPlanUtils.CalculateTotalCalories | utils.js:5-12 | the plan total is the sum of the four slot totals and the sum over all items; an absent slot counts as empty |
| MealPlanUtils.CalculateMealCounts | utils.js:15-26 | each slot's count is its length; the total is the number of items and the sum of the four counts |
| MealPlanUtils.ShuffleArray | utils.js:34-41 | the shuffled copy is a permutation of the input |
| MealPlanUtils.FilterFoodsByTags | utils.js:44-50 | no tags (absent or empty) keeps every food; otherwise exactly the foods carrying one of the tags |
| MealPlanUtils.FilterFoodsByTagsKeepsOrder | utils.js:44-50 | filtering by tags distributes over concatenation, so order is kept |
| MealPlanUtils.ClosestFoods | utils.js:53-61 | min(count, n) foods are returned |
| MealPlanUtils.ClosestFoodsAreNearest | utils.js:53-61 | the returned foods are ranked by calorie distance and drawn from the input; no food left out is strictly closer than one returned |
| MealPlanUtils.FindClosestCalorieFoods | utils.js:53-61 | sorts the caller's array in place by distance (stable) and returns its first `count` elements |
| MealPlanUtils.IsFoodSuitableForGoal | utils.js:94-117 | a goal without a rule of its own accepts every food; a protein tag suits every goal; lose accepts exactly the foods tagged vegetable, fiber, protein or light or under 300 kcal; gain exactly those tagged protein or carbohydrate or of 300 kcal or more; muscle exactly those tagged protein or carbohydrate |
| MealPlanUtils.UnknownGoalAcceptsEverything | utils.js:94-117 | a goal other than lose, gain or muscle accepts every food |
| MealPlanUtils.MuscleRuleIsStricterThanGain | utils.js:94-117 | every food that suits muscle suits gain; below 300 kcal the two rules agree |
| MealPlanUtils.ProteinSuitsEveryGoal | utils.js:94-117 | a protein-tagged food suits every goal |
| MealPlanUtils.CalculateCalorieDifference | utils.js:120-123 | 0 for a target of 0; otherwise within 0.5 of the percentage deviation 100·(actual − target)/target |
| MealPlanUtils.GeneratePlanSummary | utils.js:126-143 | reports the total and target; over target iff the difference is above 5, under iff below −5; counts the items, in all and in each slot |
| MealPlanUtils.StatusBands | utils.js:126-143 | for a positive target: over means at least 105.5 %, under means below 94.5 %, on target means in between |
| MealPlanUtils.TagCountConcat | utils.js:146-168 | tag counts add over concatenated item lists |
| MealPlanUtils.TagCountCountsCarriers | utils.js:146-168 | a tag's count is at least the number of items carrying it |
| MealPlanUtils.CheckNutritionalBalance | utils.js:146-168 | each of protein, carbs, vegetables, fiber and vitamins is the number of times its tag occurs over all items of the plan, an absent slot counting as empty |
| MealPlanUtils.OtherIsNoCategory | utils.js:171-181 | the fallback category "อื่นๆ" is none of the five category tags |
| MealPlanUtils.PushIfTagged | utils.js:174-178 | one category check appends its tag exactly when the food carries it |
| MealPlanUtils.PushesFilterCategories | utils.js:174-178 | the five checks together yield the category tags the food carries, in table order |
| MealPlanUtils.CategorizeFood | utils.js:171-181 | ["อื่นๆ"] iff the food carries no category tag; otherwise the category tags it carries, in order |
| MealPlanner.FilterFoodsByGoal | meal-planner.js:115-117 | a food is kept iff it is in the list and suits the goal |
| MealPlanner.UnknownGoalKeepsAllFoods | meal-planner.js:115-117 | an unknown goal keeps the whole list |
| MealPlanner.AvailableFrom | meal-planner.js:86 | a food at position i survives iff i is not a used index |
| MealPlanner.AvailableFoods | meal-planner.js:86 | the available foods are a sub-list of the catalog |
| MealPlanner.DuplicateGuardKeepsAll | meal-planner.js:60 | when the used indexes are at most {−1}, which is all the planner ever records, every food stays available |
| MealPlanner.Candidates | meal-planner.js:86-102 | the candidates are available foods. They are exactly the goal-suitable ones (capped at the target for a supplement) when there are any; otherwise the available foods of at most 1.2 × target. A supplement's candidates never exceed 1.2 × target |
| MealPlanner.CandidatesIgnoreGuard | meal-planner.js:60 | with the guard as recorded ({−1}) the candidates are those of a fresh selection |
| MealPlanner.SelectSingleMeal | meal-planner.js:84-112 | null iff no candidate survives. Otherwise a copy of a catalog food carrying the fresh id, and for a supplement at most 1.2 × target |
| MealPlanner.SelectSingleMealPicksNearest | meal-planner.js:104-111 | the pick copies, with the fresh id, one of the min(3, n) candidates nearest the target in calories |
| MealPlanner.SelectSingleMealPicksCandidate | meal-planner.js:104-111 | the pick copies, with the fresh id, one of the candidates |
| MealPlanner.SelectSingleMealIgnoresGuard | meal-planner.js:60-77 | with any subset of {−1} as the guard, which is all the planner records, the pick is that of a fresh selection |
| MealPlanner.SelectSingleMealPrefers | meal-planner.js:90-102 | when some available food suits the goal (and, for a supplement, is within the target), a food is picked, it suits the goal, and a supplement is within the target |
| MealPlanner.SelectSingleMealSuits | meal-planner.js:84-102 | with nothing excluded, a list holding a goal-suitable food (within the target, for a supplement) gives a goal-suitable pick (within the target, for a supplement) |
| MealPlanner.PickSuits | meal-planner.js:90-102 | a supplement picked from a list holding a goal-suitable food within the target suits the goal and is within the target |
| MealPlanner.Selection | meal-planner.js:43-81 | no picks for an empty list, and never more than three |
| MealPlanner.SelectionStartsWithMain | meal-planner.js:53-64 | a selection from a non-empty list is the main pick followed by the supplement loop that starts from it |
| MealPlanner.SelectionPicks | meal-planner.js:53-78 | the first pick is selectSingleMeal for Math.round(0.75 × budget) with the first draw whenever that finds a food. Each later pick is selectSingleMeal as a supplement for the budget minus everything picked before it, with more than 50 kcal remaining and the next draw. A selection of fewer than three with more than 50 kcal left ended on a supplement pick that found nothing |
| MealPlanner.SelectionPickAt | meal-planner.js:63-78 | the same rule for the pick at one position, and for the pick that ended the loop |
| MealPlanner.SelectionIsWellChosen | meal-planner.js:43-81 | at most three picks, each a copy of a catalog food; every supplement was picked with more than 50 kcal remaining and is at most 1.2 × what remained |
| MealPlanner.MainPickIsNearest | meal-planner.js:53-58 | the main pick copies one of the three candidates nearest Math.round(0.75 × budget), with the first draw's id |
| MealPlanner.SupplementIsNearest | meal-planner.js:63-77 | each supplement copies one of the three candidates nearest what remained before it, with its draw's id |
| MealPlanner.MainPickSuitsGoal | meal-planner.js:53-58 | when the list holds a food that suits the goal, the main pick is made and suits the goal |
| MealPlanner.SupplementSuitsGoal | meal-planner.js:63-77 | when the list holds a goal-suitable food within what remained before a supplement, that supplement suits the goal and is within what remained |
| MealPlanner.LoseGoalStartsWithLightDish | meal-planner.js:53-58 | for "lose", a 600 kcal slot listing an untagged 500 kcal dish and an untagged 200 kcal dish starts with the 200 kcal dish, although the 500 kcal one is nearer the main target of 450 |
| MealPlanner.SelectMealsForCalories | meal-planner.js:43-81 | returns exactly the selection those rules define for the slot's list (empty when the catalog lacks the slot or its list is empty) |
| MealPlanner.SameFoodCanBePickedTwice | meal-planner.js:55-77 | with the guard as written, the main pick and a supplement can be the same dish |
| MealPlanner.SlotsOfAssembledPlan | meal-planner.js:16-25 | an assembled plan has all four slots |
| MealPlanner.GenerateMealPlan | meal-planner.js:10-40 | fails with the one generic error iff the catalog is missing. Otherwise it keeps target, goal and date, attaches the distribution, fills every slot with the selection for that slot's list and distribution budget, and totals all items |
| MealPlanner.RegenerateMealType | meal-planner.js:120-136 | fails without a distribution or with a zero budget for the slot. Otherwise it replaces only that slot, with the selection for its stored budget and the plan's goal, keeps everything else, and recomputes the total |
| MealPlanner.RegenerateKeepsOtherSlots | meal-planner.js:128-135 | regenerating one slot leaves every other slot as it was |
| MealPlanner.GenerateRecommendations | meal-planner.js:156-176 | "eat less" iff the difference is above 10; "eat more" iff below −10; protein advice iff fewer than 2 protein tags; vegetable advice iff fewer than 2; each at most once, in that order |
| MealPlanner.KeepNewest | meal-planner.js:189-194 | the new plan comes first, then the older plans in order, at most ten in all |
| MealPlanner.WithoutPlan | meal-planner.js:219 | a plan survives deletion iff its id differs |
| MealPlanner.WithoutPlanKeepsOrder | meal-planner.js:219 | deletion distributes over concatenation, so survivors keep their order |
| MealPlanner.MealPlanStore.GetSavedPlans | meal-planner.js:205-213 | [] when nothing is stored or the text does not parse; otherwise the stored list |
| MealPlanner.MealPlanStore.SaveMealPlan | meal-planner.js:179-202 | only the user's key changes; it holds the stamped plan first, then the older plans, at most ten |
| MealPlanner.MealPlanStore.DeleteMealPlan | meal-planner.js:216-226 | returns true; only the user's key changes; no plan with that id remains |
| ServerClamp.ScaleItem | server/src/index.ts:63-72 | keeps name and portion; the calories go through ScaleCalories and each macro through ScaleMacro, all with max(0, factor); a non-positive factor zeroes all four |
| ServerClamp.ScaleCalories | server/src/index.ts:67 | Math.round of calories × f: a whole number within 0.5 of it, and 0 when f is 0 |
| ServerClamp.ScaleMacro | server/src/index.ts:68-70 | Number((grams × f).toFixed(1)): the multiple of 0.1 within 0.05 of grams × f, a tie going away from zero; 0 when f is 0 |
| Numeric.RoundTo1 | server/src/index.ts:68-70 | Number(x.toFixed(1)): a multiple of 0.1 in (−0.05, 0.05] of x for x ≥ 0 and in [−0.05, 0.05) for x < 0, hence exactly one value, and non-negative for x ≥ 0 |
| ServerClamp.ReduceArrayCalories | server/src/index.ts:73-83 | the array ends as the last-to-first reduction of its old contents; it returns the leftover cut, at least 0 |
| ServerClamp.VisitFacts | server/src/index.ts:75-80 | one step skips items of at most 0 kcal, never raises an item, never takes a non-negative item below 0, never grows the cut, and zeroes the item when more than 1 kcal of cut remains |
| ServerClamp.VisitExact | server/src/index.ts:76-80 | with whole numbers, the item loses exactly what the cut loses |
| ServerClamp.ReduceFromShape | server/src/index.ts:73-83 | the reduction keeps every name, portion and unvisited item, and never raises an item or takes a non-negative one below 0 |
| ServerClamp.ReduceFromCut | server/src/index.ts:73-83 | the leftover cut lies between 0 and the cut given; when more than 1 kcal is left, every item is at most 0 kcal |
| ServerClamp.ReduceFromExact | server/src/index.ts:73-83 | with whole numbers, the list total drops by exactly the cut used |
| ServerClamp.Clamp | server/src/index.ts:84-98 | the clamped plan keeps every list's length |
| ServerClamp.ClampOnlyLowers | server/src/index.ts:84-98 | clamping keeps names and portions, never raises an item and never takes a non-negative item below 0 |
| ServerClamp.ClampLandsOnTarget | server/src/index.ts:84-98 | with whole, non-negative calories and target, a plan over target ends between the target and 1 kcal above it |
| ServerClamp.ClampPlanToTarget | server/src/index.ts:84-98 | the four arrays are reduced in place, snacks then dinner, lunch and breakfast, to the clamped contents (unchanged when already within target); the returned plan shares them and carries their total |
| ServerClamp.SamplePlanTotalIsConsistent | server/src/index.ts:108-125 | the fallback plan's declared 1090 kcal is the sum of its items |
| Progress.WeeksBetween | src/utils/progress.ts:4-7 | never negative; the number of whole weeks in the elapsed time; 0 for less than a week |
| Progress.ComputeGoalProgress | src/utils/progress.ts:9-50 | null iff the timeframe is missing or ≤ 0. The target is the weight for maintain, otherwise targetWeight or else the weight. totalChange is the distance between target and start. progressKg is the weight moved from start to current in the goal's direction (down, except for gain), or 0 when that is negative. weeksPassed ≥ 0. The percentage is in [0, 100] and is 100 when totalChange is 0. With no logs, start = current = weight |
| Progress.StartAndCurrentComeFromLogs | src/utils/progress.ts:23-28 | with weigh-ins, the start weight is an earliest log's and the current weight a latest log's; weeks are counted from that earliest log |
| Progress.PercentageIsShareCovered | src/utils/progress.ts:30-38 | moving toward the target without passing it, progressKg is the distance moved and the percentage is exactly (distance moved / totalChange) × 100 |
| Progress.OvershootIsFullProgress | src/utils/progress.ts:34-44 | moving past the target in the goal's direction gives 100 %, while progressKg is the whole distance moved |
| Progress.ReachingTargetIsFullProgress | src/utils/progress.ts:30-38 | a latest weigh-in at a target that lies in the goal's direction is 100 % |
| Progress.NoChangeIsNoProgress | src/utils/progress.ts:30-44 | no change from the start, with a distinct target, is 0 kg and 0 % |
| Progress.WrongDirectionIsNoProgress | src/utils/progress.ts:33-44 | moving away from the goal's direction is 0 kg and 0 % |
| WeightsLocal.Key | src/services/weights.local.ts:4 | the key is "weights_" followed by the uid, or by "guest" when the uid is empty |
| WeightsLocal.KeysSeparateUsers | src/services/weights.local.ts:4 | two users share a key iff they are the same user or both the guest ("" or "guest") |
| WeightsLocal.SortDesc | src/services/weights.local.ts:6-8 | the list is reordered newest first |
| WeightsLocal.GetWeightLogs | src/services/weights.local.ts:10-19 | [] when nothing is stored or it does not parse; otherwise the stored weigh-ins, newest first |
| WeightsLocal.DayKey | src/services/weights.local.ts:25-27 | the UTC day number whose 24 hours contain the instant, which is what the date's first ten ISO characters name |
| WeightsLocal.Upsert | src/services/weights.local.ts:25-29 | the stored list is newest first and consists of the other days' weigh-ins plus the new one |
| WeightsLocal.UpsertLeavesOneEntryForTheDay | src/services/weights.local.ts:25-29 | afterwards the log's day has exactly one weigh-in, the new one |
| WeightsLocal.UpsertKeepsOtherDays | src/services/weights.local.ts:26-28 | every weigh-in of another day is kept, as often as it was there |
| WeightsLocal.WeightStore.AddWeighIn | src/services/weights.local.ts:21-32 | only the user's key is written, with the upserted list |
| WeightsLocal.ReadBackAfterAdd | src/services/weights.local.ts:10-32 | reading the list back after an add yields exactly the stored upsert, in its order |
| WeightsLocal.AddLeavesOtherUsers | src/services/weights.local.ts:4-31 | an add leaves what every other user reads unchanged |

## Left out

- IEEE-754 behaviour: NaN, infinities and floating-point rounding are not modelled; numbers are exact reals.
- `Number(x) || 0` coercions in the server clamp: items are taken after schema coercion, so NaN never reaches the sum.
- Randomness, clocks and ids: Math.random, Date.now, `new Date()` and generated ids (`generateMealId`, the saved plan id) are parameters.
- Date strings are represented by their instant in milliseconds; parsing ISO-8601 text, time zones other than UTC and `formatThaiDate` are not modelled.
- Text builders: `getFormulaExplanation`, `generateAIRecommendation`, `generateAdditionalTips`, `getGoalText`, `getActivityText`, `formatCalories`, `formatWeight` and the tips, nutrition notes and AI response attached to a generated plan.
- `regenerateAllMeals` and `analyzeMealPlan` in meal-planner.js only call `generateMealPlan`, `generatePlanSummary`, `checkNutritionalBalance` and `generateRecommendations`, which are modelled.
- The server's zod schemas, Express routes, OpenAI call and `withTimeout` (foreign libraries, network and timers).
- localStorage.setItem failures (quota) and their `catch` branches; stored JSON that parses to something other than a list reads as unparsable.
- A food item without a `tags` field makes utils.js throw; every modelled food has a tag list.
- ServerClamp.ClampPlanToTarget: requires the four arrays to be distinct, so the aliasing of one array between two slots is not modelled.
- MealPlanUtils.FindClosestCalorieFoods: the count is a natural number; a negative count given to `slice` is not modelled.
- Progress.StartAndCurrentComeFromLogs: states that the start and current logs are an earliest and a latest one, not which of several same-instant logs the stable sort picks.
- MealPlanUtils.CalculateMealCalories: every modelled item carries a calorie number, so the `meal.calories || 0` fallback of utils.js:30 for a missing or NaN value is not modelled.
- MealPlanUtils.CalculateTotalCalories: the same `meal.calories || 0` fallback, at utils.js:9, is not modelled, for the same reason.
- Calculations.ValidateGoal: a message is one of three tags (the unsafe one carrying the exact weekly rate); the Thai message text and the rate's `toFixed(1)` formatting are not modelled.
