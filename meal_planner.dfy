/**
 * The browser meal planner (meal-planner.js): it fills each slot of a plan
 * with up to three copies of catalog foods near the slot's calorie budget,
 * regenerates one slot on request, turns a plan summary into advice, and keeps
 * the user's saved plans.
 *
 * The food catalog (window.THAI_FOODS) is a parameter: a map from slot to
 * list, possibly absent altogether.  Every Math.random() is a roll in [0, 1)
 * and every generated id is a string, both supplied by the caller as one
 * `Chance` per call of selectSingleMeal.
 */
module MealPlanner {
  import opened Common
  import opened Numeric
  import Calculator
  import opened MealPlanUtils

  /** The random inputs of one selectSingleMeal call: the roll that picks and the fresh id. */
  datatype Chance = Chance(roll: real, id: string)

  /** Draws for one selectMealsForCalories call, which makes at most four picks. */
  predicate ValidDraws(draws: seq<Chance>)
  {
    |draws| >= 4 && forall k :: 0 <= k < |draws| ==> IsRoll(draws[k].roll)
  }

  /** The filter callback of filterFoodsByGoal. */
  function SuitableFor(goal: string): FoodItem -> bool
  {
    (food: FoodItem) => IsFoodSuitableForGoal(food, goal)
  }

  /** The filter callback "at most limit kcal". */
  function AtMost(limit: real): FoodItem -> bool
  {
    (food: FoodItem) => food.calories <= limit
  }

  /** filterFoodsByGoal: the foods that suit the goal, in catalog order. */
  function FilterFoodsByGoal(foods: seq<FoodItem>, goal: string): (r: seq<FoodItem>)
    ensures forall f :: f in r <==> f in foods && IsFoodSuitableForGoal(f, goal)
  {
    Filter(foods, SuitableFor(goal))
  }

  /** With a goal that has no rule of its own, filtering by goal keeps the whole list. */
  lemma UnknownGoalKeepsAllFoods(foods: seq<FoodItem>, goal: string)
    requires goal != "lose" && goal != "gain" && goal != "muscle"
    ensures FilterFoodsByGoal(foods, goal) == foods
  {
    FilterKeepsAll(foods, SuitableFor(goal));
  }

  /** The foods whose position, counted from offset, is not in used. */
  function AvailableFrom(foods: seq<FoodItem>, used: set<int>, offset: int): (r: seq<FoodItem>)
    ensures forall f :: f in r ==> f in foods
    ensures (forall i :: offset <= i < offset + |foods| ==> i !in used) ==> r == foods
    decreases |foods|
  {
    if foods == [] then []
    else (if offset in used then [] else [foods[0]]) + AvailableFrom(foods[1..], used, offset + 1)
  }

  /** `foods.filter((food, index) => !usedIndexes.has(index))` */
  function AvailableFoods(foods: seq<FoodItem>, used: set<int>): (r: seq<FoodItem>)
    ensures forall f :: f in r ==> f in foods
  {
    AvailableFrom(foods, used, 0)
  }

  /**
   * What `availableFoods.indexOf(meal)` yields for a picked meal: indexOf
   * compares objects by identity and the meal is a fresh copy, so it is never
   * found.
   */
  const NotFound: int := -1

  /** The only index ever recorded is NotFound, so the index filter keeps every food. */
  lemma DuplicateGuardKeepsAll(foods: seq<FoodItem>, used: set<int>)
    requires used <= {NotFound}
    ensures AvailableFoods(foods, used) == foods
  {
  }

  /** The foods selectSingleMeal prefers: available, suited to the goal and, for a supplement, within the target. */
  predicate Preferred(food: FoodItem, available: seq<FoodItem>, target: real, goal: string, isSupplement: bool)
  {
    food in available && IsFoodSuitableForGoal(food, goal) && (!isSupplement || food.calories <= target)
  }

  /**
   * The candidate list of selectSingleMeal: the preferred foods, or, when there
   * are none, every available food within 1.2 times the target.
   */
  function Candidates(foods: seq<FoodItem>, target: real, goal: string, used: set<int>, isSupplement: bool)
    : (r: seq<FoodItem>)
    ensures forall f :: f in r ==> f in AvailableFoods(foods, used)
    ensures (exists f :: Preferred(f, AvailableFoods(foods, used), target, goal, isSupplement)) ==>
              forall f :: f in r <==> Preferred(f, AvailableFoods(foods, used), target, goal, isSupplement)
    ensures !(exists f :: Preferred(f, AvailableFoods(foods, used), target, goal, isSupplement)) ==>
              forall f :: f in r <==> f in AvailableFoods(foods, used) && f.calories <= target * 1.2
    ensures isSupplement && target >= 0.0 ==> forall f :: f in r ==> f.calories <= target * 1.2
  {
    var available := AvailableFoods(foods, used);
    var suitable := FilterFoodsByGoal(available, goal);
    var preferred := if isSupplement then Filter(suitable, AtMost(target)) else suitable;
    assert forall f :: f in preferred <==> Preferred(f, available, target, goal, isSupplement);
    if |preferred| == 0 then Filter(available, AtMost(target * 1.2))
    else
      assert Preferred(preferred[0], available, target, goal, isSupplement);
      preferred
  }

  /** The recorded indexes never change the candidates. */
  lemma CandidatesIgnoreGuard(foods: seq<FoodItem>, target: real, goal: string, used: set<int>, isSupplement: bool)
    requires used <= {NotFound}
    ensures Candidates(foods, target, goal, used, isSupplement) == Candidates(foods, target, goal, {}, isSupplement)
  {
    DuplicateGuardKeepsAll(foods, used);
    DuplicateGuardKeepsAll(foods, {});
  }

  /** The food is a copy of a catalog food, with its own id. */
  predicate IsCopyOf(food: FoodItem, foods: seq<FoodItem>)
  {
    exists c :: c in foods && food == c.(id := food.id)
  }

  /**
   * selectSingleMeal: nothing when no candidate survives; otherwise a copy,
   * with the fresh id, of one of the (at most three) candidates nearest the
   * target, the roll choosing which.
   */
  function SelectSingleMeal(foods: seq<FoodItem>, target: real, goal: string, used: set<int>,
                            isSupplement: bool, draw: Chance): (r: Option<FoodItem>)
    requires IsRoll(draw.roll)
    ensures r.None? <==> Candidates(foods, target, goal, used, isSupplement) == []
    ensures r.Some? ==> r.value.id == Some(draw.id)
    ensures r.Some? ==> IsCopyOf(r.value, foods)
    ensures r.Some? && isSupplement && target >= 0.0 ==> r.value.calories <= target * 1.2
  {
    var available := AvailableFoods(foods, used);
    if |available| == 0 then
      assert Candidates(foods, target, goal, used, isSupplement) == [];
      None
    else
      var candidates := Candidates(foods, target, goal, used, isSupplement);
      if |candidates| == 0 then None
      else
        var top := ClosestFoods(candidates, target, 3);
        ClosestFoodsAreNearest(candidates, target, 3);
        var chosen := top[Draw(draw.roll, |top|)];
        assert chosen in multiset(candidates);
        assert chosen in AvailableFoods(foods, used);
        Some(chosen.(id := Some(draw.id)))
  }

  /** One slot's list in the catalog, `this.foods[mealType] || []`. */
  function CatalogSlot(catalog: map<Slot, seq<FoodItem>>, slot: Slot): seq<FoodItem>
  {
    if slot in catalog then catalog[slot] else []
  }

  /** The food selectSingleMeal returns is a copy of one of the three candidates nearest the target. */
  lemma SelectSingleMealPicksNearest(foods: seq<FoodItem>, target: real, goal: string, used: set<int>,
                                     isSupplement: bool, draw: Chance)
    requires IsRoll(draw.roll)
    ensures var r := SelectSingleMeal(foods, target, goal, used, isSupplement, draw);
      r.Some? ==> exists c :: c in ClosestFoods(Candidates(foods, target, goal, used, isSupplement), target, 3)
                              && r.value == c.(id := Some(draw.id))
  {
    var candidates := Candidates(foods, target, goal, used, isSupplement);
    if |AvailableFoods(foods, used)| > 0 && |candidates| > 0 {
      var top := ClosestFoods(candidates, target, 3);
      var chosen := top[Draw(draw.roll, |top|)];
      assert SelectSingleMeal(foods, target, goal, used, isSupplement, draw) == Some(chosen.(id := Some(draw.id)));
    }
  }

  /** selectSingleMeal gives the same result whatever subset of {NotFound} the guard holds. */
  lemma SelectSingleMealIgnoresGuard(foods: seq<FoodItem>, target: real, goal: string, used: set<int>,
                                     isSupplement: bool, draw: Chance)
    requires IsRoll(draw.roll) && used <= {NotFound}
    ensures SelectSingleMeal(foods, target, goal, used, isSupplement, draw)
         == SelectSingleMeal(foods, target, goal, {}, isSupplement, draw)
  {
    DuplicateGuardKeepsAll(foods, used);
    DuplicateGuardKeepsAll(foods, {});
  }

  /** The food selectSingleMeal returns is a copy, with the fresh id, of one of the candidates. */
  lemma SelectSingleMealPicksCandidate(foods: seq<FoodItem>, target: real, goal: string, used: set<int>,
                                       isSupplement: bool, draw: Chance)
    requires IsRoll(draw.roll)
    ensures var r := SelectSingleMeal(foods, target, goal, used, isSupplement, draw);
      r.Some? ==> exists c :: c in Candidates(foods, target, goal, used, isSupplement) && r.value == c.(id := Some(draw.id))
  {
    var r := SelectSingleMeal(foods, target, goal, used, isSupplement, draw);
    if r.Some? {
      var candidates := Candidates(foods, target, goal, used, isSupplement);
      SelectSingleMealPicksNearest(foods, target, goal, used, isSupplement, draw);
      var c :| c in ClosestFoods(candidates, target, 3) && r.value == c.(id := Some(draw.id));
      ClosestFoodsAreNearest(candidates, target, 3);
      assert c in multiset(ClosestFoods(candidates, target, 3));
    }
  }

  /**
   * When some available food is preferred, selectSingleMeal returns one of
   * them: a food that suits the goal and, for a supplement, fits the target.
   */
  lemma SelectSingleMealPrefers(foods: seq<FoodItem>, target: real, goal: string, used: set<int>,
                                isSupplement: bool, draw: Chance)
    requires IsRoll(draw.roll)
    requires exists f :: Preferred(f, AvailableFoods(foods, used), target, goal, isSupplement)
    ensures var r := SelectSingleMeal(foods, target, goal, used, isSupplement, draw);
      && r.Some?
      && IsFoodSuitableForGoal(r.value, goal)
      && (isSupplement ==> r.value.calories <= target)
  {
    var candidates := Candidates(foods, target, goal, used, isSupplement);
    var f :| Preferred(f, AvailableFoods(foods, used), target, goal, isSupplement);
    assert f in candidates;
    SelectSingleMealPicksCandidate(foods, target, goal, used, isSupplement, draw);
    var r := SelectSingleMeal(foods, target, goal, used, isSupplement, draw);
    var c :| c in candidates && r.value == c.(id := Some(draw.id));
    assert Preferred(c, AvailableFoods(foods, used), target, goal, isSupplement);
  }

  /**
   * A supplement picked with nothing recorded, from a list holding a food
   * that suits the goal and fits the target, suits the goal and fits the target.
   */
  lemma PickSuits(foods: seq<FoodItem>, target: real, goal: string, draw: Chance, food: FoodItem, f: FoodItem)
    requires IsRoll(draw.roll) && SelectSingleMeal(foods, target, goal, {}, true, draw) == Some(food)
    requires f in foods && IsFoodSuitableForGoal(f, goal) && f.calories <= target
    ensures IsFoodSuitableForGoal(food, goal) && food.calories <= target
  {
    SelectSingleMealSuits(foods, target, goal, true, draw, f);
  }

  /**
   * With nothing recorded, a list holding a food that suits the goal (and,
   * for a supplement, fits the target) gives a pick that does the same.
   */
  lemma SelectSingleMealSuits(foods: seq<FoodItem>, target: real, goal: string, isSupplement: bool,
                              draw: Chance, f: FoodItem)
    requires IsRoll(draw.roll)
    requires f in foods && IsFoodSuitableForGoal(f, goal) && (isSupplement ==> f.calories <= target)
    ensures var r := SelectSingleMeal(foods, target, goal, {}, isSupplement, draw);
      && r.Some?
      && IsFoodSuitableForGoal(r.value, goal)
      && (isSupplement ==> r.value.calories <= target)
  {
    DuplicateGuardKeepsAll(foods, {});
    assert Preferred(f, AvailableFoods(foods, {}), target, goal, isSupplement);
    SelectSingleMealPrefers(foods, target, goal, {}, isSupplement, draw);
  }

  /** The remaining budget after the given picks. */
  function Remaining(target: real, picked: seq<FoodItem>): real
  {
    target - CalculateMealCalories(picked)
  }

  /**
   * What selectMealsForCalories keeps true of its picks: at most three, each a
   * copy of a catalog food, and every supplement (every pick from position
   * supplementsFrom on) made while more than 50 kcal remained, for at most 1.2
   * times what remained.
   */
  ghost predicate WellChosen(foods: seq<FoodItem>, target: real, selected: seq<FoodItem>, supplementsFrom: nat)
  {
    && |selected| <= 3
    && (forall i :: 0 <= i < |selected| ==> IsCopyOf(selected[i], foods))
    && (forall i :: supplementsFrom <= i < |selected| ==>
          Remaining(target, selected[..i]) > 50.0
          && selected[i].calories <= Remaining(target, selected[..i]) * 1.2)
  }

  /** The main pick of selectMealsForCalories: near 75 percent of the budget, rounded, from the whole list. */
  function MainPick(foods: seq<FoodItem>, target: real, goal: string, draw: Chance): Option<FoodItem>
    requires IsRoll(draw.roll)
  {
    SelectSingleMeal(foods, Round(target * 0.75) as real, goal, {}, false, draw)
  }

  /** How many main picks a selection holds: 1 when the catalog list is non-empty and the main pick succeeds. */
  function MainCount(foods: seq<FoodItem>, target: real, goal: string, draws: seq<Chance>): nat
    requires ValidDraws(draws)
  {
    if foods != [] && MainPick(foods, target, goal, draws[0]).Some? then 1 else 0
  }

  /** A supplement picker: the pick for a remaining budget, the recorded indexes and the draw number. */
  type Picker = (real, set<int>, nat) -> Option<FoodItem>

  /** The supplement picks of selectMealsForCalories: selectSingleMeal with isSupplement set, using draw k. */
  function SupplementPicker(foods: seq<FoodItem>, goal: string, draws: seq<Chance>): Picker
    requires ValidDraws(draws)
  {
    (remaining: real, used: set<int>, k: nat) =>
      if k < |draws| then SelectSingleMeal(foods, remaining, goal, used, true, draws[k]) else None
  }

  /** Applying the supplement picker is calling selectSingleMeal for a supplement with draw k. */
  lemma SupplementPickerApplies(foods: seq<FoodItem>, goal: string, draws: seq<Chance>, remaining: real,
                                used: set<int>, k: nat)
    requires ValidDraws(draws) && k < |draws|
    ensures SupplementPicker(foods, goal, draws)(remaining, used, k)
         == SelectSingleMeal(foods, remaining, goal, used, true, draws[k])
  {
  }

  /**
   * The supplement loop of selectMealsForCalories, from the budget remaining,
   * the picks so far, the indexes recorded so far and the next draw k: while
   * more than 50 kcal remain and fewer than three foods are chosen, pick a
   * supplement for what remains, subtract its calories and record NotFound,
   * stopping at the first pick that finds nothing.
   */
  function Supplements(pick: Picker, remaining: real, selected: seq<FoodItem>, used: set<int>, k: nat)
    : (r: seq<FoodItem>)
    requires |selected| <= 3
    ensures |selected| <= |r| <= 3
    decreases 3 - |selected|
  {
    if remaining <= 50.0 || |selected| >= 3 then selected
    else
      var meal := pick(remaining, used, k);
      if meal.None? then selected
      else Supplements(pick, remaining - meal.value.calories, selected + [meal.value], used + {NotFound}, k + 1)
  }

  /** A turn of the supplement loop whose pick finds nothing ends the list. */
  lemma SupplementsStop(pick: Picker, remaining: real, selected: seq<FoodItem>, used: set<int>, k: nat)
    requires |selected| < 3 && remaining > 50.0 && pick(remaining, used, k).None?
    ensures Supplements(pick, remaining, selected, used, k) == selected
  {
  }

  /**
   * A turn of the supplement loop whose pick finds a food adds it, goes on
   * with next, what remains once its calories are spent, and records its index.
   */
  lemma SupplementsStep(pick: Picker, remaining: real, selected: seq<FoodItem>, used: set<int>, k: nat,
                        food: FoodItem, next: real)
    requires |selected| < 3 && remaining > 50.0 && pick(remaining, used, k) == Some(food)
    requires next == remaining - food.calories
    ensures Supplements(pick, remaining, selected, used, k)
         == Supplements(pick, next, selected + [food], used + {NotFound}, k + 1)
  {
  }

  /** The supplement loop adds nothing once 50 kcal or less remain or three foods are chosen. */
  lemma SupplementsDone(pick: Picker, remaining: real, selected: seq<FoodItem>, used: set<int>, k: nat)
    requires |selected| <= 3 && (remaining <= 50.0 || |selected| >= 3)
    ensures Supplements(pick, remaining, selected, used, k) == selected
  {
  }

  /** The budget left after one more pick. */
  lemma RemainingAfter(target: real, picked: seq<FoodItem>, food: FoodItem)
    ensures Remaining(target, picked + [food]) == Remaining(target, picked) - food.calories
  {
    assert (picked + [food])[..|picked|] == picked;
  }

  /** The indexes recorded after the given number of supplement picks, starting from used. */
  function Recorded(used: set<int>, picks: nat): set<int>
  {
    if picks == 0 then used else used + {NotFound}
  }

  /**
   * The picks of s from position i on are what the supplement loop makes from
   * the given budget, indexes and draw number: each made while more than 50
   * kcal remained, with its calories then subtracted, and, if the loop ends
   * with fewer than three picks and more than 50 kcal left, a last pick that
   * found nothing.
   */
  ghost predicate LoopPicks(pick: Picker, remaining: real, s: seq<FoodItem>, i: nat, used: set<int>, k: nat)
    requires i <= |s|
    decreases |s| - i
  {
    if i == |s| then
      |s| < 3 && remaining > 50.0 ==> pick(remaining, used, k).None?
    else
      && remaining > 50.0
      && pick(remaining, used, k) == Some(s[i])
      && LoopPicks(pick, remaining - s[i].calories, s, i + 1, used + {NotFound}, k + 1)
  }

  /** The supplement loop keeps the picks it starts from and makes the rest as LoopPicks says. */
  lemma {:induction false} SupplementsLoop(pick: Picker, remaining: real, selected: seq<FoodItem>, used: set<int>, k: nat)
    requires |selected| <= 3
    ensures var r := Supplements(pick, remaining, selected, used, k);
      r[..|selected|] == selected && LoopPicks(pick, remaining, r, |selected|, used, k)
    decreases 3 - |selected|
  {
    if remaining > 50.0 && |selected| < 3 && pick(remaining, used, k).Some? {
      var meal := pick(remaining, used, k).value;
      var next := selected + [meal];
      SupplementsLoop(pick, remaining - meal.calories, next, used + {NotFound}, k + 1);
      var r := Supplements(pick, remaining - meal.calories, next, used + {NotFound}, k + 1);
      assert r == Supplements(pick, remaining, selected, used, k);
      assert r[..|selected|] == r[..|next|][..|selected|] == selected;
      assert r[|selected|] == r[..|next|][|selected|] == meal;
    } else {
      assert Supplements(pick, remaining, selected, used, k) == selected;
      assert selected[..|selected|] == selected;
    }
  }

  /**
   * What LoopPicks says, pick by pick, once its budget is the target less the
   * picks before position j.
   */
  lemma {:induction false} LoopPicksAt(pick: Picker, target: real, s: seq<FoodItem>, j: nat, used: set<int>, k: nat,
                                       i: nat)
    requires j <= i <= |s|
    requires LoopPicks(pick, Remaining(target, s[..j]), s, j, used, k)
    ensures i < |s| ==>
              && Remaining(target, s[..i]) > 50.0
              && pick(Remaining(target, s[..i]), Recorded(used, i - j), k + i - j) == Some(s[i])
    ensures i == |s| && |s| < 3 && Remaining(target, s) > 50.0 ==>
              pick(Remaining(target, s), Recorded(used, i - j), k + i - j).None?
    decreases i - j
  {
    if j < i {
      assert s[..j + 1] == s[..j] + [s[j]];
      RemainingAfter(target, s[..j], s[j]);
      LoopPicksAt(pick, target, s, j + 1, used + {NotFound}, k + 1, i);
      assert Recorded(used + {NotFound}, i - (j + 1)) == Recorded(used, i - j);
    } else if i == |s| {
      assert s[..i] == s;
    }
  }

  /**
   * The picks of selectMealsForCalories after its main pick: the main pick
   * (when it found something) followed by the supplements for what it left.
   */
  function AfterMain(pick: Picker, main: Option<FoodItem>, target: real): (r: seq<FoodItem>)
    ensures |r| <= 3
  {
    if main.Some? then Supplements(pick, target - main.value.calories, [main.value], {NotFound}, 1)
    else Supplements(pick, target, [], {}, 1)
  }

  /**
   * After the main pick, the supplement loop starts from it, its calories
   * spent and its index recorded; without one, from the whole budget.
   */
  lemma AfterMainStartsLoop(pick: Picker, main: Option<FoodItem>, target: real,
                            remaining: real, selected: seq<FoodItem>, used: set<int>)
    requires main.Some? ==> remaining == target - main.value.calories && selected == [main.value] && used == {NotFound}
    requires main.None? ==> remaining == target && selected == [] && used == {}
    ensures Supplements(pick, remaining, selected, used, 1) == AfterMain(pick, main, target)
  {
  }

  /** The picks after the main pick start with it, and the rest are what LoopPicks says. */
  lemma AfterMainLoop(pick: Picker, main: Option<FoodItem>, target: real)
    ensures var r := AfterMain(pick, main, target);
      var m := if main.Some? then 1 else 0;
      && m <= |r|
      && (main.Some? ==> r[0] == main.value)
      && LoopPicks(pick, Remaining(target, r[..m]), r, m, Recorded({}, m), 1)
  {
    var r := AfterMain(pick, main, target);
    if main.Some? {
      var start := [main.value];
      assert r == Supplements(pick, target - main.value.calories, start, {NotFound}, 1);
      SupplementsLoop(pick, target - main.value.calories, start, {NotFound}, 1);
      assert Recorded({}, 1) == {NotFound};
      RemainingAfter(target, [], main.value);
      assert [] + [main.value] == start == r[..1];
      assert r[0] == r[..1][0];
    } else {
      assert r == Supplements(pick, target, [], {}, 1);
      SupplementsLoop(pick, target, [], {}, 1);
    }
  }

  /**
   * The picks after the main pick, one by one: the main pick first when there
   * is one; then each supplement is what the picker gives for what remained,
   * which was more than 50 kcal, with the indexes recorded by then and the
   * next draw number; and a list of fewer than three with more than 50 kcal
   * left ended on a pick that found nothing.
   */
  lemma AfterMainPicks(pick: Picker, main: Option<FoodItem>, target: real, i: nat)
    ensures var r := AfterMain(pick, main, target);
      main.Some? ==> |r| >= 1 && r[0] == main.value
    ensures var r := AfterMain(pick, main, target);
      var m := if main.Some? then 1 else 0;
      m <= i < |r| ==>
        && Remaining(target, r[..i]) > 50.0
        && pick(Remaining(target, r[..i]), Recorded({}, i), 1 + i - m) == Some(r[i])
    ensures var r := AfterMain(pick, main, target);
      var m := if main.Some? then 1 else 0;
      i == |r| < 3 && Remaining(target, r) > 50.0 ==>
        pick(Remaining(target, r), Recorded({}, i), 1 + i - m).None?
  {
    var r := AfterMain(pick, main, target);
    var m := if main.Some? then 1 else 0;
    AfterMainLoop(pick, main, target);
    if m <= i <= |r| {
      LoopPicksAt(pick, target, r, m, Recorded({}, m), 1, i);
      assert Recorded(Recorded({}, m), i - m) == Recorded({}, i);
      if i == |r| {
        assert r[..i] == r;
      }
    }
  }

  /**
   * The picks of selectMealsForCalories: none for an empty list; otherwise the
   * main pick and the supplements after it.
   */
  function Selection(foods: seq<FoodItem>, target: real, goal: string, draws: seq<Chance>): (r: seq<FoodItem>)
    requires ValidDraws(draws)
    ensures foods == [] ==> r == []
    ensures |r| <= 3
  {
    if foods == [] then []
    else AfterMain(SupplementPicker(foods, goal, draws), MainPick(foods, target, goal, draws[0]), target)
  }

  /** A selection from a non-empty list is the main pick followed by the supplements after it. */
  lemma SelectionStartsWithMain(foods: seq<FoodItem>, target: real, goal: string, draws: seq<Chance>)
    requires ValidDraws(draws) && foods != []
    ensures Selection(foods, target, goal, draws)
         == AfterMain(SupplementPicker(foods, goal, draws), MainPick(foods, target, goal, draws[0]), target)
  {
  }

  /** One pick of a selection, as SelectionPicks states it for all of them. */
  lemma SelectionPickAt(foods: seq<FoodItem>, target: real, goal: string, draws: seq<Chance>, i: nat)
    requires ValidDraws(draws) && foods != []
    ensures var r := Selection(foods, target, goal, draws);
      var m := MainCount(foods, target, goal, draws);
      m <= i < |r| ==>
        && Remaining(target, r[..i]) > 50.0
        && SelectSingleMeal(foods, Remaining(target, r[..i]), goal, {}, true, draws[1 + i - m]) == Some(r[i])
    ensures var r := Selection(foods, target, goal, draws);
      var m := MainCount(foods, target, goal, draws);
      i == |r| < 3 && Remaining(target, r) > 50.0 ==>
        SelectSingleMeal(foods, Remaining(target, r), goal, {}, true, draws[1 + i - m]).None?
  {
    var pick := SupplementPicker(foods, goal, draws);
    var main := MainPick(foods, target, goal, draws[0]);
    var r := Selection(foods, target, goal, draws);
    var m := MainCount(foods, target, goal, draws);
    assert r == AfterMain(pick, main, target);
    AfterMainPicks(pick, main, target, i);
    if m <= i && i <= |r| && i < 3 {
      var rest := if i < |r| then Remaining(target, r[..i]) else Remaining(target, r);
      SupplementPickerApplies(foods, goal, draws, rest, Recorded({}, i), 1 + i - m);
      SelectSingleMealIgnoresGuard(foods, rest, goal, Recorded({}, i), true, draws[1 + i - m]);
    }
  }

  /**
   * The picks of a selection, one by one: the first is the main pick whenever
   * that finds something; every later one is the supplement selectSingleMeal
   * makes for what remained, with more than 50 kcal remaining and the next
   * draw; and a selection of fewer than three with more than 50 kcal left
   * ended on a supplement pick that found nothing.
   */
  lemma SelectionPicks(foods: seq<FoodItem>, target: real, goal: string, draws: seq<Chance>)
    requires ValidDraws(draws)
    ensures var r := Selection(foods, target, goal, draws);
      MainCount(foods, target, goal, draws) == 1 ==> |r| >= 1 && Some(r[0]) == MainPick(foods, target, goal, draws[0])
    ensures var r := Selection(foods, target, goal, draws);
      var m := MainCount(foods, target, goal, draws);
      forall i :: m <= i < |r| ==>
        && Remaining(target, r[..i]) > 50.0
        && SelectSingleMeal(foods, Remaining(target, r[..i]), goal, {}, true, draws[1 + i - m]) == Some(r[i])
    ensures var r := Selection(foods, target, goal, draws);
      var m := MainCount(foods, target, goal, draws);
      foods != [] && |r| < 3 && Remaining(target, r) > 50.0 ==>
        SelectSingleMeal(foods, Remaining(target, r), goal, {}, true, draws[1 + |r| - m]).None?
  {
    if foods != [] {
      var r := Selection(foods, target, goal, draws);
      var main := MainPick(foods, target, goal, draws[0]);
      assert r == AfterMain(SupplementPicker(foods, goal, draws), main, target);
      AfterMainPicks(SupplementPicker(foods, goal, draws), main, target, 0);
      forall i: nat | i <= |r|
        ensures var m := MainCount(foods, target, goal, draws);
          m <= i < |r| ==>
            && Remaining(target, r[..i]) > 50.0
            && SelectSingleMeal(foods, Remaining(target, r[..i]), goal, {}, true, draws[1 + i - m]) == Some(r[i])
      {
        SelectionPickAt(foods, target, goal, draws, i);
      }
      SelectionPickAt(foods, target, goal, draws, |r|);
    }
  }

  /**
   * Every selection is well chosen, the supplement rules applying from the
   * first pick after the main one (from the first pick, when the main pick
   * found nothing).
   */
  lemma SelectionIsWellChosen(foods: seq<FoodItem>, target: real, goal: string, draws: seq<Chance>)
    requires ValidDraws(draws)
    ensures WellChosen(foods, target, Selection(foods, target, goal, draws), MainCount(foods, target, goal, draws))
  {
    var r := Selection(foods, target, goal, draws);
    var m := MainCount(foods, target, goal, draws);
    SelectionPicks(foods, target, goal, draws);
    forall i | 0 <= i < |r|
      ensures IsCopyOf(r[i], foods)
      ensures m <= i ==> Remaining(target, r[..i]) > 50.0 && r[i].calories <= Remaining(target, r[..i]) * 1.2
    {
      if i < m {
        assert Some(r[0]) == MainPick(foods, target, goal, draws[0]);
      } else {
        assert SelectSingleMeal(foods, Remaining(target, r[..i]), goal, {}, true, draws[1 + i - m]) == Some(r[i]);
      }
    }
  }

  /**
   * The main pick of a selection copies, with the first draw's id, one of the
   * (at most three) candidates nearest 75 percent of the budget.
   */
  lemma MainPickIsNearest(foods: seq<FoodItem>, target: real, goal: string, draws: seq<Chance>)
    requires ValidDraws(draws)
    ensures var r := Selection(foods, target, goal, draws);
      var main := Round(target * 0.75) as real;
      MainCount(foods, target, goal, draws) == 1 ==>
        exists c :: c in ClosestFoods(Candidates(foods, main, goal, {}, false), main, 3)
                    && r[0] == c.(id := Some(draws[0].id))
  {
    SelectionPicks(foods, target, goal, draws);
    SelectSingleMealPicksNearest(foods, Round(target * 0.75) as real, goal, {}, false, draws[0]);
  }

  /**
   * Each supplement of a selection copies, with its draw's id, one of the (at
   * most three) candidates nearest what remained before it.
   */
  lemma SupplementIsNearest(foods: seq<FoodItem>, target: real, goal: string, draws: seq<Chance>, i: nat)
    requires ValidDraws(draws)
    requires MainCount(foods, target, goal, draws) <= i < |Selection(foods, target, goal, draws)|
    ensures var r := Selection(foods, target, goal, draws);
      var m := MainCount(foods, target, goal, draws);
      exists c :: c in ClosestFoods(Candidates(foods, Remaining(target, r[..i]), goal, {}, true), Remaining(target, r[..i]), 3)
                  && r[i] == c.(id := Some(draws[1 + i - m].id))
  {
    var r := Selection(foods, target, goal, draws);
    var m := MainCount(foods, target, goal, draws);
    SelectionPickAt(foods, target, goal, draws, i);
    SelectSingleMealPicksNearest(foods, Remaining(target, r[..i]), goal, {}, true, draws[1 + i - m]);
  }

  /** When the list has a food that suits the goal, the main pick is made and suits the goal. */
  lemma MainPickSuitsGoal(foods: seq<FoodItem>, target: real, goal: string, draws: seq<Chance>)
    requires ValidDraws(draws)
    ensures var r := Selection(foods, target, goal, draws);
      (exists f :: f in foods && IsFoodSuitableForGoal(f, goal)) ==>
        MainCount(foods, target, goal, draws) == 1 && IsFoodSuitableForGoal(r[0], goal)
  {
    if f :| f in foods && IsFoodSuitableForGoal(f, goal) {
      SelectSingleMealSuits(foods, Round(target * 0.75) as real, goal, false, draws[0], f);
      SelectionPicks(foods, target, goal, draws);
    }
  }

  /**
   * Of an untagged 500 kcal dish and an untagged 200 kcal dish, only the
   * 200 kcal one suits a weight-loss goal, and so does every copy of it.
   */
  lemma OnlyLightDishSuitsLose(heavy: FoodItem, light: FoodItem, goal: string, x: FoodItem)
    requires heavy.tags == [] && heavy.calories == 500.0
    requires light.tags == [] && light.calories == 200.0
    requires goal == "lose"
    ensures IsFoodSuitableForGoal(light, goal)
    ensures IsCopyOf(x, [heavy, light]) && IsFoodSuitableForGoal(x, goal) ==> x == light.(id := x.id)
  {
  }

  /**
   * For a weight-loss goal, a 600 kcal slot whose list is an untagged
   * 500 kcal dish and an untagged 200 kcal dish starts with the 200 kcal
   * dish: only it suits the goal, although the 500 kcal dish is nearer the
   * main target of 450.
   */
  lemma LoseGoalStartsWithLightDish(heavy: FoodItem, light: FoodItem, budget: real, goal: string,
                                    draws: seq<Chance>)
    requires ValidDraws(draws)
    requires heavy.tags == [] && heavy.calories == 500.0
    requires light.tags == [] && light.calories == 200.0
    requires budget == 600.0 && goal == "lose"
    ensures var r := Selection([heavy, light], budget, goal, draws);
      |r| >= 1 && r[0] == light.(id := r[0].id)
  {
    var foods := [heavy, light];
    var r := Selection(foods, budget, goal, draws);
    OnlyLightDishSuitsLose(heavy, light, goal, light);
    assert light in foods;
    MainPickSuitsGoal(foods, budget, goal, draws);
    SelectionIsWellChosen(foods, budget, goal, draws);
    OnlyLightDishSuitsLose(heavy, light, goal, r[0]);
  }

  /**
   * When the list has a food that suits the goal within what remained before
   * a supplement, that supplement suits the goal and fits what remained.
   */
  lemma SupplementSuitsGoal(foods: seq<FoodItem>, target: real, goal: string, draws: seq<Chance>, i: nat,
                            f: FoodItem)
    requires ValidDraws(draws)
    requires var r := Selection(foods, target, goal, draws);
      MainCount(foods, target, goal, draws) <= i < |r|
    requires var r := Selection(foods, target, goal, draws);
      f in foods && IsFoodSuitableForGoal(f, goal) && f.calories <= Remaining(target, r[..i])
    ensures var r := Selection(foods, target, goal, draws);
      IsFoodSuitableForGoal(r[i], goal) && r[i].calories <= Remaining(target, r[..i])
  {
    var r := Selection(foods, target, goal, draws);
    var m := MainCount(foods, target, goal, draws);
    SelectionPickAt(foods, target, goal, draws, i);
    PickSuits(foods, Remaining(target, r[..i]), goal, draws[1 + i - m], r[i], f);
  }

  /**
   * selectMealsForCalories: a main pick near 75 percent of the budget, then
   * supplements while more than 50 kcal remain and fewer than three foods are
   * chosen, stopping at the first pick that finds nothing.  An absent or empty
   * catalog list gives no picks.
   */
  method SelectMealsForCalories(catalog: map<Slot, seq<FoodItem>>, slot: Slot, targetCalories: real,
                                goal: string, draws: seq<Chance>) returns (selected: seq<FoodItem>)
    requires ValidDraws(draws)
    ensures selected == Selection(CatalogSlot(catalog, slot), targetCalories, goal, draws)
  {
    var foods := CatalogSlot(catalog, slot);
    if |foods| == 0 {
      return [];
    }
    selected := [];
    var remainingCalories := targetCalories;
    var usedIndexes: set<int> := {};

    var mainCalories := Round(remainingCalories * 0.75) as real;
    var mainMeal := SelectSingleMeal(foods, mainCalories, goal, usedIndexes, false, draws[0]);
    ghost var pick := SupplementPicker(foods, goal, draws);
    ghost var want := Selection(foods, targetCalories, goal, draws);
    SelectionStartsWithMain(foods, targetCalories, goal, draws);
    if mainMeal.Some? {
      // the push onto the empty list, and the index indexOf finds for the copy
      selected := [mainMeal.value];
      remainingCalories := remainingCalories - mainMeal.value.calories;
      usedIndexes := {NotFound};
    }
    AfterMainStartsLoop(pick, mainMeal, targetCalories, remainingCalories, selected, usedIndexes);

    var k := 1;
    while remainingCalories > 50.0 && |selected| < 3
      invariant |selected| <= 3 && 1 <= k <= 1 + |selected|
      invariant Supplements(pick, remainingCalories, selected, usedIndexes, k) == want
      decreases 3 - |selected|
    {
      var supplementMeal := SelectSingleMeal(foods, remainingCalories, goal, usedIndexes, true, draws[k]);
      SupplementPickerApplies(foods, goal, draws, remainingCalories, usedIndexes, k);
      if supplementMeal.None? {
        SupplementsStop(pick, remainingCalories, selected, usedIndexes, k);
        break;
      }
      var meal := supplementMeal.value;
      ghost var previous, before, recorded := remainingCalories, selected, usedIndexes;
      selected := selected + [meal];
      remainingCalories := remainingCalories - meal.calories;
      usedIndexes := usedIndexes + {NotFound};
      SupplementsStep(pick, previous, before, recorded, k, meal, remainingCalories);
      k := k + 1;
    }
    if remainingCalories <= 50.0 || |selected| >= 3 {
      SupplementsDone(pick, remainingCalories, selected, usedIndexes, k);
    }
  }

  /**
   * Nothing stops a repeat: for a 450 kcal slot whose catalog is one 200 kcal
   * dish, the main pick (target 338) and the supplement pick for the 250 kcal
   * left both choose that dish.
   */
  lemma SameFoodCanBePickedTwice()
    ensures var rice := FoodItem("ข้าวต้มกุ้ง", "1 ชาม", 200.0, 15.0, 30.0, 4.0, ["โปรตีน"], None);
      var first := SelectSingleMeal([rice], 338.0, "maintain", {}, false, Chance(0.0, "meal_1"));
      var second := SelectSingleMeal([rice], 250.0, "maintain", {NotFound}, true, Chance(0.0, "meal_2"));
      first.Some? && second.Some? && first.value.name == second.value.name
  {
    var rice := FoodItem("ข้าวต้มกุ้ง", "1 ชาม", 200.0, 15.0, 30.0, 4.0, ["โปรตีน"], None);
    assert IsFoodSuitableForGoal(rice, "maintain");
    assert Preferred(rice, [rice], 338.0, "maintain", false);
    DuplicateGuardKeepsAll([rice], {NotFound});
    assert Preferred(rice, [rice], 250.0, "maintain", true);
  }

  /** The error every failure of generateMealPlan is turned into. */
  datatype PlanError = GenerationFailed | MissingDistribution | MissingCatalog

  /** A plan built from four lists has exactly those lists as its slots. */
  lemma SlotsOfAssembledPlan(plan: MealPlan, breakfast: seq<FoodItem>, lunch: seq<FoodItem>,
                             dinner: seq<FoodItem>, snacks: seq<FoodItem>)
    requires plan.meals == map[Breakfast := breakfast, Lunch := lunch, Dinner := dinner, Snacks := snacks]
    ensures forall slot :: slot in plan.meals
    ensures SlotItems(plan, Breakfast) == breakfast && SlotItems(plan, Lunch) == lunch
    ensures SlotItems(plan, Dinner) == dinner && SlotItems(plan, Snacks) == snacks
  {
    forall slot ensures slot in plan.meals {
      match slot
      case Breakfast => case Lunch => case Dinner => case Snacks =>
    }
  }

  /**
   * generateMealPlan: the slot budgets of the meal distribution, a selection
   * per slot, and the total of everything selected.  Reading an absent catalog
   * throws, and the error is replaced by the generic failure.
   */
  method GenerateMealPlan(catalog: Option<map<Slot, seq<FoodItem>>>, targetCalories: real, goal: string,
                          date: string, draws: map<Slot, seq<Chance>>)
    returns (r: Result<MealPlan, PlanError>)
    requires forall slot :: slot in draws && ValidDraws(draws[slot])
    ensures catalog.None? <==> r == Failure(GenerationFailed)
    ensures r.Success? ==>
      var plan := r.value;
      && plan.targetCalories == targetCalories && plan.goal == goal && plan.date == date
      && plan.distribution == Some(Calculator.CalculateMealDistribution(targetCalories))
      && (forall slot :: slot in plan.meals)
      && (forall slot :: SlotItems(plan, slot) == Selection(CatalogSlot(catalog.value, slot),
                                    plan.distribution.value.Budget(slot) as real, goal, draws[slot]))
      && plan.totalCalories == CalculateMealCalories(AllItems(plan))
  {
    if catalog.None? {
      return Failure(GenerationFailed);
    }
    var distribution := Calculator.CalculateMealDistribution(targetCalories);
    var breakfast := SelectMealsForCalories(catalog.value, Breakfast, distribution.breakfast as real, goal, draws[Breakfast]);
    var lunch := SelectMealsForCalories(catalog.value, Lunch, distribution.lunch as real, goal, draws[Lunch]);
    var dinner := SelectMealsForCalories(catalog.value, Dinner, distribution.dinner as real, goal, draws[Dinner]);
    var snacks := SelectMealsForCalories(catalog.value, Snacks, distribution.snacks as real, goal, draws[Snacks]);
    var plan := MealPlan(date, targetCalories, goal,
                         map[Breakfast := breakfast, Lunch := lunch, Dinner := dinner, Snacks := snacks],
                         Some(distribution), 0.0);
    plan := plan.(totalCalories := CalculateTotalCalories(plan));
    SlotsOfAssembledPlan(plan, breakfast, lunch, dinner, snacks);
    forall slot
      ensures SlotItems(plan, slot) == Selection(CatalogSlot(catalog.value, slot), distribution.Budget(slot) as real, goal, draws[slot])
    {
      match slot
      case Breakfast => case Lunch => case Dinner => case Snacks =>
    }
    r := Success(plan);
  }

  /**
   * regenerateMealType: reselects one slot for its stored budget and
   * recomputes the total; a plan without a distribution, or whose budget for
   * the slot is 0, is refused.
   */
  method RegenerateMealType(plan: MealPlan, slot: Slot, catalog: Option<map<Slot, seq<FoodItem>>>,
                            draws: seq<Chance>) returns (r: Result<MealPlan, PlanError>)
    requires ValidDraws(draws)
    ensures (plan.distribution.None? || plan.distribution.value.Budget(slot) == 0) <==> r == Failure(MissingDistribution)
    ensures r == Failure(MissingCatalog) <==>
              plan.distribution.Some? && plan.distribution.value.Budget(slot) != 0 && catalog.None?
    ensures r.Success? ==>
      var next := r.value;
      && next == plan.(meals := next.meals, totalCalories := next.totalCalories)
      && next.meals == plan.meals[slot := SlotItems(next, slot)]
      && SlotItems(next, slot) == Selection(CatalogSlot(catalog.value, slot), plan.distribution.value.Budget(slot) as real,
                                            plan.goal, draws)
      && next.totalCalories == CalculateMealCalories(AllItems(next))
  {
    if plan.distribution.None? || plan.distribution.value.Budget(slot) == 0 {
      return Failure(MissingDistribution);
    }
    if catalog.None? {
      return Failure(MissingCatalog);
    }
    var targetCalories := plan.distribution.value.Budget(slot);
    var newMeals := SelectMealsForCalories(catalog.value, slot, targetCalories as real, plan.goal, draws);
    var next := plan.(meals := plan.meals[slot := newMeals]);
    next := next.(totalCalories := CalculateTotalCalories(next));
    r := Success(next);
  }

  /** Regenerating one slot leaves every other slot as it was. */
  lemma RegenerateKeepsOtherSlots(plan: MealPlan, next: MealPlan, slot: Slot, other: Slot)
    requires next.meals == plan.meals[slot := SlotItems(next, slot)]
    requires other != slot
    ensures SlotItems(next, other) == SlotItems(plan, other)
  {
  }

  /** The advice generateRecommendations can give, in the order it is given. */
  datatype Recommendation = EatLess | EatMore | AddProtein | AddVegetables
  {
    function Rank(): nat
    {
      match this
      case EatLess => 0
      case EatMore => 1
      case AddProtein => 2
      case AddVegetables => 3
    }
  }

  /**
   * generateRecommendations: eat less above +10 percent, more below -10
   * percent, more protein below two protein tags, more vegetables below two
   * vegetable tags; each piece of advice at most once, in that order.
   */
  method GenerateRecommendations(summary: PlanSummary, balance: NutritionalBalance)
    returns (recommendations: seq<Recommendation>)
    ensures EatLess in recommendations <==> summary.difference > 10
    ensures EatMore in recommendations <==> summary.difference < -10
    ensures AddProtein in recommendations <==> balance.protein < 2
    ensures AddVegetables in recommendations <==> balance.vegetables < 2
    ensures forall i, j :: 0 <= i < j < |recommendations| ==> recommendations[i].Rank() < recommendations[j].Rank()
  {
    recommendations := [];
    if summary.difference > 10 {
      recommendations := recommendations + [EatLess];
    } else if summary.difference < -10 {
      recommendations := recommendations + [EatMore];
    }
    if balance.protein < 2 {
      recommendations := recommendations + [AddProtein];
    }
    if balance.vegetables < 2 {
      recommendations := recommendations + [AddVegetables];
    }
  }

  /** A plan as saved: the plan with its id, owner and creation time. */
  datatype SavedPlan = SavedPlan(plan: MealPlan, id: string, userId: string, createdAt: string)

  /** The most plans kept per user. */
  const MaxSavedPlans: nat := 10

  /** `unshift` the new plan, then `splice(10)`: the newest plan first, at most ten kept. */
  function KeepNewest(saved: SavedPlan, plans: seq<SavedPlan>): (r: seq<SavedPlan>)
    ensures |r| == if |plans| + 1 > MaxSavedPlans then MaxSavedPlans else |plans| + 1
    ensures r[0] == saved
    ensures r[1..] == plans[..|r| - 1]
  {
    var all := [saved] + plans;
    if |all| > MaxSavedPlans then all[..MaxSavedPlans] else all
  }

  /** `filter(plan => plan.id !== planId)` */
  function WithoutPlan(plans: seq<SavedPlan>, planId: string): (r: seq<SavedPlan>)
    ensures forall p :: p in r <==> p in plans && p.id != planId
  {
    Filter(plans, (p: SavedPlan) => p.id != planId)
  }

  /** Deleting keeps the other plans in their order: it distributes over concatenation. */
  lemma WithoutPlanKeepsOrder(a: seq<SavedPlan>, b: seq<SavedPlan>, planId: string)
    ensures WithoutPlan(a + b, planId) == WithoutPlan(a, planId) + WithoutPlan(b, planId)
  {
    FilterConcat(a, b, (p: SavedPlan) => p.id != planId);
  }

  /** The saved plans of every user, under the keys `mealPlans_<userId>`. */
  class MealPlanStore {
    var storage: map<string, Stored<SavedPlan>>

    constructor()
      ensures storage == map[]
    {
      storage := map[];
    }

    static function Key(userId: string): string
    {
      "mealPlans_" + userId
    }

    /** getSavedPlans: the stored list, or [] when nothing or unparsable text is stored. */
    function GetSavedPlans(userId: string): (r: seq<SavedPlan>)
      reads this
      ensures Key(userId) !in storage || storage[Key(userId)].Unparsable? ==> r == []
      ensures Key(userId) in storage && storage[Key(userId)].Parsed? ==> r == storage[Key(userId)].items
    {
      LoadList(storage, Key(userId))
    }

    /** saveMealPlan: stores the plan, stamped with id, owner and time, as the newest of at most ten. */
    method SaveMealPlan(plan: MealPlan, userId: string, id: string, createdAt: string)
      returns (saved: SavedPlan)
      modifies this
      ensures saved == SavedPlan(plan, id, userId, createdAt)
      ensures storage == old(storage)[Key(userId) := Parsed(KeepNewest(saved, old(GetSavedPlans(userId))))]
      ensures GetSavedPlans(userId)[0] == saved
    {
      var savedPlans := GetSavedPlans(userId);
      saved := SavedPlan(plan, id, userId, createdAt);
      savedPlans := [saved] + savedPlans;
      if |savedPlans| > MaxSavedPlans {
        savedPlans := savedPlans[..MaxSavedPlans];
      }
      storage := storage[Key(userId) := Parsed(savedPlans)];
    }

    /** deleteMealPlan: rewrites the user's list without the plans carrying that id. */
    method DeleteMealPlan(planId: string, userId: string) returns (deleted: bool)
      modifies this
      ensures deleted
      ensures storage == old(storage)[Key(userId) := Parsed(WithoutPlan(old(GetSavedPlans(userId)), planId))]
      ensures forall p :: p in GetSavedPlans(userId) ==> p.id != planId
    {
      var savedPlans := GetSavedPlans(userId);
      var filteredPlans := WithoutPlan(savedPlans, planId);
      storage := storage[Key(userId) := Parsed(filteredPlans)];
      deleted := true;
    }
  }
}
