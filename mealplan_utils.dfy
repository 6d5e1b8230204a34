/**
 * The meal-plan helpers of the browser planner (utils.js): totals and counts
 * over a plan's four slots, shuffling, tag filtering, the nearest-calorie
 * ranking, the goal-suitability rule, the plan summary, the tag balance and
 * the food categories.
 *
 * A browser plan is a JavaScript object whose slot fields may be absent; here
 * the slots are a map from Slot to list, and an absent key reads as the empty
 * list, as `mealPlan[slot] || []` does.  Every item carries a calorie number;
 * the `meal.calories || 0` fallback of utils.js is not modelled.
 */
module MealPlanUtils {
  import opened Common
  import opened Numeric
  import StableSort
  import Calculator

  /** A catalog item; copies placed in a plan carry a fresh id. */
  datatype FoodItem = FoodItem(
    name: string, portion: string, calories: real,
    protein: real, carbs: real, fat: real,
    tags: seq<string>, id: Option<string>)

  /** A browser meal plan; tips, notes and the AI text are not modelled. */
  datatype MealPlan = MealPlan(
    date: string, targetCalories: real, goal: string,
    meals: map<Slot, seq<FoodItem>>,
    distribution: Option<Calculator.Distribution>,
    totalCalories: real)

  // The tags the rules below look for.
  const TagVegetable: string := "ผัก"
  const TagFiber: string := "ไฟเบอร์"
  const TagProtein: string := "โปรตีน"
  const TagLight: string := "เบา"
  const TagCarbs: string := "คาร์โบไฮเดรต"
  const TagVitamin: string := "วิตามิน"
  const TagFruit: string := "ผลไม้"
  const TagGoodFat: string := "ไขมันดี"
  const CategoryOther: string := "อื่นๆ"

  /** `mealPlan[slot] || []` */
  function SlotItems(plan: MealPlan, slot: Slot): seq<FoodItem>
  {
    if slot in plan.meals then plan.meals[slot] else []
  }

  /** Every item of the plan, breakfast first, snacks last. */
  function AllItems(plan: MealPlan): seq<FoodItem>
  {
    SlotItems(plan, Breakfast) + SlotItems(plan, Lunch) + SlotItems(plan, Dinner) + SlotItems(plan, Snacks)
  }

  /** calculateMealCalories: the calories of a list, summed left to right. */
  function CalculateMealCalories(meals: seq<FoodItem>): (r: real)
    ensures (forall i :: 0 <= i < |meals| ==> meals[i].calories >= 0.0) ==> r >= 0.0
  {
    if meals == [] then 0.0
    else CalculateMealCalories(meals[..|meals| - 1]) + meals[|meals| - 1].calories
  }

  /** The calories of two lists together are the calories of each added up. */
  lemma {:induction false} MealCaloriesConcat(a: seq<FoodItem>, b: seq<FoodItem>)
    ensures CalculateMealCalories(a + b) == CalculateMealCalories(a) + CalculateMealCalories(b)
  {
    if b == [] {
      assert a + b == a;
    } else {
      assert (a + b)[..|a + b| - 1] == a + b[..|b| - 1];
      MealCaloriesConcat(a, b[..|b| - 1]);
    }
  }

  /** The outer reduce of calculateTotalCalories over the given slots. */
  function SlotsCalories(plan: MealPlan, slots: seq<Slot>): real
  {
    if slots == [] then 0.0
    else SlotsCalories(plan, slots[..|slots| - 1]) + CalculateMealCalories(SlotItems(plan, slots[|slots| - 1]))
  }

  /**
   * calculateTotalCalories: the four slot totals added up, which is also the
   * calories of every item of the plan.
   */
  function CalculateTotalCalories(plan: MealPlan): (r: real)
    ensures r == CalculateMealCalories(SlotItems(plan, Breakfast)) + CalculateMealCalories(SlotItems(plan, Lunch))
               + CalculateMealCalories(SlotItems(plan, Dinner)) + CalculateMealCalories(SlotItems(plan, Snacks))
    ensures r == CalculateMealCalories(AllItems(plan))
  {
    var b, l, d, s := SlotItems(plan, Breakfast), SlotItems(plan, Lunch), SlotItems(plan, Dinner), SlotItems(plan, Snacks);
    MealCaloriesConcat(b, l);
    MealCaloriesConcat(b + l, d);
    MealCaloriesConcat(b + l + d, s);
    assert AllSlots[..3] == [Breakfast, Lunch, Dinner] && AllSlots[..3][..2] == [Breakfast, Lunch];
    assert [Breakfast, Lunch][..1] == [Breakfast] && [Breakfast][..0] == [];
    assert SlotsCalories(plan, [Breakfast]) == CalculateMealCalories(b);
    assert SlotsCalories(plan, [Breakfast, Lunch]) == CalculateMealCalories(b) + CalculateMealCalories(l);
    assert SlotsCalories(plan, [Breakfast, Lunch, Dinner])
        == CalculateMealCalories(b) + CalculateMealCalories(l) + CalculateMealCalories(d);
    SlotsCalories(plan, AllSlots)
  }

  /** The item count of each slot and of the whole plan. */
  datatype MealCounts = MealCounts(breakfast: nat, lunch: nat, dinner: nat, snacks: nat, total: nat)
  {
    function Count(slot: Slot): nat
    {
      match slot
      case Breakfast => breakfast
      case Lunch => lunch
      case Dinner => dinner
      case Snacks => snacks
    }
  }

  /** calculateMealCounts: per-slot lengths, absent slots counting 0, and their total. */
  function CalculateMealCounts(plan: MealPlan): (r: MealCounts)
    ensures forall slot :: r.Count(slot) == |SlotItems(plan, slot)|
    ensures r.total == |AllItems(plan)|
    ensures r.total == r.breakfast + r.lunch + r.dinner + r.snacks
  {
    var b, l, d, s := |SlotItems(plan, Breakfast)|, |SlotItems(plan, Lunch)|, |SlotItems(plan, Dinner)|, |SlotItems(plan, Snacks)|;
    MealCounts(b, l, d, s, b + l + d + s)
  }

  /**
   * shuffleArray: a Fisher–Yates pass over a copy of the input.  The k-th
   * swap (k = 0, 1, ...) exchanges position i = n-1-k with Draw(rolls[k], i+1).
   * The input is a value and so is untouched.
   */
  method ShuffleArray<T>(input: seq<T>, rolls: seq<real>) returns (shuffled: seq<T>)
    requires |rolls| + 1 >= |input|
    requires forall k :: 0 <= k < |rolls| ==> IsRoll(rolls[k])
    ensures |shuffled| == |input|
    ensures multiset(shuffled) == multiset(input)
  {
    var a := new T[|input|](k requires 0 <= k < |input| => input[k]);
    assert a[..] == input;
    var i := a.Length - 1;
    while i > 0
      invariant -1 <= i < a.Length
      invariant multiset(a[..]) == multiset(input)
    {
      var j := Draw(rolls[a.Length - 1 - i], i + 1);
      a[i], a[j] := a[j], a[i];
      i := i - 1;
    }
    shuffled := a[..];
  }

  /** The food carries at least one of the tags. */
  predicate HasAnyTag(food: FoodItem, tags: seq<string>)
  {
    exists t :: t in tags && t in food.tags
  }

  /** The filter callback of filterFoodsByTags. */
  function TaggedWithAny(tags: seq<string>): FoodItem -> bool
  {
    (food: FoodItem) => HasAnyTag(food, tags)
  }

  /**
   * filterFoodsByTags: the input itself when the tag list is absent or empty,
   * otherwise exactly the foods carrying one of the tags.
   */
  function FilterFoodsByTags(foods: seq<FoodItem>, tags: Option<seq<string>>): (r: seq<FoodItem>)
    ensures tags.None? || tags.value == [] ==> r == foods
    ensures tags.Some? && tags.value != [] ==>
              forall f :: f in r <==> f in foods && HasAnyTag(f, tags.value)
  {
    if tags.None? || |tags.value| == 0 then foods else Filter(foods, TaggedWithAny(tags.value))
  }

  /** Tag filtering keeps the original order: it distributes over concatenation. */
  lemma FilterFoodsByTagsKeepsOrder(a: seq<FoodItem>, b: seq<FoodItem>, tags: Option<seq<string>>)
    ensures FilterFoodsByTags(a + b, tags) == FilterFoodsByTags(a, tags) + FilterFoodsByTags(b, tags)
  {
    if tags.Some? && tags.value != [] {
      FilterConcat(a, b, TaggedWithAny(tags.value));
    }
  }

  /** The sort key of findClosestCalorieFoods: distance from the target. */
  function DistanceFrom(target: real): FoodItem -> real
  {
    (food: FoodItem) => Abs(food.calories - target)
  }

  /** What findClosestCalorieFoods returns: the first `count` foods of the stable sort by distance. */
  function ClosestFoods(foods: seq<FoodItem>, target: real, count: nat): (r: seq<FoodItem>)
    ensures |r| == if count < |foods| then count else |foods|
  {
    var sorted := StableSort.Sort(foods, DistanceFrom(target));
    sorted[..if count < |sorted| then count else |sorted|]
  }

  /**
   * The nearest-K property: the result is ordered by distance, is drawn from
   * the input, and no food left out is strictly closer than one kept.
   */
  lemma ClosestFoodsAreNearest(foods: seq<FoodItem>, target: real, count: nat)
    ensures StableSort.SortedBy(ClosestFoods(foods, target, count), DistanceFrom(target))
    ensures multiset(ClosestFoods(foods, target, count)) <= multiset(foods)
    ensures forall kept, omitted ::
              kept in ClosestFoods(foods, target, count) &&
              omitted in multiset(foods) - multiset(ClosestFoods(foods, target, count)) ==>
                Abs(kept.calories - target) <= Abs(omitted.calories - target)
  {
    var key := DistanceFrom(target);
    var k := if count < |foods| then count else |foods|;
    StableSort.SortPrefixIsSmallest(foods, k, key);
    assert ClosestFoods(foods, target, count) == StableSort.Sort(foods, key)[..k];
    NoneLeftCloser(ClosestFoods(foods, target, count), multiset(foods), target);
  }

  /** NoneLeftSmaller by distance, spelled out. */
  lemma NoneLeftCloser(kept: seq<FoodItem>, pool: multiset<FoodItem>, target: real)
    requires StableSort.NoneLeftSmaller(kept, pool, DistanceFrom(target))
    ensures forall x, y :: x in kept && y in pool - multiset(kept) ==>
              Abs(x.calories - target) <= Abs(y.calories - target)
  {
    forall x, y | x in kept && y in pool - multiset(kept)
      ensures Abs(x.calories - target) <= Abs(y.calories - target)
    {
      assert DistanceFrom(target)(x) <= DistanceFrom(target)(y);
    }
  }

  /**
   * findClosestCalorieFoods: sorts the caller's array in place by distance
   * from the target and returns its first `count` entries.
   */
  method FindClosestCalorieFoods(foods: array<FoodItem>, target: real, count: nat) returns (r: seq<FoodItem>)
    modifies foods
    ensures foods[..] == StableSort.Sort(old(foods[..]), DistanceFrom(target))
    ensures r == ClosestFoods(old(foods[..]), target, count)
  {
    StableSort.SortInPlace(foods, DistanceFrom(target));
    r := foods[..if count < foods.Length then count else foods.Length];
  }

  /**
   * isFoodSuitableForGoal: the suitability rule of the goal; a goal without a
   * rule of its own uses the `maintain` rule, which accepts everything.
   */
  function IsFoodSuitableForGoal(food: FoodItem, goal: string): (ok: bool)
    ensures goal != "lose" && goal != "gain" && goal != "muscle" ==> ok
    ensures TagProtein in food.tags ==> ok
    ensures goal == "lose" ==>
      (ok <==> (TagVegetable in food.tags || TagFiber in food.tags || TagProtein in food.tags
                || TagLight in food.tags || food.calories < 300.0))
    ensures goal == "gain" ==> (ok <==> TagProtein in food.tags || TagCarbs in food.tags || food.calories >= 300.0)
    ensures goal == "muscle" ==> (ok <==> TagProtein in food.tags || TagCarbs in food.tags)
  {
    if goal == "lose" then
      TagVegetable in food.tags || TagFiber in food.tags || TagProtein in food.tags
      || TagLight in food.tags || food.calories < 300.0
    else if goal == "gain" then
      TagProtein in food.tags || TagCarbs in food.tags || food.calories >= 300.0
    else if goal == "muscle" then
      TagProtein in food.tags || TagCarbs in food.tags
    else
      true
  }

  /** `maintain` and every goal without a rule accept every food. */
  lemma UnknownGoalAcceptsEverything(food: FoodItem, goal: string)
    requires goal != "lose" && goal != "gain" && goal != "muscle"
    ensures IsFoodSuitableForGoal(food, goal)
  {
  }

  /** The muscle rule is the gain rule without its calorie clause. */
  lemma MuscleRuleIsStricterThanGain(food: FoodItem)
    ensures IsFoodSuitableForGoal(food, "muscle") ==> IsFoodSuitableForGoal(food, "gain")
    ensures IsFoodSuitableForGoal(food, "gain") && food.calories < 300.0 ==> IsFoodSuitableForGoal(food, "muscle")
  {
  }

  /** A protein-tagged food suits every goal. */
  lemma ProteinSuitsEveryGoal(food: FoodItem, goal: string)
    requires TagProtein in food.tags
    ensures IsFoodSuitableForGoal(food, goal)
  {
  }

  /** calculateCalorieDifference: the deviation from the target in whole percent. */
  function CalculateCalorieDifference(actual: real, target: real): (r: int)
    ensures target == 0.0 ==> r == 0
    ensures target != 0.0 ==> -0.5 < r as real - (actual - target) / target * 100.0 <= 0.5
  {
    if target == 0.0 then 0 else Round((actual - target) / target * 100.0)
  }

  datatype PlanStatus = OnTarget | OverTarget | UnderTarget

  datatype PlanSummary = PlanSummary(
    totalCalories: real, targetCalories: real, difference: int,
    status: PlanStatus, totalMeals: nat, breakdown: MealCounts)

  /** generatePlanSummary: over above +5 percent, under below -5 percent, else on target. */
  function GeneratePlanSummary(plan: MealPlan, targetCalories: real): (r: PlanSummary)
    ensures r.totalCalories == CalculateMealCalories(AllItems(plan))
    ensures r.targetCalories == targetCalories
    ensures r.difference == CalculateCalorieDifference(r.totalCalories, targetCalories)
    ensures r.status == OverTarget <==> r.difference > 5
    ensures r.status == UnderTarget <==> r.difference < -5
    ensures r.totalMeals == |AllItems(plan)| && r.breakdown == CalculateMealCounts(plan)
  {
    var total := CalculateTotalCalories(plan);
    var counts := CalculateMealCounts(plan);
    var difference := CalculateCalorieDifference(total, targetCalories);
    var status := if difference > 5 then OverTarget else if difference < -5 then UnderTarget else OnTarget;
    PlanSummary(total, targetCalories, difference, status, counts.total, counts)
  }

  /** For a positive x, a/x > c exactly when a > c * x. */
  lemma ScaleByPositive(a: real, x: real, c: real)
    requires x > 0.0
    ensures a / x > c <==> a > c * x
    ensures a / x < c <==> a < c * x
  {
    assert a == (a / x) * x;
  }

  /**
   * What the status says about the plan for a positive target: over means at
   * least 5.5 percent above it, under more than 5.5 percent below it, and on
   * target within that band.
   */
  lemma StatusBands(plan: MealPlan, targetCalories: real)
    requires targetCalories > 0.0
    ensures var s := GeneratePlanSummary(plan, targetCalories);
      (s.status == OverTarget ==> s.totalCalories >= targetCalories * 1.055) &&
      (s.status == UnderTarget ==> s.totalCalories < targetCalories * 0.945) &&
      (s.status == OnTarget ==> targetCalories * 0.945 <= s.totalCalories < targetCalories * 1.055)
  {
    var s := GeneratePlanSummary(plan, targetCalories);
    var x := (s.totalCalories - targetCalories) / targetCalories;
    assert -0.5 < s.difference as real - x * 100.0 <= 0.5;
    ScaleByPositive(s.totalCalories - targetCalories, targetCalories, 0.055);
    ScaleByPositive(s.totalCalories - targetCalories, targetCalories, -0.055);
    if s.status == OverTarget {
      assert x >= 0.055;
    } else if s.status == UnderTarget {
      assert x < -0.055;
    } else {
      assert -0.055 <= x < 0.055;
      assert !(s.totalCalories - targetCalories < -0.055 * targetCalories);
    }
  }

  /** The number of times tag occurs in a tag list. */
  function Occurrences(tags: seq<string>, tag: string): nat
  {
    if tags == [] then 0
    else Occurrences(tags[..|tags| - 1], tag) + (if tags[|tags| - 1] == tag then 1 else 0)
  }

  /** The occurrences of tag summed over a list of foods. */
  function TagCount(items: seq<FoodItem>, tag: string): nat
  {
    if items == [] then 0
    else TagCount(items[..|items| - 1], tag) + Occurrences(items[|items| - 1].tags, tag)
  }

  /** Tag counts add up across lists, so a plan's count is the sum of its slots' counts. */
  lemma {:induction false} TagCountConcat(a: seq<FoodItem>, b: seq<FoodItem>, tag: string)
    ensures TagCount(a + b, tag) == TagCount(a, tag) + TagCount(b, tag)
  {
    if b == [] {
      assert a + b == a;
    } else {
      assert (a + b)[..|a + b| - 1] == a + b[..|b| - 1];
      TagCountConcat(a, b[..|b| - 1], tag);
    }
  }

  /** A food carrying the tag adds at least one to the count. */
  lemma {:induction false} TagCountCountsCarriers(items: seq<FoodItem>, tag: string)
    ensures TagCount(items, tag) >= |Filter(items, (f: FoodItem) => tag in f.tags)|
  {
    if items != [] {
      var init, last := items[..|items| - 1], items[|items| - 1];
      assert items == init + [last];
      TagCountCountsCarriers(init, tag);
      FilterConcat(init, [last], (f: FoodItem) => tag in f.tags);
      if tag in last.tags {
        OccursAtLeastOnce(last.tags, tag);
      }
    }
  }

  lemma {:induction false} OccursAtLeastOnce(tags: seq<string>, tag: string)
    requires tag in tags
    ensures Occurrences(tags, tag) >= 1
  {
    if tags[|tags| - 1] != tag {
      assert tags == tags[..|tags| - 1] + [tags[|tags| - 1]];
      OccursAtLeastOnce(tags[..|tags| - 1], tag);
    }
  }

  datatype NutritionalBalance = NutritionalBalance(protein: nat, carbs: nat, vegetables: nat, fiber: nat, vitamins: nat)

  /**
   * checkNutritionalBalance: counts every tag occurrence over all slots in a
   * dictionary and reads five of them, a missing key reading 0.
   */
  method CheckNutritionalBalance(plan: MealPlan) returns (balance: NutritionalBalance)
    ensures balance.protein == TagCount(AllItems(plan), TagProtein)
    ensures balance.carbs == TagCount(AllItems(plan), TagCarbs)
    ensures balance.vegetables == TagCount(AllItems(plan), TagVegetable)
    ensures balance.fiber == TagCount(AllItems(plan), TagFiber)
    ensures balance.vitamins == TagCount(AllItems(plan), TagVitamin)
  {
    var allMeals := AllItems(plan);
    var tagCounts: map<string, nat> := map[];
    var i := 0;
    while i < |allMeals|
      invariant 0 <= i <= |allMeals|
      invariant forall tag :: Lookup(tagCounts, tag) == TagCount(allMeals[..i], tag)
    {
      var tags := allMeals[i].tags;
      var k := 0;
      while k < |tags|
        invariant 0 <= k <= |tags|
        invariant forall tag :: Lookup(tagCounts, tag) == TagCount(allMeals[..i], tag) + Occurrences(tags[..k], tag)
      {
        assert tags[..k + 1][..k] == tags[..k];
        tagCounts := tagCounts[tags[k] := Lookup(tagCounts, tags[k]) + 1];
        k := k + 1;
      }
      assert tags[..k] == tags;
      assert allMeals[..i + 1][..i] == allMeals[..i];
      i := i + 1;
    }
    assert allMeals[..i] == allMeals;
    balance := NutritionalBalance(
      Lookup(tagCounts, TagProtein), Lookup(tagCounts, TagCarbs), Lookup(tagCounts, TagVegetable),
      Lookup(tagCounts, TagFiber), Lookup(tagCounts, TagVitamin));
  }

  /** The five category tags, in the order categorizeFood tests them. */
  const CategoryTags: seq<string> := [TagProtein, TagCarbs, TagVegetable, TagFruit, TagGoodFat]

  /** The fallback category is not one of the five. */
  lemma OtherIsNoCategory()
    ensures CategoryOther !in CategoryTags
  {
    assert forall tag :: tag in CategoryTags ==> tag[0] != CategoryOther[0];
  }

  /** The filter callback "the tag is one of these". */
  function AmongTags(tags: seq<string>): string -> bool
  {
    (tag: string) => tag in tags
  }

  /** The category tag as a one-element list when the food carries it, else nothing. */
  function IfTagged(food: FoodItem, tag: string): seq<string>
  {
    if tag in food.tags then [tag] else []
  }

  /** One step of categorizeFood: push the tag when the food carries it. */
  method PushIfTagged(categories: seq<string>, food: FoodItem, tag: string) returns (next: seq<string>)
    ensures next == categories + IfTagged(food, tag)
  {
    next := categories;
    if tag in food.tags {
      next := next + [tag];
    }
  }

  /** The five pushes of categorizeFood select the category tags the food carries, in order. */
  lemma PushesFilterCategories(food: FoodItem)
    ensures [] + IfTagged(food, TagProtein) + IfTagged(food, TagCarbs) + IfTagged(food, TagVegetable)
            + IfTagged(food, TagFruit) + IfTagged(food, TagGoodFat)
            == Filter(CategoryTags, AmongTags(food.tags))
  {
    var keep := AmongTags(food.tags);
    FilterSnoc([], TagProtein, keep);
    FilterSnoc([TagProtein], TagCarbs, keep);
    FilterSnoc([TagProtein, TagCarbs], TagVegetable, keep);
    FilterSnoc([TagProtein, TagCarbs, TagVegetable], TagFruit, keep);
    FilterSnoc([TagProtein, TagCarbs, TagVegetable, TagFruit], TagGoodFat, keep);
    assert [] + [TagProtein] == [TagProtein];
    assert [TagProtein] + [TagCarbs] == [TagProtein, TagCarbs];
    assert [TagProtein, TagCarbs] + [TagVegetable] == [TagProtein, TagCarbs, TagVegetable];
    assert [TagProtein, TagCarbs, TagVegetable] + [TagFruit] == [TagProtein, TagCarbs, TagVegetable, TagFruit];
    assert [TagProtein, TagCarbs, TagVegetable, TagFruit] + [TagGoodFat] == CategoryTags;
  }

  /** No category tag survives the filter exactly when the food carries none of them. */
  lemma NoneCarriedIsEmpty(food: FoodItem)
    ensures Filter(CategoryTags, AmongTags(food.tags)) == [] <==> forall tag :: tag in CategoryTags ==> tag !in food.tags
  {
    var carried := Filter(CategoryTags, AmongTags(food.tags));
    if carried != [] {
      assert carried[0] in CategoryTags && carried[0] in food.tags;
    }
  }

  /**
   * categorizeFood: the category tags the food carries, in category order, or
   * the single category "other" when it carries none.
   */
  method CategorizeFood(food: FoodItem) returns (categories: seq<string>)
    ensures categories == [CategoryOther] <==> forall tag :: tag in CategoryTags ==> tag !in food.tags
    ensures categories != [CategoryOther] ==> categories == Filter(CategoryTags, AmongTags(food.tags))
  {
    categories := [];
    categories := PushIfTagged(categories, food, TagProtein);
    categories := PushIfTagged(categories, food, TagCarbs);
    categories := PushIfTagged(categories, food, TagVegetable);
    categories := PushIfTagged(categories, food, TagFruit);
    categories := PushIfTagged(categories, food, TagGoodFat);
    PushesFilterCategories(food);
    ghost var carried := Filter(CategoryTags, AmongTags(food.tags));
    assert categories == carried;
    NoneCarriedIsEmpty(food);
    OtherIsNoCategory();
    if |categories| == 0 {
      categories := [CategoryOther];
    } else {
      assert categories[0] in CategoryTags;
    }
  }
}
