/**
 * The calorie clamp of the plan server (server/src/index.ts): a plan whose
 * items add up to more than the requested target is scaled down, taking the
 * excess first from the snacks, then dinner, lunch and breakfast, each list
 * from its last item backwards.
 *
 * A plan's four lists are arrays that the clamp overwrites in place; the
 * returned plan shares them.  Schema parsing, the HTTP routes and the model
 * call around the clamp are not part of this model.
 */
module ServerClamp {
  import opened Numeric

  /** One item of a plan, after schema coercion. */
  datatype MealItem = MealItem(name: string, portion: string, calories: real, protein: real, carbs: real, fat: real)

  /** r is Math.round(x): a whole number within half a unit of x. */
  predicate RoundedFrom(r: real, x: real)
  {
    IsWhole(r) && -0.5 < r - x <= 0.5
  }

  /**
   * r is x rounded to one decimal as toFixed(1) does: a multiple of 0.1 within
   * 0.05 of x, a tie going away from zero.
   */
  predicate TenthsFrom(r: real, x: real)
  {
    && IsWhole(r * 10.0)
    && (x >= 0.0 ==> -0.05 < r - x <= 0.05)
    && (x < 0.0 ==> -0.05 <= r - x < 0.05)
  }

  /**
   * scaleItem: the item scaled by the factor clamped at 0, calories rounded
   * to a whole number and macros to one decimal, name and portion kept.
   */
  function ScaleItem(item: MealItem, factor: real): (r: MealItem)
    ensures r.name == item.name && r.portion == item.portion
    ensures var f := Max(0.0, factor);
      && r.calories == ScaleCalories(item.calories, f)
      && r.protein == ScaleMacro(item.protein, f)
      && r.carbs == ScaleMacro(item.carbs, f)
      && r.fat == ScaleMacro(item.fat, f)
    ensures factor <= 0.0 ==> r.calories == 0.0 && r.protein == 0.0 && r.carbs == 0.0 && r.fat == 0.0
  {
    var f := Max(0.0, factor);
    var calories := ScaleCalories(item.calories, f);
    var protein := ScaleMacro(item.protein, f);
    var carbs := ScaleMacro(item.carbs, f);
    var fat := ScaleMacro(item.fat, f);
    MealItem(item.name, item.portion, calories, protein, carbs, fat)
  }

  /** The calories part of scaleItem: Math.round of the scaled value. */
  function ScaleCalories(calories: real, f: real): (r: real)
    ensures RoundedFrom(r, calories * f)
    ensures f == 0.0 ==> r == 0.0
  {
    assert f == 0.0 ==> calories * f == 0.0;
    Round(calories * f) as real
  }

  /** A macro part of scaleItem: the scaled value to one decimal. */
  function ScaleMacro(grams: real, f: real): (r: real)
    ensures TenthsFrom(r, grams * f)
    ensures f == 0.0 ==> r == 0.0
  {
    assert f == 0.0 ==> grams * f == 0.0;
    RoundTo1(grams * f)
  }

  /** The calories of a list, summed left to right. */
  function Calories(items: seq<MealItem>): real
  {
    if items == [] then 0.0 else Calories(items[..|items| - 1]) + items[|items| - 1].calories
  }

  lemma {:induction false} CaloriesConcat(a: seq<MealItem>, b: seq<MealItem>)
    ensures Calories(a + b) == Calories(a) + Calories(b)
  {
    if b == [] {
      assert a + b == a;
    } else {
      assert (a + b)[..|a + b| - 1] == a + b[..|b| - 1];
      CaloriesConcat(a, b[..|b| - 1]);
    }
  }

  /** Replacing one item changes the sum by the difference of the two items. */
  lemma CaloriesUpdate(s: seq<MealItem>, j: nat, x: MealItem)
    requires j < |s|
    ensures Calories(s[j := x]) == Calories(s) - s[j].calories + x.calories
  {
    assert s == s[..j] + [s[j]] + s[j + 1..];
    assert s[j := x] == s[..j] + [x] + s[j + 1..];
    CaloriesConcat(s[..j] + [s[j]], s[j + 1..]);
    CaloriesConcat(s[..j], [s[j]]);
    CaloriesConcat(s[..j] + [x], s[j + 1..]);
    CaloriesConcat(s[..j], [x]);
    assert Calories([s[j]]) == s[j].calories && Calories([x]) == x.calories by {
      assert [s[j]][..0] == [] && [x][..0] == [];
    }
  }

  /** Whole calories add up to a whole number. */
  lemma {:induction false} CaloriesWhole(s: seq<MealItem>)
    requires forall j :: 0 <= j < |s| ==> IsWhole(s[j].calories)
    ensures IsWhole(Calories(s))
  {
    if s != [] {
      CaloriesWhole(s[..|s| - 1]);
      assert Calories(s) == (Calories(s[..|s| - 1]).Floor + s[|s| - 1].calories.Floor) as real;
    }
  }

  /** A list whose items are all at most 0 kcal sums to at most 0. */
  lemma {:induction false} CaloriesOfEmptied(s: seq<MealItem>)
    requires forall j :: 0 <= j < |s| ==> s[j].calories <= 0.0
    ensures Calories(s) <= 0.0
  {
    if s != [] {
      CaloriesOfEmptied(s[..|s| - 1]);
    }
  }

  /**
   * One turn of reduceArrayCalories's loop: an item of at most 0 kcal is
   * skipped, any other loses min(calories, cut), which the cut loses too.
   */
  function Visit(item: MealItem, cut: real): (MealItem, real)
  {
    if item.calories <= 0.0 then (item, cut)
    else
      var reducible := Min(item.calories, cut);
      (ScaleItem(item, (item.calories - reducible) / item.calories), cut - reducible)
  }

  /**
   * The loop of reduceArrayCalories from position i-1 down to 0 while the cut
   * exceeds 1: the final list and the cut left over.
   */
  function ReduceFrom(s: seq<MealItem>, i: nat, cut: real): (r: (seq<MealItem>, real))
    requires i <= |s|
    ensures |r.0| == |s|
    decreases i
  {
    if i == 0 || cut <= 1.0 then (s, cut)
    else
      var (item, rest) := Visit(s[i - 1], cut);
      ReduceFrom(s[i - 1 := item], i - 1, rest)
  }

  /** The whole of reduceArrayCalories on a list: the new list and the cut left over. */
  function Reduce(s: seq<MealItem>, cut: real): (r: (seq<MealItem>, real))
    ensures |r.0| == |s|
  {
    ReduceFrom(s, |s|, cut)
  }

  /**
   * reduceArrayCalories: overwrites the array with its reduced items, visiting
   * them from last to first, and returns the cut left over, at least 0.
   */
  method ReduceArrayCalories(arr: array<MealItem>, cut: real) returns (rest: real)
    modifies arr
    ensures arr[..] == Reduce(old(arr[..]), cut).0
    ensures rest == Max(0.0, Reduce(old(arr[..]), cut).1)
  {
    var remaining := cut;
    var i := arr.Length - 1;
    while i >= 0 && remaining > 1.0
      invariant -1 <= i < arr.Length
      invariant ReduceFrom(arr[..], i + 1, remaining) == Reduce(old(arr[..]), cut)
    {
      var it := arr[i];
      ghost var before := arr[..];
      if it.calories <= 0.0 {
        assert before[i := it] == before;
        i := i - 1;
        continue;
      }
      var reducible := Min(it.calories, remaining);
      var factor := (it.calories - reducible) / it.calories;
      arr[i] := ScaleItem(it, factor);
      assert arr[..] == before[i := Visit(it, remaining).0];
      remaining := remaining - reducible;
      i := i - 1;
    }
    rest := Max(0.0, remaining);
  }

  /** A visit to an item with calories leaves it with what the cut did not take, rounded. */
  lemma VisitCalories(item: MealItem, cut: real)
    requires cut > 1.0 && item.calories > 0.0
    ensures var (next, rest) := Visit(item, cut);
      && next.name == item.name && next.portion == item.portion
      && next.calories == Round(item.calories - Min(item.calories, cut)) as real
      && rest == cut - Min(item.calories, cut)
  {
    var c := item.calories;
    var factor := (c - Min(c, cut)) / c;
    ScaledCalories(c, Min(c, cut));
    assert ScaleItem(item, factor).calories == ScaleCalories(c, Max(0.0, factor));
  }

  /** What one visit does, for a cut above 1. */
  lemma VisitFacts(item: MealItem, cut: real)
    requires cut > 1.0
    ensures var (next, rest) := Visit(item, cut);
      && next.name == item.name && next.portion == item.portion
      && next.calories <= item.calories
      && (item.calories > 0.0 ==> next.calories >= 0.0)
      && (item.calories <= 0.0 ==> next == item)
      && 0.0 <= rest <= cut
      && (rest > 1.0 ==> next.calories <= 0.0)
  {
    if item.calories > 0.0 {
      VisitCalories(item, cut);
    }
  }

  /** With whole numbers the item loses exactly what the cut loses. */
  lemma VisitExact(item: MealItem, cut: real)
    requires cut > 1.0 && IsWhole(item.calories) && IsWhole(cut)
    ensures var (next, rest) := Visit(item, cut);
      IsWhole(rest) && IsWhole(next.calories) && item.calories - next.calories == cut - rest
  {
    var c := item.calories;
    if c > 0.0 {
      VisitCalories(item, cut);
      var reducible := Min(c, cut);
      WholeDifference(c, reducible);
      WholeDifference(cut, reducible);
      RoundWhole((c - reducible).Floor);
    }
  }

  /** The difference of whole numbers is whole. */
  lemma WholeDifference(a: real, b: real)
    requires IsWhole(a) && IsWhole(b)
    ensures IsWhole(a - b)
  {
    assert a - b == (a.Floor - b.Floor) as real;
  }

  /** Scaling c by (c - reducible) / c leaves c - reducible, rounded. */
  lemma ScaledCalories(c: real, reducible: real)
    requires 0.0 <= reducible <= c && c > 0.0
    ensures Max(0.0, (c - reducible) / c) == (c - reducible) / c
    ensures ScaleCalories(c, (c - reducible) / c) == Round(c - reducible) as real
  {
    var f := (c - reducible) / c;
    QuotientCancels(c - reducible, c);
    ScaledTo(c, f, c - reducible);
  }

  /** Scaling c by a factor whose product with c is x rounds x. */
  lemma ScaledTo(c: real, f: real, x: real)
    requires c * f == x
    ensures ScaleCalories(c, f) == Round(x) as real
  {
  }

  /** Dividing a non-negative x by a positive c and multiplying back gives x. */
  lemma QuotientCancels(x: real, c: real)
    requires x >= 0.0 && c > 0.0
    ensures x / c >= 0.0 && c * (x / c) == x
  {
  }

  /** The items all have whole calories. */
  predicate AllWhole(s: seq<MealItem>)
  {
    forall j :: 0 <= j < |s| ==> IsWhole(s[j].calories)
  }

  /**
   * The loop changes only positions below i, keeps every name and portion,
   * never raises an item's calories and never takes a non-negative item below 0.
   */
  lemma {:induction false} ReduceFromShape(s: seq<MealItem>, i: nat, cut: real)
    requires i <= |s|
    ensures var t := ReduceFrom(s, i, cut).0;
      forall j :: 0 <= j < |s| ==>
        && t[j].name == s[j].name && t[j].portion == s[j].portion
        && t[j].calories <= s[j].calories
        && (s[j].calories >= 0.0 ==> t[j].calories >= 0.0)
        && (j >= i ==> t[j] == s[j])
    decreases i
  {
    if i > 0 && cut > 1.0 {
      var (item, rest) := Visit(s[i - 1], cut);
      VisitFacts(s[i - 1], cut);
      ReduceFromShape(s[i - 1 := item], i - 1, rest);
    }
  }

  /**
   * The cut left over is between 0 and the cut given, and when more than 1 is
   * left every visited item is down to at most 0 kcal.
   */
  lemma {:induction false} ReduceFromCut(s: seq<MealItem>, i: nat, cut: real)
    requires i <= |s| && cut >= 0.0
    ensures var (t, rest) := ReduceFrom(s, i, cut);
      && 0.0 <= rest <= cut
      && (rest > 1.0 ==> forall j :: 0 <= j < i ==> t[j].calories <= 0.0)
    decreases i
  {
    if i > 0 && cut > 1.0 {
      var (item, rest) := Visit(s[i - 1], cut);
      VisitFacts(s[i - 1], cut);
      ReduceFromCut(s[i - 1 := item], i - 1, rest);
      ReduceFromShape(s[i - 1 := item], i - 1, rest);
    }
  }

  /**
   * With whole calories and a whole cut, the list loses exactly the amount
   * the cut goes down by.
   */
  lemma {:induction false} ReduceFromExact(s: seq<MealItem>, i: nat, cut: real)
    requires i <= |s| && AllWhole(s) && IsWhole(cut)
    ensures var (t, rest) := ReduceFrom(s, i, cut);
      AllWhole(t) && IsWhole(rest) && Calories(s) - Calories(t) == cut - rest
    decreases i
  {
    if i > 0 && cut > 1.0 {
      var (item, rest) := Visit(s[i - 1], cut);
      var next := s[i - 1 := item];
      VisitExact(s[i - 1], cut);
      assert AllWhole(next) by {
        forall j | 0 <= j < |next| ensures IsWhole(next[j].calories) {
          if j != i - 1 {
            assert next[j] == s[j];
          }
        }
      }
      CaloriesUpdate(s, i - 1, item);
      assert Calories(s) - Calories(next) == cut - rest;
      ReduceFromExact(next, i - 1, rest);
      assert ReduceFrom(s, i, cut) == ReduceFrom(next, i - 1, rest);
    }
  }

  /** The contents of a plan's four lists. */
  datatype PlanItems = PlanItems(breakfast: seq<MealItem>, lunch: seq<MealItem>, dinner: seq<MealItem>, snacks: seq<MealItem>)
  {
    function Total(): real
    {
      Calories(breakfast + lunch + dinner + snacks)
    }
  }

  /** The sum over a plan is the four list sums added up. */
  lemma TotalSplits(p: PlanItems)
    ensures p.Total() == Calories(p.breakfast) + Calories(p.lunch) + Calories(p.dinner) + Calories(p.snacks)
  {
    CaloriesConcat(p.breakfast + p.lunch + p.dinner, p.snacks);
    CaloriesConcat(p.breakfast + p.lunch, p.dinner);
    CaloriesConcat(p.breakfast, p.lunch);
  }

  /**
   * The contents clampPlanToTarget leaves: unchanged when the sum is within
   * the target, otherwise the excess cut from snacks, dinner, lunch and
   * breakfast in that order, each list receiving what the previous one left.
   */
  function Clamp(p: PlanItems, target: real): (r: PlanItems)
    ensures |r.breakfast| == |p.breakfast| && |r.lunch| == |p.lunch|
    ensures |r.dinner| == |p.dinner| && |r.snacks| == |p.snacks|
  {
    if p.Total() <= target then p
    else
      var (snacks, cut1) := Reduce(p.snacks, p.Total() - target);
      var (dinner, cut2) := Reduce(p.dinner, Max(0.0, cut1));
      var (lunch, cut3) := Reduce(p.lunch, Max(0.0, cut2));
      var (breakfast, _) := Reduce(p.breakfast, Max(0.0, cut3));
      PlanItems(breakfast, lunch, dinner, snacks)
  }

  /** A list the clamp leaves: same length, names and portions, no item raised, no item pushed below 0. */
  ghost predicate Lowered(before: seq<MealItem>, after: seq<MealItem>)
  {
    && |after| == |before|
    && forall j :: 0 <= j < |before| ==>
         && after[j].name == before[j].name && after[j].portion == before[j].portion
         && after[j].calories <= before[j].calories
         && (before[j].calories >= 0.0 ==> after[j].calories >= 0.0)
  }

  /** Clamping never raises an item's calories and never takes an item below 0. */
  lemma ClampOnlyLowers(p: PlanItems, target: real)
    ensures var r := Clamp(p, target);
      && Lowered(p.breakfast, r.breakfast) && Lowered(p.lunch, r.lunch)
      && Lowered(p.dinner, r.dinner) && Lowered(p.snacks, r.snacks)
  {
    if p.Total() > target {
      var (snacks, cut1) := Reduce(p.snacks, p.Total() - target);
      var (dinner, cut2) := Reduce(p.dinner, Max(0.0, cut1));
      var (lunch, cut3) := Reduce(p.lunch, Max(0.0, cut2));
      ReduceFromShape(p.snacks, |p.snacks|, p.Total() - target);
      ReduceFromShape(p.dinner, |p.dinner|, Max(0.0, cut1));
      ReduceFromShape(p.lunch, |p.lunch|, Max(0.0, cut2));
      ReduceFromShape(p.breakfast, |p.breakfast|, Max(0.0, cut3));
    }
  }

  /** Every item of every list has whole, non-negative calories. */
  predicate WholePlan(p: PlanItems)
  {
    && AllWhole(p.breakfast) && AllWhole(p.lunch) && AllWhole(p.dinner) && AllWhole(p.snacks)
    && (forall j :: 0 <= j < |p.breakfast| ==> p.breakfast[j].calories >= 0.0)
    && (forall j :: 0 <= j < |p.lunch| ==> p.lunch[j].calories >= 0.0)
    && (forall j :: 0 <= j < |p.dinner| ==> p.dinner[j].calories >= 0.0)
    && (forall j :: 0 <= j < |p.snacks| ==> p.snacks[j].calories >= 0.0)
  }

  /** One list's reduction: whole data stays whole, the sum drops by what the cut drops, and the cut does not grow. */
  lemma ReduceStep(s: seq<MealItem>, cut: real, t: seq<MealItem>, rest: real)
    requires AllWhole(s) && IsWhole(cut) && cut >= 0.0 && (t, rest) == Reduce(s, cut)
    ensures AllWhole(t) && IsWhole(rest) && 0.0 <= rest <= cut
    ensures Calories(s) - Calories(t) == cut - rest
    ensures rest > 1.0 ==> Calories(t) <= 0.0
  {
    ReduceFromExact(s, |s|, cut);
    ReduceFromCut(s, |s|, cut);
    if rest > 1.0 {
      CaloriesOfEmptied(t);
    }
  }

  /**
   * For whole, non-negative calories and a whole, non-negative target, a plan
   * over the target is clamped to a total between the target and 1 kcal above it.
   */
  lemma ClampLandsOnTarget(p: PlanItems, target: real)
    requires WholePlan(p) && IsWhole(target) && target >= 0.0 && p.Total() > target
    ensures target <= Clamp(p, target).Total() <= target + 1.0
  {
    CaloriesWhole(p.breakfast + p.lunch + p.dinner + p.snacks);
    var cut0 := p.Total() - target;
    WholeDifference(p.Total(), target);
    var (snacks, cut1) := Reduce(p.snacks, cut0);
    ReduceStep(p.snacks, cut0, snacks, cut1);
    var (dinner, cut2) := Reduce(p.dinner, cut1);
    ReduceStep(p.dinner, cut1, dinner, cut2);
    var (lunch, cut3) := Reduce(p.lunch, cut2);
    ReduceStep(p.lunch, cut2, lunch, cut3);
    var (breakfast, cut4) := Reduce(p.breakfast, cut3);
    ReduceStep(p.breakfast, cut3, breakfast, cut4);
    var r := PlanItems(breakfast, lunch, dinner, snacks);
    assert Clamp(p, target) == r;
    TotalSplits(p);
    TotalSplits(r);
    assert r.Total() == target + cut4;
  }

  /** A plan as the server returns it: four arrays of items and the total. */
  datatype PlanOut = PlanOut(breakfast: array<MealItem>, lunch: array<MealItem>, dinner: array<MealItem>,
                             snacks: array<MealItem>, totalCalories: real)
  {
    /** The four lists are four different arrays. */
    predicate Separate()
    {
      breakfast != lunch && breakfast != dinner && breakfast != snacks
      && lunch != dinner && lunch != snacks && dinner != snacks
    }

    function Contents(): PlanItems
      reads breakfast, lunch, dinner, snacks
    {
      PlanItems(breakfast[..], lunch[..], dinner[..], snacks[..])
    }
  }

  /**
   * clampPlanToTarget: reduces the plan's arrays in place to the clamped
   * contents and returns the plan with the total of what is left.
   */
  method ClampPlanToTarget(plan: PlanOut, target: real) returns (r: PlanOut)
    requires plan.Separate()
    modifies plan.breakfast, plan.lunch, plan.dinner, plan.snacks
    ensures plan.Contents() == Clamp(old(plan.Contents()), target)
    ensures r == plan.(totalCalories := plan.Contents().Total())
  {
    var sum := plan.Contents().Total();
    if sum <= target {
      return plan.(totalCalories := sum);
    }
    ghost var before := plan.Contents();
    var remainCut := sum - target;
    remainCut := ReduceArrayCalories(plan.snacks, remainCut);
    remainCut := ReduceArrayCalories(plan.dinner, remainCut);
    remainCut := ReduceArrayCalories(plan.lunch, remainCut);
    remainCut := ReduceArrayCalories(plan.breakfast, remainCut);
    assert plan.Contents() == Clamp(before, target);
    var newTotal := plan.Contents().Total();
    r := plan.(totalCalories := newTotal);
  }

  /** samplePlan's lists, the fallback plan served when the model fails. */
  function SamplePlanItems(): PlanItems
  {
    PlanItems(
      [MealItem("ไข่ต้ม", "2 ฟอง", 140.0, 12.0, 1.0, 9.0),
       MealItem("ข้าวกล้อง", "1 ถ้วย", 220.0, 5.0, 45.0, 2.0)],
      [MealItem("ข้าวผัดไก่ (เล็ก)", "1 จาน", 450.0, 20.0, 60.0, 12.0)],
      [MealItem("แกงจืดเต้าหู้หมูสับ", "1 ถ้วย", 180.0, 15.0, 6.0, 8.0)],
      [MealItem("กล้วยหอม", "1 ผล", 100.0, 1.0, 27.0, 0.0)])
  }

  /** The total samplePlan declares. */
  const SampleDeclaredTotal: real := 1090.0

  /** The declared total of the sample plan is the sum of its items. */
  lemma SamplePlanTotalIsConsistent()
    ensures SamplePlanItems().Total() == SampleDeclaredTotal
  {
    var p := SamplePlanItems();
    TotalSplits(p);
    assert p.breakfast[..1] == [p.breakfast[0]] && [p.breakfast[0]][..0] == [];
    assert Calories(p.breakfast) == 360.0;
    assert p.lunch[..0] == [] && p.dinner[..0] == [] && p.snacks[..0] == [];
  }
}
