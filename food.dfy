/** From a calorie allotment and a food's energy density to serving
    amounts (cans, grams, cups), and the split of the daily calories over
    one or two foods. */
module Food {
  import opened Types

  /** Standard weight of a cup of dry food, in grams. */
  const GramsPerCupDryFood: real := 120.0

  /** Standard weight of a can of wet food, in grams, used for display. */
  const GramsPerCan: real := 85.0

  /** The (food type, density kind) pairs the calculator converts: wet food
      by the can or by the kilogram, dry food by the cup or by the kilogram. */
  predicate Handled(food: FoodInput)
  {
    match (food.foodType, food.energyDensity.kind)
    case (Wet, KcalPerCan) => true
    case (Wet, KcalPerKg) => true
    case (Dry, KcalPerCup) => true
    case (Dry, KcalPerKg) => true
    case _ => false
  }

  /** Every handled pair divides by the density, so it must not be zero. */
  predicate Convertible(food: FoodInput)
  {
    Handled(food) ==> food.energyDensity.value != 0.0
  }

  /** The record starts with the food's name, type and calories and no
      amount, then gets the fields of its (type, kind) pair filled in; for
      dry food by the cup the grams are derived from the cups already set,
      and the two unhandled pairs keep the empty amount. Each amount, read
      back through the density (and the can or cup weight), gives the
      calories again. */
  function CalculateFoodAmount(food: FoodInput, caloriesNeeded: real): (r: FoodAmount)
    requires Convertible(food)
    ensures r.foodName == food.name && r.foodType == food.foodType && r.calories == caloriesNeeded
    ensures r.amount == NoAmount <==> !Handled(food)
    ensures var a, v := r.amount, food.energyDensity.value;
      match (food.foodType, food.energyDensity.kind)
      case (Wet, KcalPerCan) =>
        a.cans.Some? && a.grams.None? && a.cups.None? &&
        a.cans.value * v == caloriesNeeded
      case (Wet, KcalPerKg) =>
        a.cans.Some? && a.grams.Some? && a.cups.None? &&
        a.grams.value * v == caloriesNeeded * 1000.0 && a.cans.value * GramsPerCan == a.grams.value
      case (Dry, KcalPerCup) =>
        a.cans.None? && a.grams.Some? && a.cups.Some? &&
        a.cups.value * v == caloriesNeeded && a.grams.value == a.cups.value * GramsPerCupDryFood
      case (Dry, KcalPerKg) =>
        a.cans.None? && a.grams.Some? && a.cups.Some? &&
        a.grams.value * v == caloriesNeeded * 1000.0 && a.cups.value * GramsPerCupDryFood == a.grams.value
      case _ => a == NoAmount
  {
    var amount := FoodAmount(food.name, food.foodType, caloriesNeeded, NoAmount);
    var density := food.energyDensity;
    if food.foodType == Wet then
      if density.kind == KcalPerCan then
        amount.(amount := amount.amount.(cans := Some(caloriesNeeded / density.value)))
      else if density.kind == KcalPerKg then
        var gramsNeeded := caloriesNeeded / density.value * 1000.0;
        var withCans := amount.(amount := amount.amount.(cans := Some(gramsNeeded / GramsPerCan)));
        withCans.(amount := withCans.amount.(grams := Some(gramsNeeded)))
      else
        amount
    else
      if density.kind == KcalPerCup then
        var withCups := amount.(amount := amount.amount.(cups := Some(caloriesNeeded / density.value)));
        withCups.(amount := withCups.amount.(grams := Some(withCups.amount.cups.value * GramsPerCupDryFood)))
      else if density.kind == KcalPerKg then
        var withGrams := amount.(amount := amount.amount.(grams := Some(caloriesNeeded / density.value * 1000.0)));
        withGrams.(amount := withGrams.amount.(cups := Some(withGrams.amount.grams.value / GramsPerCupDryFood)))
      else
        amount
  }

  /** The calories of a list of allotments added up. */
  function TotalCalories(amounts: seq<FoodAmount>): real
  {
    if amounts == [] then 0.0 else amounts[0].calories + TotalCalories(amounts[1..])
  }

  /** No food: nothing. One food: all of the total. Otherwise the first two
      foods only, the first getting splitPercent percent of the total and
      the second the remainder. */
  function CalculateFoodAmounts(foods: seq<FoodInput>, totalCalories: real, splitPercent: real := 50.0): (r: seq<FoodAmount>)
    requires forall i :: 0 <= i < |foods| && i < 2 ==> Convertible(foods[i])
    ensures |r| == if |foods| < 2 then |foods| else 2
    ensures forall i :: 0 <= i < |r| ==> r[i] == CalculateFoodAmount(foods[i], r[i].calories)
    ensures |foods| == 1 ==> r[0].calories == totalCalories
    ensures |foods| >= 2 ==> r[0].calories * 100.0 == totalCalories * splitPercent
    ensures |foods| >= 1 ==> TotalCalories(r) == totalCalories
  {
    if |foods| == 0 then
      []
    else if |foods| == 1 then
      [CalculateFoodAmount(foods[0], totalCalories)]
    else
      var food1Calories := totalCalories * splitPercent / 100.0;
      var food2Calories := totalCalories - food1Calories;
      var r := [CalculateFoodAmount(foods[0], food1Calories), CalculateFoodAmount(foods[1], food2Calories)];
      TotalOfPair(r);
      r
  }

  lemma TotalOfPair(r: seq<FoodAmount>)
    requires |r| == 2
    ensures TotalCalories(r) == r[0].calories + r[1].calories
  {
    var rest := r[1..];
    assert rest[0] == r[1] && rest[1..] == [];
    assert TotalCalories(rest) == r[1].calories + TotalCalories(rest[1..]);
  }

  /** Multiplying both sides of x <= y by a non-negative c keeps the order. */
  lemma Scale(c: real, x: real, y: real, cx: real, cy: real)
    requires c >= 0.0 && x <= y && cx == c * x && cy == c * y
    ensures cx <= cy
  {
    assert cy - cx == c * (y - x);
  }

  /** The two shares move in opposite directions as the split grows, and
      the first food's allotment does not depend on the second food. */
  lemma SplitShares(foods: seq<FoodInput>, total: real, p: real, q: real, other: FoodInput)
    requires |foods| >= 2 && Convertible(foods[0]) && Convertible(foods[1]) && Convertible(other)
    requires total >= 0.0 && p <= q
    ensures CalculateFoodAmounts(foods, total, p)[0].calories <= CalculateFoodAmounts(foods, total, q)[0].calories
    ensures CalculateFoodAmounts(foods, total, p)[1].calories >= CalculateFoodAmounts(foods, total, q)[1].calories
    ensures CalculateFoodAmounts(foods[1 := other], total, p)[0] == CalculateFoodAmounts(foods, total, p)[0]
  {
    var a, b := CalculateFoodAmounts(foods, total, p), CalculateFoodAmounts(foods, total, q);
    Scale(total, p, q, a[0].calories * 100.0, b[0].calories * 100.0);
    TotalOfPair(a);
    TotalOfPair(b);
  }

  /** At split 0 the second food gets everything; at split 100 the first. */
  lemma SplitExtremes(foods: seq<FoodInput>, total: real)
    requires |foods| >= 2 && Convertible(foods[0]) && Convertible(foods[1])
    ensures CalculateFoodAmounts(foods, total, 0.0)[0].calories == 0.0
    ensures CalculateFoodAmounts(foods, total, 0.0)[1].calories == total
    ensures CalculateFoodAmounts(foods, total, 100.0)[0].calories == total
    ensures CalculateFoodAmounts(foods, total, 100.0)[1].calories == 0.0
  {
  }

  /** 300 kcal of a dry food with 400 kcal per cup is 0.75 cups, 90 g. */
  lemma DryByCupExample()
    ensures CalculateFoodAmount(FoodInput("Dry", Dry, FoodDensity(KcalPerCup, 400.0)), 300.0).amount
      == Amount(None, Some(90.0), Some(0.75))
  {
  }

  /** 240 kcal of a wet food with 1200 kcal per kilogram is 200 g, that is
      200 / 85 cans. */
  lemma WetByKgExample()
    ensures CalculateFoodAmount(FoodInput("Wet", Wet, FoodDensity(KcalPerKg, 1200.0)), 240.0).amount
      == Amount(Some(200.0 / 85.0), Some(200.0), None)
  {
  }

  /** 500 kcal split 70 / 30 over two foods is 350 kcal and 150 kcal. */
  lemma TwoFoodSplitExample(foods: seq<FoodInput>)
    requires |foods| == 2 && Convertible(foods[0]) && Convertible(foods[1])
    ensures var r := CalculateFoodAmounts(foods, 500.0, 70.0);
      r[0].calories == 350.0 && r[1].calories == 150.0
  {
  }
}
