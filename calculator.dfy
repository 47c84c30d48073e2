/** The calculation behind the page: validate the cat and food inputs
    (first failing check wins), then resolve the weight, estimate the RER,
    select the multiplier, multiply, and split the daily calories over the
    foods. */
module Calculator {
  import opened Types
  import RerEstimator
  import Energy
  import Food

  /** The five validation checks, in the order they run, each with its
      fixed message and its failure condition. */
  datatype Check = WeightCheck | AgeCheck | IdealWeightCheck | NameCheck | DensityCheck
  {
    function Message(): string
    {
      match this
      case WeightCheck => "Cat weight must be greater than 0"
      case AgeCheck => "Cat age must be greater than 0"
      case IdealWeightCheck => "Ideal weight is required for overweight or underweight cats"
      case NameCheck => "All foods must have a name"
      case DensityCheck => "All foods must have energy density greater than 0"
    }

    predicate Fails(cat: CatInput, foods: seq<FoodInput>)
    {
      match this
      case WeightCheck => cat.weight <= 0.0
      case AgeCheck => cat.age <= 0.0
      case IdealWeightCheck => NeedsIdealWeight(cat) && !Energy.HasIdealWeight(cat)
      case NameCheck => exists i :: 0 <= i < |foods| && foods[i].name == ""
      case DensityCheck => exists i :: 0 <= i < |foods| && foods[i].energyDensity.value <= 0.0
    }
  }

  const Checks: seq<Check> := [WeightCheck, AgeCheck, IdealWeightCheck, NameCheck, DensityCheck]

  /** What the page receives: a result with an empty error, or no result
      with a message. */
  datatype Evaluation = Evaluation(result: Option<CalculationResult>, error: string)

  /** The ideal weight is demanded of overweight and underweight cats. */
  predicate NeedsIdealWeight(cat: CatInput)
  {
    cat.weightStatus == Overweight || cat.weightStatus == Underweight
  }

  /** The inputs the calculation accepts, stated as one condition. */
  predicate ValidInputs(cat: CatInput, foods: seq<FoodInput>)
  {
    && cat.weight > 0.0
    && cat.age > 0.0
    && (NeedsIdealWeight(cat) ==> Energy.HasIdealWeight(cat))
    && forall i :: 0 <= i < |foods| ==> foods[i].name != "" && foods[i].energyDensity.value > 0.0
  }

  /** The validation cascade: the first check that fails, if any. An empty
      name is the only falsy string, and an ideal weight is falsy when it is
      absent or 0. */
  function FirstFailure(cat: CatInput, foods: seq<FoodInput>): (c: Option<Check>)
    ensures c.None? <==> ValidInputs(cat, foods)
    ensures c.Some? ==> c.value.Fails(cat, foods)
  {
    if cat.weight <= 0.0 then Some(WeightCheck)
    else if cat.age <= 0.0 then Some(AgeCheck)
    else if NeedsIdealWeight(cat) && !Energy.HasIdealWeight(cat) then Some(IdealWeightCheck)
    else if exists i :: 0 <= i < |foods| && foods[i].name == "" then Some(NameCheck)
    else if exists i :: 0 <= i < |foods| && foods[i].energyDensity.value <= 0.0 then Some(DensityCheck)
    else None
  }

  /** The composition run once the inputs are valid: weight resolver, RER,
      multiplier, their product, and the calorie split. The RER stays within
      the table's [39, 433], the daily calories within [39 * 0.8, 433 * 2.5],
      and with at least one food the allotments add up to the daily
      calories. */
  function Calculate(cat: CatInput, foods: seq<FoodInput>, splitPercent: real): (r: CalculationResult)
    requires forall i :: 0 <= i < |foods| && i < 2 ==> Food.Convertible(foods[i])
    ensures r.dailyCalories == r.multiplier * r.rer
    ensures 39.0 <= r.rer <= 433.0 && 0.8 <= r.multiplier <= 2.5 && 31.2 <= r.dailyCalories <= 1082.5
    ensures |r.foodAmounts| == (if |foods| < 2 then |foods| else 2)
    ensures |foods| >= 1 ==> Food.TotalCalories(r.foodAmounts) == r.dailyCalories
  {
    var weightKg := Energy.WeightForRer(cat);
    var rer := RerEstimator.RerOf(weightKg);
    var m := Energy.EnergyMultiplier(cat);
    var dailyCalories := rer * m.multiplier;
    var foodAmounts := Food.CalculateFoodAmounts(foods, dailyCalories, splitPercent);
    DailyCaloriesBounds(rer, m.multiplier, weightKg);
    CalculationResult(rer, m.multiplier, m.reason, dailyCalories, foodAmounts)
  }

  lemma DailyCaloriesBounds(rer: real, m: real, weightKg: real)
    requires rer == RerEstimator.RerOf(weightKg)
    requires 0.8 <= m <= 2.5
    ensures 39.0 <= rer <= 433.0 && 31.2 <= rer * m <= 1082.5
  {
    RerEstimator.RerBounds(weightKg);
    assert 39.0 * m <= rer * m <= 433.0 * m;
  }

  /** Every failure carries its check's message and no result; success
      carries the result and an empty error. */
  function Evaluate(cat: CatInput, foods: seq<FoodInput>, splitPercent: real): (e: Evaluation)
    ensures e.result.Some? <==> ValidInputs(cat, foods)
    ensures e.result.None? <==> e.error != ""
    ensures e.result.None? ==> FirstFailure(cat, foods).Some? && e.error == FirstFailure(cat, foods).value.Message()
  {
    match FirstFailure(cat, foods)
    case Some(check) => Evaluation(None, check.Message())
    case None => Evaluation(Some(Calculate(cat, foods, splitPercent)), "")
  }

  /** The five messages are pairwise different, so a message names its
      check. */
  lemma MessagesDistinct(a: Check, b: Check)
    ensures a.Message() == b.Message() <==> a == b
  {
    if a != b {
      MessageLength(a);
      MessageLength(b);
    }
  }

  /** The messages have five different lengths. */
  lemma MessageLength(c: Check)
    ensures |c.Message()| == match c
      case WeightCheck => 33
      case AgeCheck => 30
      case IdealWeightCheck => 59
      case NameCheck => 26
      case DensityCheck => 49
  {
  }

  /** Check k is the one reported exactly when it fails and every earlier
      check passes: the first failure wins, whatever the later checks would
      say. */
  lemma FirstFailureWins(cat: CatInput, foods: seq<FoodInput>, k: nat)
    requires k < |Checks|
    ensures FirstFailure(cat, foods) == Some(Checks[k])
        <==> Checks[k].Fails(cat, foods) && forall j :: 0 <= j < k ==> !Checks[j].Fails(cat, foods)
  {
    assert Checks[0] == WeightCheck && Checks[1] == AgeCheck && Checks[2] == IdealWeightCheck;
    assert Checks[3] == NameCheck && Checks[4] == DensityCheck;
  }

  /** The error the page shows is the message of the first failing check. */
  lemma ErrorNamesFirstFailure(cat: CatInput, foods: seq<FoodInput>, splitPercent: real, c: Check)
    ensures Evaluate(cat, foods, splitPercent).error == c.Message() <==> FirstFailure(cat, foods) == Some(c)
  {
    match FirstFailure(cat, foods)
    case Some(d) => MessagesDistinct(c, d);
    case None =>
  }

  /** An overweight or underweight cat without an ideal weight, or with an
      ideal weight of 0, is refused once weight and age are positive. */
  lemma IdealWeightRequired(cat: CatInput, foods: seq<FoodInput>, splitPercent: real)
    requires cat.weight > 0.0 && cat.age > 0.0 && NeedsIdealWeight(cat)
    requires cat.idealWeight == None || cat.idealWeight == Some(0.0)
    ensures Evaluate(cat, foods, splitPercent) == Evaluation(None, IdealWeightCheck.Message())
  {
  }

  /** A food without a name is reported even when some density is also not
      positive. */
  lemma NameCheckedBeforeDensity(cat: CatInput, foods: seq<FoodInput>, splitPercent: real, i: nat)
    requires cat.weight > 0.0 && cat.age > 0.0 && (NeedsIdealWeight(cat) ==> Energy.HasIdealWeight(cat))
    requires i < |foods| && foods[i].name == ""
    ensures Evaluate(cat, foods, splitPercent) == Evaluation(None, NameCheck.Message())
  {
  }

  /** On valid inputs the result is the composition weight resolver, RER,
      multiplier, product and calorie split. */
  lemma SuccessComposes(cat: CatInput, foods: seq<FoodInput>, splitPercent: real)
    requires ValidInputs(cat, foods)
    ensures var e := Evaluate(cat, foods, splitPercent);
      var m := Energy.EnergyMultiplier(cat);
      e.error == "" && e.result.Some? &&
      e.result.value.rer == RerEstimator.RerOf(Energy.WeightForRer(cat)) &&
      e.result.value.multiplier == m.multiplier &&
      e.result.value.multiplierReason == m.reason &&
      e.result.value.dailyCalories == e.result.value.rer * e.result.value.multiplier &&
      e.result.value.foodAmounts == Food.CalculateFoodAmounts(foods, e.result.value.dailyCalories, splitPercent)
  {
  }

  /** On valid inputs with at least one food, the allotments (one per food,
      at most two, in input order) add up to the daily calories. */
  lemma SuccessCaloriesAddUp(cat: CatInput, foods: seq<FoodInput>, splitPercent: real)
    requires ValidInputs(cat, foods) && |foods| >= 1
    ensures var r := Evaluate(cat, foods, splitPercent).result.value;
      |r.foodAmounts| == (if |foods| == 1 then 1 else 2) &&
      (forall i :: 0 <= i < |r.foodAmounts| ==> r.foodAmounts[i].foodName == foods[i].name) &&
      Food.TotalCalories(r.foodAmounts) == r.dailyCalories
  {
  }

  /** An adult overweight cat is fed at 0.8 times the RER of its ideal
      weight: its current weight does not matter. */
  lemma WeightLossIgnoresCurrentWeight(cat: CatInput, foods: seq<FoodInput>, splitPercent: real, w: real)
    requires ValidInputs(cat, foods) && cat.weightStatus == Overweight
    requires Energy.AgeInMonths(cat) >= 12.0 && w > 0.0
    ensures var r := Evaluate(cat, foods, splitPercent).result.value;
      r.multiplier == 0.8 &&
      r.rer == RerEstimator.RerOf(
        if cat.idealWeightUnit == Some(Lbs) then RerEstimator.LbsToKg(cat.idealWeight.value) else cat.idealWeight.value) &&
      Evaluate(cat.(weight := w), foods, splitPercent) == Evaluate(cat, foods, splitPercent)
  {
    var other := cat.(weight := w);
    assert ValidInputs(other, foods);
    assert Energy.WeightForRer(other) == Energy.WeightForRer(cat);
    assert Energy.EnergyMultiplier(other) == Energy.EnergyMultiplier(cat);
    SameInputsSameResult(other, cat, foods, splitPercent);
  }

  /** The calculation reads the cat only through the weight resolver and
      the multiplier: two cats that agree on both get the same result. */
  lemma SameInputsSameResult(a: CatInput, b: CatInput, foods: seq<FoodInput>, splitPercent: real)
    requires ValidInputs(a, foods) && ValidInputs(b, foods)
    requires Energy.WeightForRer(a) == Energy.WeightForRer(b)
    requires Energy.EnergyMultiplier(a) == Energy.EnergyMultiplier(b)
    ensures Evaluate(a, foods, splitPercent) == Evaluate(b, foods, splitPercent)
  {
    var rer := RerEstimator.RerOf(Energy.WeightForRer(a));
    assert rer == RerEstimator.RerOf(Energy.WeightForRer(b));
    assert Calculate(a, foods, splitPercent) == Calculate(b, foods, splitPercent);
  }

  /** An underweight cat is fed for its current weight: its ideal weight
      only has to be present, its value does not matter. */
  lemma WeightGainIgnoresIdealWeight(cat: CatInput, foods: seq<FoodInput>, splitPercent: real, ideal: real)
    requires ValidInputs(cat, foods) && cat.weightStatus == Underweight && ideal != 0.0
    ensures Evaluate(cat.(idealWeight := Some(ideal)), foods, splitPercent) == Evaluate(cat, foods, splitPercent)
  {
    var other := cat.(idealWeight := Some(ideal));
    assert ValidInputs(other, foods);
    assert Energy.WeightForRer(other) == Energy.WeightForRer(cat);
    assert Energy.EnergyMultiplier(other) == Energy.EnergyMultiplier(cat);
    SameInputsSameResult(other, cat, foods, splitPercent);
  }

  /** The page's initial inputs: a 10 lb, 3-year-old neutered cat at ideal
      weight fed one dry food of 400 kcal per cup. 10 lb is about 4.54 kg,
      between the 4.5 kg and 5.0 kg rows, so the daily calories lie between
      1.2 * 218 and 1.2 * 234. */
  lemma InitialInputs()
    ensures var cat := CatInput(10.0, Lbs, Male, Neutered, 3.0, Years, Ideal, None, None);
      var foods := [FoodInput("Dry Food", Dry, FoodDensity(KcalPerCup, 400.0))];
      var e := Evaluate(cat, foods, 50.0);
      e.error == "" && e.result.Some? &&
      e.result.value.multiplier == 1.2 && e.result.value.multiplierReason == "Neutered adult cat" &&
      261.6 <= e.result.value.dailyCalories <= 280.8 &&
      |e.result.value.foodAmounts| == 1 &&
      e.result.value.foodAmounts[0].calories == e.result.value.dailyCalories
  {
    var cat := CatInput(10.0, Lbs, Male, Neutered, 3.0, Years, Ideal, None, None);
    var foods := [FoodInput("Dry Food", Dry, FoodDensity(KcalPerCup, 400.0))];
    var w := Energy.WeightForRer(cat);
    assert w == RerEstimator.LbsToKg(10.0);
    RerEstimator.TableWellFormed();
    assert RerEstimator.Table[9] == RerEstimator.Row(4.5, 218.0);
    assert RerEstimator.Table[10] == RerEstimator.Row(5.0, 234.0);
    RerEstimator.RerOnBracket(w, 9);
    assert ValidInputs(cat, foods);
    SuccessComposes(cat, foods, 50.0);
  }

  /** A cat weighing 0 is refused before anything is computed. */
  lemma ZeroWeightRefused(cat: CatInput, foods: seq<FoodInput>, splitPercent: real)
    requires cat.weight == 0.0
    ensures Evaluate(cat, foods, splitPercent) == Evaluation(None, WeightCheck.Message())
  {
  }
}
