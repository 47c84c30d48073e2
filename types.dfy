/** The records that flow between the cat-feeding calculator's components:
    what the form collects about the cat and its foods, and what the
    calculation hands back. All quantities are exact reals. */
module Types {

  /** An optional field of a record (`field?: T`): absent or present. */
  datatype Option<+T> = None | Some(value: T)

  datatype WeightUnit = Kg | Lbs
  datatype Gender = Male | Female
  datatype SpayNeuterStatus = Intact | Neutered
  datatype WeightStatus = Underweight | Ideal | Overweight
  datatype FoodType = Wet | Dry
  datatype AgeUnit = Months | Years

  /** What the owner says about the cat. The ideal weight and its unit are
      optional fields; gender is recorded but no calculation reads it. */
  datatype CatInput = CatInput(
    weight: real,
    weightUnit: WeightUnit,
    gender: Gender,
    spayNeuterStatus: SpayNeuterStatus,
    age: real,
    ageUnit: AgeUnit,
    weightStatus: WeightStatus,
    idealWeight: Option<real>,
    idealWeightUnit: Option<WeightUnit>)

  /** The unit in which a food's energy density is given. */
  datatype DensityKind = KcalPerCan | KcalPerKg | KcalPerCup

  datatype FoodDensity = FoodDensity(kind: DensityKind, value: real)

  datatype FoodInput = FoodInput(name: string, foodType: FoodType, energyDensity: FoodDensity)

  /** The serving amounts of one food; each field is set or absent. */
  datatype Amount = Amount(cans: Option<real>, grams: Option<real>, cups: Option<real>)

  /** The amount record with no field set. */
  const NoAmount: Amount := Amount(None, None, None)

  /** The calories allotted to one food and what that means in servings. */
  datatype FoodAmount = FoodAmount(foodName: string, foodType: FoodType, calories: real, amount: Amount)

  datatype CalculationResult = CalculationResult(
    rer: real,
    multiplier: real,
    multiplierReason: string,
    dailyCalories: real,
    foodAmounts: seq<FoodAmount>)
}
