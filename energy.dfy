/** The energy multiplier applied to the RER (chosen by an ordered rule
    cascade over life stage, weight status and spay/neuter status) and the
    weight, in kilograms, that the RER is computed from. */
module Energy {
  import opened Types
  import RerEstimator

  /** A multiplier and the human-readable reason for it. */
  datatype Multiplier = Multiplier(multiplier: real, reason: string)

  const YoungKitten: Multiplier := Multiplier(2.5, "Kitten (0-4 months)")
  const OlderKitten: Multiplier := Multiplier(2.0, "Kitten (4-12 months)")
  const WeightLoss: Multiplier := Multiplier(0.8, "Weight loss (based on ideal weight)")
  const WeightGain: Multiplier := Multiplier(1.8, "Weight gain (based on ideal weight)")
  const NeuteredAdult: Multiplier := Multiplier(1.2, "Neutered adult cat")
  const IntactAdult: Multiplier := Multiplier(1.4, "Intact adult cat")

  /** The six outcomes of the cascade, in priority order. */
  const Rules: seq<Multiplier> := [YoungKitten, OlderKitten, WeightLoss, WeightGain, NeuteredAdult, IntactAdult]

  function AgeInMonths(cat: CatInput): (months: real)
    ensures cat.ageUnit == Years ==> months / 12.0 == cat.age
    ensures cat.ageUnit == Months ==> months == cat.age
  {
    if cat.ageUnit == Years then cat.age * 12.0 else cat.age
  }

  /** First match wins: the two kitten rules, then weight loss and weight
      gain, then the neutered and intact adult rules. The multiplier lies
      between the weight-loss 0.8 and the young-kitten 2.5. */
  function EnergyMultiplier(cat: CatInput): (m: Multiplier)
    ensures 0.8 <= m.multiplier <= 2.5
  {
    var ageInMonths := AgeInMonths(cat);
    if ageInMonths < 4.0 then YoungKitten
    else if ageInMonths >= 4.0 && ageInMonths < 12.0 then OlderKitten
    else if cat.weightStatus == Overweight then WeightLoss
    else if cat.weightStatus == Underweight then WeightGain
    else if cat.spayNeuterStatus == Neutered then NeuteredAdult
    else IntactAdult
  }

  /** The cascade always ends in one of the six rules. */
  lemma MultiplierIsRule(cat: CatInput)
    ensures EnergyMultiplier(cat) in Rules
  {
  }

  /** The six rules are told apart by either field alone: a reason names
      exactly one multiplier and a multiplier exactly one reason. */
  lemma RulesDistinct()
    ensures forall i, j :: 0 <= i < |Rules| && 0 <= j < |Rules| && i != j ==>
      Rules[i].multiplier != Rules[j].multiplier && Rules[i].reason != Rules[j].reason
  {
  }

  /** Two cats get the same reason exactly when they get the same
      multiplier. */
  lemma ReasonDeterminesMultiplier(a: CatInput, b: CatInput)
    ensures EnergyMultiplier(a).reason == EnergyMultiplier(b).reason
        <==> EnergyMultiplier(a).multiplier == EnergyMultiplier(b).multiplier
  {
    MultiplierIsRule(a);
    MultiplierIsRule(b);
    RulesDistinct();
  }

  /** Under a year old the kitten rules decide, whatever the weight status
      and the spay/neuter status. */
  lemma KittenRulesOverride(cat: CatInput, status: WeightStatus, neuter: SpayNeuterStatus)
    requires AgeInMonths(cat) < 12.0
    ensures var m := EnergyMultiplier(cat.(weightStatus := status, spayNeuterStatus := neuter));
      m == EnergyMultiplier(cat) &&
      (AgeInMonths(cat) < 4.0 ==> m.multiplier == 2.5) &&
      (AgeInMonths(cat) >= 4.0 ==> m.multiplier == 2.0)
  {
  }

  /** The condition under which rule k of Rules applies, stated without
      reference to the order of the cascade: an age band, and for adults
      the weight status and spay/neuter status. */
  predicate Applies(cat: CatInput, k: nat)
  {
    var months := AgeInMonths(cat);
    match k
    case 0 => months < 4.0
    case 1 => 4.0 <= months < 12.0
    case 2 => months >= 12.0 && cat.weightStatus == Overweight
    case 3 => months >= 12.0 && cat.weightStatus == Underweight
    case 4 => months >= 12.0 && cat.weightStatus == Ideal && cat.spayNeuterStatus == Neutered
    case 5 => months >= 12.0 && cat.weightStatus == Ideal && cat.spayNeuterStatus == Intact
    case _ => false
  }

  /** The cascade picks rule k exactly when rule k applies; in particular
      exactly one rule applies to every cat. */
  lemma MultiplierMatchesRule(cat: CatInput, k: nat)
    requires k < |Rules|
    ensures EnergyMultiplier(cat) == Rules[k] <==> Applies(cat, k)
  {
    RulesDistinct();
  }

  /** Gender is never consulted. */
  lemma MultiplierIgnoresGender(cat: CatInput, g: Gender)
    ensures EnergyMultiplier(cat.(gender := g)) == EnergyMultiplier(cat)
  {
  }

  /** JavaScript truthiness of the optional ideal weight: present and not
      zero. */
  predicate HasIdealWeight(cat: CatInput)
  {
    cat.idealWeight.Some? && cat.idealWeight.value != 0.0
  }

  /** The ideal weight is used only for an overweight cat that has one. */
  predicate UsesIdealWeight(cat: CatInput)
  {
    cat.weightStatus == Overweight && HasIdealWeight(cat)
  }

  /** The weight the resolver picks, with its unit; an absent ideal-weight
      unit counts as kilograms. */
  function SelectedWeight(cat: CatInput): (real, WeightUnit)
  {
    if UsesIdealWeight(cat) then
      (cat.idealWeight.value, if cat.idealWeightUnit == Some(Lbs) then Lbs else Kg)
    else
      (cat.weight, cat.weightUnit)
  }

  /** A weight in kilograms expressed in the given unit. */
  function InUnit(kg: real, unit: WeightUnit): real
  {
    if unit == Lbs then RerEstimator.KgToLbs(kg) else kg
  }

  function WeightForRer(cat: CatInput): (weightKg: real)
    ensures InUnit(weightKg, SelectedWeight(cat).1) == SelectedWeight(cat).0
    ensures weightKg > 0.0 <==> SelectedWeight(cat).0 > 0.0
  {
    if cat.weightStatus == Overweight && HasIdealWeight(cat) then
      (if cat.idealWeightUnit == Some(Lbs) then RerEstimator.LbsToKg(cat.idealWeight.value) else cat.idealWeight.value)
    else
      (if cat.weightUnit == Lbs then RerEstimator.LbsToKg(cat.weight) else cat.weight)
  }

  /** Underweight and ideal cats, and overweight cats without a (truthy)
      ideal weight, are fed for their current weight. */
  lemma CurrentWeightUnlessLosing(cat: CatInput)
    requires !UsesIdealWeight(cat)
    ensures InUnit(WeightForRer(cat), cat.weightUnit) == cat.weight
    ensures cat.weightUnit == Kg ==> WeightForRer(cat) == cat.weight
  {
  }

  lemma IdealWeightWhenLosing(cat: CatInput)
    requires cat.weightStatus == Overweight && HasIdealWeight(cat)
    ensures cat.idealWeightUnit == Some(Lbs) ==> RerEstimator.KgToLbs(WeightForRer(cat)) == cat.idealWeight.value
    ensures cat.idealWeightUnit != Some(Lbs) ==> WeightForRer(cat) == cat.idealWeight.value
  {
  }
}
