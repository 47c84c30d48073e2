# Cat-feeding calculator: a Dafny model of its calculation core

The calculator turns what an owner says about a cat (weight, age, weight
status, spay/neuter status) and about one or two foods (type and energy
density) into a daily calorie target and serving amounts. The model
covers the four pieces that do the arithmetic and the rules:

- `RerEstimator` (`rer.dfy`): the 21-row reference table from kilograms to
  resting energy requirement (RER), the pound/kilogram conversions, and
  the estimator that clamps below 0.5 kg and above 11.4 kg and otherwise
  interpolates linearly on the first pair of rows that brackets the
  weight. The search loop is a method (`ScanTable`, run on the table by
  `CalculateRer`) proved equal to the function `RerOf`, which the rest of
  the model uses. The search is written once over any well-formed table
  (at least two rows, both columns strictly increasing), and its
  properties are proved there and then applied to the table.
- `Energy` (`energy.dfy`): the six-rule multiplier cascade with its
  reasons, and the choice of the weight the RER is computed from.
- `Food` (`food.dfy`): serving amounts per (food type, density kind) pair,
  with 85 g per can and 120 g per cup, and the split of the daily calories
  over the foods.
- `Calculator` (`calculator.dfy`): the validation cascade with its five
  fixed messages, and the composition weight → RER → multiplier → daily
  calories → food split. It returns the page's `{result, error}` pair as
  `Evaluation(result, error)`.
- `Types` (`types.dfy`): the input and result records.

All quantities are `real`, so conversions and the calorie split are exact
identities. JavaScript truthiness is written out: an ideal weight counts
as present when it is set and not 0, and a food name when it is not
empty.

Three behaviours of the code that the model keeps as written:

- Validation only checks that the ideal weight is truthy
  (src/App.tsx:43), so a negative ideal weight passes validation.
- Every food is validated (src/App.tsx:47-53), but only the first two
  are allotted calories (src/utils/food.ts:52-67).
- An ideal-weight unit that was never chosen is read as kilograms
  (src/utils/energy.ts:64), while the form shows the cat's own weight
  unit in that selector when it is unset
  (src/components/CatInputForm.tsx:112). A user weighing in pounds who
  never touches that selector has the ideal weight read as kilograms;
  `IdealWeightWhenLosing` states the kilogram reading.

Between two rows the RER is interpolated linearly: 3.0 kg lies 0.6 of the
way from the 2.7 kg row (149) to the 3.2 kg row (167), so it gives
149 + 0.6 · 18 = 159.8, as `RerBetweenRows` proves.

## Model

| member | source | states |
|---|---|---|
| `RerEstimator.LbsToKg` | src/utils/rer.ts:29-31 | the kilograms times 2.20462 give back the pounds; a positive weight stays positive and gets smaller |
| `RerEstimator.KgToLbs` | src/utils/rer.ts:36-38 | the pounds divided by 2.20462 give back the kilograms; a positive weight gets larger |
| `RerEstimator.LbsKgRoundTrip` | src/utils/rer.ts:29-38 | converting to pounds and back, or to kilograms and back, returns the input exactly |
| `RerEstimator.TableWellFormed` | src/utils/rer.ts:2-24 | the table has 21 rows from (0.5 kg, 39) to (11.4 kg, 433), and both columns increase strictly |
| `RerEstimator.AllRowsOrdered` | src/utils/rer.ts:2-24 | in a strictly increasing table every later row has weight and RER at least as large, and a strictly larger weight |
| `RerEstimator.ScanTable` | src/utils/rer.ts:44-69 | the clamp-and-scan loop returns exactly the estimate `Estimate(t, w)` of the table |
| `RerEstimator.CalculateRer` | src/utils/rer.ts:44-69 | returns `RerOf(w)`; 39 for every weight up to 0.5 kg and 433 from 11.4 kg on |
| `RerEstimator.RerOf` | src/utils/rer.ts:44-69 | the estimator on the table gives 39 for every weight up to 0.5 kg and 433 from 11.4 kg on; what it gives in between is stated by `RerInterpolatesFirstBracket` |
| `RerEstimator.ScanStopsAtFirstBracket` | src/utils/rer.ts:56-65 | the scan from row k returns the interpolation on the first bracketing pair at or after k |
| `RerEstimator.FindBracket` | src/utils/rer.ts:56-65 | strictly inside the table's range some pair of rows brackets the weight, and the first such pair is found |
| `RerEstimator.EstimateInterpolatesFirstBracket` | src/utils/rer.ts:56-68 | strictly inside the range the fallback is never reached: the estimate is the interpolation on the first bracketing pair and lies between its two RER values |
| `RerEstimator.EstimateOnBracket` | src/utils/rer.ts:56-64 | any bracketing pair, including either of two pairs that share an end point, gives the estimate |
| `RerEstimator.EstimateBounds` | src/utils/rer.ts:44-69 | the estimate lies between the first and the last RER of the table |
| `RerEstimator.EstimateMonotonic` | src/utils/rer.ts:44-69 | the estimate never decreases as the weight grows |
| `RerEstimator.RerInterpolatesFirstBracket` | src/utils/rer.ts:56-64 | for 0.5 < w < 11.4 the RER is `lower.rer + (w - lower.kg) / (upper.kg - lower.kg) * (upper.rer - lower.rer)` on the first bracketing pair, between `lower.rer` and `upper.rer` |
| `RerEstimator.RerOnBracket` | src/utils/rer.ts:56-64 | between any two consecutive rows the RER is their interpolation and lies between their RER values |
| `RerEstimator.RerTableHit` | src/utils/rer.ts:3-23 | a weight equal to a row's weight gives that row's RER exactly, also where two brackets meet |
| `RerEstimator.RerBounds` | src/utils/rer.ts:44-69 | the RER is always within [39, 433] |
| `RerEstimator.RerMonotonic` | src/utils/rer.ts:44-69 | the RER is monotonically non-decreasing in the weight |
| `RerEstimator.RerBetweenRows` | src/utils/rer.ts:56-64 | 3.0 kg gives 159.8, 0.6 of the way from 149 to 167 |
| `Energy.AgeInMonths` | src/utils/energy.ts:8 | an age in years is twelve times as many months; an age in months is taken as is |
| `Energy.EnergyMultiplier` | src/utils/energy.ts:7-52 | the multiplier lies between the weight-loss 0.8 and the young-kitten 2.5 |
| `Energy.MultiplierIsRule` | src/utils/energy.ts:7-52 | the result is one of the six (multiplier, reason) rules |
| `Energy.RulesDistinct` | src/utils/energy.ts:11-51 | the six rules differ pairwise in both multiplier and reason |
| `Energy.ReasonDeterminesMultiplier` | src/utils/energy.ts:7-52 | two cats get the same reason exactly when they get the same multiplier |
| `Energy.MultiplierMatchesRule` | src/utils/energy.ts:7-52 | the cascade yields rule k exactly when rule k's condition holds: under 4 months 2.5, 4 to 12 months 2.0, then for adults overweight 0.8, underweight 1.8, ideal and neutered 1.2, ideal and intact 1.4 |
| `Energy.KittenRulesOverride` | src/utils/energy.ts:11-23 | under 12 months the weight status and spay/neuter status do not change the result, which is 2.5 under 4 months and 2.0 from 4 months |
| `Energy.MultiplierIgnoresGender` | src/utils/energy.ts:7-52 | changing the gender never changes the multiplier or the reason |
| `Energy.WeightForRer` | src/utils/energy.ts:58-70 | the result, expressed in the selected weight's unit, is the selected weight (the ideal weight for an overweight cat with a truthy ideal weight, otherwise the current weight); it is positive exactly when the selected weight is |
| `Energy.CurrentWeightUnlessLosing` | src/utils/energy.ts:65-67 | in every other case, underweight included, the current weight is used, converted only when its unit is pounds |
| `Energy.IdealWeightWhenLosing` | src/utils/energy.ts:63-64 | an overweight cat with a truthy ideal weight is computed from that weight, converted only when its unit is pounds; an absent unit counts as kilograms |
| `Food.CalculateFoodAmount` | src/utils/food.ts:9-39 | name, type and calories are copied; wet by can sets only cans, with cans × density = calories; wet by kg sets grams and cans, with grams × density = 1000 × calories and cans × 85 = grams; dry by cup sets cups and grams, with cups × density = calories and grams = 120 × cups; dry by kg sets grams and cups, with grams × density = 1000 × calories and cups × 120 = grams; the amount is empty exactly for wet by cup and dry by can |
| `Food.CalculateFoodAmounts` | src/utils/food.ts:47-68 | no food gives no entry, one food one entry with the whole total, more foods two entries for the first two foods; the first gets split percent of the total; with at least one food the allotments add up exactly to the total |
| `Food.SplitShares` | src/utils/food.ts:61-62 | for a non-negative total, a larger split percent never gives the first food less or the second food more, and replacing the second food does not change the first food's allotment |
| `Food.SplitExtremes` | src/utils/food.ts:61-62 | split 0 gives everything to the second food, split 100 everything to the first |
| `Food.DryByCupExample` | src/utils/food.ts:29-31 | 300 kcal at 400 kcal per cup is 0.75 cups and 90 g |
| `Food.WetByKgExample` | src/utils/food.ts:21-25 | 240 kcal at 1200 kcal per kg is 200 g and 200 / 85 cans |
| `Food.TwoFoodSplitExample` | src/utils/food.ts:61-67 | 500 kcal split 70 percent gives 350 kcal and 150 kcal |
| `Calculator.FirstFailure` | src/App.tsx:35-53 | no check fails exactly when the inputs are valid (positive weight and age, an ideal weight where the status needs one, every food named and with positive density); a reported check does fail |
| `Calculator.FirstFailureWins` | src/App.tsx:35-53 | check k is reported exactly when it fails and all earlier checks pass, in the order weight, age, ideal weight, food names, densities |
| `Calculator.MessagesDistinct` | src/App.tsx:36-52 | the five messages are pairwise different |
| `Calculator.Calculate` | src/App.tsx:55-77 | the multiplier is within [0.8, 2.5]; daily calories = multiplier × RER; the RER is within [39, 433] and the daily calories within [31.2, 1082.5]; at most two allotments, adding up to the daily calories when there is a food |
| `Calculator.Evaluate` | src/App.tsx:32-81 | a result comes back exactly for valid inputs; the error is empty exactly when there is a result; otherwise it is the message of the first failing check |
| `Calculator.ErrorNamesFirstFailure` | src/App.tsx:35-53 | the error equals check c's message exactly when c is the first failing check |
| `Calculator.IdealWeightRequired` | src/App.tsx:43-45 | an overweight or underweight cat whose ideal weight is absent or 0 gets the ideal-weight message, once weight and age are positive |
| `Calculator.NameCheckedBeforeDensity` | src/App.tsx:47-53 | a food with an empty name gives the name message even if a density is also invalid |
| `Calculator.SuccessComposes` | src/App.tsx:55-77 | on valid inputs the error is empty, `rer = RerOf(WeightForRer(cat))`, multiplier and reason come from the selector, daily calories = RER × multiplier, and the allotments are `CalculateFoodAmounts(foods, dailyCalories, splitPercent)` |
| `Calculator.SuccessCaloriesAddUp` | src/App.tsx:66-74 | on valid inputs with a food, the allotments follow the input order of the first one or two foods and add up to the daily calories |
| `Calculator.WeightLossIgnoresCurrentWeight` | src/App.tsx:56-63 | an adult overweight cat gets multiplier 0.8 and the RER of its ideal weight, and its current weight does not change the outcome |
| `Calculator.SameInputsSameResult` | src/App.tsx:56-66 | two valid cats that get the same weight for the RER and the same multiplier get the same outcome |
| `Calculator.WeightGainIgnoresIdealWeight` | src/App.tsx:56-63 | for an underweight cat the value of the (present) ideal weight does not change the outcome |
| `Calculator.InitialInputs` | src/App.tsx:12-30 | the page's initial inputs (10 lb, 3 years, neutered, ideal, one dry food at 400 kcal per cup, split 50) succeed with multiplier 1.2, "Neutered adult cat", daily calories in [261.6, 280.8], and one allotment of all of them |
| `Calculator.ZeroWeightRefused` | src/App.tsx:35-37 | a weight of 0 gives the weight message and no result |

## Left out

- Floating point: every quantity is an exact `real`. IEEE rounding, `NaN` (which passes every `<= 0` check in the code) and infinities are not modelled, so the split's "exact remainder" is a plain identity here.
- `Food.CalculateFoodAmount`: requires a non-zero density for the four converted (type, kind) pairs, because division by zero has no real value; the code would produce an infinite or `NaN` amount. The validation in `Calculator.Evaluate` rules this out for every caller in the program.
- `Food.CalculateFoodAmounts`: requires the same of the first two foods only, the ones it converts.
- `Calculator.Calculate`: requires the same of the first two foods; `Calculator.Evaluate` only calls it after every density has been checked to be positive.
- The in-place assignments to the result's `amount` fields in `calculateFoodAmount` are modelled as successive record updates on a value: the record is local and never shared, so nothing is lost.
- The table's pound column is never read and is not kept.
- The `try`/`catch` fallback message at src/App.tsx:78-80: no modelled operation throws.
- The React components, hooks and rendering (src/App.tsx:83-113, src/components/); the forms' `Number(value) || 0` coercion and list edits, and the results view's formatting and split slider.
