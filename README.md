# VO2max and calorie formulas, in Dafny

This project models the formula library of the VO2max_Calories repository.
The library estimates maximal oxygen uptake (VO2max), basal metabolic rate,
energy expenditure and heart-rate training zones. The model covers:

- the closed-form formulas of `calories_VO2max.py`;
- its respiratory-exchange-ratio path: the 31-row caloric-equivalent
  table `RER`, its linear interpolation with extrapolation, the
  list-building loop of `cal_VO2_RER` and its caller `cal_RER`;
- the three single-formula fitness tests: the HUNT3 submaximal treadmill
  test (`VO2max_ntnu.py`), the Rockport walk test (`VO2max_Rockport.py`)
  and the Brigham Young jog test (`VO2max_Brigham_Young.py`).

Every Python float is an exact `real`. Each doctest literal is compared
with the exact rational of which the float is the image: for example
`24.142857142857142` is 169/7 and `7.393750000000001` is 7.39375.

Modules, one per source concern:

- `Errors` (errors.dfy): Python's `ZeroDivisionError` and `IndexError` as
  values, a `Result` type, and Python list indexing with negative indices
  (`PyIndex`).
- `Numeric` (numeric.dfy): the two numeric library calls the source
  makes, written out. numpy's degree-1 `polyfit` becomes the closed-form
  least-squares slope and intercept, proved to be the unique solution of
  the normal equations. scipy's `interp1d(..., fill_value='extrapolate')`
  becomes a piecewise-linear interpolation. The query point is located by a
  scan from the front for the first entry at or above it; on a sorted table
  this is numpy's left `searchsorted` insertion point. The index is then
  clipped to the first and last segments.
- `Calories` (calories.dfy): the formula functions of `calories_VO2max.py`.
- `Rer` (rer.dfy): `RER`, `cal_VO2_RER` (an imperative method with a loop
  invariant, proved against the function `Energies`) and `cal_RER`.
- `Ntnu`, `Rockport`, `BrighamYoung`: the three test files.

## Model

| member | source | states |
|---|---|---|
| Calories.CalMinFromMETMeaning | calories_VO2max.py:51-62 | kcal/min is METs times 3.5 mL/kg/min times body mass in litres times 5 kcal/L; it is additive in METs; 8 METs at 65 kg gives 9.1 |
| Calories.CaloriesPerHrFromMETMeaning | calories_VO2max.py:193-207 | 24 hours at 1 MET burn exactly the BMR; the rate scales with METs; the documented BMR 1500 at 8 METs gives 500 kcal/h |
| Calories.VO2WalkingMeaning | calories_VO2max.py:210-238 | gross VO2 is net VO2 plus 3.5; MET_waking is 1 + net/3.5; on level ground net VO2 is 5/3 of the speed; standing still is 1 MET; on a non-negative grade METs rise strictly with speed |
| Calories.VO2BicycleMeaning | calories_VO2max.py:96-137 | the power can be read back from the VO2; zero power costs 7 mL/kg/min; the documented VO2_bicycle(100, 63) is 169/7 |
| Calories.BicycleSpeedsFittable | calories_VO2max.py:87-92 | the fixed speed table has non-zero spread, so both degree-1 fits are defined |
| Calories.METBicycleClosedForm | calories_VO2max.py:87-93 | over the reals the fitted lines are METs = 0.25 speed + 2.2 and watts/kg = (4.4 speed + 38)/weight |
| Calories.METBicycleExample | calories_VO2max.py:76-85 | the documented 25 km/h, 50 kg example burns exactly 7.39375 kcal/min |
| Calories.BMRMifflinStJeor | calories_VO2max.py:177-190 | gender 0 gives the men's Mifflin-St Jeor equation; gender 1 the women's; the two differ by exactly 166; BMR(63, 169, 51, 19, 0) = 1436.25 |
| Calories.BMRKatchMcArdle | calories_VO2max.py:185-186 | the Katch-McArdle branch ignores height, age and gender, and equals 370 + 21.6 times the lean mass (1 - F) W |
| Calories.BMRKatchMcArdleWithPercent | calories_VO2max.py:163-186 | as written, the branch fed the docstring's percentage F = 19 gives a negative rate (-24124.4); read as a percentage it gives 1472.248 |
| Calories.BMRKatchMcArdlePercentSound | calories_VO2max.py:163-186 | with F read as a percentage in 0..100, the corrected formula is never below 370, and it is the source's branch applied to F/100 |
| Calories.EnergyExpenditureKgByGender | calories_VO2max.py:241-311 | gender 1 and gender 0 select the male and female MyZone regressions, with the kJ-to-kcal factor; the documented first value is 7.454238631 |
| Calories.EnergyExpenditureKgRisesWithHeartRate | calories_VO2max.py:241-311 | for any gender in [0, 1] both estimates rise strictly with heart rate |
| Calories.SwainInverse | calories_VO2max.py:314-336 | invert_Swain and Swain undo each other in both orders; Swain rises strictly; Swain(80) = 42.818/0.6463 |
| Calories.VO2maxFromHRMeaning | calories_VO2max.py:339-353 | only the HRmax/HRrest ratio matters; equal rates give 15; the documented (185, 65) is 555/13 |
| Calories.AerobicThresholdFromLactateMeaning | calories_VO2max.py:356-373 | in bpm the aerobic threshold is exactly 30 below the lactate-threshold heart rate; the doctest value 20873/148 (threshold passed in bpm) and the 85 % value 2545/37 |
| Calories.AnabolicThresholdFairLevels | calories_VO2max.py:376-414 | levels 0..3 give 180 - age - 10, +0, +5, +10; age 30 at level 2 gives 155; level 4 raises IndexError; an error happens exactly outside -4..3; a negative level reads from the end of the list |
| Calories.AnabolicThresholdFairIncreasing | calories_VO2max.py:411-414 | over levels 0..3 the threshold is defined and rises strictly with the level |
| Calories.FracHRReserveMeaning | calories_VO2max.py:502 | the reserve fraction is 1 at 100 % HRmax and 0 at the resting rate; it rises strictly with the percentage when HRmax > HRrest and HRmax > 0 |
| Calories.CaloriesKgHRHRrMeaning | calories_VO2max.py:508-569 | per hour the result equals the METs of the reserve fraction of VO2max; at HRmax it is VO2max/210; at the resting rate it is 0 |
| Calories.CaloriesKgHRUsesSwain | calories_VO2max.py:572-595 | the formula is Swain's %VO2max of VO2max at 5 kcal/L; times a body mass it equals Cal_min_from_MET at that VO2's METs; at invert_Swain(p) it gives p % of VO2max back |
| Calories.AnaerobicTrainingInverse | calories_VO2max.py:678-707 | when HRmax differs from HRrest, the zone bound at level L, read back as a reserve fraction, is exactly L/100 |
| Calories.AnaerobicTrainingEnds | calories_VO2max.py:704-707 | for any resting rate, level 100 is HRmax (100 %) and level 0 is the resting rate |
| Calories.AerobicTrainingZone | calories_VO2max.py:690-707 | the aerobic zone is the anaerobic formula at 50 and 75; its lower bound is below its upper bound when HRmax > HRrest and HRmax > 0 |
| Calories.AnaerobicTrainingIncreasing | calories_VO2max.py:704-707 | with HRmax > HRrest and HRmax > 0 the zone bound rises strictly with the level |
| Calories.VO2maxFromVO2HR | calories_VO2max.py:775-788 | error exactly when HR = HRrest <= HRmax, and it is ZeroDivisionError; 0 for HR outside [HRrest, HRmax]; otherwise the result times (HR - HRrest) is VO2exercise times (HRmax - HRrest) |
| Calories.VO2maxFromVO2HRAtMax | calories_VO2max.py:775-788 | at HR = HRmax above a lower resting rate the exercise VO2 is returned unchanged |
| Calories.VO2maxFromMETSExample | calories_VO2max.py:791-809 | VO2max_from_METS(8, 140, 185, 65) is exactly 44.8 |
| Numeric.SumDivideEach | calories_VO2max.py:90 | the sum of a table divided elementwise by d is the table's sum divided by d |
| Numeric.DotDivideEach | calories_VO2max.py:90 | the dot product with a table divided elementwise by d is the dot product divided by d |
| Numeric.OlsNormalEquations | calories_VO2max.py:91-92 | when the x values have non-zero spread, (a, b) makes the residuals sum to zero and be orthogonal to x exactly when a and b are the closed-form least-squares slope and intercept (both directions) |
| Numeric.NormalEquationsBySums | calories_VO2max.py:91-92 | the normal equations on the data are the two sum equations on n, sum x, sum y, sum xx, sum xy |
| Numeric.NormalEquationsAlgebra | calories_VO2max.py:91-92 | for n > 0 and non-zero spread, the two sum equations hold exactly at the closed-form slope and intercept |
| Numeric.ResidualSum | calories_VO2max.py:91-92 | the residuals of the line a x + b sum to sum y - a sum x - n b |
| Numeric.ResidualMomentSum | calories_VO2max.py:91-92 | the x-weighted residuals sum to sum xy - a sum xx - b sum x |
| Numeric.OlsDivideEach | calories_VO2max.py:90-92 | dividing the y table by d keeps the fit defined and divides both slope and intercept by d |
| Numeric.SearchSortedLeft | calories_VO2max.py:465 | the insertion point k has every earlier entry below x, and x at or below entry k |
| Numeric.InterpDownIsInterp | calories_VO2max.py:465 | the downward segment walk used for evaluation agrees with the clipped-searchsorted interpolation |
| Numeric.InterpDownBelow | calories_VO2max.py:465 | at or below the first grid point the downward segment walk ends on the first segment, from any starting segment |
| Numeric.InterpOnSegment | calories_VO2max.py:465 | between two adjacent grid points the interpolation is the straight line through them |
| Numeric.InterpAtGrid | calories_VO2max.py:465 | at a grid point the interpolation returns the tabulated value |
| Numeric.InterpExtrapolateBelow | calories_VO2max.py:465 | at or below the first grid point it continues the first segment |
| Numeric.InterpExtrapolateAbove | calories_VO2max.py:465 | at or above the last grid point it continues the last segment |
| Numeric.InterpWithinRange | calories_VO2max.py:465 | for an increasing value column, inside the grid the result lies between the first and last values |
| Rer.RER | calories_VO2max.py:417-436 | four columns of 31 rows; quotients from 0.707 to 1.0; carbohydrate share from 0 to 100; fat plus carbohydrate is 100 on every row |
| Rer.RERQuotientsIncreasing | calories_VO2max.py:423-424 | the quotient column rises strictly |
| Rer.RERQuotientsArange | calories_VO2max.py:423-424 | after the leading 0.707, row i is 0.71 + 0.01 (i - 1) |
| Rer.RERCaloricIncreasing | calories_VO2max.py:431-435 | the caloric-equivalent column rises strictly |
| Rer.RERCarbohydrateIncreasing | calories_VO2max.py:425-429 | the carbohydrate column rises strictly |
| Rer.CaloricEquivalentIsInterp | calories_VO2max.py:464-465 | at every quotient the evaluation equals the interpolation of the caloric-equivalent column over the quotient column |
| Rer.CaloricEquivalentAtTable | calories_VO2max.py:465 | the interpolator returns the table row on every tabulated quotient |
| Rer.CaloricEquivalentRange | calories_VO2max.py:465 | for quotients in [0.707, 1.0] the equivalent lies in [4.686, 5.047] kcal/L |
| Rer.CaloricEquivalentBelow | calories_VO2max.py:465 | below 0.707 it continues the line through (0.707, 4.686) and (0.71, 4.690) |
| Rer.CaloricEquivalentAbove | calories_VO2max.py:465 | above 1.0 it continues the line through (0.99, 5.035) and (1.0, 5.047) |
| Rer.CalMinKgAtTable | calories_VO2max.py:471-473 | on a tabulated quotient the energy is the VO2 in litres times that row's equivalent |
| Rer.CalMinKgBounds | calories_VO2max.py:471-473 | for a non-negative VO2 and a quotient in the table's range the energy lies between 4.686 and 5.047 kcal per litre of oxygen |
| Rer.EnergiesElementwise | calories_VO2max.py:471-473 | entry i is VO2 i times 1e-3 times the interpolated equivalent at quotient i |
| Rer.CalVO2RER | calories_VO2max.py:464-478 | error (IndexError) exactly when there is one VO2 reading and no quotient; one reading gives its energy, the equivalent column, 0 % carbohydrate and 100 % fat (rows 0, not interpolated); otherwise one energy per zipped pair (up to the shorter list) and the whole columns |
| Rer.CalRER | calories_VO2max.py:481-505 | the result is VO2max times the heart-rate-reserve fraction, in litres, times the interpolated equivalent at quotient percentage_HR/100 |
| Rer.CalRERExample | calories_VO2max.py:492-500 | the documented case uses table row 5 (4.739) and gives exactly 10345237/83200000 kcal/kg/min |
| Ntnu.VO2maxSubmaximalByFraction | VO2max_ntnu.py:55-56 | at a heart rate that is the fraction p of the predicted maximum 215.336 - 0.73 age, the result is 35.25 + 1.276 incl + 6.402 speed - 0.196 weight - 27.65 p |
| Ntnu.VO2maxSubmaximalSteps | VO2max_ntnu.py:55 | an extra d of incline adds 1.276 d, of speed adds 6.402 d, of weight subtracts 0.196 d (and the unit steps) |
| Ntnu.VO2maxSubmaximalDecreasingInHR | VO2max_ntnu.py:55-56 | with a positive predicted maximum the result falls strictly as the heart rate rises |
| Ntnu.VO2maxSubmaximalDecreasingInAge | VO2max_ntnu.py:55-56 | with a positive heart rate and positive predicted maxima an older subject gets a strictly lower value |
| Ntnu.VO2maxSubmaximalExample | VO2max_ntnu.py:52 | the documented call is exactly 70.917 - 4025.84/181.026, between 48.67 and 48.68 |
| Rockport.RockportLineSteps | VO2max_Rockport.py:40-41 | man minus woman is 6.315; each extra minute -3.2648, bpm -0.156, year -0.3877, pound -0.0769 |
| Rockport.VO2maxRockportSteps | VO2max_Rockport.py:39-41 | the same effects for the function as written, where an extra kg costs 0.0769/2.2, and in the corrected one 0.0769 times 2.2 |
| Rockport.WeightLbsAsWrittenShrinks | VO2max_Rockport.py:39 | for every positive weight the as-written "pounds" figure is below the kilograms, while the real pound figure is above; the 61 kg subject goes in as 610/22 instead of 134.2 and scores 0.0769 (134.2 - 610/22) too high |
| Rockport.KgToLbsRoundTrip | VO2max_Rockport.py:39 | kilograms to pounds and back is the identity, both ways round |
| Rockport.VO2maxRockportCorrectedScales | VO2max_Rockport.py:39-41 | the corrected test is the as-written one at 4.84 times the weight, and differs from it only by 0.0769 (2.2 - 1/2.2) per kg |
| BrighamYoung.JogLoadSteps | VO2max_Brigham_Young.py:30 | f rises by 0.1636 per kg, 1.438 per minute, 0.1928 per bpm and is 0 on zero inputs |
| BrighamYoung.VO2maxBrighamYoungByGender | VO2max_Brigham_Young.py:31 | woman 100.5 - f; man 108.844 - f; any gender 100.5 + 8.344 gender - f; man minus woman is 8.344 |
| BrighamYoung.VO2maxBrighamYoungDecreasing | VO2max_Brigham_Young.py:30-31 | for any gender the result falls strictly as weight, time or heart rate rise |
| BrighamYoung.VO2maxBrighamYoungExample | VO2max_Brigham_Young.py:30-31 | the 61 kg, 10.8 min, 165.6 bpm man has f = 57.43768 and scores 51.40632 |

## Left out

- Plots, the demo drivers that only feed them (`MyZone_VO2_plot`,
  `energy_expenditure`, `plot_threshold`), the colour palette and every
  `__main__` block: they only produce graphics or printed output.
- IEEE float rounding: all arithmetic is exact over the reals, so the
  model states the rational values of which the doctest floats are images.
- The float-or-list dispatch (`isinstance`) and numpy broadcasting: a
  float argument of `cal_VO2_RER` is modelled as a one-element list, and
  every other formula is modelled on scalars. A Python type error (for
  example a float `level` used as a list index) is not modelled.
- numpy `arange`/`append` in `RER` are replaced by the literal 31-row
  table they produce; `Rer.RERQuotientsArange` relates it to the arange
  formula.
- scipy `interp1d` and numpy `polyfit` are foreign calls; the model uses
  its own interpolation and closed-form least squares over the reals
  (`Numeric`). Their input validation (unsorted or repeated x values) is
  not modelled, since the tables passed are fixed and strictly increasing.
- Division by zero in the plain formulas (`VO2_bicycle` at weight 0,
  `VO2max_from_HR` at HRrest 0, `aerobic_threshold_from_lactate` at
  HRmax 0, the heart-rate-reserve fraction at HRmax = HRrest, the training
  zones at HRmax 0, `VO2max_submaximal` at a zero predicted maximum) is a
  `requires` on those functions rather than a `ZeroDivisionError` result.
  `MET_bicycle` at weight 0 is also excluded by a `requires`: there numpy
  divides the watts array by zero, which yields infinities rather than an
  exception, and the fit carries on with them; the model does not follow
  that path; `VO2max_from_VO2_HR`, where the source itself
  guards the heart rate, models the error as a value.
- The VO2max norm tables in the docstrings: they are prose.
- The BMR docstring says the default branch is the revised
  Harris-Benedict equation, whereas the code computes Mifflin-St Jeor; the
  model follows the code.
- The `anabolic_threshold_Fair` docstring allows levels 0 to 4, but the
  code's list has four entries; the model follows the code
  (`Calories.AnabolicThresholdFairLevels` shows level 4 is an IndexError).
- The `aerobic_threshold_from_lactate` doctest passes the threshold in bpm
  although the parameter is a percentage; the model states both values.
- The Rockport regression constants 3.2648 and 0.156 are modelled as
  written.

## Findings

| source | as written | input that shows it | evidently intended | confidence | as-written member | corrected member |
|---|---|---|---|---|---|---|
| calories_VO2max.py:186 | Katch-McArdle uses `1 - F` while the docstring (line 170) and its example give F as a percentage | W = 63, F = 19 gives 370 + 21.6 (1 - 19) 63 = -24124.4 kcal/day | lean mass (1 - F/100) W, giving 1472.248 | medium, not executed | Calories.BMRKatchMcArdleWithPercent | Calories.BMRKatchMcArdlePercentSound |
| VO2max_Rockport.py:39 | `weight_lbs = weight_kg / 2.2` | 61 kg becomes 27.7 "lb" instead of 134.2 lb, so the prediction is 0.0769 (134.2 - 610/22), about 8.19 mL/kg/min, too high | `weight_kg * 2.2` | high, not executed | Rockport.WeightLbsAsWrittenShrinks | Rockport.VO2maxRockportCorrectedScales |
