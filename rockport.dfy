/**
  VO2max_Rockport.py: the Rockport one-mile walk test. VO2max (mL/kg/min)
  is a linear regression on body weight in pounds, age (years), gender
  (woman 0, man 1), the walking time (minutes) and the heart rate at the
  finish (bpm).
*/
module Rockport {

  /** The Rockport regression on a weight already given in pounds. */
  function RockportLine(age: real, weightLbs: real, timeMin: real, hr: real, gender: real): real
  {
    132.853 - (0.0769 * weightLbs) - (0.3877 * age)
      + (6.315 * gender) - (3.2648 * timeMin) - (0.156 * hr)
  }

  /** The weight conversion as the source writes it: kilograms divided by
      2.2. */
  function WeightLbsAsWritten(weightKg: real): real
  {
    weightKg / 2.2
  }

  /** Kilograms to pounds, the conversion the regression needs: 2.2 pounds
      to the kilogram. */
  function KgToLbs(weightKg: real): real
  {
    weightKg * 2.2
  }

  /** Pounds back to kilograms. */
  function LbsToKg(weightLbs: real): real
  {
    weightLbs / 2.2
  }

  /** VO2max_Rockport as written: the regression fed with kg / 2.2. */
  function VO2maxRockport(age: real, weightKg: real, timeMin: real, hr: real, gender: real): real
  {
    RockportLine(age, WeightLbsAsWritten(weightKg), timeMin, hr, gender)
  }

  /** The Rockport test with the weight converted to pounds. */
  function VO2maxRockportCorrected(age: real, weightKg: real, timeMin: real, hr: real, gender: real): real
  {
    RockportLine(age, KgToLbs(weightKg), timeMin, hr, gender)
  }

  /** As written, the "pounds" figure is smaller than the kilograms for
      every positive weight, while a weight in pounds is always the larger
      number: the demonstration subject of 61 kg enters the regression as
      27.7 lb instead of 134.2 lb, and the prediction comes out about 8.19 mL/kg/min too
      high. */
  lemma WeightLbsAsWrittenShrinks(weightKg: real)
    requires weightKg > 0.0
    ensures WeightLbsAsWritten(weightKg) < weightKg < KgToLbs(weightKg)
    ensures WeightLbsAsWritten(61.0) == 610.0 / 22.0 && KgToLbs(61.0) == 134.2
    ensures VO2maxRockport(48.0, 61.0, 20.0, 0.75 * 184.0, 1.0)
         - VO2maxRockportCorrected(48.0, 61.0, 20.0, 0.75 * 184.0, 1.0)
         == 0.0769 * (134.2 - 610.0 / 22.0)
  {
  }

  /** The corrected conversion is undone by the conversion back, both
      ways round. */
  lemma KgToLbsRoundTrip(weightKg: real, weightLbs: real)
    ensures LbsToKg(KgToLbs(weightKg)) == weightKg
    ensures KgToLbs(LbsToKg(weightLbs)) == weightLbs
  {
  }

  /** The as-written model and the corrected one differ only in the weight
      term: the corrected one is the as-written one at 4.84 times the
      weight. */
  lemma VO2maxRockportCorrectedScales(age: real, weightKg: real, timeMin: real, hr: real, gender: real)
    ensures VO2maxRockportCorrected(age, weightKg, timeMin, hr, gender)
         == VO2maxRockport(age, 4.84 * weightKg, timeMin, hr, gender)
    ensures VO2maxRockportCorrected(age, weightKg, timeMin, hr, gender)
         == VO2maxRockport(age, weightKg, timeMin, hr, gender) - 0.0769 * (2.2 - 1.0 / 2.2) * weightKg
  {
  }

  /** The regression's fixed per-unit effects: a man scores 6.315 more
      than a woman with the same readings; each extra minute of walking
      lowers the prediction by 3.2648, each extra bpm by 0.156, each extra
      year by 0.3877 and each extra pound by 0.0769. */
  lemma RockportLineSteps(age: real, weightLbs: real, timeMin: real, hr: real, gender: real)
    ensures RockportLine(age, weightLbs, timeMin, hr, 1.0) - RockportLine(age, weightLbs, timeMin, hr, 0.0) == 6.315
    ensures RockportLine(age, weightLbs, timeMin + 1.0, hr, gender) == RockportLine(age, weightLbs, timeMin, hr, gender) - 3.2648
    ensures RockportLine(age, weightLbs, timeMin, hr + 1.0, gender) == RockportLine(age, weightLbs, timeMin, hr, gender) - 0.156
    ensures RockportLine(age + 1.0, weightLbs, timeMin, hr, gender) == RockportLine(age, weightLbs, timeMin, hr, gender) - 0.3877
    ensures RockportLine(age, weightLbs + 1.0, timeMin, hr, gender) == RockportLine(age, weightLbs, timeMin, hr, gender) - 0.0769
  {
  }

  /** The same effects in the as-written model of VO2max_Rockport; there an
      extra kilogram lowers the prediction by 0.0769 / 2.2, and in the
      corrected one by 0.0769 * 2.2. */
  lemma VO2maxRockportSteps(age: real, weightKg: real, timeMin: real, hr: real, gender: real)
    ensures VO2maxRockport(age, weightKg, timeMin, hr, 1.0) - VO2maxRockport(age, weightKg, timeMin, hr, 0.0) == 6.315
    ensures VO2maxRockport(age, weightKg, timeMin + 1.0, hr, gender) == VO2maxRockport(age, weightKg, timeMin, hr, gender) - 3.2648
    ensures VO2maxRockport(age, weightKg, timeMin, hr + 1.0, gender) == VO2maxRockport(age, weightKg, timeMin, hr, gender) - 0.156
    ensures VO2maxRockport(age + 1.0, weightKg, timeMin, hr, gender) == VO2maxRockport(age, weightKg, timeMin, hr, gender) - 0.3877
    ensures VO2maxRockport(age, weightKg + 1.0, timeMin, hr, gender) == VO2maxRockport(age, weightKg, timeMin, hr, gender) - 0.0769 / 2.2
    ensures VO2maxRockportCorrected(age, weightKg + 1.0, timeMin, hr, gender)
         == VO2maxRockportCorrected(age, weightKg, timeMin, hr, gender) - 0.0769 * 2.2
  {
  }
}
