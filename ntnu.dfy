/**
  VO2max_ntnu.py: the HUNT3 fitness study's prediction of peak oxygen
  uptake (mL/kg/min) from a submaximal treadmill bout, given the treadmill
  inclination (percent), speed (km/h), body weight (kg), the heart rate
  reached (bpm) and age (years). The heart rate enters as a fraction of the
  age-predicted maximum 215.336 - 0.73 age.
*/
module Ntnu {

  /** The age-predicted maximal heart rate that divides the measured one. */
  function PredictedHRmax(age: real): real
  {
    215.336 - 0.73 * age
  }

  /** VO2max_submaximal. Python raises ZeroDivisionError when the predicted
      maximum is zero, so the model asks for a nonzero one. */
  function VO2maxSubmaximal(incl: real, speed: real, weight: real, hr: real, age: real): real
    requires PredictedHRmax(age) != 0.0
  {
    35.25 + (1.276 * incl) + (6.402 * speed) - (0.196 * weight)
      - (27.65 * hr / PredictedHRmax(age))
  }

  /** The heart rate counts only through its fraction p of the predicted
      maximum: the term is 27.65 p, so exercising at the predicted maximum
      costs exactly 27.65. */
  lemma VO2maxSubmaximalByFraction(incl: real, speed: real, weight: real, hr: real, p: real, age: real)
    requires PredictedHRmax(age) != 0.0 && hr == p * PredictedHRmax(age)
    ensures VO2maxSubmaximal(incl, speed, weight, hr, age)
         == 35.25 + 1.276 * incl + 6.402 * speed - 0.196 * weight - 27.65 * p
  {
    var d := PredictedHRmax(age);
    assert 27.65 * hr == (27.65 * p) * d;
    assert (27.65 * p) * d / d == 27.65 * p;
  }

  /** Inclination, speed and weight enter linearly with fixed coefficients:
      each extra percent of incline adds 1.276, each extra km/h adds 6.402
      and each extra kg subtracts 0.196, whatever the other inputs. */
  lemma VO2maxSubmaximalSteps(incl: real, speed: real, weight: real, hr: real, age: real, d: real)
    requires PredictedHRmax(age) != 0.0
    ensures VO2maxSubmaximal(incl + d, speed, weight, hr, age)
         == VO2maxSubmaximal(incl, speed, weight, hr, age) + 1.276 * d
    ensures VO2maxSubmaximal(incl, speed + d, weight, hr, age)
         == VO2maxSubmaximal(incl, speed, weight, hr, age) + 6.402 * d
    ensures VO2maxSubmaximal(incl, speed, weight + d, hr, age)
         == VO2maxSubmaximal(incl, speed, weight, hr, age) - 0.196 * d
    ensures VO2maxSubmaximal(incl + 1.0, speed, weight, hr, age)
         == VO2maxSubmaximal(incl, speed, weight, hr, age) + 1.276
    ensures VO2maxSubmaximal(incl, speed + 1.0, weight, hr, age)
         == VO2maxSubmaximal(incl, speed, weight, hr, age) + 6.402
    ensures VO2maxSubmaximal(incl, speed, weight + 1.0, hr, age)
         == VO2maxSubmaximal(incl, speed, weight, hr, age) - 0.196
  {
  }

  /** With a positive predicted maximum (any age below about 295 years), a
      higher heart rate for the same work predicts a strictly lower VO2max. */
  lemma VO2maxSubmaximalDecreasingInHR(incl: real, speed: real, weight: real, hr: real, hr2: real, age: real)
    requires PredictedHRmax(age) > 0.0 && hr < hr2
    ensures VO2maxSubmaximal(incl, speed, weight, hr2, age) < VO2maxSubmaximal(incl, speed, weight, hr, age)
  {
    var d := PredictedHRmax(age);
    assert 27.65 * hr2 - 27.65 * hr > 0.0;
    assert 27.65 * hr2 / d - 27.65 * hr / d == (27.65 * hr2 - 27.65 * hr) / d;
  }

  /** For a positive heart rate, an older subject with the same readings
      gets a strictly lower prediction, as long as both predicted maxima are
      positive. */
  lemma VO2maxSubmaximalDecreasingInAge(incl: real, speed: real, weight: real, hr: real, age: real, age2: real)
    requires PredictedHRmax(age2) > 0.0 && age < age2 && hr > 0.0
    ensures VO2maxSubmaximal(incl, speed, weight, hr, age2) < VO2maxSubmaximal(incl, speed, weight, hr, age)
  {
    var d, d2 := PredictedHRmax(age), PredictedHRmax(age2);
    var h := 27.65 * hr;
    assert 0.0 < d2 < d;
    assert h / d < h / d2 by {
      assert h / d * d == h;
      assert h / d2 * d2 == h;
      assert h / d * d2 < h / d * d;
    }
  }

  /** The documented call: level ground at 7.5 km/h, 63 kg, 80 % of a
      182 bpm maximum (145.6 bpm) at age 47. */
  lemma VO2maxSubmaximalExample()
    ensures VO2maxSubmaximal(0.0, 7.5, 63.0, 0.8 * 182.0, 47.0) == 70.917 - 4025.84 / 181.026
    ensures 48.67 < VO2maxSubmaximal(0.0, 7.5, 63.0, 0.8 * 182.0, 47.0) < 48.68
  {
  }
}
