/**
  VO2max_Brigham_Young.py: the Brigham Young University one-mile jog test.
  VO2max (mL/kg/min) falls linearly with body weight (kg), jogging time
  (minutes) and the heart rate at the finish (bpm), from a gender-dependent
  constant (woman 0, man 1).
*/
module BrighamYoung {

  /** The combined load `f` of weight, time and heart rate. */
  function JogLoad(weightKg: real, timeMin: real, hr: real): real
  {
    (0.1636 * weightKg) + (1.438 * timeMin) + (0.1928 * hr)
  }

  /** VO2max_Brigham_Young: the two gender constants blended by the gender
      number. */
  function VO2maxBrighamYoung(weightKg: real, timeMin: real, hr: real, gender: real): real
  {
    var f := JogLoad(weightKg, timeMin, hr);
    (1.0 - gender) * (100.5 - f) + gender * (108.844 - f)
  }

  /** The load rises by 0.1636 per kg, 1.438 per minute and 0.1928 per bpm,
      and is zero on zero inputs. */
  lemma JogLoadSteps(weightKg: real, timeMin: real, hr: real, d: real)
    ensures JogLoad(0.0, 0.0, 0.0) == 0.0
    ensures JogLoad(weightKg + d, timeMin, hr) == JogLoad(weightKg, timeMin, hr) + 0.1636 * d
    ensures JogLoad(weightKg, timeMin + d, hr) == JogLoad(weightKg, timeMin, hr) + 1.438 * d
    ensures JogLoad(weightKg, timeMin, hr + d) == JogLoad(weightKg, timeMin, hr) + 0.1928 * d
  {
  }

  /** A woman (0) scores 100.5 - f and a man (1) 108.844 - f; for any
      gender number the score is 100.5 + 8.344 gender - f, so a man scores
      exactly 8.344 more than a woman with the same readings. */
  lemma VO2maxBrighamYoungByGender(weightKg: real, timeMin: real, hr: real, gender: real)
    ensures VO2maxBrighamYoung(weightKg, timeMin, hr, 0.0) == 100.5 - JogLoad(weightKg, timeMin, hr)
    ensures VO2maxBrighamYoung(weightKg, timeMin, hr, 1.0) == 108.844 - JogLoad(weightKg, timeMin, hr)
    ensures VO2maxBrighamYoung(weightKg, timeMin, hr, gender)
         == 100.5 + 8.344 * gender - JogLoad(weightKg, timeMin, hr)
    ensures VO2maxBrighamYoung(weightKg, timeMin, hr, 1.0) - VO2maxBrighamYoung(weightKg, timeMin, hr, 0.0) == 8.344
  {
    var f := JogLoad(weightKg, timeMin, hr);
    assert (1.0 - gender) * (100.5 - f) + gender * (108.844 - f) == 100.5 + 8.344 * gender - f;
  }

  /** For any gender the score falls strictly as weight, time or heart rate
      rise. */
  lemma VO2maxBrighamYoungDecreasing(weightKg: real, timeMin: real, hr: real, gender: real, d: real)
    requires d > 0.0
    ensures VO2maxBrighamYoung(weightKg + d, timeMin, hr, gender) < VO2maxBrighamYoung(weightKg, timeMin, hr, gender)
    ensures VO2maxBrighamYoung(weightKg, timeMin + d, hr, gender) < VO2maxBrighamYoung(weightKg, timeMin, hr, gender)
    ensures VO2maxBrighamYoung(weightKg, timeMin, hr + d, gender) < VO2maxBrighamYoung(weightKg, timeMin, hr, gender)
  {
    var f := JogLoad(weightKg, timeMin, hr);
    assert JogLoad(weightKg + d, timeMin, hr) == f + 0.1636 * d;
    assert JogLoad(weightKg, timeMin + d, hr) == f + 1.438 * d;
    assert JogLoad(weightKg, timeMin, hr + d) == f + 0.1928 * d;
    BlendFalls(gender, f, JogLoad(weightKg + d, timeMin, hr));
    BlendFalls(gender, f, JogLoad(weightKg, timeMin + d, hr));
    BlendFalls(gender, f, JogLoad(weightKg, timeMin, hr + d));
  }

  /** The gender blend falls strictly as the load rises. */
  lemma BlendFalls(gender: real, f: real, f2: real)
    requires f < f2
    ensures (1.0 - gender) * (100.5 - f2) + gender * (108.844 - f2)
          < (1.0 - gender) * (100.5 - f) + gender * (108.844 - f)
  {
    assert (1.0 - gender) * (100.5 - f2) + gender * (108.844 - f2) == 100.5 + 8.344 * gender - f2;
    assert (1.0 - gender) * (100.5 - f) + gender * (108.844 - f) == 100.5 + 8.344 * gender - f;
  }

  /** The demonstration subject: a man of 61 kg jogging the mile in 10.8
      minutes at 90 % of a 184 bpm maximum (165.6 bpm). */
  lemma VO2maxBrighamYoungExample()
    ensures JogLoad(61.0, 10.8, 0.9 * 184.0) == 57.43768
    ensures VO2maxBrighamYoung(61.0, 10.8, 0.9 * 184.0, 1.0) == 51.40632
  {
  }
}
