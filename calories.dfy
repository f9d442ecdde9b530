/**
  The closed-form formulas of calories_VO2max.py: MET and calorie
  conversions, oxygen cost of walking and cycling, basal metabolic rate,
  the MyZone energy-expenditure regression, the Swain conversion between
  percentages of maximal heart rate and of VO2max, heart-rate-reserve
  training zones and VO2max estimates from heart rate.

  Units follow the source: VO2 in mL O2 per kg per minute, heart rates in
  beats per minute, percentages on a 0..100 scale, 1 MET = 3.5 mL/kg/min,
  and 5 kcal per litre of oxygen (the divisor 200 = 1000 / 5).
  Every Python float becomes an exact real; gender stays the real number
  the source multiplies by (0 or 1 in practice).
*/
module Calories {
  import opened Errors
  import opened Numeric

  // ---------------------------------------------------------------------
  // METs and calories

  /** Cal_min_from_MET: kcal per minute spent at `met` METs by a body of
      `weightKg` kilograms. */
  function CalMinFromMET(met: real, weightKg: real): real
  {
    met * weightKg * 3.5 / 200.0
  }

  /** The conversion reads as: METs to oxygen (3.5 mL/kg/min each), times
      body mass, in litres, times 5 kcal per litre; and it is additive in
      the METs of two activities. */
  lemma CalMinFromMETMeaning(met: real, met2: real, weightKg: real)
    ensures CalMinFromMET(met, weightKg) == (met * 3.5 * weightKg / 1000.0) * 5.0
    ensures CalMinFromMET(met + met2, weightKg)
         == CalMinFromMET(met, weightKg) + CalMinFromMET(met2, weightKg)
    ensures CalMinFromMET(8.0, 65.0) == 9.1
  {
  }

  /** calories_per_hr_from_MET: kcal per hour at `met` METs for a person
      whose basal metabolic rate is `bmr` kcal per day. */
  function CaloriesPerHrFromMET(bmr: real, met: real): real
  {
    bmr * met / 24.0
  }

  /** A day at 1 MET burns exactly the basal rate, and the documented
      example (BMR 1500, 8 METs) gives 500 kcal per hour. */
  lemma CaloriesPerHrFromMETMeaning(bmr: real, met: real)
    ensures 24.0 * CaloriesPerHrFromMET(bmr, 1.0) == bmr
    ensures CaloriesPerHrFromMET(bmr, met) == met * CaloriesPerHrFromMET(bmr, 1.0)
    ensures CaloriesPerHrFromMET(1500.0, 8.0) == 500.0
  {
  }

  // ---------------------------------------------------------------------
  // Walking and cycling

  /** VO2_walking, the ACSM treadmill walking equation: speed in km/h is
      turned into m/min; 0.1 mL/kg/min per m/min horizontally, 1.8 per
      m/min of climb, plus 3.5 at rest. Returns (gross VO2, net VO2). */
  function VO2Walking(speedKmh: real, gradePercent: real): (real, real)
  {
    var rest := 3.5;
    var s := speedKmh * 1e3 / 60.0;
    var horizontal := 0.1 * s;
    var vertical := 1.8 * s * gradePercent / 100.0;
    (horizontal + vertical + rest, horizontal + vertical)
  }

  /** MET_waking (sic): the gross walking VO2 expressed in METs. */
  function METWalking(speedKmh: real, gradePercent: real): real
  {
    VO2Walking(speedKmh, gradePercent).0 / 3.5
  }

  /** Gross VO2 is net VO2 plus one MET of resting uptake; on level ground
      the net cost is 5/3 mL/kg/min per km/h; standing still is 1 MET; and
      walking faster or steeper (on a non-negative grade) costs more. */
  lemma VO2WalkingMeaning(speedKmh: real, gradePercent: real, faster: real)
    ensures VO2Walking(speedKmh, gradePercent).0 == VO2Walking(speedKmh, gradePercent).1 + 3.5
    ensures METWalking(speedKmh, gradePercent) == 1.0 + VO2Walking(speedKmh, gradePercent).1 / 3.5
    ensures VO2Walking(speedKmh, 0.0).1 == speedKmh * 5.0 / 3.0
    ensures METWalking(0.0, gradePercent) == 1.0
    ensures gradePercent >= 0.0 && faster > speedKmh ==>
      METWalking(faster, gradePercent) > METWalking(speedKmh, gradePercent)
  {
    if gradePercent >= 0.0 && faster > speedKmh {
      var k := (0.1 + 1.8 * gradePercent / 100.0) * 1e3 / 60.0;
      assert VO2Walking(faster, gradePercent).1 == k * faster;
      assert VO2Walking(speedKmh, gradePercent).1 == k * speedKmh;
      assert k > 0.0;
      assert k * faster > k * speedKmh;
    }
  }

  /** VO2_bicycle, the ACSM leg-ergometry equation: 10.8 mL/kg/min per watt
      per kg (1.8 per kgm/min, 6 kgm/min per watt) plus 7 for unloaded
      pedalling and rest. */
  function VO2Bicycle(powerWatts: real, weightKg: real): real
    requires weightKg != 0.0
  {
    10.8 * (powerWatts / weightKg) + 7.0
  }

  /** The power can be read back from the VO2; zero power costs the 7
      mL/kg/min of unloaded cycling; the documented example is 169/7. */
  lemma VO2BicycleMeaning(powerWatts: real, weightKg: real)
    requires weightKg != 0.0
    ensures (VO2Bicycle(powerWatts, weightKg) - 7.0) * weightKg / 10.8 == powerWatts
    ensures VO2Bicycle(0.0, weightKg) == 7.0
    ensures VO2Bicycle(100.0, 63.0) == 169.0 / 7.0
  {
    assert (powerWatts / weightKg) * weightKg == powerWatts;
  }

  /** The cycling table of MET_bicycle: speeds in km/h ... */
  const BicycleSpeedsKmh: seq<real> := [10.0, 15.0, 20.0, 25.0, 30.0]
  /** ... the METs at those speeds ... */
  const BicycleMETs: seq<real> := [4.8, 5.9, 7.1, 8.4, 9.8]
  /** ... and the power in watts for a 70 kg rider. */
  const BicycleWatts: seq<real> := [84.0, 103.0, 124.0, 147.0, 172.0]

  lemma BicycleSpeedsFittable(ys: seq<real>)
    requires |ys| == 5
    ensures Fittable(BicycleSpeedsKmh, ys)
  {
    assert Count(BicycleSpeedsKmh) == 5.0;
    assert Sum(BicycleSpeedsKmh) == 100.0;
    assert Dot(BicycleSpeedsKmh, BicycleSpeedsKmh) == 2250.0;
  }

  /** MET_bicycle: the first-degree least-squares lines through the table
      (METs against speed, and watts divided by the rider's weight against
      speed), evaluated at `speedKmh`. Returns (METs, watts per kg). */
  function METBicycle(speedKmh: real, weightKg: real): (real, real)
    requires weightKg != 0.0
  {
    var wattsPerKg := DivideEach(BicycleWatts, weightKg);
    BicycleSpeedsFittable(BicycleMETs);
    BicycleSpeedsFittable(wattsPerKg);
    (OlsSlope(BicycleSpeedsKmh, BicycleMETs) * speedKmh + OlsIntercept(BicycleSpeedsKmh, BicycleMETs),
     OlsSlope(BicycleSpeedsKmh, wattsPerKg) * speedKmh + OlsIntercept(BicycleSpeedsKmh, wattsPerKg))
  }

  /** Over the reals the two fitted lines are METs = 0.25 speed + 2.2 and
      watts per kg = (4.4 speed + 38) / weight. */
  lemma METBicycleClosedForm(speedKmh: real, weightKg: real)
    requires weightKg != 0.0
    ensures METBicycle(speedKmh, weightKg) == (0.25 * speedKmh + 2.2, (4.4 * speedKmh + 38.0) / weightKg)
  {
    var xs := BicycleSpeedsKmh;
    BicycleSpeedsFittable(BicycleMETs);
    BicycleSpeedsFittable(BicycleWatts);
    assert Count(xs) == 5.0 && Sum(xs) == 100.0 && Dot(xs, xs) == 2250.0;
    assert Sum(BicycleMETs) == 36.0 && Dot(xs, BicycleMETs) == 782.5;
    assert Sum(BicycleWatts) == 630.0 && Dot(xs, BicycleWatts) == 13700.0;
    assert OlsSlope(xs, BicycleMETs) == 0.25;
    assert OlsIntercept(xs, BicycleMETs) == 2.2;
    assert OlsSlope(xs, BicycleWatts) == 4.4;
    assert OlsIntercept(xs, BicycleWatts) == 38.0;
    var wattsPerKg := DivideEach(BicycleWatts, weightKg);
    OlsDivideEach(xs, BicycleWatts, weightKg);
    assert OlsSlope(xs, wattsPerKg) == 4.4 / weightKg;
    assert OlsIntercept(xs, wattsPerKg) == 38.0 / weightKg;
    assert (4.4 / weightKg) * speedKmh + 38.0 / weightKg == (4.4 * speedKmh + 38.0) / weightKg;
    assert METBicycle(speedKmh, weightKg).0
        == OlsSlope(xs, BicycleMETs) * speedKmh + OlsIntercept(xs, BicycleMETs);
    assert METBicycle(speedKmh, weightKg).1
        == OlsSlope(xs, wattsPerKg) * speedKmh + OlsIntercept(xs, wattsPerKg);
    assert METBicycle(speedKmh, weightKg).0 == 0.25 * speedKmh + 2.2;
    assert METBicycle(speedKmh, weightKg).1 == (4.4 / weightKg) * speedKmh + 38.0 / weightKg;
  }

  /** The documented example: 25 km/h for a 50 kg rider burns 7.39375 kcal
      per minute (the float output 7.393750000000001). */
  lemma METBicycleExample()
    ensures CalMinFromMET(METBicycle(25.0, 50.0).0, 50.0) == 7.39375
  {
    METBicycleClosedForm(25.0, 50.0);
  }

  // ---------------------------------------------------------------------
  // Basal metabolic rate

  /** BMR in kcal per day. By default the Mifflin-St Jeor equation, blended
      by gender (0 male, 1 female); with `katchMcArdle` the Katch-McArdle
      formula 370 + 21.6 (1 - F) W, which reads F as a fraction. */
  function BMR(w: real, h: real, a: real, f: real, gender: real, katchMcArdle: bool := false): real
  {
    if katchMcArdle then 370.0 + 21.6 * (1.0 - f) * w
    else
      (1.0 - gender) * (10.0 * w + 6.25 * h - 5.0 * a + 5.0)
      + gender * (10.0 * w + 6.25 * h - 5.0 * a - 161.0)
  }

  /** Gender 0 gives the Mifflin-St Jeor equation for men and gender 1 the
      one for women, 166 kcal apart; the documented example is 1436.25. */
  lemma BMRMifflinStJeor(w: real, h: real, a: real, f: real)
    ensures BMR(w, h, a, f, 0.0) == 10.0 * w + 6.25 * h - 5.0 * a + 5.0
    ensures BMR(w, h, a, f, 1.0) == 10.0 * w + 6.25 * h - 5.0 * a - 161.0
    ensures BMR(w, h, a, f, 0.0) - BMR(w, h, a, f, 1.0) == 166.0
    ensures BMR(63.0, 169.0, 51.0, 19.0, 0.0) == 1436.25
  {
  }

  /** The Katch-McArdle branch depends on the weight and the body fat only,
      and grows with the lean mass (1 - F) W. */
  lemma BMRKatchMcArdle(w: real, h: real, a: real, f: real, gender: real,
                        h2: real, a2: real, gender2: real)
    ensures BMR(w, h, a, f, gender, true) == BMR(w, h2, a2, f, gender2, true)
    ensures BMR(w, h, a, f, gender, true) == 370.0 + 21.6 * ((1.0 - f) * w)
  {
  }

  /** Katch-McArdle with the body fat given in percent, as the docstring of
      BMR describes F: the lean mass is (1 - F/100) W. */
  function BMRKatchMcArdlePercent(w: real, fatPercent: real): real
  {
    370.0 + 21.6 * (1.0 - fatPercent / 100.0) * w
  }

  /** For a body fat between 0 and 100 percent and a non-negative weight
      the corrected formula stays at or above its 370 kcal floor, and it
      is the source's branch applied to the fraction F/100. */
  lemma BMRKatchMcArdlePercentSound(w: real, h: real, a: real, fatPercent: real, gender: real)
    requires 0.0 <= fatPercent <= 100.0 && w >= 0.0
    ensures BMRKatchMcArdlePercent(w, fatPercent) >= 370.0
    ensures BMRKatchMcArdlePercent(w, fatPercent) == BMR(w, h, a, fatPercent / 100.0, gender, true)
  {
    var lean := 1.0 - fatPercent / 100.0;
    assert lean >= 0.0;
    assert lean * w >= 0.0;
  }

  /** As written, the Katch-McArdle branch fed the docstring's percentage
      (the example's F = 19) yields a negative basal rate. */
  lemma BMRKatchMcArdleWithPercent()
    ensures BMR(63.0, 169.0, 51.0, 19.0, 0.0, true) == -24124.4
    ensures BMR(63.0, 169.0, 51.0, 19.0, 0.0, true) < 0.0
    ensures BMRKatchMcArdlePercent(63.0, 19.0) == 1472.248
  {
  }

  // ---------------------------------------------------------------------
  // MyZone energy expenditure

  /** The kJ-to-kcal factor of energy_expenditure_kg. */
  const KJToKcal: real := 0.239006

  /** energy_expenditure_kg: the two MyZone regressions, blended by gender
      (1 male, 0 female) and converted from kJ to kcal per minute. Returns
      (with VO2max, without VO2max). */
  function EnergyExpenditureKg(gender: real, age: real, weight: real, vo2max: real, heartRate: real): (real, real)
  {
    var eeVO2max := -59.3954 + gender * (-36.3781 + 0.271 * age + 0.394 * weight
                                          + 0.404 * vo2max + 0.634 * heartRate)
      + (1.0 - gender) * (0.274 * age + 0.103 * weight + 0.380 * vo2max + 0.450 * heartRate);
    var ee := gender * (-55.0969 + 0.6309 * heartRate + 0.1988 * weight + 0.2017 * age)
      + (1.0 - gender) * (-20.4022 + 0.4472 * heartRate - 0.1263 * weight + 0.074 * age);
    (eeVO2max * KJToKcal, ee * KJToKcal)
  }

  /** The male (1) and female (0) regressions, and the documented first
      element of the example: 7.454238631 kcal/min (float 7.454238630999999). */
  lemma EnergyExpenditureKgByGender(age: real, weight: real, vo2max: real, hr: real)
    ensures EnergyExpenditureKg(1.0, age, weight, vo2max, hr)
         == ((-95.7735 + 0.271 * age + 0.394 * weight + 0.404 * vo2max + 0.634 * hr) * KJToKcal,
             (-55.0969 + 0.6309 * hr + 0.1988 * weight + 0.2017 * age) * KJToKcal)
    ensures EnergyExpenditureKg(0.0, age, weight, vo2max, hr)
         == ((-59.3954 + 0.274 * age + 0.103 * weight + 0.380 * vo2max + 0.450 * hr) * KJToKcal,
             (-20.4022 + 0.4472 * hr - 0.1263 * weight + 0.074 * age) * KJToKcal)
    ensures EnergyExpenditureKg(1.0, 48.0, 63.0, 48.0, 110.0).0 == 7.454238631
  {
  }

  /** For any gender between 0 and 1 both estimates rise strictly with the
      heart rate. */
  lemma EnergyExpenditureKgRisesWithHeartRate(gender: real, age: real, weight: real, vo2max: real,
                                               hr: real, hr2: real)
    requires 0.0 <= gender <= 1.0 && hr < hr2
    ensures EnergyExpenditureKg(gender, age, weight, vo2max, hr).0
          < EnergyExpenditureKg(gender, age, weight, vo2max, hr2).0
    ensures EnergyExpenditureKg(gender, age, weight, vo2max, hr).1
          < EnergyExpenditureKg(gender, age, weight, vo2max, hr2).1
  {
    var d := hr2 - hr;
    var e1 := EnergyExpenditureKg(gender, age, weight, vo2max, hr);
    var e2 := EnergyExpenditureKg(gender, age, weight, vo2max, hr2);
    var k0 := 0.450 + 0.184 * gender;
    var k1 := 0.4472 + 0.1837 * gender;
    assert e2.0 / KJToKcal - e1.0 / KJToKcal == k0 * d;
    assert e2.1 / KJToKcal - e1.1 / KJToKcal == k1 * d;
    assert k0 * d > 0.0 && k1 * d > 0.0;
  }

  // ---------------------------------------------------------------------
  // Swain: %HRmax <-> %VO2max

  /** invert_Swain: %HRmax = 0.6463 %VO2max + 37.182. */
  function InvertSwain(percentageVO2max: real): real
  {
    0.6463 * percentageVO2max + 37.182
  }

  /** Swain: %VO2max from %HRmax. */
  function Swain(percentageHRmax: real): real
  {
    (percentageHRmax - 37.182) / 0.6463
  }

  /** The two conversions undo each other in both orders, Swain rises with
      the heart rate, and the documented Swain(80) is 42.818 / 0.6463. */
  lemma SwainInverse(p: real, q: real)
    ensures Swain(InvertSwain(p)) == p
    ensures InvertSwain(Swain(p)) == p
    ensures p < q ==> Swain(p) < Swain(q)
    ensures Swain(80.0) == 42.818 / 0.6463
  {
  }

  // ---------------------------------------------------------------------
  // VO2max and thresholds from heart rate

  /** VO2max_from_HR: the crude estimate 15 HRmax / HRrest. */
  function VO2maxFromHR(hrMax: real, hrRest: real): real
    requires hrRest != 0.0
  {
    15.0 * (hrMax / hrRest)
  }

  /** Only the ratio of the two rates matters, equal rates give 15, and the
      documented example (185, 65) is 555/13 = 42.6923... */
  lemma VO2maxFromHRMeaning(hrMax: real, hrRest: real, k: real)
    requires hrRest != 0.0 && k != 0.0
    ensures VO2maxFromHR(k * hrMax, k * hrRest) == VO2maxFromHR(hrMax, hrRest)
    ensures VO2maxFromHR(hrRest, hrRest) == 15.0
    ensures VO2maxFromHR(185.0, 65.0) == 555.0 / 13.0
  {
    assert (k * hrMax) / (k * hrRest) == hrMax / hrRest;
  }

  /** aerobic_threshold_from_lactate: the heart rate 30 bpm below the
      lactate threshold (given in % of HRmax), in % of HRmax. */
  function AerobicThresholdFromLactate(hrMax: real, lactateThresholdPcHR: real): real
    requires hrMax != 0.0
  {
    var fromLactateToAnabolic := 30.0;
    (lactateThresholdPcHR * 1e-2 * hrMax - fromLactateToAnabolic) / hrMax * 100.0
  }

  /** Converted back to beats per minute the threshold is exactly 30 bpm
      below the lactate-threshold heart rate. The documented example passes
      the threshold in bpm (185 * 0.85) rather than in percent, and gets
      20873/148 = 141.03...; with 85 percent it is 27/37 of 100. */
  lemma AerobicThresholdFromLactateMeaning(hrMax: real, lt: real)
    requires hrMax != 0.0
    ensures AerobicThresholdFromLactate(hrMax, lt) / 100.0 * hrMax == lt / 100.0 * hrMax - 30.0
    ensures AerobicThresholdFromLactate(185.0, 185.0 * 0.85) == 20873.0 / 148.0
    ensures AerobicThresholdFromLactate(185.0, 85.0) == 2545.0 / 37.0
  {
    var x := lt * 1e-2 * hrMax - 30.0;
    assert x / hrMax * 100.0 / 100.0 * hrMax == x;
  }

  /** The four adjustments, indexed by training level 0 .. 3. */
  const FairAdjustments: seq<real> := [-10.0, 0.0, 5.0, 10.0]

  /** anabolic_threshold_Fair: Maffetone's 180 - age, adjusted by training
      level. The level indexes a four-element Python list, so -4 .. 3 are
      accepted (negative ones count from the end) and anything else raises
      IndexError. */
  function AnabolicThresholdFair(age: real, level: int): Result<real>
  {
    match PyIndex(FairAdjustments, level)
    case Ok(adjustment) => Ok(180.0 - age + adjustment)
    case Err(e) => Err(e)
  }

  /** Levels 0 .. 3 give 180 - age - 10, + 0, + 5 and + 10; the docstring
      example (age 30, level 2) is 155 bpm; level 4, which the docstring
      calls valid, and every level outside -4 .. 3 raise IndexError; a
      negative level picks from the end of the list. */
  lemma AnabolicThresholdFairLevels(age: real, level: int)
    ensures AnabolicThresholdFair(age, 0) == Ok(170.0 - age)
    ensures AnabolicThresholdFair(age, 1) == Ok(180.0 - age)
    ensures AnabolicThresholdFair(age, 2) == Ok(185.0 - age)
    ensures AnabolicThresholdFair(age, 3) == Ok(190.0 - age)
    ensures AnabolicThresholdFair(30.0, 2) == Ok(155.0)
    ensures AnabolicThresholdFair(age, 4) == Err(IndexError)
    ensures AnabolicThresholdFair(age, level).Err? <==> level < -4 || 3 < level
    ensures -4 <= level < 0 ==> AnabolicThresholdFair(age, level) == AnabolicThresholdFair(age, level + 4)
  {
  }

  /** Over the valid levels 0 .. 3 the threshold rises strictly with the
      level. */
  lemma AnabolicThresholdFairIncreasing(age: real, level: int, level2: int)
    requires 0 <= level < level2 <= 3
    ensures AnabolicThresholdFair(age, level).Ok? && AnabolicThresholdFair(age, level2).Ok?
    ensures AnabolicThresholdFair(age, level).value < AnabolicThresholdFair(age, level2).value
  {
  }

  // ---------------------------------------------------------------------
  // Calories from heart rate

  /** The fraction of the heart-rate reserve used at `percentageHR` percent
      of HRmax (Karvonen); calories_kg_HR_HRr and cal_RER both take it as
      the fraction of VO2max. */
  function FracHRReserve(percentageHR: real, hrMax: real, hrRest: real): real
    requires hrMax != hrRest
  {
    (percentageHR * 1e-2 * hrMax - hrRest) / (hrMax - hrRest)
  }

  /** The fraction is 0 when the heart rate is the resting one and 1 at
      HRmax, and it rises with the percentage when HRmax > HRrest and
      HRmax > 0. */
  lemma FracHRReserveMeaning(percentageHR: real, p2: real, hrMax: real, hrRest: real)
    requires hrMax != hrRest
    ensures FracHRReserve(100.0, hrMax, hrRest) == 1.0
    ensures percentageHR * 1e-2 * hrMax == hrRest ==> FracHRReserve(percentageHR, hrMax, hrRest) == 0.0
    ensures hrMax > hrRest && hrMax > 0.0 && percentageHR < p2 ==>
      FracHRReserve(percentageHR, hrMax, hrRest) < FracHRReserve(p2, hrMax, hrRest)
  {
    var reserve := hrMax - hrRest;
    assert 100.0 * 1e-2 * hrMax - hrRest == reserve;
    assert reserve / reserve == 1.0;
    if hrMax > hrRest && hrMax > 0.0 && percentageHR < p2 {
      var d := hrMax - hrRest;
      assert percentageHR * 1e-2 * hrMax < p2 * 1e-2 * hrMax;
      DivideStrictlyMonotone(percentageHR * 1e-2 * hrMax - hrRest, p2 * 1e-2 * hrMax - hrRest, d);
    }
  }

  lemma DivideStrictlyMonotone(x: real, y: real, d: real)
    requires x < y && d > 0.0
    ensures x / d < y / d
  {
    assert y / d - x / d == (y - x) / d;
  }

  /** calories_kg_HR_HRr: kcal per kg per minute from the heart-rate
      reserve fraction of VO2max (VO2 / 3.5 METs, 1 kcal/kg/h per MET). */
  function CaloriesKgHRHRr(percentageHR: real, hrMax: real, hrRest: real, vo2max: real): real
    requires hrMax != hrRest
  {
    var fracVO2max := FracHRReserve(percentageHR, hrMax, hrRest);
    fracVO2max * vo2max / 3.5 / 60.0
  }

  /** Per hour the result is the METs of the exercising VO2; at HRmax it is
      VO2max / 210, at resting heart rate nothing. */
  lemma CaloriesKgHRHRrMeaning(percentageHR: real, hrMax: real, hrRest: real, vo2max: real)
    requires hrMax != hrRest
    ensures CaloriesKgHRHRr(percentageHR, hrMax, hrRest, vo2max) * 60.0
         == FracHRReserve(percentageHR, hrMax, hrRest) * vo2max / 3.5
    ensures CaloriesKgHRHRr(100.0, hrMax, hrRest, vo2max) == vo2max / 210.0
    ensures percentageHR * 1e-2 * hrMax == hrRest ==> CaloriesKgHRHRr(percentageHR, hrMax, hrRest, vo2max) == 0.0
  {
    FracHRReserveMeaning(percentageHR, percentageHR, hrMax, hrRest);
  }

  /** calories_kg_HR: kcal per kg per minute from %HRmax through Swain
      (at 5 kcal per litre of oxygen). */
  function CaloriesKgHR(percentageHR: real, vo2max: real): real
  {
    (percentageHR - 37.182) / 0.6463 / 100.0 * vo2max / 200.0
  }

  /** The formula is Swain's %VO2max applied to VO2max at 5 kcal per litre;
      for a body of w kg it equals Cal_min_from_MET at the METs of that
      VO2; and at the heart rate that invert_Swain assigns to a %VO2max it
      gives that share of VO2max back. */
  lemma CaloriesKgHRUsesSwain(percentageHR: real, vo2max: real, w: real, pv: real)
    ensures CaloriesKgHR(percentageHR, vo2max) == Swain(percentageHR) / 100.0 * vo2max / 200.0
    ensures CaloriesKgHR(percentageHR, vo2max) * w
         == CalMinFromMET(Swain(percentageHR) / 100.0 * vo2max / 3.5, w)
    ensures CaloriesKgHR(InvertSwain(pv), vo2max) == pv / 100.0 * vo2max / 200.0
  {
    var v := Swain(percentageHR) / 100.0 * vo2max;
    assert CaloriesKgHR(percentageHR, vo2max) * w == v * w / 200.0;
    assert CalMinFromMET(v / 3.5, w) == v * w / 200.0;
  }

  // ---------------------------------------------------------------------
  // Heart-rate-reserve training zones

  /** Heart_rate_reserve: HRmax - HRrest. */
  function HeartRateReserve(hrMax: real, hrRest: real): real
  {
    hrMax - hrRest
  }

  /** anaerobic_training: the heart rate at `anaerobicLevel` percent of the
      reserve above the resting rate, in % of HRmax (default 80). */
  function AnaerobicTraining(hrMax: real, hrRest: real, anaerobicLevel: real := 80.0): real
    requires hrMax != 0.0
  {
    var hrReserve := HeartRateReserve(hrMax, hrRest);
    (hrReserve * (anaerobicLevel / 100.0) + hrRest) / hrMax * 100.0
  }

  /** aerobic_training: the 50 % and 75 % reserve zone bounds, in % of
      HRmax. */
  function AerobicTraining(hrMax: real, hrRest: real): (real, real)
    requires hrMax != 0.0
  {
    var aerobicLevel1 := 50.0;
    var aerobicLevel2 := 75.0;
    var hrReserve := HeartRateReserve(hrMax, hrRest);
    ((hrReserve * (aerobicLevel1 / 100.0) + hrRest) / hrMax * 100.0,
     (hrReserve * (aerobicLevel2 / 100.0) + hrRest) / hrMax * 100.0)
  }

  /** The zone bound at level L, read back through the heart-rate reserve,
      is exactly L percent of the reserve. */
  lemma AnaerobicTrainingInverse(hrMax: real, hrRest: real, level: real)
    requires hrMax != 0.0 && hrMax != hrRest
    ensures FracHRReserve(AnaerobicTraining(hrMax, hrRest, level), hrMax, hrRest) == level / 100.0
  {
    var hr := HeartRateReserve(hrMax, hrRest) * (level / 100.0) + hrRest;
    assert AnaerobicTraining(hrMax, hrRest, level) * 1e-2 * hrMax == hr;
    assert (hr - hrRest) / (hrMax - hrRest) == level / 100.0;
  }

  /** Whatever the resting rate, 100 % of the reserve is HRmax, that is
      100 % of HRmax, and 0 % of the reserve is the resting rate. */
  lemma AnaerobicTrainingEnds(hrMax: real, hrRest: real)
    requires hrMax != 0.0
    ensures AnaerobicTraining(hrMax, hrRest, 100.0) == 100.0
    ensures AnaerobicTraining(hrMax, hrRest, 0.0) == hrRest / hrMax * 100.0
  {
    assert (hrMax - hrRest + hrRest) / hrMax * 100.0 == 100.0;
  }

  /** The aerobic zone is the anaerobic formula at 50 % and 75 %, and its
      lower bound is below its upper bound when HRmax > HRrest and
      HRmax > 0. */
  lemma AerobicTrainingZone(hrMax: real, hrRest: real)
    requires hrMax != 0.0
    ensures AerobicTraining(hrMax, hrRest)
         == (AnaerobicTraining(hrMax, hrRest, 50.0), AnaerobicTraining(hrMax, hrRest, 75.0))
    ensures hrMax > hrRest && hrMax > 0.0 ==> AerobicTraining(hrMax, hrRest).0 < AerobicTraining(hrMax, hrRest).1
  {
    if hrMax > hrRest && hrMax > 0.0 {
      AnaerobicTrainingIncreasing(hrMax, hrRest, 50.0, 75.0);
    }
  }

  /** With HRmax > HRrest and HRmax > 0 the zone bound rises strictly with
      the level. */
  lemma AnaerobicTrainingIncreasing(hrMax: real, hrRest: real, level: real, level2: real)
    requires hrMax > hrRest && hrMax > 0.0 && level < level2
    ensures AnaerobicTraining(hrMax, hrRest, level) < AnaerobicTraining(hrMax, hrRest, level2)
  {
    var r := HeartRateReserve(hrMax, hrRest);
    assert r * (level / 100.0) < r * (level2 / 100.0);
    DivideStrictlyMonotone(r * (level / 100.0) + hrRest, r * (level2 / 100.0) + hrRest, hrMax);
  }

  // ---------------------------------------------------------------------
  // VO2max from an exercise VO2 and its heart rate

  /** VO2max_from_VO2_HR: the exercise VO2 divided by the reserve fraction
      of its heart rate. A heart rate outside [HRrest, HRmax] yields 0; a
      zero fraction (HR = HRrest, including HRrest = HRmax) raises
      ZeroDivisionError, as Python's float division does. */
  function VO2maxFromVO2HR(vo2Exercise: real, hr: real, hrMax: real, hrRest: real): (r: Result<real>)
    ensures r.Err? <==> hrRest == hr <= hrMax
    ensures r.Err? ==> r.error == ZeroDivisionError
    ensures (hr > hrMax || hr < hrRest) ==> r == Ok(0.0)
    ensures hrRest < hr <= hrMax ==> r.Ok? && r.value * (hr - hrRest) == vo2Exercise * (hrMax - hrRest)
  {
    if hr > hrMax || hr < hrRest then Ok(0.0)
    else if hrMax - hrRest == 0.0 then Err(ZeroDivisionError)
    else
      var fractionVO2max := (hr - hrRest) / (hrMax - hrRest);
      if fractionVO2max == 0.0 then Err(ZeroDivisionError)
      else
        var v := vo2Exercise / fractionVO2max;
        assert v * fractionVO2max == vo2Exercise;
        Ok(v)
  }

  /** At HRmax (above a lower resting rate) the exercise VO2 is VO2max. */
  lemma VO2maxFromVO2HRAtMax(vo2Exercise: real, hrMax: real, hrRest: real)
    requires hrRest < hrMax
    ensures VO2maxFromVO2HR(vo2Exercise, hrMax, hrMax, hrRest) == Ok(vo2Exercise)
  {
    var r := VO2maxFromVO2HR(vo2Exercise, hrMax, hrMax, hrRest);
    CancelNonzero(r.value, vo2Exercise, hrMax - hrRest);
  }

  lemma CancelNonzero(x: real, y: real, c: real)
    requires c != 0.0 && x * c == y * c
    ensures x == y
  {
    assert (x - y) * c == 0.0;
  }

  /** VO2max_from_METS: the same estimate from METs (3.5 mL/kg/min each). */
  function VO2maxFromMETS(mets: real, hr: real, hrMax: real, hrRest: real): Result<real>
  {
    var vo2Exercise := 3.5 * mets;
    VO2maxFromVO2HR(vo2Exercise, hr, hrMax, hrRest)
  }

  /** The documented example: 8 METs at 140 bpm between 65 and 185 give
      44.8 mL/kg/min. */
  lemma VO2maxFromMETSExample()
    ensures VO2maxFromMETS(8.0, 140.0, 185.0, 65.0) == Ok(44.8)
  {
    var r := VO2maxFromVO2HR(28.0, 140.0, 185.0, 65.0);
    assert r.value * 75.0 == 28.0 * 120.0;
  }
}
