/**
  The respiratory-exchange-ratio path of calories_VO2max.py: the table of
  caloric equivalents of oxygen by respiratory quotient (RER), its linear
  interpolation, the per-minute energy of a series of VO2 readings
  (cal_VO2_RER) and the energy at a heart rate (cal_RER).
*/
module Rer {
  import opened Errors
  import opened Numeric
  import Calories

  /** The four columns RER returns: respiratory quotients, kcal per litre
      of oxygen, percent of energy from fat and from carbohydrate. */
  datatype RerTables = RerTables(rqTab: seq<real>, rerCal: seq<real>, fatPc: seq<real>, choPc: seq<real>)

  /** The quotient column: 0.707 followed by numpy's arange(0.71, 1.001,
      0.01), that is 0.71, 0.72, ..., 1.00. */
  const RqTable: seq<real> :=
    [0.707, 0.71, 0.72, 0.73, 0.74, 0.75, 0.76, 0.77, 0.78, 0.79, 0.80, 0.81, 0.82,
     0.83, 0.84, 0.85, 0.86, 0.87, 0.88, 0.89, 0.90, 0.91, 0.92, 0.93, 0.94, 0.95,
     0.96, 0.97, 0.98, 0.99, 1.00]

  /** Percent of the energy drawn from carbohydrate at each quotient. */
  const ChoPercent: seq<real> :=
    [0.0, 1.1, 4.76, 8.40, 12.0, 15.6, 19.2, 22.3, 26.3, 29.9, 33.4, 36.9, 40.3,
     43.8, 47.2, 50.7, 54.1, 57.5, 60.8, 64.2, 67.5, 70.8, 74.1, 77.4, 80.7, 84.0,
     87.2, 90.4, 93.6, 96.8, 100.0]

  /** The caloric equivalent of a litre of oxygen, kcal, at each quotient. */
  const CaloricEquivalents: seq<real> :=
    [4.686, 4.690, 4.702, 4.714, 4.727, 4.739, 4.751, 4.764, 4.776, 4.788, 4.801,
     4.813, 4.825, 4.838, 4.850, 4.862, 4.875, 4.887, 4.899, 4.911, 4.924, 4.936,
     4.948, 4.961, 4.973, 4.985, 4.998, 5.010, 5.022, 5.035, 5.047]

  /** Percent of the energy drawn from fat, 100 minus the carbohydrate
      share (numpy's `100. - RERcal_CHOpc`, written out). */
  const FatPercent: seq<real> :=
    [100.0, 98.9, 95.24, 91.6, 88.0, 84.4, 80.8, 77.7, 73.7, 70.1, 66.6, 63.1, 59.7,
     56.2, 52.8, 49.3, 45.9, 42.5, 39.2, 35.8, 32.5, 29.2, 25.9, 22.6, 19.3, 16.0,
     12.8, 9.6, 6.4, 3.2, 0.0]

  /** RER: the four columns, 31 rows each, from quotient 0.707 to 1.0. The
      carbohydrate share runs from 0 to 100 percent and fat makes up the
      rest of 100 percent on every row. */
  function RER(): (t: RerTables)
    ensures |t.rqTab| == |t.rerCal| == |t.fatPc| == |t.choPc| == 31
    ensures t.rqTab[0] == 0.707 && t.rqTab[30] == 1.0
    ensures t.choPc[0] == 0.0 && t.choPc[30] == 100.0
    ensures forall i :: 0 <= i < 31 ==> t.fatPc[i] + t.choPc[i] == 100.0
  {
    RerTables(RqTable, CaloricEquivalents, FatPercent, ChoPercent)
  }

  /** The quotients rise strictly from row to row, so the table is one the
      interpolation accepts. */
  lemma RERQuotientsIncreasing()
    ensures StrictlyIncreasing(RER().rqTab)
  {
    RqTableIncreasing();
  }

  /** The quotient column alone, apart from the rest of the table. */
  lemma RqTableIncreasing()
    ensures StrictlyIncreasing(RqTable)
  {
  }

  /** The caloric equivalent rises strictly with the quotient. */
  lemma RERCaloricIncreasing()
    ensures StrictlyIncreasing(RER().rerCal)
  {
    CaloricEquivalentsIncreasing();
  }

  /** The caloric-equivalent column alone, apart from the rest of the table. */
  lemma CaloricEquivalentsIncreasing()
    ensures StrictlyIncreasing(CaloricEquivalents)
  {
  }

  /** The carbohydrate share rises strictly with the quotient. */
  lemma RERCarbohydrateIncreasing()
    ensures StrictlyIncreasing(RER().choPc)
  {
    ChoPercentIncreasing();
  }

  /** The carbohydrate column alone, apart from the rest of the table. */
  lemma ChoPercentIncreasing()
    ensures StrictlyIncreasing(ChoPercent)
  {
  }

  /** After the leading 0.707, row i holds the arange value 0.71 + 0.01 (i - 1). */
  lemma RERQuotientsArange(i: int)
    requires 1 <= i < 31
    ensures RER().rqTab[i] == 0.71 + 0.01 * (i - 1) as real
  {
  }

  /** The interpolator cal_VO2_RER builds over the table: kcal per litre of
      oxygen at quotient `rq`, extrapolated linearly outside 0.707 .. 1.0. */
  function CaloricEquivalent(rq: real): real
  {
    RERQuotientsIncreasing();
    InterpDown(RqTable, CaloricEquivalents, |RqTable| - 1, rq)
  }

  /** The evaluation is the interpolation of the caloric-equivalent column
      over the quotient column, at every quotient. */
  lemma CaloricEquivalentIsInterp(rq: real)
    ensures (RERQuotientsIncreasing(); CaloricEquivalent(rq) == Interp(RqTable, CaloricEquivalents, rq))
  {
    RERQuotientsIncreasing();
    InterpDownIsInterp(RqTable, CaloricEquivalents, |RqTable| - 1, rq);
  }

  /** On a tabulated quotient the interpolator returns the tabulated value. */
  lemma CaloricEquivalentAtTable(k: int)
    requires 0 <= k < 31
    ensures CaloricEquivalent(RqTable[k]) == CaloricEquivalents[k]
  {
    RERQuotientsIncreasing();
    CaloricEquivalentIsInterp(RqTable[k]);
    InterpAtGrid(RqTable, CaloricEquivalents, k);
  }

  /** Between the smallest and the largest tabulated quotient the
      equivalent stays between 4.686 and 5.047 kcal per litre. */
  lemma CaloricEquivalentRange(rq: real)
    requires 0.707 <= rq <= 1.0
    ensures 4.686 <= CaloricEquivalent(rq) <= 5.047
  {
    RERQuotientsIncreasing();
    RERCaloricIncreasing();
    CaloricEquivalentIsInterp(rq);
    InterpWithinRange(RqTable, CaloricEquivalents, rq);
  }

  /** The first two rows of the quotient and caloric-equivalent columns. */
  lemma FirstRows()
    ensures RqTable[0] == 0.707 && RqTable[1] == 0.71
    ensures CaloricEquivalents[0] == 4.686 && CaloricEquivalents[1] == 4.690
  {
  }

  /** Below the smallest tabulated quotient the equivalent continues the
      first segment. */
  lemma CaloricEquivalentBelow(rq: real)
    requires rq <= 0.707
    ensures CaloricEquivalent(rq) == Line(0.707, 4.686, 0.71, 4.690, rq)
  {
    FirstRows();
    RERQuotientsIncreasing();
    InterpDownBelow(RqTable, CaloricEquivalents, |RqTable| - 1, rq);
  }

  /** Above the largest tabulated quotient the equivalent continues the
      last segment. */
  lemma CaloricEquivalentAbove(rq: real)
    requires 1.0 <= rq
    ensures CaloricEquivalent(rq) == Line(0.99, 5.035, 1.0, 5.047, rq)
  {
    RERQuotientsIncreasing();
    CaloricEquivalentIsInterp(rq);
    InterpExtrapolateAbove(RqTable, CaloricEquivalents, rq);
  }

  /** On a tabulated quotient a VO2 of `vo2` mL/kg/min releases the VO2 in
      litres times the tabulated equivalent, in kcal per kg per minute. */
  lemma CalMinKgAtTable(vo2: real, k: int)
    requires 0 <= k < 31
    ensures vo2 * 1e-3 * CaloricEquivalent(RqTable[k]) == vo2 / 1000.0 * CaloricEquivalents[k]
  {
    CaloricEquivalentAtTable(k);
  }

  /** At any quotient in the table's range a non-negative VO2 releases
      between 4.686 and 5.047 kcal per litre of oxygen. */
  lemma CalMinKgBounds(vo2: real, rq: real)
    requires vo2 >= 0.0 && 0.707 <= rq <= 1.0
    ensures vo2 / 1000.0 * 4.686 <= vo2 * 1e-3 * CaloricEquivalent(rq) <= vo2 / 1000.0 * 5.047
  {
    CaloricEquivalentRange(rq);
    ScaleBetween(vo2 / 1000.0, CaloricEquivalent(rq), 4.686, 5.047);
  }

  /** A non-negative factor keeps the order of two bounds. */
  lemma ScaleBetween(l: real, e: real, lo: real, hi: real)
    requires l >= 0.0 && lo <= e <= hi
    ensures l * lo <= l * e <= l * hi
  {
    assert l * (e - lo) >= 0.0;
    assert l * (hi - e) >= 0.0;
  }

  /** What cal_VO2_RER returns: for a single VO2 reading, its energy with
      the first carbohydrate and fat shares; otherwise the list of energies
      with the whole share columns. Both carry the caloric-equivalent
      column. */
  datatype RerOutput =
    | Single(calMinKg: real, rerCal: seq<real>, choPc: real, fatPc: real)
    | Series(calMinKgs: seq<real>, rerCal: seq<real>, choPcs: seq<real>, fatPcs: seq<real>)

  /** The energies, kcal per kg per minute, of the first n VO2 readings
      (mL/kg/min), each at the quotient in the same position. */
  function Energies(vo2s: seq<real>, rqs: seq<real>, n: nat): (r: seq<real>)
    requires n <= |vo2s| && n <= |rqs|
    ensures |r| == n
  {
    if n == 0 then []
    else Energies(vo2s, rqs, n - 1) + [vo2s[n - 1] * 1e-3 * CaloricEquivalent(rqs[n - 1])]
  }

  /** One more reading appends its energy. */
  lemma EnergiesStep(vo2s: seq<real>, rqs: seq<real>, n: nat)
    requires n < |vo2s| && n < |rqs|
    ensures Energies(vo2s, rqs, n + 1) == Energies(vo2s, rqs, n) + [vo2s[n] * 1e-3 * CaloricEquivalent(rqs[n])]
  {
  }

  /** Entry i is reading i in litres times the caloric equivalent of
      quotient i, whatever the number of entries. */
  lemma {:induction false} EnergiesElementwise(vo2s: seq<real>, rqs: seq<real>, n: nat, i: int)
    requires n <= |vo2s| && n <= |rqs| && 0 <= i < n
    ensures Energies(vo2s, rqs, n)[i] == vo2s[i] * 1e-3 * CaloricEquivalent(rqs[i])
    decreases n
  {
    if i < n - 1 {
      EnergiesElementwise(vo2s, rqs, n - 1, i);
    }
  }

  /** cal_VO2_RER on lists of VO2 readings (mL/kg/min) and quotients (a
      Python float argument is the one-element list). Readings and
      quotients are paired up to the shorter list; a single VO2 reading with
      no quotient leaves nothing to return and raises IndexError. */
  method CalVO2RER(vo2s: seq<real>, rqs: seq<real>) returns (r: Result<RerOutput>)
    ensures r.Err? <==> |vo2s| == 1 && |rqs| == 0
    ensures r.Err? ==> r.error == IndexError
    ensures |vo2s| == 1 && |rqs| > 0 ==>
      r == Ok(Single(vo2s[0] * 1e-3 * CaloricEquivalent(rqs[0]), CaloricEquivalents, 0.0, 100.0))
    ensures |vo2s| != 1 ==>
      r.Ok? && r.value.Series?
      && r.value.calMinKgs == Energies(vo2s, rqs, if |vo2s| < |rqs| then |vo2s| else |rqs|)
      && r.value.rerCal == CaloricEquivalents && r.value.choPcs == ChoPercent && r.value.fatPcs == FatPercent
  {
    var n := if |vo2s| < |rqs| then |vo2s| else |rqs|;
    var calMinKg: seq<real> := [];
    var i := 0;
    while i < n
      invariant 0 <= i <= n
      invariant calMinKg == Energies(vo2s, rqs, i)
    {
      EnergiesStep(vo2s, rqs, i);
      calMinKg := calMinKg + [vo2s[i] * 1e-3 * CaloricEquivalent(rqs[i])];
      i := i + 1;
    }
    // The columns of RER(), named directly.
    if |vo2s| == 1 {
      if |calMinKg| == 0 {
        r := Err(IndexError);
      } else {
        EnergiesElementwise(vo2s, rqs, n, 0);
        assert calMinKg[0] == vo2s[0] * 1e-3 * CaloricEquivalent(rqs[0]);
        assert ChoPercent[0] == 0.0 && FatPercent[0] == 100.0;
        r := Ok(Single(calMinKg[0], CaloricEquivalents, ChoPercent[0], FatPercent[0]));
      }
    } else {
      r := Ok(Series(calMinKg, CaloricEquivalents, ChoPercent, FatPercent));
    }
  }

  /** cal_RER: kcal per kg per minute at `percentageHR` percent of HRmax,
      taking the heart-rate-reserve fraction of VO2max as the exercise VO2
      and percentageHR / 100 as the quotient. */
  method CalRER(percentageHR: real, hrMax: real, hrRest: real, vo2max: real) returns (cal: real)
    requires hrMax != hrRest
    ensures cal == vo2max * Calories.FracHRReserve(percentageHR, hrMax, hrRest) * 1e-3
                   * CaloricEquivalent(percentageHR / 100.0)
  {
    var fracVO2max := Calories.FracHRReserve(percentageHR, hrMax, hrRest);
    var vo2Work := vo2max * fracVO2max;
    var rq := percentageHR / 100.0;
    var r := CalVO2RER([vo2Work], [rq]);
    cal := r.value.calMinKg;
    assert cal == vo2Work * 1e-3 * CaloricEquivalent(rq);
  }

  /** The documented example: at 75 % of a 185 bpm maximum with a 65 bpm
      resting rate, and VO2max from VO2max_from_HR, the quotient 0.75 is a
      table row (4.739 kcal/L) and the energy is 10345237/83200000 kcal per
      kg per minute (float 0.12434179086538462). */
  lemma CalRERExample()
    ensures Calories.VO2maxFromHR(185.0, 65.0) * Calories.FracHRReserve(75.0, 185.0, 65.0) * 1e-3
            * CaloricEquivalent(75.0 / 100.0) == 10345237.0 / 83200000.0
  {
    assert RqTable[5] == 0.75;
    CaloricEquivalentAtTable(5);
    assert Calories.FracHRReserve(75.0, 185.0, 65.0) == 73.75 / 120.0;
    assert Calories.VO2maxFromHR(185.0, 65.0) == 555.0 / 13.0;
  }
}
