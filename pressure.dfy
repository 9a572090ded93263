/** Pressure at a model level from the surface pressure and the level coefficients
    (`notebooks/utils/pressure.py`). */
module Pressure {
  import opened Results

  /** The four coefficient arrays of the constants dataset at one `(dim0, dim0_0)` point:
      half-level `hyai`/`hybi` and mid-level `hyam`/`hybm`. */
  datatype LevelConstants = LevelConstants(hyai: real, hybi: real, hyam: real, hybm: real)

  /** The constants dataset: `table[d][k]` is the point with `dim0 = d` and `dim0_0 = k`. */
  type ConstantsTable = seq<seq<LevelConstants>>

  /** `constants.loc[...]` with a label that is not in the table: KeyError. */
  datatype PressureError = MissingLevel(level: int)

  /** `constants.loc[{"dim0": 0, "dim0_0": level}]`. */
  function LevelAt(constants: ConstantsTable, level: int): (r: Result<LevelConstants, PressureError>)
    ensures r.Ok? <==> |constants| > 0 && 0 <= level < |constants[0]|
    ensures r.Ok? ==> r.value == constants[0][level]
    ensures r.Err? ==> r.error == MissingLevel(level)
  {
    if |constants| > 0 && 0 <= level < |constants[0]| then Ok(constants[0][level])
    else Err(MissingLevel(level))
  }

  /** `_calculate_pressure_levels`: `A + B * p_s`, one value per surface pressure. */
  function PressureLevels(ps: seq<real>, a: real, b: real): (p: seq<real>)
    ensures |p| == |ps|
    ensures forall i :: 0 <= i < |ps| ==> p[i] == a + b * ps[i]
  {
    seq(|ps|, i requires 0 <= i < |ps| => a + b * ps[i])
  }

  /** The average of two sequences of the same length, entry by entry. */
  function Average(p1: seq<real>, p2: seq<real>): (p: seq<real>)
    requires |p1| == |p2|
    ensures |p| == |p1|
    ensures forall i :: 0 <= i < |p| ==> p[i] == 0.5 * (p1[i] + p2[i])
  {
    seq(|p1|, i requires 0 <= i < |p1| => 0.5 * (p1[i] + p2[i]))
  }

  /** `calculate_pressure`: the mean of the pressures given by the mid-level coefficients of
      the level above (`level - 1`) and of the level itself, both from `dim0 = 0`. */
  function CalculatePressure(ps: seq<real>, constants: ConstantsTable, level: int): (r: Result<seq<real>, PressureError>)
    ensures r.Ok? <==> |constants| > 0 && 1 <= level < |constants[0]|
    ensures r.Ok? ==> |r.value| == |ps|
    ensures r.Err? ==> r.error == MissingLevel(level - 1) || r.error == MissingLevel(level)
  {
    var upper :- LevelAt(constants, level - 1);
    var current :- LevelAt(constants, level);
    var p1 := PressureLevels(ps, upper.hyam, upper.hybm);
    var p2 := PressureLevels(ps, current.hyam, current.hybm);
    Ok(Average(p1, p2))
  }

  /** The pressure exists exactly when the level and the level above are both in the table;
      otherwise the first missing one of the two is reported. */
  lemma CalculatePressureDefined(ps: seq<real>, constants: ConstantsTable, level: int)
    ensures var r := CalculatePressure(ps, constants, level);
      && (r.Ok? <==> |constants| > 0 && 1 <= level < |constants[0]|)
      && (r.Err? && (|constants| == 0 || level < 1 || level > |constants[0]|) ==>
            r.error == MissingLevel(level - 1))
      && (r.Err? && |constants| > 0 && 1 <= level <= |constants[0]| ==> r.error == MissingLevel(level))
  {
  }

  /** With both levels present, the result has one pressure per surface pressure and is
      the affine map with the averaged coefficients of the two levels. */
  lemma CalculatePressureAffine(ps: seq<real>, constants: ConstantsTable, level: int)
    requires |constants| > 0 && 1 <= level < |constants[0]|
    ensures var r := CalculatePressure(ps, constants, level);
      var c1, c2 := constants[0][level - 1], constants[0][level];
      && r.Ok? && |r.value| == |ps|
      && forall i :: 0 <= i < |ps| ==>
           r.value[i] == (c1.hyam + c2.hyam) / 2.0 + (c1.hybm + c2.hybm) / 2.0 * ps[i]
  {
    var r := CalculatePressure(ps, constants, level);
    var c1, c2 := constants[0][level - 1], constants[0][level];
    forall i | 0 <= i < |ps|
      ensures r.value[i] == (c1.hyam + c2.hyam) / 2.0 + (c1.hybm + c2.hybm) / 2.0 * ps[i]
    {
      var p := ps[i];
      calc {
        r.value[i];
        0.5 * ((c1.hyam + c1.hybm * p) + (c2.hyam + c2.hybm * p));
        (c1.hyam + c2.hyam) / 2.0 + (c1.hybm * p + c2.hybm * p) / 2.0;
        { assert c1.hybm * p + c2.hybm * p == (c1.hybm + c2.hybm) * p; }
        (c1.hyam + c2.hyam) / 2.0 + (c1.hybm + c2.hybm) / 2.0 * p;
      }
    }
  }

  /** Each pressure lies between the two level pressures it averages. */
  lemma CalculatePressureBetweenLevels(ps: seq<real>, constants: ConstantsTable, level: int)
    requires |constants| > 0 && 1 <= level < |constants[0]|
    ensures var r := CalculatePressure(ps, constants, level);
      var p1 := PressureLevels(ps, constants[0][level - 1].hyam, constants[0][level - 1].hybm);
      var p2 := PressureLevels(ps, constants[0][level].hyam, constants[0][level].hybm);
      forall i :: 0 <= i < |ps| ==>
        (p1[i] <= r.value[i] <= p2[i]) || (p2[i] <= r.value[i] <= p1[i])
  {
  }

  /** The half-level arrays, the rows with `dim0 != 0` and all other levels never affect
      the result: two tables that agree on `hyam`/`hybm` of row 0 at the two levels give
      the same pressure. */
  lemma OnlyMidLevelCoefficientsMatter(ps: seq<real>, c: ConstantsTable, d: ConstantsTable, level: int)
    requires |c| > 0 && |d| > 0 && 1 <= level < |c[0]| && 1 <= level < |d[0]|
    requires c[0][level - 1].hyam == d[0][level - 1].hyam && c[0][level - 1].hybm == d[0][level - 1].hybm
    requires c[0][level].hyam == d[0][level].hyam && c[0][level].hybm == d[0][level].hybm
    ensures CalculatePressure(ps, c, level) == CalculatePressure(ps, d, level)
  {
  }

  /** The cases of the unit test for `_calculate_pressure_levels`. */
  lemma PressureLevelsExamples()
    ensures PressureLevels([1.0, 1.0], 1.0, 1.0) == [2.0, 2.0]
    ensures PressureLevels([2.0, 2.0], 1.0, 2.0) == [5.0, 5.0]
  {
    var p := PressureLevels([1.0, 1.0], 1.0, 1.0);
    assert p == [p[0], p[1]];
    var q := PressureLevels([2.0, 2.0], 1.0, 2.0);
    assert q == [q[0], q[1]];
  }

  /** The unit test of `calculate_pressure`: `hyam` = `hybm` = 1, 2, 0 in both rows,
      surface pressures 1 and 2, level 1. */
  lemma CalculatePressureExample()
    ensures var row := [LevelConstants(0.0, 0.0, 1.0, 1.0), LevelConstants(0.0, 0.0, 2.0, 2.0),
                        LevelConstants(0.0, 0.0, 0.0, 0.0)];
      CalculatePressure([1.0, 2.0], [row, row], 1) == Ok([3.0, 4.5])
  {
    var row := [LevelConstants(0.0, 0.0, 1.0, 1.0), LevelConstants(0.0, 0.0, 2.0, 2.0),
                LevelConstants(0.0, 0.0, 0.0, 0.0)];
    var r := CalculatePressure([1.0, 2.0], [row, row], 1);
    assert r.value == [r.value[0], r.value[1]];
  }
}
