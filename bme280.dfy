/**
 * The integer part of the BME280 compensation formulas (section 4.2.3 of
 * the Bosch BME280 datasheet) as the host-side algorithm crate writes
 * them: the fine temperature `t_fine`, the temperature in hundredths of a
 * degree Celsius, and the pressure in Pa as a Q24.8 fixed-point number.
 * Right shifts of signed values are arithmetic (they round toward minus
 * infinity, which is Dafny's `/` by a positive constant); the one
 * division of the pressure formula truncates toward zero.
 */
module Bme280 {
  import opened Ints

  type i16 = x: int | -0x8000 <= x < 0x8000

  /** The calibration words the compensation reads (the humidity words are not used by its integer part). */
  datatype Calibration = Calibration(
    digT1: u16, digT2: i16, digT3: i16,
    digP1: u16, digP2: i16, digP3: i16, digP4: i16, digP5: i16,
    digP6: i16, digP7: i16, digP8: i16, digP9: i16)

  /** The calibration the crate's tests use throughout. */
  const TEST_CALIBRATION := Calibration(27504, 26435, -1000, 36477, -10685, 3024, 2855, 140, -7, 15500, -14600, 6000)

  predicate IsI32(x: int) { -0x8000_0000 <= x < 0x8000_0000 }

  /** Rust's `/` on signed integers: the quotient rounded toward zero. */
  function TruncDiv(a: int, b: int): (q: int)
    requires b != 0
    ensures q * b == a - TruncRem(a, b)
    ensures 0 <= (if a >= 0 then TruncRem(a, b) else -TruncRem(a, b)) < (if b > 0 then b else -b)
  {
    if (a >= 0) == (b > 0) then Abs(a) / Abs(b) else -(Abs(a) / Abs(b))
  }

  function TruncRem(a: int, b: int): int
    requires b != 0
  {
    if a >= 0 then Abs(a) % Abs(b) else -(Abs(a) % Abs(b))
  }

  function Abs(x: int): nat { if x < 0 then -x else x }

  /** The first term of `t_fine`: `((adc_T >> 3) - (dig_T1 << 1)) * dig_T2 >> 11`. */
  function TempVar1(adcT: int, c: Calibration): int {
    ((adcT / 8 - c.digT1 * 2) * c.digT2) / 2048
  }

  /** The second term: `(((adc_T >> 4) - dig_T1)^2 >> 12) * dig_T3 >> 14`. */
  function TempVar2(adcT: int, c: Calibration): int {
    (((adcT / 16 - c.digT1) * (adcT / 16 - c.digT1)) / 4096 * c.digT3) / 16384
  }

  /** `t_fine`, the temperature in units of 1/5120 degree Celsius that the pressure formula reads. */
  function TFine(adcT: int, c: Calibration): int {
    TempVar1(adcT, c) + TempVar2(adcT, c)
  }

  /** The temperature of `compensate_temperature` in hundredths of a degree: `(t_fine * 5 + 128) >> 8`. */
  function TemperatureCenti(tFine: int): (t: int)
    ensures 256 * t - 128 <= 5 * tFine < 256 * t + 128
  {
    (tFine * 5 + 128) / 256
  }

  /** `compensate_temperature`: the temperature in hundredths of a degree Celsius and `t_fine`. */
  function CompensateTemperature(adcT: int, c: Calibration): (r: (int, int))
    ensures 256 * r.0 - 128 <= 5 * r.1 < 256 * r.0 + 128
  {
    var tFine := TFine(adcT, c);
    (TemperatureCenti(tFine), tFine)
  }

  /**
   * The temperature is `t_fine * 5 / 256` rounded to the nearest integer,
   * so a larger `t_fine` never gives a lower temperature.
   */
  lemma TemperatureMonotone(f1: int, f2: int)
    requires f1 <= f2
    ensures TemperatureCenti(f1) <= TemperatureCenti(f2)
  {
    var t1 := TemperatureCenti(f1);
    var t2 := TemperatureCenti(f2);
    assert 256 * t2 + 128 > 5 * f2 >= 5 * f1 >= 256 * t1 - 128;
  }

  /**
   * With the test calibration a raw reading of 519888 gives `t_fine`
   * 128422 and 25.08 degrees; the colder and hotter readings of the tests
   * give lower and higher temperatures.
   */
  lemma TestTemperatures()
    ensures CompensateTemperature(519888, TEST_CALIBRATION) == (2508, 128422)
    ensures CompensateTemperature(400000, TEST_CALIBRATION).0 == -1264
    ensures CompensateTemperature(600000, TEST_CALIBRATION).0 == 5011
    ensures CompensateTemperature(300000, TEST_CALIBRATION).0 == -4436
  {
    TestTFine(519888, 9978, 128793, 4989, 6076, -371, 128422);
    TestTFine(400000, -5008, -64642, -2504, 1530, -94, -64736);
    TestTFine(600000, 19992, 258051, 9996, 24394, -1489, 256562);
    TestTFine(300000, -17508, -225989, -8754, 18709, -1142, -227131);
  }

  /** `t_fine` of the test calibration, from the intermediate values of its two terms. */
  lemma TestTFine(adcT: int, a: int, v1: int, d: int, s: int, v2: int, tFine: int)
    requires adcT / 8 - 55008 == a && (a * 26435) / 2048 == v1
    requires adcT / 16 - 27504 == d && (d * d) / 4096 == s && (s * -1000) / 16384 == v2
    requires v1 + v2 == tFine
    ensures TFine(adcT, TEST_CALIBRATION) == tFine
  {
  }

  lemma SquareBound(d: int, m: int)
    requires 0 <= m && -m <= d <= m
    ensures 0 <= d * d <= m * m
  {
    if d >= 0 {
      assert d * d <= m * d by { MulLeft(d, d, m); }
      assert m * d <= m * m by { MulLeft(m, d, m); }
    } else {
      assert d * d == (-d) * (-d);
      assert (-d) * (-d) <= m * (-d) by { MulLeft(-d, -d, m); }
      assert m * (-d) <= m * m by { MulLeft(m, -d, m); }
    }
  }

  /** Multiplying by a non-negative factor keeps an order. */
  lemma MulLeft(k: int, x: int, y: int)
    requires 0 <= k && x <= y
    ensures k * x <= k * y
  {
    assert k * y - k * x == k * (y - x);
  }

  /**
   * With the test calibration, every 20-bit raw temperature keeps each
   * intermediate of the `i32` formula inside the `i32` range, so the
   * unbounded model is the formula the firmware evaluates.
   */
  lemma TestCalibrationFitsI32(adcT: int)
    requires 0 <= adcT < 0x10_0000
    ensures IsI32((adcT / 8 - TEST_CALIBRATION.digT1 * 2) * TEST_CALIBRATION.digT2)
    ensures IsI32((adcT / 16 - TEST_CALIBRATION.digT1) * (adcT / 16 - TEST_CALIBRATION.digT1))
    ensures IsI32(((adcT / 16 - TEST_CALIBRATION.digT1) * (adcT / 16 - TEST_CALIBRATION.digT1)) / 4096 * TEST_CALIBRATION.digT3)
    ensures IsI32(TFine(adcT, TEST_CALIBRATION) * 5 + 128)
  {
    var c := TEST_CALIBRATION;
    var a := adcT / 8 - c.digT1 * 2;
    assert -55008 <= a <= 76063;
    assert 0 <= a + 55008 <= 131071;
    var p := a * 26435;
    assert -55008 * 26435 <= p <= 76063 * 26435 by {
      if a >= 0 { assert a * 26435 <= 76063 * 26435; } else { assert a * 26435 >= -55008 * 26435; }
    }
    var d := adcT / 16 - c.digT1;
    assert -27504 <= d <= 38031;
    SquareBound(d, 38031);
    var s := (d * d) / 4096;
    assert 0 <= s <= 38031 * 38031 / 4096;
    assert -353120000 <= s * -1000 <= 0;
    var v1 := p / 2048;
    var v2 := (s * -1000) / 16384;
    assert TFine(adcT, c) == v1 + v2;
  }

  /** The pressure denominator: `((1 << 47) + var1) * dig_P1 >> 33`; the division is skipped when it is 0. */
  function PressureDenominator(tFine: int, c: Calibration): int {
    var v := tFine - 128000;
    var var1 := (v * v * c.digP3) / 256 + v * c.digP2 * 4096;
    ((0x8000_0000_0000 + var1) * c.digP1) / 0x2_0000_0000
  }

  /** `var2` of the pressure formula before the division. */
  function PressureVar2(tFine: int, c: Calibration): int {
    var v := tFine - 128000;
    v * v * c.digP6 + v * c.digP5 * 0x2_0000 + c.digP4 * 0x8_0000_0000
  }

  /**
   * `compensate_pressure`, its integer part: the pressure in Pa times 256,
   * or 0 when the denominator is 0 (the crate divides the result by 25600
   * to give hPa).
   */
  function CompensatePressure(adcP: int, tFine: int, c: Calibration): (p: int)
    ensures PressureDenominator(tFine, c) == 0 ==> p == 0
  {
    var var1 := PressureDenominator(tFine, c);
    if var1 == 0 then 0
    else
      var p := 1048576 - adcP;
      var q := TruncDiv((p * 0x8000_0000 - PressureVar2(tFine, c)) * 3125, var1);
      PressureTail(q, c)
  }

  /** The last step: `((p + var1 + var2) >> 8) + (dig_P7 << 4)`, the two small corrections from `dig_P9` and `dig_P8`. */
  function PressureTail(q: int, c: Calibration): int {
    var var1 := (c.digP9 * (q / 8192) * (q / 8192)) / 0x200_0000;
    var var2 := (c.digP8 * q) / 0x8_0000;
    (q + var1 + var2) / 256 + c.digP7 * 16
  }

  /** A zero `dig_P1` (for instance a calibration never read, all zeros) makes the denominator 0 and the pressure 0. */
  lemma ZeroP1GivesZeroPressure(adcP: int, tFine: int, c: Calibration)
    requires c.digP1 == 0
    ensures CompensatePressure(adcP, tFine, c) == 0
  {
    var v := tFine - 128000;
    var var1 := (v * v * c.digP3) / 256 + v * c.digP2 * 4096;
    assert (0x8000_0000_0000 + var1) * c.digP1 == 0;
  }

  /**
   * With `t_fine` 128422, the value the temperature test reading produces,
   * a raw pressure of 415148 gives 25767233 / 256 Pa, 1006.53 hPa, inside
   * 950 to 1100 hPa.
   */
  lemma TestPressure()
    ensures CompensatePressure(415148, 128422, TEST_CALIBRATION) == 25767233
    ensures 950 * 25600 <= CompensatePressure(415148, 128422, TEST_CALIBRATION) <= 1100 * 25600
  {
    var c := TEST_CALIBRATION;
    var v := 128422 - 128000;
    assert v * v * 3024 == 538526016;
    assert 538526016 / 256 == 2103617;
    assert v * -10685 * 4096 == -18469150720;
    assert (0x8000_0000_0000 + -18467047103) * 36477 == 5133007740260123325;
    assert 5133007740260123325 / 0x2_0000_0000 == 597560748;
    assert PressureDenominator(128422, c) == 597560748;
    assert PressureVar2(128422, c) == 98104795527812;
    assert ((1048576 - 415148) * 0x8000_0000 - 98104795527812) * 3125 == 3944285864554787500;
    assert 3944285864554787500 / 597560748 == 6600644165;
    var q := 6600644165;
    assert q / 8192 == 805742;
    assert 6000 * 805742 * 805742 == 3895321023384000;
    assert 3895321023384000 / 0x200_0000 == 116089612;
    assert (-14600 * q) / 0x8_0000 == -183810053;
    assert PressureTail(q, c) == 25767233;
  }

  /**
   * The pressure test's own reading: with `t_fine` 128066 a raw pressure of
   * 415148 gives 25764492 / 256 Pa, 1006.43 hPa, inside the 950 to 1100 hPa
   * the test expects.
   */
  lemma TestPressureAtTestTFine()
    ensures CompensatePressure(415148, 128066, TEST_CALIBRATION) == 25764492
    ensures 950 * 25600 <= CompensatePressure(415148, 128066, TEST_CALIBRATION) <= 1100 * 25600
  {
    var c := TEST_CALIBRATION;
    var v := 128066 - 128000;
    assert v * v * 3024 == 13172544;
    assert 13172544 / 256 == 51455;
    assert v * -10685 * 4096 == -2888540160;
    assert (0x8000_0000_0000 + -2888488705) * 36477 == 5133575999334807171;
    assert 5133575999334807171 / 0x2_0000_0000 == 597626902;
    assert PressureDenominator(128066, c) == 597626902;
    assert PressureVar2(128066, c) == 98098264115428;
    assert ((1048576 - 415148) * 0x8000_0000 - 98098264115428) * 3125 == 3944306275218487500;
    assert 3944306275218487500 / 597626902 == 6599947663;
    var q := 6599947663;
    assert q / 8192 == 805657;
    assert 6000 * 805657 * 805657 == 3894499209894000;
    assert 3894499209894000 / 0x200_0000 == 116065120;
    assert (-14600 * q) / 0x8_0000 == -183790657;
    assert PressureTail(q, c) == 25764492;
  }

}
