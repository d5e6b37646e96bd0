/**
 * The open-circuit-voltage model of state of charge (computeSoC).
 *
 * Voltages are volts x 256, temperatures degrees C x 256, and the result is
 * a percentage x 256. The firmware takes voltage and temperature as
 * uint32_t, so the 32-bit wrap-around of its unsigned arithmetic is written
 * out here and the function is total.
 */
module SocModel {
  import opened Types
  import opened Arith

  /** Full-charge open-circuit voltage of a wet cell (12.66 V x 256). */
  const V100_WET: int := 3242
  /** Full-charge open-circuit voltage of a gel or AGM cell (12.81 V x 256). */
  const V100_CA: int := 3280
  /** Gel/AGM slope breakpoint (12.41 V x 256). */
  const V50: int := 3178
  /** Gel/AGM floor breakpoint (12.01 V x 256). */
  const V25: int := 3075
  /** Reference temperature 48.9 C x 256. */
  const REF_TEMP: int := 12518

  function V100(batteryType: int): (v: int)
    ensures v == V100_WET || v == V100_CA
  {
    if batteryType == WET_T then V100_WET else V100_CA
  }

  /** Temperature difference to the reference, times 64 (uint32 arithmetic). */
  function TempDiff(temperature: int): (d: int)
    requires IsU32(temperature)
    ensures 0 <= d < TWO_32 / 4
  {
    ToU32(REF_TEMP - temperature) / 4
  }

  /** Quadratic correction factor times 65536 (uint32 product). */
  function VFactor(tDiff: int): (f: int)
    requires tDiff >= 0
    ensures 61441 <= f <= 65536
  {
    65536 - ToU32(42 * tDiff * tDiff) / 0x10_0000
  }

  /** The quotient of a uint32 by a factor of at least 61441 is at most 69903. */
  lemma OcvBound(x: int, f: int)
    requires 0 <= x < TWO_32 && 61441 <= f
    ensures 0 <= x / f <= 69903
  {
    DivAntitone(x, 61441, f);
    DivBelow(x, 61441, 69903);
  }

  /** Open-circuit voltage referred to 48.9 C. */
  function Ocv(voltage: int, temperature: int): (ocv: int)
    requires IsU32(voltage) && IsU32(temperature)
    ensures 0 <= ocv <= 69903
  {
    var f := VFactor(TempDiff(temperature));
    var x := ToU32(voltage * 65536);
    OcvBound(x, f);
    x / f
  }

  /** SoC times 65536 before the final shift, from the linear model and the gel/AGM slope change. */
  function RawSoC(ocv: int, batteryType: int): int
  {
    var soc := 100 * (65536 - 320 * (V100(batteryType) - ocv));
    if (batteryType == GEL_T || batteryType == AGM_T) && ocv < V50 then
      (if ocv > V25 then soc + 100 * 160 * (V50 - ocv) else soc + 100 * 160 * (V50 - V25))
    else soc
  }

  /** The clamp of the final result to [0, 100%]. */
  function ClampSoC(s: int): int
  {
    if s > FULL_SOC then FULL_SOC else if s < 0 then 0 else s
  }

  /**
   * computeSoC. The arithmetic shift of the signed intermediate is floor
   * division by 256.
   */
  function ComputeSoC(voltage: int, temperature: int, batteryType: int): (soc: int)
    requires IsU32(voltage) && IsU32(temperature)
    ensures 0 <= soc <= FULL_SOC
  {
    ClampSoC(RawSoC(Ocv(voltage, temperature), batteryType) / 256)
  }

  /** Every intermediate of computeSoC fits the int32_t the firmware stores it in. */
  lemma {:induction false} RawSoCFitsInt32(voltage: int, temperature: int, batteryType: int)
    requires IsU32(voltage) && IsU32(temperature)
    ensures IsI32(RawSoC(Ocv(voltage, temperature), batteryType))
  {
    var ocv := Ocv(voltage, temperature);
    var base := 100 * (65536 - 320 * (V100(batteryType) - ocv));
    assert -98406400 <= base <= 2139705600;
  }

  /** A wet battery at the full-charge voltage and the reference temperature reads 100%. */
  lemma FullChargeReference()
    ensures ComputeSoC(3242, 12518, WET_T) == FULL_SOC
  {
    assert TempDiff(12518) == 0;
    assert VFactor(0) == 65536;
    assert Ocv(3242, 12518) == 3242;
  }

  /** A wet battery at 11.72 V and the reference temperature reads 0%. */
  lemma EmptyReference()
    ensures ComputeSoC(3000, 12518, WET_T) == 0
  {
    assert TempDiff(12518) == 0;
    assert VFactor(0) == 65536;
    assert Ocv(3000, 12518) == 3000;
  }

  lemma FloorDivMonotone(a: int, b: int)
    requires a <= b
    ensures a / 256 <= b / 256
  {
  }

  lemma {:induction false} RawSoCMonotone(o1: int, o2: int, batteryType: int)
    requires o1 <= o2
    ensures RawSoC(o1, batteryType) <= RawSoC(o2, batteryType)
  {
    var v := V100(batteryType);
    var s1 := 100 * (65536 - 320 * (v - o1));
    var s2 := 100 * (65536 - 320 * (v - o2));
    assert s2 - s1 == 32000 * (o2 - o1);
  }

  /**
   * For voltages that do not wrap in the uint32 product voltage*65536,
   * computeSoC is non-decreasing in the voltage.
   */
  lemma {:induction false} ComputeSoCMonotone(v1: int, v2: int, temperature: int, batteryType: int)
    requires 0 <= v1 <= v2 < 65536 && IsU32(temperature)
    ensures ComputeSoC(v1, temperature, batteryType) <= ComputeSoC(v2, temperature, batteryType)
  {
    var f := VFactor(TempDiff(temperature));
    assert ToU32(v1 * 65536) == v1 * 65536;
    assert ToU32(v2 * 65536) == v2 * 65536;
    DivMonotone(v1 * 65536, v2 * 65536, f);
    RawSoCMonotone(Ocv(v1, temperature), Ocv(v2, temperature), batteryType);
    FloorDivMonotone(RawSoC(Ocv(v1, temperature), batteryType), RawSoC(Ocv(v2, temperature), batteryType));
  }

  /**
   * The same model computed with a signed temperature difference: the
   * evidently intended reading of line 972 for temperatures above 48.9 C.
   */
  function SignedVFactor(temperature: int): (f: int)
    ensures 61441 <= f <= 65536
  {
    var td := (REF_TEMP - temperature) / 4;
    65536 - ToU32(42 * td * td) / 0x10_0000
  }

  lemma ModShift(k: int, r: int)
    ensures (k * TWO_32 + r) % TWO_32 == r % TWO_32
  {
  }

  /** The uint32 difference to the reference, divided by four, against the signed one. */
  lemma {:induction false} TempDiffWrap(t: int)
    requires IsI32(t)
    ensures t <= REF_TEMP ==> TempDiff(ToU32(t)) == (REF_TEMP - t) / 4
    ensures t > REF_TEMP ==> TempDiff(ToU32(t)) == TWO_32 / 4 + (REF_TEMP - t) / 4
  {
    var x := ToU32(REF_TEMP - ToU32(t));
    assert x == ToU32(REF_TEMP - t) by {
      assert ToU32(t) == t || ToU32(t) == t + TWO_32;
    }
    if t > REF_TEMP {
      assert x == TWO_32 + (REF_TEMP - t);
      assert x / 4 == TWO_32 / 4 + (REF_TEMP - t) / 4;
    }
  }

  /** 42*(2^30 + td)^2 and 42*td^2 agree modulo 2^32. */
  lemma {:induction false} SquareWrap(td: int)
    ensures ToU32(42 * (TWO_32 / 4 + td) * (TWO_32 / 4 + td)) == ToU32(42 * td * td)
  {
    var k := TWO_32 / 4;
    calc {
      42 * (k + td) * (k + td);
    ==  { assert (k + td) * (k + td) == k * k + 2 * k * td + td * td; }
      42 * (k * k + 2 * k * td + td * td);
    ==
      42 * k * k + 84 * k * td + 42 * td * td;
    ==  { assert 42 * k * k == (42 * 0x1000_0000) * TWO_32; assert 84 * k * td == (21 * td) * TWO_32; }
      (42 * 0x1000_0000 + 21 * td) * TWO_32 + 42 * td * td;
    }
    ModShift(42 * 0x1000_0000 + 21 * td, 42 * td * td);
  }

  /**
   * The unsigned subtraction (12518 - temperature) wraps for temperatures
   * above 48.9 C (and for every negative int32 reading), but the correction
   * factor it produces equals the one a signed difference gives: 42*tDiff^2
   * differs from 42*td^2 by a multiple of 2^32.
   */
  lemma {:induction false} TemperatureWrapHarmless(t: int)
    requires IsI32(t)
    ensures VFactor(TempDiff(ToU32(t))) == SignedVFactor(t)
  {
    TempDiffWrap(t);
    if t > REF_TEMP {
      SquareWrap((REF_TEMP - t) / 4);
    }
  }
}
