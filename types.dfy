/**
 * Shared sizes, state enumerations, the per-battery record and the C
 * integer-width conversions used throughout the battery management model.
 */
module Types {

  /** Hardware sizes of the board: three batteries, two loads, one panel. */
  const NUM_BATS: nat := 3
  const NUM_LOADS: nat := 2
  const NUM_PANELS: nat := 1
  /** Current interfaces: batteries 0..2, loads 3..4, panel 5. */
  const NUM_IFS: nat := NUM_BATS + NUM_LOADS + NUM_PANELS
  /** One calibration test per load/battery pair plus one with every switch open. */
  const NUM_TESTS: nat := NUM_IFS + 1

  /** State of charge is a percentage scaled by 256; 100% is 25600. */
  const FULL_SOC: int := 25600
  /** SoC hysteresis (5% x 256) used when looking for a better battery. */
  const SOC_HYSTERESIS: int := 5 * 256
  /** Charge is coulombs x 256: capacity (Ah) x 3600 x 256 at full charge. */
  const CHARGE_PER_AH: int := 3600 * 256
  /**
   * Largest capacity (Ah) for which capacity*3600*256 fits the 32-bit signed
   * arithmetic the firmware uses for the charge ceiling.
   */
  const MAX_CAPACITY: int := 2330

  /** Monitoring strategy bits. */
  const SEPARATE_LOAD: int := 1
  const PRESERVE_ISOLATION: int := 2

  /** battery_Type codes. The header that defines them is not part of this model; this numbering is assumed. */
  const WET_T: int := 0
  const AGM_T: int := 1
  const GEL_T: int := 2

  datatype HealthState = Good | Weak | Missing
  datatype FillState = Normal | Low | Critical | Faulty
  datatype OpState = Isolated | Loaded | Charging
  datatype ChargingPhase = Bulk | Absorption | Float | Rest

  /**
   * One battery's monitoring state (struct batteryStates). The fields
   * lastCurrent and lastVoltage are never written by the monitor and are
   * not modelled.
   */
  datatype Battery = Battery(
    currentSteady: int,   // uint16: cycles with a small current
    fillState: FillState,
    opState: OpState,
    healthState: HealthState,
    soc: int,             // uint16: percentage x 256
    charge: int,          // int32: coulombs x 256
    isolationTime: int    // uint32: cycles spent isolated
  )

  /** A battery record after zero initialisation of the static array. */
  const ZERO_BATTERY: Battery := Battery(0, Normal, Isolated, Good, 0, 0, 0)

  const TWO_8: int := 0x100
  const TWO_16: int := 0x1_0000
  const TWO_32: int := 0x1_0000_0000

  predicate IsU8(x: int) { 0 <= x < TWO_8 }
  predicate IsU16(x: int) { 0 <= x < TWO_16 }
  predicate IsI16(x: int) { -0x8000 <= x < 0x8000 }
  predicate IsU32(x: int) { 0 <= x < TWO_32 }
  predicate IsI32(x: int) { -0x8000_0000 <= x < 0x8000_0000 }

  /** Conversion to uint8_t: reduction modulo 2^8. */
  function ToU8(x: int): (r: int)
    ensures IsU8(r) && (r - x) % TWO_8 == 0
    ensures IsU8(x) ==> r == x
  {
    x % TWO_8
  }

  /** Conversion to uint16_t: reduction modulo 2^16. */
  function ToU16(x: int): (r: int)
    ensures IsU16(r) && (r - x) % TWO_16 == 0
    ensures IsU16(x) ==> r == x
  {
    x % TWO_16
  }

  /** Conversion to int16_t (two's complement wrap). */
  function ToI16(x: int): (r: int)
    ensures IsI16(r) && (r - x) % TWO_16 == 0
    ensures IsI16(x) ==> r == x
  {
    var m := x % TWO_16;
    if m < 0x8000 then m else m - TWO_16
  }

  /** Conversion to uint32_t: reduction modulo 2^32. */
  function ToU32(x: int): (r: int)
    ensures IsU32(r) && (r - x) % TWO_32 == 0
    ensures IsU32(x) ==> r == x
  {
    x % TWO_32
  }

  /** C's abs on an int. */
  function Abs(x: int): (r: int)
    ensures r >= 0 && (r == x || r == -x)
  {
    if x < 0 then -x else x
  }

  /** True when bit mask `bit` (a power of two below 256) is set in byte `b`. */
  predicate HasBit(b: int, bit: int)
    requires bit == 1 || bit == 2
  {
    (b % (2 * bit)) / bit == 1
  }

  /** A 1-based battery identifier, 0 meaning "none". */
  predicate IsTarget(t: int) { 0 <= t <= NUM_BATS }
}
