/**
 * The configuration record of the object dictionary: its defaults and the
 * stored block, the valid-block marker written with it, the charge
 * parameters that follow from a battery's type, the current offsets, and
 * the values derived from it (control bits and current limits).
 */
module ObjDic {
  import opened Types

  /** Marker in the first byte of a configuration block that was written by the firmware. */
  const VALID_BLOCK: int := 0xD5

  /** Absorption and float voltages (volts x 256) per battery type at 25 C. */
  const WET_ABSORPTION: int := 3686
  const WET_FLOAT: int := 3379
  const AGM_ABSORPTION: int := 3738
  const AGM_FLOAT: int := 3482
  const GEL_ABSORPTION: int := 3584
  const GEL_FLOAT: int := 3532
  /** Default divisors of the capacity giving the float-stage current and the bulk current limit. */
  const FLOAT_STAGE_SCALE: int := 50
  const BULK_LIMIT_SCALE: int := 5

  /** The configuration record (union ConfigGroup). Per-battery and per-interface arrays are sequences. */
  datatype Config = Config(
    validBlock: int,
    measurementSend: bool,
    debugMessageSend: bool,
    enableSend: bool,
    recording: bool,
    batteryCapacity: seq<int>,
    batteryType: seq<int>,
    alphaR: int,
    alphaV: int,
    alphaC: int,
    absorptionVoltage: seq<int>,
    floatVoltage: seq<int>,
    floatStageCurrentScale: seq<int>,
    bulkCurrentLimitScale: seq<int>,
    currentOffsets: seq<int>,
    autoTrack: bool,
    monitorStrategy: int,
    panelSwitchSetting: int,
    lowVoltage: int,
    criticalVoltage: int,
    lowSoC: int,
    criticalSoC: int,
    floatBulkSoC: int,
    chargerStrategy: int,
    restTime: int,
    absorptionTime: int,
    minDutyCycle: int,
    floatTime: int,
    watchdogDelay: int,
    chargerDelay: int,
    measurementDelay: int,
    monitorDelay: int,
    calibrationDelay: int
  )

  /** The fixed array sizes of the record. */
  predicate Shaped(c: Config)
  {
    && |c.batteryCapacity| == NUM_BATS && |c.batteryType| == NUM_BATS
    && |c.absorptionVoltage| == NUM_BATS && |c.floatVoltage| == NUM_BATS
    && |c.floatStageCurrentScale| == NUM_BATS && |c.bulkCurrentLimitScale| == NUM_BATS
    && |c.currentOffsets| == NUM_IFS
  }

  /** Build-time defaults whose values live in headers outside this model. */
  datatype Defaults = Defaults(
    capacities: seq<int>, types: seq<int>,
    lowVoltage: int, criticalVoltage: int, lowSoC: int, criticalSoC: int, floatBulkSoC: int,
    restTime: int, absorptionTime: int, minDutyCycle: int, floatTime: int,
    watchdogDelay: int, chargerDelay: int, measurementDelay: int, monitorDelay: int, calibrationDelay: int)

  predicate DefaultsShaped(d: Defaults)
  {
    |d.capacities| == NUM_BATS && |d.types| == NUM_BATS
  }

  // ---------------------------------------------------------------------
  // Specification functions

  /** The absorption and float voltages for a battery type; other types keep the given ones. */
  function TypeVoltages(t: int, absorption: int, float: int): (int, int)
  {
    if t == WET_T then (WET_ABSORPTION, WET_FLOAT)
    else if t == AGM_T then (AGM_ABSORPTION, AGM_FLOAT)
    else if t == GEL_T then (GEL_ABSORPTION, GEL_FLOAT)
    else (absorption, float)
  }

  /** setBatteryChargeParameters on a record. */
  function ChargeParameters(c: Config, b: int): (r: Config)
    requires Shaped(c) && 0 <= b < NUM_BATS
    ensures Shaped(r)
  {
    var v := TypeVoltages(c.batteryType[b], c.absorptionVoltage[b], c.floatVoltage[b]);
    c.(absorptionVoltage := c.absorptionVoltage[b := v.0], floatVoltage := c.floatVoltage[b := v.1],
       floatStageCurrentScale := c.floatStageCurrentScale[b := FLOAT_STAGE_SCALE],
       bulkCurrentLimitScale := c.bulkCurrentLimitScale[b := BULK_LIMIT_SCALE])
  }

  /** The charge parameters of batteries 0..n-1 set in turn. */
  function ChargeParametersUpTo(c: Config, n: nat): (r: Config)
    requires Shaped(c) && n <= NUM_BATS
    ensures Shaped(r)
  {
    if n == 0 then c else ChargeParameters(ChargeParametersUpTo(c, n - 1), n - 1)
  }

  /** The current offsets of interfaces 0..n-1 set to zero. */
  function ZeroOffsetsUpTo(c: Config, n: nat): (r: Config)
    requires Shaped(c) && n <= NUM_IFS
  {
    c.(currentOffsets := seq(NUM_IFS, j requires 0 <= j < NUM_IFS => if j < n then 0 else c.currentOffsets[j]))
  }

  /** The record setGlobalDefaults installs over a block that is not valid. */
  function DefaultConfig(stored: Config, d: Defaults): (r: Config)
    requires Shaped(stored) && DefaultsShaped(d)
  {
    var c1 := stored.(measurementSend := true, debugMessageSend := false, enableSend := false,
                      recording := false, batteryCapacity := d.capacities, batteryType := d.types,
                      alphaR := 100, alphaV := 256, alphaC := 180);
    var c2 := ZeroOffsetsUpTo(ChargeParametersUpTo(c1, NUM_BATS), NUM_IFS);
    c2.(autoTrack := false, monitorStrategy := 0xFF, panelSwitchSetting := 0,
        lowVoltage := d.lowVoltage, criticalVoltage := d.criticalVoltage,
        lowSoC := d.lowSoC, criticalSoC := d.criticalSoC, floatBulkSoC := d.floatBulkSoC,
        chargerStrategy := 0, restTime := d.restTime, absorptionTime := d.absorptionTime,
        minDutyCycle := d.minDutyCycle, floatTime := d.floatTime,
        watchdogDelay := d.watchdogDelay, chargerDelay := d.chargerDelay,
        measurementDelay := d.measurementDelay, monitorDelay := d.monitorDelay,
        calibrationDelay := d.calibrationDelay)
  }

  /** The record in use after start-up: the stored block when it carries the marker, else the defaults. */
  function StartupConfig(stored: Config, d: Defaults): Config
    requires Shaped(stored) && DefaultsShaped(d)
  {
    if stored.validBlock == VALID_BLOCK then stored else DefaultConfig(stored, d)
  }

  // ---------------------------------------------------------------------
  // Properties

  /**
   * setBatteryChargeParameters sets the absorption and float voltages from
   * the battery's type (other types keep them), sets the two scales to 50
   * and 5, and changes nothing for the other batteries or elsewhere.
   */
  lemma ChargeParametersEffect(c: Config, b: int, j: int)
    requires Shaped(c) && 0 <= b < NUM_BATS && 0 <= j < NUM_BATS
    ensures var r := ChargeParameters(c, b);
      && Shaped(r)
      && (c.batteryType[b] == WET_T ==> r.absorptionVoltage[b] == 3686 && r.floatVoltage[b] == 3379)
      && (c.batteryType[b] == AGM_T ==> r.absorptionVoltage[b] == 3738 && r.floatVoltage[b] == 3482)
      && (c.batteryType[b] == GEL_T ==> r.absorptionVoltage[b] == 3584 && r.floatVoltage[b] == 3532)
      && (c.batteryType[b] !in {WET_T, AGM_T, GEL_T} ==>
            r.absorptionVoltage[b] == c.absorptionVoltage[b] && r.floatVoltage[b] == c.floatVoltage[b])
      && r.floatStageCurrentScale[b] == 50 && r.bulkCurrentLimitScale[b] == 5
      && (j != b ==> && r.absorptionVoltage[j] == c.absorptionVoltage[j] && r.floatVoltage[j] == c.floatVoltage[j]
                     && r.floatStageCurrentScale[j] == c.floatStageCurrentScale[j]
                     && r.bulkCurrentLimitScale[j] == c.bulkCurrentLimitScale[j])
      && r == c.(absorptionVoltage := r.absorptionVoltage, floatVoltage := r.floatVoltage,
                 floatStageCurrentScale := r.floatStageCurrentScale,
                 bulkCurrentLimitScale := r.bulkCurrentLimitScale)
  {
  }

  /** Setting the parameters of batteries 0..n-1 leaves everything but those four arrays, and later batteries, alone. */
  lemma {:induction false} ChargeParametersUpToEffect(c: Config, n: nat, j: int)
    requires Shaped(c) && n <= NUM_BATS && 0 <= j < NUM_BATS
    ensures var r := ChargeParametersUpTo(c, n);
      && r == c.(absorptionVoltage := r.absorptionVoltage, floatVoltage := r.floatVoltage,
                 floatStageCurrentScale := r.floatStageCurrentScale,
                 bulkCurrentLimitScale := r.bulkCurrentLimitScale)
      && (j < n ==> r.floatStageCurrentScale[j] == 50 && r.bulkCurrentLimitScale[j] == 5)
      && (j < n && c.batteryType[j] == WET_T ==> r.absorptionVoltage[j] == 3686 && r.floatVoltage[j] == 3379)
      && (j < n && c.batteryType[j] == AGM_T ==> r.absorptionVoltage[j] == 3738 && r.floatVoltage[j] == 3482)
      && (j < n && c.batteryType[j] == GEL_T ==> r.absorptionVoltage[j] == 3584 && r.floatVoltage[j] == 3532)
      && (j >= n ==> r.absorptionVoltage[j] == c.absorptionVoltage[j] && r.floatVoltage[j] == c.floatVoltage[j]
                     && r.floatStageCurrentScale[j] == c.floatStageCurrentScale[j]
                     && r.bulkCurrentLimitScale[j] == c.bulkCurrentLimitScale[j])
  {
    if n > 0 {
      var p := ChargeParametersUpTo(c, n - 1);
      ChargeParametersUpToEffect(c, n - 1, j);
      ChargeParametersEffect(p, n - 1, j);
      assert p.batteryType == c.batteryType;
    }
  }

  /**
   * Over a block without the marker, start-up installs the defaults:
   * automatic tracking off, every monitor strategy on, no charger strategy,
   * messages on and debugging, sending and recording off, every current
   * offset zero, and each battery's charge parameters from its default
   * type. The marker itself is left as it was.
   */
  lemma DefaultsInstalled(stored: Config, d: Defaults, j: int)
    requires Shaped(stored) && DefaultsShaped(d) && stored.validBlock != VALID_BLOCK && 0 <= j < NUM_BATS
    ensures var c := StartupConfig(stored, d);
      && Shaped(c)
      && c.validBlock == stored.validBlock
      && !c.autoTrack && c.monitorStrategy == 0xFF && c.chargerStrategy == 0 && c.panelSwitchSetting == 0
      && c.measurementSend && !c.debugMessageSend && !c.enableSend && !c.recording
      && (forall i | 0 <= i < NUM_IFS :: c.currentOffsets[i] == 0)
      && c.batteryCapacity == d.capacities && c.batteryType == d.types
      && c.floatStageCurrentScale[j] == 50 && c.bulkCurrentLimitScale[j] == 5
      && (d.types[j] == WET_T ==> c.absorptionVoltage[j] == 3686 && c.floatVoltage[j] == 3379)
      && (d.types[j] == AGM_T ==> c.absorptionVoltage[j] == 3738 && c.floatVoltage[j] == 3482)
      && (d.types[j] == GEL_T ==> c.absorptionVoltage[j] == 3584 && c.floatVoltage[j] == 3532)
      && c.lowVoltage == d.lowVoltage && c.criticalVoltage == d.criticalVoltage
      && c.lowSoC == d.lowSoC && c.criticalSoC == d.criticalSoC && c.floatBulkSoC == d.floatBulkSoC
      && c.monitorDelay == d.monitorDelay
  {
    var c1 := stored.(measurementSend := true, debugMessageSend := false, enableSend := false,
                      recording := false, batteryCapacity := d.capacities, batteryType := d.types,
                      alphaR := 100, alphaV := 256, alphaC := 180);
    ChargeParametersUpToEffect(c1, NUM_BATS, j);
  }

  /** A block with the marker is used as stored. */
  lemma StoredBlockKept(stored: Config, d: Defaults)
    requires Shaped(stored) && DefaultsShaped(d) && stored.validBlock == VALID_BLOCK
    ensures StartupConfig(stored, d) == stored
  {
  }

  /**
   * A record written with writeConfigBlock is used unchanged at the next
   * start-up, whatever the defaults.
   */
  lemma WrittenBlockRestored(c: Config, d: Defaults)
    requires Shaped(c) && DefaultsShaped(d)
    ensures StartupConfig(c.(validBlock := VALID_BLOCK), d) == c.(validBlock := VALID_BLOCK)
  {
  }

  /**
   * getControls: bit 0 autoTrack, bit 1 recording, bit 3 measurementSend,
   * bit 4 debugMessageSend, every other bit clear.
   */
  function Controls(c: Config): (r: bv16)
    ensures (r & 0x01 != 0) <==> c.autoTrack
    ensures (r & 0x02 != 0) <==> c.recording
    ensures (r & 0x08 != 0) <==> c.measurementSend
    ensures (r & 0x10 != 0) <==> c.debugMessageSend
    ensures r & 0xFFE4 == 0
  {
    (if c.autoTrack then 0x01 else 0) | (if c.recording then 0x02 else 0)
    | (if c.measurementSend then 0x08 else 0) | (if c.debugMessageSend then 0x10 else 0)
  }

  /** C integer division, truncating toward zero. */
  function TruncDiv(a: int, b: int): (q: int)
    requires b != 0
    ensures Abs(q) == Abs(a) / Abs(b)
    ensures q != 0 ==> (q < 0 <==> (a < 0) != (b < 0))
  {
    var q := Abs(a) / Abs(b);
    if (a < 0) != (b < 0) then -q else q
  }

  /** getBulkCurrentLimit: capacity*256/scale, returned as int16_t. */
  function BulkCurrentLimit(c: Config, b: int): int
    requires Shaped(c) && 0 <= b < NUM_BATS && c.bulkCurrentLimitScale[b] != 0
  {
    ToI16(TruncDiv(c.batteryCapacity[b] * 256, c.bulkCurrentLimitScale[b]))
  }

  /** getFloatStageCurrent: capacity*256/scale, returned as int16_t. */
  function FloatStageCurrent(c: Config, b: int): int
    requires Shaped(c) && 0 <= b < NUM_BATS && c.floatStageCurrentScale[b] != 0
  {
    ToI16(TruncDiv(c.batteryCapacity[b] * 256, c.floatStageCurrentScale[b]))
  }

  /**
   * For a non-negative capacity and a positive scale whose quotient fits
   * int16_t, the limit is the largest current (amps x 256) that the scale
   * times does not exceed the capacity (amp-hours x 256).
   */
  lemma {:induction false} CurrentLimitIsQuotient(capacity: int, scale: int)
    requires capacity >= 0 && scale > 0 && capacity * 256 / scale < 0x8000
    ensures var q := ToI16(TruncDiv(capacity * 256, scale));
      q >= 0 && q * scale <= capacity * 256 < (q + 1) * scale
  {
    var q := capacity * 256 / scale;
    assert TruncDiv(capacity * 256, scale) == q;
    assert q * scale <= capacity * 256 < (q + 1) * scale;
  }

  /** getBulkCurrentLimit is the largest current that the bulk scale times does not exceed the capacity. */
  lemma BulkLimitIsQuotient(c: Config, b: int)
    requires Shaped(c) && 0 <= b < NUM_BATS && c.batteryCapacity[b] >= 0 && c.bulkCurrentLimitScale[b] > 0
    requires c.batteryCapacity[b] * 256 / c.bulkCurrentLimitScale[b] < 0x8000
    ensures var q := BulkCurrentLimit(c, b);
      q >= 0 && q * c.bulkCurrentLimitScale[b] <= c.batteryCapacity[b] * 256 < (q + 1) * c.bulkCurrentLimitScale[b]
  {
    CurrentLimitIsQuotient(c.batteryCapacity[b], c.bulkCurrentLimitScale[b]);
  }

  /** getFloatStageCurrent is the largest current that the float scale times does not exceed the capacity. */
  lemma FloatLimitIsQuotient(c: Config, b: int)
    requires Shaped(c) && 0 <= b < NUM_BATS && c.batteryCapacity[b] >= 0 && c.floatStageCurrentScale[b] > 0
    requires c.batteryCapacity[b] * 256 / c.floatStageCurrentScale[b] < 0x8000
    ensures var q := FloatStageCurrent(c, b);
      q >= 0 && q * c.floatStageCurrentScale[b] <= c.batteryCapacity[b] * 256 < (q + 1) * c.floatStageCurrentScale[b]
  {
    CurrentLimitIsQuotient(c.batteryCapacity[b], c.floatStageCurrentScale[b]);
  }

  /**
   * With the default bulk scale of 5, a capacity of 640 Ah or more gives a
   * quotient outside int16_t, so the limit returned is negative.
   */
  lemma BulkLimitWrapsFrom640Ah()
    ensures ToI16(TruncDiv(639 * 256, BULK_LIMIT_SCALE)) == 32716
    ensures ToI16(TruncDiv(640 * 256, BULK_LIMIT_SCALE)) == -32768
  {
  }

  // ---------------------------------------------------------------------
  // The record as the firmware holds it

  /** The working configuration and the block kept in flash. */
  class ObjectDictionary {
    var config: Config
    var flashBlock: Config

    predicate Valid()
      reads this
    {
      Shaped(config) && Shaped(flashBlock)
    }

    /** A dictionary over a flash block, before start-up has read it. */
    constructor (stored: Config)
      requires Shaped(stored)
      ensures Valid() && flashBlock == stored && config == stored
    {
      config := stored;
      flashBlock := stored;
    }

    /** setCurrentOffset: one interface's offset, nothing else. */
    method SetCurrentOffset(i: int, offset: int)
      requires Valid() && 0 <= i < NUM_IFS
      modifies this
      ensures Valid() && flashBlock == old(flashBlock)
      ensures config == old(config).(currentOffsets := old(config).currentOffsets[i := offset])
      ensures GetCurrentOffset(i) == offset
      ensures forall j | 0 <= j < NUM_IFS && j != i :: GetCurrentOffset(j) == old(GetCurrentOffset(j))
    {
      config := config.(currentOffsets := config.currentOffsets[i := offset]);
    }

    /** getCurrentOffset. */
    function GetCurrentOffset(i: int): int
      reads this
      requires Valid() && 0 <= i < NUM_IFS
    {
      config.currentOffsets[i]
    }

    /** setBatteryChargeParameters. */
    method SetBatteryChargeParameters(b: int)
      requires Valid() && 0 <= b < NUM_BATS
      modifies this
      ensures Valid() && flashBlock == old(flashBlock)
      ensures config == ChargeParameters(old(config), b)
    {
      var absorption := config.absorptionVoltage[b];
      var float := config.floatVoltage[b];
      var t := config.batteryType[b];
      if t == WET_T {
        absorption, float := WET_ABSORPTION, WET_FLOAT;
      } else if t == AGM_T {
        absorption, float := AGM_ABSORPTION, AGM_FLOAT;
      } else if t == GEL_T {
        absorption, float := GEL_ABSORPTION, GEL_FLOAT;
      }
      config := config.(absorptionVoltage := config.absorptionVoltage[b := absorption],
                        floatVoltage := config.floatVoltage[b := float],
                        floatStageCurrentScale := config.floatStageCurrentScale[b := FLOAT_STAGE_SCALE],
                        bulkCurrentLimitScale := config.bulkCurrentLimitScale[b := BULK_LIMIT_SCALE]);
    }

    /**
     * writeConfigBlock: the marker is set and the record copied to flash.
     * The flash driver's result code is not modelled.
     */
    method WriteConfigBlock()
      requires Valid()
      modifies this
      ensures Valid()
      ensures config == old(config).(validBlock := VALID_BLOCK) && flashBlock == config
    {
      config := config.(validBlock := VALID_BLOCK);
      flashBlock := config;
    }

    /** The charge parameters of every battery set from its type. */
    method SetAllChargeParameters()
      requires Valid()
      modifies this
      ensures Valid() && flashBlock == old(flashBlock)
      ensures config == ChargeParametersUpTo(old(config), NUM_BATS)
    {
      var i := 0;
      while i < NUM_BATS
        invariant 0 <= i <= NUM_BATS && Valid() && flashBlock == old(flashBlock)
        invariant config == ChargeParametersUpTo(old(config), i)
      {
        SetBatteryChargeParameters(i);
        i := i + 1;
      }
    }

    /** Every interface's current offset cleared. */
    method ZeroAllOffsets()
      requires Valid()
      modifies this
      ensures Valid() && flashBlock == old(flashBlock)
      ensures config == ZeroOffsetsUpTo(old(config), NUM_IFS)
    {
      var i := 0;
      while i < NUM_IFS
        invariant 0 <= i <= NUM_IFS && Valid() && flashBlock == old(flashBlock)
        invariant config == ZeroOffsetsUpTo(old(config), i)
      {
        SetCurrentOffset(i, 0);
        i := i + 1;
      }
    }

    /**
     * setGlobalDefaults: read the flash block, keep it if it carries the
     * marker, otherwise install the defaults field by field.
     */
    method SetGlobalDefaults(d: Defaults)
      requires Valid() && DefaultsShaped(d)
      modifies this
      ensures Valid() && flashBlock == old(flashBlock)
      ensures config == StartupConfig(flashBlock, d)
    {
      config := flashBlock;
      if config.validBlock == VALID_BLOCK {
        return;
      }
      config := config.(measurementSend := true, debugMessageSend := false, enableSend := false);
      config := config.(recording := false);
      config := config.(batteryCapacity := d.capacities, batteryType := d.types);
      config := config.(alphaR := 100, alphaV := 256, alphaC := 180);
      SetAllChargeParameters();
      ZeroAllOffsets();
      config := config.(autoTrack := false, monitorStrategy := 0xFF, panelSwitchSetting := 0);
      config := config.(lowVoltage := d.lowVoltage, criticalVoltage := d.criticalVoltage);
      config := config.(lowSoC := d.lowSoC, criticalSoC := d.criticalSoC, floatBulkSoC := d.floatBulkSoC);
      config := config.(chargerStrategy := 0, restTime := d.restTime, absorptionTime := d.absorptionTime);
      config := config.(minDutyCycle := d.minDutyCycle, floatTime := d.floatTime);
      config := config.(watchdogDelay := d.watchdogDelay, chargerDelay := d.chargerDelay);
      config := config.(measurementDelay := d.measurementDelay, monitorDelay := d.monitorDelay);
      config := config.(calibrationDelay := d.calibrationDelay);
    }
  }
}
